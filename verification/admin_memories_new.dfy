/**
 * `handleSubmit` of the second admin create page: it asks for the user,
 * inserts the memory asking for the row back, then uploads each selected
 * file in order under `<memory id>/<clock>-<position>.<ext>` and inserts a
 * media row holding the object's public URL and the file's position. The
 * first failure ends the run; nothing is undone. The clock is read once per
 * file and is an input.
 */
module AdminMemoriesNew {
  import opened Options
  import opened Rows
  import opened Text
  import opened Backend
  import opened MediaTypes

  /** Why a run stopped short; `file` is the 0-based position of the file. */
  datatype Failure =
    | NotSignedIn
    | MemoryInsertRejected
    | NullMemoryRead
    | UploadRejected(file: nat)
    | MediaInsertRejected(file: nat)

  /** The page either moves on to the dashboard or shows an error. */
  datatype Outcome = NavigatedToAdmin | Failed(failure: Failure)

  datatype Submission = Submission(run: Run, outcome: Outcome)

  /**
   * `${memory.id}/${Date.now()}-${i}.${fileExt}`: under the memory's folder,
   * and ending with '.' and the file's extension.
   */
  function StoragePath(memoryId: nat, now: nat, position: nat, name: string): (path: string)
    ensures Decimal(memoryId) + "/" <= path
    ensures var ext := Extension(name);
      |path| > |ext| && path[|path| - |ext| - 1..] == "." + ext
  {
    var folder, middle, ext := Decimal(memoryId) + "/", Decimal(now) + "-" + Decimal(position), Extension(name);
    DottedPath(folder, middle, ext);
    folder + middle + ("." + ext)
  }

  /**
   * The memory row: the form's title, description and date as typed, and
   * `location || null` stores the empty location as SQL null.
   */
  function MemoryFor(form: Form, userId: string): (d: MemoryDraft)
    ensures d.title == form.title && d.description == form.description && d.date == form.date
    ensures d.location == None <==> form.location == ""
    ensures d.location.Some? ==> d.location.value == form.location
    ensures d.imageUrl == None && d.userId == userId
  {
    var location := if form.location == "" then None else Some(form.location);
    MemoryDraft(form.title, form.description, form.date, location, None, userId)
  }

  /** The object path of every file: file `k` at `<memory id>/<clock k>-<k>.<ext>`. */
  function Paths(memoryId: nat, files: seq<File>, clock: seq<nat>): (paths: seq<string>)
    requires |clock| == |files|
    ensures |paths| == |files|
  {
    seq(|files|, k requires 0 <= k < |files| => StoragePath(memoryId, clock[k], k, files[k].name))
  }

  /**
   * The loop's steps once the paths are fixed: file `k` is uploaded to
   * `paths[k]`, and its row holds that object's public URL, the kind the
   * file's MIME type gives, `order_index` k and no owner.
   */
  function Steps(memoryId: nat, baseUrl: string, files: seq<File>, paths: seq<string>): (plan: seq<FileStep>)
    requires |paths| == |files|
    ensures |plan| == |files|
    ensures forall k :: 0 <= k < |plan| ==> plan[k].row.memoryId == memoryId
  {
    seq(|files|, k requires 0 <= k < |files| =>
      FileStep(paths[k], files[k].bytes,
               MediaDraft(memoryId, PublicUrl(baseUrl, paths[k]), KindByVideoPrefix(files[k].mimeType), Some(k), None)))
  }

  /**
   * Two files of one memory never share a path, whatever the clock reads:
   * the position between '-' and '.' tells them apart.
   */
  lemma PathsDistinct(memoryId: nat, now1: nat, i: nat, name1: string, now2: nat, j: nat, name2: string)
    ensures StoragePath(memoryId, now1, i, name1) == StoragePath(memoryId, now2, j, name2) ==> i == j
  {
    var id := Decimal(memoryId);
    var e1, e2 := Extension(name1), Extension(name2);
    PathParts(id, Decimal(now1), Decimal(i), e1);
    PathParts(id, Decimal(now2), Decimal(j), e2);
    if StoragePath(memoryId, now1, i, name1) == StoragePath(memoryId, now2, j, name2) {
      DigitsThenSeparator(id, Decimal(now1) + ['-'] + (Decimal(i) + ['.'] + e1),
                          id, Decimal(now2) + ['-'] + (Decimal(j) + ['.'] + e2), '/');
      DigitsThenSeparator(Decimal(now1), Decimal(i) + ['.'] + e1, Decimal(now2), Decimal(j) + ['.'] + e2, '-');
      DigitsThenSeparator(Decimal(i), e1, Decimal(j), e2, '.');
      DecimalInjective(i, j);
    }
  }

  /** A path read as three separator-led parts, innermost last. */
  lemma PathParts(a: string, b: string, c: string, e: string)
    ensures (a + "/") + (b + "-" + c) + ("." + e) == a + ['/'] + (b + ['-'] + (c + ['.'] + e))
  {
  }

  /** The handler, from the store before the click to the store and page after it. */
  function Submit(store: Store, script: seq<Reply>, auth: Auth, form: Form, baseUrl: string,
                  files: seq<File>, clock: seq<nat>): (s: Submission)
    requires |clock| == |files|
    ensures s.outcome == Failed(NotSignedIn) <==> !auth.SignedIn?
    ensures s.outcome == Failed(NotSignedIn) ==> s.run == Run(store, [])
    ensures s.outcome == Failed(MemoryInsertRejected) <==> auth.SignedIn? && ReplyAt(script, 0) == Err
    ensures s.outcome == Failed(NullMemoryRead) <==> auth.SignedIn? && ReplyAt(script, 0) == NoRow && files != []
    ensures auth.SignedIn? && ReplyAt(script, 0) != Ok ==> s.run == Run(store, [InsertMemoryCall])
    ensures s.outcome.Failed? && s.outcome.failure.UploadRejected? ==> s.outcome.failure.file < |files|
    ensures s.outcome.Failed? && s.outcome.failure.MediaInsertRejected? ==> s.outcome.failure.file < |files|
  {
    SubmitNamed(store, script, auth, form, baseUrl, files, Paths(store.nextId, files, clock))
  }

  /**
   * The handler with the object paths given: the user gate, the memory
   * insert, then the loop. A null `memory` is read only inside the loop, so
   * an insert that returns no row fails the run only when there are files.
   */
  function SubmitNamed(store: Store, script: seq<Reply>, auth: Auth, form: Form, baseUrl: string,
                       files: seq<File>, paths: seq<string>): (s: Submission)
    requires |paths| == |files|
    ensures s.outcome == Failed(NotSignedIn) <==> !auth.SignedIn?
    ensures s.outcome == Failed(NotSignedIn) ==> s.run == Run(store, [])
    ensures s.outcome == Failed(MemoryInsertRejected) <==> auth.SignedIn? && ReplyAt(script, 0) == Err
    ensures s.outcome == Failed(NullMemoryRead) <==> auth.SignedIn? && ReplyAt(script, 0) == NoRow && files != []
    ensures auth.SignedIn? && ReplyAt(script, 0) != Ok ==> s.run == Run(store, [InsertMemoryCall])
    ensures auth.SignedIn? && ReplyAt(script, 0) == NoRow && files == [] ==> s.outcome == NavigatedToAdmin
    ensures s.outcome.Failed? && s.outcome.failure.UploadRejected? ==> s.outcome.failure.file < |files|
    ensures s.outcome.Failed? && s.outcome.failure.MediaInsertRejected? ==> s.outcome.failure.file < |files|
  {
    if !auth.SignedIn? then Submission(Run(store, []), Failed(NotSignedIn))
    else
      var ins := InsertMemory(Run(store, []), script, MemoryFor(form, auth.userId), true);
      if !ins.ok then
        if ReplyAt(script, 0) == Err then Submission(ins.run, Failed(MemoryInsertRejected))
        else if files == [] then Submission(ins.run, NavigatedToAdmin)
        else Submission(ins.run, Failed(NullMemoryRead))
      else
        var loop := RunSteps(Steps(store.nextId, baseUrl, files, paths), ins.run, script);
        Submission(loop.run, LoopOutcome(loop))
  }

  function LoopOutcome(loop: LoopEnd): (o: Outcome)
    ensures o == NavigatedToAdmin <==> loop.halt == Completed
  {
    match loop.halt
    case Completed => NavigatedToAdmin
    case UploadFailed => Failed(UploadRejected(loop.done))
    case RowFailed => Failed(MediaInsertRejected(loop.done))
  }

  /** The loop's end after a successful memory insert. */
  function LoopOf(store: Store, script: seq<Reply>, auth: Auth, form: Form, baseUrl: string,
                  files: seq<File>, paths: seq<string>): LoopEnd
    requires |paths| == |files| && auth.SignedIn?
  {
    var ins := InsertMemory(Run(store, []), script, MemoryFor(form, auth.userId), true);
    RunSteps(Steps(store.nextId, baseUrl, files, paths), ins.run, script)
  }

  /** The rows and objects a successful memory insert leads to, from `Backend.InsertThenLoop`. */
  lemma AfterInsert(store: Store, script: seq<Reply>, auth: Auth, form: Form, baseUrl: string,
                    files: seq<File>, paths: seq<string>)
    requires Valid(store) && |paths| == |files|
    requires auth.SignedIn? && ReplyAt(script, 0) == Ok
    ensures var loop := LoopOf(store, script, auth, form, baseUrl, files, paths);
      var plan := Steps(store.nextId, baseUrl, files, paths);
      && SubmitNamed(store, script, auth, form, baseUrl, files, paths) == Submission(loop.run, LoopOutcome(loop))
      && loop.run.store.memories == store.memories[store.nextId := MemoryFor(form, auth.userId).WithId(store.nextId)]
      && store.nextId !in store.memories
      && Keeps(store, loop.run.store)
      && RowsAdded(store.media, loop.run.store.media, store.nextId + 1, plan, loop.done)
      && BlobsAdded(store.blobs, loop.run.store.blobs, plan, Uploaded(loop))
  {
    InsertThenLoop(store, script, MemoryFor(form, auth.userId), true, Steps(store.nextId, baseUrl, files, paths));
  }

  /** Step `k` uploads file `k` to `paths[k]` and inserts its row with order `k`. */
  lemma StepAt(memoryId: nat, baseUrl: string, files: seq<File>, paths: seq<string>, k: nat)
    requires |paths| == |files| && k < |files|
    ensures var st := Steps(memoryId, baseUrl, files, paths)[k];
      && st.path == paths[k] && st.bytes == files[k].bytes
      && st.row.orderIndex == Some(k)
      && st.row.userId == None
      && st.row.kind == KindByVideoPrefix(files[k].mimeType)
      && st.row.url == PublicUrl(baseUrl, paths[k])
  {
  }

  /**
   * Whatever the paths, a failed upload of file `k` had an error reply to
   * call `2k + 1`, or its path held an object before the click, or an
   * earlier file used the same path.
   */
  lemma {:induction false} NamedUploadFails(store: Store, script: seq<Reply>, auth: Auth, form: Form,
                                            baseUrl: string, files: seq<File>, paths: seq<string>, k: nat)
    requires Valid(store) && |paths| == |files|
    requires SubmitNamed(store, script, auth, form, baseUrl, files, paths).outcome == Failed(UploadRejected(k))
    ensures k < |files|
    ensures || ReplyAt(script, 2 * k + 1) == Err
            || paths[k] in store.blobs
            || exists j :: 0 <= j < k && paths[j] == paths[k]
  {
    UploadFailedLoop(store, script, auth, form, baseUrl, files, paths, k);
    var ins := InsertMemory(Run(store, []), script, MemoryFor(form, auth.userId), true);
    LoopUploadFails(store, ins.run, script, baseUrl, files, paths, k);
  }

  /** The loop part of `NamedUploadFails`, from the run the memory insert left. */
  lemma LoopUploadFails(store: Store, run: Run, script: seq<Reply>, baseUrl: string,
                        files: seq<File>, paths: seq<string>, k: nat)
    requires |paths| == |files| && |run.trace| == 1 && run.store.blobs == store.blobs
    requires RunSteps(Steps(store.nextId, baseUrl, files, paths), run, script).halt == UploadFailed
    requires RunSteps(Steps(store.nextId, baseUrl, files, paths), run, script).done == k
    ensures k < |files|
    ensures || ReplyAt(script, 2 * k + 1) == Err
            || paths[k] in store.blobs
            || exists j :: 0 <= j < k && paths[j] == paths[k]
  {
    var plan := Steps(store.nextId, baseUrl, files, paths);
    RunStepsUploadFails(plan, run, script);
    StepAt(store.nextId, baseUrl, files, paths, k);
    if j :| 0 <= j < k && plan[j].path == plan[k].path {
      StepAt(store.nextId, baseUrl, files, paths, j);
    }
  }

  /** A run that fails at the upload of file `k` inserted the memory and stopped its loop there. */
  lemma UploadFailedLoop(store: Store, script: seq<Reply>, auth: Auth, form: Form,
                         baseUrl: string, files: seq<File>, paths: seq<string>, k: nat)
    requires |paths| == |files|
    requires SubmitNamed(store, script, auth, form, baseUrl, files, paths).outcome == Failed(UploadRejected(k))
    ensures auth.SignedIn? && ReplyAt(script, 0) == Ok
    ensures var ins := InsertMemory(Run(store, []), script, MemoryFor(form, auth.userId), true);
      && ins.run == Run(store.(memories := store.memories[store.nextId := MemoryFor(form, auth.userId).WithId(store.nextId)],
                              nextId := store.nextId + 1), [InsertMemoryCall])
      && LoopOf(store, script, auth, form, baseUrl, files, paths).halt == UploadFailed
      && LoopOf(store, script, auth, form, baseUrl, files, paths).done == k
  {
  }

  /**
   * The memory row: the only new memory row is the one under the counter,
   * owned by the user, with a null location exactly when the field was empty.
   */
  lemma {:induction false} SubmitMemoryRow(store: Store, script: seq<Reply>, auth: Auth, form: Form,
                                           baseUrl: string, files: seq<File>, clock: seq<nat>)
    requires Valid(store) && |clock| == |files|
    ensures var after := Submit(store, script, auth, form, baseUrl, files, clock).run.store;
      forall id :: id in after.memories && id !in store.memories ==>
        && id == store.nextId && auth.SignedIn?
        && after.memories[id].userId == auth.userId
        && after.memories[id].title == form.title
        && after.memories[id].description == form.description
        && (after.memories[id].location == None <==> form.location == "")
  {
    if auth.SignedIn? && ReplyAt(script, 0) == Ok {
      AfterInsert(store, script, auth, form, baseUrl, files, Paths(store.nextId, files, clock));
    }
  }

  /**
   * Each media row that is in `after` but not in `before` is a file's row:
   * the one under id `nextId + 1 + k` belongs to the memory under the
   * counter, has `order_index` k, no owner, and the kind file `k`'s MIME
   * type gives.
   */
  predicate RowsInFileOrder(before: Store, after: Store, files: seq<File>) {
    forall id :: id in after.media && id !in before.media ==> FileRow(before, after, files, id)
  }

  /** `RowsInFileOrder` for the row under `id`. */
  predicate FileRow(before: Store, after: Store, files: seq<File>, id: nat)
    requires id in after.media
  {
    && before.nextId < id <= before.nextId + |files|
    && after.media[id].memoryId == before.nextId
    && after.media[id].orderIndex == Some(id - before.nextId - 1)
    && after.media[id].userId == None
    && after.media[id].kind == KindByVideoPrefix(files[id - before.nextId - 1].mimeType)
  }

  /**
   * Each media row that is in `after` but not in `before`, say file `k`'s,
   * holds the public URL of `paths[k]`, and the object there is new and
   * holds the file's bytes.
   */
  predicate RowsLinkObjects(before: Store, after: Store, baseUrl: string, files: seq<File>, paths: seq<string>)
    requires |paths| == |files|
  {
    forall id :: id in after.media && id !in before.media ==> RowLinksObject(before, after, baseUrl, files, paths, id)
  }

  /** `RowsLinkObjects` for the row under `id`. */
  predicate RowLinksObject(before: Store, after: Store, baseUrl: string, files: seq<File>, paths: seq<string>, id: nat)
    requires |paths| == |files| && id in after.media
  {
    && before.nextId < id <= before.nextId + |files|
    && var k := id - before.nextId - 1;
       && after.media[id].url == PublicUrl(baseUrl, paths[k])
       && paths[k] !in before.blobs && paths[k] in after.blobs
       && after.blobs[paths[k]] == files[k].bytes
  }

  /** The new rows of `after` are the plan's rows, in order, under the ids after the counter. */
  predicate AddsPlanRows(before: Store, after: Store, plan: seq<FileStep>) {
    forall id :: id in after.media && id !in before.media ==>
      && before.nextId < id <= before.nextId + |plan|
      && after.media[id] == plan[id - before.nextId - 1].row.WithId(id)
  }

  /** The object of every new row's step is new in `after` and holds that step's bytes. */
  predicate AddsPlanObjects(before: Store, after: Store, plan: seq<FileStep>) {
    forall id :: id in after.media && id !in before.media ==>
      && before.nextId < id <= before.nextId + |plan|
      && var st := plan[id - before.nextId - 1];
         st.path !in before.blobs && st.path in after.blobs && after.blobs[st.path] == st.bytes
  }

  /** Whatever the paths, a submit adds its loop's rows and objects. */
  lemma {:induction false} NamedAdds(store: Store, script: seq<Reply>, auth: Auth, form: Form,
                                     baseUrl: string, files: seq<File>, paths: seq<string>)
    requires Valid(store) && |paths| == |files|
    ensures var after := SubmitNamed(store, script, auth, form, baseUrl, files, paths).run.store;
      var plan := Steps(store.nextId, baseUrl, files, paths);
      AddsPlanRows(store, after, plan) && AddsPlanObjects(store, after, plan)
  {
    var after := SubmitNamed(store, script, auth, form, baseUrl, files, paths).run.store;
    var plan := Steps(store.nextId, baseUrl, files, paths);
    if auth.SignedIn? && InsertMemory(Run(store, []), script, MemoryFor(form, auth.userId), true).ok {
      var ins := InsertMemory(Run(store, []), script, MemoryFor(form, auth.userId), true);
      var r := RunSteps(plan, ins.run, script);
      InsertThenLoopRows(store, script, MemoryFor(form, auth.userId), true, plan);
      InsertThenLoopWritten(store, script, MemoryFor(form, auth.userId), true, plan);
      forall id | id in after.media && id !in store.media
        ensures id - store.nextId - 1 < Uploaded(r)
      {
      }
    }
    assert AddsPlanRows(store, after, plan);
    assert AddsPlanObjects(store, after, plan);
  }

  /** The rows of the loop's steps are the files' rows in the order chosen. */
  lemma StepRowsInFileOrder(before: Store, after: Store, baseUrl: string, files: seq<File>, paths: seq<string>)
    requires |paths| == |files|
    requires AddsPlanRows(before, after, Steps(before.nextId, baseUrl, files, paths))
    ensures RowsInFileOrder(before, after, files)
  {
    forall id | id in after.media && id !in before.media
      ensures FileRow(before, after, files, id)
    {
      StepRowInFileOrder(before, after, baseUrl, files, paths, id);
    }
  }

  lemma StepRowInFileOrder(before: Store, after: Store, baseUrl: string, files: seq<File>, paths: seq<string>, id: nat)
    requires |paths| == |files| && id in after.media && id !in before.media
    requires AddsPlanRows(before, after, Steps(before.nextId, baseUrl, files, paths))
    ensures FileRow(before, after, files, id)
  {
    var k := id - before.nextId - 1;
    StepAt(before.nextId, baseUrl, files, paths, k);
    assert after.media[id] == Steps(before.nextId, baseUrl, files, paths)[k].row.WithId(id);
  }

  /** The loop's steps link each file's row to the object at its path. */
  lemma StepRowsLinkObjects(before: Store, after: Store, baseUrl: string, files: seq<File>, paths: seq<string>)
    requires |paths| == |files|
    requires AddsPlanRows(before, after, Steps(before.nextId, baseUrl, files, paths))
    requires AddsPlanObjects(before, after, Steps(before.nextId, baseUrl, files, paths))
    ensures RowsLinkObjects(before, after, baseUrl, files, paths)
  {
    forall id | id in after.media && id !in before.media
      ensures RowLinksObject(before, after, baseUrl, files, paths, id)
    {
      StepRowLinksObject(before, after, baseUrl, files, paths, id);
    }
  }

  lemma StepRowLinksObject(before: Store, after: Store, baseUrl: string, files: seq<File>, paths: seq<string>, id: nat)
    requires |paths| == |files| && id in after.media && id !in before.media
    requires AddsPlanRows(before, after, Steps(before.nextId, baseUrl, files, paths))
    requires AddsPlanObjects(before, after, Steps(before.nextId, baseUrl, files, paths))
    ensures RowLinksObject(before, after, baseUrl, files, paths, id)
  {
    var k := id - before.nextId - 1;
    var st := Steps(before.nextId, baseUrl, files, paths)[k];
    StepAt(before.nextId, baseUrl, files, paths, k);
    assert after.media[id] == st.row.WithId(id);
    assert st.path == paths[k] && st.bytes == files[k].bytes;
  }

  /** Order: the media rows a submit adds follow the order the files were chosen in. */
  lemma SubmitOrderIndex(store: Store, script: seq<Reply>, auth: Auth, form: Form,
                         baseUrl: string, files: seq<File>, clock: seq<nat>)
    requires Valid(store) && |clock| == |files|
    ensures RowsInFileOrder(store, Submit(store, script, auth, form, baseUrl, files, clock).run.store, files)
  {
    var paths := Paths(store.nextId, files, clock);
    NamedAdds(store, script, auth, form, baseUrl, files, paths);
    StepRowsInFileOrder(store, Submit(store, script, auth, form, baseUrl, files, clock).run.store, baseUrl, files, paths);
  }

  /**
   * Links: every media row a submit adds, file `k`'s, points at a new object
   * at `<memory id>/<clock k>-<k>.<ext>` holding that file's bytes.
   */
  lemma SubmitUrls(store: Store, script: seq<Reply>, auth: Auth, form: Form,
                   baseUrl: string, files: seq<File>, clock: seq<nat>)
    requires Valid(store) && |clock| == |files|
    ensures RowsLinkObjects(store, Submit(store, script, auth, form, baseUrl, files, clock).run.store,
                            baseUrl, files, Paths(store.nextId, files, clock))
  {
    var paths := Paths(store.nextId, files, clock);
    NamedAdds(store, script, auth, form, baseUrl, files, paths);
    StepRowsLinkObjects(store, Submit(store, script, auth, form, baseUrl, files, clock).run.store, baseUrl, files, paths);
  }

  /**
   * A failed upload of file `k` was refused by the storage (an error reply
   * to call `2k + 1`) or hit an object that was there before the click;
   * it never collides with an earlier file of the same run.
   */
  lemma SubmitUploadFailureCause(store: Store, script: seq<Reply>, auth: Auth, form: Form,
                                 baseUrl: string, files: seq<File>, clock: seq<nat>, k: nat)
    requires Valid(store) && |clock| == |files|
    requires Submit(store, script, auth, form, baseUrl, files, clock).outcome == Failed(UploadRejected(k))
    ensures k < |files|
    ensures || ReplyAt(script, 2 * k + 1) == Err
            || StoragePath(store.nextId, clock[k], k, files[k].name) in store.blobs
  {
    var paths := Paths(store.nextId, files, clock);
    NamedUploadFails(store, script, auth, form, baseUrl, files, paths, k);
    forall j | 0 <= j < k
      ensures paths[j] != paths[k]
    {
      PathsDistinct(store.nextId, clock[j], j, files[j].name, clock[k], k, files[k].name);
    }
  }

  /**
   * The page reaches the dashboard exactly when the memory row and one media
   * row and one object per file were all written, or when the insert gave
   * no row and there were no files to upload.
   */
  lemma {:induction false} SubmitNavigates(store: Store, script: seq<Reply>, auth: Auth, form: Form,
                                           baseUrl: string, files: seq<File>, clock: seq<nat>)
    requires Valid(store) && |clock| == |files|
    ensures var s := Submit(store, script, auth, form, baseUrl, files, clock);
      s.outcome == NavigatedToAdmin <==>
        || (&& store.nextId in s.run.store.memories
            && |s.run.store.media| == |store.media| + |files|
            && |s.run.store.blobs| == |store.blobs| + |files|)
        || (auth.SignedIn? && ReplyAt(script, 0) == NoRow && files == [])
  {
    if auth.SignedIn? && ReplyAt(script, 0) == Ok {
      AfterInsert(store, script, auth, form, baseUrl, files, Paths(store.nextId, files, clock));
    }
  }

  /**
   * Partial failure: when the upload of file `k` fails, the memory row, the
   * rows of files `0..k-1` and their objects remain.
   */
  lemma {:induction false} SubmitUploadFails(store: Store, script: seq<Reply>, auth: Auth, form: Form,
                                             baseUrl: string, files: seq<File>, clock: seq<nat>, k: nat)
    requires Valid(store) && |clock| == |files|
    requires Submit(store, script, auth, form, baseUrl, files, clock).outcome == Failed(UploadRejected(k))
    ensures var after := Submit(store, script, auth, form, baseUrl, files, clock).run.store;
      && store.nextId in after.memories
      && |after.media| == |store.media| + k
      && |after.blobs| == |store.blobs| + k
      && Keeps(store, after)
  {
    AfterInsert(store, script, auth, form, baseUrl, files, Paths(store.nextId, files, clock));
  }

  /**
   * Partial failure: when the row of file `k` is rejected, its object stays
   * in the bucket next to the `k` earlier files' rows and objects.
   */
  lemma {:induction false} SubmitRowFails(store: Store, script: seq<Reply>, auth: Auth, form: Form,
                                          baseUrl: string, files: seq<File>, clock: seq<nat>, k: nat)
    requires Valid(store) && |clock| == |files|
    requires Submit(store, script, auth, form, baseUrl, files, clock).outcome == Failed(MediaInsertRejected(k))
    ensures var after := Submit(store, script, auth, form, baseUrl, files, clock).run.store;
      && store.nextId in after.memories
      && |after.media| == |store.media| + k
      && |after.blobs| == |store.blobs| + k + 1
      && Keeps(store, after)
  {
    AfterInsert(store, script, auth, form, baseUrl, files, Paths(store.nextId, files, clock));
  }

  /** `disabled={isSubmitting || !title || !description}`. */
  function SubmitEnabled(isSubmitting: bool, form: Form): (enabled: bool)
    ensures enabled <==> !isSubmitting && form.title != "" && form.description != ""
  {
    !isSubmitting && form.title != "" && form.description != ""
  }

  /**
   * The date and the location are not looked at: a form with a title and a
   * description can be sent as soon as no submission is running.
   */
  lemma SubmitEnabledIgnoresDate(isSubmitting: bool, form: Form, date: string, location: string)
    ensures SubmitEnabled(isSubmitting, form.(date := date, location := location)) == SubmitEnabled(isSubmitting, form)
    ensures !isSubmitting && form.title != "" && form.description != "" ==> SubmitEnabled(isSubmitting, form)
  {
  }
}
