/**
 * `handleSubmit` of the admin "new memory" page: a session gate, the memory
 * insert (asking for the row back), then one upload and one media row per
 * selected file, in order, each file stored under the memory's id and owned
 * by the session user. The first failure ends the run; nothing is undone.
 * `Date.now()` and the random id are read once per file and are inputs.
 */
module AdminNew {
  import opened Options
  import opened Rows
  import opened Text
  import opened Backend
  import opened MediaTypes

  /** The clock reading and the random base-36 id drawn for one file. */
  datatype Tick = Tick(now: nat, uniqueId: string)

  /** Why a run stopped short; `file` is the 0-based position of the file. */
  datatype Failure =
    | MemoryInsertRejected
    | MemoryNotReturned
    | UploadRejected(file: nat)
    | MediaInsertRejected(file: nat)

  /** Where the page ends: the login page, the dashboard, or an error message. */
  datatype Outcome = RedirectedToLogin | NavigatedToAdmin | Failed(failure: Failure)

  datatype Submission = Submission(run: Run, outcome: Outcome)

  /** `session?.user?.id` is truthy: a session with a non-empty user id. */
  predicate HasUser(auth: Auth) {
    auth.SignedIn? && auth.userId != ""
  }

  /**
   * `${memory.id}/${Date.now()}-${uniqueId}.${ext}`: under the memory's
   * folder, and ending with '.' and the file's extension.
   */
  function StoragePath(memoryId: nat, t: Tick, name: string): (path: string)
    ensures Decimal(memoryId) + "/" <= path
    ensures var ext := Extension(name);
      |path| > |ext| && path[|path| - |ext| - 1..] == "." + ext
  {
    var folder, middle, ext := Decimal(memoryId) + "/", Decimal(t.now) + "-" + t.uniqueId, Extension(name);
    DottedPath(folder, middle, ext);
    folder + middle + ("." + ext)
  }

  /** The upload and the media row the loop makes for one file. */
  function StepFor(memoryId: nat, userId: string, f: File, t: Tick): (step: FileStep)
    ensures step.bytes == f.bytes
    ensures step.row == MediaDraft(memoryId, step.path, KindByImagePrefix(f.mimeType), None, Some(userId))
  {
    var path := StoragePath(memoryId, t, f.name);
    FileStep(path, f.bytes, MediaDraft(memoryId, path, KindByImagePrefix(f.mimeType), None, Some(userId)))
  }

  /**
   * The steps of the loop, one per file in order. The postcondition gives
   * every field but the path; `PlanPath` gives the path.
   */
  function Plan(memoryId: nat, userId: string, files: seq<File>, ticks: seq<Tick>): (plan: seq<FileStep>)
    requires |ticks| == |files|
    ensures |plan| == |files|
    ensures forall k :: 0 <= k < |plan| ==>
      && plan[k].bytes == files[k].bytes
      && plan[k].row == MediaDraft(memoryId, plan[k].path, KindByImagePrefix(files[k].mimeType), None, Some(userId))
  {
    if files == [] then []
    else [StepFor(memoryId, userId, files[0], ticks[0])] + Plan(memoryId, userId, files[1..], ticks[1..])
  }

  lemma {:induction false} PlanPath(memoryId: nat, userId: string, files: seq<File>, ticks: seq<Tick>, k: nat)
    requires |ticks| == |files| && k < |files|
    ensures Plan(memoryId, userId, files, ticks)[k].path == StoragePath(memoryId, ticks[k], files[k].name)
  {
    if k > 0 {
      PlanPath(memoryId, userId, files[1..], ticks[1..], k - 1);
    }
  }

  lemma PathUnderMemory(memoryId: nat, t: Tick, name: string)
    ensures Decimal(memoryId) + "/" <= StoragePath(memoryId, t, name)
  {
    var rest := Decimal(t.now) + "-" + t.uniqueId + "." + Extension(name);
    assert StoragePath(memoryId, t, name) == (Decimal(memoryId) + "/") + rest;
  }

  /**
   * The memory row: the form's fields as typed, the location verbatim even
   * when empty (no `|| null` here), no image URL, and the user as owner.
   */
  function MemoryFor(form: Form, userId: string): (d: MemoryDraft)
    ensures d.title == form.title && d.description == form.description && d.date == form.date
    ensures d.location == Some(form.location)
    ensures d.imageUrl == None && d.userId == userId
  {
    MemoryDraft(form.title, form.description, form.date, Some(form.location), None, userId)
  }

  /** The handler, from the store before the click to the store and page after it. */
  function Submit(store: Store, script: seq<Reply>, auth: Auth, form: Form,
                  files: seq<File>, ticks: seq<Tick>): (s: Submission)
    requires |ticks| == |files|
    ensures s.outcome == RedirectedToLogin <==> !HasUser(auth)
    ensures s.outcome == RedirectedToLogin ==> s.run == Run(store, [])
    ensures s.outcome == Failed(MemoryInsertRejected) <==> HasUser(auth) && ReplyAt(script, 0) == Err
    ensures s.outcome == Failed(MemoryNotReturned) <==> HasUser(auth) && ReplyAt(script, 0) == NoRow
    ensures s.outcome in {Failed(MemoryInsertRejected), Failed(MemoryNotReturned)} ==>
      s.run == Run(store, [InsertMemoryCall])
    ensures s.outcome.Failed? && s.outcome.failure.UploadRejected? ==> s.outcome.failure.file < |files|
    ensures s.outcome.Failed? && s.outcome.failure.MediaInsertRejected? ==> s.outcome.failure.file < |files|
  {
    if !HasUser(auth) then Submission(Run(store, []), RedirectedToLogin)
    else
      var run0 := Run(store, []);
      var ins := InsertMemory(run0, script, MemoryFor(form, auth.userId), true);
      if !ins.ok then
        var why := if ReplyAt(script, 0) == Err then MemoryInsertRejected else MemoryNotReturned;
        Submission(ins.run, Failed(why))
      else
        var loop := RunSteps(Plan(store.nextId, auth.userId, files, ticks), ins.run, script);
        Submission(loop.run, LoopOutcome(loop))
  }

  function LoopOutcome(loop: LoopEnd): (o: Outcome)
    ensures o == NavigatedToAdmin <==> loop.halt == Completed
  {
    match loop.halt
    case Completed => NavigatedToAdmin
    case UploadFailed => Failed(UploadRejected(loop.done))
    case RowFailed => Failed(MediaInsertRejected(loop.done))
  }

  /** The loop's end after a successful memory insert. */
  function LoopOf(store: Store, script: seq<Reply>, auth: Auth, form: Form,
                  files: seq<File>, ticks: seq<Tick>): LoopEnd
    requires |ticks| == |files| && auth.SignedIn?
  {
    var ins := InsertMemory(Run(store, []), script, MemoryFor(form, auth.userId), true);
    RunSteps(Plan(store.nextId, auth.userId, files, ticks), ins.run, script)
  }

  /** The rows and objects a successful memory insert leads to, from `Backend.InsertThenLoop`. */
  lemma AfterInsert(store: Store, script: seq<Reply>, auth: Auth, form: Form,
                    files: seq<File>, ticks: seq<Tick>)
    requires Valid(store) && |ticks| == |files|
    requires HasUser(auth) && InsertMemory(Run(store, []), script, MemoryFor(form, auth.userId), true).ok
    ensures var loop := LoopOf(store, script, auth, form, files, ticks);
      var plan := Plan(store.nextId, auth.userId, files, ticks);
      && Submit(store, script, auth, form, files, ticks) == Submission(loop.run, LoopOutcome(loop))
      && loop.run.store.memories == store.memories[store.nextId := MemoryFor(form, auth.userId).WithId(store.nextId)]
      && store.nextId !in store.memories
      && Keeps(store, loop.run.store)
      && Valid(loop.run.store)
      && RowsAdded(store.media, loop.run.store.media, store.nextId + 1, plan, loop.done)
      && BlobsAdded(store.blobs, loop.run.store.blobs, plan, Uploaded(loop))
      && |loop.run.trace| >= 1
      && loop.run.trace[0] == InsertMemoryCall
      && InsertMemoryCall !in loop.run.trace[1..]
  {
    InsertThenLoop(store, script, MemoryFor(form, auth.userId), true,
                   Plan(store.nextId, auth.userId, files, ticks));
  }

  /**
   * Ownership: the one new memory row and every new media row carry the
   * session user's id, and every new media row belongs to the new memory.
   */
  lemma {:induction false} SubmitStampsOwner(store: Store, script: seq<Reply>, auth: Auth, form: Form,
                                             files: seq<File>, ticks: seq<Tick>)
    requires Valid(store) && |ticks| == |files|
    ensures var after := Submit(store, script, auth, form, files, ticks).run.store;
      && (forall id :: id in after.memories && id !in store.memories ==>
            id == store.nextId && auth.SignedIn? && after.memories[id].userId == auth.userId)
      && (forall id :: id in after.media && id !in store.media ==>
            auth.SignedIn? && after.media[id].userId == Some(auth.userId)
            && after.media[id].memoryId == store.nextId)
  {
    if HasUser(auth) && InsertMemory(Run(store, []), script, MemoryFor(form, auth.userId), true).ok {
      var plan := Plan(store.nextId, auth.userId, files, ticks);
      var ins := InsertMemory(Run(store, []), script, MemoryFor(form, auth.userId), true);
      var after := RunSteps(plan, ins.run, script).run.store;
      RunStepsKeeps(plan, ins.run, script);
      InsertThenLoopRows(store, script, MemoryFor(form, auth.userId), true, plan);
      forall id | id in after.media && id !in store.media
        ensures after.media[id].userId == Some(auth.userId) && after.media[id].memoryId == store.nextId
      {
        var k := id - store.nextId - 1;
        assert after.media[id] == plan[k].row.WithId(id);
      }
    }
  }

  /** Paths: every object the run adds lies under `<memory id>/`. */
  lemma {:induction false} SubmitPaths(store: Store, script: seq<Reply>, auth: Auth, form: Form,
                                       files: seq<File>, ticks: seq<Tick>)
    requires Valid(store) && |ticks| == |files|
    ensures var after := Submit(store, script, auth, form, files, ticks).run.store;
      forall p :: p in after.blobs && p !in store.blobs ==> Decimal(store.nextId) + "/" <= p
  {
    if HasUser(auth) && InsertMemory(Run(store, []), script, MemoryFor(form, auth.userId), true).ok {
      var plan := Plan(store.nextId, auth.userId, files, ticks);
      var ins := InsertMemory(Run(store, []), script, MemoryFor(form, auth.userId), true);
      var after := RunSteps(plan, ins.run, script).run.store;
      InsertThenLoopBlobs(store, script, MemoryFor(form, auth.userId), true, plan);
      forall p | p in after.blobs && p !in store.blobs
        ensures Decimal(store.nextId) + "/" <= p
      {
        var k :| 0 <= k < |plan| && plan[k].path == p;
        PlanPath(store.nextId, auth.userId, files, ticks, k);
        PathUnderMemory(store.nextId, ticks[k], files[k].name);
      }
    }
  }

  /** Every new media row's `url` is exactly the path of an object this run added. */
  lemma {:induction false} SubmitUrls(store: Store, script: seq<Reply>, auth: Auth, form: Form,
                                      files: seq<File>, ticks: seq<Tick>)
    requires Valid(store) && |ticks| == |files|
    ensures var after := Submit(store, script, auth, form, files, ticks).run.store;
      forall id :: id in after.media && id !in store.media ==>
        after.media[id].url in after.blobs && after.media[id].url !in store.blobs
  {
    if HasUser(auth) && InsertMemory(Run(store, []), script, MemoryFor(form, auth.userId), true).ok {
      var plan := Plan(store.nextId, auth.userId, files, ticks);
      var ins := InsertMemory(Run(store, []), script, MemoryFor(form, auth.userId), true);
      var r := RunSteps(plan, ins.run, script);
      var after := r.run.store;
      InsertThenLoopRows(store, script, MemoryFor(form, auth.userId), true, plan);
      InsertThenLoopWritten(store, script, MemoryFor(form, auth.userId), true, plan);
      assert BlobsWritten(store.blobs, after.blobs, plan, Uploaded(r));
      NewRowsLinkNewObjects(store.media, after.media, store.nextId, store.blobs, after.blobs,
                            plan, r.done, Uploaded(r));
    }
  }

  /**
   * Partial failure at an upload: when the upload of file `k` fails, the
   * memory row, `k` media rows and `k` objects remain; nothing is undone.
   */
  lemma {:induction false} SubmitUploadFails(store: Store, script: seq<Reply>, auth: Auth, form: Form,
                                             files: seq<File>, ticks: seq<Tick>, k: nat)
    requires Valid(store) && |ticks| == |files|
    requires Submit(store, script, auth, form, files, ticks).outcome == Failed(UploadRejected(k))
    ensures var after := Submit(store, script, auth, form, files, ticks).run.store;
      && store.nextId in after.memories
      && |after.media| == |store.media| + k
      && |after.blobs| == |store.blobs| + k
      && Keeps(store, after)
  {
    AfterInsert(store, script, auth, form, files, ticks);
  }

  /**
   * Partial failure at a media insert: when the row for file `k` is
   * rejected, the memory row, `k` media rows and `k + 1` objects remain.
   */
  lemma {:induction false} SubmitRowFails(store: Store, script: seq<Reply>, auth: Auth, form: Form,
                                          files: seq<File>, ticks: seq<Tick>, k: nat)
    requires Valid(store) && |ticks| == |files|
    requires Submit(store, script, auth, form, files, ticks).outcome == Failed(MediaInsertRejected(k))
    ensures var after := Submit(store, script, auth, form, files, ticks).run.store;
      && store.nextId in after.memories
      && |after.media| == |store.media| + k
      && |after.blobs| == |store.blobs| + k + 1
      && Keeps(store, after)
  {
    AfterInsert(store, script, auth, form, files, ticks);
  }

  /**
   * The orphan: when the media insert for file `k` fails, that file's object
   * is in the bucket, was not there before, and no new media row refers to it.
   */
  lemma {:induction false} SubmitOrphan(store: Store, script: seq<Reply>, auth: Auth, form: Form,
                                        files: seq<File>, ticks: seq<Tick>, k: nat)
    requires Valid(store) && |ticks| == |files|
    requires Submit(store, script, auth, form, files, ticks).outcome == Failed(MediaInsertRejected(k))
    ensures k < |files|
    ensures var after := Submit(store, script, auth, form, files, ticks).run.store;
      var orphan := StoragePath(store.nextId, ticks[k], files[k].name);
      && orphan in after.blobs && orphan !in store.blobs
      && forall id :: id in after.media && id !in store.media ==> after.media[id].url != orphan
  {
    assert Submit(store, script, auth, form, files, ticks).run == LoopOf(store, script, auth, form, files, ticks).run;
    LoopOrphan(store, script, auth, form, files, ticks, k);
    PlanPath(store.nextId, auth.userId, files, ticks, k);
  }

  /** `SubmitOrphan` for the loop alone, whatever the memory insert answered. */
  lemma LoopOrphan(store: Store, script: seq<Reply>, auth: Auth, form: Form,
                   files: seq<File>, ticks: seq<Tick>, k: nat)
    requires Valid(store) && |ticks| == |files| && auth.SignedIn?
    requires LoopOf(store, script, auth, form, files, ticks).halt == RowFailed
    requires LoopOf(store, script, auth, form, files, ticks).done == k
    ensures k < |files|
    ensures var after := LoopOf(store, script, auth, form, files, ticks).run.store;
      var orphan := Plan(store.nextId, auth.userId, files, ticks)[k].path;
      && orphan in after.blobs && orphan !in store.blobs
      && forall id :: id in after.media && id !in store.media ==> after.media[id].url != orphan
  {
    var ins := InsertMemory(Run(store, []), script, MemoryFor(form, auth.userId), true);
    var plan := Plan(store.nextId, auth.userId, files, ticks);
    var loop := RunSteps(plan, ins.run, script);
    var mid := ins.run.store;
    assert mid.media == store.media && mid.blobs == store.blobs && mid.nextId >= store.nextId;
    RunStepsRows(plan, ins.run, script);
    RunStepsBlobs(plan, ins.run, script);
    assert RowsAdded(store.media, loop.run.store.media, mid.nextId, plan, k);
    assert BlobsAdded(store.blobs, loop.run.store.blobs, plan, k + 1);
    OrphanOfLoop(store.media, loop.run.store.media, store.blobs, loop.run.store.blobs, mid.nextId, plan, k);
  }

  /**
   * After a loop that wrote `k` rows from id `n` on and `k + 1` objects,
   * for a plan whose rows point at their own paths, object `k` is new and
   * no new row points at it.
   */
  lemma OrphanOfLoop(media: map<nat, MediaItem>, media2: map<nat, MediaItem>,
                     blobs: map<string, Bytes>, blobs2: map<string, Bytes>,
                     n: nat, plan: seq<FileStep>, k: nat)
    requires k < |plan|
    requires forall j :: 0 <= j < |plan| ==> plan[j].row.url == plan[j].path
    requires RowKeys(media, media2, n, k)
    requires RowValues(media2, n, plan, k)
    requires BlobsWritten(blobs, blobs2, plan, k + 1)
    requires DistinctPaths(plan, k + 1)
    ensures plan[k].path in blobs2 && plan[k].path !in blobs
    ensures forall id :: id in media2 && id !in media ==> media2[id].url != plan[k].path
  {
    forall id | id in media2 && id !in media
      ensures media2[id].url != plan[k].path
    {
      var j := id - n;
      assert RowAt(media2, n, plan, j);
    }
  }

  /**
   * The page reaches the dashboard exactly when the memory row and one media
   * row and one object per file were all written.
   */
  lemma {:induction false} SubmitNavigates(store: Store, script: seq<Reply>, auth: Auth, form: Form,
                                           files: seq<File>, ticks: seq<Tick>)
    requires Valid(store) && |ticks| == |files|
    ensures var s := Submit(store, script, auth, form, files, ticks);
      s.outcome == NavigatedToAdmin <==>
        && store.nextId in s.run.store.memories
        && |s.run.store.media| == |store.media| + |files|
        && |s.run.store.blobs| == |store.blobs| + |files|
  {
    if HasUser(auth) && InsertMemory(Run(store, []), script, MemoryFor(form, auth.userId), true).ok {
      AfterInsert(store, script, auth, form, files, ticks);
    }
  }

  /**
   * Ordering: when the page makes any call, the memory insert is the first
   * and the only memory insert, so no upload precedes it.
   */
  lemma {:induction false} SubmitInsertsFirst(store: Store, script: seq<Reply>, auth: Auth, form: Form,
                                              files: seq<File>, ticks: seq<Tick>)
    requires Valid(store) && |ticks| == |files|
    ensures var t := Submit(store, script, auth, form, files, ticks).run.trace;
      t != [] ==> t[0] == InsertMemoryCall && InsertMemoryCall !in t[1..]
  {
    if HasUser(auth) && InsertMemory(Run(store, []), script, MemoryFor(form, auth.userId), true).ok {
      AfterInsert(store, script, auth, form, files, ticks);
    }
  }
}
