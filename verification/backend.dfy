/**
 * The hosted backend the pages talk to, as a value: the `memories` and
 * `media` tables, the `memories` storage bucket, and the id counter the
 * database draws new keys from. Every call a page makes is appended to a
 * trace, and the call's reply (success, error, or no row) is read from a
 * script at the call's position in the trace, so a run of a page handler
 * is a pure function of the store, its inputs and the script.
 */
module Backend {
  import opened Options
  import opened Rows

  /** The storage bucket every page uploads into. */
  const Bucket: string := "memories"

  datatype Store = Store(
    memories: map<nat, Memory>,
    media: map<nat, MediaItem>,
    blobs: map<string, Bytes>,
    nextId: nat)

  /**
   * Keys are the rows' own ids and lie below the counter, and every media row
   * points at an existing memory (the `media.memory_id` foreign key).
   */
  ghost predicate Valid(s: Store) {
    && (forall id :: id in s.memories ==> id < s.nextId && s.memories[id].id == id)
    && (forall id :: id in s.media ==> id < s.nextId && s.media[id].id == id)
    && (forall id :: id in s.media ==> s.media[id].memoryId in s.memories)
  }

  /** Nothing of `s` is removed or overwritten in `s2`: no rollback, no upsert. */
  ghost predicate Keeps(s: Store, s2: Store) {
    && (forall id :: id in s.memories ==> id in s2.memories && s2.memories[id] == s.memories[id])
    && (forall id :: id in s.media ==> id in s2.media && s2.media[id] == s.media[id])
    && (forall p :: p in s.blobs ==> p in s2.blobs && s2.blobs[p] == s.blobs[p])
    && s.nextId <= s2.nextId
  }

  /**
   * What the backend answers to one call. `NoRow` answers an insert that asks
   * for its row back (`.select().single()`) with neither an error nor a row,
   * and writes nothing; to every other call it is a success.
   */
  datatype Reply = Ok | Err | NoRow

  datatype Call =
    | InsertMemoryCall
    | UploadCall(path: string)
    | InsertMediaCall(memoryId: nat)
    | DeleteMediaCall
    | DeleteMemoriesCall

  datatype Run = Run(store: Store, trace: seq<Call>)

  /**
   * What the page learns from `auth.getSession()` / `auth.getUser()`: an
   * error, no session, or the signed-in user's id. It is an input of each
   * handler and no call of the trace.
   */
  datatype Auth = AuthFailed | SignedOut | SignedIn(userId: string)

  /** The reply to call number `k`; calls past the end of the script succeed. */
  function ReplyAt(script: seq<Reply>, k: nat): Reply {
    if k < |script| then script[k] else Ok
  }

  function NextReply(run: Run, script: seq<Reply>): Reply {
    ReplyAt(script, |run.trace|)
  }

  /** The result of one call: the run after it, and whether it succeeded. */
  datatype Answer = Answer(run: Run, ok: bool)

  /**
   * `insert` into `memories`. With `returning` (the `.select().single()`
   * form) a `NoRow` reply writes nothing and returns nothing.
   */
  function InsertMemory(run: Run, script: seq<Reply>, d: MemoryDraft, returning: bool): (a: Answer)
    ensures a.run.trace == run.trace + [InsertMemoryCall]
    ensures a.ok <==> (NextReply(run, script) == Ok || (!returning && NextReply(run, script) == NoRow))
    ensures a.ok ==> a.run.store == run.store.(
      memories := run.store.memories[run.store.nextId := d.WithId(run.store.nextId)],
      nextId := run.store.nextId + 1)
    ensures !a.ok ==> a.run.store == run.store
  {
    var reply := NextReply(run, script);
    var trace := run.trace + [InsertMemoryCall];
    if reply == Ok || (!returning && reply == NoRow) then
      var s := run.store;
      var s2 := s.(memories := s.memories[s.nextId := d.WithId(s.nextId)], nextId := s.nextId + 1);
      Answer(Run(s2, trace), true)
    else
      Answer(Run(run.store, trace), false)
  }

  /**
   * `storage.from('memories').upload(path, bytes)` without `upsert`: it fails
   * on an error reply and on a path that already holds an object.
   */
  function Upload(run: Run, script: seq<Reply>, path: string, bytes: Bytes): (a: Answer)
    ensures a.run.trace == run.trace + [UploadCall(path)]
    ensures a.ok <==> NextReply(run, script) != Err && path !in run.store.blobs
    ensures a.ok ==> a.run.store == run.store.(blobs := run.store.blobs[path := bytes])
    ensures !a.ok ==> a.run.store == run.store
  {
    var trace := run.trace + [UploadCall(path)];
    if NextReply(run, script) == Err || path in run.store.blobs then
      Answer(Run(run.store, trace), false)
    else
      Answer(Run(run.store.(blobs := run.store.blobs[path := bytes]), trace), true)
  }

  /** `insert` into `media`; the foreign key rejects a row whose memory is missing. */
  function InsertMedia(run: Run, script: seq<Reply>, d: MediaDraft): (a: Answer)
    ensures a.run.trace == run.trace + [InsertMediaCall(d.memoryId)]
    ensures a.ok <==> NextReply(run, script) != Err && d.memoryId in run.store.memories
    ensures a.ok ==> a.run.store == run.store.(
      media := run.store.media[run.store.nextId := d.WithId(run.store.nextId)],
      nextId := run.store.nextId + 1)
    ensures !a.ok ==> a.run.store == run.store
  {
    var trace := run.trace + [InsertMediaCall(d.memoryId)];
    if NextReply(run, script) == Err || d.memoryId !in run.store.memories then
      Answer(Run(run.store, trace), false)
    else
      var s := run.store;
      var s2 := s.(media := s.media[s.nextId := d.WithId(s.nextId)], nextId := s.nextId + 1);
      Answer(Run(s2, trace), true)
  }

  /** `from('media').delete().not('id', 'is', null)`: every media row. */
  function DeleteAllMedia(run: Run, script: seq<Reply>): (a: Answer)
    ensures a.run.trace == run.trace + [DeleteMediaCall]
    ensures a.ok <==> NextReply(run, script) != Err
    ensures a.run.store == if a.ok then run.store.(media := map[]) else run.store
  {
    var trace := run.trace + [DeleteMediaCall];
    if NextReply(run, script) == Err then Answer(Run(run.store, trace), false)
    else Answer(Run(run.store.(media := map[]), trace), true)
  }

  /**
   * `from('memories').delete().not('id', 'is', null)`: every memory row. The
   * foreign key refuses while any media row still points at a memory.
   */
  function DeleteAllMemories(run: Run, script: seq<Reply>): (a: Answer)
    ensures a.run.trace == run.trace + [DeleteMemoriesCall]
    ensures a.ok <==> NextReply(run, script) != Err && run.store.media == map[]
    ensures a.run.store == if a.ok then run.store.(memories := map[]) else run.store
  {
    var trace := run.trace + [DeleteMemoriesCall];
    if NextReply(run, script) == Err || run.store.media != map[] then
      Answer(Run(run.store, trace), false)
    else
      Answer(Run(run.store.(memories := map[]), trace), true)
  }

  /** A memory insert keeps the store valid and loses nothing. */
  lemma InsertMemoryValid(run: Run, script: seq<Reply>, d: MemoryDraft, returning: bool)
    requires Valid(run.store)
    ensures var a := InsertMemory(run, script, d, returning);
      Valid(a.run.store) && Keeps(run.store, a.run.store)
  {
  }

  /** A media insert keeps the store valid, the foreign key included. */
  lemma InsertMediaValid(run: Run, script: seq<Reply>, d: MediaDraft)
    requires Valid(run.store)
    ensures Valid(InsertMedia(run, script, d).run.store)
  {
  }

  /** Both bulk deletes keep the store valid; the memory delete relies on the foreign key check. */
  lemma DeletesValid(run: Run, script: seq<Reply>)
    requires Valid(run.store)
    ensures Valid(DeleteAllMedia(run, script).run.store)
    ensures Valid(DeleteAllMemories(run, script).run.store)
  {
  }

  /**
   * `storage.from('memories').getPublicUrl(path)`: computed locally, never
   * fails. The URL starts at the project's base URL and ends with the path.
   */
  function PublicUrl(baseUrl: string, path: string): (url: string)
    ensures baseUrl <= url
    ensures |url| > |baseUrl| + |path| && url[|url| - |path|..] == path
  {
    var prefix := baseUrl + "/storage/v1/object/public/" + Bucket + "/";
    assert (prefix + path)[..|baseUrl|] == baseUrl;
    prefix + path
  }

  /** Two objects of the bucket never share a public URL: the URL gives back the path. */
  lemma PublicUrlInjective(baseUrl: string, path1: string, path2: string)
    ensures PublicUrl(baseUrl, path1) == PublicUrl(baseUrl, path2) ==> path1 == path2
  {
    var prefix := baseUrl + "/storage/v1/object/public/" + Bucket + "/";
    assert PublicUrl(baseUrl, path1) == prefix + path1;
    assert PublicUrl(baseUrl, path2) == prefix + path2;
    if PublicUrl(baseUrl, path1) == PublicUrl(baseUrl, path2) {
      assert path1 == (prefix + path1)[|prefix|..];
      assert path2 == (prefix + path2)[|prefix|..];
    }
  }

  // ---------------------------------------------------------------------------
  // The per-file loop shared by both multi-file create pages.

  /** One iteration of a create page's file loop, with its path and row worked out. */
  datatype FileStep = FileStep(path: string, bytes: Bytes, row: MediaDraft)

  /** Why the loop stopped: all files done, an upload failed, or a media insert failed. */
  datatype Halt = Completed | UploadFailed | RowFailed

  /** The calls one iteration makes before it stops with `halt` (`Completed`: both). */
  function OneStepCalls(st: FileStep, halt: Halt): seq<Call> {
    if halt == UploadFailed then [UploadCall(st.path)]
    else [UploadCall(st.path), InsertMediaCall(st.row.memoryId)]
  }

  datatype StepEnd = StepEnd(run: Run, halt: Halt)

  /** One iteration: upload the object, then insert its media row. */
  function Step(st: FileStep, run: Run, script: seq<Reply>): (e: StepEnd)
    ensures e.run.trace == run.trace + OneStepCalls(st, e.halt)
    ensures e.halt == UploadFailed <==> NextReply(run, script) == Err || st.path in run.store.blobs
    ensures e.halt == UploadFailed ==> e.run.store == run.store
    ensures e.halt == RowFailed ==>
      e.run.store == run.store.(blobs := run.store.blobs[st.path := st.bytes])
    ensures e.halt == Completed ==> e.run.store == run.store.(
      blobs := run.store.blobs[st.path := st.bytes],
      media := run.store.media[run.store.nextId := st.row.WithId(run.store.nextId)],
      nextId := run.store.nextId + 1)
    ensures e.halt == Completed ==> st.row.memoryId in run.store.memories
  {
    var up := Upload(run, script, st.path, st.bytes);
    if !up.ok then StepEnd(up.run, UploadFailed)
    else
      var ins := InsertMedia(up.run, script, st.row);
      if !ins.ok then StepEnd(ins.run, RowFailed) else StepEnd(ins.run, Completed)
  }

  datatype LoopEnd = LoopEnd(run: Run, done: nat, halt: Halt)

  /** The number of objects the loop left in the bucket. */
  function Uploaded(e: LoopEnd): nat {
    e.done + if e.halt == RowFailed then 1 else 0
  }

  /** The calls the loop makes when it completes `done` steps and then stops with `halt`. */
  function StepCalls(plan: seq<FileStep>, done: nat, halt: Halt): seq<Call>
    requires done <= |plan|
    requires halt == Completed <==> done == |plan|
  {
    if done == 0 then
      if halt == Completed then [] else OneStepCalls(plan[0], halt)
    else
      OneStepCalls(plan[0], Completed) + StepCalls(plan[1..], done - 1, halt)
  }

  /**
   * `for (file of files) { upload; insert media row }`, sequential, stopping
   * at the first failure and undoing nothing. The lemmas below say what it
   * leaves behind.
   */
  function RunSteps(plan: seq<FileStep>, run: Run, script: seq<Reply>): (r: LoopEnd)
    ensures r.done <= |plan|
    ensures r.halt == Completed <==> r.done == |plan|
    ensures Uploaded(r) <= |plan|
    decreases |plan|
  {
    if plan == [] then LoopEnd(run, 0, Completed)
    else
      var first := Step(plan[0], run, script);
      if first.halt != Completed then LoopEnd(first.run, 0, first.halt)
      else
        var rest := RunSteps(plan[1..], first.run, script);
        LoopEnd(rest.run, rest.done + 1, rest.halt)
  }

  /**
   * The loop leaves the memories table alone, keeps the store valid and undoes
   * nothing: every row and object that existed before is still there, unchanged.
   */
  lemma {:induction false} RunStepsKeeps(plan: seq<FileStep>, run: Run, script: seq<Reply>)
    requires forall id :: id in run.store.media ==> id < run.store.nextId
    ensures var r := RunSteps(plan, run, script);
      && r.run.store.memories == run.store.memories
      && Keeps(run.store, r.run.store)
      && r.run.store.nextId == run.store.nextId + r.done
  {
    if plan != [] {
      var first := Step(plan[0], run, script);
      if first.halt == Completed {
        RunStepsKeeps(plan[1..], first.run, script);
      }
    }
  }

  /**
   * Why an upload stops the loop: its reply was an error, its path already
   * held an object before the loop, or an earlier file of the loop used the
   * same path.
   */
  lemma {:induction false} RunStepsUploadFails(plan: seq<FileStep>, run: Run, script: seq<Reply>)
    ensures var r := RunSteps(plan, run, script);
      r.halt == UploadFailed ==>
        || ReplyAt(script, |run.trace| + 2 * r.done) == Err
        || plan[r.done].path in run.store.blobs
        || exists j :: 0 <= j < r.done && plan[j].path == plan[r.done].path
  {
    if plan != [] {
      var first := Step(plan[0], run, script);
      if first.halt == Completed {
        var tail := plan[1..];
        var rest := RunSteps(tail, first.run, script);
        RunStepsUploadFails(tail, first.run, script);
        if rest.halt == UploadFailed {
          assert |first.run.trace| == |run.trace| + 2;
          assert tail[rest.done] == plan[rest.done + 1];
          if tail[rest.done].path == plan[0].path {
            assert plan[0].path == plan[rest.done + 1].path;
          } else if j :| 0 <= j < rest.done && tail[j].path == tail[rest.done].path {
            assert plan[j + 1].path == plan[rest.done + 1].path;
          }
        }
      }
    }
  }

  /** The loop keeps the store's id and foreign-key invariant. */
  lemma {:induction false} RunStepsValid(plan: seq<FileStep>, run: Run, script: seq<Reply>)
    requires Valid(run.store)
    ensures Valid(RunSteps(plan, run, script).run.store)
  {
    if plan != [] {
      var first := Step(plan[0], run, script);
      var up := Upload(run, script, plan[0].path, plan[0].bytes);
      if up.ok {
        InsertMediaValid(up.run, script, plan[0].row);
      }
      if first.halt == Completed {
        RunStepsValid(plan[1..], first.run, script);
      }
    }
  }

  /** The loop's calls: upload then row insert per file, in file order, up to the failure. */
  lemma {:induction false} RunStepsTrace(plan: seq<FileStep>, run: Run, script: seq<Reply>)
    ensures var r := RunSteps(plan, run, script);
      r.run.trace == run.trace + StepCalls(plan, r.done, r.halt)
  {
    if plan != [] {
      var first := Step(plan[0], run, script);
      if first.halt == Completed {
        RunStepsTrace(plan[1..], first.run, script);
      }
    }
  }

  /**
   * `after` is `before` plus one row per completed step: the row of step `k`
   * under the id `n + k`.
   */
  ghost predicate RowsAdded(before: map<nat, MediaItem>, after: map<nat, MediaItem>,
                            n: nat, plan: seq<FileStep>, done: nat)
  {
    && done <= |plan|
    && |after| == |before| + done
    && RowKeys(before, after, n, done)
    && RowsKept(before, after)
    && RowValues(after, n, plan, done)
  }

  ghost predicate RowKeys(before: map<nat, MediaItem>, after: map<nat, MediaItem>, n: nat, done: nat) {
    forall id :: id in after <==> id in before || n <= id < n + done
  }

  ghost predicate RowsKept(before: map<nat, MediaItem>, after: map<nat, MediaItem>) {
    forall id :: id in before ==> id in after && after[id] == before[id]
  }

  ghost predicate RowValues(after: map<nat, MediaItem>, n: nat, plan: seq<FileStep>, done: nat)
    requires done <= |plan|
  {
    forall k :: 0 <= k < done ==> RowAt(after, n, plan, k)
  }

  /** Step `k`'s row sits under the id `n + k`. */
  ghost predicate RowAt(after: map<nat, MediaItem>, n: nat, plan: seq<FileStep>, k: nat)
    requires k < |plan|
  {
    n + k in after && after[n + k] == plan[k].row.WithId(n + k)
  }

  /** Exactly `done` media rows were added, one per completed file, in file order. */
  lemma {:induction false} RunStepsRows(plan: seq<FileStep>, run: Run, script: seq<Reply>)
    requires forall id :: id in run.store.media ==> id < run.store.nextId
    ensures var r := RunSteps(plan, run, script);
      RowsAdded(run.store.media, r.run.store.media, run.store.nextId, plan, r.done)
  {
    if plan != [] {
      var first := Step(plan[0], run, script);
      if first.halt == Completed {
        var rest := RunSteps(plan[1..], first.run, script);
        assert RunSteps(plan, run, script) == LoopEnd(rest.run, rest.done + 1, rest.halt);
        RunStepsRows(plan[1..], first.run, script);
        ShiftRows(plan, run.store.nextId, first.run.store.nextId, run.store.media,
                  first.run.store.media, rest.run.store.media, rest.done);
      } else {
        assert RowValues(run.store.media, run.store.nextId, plan, 0);
      }
    } else {
      assert RowValues(run.store.media, run.store.nextId, plan, 0);
    }
  }

  /** The inductive step of `RunStepsRows`, on the three media tables alone. */
  lemma ShiftRows(plan: seq<FileStep>, n: nat, n1: nat, m0: map<nat, MediaItem>,
                  m1: map<nat, MediaItem>, m2: map<nat, MediaItem>, done: nat)
    requires |plan| > done && n1 == n + 1
    requires n !in m0 && m1 == m0[n := plan[0].row.WithId(n)]
    requires RowsAdded(m1, m2, n1, plan[1..], done)
    ensures RowsAdded(m0, m2, n, plan, done + 1)
  {
    assert |m1| == |m0| + 1;
    ShiftRowKeys(n, m0, m1, m2, done);
    ShiftRowsKept(n, m0, m1, m2);
    ShiftRowValues(plan, n, m1, m2, done);
  }

  lemma ShiftRowKeys(n: nat, m0: map<nat, MediaItem>, m1: map<nat, MediaItem>,
                     m2: map<nat, MediaItem>, done: nat)
    requires m1.Keys == m0.Keys + {n}
    requires RowKeys(m1, m2, n + 1, done)
    ensures RowKeys(m0, m2, n, done + 1)
  {
    forall id
      ensures id in m2 <==> id in m0 || n <= id < n + done + 1
    {
      assert id in m2 <==> id in m1 || n + 1 <= id < n + 1 + done;
    }
  }

  lemma ShiftRowsKept(n: nat, m0: map<nat, MediaItem>, m1: map<nat, MediaItem>, m2: map<nat, MediaItem>)
    requires n !in m0 && n in m1
    requires forall id :: id in m0 ==> id in m1 && m1[id] == m0[id]
    requires RowsKept(m1, m2)
    ensures RowsKept(m0, m2)
    ensures n in m2 && m2[n] == m1[n]
  {
  }

  lemma ShiftRowValues(plan: seq<FileStep>, n: nat, m1: map<nat, MediaItem>,
                       m2: map<nat, MediaItem>, done: nat)
    requires |plan| > done
    requires n in m1 && m1[n] == plan[0].row.WithId(n)
    requires n in m2 && m2[n] == m1[n]
    requires RowValues(m2, n + 1, plan[1..], done)
    ensures RowValues(m2, n, plan, done + 1)
  {
    forall k | 0 <= k < done + 1
      ensures RowAt(m2, n, plan, k)
    {
      if k > 0 {
        ShiftRowValue(plan, n, m2, done, k);
      }
    }
  }

  lemma ShiftRowValue(plan: seq<FileStep>, n: nat, m2: map<nat, MediaItem>, done: nat, k: nat)
    requires |plan| > done && 0 < k <= done
    requires RowValues(m2, n + 1, plan[1..], done)
    ensures RowAt(m2, n, plan, k)
  {
    var j := k - 1;
    assert RowAt(m2, n + 1, plan[1..], j);
    assert plan[1..][j] == plan[k];
    assert (n + 1) + j == n + k;
  }

  /**
   * `after` is `before` plus the objects of the first `count` steps, each at
   * its step's path, none of which existed before; so the paths are distinct.
   */
  ghost predicate BlobsAdded(before: map<string, Bytes>, after: map<string, Bytes>,
                             plan: seq<FileStep>, count: nat)
  {
    && count <= |plan|
    && |after| == |before| + count
    && BlobsKept(before, after)
    && BlobsWritten(before, after, plan, count)
    && DistinctPaths(plan, count)
    && NoOtherBlobs(before, after, plan, count)
  }

  ghost predicate BlobsKept(before: map<string, Bytes>, after: map<string, Bytes>) {
    forall p :: p in before ==> p in after && after[p] == before[p]
  }

  ghost predicate BlobsWritten(before: map<string, Bytes>, after: map<string, Bytes>,
                               plan: seq<FileStep>, count: nat)
    requires count <= |plan|
  {
    forall k :: 0 <= k < count ==>
      plan[k].path !in before && plan[k].path in after && after[plan[k].path] == plan[k].bytes
  }

  ghost predicate DistinctPaths(plan: seq<FileStep>, count: nat)
    requires count <= |plan|
  {
    forall j, k :: 0 <= j < k < count ==> plan[j].path != plan[k].path
  }

  ghost predicate NoOtherBlobs(before: map<string, Bytes>, after: map<string, Bytes>,
                               plan: seq<FileStep>, count: nat)
    requires count <= |plan|
  {
    forall p :: p in after ==> p in before || exists k :: 0 <= k < count && plan[k].path == p
  }

  /** Exactly `Uploaded(r)` new objects, at fresh and distinct plan paths, none overwritten. */
  lemma {:induction false} RunStepsBlobs(plan: seq<FileStep>, run: Run, script: seq<Reply>)
    ensures var r := RunSteps(plan, run, script);
      BlobsAdded(run.store.blobs, r.run.store.blobs, plan, Uploaded(r))
  {
    if plan != [] {
      var first := Step(plan[0], run, script);
      if first.halt == RowFailed {
        OneBlob(plan, run.store.blobs, first.run.store.blobs);
      } else if first.halt == Completed {
        var rest := RunSteps(plan[1..], first.run, script);
        RunStepsBlobs(plan[1..], first.run, script);
        ShiftBlobs(plan, run.store.blobs, first.run.store.blobs, rest.run.store.blobs, Uploaded(rest));
      } else {
        NoBlob(plan, run.store.blobs);
      }
    } else {
      NoBlob(plan, run.store.blobs);
    }
  }

  lemma NoBlob(plan: seq<FileStep>, b0: map<string, Bytes>)
    ensures BlobsAdded(b0, b0, plan, 0)
  {
  }

  lemma OneBlob(plan: seq<FileStep>, b0: map<string, Bytes>, b1: map<string, Bytes>)
    requires |plan| > 0
    requires plan[0].path !in b0 && b1 == b0[plan[0].path := plan[0].bytes]
    ensures BlobsAdded(b0, b1, plan, 1)
  {
  }

  /** The inductive step of `RunStepsBlobs`, on the three buckets alone. */
  lemma ShiftBlobs(plan: seq<FileStep>, b0: map<string, Bytes>, b1: map<string, Bytes>,
                   b2: map<string, Bytes>, count: nat)
    requires |plan| > count
    requires plan[0].path !in b0 && b1 == b0[plan[0].path := plan[0].bytes]
    requires BlobsAdded(b1, b2, plan[1..], count)
    ensures BlobsAdded(b0, b2, plan, count + 1)
  {
    assert |b1| == |b0| + 1;
    ShiftBlobsKept(plan[0].path, b0, b1, b2);
    ShiftBlobsWritten(plan, b0, b1, b2, count);
    ShiftDistinct(plan, b0, b1, b2, count);
    ShiftNoOther(plan, b0, b1, b2, count);
  }

  lemma ShiftBlobsKept(p0: string, b0: map<string, Bytes>, b1: map<string, Bytes>, b2: map<string, Bytes>)
    requires p0 !in b0 && p0 in b1
    requires BlobsKept(b0, b1) && BlobsKept(b1, b2)
    ensures BlobsKept(b0, b2)
    ensures p0 in b2 && b2[p0] == b1[p0]
  {
  }

  lemma ShiftBlobsWritten(plan: seq<FileStep>, b0: map<string, Bytes>, b1: map<string, Bytes>,
                          b2: map<string, Bytes>, count: nat)
    requires |plan| > count
    requires plan[0].path !in b0 && b1 == b0[plan[0].path := plan[0].bytes]
    requires plan[0].path in b2 && b2[plan[0].path] == plan[0].bytes
    requires BlobsWritten(b1, b2, plan[1..], count)
    ensures BlobsWritten(b0, b2, plan, count + 1)
  {
    forall k | 0 < k < count + 1
      ensures plan[k].path !in b0 && plan[k].path in b2 && b2[plan[k].path] == plan[k].bytes
    {
      assert plan[k] == plan[1..][k - 1];
    }
  }

  lemma ShiftDistinct(plan: seq<FileStep>, b0: map<string, Bytes>, b1: map<string, Bytes>,
                      b2: map<string, Bytes>, count: nat)
    requires |plan| > count
    requires plan[0].path in b1
    requires BlobsWritten(b1, b2, plan[1..], count)
    requires DistinctPaths(plan[1..], count)
    ensures DistinctPaths(plan, count + 1)
  {
    forall j, k | 0 <= j < k < count + 1
      ensures plan[j].path != plan[k].path
    {
      assert plan[k] == plan[1..][k - 1];
      if j > 0 {
        assert plan[j] == plan[1..][j - 1];
      }
    }
  }

  lemma ShiftNoOther(plan: seq<FileStep>, b0: map<string, Bytes>, b1: map<string, Bytes>,
                     b2: map<string, Bytes>, count: nat)
    requires |plan| > count
    requires b1.Keys == b0.Keys + {plan[0].path}
    requires NoOtherBlobs(b1, b2, plan[1..], count)
    ensures NoOtherBlobs(b0, b2, plan, count + 1)
  {
    forall p | p in b2
      ensures p in b0 || exists k :: 0 <= k < count + 1 && plan[k].path == p
    {
      if p !in b1 {
        var k :| 0 <= k < count && plan[1..][k].path == p;
        assert plan[k + 1].path == p;
      } else if p !in b0 {
        assert plan[0].path == p;
      }
    }
  }

  // ---------------------------------------------------------------------------
  // Insert a memory, then run the file loop for it.

  /** No call of the loop is a memory insert. */
  lemma {:induction false} StepCallsNoInsert(plan: seq<FileStep>, done: nat, halt: Halt)
    requires done <= |plan|
    requires halt == Completed <==> done == |plan|
    ensures InsertMemoryCall !in StepCalls(plan, done, halt)
    ensures |StepCalls(plan, done, halt)| == 2 * done + if halt == Completed then 0 else if halt == UploadFailed then 1 else 2
  {
    if done > 0 {
      StepCallsNoInsert(plan[1..], done - 1, halt);
    }
  }

  /**
   * A create page that got its memory row and then ran the file loop for
   * that memory: the new memory is the only new memory row, the loop's rows
   * and objects are added on top, nothing is lost, and the insert is the first
   * call and the only memory insert.
   */
  lemma InsertThenLoop(store: Store, script: seq<Reply>, d: MemoryDraft, returning: bool, plan: seq<FileStep>)
    requires Valid(store)
    requires forall k :: 0 <= k < |plan| ==> plan[k].row.memoryId == store.nextId
    requires InsertMemory(Run(store, []), script, d, returning).ok
    ensures var r := RunSteps(plan, InsertMemory(Run(store, []), script, d, returning).run, script);
      && r.run.store.memories == store.memories[store.nextId := d.WithId(store.nextId)]
      && store.nextId !in store.memories
      && Keeps(store, r.run.store)
      && Valid(r.run.store)
      && RowsAdded(store.media, r.run.store.media, store.nextId + 1, plan, r.done)
      && BlobsAdded(store.blobs, r.run.store.blobs, plan, Uploaded(r))
      && |r.run.trace| >= 1
      && r.run.trace[0] == InsertMemoryCall
      && InsertMemoryCall !in r.run.trace[1..]
  {
    var ins := InsertMemory(Run(store, []), script, d, returning);
    var s1 := ins.run.store;
    var r := RunSteps(plan, ins.run, script);
    InsertMemoryValid(Run(store, []), script, d, returning);
    RunStepsKeeps(plan, ins.run, script);
    RunStepsValid(plan, ins.run, script);
    RunStepsRows(plan, ins.run, script);
    RunStepsBlobs(plan, ins.run, script);
    RunStepsTrace(plan, ins.run, script);
    StepCallsNoInsert(plan, r.done, r.halt);
    assert r.run.trace[1..] == StepCalls(plan, r.done, r.halt);
  }

  /** A row the loop added is the row of step `id - n`, under the id `id`. */
  lemma NewRowAt(before: map<nat, MediaItem>, after: map<nat, MediaItem>, n: nat, plan: seq<FileStep>,
                 done: nat, id: nat)
    requires RowsAdded(before, after, n, plan, done)
    requires id in after && id !in before
    ensures n <= id < n + done && after[id] == plan[id - n].row.WithId(id)
  {
    var k := id - n;
    assert n + k == id;
    assert RowAt(after, n, plan, k);
  }

  /** Every row in `after` but not in `before` is the row of step `id - m - 1`, one of the first `done`. */
  ghost predicate RowsAfter(before: map<nat, MediaItem>, after: map<nat, MediaItem>, m: nat, plan: seq<FileStep>, done: nat)
    requires done <= |plan|
  {
    forall id :: id in after && id !in before ==>
      m + 1 <= id < m + 1 + done && after[id] == plan[id - m - 1].row.WithId(id)
  }

  /** Every row a loop started with the counter at `m + 1` added is the row of step `id - m - 1`. */
  lemma NewRowsAt(before: map<nat, MediaItem>, after: map<nat, MediaItem>, m: nat, plan: seq<FileStep>, done: nat)
    requires RowsAdded(before, after, m + 1, plan, done)
    ensures RowsAfter(before, after, m, plan, done)
  {
    forall id | id in after && id !in before
      ensures m + 1 <= id < m + 1 + done && after[id] == plan[id - m - 1].row.WithId(id)
    {
      NewRowAt(before, after, m + 1, plan, done, id);
      assert id - (m + 1) == id - m - 1;
    }
  }

  /**
   * When every step's row points at its own path, every row a loop added
   * points at an object that loop uploaded and that was not there before.
   */
  lemma NewRowsLinkNewObjects(before: map<nat, MediaItem>, after: map<nat, MediaItem>, m: nat,
                              blobs: map<string, Bytes>, blobs2: map<string, Bytes>,
                              plan: seq<FileStep>, done: nat, uploaded: nat)
    requires done <= uploaded <= |plan|
    requires forall k :: 0 <= k < |plan| ==> plan[k].row.url == plan[k].path
    requires RowsAfter(before, after, m, plan, done)
    requires BlobsWritten(blobs, blobs2, plan, uploaded)
    ensures forall id :: id in after && id !in before ==> after[id].url in blobs2 && after[id].url !in blobs
  {
    forall id | id in after && id !in before
      ensures after[id].url in blobs2 && after[id].url !in blobs
    {
      var k := id - m - 1;
      assert after[id] == plan[k].row.WithId(id);
    }
  }

  /**
   * After a successful memory insert, the new media rows are the rows of the
   * completed steps, under consecutive ids just above the memory's.
   */
  lemma InsertThenLoopRows(store: Store, script: seq<Reply>, d: MemoryDraft, returning: bool,
                           plan: seq<FileStep>)
    requires forall i :: i in store.media ==> i < store.nextId
    requires InsertMemory(Run(store, []), script, d, returning).ok
    ensures var r := RunSteps(plan, InsertMemory(Run(store, []), script, d, returning).run, script);
      RowsAfter(store.media, r.run.store.media, store.nextId, plan, r.done)
  {
    RunStepsRowsAfter(plan, InsertMemory(Run(store, []), script, d, returning).run, script, store.media, store.nextId);
  }

  /** A loop started on media `media` with the counter at `m + 1` adds `RowsAfter` rows. */
  lemma RunStepsRowsAfter(plan: seq<FileStep>, run: Run, script: seq<Reply>, media: map<nat, MediaItem>, m: nat)
    requires run.store.media == media && run.store.nextId == m + 1
    requires forall i :: i in media ==> i < m + 1
    ensures var r := RunSteps(plan, run, script);
      RowsAfter(media, r.run.store.media, m, plan, r.done)
  {
    var r := RunSteps(plan, run, script);
    RunStepsRows(plan, run, script);
    NewRowsAt(media, r.run.store.media, m, plan, r.done);
  }

  /** After a successful memory insert, every new object sits at the path of a step. */
  lemma InsertThenLoopBlobs(store: Store, script: seq<Reply>, d: MemoryDraft, returning: bool,
                            plan: seq<FileStep>)
    requires InsertMemory(Run(store, []), script, d, returning).ok
    ensures var r := RunSteps(plan, InsertMemory(Run(store, []), script, d, returning).run, script);
      forall p :: p in r.run.store.blobs && p !in store.blobs ==>
        exists k :: 0 <= k < |plan| && plan[k].path == p
  {
    var ins := InsertMemory(Run(store, []), script, d, returning);
    var r := RunSteps(plan, ins.run, script);
    assert ins.run.store.blobs == store.blobs;
    RunStepsBlobs(plan, ins.run, script);
    assert NoOtherBlobs(store.blobs, r.run.store.blobs, plan, Uploaded(r));
  }

  /**
   * After a successful memory insert, the object of every completed step is
   * new and holds that step's bytes, and the steps' paths are distinct.
   */
  lemma InsertThenLoopWritten(store: Store, script: seq<Reply>, d: MemoryDraft, returning: bool,
                              plan: seq<FileStep>)
    requires InsertMemory(Run(store, []), script, d, returning).ok
    ensures var r := RunSteps(plan, InsertMemory(Run(store, []), script, d, returning).run, script);
      && (forall k :: 0 <= k < Uploaded(r) ==>
            plan[k].path !in store.blobs && plan[k].path in r.run.store.blobs
            && r.run.store.blobs[plan[k].path] == plan[k].bytes)
      && (forall j, k :: 0 <= j < k < Uploaded(r) ==> plan[j].path != plan[k].path)
  {
    var ins := InsertMemory(Run(store, []), script, d, returning);
    var r := RunSteps(plan, ins.run, script);
    assert ins.run.store.blobs == store.blobs;
    RunStepsBlobs(plan, ins.run, script);
    assert BlobsWritten(store.blobs, r.run.store.blobs, plan, Uploaded(r));
    assert DistinctPaths(plan, Uploaded(r));
  }
}
