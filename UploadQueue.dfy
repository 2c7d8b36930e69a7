/**
 * The client-side upload queue (website/src/lib/queue.ts).
 *
 * The queue is module state: a list of upload batches and the `isProcessing`
 * flag. `processQueue` is an async function that uploads the files of the head
 * batch one at a time. It runs synchronously up to each `await`, and JavaScript
 * then lets other code run, such as another `enqueueUpload`. The model makes
 * these suspension points explicit. `Pending` records where the one running
 * invocation waits. The events that resume it, an upload promise settling or
 * the awaited nested call settling, are separate steps. The network and
 * `crypto.randomUUID()` are inputs.
 */
module UploadQueue {
  import opened Wrappers

  datatype UploadStatus = Queued | Uploading | Completed | Error

  /** A browser `File` picked by the user. */
  datatype LocalFile = LocalFile(name: string, contentType: string, size: nat)

  datatype QueueFile = QueueFile(file: LocalFile, status: UploadStatus, error: Option<string>)

  datatype QueueUpload = QueueUpload(id: string, files: seq<QueueFile>, status: UploadStatus)

  /** A value thrown by `uploadFile`: an `Error` object with its message, or anything else. */
  datatype Thrown = ErrorObject(message: string) | OtherValue

  /** How the promise of one `uploadFile` call settles. */
  datatype UploadOutcome = Fulfilled | Rejected(reason: Thrown)

  /** What the HTTP request of `uploadFile` gives: a response with its `ok` flag,
      or a rejection (a network failure, or a body that is not JSON). */
  datatype FetchResult = Response(ok: bool) | FetchRejected(reason: Thrown)

  /** Where the single running `processQueue` invocation is suspended. */
  datatype Pending =
    | NotRunning               // no invocation is running
    | AwaitingUpload(index: nat) // at `await uploadFile(...)` for file `index` of the head batch
    | AwaitingNested           // at `await processQueue()` after the head batch was removed

  /** The module state. `retired` lists the batches `queue.shift()` has removed, in
      order: the objects that callers of `getUploadStatus` may still hold. */
  datatype QueueState = QueueState(queue: seq<QueueUpload>, isProcessing: bool, pending: Pending,
                                   retired: seq<QueueUpload>)

  const UploadFailed: string := "Upload failed"
  const FailedToUpload: string := "Failed to upload file"

  /** `uploadFile` (website/src/lib/api/files.ts): a response that is not `ok`
      becomes an `Error` with a fixed message. */
  function UploadFileOutcome(res: FetchResult): (r: UploadOutcome)
    ensures r.Fulfilled? <==> res == Response(true)
    ensures res == Response(false) ==> r == Rejected(ErrorObject(FailedToUpload))
    ensures res.FetchRejected? ==> r == Rejected(res.reason)
  {
    match res
    case Response(ok) => if ok then Fulfilled else Rejected(ErrorObject(FailedToUpload))
    case FetchRejected(reason) => Rejected(reason)
  }

  /** `error instanceof Error ? error.message : 'Upload failed'`. */
  function ErrorMessage(t: Thrown): (r: string)
    ensures t == ErrorObject(r) || (t.OtherValue? && r == UploadFailed)
  {
    match t
    case ErrorObject(message) => message
    case OtherValue => UploadFailed
  }

  /** The initial module state. */
  const Initial: QueueState := QueueState([], false, NotRunning, [])

  /** The batch `enqueueUpload` builds: every file queued, the batch queued. */
  function NewUpload(id: string, files: seq<LocalFile>): (u: QueueUpload)
    ensures u.id == id && Untouched(u)
    ensures |u.files| == |files| && forall k :: 0 <= k < |files| ==> u.files[k].file == files[k]
  {
    QueueUpload(id, seq(|files|, i requires 0 <= i < |files| => QueueFile(files[i], Queued, None)), Queued)
  }

  /** The status a file gets when its upload settles. */
  function Record(f: QueueFile, o: UploadOutcome): (r: QueueFile)
    ensures r.file == f.file
    ensures r.status == Completed <==> o.Fulfilled?
    ensures o.Rejected? ==> r == QueueFile(f.file, Error, Some(ErrorMessage(o.reason)))
    ensures f.error == None ==> Finished(r)
  {
    match o
    case Fulfilled => f.(status := Completed)
    case Rejected(reason) => f.(status := Error, error := Some(ErrorMessage(reason)))
  }

  /** Every file of a batch recorded with its outcome. */
  function Records(files: seq<QueueFile>, outcomes: seq<UploadOutcome>): seq<QueueFile>
    requires |files| == |outcomes|
  {
    seq(|files|, k requires 0 <= k < |files| => Record(files[k], outcomes[k]))
  }

  // ---------------------------------------------------------------------------
  // The steps

  /** The rest of the body of `processQueue` from file `i` of the head batch up to
      the next `await`: mark file `i` uploading and wait for it; or, past the last
      file, `queue.shift()` and then either the nested call, which returns at once
      because `isProcessing` is still set, or the `finally` clause. */
  function RunFrom(s: QueueState, i: nat): QueueState
    requires |s.queue| > 0 && i <= |s.queue[0].files|
  {
    var head := s.queue[0];
    if i < |head.files| then
      s.(queue := [head.(files := head.files[i := head.files[i].(status := Uploading)])] + s.queue[1..],
         pending := AwaitingUpload(i))
    else if |s.queue| > 1 then
      s.(queue := s.queue[1..], retired := s.retired + [head], pending := AwaitingNested)
    else
      s.(queue := [], retired := s.retired + [head], isProcessing := false, pending := NotRunning)
  }

  /** A call of `processQueue`, up to its first `await`. */
  function ProcessStep(s: QueueState): QueueState
  {
    if s.isProcessing || |s.queue| == 0 then s
    else
      var head := s.queue[0].(status := Uploading);
      RunFrom(s.(queue := [head] + s.queue[1..], isProcessing := true), 0)
  }

  /** `enqueueUpload(files)` with `id` for the generated upload id, up to its return. */
  function EnqueueStep(s: QueueState, id: string, files: seq<LocalFile>): QueueState
  {
    ProcessStep(s.(queue := s.queue + [NewUpload(id, files)]))
  }

  /** The awaited upload settles: record its outcome and run on to the next `await`.
      With no upload awaited nothing happens. */
  function SettleStep(s: QueueState, o: UploadOutcome): QueueState
  {
    if s.pending.AwaitingUpload? && |s.queue| > 0 && s.pending.index < |s.queue[0].files| then
      var i, head := s.pending.index, s.queue[0];
      RunFrom(s.(queue := [head.(files := head.files[i := Record(head.files[i], o)])] + s.queue[1..]), i + 1)
    else s
  }

  /** The awaited nested call settles: the `finally` clause clears `isProcessing`.
      The batches still queued stay where they are. */
  function NestedStep(s: QueueState): QueueState
  {
    if s.pending.AwaitingNested? then s.(isProcessing := false, pending := NotRunning) else s
  }

  /** Uploads settling one after another, in order. */
  function SettleAll(s: QueueState, outcomes: seq<UploadOutcome>): QueueState
  {
    if outcomes == [] then s
    else SettleStep(SettleAll(s, outcomes[..|outcomes| - 1]), outcomes[|outcomes| - 1])
  }

  /** `queue.find((upload) => upload.id === id)`. */
  function FindUpload(queue: seq<QueueUpload>, id: string): (r: Option<QueueUpload>)
    ensures r.Some? ==> exists k :: 0 <= k < |queue| && queue[k] == r.value && r.value.id == id &&
                                    forall j :: 0 <= j < k ==> queue[j].id != id
    ensures r.None? <==> forall k :: 0 <= k < |queue| ==> queue[k].id != id
  {
    if queue == [] then None
    else if queue[0].id == id then Some(queue[0])
    else
      var r := FindUpload(queue[1..], id);
      assert forall k :: 1 <= k < |queue| ==> queue[k] == queue[1..][k - 1];
      if r.Some? then
        var k :| 0 <= k < |queue| - 1 && queue[1..][k] == r.value && r.value.id == id &&
                 forall j :: 0 <= j < k ==> queue[1..][j].id != id;
        assert queue[k + 1] == r.value;
        r
      else r
  }

  // ---------------------------------------------------------------------------
  // The invariant

  /** A batch nobody has started: it and its files queued, no error recorded. */
  predicate Untouched(u: QueueUpload)
  {
    u.status == Queued && forall k :: 0 <= k < |u.files| ==> u.files[k].status == Queued && u.files[k].error == None
  }

  /** A settled file: completed without an error, or failed with a message. */
  predicate Finished(f: QueueFile)
  {
    (f.status == Completed && f.error == None) || (f.status == Error && f.error.Some?)
  }

  /** The head batch while file `i` uploads: files before it settled, file `i`
      uploading, the rest queued. */
  predicate InFlight(u: QueueUpload, i: nat)
  {
    u.status == Uploading && i < |u.files| &&
    (forall k :: 0 <= k < i ==> Finished(u.files[k])) &&
    u.files[i].status == Uploading && u.files[i].error == None &&
    (forall k :: i < k < |u.files| ==> u.files[k].status == Queued && u.files[k].error == None)
  }

  /** A retired batch: marked uploading, every file settled. */
  predicate Done(u: QueueUpload)
  {
    u.status == Uploading && forall k :: 0 <= k < |u.files| ==> Finished(u.files[k])
  }

  predicate QueueInv(s: QueueState)
  {
    (s.isProcessing <==> !s.pending.NotRunning?) &&
    (forall k :: 1 <= k < |s.queue| ==> Untouched(s.queue[k])) &&
    (forall k :: 0 <= k < |s.retired| ==> Done(s.retired[k])) &&
    match s.pending
    case NotRunning => |s.queue| > 0 ==> Untouched(s.queue[0])
    case AwaitingUpload(i) => |s.queue| > 0 && InFlight(s.queue[0], i)
    case AwaitingNested => |s.queue| > 0 && Untouched(s.queue[0])
  }

  lemma InitialInv()
    ensures QueueInv(Initial)
  {
  }

  /** From a batch nobody has started, starting file `i` gives the in-flight shape. */
  lemma RunFromKeepsInv(s: QueueState, i: nat)
    requires |s.queue| > 0 && i <= |s.queue[0].files| && s.isProcessing
    requires forall k :: 1 <= k < |s.queue| ==> Untouched(s.queue[k])
    requires forall k :: 0 <= k < |s.retired| ==> Done(s.retired[k])
    requires s.queue[0].status == Uploading && forall k :: 0 <= k < i ==> Finished(s.queue[0].files[k])
    requires forall k :: i <= k < |s.queue[0].files| ==>
               s.queue[0].files[k].status == Queued && s.queue[0].files[k].error == None
    ensures QueueInv(RunFrom(s, i))
  {
    var r := RunFrom(s, i);
    if i < |s.queue[0].files| {
      assert forall k :: 1 <= k < |r.queue| ==> r.queue[k] == s.queue[k];
    } else {
      assert forall k :: 0 <= k < |r.queue| ==> r.queue[k] == s.queue[k + 1];
    }
  }

  /** `processQueue` does nothing while another invocation runs or the queue is
      empty; otherwise it marks the head batch uploading and starts its first file
      or, for a batch with no files, retires it at once. It keeps the invariant. */
  lemma ProcessStepSpec(s: QueueState)
    requires QueueInv(s)
    ensures var r := ProcessStep(s);
      QueueInv(r) &&
      (s.isProcessing || s.queue == [] ==> r == s) &&
      (!s.isProcessing && s.queue != [] && s.queue[0].files != [] ==>
         r.isProcessing && r.pending == AwaitingUpload(0) && r.retired == s.retired &&
         |r.queue| == |s.queue| && r.queue[1..] == s.queue[1..] &&
         r.queue[0].id == s.queue[0].id && |r.queue[0].files| == |s.queue[0].files| &&
         (forall k :: 0 <= k < |s.queue[0].files| ==> r.queue[0].files[k].file == s.queue[0].files[k].file)) &&
      (!s.isProcessing && s.queue != [] && s.queue[0].files == [] ==>
         r.queue == s.queue[1..] && r.retired == s.retired + [s.queue[0].(status := Uploading)] &&
         (r.isProcessing <==> |s.queue| > 1))
  {
    if !s.isProcessing && s.queue != [] {
      var t := s.(queue := [s.queue[0].(status := Uploading)] + s.queue[1..], isProcessing := true);
      assert forall k :: 1 <= k < |t.queue| ==> t.queue[k] == s.queue[k];
      RunFromKeepsInv(t, 0);
    }
  }

  /** An upload settling records its outcome on the file being uploaded — completed
      exactly when the upload succeeded, otherwise the error and its message — and
      moves to the next file, or retires the batch after its last file. Nothing
      else changes, and the invariant is kept. */
  lemma SettleStepSpec(s: QueueState, o: UploadOutcome)
    requires QueueInv(s) && s.pending.AwaitingUpload?
    ensures var r, i, head := SettleStep(s, o), s.pending.index, s.queue[0];
      var settled := head.(files := head.files[i := Record(head.files[i], o)]);
      QueueInv(r) &&
      (settled.files[i].status == Completed <==> o.Fulfilled?) &&
      (o.Rejected? ==> settled.files[i].error == Some(ErrorMessage(o.reason))) &&
      (i + 1 < |head.files| ==>
         r.pending == AwaitingUpload(i + 1) && r.isProcessing && r.retired == s.retired &&
         |r.queue| == |s.queue| && r.queue[1..] == s.queue[1..] &&
         r.queue[0] == settled.(files := settled.files[i + 1 := settled.files[i + 1].(status := Uploading)])) &&
      (i + 1 == |head.files| ==>
         r.queue == s.queue[1..] && r.retired == s.retired + [settled] &&
         r.pending == (if |s.queue| > 1 then AwaitingNested else NotRunning))
  {
    var i, head := s.pending.index, s.queue[0];
    var settled := head.(files := head.files[i := Record(head.files[i], o)]);
    var t := s.(queue := [settled] + s.queue[1..]);
    assert forall k :: 1 <= k < |t.queue| ==> t.queue[k] == s.queue[k];
    assert Finished(settled.files[i]);
    RunFromKeepsInv(t, i + 1);
  }

  /** `enqueueUpload` appends the new batch, untouched, and then calls
      `processQueue`; it keeps the invariant. */
  lemma EnqueueStepSpec(s: QueueState, id: string, files: seq<LocalFile>)
    requires QueueInv(s)
    ensures var u, t := NewUpload(id, files), s.(queue := s.queue + [NewUpload(id, files)]);
      u.id == id && |u.files| == |files| && (forall k :: 0 <= k < |files| ==> u.files[k].file == files[k]) &&
      Untouched(u) && QueueInv(t) && t.queue[..|s.queue|] == s.queue && t.queue[|s.queue|] == u &&
      EnqueueStep(s, id, files) == ProcessStep(t) && QueueInv(EnqueueStep(s, id, files))
  {
    var t := s.(queue := s.queue + [NewUpload(id, files)]);
    assert forall k :: 0 <= k < |s.queue| ==> t.queue[k] == s.queue[k];
    ProcessStepSpec(t);
  }

  /** The nested call settling clears `isProcessing` and keeps the invariant. */
  lemma NestedStepSpec(s: QueueState)
    requires QueueInv(s) && s.pending.AwaitingNested?
    ensures var r := NestedStep(s);
      QueueInv(r) && !r.isProcessing && r.queue == s.queue && r.retired == s.retired
  {
  }

  // ---------------------------------------------------------------------------
  // Properties

  /** At most one file is uploading at any time: the one `processQueue` awaits,
      in the head batch. */
  lemma AtMostOneUploading(s: QueueState)
    requires QueueInv(s)
    ensures forall b, k :: 0 <= b < |s.queue| && 0 <= k < |s.queue[b].files| &&
                           s.queue[b].files[k].status == Uploading ==>
                           b == 0 && s.pending == AwaitingUpload(k)
  {
    forall b, k | 0 <= b < |s.queue| && 0 <= k < |s.queue[b].files|
      ensures s.queue[b].files[k].status == Uploading ==> b == 0 && s.pending == AwaitingUpload(k)
    {
      if b > 0 {
        assert Untouched(s.queue[b]);
      } else {
        match s.pending
        case NotRunning => assert Untouched(s.queue[0]);
        case AwaitingNested => assert Untouched(s.queue[0]);
        case AwaitingUpload(i) =>
          assert InFlight(s.queue[0], i);
          if k < i {
            assert Finished(s.queue[0].files[k]);
          }
      }
    }
  }

  /** A batch's own status goes from queued to uploading and no further: the line
      that would set it to completed or error is commented out. */
  lemma BatchStatusNeverSettles(s: QueueState)
    requires QueueInv(s)
    ensures forall b :: 0 <= b < |s.queue| ==> s.queue[b].status == Queued || s.queue[b].status == Uploading
    ensures forall b :: 0 <= b < |s.retired| ==> s.retired[b].status == Uploading
  {
    forall b | 0 <= b < |s.queue|
      ensures s.queue[b].status == Queued || s.queue[b].status == Uploading
    {
      if b > 0 {
        assert Untouched(s.queue[b]);
      }
    }
  }

  /** Calling `enqueueUpload` while an invocation runs only appends the batch. */
  lemma EnqueueWhileBusy(s: QueueState, id: string, files: seq<LocalFile>)
    requires s.isProcessing
    ensures EnqueueStep(s, id, files) == s.(queue := s.queue + [NewUpload(id, files)])
  {
  }

  /** Calling `enqueueUpload` while idle starts the OLDEST waiting batch, which is
      not the new one when batches were left behind. */
  lemma {:induction false} EnqueueStartsOldest(s: QueueState, id: string, files: seq<LocalFile>)
    requires QueueInv(s) && !s.isProcessing && s.queue != [] && s.queue[0].files != []
    ensures var r := EnqueueStep(s, id, files);
      r.pending == AwaitingUpload(0) && r.queue[0].id == s.queue[0].id &&
      r.queue[1..] == s.queue[1..] + [NewUpload(id, files)]
  {
    var t := s.(queue := s.queue + [NewUpload(id, files)]);
    EnqueueStepSpec(s, id, files);
    ProcessStepSpec(t);
    assert t.queue[0] == s.queue[0];
    assert t.queue[1..] == s.queue[1..] + [NewUpload(id, files)];
  }

  /** The new batch can be looked up right after `enqueueUpload` returns, when its
      id is new, except exactly when it has no files and went into an empty, idle
      queue: then `processQueue` shifts it off at once. */
  lemma {:induction false} EnqueuedIsFound(s: QueueState, id: string, files: seq<LocalFile>)
    requires QueueInv(s)
    requires forall k :: 0 <= k < |s.queue| ==> s.queue[k].id != id
    ensures var r := EnqueueStep(s, id, files);
      FindUpload(r.queue, id).None? <==> (files == [] && !s.isProcessing && s.queue == [])
  {
    var t := s.(queue := s.queue + [NewUpload(id, files)]);
    EnqueueStepSpec(s, id, files);
    ProcessStepSpec(t);
    var r := EnqueueStep(s, id, files);
    if s.isProcessing || s.queue != [] {
      assert r.queue[|r.queue| - 1].id == id by {
        if !s.isProcessing && s.queue[0].files == [] {
          assert r.queue == t.queue[1..];
        } else if !s.isProcessing {
          assert r.queue[1..] == t.queue[1..];
        }
      }
    } else if files != [] {
      assert r.queue[0].id == id;
    } else {
      assert r.queue == [];
    }
  }

  /** Settling the first uploads of a batch records their outcomes in order on
      the head batch, which stays in the queue while a file is left. */
  lemma {:induction false} SettlePrefix(s: QueueState, outcomes: seq<UploadOutcome>)
    requires QueueInv(s) && s.pending == AwaitingUpload(0) && |outcomes| < |s.queue[0].files|
    ensures var r := SettleAll(s, outcomes);
      QueueInv(r) && r.pending == AwaitingUpload(|outcomes|) && r.retired == s.retired &&
      |r.queue| == |s.queue| && r.queue[1..] == s.queue[1..] &&
      r.queue[0].id == s.queue[0].id && |r.queue[0].files| == |s.queue[0].files| &&
      (forall k :: 0 <= k < |outcomes| ==> r.queue[0].files[k] == Record(s.queue[0].files[k], outcomes[k])) &&
      (forall k :: |outcomes| <= k < |s.queue[0].files| ==> r.queue[0].files[k].file == s.queue[0].files[k].file)
  {
    if outcomes != [] {
      var init, last := outcomes[..|outcomes| - 1], outcomes[|outcomes| - 1];
      SettlePrefix(s, init);
      var m := SettleAll(s, init);
      SettleStepSpec(m, last);
      var r := SettleAll(s, outcomes);
      forall k | 0 <= k < |outcomes|
        ensures r.queue[0].files[k] == Record(s.queue[0].files[k], outcomes[k])
      {
        if k < |init| {
          assert outcomes[k] == init[k];
        }
      }
    }
  }

  /** The records of a batch, once the last file is recorded too. */
  lemma RecordsComplete(files: seq<QueueFile>, current: seq<QueueFile>, outcomes: seq<UploadOutcome>)
    requires |files| == |current| == |outcomes| > 0
    requires forall k :: 0 <= k < |files| - 1 ==> current[k] == Record(files[k], outcomes[k])
    requires current[|files| - 1] == files[|files| - 1].(status := Uploading)
    ensures current[|files| - 1 := Record(current[|files| - 1], outcomes[|files| - 1])] == Records(files, outcomes)
  {
  }

  /** A whole batch: once each of its uploads has settled, in order, the batch
      has left the queue, is retired with every file recorded with its outcome
      and the batch status still uploading, and the next batch, if any, has NOT
      been started: the nested `processQueue` call returns at once. */
  lemma SettleBatch(s: QueueState, outcomes: seq<UploadOutcome>)
    requires QueueInv(s) && s.pending == AwaitingUpload(0) && |outcomes| == |s.queue[0].files|
    ensures var r, head := SettleAll(s, outcomes), s.queue[0];
      QueueInv(r) && r.queue == s.queue[1..] &&
      r.retired == s.retired + [head.(files := Records(head.files, outcomes))] &&
      r.pending == (if |s.queue| > 1 then AwaitingNested else NotRunning) &&
      (|s.queue| > 1 ==> Untouched(r.queue[0]))
  {
    var n := |outcomes|;
    var init := outcomes[..n - 1];
    SettlePrefix(s, init);
    var m := SettleAll(s, init);
    SettleStepSpec(m, outcomes[n - 1]);
    assert forall k :: 0 <= k < n - 1 ==> outcomes[k] == init[k];
    RecordsComplete(s.queue[0].files, m.queue[0].files, outcomes);
  }

  /** A batch enqueued while the last upload of the only other batch is in flight
      is left behind: after that upload and the nested call settle, nothing is
      running and the new batch waits, untouched, until the next `enqueueUpload`. */
  lemma EnqueuedDuringLastUploadWaits(s: QueueState, id: string, files: seq<LocalFile>, o: UploadOutcome)
    requires QueueInv(s) && |s.queue| == 1 && s.pending.AwaitingUpload? && s.pending.index + 1 == |s.queue[0].files|
    ensures var r := NestedStep(SettleStep(EnqueueStep(s, id, files), o));
      !r.isProcessing && r.pending == NotRunning && r.queue == [NewUpload(id, files)] &&
      Untouched(r.queue[0])
  {
    var t := EnqueueStep(s, id, files);
    EnqueueStepSpec(s, id, files);
    assert t.queue == s.queue + [NewUpload(id, files)];
    SettleStepSpec(t, o);
    assert t.queue[1..] == [NewUpload(id, files)];
  }

  /** A retired batch can no longer be looked up, when upload ids are distinct. */
  lemma {:induction false} RetiredIsNotFound(s: QueueState, outcomes: seq<UploadOutcome>)
    requires QueueInv(s) && s.pending == AwaitingUpload(0) && |outcomes| == |s.queue[0].files|
    requires forall j, k :: 0 <= j < k < |s.queue| ==> s.queue[j].id != s.queue[k].id
    ensures FindUpload(s.queue, s.queue[0].id).Some?
    ensures FindUpload(SettleAll(s, outcomes).queue, s.queue[0].id).None?
  {
    SettleBatch(s, outcomes);
    var r := SettleAll(s, outcomes);
    assert forall k :: 0 <= k < |r.queue| ==> r.queue[k] == s.queue[k + 1];
  }

  /** A failed HTTP response is recorded with the message `uploadFile` throws. */
  lemma RejectedResponseMessage(f: QueueFile)
    ensures Record(f, UploadFileOutcome(Response(false))) ==
            f.(status := Error, error := Some(FailedToUpload))
    ensures Record(f, UploadFileOutcome(Response(true))).status == Completed
  {
  }

  // ---------------------------------------------------------------------------
  // The module state as an object

  class UploadQueue {
    var queue: seq<QueueUpload>
    var isProcessing: bool
    /** Where the running `processQueue` invocation waits: the continuation the
        JavaScript runtime would hold. */
    var pending: Pending
    /** The batches removed by `queue.shift()`, which earlier callers of
        `getUploadStatus` may still hold and watch. */
    ghost var retired: seq<QueueUpload>

    ghost function State(): QueueState
      reads this
    {
      QueueState(queue, isProcessing, pending, retired)
    }

    ghost predicate Valid()
      reads this
    {
      QueueInv(State())
    }

    constructor ()
      ensures Valid() && State() == Initial
    {
      queue := [];
      isProcessing := false;
      pending := NotRunning;
      retired := [];
    }

    /** `getUploadStatus`: the first batch in the queue with this id. */
    function GetUploadStatus(id: string): (r: Option<QueueUpload>)
      reads this
      ensures r.Some? ==> exists k :: 0 <= k < |queue| && queue[k] == r.value && r.value.id == id &&
                                      forall j :: 0 <= j < k ==> queue[j].id != id
      ensures r.None? <==> forall k :: 0 <= k < |queue| ==> queue[k].id != id
    {
      FindUpload(queue, id)
    }

    /** `enqueueUpload`; `uploadId` is the value `crypto.randomUUID()` returns. The
        returned promise resolves to the id; the model returns it directly. */
    method EnqueueUpload(files: seq<LocalFile>, uploadId: string) returns (id: string)
      requires Valid()
      modifies this
      ensures Valid()
      ensures id == uploadId && State() == EnqueueStep(old(State()), uploadId, files)
    {
      EnqueueStepSpec(State(), uploadId, files);
      var upload := NewUpload(uploadId, files);
      queue := queue + [upload];
      ProcessQueue();
      id := uploadId;
    }

    /** `processQueue` up to its first `await`. */
    method ProcessQueue()
      requires Valid()
      modifies this
      ensures Valid()
      ensures State() == ProcessStep(old(State()))
    {
      ProcessStepSpec(State());
      if isProcessing || |queue| == 0 {
        return;
      }
      isProcessing := true;
      var upload := queue[0];
      upload := upload.(status := Uploading);
      queue := [upload] + queue[1..];
      Continue(0);
    }

    /** The body of `processQueue` from file `i` of the head batch up to the next
        `await`, or to the end. */
    method Continue(i: nat)
      requires |queue| > 0 && i <= |queue[0].files| && isProcessing
      modifies this
      ensures State() == RunFrom(old(State()), i)
    {
      var upload := queue[0];
      if i < |upload.files| {
        var queueFile := upload.files[i];
        upload := upload.(files := upload.files[i := queueFile.(status := Uploading)]);
        queue := [upload] + queue[1..];
        pending := AwaitingUpload(i);
      } else {
        queue := queue[1..];
        retired := retired + [upload];
        if |queue| > 0 {
          ProcessQueueWhileRunning();
          pending := AwaitingNested;
        } else {
          isProcessing := false;
          pending := NotRunning;
        }
      }
    }

    /** The nested `processQueue()` call: `isProcessing` is still set, so it
        returns at once. */
    method ProcessQueueWhileRunning()
      requires isProcessing
      modifies this
      ensures State() == ProcessStep(old(State())) && State() == old(State())
    {
      if isProcessing || |queue| == 0 {
        return;
      }
    }

    /** The awaited `uploadFile` promise settles with `outcome`. */
    method UploadSettled(outcome: UploadOutcome)
      requires Valid() && pending.AwaitingUpload?
      modifies this
      ensures Valid()
      ensures State() == SettleStep(old(State()), outcome)
    {
      SettleStepSpec(State(), outcome);
      var i := pending.index;
      var upload := queue[0];
      var queueFile := upload.files[i];
      match outcome {
        case Fulfilled =>
          queueFile := queueFile.(status := Completed);
        case Rejected(reason) =>
          queueFile := queueFile.(status := Error);
          queueFile := queueFile.(error := Some(if reason.ErrorObject? then reason.message else UploadFailed));
      }
      upload := upload.(files := upload.files[i := queueFile]);
      queue := [upload] + queue[1..];
      Continue(i + 1);
    }

    /** The awaited nested call settles and the `finally` clause runs. */
    method NestedSettled()
      requires Valid() && pending.AwaitingNested?
      modifies this
      ensures Valid()
      ensures State() == NestedStep(old(State()))
    {
      isProcessing := false;
      pending := NotRunning;
    }
  }
}
