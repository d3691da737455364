/**
 `FilesApi`: downloads run one after the other, each in chunks, and a chunk that was lost
 with its connection is asked for again.
 */
module Download {
  import opened Arithmetic
  import opened Options
  import opened Bytes

  const CHUNK_SIZE: nat := 32768

  /** A `FileOperation`, by its identity. */
  type Id = nat

  datatype Outcome = Running | Done | Failed

  /** A size of zero means that the size is not known. */
  datatype Transfer = Transfer(size: nat, offset: nat, device: seq<byte>, outcome: Outcome)

  /** What the current operation waits for. */
  datatype Phase = Nothing | Connection | Chunk | Retry

  /** `added`, `started` and `finished` are the operations in the order of these events. */
  datatype Files = Files(
    queue: seq<Id>,
    current: Option<Id>,
    phase: Phase,
    transfers: map<Id, Transfer>,
    added: seq<Id>,
    started: seq<Id>,
    finished: seq<Id>)

  // ---------------------------------------------------------------- one chunk

  /** Whether a chunk is the last one; an empty chunk always is. */
  predicate Ends(t: Transfer, bytes: seq<byte>) {
    if t.size != 0 then bytes == [] || (t.offset + |bytes|) % TWO32 == t.size else bytes == [] || |bytes| % 1024 != 0
  }

  /** What a chunk does to its transfer. */
  function Received(t: Transfer, bytes: seq<byte>): Transfer {
    var total := (t.offset + |bytes|) % TWO32;
    var t' := t.(device := t.device + bytes);
    if t.size != 0 && bytes == [] then t'.(outcome := Failed)
    else if Ends(t, bytes) then t'.(size := total, outcome := Done)
    else t'.(offset := total)
  }

  // ---------------------------------------------------------------- the queue

  function Next(f: Files): Files {
    if f.queue == [] then f.(current := None, phase := Nothing)
    else
      f.(current := Some(f.queue[0]), queue := f.queue[1..], phase := Connection, started := f.started + [f.queue[0]])
  }

  function Added(f: Files, id: Id, size: nat): Files {
    var f' := f.(queue := f.queue + [id], transfers := f.transfers[id := Transfer(size, 0, [], Running)],
      added := f.added + [id]);
    if f.current.None? then Next(f') else f'
  }

  function Finished(f: Files, id: Id, t: Transfer): Files {
    Next(f.(transfers := f.transfers[id := t], finished := f.finished + [id]))
  }

  function Connected(f: Files, ok: bool): Files
    requires f.current.Some? ==> f.current.value in f.transfers
  {
    if f.current.None? || f.phase != Connection then f
    else if ok then f.(phase := Chunk)
    else Finished(f, f.current.value, f.transfers[f.current.value].(outcome := Failed))
  }

  function ChunkReceived(f: Files, bytes: seq<byte>): Files
    requires f.current.Some? && f.current.value in f.transfers
  {
    var id := f.current.value;
    var t := Received(f.transfers[id], bytes);
    if Ends(f.transfers[id], bytes) then Finished(f, id, t) else f.(transfers := f.transfers[id := t])
  }

  /** The request failed: a lost connection makes it queued again, anything else is the end. */
  function ChunkFailed(f: Files, connectionLost: bool): Files
    requires f.current.Some? && f.current.value in f.transfers
  {
    if connectionLost then f.(phase := Retry)
    else Finished(f, f.current.value, f.transfers[f.current.value].(outcome := Failed))
  }

  // ---------------------------------------------------------------- the API

  /** `FilesApiPrivate`. */
  class FilesApi {
    var fileRequests: seq<Id>
    var currentOperation: Option<Id>
    var phase: Phase
    var transfers: map<Id, Transfer>
    var added: seq<Id>
    var started: seq<Id>
    var finished: seq<Id>

    ghost function View(): Files
      reads this
    {
      Files(fileRequests, currentOperation, phase, transfers, added, started, finished)
    }

    constructor ()
      ensures View() == Files([], None, Nothing, map[], [], [], [])
    {
      fileRequests, currentOperation, phase, transfers := [], None, Nothing, map[];
      added, started, finished := [], [], [];
    }

    method ProcessNextRequest()
      modifies this`fileRequests, this`currentOperation, this`phase, this`started
      ensures View() == Next(old(View()))
    {
      if fileRequests == [] {
        currentOperation, phase := None, Nothing;
        return;
      }
      var next := fileRequests[0];
      fileRequests := fileRequests[1..];
      currentOperation := Some(next);
      started := started + [next];
      phase := Connection;
    }

    method AddFileRequest(id: Id, size: nat)
      modifies this
      ensures View() == Added(old(View()), id, size)
    {
      transfers := transfers[id := Transfer(size, 0, [], Running)];
      added := added + [id];
      fileRequests := fileRequests + [id];
      if currentOperation.None? {
        ProcessNextRequest();
      }
    }

    /** The operation is finished, and with it `onFileOperationFinished` is called. */
    method SetFinished(t: Transfer)
      requires currentOperation.Some?
      modifies this
      ensures View() == Finished(old(View()), old(currentOperation).value, t)
    {
      var operation := currentOperation.value;
      transfers := transfers[operation := t];
      finished := finished + [operation];
      currentOperation := None;
      ProcessNextRequest();
    }

    method OnConnectOperationFinished(ok: bool)
      requires currentOperation.Some? ==> currentOperation.value in transfers
      modifies this
      ensures View() == Connected(old(View()), ok)
    {
      if currentOperation.None? || phase != Connection {
        return;
      }
      if !ok {
        SetFinished(transfers[currentOperation.value].(outcome := Failed));
        return;
      }
      phase := Chunk;
    }

    method OnGetFileFailed(connectionLost: bool)
      requires currentOperation.Some? && currentOperation.value in transfers
      modifies this
      ensures View() == ChunkFailed(old(View()), connectionLost)
    {
      if connectionLost {
        phase := Retry;
        return;
      }
      SetFinished(transfers[currentOperation.value].(outcome := Failed));
    }

    method OnGetFileResult(bytes: seq<byte>)
      requires currentOperation.Some? && currentOperation.value in transfers
      modifies this
      ensures View() == ChunkReceived(old(View()), bytes)
    {
      var id := currentOperation.value;
      var t := transfers[id];
      t := t.(device := t.device + bytes);
      var totalBytesDownloaded := (t.offset + |bytes|) % TWO32;
      var isFinished := false;
      if t.size != 0 {
        if bytes == [] {
          SetFinished(t.(outcome := Failed));
          return;
        }
        isFinished := totalBytesDownloaded == t.size;
      } else {
        isFinished := bytes == [] || |bytes| % 1024 != 0;
      }
      if isFinished {
        SetFinished(t.(size := totalBytesDownloaded, outcome := Done));
        return;
      }
      transfers := transfers[id := t.(offset := totalBytesDownloaded)];
    }
  }

  // ---------------------------------------------------------------- every run

  /** The contents that the server has for each operation, and the size announced for it. */
  datatype Server = Server(file: Id -> seq<byte>, announced: Id -> nat)

  /** What the server sends for an offset. */
  function Served(file: seq<byte>, offset: nat): seq<byte> {
    if offset >= |file| then [] else if offset + CHUNK_SIZE <= |file| then file[offset..offset + CHUNK_SIZE]
      else file[offset..]
  }

  datatype Step =
    | Add(id: Id)
    | Connect(ok: bool)
    | Reply
    | Refuse
    | Lose
    | RetryNow

  const START: Files := Files([], None, Nothing, map[], [], [], [])

  predicate Enabled(f: Files, s: Step) {
    match s
    case Add(id) => id !in f.transfers
    case Connect(_) => f.phase == Connection && f.current.Some? && f.current.value in f.transfers
    case RetryNow => f.phase == Retry && f.current.Some? && f.current.value in f.transfers
    case _ => f.phase == Chunk && f.current.Some? && f.current.value in f.transfers
  }

  function After(server: Server, f: Files, s: Step): Files
    requires Enabled(f, s)
  {
    match s
    case Add(id) => Added(f, id, server.announced(id))
    case Connect(ok) => Connected(f, ok)
    case Reply => ChunkReceived(f, Served(server.file(f.current.value), f.transfers[f.current.value].offset))
    case Refuse => ChunkFailed(f, false)
    case Lose => ChunkFailed(f, true)
    case RetryNow => f.(phase := Connection)
  }

  predicate IsRun(server: Server, steps: seq<Step>)
    decreases |steps|, 0
  {
    steps == [] ||
    (IsRun(server, steps[..|steps| - 1]) && Enabled(RunOf(server, steps[..|steps| - 1]), steps[|steps| - 1]))
  }

  function RunOf(server: Server, steps: seq<Step>): Files
    requires IsRun(server, steps)
    decreases |steps|
  {
    if steps == [] then START else After(server, RunOf(server, steps[..|steps| - 1]), steps[|steps| - 1])
  }

  // ---------------------------------------------------------------- the invariant of a transfer

  /** The announced size is too small, and met exactly after some whole chunks. */
  predicate EndsEarly(announced: nat, size: nat) {
    0 < announced < size && announced % CHUNK_SIZE == 0
  }

  /** The device holds exactly the file up to the offset, and on success up to the size. */
  ghost predicate TransferOk(file: seq<byte>, announced: nat, t: Transfer) {
    match t.outcome
    case Running =>
      t.size == announced && t.offset <= |file| && t.device == file[..t.offset]
      && (announced == |file| > 0 ==> t.offset < |file|)
      && (announced == 0 || announced == |file| ==> t.offset % 1024 == 0)
      && (t.offset % CHUNK_SIZE == 0 || t.offset == |file|)
      && (EndsEarly(announced, |file|) ==> t.offset < announced)
    case Done =>
      && (announced == 0 || announced == |file| || EndsEarly(announced, |file|))
      && t.device == (if announced == 0 then file else file[..announced]) && |t.device| == t.size
    case Failed => t.device <= file
  }

  lemma {:induction false} ServedExtends(file: seq<byte>, offset: nat)
    requires offset <= |file|
    ensures file[..offset] + Served(file, offset) == file[..offset + |Served(file, offset)|]
    ensures offset + |Served(file, offset)| <= |file|
    ensures Served(file, offset) == [] <==> offset == |file|
    ensures |Served(file, offset)| % 1024 != 0 ==> offset + |Served(file, offset)| == |file|
    ensures offset + |Served(file, offset)| < |file| ==> |Served(file, offset)| == CHUNK_SIZE
  {
  }

  lemma {:induction false} ServedAligned(file: seq<byte>, offset: nat)
    requires offset <= |file| && (offset % CHUNK_SIZE == 0 || offset == |file|)
    ensures var total := offset + |Served(file, offset)|; total % CHUNK_SIZE == 0 || total == |file|
  {
    var total := offset + |Served(file, offset)|;
    if total < |file| {
      assert total == offset + CHUNK_SIZE;
    }
  }

  /** An announced size that ends the file early is not jumped over. */
  lemma {:induction false} NotJumpedOver(file: seq<byte>, announced: nat, offset: nat)
    requires EndsEarly(announced, |file|) && offset % CHUNK_SIZE == 0 && offset < announced
    ensures offset + |Served(file, offset)| <= announced
  {
    var a, b := announced / CHUNK_SIZE, offset / CHUNK_SIZE;
    assert announced == a * CHUNK_SIZE && offset == b * CHUNK_SIZE;
    assert b < a;
  }

  lemma {:induction false} SumAligned(a: nat, b: nat)
    requires a % 1024 == 0 && b % 1024 == 0
    ensures (a + b) % 1024 == 0
  {
  }

  /** What is known of a chunk that the server sends for the offset of a transfer. */
  ghost predicate Continues(file: seq<byte>, announced: nat, offset: nat, bytes: seq<byte>) {
    var total := offset + |bytes|;
    && total <= |file| < TWO32 && file[..offset] + bytes == file[..total]
    && (bytes == [] <==> offset == |file|)
    && (|bytes| % 1024 != 0 ==> total == |file|) && (total < |file| ==> |bytes| == CHUNK_SIZE)
    && (total % CHUNK_SIZE == 0 || total == |file|)
    && (EndsEarly(announced, |file|) ==> total <= announced)
  }

  lemma {:induction false} ServedContinues(file: seq<byte>, announced: nat, t: Transfer)
    requires |file| < TWO32 && TransferOk(file, announced, t) && t.outcome == Running
    ensures Continues(file, announced, t.offset, Served(file, t.offset))
  {
    ServedExtends(file, t.offset);
    ServedAligned(file, t.offset);
    if EndsEarly(announced, |file|) {
      NotJumpedOver(file, announced, t.offset);
    }
  }

  /** The chunk ends the transfer. */
  lemma {:induction false} LastChunkOk(file: seq<byte>, announced: nat, t: Transfer, bytes: seq<byte>)
    requires TransferOk(file, announced, t) && t.outcome == Running && Continues(file, announced, t.offset, bytes)
    requires Ends(t, bytes)
    ensures TransferOk(file, announced, Received(t, bytes))
  {
    assert file[..|file|] == file;
  }

  /** The chunk is followed by another one. */
  lemma {:induction false} NextChunkOk(file: seq<byte>, announced: nat, t: Transfer, bytes: seq<byte>)
    requires TransferOk(file, announced, t) && t.outcome == Running && Continues(file, announced, t.offset, bytes)
    requires !Ends(t, bytes)
    ensures TransferOk(file, announced, Received(t, bytes))
  {
    if announced == 0 || announced == |file| {
      SumAligned(t.offset, |bytes|);
    }
  }

  lemma {:induction false} ReplyOk(file: seq<byte>, announced: nat, t: Transfer)
    requires |file| < TWO32 && TransferOk(file, announced, t) && t.outcome == Running
    ensures TransferOk(file, announced, Received(t, Served(file, t.offset)))
  {
    ServedContinues(file, announced, t);
    if Ends(t, Served(file, t.offset)) {
      LastChunkOk(file, announced, t, Served(file, t.offset));
    } else {
      NextChunkOk(file, announced, t, Served(file, t.offset));
    }
  }

  /** A reply brings the transfer forward, ends it well, or shows that the announced size was wrong. */
  lemma {:induction false} ReplyProgress(file: seq<byte>, announced: nat, t: Transfer)
    requires |file| < TWO32 && TransferOk(file, announced, t) && t.outcome == Running
    ensures var t' := Received(t, Served(file, t.offset));
            match t'.outcome
            case Running => t.offset < t'.offset <= |file|
            case Done => true
            case Failed =>
              announced != 0 && announced != |file| && !EndsEarly(announced, |file|) && t'.device == file
  {
    ServedExtends(file, t.offset);
    assert file[..|file|] + [] == file;
  }

  /** What becomes of a transfer if all its requests are answered. */
  ghost function Fate(file: seq<byte>, announced: nat, t: Transfer): Transfer
    requires |file| < TWO32 && TransferOk(file, announced, t) && t.outcome == Running
    decreases |file| - t.offset
  {
    ReplyOk(file, announced, t);
    ReplyProgress(file, announced, t);
    var t' := Received(t, Served(file, t.offset));
    if t'.outcome == Running then Fate(file, announced, t') else t'
  }

  /**
   A download whose requests are all answered gets the whole file if the size is unknown or
   right, ends early with a part of it if the announced size is a smaller multiple of the
   chunk size, and fails, with the whole file on the device, for every other size.
   */
  lemma {:induction false} FateExactly(file: seq<byte>, announced: nat, t: Transfer)
    requires |file| < TWO32 && TransferOk(file, announced, t) && t.outcome == Running
    ensures var e := Fate(file, announced, t);
            if announced == 0 || announced == |file| then e.outcome == Done && e.device == file
            else if EndsEarly(announced, |file|) then e.outcome == Done && e.device == file[..announced]
            else e.outcome == Failed && e.device == file
    decreases |file| - t.offset
  {
    ReplyOk(file, announced, t);
    ReplyProgress(file, announced, t);
    var t' := Received(t, Served(file, t.offset));
    if t'.outcome == Running {
      FateExactly(file, announced, t');
    } else {
      assert file[..|file|] == file;
    }
  }

  // ---------------------------------------------------------------- the invariant of the queue

  ghost predicate TransfersOk(server: Server, f: Files) {
    forall id :: id in f.transfers ==> TransferOk(server.file(id), server.announced(id), f.transfers[id])
  }

  /** Requests start in the order in which they were added, one at a time. */
  ghost predicate QueueOk(f: Files) {
    && f.added == f.started + f.queue
    && f.started == f.finished + (if f.current.Some? then [f.current.value] else [])
    && (f.current.None? <==> f.phase == Nothing)
    && (f.current.None? ==> f.queue == [])
  }

  ghost predicate Known(f: Files) {
    && (forall i :: 0 <= i < |f.added| ==> f.added[i] in f.transfers)
    && (forall i, j :: 0 <= i < j < |f.added| ==> f.added[i] != f.added[j])
  }

  /** What is waiting or current is running. */
  ghost predicate RunningOk(f: Files) {
    && (forall i :: 0 <= i < |f.queue| ==> f.queue[i] in f.transfers && f.transfers[f.queue[i]].outcome == Running)
    && (f.current.Some? ==> f.current.value in f.transfers && f.transfers[f.current.value].outcome == Running)
  }

  ghost predicate Inv(server: Server, f: Files) {
    TransfersOk(server, f) && QueueOk(f) && Known(f) && RunningOk(f)
  }

  ghost predicate SmallFiles(server: Server) {
    forall id :: |server.file(id)| < TWO32
  }

  lemma {:induction false} AddToTransfers(server: Server, f: Files, id: Id)
    requires TransfersOk(server, f) && id !in f.transfers
    ensures TransfersOk(server, Added(f, id, server.announced(id)))
  {
    assert server.file(id)[..0] == [];
  }

  lemma {:induction false} AddToQueue(f: Files, id: Id, size: nat)
    requires QueueOk(f)
    ensures QueueOk(Added(f, id, size))
  {
    assert f.added + [id] == f.started + (f.queue + [id]);
    if f.current.None? {
      assert f.queue + [id] == [id];
      assert f.added + [id] == (f.started + [id]) + [];
    }
  }

  lemma {:induction false} AddKnown(f: Files, id: Id, size: nat)
    requires Known(f) && id !in f.transfers
    ensures Known(Added(f, id, size))
  {
    var added := f.added + [id];
    assert forall i :: 0 <= i < |f.added| ==> added[i] == f.added[i];
  }

  lemma {:induction false} AddRunning(f: Files, id: Id, size: nat)
    requires RunningOk(f) && QueueOk(f) && id !in f.transfers
    ensures RunningOk(Added(f, id, size))
  {
    if f.current.None? {
      assert f.queue + [id] == [id];
    }
  }

  lemma {:induction false} AddKeeps(server: Server, f: Files, id: Id)
    requires Inv(server, f) && id !in f.transfers
    ensures Inv(server, Added(f, id, server.announced(id)))
  {
    AddToTransfers(server, f, id);
    AddToQueue(f, id, server.announced(id));
    AddKnown(f, id, server.announced(id));
    AddRunning(f, id, server.announced(id));
  }

  /** The operations that wait are none of those that were started. */
  lemma {:induction false} CurrentNotQueued(f: Files)
    requires QueueOk(f) && Known(f) && f.current.Some?
    ensures forall i :: 0 <= i < |f.queue| ==> f.queue[i] != f.current.value
  {
    var n := |f.started|;
    assert f.added[n - 1] == f.current.value;
    forall i | 0 <= i < |f.queue| ensures f.queue[i] != f.current.value {
      assert f.added[n + i] == f.queue[i];
    }
  }

  lemma {:induction false} FinishKeeps(server: Server, f: Files, t: Transfer)
    requires Inv(server, f) && f.current.Some?
    requires TransferOk(server.file(f.current.value), server.announced(f.current.value), t)
    ensures Inv(server, Finished(f, f.current.value, t))
  {
    CurrentNotQueued(f);
    var id := f.current.value;
    var f' := Finished(f, id, t);
    assert f.finished + [id] == f.started;
    if f.queue != [] {
      assert f.started + f.queue == (f.started + [f.queue[0]]) + f.queue[1..];
    } else {
      assert f.started + [] == f.started;
    }
  }

  lemma {:induction false} ReplyKeeps(server: Server, f: Files)
    requires Inv(server, f) && SmallFiles(server) && Enabled(f, Reply)
    ensures Inv(server, After(server, f, Reply))
  {
    var id := f.current.value;
    var t := f.transfers[id];
    ReplyOk(server.file(id), server.announced(id), t);
    var t' := Received(t, Served(server.file(id), t.offset));
    if Ends(t, Served(server.file(id), t.offset)) {
      FinishKeeps(server, f, t');
    } else {
      CurrentNotQueued(f);
    }
  }

  lemma {:induction false} StepKeeps(server: Server, f: Files, s: Step)
    requires Inv(server, f) && SmallFiles(server) && Enabled(f, s)
    ensures Inv(server, After(server, f, s))
  {
    match s
    case Add(id) => AddKeeps(server, f, id);
    case Reply => ReplyKeeps(server, f);
    case Lose =>
    case RetryNow =>
    case Connect(ok) =>
      if !ok {
        FinishKeeps(server, f, f.transfers[f.current.value].(outcome := Failed));
      }
    case Refuse =>
      FinishKeeps(server, f, f.transfers[f.current.value].(outcome := Failed));
  }

  lemma {:induction false} RunKeeps(server: Server, steps: seq<Step>)
    requires SmallFiles(server) && IsRun(server, steps)
    ensures Inv(server, RunOf(server, steps))
    decreases |steps|
  {
    if steps != [] {
      RunKeeps(server, steps[..|steps| - 1]);
      StepKeeps(server, RunOf(server, steps[..|steps| - 1]), steps[|steps| - 1]);
    }
  }

  // ---------------------------------------------------------------- what every run keeps

  /**
   Whatever was lost on the way: the device of an unfinished download holds the file up to
   the offset, that of a successful one the whole file, unless the announced size is a
   smaller multiple of the chunk size: then it is the file up to that size.
   */
  lemma {:induction false} DevicesExact(server: Server, steps: seq<Step>, id: Id)
    requires SmallFiles(server) && IsRun(server, steps) && id in RunOf(server, steps).transfers
    ensures var t, file := RunOf(server, steps).transfers[id], server.file(id);
            && (t.outcome == Running ==> t.offset <= |file| && t.device == file[..t.offset])
            && (t.outcome == Done ==>
                  if EndsEarly(server.announced(id), |file|) then t.device == file[..server.announced(id)]
                  else t.device == file)
            && (t.outcome == Failed ==> t.device <= file)
  {
    RunKeeps(server, steps);
    var file := server.file(id);
    assert file[..|file|] == file;
  }

  /** Requests are served one at a time in the order of their arrival, and none waits while none is current. */
  lemma {:induction false} FirstComeFirstServed(server: Server, steps: seq<Step>)
    requires SmallFiles(server) && IsRun(server, steps)
    ensures var f := RunOf(server, steps);
            && f.finished <= f.started <= f.added
            && |f.started| - |f.finished| == (if f.current.Some? then 1 else 0)
            && (f.current.None? ==> f.queue == [] && f.finished == f.added)
  {
    RunKeeps(server, steps);
  }

  /** A download only fails by a refusal, a failed connection, or an announced size that is wrong. */
  lemma {:induction false} NoSpuriousFailure(server: Server, steps: seq<Step>)
    requires SmallFiles(server) && IsRun(server, steps) && Enabled(RunOf(server, steps), Reply)
    ensures var f := RunOf(server, steps);
            var id := f.current.value;
            var f' := After(server, f, Reply);
            && id in f'.transfers
            && (f'.transfers[id].outcome == Failed ==>
                  && server.announced(id) != 0 && server.announced(id) != |server.file(id)|
                  && !EndsEarly(server.announced(id), |server.file(id)|))
            && (f'.transfers[id].outcome == Running ==>
                 f.transfers[id].offset < f'.transfers[id].offset <= |server.file(id)|)
  {
    RunKeeps(server, steps);
    var f := RunOf(server, steps);
    var id := f.current.value;
    ReplyProgress(server.file(id), server.announced(id), f.transfers[id]);
  }

  /** The offsets asked for are those that the server accepts, unless the announced size is wrong. */
  lemma {:induction false} OffsetsAccepted(server: Server, steps: seq<Step>)
    requires SmallFiles(server) && IsRun(server, steps) && Enabled(RunOf(server, steps), Reply)
    ensures var f := RunOf(server, steps);
            server.announced(f.current.value) in {0, |server.file(f.current.value)|} ==>
              f.transfers[f.current.value].offset % 1024 == 0
  {
    RunKeeps(server, steps);
  }

  /** A run that ends early: 32768 bytes are announced for a file of 40000, and taken for success. */
  lemma {:induction false} EarlyEnd(server: Server)
    requires |server.file(0)| == 40000 && server.announced(0) == 32768
    ensures var steps := [Add(0), Connect(true), Reply];
            && IsRun(server, steps) && 0 in RunOf(server, steps).transfers
            && RunOf(server, steps).transfers[0].outcome == Done
            && RunOf(server, steps).transfers[0].device == server.file(0)[..32768]
  {
    var steps := [Add(0), Connect(true), Reply];
    assert steps[..2] == [Add(0), Connect(true)] && steps[..2][..1] == [Add(0)] && [Add(0)][..0] == [];
    var f1 := RunOf(server, [Add(0)]);
    assert f1 == Added(START, 0, 32768);
    assert START.queue + [0] == [0];
    var f2 := RunOf(server, steps[..2]);
    assert f2 == Connected(f1, true);
    assert f2.transfers[0] == Transfer(32768, 0, [], Running);
    assert Served(server.file(0), 0) == server.file(0)[..32768];
    assert RunOf(server, steps) == ChunkReceived(f2, server.file(0)[..32768]);
    assert [] + server.file(0)[..32768] == server.file(0)[..32768];
  }

  // ---------------------------------------------------------------- lost connections and other errors

  /** In every run a lost connection leaves everything as it is, and the same chunk is asked for again. */
  lemma {:induction false} LossIsRetried(server: Server, steps: seq<Step>)
    requires SmallFiles(server) && IsRun(server, steps) && Enabled(RunOf(server, steps), Lose)
    ensures var f := RunOf(server, steps);
            var f' := After(server, f, Lose);
            && f' == f.(phase := Retry) && Enabled(f', RetryNow)
            && var f2 := After(server, f', RetryNow);
               Enabled(f2, Connect(true)) && After(server, f2, Connect(true)) == f
  {
  }

  /** In every run any other error, and a connection that cannot be made, is the end of just the current request. */
  lemma {:induction false} ErrorEnds(server: Server, steps: seq<Step>, s: Step)
    requires SmallFiles(server) && IsRun(server, steps) && Enabled(RunOf(server, steps), s)
    requires s == Refuse || s == Connect(false)
    ensures var f := RunOf(server, steps);
            var f' := After(server, f, s);
            var id := f.current.value;
            && f'.finished == f.finished + [id] && f'.current != Some(id)
            && f'.transfers == f.transfers[id := f.transfers[id].(outcome := Failed)]
  {
    RunKeeps(server, steps);
    CurrentNotQueued(RunOf(server, steps));
  }

  /** No refusal and no connection that cannot be made. */
  predicate NoErrors(steps: seq<Step>) {
    forall i :: 0 <= i < |steps| ==> steps[i] != Refuse && steps[i] != Connect(false)
  }

  /** The announced size is unknown, right, or one that ends early. */
  ghost predicate SizesFine(server: Server) {
    forall id ::
      server.announced(id) == 0 || server.announced(id) == |server.file(id)| ||
      EndsEarly(server.announced(id), |server.file(id)|)
  }

  ghost predicate NoneFailed(f: Files) {
    forall id :: id in f.transfers ==> f.transfers[id].outcome != Failed
  }

  lemma {:induction false} StepWithoutFailure(server: Server, f: Files, s: Step)
    requires Inv(server, f) && SmallFiles(server) && SizesFine(server) && Enabled(f, s)
    requires s != Refuse && s != Connect(false) && NoneFailed(f)
    ensures NoneFailed(After(server, f, s))
  {
    if s == Reply {
      var id := f.current.value;
      ReplyProgress(server.file(id), server.announced(id), f.transfers[id]);
    }
  }

  /** However often connections are lost: without such errors, and with such sizes, no download fails. */
  lemma {:induction false} NoFailure(server: Server, steps: seq<Step>)
    requires SmallFiles(server) && SizesFine(server) && IsRun(server, steps) && NoErrors(steps)
    ensures NoneFailed(RunOf(server, steps))
    decreases |steps|
  {
    if steps != [] {
      var init := steps[..|steps| - 1];
      NoFailure(server, init);
      RunKeeps(server, init);
      StepWithoutFailure(server, RunOf(server, init), steps[|steps| - 1]);
    }
  }
}
