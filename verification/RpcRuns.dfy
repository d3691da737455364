/**
 Every run of the RPC layer: operations are conserved, message ids stay fresh, sequence
 numbers keep their parity and, unless one is lowered below zero, stay below the next one.
 */
module RpcRuns {
  import opened Arithmetic
  import opened MessageIds
  import opened RpcLayer

  datatype Step =
    | Send(op: Operation, contentRelated: bool, now: nat)
    | Answer(id: nat)
    | Ignore(id: nat, code: ErrorCode, now: nat)
    | Receive(id: nat)
    | Flush(now: nat)
    | Lose

  /** The layer, the operations given to it and the received ids to acknowledge, in order. */
  datatype World = World(r: Rpc, given: set<Operation>, noted: seq<nat>)

  /** Each operation is given once; queued calls run; the 64-bit ids are not exhausted. */
  predicate Enabled(w: World, s: Step) {
    && (s.Send? ==> s.op !in w.given)
    && (s.Flush? ==> w.r.flushes > 0)
    && (s.Send? || s.Ignore? || s.Flush? ==> !WrapsAround(w.r.last, Stamped(FormatTimeStamp(s.now), FromClient)))
  }

  function After(w: World, s: Step): World
    requires Enabled(w, s)
  {
    match s
    case Send(op, c, now) => w.(r := Sent(w.r, op, c, FreshId(w.r.last, now)), given := w.given + {op})
    case Answer(id) => w.(r := Answered(w.r, id))
    case Ignore(id, code, now) => w.(r := Ignored(w.r, id, code, FreshId(w.r.last, now)))
    case Receive(id) => w.(r := Noted(w.r, id), noted := w.noted + [id])
    case Flush(now) => w.(r := Acknowledged(w.r, FreshId(w.r.last, now)))
    case Lose => w.(r := Lost(w.r))
  }

  const INITIAL: World := World(Rpc(map[], map[], 0, 0, [], 0, [], multiset{}), {}, [])

  predicate IsRun(steps: seq<Step>)
    decreases |steps|, 0
  {
    steps == [] || (IsRun(steps[..|steps| - 1]) && Enabled(RunOf(steps[..|steps| - 1]), steps[|steps| - 1]))
  }

  function RunOf(steps: seq<Step>): World
    requires IsRun(steps)
    decreases |steps|
  {
    if steps == [] then INITIAL else After(RunOf(steps[..|steps| - 1]), steps[|steps| - 1])
  }

  // ---------------------------------------------------------------- conservation

  /** `op` is pending under `id` and nowhere else. */
  ghost predicate PendingUnder(r: Rpc, op: Operation, id: nat) {
    id in r.operations && r.operations[id] == op && forall k :: k in r.operations && r.operations[k] == op ==> k == id
  }

  ghost predicate Pending(r: Rpc, op: Operation) {
    exists id :: PendingUnder(r, op, id)
  }

  /** Pending under exactly one id and not finished, or finished exactly once and not pending. */
  ghost predicate Conserved(r: Rpc, op: Operation) {
    if r.finished[op] == 0 then Pending(r, op)
    else r.finished[op] == 1 && forall id :: id in r.operations ==> r.operations[id] != op
  }

  /** Ids in use are not above the last one, so the next one is in use nowhere. */
  ghost predicate KeysOk(r: Rpc) {
    && r.last < TWO64
    && (forall id :: id in r.messages ==> id <= r.last)
    && (forall id :: id in r.operations ==> id in r.messages && r.messages[id].payload.Request?
                                            && r.messages[id].payload.op == r.operations[id])
  }

  ghost predicate Inv(w: World) {
    && KeysOk(w.r)
    && (forall op :: op in w.given ==> Conserved(w.r, op))
    && (forall op :: op !in w.given ==> w.r.finished[op] == 0)
    && (forall id :: id in w.r.operations ==> w.r.operations[id] in w.given)
  }

  lemma {:induction false} FreshIdIsNew(last: nat, now: nat)
    requires last < TWO64 && !WrapsAround(last, Stamped(FormatTimeStamp(now), FromClient))
    ensures last < FreshId(last, now) < TWO64 && FreshId(last, now) % 4 == 0
  {
    StampResidue(FormatTimeStamp(now), FromClient);
    NextIdUnique(last, Stamped(FormatTimeStamp(now), FromClient));
  }

  lemma {:induction false} SendKeeps(w: World, op: Operation, c: bool, newId: nat)
    requires Inv(w) && op !in w.given && w.r.last < newId < TWO64
    ensures Inv(w.(r := Sent(w.r, op, c, newId), given := w.given + {op}))
  {
    var r' := Sent(w.r, op, c, newId);
    assert PendingUnder(r', op, newId);
    forall o | o in w.given ensures Conserved(r', o) {
      if w.r.finished[o] == 0 {
        var k :| PendingUnder(w.r, o, k);
        assert PendingUnder(r', o, k);
      }
    }
  }

  lemma {:induction false} AnswerKeeps(w: World, id: nat)
    requires Inv(w)
    ensures Inv(After(w, Answer(id)))
  {
    var w' := After(w, Answer(id));
    if id in w.r.operations {
      forall o | o in w.given ensures Conserved(w'.r, o) {
        if w.r.finished[o] == 0 {
          var k :| PendingUnder(w.r, o, k);
          assert k != id ==> PendingUnder(w'.r, o, k);
        }
      }
    }
  }

  lemma {:induction false} ResendKeeps(w: World, r: Rpc, id: nat, newId: nat)
    requires Inv(w) && id in r.messages && w.r.last < newId < TWO64
    requires r.operations == w.r.operations && r.finished == w.r.finished && r.last == w.r.last && KeysOk(r)
    ensures Inv(w.(r := Resent(r, id, newId)))
  {
    var r' := Resent(r, id, newId);
    forall o | o in w.given ensures Conserved(r', o) {
      if w.r.finished[o] == 0 {
        var k :| PendingUnder(w.r, o, k);
        assert PendingUnder(r', o, if k == id then newId else k);
      }
    }
  }

  lemma {:induction false} IgnoreKeeps(w: World, id: nat, code: ErrorCode, newId: nat)
    requires Inv(w) && w.r.last < newId < TWO64
    ensures Inv(w.(r := Ignored(w.r, id, code, newId)))
  {
    if id in w.r.messages && code != OtherError {
      var m := Repaired(w.r.messages[id], code);
      ResendKeeps(w, w.r.(messages := w.r.messages[id := m], content := RaisedContent(w.r.content, m, code)), id,
        newId);
    }
  }

  lemma {:induction false} FlushKeeps(w: World, newId: nat)
    requires Inv(w) && w.r.flushes > 0 && w.r.last < newId < TWO64
    ensures Inv(w.(r := Acknowledged(w.r, newId)))
  {
    var r' := Acknowledged(w.r, newId);
    forall o | o in w.given ensures Conserved(r', o) {
      assert forall k :: PendingUnder(w.r, o, k) ==> PendingUnder(r', o, k);
    }
  }

  lemma {:induction false} LoseKeeps(w: World)
    requires Inv(w)
    ensures Inv(After(w, Lose))
  {
    var w' := After(w, Lose);
    var open := Unfinished(w.r);
    forall o | o in w.given ensures Conserved(w'.r, o) {
      assert w'.r.finished[o] == w.r.finished[o] + multiset(open)[o];
      if w.r.finished[o] == 0 {
        var k :| PendingUnder(w.r, o, k);
        assert o in open;
      } else {
        assert o !in open;
      }
    }
    forall o | o !in w.given ensures w'.r.finished[o] == 0 {
      assert o !in open;
    }
  }

  lemma {:induction false} NoteKeeps(w: World, id: nat)
    requires Inv(w)
    ensures Inv(After(w, Receive(id)))
  {
    forall o | o in w.given ensures Conserved(After(w, Receive(id)).r, o) {
      assert forall k :: PendingUnder(w.r, o, k) ==> PendingUnder(After(w, Receive(id)).r, o, k);
    }
  }

  lemma {:induction false} StepKeeps(w: World, s: Step)
    requires Inv(w) && Enabled(w, s)
    ensures Inv(After(w, s))
  {
    if s.Send? || s.Ignore? || s.Flush? {
      FreshIdIsNew(w.r.last, s.now);
    }
    match s
    case Send(op, c, now) => SendKeeps(w, op, c, FreshId(w.r.last, now));
    case Answer(id) => AnswerKeeps(w, id);
    case Ignore(id, code, now) => IgnoreKeeps(w, id, code, FreshId(w.r.last, now));
    case Receive(id) => NoteKeeps(w, id);
    case Flush(now) => FlushKeeps(w, FreshId(w.r.last, now));
    case Lose => LoseKeeps(w);
  }

  lemma {:induction false} RunKeeps(steps: seq<Step>)
    requires IsRun(steps)
    ensures Inv(RunOf(steps))
    decreases |steps|
  {
    if steps != [] {
      RunKeeps(steps[..|steps| - 1]);
      StepKeeps(RunOf(steps[..|steps| - 1]), steps[|steps| - 1]);
    }
  }

  /**
   Conservation: in every run each operation given to the layer is pending under exactly one
   message id or was finished exactly once, and whatever is pending has its own request
   stored, so a resend never finds an operation without its message.
   */
  lemma {:induction false} OperationsConserved(steps: seq<Step>, op: Operation)
    requires IsRun(steps) && op in RunOf(steps).given
    ensures var r := RunOf(steps).r;
            && (Pending(r, op) <==> r.finished[op] == 0) && r.finished[op] <= 1
            && (forall id :: id in r.operations ==> id in r.messages && r.messages[id].payload.Request?
                                                    && r.messages[id].payload.op == r.operations[id])
  {
    RunKeeps(steps);
    assert Conserved(RunOf(steps).r, op);
  }

  /** Every stored message was sent under its id. */
  ghost predicate StoredSent(r: Rpc) {
    forall id :: id in r.messages ==> Packet(id, r.messages[id]) in r.sent
  }

  lemma {:induction false} PostedSent(r: Rpc, m: Message, newId: nat)
    requires StoredSent(r)
    ensures StoredSent(Posted(r, m, newId))
  {
    var r' := Posted(r, m, newId);
    assert r'.sent[|r.sent|] == Packet(newId, m);
    forall id | id in r'.messages ensures Packet(id, r'.messages[id]) in r'.sent {
      if id != newId {
        assert Packet(id, r.messages[id]) in r.sent;
      }
    }
  }

  lemma {:induction false} IgnoreSent(r: Rpc, id: nat, code: ErrorCode, newId: nat)
    requires StoredSent(r)
    ensures StoredSent(Ignored(r, id, code, newId))
  {
    if id in r.messages && code != OtherError {
      var m := Repaired(r.messages[id], code);
      var taken := r.(messages := r.messages - {id}, operations := r.operations - {id},
                      content := RaisedContent(r.content, m, code));
      assert r.messages[id := m] - {id} == r.messages - {id};
      if id in r.operations {
        PostedSent(taken, m, newId);
      }
    }
  }

  lemma {:induction false} StepSent(w: World, s: Step)
    requires StoredSent(w.r) && Enabled(w, s)
    ensures StoredSent(After(w, s).r)
  {
    match s
    case Send(op, c, now) => PostedSent(w.r, NewRequest(w.r.content, op, c), FreshId(w.r.last, now));
    case Answer(id) =>
    case Ignore(id, code, now) => IgnoreSent(w.r, id, code, FreshId(w.r.last, now));
    case Receive(id) =>
    case Flush(now) =>
      PostedSent(w.r.(toAck := [], flushes := w.r.flushes - 1), Message(w.r.content * 2 % TWO32, Ack(w.r.toAck)),
                 FreshId(w.r.last, now));
    case Lose =>
  }

  /** In every run whatever is stored, and so whatever is pending, was sent under its id. */
  lemma {:induction false} EverythingSent(steps: seq<Step>)
    requires IsRun(steps)
    ensures StoredSent(RunOf(steps).r)
    ensures forall id :: id in RunOf(steps).r.operations ==>
              exists m: Message :: m.payload.Request? && m.payload.op == RunOf(steps).r.operations[id]
                                   && Packet(id, m) in RunOf(steps).r.sent
    decreases |steps|
  {
    RunKeeps(steps);
    if steps != [] {
      EverythingSent(steps[..|steps| - 1]);
      StepSent(RunOf(steps[..|steps| - 1]), steps[|steps| - 1]);
    }
    var r := RunOf(steps).r;
    forall id | id in r.operations
      ensures exists m: Message :: m.payload.Request? && m.payload.op == r.operations[id] && Packet(id, m) in r.sent
    {
      assert Packet(id, r.messages[id]) in r.sent;
    }
  }

  /** A step sends exactly one packet, with this id and payload. */
  ghost predicate SendsOne(r: Rpc, r': Rpc, id: nat, payload: Payload) {
    |r'.sent| == |r.sent| + 1 && r.sent <= r'.sent
    && r'.sent[|r.sent|].id == id && r'.sent[|r.sent|].message.payload == payload
  }

  /** The number of a resent message is two lower or higher if the server asked for it, unless that wraps around. */
  ghost predicate NumberRepaired(n: nat, n': nat, code: ErrorCode) {
    match code
    case SequenceNumberTooHigh => n >= 2 ==> n' == n - 2
    case SequenceNumberTooLow => n + 2 < TWO32 ==> n' == n + 2
    case _ => n' == n
  }

  /**
   The packets of every step of every run: sending an operation, resending a pending one and
   acknowledging send exactly one packet under a new id, which carries that operation or all the
   ids that wait; the connection is initialised with the first content-related request; nothing
   else sends anything.
   */
  lemma {:induction false} PacketsExactly(steps: seq<Step>, s: Step)
    requires IsRun(steps) && Enabled(RunOf(steps), s)
    ensures var r, r' := RunOf(steps).r, After(RunOf(steps), s).r;
            match s
            case Send(op, c, now) =>
              && r'.last > r.last && r'.last in r'.operations && r'.operations[r'.last] == op
              && (2 * r.content + 2 < TWO32 ==> SendsOne(r, r', r'.last, Request(op, c, c && r.content == 0)))
              && |r'.sent| == |r.sent| + 1
            case Ignore(id, code, now) =>
              if id in r.operations && code != OtherError then
                && r'.last > r.last && id !in r'.operations
                && r'.operations == (r.operations - {id})[r'.last := r.operations[id]]
                && SendsOne(r, r', r'.last, r.messages[id].payload)
                && NumberRepaired(r.messages[id].seqNo, r'.sent[|r.sent|].message.seqNo, code)
                && r.messages[id].payload.Request? && r.messages[id].payload.op == r.operations[id]
              else r'.sent == r.sent && r'.operations == r.operations
            case Flush(now) => r'.last > r.last && SendsOne(r, r', r'.last, Ack(r.toAck))
            case _ => r'.sent == r.sent
  {
    RunKeeps(steps);
    var r := RunOf(steps).r;
    match s
    case Send(op, c, now) =>
      FreshIdIsNew(r.last, now);
      if 2 * r.content + 2 < TWO32 {
        NoWrap(r.content, op, c);
      }
    case Ignore(id, code, now) =>
      FreshIdIsNew(r.last, now);
      if !(id in r.operations && code != OtherError) {
        assert r.operations - {id} == r.operations || code == OtherError;
      }
    case Flush(now) => FreshIdIsNew(r.last, now);
    case _ =>
  }

  /** How often a step finishes an operation. */
  function Finishes(r: Rpc, s: Step, op: Operation): nat {
    match s
    case Answer(id) => if id in r.operations && r.operations[id] == op then 1 else 0
    case Lose => if exists id :: id in r.operations && r.operations[id] == op then 1 else 0
    case _ => 0
  }

  /** An operation is finished exactly by an answer to its current id or by the loss of the connection. */
  lemma {:induction false} FinishedExactly(steps: seq<Step>, s: Step, op: Operation)
    requires IsRun(steps) && Enabled(RunOf(steps), s)
    ensures var r, r' := RunOf(steps).r, After(RunOf(steps), s).r;
            r'.finished[op] == r.finished[op] + Finishes(r, s, op)
  {
    RunKeeps(steps);
    var w := RunOf(steps);
    if s.Lose? {
      if id :| id in w.r.operations && w.r.operations[id] == op {
        assert op in w.given && Conserved(w.r, op);
        assert op in Unfinished(w.r);
      }
    }
  }

  /** The end of a connection: nothing is pending or stored any more, and every operation was finished. */
  lemma {:induction false} LossLeavesNothing(steps: seq<Step>)
    requires IsRun(steps)
    ensures var w, r' := RunOf(steps), After(RunOf(steps), Lose).r;
            && r'.operations == map[] && r'.messages == map[]
            && forall op :: op in w.given ==> r'.finished[op] == 1
  {
    var w := RunOf(steps);
    assert (steps + [Lose])[..|steps|] == steps;
    RunKeeps(steps + [Lose]);
  }

  /**
   The counter after an ignored message: it is only raised for a number that was too low, and
   then it is the least one above the new number of the message.
   */
  lemma {:induction false} CounterLeast(steps: seq<Step>, id: nat, code: ErrorCode, now: nat)
    requires IsRun(steps) && Enabled(RunOf(steps), Ignore(id, code, now)) && id in RunOf(steps).r.operations
    ensures var r, r' := RunOf(steps).r, After(RunOf(steps), Ignore(id, code, now)).r;
            if code != SequenceNumberTooLow then r'.content == r.content
            else
              && r'.last in r'.messages && r'.content >= r.content
              && r'.messages[r'.last].seqNo < 2 * r'.content
              && (r'.content > r.content ==> 2 * r'.content <= r'.messages[r'.last].seqNo + 2)
  {
    RunKeeps(steps);
  }

  // ---------------------------------------------------------------- acknowledgements

  /** The received ids in the acknowledgements among the packets, in order. */
  function AckedIn(sent: seq<Packet>): seq<nat> {
    if sent == [] then []
    else
      var m := sent[|sent| - 1].message;
      AckedIn(sent[..|sent| - 1]) + if m.payload.Ack? then m.payload.ids else []
  }

  lemma {:induction false} AckedAppend(sent: seq<Packet>, p: Packet)
    ensures AckedIn(sent + [p]) == AckedIn(sent) + if p.message.payload.Ack? then p.message.payload.ids else []
  {
    assert (sent + [p])[..|sent|] == sent;
  }

  ghost predicate AcksOk(w: World) {
    w.r.flushes == (if w.r.toAck == [] then 0 else 1) && AckedIn(w.r.sent) + w.r.toAck == w.noted
  }

  lemma {:induction false} IgnoreAcks(r: Rpc, id: nat, code: ErrorCode, newId: nat)
    requires KeysOk(r)
    ensures var r' := Ignored(r, id, code, newId);
            r'.toAck == r.toAck && r'.flushes == r.flushes && AckedIn(r'.sent) == AckedIn(r.sent)
  {
    if id in r.messages && code != OtherError && id in r.operations {
      AckedAppend(r.sent, Packet(newId, Repaired(r.messages[id], code)));
    }
  }

  lemma {:induction false} SendAcks(w: World, op: Operation, c: bool, newId: nat)
    requires AcksOk(w)
    ensures AcksOk(w.(r := Sent(w.r, op, c, newId), given := w.given + {op}))
  {
    AckedAppend(w.r.sent, Packet(newId, NewRequest(w.r.content, op, c)));
  }

  lemma {:induction false} FlushAcks(w: World, newId: nat)
    requires AcksOk(w) && w.r.flushes > 0
    ensures AcksOk(w.(r := Acknowledged(w.r, newId)))
  {
    AckedAppend(w.r.sent, Packet(newId, Message(w.r.content * 2 % TWO32, Ack(w.r.toAck))));
  }

  lemma {:induction false} StepAcks(w: World, s: Step)
    requires AcksOk(w) && KeysOk(w.r) && Enabled(w, s)
    ensures AcksOk(After(w, s))
  {
    match s
    case Send(op, c, now) => SendAcks(w, op, c, FreshId(w.r.last, now));
    case Answer(id) =>
    case Ignore(id, code, now) => IgnoreAcks(w.r, id, code, FreshId(w.r.last, now));
    case Receive(id) => assert AckedIn(w.r.sent) + (w.r.toAck + [id]) == w.noted + [id];
    case Flush(now) => FlushAcks(w, FreshId(w.r.last, now));
    case Lose =>
  }

  /**
   A flush is queued exactly when ids wait for acknowledgement, and every received id is
   acknowledged exactly once, in the order of arrival, or still waits.
   */
  lemma {:induction false} AcknowledgedOnce(steps: seq<Step>)
    requires IsRun(steps)
    ensures AcksOk(RunOf(steps))
    decreases |steps|
  {
    if steps != [] {
      AcknowledgedOnce(steps[..|steps| - 1]);
      RunKeeps(steps[..|steps| - 1]);
      StepAcks(RunOf(steps[..|steps| - 1]), steps[|steps| - 1]);
    }
  }

  // ---------------------------------------------------------------- sequence numbers

  /** Requests are odd exactly if content-related; acknowledgements are even. */
  predicate ParityOk(m: Message) {
    m.seqNo < TWO32 && m.seqNo % 2 == (if m.payload.Request? && m.payload.contentRelated then 1 else 0)
  }

  ghost predicate ParitiesOk(r: Rpc) {
    forall id :: id in r.messages ==> ParityOk(r.messages[id])
  }

  lemma {:induction false} RepairKeepsParity(m: Message, code: ErrorCode)
    requires ParityOk(m)
    ensures ParityOk(Repaired(m, code))
  {
  }

  lemma {:induction false} NewParity(content: nat, op: Operation, c: bool)
    ensures ParityOk(NewRequest(content, op, c))
    ensures ParityOk(Message(content * 2 % TWO32, Ack([])))
  {
  }

  lemma {:induction false} IgnoreParity(r: Rpc, id: nat, code: ErrorCode, newId: nat)
    requires ParitiesOk(r)
    ensures ParitiesOk(Ignored(r, id, code, newId))
  {
    if id in r.messages {
      RepairKeepsParity(r.messages[id], code);
    }
  }

  lemma {:induction false} StepParity(w: World, s: Step)
    requires ParitiesOk(w.r) && Enabled(w, s)
    ensures ParitiesOk(After(w, s).r)
  {
    match s
    case Send(op, c, now) => NewParity(w.r.content, op, c);
    case Answer(id) =>
    case Ignore(id, code, now) => IgnoreParity(w.r, id, code, FreshId(w.r.last, now));
    case Receive(id) =>
    case Flush(now) => NewParity(w.r.content, 0, false);
    case Lose =>
  }

  /** Parity survives every repair of every run, also repairs that wrap around 32 bits. */
  lemma {:induction false} ParityKept(steps: seq<Step>)
    requires IsRun(steps)
    ensures ParitiesOk(RunOf(steps).r)
    decreases |steps|
  {
    if steps != [] {
      ParityKept(steps[..|steps| - 1]);
      StepParity(RunOf(steps[..|steps| - 1]), steps[|steps| - 1]);
    }
  }

  /** Every stored number is below the number of the next content-related message. */
  ghost predicate NumbersBelow(r: Rpc) {
    forall id :: id in r.messages ==> r.messages[id].seqNo <= 2 * r.content
  }

  /** No number leaves its 32 bits: none below two is lowered, none is raised over the end. */
  predicate Quiet(r: Rpc, s: Step) {
    && (s.Ignore? && s.id in r.messages ==>
          && (s.code == SequenceNumberTooHigh ==> r.messages[s.id].seqNo >= 2)
          && (s.code == SequenceNumberTooLow ==> r.messages[s.id].seqNo + 2 < TWO32))
    && (s.Send? || s.Flush? ==> 2 * r.content + 2 < TWO32)
  }

  lemma {:induction false} IgnoreNumbers(r: Rpc, id: nat, code: ErrorCode, newId: nat)
    requires NumbersBelow(r)
    requires id in r.messages && code == SequenceNumberTooHigh ==> r.messages[id].seqNo >= 2
    requires id in r.messages && code == SequenceNumberTooLow ==> r.messages[id].seqNo + 2 < TWO32
    ensures NumbersBelow(Ignored(r, id, code, newId))
  {
    if id in r.messages && code != OtherError {
      var m := Repaired(r.messages[id], code);
      assert m.seqNo <= 2 * RaisedContent(r.content, m, code);
    }
  }

  lemma {:induction false} NoWrap(content: nat, op: Operation, c: bool)
    requires 2 * content + 2 < TWO32
    ensures NewRequest(content, op, c).seqNo == 2 * content + if c then 1 else 0
    ensures content * 2 % TWO32 == 2 * content && (content + 1) % TWO32 == content + 1
  {
  }

  lemma {:induction false} PostNumbers(r: Rpc, m: Message, newId: nat, content: nat)
    requires NumbersBelow(r) && m.seqNo <= 2 * content && r.content <= content
    ensures NumbersBelow(Posted(r, m, newId).(content := content))
  {
  }

  lemma {:induction false} StepNumbers(w: World, s: Step)
    requires NumbersBelow(w.r) && Enabled(w, s) && Quiet(w.r, s)
    ensures NumbersBelow(After(w, s).r)
  {
    match s
    case Send(op, c, now) =>
      NoWrap(w.r.content, op, c);
      PostNumbers(w.r, NewRequest(w.r.content, op, c), FreshId(w.r.last, now), After(w, s).r.content);
    case Answer(id) =>
    case Ignore(id, code, now) => IgnoreNumbers(w.r, id, code, FreshId(w.r.last, now));
    case Receive(id) =>
    case Flush(now) =>
      NoWrap(w.r.content, 0, false);
      PostNumbers(w.r, Message(2 * w.r.content, Ack(w.r.toAck)), FreshId(w.r.last, now), w.r.content);
    case Lose =>
  }

  ghost predicate QuietRun(steps: seq<Step>)
    requires IsRun(steps)
    decreases |steps|
  {
    steps == [] || (QuietRun(steps[..|steps| - 1]) && Quiet(RunOf(steps[..|steps| - 1]).r, steps[|steps| - 1]))
  }

  lemma {:induction false} NumbersStayBelow(steps: seq<Step>)
    requires IsRun(steps) && QuietRun(steps)
    ensures NumbersBelow(RunOf(steps).r)
    decreases |steps|
  {
    if steps != [] {
      NumbersStayBelow(steps[..|steps| - 1]);
      StepNumbers(RunOf(steps[..|steps| - 1]), steps[|steps| - 1]);
    }
  }

  /**
   In every run without 32-bit wrap, the number of a new content-related message is above
   the number of every stored message, also after numbers were repaired.
   */
  lemma {:induction false} NewNumberAbove(steps: seq<Step>, op: Operation, id: nat)
    requires IsRun(steps) && QuietRun(steps) && id in RunOf(steps).r.messages
    requires 2 * RunOf(steps).r.content + 2 < TWO32
    ensures RunOf(steps).r.messages[id].seqNo < NewRequest(RunOf(steps).r.content, op, true).seqNo
  {
    NumbersStayBelow(steps);
    NoWrap(RunOf(steps).r.content, op, true);
  }

  /**
   Lowering is where this can fail: a resend after "sequence number too high" keeps all
   numbers below the next one if and only if the number was at least two.
   */
  lemma {:induction false} LoweringIff(r: Rpc, id: nat, newId: nat)
    requires KeysOk(r) && NumbersBelow(r) && id in r.operations && newId > r.last && 2 * r.content + 2 < TWO32
    ensures NumbersBelow(Ignored(r, id, SequenceNumberTooHigh, newId)) <==> r.messages[id].seqNo >= 2
  {
    var r' := Ignored(r, id, SequenceNumberTooHigh, newId);
    assert newId in r'.messages && r'.messages[newId].seqNo == Lowered(r.messages[id].seqNo);
    if r.messages[id].seqNo >= 2 {
      IgnoreNumbers(r, id, SequenceNumberTooHigh, newId);
    }
  }

  /** With the clock at zero the ids are the multiples of four. */
  lemma {:induction false} IdAtZero(last: nat)
    requires last % 4 == 0 && last + 4 < LOW24
    ensures FreshId(last, 0) == last + 4 && !WrapsAround(last, Stamped(FormatTimeStamp(0), FromClient))
  {
    SplitTimeStamp(0);
    assert Stamped(0, FromClient) == 0;
    SmallId(last);
  }

  lemma {:induction false} SmallId(last: nat)
    requires last % 4 == 0 && last + 4 < LOW24
    ensures NextId(last, 0) == last + 4
  {
    assert (last + 4) % TWO64 == last + 4;
    assert Unique(last, 0) == last + 4;
    assert (last + 4) % LOW24 == last + 4;
  }

  /** The layer after its first content-related message, whose number is one. */
  lemma {:induction false} FirstSend() returns (w: World)
    ensures IsRun([Send(0, true, 0)]) && w == RunOf([Send(0, true, 0)])
    ensures w.r.last == 4 && w.r.content == 1 && w.r.operations == map[4 := 0]
    ensures w.r.messages == map[4 := Message(1, Request(0, true, true))]
  {
    IdAtZero(0);
    var steps := [Send(0, true, 0)];
    assert steps[..0] == [] && IsRun([]);
    w := RunOf(steps);
  }

  /**
   A failing run: the first content-related message is said to have a number too high. Its
   number one becomes 2^32 - 1, and the next new message gets the number three, below it.
   */
  lemma {:induction false} LoweringFails()
    ensures var steps := [Send(0, true, 0), Ignore(4, SequenceNumberTooHigh, 0)];
            && IsRun(steps)
            && 8 in RunOf(steps).r.messages && RunOf(steps).r.messages[8].seqNo == TWO32 - 1
            && NewRequest(RunOf(steps).r.content, 1, true).seqNo == 3
            && !NumbersBelow(RunOf(steps).r)
  {
    IdAtZero(4);
    var w := FirstSend();
    var steps := [Send(0, true, 0), Ignore(4, SequenceNumberTooHigh, 0)];
    assert steps[..1] == [Send(0, true, 0)];
    var r := RunOf(steps).r;
    assert r == Ignored(w.r, 4, SequenceNumberTooHigh, 8);
    assert r.content == 1 && r.messages[8].seqNo == Lowered(1);
  }
}
