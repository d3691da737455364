/**
 The bookkeeping of the client's RPC layer: which operation waits under which message id,
 what is resent when the server ignored a message, and which answers are acknowledged.
 `Rpc` is the abstract state with one function per handler, `RpcLayer` the handlers.
 */
module RpcLayer {
  import opened Arithmetic
  import opened MessageIds

  /** A `PendingRpcOperation`, by its identity. */
  type Operation = nat

  datatype Payload =
    | Request(op: Operation, contentRelated: bool, withInit: bool)
    | Ack(ids: seq<nat>)

  datatype Message = Message(seqNo: nat, payload: Payload)

  datatype Packet = Packet(id: nat, message: Message)

  /** The error codes of `IgnoredMessageNotification` that the client tells apart. */
  datatype ErrorCode =
    | IncorrectServerSalt | MessageIdTooOld | SequenceNumberTooHigh | SequenceNumberTooLow
    | IncorrectTwoLowerOrderMessageIdBits | OtherError

  /**
   `content` is the number of content-related messages, `last` the last message id of the
   transport, `flushes` the queued calls of `acknowledgeMessages`, `sent` the packets sent,
   `finished` how often each operation was finished by this layer.
   */
  datatype Rpc = Rpc(
    operations: map<nat, Operation>,
    messages: map<nat, Message>,
    content: nat,
    last: nat,
    toAck: seq<nat>,
    flushes: nat,
    sent: seq<Packet>,
    finished: multiset<Operation>)

  /** The message id a client gets at the time `now`. */
  function FreshId(last: nat, now: nat): nat {
    NextId(last, Stamped(FormatTimeStamp(now), FromClient))
  }

  /** Stores a message under a fresh id and sends it. */
  function Posted(r: Rpc, m: Message, newId: nat): Rpc {
    r.(last := newId, messages := r.messages[newId := m], sent := r.sent + [Packet(newId, m)])
  }

  function NewRequest(content: nat, op: Operation, contentRelated: bool): Message {
    var seqNo := (content * 2 + if contentRelated then 1 else 0) % TWO32;
    Message(seqNo, Request(op, contentRelated, seqNo == 1))
  }

  function Sent(r: Rpc, op: Operation, contentRelated: bool, newId: nat): Rpc {
    Posted(r, NewRequest(r.content, op, contentRelated), newId)
    .(operations := r.operations[newId := op],
      content := if contentRelated then (r.content + 1) % TWO32 else r.content)
  }

  /** An RPC result or a pong. */
  function Answered(r: Rpc, id: nat): Rpc {
    if id in r.operations
    then r.(operations := r.operations - {id}, finished := r.finished + multiset{r.operations[id]})
    else r
  }

  /** 32-bit subtraction and addition of two. */
  function Lowered(n: nat): nat {
    if n >= 2 then n - 2 else n + TWO32 - 2
  }

  function Raised(n: nat): nat {
    if n + 2 < TWO32 then n + 2 else n + 2 - TWO32
  }

  function Repaired(m: Message, code: ErrorCode): Message {
    match code
    case SequenceNumberTooHigh => m.(seqNo := Lowered(m.seqNo))
    case SequenceNumberTooLow => m.(seqNo := Raised(m.seqNo))
    case _ => m
  }

  function RaisedContent(content: nat, m: Message, code: ErrorCode): nat {
    if code == SequenceNumberTooLow && content <= m.seqNo / 2 then m.seqNo / 2 + 1 else content
  }

  /** The message and its operation move from `id` to a fresh id; without operation both go. */
  function Resent(r: Rpc, id: nat, newId: nat): Rpc
    requires id in r.messages
  {
    var taken := r.(messages := r.messages - {id}, operations := r.operations - {id});
    if id !in r.operations then taken
    else Posted(taken, r.messages[id], newId).(operations := taken.operations[newId := r.operations[id]])
  }

  function Ignored(r: Rpc, id: nat, code: ErrorCode, newId: nat): Rpc {
    if id !in r.messages || code == OtherError then r
    else
      var m := Repaired(r.messages[id], code);
      Resent(r.(messages := r.messages[id := m], content := RaisedContent(r.content, m, code)), id, newId)
  }

  function Noted(r: Rpc, id: nat): Rpc {
    r.(toAck := r.toAck + [id], flushes := if r.toAck == [] then r.flushes + 1 else r.flushes)
  }

  /** The queued `acknowledgeMessages` runs. */
  function Acknowledged(r: Rpc, newId: nat): Rpc
    requires r.flushes > 0
  {
    Posted(r.(toAck := [], flushes := r.flushes - 1), Message(r.content * 2 % TWO32, Ack(r.toAck)), newId)
  }

  /** The pending operations that were not finished before. */
  function Unfinished(r: Rpc): set<Operation> {
    set id | id in r.operations && r.operations[id] !in r.finished :: r.operations[id]
  }

  function Lost(r: Rpc): Rpc {
    r.(operations := map[], messages := map[], finished := r.finished + multiset(Unfinished(r)))
  }

  lemma {:induction false} AddOne(done: set<Operation>, op: Operation)
    requires op !in done
    ensures multiset(done + {op}) == multiset(done) + multiset{op}
  {
  }

  /** `Client::RpcLayer` with the id generator of its transport. */
  class RpcLayer {
    var operations: map<nat, Operation>
    var messages: map<nat, Message>
    var contentRelatedMessages: nat
    var lastMessageId: nat
    var messagesToAck: seq<nat>
    var flushes: nat
    var sent: seq<Packet>
    var finished: multiset<Operation>

    ghost function View(): Rpc
      reads this
    {
      Rpc(operations, messages, contentRelatedMessages, lastMessageId, messagesToAck, flushes, sent, finished)
    }

    constructor ()
      ensures View() == Rpc(map[], map[], 0, 0, [], 0, [], multiset{})
    {
      operations, messages, contentRelatedMessages, lastMessageId := map[], map[], 0, 0;
      messagesToAck, flushes, sent, finished := [], 0, [], multiset{};
    }

    method SendPacket(id: nat, m: Message)
      modifies this`sent
      ensures sent == old(sent) + [Packet(id, m)]
    {
      sent := sent + [Packet(id, m)];
    }

    method NewMessageId(now: nat) returns (id: nat)
      modifies this`lastMessageId
      ensures id == lastMessageId == FreshId(old(lastMessageId), now)
    {
      id := NextId(lastMessageId, Stamped(FormatTimeStamp(now), FromClient));
      lastMessageId := id;
    }

    method SendRpc(op: Operation, contentRelated: bool, now: nat) returns (id: nat)
      modifies this
      ensures id == FreshId(old(lastMessageId), now)
      ensures View() == Sent(old(View()), op, contentRelated, id)
    {
      id := NewMessageId(now);
      var seqNo := contentRelatedMessages * 2 % TWO32;
      if contentRelated {
        seqNo := (contentRelatedMessages * 2 + 1) % TWO32;
        contentRelatedMessages := (contentRelatedMessages + 1) % TWO32;
      }
      var m := Message(seqNo, Request(op, contentRelated, seqNo == 1));
      operations := operations[id := op];
      messages := messages[id := m];
      SendPacket(id, m);
    }

    method ProcessRpcResult(id: nat) returns (processed: bool)
      modifies this`operations, this`finished
      ensures View() == Answered(old(View()), id) && processed == (id in old(operations))
    {
      if id !in operations {
        return false;
      }
      finished := finished + multiset{operations[id]};
      operations := operations - {id};
      return true;
    }

    method ResendIgnoredMessage(id: nat, now: nat) returns (resent: bool)
      requires id in messages
      modifies this
      ensures View() == Resent(old(View()), id, FreshId(old(lastMessageId), now)) && resent == (id in old(operations))
    {
      var m := messages[id];
      messages := messages - {id};
      if id !in operations {
        assert operations - {id} == operations;
        return false;
      }
      var op := operations[id];
      operations := operations - {id};
      var newId := NewMessageId(now);
      operations := operations[newId := op];
      messages := messages[newId := m];
      SendPacket(newId, m);
      return true;
    }

    method ProcessIgnoredMessageNotification(id: nat, code: ErrorCode, now: nat) returns (resent: bool)
      modifies this
      ensures View() == Ignored(old(View()), id, code, FreshId(old(lastMessageId), now))
      ensures resent == (id in old(messages) && code != OtherError && id in old(operations))
    {
      if id !in messages {
        return false;
      }
      match code
      case SequenceNumberTooHigh =>
        var m := messages[id];
        messages := messages[id := m.(seqNo := Lowered(m.seqNo))];
        resent := ResendIgnoredMessage(id, now);
      case SequenceNumberTooLow =>
        var m := messages[id];
        m := m.(seqNo := Raised(m.seqNo));
        messages := messages[id := m];
        var messageContentNumber := m.seqNo / 2;
        if contentRelatedMessages <= messageContentNumber {
          contentRelatedMessages := messageContentNumber + 1;
        }
        resent := ResendIgnoredMessage(id, now);
      case OtherError =>
        resent := false;
      case _ =>
        assert messages == messages[id := messages[id]];
        resent := ResendIgnoredMessage(id, now);
    }

    /** A received message with an odd sequence number is to be acknowledged. */
    method AddMessageToAck(id: nat)
      modifies this`messagesToAck, this`flushes
      ensures View() == Noted(old(View()), id)
    {
      if messagesToAck == [] {
        flushes := flushes + 1;
      }
      messagesToAck := messagesToAck + [id];
    }

    method AcknowledgeMessages(now: nat)
      requires flushes > 0
      modifies this
      ensures View() == Acknowledged(old(View()), FreshId(old(lastMessageId), now))
    {
      flushes := flushes - 1;
      var ids := messagesToAck;
      messagesToAck := [];
      var id := NewMessageId(now);
      var m := Message(contentRelatedMessages * 2 % TWO32, Ack(ids));
      messages := messages[id := m];
      SendPacket(id, m);
    }

    /** The loop of `onConnectionLost`: every pending operation that is not finished yet gets finished. */
    method FinishPending()
      modifies this`finished
      ensures finished == old(finished) + multiset(Unfinished(old(View())))
    {
      var rest := operations.Keys;
      ghost var was, done: set<Operation> := finished, {};
      while rest != {}
        invariant rest <= operations.Keys
        invariant finished == was + multiset(done)
        invariant forall op :: op in done ==> op !in was && exists id :: id in operations && operations[id] == op
        invariant forall id :: id in operations && id !in rest ==> operations[id] in was || operations[id] in done
        decreases rest
      {
        var id :| id in rest;
        var op := operations[id];
        if op !in finished {
          AddOne(done, op);
          finished := finished + multiset{op};
          done := done + {op};
        }
        rest := rest - {id};
      }
      assert done == Unfinished(old(View()));
    }

    method OnConnectionLost()
      modifies this
      ensures View() == Lost(old(View()))
    {
      FinishPending();
      operations := map[];
      messages := map[];
    }
  }
}
