/**
 The server side of a history request (`MessagesRpcOperation::runGetHistory`), for requests
 as the synchronisation makes them: no date, no added offset and no maximum id.
 The box maps the message ids of one user to the dialog they belong to.
 */
module HistoryServer {
  import opened Arithmetic
  import opened DialogSync
  import opened DialogSyncRuns

  const SLICE_LIMIT: nat := 30

  function DialogIds(box: map<nat, Peer>, p: Peer): set<nat> {
    set id | id in box && id >= 1 && box[id] == p
  }

  /** The request with its defaults: no offset means from the newest message on, no limit the server's own. */
  function Effective(f: Fetch, lastMessageId: nat): Fetch {
    f.(offsetId := if f.offsetId != 0 then f.offsetId else lastMessageId + 1,
       limit := if f.limit != 0 then f.limit else SLICE_LIMIT)
  }

  /**
   The answer is one that the client's guarantees rely on: the newest messages of the dialog in
   the window, as many as were asked for or as the server gives at once.
   */
  method GetHistory(box: map<nat, Peer>, lastMessageId: nat, f: Fetch) returns (page: seq<nat>)
    ensures IsHistoryReply(DialogIds(box, f.peer), Effective(f, lastMessageId), page)
    ensures |page| <= 30 && (f.limit != 0 ==> |page| <= f.limit)
    ensures forall x :: x in page ==> x in box && box[x] == f.peer && f.minId < x
    ensures forall x :: x in page ==> if f.offsetId != 0 then x < f.offsetId else x <= lastMessageId
    ensures forall x :: x in box && box[x] == f.peer && f.minId < x && x !in page
                        && (if f.offsetId != 0 then x < f.offsetId else x <= lastMessageId) ==>
                          page != [] && x < Last(page)
  {
    ghost var g := Effective(f, lastMessageId);
    var serverLimit := Min(SLICE_LIMIT, |box|);
    var maxMessagesToAppend := if f.limit != 0 then Min(f.limit, serverLimit) else serverLimit;
    ghost var room := maxMessagesToAppend;
    var messageId: nat := if f.offsetId != 0 then f.offsetId - 1 else lastMessageId;
    page := [];
    while messageId != 0 && maxMessagesToAppend > 0
      invariant 0 <= maxMessagesToAppend && |page| + maxMessagesToAppend == room
      invariant messageId < g.offsetId
      invariant StrictlyDescending(page)
      invariant forall x :: x in page ==> x in DialogIds(box, f.peer) && f.minId < x < g.offsetId
      invariant forall x :: x in page ==> x > messageId
      invariant forall x :: x in DialogIds(box, f.peer) && messageId < x < g.offsetId && f.minId < x ==> x in page
      decreases messageId
    {
      if f.minId != 0 && messageId <= f.minId {
        break;
      }
      if messageId in box && box[messageId] == f.peer {
        assert forall i :: 0 <= i < |page| ==> page[i] in page;
        assert forall x :: x in page + [messageId] <==> x in page || x == messageId;
        page := page + [messageId];
        maxMessagesToAppend := maxMessagesToAppend - 1;
      }
      messageId := messageId - 1;
    }
    assert page != [] ==> Last(page) in page;
    if page == [] && maxMessagesToAppend == 0 {
      assert |box| == 0;
    } else if page != [] && maxMessagesToAppend == 0 {
      PageEnd(box, g, page, messageId);
    }
  }

  /** A page that stopped because it is full ends above every id it did not look at. */
  lemma {:induction false} PageEnd(box: map<nat, Peer>, f: Fetch, page: seq<nat>, next: nat)
    requires page != [] && (forall x :: x in page ==> x > next)
    requires forall x :: x in DialogIds(box, f.peer) && next < x < f.offsetId && f.minId < x ==> x in page
    ensures forall x :: x in DialogIds(box, f.peer) && f.minId < x < f.offsetId ==> x in page || x < Last(page)
  {
    assert Last(page) in page;
  }
}
