/**
 The mode without synchronisation: every live message that the storage takes is given to the
 application at once, and no dialog state is kept.
 */
module LiveOnly {
  import opened DialogSync
  import opened DialogSyncRuns

  datatype Announcement = Announcement(peer: Peer, id: nat)

  /** The client after some live messages. */
  function AfterLive(c: Client, lives: seq<Announcement>): Client {
    if lives == [] then c
    else
      var l := lives[|lives| - 1];
      UpdateProcessed(AfterLive(c, lives[..|lives| - 1]), l.peer, l.id)
  }

  function IdsFor(lives: seq<Announcement>, p: Peer): seq<nat> {
    if lives == [] then []
    else IdsFor(lives[..|lives| - 1], p) + if lives[|lives| - 1].peer == p then [lives[|lives| - 1].id] else []
  }

  /** The greatest of some ids and a first one. */
  function Highest(first: nat, ids: seq<nat>): nat {
    if ids == [] then first
    else
      var before, id := Highest(first, ids[..|ids| - 1]), ids[|ids| - 1];
      if id > before then id else before
  }

  /** The ids that are greater than the first one and all before them. */
  function Rising(first: nat, ids: seq<nat>): seq<nat> {
    if ids == [] then []
    else
      var init, id := ids[..|ids| - 1], ids[|ids| - 1];
      Rising(first, init) + if id > Highest(first, init) then [id] else []
  }

  lemma {:induction false} OneMore(first: nat, ids: seq<nat>, id: nat)
    ensures Highest(first, ids + [id]) == if id > Highest(first, ids) then id else Highest(first, ids)
    ensures Rising(first, ids + [id]) == Rising(first, ids) + if id > Highest(first, ids) then [id] else []
  {
    assert (ids + [id])[..|ids|] == ids;
  }

  /** One live message, as one peer sees it. */
  lemma {:induction false} LiveEmitted(c: Client, l: Announcement, p: Peer)
    requires c.noSync
    ensures var c' := UpdateProcessed(c, l.peer, l.id);
            var taken := l.peer == p && l.id > TopOf(c.tops, p);
            && c'.noSync && c'.dialogs == c.dialogs && c'.requests == c.requests
            && Delivered(c'.signals, p) == Delivered(c.signals, p) + (if taken then [l.id] else [])
            && TopOf(c'.tops, p) == (if taken then l.id else TopOf(c.tops, p))
  {
    assert Delivered(c.signals, p) + [] == Delivered(c.signals, p);
    DeliveredAppend(c.signals, MessageReceived(l.peer, l.id), p);
  }

  /**
   For all live messages, in whatever order: each peer is given exactly the ids that rise above
   its top message, in order, and neither a dialog state nor a request comes of it.
   */
  lemma {:induction false} EverythingEmitted(c: Client, lives: seq<Announcement>, p: Peer)
    requires c.noSync
    ensures var c' := AfterLive(c, lives);
            && c'.noSync && c'.dialogs == c.dialogs && c'.requests == c.requests
            && Delivered(c'.signals, p) == Delivered(c.signals, p) + Rising(TopOf(c.tops, p), IdsFor(lives, p))
            && TopOf(c'.tops, p) == Highest(TopOf(c.tops, p), IdsFor(lives, p))
    decreases |lives|
  {
    if lives == [] {
      assert Delivered(c.signals, p) + [] == Delivered(c.signals, p);
    } else {
      var init, l := lives[..|lives| - 1], lives[|lives| - 1];
      EverythingEmitted(c, init, p);
      LiveEmitted(AfterLive(c, init), l, p);
      IdsStep(lives, p);
      OneMore(TopOf(c.tops, p), IdsFor(init, p), l.id);
      Grouped(Delivered(c.signals, p), Rising(TopOf(c.tops, p), IdsFor(init, p)), l.id);
    }
  }

  lemma {:induction false} IdsStep(lives: seq<Announcement>, p: Peer)
    requires lives != []
    ensures var l, before := lives[|lives| - 1], IdsFor(lives[..|lives| - 1], p);
            IdsFor(lives, p) == if l.peer == p then before + [l.id] else before
  {
    var before := IdsFor(lives[..|lives| - 1], p);
    assert before + [] == before;
  }

  lemma {:induction false} Grouped(a: seq<nat>, b: seq<nat>, id: nat)
    ensures a + b + [id] == a + (b + [id]) && a + b + [] == a + b && b + [] == b
  {
  }

  /** Before a synchronisation is started in the other mode, nothing is given at all. */
  lemma {:induction false} NothingEmittedBefore(c: Client, lives: seq<Announcement>)
    requires !c.noSync && c.phase == NotStarted
    ensures var c' := AfterLive(c, lives);
            !c'.noSync && c'.phase == NotStarted && c'.signals == c.signals && c'.dialogs == c.dialogs
    decreases |lives|
  {
    if lives != [] {
      NothingEmittedBefore(c, lives[..|lives| - 1]);
    }
  }
}
