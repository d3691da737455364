/**
 Every run of the synchronisation against a server that answers history requests, gets new
 messages at any time and announces messages late, repeatedly or out of order: exactly which
 messages of a requested dialog are delivered, none of them twice, the job counter equals the
 number of requests in flight, and the operation is finished exactly once.
 */
module DialogSyncRuns {
  import opened DialogSync

  /**
   What an observer knows of one dialog: the ids on the server, of which the client can know
   `ids`, being those up to the storage's top when the sync starts and those announced since,
   while it has no way to learn of the `hidden` ones; the sync mark loaded before the start,
   the live ids held during the sync, the live ids that came after it, and whether a history
   request of the dialog failed.
   */
  datatype Observed = Observed(
    ids: set<nat>, hidden: set<nat>, loaded: nat, held: seq<nat>, late: seq<nat>, failed: bool)
  {
    /** All ids that the server holds. */
    function All(): set<nat> {
      ids + hidden
    }
  }

  datatype World = World(c: Client, seen: map<Peer, Observed>, requested: set<Peer>)

  datatype Step =
    | Start(peers: seq<Peer>)
    | Reply(fetch: Fetch, page: seq<nat>)
    | Fail(fetch: Fetch)
    | Posted(peer: Peer, id: nat) // the server gets a new message
    | Live(peer: Peer, id: nat) // and announces a message

  function SeenOf(seen: map<Peer, Observed>, p: Peer): Observed {
    if p in seen then seen[p] else Observed({}, {}, 0, [], [], false)
  }

  function PeerSet(peers: seq<Peer>): set<Peer> {
    set p | p in peers
  }

  predicate StrictlyDescending(s: seq<nat>) {
    forall i, j :: 0 <= i < j < |s| ==> s[i] > s[j]
  }

  /** `s` lists, newest first, exactly the ids above `cut`. */
  ghost predicate IsBlock(s: seq<nat>, ids: set<nat>, cut: int) {
    StrictlyDescending(s) && forall x: nat :: x in s <==> x in ids && x > cut
  }

  /**
   An answer to a history request: newest first, inside the requested window, at most
   `limit` long and without holes; empty only if the window is empty.
   */
  ghost predicate IsHistoryReply(ids: set<nat>, f: Fetch, page: seq<nat>) {
    && StrictlyDescending(page)
    && |page| <= f.limit
    && (forall x :: x in page ==> x in ids && f.minId < x < f.offsetId)
    && (forall x :: x in ids && f.minId < x < f.offsetId ==> x in page || (page != [] && x < Last(page)))
  }

  /** The ids the application was given for one peer, in the order of the signals. */
  function Delivered(signals: seq<Signal>, p: Peer): seq<nat> {
    if signals == [] then []
    else
      Delivered(signals[..|signals| - 1], p) +
      match signals[|signals| - 1]
      case SyncMessages(q, ids) => if q == p then ids else []
      case MessageReceived(q, id) => if q == p then [id] else []
  }

  /** The lists of the sync signals for one peer, in order. */
  function ListsFor(signals: seq<Signal>, p: Peer): seq<seq<nat>> {
    if signals == [] then []
    else
      var s := signals[|signals| - 1];
      ListsFor(signals[..|signals| - 1], p) + if s.SyncMessages? && s.peer == p then [s.ids] else []
  }

  ghost predicate Enabled(w: World, s: Step) {
    match s
    case Start(peers) => forall i, j :: 0 <= i < j < |peers| ==> peers[i] != peers[j]
    case Reply(f, page) => f in w.c.requests && IsHistoryReply(SeenOf(w.seen, f.peer).All(), f, page)
    case Fail(f) => f in w.c.requests
    case Posted(p, id) => id >= 1 && forall x :: x in SeenOf(w.seen, p).All() ==> x < id
    case Live(p, id) => id in SeenOf(w.seen, p).All()
  }

  function After(w: World, s: Step): World {
    match s
    case Start(peers) =>
      World(Started(w.c, peers), w.seen, if w.c.phase == NotStarted then PeerSet(peers) else w.requested)
    case Reply(f, page) =>
      w.(c := HistoryReceived(w.c, f, page))
    case Fail(f) => // `onGetHistoryFinished` turns a failed request into an empty page
      w.(c := HistoryReceived(w.c, f, []),
         seen := w.seen[f.peer := SeenOf(w.seen, f.peer).(failed := true)])
    case Posted(p, id) => PostedTo(w, p, id)
    case Live(p, id) =>
      w.(c := UpdateProcessed(w.c, p, id), seen := w.seen[p := Saw(w.c, p, id, SeenOf(w.seen, p))])
  }

  function PostedTo(w: World, p: Peer, id: nat): World {
    w.(seen := w.seen[p := SeenOf(w.seen, p).(hidden := SeenOf(w.seen, p).hidden + {id})])
  }

  /** Before the start a live message also lets the history reach what lies below it. */
  function Saw(c: Client, p: Peer, id: nat, o: Observed): Observed {
    if id <= TopOf(c.tops, p) then o
    else if c.phase == NotStarted then
      o.(ids := o.ids + {id} + (set x | x in o.hidden && x <= id), hidden := set x | x in o.hidden && x > id)
    else if Holds(c, p) then Announced(o, id).(held := [id] + o.held)
    else Announced(o, id).(late := o.late + [id])
  }

  function Announced(o: Observed, id: nat): Observed {
    o.(ids := o.ids + {id}, hidden := o.hidden - {id})
  }

  ghost predicate IsRun(w: World, steps: seq<Step>)
    decreases |steps|
  {
    steps == [] || (IsRun(w, steps[..|steps| - 1]) && Enabled(RunOf(w, steps[..|steps| - 1]), steps[|steps| - 1]))
  }

  function RunOf(w: World, steps: seq<Step>): World {
    if steps == [] then w else After(RunOf(w, steps[..|steps| - 1]), steps[|steps| - 1])
  }

  /** The requests in flight for one peer. */
  function RequestsFor(requests: seq<Fetch>, p: Peer): seq<Fetch> {
    if requests == [] then []
    else
      var f := requests[|requests| - 1];
      RequestsFor(requests[..|requests| - 1], p) + if f.peer == p then [f] else []
  }

  /** All that concerns one peer: its dialog, top message, deliveries, sync signals, requests and observations. */
  datatype Local = Local(
    p: Peer, d: Dialog, top: nat, out: seq<nat>, lists: seq<seq<nat>>, reqs: seq<Fetch>, o: Observed)

  function LocalOf(w: World, p: Peer): Local {
    Local(p, DialogOf(w.c.dialogs, p), TopOf(w.c.tops, p), Delivered(w.c.signals, p), ListsFor(w.c.signals, p),
          RequestsFor(w.c.requests, p), SeenOf(w.seen, p))
  }

  /** Before the sync: marks are loaded, the storage has some top message, or none, for each dialog. */
  ghost predicate Initial(w: World) {
    && w.c.phase == NotStarted && !w.c.noSync && w.c.jobs == 0 && w.c.requests == []
    && w.c.signals == [] && w.c.finishes == 0
    && forall p: Peer :: Untouched(LocalOf(w, p))
  }

  // ---------------------------------------------------------------- the invariant of one peer

  ghost predicate TopOk(top: nat, ids: set<nat>) {
    (top == 0 || top in ids) && forall x :: x in ids ==> 1 <= x <= top
  }

  ghost predicate Above(s: set<nat>, n: nat) {
    forall x :: x in s ==> x > n
  }

  ghost predicate Untouched(l: Local) {
    && l.d == Dialog(l.o.loaded, [], false) && l.out == [] && l.lists == [] && l.reqs == []
    && l.o.held == [] && l.o.late == [] && !l.o.failed && TopOk(l.top, l.o.ids) && Above(l.o.hidden, l.top)
  }

  /** `s` starts with the held live ids; the rest, and `spare` more ids, fit into the limit. */
  ghost predicate HeldFirst(s: seq<nat>, held: seq<nat>, limit: nat, spare: nat) {
    held <= s && (limit > 0 ==> |s| - |held| + spare <= limit)
  }

  ghost predicate Waiting(l: Local, limit: nat) {
    && !l.d.synced && l.d.syncedId == l.o.loaded && l.d.pending != [] && Last(l.d.pending) > l.o.loaded
    && IsBlock(l.d.pending, l.o.ids, Last(l.d.pending) - 1)
    && HeldFirst(l.d.pending, l.o.held, limit, 0)
    && l.out == [] && l.lists == [] && l.o.late == [] && !l.o.failed
    && TopOk(l.top, l.o.ids) && Above(l.o.hidden, Last(l.d.pending))
  }

  /** The list emitted when the peer finished. */
  ghost function Emitted(l: Local): seq<nat> {
    if |l.out| >= |l.o.late| then l.out[..|l.out| - |l.o.late|] else []
  }

  ghost function Elements(s: seq<nat>): set<nat> {
    set x | x in s
  }

  /** Late ids came in increasing order, after everything else in the dialog. */
  ghost predicate LateOk(o: Observed) {
    && (forall i, j :: 0 <= i < j < |o.late| ==> o.late[i] < o.late[j])
    && (forall x :: x in o.late ==> x in o.ids)
    && (forall x, y :: x in o.late && y in o.ids && y !in o.late ==> y < x)
  }

  /** Without a failed request the list is complete or has reached the limit. */
  ghost predicate EnoughFetched(l: Local, limit: nat, cut: int, s: seq<nat>) {
    !l.o.failed ==> cut == l.o.loaded || LimitReached(limit, s)
  }

  /** The newest id given for a finished peer, or the loaded mark if there is none. */
  ghost function Newest(l: Local): nat {
    if l.o.late != [] then Last(l.o.late) else if Emitted(l) != [] then Emitted(l)[0] else l.o.loaded
  }

  ghost predicate DoneAt(l: Local, limit: nat, cut: int) {
    && l.d.syncedId == Newest(l) && cut >= l.o.loaded && EnoughFetched(l, limit, cut, Emitted(l))
    && l.out == Emitted(l) + l.o.late
    && l.lists == (if Emitted(l) == [] then [] else [Emitted(l)])
    && IsBlock(Emitted(l), l.o.ids - Elements(l.o.late), cut)
    && HeldFirst(Emitted(l), l.o.held, limit, 0)
    && LateOk(l.o)
  }

  ghost predicate Done(l: Local, limit: nat) {
    l.d.synced && l.d.pending == [] && TopOk(l.top, l.o.ids) && exists cut: int :: DoneAt(l, limit, cut)
  }

  ghost predicate RequestOk(l: Local, f: Fetch, limit: nat) {
    && f.peer == l.p && l.d.pending != [] && f.offsetId == Last(l.d.pending)
    && f.minId == (if l.o.loaded > 0 then l.o.loaded - 1 else 0) && f.offsetId > 1
    && 1 <= f.limit <= FETCH_LIMIT
    && HeldFirst(l.d.pending, l.o.held, limit, f.limit)
  }

  /** Finished without a request in flight, or waiting for exactly one. */
  ghost predicate LocalOk(l: Local, limit: nat) {
    if l.d.synced then Done(l, limit) && l.reqs == []
    else Waiting(l, limit) && |l.reqs| == 1 && RequestOk(l, l.reqs[0], limit)
  }

  // ---------------------------------------------------------------- one page, one peer

  /** What a processed page does to its peer. */
  function PageLocal(l: Local, page: seq<nat>, limit: nat): Local {
    var pending := l.d.pending + NewerThan(page, l.d.syncedId);
    if AllFetched(page, l.d.syncedId) || LimitReached(limit, pending)
    then
      l.(d := Dialog(if pending != [] then pending[0] else l.d.syncedId, [], true),
         out := l.out + pending,
         lists := if pending != [] then l.lists + [pending] else l.lists)
    else
      var d := l.d.(pending := pending);
      l.(d := d, reqs := l.reqs + [FetchFor(l.p, d, limit)])
  }

  lemma {:induction false} NewerThanSplits(page: seq<nat>, mark: nat)
    requires StrictlyDescending(page)
    ensures NewerThan(page, mark) <= page
    ensures forall x :: x in NewerThan(page, mark) <==> x in page && x > mark
    ensures page != [] && Last(page) > mark ==> NewerThan(page, mark) == page
  {
    if page != [] && page[0] > mark {
      assert StrictlyDescending(page[1..]);
      NewerThanSplits(page[1..], mark);
      assert page == [page[0]] + page[1..];
    } else if page != [] {
      assert forall i :: 0 <= i < |page| ==> page[i] <= mark;
    }
  }

  lemma {:induction false} DescendingConcat(a: seq<nat>, b: seq<nat>)
    requires StrictlyDescending(a) && StrictlyDescending(b) && a != []
    requires forall x :: x in b ==> x < Last(a)
    ensures StrictlyDescending(a + b)
  {
    forall i, j | 0 <= i < j < |a + b| ensures (a + b)[i] > (a + b)[j] {
      if i < |a| <= j {
        assert b[j - |a|] in b;
      }
    }
  }

  lemma {:induction false} ExtendBlock(pending: seq<nat>, newer: seq<nat>, ids: set<nat>, cut: int)
    requires pending != [] && IsBlock(pending, ids, Last(pending) - 1) && StrictlyDescending(newer) &&
             cut < Last(pending)
    requires forall x :: x in newer <==> x in ids && cut < x < Last(pending)
    ensures IsBlock(pending + newer, ids, cut)
  {
    DescendingConcat(pending, newer);
    forall x: nat ensures x in pending + newer <==> x in ids && x > cut {
      assert x in pending + newer <==> x in pending || x in newer;
    }
  }

  /** If all is fetched, the part of the page above the mark is all that lies between the mark and the offset. */
  lemma {:induction false} AllCovered(page: seq<nat>, ids: set<nat>, f: Fetch, mark: nat)
    requires f.minId == (if mark > 0 then mark - 1 else 0)
    requires IsHistoryReply(ids, f, page) && forall x :: x in ids ==> x >= 1
    requires AllFetched(page, mark)
    ensures forall x :: x in NewerThan(page, mark) <==> x in ids && mark < x < f.offsetId
  {
    NewerThanSplits(page, mark);
    assert forall x :: x in ids && mark < x < f.offsetId ==> x in page;
  }

  /** Otherwise it is all that lies between its own last id and the offset. */
  lemma {:induction false} PartCovered(page: seq<nat>, ids: set<nat>, f: Fetch, mark: nat)
    requires f.minId == (if mark > 0 then mark - 1 else 0)
    requires IsHistoryReply(ids, f, page) && NewerThan(page, mark) != []
    ensures var newer := NewerThan(page, mark);
            && mark < Last(newer) < f.offsetId
            && forall x :: x in newer <==> x in ids && Last(newer) <= x < f.offsetId
  {
    NewerThanSplits(page, mark);
    var newer := NewerThan(page, mark);
    assert Last(newer) in newer;
    assert forall x :: x in newer ==> x >= Last(newer);
    assert newer == page || Last(page) <= mark;
  }

  lemma {:induction false} PageCovers(page: seq<nat>, ids: set<nat>, f: Fetch, mark: nat)
    requires f.minId == (if mark > 0 then mark - 1 else 0)
    requires IsHistoryReply(ids, f, page) && forall x :: x in ids ==> x >= 1
    ensures var newer := NewerThan(page, mark);
            && StrictlyDescending(newer)
            && (AllFetched(page, mark) ==> forall x :: x in newer <==> x in ids && mark < x < f.offsetId)
            && (!AllFetched(page, mark) ==> newer == page)
            && (newer != [] ==> forall x :: x in newer <==> x in ids && Last(newer) <= x < f.offsetId)
            && (newer != [] ==> mark < Last(newer) < f.offsetId)
            && (newer == [] ==> AllFetched(page, mark))
  {
    NewerThanSplits(page, mark);
    if AllFetched(page, mark) {
      AllCovered(page, ids, f, mark);
    }
    if NewerThan(page, mark) != [] {
      PartCovered(page, ids, f, mark);
    }
  }

  /** Appending a genuine page extends the block downwards, and completes it if all is fetched. */
  lemma {:induction false} PageExtendsBlock(pending: seq<nat>, page: seq<nat>, ids: set<nat>, f: Fetch, mark: nat)
    requires pending != [] && Last(pending) > mark && IsBlock(pending, ids, Last(pending) - 1)
    requires f.offsetId == Last(pending) && f.minId == (if mark > 0 then mark - 1 else 0)
    requires IsHistoryReply(ids, f, page) && forall x :: x in ids ==> x >= 1
    ensures var s := pending + NewerThan(page, mark);
            && IsBlock(s, ids, Last(s) - 1) && Last(s) > mark
            && (AllFetched(page, mark) ==> IsBlock(s, ids, mark))
            && (!AllFetched(page, mark) ==> Last(s) < Last(pending))
  {
    PageCovers(page, ids, f, mark);
    var newer := NewerThan(page, mark);
    if AllFetched(page, mark) {
      ExtendBlock(pending, newer, ids, mark);
    }
    if newer == [] {
      assert pending + newer == pending;
    } else {
      assert Last(pending + newer) == Last(newer);
      ExtendBlock(pending, newer, ids, Last(newer) - 1);
    }
  }

  /** What is known of a peer before its page: `s` is the pending list with the page appended. */
  ghost predicate PageReady(l: Local, s: seq<nat>, limit: nat, cut: int) {
    && !l.d.synced && l.d.syncedId == l.o.loaded && l.reqs == []
    && l.out == [] && l.lists == [] && l.o.late == [] && TopOk(l.top, l.o.ids)
    && HeldFirst(s, l.o.held, limit, 0) && cut >= l.o.loaded && IsBlock(s, l.o.ids, cut)
  }

  lemma {:induction false} FinishedLocal(l: Local, page: seq<nat>, s: seq<nat>, limit: nat)
    requires l.out == [] && l.lists == [] && l.o.late == [] && s == l.d.pending + NewerThan(page, l.d.syncedId)
    requires AllFetched(page, l.d.syncedId) || LimitReached(limit, s)
    ensures var l' := PageLocal(l, page, limit);
            && l' == l.(d := l'.d, out := s, lists := if s == [] then [] else [s])
            && l'.d == Dialog(if s == [] then l.d.syncedId else s[0], [], true) && Emitted(l') == s
  {
    assert [] + s == s;
  }

  lemma {:induction false} FinishedOk(l: Local, page: seq<nat>, s: seq<nat>, limit: nat, cut: int)
    requires PageReady(l, s, limit, cut) && s == l.d.pending + NewerThan(page, l.o.loaded)
    requires AllFetched(page, l.o.loaded) || LimitReached(limit, s)
    requires EnoughFetched(l, limit, cut, s)
    ensures LocalOk(PageLocal(l, page, limit), limit)
  {
    FinishedLocal(l, page, s, limit);
    var l' := PageLocal(l, page, limit);
    assert l.o.ids - Elements(l.o.late) == l.o.ids;
    assert DoneAt(l', limit, cut);
  }

  lemma {:induction false} WaitingOk(l: Local, page: seq<nat>, s: seq<nat>, limit: nat)
    requires s != [] && PageReady(l, s, limit, Last(s) - 1) && s == l.d.pending + NewerThan(page, l.o.loaded)
    requires !AllFetched(page, l.o.loaded) && !LimitReached(limit, s)
    requires Last(s) > l.o.loaded && Last(s) > 1 && !l.o.failed && Above(l.o.hidden, Last(s))
    ensures LocalOk(PageLocal(l, page, limit), limit)
  {
    var l' := PageLocal(l, page, limit);
    assert l'.reqs == [FetchFor(l.p, l.d.(pending := s), limit)];
  }

  /** A page that leaves a block behind finishes the peer or keeps it waiting. */
  lemma {:induction false} PageOk(l: Local, page: seq<nat>, limit: nat, cut: int)
    requires var s := l.d.pending + NewerThan(page, l.o.loaded);
             && PageReady(l, s, limit, cut)
             && if AllFetched(page, l.o.loaded) || LimitReached(limit, s) then EnoughFetched(l, limit, cut, s)
                else
                  && s != [] && Last(s) > l.o.loaded && Last(s) > 1 && cut == Last(s) - 1
                  && !l.o.failed && Above(l.o.hidden, Last(s))
    ensures LocalOk(PageLocal(l, page, limit), limit)
  {
    var s := l.d.pending + NewerThan(page, l.o.loaded);
    if AllFetched(page, l.o.loaded) || LimitReached(limit, s) {
      FinishedOk(l, page, s, limit, cut);
    } else {
      WaitingOk(l, page, s, limit);
    }
  }

  lemma {:induction false} FirstPageOk(l: Local, limit: nat)
    requires Untouched(l)
    ensures LocalOk(PageLocal(l, [l.top], limit), limit)
  {
    assert NewerThan([l.top][1..], l.o.loaded) == [];
    assert l.d.pending + NewerThan([l.top], l.o.loaded) == if l.top > l.o.loaded then [l.top] else [];
    PageOk(l, [l.top], limit, if l.top > l.o.loaded then l.top - 1 else l.o.loaded);
  }

  /**
   For any client and any page: a request asks for as many messages as one page may have and
   as the limit still allows, and goes on below the oldest pending id.
   */
  lemma {:induction false} LargestRequest(c: Client, p: Peer, page: seq<nat>)
    ensures var c' := PageProcessed(c, p, page);
            c'.requests == c.requests ||
            (c'.requests != [] && c'.requests[..|c'.requests| - 1] == c.requests &&
             var f, d := c'.requests[|c'.requests| - 1], DialogOf(c'.dialogs, p);
             && f.peer == p && (d.pending != [] ==> f.offsetId == Last(d.pending))
             && 1 <= f.limit <= 10 && (c.limit > 0 ==> |d.pending| + f.limit <= c.limit)
             && (f.limit < 10 ==> |d.pending| + f.limit == c.limit))
  {
    var pending := DialogOf(c.dialogs, p).pending + NewerThan(page, DialogOf(c.dialogs, p).syncedId);
    var d := DialogOf(c.dialogs, p).(pending := pending);
    if !(AllFetched(page, d.syncedId) || LimitReached(c.limit, pending)) {
      assert (c.requests + [FetchFor(p, d, c.limit)])[..|c.requests|] == c.requests;
    }
  }

  /** What is hidden lies above every request, so it does not matter for the answers. */
  lemma {:induction false} HiddenIrrelevant(ids: set<nat>, hidden: set<nat>, f: Fetch, page: seq<nat>)
    requires Above(hidden, f.offsetId)
    ensures IsHistoryReply(ids + hidden, f, page) <==> IsHistoryReply(ids, f, page)
  {
    assert forall x :: x < f.offsetId ==> (x in ids + hidden <==> x in ids);
  }

  lemma {:induction false} ReplyOk(l: Local, f: Fetch, page: seq<nat>, limit: nat)
    requires Waiting(l, limit) && l.reqs == [] && RequestOk(l, f, limit) && IsHistoryReply(l.o.All(), f, page)
    ensures LocalOk(PageLocal(l, page, limit), limit)
  {
    var s := l.d.pending + NewerThan(page, l.o.loaded);
    HiddenIrrelevant(l.o.ids, l.o.hidden, f, page);
    PageExtendsBlock(l.d.pending, page, l.o.ids, f, l.o.loaded);
    NewerThanSplits(page, l.o.loaded);
    PageOk(l, page, limit, if AllFetched(page, l.o.loaded) then l.o.loaded else Last(s) - 1);
  }

  lemma {:induction false} FailOk(l: Local, limit: nat)
    requires Waiting(l, limit) && l.reqs == []
    ensures LocalOk(PageLocal(l.(o := l.o.(failed := true)), [], limit), limit)
  {
    assert l.d.pending + NewerThan([], l.o.loaded) == l.d.pending;
    PageOk(l.(o := l.o.(failed := true)), [], limit, Last(l.d.pending) - 1);
  }

  // ---------------------------------------------------------------- one live message, one peer

  /** What a live message does to its peer once the sync was started. */
  function LiveLocal(l: Local, id: nat): Local {
    var o := Announced(l.o, id);
    if id <= l.top then l
    else if l.d.synced || !l.d.IsValid()
    then l.(d := Dialog(id, l.d.pending, true), top := id, out := l.out + [id], o := o.(late := l.o.late + [id]))
    else l.(d := l.d.(pending := [id] + l.d.pending), top := id, o := o.(held := [id] + l.o.held))
  }

  lemma {:induction false} LiveHeld(l: Local, id: nat, limit: nat)
    requires LocalOk(l, limit) && !l.d.synced && id > l.top
    ensures LocalOk(LiveLocal(l, id), limit)
  {
    var s, ids := [id] + l.d.pending, l.o.ids + {id};
    assert Last(s) == Last(l.d.pending) && Last(l.d.pending) in l.d.pending;
    assert id in ids && TopOk(id, ids);
    DescendingConcat([id], l.d.pending) by {
      assert forall x :: x in l.d.pending ==> x <= l.top;
    }
    forall x: nat ensures x in s <==> x in ids && x > Last(s) - 1 {
      assert x in s <==> x == id || x in l.d.pending;
    }
  }

  lemma {:induction false} LateExtends(o: Observed, id: nat, top: nat)
    requires LateOk(o) && TopOk(top, o.ids) && id > top
    ensures LateOk(Announced(o, id).(late := o.late + [id]))
    ensures o.ids + {id} - Elements(o.late + [id]) == o.ids - Elements(o.late)
  {
    assert forall i :: 0 <= i < |o.late| ==> o.late[i] in o.late;
    assert forall x :: x in o.late + [id] <==> x == id || x in o.late;
  }

  lemma {:induction false} EmittedSame(l: Local, id: nat)
    requires l.out == Emitted(l) + l.o.late && l.d.synced && id > l.top
    ensures var l' := LiveLocal(l, id);
            Emitted(l') == Emitted(l) && l'.out == Emitted(l') + l'.o.late && Newest(l') == id
  {
    var l' := LiveLocal(l, id);
    assert l'.out == Emitted(l) + (l.o.late + [id]);
    assert Last(l.o.late + [id]) == id;
  }

  lemma {:induction false} LiveLate(l: Local, id: nat, limit: nat)
    requires Done(l, limit) && id > l.top
    ensures Done(LiveLocal(l, id), limit)
  {
    var cut :| DoneAt(l, limit, cut);
    var l' := LiveLocal(l, id);
    EmittedSame(l, id);
    LateExtends(l.o, id, l.top);
    LateDoneAt(l, l', limit, cut);
    assert id in l'.o.ids && TopOk(id, l'.o.ids);
  }

  /** What a finished peer needs besides its deliveries stays. */
  lemma {:induction false} LateDoneAt(l: Local, l': Local, limit: nat, cut: int)
    requires DoneAt(l, limit, cut) && Emitted(l') == Emitted(l) && l'.out == Emitted(l') + l'.o.late
    requires l'.d.syncedId == Newest(l') && l'.lists == l.lists
    requires l'.o.loaded == l.o.loaded && l'.o.failed == l.o.failed && l'.o.held == l.o.held
    requires l'.o.ids - Elements(l'.o.late) == l.o.ids - Elements(l.o.late) && LateOk(l'.o)
    ensures DoneAt(l', limit, cut)
  {
  }

  lemma {:induction false} LiveOk(l: Local, id: nat, limit: nat)
    requires LocalOk(l, limit)
    ensures LocalOk(LiveLocal(l, id), limit)
  {
    if id > l.top {
      if l.d.synced {
        LiveLate(l, id, limit);
      } else {
        LiveHeld(l, id, limit);
      }
    }
  }

  // ---------------------------------------------------------------- all peers

  /** While `peers` are processed and `left` more wait for their first page. */
  ghost predicate Running(w: World, peers: set<Peer>, left: nat) {
    && !w.c.noSync && w.c.phase != NotStarted
    && w.c.jobs == |w.c.requests| + left
    && forall p: Peer :: PeerOk(LocalOf(w, p), p in peers, w.c.limit)
  }

  ghost predicate PeerOk(l: Local, counted: bool, limit: nat) {
    if counted then LocalOk(l, limit) else l.reqs == []
  }

  ghost predicate Inv(w: World) {
    match w.c.phase
    case NotStarted => InvNotStarted(w)
    case InProgress => Running(w, w.requested, 0) && w.c.jobs > 0 && w.c.finishes == 0
    case Finished => Running(w, w.requested, 0) && w.c.jobs == 0 && w.c.finishes == 1
  }

  ghost predicate InvNotStarted(w: World) {
    && w.c.phase == NotStarted && !w.c.noSync && w.c.requests == [] && w.c.signals == [] && w.c.finishes == 0
    && forall p: Peer :: Untouched(LocalOf(w, p))
  }

  /** The world after a page was processed by the handler. */
  function Paged(w: World, p: Peer, page: seq<nat>): World {
    w.(c := PageProcessed(w.c, p, page))
  }

  lemma {:induction false} DeliveredAppend(signals: seq<Signal>, s: Signal, p: Peer)
    ensures Delivered(signals + [s], p) ==
            Delivered(signals, p) + match s
                                    case SyncMessages(q, ids) => if q == p then ids else []
                                    case MessageReceived(q, id) => if q == p then [id] else []
    ensures ListsFor(signals + [s], p) == ListsFor(signals, p) + if s.SyncMessages? && s.peer == p then [s.ids] else []
  {
    assert (signals + [s])[..|signals|] == signals;
  }

  lemma {:induction false} RequestsAppend(requests: seq<Fetch>, f: Fetch, p: Peer)
    ensures RequestsFor(requests + [f], p) == RequestsFor(requests, p) + if f.peer == p then [f] else []
  {
    assert (requests + [f])[..|requests|] == requests;
  }

  lemma {:induction false} PageEffectOwn(w: World, p: Peer, page: seq<nat>)
    ensures LocalOf(Paged(w, p, page), p) == PageLocal(LocalOf(w, p), page, w.c.limit)
  {
    var d := DialogOf(w.c.dialogs, p);
    var d' := d.(pending := d.pending + NewerThan(page, d.syncedId));
    if AllFetched(page, d.syncedId) || LimitReached(w.c.limit, d'.pending) {
      if d'.pending != [] {
        DeliveredAppend(w.c.signals, SyncMessages(p, d'.pending), p);
      } else {
        assert Delivered(w.c.signals, p) + [] == Delivered(w.c.signals, p);
      }
    } else {
      RequestsAppend(w.c.requests, FetchFor(p, d', w.c.limit), p);
    }
  }

  lemma {:induction false} FinishedOther(w: World, p: Peer, d: Dialog, q: Peer)
    requires q != p
    ensures LocalOf(w.(c := PeerFinished(w.c, p, d)), q) == LocalOf(w, q)
  {
    if d.pending != [] {
      DeliveredAppend(w.c.signals, SyncMessages(p, d.pending), q);
    }
  }

  lemma {:induction false} RequestedOther(w: World, p: Peer, d: Dialog, q: Peer)
    requires q != p && !LimitReached(w.c.limit, d.pending)
    ensures LocalOf(w.(c := MoreRequested(w.c, p, d)), q) == LocalOf(w, q)
  {
    RequestsAppend(w.c.requests, FetchFor(p, d, w.c.limit), q);
  }

  lemma {:induction false} PageEffectOther(w: World, p: Peer, page: seq<nat>, q: Peer)
    requires q != p
    ensures LocalOf(Paged(w, p, page), q) == LocalOf(w, q)
  {
    var d := DialogOf(w.c.dialogs, p);
    var d' := d.(pending := d.pending + NewerThan(page, d.syncedId));
    if AllFetched(page, d.syncedId) || LimitReached(w.c.limit, d'.pending) {
      FinishedOther(w, p, d', q);
    } else {
      RequestedOther(w, p, d', q);
    }
  }

  /** The handler does to its peer what `PageLocal` says, and nothing to the others. */
  lemma {:induction false} PageEffect(w: World, p: Peer, page: seq<nat>, q: Peer)
    ensures LocalOf(Paged(w, p, page), q) ==
            if q == p then PageLocal(LocalOf(w, p), page, w.c.limit) else LocalOf(w, q)
  {
    if q == p {
      PageEffectOwn(w, p, page);
    } else {
      PageEffectOther(w, p, page, q);
    }
  }

  /** A page of a peer that is not counted in `peers` adds the peer to them. */
  lemma {:induction false} PageKeepsRunning(w: World, p: Peer, page: seq<nat>, peers: set<Peer>, left: nat)
    requires left > 0 && Running(w, peers, left) && p !in peers
    requires LocalOk(PageLocal(LocalOf(w, p), page, w.c.limit), w.c.limit)
    ensures Running(Paged(w, p, page), peers + {p}, left - 1)
  {
    forall q: Peer ensures PeerOk(LocalOf(Paged(w, p, page), q), q in peers + {p}, w.c.limit) {
      PageEffect(w, p, page, q);
      assert PeerOk(LocalOf(w, q), q in peers, w.c.limit);
    }
  }

  // ---------------------------------------------------------------- the four steps

  lemma {:induction false} TopsRunning(w: World, w0: World, peers: seq<Peer>, left: nat)
    requires InvNotStarted(w0) && (forall i, j :: 0 <= i < j < |peers| ==> peers[i] != peers[j])
    requires w == World(w0.c.(phase := InProgress, jobs := |peers| + left), w0.seen, w0.requested)
    ensures var w' := w.(c := TopsProcessed(w.c, peers));
            && Running(w', PeerSet(peers), left) && w'.c.phase == InProgress && w'.c.finishes == 0
            && w'.c.limit == w.c.limit && w'.c.tops == w.c.tops
            && forall q: Peer :: q !in PeerSet(peers) ==> LocalOf(w', q) == LocalOf(w0, q)
    decreases |peers|
  {
    if peers != [] {
      var n := |peers| - 1;
      TopsRunning(w, w0, peers[..n], left + 1);
      PeerSetLast(peers);
      TopsStep(w.(c := TopsProcessed(w.c, peers[..n])), w0, peers[n], PeerSet(peers[..n]), left + 1);
    }
  }

  lemma {:induction false} TopsStep(w: World, w0: World, p: Peer, done: set<Peer>, left: nat)
    requires left > 0 && Running(w, done, left) && p !in done && Untouched(LocalOf(w0, p)) && w.c.tops == w0.c.tops
    requires forall q: Peer :: q !in done ==> LocalOf(w, q) == LocalOf(w0, q)
    ensures Running(Paged(w, p, [TopOf(w.c.tops, p)]), done + {p}, left - 1)
    ensures forall q: Peer :: q !in done + {p} ==> LocalOf(Paged(w, p, [TopOf(w.c.tops, p)]), q) == LocalOf(w0, q)
  {
    assert LocalOf(w, p) == LocalOf(w0, p);
    FirstPageOk(LocalOf(w, p), w.c.limit);
    PageKeepsRunning(w, p, [TopOf(w.c.tops, p)], done, left);
    forall q: Peer | q !in done + {p} ensures LocalOf(Paged(w, p, [TopOf(w.c.tops, p)]), q) == LocalOf(w0, q) {
      PageEffect(w, p, [TopOf(w.c.tops, p)], q);
    }
  }

  lemma {:induction false} PeerSetLast(peers: seq<Peer>)
    requires peers != [] && (forall i, j :: 0 <= i < j < |peers| ==> peers[i] != peers[j])
    ensures PeerSet(peers) == PeerSet(peers[..|peers| - 1]) + {peers[|peers| - 1]}
    ensures peers[|peers| - 1] !in PeerSet(peers[..|peers| - 1])
  {
    assert peers == peers[..|peers| - 1] + [peers[|peers| - 1]];
  }

  lemma {:induction false} FinishKeeps(w: World)
    requires Running(w, w.requested, 0) && w.c.phase == InProgress && w.c.finishes == 0
    ensures Inv(w.(c := FinishChecked(w.c)))
  {
    var w' := w.(c := FinishChecked(w.c));
    forall p: Peer ensures PeerOk(LocalOf(w', p), p in w.requested, w.c.limit) {
      assert LocalOf(w', p) == LocalOf(w, p);
    }
  }

  lemma {:induction false} StartKeeps(w: World, peers: seq<Peer>)
    requires Inv(w) && Enabled(w, Start(peers))
    ensures Inv(After(w, Start(peers)))
    ensures After(w, Start(peers)).c.phase != NotStarted
  {
    if w.c.phase == NotStarted {
      var w1 := World(w.c.(phase := InProgress, jobs := |peers|), w.seen, PeerSet(peers));
      var w0 := w.(requested := PeerSet(peers));
      assert forall p :: LocalOf(w0, p) == LocalOf(w, p);
      TopsRunning(w1, w0, peers, 0);
      FinishKeeps(w1.(c := TopsProcessed(w1.c, peers)));
    }
  }

  lemma {:induction false} RequestsWithout(requests: seq<Fetch>, f: Fetch, p: Peer)
    requires f in requests
    ensures |Without(requests, f)| == |requests| - 1
    ensures f in RequestsFor(requests, f.peer)
    ensures p != f.peer ==> RequestsFor(Without(requests, f), p) == RequestsFor(requests, p)
    ensures |RequestsFor(Without(requests, f), f.peer)| == |RequestsFor(requests, f.peer)| - 1
  {
    RequestsCons(requests, p);
    RequestsCons(requests, f.peer);
    if requests[0] != f {
      RequestsWithout(requests[1..], f, p);
      var rest := Without(requests[1..], f);
      RequestsCons([requests[0]] + rest, p);
      RequestsCons([requests[0]] + rest, f.peer);
    }
  }

  lemma {:induction false} RequestsCons(requests: seq<Fetch>, p: Peer)
    requires requests != []
    ensures RequestsFor(requests, p) ==
            (if requests[0].peer == p then [requests[0]] else []) + RequestsFor(requests[1..], p)
    decreases |requests|
  {
    if |requests| > 1 {
      RequestsCons(requests[..|requests| - 1], p);
      assert requests[1..][..|requests| - 2] == requests[..|requests| - 1][1..];
    }
  }

  /** The world once the request of an answer was taken out. */
  function Taken(w: World, f: Fetch): World {
    w.(c := w.c.(requests := Without(w.c.requests, f)))
  }

  lemma {:induction false} TakenOther(w: World, f: Fetch, p: Peer)
    requires f in w.c.requests && p != f.peer
    ensures LocalOf(Taken(w, f), p) == LocalOf(w, p)
  {
    RequestsWithout(w.c.requests, f, p);
  }

  lemma {:induction false} TakenOwn(w: World, f: Fetch)
    requires f in w.c.requests && PeerOk(LocalOf(w, f.peer), f.peer in w.requested, w.c.limit)
    ensures |Without(w.c.requests, f)| == |w.c.requests| - 1
    ensures f.peer in w.requested
    ensures LocalOf(Taken(w, f), f.peer) == LocalOf(w, f.peer).(reqs := [])
    ensures Waiting(LocalOf(Taken(w, f), f.peer), w.c.limit) && RequestOk(LocalOf(Taken(w, f), f.peer), f, w.c.limit)
  {
    RequestsWithout(w.c.requests, f, f.peer);
  }

  /** Taking the request of its peer out leaves one job open, to be settled by the page. */
  lemma {:induction false} RequestTaken(w: World, f: Fetch)
    requires Running(w, w.requested, 0) && f in w.c.requests
    ensures Running(Taken(w, f), w.requested - {f.peer}, 1)
    ensures f.peer in w.requested && w.c.jobs > 0
    ensures LocalOf(Taken(w, f), f.peer) == LocalOf(w, f.peer).(reqs := [])
    ensures Waiting(LocalOf(Taken(w, f), f.peer), w.c.limit) && RequestOk(LocalOf(Taken(w, f), f.peer), f, w.c.limit)
  {
    assert PeerOk(LocalOf(w, f.peer), f.peer in w.requested, w.c.limit);
    TakenOwn(w, f);
    forall p: Peer ensures PeerOk(LocalOf(Taken(w, f), p), p in w.requested - {f.peer}, w.c.limit) {
      if p != f.peer {
        TakenOther(w, f, p);
        assert PeerOk(LocalOf(w, p), p in w.requested, w.c.limit);
      }
    }
  }

  lemma {:induction false} Settle(w: World, p: Peer, page: seq<nat>)
    requires p in w.requested && Running(w, w.requested - {p}, 1) && w.c.phase == InProgress && w.c.finishes == 0
    requires LocalOk(PageLocal(LocalOf(w, p), page, w.c.limit), w.c.limit)
    ensures Inv(w.(c := FinishChecked(PageProcessed(w.c, p, page))))
  {
    PageKeepsRunning(w, p, page, w.requested - {p}, 1);
    assert w.requested - {p} + {p} == w.requested;
    FinishKeeps(Paged(w, p, page));
  }

  lemma {:induction false} ReplyKeeps(w: World, f: Fetch, page: seq<nat>)
    requires Inv(w) && Enabled(w, Reply(f, page))
    ensures Inv(After(w, Reply(f, page)))
  {
    RequestTaken(w, f);
    ReplyOk(LocalOf(Taken(w, f), f.peer), f, page, w.c.limit);
    Settle(Taken(w, f), f.peer, page);
  }

  lemma {:induction false} SeenFrame(w: World, w': World, p: Peer, peers: set<Peer>, left: nat)
    requires Running(w, peers, left) && p !in peers && w'.c == w.c
    requires forall q: Peer :: q != p ==> SeenOf(w'.seen, q) == SeenOf(w.seen, q)
    ensures Running(w', peers, left)
  {
    forall q: Peer ensures PeerOk(LocalOf(w', q), q in peers, w.c.limit) {
      assert PeerOk(LocalOf(w, q), q in peers, w.c.limit);
    }
  }

  function FailureNoted(w: World, p: Peer): World {
    w.(seen := w.seen[p := SeenOf(w.seen, p).(failed := true)])
  }

  lemma {:induction false} FailureFrame(w: World, p: Peer, peers: set<Peer>)
    requires Running(w, peers, 1) && p !in peers
    ensures Running(FailureNoted(w, p), peers, 1)
    ensures LocalOf(FailureNoted(w, p), p) == LocalOf(w, p).(o := LocalOf(w, p).o.(failed := true))
  {
    SeenFrame(w, FailureNoted(w, p), p, peers, 1);
  }

  lemma {:induction false} FailKeeps(w: World, f: Fetch)
    requires Inv(w) && Enabled(w, Fail(f))
    ensures Inv(After(w, Fail(f)))
  {
    RequestTaken(w, f);
    var l := LocalOf(Taken(w, f), f.peer);
    FailOk(l, w.c.limit);
    var w2 := FailureNoted(Taken(w, f), f.peer);
    FailureFrame(Taken(w, f), f.peer, w.requested - {f.peer});
    Settle(w2, f.peer, []);
  }

  lemma {:induction false} LiveDelivered(c: Client, p: Peer, id: nat, q: Peer)
    requires c.phase != NotStarted && !c.noSync
    ensures Delivered(UpdateProcessed(c, p, id).signals, q) ==
            if q == p && id > TopOf(c.tops, p) && !Holds(c, p) then Delivered(c.signals, q) + [id]
            else Delivered(c.signals, q)
    ensures ListsFor(UpdateProcessed(c, p, id).signals, q) == ListsFor(c.signals, q)
  {
    if id > TopOf(c.tops, p) && !Holds(c, p) {
      DeliveredAppend(c.signals, MessageReceived(p, id), q);
    }
  }

  lemma {:induction false} LiveDialogOwn(c: Client, p: Peer, id: nat)
    requires c.phase != NotStarted && !c.noSync
    ensures var c', d := UpdateProcessed(c, p, id), DialogOf(c.dialogs, p);
            && (Holds(c, p) <==> !d.synced && d.IsValid())
            && DialogOf(c'.dialogs, p) ==
               (if id <= TopOf(c.tops, p) then d
                else if Holds(c, p) then d.(pending := [id] + d.pending)
                else Dialog(id, d.pending, true))
            && TopOf(c'.tops, p) == (if id <= TopOf(c.tops, p) then TopOf(c.tops, p) else id)
            && c'.requests == c.requests
  {
  }

  lemma {:induction false} LiveEffectOwn(w: World, p: Peer, id: nat)
    requires w.c.phase != NotStarted && !w.c.noSync
    ensures LocalOf(After(w, Live(p, id)), p) == LiveLocal(LocalOf(w, p), id)
  {
    LiveDelivered(w.c, p, id, p);
    LiveDialogOwn(w.c, p, id);
    assert SeenOf(After(w, Live(p, id)).seen, p) == Saw(w.c, p, id, SeenOf(w.seen, p));
  }

  lemma {:induction false} LiveDialogOther(c: Client, p: Peer, id: nat, q: Peer)
    requires q != p
    ensures var c' := UpdateProcessed(c, p, id);
            && DialogOf(c'.dialogs, q) == DialogOf(c.dialogs, q)
            && TopOf(c'.tops, q) == TopOf(c.tops, q)
            && c'.requests == c.requests
  {
  }

  lemma {:induction false} LiveEffectOther(w: World, p: Peer, id: nat, q: Peer)
    requires w.c.phase != NotStarted && !w.c.noSync && q != p
    ensures LocalOf(After(w, Live(p, id)), q) == LocalOf(w, q)
  {
    LiveDelivered(w.c, p, id, q);
    LiveDialogOther(w.c, p, id, q);
  }

  /** The handler does to its peer what `LiveLocal` says, and nothing to the others. */
  lemma {:induction false} LiveEffect(w: World, p: Peer, id: nat, q: Peer)
    requires w.c.phase != NotStarted && !w.c.noSync
    ensures LocalOf(After(w, Live(p, id)), q) == if q == p then LiveLocal(LocalOf(w, p), id) else LocalOf(w, q)
  {
    if q == p {
      LiveEffectOwn(w, p, id);
    } else {
      LiveEffectOther(w, p, id, q);
    }
  }

  lemma {:induction false} LiveUntouched(w: World, p: Peer, id: nat, q: Peer)
    requires w.c.phase == NotStarted && !w.c.noSync && id >= 1 && Untouched(LocalOf(w, q))
    ensures Untouched(LocalOf(After(w, Live(p, id)), q))
  {
    var l, l' := LocalOf(w, q), LocalOf(After(w, Live(p, id)), q);
    if q == p && id > l.top {
      assert l'.o.ids == l.o.ids + {id} + (set x | x in l.o.hidden && x <= id) && id in l'.o.ids;
    }
  }

  /** A new message on the server changes nothing for the client. */
  lemma {:induction false} PostedEffect(w: World, p: Peer, id: nat, q: Peer)
    ensures LocalOf(PostedTo(w, p, id), q) ==
            if q == p then LocalOf(w, p).(o := LocalOf(w, p).o.(hidden := LocalOf(w, p).o.hidden + {id}))
            else LocalOf(w, q)
  {
  }

  lemma {:induction false} PostedLocal(l: Local, id: nat, limit: nat)
    requires LocalOk(l, limit) && forall x :: x in l.o.ids ==> x < id
    ensures LocalOk(l.(o := l.o.(hidden := l.o.hidden + {id})), limit)
  {
    var l' := l.(o := l.o.(hidden := l.o.hidden + {id}));
    if l.d.synced {
      var cut :| DoneAt(l, limit, cut);
      assert Emitted(l') == Emitted(l) && DoneAt(l', limit, cut);
    } else {
      assert Last(l.d.pending) in l.d.pending;
    }
  }

  lemma {:induction false} PostedUntouched(w: World, p: Peer, id: nat, q: Peer)
    requires Untouched(LocalOf(w, q)) && id >= 1 && forall x :: x in SeenOf(w.seen, p).All() ==> x < id
    ensures Untouched(LocalOf(PostedTo(w, p, id), q))
  {
    PostedEffect(w, p, id, q);
    var l := LocalOf(w, p);
    assert l.top in l.o.ids ==> l.top in l.o.All();
  }

  lemma {:induction false} PostedKeepsPeer(w: World, p: Peer, id: nat, q: Peer, counted: bool)
    requires PeerOk(LocalOf(w, q), counted, w.c.limit) && forall x :: x in SeenOf(w.seen, p).All() ==> x < id
    ensures PeerOk(LocalOf(PostedTo(w, p, id), q), counted, w.c.limit)
  {
    PostedEffect(w, p, id, q);
    if q == p && counted {
      assert forall x :: x in LocalOf(w, p).o.ids ==> x in SeenOf(w.seen, p).All();
      PostedLocal(LocalOf(w, p), id, w.c.limit);
    }
  }

  lemma {:induction false} PostedKeepsRunning(w: World, p: Peer, id: nat)
    requires Running(w, w.requested, 0) && forall x :: x in SeenOf(w.seen, p).All() ==> x < id
    ensures Running(PostedTo(w, p, id), w.requested, 0)
  {
    forall q: Peer ensures PeerOk(LocalOf(PostedTo(w, p, id), q), q in w.requested, w.c.limit) {
      PostedKeepsPeer(w, p, id, q, q in w.requested);
    }
  }

  lemma {:induction false} PostedKeeps(w: World, p: Peer, id: nat)
    requires Inv(w) && Enabled(w, Posted(p, id))
    ensures Inv(After(w, Posted(p, id)))
  {
    if w.c.phase == NotStarted {
      forall q: Peer ensures Untouched(LocalOf(PostedTo(w, p, id), q)) {
        PostedUntouched(w, p, id, q);
      }
    } else {
      PostedKeepsRunning(w, p, id);
    }
  }

  lemma {:induction false} LiveKeepsPeer(w: World, p: Peer, id: nat, q: Peer, counted: bool)
    requires w.c.phase != NotStarted && !w.c.noSync && PeerOk(LocalOf(w, q), counted, w.c.limit)
    ensures PeerOk(LocalOf(After(w, Live(p, id)), q), counted, w.c.limit)
  {
    LiveEffect(w, p, id, q);
    if counted && q == p {
      LiveOk(LocalOf(w, p), id, w.c.limit);
    }
  }

  lemma {:induction false} LiveKeepsRunning(w: World, p: Peer, id: nat)
    requires Running(w, w.requested, 0)
    ensures Running(After(w, Live(p, id)), w.requested, 0)
  {
    forall q: Peer ensures PeerOk(LocalOf(After(w, Live(p, id)), q), q in w.requested, w.c.limit) {
      LiveKeepsPeer(w, p, id, q, q in w.requested);
    }
  }

  lemma {:induction false} LiveKeeps(w: World, p: Peer, id: nat)
    requires Inv(w) && Enabled(w, Live(p, id))
    ensures Inv(After(w, Live(p, id)))
  {
    if w.c.phase == NotStarted {
      assert Untouched(LocalOf(w, p));
      forall q: Peer ensures Untouched(LocalOf(After(w, Live(p, id)), q)) {
        LiveUntouched(w, p, id, q);
      }
    } else {
      LiveKeepsRunning(w, p, id);
    }
  }

  // ---------------------------------------------------------------- every run

  lemma {:induction false} StepKeeps(w: World, s: Step)
    requires Inv(w) && Enabled(w, s)
    ensures Inv(After(w, s))
  {
    match s
    case Start(peers) => StartKeeps(w, peers);
    case Reply(f, page) => ReplyKeeps(w, f, page);
    case Fail(f) => FailKeeps(w, f);
    case Posted(p, id) => PostedKeeps(w, p, id);
    case Live(p, id) => LiveKeeps(w, p, id);
  }

  lemma {:induction false} RunKeeps(w: World, steps: seq<Step>)
    requires Initial(w) && IsRun(w, steps)
    ensures Inv(RunOf(w, steps))
    decreases |steps|
  {
    if steps != [] {
      RunKeeps(w, steps[..|steps| - 1]);
      StepKeeps(RunOf(w, steps[..|steps| - 1]), steps[|steps| - 1]);
    }
  }

  lemma {:induction false} NoRepetition(l: Local, limit: nat, cut: int)
    requires DoneAt(l, limit, cut)
    ensures forall i, j :: 0 <= i < j < |l.out| ==> l.out[i] != l.out[j]
    ensures forall x: nat :: x in l.out <==> x in l.o.ids && (x in l.o.late || x > cut)
  {
    var e := Emitted(l);
    forall i, j | 0 <= i < j < |l.out| ensures l.out[i] != l.out[j] {
      if i < |e| <= j {
        assert l.out[j] == l.o.late[j - |e|] && l.out[i] == e[i] && e[i] in e;
      }
    }
    assert forall x: nat :: x in l.out <==> x in e || x in l.o.late;
  }

  /**
   With a limit, the history contributes at most `limit` ids however many live messages were
   held, and the emitted list is the newest contiguous part of the dialog; unless a request
   failed it is everything above the mark or has at least `limit` ids.
   */
  lemma {:induction false} LimitedBlock(w: World, steps: seq<Step>, p: Peer)
    requires Initial(w) && IsRun(w, steps) && w.c.limit > 0
    requires RunOf(w, steps).c.phase != NotStarted && p in RunOf(w, steps).requested
    requires LocalOf(RunOf(w, steps), p).d.synced
    ensures var l := LocalOf(RunOf(w, steps), p);
            && l.o.held <= Emitted(l) && |Emitted(l)| - |l.o.held| <= w.c.limit
            && exists cut: int ::
                 && cut >= l.o.loaded && IsBlock(Emitted(l), l.o.ids - Elements(l.o.late), cut)
                 && (!l.o.failed ==> cut == l.o.loaded || |Emitted(l)| >= w.c.limit)
  {
    RunKeeps(w, steps);
    LimitConstant(w, steps);
    var w' := RunOf(w, steps);
    PeerKnown(w', p);
    var cut :| DoneAt(LocalOf(w', p), w'.c.limit, cut);
  }

  lemma {:induction false} TopsLimit(c: Client, peers: seq<Peer>)
    ensures TopsProcessed(c, peers).limit == c.limit
    decreases |peers|
  {
    if peers != [] {
      TopsLimit(c, peers[..|peers| - 1]);
    }
  }

  lemma {:induction false} StepLimit(w: World, s: Step)
    ensures After(w, s).c.limit == w.c.limit
  {
    if s.Start? {
      TopsLimit(w.c.(phase := InProgress, jobs := |s.peers|), s.peers);
    }
  }

  lemma {:induction false} LimitConstant(w: World, steps: seq<Step>)
    ensures RunOf(w, steps).c.limit == w.c.limit
    decreases |steps|
  {
    if steps != [] {
      LimitConstant(w, steps[..|steps| - 1]);
      StepLimit(RunOf(w, steps[..|steps| - 1]), steps[|steps| - 1]);
    }
  }

  /**
   Accounting. In every run the job counter equals the number of requests in flight, the
   operation is finished at most once, and it is finished exactly when all requested peers are
   synced; until then some request is in flight, so the sync is never stuck.
   */
  lemma {:induction false} Accounting(w: World, steps: seq<Step>)
    requires Initial(w) && IsRun(w, steps) && RunOf(w, steps).c.phase != NotStarted
    ensures var w' := RunOf(w, steps);
            var allSynced := forall p :: p in w'.requested ==> LocalOf(w', p).d.synced;
            && w'.c.jobs == |w'.c.requests|
            && w'.c.finishes == (if w'.c.phase == Finished then 1 else 0)
            && (w'.c.phase == Finished <==> allSynced)
            && (!allSynced ==> w'.c.requests != [])
  {
    RunKeeps(w, steps);
    AllOrSome(RunOf(w, steps));
  }

  lemma {:induction false} AllOrSome(w: World)
    requires Running(w, w.requested, 0)
    ensures w.c.requests == [] <==> forall p :: p in w.requested ==> LocalOf(w, p).d.synced
  {
    if w.c.requests == [] {
      forall p | p in w.requested ensures LocalOf(w, p).d.synced {
        assert PeerOk(LocalOf(w, p), true, w.c.limit);
        assert LocalOf(w, p).reqs == [];
      }
    } else {
      RequestTaken(w, w.c.requests[0]);
    }
  }

  // ---------------------------------------------------------------- termination

  /** How many history answers (or failures) the steps contain for one peer. */
  function Answers(steps: seq<Step>, p: Peer): nat {
    if steps == [] then 0
    else
      var s := steps[|steps| - 1];
      Answers(steps[..|steps| - 1], p) + if (s.Reply? || s.Fail?) && s.fetch.peer == p then 1 else 0
  }

  /** The oldest pending id of an unfinished peer. */
  function Rank(l: Local): nat {
    if l.d.synced || l.d.pending == [] then 0 else Last(l.d.pending)
  }

  lemma {:induction false} RankBelowTop(l: Local, limit: nat)
    requires LocalOk(l, limit)
    ensures Rank(l) <= l.top
  {
    if l.d.pending != [] {
      assert Last(l.d.pending) in l.d.pending;
    }
  }

  lemma {:induction false} AnswerLowersRank(l: Local, f: Fetch, page: seq<nat>, limit: nat)
    requires Waiting(l, limit) && RequestOk(l, f, limit) && (page == [] || IsHistoryReply(l.o.All(), f, page))
    ensures Rank(PageLocal(l, page, limit)) < Rank(l)
  {
    if page != [] {
      HiddenIrrelevant(l.o.ids, l.o.hidden, f, page);
      PageExtendsBlock(l.d.pending, page, l.o.ids, f, l.o.loaded);
    }
  }

  lemma {:induction false} LiveRank(l: Local, id: nat, limit: nat)
    requires LocalOk(l, limit)
    ensures Rank(LiveLocal(l, id)) == Rank(l) && LiveLocal(l, id).top >= l.top
  {
    if l.d.pending != [] {
      assert Last([id] + l.d.pending) == Last(l.d.pending);
    }
  }

  /** The answers so far and the oldest pending id together stay below the top message id. */
  ghost predicate Bounded(w: World, p: Peer, answers: nat) {
    if w.c.phase == NotStarted || p !in w.requested then answers == 0
    else answers + Rank(LocalOf(w, p)) <= LocalOf(w, p).top
  }

  lemma {:induction false} AnswerBounded(w: World, w': World, f: Fetch, page: seq<nat>, p: Peer, answers: nat)
    requires Inv(w) && f in w.c.requests && Bounded(w, p, answers)
    requires page == [] || IsHistoryReply(LocalOf(w, f.peer).o.All(), f, page)
    requires w'.c == HistoryReceived(w.c, f, page) && w'.requested == w.requested
    ensures Bounded(w', p, answers + if f.peer == p then 1 else 0)
  {
    RequestTaken(w, f);
    PageEffect(Taken(w, f), f.peer, page, p);
    AnswerLowersRank(LocalOf(Taken(w, f), f.peer), f, page, w.c.limit);
    var l', l2 := LocalOf(w', p), LocalOf(Paged(Taken(w, f), f.peer, page), p);
    assert l'.d == l2.d && l'.top == l2.top;
  }

  lemma {:induction false} StepBounded(w: World, s: Step, p: Peer, answers: nat)
    requires Inv(w) && Enabled(w, s) && Bounded(w, p, answers)
    ensures Bounded(After(w, s), p, answers + if (s.Reply? || s.Fail?) && s.fetch.peer == p then 1 else 0)
  {
    match s
    case Start(peers) => StartBounded(w, peers, p, answers);
    case Reply(f, page) => AnswerBounded(w, After(w, s), f, page, p, answers);
    case Fail(f) => AnswerBounded(w, After(w, s), f, [], p, answers);
    case Posted(q, id) => PostedEffect(w, q, id, p);
    case Live(q, id) => LiveBounded(w, q, id, p, answers);
  }

  lemma {:induction false} StartBounded(w: World, peers: seq<Peer>, p: Peer, answers: nat)
    requires Inv(w) && Enabled(w, Start(peers)) && Bounded(w, p, answers)
    ensures Bounded(After(w, Start(peers)), p, answers)
  {
    var w' := After(w, Start(peers));
    StartKeeps(w, peers);
    if w.c.phase == NotStarted && p in w'.requested {
      PeerKnown(w', p);
      RankBelowTop(LocalOf(w', p), w'.c.limit);
    }
  }

  lemma {:induction false} LiveBounded(w: World, q: Peer, id: nat, p: Peer, answers: nat)
    requires Inv(w) && Bounded(w, p, answers)
    ensures Bounded(After(w, Live(q, id)), p, answers)
  {
    if w.c.phase != NotStarted && p in w.requested {
      PeerKnown(w, p);
      LiveEffect(w, q, id, p);
      LiveRank(LocalOf(w, p), id, w.c.limit);
    }
  }

  lemma {:induction false} PeerKnown(w: World, p: Peer)
    requires Inv(w) && w.c.phase != NotStarted && p in w.requested
    ensures LocalOk(LocalOf(w, p), w.c.limit)
  {
    assert PeerOk(LocalOf(w, p), p in w.requested, w.c.limit);
  }

  /**
   Termination. Every answer lowers the oldest pending id of its peer, so in every run the
   number of history requests answered for a requested peer never exceeds the id of the
   dialog's top message.
   */
  lemma {:induction false} AnswersBounded(w: World, steps: seq<Step>, p: Peer)
    requires Initial(w) && IsRun(w, steps)
    ensures Bounded(RunOf(w, steps), p, Answers(steps, p))
    decreases |steps|
  {
    if steps != [] {
      AnswersBounded(w, steps[..|steps| - 1], p);
      RunKeeps(w, steps[..|steps| - 1]);
      StepBounded(RunOf(w, steps[..|steps| - 1]), steps[|steps| - 1], p, Answers(steps[..|steps| - 1], p));
    }
  }

  /** In every run a request in flight asks for ids that can exist and are not yet there. */
  lemma {:induction false} RequestsNeeded(w: World, steps: seq<Step>, f: Fetch)
    requires Initial(w) && IsRun(w, steps) && f in RunOf(w, steps).c.requests
    ensures 0 < f.minId + 1 < f.offsetId
    ensures DialogOf(RunOf(w, steps).c.dialogs, f.peer).pending != []
    ensures f.offsetId == Last(DialogOf(RunOf(w, steps).c.dialogs, f.peer).pending)
  {
    RunKeeps(w, steps);
    var v := RunOf(w, steps);
    var l := LocalOf(v, f.peer);
    RequestsWithout(v.c.requests, f, f.peer);
    assert PeerOk(l, f.peer in v.requested, v.c.limit);
  }

  // ---------------------------------------------------------------- what the client cannot learn of

  /** The live messages of a peer that came after the start and above the dialog's top, in order. */
  function Arrived(w: World, steps: seq<Step>, p: Peer): seq<nat> {
    if steps == [] then []
    else
      var before, s := RunOf(w, steps[..|steps| - 1]), steps[|steps| - 1];
      Arrived(w, steps[..|steps| - 1], p) +
      if s.Live? && s.peer == p && before.c.phase != NotStarted && s.id > TopOf(before.c.tops, p) then [s.id] else []
  }

  /** The top message that the storage had when the sync was started. */
  function StartTop(w: World, steps: seq<Step>, p: Peer): nat {
    if steps == [] then TopOf(w.c.tops, p)
    else
      var before := RunOf(w, steps[..|steps| - 1]);
      if before.c.phase == NotStarted then TopOf(before.c.tops, p) else StartTop(w, steps[..|steps| - 1], p)
  }

  /** Hidden is what lies above the top at the start and was not announced above the top since. */
  ghost predicate HiddenIs(o: Observed, top: nat, arrived: seq<nat>) {
    && (top == 0 || top in o.ids)
    && (forall x :: x in arrived ==> x in o.ids)
    && (forall x :: x in o.ids ==> x <= top || x in arrived)
    && (forall x :: x in o.hidden ==> x > top && x !in arrived)
  }

  lemma {:induction false} HiddenPosted(o: Observed, top: nat, arrived: seq<nat>, id: nat)
    requires HiddenIs(o, top, arrived) && id >= 1 && forall x :: x in o.All() ==> x < id
    ensures HiddenIs(o.(hidden := o.hidden + {id}), top, arrived)
  {
    assert forall x :: x in o.ids ==> x in o.All();
    assert id !in o.ids;
  }

  lemma {:induction false} HiddenLive(c: Client, p: Peer, o: Observed, top: nat, arrived: seq<nat>, id: nat)
    requires c.phase != NotStarted && HiddenIs(o, top, arrived) && TopOk(TopOf(c.tops, p), o.ids) && id in o.All()
    ensures HiddenIs(Saw(c, p, id, o), top, arrived + if id > TopOf(c.tops, p) then [id] else [])
  {
    if id > TopOf(c.tops, p) {
      assert id in o.hidden;
      assert forall x :: x in arrived + [id] <==> x in arrived || x == id;
    } else {
      assert arrived + [] == arrived;
    }
  }

  lemma {:induction false} HiddenAtStart(w: World, peers: seq<Peer>, p: Peer)
    requires Inv(w) && w.c.phase == NotStarted
    ensures HiddenIs(SeenOf(After(w, Start(peers)).seen, p), TopOf(w.c.tops, p), [])
  {
    assert Untouched(LocalOf(w, p));
  }

  lemma {:induction false} HiddenStep(w: World, s: Step, p: Peer, top: nat, arrived: seq<nat>)
    requires Inv(w) && Enabled(w, s) && w.c.phase != NotStarted && p in w.requested
    requires HiddenIs(SeenOf(w.seen, p), top, arrived)
    ensures HiddenIs(SeenOf(After(w, s).seen, p), top, arrived +
            if s.Live? && s.peer == p && s.id > TopOf(w.c.tops, p) then [s.id] else [])
  {
    assert arrived + [] == arrived;
    if s.Posted? && s.peer == p {
      HiddenPosted(SeenOf(w.seen, p), top, arrived, s.id);
    } else if s.Live? && s.peer == p {
      PeerKnown(w, p);
      HiddenLive(w.c, p, SeenOf(w.seen, p), top, arrived, s.id);
    }
  }

  lemma {:induction false} HiddenExactly(w: World, steps: seq<Step>, p: Peer)
    requires Initial(w) && IsRun(w, steps)
    requires RunOf(w, steps).c.phase != NotStarted && p in RunOf(w, steps).requested
    ensures HiddenIs(SeenOf(RunOf(w, steps).seen, p), StartTop(w, steps, p), Arrived(w, steps, p))
    decreases |steps|
  {
    var init, s := steps[..|steps| - 1], steps[|steps| - 1];
    var before := RunOf(w, init);
    RunKeeps(w, init);
    if before.c.phase == NotStarted {
      NothingArrived(w, init, p);
      OnlyStartStarts(before, s);
      HiddenAtStart(before, s.peers, p);
    } else {
      RequestedFixed(before, s);
      HiddenExactly(w, init, p);
      HiddenStep(before, s, p, StartTop(w, init, p), Arrived(w, init, p));
    }
  }

  /**
   Exactly-once delivery. In every run, what the application was given for a requested peer
   whose sync is over is one newest-first block, in a single signal unless it is empty,
   followed by the live messages that came later, without repetition. With no limit and no
   failed request it is exactly those ids of the server above the loaded mark, or late, that
   lie at or below the top stored when the sync started or were announced above the top since.
   The mark for the next sync is the newest id given. An unfinished peer was given nothing.
   */
  lemma {:induction false} ExactlyOnce(w: World, steps: seq<Step>, p: Peer)
    requires Initial(w) && IsRun(w, steps)
    requires RunOf(w, steps).c.phase != NotStarted && p in RunOf(w, steps).requested
    ensures var l, arrived, top := LocalOf(RunOf(w, steps), p), Arrived(w, steps, p), StartTop(w, steps, p);
            if !l.d.synced then l.out == [] && l.lists == []
            else
              && l.out == Emitted(l) + l.o.late
              && l.lists == (if Emitted(l) == [] then [] else [Emitted(l)])
              && StrictlyDescending(Emitted(l))
              && (forall i, j :: 0 <= i < j < |l.out| ==> l.out[i] != l.out[j])
              && (if l.out == [] then l.d.syncedId == l.o.loaded
                  else l.d.syncedId in l.out && forall x :: x in l.out ==> x <= l.d.syncedId)
              && (w.c.limit == 0 && !l.o.failed ==>
                    forall x: nat :: x in l.out <==>
                      x in l.o.All() && (x <= top || x in arrived) && (x > l.o.loaded || x in l.o.late))
  {
    RunKeeps(w, steps);
    LimitConstant(w, steps);
    var l := LocalOf(RunOf(w, steps), p);
    PeerKnown(RunOf(w, steps), p);
    HiddenExactly(w, steps, p);
    if l.d.synced {
      var cut :| DoneAt(l, w.c.limit, cut);
      NoRepetition(l, w.c.limit, cut);
      MarkIsNewest(l, w.c.limit, cut);
      if w.c.limit == 0 && !l.o.failed {
        ServerIds(l.o, l.out, StartTop(w, steps, p), Arrived(w, steps, p));
      }
    }
  }

  lemma {:induction false} ServerIds(o: Observed, out: seq<nat>, top: nat, arrived: seq<nat>)
    requires HiddenIs(o, top, arrived)
    requires forall x: nat :: x in out <==> x in o.ids && (x in o.late || x > o.loaded)
    ensures forall x: nat :: x in out <==> x in o.All() && (x <= top || x in arrived) && (x > o.loaded || x in o.late)
  {
    assert forall x :: x in o.All() <==> x in o.ids || x in o.hidden;
  }

  lemma {:induction false} MarkIsNewest(l: Local, limit: nat, cut: int)
    requires DoneAt(l, limit, cut)
    ensures if l.out == [] then l.d.syncedId == l.o.loaded
            else l.d.syncedId in l.out && forall x :: x in l.out ==> x <= l.d.syncedId
  {
    var e, late := Emitted(l), l.o.late;
    assert forall x :: x in l.out <==> x in e || x in late;
    if late != [] {
      assert Last(late) in late;
    } else if e != [] {
      assert e[0] in e;
    }
  }

  /**
   Whether anything is lost, over the ids of the server itself. With no limit and no failed
   request, the application was given every id above the mark if and only if each one that lies
   also above the top stored when the sync started was announced live, before a later one was.
   */
  lemma {:induction false} NothingLostIff(w: World, steps: seq<Step>, p: Peer)
    requires Initial(w) && IsRun(w, steps) && w.c.limit == 0
    requires RunOf(w, steps).c.phase != NotStarted && p in RunOf(w, steps).requested
    requires LocalOf(RunOf(w, steps), p).d.synced && !LocalOf(RunOf(w, steps), p).o.failed
    ensures var l, arrived, top := LocalOf(RunOf(w, steps), p), Arrived(w, steps, p), StartTop(w, steps, p);
            (forall x :: x in l.o.All() && x > l.o.loaded ==> x in l.out) <==>
            (forall x :: x in l.o.All() && x > l.o.loaded && x > top ==> x in arrived)
  {
    ExactlyOnce(w, steps, p);
  }

  // ---------------------------------------------------------------- what is not promised

  function Backwards(s: seq<nat>): seq<nat> {
    if s == [] then [] else [s[|s| - 1]] + Backwards(s[..|s| - 1])
  }

  /** A peer that was not asked for: with a loaded mark everything is held, without one everything is emitted. */
  ghost predicate Aside(l: Local, arrived: seq<nat>) {
    if l.o.loaded > 0
    then l.out == [] && l.d == Dialog(l.o.loaded, Backwards(arrived), false)
    else
      && l.out == arrived
      && if arrived == [] then l.d == Dialog(0, [], false) else l.d.synced && l.d.pending == []
  }

  lemma {:induction false} BackwardsSnoc(s: seq<nat>, id: nat)
    ensures Backwards(s + [id]) == [id] + Backwards(s)
  {
    assert (s + [id])[..|s|] == s;
  }

  lemma {:induction false} LiveHeldAside(l: Local, arrived: seq<nat>, id: nat)
    requires Aside(l, arrived) && l.o.loaded > 0 && id > l.top
    ensures Aside(LiveLocal(l, id), arrived + [id])
  {
    BackwardsSnoc(arrived, id);
    assert !l.d.synced && l.d.IsValid();
  }

  lemma {:induction false} LiveEmittedAside(l: Local, arrived: seq<nat>, id: nat)
    requires Aside(l, arrived) && l.o.loaded == 0 && id > l.top
    ensures Aside(LiveLocal(l, id), arrived + [id])
  {
    assert l.d.synced || !l.d.IsValid();
    assert LiveLocal(l, id).out == arrived + [id];
    assert LiveLocal(l, id).d == Dialog(id, [], true);
  }

  lemma {:induction false} LiveAside(l: Local, arrived: seq<nat>, id: nat)
    requires Aside(l, arrived)
    ensures Aside(LiveLocal(l, id), arrived + if id > l.top then [id] else [])
  {
    if id <= l.top {
      assert arrived + [] == arrived;
    } else if l.o.loaded > 0 {
      LiveHeldAside(l, arrived, id);
    } else {
      LiveEmittedAside(l, arrived, id);
    }
  }

  /** A history answer concerns only a requested peer. */
  lemma {:induction false} AnswerAside(w: World, w': World, f: Fetch, page: seq<nat>, p: Peer)
    requires Inv(w) && f in w.c.requests && p !in w.requested
    requires w'.c == HistoryReceived(w.c, f, page) && SeenOf(w'.seen, p) == SeenOf(w.seen, p)
    ensures f.peer != p && LocalOf(w', p) == LocalOf(w, p)
  {
    RequestTaken(w, f);
    TakenOther(w, f, p);
    PageEffect(Taken(w, f), f.peer, page, p);
    var w2 := Paged(Taken(w, f), f.peer, page);
    assert LocalOf(w2, p).(o := SeenOf(w'.seen, p)) == LocalOf(w', p);
  }

  lemma {:induction false} StartAside(w: World, peers: seq<Peer>, p: Peer)
    requires Inv(w) && Enabled(w, Start(peers)) && w.c.phase == NotStarted && p !in PeerSet(peers)
    ensures LocalOf(After(w, Start(peers)), p) == LocalOf(w, p) && Untouched(LocalOf(w, p))
  {
    var w1 := World(w.c.(phase := InProgress, jobs := |peers|), w.seen, PeerSet(peers));
    var w0 := w.(requested := PeerSet(peers));
    assert forall q :: LocalOf(w0, q) == LocalOf(w, q);
    TopsRunning(w1, w0, peers, 0);
    assert LocalOf(w1.(c := TopsProcessed(w1.c, peers)), p) == LocalOf(w0, p);
  }

  lemma {:induction false} NothingArrived(w: World, steps: seq<Step>, p: Peer)
    requires Initial(w) && IsRun(w, steps) && RunOf(w, steps).c.phase == NotStarted
    ensures Arrived(w, steps, p) == []
    decreases |steps|
  {
    if steps != [] {
      var init := steps[..|steps| - 1];
      RunKeeps(w, init);
      StepLeavesStart(RunOf(w, init), steps[|steps| - 1]);
      NothingArrived(w, init, p);
    }
  }

  lemma {:induction false} StepLeavesStart(w: World, s: Step)
    requires Inv(w) && Enabled(w, s) && After(w, s).c.phase == NotStarted
    ensures w.c.phase == NotStarted
  {
    match s
    case Start(peers) => StartKeeps(w, peers);
    case Reply(f, page) => RequestTaken(w, f);
    case Fail(f) => RequestTaken(w, f);
    case Posted(p, id) =>
    case Live(p, id) =>
  }

  lemma {:induction false} StepAside(w: World, s: Step, p: Peer, arrived: seq<nat>)
    requires Inv(w) && Enabled(w, s) && w.c.phase != NotStarted && p !in w.requested && Aside(LocalOf(w, p), arrived)
    ensures After(w, s).requested == w.requested
    ensures Aside(LocalOf(After(w, s), p), arrived + if s.Live? && s.peer == p && s.id > TopOf(w.c.tops, p)
            then [s.id] else [])
  {
    assert arrived + [] == arrived;
    match s
    case Start(peers) =>
    case Reply(f, page) => AnswerAside(w, After(w, s), f, page, p);
    case Fail(f) =>
      RequestTaken(w, f);
      AnswerAside(w, After(w, s), f, [], p);
    case Posted(q, id) => PostedEffect(w, q, id, p);
    case Live(q, id) =>
      LiveEffect(w, q, id, p);
      if q == p {
        LiveAside(LocalOf(w, p), arrived, id);
      }
  }

  lemma {:induction false} OnlyStartStarts(w: World, s: Step)
    requires Inv(w) && Enabled(w, s) && w.c.phase == NotStarted && After(w, s).c.phase != NotStarted
    ensures s.Start?
  {
  }

  /**
   The documentation promises `messageReceived()` for a live message of every dialog that was
   not asked for. In every run such a peer with a loaded mark is never given anything, every
   live message is added to a pending list that nobody emits; without one the application is
   given exactly the live messages, in order.
   */
  lemma {:induction false} UnrequestedExactly(w: World, steps: seq<Step>, p: Peer)
    requires Initial(w) && IsRun(w, steps)
    requires RunOf(w, steps).c.phase != NotStarted && p !in RunOf(w, steps).requested
    ensures Aside(LocalOf(RunOf(w, steps), p), Arrived(w, steps, p))
    decreases |steps|
  {
    var init, s := steps[..|steps| - 1], steps[|steps| - 1];
    var before, arrived := RunOf(w, init), Arrived(w, init, p);
    RunKeeps(w, init);
    if before.c.phase == NotStarted {
      NothingArrived(w, init, p);
      OnlyStartStarts(before, s);
      StartAside(before, s.peers, p);
    } else {
      RequestedFixed(before, s);
      UnrequestedExactly(w, init, p);
      StepAside(before, s, p, arrived);
    }
  }

  lemma {:induction false} RequestedFixed(w: World, s: Step)
    requires w.c.phase != NotStarted
    ensures After(w, s).requested == w.requested
  {
  }

  lemma {:induction false} RunOfTwo(w: World, s: Step, t: Step)
    ensures RunOf(w, [s, t]) == After(After(w, s), t)
    ensures IsRun(w, [s, t]) <==> Enabled(w, s) && Enabled(After(w, s), t)
  {
    assert [s, t][..1] == [s] && [s][..0] == [];
    assert RunOf(w, [s]) == After(RunOf(w, []), s);
    assert IsRun(w, [s]) <==> IsRun(w, []) && Enabled(RunOf(w, []), s);
  }

  /** So the promise is kept for such a peer if and only if it has no loaded mark or no message arrived. */
  lemma {:induction false} UnrequestedDeliveredIff(w: World, steps: seq<Step>, p: Peer)
    requires Initial(w) && IsRun(w, steps)
    requires RunOf(w, steps).c.phase != NotStarted && p !in RunOf(w, steps).requested
    ensures var l, arrived := LocalOf(RunOf(w, steps), p), Arrived(w, steps, p);
            l.out == arrived <==> l.o.loaded == 0 || arrived == []
  {
    UnrequestedExactly(w, steps, p);
  }

  /** A client that knows one dialog: its ids up to the top message, those above it, and the mark. */
  function OneDialog(p: Peer, ids: set<nat>, hidden: set<nat>, top: nat, loaded: nat): World {
    World(
      Client(NotStarted, false, 0, 0, map[p := Dialog(loaded, [], false)], map[p := top], [], [], 0),
      map[p := Observed(ids, hidden, loaded, [], [], false)], {})
  }

  lemma {:induction false} OneDialogInitial(p: Peer, ids: set<nat>, hidden: set<nat>, top: nat, loaded: nat)
    requires TopOk(top, ids) && Above(hidden, top)
    ensures Initial(OneDialog(p, ids, hidden, top, loaded))
  {
  }

  /** A run that swallows a message: the dialog 5 with the mark 7 is not asked for, the message 8 arrives. */
  lemma {:induction false} UnrequestedLiveLost()
    ensures var w, steps := OneDialog(5, {7}, {8}, 7, 7), [Start([]), Live(5, 8)];
            && Initial(w) && IsRun(w, steps) && RunOf(w, steps).c.phase == Finished
            && RunOf(w, steps).c.signals == [] && RunOf(w, steps).c.requests == []
  {
    var w := OneDialog(5, {7}, {8}, 7, 7);
    OneDialogInitial(5, {7}, {8}, 7, 7);
    RunOfTwo(w, Start([]), Live(5, 8));
    var w1 := After(w, Start([]));
    assert w1.c == Started(w.c, []) && w1.c.phase == Finished;
  }

  /**
   A failed history request is taken for the end of the history: the peer is finished with
   what is pending, and the delivery is complete exactly when no id of the dialog lies
   between the loaded mark and the oldest pending id.
   */
  lemma {:induction false} FailureLosesHistory(w: World, f: Fetch)
    requires Inv(w) && Enabled(w, Fail(f))
    ensures var l, out' := LocalOf(w, f.peer), LocalOf(After(w, Fail(f)), f.peer).out;
            && l.d.pending != [] && out' == l.d.pending
            && ((forall x :: x in l.o.ids && x > l.o.loaded ==> x in out') <==>
                (forall x :: x in l.o.ids && x > l.o.loaded ==> x >= Last(l.d.pending)))
  {
    RequestTaken(w, f);
    PageEffect(Taken(w, f), f.peer, [], f.peer);
    assert LocalOf(After(w, Fail(f)), f.peer).out == LocalOf(Paged(Taken(w, f), f.peer, []), f.peer).out;
  }

  /** A run that loses the older of two messages: the one request of the dialog fails. */
  lemma {:induction false} FailureLosesOne()
    ensures var w, f := OneDialog(5, {2, 3}, {}, 3, 0), Fetch(5, 3, 10, 0);
            var steps := [Start([5]), Fail(f)];
            && Initial(w) && IsRun(w, steps) && RunOf(w, steps).c.phase == Finished
            && RunOf(w, steps).c.signals == [SyncMessages(5, [3])]
  {
    var w, f := OneDialog(5, {2, 3}, {}, 3, 0), Fetch(5, 3, 10, 0);
    OneDialogInitial(5, {2, 3}, {}, 3, 0);
    RunOfTwo(w, Start([5]), Fail(f));
    var w1 := After(w, Start([5]));
    FirstRequest(w, w1, f);
    assert f in w1.c.requests;
    assert Without([f], f) == [];
    assert [3] + NewerThan([], 0) == [3];
  }

  lemma {:induction false} FirstRequest(w: World, w1: World, f: Fetch)
    requires w == OneDialog(5, {2, 3}, {}, 3, 0) && f == Fetch(5, 3, 10, 0) && w1 == After(w, Start([5]))
    ensures w1.c.phase == InProgress && w1.c.requests == [f] && w1.c.signals == [] && w1.c.jobs == 1 && w1.c.limit == 0
    ensures DialogOf(w1.c.dialogs, 5) == Dialog(0, [3], false)
  {
    var c := w.c.(phase := InProgress, jobs := 1);
    assert [5][..0] == [] && TopsProcessed(c, []) == c;
    assert TopsProcessed(c, [5]) == PageProcessed(c, 5, [3]);
    assert NewerThan([3][1..], 0) == [] && [] + NewerThan([3], 0) == [3];
    assert !AllFetched([3], 0) && !LimitReached(0, [3]);
  }

  /** A run that loses three messages: the mark is 7, but the storage has no top for the dialog. */
  lemma {:induction false} UnknownTopLosesAll()
    ensures var w, steps := OneDialog(5, {}, {7, 8, 9}, 0, 7), [Start([5])];
            && Initial(w) && IsRun(w, steps) && RunOf(w, steps).c.phase == Finished
            && RunOf(w, steps).c.signals == [] && RunOf(w, steps).c.requests == []
  {
    var w, steps := OneDialog(5, {}, {7, 8, 9}, 0, 7), [Start([5])];
    OneDialogInitial(5, {}, {7, 8, 9}, 0, 7);
    assert steps[..0] == [] && RunOf(w, []) == w && IsRun(w, []);
    var c := w.c.(phase := InProgress, jobs := 1);
    assert [5][..0] == [] && TopsProcessed(c, []) == c;
    assert TopsProcessed(c, [5]) == PageProcessed(c, 5, [0]);
    assert AllFetched([0], 7) && [] + NewerThan([0], 7) == [];
  }
}
