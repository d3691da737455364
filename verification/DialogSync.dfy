/**
 The message synchronisation of `MessagingApi`: pages of history are fetched backwards
 from the top message of each requested dialog while live messages are held.

 `Client` is the abstract state, the functions below say what one handler does to it,
 and the class `MessagingApi` holds the handlers themselves, proved against the functions.
 */
module DialogSync {
  import opened Arithmetic

  /** `Telegram::Peer`; only equality of peers is ever used. */
  type Peer = nat

  const FETCH_LIMIT: nat := 10

  datatype Phase = NotStarted | InProgress | Finished

  /** `DialogState`: `pending` starts with the newest id and ends with the oldest one. */
  datatype Dialog = Dialog(syncedId: nat, pending: seq<nat>, synced: bool) {
    predicate IsValid() {
      syncedId != 0 || pending != [] || synced
    }
  }

  /** A `getHistory` request in flight. */
  datatype Fetch = Fetch(peer: Peer, offsetId: nat, limit: nat, minId: nat)

  datatype Signal =
    | SyncMessages(peer: Peer, ids: seq<nat>)
    | MessageReceived(peer: Peer, id: nat)

  /**
   The client state that the synchronisation reads and writes. `tops` is the top message id
   kept by `DataStorage` for each dialog, `requests` the history requests in flight,
   `signals` what was emitted so far and `finishes` how often the operation was finished.
   */
  datatype Client = Client(
    phase: Phase,
    noSync: bool,
    limit: nat,
    jobs: int,
    dialogs: map<Peer, Dialog>,
    tops: map<Peer, nat>,
    requests: seq<Fetch>,
    signals: seq<Signal>,
    finishes: nat)

  function DialogOf(dialogs: map<Peer, Dialog>, p: Peer): Dialog {
    if p in dialogs then dialogs[p] else Dialog(0, [], false)
  }

  function TopOf(tops: map<Peer, nat>, p: Peer): nat {
    if p in tops then tops[p] else 0
  }

  function Last(s: seq<nat>): nat
    requires s != []
  {
    s[|s| - 1]
  }

  /** The leading ids of a newest-first page that lie above the synced mark. */
  function NewerThan(ids: seq<nat>, mark: nat): seq<nat> {
    if ids == [] || ids[0] <= mark then [] else [ids[0]] + NewerThan(ids[1..], mark)
  }

  predicate AllFetched(ids: seq<nat>, mark: nat) {
    ids == [] || Last(ids) <= mark || Last(ids) == 1
  }

  predicate LimitReached(limit: nat, pending: seq<nat>) {
    limit != 0 && |pending| >= limit
  }

  function FetchFor(p: Peer, d: Dialog, limit: nat): Fetch
    requires !LimitReached(limit, d.pending)
  {
    Fetch(p,
          if d.pending != [] then Last(d.pending) else 0,
          if limit != 0 then Min(limit - |d.pending|, FETCH_LIMIT) else FETCH_LIMIT,
          if d.syncedId > 0 then d.syncedId - 1 else 0)
  }

  function PeerFinished(c: Client, p: Peer, d: Dialog): Client {
    var mark := if d.pending != [] then d.pending[0] else d.syncedId;
    c.(dialogs := c.dialogs[p := Dialog(mark, [], true)],
       signals := if d.pending != [] then c.signals + [SyncMessages(p, d.pending)] else c.signals,
       jobs := c.jobs - 1)
  }

  function MoreRequested(c: Client, p: Peer, d: Dialog): Client
    requires !LimitReached(c.limit, d.pending)
  {
    c.(dialogs := c.dialogs[p := d], requests := c.requests + [FetchFor(p, d, c.limit)])
  }

  /** What one page of ids does to the dialog: finish the peer or ask for more. */
  function PageProcessed(c: Client, p: Peer, ids: seq<nat>): Client {
    var d := DialogOf(c.dialogs, p);
    var d' := d.(pending := d.pending + NewerThan(ids, d.syncedId));
    if AllFetched(ids, d.syncedId) || LimitReached(c.limit, d'.pending)
    then PeerFinished(c, p, d')
    else MoreRequested(c, p, d')
  }

  function FinishChecked(c: Client): Client {
    if c.jobs == 0 then c.(phase := Finished, finishes := c.finishes + 1) else c
  }

  function TopsProcessed(c: Client, peers: seq<Peer>): Client {
    if peers == [] then c
    else
      var before := TopsProcessed(c, peers[..|peers| - 1]);
      var p := peers[|peers| - 1];
      PageProcessed(before, p, [TopOf(c.tops, p)])
  }

  /** `syncPeers`: refused unless the sync was never started. */
  function Started(c: Client, peers: seq<Peer>): Client {
    if c.phase != NotStarted then c
    else FinishChecked(TopsProcessed(c.(phase := InProgress, jobs := |peers|), peers))
  }

  /** The requests in flight once `f` was answered. */
  function Without(requests: seq<Fetch>, f: Fetch): seq<Fetch> {
    if requests == [] then []
    else if requests[0] == f then requests[1..]
    else [requests[0]] + Without(requests[1..], f)
  }

  function HistoryReceived(c: Client, f: Fetch, ids: seq<nat>): Client {
    FinishChecked(PageProcessed(c.(requests := Without(c.requests, f)), f.peer, ids))
  }

  /** Whether a live message is kept from the application, dropped or held. */
  predicate Holds(c: Client, p: Peer) {
    var d := DialogOf(c.dialogs, p);
    !c.noSync && (c.phase == NotStarted || (!d.synced && d.IsValid()))
  }

  /** The dialog table after a live message was filtered. */
  function Filtered(c: Client, p: Peer, id: nat): map<Peer, Dialog> {
    var d := DialogOf(c.dialogs, p);
    if c.noSync || c.phase == NotStarted then c.dialogs
    else if Holds(c, p) then c.dialogs[p := d.(pending := [id] + d.pending)]
    else c.dialogs[p := Dialog(id, d.pending, true)]
  }

  function MessageProcessed(c: Client, p: Peer, id: nat): Client {
    c.(dialogs := Filtered(c, p, id),
       signals := if Holds(c, p) then c.signals else c.signals + [MessageReceived(p, id)])
  }

  /** An `UpdateNewMessage`: the storage drops what is not above the dialog's top message. */
  function UpdateProcessed(c: Client, p: Peer, id: nat): Client {
    if TopOf(c.tops, p) >= id then c.(tops := c.tops[p := TopOf(c.tops, p)])
    else MessageProcessed(c.(tops := c.tops[p := id]), p, id)
  }

  lemma {:induction false} NewerThanStep(ids: seq<nat>, mark: nat, i: nat)
    requires i < |ids| && ids[i] > mark
    ensures NewerThan(ids[i..], mark) == [ids[i]] + NewerThan(ids[i + 1..], mark)
  {
    assert ids[i..][1..] == ids[i + 1..];
  }

  lemma {:induction false} UpdateTwice(dialogs: map<Peer, Dialog>, p: Peer, a: Dialog, b: Dialog)
    ensures dialogs[p := a][p := b] == dialogs[p := b]
  {
  }

  /** The handlers of `MessagingApiPrivate` together with the tops kept by `DataInternalApi`. */
  class MessagingApi {
    var syncState: Phase
    var noSync: bool
    var syncLimit: nat
    var syncJobs: int
    var dialogStates: map<Peer, Dialog>
    var topMessages: map<Peer, nat>
    var requests: seq<Fetch>
    var signals: seq<Signal>
    var finishes: nat

    ghost function View(): Client
      reads this
    {
      Client(syncState, noSync, syncLimit, syncJobs, dialogStates, topMessages, requests, signals, finishes)
    }

    constructor (noSync: bool, limit: nat, loaded: map<Peer, Dialog>, tops: map<Peer, nat>)
      ensures View() == Client(NotStarted, noSync, limit, 0, loaded, tops, [], [], 0)
    {
      syncState, this.noSync, syncLimit, syncJobs := NotStarted, noSync, limit, 0;
      dialogStates, topMessages, requests, signals, finishes := loaded, tops, [], [], 0;
    }

    method EnsureDialogSyncState(p: Peer) returns (d: Dialog)
      modifies this`dialogStates
      ensures d == DialogOf(old(dialogStates), p)
      ensures dialogStates == old(dialogStates)[p := d]
    {
      if p !in dialogStates {
        dialogStates := dialogStates[p := Dialog(0, [], false)];
      }
      d := dialogStates[p];
    }

    method OnPeerSyncFinished(p: Peer)
      requires p in dialogStates
      modifies this
      ensures View() == PeerFinished(old(View()), p, old(dialogStates[p]))
    {
      var state := dialogStates[p];
      state := state.(synced := true);
      if state.pending != [] {
        state := state.(syncedId := state.pending[0]);
        signals := signals + [SyncMessages(p, state.pending)];
        state := state.(pending := []);
      }
      dialogStates := dialogStates[p := state];
      syncJobs := syncJobs - 1;
    }

    method SyncMorePeerMessages(p: Peer)
      requires p in dialogStates && !LimitReached(syncLimit, dialogStates[p].pending)
      modifies this`requests
      ensures requests == old(requests) + [FetchFor(p, dialogStates[p], syncLimit)]
    {
      var state := dialogStates[p];
      var options := Fetch(p, 0, 0, 0);
      if state.pending != [] {
        options := options.(offsetId := Last(state.pending));
      }
      if syncLimit != 0 {
        var room: nat := syncLimit - |state.pending|; // the subtraction never underflows
        options := options.(limit := Min(room, FETCH_LIMIT));
      } else {
        options := options.(limit := FETCH_LIMIT);
      }
      if state.syncedId > 0 {
        options := options.(minId := state.syncedId - 1);
      }
      requests := requests + [options];
    }

    /** The loop of `processNewSyncMessages`: append ids until one is not above the mark. */
    static method AppendNewer(before: Dialog, ids: seq<nat>) returns (state: Dialog)
      ensures state == before.(pending := before.pending + NewerThan(ids, before.syncedId))
    {
      state := before;
      var i := 0;
      while i < |ids|
        invariant 0 <= i <= |ids| && state == before.(pending := state.pending)
        invariant state.pending + NewerThan(ids[i..], before.syncedId) ==
                  before.pending + NewerThan(ids, before.syncedId)
      {
        if ids[i] <= state.syncedId {
          break;
        }
        NewerThanStep(ids, before.syncedId, i);
        state := state.(pending := state.pending + [ids[i]]);
        i := i + 1;
      }
    }

    method ProcessNewSyncMessages(p: Peer, ids: seq<nat>)
      modifies this
      ensures View() == PageProcessed(old(View()), p, ids)
    {
      var state := EnsureDialogSyncState(p);
      state := AppendNewer(state, ids);
      UpdateTwice(old(dialogStates), p, dialogStates[p], state);
      dialogStates := dialogStates[p := state];
      UpdateTwice(old(dialogStates), p, state, PageProcessed(old(View()), p, ids).dialogs[p]);
      var allMessagesFetched := ids == [] || Last(ids) <= state.syncedId || Last(ids) == 1;
      var limitIsReached := syncLimit != 0 && |state.pending| >= syncLimit;
      if allMessagesFetched || limitIsReached {
        OnPeerSyncFinished(p);
        return;
      }
      SyncMorePeerMessages(p);
    }

    method CheckIfSyncFinished()
      modifies this`syncState, this`finishes
      ensures View() == FinishChecked(old(View()))
    {
      if syncJobs == 0 {
        syncState := Finished;
        finishes := finishes + 1;
      }
    }

    method SyncPeers(peers: seq<Peer>) returns (accepted: bool)
      modifies this
      ensures accepted == (old(syncState) == NotStarted)
      ensures View() == Started(old(View()), peers)
    {
      if syncState != NotStarted {
        return false;
      }
      syncState := InProgress;
      syncJobs := |peers|;
      ghost var start := View();
      for i := 0 to |peers|
        invariant View() == TopsProcessed(start, peers[..i])
        invariant topMessages == start.tops
      {
        assert peers[..i + 1][..i] == peers[..i];
        var top := if peers[i] in topMessages then topMessages[peers[i]] else 0;
        ProcessNewSyncMessages(peers[i], [top]);
      }
      assert peers[..|peers|] == peers;
      CheckIfSyncFinished();
      return true;
    }

    method OnSyncHistoryReceived(f: Fetch, ids: seq<nat>)
      modifies this
      ensures View() == HistoryReceived(old(View()), f, ids)
    {
      requests := Without(requests, f);
      ProcessNewSyncMessages(f.peer, ids);
      CheckIfSyncFinished();
    }

    method SyncAndFilterMessage(p: Peer, id: nat) returns (held: bool)
      modifies this`dialogStates
      ensures held == Holds(old(View()), p)
      ensures dialogStates == Filtered(old(View()), p, id)
    {
      if noSync {
        return false;
      }
      if syncState == NotStarted {
        return true;
      }
      var state := EnsureDialogSyncState(p);
      if !state.IsValid() {
        state := state.(synced := true);
      }
      if !state.synced {
        state := state.(pending := [id] + state.pending);
        dialogStates := dialogStates[p := state];
        assert dialogStates == old(dialogStates)[p := state];
        return true;
      }
      state := state.(syncedId := id);
      dialogStates := dialogStates[p := state];
      assert dialogStates == old(dialogStates)[p := state];
      return false;
    }

    method OnMessageReceived(p: Peer, id: nat)
      modifies this
      ensures View() == MessageProcessed(old(View()), p, id)
    {
      if !noSync {
        var held := SyncAndFilterMessage(p, id);
        if held {
          return;
        }
      }
      signals := signals + [MessageReceived(p, id)];
    }

    /** `UpdatesInternalApi::processUpdate` for a new message, through `processNewMessage`. */
    method ProcessUpdate(p: Peer, id: nat)
      modifies this
      ensures View() == UpdateProcessed(old(View()), p, id)
    {
      if p !in topMessages {
        topMessages := topMessages[p := 0];
      }
      if topMessages[p] >= id {
        return;
      }
      topMessages := topMessages[p := id];
      assert topMessages == old(topMessages)[p := id];
      OnMessageReceived(p, id);
    }
  }
}
