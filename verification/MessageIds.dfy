/**
 Message identifiers: timestamps with two stamped low bits (`Utils::formatTimeStamp`,
 the `newMessageId` of both ends) made unique per transport (`BaseTransport::getNewMessageId`).
 Machine words are naturals below 2^64; a sum that leaves that range wraps.
 */
module MessageIds {
  import opened Arithmetic

  const MAX_MSEC: nat := TWO32 - 1
  const LOW24: nat := 0x100_0000
  const BUMP: nat := 0x1230

  /** Client messages, answers of the server and messages the server starts by itself. */
  datatype SendMode = FromClient | ServerReply | ServerInitiative {
    function LowBits(): nat {
      match this
      case FromClient => 0
      case ServerReply => 1
      case ServerInitiative => 3
    }
  }

  // ---------------------------------------------------------------- timestamps

  function FormatTimeStamp(t: nat): nat {
    (t / 1000 * TWO32 + MAX_MSEC / 1000 * (t % 1000)) % TWO64
  }

  method TimeStampToMSecsSinceEpoch(ts: nat) returns (t: nat)
    ensures t == TimeOf(ts)
  {
    var secs := ts / TWO32;
    var msecs := ts % TWO32;
    msecs := msecs * 10000 / MAX_MSEC;
    if msecs % 10 >= 5 {
      msecs := msecs + 5;
    }
    msecs := msecs / 10;
    t := secs * 1000 + msecs;
  }

  /** Seconds plus the fraction in milliseconds, rounded half up on the fourth digit. */
  function TimeOf(ts: nat): nat {
    var tenths := ts % TWO32 * 10000 / MAX_MSEC;
    ts / TWO32 * 1000 + (if tenths % 10 >= 5 then tenths / 10 + 1 else tenths / 10)
  }

  function Stamped(ts: nat, mode: SendMode): nat {
    ts - ts % 4 + mode.LowBits()
  }

  lemma StampResidue(ts: nat, mode: SendMode)
    requires ts < TWO64
    ensures Stamped(ts, mode) < TWO64 && Stamped(ts, mode) % 4 == mode.LowBits()
    ensures Stamped(ts, mode) % 4 == if mode.FromClient? then 0 else if mode.ServerReply? then 1 else 3
    ensures Stamped(ts, mode) / 4 == ts / 4
  {
    Div(4, ts / 4, mode.LowBits());
    assert Stamped(ts, mode) == ts / 4 * 4 + mode.LowBits();
  }

  lemma SplitTimeStamp(t: nat)
    requires t < 1000 * TWO32
    ensures FormatTimeStamp(t) == t / 1000 * TWO32 + 4294967 * (t % 1000)
    ensures FormatTimeStamp(t) / TWO32 == t / 1000 && FormatTimeStamp(t) % TWO32 == 4294967 * (t % 1000)
  {
  }

  /** Later times have strictly greater timestamps. */
  lemma TimeStampsIncrease(t: nat, u: nat)
    requires t < u < 1000 * TWO32
    ensures FormatTimeStamp(t) < FormatTimeStamp(u)
  {
    SplitTimeStamp(t);
    SplitTimeStamp(u);
  }

  /** Also with what is added to an id without low bits, the fraction is rounded to the same millisecond. */
  lemma FractionRecovered(m: nat, low: nat)
    requires m < 1000 && low < 4 + BUMP
    ensures var x := 4294967 * m;
            var tenths := (x - x % 4 + low) * 10000 / MAX_MSEC;
            m == if tenths % 10 >= 5 then tenths / 10 + 1 else tenths / 10
  {
    var x := 4294967 * m;
    var y := x - x % 4 + low;
    assert x - 3 <= y <= x + 3 + BUMP;
    var tenths := y * 10000 / MAX_MSEC;
    assert tenths * MAX_MSEC <= y * 10000 < (tenths + 1) * MAX_MSEC;
    assert 10 * m - 1 <= tenths <= 10 * m;
  }

  lemma StampSplits(secs: nat, x: nat, mode: SendMode)
    requires x + 4 < TWO32
    ensures Stamped(secs * TWO32 + x, mode) / TWO32 == secs
    ensures Stamped(secs * TWO32 + x, mode) % TWO32 == x - x % 4 + mode.LowBits()
  {
    var ts := secs * TWO32 + x;
    Div(4, secs * 0x4000_0000 + x / 4, x % 4);
    assert ts == (secs * 0x4000_0000 + x / 4) * 4 + x % 4;
    Div(TWO32, secs, x - x % 4 + mode.LowBits());
    assert Stamped(ts, mode) == secs * TWO32 + (x - x % 4 + mode.LowBits());
  }

  /** The time is recovered exactly, whichever end stamped the two low bits. */
  lemma TimeRecovered(t: nat, mode: SendMode)
    requires t < 1000 * TWO32
    ensures TimeOf(Stamped(FormatTimeStamp(t), mode)) == t
  {
    SplitTimeStamp(t);
    StampSplits(t / 1000, 4294967 * (t % 1000), mode);
    FractionRecovered(t % 1000, mode.LowBits());
  }

  // ---------------------------------------------------------------- uniqueness on one transport

  /** The identifier given out after `last` when the clock proposes `supposed`. */
  function NextId(last: nat, supposed: nat): nat {
    Marked(Unique(last, supposed))
  }

  /** Above `last`, with the residue of `supposed`. */
  function Unique(last: nat, supposed: nat): nat {
    var base := last - last % 4 + supposed % 4;
    if supposed > last then supposed else if base > last then base else (base + 4) % TWO64
  }

  /** Without 24 zero low bits. */
  function Marked(id: nat): nat {
    if id % LOW24 == 0 then (id + BUMP) % TWO64 else id
  }

  /** The only proposals that wrap around the end of the 64-bit range. */
  predicate WrapsAround(last: nat, supposed: nat) {
    last >= TWO64 - 4 && supposed <= last && supposed % 4 <= last % 4
  }

  lemma UniqueResidue(last: nat, supposed: nat)
    requires last < TWO64 && supposed < TWO64
    ensures Unique(last, supposed) < TWO64 && Unique(last, supposed) % 4 == supposed % 4
    ensures Unique(last, supposed) > last <==> !WrapsAround(last, supposed)
    ensures WrapsAround(last, supposed) ==> Unique(last, supposed) < 4
  {
    var r := supposed % 4;
    Div(4, last / 4, r);
    Div(4, last / 4 + 1, r);
    assert last - last % 4 + r == last / 4 * 4 + r;
    assert last - last % 4 + r + 4 == (last / 4 + 1) * 4 + r;
  }

  lemma MarkedResidue(id: nat)
    requires id < TWO64
    ensures id <= Marked(id) < TWO64 && Marked(id) % 4 == id % 4 && Marked(id) % LOW24 != 0
    ensures Marked(id) <= id + BUMP
  {
    if id % LOW24 == 0 {
      Div(LOW24, id / LOW24, BUMP);
      assert id / LOW24 * LOW24 <= TWO64 - LOW24;
      Div(4, id / 4 + 0x48c, id % 4);
      assert id + BUMP == (id / 4 + 0x48c) * 4 + id % 4;
    }
  }

  /**
   For every clock, also one that goes backwards: the identifier keeps the proposed residue
   modulo four, never has 24 zero low bits, and exceeds the last one if and only if the
   64-bit range is not exhausted.
   */
  lemma NextIdUnique(last: nat, supposed: nat)
    requires last < TWO64 && supposed < TWO64
    ensures NextId(last, supposed) < TWO64
    ensures NextId(last, supposed) % 4 == supposed % 4
    ensures NextId(last, supposed) % LOW24 != 0
    ensures NextId(last, supposed) > last <==> !WrapsAround(last, supposed)
  {
    UniqueResidue(last, supposed);
    MarkedResidue(Unique(last, supposed));
  }

  /** The identifier follows the clock whenever that is ahead, and else stays just above the last one. */
  lemma FollowsClock(last: nat, supposed: nat)
    requires last < TWO64 && supposed < TWO64
    ensures supposed > last ==> supposed <= NextId(last, supposed) <= supposed + BUMP
    ensures supposed <= last && !WrapsAround(last, supposed) ==> last < NextId(last, supposed) <= last + 4 + BUMP
  {
    UniqueResidue(last, supposed);
    MarkedResidue(Unique(last, supposed));
    if supposed <= last && !WrapsAround(last, supposed) {
      UniqueNear(last, supposed);
    }
  }

  lemma UniqueNear(last: nat, supposed: nat)
    requires supposed <= last < TWO64 && !WrapsAround(last, supposed)
    ensures Unique(last, supposed) <= last + 4
  {
    var base := last - last % 4 + supposed % 4;
    assert base <= last + 3;
    assert base <= last <==> supposed % 4 <= last % 4;
  }

  lemma {:induction false} TimeOfBumped(secs: nat, x: nat)
    requires x < TWO32
    ensures (secs * TWO32 + x) / TWO32 == secs && (secs * TWO32 + x) % TWO32 == x
  {
    Div(TWO32, secs, x);
  }

  /** If the clock proposes an identifier above the last one, the time can be read off the one given out. */
  lemma {:induction false} ClockReadOff(last: nat, t: nat, mode: SendMode)
    requires last < TWO64 && t < 1000 * TWO32 && Stamped(FormatTimeStamp(t), mode) > last
    ensures TimeOf(NextId(last, Stamped(FormatTimeStamp(t), mode))) == t
  {
    SplitTimeStamp(t);
    var secs, x := t / 1000, 4294967 * (t % 1000);
    StampSplits(secs, x, mode);
    var id := Stamped(FormatTimeStamp(t), mode);
    var low := if id % LOW24 == 0 then mode.LowBits() + BUMP else mode.LowBits();
    StampResidue(FormatTimeStamp(t), mode);
    MarkedResidue(id);
    assert NextId(last, id) == Marked(id);
    assert id == secs * TWO32 + (x - x % 4 + mode.LowBits());
    BumpedSum(id, secs, x, mode.LowBits(), low);
    FractionRecovered(t % 1000, low);
    TimeOfBumped(secs, x - x % 4 + low);
  }

  lemma {:induction false} BumpedSum(id: nat, secs: nat, x: nat, bits: nat, low: nat)
    requires id == secs * TWO32 + (x - x % 4 + bits) && bits < 4 && id < TWO64 && x + 4 + BUMP < TWO32
    requires low == (if id % LOW24 == 0 then bits + BUMP else bits)
    ensures Marked(id) == secs * TWO32 + (x - x % 4 + low)
  {
    if id % LOW24 == 0 {
      MarkedResidue(id);
      assert id / LOW24 * LOW24 <= TWO64 - LOW24;
      assert (id + BUMP) % TWO64 == id + BUMP;
    }
  }

  /** All identifiers given out for a sequence of proposals. */
  function Ids(last: nat, proposals: seq<nat>): seq<nat>
    decreases |proposals|
  {
    if proposals == [] then []
    else
      var id := NextId(last, proposals[0]);
      [id] + Ids(id, proposals[1..])
  }

  /** No proposal of the sequence wraps around. */
  predicate InRange(last: nat, proposals: seq<nat>)
    decreases |proposals|
  {
    proposals == [] ||
    (proposals[0] < TWO64 && !WrapsAround(last, proposals[0]) && InRange(NextId(last, proposals[0]), proposals[1..]))
  }

  /** Successive identifiers of one transport strictly increase and keep their residues. */
  lemma {:induction false} IdsIncrease(last: nat, proposals: seq<nat>)
    requires last < TWO64 && InRange(last, proposals)
    ensures var ids := Ids(last, proposals);
            && |ids| == |proposals|
            && (forall i :: 0 <= i < |ids| ==> ids[i] > last && ids[i] % 4 == proposals[i] % 4 && ids[i] % LOW24 != 0)
            && (forall i, j :: 0 <= i < j < |ids| ==> ids[i] < ids[j])
    decreases |proposals|
  {
    if proposals != [] {
      NextIdUnique(last, proposals[0]);
      IdsIncrease(NextId(last, proposals[0]), proposals[1..]);
    }
  }

  class Transport {
    var lastMessageId: nat

    constructor ()
      ensures lastMessageId == 0
    {
      lastMessageId := 0;
    }

    method GetNewMessageId(supposed: nat) returns (id: nat)
      requires lastMessageId < TWO64 && supposed < TWO64
      modifies this
      ensures id == lastMessageId == NextId(old(lastMessageId), supposed)
      ensures lastMessageId < TWO64 && id % 4 == supposed % 4 && id % LOW24 != 0
      ensures id > old(lastMessageId) <==> !WrapsAround(old(lastMessageId), supposed)
      ensures supposed > old(lastMessageId) ==> supposed <= id <= supposed + BUMP
    {
      NextIdUnique(lastMessageId, supposed);
      FollowsClock(lastMessageId, supposed);
      var moduleFour := supposed % 4;
      var result := supposed;
      if result <= lastMessageId {
        result := lastMessageId - lastMessageId % 4 + moduleFour;
        if result <= lastMessageId {
          result := (result + 4) % TWO64;
        }
      }
      if result % LOW24 == 0 {
        result := (result + BUMP) % TWO64;
      }
      lastMessageId := result;
      return lastMessageId;
    }

    /** `newMessageId` of either end, with the clock at `now` milliseconds. */
    method NewMessageId(now: nat, mode: SendMode) returns (id: nat)
      requires lastMessageId < TWO64
      modifies this
      ensures id == lastMessageId == NextId(old(lastMessageId), Stamped(FormatTimeStamp(now), mode)) < TWO64
      ensures id % 4 == mode.LowBits() && id % LOW24 != 0
      ensures now < 1000 * TWO32 && Stamped(FormatTimeStamp(now), mode) > old(lastMessageId) ==> TimeOf(id) == now
    {
      if now < 1000 * TWO32 && Stamped(FormatTimeStamp(now), mode) > lastMessageId {
        ClockReadOff(lastMessageId, now, mode);
      }
      var ts := FormatTimeStamp(now);
      StampResidue(ts, mode);
      ts := ts - ts % 4 + mode.LowBits();
      id := GetNewMessageId(ts);
    }
  }
}
