/** The queue's wait-time average (PlayerInvitedToBGUpdateAverageWaitTime and GetAverageQueueWaitTime
    of src/game/BattleGround/BattleGroundQueue.cpp): a ring of ten slots with a running sum, and what
    it has to do with the last ten waits. */
module WaitTimes {
  import opened QueueModel

  const SLOTS := 10          // COUNT_OF_PLAYERS_TO_AVERAGE_WAIT_TIME
  const RINGS := 32          // one for each team index and bracket

  // ---------------------------------------------------------------- waiting times

  /** getMSTimeDiff: the clock wraps around. */
  function TimeDiff(from: Word, to: Word): (d: Word) {
    if from > to then 0xFFFFFFFF - from + to else to - from
  }

  /** It is the time passed on the wrapping clock, but for one millisecond when the clock has wrapped. */
  lemma TimeDiffExactly(from: Word, passed: Word)
    ensures var to := (from + passed) % WORD;
            TimeDiff(from, to) == if from + passed < WORD then passed else passed - 1
  {
  }

  /** Whose ring a group's wait goes into: unrated arena teams share the alliance's, rated ones the
      horde's. */
  function RingOf(info: GroupQueueInfo, bracket: nat): (k: nat)
    requires bracket < BRACKETS
    ensures k < RINGS
    ensures k == bracket + if info.groupTeam == HORDE && info.arenaType == 0 then 16 else if info.isRated && info.arenaType != 0 then 16 else 0
  {
    var team := if info.arenaType == 0 then info.groupTeam else if info.isRated then HORDE else ALLIANCE;
    TeamIndex(team) * BRACKETS + bracket
  }

  // ---------------------------------------------------------------- the last ten waits

  function Sum(s: seq<nat>): nat {
    if s == [] then 0 else Sum(s[..|s| - 1]) + s[|s| - 1]
  }

  function LastTen(history: seq<nat>): seq<nat> {
    if |history| < SLOTS then history else history[|history| - SLOTS..]
  }

  /** The wait in slot k: the latest one whose turn it was, or 0 if there has been none. */
  function InSlot(history: seq<nat>, k: nat): nat
    requires k < SLOTS
  {
    if |history| <= k then 0
    else
      var n := |history| - 1;
      history[n - (n - k) % SLOTS]
  }

  function Slots(history: seq<nat>): (s: seq<nat>)
    ensures |s| == SLOTS
  {
    seq(SLOTS, k requires 0 <= k < SLOTS => InSlot(history, k))
  }

  lemma InSlotNext(history: seq<nat>, wait: nat, k: nat)
    requires k < SLOTS
    ensures InSlot(history + [wait], k) == if k == |history| % SLOTS then wait else InSlot(history, k)
  {
    var n := |history|;
    if n >= k {
      TurnsAgo(n, k, (n - k) / SLOTS, (n - k) % SLOTS);
    } else {
      Remainder(n, 0, n);
    }
  }

  lemma Remainder(n: nat, turns: nat, r: nat)
    requires n == SLOTS * turns + r && r < SLOTS
    ensures n % SLOTS == r
  {
  }

  /** Slot k was written d waits ago. */
  lemma TurnsAgo(n: nat, k: nat, turns: nat, d: nat)
    requires k < SLOTS && d < SLOTS && n == k + SLOTS * turns + d
    ensures n % SLOTS == k <==> d == 0
    ensures d > 0 ==> n - 1 >= k && (n - 1 - k) % SLOTS == d - 1
  {
    if k + d < SLOTS { Remainder(n, turns, k + d); } else { Remainder(n, turns + 1, k + d - SLOTS); }
    if d > 0 { Remainder(n - 1 - k, turns, d - 1); }
  }

  /** The next wait replaces the one in the slot whose turn it is. */
  lemma SlotsNext(history: seq<nat>, wait: nat)
    ensures Slots(history + [wait]) == Slots(history)[|history| % SLOTS := wait]
  {
    forall k | 0 <= k < SLOTS ensures Slots(history + [wait])[k] == Slots(history)[|history| % SLOTS := wait][k] {
      InSlotNext(history, wait, k);
    }
  }

  lemma {:induction false} SumUpdate(s: seq<nat>, k: nat, n: nat)
    requires k < |s|
    ensures Sum(s[k := n]) + s[k] == Sum(s) + n
  {
    var t := s[..|s| - 1];
    if k == |s| - 1 {
      assert s[k := n][..k] == t;
    } else {
      SumUpdate(t, k, n);
      assert s[k := n][..|s| - 1] == t[k := n];
    }
  }

  lemma SumNext(s: seq<nat>, n: nat)
    ensures Sum(s + [n]) == Sum(s) + n
  {
    assert (s + [n])[..|s|] == s;
  }

  lemma {:induction false} SumFront(s: seq<nat>)
    requires s != []
    ensures Sum(s) == s[0] + Sum(s[1..])
  {
    if |s| > 1 {
      SumFront(s[..|s| - 1]);
      assert s[..|s| - 1][1..] == s[1..][..|s| - 2];
    }
  }

  lemma {:induction false} SumZeros(n: nat)
    ensures Sum(seq(n, i => 0)) == 0
  {
    if n > 0 {
      SumZeros(n - 1);
      assert seq(n, i => 0)[..n - 1] == seq(n - 1, i => 0);
    }
  }

  /** The slots hold the last ten waits: together they come to the same. */
  lemma {:induction false} SlotsAreLastTen(history: seq<nat>)
    ensures Sum(Slots(history)) == Sum(LastTen(history))
  {
    if history == [] {
      SumZeros(SLOTS);
      assert Slots([]) == seq(SLOTS, i => 0);
    } else {
      var before, wait := history[..|history| - 1], history[|history| - 1];
      assert history == before + [wait];
      SlotsAreLastTen(before);
      SlotsNext(before, wait);
      SumUpdate(Slots(before), |before| % SLOTS, wait);
      TurnIsOldest(before);
      SumNext(LastTen(before), wait);
      LastTenNext(before, wait);
    }
  }

  /** Once all slots are filled, the slot whose turn it is holds the oldest of the last ten. */
  lemma TurnIsOldest(history: seq<nat>)
    ensures Slots(history)[|history| % SLOTS] == if |history| < SLOTS then 0 else LastTen(history)[0]
  {
    var n := |history| - 1;
    if |history| >= SLOTS {
      var k := |history| % SLOTS;
      assert (n - k) % SLOTS == SLOTS - 1;
    }
  }

  lemma LastTenNext(history: seq<nat>, wait: nat)
    ensures Sum(LastTen(history + [wait])) == Sum(LastTen(history)) + wait - (if |history| < SLOTS then 0 else LastTen(history)[0])
  {
    var next := LastTen(history + [wait]);
    SumNext(LastTen(history), wait);
    if |history| < SLOTS {
      assert next == LastTen(history) + [wait];
    } else {
      var ten := LastTen(history);
      assert next == ten[1..] + [wait];
      SumNext(ten[1..], wait);
      SumFront(ten);
    }
  }

  // ---------------------------------------------------------------- the average

  /** What is reported after these waits. */
  function Reported(history: seq<nat>): nat {
    if Slots(history)[SLOTS - 1] != 0 then Sum(LastTen(history)) % WORD / SLOTS else 0
  }

  /** Nothing is reported before there have been ten waits. */
  lemma NothingBeforeTen(history: seq<nat>)
    requires |history| < SLOTS
    ensures Reported(history) == 0
  {
  }

  /** From then on, and while ten waits do not add up to more than a 32-bit number, the mean of the
      last ten is reported, rounded down, exactly if the wait in the last slot was not zero or the
      mean rounds to nothing anyway. */
  lemma ReportedIsMeanExactly(history: seq<nat>)
    requires |history| >= SLOTS && Sum(LastTen(history)) < WORD
    ensures Reported(history) == Sum(LastTen(history)) / SLOTS <==>
            InSlot(history, SLOTS - 1) != 0 || Sum(LastTen(history)) < SLOTS
  {
    assert Slots(history)[SLOTS - 1] == InSlot(history, SLOTS - 1);
  }

  /** Waits that are never zero are always averaged. */
  lemma PositiveWaitsAveraged(history: seq<nat>)
    requires |history| >= SLOTS && Sum(LastTen(history)) < WORD && forall i :: 0 <= i < |history| ==> history[i] > 0
    ensures Reported(history) == Sum(LastTen(history)) / SLOTS
  {
    ReportedIsMeanExactly(history);
  }

  /** Nine waits of a second each and then none at all: nothing is reported, though the mean is 900 ms. */
  lemma NoWaitHidesAverage()
    ensures var history := seq(9, i => 1000) + [0]; Reported(history) == 0 && Sum(LastTen(history)) / SLOTS == 900
  {
    var nine := seq(9, i => 1000);
    assert LastTen(nine + [0]) == nine + [0] && InSlot(nine + [0], 9) == 0;
    SumNext(nine, 0);
    SumEven(9, 1000);
  }

  lemma {:induction false} SumEven(n: nat, wait: nat)
    ensures Sum(seq(n, i => wait)) == n * wait
  {
    if n > 0 {
      SumEven(n - 1, wait);
      assert seq(n, i => wait)[..n - 1] == seq(n - 1, i => wait);
    }
  }

  // ---------------------------------------------------------------- the ring

  /** The ring of one team and bracket. `history` lists all waits ever recorded. */
  class WaitTimeRing {
    const waits: array<Word>
    var sum: Word
    var last: nat
    ghost var history: seq<nat>

    ghost predicate Valid()
      reads this, waits
    {
      && waits.Length == SLOTS && last == |history| % SLOTS
      && waits[..] == Slots(history) && sum == Sum(Slots(history)) % WORD
    }

    constructor ()
      ensures Valid() && history == [] && fresh(waits)
    {
      waits := new Word[SLOTS](i => 0);
      sum, last, history := 0, 0, [];
      new;
      SumZeros(SLOTS);
      assert Slots([]) == seq(SLOTS, i => 0);
    }

    method Record(wait: Word)
      requires Valid()
      modifies this, waits
      ensures Valid() && history == old(history) + [wait]
    {
      hide Slots, Sum, LastTen, InSlot;
      assert Slots(history)[last] == waits[last];
      SlotsNext(history, wait);
      SumUpdate(Slots(history), last, wait);
      WrappedNext(Sum(Slots(history)), waits[last], wait, Sum(Slots(history + [wait])));
      sum := (sum + WORD - waits[last]) % WORD;
      waits[last] := wait;
      sum := (sum + wait) % WORD;
      last := last + 1;
      last := last % SLOTS;
      history := history + [wait];
      TurnNext(|history| - 1);
    }

    method Average() returns (r: nat)
      requires Valid()
      ensures r == Reported(history)
    {
      SlotsAreLastTen(history);
      if waits[SLOTS - 1] != 0 { return sum / SLOTS; }
      return 0;
    }
  }

  /** All the rings of a queue. */
  class QueueWaitTimes {
    const rings: seq<WaitTimeRing>

    ghost predicate Valid()
      reads this, rings, Arrays()
    {
      && |rings| == RINGS
      && (forall i :: 0 <= i < RINGS ==> rings[i].Valid())
      && forall i, j :: 0 <= i < j < RINGS ==> rings[i] != rings[j] && rings[i].waits != rings[j].waits
    }

    ghost function Arrays(): set<object>
    {
      set i | 0 <= i < |rings| :: rings[i].waits
    }

    /** All waits ever recorded in each ring. */
    ghost function Histories(): seq<seq<nat>>
      reads rings
    {
      seq(|rings|, i requires 0 <= i < |rings| reads rings => rings[i].history)
    }

    constructor ()
      ensures Valid() && Histories() == seq(RINGS, i => [])
    {
      var made: seq<WaitTimeRing> := [];
      for n := 0 to RINGS
        invariant |made| == n
        invariant forall i :: 0 <= i < n ==> made[i].Valid() && made[i].history == [] && fresh(made[i]) && fresh(made[i].waits)
        invariant forall i, j :: 0 <= i < j < n ==> made[i] != made[j] && made[i].waits != made[j].waits
      {
        var ring := new WaitTimeRing();
        made := made + [ring];
      }
      rings := made;
    }

    /** A player of the group is invited: his wait goes into the group's ring and into no other. */
    method PlayerInvited(info: GroupQueueInfo, bracket: nat, now: Word)
      requires Valid() && bracket < BRACKETS && info.joinTime < WORD
      modifies rings, Arrays()
      ensures Valid()
      ensures var k := RingOf(info, bracket);
              Histories() == old(Histories())[k := old(Histories())[k] + [TimeDiff(info.joinTime, now)]]
    {
      var k := RingOf(info, bracket);
      rings[k].Record(TimeDiff(info.joinTime, now));
    }

    method GetAverage(info: GroupQueueInfo, bracket: nat) returns (r: nat)
      requires Valid() && bracket < BRACKETS
      ensures r == Reported(Histories()[RingOf(info, bracket)])
    {
      r := rings[RingOf(info, bracket)].Average();
    }
  }

  lemma TurnNext(n: nat)
    ensures (n % SLOTS + 1) % SLOTS == (n + 1) % SLOTS
  {
  }

  lemma WrappedNext(total: nat, gone: Word, wait: Word, next: nat)
    requires next + gone == total + wait
    ensures ((total % WORD + WORD - gone) % WORD + wait) % WORD == next % WORD
  {
    var q, r := total / WORD, total % WORD;
    var kept := (r + WORD - gone) % WORD;
    if gone <= r { Shifted(r - gone, r + WORD - gone, 1); } else { Shifted(r + WORD - gone, r + WORD - gone, 0); }
    assert kept == if gone <= r then r - gone else r + WORD - gone;
    Shifted(kept + wait, next, if gone <= r then q else q - 1);
  }

  lemma Shifted(a: nat, b: nat, turns: int)
    requires b == a + turns * WORD
    ensures a % WORD == b % WORD && (a < WORD ==> b % WORD == a)
  {
  }
}
