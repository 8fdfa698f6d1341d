/** What clicks and the passing of time make of Arathi Basin's nodes and scores
    (src/game/BattleGround/BattleGroundAB.cpp), told by statuses, timers and points. */
module ArathiCourse {
  import opened ArathiBasin
  import opened ArathiMatch
  import EventObjects

  // ---------------------------------------------------------------- clicks

  /** No other node, no score and no banner that stands has changed. */
  predicate OnlyNode(v: Basin, v': Basin, node: nat) {
    && |v'.nodes| == |v.nodes| && (forall i :: 0 <= i < |v.nodes| && i != node ==> v'.nodes[i] == v.nodes[i])
    && v'.scores == v.scores && v'.lastTick == v.lastTick && v'.events == v.events && v'.inProgress == v.inProgress
  }

  /** What a click comes to: nothing before or after the battle, away from the nodes, or on a banner of
      the team's own; a node the other team has taken from it is occupied again at once; any other is
      contested for a minute. The banner follows in two seconds. */
  predicate ClickMeans(v: Basin, v': Basin, node: nat, team: nat)
    requires |v.nodes| == |v'.nodes| == 5
  {
    if !v.inProgress || node >= 5 || v.nodes[node].status == team + 1 || v.nodes[node].status == team + 3 then v' == v
    else
      var n := v.nodes[node];
      OnlyNode(v, v', node)
      && v'.nodes[node] == if n.status == 2 - team && n.prev == team + 3 then Node(team + 3, n.status, 0, Banner(2000, 3, team))
                           else Node(team + 1, n.status, 60000, Banner(2000, 1, team))
  }

  lemma ClickIs(v: Basin, event1: nat, team: nat)
    requires BasinOk(v) && team <= 1
    ensures |v.nodes| == |Click(v, event1, team).nodes| == 5 && ClickMeans(v, Click(v, event1, team), event1, team)
  {
    InRange(v);
    hide BasinOk, SendNodeUpdate;
    if event1 < NODES { assert NodeOk(v.nodes[event1]); }
  }

  // ---------------------------------------------------------------- points

  /** The nodes a team occupies. */
  function Held(nodes: seq<Node>, team: nat): set<nat> {
    set i: nat | i < |nodes| && nodes[i].status == team + 3
  }

  lemma {:induction false} CountIs(nodes: seq<Node>, k: nat, status: nat)
    requires k <= |nodes|
    ensures |set i: nat | i < k && nodes[i].status == status| == CountTo(nodes, k, status)
  {
    var upTo := set i: nat | i < k && nodes[i].status == status;
    if k == 0 {
      assert upTo == {};
    } else {
      CountIs(nodes, k - 1, status);
      OneMoreIndex(nodes, k - 1, status);
    }
  }

  lemma OneMoreIndex(nodes: seq<Node>, k: nat, status: nat)
    requires k < |nodes|
    ensures var upTo := set i: nat | i < k && nodes[i].status == status;
            |set i: nat | i < k + 1 && nodes[i].status == status| == |upTo| + if nodes[k].status == status then 1 else 0
  {
    var rest := set i: nat | i < k && nodes[i].status == status;
    var upTo := set i: nat | i < k + 1 && nodes[i].status == status;
    if nodes[k].status == status {
      assert upTo == rest + {k};
    } else {
      assert upTo == rest;
    }
  }

  /** How long a team with so many nodes waits for its points. */
  function Due(held: nat): nat {
    if held == 5 then 1000 else if held == 4 then 3000 else if held == 3 then 6000 else if held == 2 then 9000 else 12000
  }

  /** After `diff` more milliseconds with so many nodes: no node, no points and no time counted; else
      the time is added up, and once it is more than what is due for that many nodes the points are
      given, 10 or with all five nodes 30, up to 1600, and what is left of the time is kept. */
  predicate Paid(held: nat, score: nat, score': nat, tick: nat, tick': nat, diff: nat) {
    var time, gain := tick + diff, if held == 5 then 30 else 10;
    if held == 0 then score' == score && tick' == tick
    else if time <= Due(held) then score' == score && tick' == time
    else score' == (if score + gain > 1600 then 1600 else score + gain) && tick' == time - Due(held)
  }

  /** A team is paid for its nodes, and the other is not. */
  predicate PointsAdded(v: Basin, v': Basin, team: nat, diff: nat)
    requires team <= 1 && |v.scores| == |v'.scores| == |v.lastTick| == |v'.lastTick| == 2
  {
    && Paid(|Held(v.nodes, team)|, v.scores[team], v'.scores[team], v.lastTick[team], v'.lastTick[team], diff)
    && v'.scores[1 - team] == v.scores[1 - team] && v'.lastTick[1 - team] == v.lastTick[1 - team]
    && v'.nodes == v.nodes && v'.events == v.events && v'.inProgress == v.inProgress
  }

  lemma PointsAre(v: Basin, team: nat, diff: nat)
    requires Shape(v) && team <= 1
    ensures Shape(TickScore(v, team, diff)) && PointsAdded(v, TickScore(v, team, diff), team, diff)
  {
    HeldIs(v.nodes, team);
    HeldBound(v.nodes, team);
    hide Owned, Held;
  }

  lemma HeldIs(nodes: seq<Node>, team: nat)
    ensures |Held(nodes, team)| == Owned(nodes, team)
  {
    CountIs(nodes, |nodes|, team + OCCUPIED);
  }

  lemma HeldBound(nodes: seq<Node>, team: nat)
    requires |nodes| == 5
    ensures |Held(nodes, team)| <= 5
  {
    var all := {0, 1, 2, 3, 4};
    assert Held(nodes, team) <= all;
    Smaller(Held(nodes, team), all);
  }

  lemma {:induction false} Smaller(a: set<nat>, b: set<nat>)
    requires a <= b
    ensures |a| <= |b|
  {
    assert |b - a| == |b| - |a|;
  }

  // ---------------------------------------------------------------- time

  /** A node after one update: a contested one counts down, and goes to the team that contests it when
      its time is up; a pending banner counts down too, and a capture sets a new one. */
  function Aged(n: Node, diff: nat): Node {
    var waited := n.banner.(timer := if n.banner.timer > diff then n.banner.timer - diff else 0);
    if n.timer == 0 || n.timer > diff then n.(timer := if n.timer > diff then n.timer - diff else 0, banner := waited)
    else Node(n.status + 2, n.status, 0, Banner(2000, 3, if n.status == 1 then 0 else 1))
  }

  lemma NodeTicks(v: Basin, node: nat, diff: nat)
    requires BasinOk(v) && node < NODES
    ensures BasinOk(TickBanner(v, node, diff)) && NodeOk(TickBanner(v, node, diff).nodes[node])
    ensures var v' := TickTimer(TickBanner(v, node, diff), node, diff);
            && |v'.nodes| == |v.nodes| == NODES && v'.nodes[node] == Aged(v.nodes[node], diff)
            && (forall i :: 0 <= i < NODES && i != node ==> v'.nodes[i] == v.nodes[i])
            && v'.scores == v.scores && v'.lastTick == v.lastTick && v'.inProgress == v.inProgress
  {
    hide BasinOk, TickBanner, TickTimer;
    TickBannerKeeps(v, node, diff);
    InRange(v);
    InRange(TickBanner(v, node, diff));
    BannerTicks(v, node, diff);
    TimerTicks(TickBanner(v, node, diff), node, diff);
  }

  lemma BannerTicks(v: Basin, node: nat, diff: nat)
    requires node < |v.nodes|
    ensures var n, v' := v.nodes[node], TickBanner(v, node, diff);
            && |v'.nodes| == |v.nodes|
            && v'.nodes[node] == n.(banner := n.banner.(timer := if n.banner.timer > diff then n.banner.timer - diff else 0))
            && (forall i :: 0 <= i < |v.nodes| && i != node ==> v'.nodes[i] == v.nodes[i])
            && v'.scores == v.scores && v'.lastTick == v.lastTick && v'.inProgress == v.inProgress
  {
    hide EventObjects.Spawn;
  }

  lemma TimerTicks(v: Basin, node: nat, diff: nat)
    requires node < |v.nodes| && NodeOk(v.nodes[node])
    ensures var n, v' := v.nodes[node], TickTimer(v, node, diff);
            && |v'.nodes| == |v.nodes|
            && v'.nodes[node] == (if n.timer == 0 then n else if n.timer > diff then n.(timer := n.timer - diff)
                                  else Node(n.status + 2, n.status, 0, Banner(2000, 3, if n.status == 1 then 0 else 1)))
            && (forall i :: 0 <= i < |v.nodes| && i != node ==> v'.nodes[i] == v.nodes[i])
            && v'.scores == v.scores && v'.lastTick == v.lastTick && v'.inProgress == v.inProgress
  {
    hide SendNodeUpdate;
  }

  lemma {:induction false} NodesTick(v: Basin, diff: nat, k: nat)
    requires BasinOk(v) && k <= NODES
    ensures var v' := TickNodes(v, diff, k);
            && |v'.nodes| == |v.nodes| == NODES
            && (forall i :: 0 <= i < NODES ==> v'.nodes[i] == if i < k then Aged(v.nodes[i], diff) else v.nodes[i])
            && v'.scores == v.scores && v'.lastTick == v.lastTick && v'.inProgress == v.inProgress
  {
    hide BasinOk, TickBanner, TickTimer, Aged;
    InRange(v);
    if k > 0 {
      NodesTick(v, diff, k - 1);
      NodeTicks(TickNodes(v, diff, k - 1), k - 1, diff);
    }
  }

  /** One update of a running battle: every node grows older, then each team is paid for the nodes it
      occupies by now, and the battle is over when a team has 1600 points. */
  predicate UpdateMeans(v: Basin, v': Basin, diff: nat)
    requires |v.nodes| == |v'.nodes| == 5 && |v.scores| == |v'.scores| == |v.lastTick| == |v'.lastTick| == 2
  {
    if !v.inProgress then v' == v
    else
      && (forall i :: 0 <= i < 5 ==> v'.nodes[i] == Aged(v.nodes[i], diff))
      && (forall team :: 0 <= team < 2 ==>
            Paid(|Held(v'.nodes, team)|, v.scores[team], v'.scores[team], v.lastTick[team], v'.lastTick[team], diff))
      && v'.inProgress == (v'.scores[0] < 1600 && v'.scores[1] < 1600)
  }

  lemma UpdateIs(v: Basin, diff: nat)
    requires BasinOk(v)
    ensures Shape(v) && Shape(Tick(v, diff)) && UpdateMeans(v, Tick(v, diff), diff)
  {
    hide BasinOk, TickNodes, TickScore, Paid, Held, Aged, NodeOk;
    InRange(v);
    if v.inProgress {
      NodesTick(v, diff, NODES);
      var v1 := TickNodes(v, diff, NODES);
      InRange(v1);
      PointsAre(v1, 0, diff);
      TickScoreKeeps(v1, 0, diff);
      var v2 := TickScore(v1, 0, diff);
      PointsAre(v2, 1, diff);
    }
  }

  // ---------------------------------------------------------------- nodes left alone

  function Elapsed(steps: seq<Step>): nat {
    if steps == [] then 0
    else Elapsed(steps[..|steps| - 1]) + if steps[|steps| - 1].Waits? then steps[|steps| - 1].diff else 0
  }

  /** Nobody clicks on an object of this node. */
  predicate LeftAlone(steps: seq<Step>, node: nat) {
    forall i :: 0 <= i < |steps| && steps[i].Clicks? ==> steps[i].event1 != node
  }

  /** What t milliseconds of the battle make of a node, however they are cut into updates. The banner
      that waits is up when its time has passed, unless a capture comes first. */
  predicate After(n: Node, n': Node, t: nat) {
    if n.timer == 0 || t < n.timer then
      && n'.status == n.status && n'.prev == n.prev && n'.timer == (if n.timer == 0 then 0 else n.timer - t)
      && n'.banner.timer == if t < n.banner.timer then n.banner.timer - t else 0
    else n'.status == n.status + 2 && n'.prev == n.status && n'.timer == 0 && n'.banner.timer <= 2000
  }

  lemma AfterOne(n: Node, t: nat)
    requires NodeOk(n)
    ensures After(n, Aged(n, t), t) && After(n, n, 0)
  {
  }

  lemma AfterTwice(n: Node, n1: Node, n2: Node, t: nat, u: nat)
    requires NodeOk(n) && After(n, n1, t) && After(n1, n2, u)
    ensures After(n, n2, t + u)
  {
  }

  lemma StepAges(v: Basin, s: Step, node: nat)
    requires BasinOk(v) && node < NODES && (s.Clicks? ==> s.team <= 1 && s.event1 != node) && Take(v, s).inProgress
    ensures v.inProgress && |Take(v, s).nodes| == |v.nodes| == NODES
    ensures After(v.nodes[node], Take(v, s).nodes[node], if s.Waits? then s.diff else 0)
  {
    hide BasinOk, Aged, After, Click, Tick, Paid, Held;
    InRange(v);
    AfterOne(v.nodes[node], if s.Waits? then s.diff else 0);
    match s
    case Clicks(event1, team) => ClickIs(v, event1, team);
    case Waits(diff) => UpdateIs(v, diff);
  }

  /** Whatever else goes on while the battle lasts: a contested node that nobody clicks on is occupied
      by the team contesting it exactly from the update in which the time passed reaches what was on
      its clock; before that its clock shows what is left. A node that is not contested keeps its
      status. */
  lemma {:induction false} LeftAloneAges(v: Basin, steps: seq<Step>, node: nat)
    requires BasinOk(v) && AllTeams(steps) && node < NODES && LeftAlone(steps, node) && Played(v, steps).inProgress
    ensures v.inProgress && |Played(v, steps).nodes| == |v.nodes| == NODES
    ensures After(v.nodes[node], Played(v, steps).nodes[node], Elapsed(steps))
    decreases |steps|
  {
    hide BasinOk, Take, After, Aged, NodeOk;
    InRange(v);
    if steps == [] {
      AfterOne(v.nodes[node], 0);
    } else {
      var rest, s := steps[..|steps| - 1], steps[|steps| - 1];
      StepAges(Played(v, rest), s, node);
      LeftAloneAges(v, rest, node);
      var t := if s.Waits? then s.diff else 0;
      AfterTwice(v.nodes[node], Played(v, rest).nodes[node], Played(v, steps).nodes[node], Elapsed(rest), t);
    }
  }

  // ---------------------------------------------------------------- points over time

  /** Only time passes, in updates of at most so much. */
  predicate Waiting(steps: seq<Step>, most: nat) {
    forall i :: 0 <= i < |steps| ==> steps[i].Waits? && steps[i].diff <= most
  }

  /** Nothing is contested. */
  predicate Settled(v: Basin) {
    forall i :: 0 <= i < |v.nodes| ==> v.nodes[i].timer == 0
  }

  lemma SettledStays(v: Basin, diff: nat, team: nat)
    requires BasinOk(v) && Settled(v)
    ensures Settled(Tick(v, diff)) && Held(Tick(v, diff).nodes, team) == Held(v.nodes, team)
  {
    hide BasinOk, Paid, Tick, NodeOk;
    UpdateIs(v, diff);
  }

  /** While no node is contested and no update is longer than what is due, a team is paid exactly for
      the time that passes: after any number of updates it has been paid `k` times, and the time that
      has not been paid for yet is on its account and is not more than what is due. */
  lemma {:induction false} PaidForTime(v: Basin, steps: seq<Step>, team: nat) returns (k: nat)
    requires BasinOk(v) && Settled(v) && team <= 1 && AllTeams(steps) && |v.lastTick| == |v.scores| == 2
    requires |Held(v.nodes, team)| > 0 && v.lastTick[team] <= Due(|Held(v.nodes, team)|)
    requires Waiting(steps, Due(|Held(v.nodes, team)|)) && Played(v, steps).inProgress
    ensures var held, v' := |Held(v.nodes, team)|, Played(v, steps);
            && Settled(v') && Held(v'.nodes, team) == Held(v.nodes, team) && |v'.lastTick| == |v'.scores| == 2
            && v'.lastTick[team] <= Due(held) && v'.lastTick[team] + k * Due(held) == v.lastTick[team] + Elapsed(steps)
            && v'.scores[team] == v.scores[team] + k * if held == 5 then 30 else 10
    decreases |steps|
  {
    hide BasinOk, Held, Settled, Due, Tick;
    if steps == [] {
      k := 0;
    } else {
      var rest, diff := steps[..|steps| - 1], steps[|steps| - 1].diff;
      var before := Played(v, rest);
      StillRunning(before, diff);
      k := PaidForTime(v, rest, team);
      UpdateIs(before, diff);
      SettledStays(before, diff, team);
      var held := |Held(v.nodes, team)|;
      if before.lastTick[team] + diff > Due(held) {
        OneMore(k, Due(held));
        OneMore(k, if held == 5 then 30 else 10);
        k := k + 1;
      }
    }
  }

  lemma StillRunning(v: Basin, diff: nat)
    requires BasinOk(v) && Tick(v, diff).inProgress
    ensures v.inProgress
  {
  }

  lemma OneMore(k: nat, x: nat)
    ensures (k + 1) * x == k * x + x
  {
  }
}
