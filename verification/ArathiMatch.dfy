/** Whole Arathi Basin matches: whatever is clicked and however time passes, nodes, banners and maps
    stay in step (src/game/BattleGround/BattleGroundAB.cpp). */
module ArathiMatch {
  import opened ArathiBasin
  import EventObjects

  // ---------------------------------------------------------------- one change of a node, seen on the map

  lemma {:induction false} CountStays(nodes: seq<Node>, nodes': seq<Node>, k: nat, status: nat)
    requires k <= |nodes| == |nodes'| && forall i :: 0 <= i < k ==> nodes[i].status == nodes'[i].status
    ensures CountTo(nodes, k, status) == CountTo(nodes', k, status)
  {
    if k > 0 { CountStays(nodes, nodes', k - 1, status); }
  }

  /** An update sent for a node whose status has changed from the previous one. */
  lemma UpdateFollows(v: Basin, node: nat, n: Node)
    requires Shape(v) && InSync(v, v.client) && node < NODES
    requires v.nodes[node].status < 5 && n.status < 5 && n.prev == v.nodes[node].status != n.status
    ensures InSync(WithNode(v, node, n), WithNode(v, node, n).client)
  {
    var v' := WithNode(v, node, n);
    var client := SendNodeUpdate(v.client, v'.nodes, node);
    forall w: nat ensures Shows(v', client, w) {
      assert Shows(v, v.client, w);
      UpdateShows(v, node, n, w);
    }
  }

  lemma UpdateShows(v: Basin, node: nat, n: Node, w: nat)
    requires Shape(v) && Shows(v, v.client, w) && node < NODES
    requires v.nodes[node].status < 5 && n.status < 5 && n.prev == v.nodes[node].status != n.status
    ensures Shows(WithNode(v, node, n), WithNode(v, node, n).client, w)
  {
    hide PlaceOf, Icon, Owned;
    IconsDiffer(node, n.status);
    IconsDiffer(node, n.prev);
    CountersDiffer(0);
    CountersDiffer(1);
    var p := PlaceOf(w);
    if p == NodeIcon(node, n.status) { SamePlace(w, Icon(node, n.status)); }
    if p == NodeIcon(node, n.prev) { SamePlace(w, Icon(node, n.prev)); }
    if p == Bases(0) { SamePlace(w, BASES_ALLY); }
    if p == Bases(1) { SamePlace(w, BASES_HORDE); }
    if p.Bases? { NumberOf(w); }
  }

  /** A change that leaves statuses and scores alone. */
  lemma SameShown(v: Basin, v': Basin, client: map<nat, nat>)
    requires Shape(v) && Shape(v') && InSync(v, client) && v'.scores == v.scores
    requires forall i :: 0 <= i < NODES ==> v'.nodes[i].status == v.nodes[i].status
    ensures InSync(v', client)
  {
    CountStays(v.nodes, v'.nodes, NODES, OCCUPIED);
    CountStays(v.nodes, v'.nodes, NODES, 1 + OCCUPIED);
    forall w: nat ensures Shows(v', client, w) {
      assert Shows(v, client, w);
      NumberOf(w);
    }
  }

  // ---------------------------------------------------------------- every step keeps everything

  lemma WithNodeKeeps(v: Basin, node: nat, n: Node)
    requires BasinOk(v) && node < NODES && NodeOk(n) && n.banner.timer > 0
    requires n.prev == v.nodes[node].status != n.status
    ensures BasinOk(WithNode(v, node, n))
  {
    assert NodeOk(v.nodes[node]);
    UpdateFollows(v, node, n);
  }

  lemma ClickKeeps(v: Basin, event1: nat, team: nat)
    requires BasinOk(v) && team <= 1
    ensures BasinOk(Click(v, event1, team))
  {
    if event1 < NODES && MayClick(v.nodes[event1], team) {
      assert NodeOk(v.nodes[event1]);
      ClickedKeeps(v.nodes[event1], team);
      ClickedDiffers(v.nodes[event1], team);
      WithNodeKeeps(v, event1, Clicked(v.nodes[event1], team));
    }
  }

  lemma ClickedDiffers(n: Node, team: nat)
    requires NodeOk(n) && team <= 1 && MayClick(n, team)
    ensures Clicked(n, team).status != n.status
  {
  }

  lemma TickBannerKeeps(v: Basin, node: nat, diff: nat)
    requires BasinOk(v) && node < NODES
    ensures BasinOk(TickBanner(v, node, diff))
  {
    if v.nodes[node].banner.timer > diff {
      BannerWaits(v, node, diff);
    } else if v.nodes[node].banner.timer > 0 {
      BannerGoesUp(v, node, diff);
    }
    hide *;
  }

  lemma BannerWaits(v: Basin, node: nat, diff: nat)
    requires BasinOk(v) && node < NODES && |v.nodes| == NODES && v.nodes[node].banner.timer > diff
    ensures BasinOk(TickBanner(v, node, diff))
  {
    hide InSync, EventObjects.Good;
    assert NodeOk(v.nodes[node]);
    SameShown(v, TickBanner(v, node, diff), v.client);
  }

  lemma BannerGoesUp(v: Basin, node: nat, diff: nat)
    requires BasinOk(v) && node < NODES && |v.nodes| == NODES && 0 < v.nodes[node].banner.timer <= diff
    ensures BasinOk(TickBanner(v, node, diff))
  {
    hide InSync, EventObjects.Good, EventObjects.Spawn;
    assert NodeOk(v.nodes[node]);
    var status := PendingStatus(v.nodes[node].banner);
    EventObjects.SwitchActive(v.events, node, status);
    EventObjects.SpawnKeeps(v.events, node, status);
    SameShown(v, TickBanner(v, node, diff), v.client);
  }

  lemma TickTimerKeeps(v: Basin, node: nat, diff: nat)
    requires BasinOk(v) && node < NODES
    ensures NodeOk(v.nodes[node]) && BasinOk(TickTimer(v, node, diff))
  {
    hide BasinOk, WithNode;
    InRange(v);
    var n := v.nodes[node];
    assert NodeOk(n);
    if n.timer > diff {
      TimerAged(v, node, n.timer - diff);
    } else if n.timer > 0 {
      CapturedKeeps(n);
      WithNodeKeeps(v, node, Captured(n));
    }
  }

  lemma TimerAged(v: Basin, node: nat, timer: nat)
    requires BasinOk(v) && node < NODES && |v.nodes| == NODES && v.nodes[node].timer > 0 && timer > 0
    ensures BasinOk(v.(nodes := v.nodes[node := v.nodes[node].(timer := timer)]))
  {
    hide InSync, EventObjects.Good;
    assert NodeOk(v.nodes[node]);
    SameShown(v, v.(nodes := v.nodes[node := v.nodes[node].(timer := timer)]), v.client);
  }

  lemma TickScoreKeeps(v: Basin, team: nat, diff: nat)
    requires BasinOk(v) && team <= 1
    ensures BasinOk(TickScore(v, team, diff))
  {
    hide InSync, EventObjects.Good, NodeOk, Owned, TickInterval, TickPoints;
    var points := Owned(v.nodes, team);
    var tick := v.lastTick[team] + diff;
    if points > 0 && tick > TickInterval(points) {
      var sum := v.scores[team] + TickPoints(points);
      var score := if sum > MAX_SCORE then MAX_SCORE else sum;
      ScoreFollows(v, v.lastTick[team := tick - TickInterval(points)], team, score);
    } else {
      SameShown(v, TickScore(v, team, diff), v.client);
    }
  }

  lemma ScoreFollows(v: Basin, lastTick: seq<nat>, team: nat, score: nat)
    requires Shape(v) && InSync(v, v.client) && team <= 1 && |lastTick| == 2
    ensures var v' := v.(lastTick := lastTick, scores := v.scores[team := score], client := v.client[ResourcesOf(team) := score]);
            InSync(v', v'.client)
  {
    var v' := v.(lastTick := lastTick, scores := v.scores[team := score], client := v.client[ResourcesOf(team) := score]);
    CountersDiffer(team);
    forall w: nat ensures Shows(v', v'.client, w) {
      assert Shows(v, v.client, w);
      if PlaceOf(w) == Resources(team) { SamePlace(w, ResourcesOf(team)); }
    }
  }

  // ---------------------------------------------------------------- whole matches

  /** The first k nodes after some time. */
  ghost function TickNodes(v: Basin, diff: nat, k: nat): (v': Basin)
    requires BasinOk(v) && k <= NODES
    ensures BasinOk(v')
  {
    if k == 0 then v
    else
      var v1 := TickNodes(v, diff, k - 1);
      TickBannerKeeps(v1, k - 1, diff);
      TickTimerKeeps(TickBanner(v1, k - 1, diff), k - 1, diff);
      TickTimer(TickBanner(v1, k - 1, diff), k - 1, diff)
  }

  ghost function Tick(v: Basin, diff: nat): (v': Basin)
    requires BasinOk(v)
    ensures BasinOk(v')
  {
    if !v.inProgress then v
    else
      var v1 := TickNodes(v, diff, NODES);
      TickScoreKeeps(v1, 0, diff);
      TickScoreKeeps(TickScore(v1, 0, diff), 1, diff);
      TestWinKeeps(TickScore(TickScore(v1, 0, diff), 1, diff));
      TestWin(TickScore(TickScore(v1, 0, diff), 1, diff))
  }

  lemma TestWinKeeps(v: Basin)
    requires BasinOk(v)
    ensures BasinOk(TestWin(v))
  {
    SameShown(v, TestWin(v), v.client);
  }

  datatype Step = Clicks(event1: nat, team: nat) | Waits(diff: nat)

  ghost predicate AllTeams(steps: seq<Step>) {
    forall i :: 0 <= i < |steps| && steps[i].Clicks? ==> steps[i].team <= 1
  }

  /** A battleground that has been reset and whose objects are as its events say. */
  ghost predicate Fresh(v: Basin) {
    && Shape(v) && (forall i :: 0 <= i < NODES ==> v.nodes[i].status == v.nodes[i].prev == v.nodes[i].timer == v.nodes[i].banner.timer == 0)
    && v.scores == [0, 0] && EventObjects.Good(v.events)
    && forall i :: 0 <= i < NODES ==> i in v.events.active && v.events.active[i] == NEUTRAL
  }

  lemma FreshOk(v: Basin)
    requires Fresh(v)
    ensures MatchOk(v)
  {
  }

  ghost function Take(v: Basin, s: Step): (v': Basin)
    requires BasinOk(v) && (s.Clicks? ==> s.team <= 1)
    ensures BasinOk(v')
  {
    match s
    case Clicks(event1, team) => ClickKeeps(v, event1, team); Click(v, event1, team)
    case Waits(diff) => Tick(v, diff)
  }

  /** A match from any moment on. */
  ghost function Played(v: Basin, steps: seq<Step>): (v': Basin)
    requires BasinOk(v) && AllTeams(steps)
    ensures BasinOk(v')
    decreases |steps|
  {
    if steps == [] then v else Take(Played(v, steps[..|steps| - 1]), steps[|steps| - 1])
  }

  /** What FillInitialWorldStates sends at this moment. */
  ghost predicate IsSnapshot(v: Basin, data: map<nat, nat>) {
    Shape(v) && InSync(v, data)
  }

  /** A player enters and has been sent `data`. */
  function Entered(v: Basin, data: map<nat, nat>): Basin {
    v.(client := data)
  }

  /** The first player who enters is in step from then on, as is any later one. */
  lemma EnteredOk(v: Basin, data: map<nat, nat>)
    requires MatchOk(v) && IsSnapshot(v, data)
    ensures BasinOk(Entered(v, data))
  {
    SameShown(v, Entered(v, data), data);
  }

  /** Neither loading objects, which changes no event, nor the beginning of the battle matters to anybody's map. */
  lemma LoadedOk(v: Basin, e: EventObjects.Events, inProgress: bool)
    requires MatchOk(v) && e.active == v.events.active && EventObjects.Good(e)
    ensures var v' := v.(events := e, inProgress := inProgress);
            MatchOk(v') && (BasinOk(v) ==> BasinOk(v'))
  {
    if BasinOk(v) { SameShown(v, v.(events := e, inProgress := inProgress), v.client); }
  }

  /** Whatever is clicked and however time passes, before and after the moment a player enters: the
      capture timer runs exactly while a node is contested; the banner that stands, or else the one that
      is pending, is the one for the node's status; the objects of the standing banner, and no others of
      the node, are spawned; and the map of the player who has entered is what he would be sent now, with
      the one icon of each node and the number of bases of each team. */
  lemma EveryMatchInStep(v: Basin, before: seq<Step>, data: map<nat, nat>, after: seq<Step>, node: nat)
    requires BasinOk(v) && AllTeams(before) && AllTeams(after) && node < NODES
    requires IsSnapshot(Played(v, before), data)
    ensures BasinOk(Entered(Played(v, before), data))
    ensures var v' := Played(Entered(Played(v, before), data), after);
            && IsSnapshot(v', v'.client) && NodeOk(v'.nodes[node])
            && (if v'.nodes[node].banner.timer == 0 then v'.events.IsActive(node, v'.nodes[node].status)
                else PendingStatus(v'.nodes[node].banner) == v'.nodes[node].status)
            && (forall e2: nat, g: nat :: EventObjects.Owns(v'.events, node, e2, g) ==>
                  (g in v'.events.spawned <==> v'.events.IsActive(node, e2)))
            && (forall s :: 0 <= s < 5 ==> Get(v'.client, Icon(node, s)) == if v'.nodes[node].status == s then 1 else 0)
            && Get(v'.client, BASES_ALLY) == Owned(v'.nodes, 0) && Get(v'.client, BASES_HORDE) == Owned(v'.nodes, 1)
  {
    var mid := Played(v, before);
    EnteredOk(mid, data);
    var v' := Played(Entered(mid, data), after);
    assert NodeOk(v'.nodes[node]);
    IconsOf(v', node);
  }

  lemma IconsOf(v: Basin, node: nat)
    requires Shape(v) && InSync(v, v.client) && node < NODES
    ensures forall s :: 0 <= s < 5 ==> Get(v.client, Icon(node, s)) == if v.nodes[node].status == s then 1 else 0
    ensures Get(v.client, BASES_ALLY) == Owned(v.nodes, 0) && Get(v.client, BASES_HORDE) == Owned(v.nodes, 1)
  {
    forall s | 0 <= s < 5 ensures Get(v.client, Icon(node, s)) == if v.nodes[node].status == s then 1 else 0 {
      IconsDiffer(node, s);
      assert Shows(v, v.client, Icon(node, s));
    }
    CountersDiffer(0);
    CountersDiffer(1);
    assert Shows(v, v.client, BASES_ALLY) && Shows(v, v.client, BASES_HORDE);
  }

  // ---------------------------------------------------------------- who watches does not matter

  /** The same match, watched by two clients. */
  predicate SameMatch(v: Basin, w: Basin) {
    v == w.(client := v.client)
  }

  lemma ClickSame(v: Basin, w: Basin, event1: nat, team: nat)
    requires SameMatch(v, w) && Shape(v) && team <= 1
    ensures SameMatch(Click(v, event1, team), Click(w, event1, team))
  {
  }

  lemma {:induction false} TickNodesSame(v: Basin, w: Basin, diff: nat, k: nat)
    requires BasinOk(v) && BasinOk(w) && SameMatch(v, w) && k <= NODES
    ensures SameMatch(TickNodes(v, diff, k), TickNodes(w, diff, k))
  {
    hide BasinOk, NodeOk, SameMatch, TickTimer, TickBanner;
    if k > 0 {
      TickNodesSame(v, w, diff, k - 1);
      var v1, w1 := TickNodes(v, diff, k - 1), TickNodes(w, diff, k - 1);
      InRange(v1);
      InRange(w1);
      TickBannerKeeps(v1, k - 1, diff);
      TickBannerKeeps(w1, k - 1, diff);
      TickBannerSame(v1, w1, k - 1, diff);
      var v2, w2 := TickBanner(v1, k - 1, diff), TickBanner(w1, k - 1, diff);
      InRange(v2);
      InRange(w2);
      TickTimerSame(v2, w2, k - 1, diff);
    }
  }

  lemma InRange(v: Basin)
    requires BasinOk(v)
    ensures Shape(v) && forall i :: 0 <= i < NODES ==> NodeOk(v.nodes[i])
  {
  }

  lemma TickBannerSame(v: Basin, w: Basin, node: nat, diff: nat)
    requires SameMatch(v, w) && node < |v.nodes|
    ensures SameMatch(TickBanner(v, node, diff), TickBanner(w, node, diff))
  {
  }

  lemma TickTimerSame(v: Basin, w: Basin, node: nat, diff: nat)
    requires SameMatch(v, w) && Shape(v) && node < NODES && NodeOk(v.nodes[node])
    ensures SameMatch(TickTimer(v, node, diff), TickTimer(w, node, diff))
  {
  }

  lemma TickScoreSame(v: Basin, w: Basin, team: nat, diff: nat)
    requires SameMatch(v, w) && Shape(v) && team <= 1
    ensures SameMatch(TickScore(v, team, diff), TickScore(w, team, diff))
  {
  }

  lemma TickSame(v: Basin, w: Basin, diff: nat)
    requires BasinOk(v) && BasinOk(w) && SameMatch(v, w)
    ensures SameMatch(Tick(v, diff), Tick(w, diff))
  {
    hide BasinOk, TickNodes, TickScore;
    if v.inProgress {
      TickNodesSame(v, w, diff, NODES);
      var v1, w1 := TickNodes(v, diff, NODES), TickNodes(w, diff, NODES);
      InRange(v1);
      InRange(w1);
      TickScoreSame(v1, w1, 0, diff);
      TickScoreKeeps(v1, 0, diff);
      InRange(TickScore(v1, 0, diff));
      TickScoreSame(TickScore(v1, 0, diff), TickScore(w1, 0, diff), 1, diff);
    }
  }

  lemma {:induction false} PlayedSame(v: Basin, w: Basin, steps: seq<Step>)
    requires BasinOk(v) && BasinOk(w) && SameMatch(v, w) && AllTeams(steps)
    ensures SameMatch(Played(v, steps), Played(w, steps))
    decreases |steps|
  {
    if steps != [] {
      var rest, s := steps[..|steps| - 1], steps[|steps| - 1];
      PlayedSame(v, w, rest);
      var a, b := Played(v, rest), Played(w, rest);
      InRange(a);
      if s.Clicks? { ClickSame(a, b, s.event1, s.team); } else { TickSame(a, b, s.diff); }
    }
  }

  lemma {:induction false} PlayedOn(v: Basin, before: seq<Step>, after: seq<Step>)
    requires BasinOk(v) && AllTeams(before) && AllTeams(after)
    ensures AllTeams(before + after) && Played(v, before + after) == Played(Played(v, before), after)
    decreases |after|
  {
    hide BasinOk, Take;
    if after == [] {
      assert before + after == before;
    } else {
      PlayedOn(v, before, after[..|after| - 1]);
      assert (before + after)[..|before + after| - 1] == before + after[..|after| - 1];
    }
  }

  /** Nodes, banners, events and scores take the same course whoever watches: the match a player enters
      is the one that has been played all along. */
  lemma EnteringChangesNothing(v: Basin, before: seq<Step>, data: map<nat, nat>, after: seq<Step>)
    requires BasinOk(v) && AllTeams(before) && AllTeams(after) && IsSnapshot(Played(v, before), data)
    ensures BasinOk(Entered(Played(v, before), data)) && AllTeams(before + after)
    ensures SameMatch(Played(Entered(Played(v, before), data), after), Played(v, before + after))
  {
    assert MatchOk(Played(v, before));
    EnteredOk(Played(v, before), data);
    PlayedSame(Entered(Played(v, before), data), Played(v, before), after);
    PlayedOn(v, before, after);
  }
}
