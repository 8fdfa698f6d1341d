/** Arathi Basin as the battleground class (src/game/BattleGround/BattleGroundAB.cpp). */
module BattleGroundsAB {
  import opened ArathiBasin
  import opened ArathiMatch
  import opened ArathiCourse
  import EventObjects

  class BattleGroundAB {
    const nodes: array<Node>
    const scores: array<nat>
    const lastTick: array<nat>
    var events: EventObjects.Events
    var client: map<nat, nat>
    var inProgress: bool

    ghost predicate Formed()
      reads this
    {
      nodes.Length == NODES && scores.Length == 2 && lastTick.Length == 2 && scores != lastTick
    }

    ghost function Now(): Basin
      reads this, nodes, scores, lastTick
    {
      Basin(nodes[..], scores[..], lastTick[..], events, client, inProgress)
    }

    /** The match is in order, whatever has been sent to anybody. */
    ghost predicate InOrder()
      reads this, nodes, scores, lastTick
    {
      Formed() && MatchOk(Now())
    }

    /** And a client is in step with it. */
    ghost predicate Valid()
      reads this, nodes, scores, lastTick
    {
      Formed() && BasinOk(Now())
    }

    constructor ()
      ensures Formed() && fresh(nodes) && fresh(scores) && fresh(lastTick)
      ensures Fresh(Now()) && InOrder()
      ensures events.registered == map[] && events.spawned == {} && client == map[] && !inProgress
    {
      nodes := new Node[NODES](i => Node(NEUTRAL, NEUTRAL, 0, Banner(0, NEUTRAL, 0)));
      scores := new nat[2](i => 0);
      lastTick := new nat[2](i => 0);
      events, client, inProgress := EventObjects.Events(map[], map[], {}), map[], false;
      new;
      Reset();
      FreshOk(Now());
    }

    /** An object of the map is loaded; `home` is what the database says about its event. */
    method OnObjectDBLoad(g: EventObjects.Guid, isCreature: bool, home: map<EventObjects.Guid, (nat, nat)>)
      requires InOrder() && EventObjects.Loadable(home) && EventObjects.AtHome(events, home)
      modifies this`events
      ensures InOrder() && EventObjects.AtHome(events, home) && (old(Valid()) ==> Valid())
      ensures events == EventObjects.Take(old(events), EventObjects.Loads(g, isCreature), home)
      ensures EventObjects.Kept(old(events), events) && events.active == old(events.active)
      ensures g in home ==> EventObjects.Owns(events, home[g].0, home[g].1, g)
    {
      EventObjects.LoadOwns(events, g, isCreature, home);
      LoadedOk(Now(), EventObjects.Take(events, EventObjects.Loads(g, isCreature), home), inProgress);
      hide MatchOk, BasinOk, EventObjects.Good, EventObjects.AtHome, EventObjects.Kept, EventObjects.Owns;
      hide EventObjects.Load;
      if g in home {
        events := EventObjects.Load(events, home[g].0, home[g].1, g, isCreature);
      } else {
        events := EventObjects.Load(events, EventObjects.NONE, EventObjects.NONE, g, isCreature);
      }
    }

    /** The time of preparation is over. */
    method StartingEventOpenDoors()
      requires InOrder()
      modifies this`inProgress
      ensures Now() == old(Now()).(inProgress := true)
      ensures InOrder() && (old(Valid()) ==> Valid())
    {
      LoadedOk(Now(), events, true);
      inProgress := true;
    }

    method Reset()
      requires Formed()
      modifies nodes, scores, lastTick, this`events
      ensures forall i :: 0 <= i < NODES ==>
                nodes[i] == Node(NEUTRAL, NEUTRAL, 0, old(nodes[i]).banner.(timer := 0))
                && i in events.active && events.active[i] == NEUTRAL
      ensures scores[..] == [0, 0] && lastTick[..] == [0, 0] && events == old(events).(active := events.active)
      ensures EventObjects.Good(events) ==> Fresh(Now())
    {
      scores[0], scores[1] := 0, 0;
      lastTick[0], lastTick[1] := 0, 0;
      for i := 0 to NODES
        invariant forall k :: 0 <= k < i ==>
                    nodes[k] == Node(NEUTRAL, NEUTRAL, 0, old(nodes[k]).banner.(timer := 0))
                    && k in events.active && events.active[k] == NEUTRAL
        invariant forall k :: i <= k < NODES ==> nodes[k] == old(nodes[k])
        invariant scores[..] == [0, 0] && lastTick[..] == [0, 0] && events == old(events).(active := events.active)
      {
        nodes[i] := Node(NEUTRAL, NEUTRAL, 0, nodes[i].banner.(timer := 0));
        events := events.(active := events.active[i := NEUTRAL]);
      }
    }

    // -------------------------------------------------------------- banners and icons

    method UpdateWorldState(w: nat, value: nat)
      modifies this`client
      ensures client == old(client)[w := value]
    {
      client := client[w := value];
    }

    /** Puts the banner up at once, or in two seconds. */
    method CreateBanner(node: nat, kind: nat, team: nat, delay: bool)
      requires Formed() && node < NODES
      modifies nodes, this`events
      ensures nodes[..] == if delay then old(nodes[..])[node := old(nodes[node]).(banner := Delayed(kind, team))] else old(nodes[..])
      ensures events == if delay then old(events) else EventObjects.Spawn(old(events), node, PendingStatus(Banner(0, kind, team)))
    {
      if delay {
        nodes[node] := nodes[node].(banner := Delayed(kind, team));
        return;
      }
      var status := kind;
      if kind != NEUTRAL { status := status + team; }
      events := EventObjects.Switch(events, node, status, true);
    }

    method CountBases() returns (ally: nat, horde: nat)
      requires Formed()
      ensures ally == Owned(nodes[..], 0) && horde == Owned(nodes[..], 1)
    {
      ally, horde := 0, 0;
      for i := 0 to NODES
        invariant ally == CountTo(nodes[..], i, OCCUPIED) && horde == CountTo(nodes[..], i, 1 + OCCUPIED)
      {
        if nodes[i].status == OCCUPIED {
          ally := ally + 1;
        } else if nodes[i].status == 1 + OCCUPIED {
          horde := horde + 1;
        }
      }
    }

    method SendNodeUpdate(node: nat)
      requires Formed() && node < NODES
      modifies this`client
      ensures client == ArathiBasin.SendNodeUpdate(old(client), nodes[..], node)
    {
      UpdateWorldState(Icon(node, nodes[node].prev), 0);
      UpdateWorldState(Icon(node, nodes[node].status), 1);
      var ally, horde := CountBases();
      UpdateWorldState(BASES_ALLY, ally);
      UpdateWorldState(BASES_HORDE, horde);
    }

    // -------------------------------------------------------------- what players do

    method EventPlayerClickedOnFlag(event1: nat, team: nat)
      requires Valid() && team <= 1
      modifies nodes, this`client, this`events
      ensures Valid() && Now() == Click(old(Now()), event1, team)
      ensures ClickMeans(old(Now()), Now(), event1, team)
    {
      ghost var v := Now();
      ClickIs(v, event1, team);
      ClickKeeps(v, event1, team);
      hide BasinOk, ClickMeans;
      if !inProgress || event1 >= NODES { return; }
      if !(nodes[event1].status == NEUTRAL || team == nodes[event1].status % 2) { return; }
      ChangeNode(event1, team);
      SendNodeUpdate(event1);
    }

    /** The node's new status, timer and pending banner. */
    method ChangeNode(node: nat, team: nat)
      requires Formed() && node < NODES
      modifies nodes, this`events
      ensures events == old(events) && nodes[..] == old(nodes[..])[node := Clicked(old(nodes[node]), team)]
    {
      var n := nodes[node];
      if n.status == NEUTRAL {
        nodes[node] := n.(prev := n.status, status := team + CONTESTED);
        CreateBanner(node, CONTESTED, team, true);
        nodes[node] := nodes[node].(timer := CAPTURING_TIME);
      } else if n.status == 1 || n.status == 2 {
        if n.prev < OCCUPIED {
          nodes[node] := n.(prev := n.status, status := team + CONTESTED);
          CreateBanner(node, CONTESTED, team, true);
          nodes[node] := nodes[node].(timer := CAPTURING_TIME);
        } else {
          nodes[node] := n.(prev := n.status, status := team + OCCUPIED);
          CreateBanner(node, OCCUPIED, team, true);
          nodes[node] := nodes[node].(timer := 0);
        }
      } else {
        nodes[node] := n.(prev := n.status, status := team + CONTESTED);
        CreateBanner(node, CONTESTED, team, true);
        nodes[node] := nodes[node].(timer := CAPTURING_TIME);
      }
    }

    // -------------------------------------------------------------- time

    method Update(diff: nat)
      requires Valid()
      modifies nodes, scores, lastTick, this
      ensures Valid() && Now() == Tick(old(Now()), diff)
      ensures UpdateMeans(old(Now()), Now(), diff)
    {
      hide BasinOk, UpdateMeans, TickScore;
      ghost var v := Now();
      UpdateIs(v, diff);
      if !inProgress { return; }
      UpdateNodes(diff);
      ghost var v1 := Now();
      InRange(v1);
      TickScoreKeeps(v1, 0, diff);
      InRange(TickScore(v1, 0, diff));
      TickScoreKeeps(TickScore(v1, 0, diff), 1, diff);
      TestWinKeeps(TickScore(TickScore(v1, 0, diff), 1, diff));
      InRange(TickScore(TickScore(v1, 0, diff), 1, diff));
      AddPoints(0, diff);
      AddPoints(1, diff);
      EndIfWon();
    }

    method EndIfWon()
      requires Formed()
      modifies this`inProgress
      ensures Now() == TestWin(old(Now()))
    {
      if scores[0] >= MAX_SCORE { inProgress := false; }
      if scores[1] >= MAX_SCORE { inProgress := false; }
    }

    method UpdateNodes(diff: nat)
      requires Valid()
      modifies nodes, this`events, this`client
      ensures Valid() && Now() == TickNodes(old(Now()), diff, NODES)
    {
      hide BasinOk;
      ghost var v := Now();
      for i := 0 to NODES
        invariant Formed() && BasinOk(Now()) && Now() == TickNodes(v, diff, i)
      {
        ghost var v1 := Now();
        TickBannerKeeps(v1, i, diff);
        UpdateBanner(i, diff);
        TickTimerKeeps(Now(), i, diff);
        UpdateTimer(i, diff);
      }
    }

    method UpdateBanner(i: nat, diff: nat)
      requires Formed() && i < NODES
      modifies nodes, this`events
      ensures Now() == TickBanner(old(Now()), i, diff)
    {
      var b := nodes[i].banner;
      if b.timer > 0 {
        if b.timer > diff {
          nodes[i] := nodes[i].(banner := b.(timer := b.timer - diff));
        } else {
          nodes[i] := nodes[i].(banner := b.(timer := 0));
          CreateBanner(i, b.kind, b.team, false);
        }
      }
    }

    method UpdateTimer(i: nat, diff: nat)
      requires Formed() && i < NODES && NodeOk(nodes[i])
      modifies nodes, this`events, this`client
      ensures Now() == TickTimer(old(Now()), i, diff)
    {
      var n := nodes[i];
      if n.timer > 0 {
        if n.timer > diff {
          nodes[i] := n.(timer := n.timer - diff);
        } else {
          CaptureNode(i);
          SendNodeUpdate(i);
        }
      }
    }

    method CaptureNode(i: nat)
      requires Formed() && i < NODES && nodes[i].status >= 1
      modifies nodes, this`events
      ensures events == old(events) && nodes[..] == old(nodes[..])[i := Captured(old(nodes[i]))]
    {
      nodes[i] := nodes[i].(timer := 0);
      var team := nodes[i].status - 1;
      nodes[i] := nodes[i].(prev := nodes[i].status);
      nodes[i] := nodes[i].(status := nodes[i].status + 2);
      CreateBanner(i, OCCUPIED, team, true);
    }

    method AddPoints(team: nat, diff: nat)
      requires Formed() && team <= 1
      modifies scores, lastTick, this`client
      ensures Now() == TickScore(old(Now()), team, diff)
      ensures PointsAdded(old(Now()), Now(), team, diff)
    {
      hide Owned, TickInterval, TickPoints, PointsAdded;
      PointsAre(Now(), team, diff);
      var ally, horde := CountBases();
      var points := if team == 0 then ally else horde;
      if points == 0 { return; }
      lastTick[team] := lastTick[team] + diff;
      if lastTick[team] > TickInterval(points) {
        lastTick[team] := lastTick[team] - TickInterval(points);
        scores[team] := scores[team] + TickPoints(points);
        if scores[team] > MAX_SCORE { scores[team] := MAX_SCORE; }
        UpdateWorldState(ResourcesOf(team), scores[team]);
      }
    }

    // -------------------------------------------------------------- what a new player is sent

    /** A player enters: from then on his client is in step with the match. */
    method SendInitWorldStates()
      requires InOrder()
      modifies this`client
      ensures Valid() && IsSnapshot(old(Now()), client) && Now() == Entered(old(Now()), client)
    {
      var data := FillInitialWorldStates();
      EnteredOk(Now(), data);
      client := data;
    }

    /** The world states a player is sent on entering: exactly what his map has to show. */
    method FillInitialWorldStates() returns (data: map<nat, nat>)
      requires InOrder()
      ensures InSync(Now(), data)
    {
      ghost var v := Now();
      hide MatchOk, Shown, InSync;
      data := map[];
      NothingShown(v);
      for i := 0 to NODES
        invariant Shown(v, data, i)
      {
        StatusShown(v, data, i, NEUTRAL);
        data := data[Icon(i, NEUTRAL) := if nodes[i].status == NEUTRAL then 1 else 0];
      }
      for i := 0 to NODES
        invariant Shown(v, data, NODES + 4 * i)
      {
        data := FillStates(data, i, v);
      }
      var ally, horde := CountBases();
      CountersShown(v, data);
      data := data[BASES_ALLY := ally][BASES_HORDE := horde];
      data := data[RESOURCES_MAX := MAX_SCORE][RESOURCES_WARNING := WARNING_SCORE];
      data := data[RESOURCES_ALLY := scores[0]][RESOURCES_HORDE := scores[1]][UNKNOWN := 2];
    }

    method FillStates(before: map<nat, nat>, node: nat, ghost v: Basin) returns (data: map<nat, nat>)
      requires Formed() && v == Now() && node < NODES && Shown(v, before, NODES + 4 * node)
      ensures Shown(v, data, NODES + 4 * (node + 1))
    {
      data := before;
      for s := 1 to 5
        invariant Shown(v, data, NODES + 4 * node + s - 1)
      {
        StatusShown(v, data, node, s);
        data := data[Icon(node, s) := if nodes[node].status == s then 1 else 0];
      }
    }
  }

  /** A match from its creation: the objects of the map are loaded, a first player enters, and the
      battle begins. It is in order, he is in step, and of the objects loaded exactly those of active
      events stand. */
  method StartMatch(objects: seq<(EventObjects.Guid, bool)>, home: map<EventObjects.Guid, (nat, nat)>)
    returns (bg: BattleGroundAB)
    requires EventObjects.Loadable(home)
    ensures fresh(bg) && bg.Valid() && bg.inProgress && Fresh(bg.Now())
    ensures forall i :: 0 <= i < |objects| && objects[i].0 in home ==>
              var (e1, e2) := home[objects[i].0];
              objects[i].0 in bg.events.spawned <==> bg.events.IsActive(e1, e2)
  {
    bg := new BattleGroundAB();
    LoadObjects(bg, objects, home);
    bg.SendInitWorldStates();
    bg.StartingEventOpenDoors();
  }

  method LoadObjects(bg: BattleGroundAB, objects: seq<(EventObjects.Guid, bool)>, home: map<EventObjects.Guid, (nat, nat)>)
    requires bg.InOrder() && EventObjects.Loadable(home) && EventObjects.AtHome(bg.events, home)
    modifies bg`events
    ensures bg.InOrder() && EventObjects.AtHome(bg.events, home) && bg.events.active == old(bg.events.active)
    ensures forall i :: 0 <= i < |objects| && objects[i].0 in home ==>
              EventObjects.Owns(bg.events, home[objects[i].0].0, home[objects[i].0].1, objects[i].0)
  {
    hide MatchOk, EventObjects.AtHome, EventObjects.Owns, EventObjects.Take;
    for n := 0 to |objects|
      invariant bg.InOrder() && EventObjects.AtHome(bg.events, home) && bg.events.active == old(bg.events.active)
      invariant forall i :: 0 <= i < n && objects[i].0 in home ==>
                  EventObjects.Owns(bg.events, home[objects[i].0].0, home[objects[i].0].1, objects[i].0)
    {
      bg.OnObjectDBLoad(objects[n].0, objects[n].1, home);
    }
  }

  // ---------------------------------------------------------------- filling in the icons one by one

  /** The order in which the icons are filled in. */
  function Rank(node: nat, status: nat): nat {
    if status == NEUTRAL then node else NODES + 4 * node + status - 1
  }

  ghost predicate ShownAt(v: Basin, data: map<nat, nat>, n: nat, w: nat)
    requires |v.nodes| == NODES && |v.scores| == 2
  {
    var p := PlaceOf(w);
    p != NoPlace ==> Get(data, w) == if p.NodeIcon? && Rank(p.node, p.status) < n then Value(v, p) else 0
  }

  /** The icons of rank less than n are filled in, and nothing else is. */
  ghost predicate Shown(v: Basin, data: map<nat, nat>, n: nat)
    requires |v.nodes| == NODES && |v.scores| == 2
  {
    forall w: nat :: ShownAt(v, data, n, w)
  }

  lemma NothingShown(v: Basin)
    requires |v.nodes| == NODES && |v.scores| == 2
    ensures Shown(v, map[], 0)
  {
  }

  lemma StatusShown(v: Basin, data: map<nat, nat>, node: nat, status: nat)
    requires |v.nodes| == NODES && |v.scores| == 2 && node < NODES && status < 5 && Shown(v, data, Rank(node, status))
    ensures Shown(v, data[Icon(node, status) := if v.nodes[node].status == status then 1 else 0], Rank(node, status) + 1)
  {
    var data' := data[Icon(node, status) := if v.nodes[node].status == status then 1 else 0];
    var next := Rank(node, status) + 1;
    IconsDiffer(node, status);
    forall w: nat ensures ShownAt(v, data', next, w) {
      assert ShownAt(v, data, Rank(node, status), w);
      NumberOf(w);
    }
  }

  lemma CountersShown(v: Basin, data: map<nat, nat>)
    requires |v.nodes| == NODES && |v.scores| == 2 && Shown(v, data, 5 * NODES)
    ensures InSync(v, data[BASES_ALLY := Owned(v.nodes, 0)][BASES_HORDE := Owned(v.nodes, 1)]
                          [RESOURCES_MAX := MAX_SCORE][RESOURCES_WARNING := WARNING_SCORE]
                          [RESOURCES_ALLY := v.scores[0]][RESOURCES_HORDE := v.scores[1]][UNKNOWN := 2])
  {
    var data' := data[BASES_ALLY := Owned(v.nodes, 0)][BASES_HORDE := Owned(v.nodes, 1)]
                     [RESOURCES_MAX := MAX_SCORE][RESOURCES_WARNING := WARNING_SCORE]
                     [RESOURCES_ALLY := v.scores[0]][RESOURCES_HORDE := v.scores[1]][UNKNOWN := 2];
    CountersDiffer(0);
    CountersDiffer(1);
    hide PlaceOf, Icon, Owned;
    forall w: nat ensures Shows(v, data', w) {
      assert ShownAt(v, data, 5 * NODES, w);
      NumberOf(w);
    }
  }
}
