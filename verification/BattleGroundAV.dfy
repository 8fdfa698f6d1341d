/** Alterac Valley as the battleground class (src/game/BattleGround/BattleGroundAV.cpp): nodes and mines
    in arrays, updated step by step. Its assertions are assertions here too, and are proved. */
module BattleGroundsAV {
  import opened AlteracIcons
  import opened AlteracValley
  import opened AlteracMatch
  import opened AlteracCourse
  import EventObjects

  class BattleGroundAV {
    const nodes: array<Node>
    const mines: array<Mine>
    const quests: array<nat>
    var events: EventObjects.Events
    var client: map<nat, nat>
    var inProgress: bool

    ghost predicate Formed()
      reads this
    {
      nodes.Length == NODES && mines.Length == 2 && quests.Length == 2
    }

    ghost function Now(): Valley
      reads this, nodes, mines, quests
    {
      Valley(nodes[..], mines[..], quests[..], events, client)
    }

    /** The match is in order, whatever has been sent to anybody. */
    ghost predicate InOrder()
      reads this, nodes, mines, quests
    {
      Formed() && MatchOk(Now())
    }

    /** And a client is in step with it. */
    ghost predicate Valid()
      reads this, nodes, mines, quests
    {
      Formed() && ValleyOk(Now())
    }

    constructor ()
      ensures Formed() && fresh(nodes) && fresh(mines) && fresh(quests)
      ensures nodes[..] == StartNodes() && mines[..] == [StartMine(0), StartMine(0)] && quests[..] == [0, 0]
      ensures StartActive(events.active) && events.registered == map[] && events.spawned == {} && client == map[] && !inProgress
      ensures Fresh(Now()) && InOrder()
    {
      nodes := new Node[NODES](i => AlteracValley.InitNode(NEUTRAL, false));
      mines := new Mine[2](i => StartMine(0));
      quests := new nat[2](i => 0);
      events, client, inProgress := EventObjects.Events(map[], map[], {}), map[], false;
      new;
      Reset();
      FreshOk(Now());
    }

    /** An object of the map is loaded; `home` is what the database says about its event. */
    method OnObjectDBLoad(g: EventObjects.Guid, isCreature: bool, home: map<EventObjects.Guid, (nat, nat)>)
      requires InOrder() && EventObjects.Loadable(home) && EventObjects.AtHome(events, home)
      modifies this`events
      ensures InOrder() && EventObjects.AtHome(events, home) && (old(Valid()) ==> Valid())
      ensures events == EventObjects.Take(old(events), EventObjects.Loads(g, isCreature), home)
      ensures EventObjects.Kept(old(events), events) && events.active == old(events.active)
      ensures g in home ==> EventObjects.Owns(events, home[g].0, home[g].1, g)
    {
      EventObjects.LoadOwns(events, g, isCreature, home);
      LoadedOk(Now(), EventObjects.Take(events, EventObjects.Loads(g, isCreature), home));
      hide MatchOk, ValleyOk, EventObjects.Good, EventObjects.AtHome, EventObjects.Kept, EventObjects.Owns;
      hide EventObjects.Load;
      if g in home {
        events := EventObjects.Load(events, home[g].0, home[g].1, g, isCreature);
      } else {
        events := EventObjects.Load(events, EventObjects.NONE, EventObjects.NONE, g, isCreature);
      }
    }

    /** The time of preparation is over. */
    method StartingEventOpenDoors()
      modifies this`inProgress
      ensures inProgress && Now() == old(Now())
    {
      inProgress := true;
    }

    // -------------------------------------------------------------- the start of a match

    method InitNode(node: nat, team: nat, tower: bool)
      requires Formed() && node < NODES
      modifies nodes, this`events
      ensures nodes[..] == old(nodes[..])[node := AlteracValley.InitNode(team, tower)]
      ensures events == old(events).(active := events.active)
      ensures forall e1: nat :: e1 in events.active <==> e1 in old(events.active) || e1 == node || (!tower && e1 == GRAVE_EVENT + node)
      ensures forall e1: nat :: e1 in events.active ==>
                events.active[e1] == if e1 == node then team * 2 + CONTROLLED
                                     else if !tower && e1 == GRAVE_EVENT + node then team * 4
                                     else old(events.active)[e1]
    {
      nodes[node] := AlteracValley.InitNode(team, tower);
      events := events.(active := events.active[node := team * 2 + CONTROLLED]);
      if !tower {
        events := events.(active := events.active[GRAVE_EVENT + node := team * 4]);
      }
    }

    /** Nodes from first up to the one before end belong to a team. */
    method InitNodes(first: nat, end: nat, team: nat, tower: bool)
      requires Formed() && first <= end <= NODES
      modifies nodes, this`events
      ensures forall i :: 0 <= i < NODES ==> nodes[i] == if first <= i < end then AlteracValley.InitNode(team, tower) else old(nodes[i])
      ensures events == old(events).(active := events.active)
      ensures forall e1: nat :: e1 in events.active <==>
                e1 in old(events.active) || first <= e1 < end || (!tower && GRAVE_EVENT + first <= e1 < GRAVE_EVENT + end)
      ensures forall e1: nat :: e1 in events.active ==>
                events.active[e1] == if first <= e1 < end then team * 2 + CONTROLLED
                                     else if !tower && GRAVE_EVENT + first <= e1 < GRAVE_EVENT + end then team * 4
                                     else old(events.active)[e1]
    {
      for k := first to end
        invariant forall i :: 0 <= i < NODES ==> nodes[i] == if first <= i < k then AlteracValley.InitNode(team, tower) else old(nodes[i])
        invariant events == old(events).(active := events.active)
        invariant forall e1: nat :: e1 in events.active <==>
                    e1 in old(events.active) || first <= e1 < k || (!tower && GRAVE_EVENT + first <= e1 < GRAVE_EVENT + k)
        invariant forall e1: nat :: e1 in events.active ==>
                    events.active[e1] == if first <= e1 < k then team * 2 + CONTROLLED
                                         else if !tower && GRAVE_EVENT + first <= e1 < GRAVE_EVENT + k then team * 4
                                         else old(events.active)[e1]
      {
        ghost var before := nodes[..];
        InitNode(k, team, tower);
        assert forall i :: 0 <= i < NODES ==> nodes[i] == nodes[..][i] == before[k := AlteracValley.InitNode(team, tower)][i];
      }
    }

    method Reset()
      requires Formed()
      modifies nodes, mines, quests, this`events
      ensures nodes[..] == StartNodes() && quests[..] == [0, 0]
      ensures mines[..] == [StartMine(old(mines[0]).reclaim), StartMine(old(mines[1]).reclaim)]
      ensures StartActive(events.active) && events == old(events).(active := events.active)
      ensures EventObjects.Good(events) ==> Fresh(Now())
    {
      hide StartActive, StartNode, EventObjects.Good;
      quests[0], quests[1] := 0, 0;
      mines[0], mines[1] := StartMine(mines[0].reclaim), StartMine(mines[1].reclaim);
      ResetNodes();
      assert nodes[..] == StartNodes();
    }

    method ResetNodes()
      requires Formed()
      modifies nodes, this`events
      ensures forall i :: 0 <= i < NODES ==> nodes[i] == StartNode(i)
      ensures StartActive(events.active) && events == old(events).(active := events.active)
    {
      ResetEvents();
      InitNodes(0, 3, ALLIANCE, false);
      InitNodes(7, 11, ALLIANCE, true);
      InitNodes(4, 7, HORDE, false);
      InitNodes(11, NODES, HORDE, true);
      InitNodes(SNOWFALL, SNOWFALL + 1, NEUTRAL, false);
    }

    /** The mines' and marshals' events. */
    method ResetEvents()
      modifies this`events
      ensures events == old(events).(active := events.active)
      ensures forall e1: nat :: IsEvent(e1) && e1 >= GRAVE_EVENT + FIRST_TOWER ==> e1 in events.active && events.active[e1] == StartEvent(e1)
    {
      events := events.(active := events.active[MINE_BOSSES := NEUTRAL][MINE_BOSSES + 1 := NEUTRAL]
                                               [MINE_EVENT := NEUTRAL][MINE_EVENT + 1 := NEUTRAL]);
      for i := 0 to 8
        invariant events == old(events).(active := events.active)
        invariant forall e1: nat :: MINE_BOSSES <= e1 < MINE_BOSSES + 2 || MINE_EVENT <= e1 < MINE_EVENT + 2 ==>
                    e1 in events.active && events.active[e1] == NEUTRAL
        invariant forall e1: nat :: MARSHAL <= e1 < MARSHAL + i ==> e1 in events.active && events.active[e1] == 0
      {
        events := events.(active := events.active[MARSHAL + i := 0]);
      }
    }

    // -------------------------------------------------------------- one node

    method AssaultNode(node: nat, team: nat)
      requires Formed() && node < NODES
      requires var n := nodes[node]; n.totalOwner != team && n.owner != team && (n.state != ASSAULTED || n.totalOwner == NEUTRAL)
      modifies nodes
      ensures nodes[..] == old(nodes[..])[node := AlteracValley.AssaultNode(old(nodes[node]), team)]
    {
      nodes[node] := nodes[node].(timer := if nodes[node].prevOwner != NEUTRAL then CAPTIME else SNOWFALL_FIRSTCAP);
      nodes[node] := nodes[node].(prevOwner := nodes[node].owner);
      nodes[node] := nodes[node].(owner := team);
      nodes[node] := nodes[node].(prevState := nodes[node].state);
      nodes[node] := nodes[node].(state := ASSAULTED);
    }

    method DestroyNode(node: nat)
      requires Formed() && node < NODES && nodes[node].state == ASSAULTED && nodes[node].owner != NEUTRAL
      modifies nodes
      ensures nodes[..] == old(nodes[..])[node := AlteracValley.DestroyNode(old(nodes[node]))]
    {
      nodes[node] := nodes[node].(totalOwner := nodes[node].owner);
      nodes[node] := nodes[node].(prevOwner := nodes[node].owner);
      nodes[node] := nodes[node].(prevState := nodes[node].state);
      nodes[node] := nodes[node].(state := CONTROLLED);
      nodes[node] := nodes[node].(timer := 0);
    }

    method DefendNode(node: nat, team: nat)
      requires Formed() && node < NODES
      requires nodes[node].totalOwner == team && nodes[node].owner != team && nodes[node].state != CONTROLLED
      modifies nodes
      ensures nodes[..] == old(nodes[..])[node := AlteracValley.DefendNode(old(nodes[node]), team)]
    {
      nodes[node] := nodes[node].(prevOwner := nodes[node].owner);
      nodes[node] := nodes[node].(owner := team);
      nodes[node] := nodes[node].(prevState := nodes[node].state);
      nodes[node] := nodes[node].(state := CONTROLLED);
      nodes[node] := nodes[node].(timer := 0);
    }

    method UpdateWorldState(w: nat, value: nat)
      modifies this`client
      ensures client == old(client)[w := value]
    {
      client := client[w := value];
    }

    method UpdateNodeWorldState(node: nat)
      requires Formed() && node < NODES
      modifies this`client
      ensures client == UpdateIcons(old(client), node, nodes[node])
    {
      var n := nodes[node];
      UpdateWorldState(Icon(node, n.owner * 2 + n.state), 1);
      if n.prevOwner == NEUTRAL {
        UpdateWorldState(SNOWFALL_NEUTRAL, 0);
      } else {
        UpdateWorldState(Icon(node, n.prevOwner * 2 + n.prevState), 0);
      }
    }

    method SpawnEvent(e1: nat, e2: nat, spawn: bool)
      modifies this`events
      ensures events == EventObjects.Switch(old(events), e1, e2, spawn)
    {
      events := EventObjects.Switch(events, e1, e2, spawn);
    }

    method PopulateNode(node: nat)
      requires Formed() && node < NODES
      modifies this`events
      ensures events == AlteracValley.PopulateNode(old(events), node, nodes[node], QuestOf(Now(), nodes[node].owner))
    {
      hide EventObjects.Spawn, EventObjects.Despawn;
      var n := nodes[node];
      if !n.tower && n.owner != NEUTRAL {
        var kind := GraveDefenderType(if n.owner < 2 then quests[n.owner] else 0);
        if n.state == CONTROLLED {
          SpawnEvent(GRAVE_EVENT + node, n.owner * 4 + kind, true);
        } else {
          SpawnEvent(GRAVE_EVENT + node, n.prevOwner * 4 + kind, false);
        }
      }
      SpawnEvent(node, n.owner * 2 + n.state, true);
    }

    // -------------------------------------------------------------- what players do

    method EventPlayerAssaultsPoint(node: nat, team: nat)
      requires Valid() && node < NODES && team <= 1
      modifies nodes, this`events, this`client
      ensures NodeOk(old(nodes[node]), node) && Valid() && Now() == Assaults(old(Now()), node, team)
    {
      ghost var v := Now();
      AssaultsKeep(v, node, team);
      NoAssertionFires(nodes[node], node, team);
      hide ValleyOk, NodeOk;
      if nodes[node].owner == team || team == nodes[node].totalOwner { return; }
      AssaultNode(node, team);
      Repaint(v, node);
    }

    /** What every change of a node is followed by: the icon and the spawned objects are renewed. */
    method Repaint(ghost v: Valley, node: nat)
      requires Formed() && node < NODES && |v.nodes| == NODES && nodes[..] == v.nodes[node := nodes[node]]
      requires mines[..] == v.mines && quests[..] == v.quests && events == v.events && client == v.client
      modifies this`events, this`client
      ensures Now() == WithNode(v, node, nodes[node])
    {
      UpdateNodeWorldState(node);
      PopulateNode(node);
    }

    method EventPlayerDefendsPoint(node: nat, team: nat)
      requires Valid() && inProgress && node < NODES && team <= 1
      modifies nodes, this`events, this`client
      ensures NodeOk(old(nodes[node]), node) && Valid() && Now() == Defends(old(Now()), node, team).0
    {
      assert inProgress;
      ghost var v := Now();
      DefendsKeep(v, node, team);
      NoAssertionFires(nodes[node], node, team);
      hide ValleyOk, NodeOk;
      if nodes[node].owner == team || nodes[node].state != ASSAULTED { return; }
      if nodes[node].totalOwner == NEUTRAL {
        assert node == SNOWFALL;
        EventPlayerAssaultsPoint(node, team);
        return;
      }
      if nodes[node].prevOwner != team { return; }
      DefendNode(node, team);
      Repaint(v, node);
    }

    method EventPlayerDestroyedPoint(node: nat)
      requires Valid() && node < NODES && nodes[node].state == ASSAULTED
      modifies nodes, this`events, this`client
      ensures NodeOk(old(nodes[node]), node) && Valid() && Now() == Destroyed(old(Now()), node)
    {
      hide ValleyOk, NodeOk, WithNode;
      ghost var v := Now();
      DestroyedKeeps(v, node);
      DestroyIsAllowed(v, node);
      assert nodes[node].owner != NEUTRAL;
      hide EventObjects.Despawn;
      DestroyNode(node);
      Repaint(v, node);
      if nodes[node].tower {
        SpawnEvent(MARSHAL + node - FIRST_TOWER, 0, false);
      }
    }

    /** A click on an object of the event (event1, event2). */
    method EventPlayerClickedOnFlag(event1: nat, event2: nat, team: nat)
      requires Valid() && team <= 1
      modifies nodes, this`events, this`client
      ensures NodesAre(old(Now())) && Valid()
      ensures Now() == if old(inProgress) then Click(old(Now()), event1, event2, team) else old(Now())
      ensures old(inProgress) ==> ClickMeans(old(Now()), Now(), event1, event2, team)
    {
      ClickIs(Now(), event1, event2, team);
      ClickKeeps(Now(), event1, event2, team);
      hide ClickMeans;
      if !inProgress { return; }
      if event1 >= NODES { return; }
      if event2 % 2 == CONTROLLED {
        EventPlayerAssaultsPoint(event1, team);
      } else {
        EventPlayerDefendsPoint(event1, team);
      }
    }

    // -------------------------------------------------------------- mines

    method ChangeMineOwner(mine: nat, team: nat)
      requires Formed() && mine < 2
      modifies mines, this`events, this`client
      ensures Now() == AlteracValley.ChangeMineOwner(old(Now()), mine, team)
    {
      hide EventObjects.Switch;
      mines[mine] := mines[mine].(timer := MINE_TICK);
      if mines[mine].owner == team { return; }
      mines[mine] := mines[mine].(prevOwner := mines[mine].owner);
      mines[mine] := mines[mine].(owner := team);
      SendMineWorldStates(mine);
      SpawnMine(mine, team);
      if team != NEUTRAL {
        mines[mine] := mines[mine].(reclaim := MINE_RECLAIM);
      }
    }

    method SendMineWorldStates(mine: nat)
      requires Formed() && mine < 2
      modifies this`client
      ensures client == ShowMine(old(client), mine, mines[mine])
    {
      UpdateWorldState(MineState(mine, mines[mine].owner), 1);
      if mines[mine].owner != mines[mine].prevOwner {
        UpdateWorldState(MineState(mine, mines[mine].prevOwner), 0);
      }
    }

    method SpawnMine(mine: nat, team: nat)
      modifies this`events
      ensures events == EventObjects.Spawn(EventObjects.Spawn(old(events), MINE_EVENT + mine, team), MINE_BOSSES + mine, team)
    {
      SpawnEvent(MINE_EVENT + mine, team, true);
      SpawnEvent(MINE_BOSSES + mine, team, true);
    }

    // -------------------------------------------------------------- quests and kills

    /** A player hands in scraps; every 500 of them the defenders of his team's graveyards improve. */
    method HandleScraps(team: nat)
      requires Valid() && team <= 1
      modifies quests, this`events
      ensures Valid() && Now() == if old(inProgress) then Scraps(old(Now()), team) else old(Now())
    {
      if !inProgress { return; }
      ScrapsKeep(Now(), team);
      hide ValleyOk;
      quests[team] := quests[team] + 20;
      if quests[team] == 500 || quests[team] == 1000 || quests[team] == 1500 {
        RepopulateGraves(team);
      }
    }

    method RepopulateGraves(team: nat)
      requires Formed()
      modifies this`events
      ensures Now() == Repopulated(old(Now()), team, FIRST_TOWER)
    {
      hide AlteracValley.PopulateNode;
      ghost var v := Now();
      for i := 0 to FIRST_TOWER
        invariant Now() == Repopulated(v, team, i) && Now().(events := v.events) == v
      {
        if nodes[i].owner == team && nodes[i].state == CONTROLLED {
          PopulateNode(i);
        }
      }
    }

    /** The boss of a mine has been killed by a player of the team. */
    method HandleKillMineBoss(mine: nat, team: nat)
      requires Valid() && mine < 2 && team <= 1
      modifies mines, this`events, this`client
      ensures Valid() && Now() == if old(inProgress) then AlteracValley.ChangeMineOwner(old(Now()), mine, team) else old(Now())
    {
      if inProgress {
        ChangeMineKeeps(Now(), mine, team);
        ChangeMineOwner(mine, team);
      }
    }

    // -------------------------------------------------------------- time

    method Update(diff: nat)
      requires Valid()
      modifies nodes, mines, this`events, this`client
      ensures Valid() && Now() == if old(inProgress) then Tick(old(Now()), diff) else old(Now())
      ensures old(inProgress) ==> NodesAged(old(Now()), Now(), diff)
    {
      if !inProgress { return; }
      hide ValleyOk, TickMine, Aged, NodesAged;
      ghost var v := Now();
      UpdateIs(v, diff);
      TickMineKeeps(v, 0, diff);
      TickMineKeeps(TickMine(v, 0, diff), 1, diff);
      UpdateMine(0, diff);
      UpdateMine(1, diff);
      UpdateNodes(diff);
    }

    method UpdateMine(mine: nat, diff: nat)
      requires Formed() && mine < 2
      modifies mines, this`events, this`client
      ensures Now() == TickMine(old(Now()), mine, diff)
    {
      if mines[mine].owner != NEUTRAL {
        hide AlteracValley.ChangeMineOwner;
        mines[mine] := mines[mine].(timer := mines[mine].timer - diff);
        if mines[mine].timer <= 0 {
          mines[mine] := mines[mine].(timer := MINE_TICK);
        }
        if mines[mine].reclaim > diff {
          mines[mine] := mines[mine].(reclaim := mines[mine].reclaim - diff);
        } else {
          ChangeMineOwner(mine, NEUTRAL);
        }
      }
    }

    method UpdateNodes(diff: nat)
      requires Valid()
      modifies nodes, this`events, this`client
      ensures Valid() && Now() == TickNodes(old(Now()), diff, NODES)
    {
      ghost var v := Now();
      for i := 0 to NODES
        invariant Formed() && ValleyOk(Now()) && Now() == TickNodes(v, diff, i)
      {
        UpdateNode(i, diff);
      }
    }

    method UpdateNode(i: nat, diff: nat)
      requires Valid() && i < NODES
      modifies nodes, this`events, this`client
      ensures NodeOk(old(nodes[i]), i) && Valid() && Now() == TickNode(old(Now()), i, diff)
      ensures nodes[i] == Aged(old(nodes[i]), diff)
    {
      hide ValleyOk, NodeOk, Aged;
      NodeTicks(Now(), i, diff, i);
      TickNodeKeeps(Now(), i, diff);
      if nodes[i].state == ASSAULTED {
        if nodes[i].timer > diff {
          nodes[i] := nodes[i].(timer := nodes[i].timer - diff);
        } else {
          EventPlayerDestroyedPoint(i);
        }
      }
    }

    // -------------------------------------------------------------- what a new player is sent

    /** A player enters: from then on his client is in step with the match. */
    method SendInitWorldStates()
      requires InOrder()
      modifies this`client
      ensures Valid() && IsSnapshot(old(Now()), client) && Now() == Entered(old(Now()), client)
    {
      var data := FillInitialWorldStates();
      EnteredOk(Now(), data);
      client := data;
    }

    /** The world states a player is sent on entering: exactly what his map has to show. */
    method FillInitialWorldStates() returns (data: map<nat, nat>)
      requires InOrder()
      ensures InSync(Now(), data)
    {
      hide MatchOk, NodeOk, Shown, InSync;
      ghost var v := Now();
      MinesKnown(v);
      data := map[];
      NothingShown(v);
      for i := 0 to NODES
        invariant Shown(v, data, 2 * i)
      {
        data := FillNode(data, i, v);
      }
      SnowfallShown(v, data);
      if nodes[SNOWFALL].owner == NEUTRAL {
        data := data[SNOWFALL_NEUTRAL := 1];
      }
      data := FillMines(data, v);
      AllShown(v, data);
    }

    method FillNode(before: map<nat, nat>, i: nat, ghost v: Valley) returns (data: map<nat, nat>)
      requires Formed() && v == Now() && i < NODES && NodeOk(v.nodes[i], i) && Shown(v, before, 2 * i)
      ensures Shown(v, data, 2 * i + 2)
    {
      hide NodeOk, Shown;
      data := before;
      NodeShown(v, data, i, 0);
      data := data[Icon(i, 0) := if nodes[i].owner == ALLIANCE && nodes[i].state == 0 then 1 else 0];
      data := data[Icon(i, 2) := if nodes[i].owner == HORDE && nodes[i].state == 0 then 1 else 0];
      NodeShown(v, data, i, 1);
      data := data[Icon(i, 1) := if nodes[i].owner == ALLIANCE && nodes[i].state == 1 then 1 else 0];
      data := data[Icon(i, 3) := if nodes[i].owner == HORDE && nodes[i].state == 1 then 1 else 0];
    }

    method FillMines(before: map<nat, nat>, ghost v: Valley) returns (data: map<nat, nat>)
      requires Formed() && v == Now() && Shown(v, before, 2 * NODES + 1)
      requires v.mines[0].owner <= 2 && v.mines[0].prevOwner <= 2 && v.mines[1].owner <= 2 && v.mines[1].prevOwner <= 2
      ensures Shown(v, data, 2 * NODES + 3)
    {
      MineShown(v, before, 0);
      data := ShowMine(before, 0, mines[0]);
      MineShown(v, data, 1);
      data := ShowMine(data, 1, mines[1]);
    }
  }

  /** A match from its creation: the objects of the map are loaded, a first player enters, and the
      battle begins. It is in order, he is in step, and of the objects loaded exactly those of active
      events stand. */
  method StartMatch(objects: seq<(EventObjects.Guid, bool)>, home: map<EventObjects.Guid, (nat, nat)>)
    returns (bg: BattleGroundAV)
    requires EventObjects.Loadable(home)
    ensures fresh(bg) && bg.Valid() && bg.inProgress && Fresh(bg.Now())
    ensures forall i :: 0 <= i < |objects| && objects[i].0 in home ==>
              var (e1, e2) := home[objects[i].0];
              objects[i].0 in bg.events.spawned <==> bg.events.IsActive(e1, e2)
  {
    bg := new BattleGroundAV();
    LoadObjects(bg, objects, home);
    bg.SendInitWorldStates();
    bg.StartingEventOpenDoors();
  }

  method LoadObjects(bg: BattleGroundAV, objects: seq<(EventObjects.Guid, bool)>, home: map<EventObjects.Guid, (nat, nat)>)
    requires bg.InOrder() && EventObjects.Loadable(home) && EventObjects.AtHome(bg.events, home)
    modifies bg`events
    ensures bg.InOrder() && EventObjects.AtHome(bg.events, home) && bg.events.active == old(bg.events.active)
    ensures forall i :: 0 <= i < |objects| && objects[i].0 in home ==>
              EventObjects.Owns(bg.events, home[objects[i].0].0, home[objects[i].0].1, objects[i].0)
  {
    hide MatchOk, EventObjects.AtHome, EventObjects.Owns, EventObjects.Take;
    for n := 0 to |objects|
      invariant bg.InOrder() && EventObjects.AtHome(bg.events, home) && bg.events.active == old(bg.events.active)
      invariant forall i :: 0 <= i < n && objects[i].0 in home ==>
                  EventObjects.Owns(bg.events, home[objects[i].0].0, home[objects[i].0].1, objects[i].0)
    {
      bg.OnObjectDBLoad(objects[n].0, objects[n].1, home);
    }
  }

  lemma DestroyIsAllowed(v: Valley, node: nat)
    requires ValleyOk(v) && node < NODES && v.nodes[node].state == ASSAULTED
    ensures |v.nodes| == NODES && v.nodes[node].owner != NEUTRAL && v.nodes[node].tower == (node >= FIRST_TOWER)
  {
    assert NodeOk(v.nodes[node], node);
  }

  // ---------------------------------------------------------------- filling in the icons one by one

  /** The order in which the icons are filled in. */
  function Rank(p: Place): nat {
    match p
    case NodeIcon(node, k) => 2 * node + k % 2
    case SnowfallIcon => 2 * NODES
    case MineIcon(mine, owner) => 2 * NODES + 1 + mine
    case NoIcon => 100
  }

  ghost predicate ShownAt(v: Valley, data: map<nat, nat>, n: nat, w: nat)
    requires |v.nodes| == NODES && |v.mines| == 2
  {
    PlaceOf(w) != NoIcon ==> Get(data, w) == if Rank(PlaceOf(w)) < n && Lit(v, PlaceOf(w)) then 1 else 0
  }

  /** The icons of rank less than n are filled in, the others are dark. */
  ghost predicate Shown(v: Valley, data: map<nat, nat>, n: nat)
    requires |v.nodes| == NODES && |v.mines| == 2
  {
    forall w: nat :: ShownAt(v, data, n, w)
  }

  lemma MinesKnown(v: Valley)
    requires MatchOk(v)
    ensures Shape(v) && forall i :: 0 <= i < NODES ==> NodeOk(v.nodes[i], i)
    ensures v.mines[0].owner <= 2 && v.mines[0].prevOwner <= 2 && v.mines[1].owner <= 2 && v.mines[1].prevOwner <= 2
  {
  }

  lemma NothingShown(v: Valley)
    requires |v.nodes| == NODES && |v.mines| == 2
    ensures Shown(v, map[], 0)
  {
  }

  lemma NodeShown(v: Valley, data: map<nat, nat>, node: nat, j: nat)
    requires |v.nodes| == NODES && |v.mines| == 2 && node < NODES && j < 2
    requires NodeOk(v.nodes[node], node) && Shown(v, data, 2 * node + j)
    ensures var n := v.nodes[node];
            var data' := data[Icon(node, j) := if n.owner == ALLIANCE && n.state == j then 1 else 0]
                             [Icon(node, 2 + j) := if n.owner == HORDE && n.state == j then 1 else 0];
            Shown(v, data', 2 * node + j + 1)
  {
    var n := v.nodes[node];
    var data' := data[Icon(node, j) := if n.owner == ALLIANCE && n.state == j then 1 else 0]
                     [Icon(node, 2 + j) := if n.owner == HORDE && n.state == j then 1 else 0];
    var next := 2 * node + j + 1;
    forall w: nat ensures ShownAt(v, data', next, w) {
      assert ShownAt(v, data, 2 * node + j, w);
      NodeShownAt(v, data, node, j, w);
    }
  }

  lemma NodeShownAt(v: Valley, data: map<nat, nat>, node: nat, j: nat, w: nat)
    requires |v.nodes| == NODES && |v.mines| == 2 && node < NODES && j < 2
    requires NodeOk(v.nodes[node], node) && ShownAt(v, data, 2 * node + j, w)
    ensures var n := v.nodes[node];
            var data' := data[Icon(node, j) := if n.owner == ALLIANCE && n.state == j then 1 else 0]
                             [Icon(node, 2 + j) := if n.owner == HORDE && n.state == j then 1 else 0];
            ShownAt(v, data', 2 * node + j + 1, w)
  {
    hide PlaceOf, Icon;
    IconsDiffer(node, j);
    IconsDiffer(node, 2 + j);
    if PlaceOf(w) == NodeIcon(node, j) { SamePlace(w, Icon(node, j)); }
    if PlaceOf(w) == NodeIcon(node, 2 + j) { SamePlace(w, Icon(node, 2 + j)); }
    if PlaceOf(w).NodeIcon? { NumberOf(w); }
  }

  lemma SnowfallShown(v: Valley, data: map<nat, nat>)
    requires |v.nodes| == NODES && |v.mines| == 2 && Shown(v, data, 2 * NODES)
    ensures Shown(v, if v.nodes[SNOWFALL].owner == NEUTRAL then data[SNOWFALL_NEUTRAL := 1] else data, 2 * NODES + 1)
  {
    var data' := if v.nodes[SNOWFALL].owner == NEUTRAL then data[SNOWFALL_NEUTRAL := 1] else data;
    SnowfallPlace();
    var next := 2 * NODES + 1;
    forall w: nat ensures ShownAt(v, data', next, w) {
      assert ShownAt(v, data, 2 * NODES, w);
      NumberOf(w);
    }
  }

  lemma MineShown(v: Valley, data: map<nat, nat>, mine: nat)
    requires |v.nodes| == NODES && |v.mines| == 2 && mine < 2 && v.mines[mine].owner <= 2 && v.mines[mine].prevOwner <= 2
    requires Shown(v, data, 2 * NODES + 1 + mine)
    ensures Shown(v, ShowMine(data, mine, v.mines[mine]), 2 * NODES + 2 + mine)
  {
    var m := v.mines[mine];
    var data' := ShowMine(data, mine, m);
    MinesDiffer(mine, m.owner);
    MinesDiffer(mine, m.prevOwner);
    hide PlaceOf, Icon, MineState;
    var next := 2 * NODES + 2 + mine;
    forall w: nat ensures ShownAt(v, data', next, w) {
      assert ShownAt(v, data, 2 * NODES + 1 + mine, w);
      NumberOf(w);
    }
  }

  lemma AllShown(v: Valley, data: map<nat, nat>)
    requires |v.nodes| == NODES && |v.mines| == 2 && Shown(v, data, 2 * NODES + 3)
    ensures InSync(v, data)
  {
    forall w: nat ensures Shows(v, data, w) {
      assert ShownAt(v, data, 2 * NODES + 3, w);
      NumberOf(w);
    }
  }
}
