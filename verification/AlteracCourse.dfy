/** What clicks and the passing of time make of Alterac Valley's nodes and mines
    (src/game/BattleGround/BattleGroundAV.cpp), told by their owners, states and timers. */
module AlteracCourse {
  import opened AlteracIcons
  import opened AlteracValley
  import opened AlteracMatch
  import EventObjects

  // ---------------------------------------------------------------- clicks

  /** The team has taken the banner: the node is contested, and the clock is set. The first time a
      neutral node is taken, and the time after that, the clock is the long one. */
  predicate Contested(n: Node, n': Node, team: nat) {
    n' == Node(n.totalOwner, team, n.owner, 0, n.state, if n.prevOwner == 2 then 300000 else 240000, n.tower)
  }

  /** The node is its team's again, as if nothing had happened but for who held it last. */
  predicate GivenBack(n: Node, n': Node, team: nat) {
    n.totalOwner == team && n' == Node(team, team, n.owner, 1, n.state, 0, n.tower)
  }

  /** No other node, no mine and no quest has changed. */
  predicate OnlyNode(v: Valley, v': Valley, node: nat) {
    && |v'.nodes| == |v.nodes| && (forall i :: 0 <= i < |v.nodes| && i != node ==> v'.nodes[i] == v.nodes[i])
    && v'.mines == v.mines && v'.quests == v.quests
  }

  /** A click on the banner that stands at a node: a team takes the node it neither owns nor holds;
      the team that owns a node contested by the other gets it back; while nobody owns it the teams
      take it from each other; and whoever holds the banner clicks in vain. */
  lemma StandingBannerClicked(v: Valley, node: nat, team: nat)
    requires ValleyOk(v) && node < NODES && team <= 1
    ensures NodesAre(v) && v.events.IsActive(node, v.nodes[node].owner * 2 + v.nodes[node].state)
    ensures var n := v.nodes[node];
            var v' := Click(v, node, n.owner * 2 + n.state, team);
            && OnlyNode(v, v', node)
            && (n.owner == team ==> v' == v)
            && (n.owner != team ==>
                  if n.state == 1 || n.totalOwner == 2 then Contested(n, v'.nodes[node], team)
                  else GivenBack(n, v'.nodes[node], team))
  {
    hide ValleyOk, Click, WithNode, NodeOk, OnlyNode, Contested, GivenBack;
    BannerStands(v, node);
    Parity(v.nodes[node].owner, v.nodes[node].state);
    ClickIs(v, node, v.nodes[node].owner * 2 + v.nodes[node].state, team);
  }

  lemma BannerStands(v: Valley, node: nat)
    requires ValleyOk(v) && node < NODES
    ensures NodesAre(v) && v.events.IsActive(node, v.nodes[node].owner * 2 + v.nodes[node].state)
    ensures var n := v.nodes[node];
            n.state <= 1 && (n.state == 1 ==> n.owner == n.totalOwner)
  {
    hide InSync, EventObjects.Good;
    NodeFits(v, node);
  }

  lemma Parity(owner: nat, state: nat)
    requires state <= 1
    ensures (owner * 2 + state) % 2 == state
  {
  }

  /** A click on any object, even one of a banner that has gone meanwhile: only nodes can be clicked;
      the banner of a controlled node lets a team take the node, whatever its state is by now, unless
      it owns or holds it; that of a contested node acts only on a contested node. */
  predicate ClickMeans(v: Valley, v': Valley, event1: nat, event2: nat, team: nat)
    requires |v.nodes| == |v'.nodes| == 15
  {
    if event1 >= 15 then v' == v
    else
      var n, n' := v.nodes[event1], v'.nodes[event1];
      && OnlyNode(v, v', event1)
      && if event2 % 2 == 1 then
           if n.owner == team || n.totalOwner == team then v' == v else Contested(n, n', team)
         else
           if n.owner == team || n.state == 1 then v' == v
           else if n.totalOwner == 2 then Contested(n, n', team)
           else GivenBack(n, n', team)
  }

  lemma ClickIs(v: Valley, event1: nat, event2: nat, team: nat)
    requires ValleyOk(v) && team <= 1
    ensures NodesAre(v) && |Click(v, event1, event2, team).nodes| == 15
    ensures ClickMeans(v, Click(v, event1, event2, team), event1, event2, team)
  {
    ClickKeeps(v, event1, event2, team);
    if event1 < NODES {
      NodeFits(v, event1);
    }
    hide ValleyOk, PopulateNode, UpdateIcons;
  }

  // ---------------------------------------------------------------- time

  /** A node after it has been left alone for t milliseconds: a contested one counts down, and goes
      for good to the team that holds it when its time is up. */
  function Aged(n: Node, t: nat): Node {
    if n.state == 1 then n
    else if t < n.timer then n.(timer := n.timer - t)
    else Node(n.owner, n.owner, n.owner, 1, 0, 0, n.tower)
  }

  /** How the time is cut into updates is no matter. */
  lemma AgedTwice(n: Node, node: nat, t: nat, u: nat)
    requires NodeOk(n, node)
    ensures Aged(Aged(n, t), u) == Aged(n, t + u)
  {
  }

  lemma NodeTicks(v: Valley, node: nat, diff: nat, i: nat)
    requires ValleyOk(v) && node < NODES && i < NODES
    ensures NodesAre(v) && |TickNode(v, node, diff).nodes| == NODES
    ensures TickNode(v, node, diff).nodes[i] == if i == node then Aged(v.nodes[i], diff) else v.nodes[i]
  {
    NodeFits(v, node);
    hide ValleyOk, PopulateNode, UpdateIcons;
  }

  lemma {:induction false} NodesTick(v: Valley, diff: nat, k: nat, i: nat)
    requires ValleyOk(v) && k <= NODES && i < NODES
    ensures |TickNodes(v, diff, k).nodes| == |v.nodes| == NODES
    ensures TickNodes(v, diff, k).nodes[i] == if i < k then Aged(v.nodes[i], diff) else v.nodes[i]
  {
    hide ValleyOk, TickNode, Aged;
    InRange(v);
    if k > 0 {
      var v1 := TickNodes(v, diff, k - 1);
      NodesTick(v, diff, k - 1, i);
      TickNodeKeeps(v1, k - 1, diff);
      NodeTicks(v1, k - 1, diff, i);
    }
  }

  lemma MineTickKeepsNodes(v: Valley, mine: nat, diff: nat)
    requires mine < |v.mines|
    ensures TickMine(v, mine, diff).nodes == v.nodes
  {
  }

  /** One update of a running battle, as far as the nodes are concerned. */
  predicate NodesAged(v: Valley, v': Valley, diff: nat) {
    |v'.nodes| == |v.nodes| && forall i :: 0 <= i < |v.nodes| ==> v'.nodes[i] == Aged(v.nodes[i], diff)
  }

  lemma UpdateIs(v: Valley, diff: nat)
    requires ValleyOk(v)
    ensures |v.nodes| == NODES && NodesAged(v, Tick(v, diff), diff)
  {
    InRange(v);
    hide ValleyOk, Tick, Aged;
    forall i: nat | i < NODES ensures |Tick(v, diff).nodes| == NODES && Tick(v, diff).nodes[i] == Aged(v.nodes[i], diff) {
      TickAges(v, diff, i);
    }
    TickAges(v, diff, 0);
  }

  lemma TickAges(v: Valley, diff: nat, i: nat)
    requires ValleyOk(v) && i < NODES
    ensures |Tick(v, diff).nodes| == |v.nodes| == NODES
    ensures Tick(v, diff).nodes[i] == Aged(v.nodes[i], diff)
  {
    hide ValleyOk, TickMine, TickNodes, Aged;
    InRange(v);
    TickMineKeeps(v, 0, diff);
    var v1 := TickMine(v, 0, diff);
    InRange(v1);
    TickMineKeeps(v1, 1, diff);
    MineTickKeepsNodes(v, 0, diff);
    MineTickKeepsNodes(v1, 1, diff);
    NodesTick(TickMine(v1, 1, diff), diff, NODES, i);
  }

  function Elapsed(steps: seq<Step>): nat {
    if steps == [] then 0
    else Elapsed(steps[..|steps| - 1]) + if steps[|steps| - 1].Waits? then steps[|steps| - 1].diff else 0
  }

  /** Nobody clicks on an object of this node. */
  predicate LeftAlone(steps: seq<Step>, node: nat) {
    forall i :: 0 <= i < |steps| && steps[i].Clicks? ==> steps[i].event1 != node
  }

  lemma {:induction false} RepopulatedNodes(v: Valley, team: nat, k: nat)
    requires k <= |v.nodes|
    ensures Repopulated(v, team, k).nodes == v.nodes && Repopulated(v, team, k).mines == v.mines
    ensures Repopulated(v, team, k).quests == v.quests && Repopulated(v, team, k).client == v.client
  {
    hide PopulateNode;
    if k > 0 { RepopulatedNodes(v, team, k - 1); }
  }

  lemma StepAges(v: Valley, s: Step, node: nat)
    requires ValleyOk(v) && Possible(s) && node < NODES && (s.Clicks? ==> s.event1 != node)
    ensures |Take(v, s).nodes| == |v.nodes| == NODES
    ensures Take(v, s).nodes[node] == Aged(v.nodes[node], if s.Waits? then s.diff else 0)
  {
    InRange(v);
    assert NodeOk(v.nodes[node], node);
    match s
    case Clicks(event1, event2, team) => ClickIs(v, event1, event2, team); hide Click;
    case KillsMineBoss(mine, team) =>
    case HandsInScraps(team) =>
      RepopulatedNodes(v.(quests := v.quests[team := v.quests[team] + 20]), team, FIRST_TOWER);
      hide Repopulated;
    case Waits(diff) => TickAges(v, diff, node); hide Tick;
    hide ValleyOk;
  }

  /** Whatever else goes on in the match: a contested node that nobody clicks on is what it was, less
      the time that has passed, until the time passed reaches what was on its clock; from that very
      update on it belongs to the team that took it. A controlled node stays as it is. */
  lemma {:induction false} LeftAloneAges(v: Valley, steps: seq<Step>, node: nat)
    requires ValleyOk(v) && AllPossible(steps) && node < NODES && LeftAlone(steps, node)
    ensures |Played(v, steps).nodes| == |v.nodes| == NODES
    ensures Played(v, steps).nodes[node] == Aged(v.nodes[node], Elapsed(steps))
    decreases |steps|
  {
    hide ValleyOk, Take, Aged, NodeOk;
    InRange(v);
    if steps == [] {
      AgedByNothing(v.nodes[node], node);
    } else {
      var rest, s := steps[..|steps| - 1], steps[|steps| - 1];
      LeftAloneAges(v, rest, node);
      StepAges(Played(v, rest), s, node);
      AgedTwice(v.nodes[node], node, Elapsed(rest), if s.Waits? then s.diff else 0);
    }
  }

  lemma AgedByNothing(n: Node, node: nat)
    requires NodeOk(n, node)
    ensures Aged(n, 0) == n
  {
  }

  /** So a node taken with a click falls to the team that took it exactly when its time has passed
      with nobody at its banner again; `n` is what the node was before the click. */
  lemma TakenNodeFalls(n: Node, v: Valley, node: nat, team: nat, steps: seq<Step>)
    requires ValleyOk(v) && node < NODES && |v.nodes| == NODES && Contested(n, v.nodes[node], team)
    requires AllPossible(steps) && LeftAlone(steps, node)
    ensures |Played(v, steps).nodes| == NODES
    ensures var n' := Played(v, steps).nodes[node];
            var time := if n.prevOwner == 2 then 300000 else 240000;
            if Elapsed(steps) >= time then n'.totalOwner == n'.owner == team && n'.state == 1
            else n'.totalOwner == n.totalOwner && n'.owner == team && n'.state == 0 && n'.timer == time - Elapsed(steps)
  {
    hide ValleyOk, Elapsed, Played;
    LeftAloneAges(v, steps, node);
  }

  /** How far a team's scraps have got: one tier for every 500, and no more than three. */
  function Tier(quest: nat): nat {
    if quest >= 1500 then 3 else quest / 500
  }

  lemma TierIs(quest: nat)
    ensures GraveDefenderType(quest) == Tier(quest)
  {
  }

  /** The defenders of a graveyard: those of the team that controls it stand from the moment it does,
      as strong as its scraps have made them. When it is taken, those of the team that held it leave
      exactly if the scraps of the team that takes it have got as far: their strength is looked up
      under the wrong team. */
  lemma DefendersAre(e: EventObjects.Events, node: nat, n: Node, quest: nat)
    requires node < FIRST_TOWER && !n.tower && n.owner <= 1 && n.prevOwner <= 2 && n.state <= 1
    requires node in e.active && 15 + node in e.active
    ensures var e' := PopulateNode(e, node, n, quest);
            && node in e'.active && e'.active[node] == n.owner * 2 + n.state
            && 15 + node in e'.active
            && e'.active[15 + node]
               == (if n.state == 1 then n.owner * 4 + Tier(quest)
                   else if e.active[15 + node] == n.prevOwner * 4 + Tier(quest) then EventObjects.NONE
                   else e.active[15 + node])
  {
    hide EventObjects.Spawn, EventObjects.Despawn, GraveDefenderType, Tier;
    var e1 := GRAVE_EVENT + node;
    TierIs(quest);
    TierBound(quest);
    EventObjects.SwitchActive(e, e1, n.owner * 4 + Tier(quest));
    EventObjects.SwitchActive(e, e1, n.prevOwner * 4 + Tier(quest));
    EventObjects.SwitchActive(Defenders(e, node, n, quest), node, Banner(n));
  }

  lemma TierBound(quest: nat)
    ensures Tier(quest) <= 3
  {
  }

  // ---------------------------------------------------------------- mines and scraps

  /** The boss of a mine has been killed: the mine goes to the killers, for the next twenty minutes;
      if it was theirs already, only the clock of its next point starts again. */
  lemma BossKilled(v: Valley, mine: nat, team: nat)
    requires ValleyOk(v) && mine < 2 && team <= 1
    ensures |v.mines| == 2
    ensures var (m, v') := (v.mines[mine], Take(v, KillsMineBoss(mine, team)));
            && v'.nodes == v.nodes && v'.quests == v.quests && |v'.mines| == 2 && v'.mines[1 - mine] == v.mines[1 - mine]
            && v'.mines[mine] == (if m.owner == team then m.(timer := 45000) else Mine(team, m.owner, 45000, 1200000))
            && (m.owner != team ==> v'.events.IsActive(50 + mine, team) && v'.events.IsActive(46 + mine, team))
  {
    assert EventsKnown(v.events) && EventObjects.Good(v.events) && MARSHAL > MINE_EVENT;
    hide ValleyOk, ShowMine;
    BossesCome(v.events, mine, team);
    hide EventObjects.Spawn;
  }

  lemma BossesCome(e: EventObjects.Events, mine: nat, team: nat)
    requires EventsKnown(e) && EventObjects.Good(e) && mine < 2 && team <= 2
    ensures var e' := EventObjects.Spawn(EventObjects.Spawn(e, MINE_EVENT + mine, team), MINE_BOSSES + mine, team);
            e'.IsActive(50 + mine, team) && e'.IsActive(46 + mine, team)
  {
    hide EventObjects.Spawn, EventObjects.Good;
    SpawnStays(e, MINE_EVENT + mine, team);
    SpawnStays(EventObjects.Spawn(e, MINE_EVENT + mine, team), MINE_BOSSES + mine, team);
  }

  /** What t milliseconds without a boss killed make of a mine: it is held until its time is up. */
  predicate MineAfter(m: Mine, m': Mine, t: nat) {
    if m.owner == 2 then m' == m
    else if t < m.reclaim then m'.owner == m.owner && m'.prevOwner == m.prevOwner && m'.reclaim == m.reclaim - t
    else m'.owner == 2 && m'.prevOwner == m.owner
  }

  /** One update of one mine: besides, the clock of the next point starts again when it has run out or
      the mine is lost. */
  lemma MineTicks(v: Valley, mine: nat, diff: nat, i: nat)
    requires mine < |v.mines| && i < |v.mines| && v.mines[mine].owner <= 2
    ensures |TickMine(v, mine, diff).mines| == |v.mines|
    ensures if i == mine then MineAfter(v.mines[i], TickMine(v, mine, diff).mines[i], diff)
            else TickMine(v, mine, diff).mines[i] == v.mines[i]
    ensures var m := v.mines[mine];
            TickMine(v, mine, diff).mines[mine].timer ==
            (if m.owner == 2 then m.timer
             else if m.reclaim <= diff || m.timer <= diff then 45000
             else m.timer - diff)
  {
    hide ShowMine, EventObjects.Spawn;
  }

  lemma NodeTickKeepsMines(v: Valley, node: nat, diff: nat)
    requires node < |v.nodes| && NodeOk(v.nodes[node], node)
    ensures TickNode(v, node, diff).mines == v.mines
  {
    hide PopulateNode, UpdateIcons;
  }

  lemma {:induction false} NodeTicksKeepMines(v: Valley, diff: nat, k: nat)
    requires ValleyOk(v) && k <= NODES
    ensures TickNodes(v, diff, k).mines == v.mines
  {
    hide ValleyOk, TickNode;
    if k > 0 {
      NodeTicksKeepMines(v, diff, k - 1);
      var v1 := TickNodes(v, diff, k - 1);
      TickNodeKeeps(v1, k - 1, diff);
      InRange(v1);
      NodeTickKeepsMines(v1, k - 1, diff);
    }
  }

  lemma TickMineAfter(v: Valley, diff: nat, mine: nat)
    requires ValleyOk(v) && mine < 2
    ensures |Tick(v, diff).mines| == |v.mines| == 2 && MineAfter(v.mines[mine], Tick(v, diff).mines[mine], diff)
  {
    hide ValleyOk, TickMine, TickNodes, MineAfter;
    MinesInOrder(v);
    TickMineKeeps(v, 0, diff);
    var v1 := TickMine(v, 0, diff);
    MinesInOrder(v1);
    TickMineKeeps(v1, 1, diff);
    MineTicks(v, 0, diff, mine);
    MineTicks(v1, 1, diff, mine);
    NodeTicksKeepMines(TickMine(v1, 1, diff), diff, NODES);
  }

  lemma MinesInOrder(v: Valley)
    requires ValleyOk(v)
    ensures |v.mines| == 2 && MineOk(v.mines[0]) && MineOk(v.mines[1])
  {
  }

  /** Nobody kills the boss of this mine. */
  predicate BossLives(steps: seq<Step>, mine: nat) {
    forall i :: 0 <= i < |steps| && steps[i].KillsMineBoss? ==> steps[i].mine != mine
  }

  lemma MineStep(v: Valley, s: Step, mine: nat)
    requires ValleyOk(v) && Possible(s) && mine < 2 && (s.KillsMineBoss? ==> s.mine != mine)
    ensures |Take(v, s).mines| == |v.mines| == 2
    ensures MineAfter(v.mines[mine], Take(v, s).mines[mine], if s.Waits? then s.diff else 0)
  {
    hide ValleyOk, MineAfter, MineOk, NodeOk, Contested, GivenBack, GravesStand, Tick, Tier, ChangeMineOwner, Click, Repopulated;
    MinesInOrder(v);
    NoTimeAtAll(v.mines[mine]);
    match s
    case Clicks(event1, event2, team) => ClickIs(v, event1, event2, team);
    case KillsMineBoss(other, team) => BossKilled(v, other, team);
    case HandsInScraps(team) => ScrapsHandedIn(v, team);
    case Waits(diff) => TickMineAfter(v, diff, mine);
  }

  lemma MineAfterTwice(m: Mine, m1: Mine, m2: Mine, t: nat, u: nat)
    requires MineOk(m) && MineAfter(m, m1, t) && MineAfter(m1, m2, u)
    ensures MineAfter(m, m2, t + u)
  {
  }

  /** Whatever else goes on in the match: a mine whose boss lives stays with the team that holds it
      until the time passed reaches what was on its clock, and is nobody's from that update on. */
  lemma {:induction false} HeldMineRunsOut(v: Valley, steps: seq<Step>, mine: nat)
    requires ValleyOk(v) && AllPossible(steps) && mine < 2 && BossLives(steps, mine)
    ensures |Played(v, steps).mines| == |v.mines| == 2
    ensures MineAfter(v.mines[mine], Played(v, steps).mines[mine], Elapsed(steps))
    decreases |steps|
  {
    hide ValleyOk, Take, MineAfter;
    MinesInOrder(v);
    if steps == [] {
      NoTimeAtAll(v.mines[mine]);
    } else {
      var rest, s := steps[..|steps| - 1], steps[|steps| - 1];
      HeldMineRunsOut(v, rest, mine);
      MineStep(Played(v, rest), s, mine);
      var t := if s.Waits? then s.diff else 0;
      MineAfterTwice(v.mines[mine], Played(v, rest).mines[mine], Played(v, steps).mines[mine], Elapsed(rest), t);
    }
  }

  lemma NoTimeAtAll(m: Mine)
    requires MineOk(m)
    ensures MineAfter(m, m, 0)
  {
  }

  /** A team hands in scraps: its count goes up by 20; with the 500th, the 1000th and the 1500th the
      defenders of every graveyard it controls are those of its new tier. */
  lemma ScrapsHandedIn(v: Valley, team: nat)
    requires ValleyOk(v) && team <= 1
    ensures |v.quests| == 2 && NodesAre(v)
    ensures var v' := Take(v, HandsInScraps(team));
            var quest := v.quests[team] + 20;
            && v'.nodes == v.nodes && v'.mines == v.mines && v'.client == v.client
            && v'.quests == v.quests[team := quest]
            && (if quest == 500 || quest == 1000 || quest == 1500 then GravesStand(v', team, Tier(quest)) else v'.events == v.events)
  {
    hide ValleyOk, NodeOk, Tier, GravesStand, Repopulated;
    InRange(v);
    var v1 := v.(quests := v.quests[team := v.quests[team] + 20]);
    RepopulatedNodes(v1, team, FIRST_TOWER);
    QuestCounted(v, team);
    GravesRepopulated(v1, team);
  }

  /** The defenders of every graveyard the team controls are of this tier. */
  ghost predicate GravesStand(v: Valley, team: nat, tier: nat) {
    forall node: nat | node < 7 && node < |v.nodes| && v.nodes[node].owner == team && v.nodes[node].state == 1 ::
      v.events.IsActive(15 + node, team * 4 + tier)
  }

  lemma QuestCounted(v: Valley, team: nat)
    requires ValleyOk(v) && team <= 1
    ensures |v.quests| == 2 && ValleyOk(v.(quests := v.quests[team := v.quests[team] + 20]))
  {
    var v1 := v.(quests := v.quests[team := v.quests[team] + 20]);
    SameIcons(v, v1, v.client);
    hide InSync, NodeOk, EventObjects.Good, EventsKnown, MineOk;
  }

  lemma GravesRepopulated(v: Valley, team: nat)
    requires ValleyOk(v) && team <= 1
    ensures |v.nodes| == NODES && |v.quests| == 2
    ensures GravesStand(Repopulated(v, team, FIRST_TOWER), team, Tier(v.quests[team]))
  {
    hide ValleyOk, NodeOk, Tier, Repopulated;
    InRange(v);
    var v' := Repopulated(v, team, FIRST_TOWER);
    RepopulatedNodes(v, team, FIRST_TOWER);
    forall node: nat | node < 7 && node < |v'.nodes| && v'.nodes[node].owner == team && v'.nodes[node].state == 1
      ensures v'.events.IsActive(15 + node, team * 4 + Tier(v.quests[team]))
    {
      RepopulatedAt(v, team, FIRST_TOWER, node);
    }
  }

  lemma {:induction false} RepopulatedAt(v: Valley, team: nat, k: nat, node: nat)
    requires ValleyOk(v) && team <= 1 && node < k <= FIRST_TOWER
    requires |v.nodes| == NODES && v.nodes[node].owner == team && v.nodes[node].state == 1
    ensures Repopulated(v, team, k).events.IsActive(15 + node, team * 4 + Tier(QuestOf(v, team)))
  {
    hide ValleyOk, PopulateNode, Tier, QuestOf;
    var v1, n := Repopulated(v, team, k - 1), v.nodes[k - 1];
    RepopulatedKeeps(v, team, k - 1);
    if node == k - 1 {
      GraveKnown(v1, node);
      DefendersAre(v1.events, node, n, QuestOf(v, team));
    } else {
      RepopulatedAt(v, team, k - 1, node);
      OtherGraveStays(v1, k - 1, node, QuestOf(v, team));
    }
  }

  lemma GraveKnown(v: Valley, node: nat)
    requires ValleyOk(v) && node < FIRST_TOWER
    ensures |v.nodes| == NODES && node in v.events.active && 15 + node in v.events.active
    ensures !v.nodes[node].tower && v.nodes[node].prevOwner <= 2
  {
    assert NodeOk(v.nodes[node], node);
    assert IsEvent(node) && IsEvent(15 + node);
  }

  lemma OtherGraveStays(v: Valley, node: nat, other: nat, quest: nat)
    requires ValleyOk(v) && node < FIRST_TOWER && other < FIRST_TOWER && node != other && |v.nodes| == NODES
    ensures 15 + other in v.events.active
    ensures var e' := PopulateNode(v.events, node, v.nodes[node], quest);
            15 + other in e'.active && e'.active[15 + other] == v.events.active[15 + other]
  {
    GraveKnown(v, other);
    NodeFits(v, node);
    var (e, n) := (v.events, v.nodes[node]);
    assert EventsKnown(e) && EventObjects.Good(e);
    hide ValleyOk;
    DefendersStay(e, node, n, quest);
    SpawnStays(Defenders(e, node, n, quest), node, Banner(n));
    hide EventObjects.Spawn, EventObjects.Good, EventsKnown, Defenders;
  }

  /** When a tower falls, its marshal is gone. */
  lemma FallenTower(v: Valley, node: nat, diff: nat)
    requires ValleyOk(v) && FIRST_TOWER <= node < NODES && NodesAre(v) && v.nodes[node].state == 0 && v.nodes[node].timer <= diff
    ensures !TickNode(v, node, diff).events.IsActive(52 + node - 7, 0)
  {
    assert v.nodes[node].tower && IsEvent(MARSHAL + node - FIRST_TOWER) && EventsKnown(v.events);
    hide ValleyOk, NodeOk, PopulateNode;
    var e := WithNode(v, node, DestroyNode(v.nodes[node])).events;
    if MARSHAL + node - FIRST_TOWER in e.active {
      EventObjects.SwitchActive(e, MARSHAL + node - FIRST_TOWER, 0);
    }
  }

  // ---------------------------------------------------------------- the start

  /** Each team starts with three graveyards and four towers of its own, Snowfall with nobody. */
  lemma StartIs(node: nat)
    requires node < NODES
    ensures var owner := if node == 3 then 2 else if node < 3 || node in {7, 8, 9, 10} then 0 else 1;
            StartNodes()[node] == Node(owner, owner, owner, 1, 1, 0, node >= 7)
  {
  }
}
