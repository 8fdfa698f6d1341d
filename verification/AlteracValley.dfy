/** The nodes and mines of Alterac Valley (src/game/BattleGround/BattleGroundAV.cpp): who holds them,
    which banner stands there, and what the players' maps show. Every function here is what one of the
    battleground's methods does; its `requires` are that method's assertions. */
module AlteracValley {
  import opened AlteracIcons
  import EventObjects

  const ALLIANCE := 0
  const HORDE := 1
  const NEUTRAL := 2

  const ASSAULTED := 0               // POINT_ASSAULTED
  const CONTROLLED := 1              // POINT_CONTROLLED

  const CAPTIME := 240000
  const SNOWFALL_FIRSTCAP := 300000
  const MINE_TICK := 45000
  const MINE_RECLAIM := 1200000

  const GRAVE_EVENT := 15            // BG_AV_NODES_MAX + node: the graveyard's defenders
  const MINE_BOSSES := 46
  const MINE_EVENT := 50
  const MARSHAL := 52
  const FIRST_TOWER := 7

  datatype Node = Node(totalOwner: nat, owner: nat, prevOwner: nat, state: nat, prevState: nat, timer: nat, tower: bool)

  datatype Mine = Mine(owner: nat, prevOwner: nat, timer: int, reclaim: nat)

  /** `quests` counts the scraps each team has handed in; `client` is what a player's client holds: the
      world states it has been sent, 0 for any other. */
  datatype Valley = Valley(nodes: seq<Node>, mines: seq<Mine>, quests: seq<nat>, events: EventObjects.Events, client: map<nat, nat>)

  // ---------------------------------------------------------------- one node

  function AssaultNode(n: Node, team: nat): Node
    requires n.totalOwner != team && n.owner != team && (n.state != ASSAULTED || n.totalOwner == NEUTRAL)
  {
    n.(timer := if n.prevOwner != NEUTRAL then CAPTIME else SNOWFALL_FIRSTCAP,
       prevOwner := n.owner, owner := team, prevState := n.state, state := ASSAULTED)
  }

  function DestroyNode(n: Node): Node
    requires n.state == ASSAULTED && n.owner != NEUTRAL
  {
    n.(totalOwner := n.owner, prevOwner := n.owner, prevState := n.state, state := CONTROLLED, timer := 0)
  }

  function DefendNode(n: Node, team: nat): Node
    requires n.totalOwner == team && n.owner != team && n.state != CONTROLLED
  {
    n.(prevOwner := n.owner, owner := team, prevState := n.state, state := CONTROLLED, timer := 0)
  }

  function InitNode(team: nat, tower: bool): Node {
    Node(team, team, team, CONTROLLED, CONTROLLED, 0, tower)
  }

  /** A controlled node belongs to its owner for good; an assaulted one is held by a team that does not
      own it, for a while. Only Snowfall is ever neutral. */
  ghost predicate NodeOk(n: Node, node: nat) {
    && n.totalOwner <= 2 && n.owner <= 2 && n.prevOwner <= 2 && n.state <= 1 && n.prevState <= 1
    && (n.state == CONTROLLED ==> n.owner == n.totalOwner && n.timer == 0)
    && (n.state == ASSAULTED ==> n.owner != NEUTRAL && n.owner != n.totalOwner && n.timer > 0
                                 && (n.totalOwner != NEUTRAL ==> n.prevOwner == n.totalOwner))
    && (n.totalOwner == NEUTRAL || n.owner == NEUTRAL || n.prevOwner == NEUTRAL ==> node == SNOWFALL)
  }

  datatype NodeStep = Assault(team: nat) | Defend(team: nat) | Destroy

  /** When the node's assertions allow the step. */
  ghost predicate Allowed(n: Node, s: NodeStep) {
    match s
    case Assault(team) => team <= 1 && n.totalOwner != team && n.owner != team && (n.state != ASSAULTED || n.totalOwner == NEUTRAL)
    case Defend(team) => team <= 1 && n.totalOwner == team && n.owner != team && n.state != CONTROLLED
    case Destroy => n.state == ASSAULTED && n.owner != NEUTRAL
  }

  function Apply(n: Node, s: NodeStep): Node
    requires Allowed(n, s)
  {
    match s
    case Assault(team) => AssaultNode(n, team)
    case Defend(team) => DefendNode(n, team)
    case Destroy => DestroyNode(n)
  }

  /** Every step keeps the node in order, remembers what the icon to be taken down was, and leaves
      another icon to be put up. */
  lemma ApplyKeeps(n: Node, node: nat, s: NodeStep)
    requires NodeOk(n, node) && Allowed(n, s)
    ensures var n' := Apply(n, s);
            && NodeOk(n', node) && n'.prevOwner == n.owner && n'.prevState == n.state
            && n'.owner <= 1 && (n'.owner != n.owner || n'.state != n.state) && n'.tower == n.tower
  {
  }

  /** Whoever comes along: once a method has passed its own checks, the assertions of the step it goes
      on to take hold. */
  lemma NoAssertionFires(n: Node, node: nat, team: nat)
    requires NodeOk(n, node) && team <= 1
    ensures n.owner != team && team != n.totalOwner ==> Allowed(n, Assault(team))
    ensures n.owner != team && n.state == ASSAULTED && n.totalOwner != NEUTRAL ==> n.prevOwner == team && Allowed(n, Defend(team))
    ensures n.owner != team && n.state == ASSAULTED && n.totalOwner == NEUTRAL ==> node == SNOWFALL && Allowed(n, Assault(team))
    ensures n.state == ASSAULTED ==> Allowed(n, Destroy)
  {
  }

  ghost predicate PrevIsTotal(n: Node) {
    n.totalOwner != NEUTRAL ==> n.prevOwner == n.totalOwner
  }

  /** The previous owner is the real one after every step but a defence, after which it is the enemy. */
  lemma PrevIsTotalExactly(n: Node, node: nat, s: NodeStep)
    requires NodeOk(n, node) && Allowed(n, s)
    ensures PrevIsTotal(Apply(n, s)) <==> !s.Defend?
  {
  }

  /** So it is not the real one for good: the first aid station, assaulted and defended. */
  lemma DefendedRemembersEnemy()
    ensures var n := DefendNode(AssaultNode(InitNode(ALLIANCE, false), HORDE), ALLIANCE);
            NodeOk(n, 0) && n.totalOwner == ALLIANCE && n.prevOwner == HORDE
  {
  }

  // ---------------------------------------------------------------- banners, defenders and icons

  function GraveDefenderType(quest: nat): nat {
    if quest < 500 then 0 else if quest < 1000 then 1 else if quest < 1500 then 2 else 3
  }

  function Banner(n: Node): nat {
    n.owner * 2 + n.state
  }

  /** A graveyard's defenders: the owner's are spawned, or those of who held it before are not. */
  function Defenders(e: EventObjects.Events, node: nat, n: Node, quest: nat): EventObjects.Events {
    if n.tower || n.owner == NEUTRAL then e
    else if n.state == CONTROLLED then EventObjects.Spawn(e, GRAVE_EVENT + node, n.owner * 4 + GraveDefenderType(quest))
    else EventObjects.Despawn(e, GRAVE_EVENT + node, n.prevOwner * 4 + GraveDefenderType(quest))
  }

  /** PopulateNode; `quest` is how far the owner's scrap quests have got. */
  function PopulateNode(e: EventObjects.Events, node: nat, n: Node, quest: nat): EventObjects.Events {
    EventObjects.Spawn(Defenders(e, node, n, quest), node, Banner(n))
  }

  /** UpdateNodeWorldState: puts up the new icon and takes down the old one. */
  function UpdateIcons(client: map<nat, nat>, node: nat, n: Node): map<nat, nat> {
    client[PutUp(node, n) := 1][TakenDown(node, n) := 0]
  }

  function PutUp(node: nat, n: Node): nat {
    Icon(node, n.owner * 2 + n.state)
  }

  function TakenDown(node: nat, n: Node): nat {
    if n.prevOwner == NEUTRAL then SNOWFALL_NEUTRAL else Icon(node, n.prevOwner * 2 + n.prevState)
  }

  function QuestOf(v: Valley, team: nat): nat {
    if team < |v.quests| then v.quests[team] else 0
  }

  function WithNode(v: Valley, node: nat, n: Node): Valley
    requires node < |v.nodes|
  {
    v.(nodes := v.nodes[node := n], events := PopulateNode(v.events, node, n, QuestOf(v, n.owner)), client := UpdateIcons(v.client, node, n))
  }

  // ---------------------------------------------------------------- what players do

  function Assaults(v: Valley, node: nat, team: nat): Valley
    requires node < |v.nodes| && team <= 1 && NodeOk(v.nodes[node], node)
  {
    var n := v.nodes[node];
    if n.owner == team || team == n.totalOwner then v else WithNode(v, node, AssaultNode(n, team))
  }

  /** The second result is the error of a node that does not belong to the defender's team. */
  function Defends(v: Valley, node: nat, team: nat): (Valley, bool)
    requires node < |v.nodes| && team <= 1 && NodeOk(v.nodes[node], node)
  {
    var n := v.nodes[node];
    if n.owner == team || n.state != ASSAULTED then (v, false)
    else if n.totalOwner == NEUTRAL then (Assaults(v, node, team), false)
    else if n.prevOwner != team then (v, true)
    else (WithNode(v, node, DefendNode(n, team)), false)
  }

  /** The defender's error cannot occur, and a neutral node that is defended is Snowfall. */
  lemma DefendsNeverFails(v: Valley, node: nat, team: nat)
    requires node < |v.nodes| && team <= 1 && NodeOk(v.nodes[node], node)
    ensures !Defends(v, node, team).1
    ensures v.nodes[node].totalOwner == NEUTRAL ==> node == SNOWFALL
  {
  }

  function Destroyed(v: Valley, node: nat): Valley
    requires node < |v.nodes| && NodeOk(v.nodes[node], node) && v.nodes[node].state == ASSAULTED
  {
    var v' := WithNode(v, node, DestroyNode(v.nodes[node]));
    if v.nodes[node].tower && node >= FIRST_TOWER then v'.(events := EventObjects.Despawn(v'.events, MARSHAL + node - FIRST_TOWER, 0)) else v'
  }

  /** A click on an object of the event (event1, event2), be it the banner that is there now or not. */
  function Click(v: Valley, event1: nat, event2: nat, team: nat): Valley
    requires |v.nodes| == NODES && team <= 1 && forall i :: 0 <= i < NODES ==> NodeOk(v.nodes[i], i)
  {
    if event1 >= NODES then v
    else if event2 % 2 == CONTROLLED then Assaults(v, event1, team)
    else Defends(v, event1, team).0
  }

  // ---------------------------------------------------------------- mines

  function ShowMine(client: map<nat, nat>, mine: nat, m: Mine): map<nat, nat> {
    var c := client[MineState(mine, m.owner) := 1];
    if m.owner != m.prevOwner then c[MineState(mine, m.prevOwner) := 0] else c
  }

  function ChangeMineOwner(v: Valley, mine: nat, team: nat): Valley
    requires mine < |v.mines|
  {
    var m := v.mines[mine].(timer := MINE_TICK);
    if m.owner == team then v.(mines := v.mines[mine := m])
    else
      var m' := m.(prevOwner := m.owner, owner := team, reclaim := if team != NEUTRAL then MINE_RECLAIM else m.reclaim);
      v.(mines := v.mines[mine := m'], client := ShowMine(v.client, mine, m'),
         events := EventObjects.Spawn(EventObjects.Spawn(v.events, MINE_EVENT + mine, team), MINE_BOSSES + mine, team))
  }

  // ---------------------------------------------------------------- time

  function TickMine(v: Valley, mine: nat, diff: nat): Valley
    requires mine < |v.mines|
  {
    var m := v.mines[mine];
    if m.owner == NEUTRAL then v
    else
      var m1 := m.(timer := if m.timer - diff <= 0 then MINE_TICK else m.timer - diff);
      if m1.reclaim > diff then v.(mines := v.mines[mine := m1.(reclaim := m1.reclaim - diff)])
      else ChangeMineOwner(v.(mines := v.mines[mine := m1]), mine, NEUTRAL)
  }

  function TickNode(v: Valley, node: nat, diff: nat): Valley
    requires node < |v.nodes| && NodeOk(v.nodes[node], node)
  {
    var n := v.nodes[node];
    if n.state != ASSAULTED then v
    else if n.timer > diff then v.(nodes := v.nodes[node := n.(timer := n.timer - diff)])
    else Destroyed(v, node)
  }

  // ---------------------------------------------------------------- what a client should see

  function Get(client: map<nat, nat>, w: nat): nat {
    if w in client then client[w] else 0
  }

  predicate Lit(v: Valley, p: Place)
    requires |v.nodes| == NODES && |v.mines| == 2
  {
    match p
    case NodeIcon(node, k) => node < NODES && v.nodes[node].owner <= 1 && Banner(v.nodes[node]) == k
    case SnowfallIcon => v.nodes[SNOWFALL].owner == NEUTRAL
    case MineIcon(mine, owner) => mine < 2 && v.mines[mine].owner == owner
    case NoIcon => false
  }

  ghost predicate Shows(v: Valley, client: map<nat, nat>, w: nat)
    requires |v.nodes| == NODES && |v.mines| == 2
  {
    PlaceOf(w) != NoIcon ==> Get(client, w) == if Lit(v, PlaceOf(w)) then 1 else 0
  }

  ghost predicate InSync(v: Valley, client: map<nat, nat>)
    requires |v.nodes| == NODES && |v.mines| == 2
  {
    forall w: nat :: Shows(v, client, w)
  }

  ghost predicate BannersStand(v: Valley)
    requires |v.nodes| == NODES
  {
    forall i :: 0 <= i < NODES ==> i in v.events.active && v.events.active[i] == Banner(v.nodes[i])
  }

  /** The first events that Reset sets: banners, defenders, mines and marshals. */
  predicate IsEvent(e1: nat) {
    e1 < GRAVE_EVENT + FIRST_TOWER || MINE_BOSSES <= e1 < MINE_BOSSES + 2 || MINE_EVENT <= e1 < MINE_EVENT + 2 || MARSHAL <= e1 < MARSHAL + 8
  }

  ghost predicate EventsKnown(e: EventObjects.Events) {
    forall e1: nat :: IsEvent(e1) ==> e1 in e.active
  }

  ghost predicate MineOk(m: Mine) {
    m.owner <= 2 && m.prevOwner <= 2 && 0 < m.timer <= MINE_TICK && (m.owner != NEUTRAL ==> m.reclaim > 0)
  }

  ghost predicate Shape(v: Valley) {
    |v.nodes| == NODES && |v.mines| == 2 && |v.quests| == 2
    && forall i :: 0 <= i < NODES ==> v.nodes[i].tower == (i >= FIRST_TOWER)
  }

  ghost predicate NodesOk(v: Valley)
    requires Shape(v)
  {
    forall i :: 0 <= i < NODES ==> NodeOk(v.nodes[i], i)
  }

  /** Everything that holds of a match between any two of its events, whoever watches. */
  ghost predicate MatchOk(v: Valley) {
    && Shape(v) && NodesOk(v) && MineOk(v.mines[0]) && MineOk(v.mines[1])
    && BannersStand(v) && EventsKnown(v.events) && EventObjects.Good(v.events)
  }

  /** A match in order and a client in step with it. */
  ghost predicate ValleyOk(v: Valley) {
    MatchOk(v) && InSync(v, v.client)
  }

  // ---------------------------------------------------------------- icons stay in step

  /** One step of a node, seen on the map. */
  lemma IconsFollow(v: Valley, node: nat, n: Node)
    requires Shape(v) && NodesOk(v) && InSync(v, v.client) && node < NODES
    requires n.owner <= 1 && n.state <= 1 && n.prevOwner == v.nodes[node].owner && n.prevState == v.nodes[node].state
    requires n.owner != n.prevOwner || n.state != n.prevState
    ensures InSync(v.(nodes := v.nodes[node := n]), UpdateIcons(v.client, node, n))
  {
    assert NodeOk(v.nodes[node], node);
    var v', client := v.(nodes := v.nodes[node := n]), UpdateIcons(v.client, node, n);
    forall w: nat ensures Shows(v', client, w) {
      assert Shows(v, v.client, w);
      IconFollows(v, node, n, w);
    }
  }

  lemma IconFollows(v: Valley, node: nat, n: Node, w: nat)
    requires Shape(v) && node < NODES && NodeOk(v.nodes[node], node) && Shows(v, v.client, w)
    requires n.owner <= 1 && n.state <= 1 && n.prevOwner == v.nodes[node].owner && n.prevState == v.nodes[node].state
    requires n.owner != n.prevOwner || n.state != n.prevState
    ensures Shows(v.(nodes := v.nodes[node := n]), UpdateIcons(v.client, node, n), w)
  {
    IconPlaces(v, node, n);
    if PlaceOf(w) == PlaceOf(PutUp(node, n)) { SamePlace(w, PutUp(node, n)); }
    if PlaceOf(w) == PlaceOf(TakenDown(node, n)) { SamePlace(w, TakenDown(node, n)); }
    LitFollows(v, node, n, PlaceOf(w));
  }

  lemma IconPlaces(v: Valley, node: nat, n: Node)
    requires Shape(v) && node < NODES && NodeOk(v.nodes[node], node)
    requires n.owner <= 1 && n.state <= 1 && n.prevOwner == v.nodes[node].owner && n.prevState == v.nodes[node].state
    ensures var before := v.nodes[node];
            && PlaceOf(PutUp(node, n)) == NodeIcon(node, Banner(n))
            && PlaceOf(TakenDown(node, n)) == if before.owner == NEUTRAL then SnowfallIcon else NodeIcon(node, Banner(before))
  {
    IconsDiffer(node, Banner(n));
    SnowfallPlace();
    if n.prevOwner != NEUTRAL { IconsDiffer(node, Banner(v.nodes[node])); }
    hide PlaceOf, Icon;
  }

  /** Which icons are lit after a step of a node: its new one, not its old one, and the rest as before. */
  lemma LitFollows(v: Valley, node: nat, n: Node, p: Place)
    requires Shape(v) && node < NODES && NodeOk(v.nodes[node], node)
    requires n.owner <= 1 && n.state <= 1 && n.prevOwner == v.nodes[node].owner && n.prevState == v.nodes[node].state
    requires n.owner != n.prevOwner || n.state != n.prevState
    ensures var before, v' := v.nodes[node], v.(nodes := v.nodes[node := n]);
            var put := NodeIcon(node, Banner(n));
            var taken := if before.owner == NEUTRAL then SnowfallIcon else NodeIcon(node, Banner(before));
            put != taken && (Lit(v', p) <==> p == put || (p != taken && Lit(v, p)))
  {
  }

  lemma SamePlace(w: nat, w': nat)
    requires PlaceOf(w) == PlaceOf(w') != NoIcon
    ensures w == w'
  {
    NumberOf(w);
    NumberOf(w');
  }

  lemma SnowfallPlace()
    ensures PlaceOf(SNOWFALL_NEUTRAL) == SnowfallIcon
  {
  }

  lemma MineFollows(v: Valley, mine: nat, m: Mine)
    requires Shape(v) && InSync(v, v.client) && mine < 2
    requires m.owner <= 2 && m.prevOwner == v.mines[mine].owner <= 2 && m.owner != m.prevOwner
    ensures InSync(v.(mines := v.mines[mine := m]), ShowMine(v.client, mine, m))
  {
    var v', client := v.(mines := v.mines[mine := m]), ShowMine(v.client, mine, m);
    MinesDiffer(mine, m.owner);
    MinesDiffer(mine, m.prevOwner);
    forall w: nat ensures Shows(v', client, w) {
      assert Shows(v, v.client, w);
      NumberOf(w);
    }
  }

  /** There is always exactly one icon per node, and it is the one of its owner and state; neutral
      Snowfall has an icon of its own. */
  lemma OneIconEach(v: Valley, node: nat)
    requires Shape(v) && NodesOk(v) && InSync(v, v.client) && node < NODES
    ensures forall k :: 0 <= k < 4 ==>
              Get(v.client, Icon(node, k)) == if v.nodes[node].owner != NEUTRAL && k == Banner(v.nodes[node]) then 1 else 0
    ensures (if node == SNOWFALL then Get(v.client, SNOWFALL_NEUTRAL) else 0)
            + Get(v.client, Icon(node, 0)) + Get(v.client, Icon(node, 1)) + Get(v.client, Icon(node, 2)) + Get(v.client, Icon(node, 3)) == 1
  {
    assert NodeOk(v.nodes[node], node);
    forall k | 0 <= k < 4
      ensures Get(v.client, Icon(node, k)) == if v.nodes[node].owner != NEUTRAL && k == Banner(v.nodes[node]) then 1 else 0
    {
      IconsDiffer(node, k);
      assert Shows(v, v.client, Icon(node, k));
    }
    SnowfallPlace();
    assert Shows(v, v.client, SNOWFALL_NEUTRAL);
  }

  // ---------------------------------------------------------------- events stay in step

  /** Of the events set before, none but e1 has moved. */
  ghost predicate OthersStand(e: EventObjects.Events, e': EventObjects.Events, e1: nat) {
    forall i :: i in e.active && i != e1 ==> i in e'.active && e'.active[i] == e.active[i]
  }

  lemma SpawnStays(e: EventObjects.Events, e1: nat, e2: nat)
    requires EventsKnown(e) && EventObjects.Good(e) && IsEvent(e1) && e2 != EventObjects.NONE
    ensures var e' := EventObjects.Spawn(e, e1, e2);
            EventsKnown(e') && EventObjects.Good(e') && e'.active == e.active[e1 := e2] && OthersStand(e, e', e1)
  {
    EventObjects.SwitchActive(e, e1, e2);
    EventObjects.SpawnKeeps(e, e1, e2);
  }

  lemma DespawnStays(e: EventObjects.Events, e1: nat, e2: nat)
    requires EventsKnown(e) && EventObjects.Good(e) && IsEvent(e1) && e2 != EventObjects.NONE
    ensures var e' := EventObjects.Despawn(e, e1, e2);
            EventsKnown(e') && EventObjects.Good(e') && OthersStand(e, e', e1)
  {
    EventObjects.SwitchActive(e, e1, e2);
    EventObjects.DespawnKeeps(e, e1, e2);
  }

  lemma DefendersStay(e: EventObjects.Events, node: nat, n: Node, quest: nat)
    requires EventsKnown(e) && EventObjects.Good(e) && node < NODES && n.owner <= 2 && n.prevOwner <= 2
    requires n.tower || node < FIRST_TOWER
    ensures var e' := Defenders(e, node, n, quest);
            EventsKnown(e') && EventObjects.Good(e') && OthersStand(e, e', GRAVE_EVENT + node)
  {
    var e1, kind := GRAVE_EVENT + node, GraveDefenderType(quest);
    assert kind < 4;
    hide EventObjects.Spawn, EventObjects.Despawn, EventObjects.Good, EventsKnown, GraveDefenderType, OthersStand;
    if n.tower || n.owner == NEUTRAL {
      NothingMoved(e, e1);
    } else if n.state == CONTROLLED {
      SpawnStays(e, e1, n.owner * 4 + kind);
    } else {
      DespawnStays(e, e1, n.prevOwner * 4 + kind);
    }
  }

  lemma NothingMoved(e: EventObjects.Events, e1: nat)
    ensures OthersStand(e, e, e1)
  {
  }

  /** The banner of the node's owner and state stands, and no other node's banner has moved. */
  lemma PopulateStays(e: EventObjects.Events, node: nat, n: Node, quest: nat)
    requires EventsKnown(e) && EventObjects.Good(e) && node < NODES && n.owner <= 2 && n.prevOwner <= 2 && n.state <= 1
    requires n.tower || node < FIRST_TOWER
    ensures var e' := PopulateNode(e, node, n, quest);
            && EventsKnown(e') && EventObjects.Good(e')
            && (forall i :: 0 <= i < NODES && i != node ==> e'.active[i] == e.active[i])
            && e'.active[node] == Banner(n)
  {
    DefendersStay(e, node, n, quest);
    SpawnStays(Defenders(e, node, n, quest), node, Banner(n));
  }

  // ---------------------------------------------------------------- everything stays in order

  lemma WithNodeKeeps(v: Valley, node: nat, s: NodeStep)
    requires ValleyOk(v) && node < NODES && Allowed(v.nodes[node], s)
    ensures ValleyOk(WithNode(v, node, Apply(v.nodes[node], s)))
  {
    hide Apply, Allowed, EventObjects.Good, InSync, UpdateIcons, PopulateNode;
    assert NodeOk(v.nodes[node], node);
    var n := Apply(v.nodes[node], s);
    ApplyKeeps(v.nodes[node], node, s);
    IconsFollow(v, node, n);
    assert n.prevOwner <= 2 && n.state <= 1;
    hide NodeOk;
    PopulateStays(v.events, node, n, QuestOf(v, n.owner));
    hide EventsKnown, Banner;
    SameIcons(v.(nodes := v.nodes[node := n]), WithNode(v, node, n), UpdateIcons(v.client, node, n));
  }

  lemma SameIcons(v: Valley, v': Valley, client: map<nat, nat>)
    requires Shape(v) && Shape(v') && v.nodes == v'.nodes && v.mines == v'.mines && InSync(v, client)
    ensures InSync(v', client)
  {
    forall w: nat ensures Shows(v', client, w) {
      assert Shows(v, client, w);
    }
  }

  lemma AssaultsKeep(v: Valley, node: nat, team: nat)
    requires ValleyOk(v) && node < NODES && team <= 1
    ensures NodeOk(v.nodes[node], node) && ValleyOk(Assaults(v, node, team))
  {
    var n := v.nodes[node];
    assert NodeOk(n, node);
    if n.owner != team && team != n.totalOwner {
      WithNodeKeeps(v, node, Assault(team));
    }
  }

  lemma DefendsKeep(v: Valley, node: nat, team: nat)
    requires ValleyOk(v) && node < NODES && team <= 1
    ensures NodeOk(v.nodes[node], node) && ValleyOk(Defends(v, node, team).0)
  {
    var n := v.nodes[node];
    assert NodeOk(n, node);
    AssaultsKeep(v, node, team);
    if n.owner != team && n.state == ASSAULTED && n.totalOwner != NEUTRAL {
      WithNodeKeeps(v, node, Defend(team));
    }
  }

  lemma DestroyedKeeps(v: Valley, node: nat)
    requires ValleyOk(v) && node < NODES && v.nodes[node].state == ASSAULTED
    ensures NodeOk(v.nodes[node], node) && ValleyOk(Destroyed(v, node))
  {
    hide ValleyOk, NodesOk, NodeOk, WithNode, InSync, EventObjects.Despawn;
    NodeFits(v, node);
    MayDestroy(v.nodes[node], node);
    WithNodeKeeps(v, node, Destroy);
    if v.nodes[node].tower && node >= FIRST_TOWER {
      MarshalGone(WithNode(v, node, DestroyNode(v.nodes[node])), MARSHAL + node - FIRST_TOWER);
    }
  }

  lemma NodeFits(v: Valley, node: nat)
    requires ValleyOk(v) && node < NODES
    ensures |v.nodes| == NODES && NodeOk(v.nodes[node], node)
  {
  }

  lemma MayDestroy(n: Node, node: nat)
    requires NodeOk(n, node) && n.state == ASSAULTED
    ensures Allowed(n, Destroy)
  {
  }

  lemma MarshalGone(v: Valley, e1: nat)
    requires ValleyOk(v) && MARSHAL <= e1 < MARSHAL + 8
    ensures ValleyOk(v.(events := EventObjects.Despawn(v.events, e1, 0)))
  {
    DespawnStays(v.events, e1, 0);
    var v' := v.(events := EventObjects.Despawn(v.events, e1, 0));
    SameIcons(v, v', v.client);
  }

  lemma ClickKeeps(v: Valley, event1: nat, event2: nat, team: nat)
    requires ValleyOk(v) && team <= 1
    ensures NodesAre(v) && ValleyOk(Click(v, event1, event2, team))
  {
    if event1 < NODES {
      AssaultsKeep(v, event1, team);
      DefendsKeep(v, event1, team);
    }
  }

  ghost predicate NodesAre(v: Valley) {
    |v.nodes| == NODES && forall i :: 0 <= i < NODES ==> NodeOk(v.nodes[i], i)
  }

  lemma ChangeMineKeeps(v: Valley, mine: nat, team: nat)
    requires ValleyOkBut(v, mine) && mine < 2 && team <= 2 && v.mines[mine].owner <= 2 && v.mines[mine].prevOwner <= 2
    requires v.mines[mine].owner == team && team != NEUTRAL ==> v.mines[mine].reclaim > 0
    ensures ValleyOk(ChangeMineOwner(v, mine, team))
  {
    var m := v.mines[mine].(timer := MINE_TICK);
    if m.owner == team {
      SameMine(v, mine, m);
    } else {
      var m' := m.(prevOwner := m.owner, owner := team, reclaim := if team != NEUTRAL then MINE_RECLAIM else m.reclaim);
      MineFollows(v, mine, m');
      MineEvents(v, mine, team);
      SameIcons(v.(mines := v.mines[mine := m']), ChangeMineOwner(v, mine, team), ShowMine(v.client, mine, m'));
    }
    hide InSync, NodeOk, EventObjects.Spawn, EventObjects.Good, EventsKnown, ShowMine, Banner;
  }

  /** All but the timers of one mine is in order. */
  ghost predicate ValleyOkBut(v: Valley, mine: nat) {
    && Shape(v) && NodesOk(v) && (forall i :: 0 <= i < 2 && i != mine ==> MineOk(v.mines[i]))
    && BannersStand(v) && EventsKnown(v.events) && EventObjects.Good(v.events) && InSync(v, v.client)
  }

  lemma SameMine(v: Valley, mine: nat, m: Mine)
    requires Shape(v) && InSync(v, v.client) && mine < 2 && m.owner == v.mines[mine].owner
    ensures InSync(v.(mines := v.mines[mine := m]), v.client)
  {
    var v' := v.(mines := v.mines[mine := m]);
    forall w: nat ensures Shows(v', v.client, w) {
      assert Shows(v, v.client, w);
    }
  }

  lemma MineEvents(v: Valley, mine: nat, team: nat)
    requires ValleyOkBut(v, mine) && mine < 2 && team <= 2
    ensures var e := EventObjects.Spawn(EventObjects.Spawn(v.events, MINE_EVENT + mine, team), MINE_BOSSES + mine, team);
            && EventsKnown(e) && EventObjects.Good(e)
            && forall i :: 0 <= i < NODES ==> i in e.active && e.active[i] == v.events.active[i]
  {
    hide EventObjects.Spawn, EventObjects.Good, InSync, NodeOk;
    var e1 := EventObjects.Spawn(v.events, MINE_EVENT + mine, team);
    SpawnStays(v.events, MINE_EVENT + mine, team);
    SpawnStays(e1, MINE_BOSSES + mine, team);
  }

  lemma TickMineKeeps(v: Valley, mine: nat, diff: nat)
    requires ValleyOk(v) && mine < 2
    ensures ValleyOk(TickMine(v, mine, diff))
  {
    hide InSync, NodeOk, EventObjects.Good, EventsKnown, ChangeMineOwner, Banner;
    var m := v.mines[mine];
    if m.owner != NEUTRAL {
      var m1 := m.(timer := if m.timer - diff <= 0 then MINE_TICK else m.timer - diff);
      if m1.reclaim > diff {
        MineAged(v, mine, m1.(reclaim := m1.reclaim - diff));
      } else {
        MineAged(v, mine, m1);
        ChangeMineKeeps(v.(mines := v.mines[mine := m1]), mine, NEUTRAL);
      }
    }
  }

  lemma MineAged(v: Valley, mine: nat, m: Mine)
    requires ValleyOk(v) && mine < 2 && MineOk(m) && m.owner == v.mines[mine].owner
    ensures ValleyOk(v.(mines := v.mines[mine := m]))
  {
    SameMine(v, mine, m);
  }

  lemma TickNodeKeeps(v: Valley, node: nat, diff: nat)
    requires ValleyOk(v) && node < NODES
    ensures NodeOk(v.nodes[node], node) && ValleyOk(TickNode(v, node, diff))
  {
    NodeFits(v, node);
    var n := v.nodes[node];
    if n.state == ASSAULTED {
      if n.timer > diff {
        NodeAged(v, node, n.timer - diff);
      } else {
        DestroyedKeeps(v, node);
      }
    }
  }

  lemma NodeAged(v: Valley, node: nat, timer: nat)
    requires ValleyOk(v) && node < NODES && |v.nodes| == NODES && v.nodes[node].state == ASSAULTED && timer > 0
    ensures ValleyOk(v.(nodes := v.nodes[node := v.nodes[node].(timer := timer)]))
  {
    var v' := v.(nodes := v.nodes[node := v.nodes[node].(timer := timer)]);
    assert NodeOk(v.nodes[node], node);
    SameLights(v, v', v.client);
    hide InSync, EventObjects.Good, EventsKnown;
  }

  lemma SameLights(v: Valley, v': Valley, client: map<nat, nat>)
    requires Shape(v) && Shape(v') && v.mines == v'.mines && InSync(v, client)
    requires forall i :: 0 <= i < NODES ==> v'.nodes[i].owner == v.nodes[i].owner && v'.nodes[i].state == v.nodes[i].state
    ensures InSync(v', client)
  {
    forall w: nat ensures Shows(v', client, w) {
      assert Shows(v, client, w);
    }
  }
}
