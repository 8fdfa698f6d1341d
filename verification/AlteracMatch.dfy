/** Whole Alterac Valley matches: whatever is clicked, killed and handed in and however time passes,
    nodes, banners and maps stay in order (src/game/BattleGround/BattleGroundAV.cpp). */
module AlteracMatch {
  import opened AlteracIcons
  import opened AlteracValley
  import EventObjects

  // ---------------------------------------------------------------- what happens in a match

  ghost function TickNodes(v: Valley, diff: nat, k: nat): (v': Valley)
    requires ValleyOk(v) && k <= NODES
    ensures ValleyOk(v')
  {
    if k == 0 then v
    else
      var v1 := TickNodes(v, diff, k - 1);
      TickNodeKeeps(v1, k - 1, diff);
      TickNode(v1, k - 1, diff)
  }

  ghost function Tick(v: Valley, diff: nat): (v': Valley)
    requires ValleyOk(v)
    ensures ValleyOk(v')
  {
    TickMineKeeps(v, 0, diff);
    TickMineKeeps(TickMine(v, 0, diff), 1, diff);
    TickNodes(TickMine(TickMine(v, 0, diff), 1, diff), diff, NODES)
  }

  /** The defenders of the first k graveyards a team controls, after its quest has got further. */
  function Repopulated(v: Valley, team: nat, k: nat): Valley
    requires k <= |v.nodes|
  {
    if k == 0 then v
    else
      var v1, n := Repopulated(v, team, k - 1), v.nodes[k - 1];
      if n.owner == team && n.state == CONTROLLED then v1.(events := PopulateNode(v1.events, k - 1, n, QuestOf(v, team))) else v1
  }

  /** A team hands in scraps. */
  function Scraps(v: Valley, team: nat): Valley
    requires |v.nodes| == NODES && |v.quests| == 2 && team <= 1
  {
    var v1 := v.(quests := v.quests[team := v.quests[team] + 20]);
    if v1.quests[team] == 500 || v1.quests[team] == 1000 || v1.quests[team] == 1500 then Repopulated(v1, team, FIRST_TOWER) else v1
  }

  datatype Step =
    | Clicks(event1: nat, event2: nat, team: nat)
    | KillsMineBoss(mine: nat, team: nat)
    | HandsInScraps(team: nat)
    | Waits(diff: nat)

  ghost predicate Possible(s: Step) {
    match s
    case Clicks(_, _, team) => team <= 1
    case KillsMineBoss(mine, team) => mine < 2 && team <= 1
    case HandsInScraps(team) => team <= 1
    case Waits(_) => true
  }

  ghost function Take(v: Valley, s: Step): (v': Valley)
    requires ValleyOk(v) && Possible(s)
  {
    match s
    case Clicks(event1, event2, team) => ClickKeeps(v, event1, event2, team); Click(v, event1, event2, team)
    case KillsMineBoss(mine, team) => ChangeMineOwner(v, mine, team)
    case HandsInScraps(team) => Scraps(v, team)
    case Waits(diff) => Tick(v, diff)
  }

  lemma {:induction false} RepopulatedKeeps(v: Valley, team: nat, k: nat)
    requires ValleyOk(v) && k <= FIRST_TOWER && team <= 1
    ensures ValleyOk(Repopulated(v, team, k)) && Repopulated(v, team, k).nodes == v.nodes
  {
    assert |v.nodes| == NODES;
    if k > 0 {
      RepopulatedKeeps(v, team, k - 1);
      RepopulatedNext(v, team, k);
      RepopulatedOne(Repopulated(v, team, k - 1), k - 1, QuestOf(v, team));
    }
  }

  lemma RepopulatedNext(v: Valley, team: nat, k: nat)
    requires 1 <= k <= |v.nodes|
    ensures var v1, n := Repopulated(v, team, k - 1), v.nodes[k - 1];
            Repopulated(v, team, k) == v1
            || Repopulated(v, team, k) == v1.(events := PopulateNode(v1.events, k - 1, n, QuestOf(v, team)))
  {
  }

  lemma RepopulatedOne(v: Valley, node: nat, quest: nat)
    requires ValleyOk(v) && node < FIRST_TOWER
    ensures ValleyOk(v.(events := PopulateNode(v.events, node, v.nodes[node], quest)))
  {
    assert NodeOk(v.nodes[node], node);
    PopulateStays(v.events, node, v.nodes[node], quest);
    SameIcons(v, v.(events := PopulateNode(v.events, node, v.nodes[node], quest)), v.client);
  }

  lemma ScrapsKeep(v: Valley, team: nat)
    requires ValleyOk(v) && team <= 1
    ensures ValleyOk(Scraps(v, team))
  {
    var v1 := v.(quests := v.quests[team := v.quests[team] + 20]);
    SameIcons(v, v1, v.client);
    hide InSync, NodeOk, EventObjects.Good, EventsKnown;
    RepopulatedKeeps(v1, team, FIRST_TOWER);
    hide Repopulated;
  }

  lemma TakeKeeps(v: Valley, s: Step)
    requires ValleyOk(v) && Possible(s)
    ensures ValleyOk(Take(v, s))
  {
    match s
    case Clicks(event1, event2, team) => ClickKeeps(v, event1, event2, team); hide ValleyOk;
    case KillsMineBoss(mine, team) => ChangeMineKeeps(v, mine, team); hide ChangeMineOwner;
    case HandsInScraps(team) => ScrapsKeep(v, team);
    case Waits(diff) =>
  }

  // ---------------------------------------------------------------- whole matches

  function StartNode(node: nat): Node {
    InitNode(if node == SNOWFALL then NEUTRAL else if node < SNOWFALL || 7 <= node < 11 then ALLIANCE else HORDE, node >= FIRST_TOWER)
  }

  function StartNodes(): (ns: seq<Node>)
    ensures |ns| == NODES
  {
    seq(NODES, i requires 0 <= i < NODES => StartNode(i))
  }

  function StartMine(reclaim: nat): Mine {
    Mine(NEUTRAL, NEUTRAL, MINE_TICK, reclaim)
  }

  /** The second event that Reset makes active: the banner and the defenders of each node's owner, nobody's
      mines, and every marshal. */
  function StartEvent(e1: nat): nat {
    if e1 < NODES then StartNode(e1).owner * 2 + CONTROLLED
    else if e1 < GRAVE_EVENT + FIRST_TOWER then StartNode(e1 - GRAVE_EVENT).owner * 4
    else if e1 < MARSHAL then NEUTRAL
    else 0
  }

  /** What Reset says about the active events. */
  ghost predicate StartActive(active: map<nat, nat>) {
    forall e1: nat :: IsEvent(e1) ==> e1 in active && active[e1] == StartEvent(e1)
  }

  /** A battleground that has been reset and whose objects are as its events say. */
  ghost predicate Fresh(v: Valley) {
    && v.nodes == StartNodes() && |v.mines| == 2 && |v.quests| == 2
    && v.mines[0] == StartMine(v.mines[0].reclaim) && v.mines[1] == StartMine(v.mines[1].reclaim)
    && StartActive(v.events.active) && EventObjects.Good(v.events)
  }

  lemma FreshOk(v: Valley)
    requires Fresh(v)
    ensures MatchOk(v)
  {
    assert forall i :: 0 <= i < NODES ==> v.nodes[i] == StartNode(i);
  }

  ghost predicate AllPossible(steps: seq<Step>) {
    forall i :: 0 <= i < |steps| ==> Possible(steps[i])
  }

  /** A match from any moment on. That it can be played at all says that no assertion ever fails. */
  ghost function Played(v: Valley, steps: seq<Step>): (v': Valley)
    requires ValleyOk(v) && AllPossible(steps)
    ensures ValleyOk(v')
    decreases |steps|
  {
    if steps == [] then v
    else
      var before := Played(v, steps[..|steps| - 1]);
      TakeKeeps(before, steps[|steps| - 1]);
      Take(before, steps[|steps| - 1])
  }

  /** What FillInitialWorldStates sends at this moment. */
  ghost predicate IsSnapshot(v: Valley, data: map<nat, nat>) {
    |v.nodes| == NODES && |v.mines| == 2 && InSync(v, data)
  }

  /** A player enters and has been sent `data`. */
  function Entered(v: Valley, data: map<nat, nat>): Valley {
    v.(client := data)
  }

  /** Whatever players click, hand in or kill and however time passes, before and after the moment a
      player enters: a controlled node belongs to its owner for good and an assaulted one does not, only
      Snowfall can be neutral; the active banner of a node, and nothing else of it, is spawned; and the
      map of the player who has entered is what he would be sent now, with each node's one icon lit. */
  lemma EveryMatchInOrder(v: Valley, before: seq<Step>, data: map<nat, nat>, after: seq<Step>, node: nat)
    requires ValleyOk(v) && AllPossible(before) && AllPossible(after) && node < NODES
    requires IsSnapshot(Played(v, before), data)
    ensures ValleyOk(Entered(Played(v, before), data))
    ensures var v' := Played(Entered(Played(v, before), data), after);
            && IsSnapshot(v', v'.client) && NodeOk(v'.nodes[node], node)
            && v'.events.IsActive(node, Banner(v'.nodes[node]))
            && (forall e2: nat, g: nat :: EventObjects.Owns(v'.events, node, e2, g) ==>
                  (g in v'.events.spawned <==> e2 == Banner(v'.nodes[node])))
            && (forall k :: 0 <= k < 4 ==> Get(v'.client, Icon(node, k))
                                           == if v'.nodes[node].owner != NEUTRAL && k == Banner(v'.nodes[node]) then 1 else 0)
  {
    var mid := Played(v, before);
    hide Played;
    EnteredOk(mid, data);
    var v' := Played(Entered(mid, data), after);
    OneIconEach(v', node);
    assert v'.events.IsActive(node, Banner(v'.nodes[node]));
    hide InSync, EventsKnown, Icon;
  }

  /** The first player who enters is in step from then on, as is any later one. */
  lemma EnteredOk(v: Valley, data: map<nat, nat>)
    requires MatchOk(v) && IsSnapshot(v, data)
    ensures ValleyOk(Entered(v, data))
  {
    SameIcons(v, Entered(v, data), data);
  }

  /** Loading objects changes no event. */
  lemma LoadedOk(v: Valley, e: EventObjects.Events)
    requires MatchOk(v) && e.active == v.events.active && EventObjects.Good(e)
    ensures var v' := v.(events := e);
            MatchOk(v') && (ValleyOk(v) ==> ValleyOk(v'))
  {
    if ValleyOk(v) { SameIcons(v, v.(events := e), v.client); }
  }

  // ---------------------------------------------------------------- who watches does not matter

  /** The same match, watched by two clients. */
  predicate SameMatch(v: Valley, w: Valley) {
    v == w.(client := v.client)
  }

  lemma WithNodeSame(v: Valley, w: Valley, node: nat, n: Node)
    requires SameMatch(v, w) && node < |v.nodes|
    ensures SameMatch(WithNode(v, node, n), WithNode(w, node, n))
  {
  }

  lemma ClickSame(v: Valley, w: Valley, event1: nat, event2: nat, team: nat)
    requires SameMatch(v, w) && |v.nodes| == NODES && team <= 1 && forall i :: 0 <= i < NODES ==> NodeOk(v.nodes[i], i)
    ensures SameMatch(Click(v, event1, event2, team), Click(w, event1, event2, team))
  {
    if event1 < NODES {
      var n := v.nodes[event1];
      if n.owner != team && team != n.totalOwner { WithNodeSame(v, w, event1, AssaultNode(n, team)); }
      if n.owner != team && n.state == ASSAULTED && n.prevOwner == team && n.totalOwner != NEUTRAL {
        WithNodeSame(v, w, event1, DefendNode(n, team));
      }
    }
  }

  lemma ChangeMineSame(v: Valley, w: Valley, mine: nat, team: nat)
    requires SameMatch(v, w) && mine < |v.mines|
    ensures SameMatch(ChangeMineOwner(v, mine, team), ChangeMineOwner(w, mine, team))
  {
  }

  lemma TickMineSame(v: Valley, w: Valley, mine: nat, diff: nat)
    requires SameMatch(v, w) && mine < |v.mines|
    ensures SameMatch(TickMine(v, mine, diff), TickMine(w, mine, diff))
  {
    var m := v.mines[mine];
    var m1 := m.(timer := if m.timer - diff <= 0 then MINE_TICK else m.timer - diff);
    ChangeMineSame(v.(mines := v.mines[mine := m1]), w.(mines := w.mines[mine := m1]), mine, NEUTRAL);
    hide ChangeMineOwner;
  }

  lemma {:induction false} RepopulatedSame(v: Valley, w: Valley, team: nat, k: nat)
    requires SameMatch(v, w) && k <= |v.nodes|
    ensures SameMatch(Repopulated(v, team, k), Repopulated(w, team, k))
  {
    hide PopulateNode;
    if k > 0 { RepopulatedSame(v, w, team, k - 1); }
  }

  lemma TickNodeSame(v: Valley, w: Valley, node: nat, diff: nat)
    requires SameMatch(v, w) && node < |v.nodes| && NodeOk(v.nodes[node], node)
    ensures SameMatch(TickNode(v, node, diff), TickNode(w, node, diff))
  {
    var n := v.nodes[node];
    if n.state == ASSAULTED { WithNodeSame(v, w, node, DestroyNode(n)); }
    hide WithNode, EventObjects.Despawn;
  }

  lemma {:induction false} TickNodesSame(v: Valley, w: Valley, diff: nat, k: nat)
    requires ValleyOk(v) && ValleyOk(w) && SameMatch(v, w) && k <= NODES
    ensures SameMatch(TickNodes(v, diff, k), TickNodes(w, diff, k))
  {
    hide ValleyOk;
    if k > 0 {
      TickNodesSame(v, w, diff, k - 1);
      var v1, w1 := TickNodes(v, diff, k - 1), TickNodes(w, diff, k - 1);
      TickNodeKeeps(v1, k - 1, diff);
      InRange(v1);
      TickNodeSame(v1, w1, k - 1, diff);
    }
    hide TickNode;
  }

  lemma InRange(v: Valley)
    requires ValleyOk(v)
    ensures |v.nodes| == NODES && |v.mines| == 2 && |v.quests| == 2 && forall i :: 0 <= i < NODES ==> NodeOk(v.nodes[i], i)
  {
  }

  lemma TickSame(v: Valley, w: Valley, diff: nat)
    requires ValleyOk(v) && ValleyOk(w) && SameMatch(v, w)
    ensures SameMatch(Tick(v, diff), Tick(w, diff))
  {
    InRange(v);
    TickMineKeeps(v, 0, diff);
    TickMineKeeps(w, 0, diff);
    TickMineSame(v, w, 0, diff);
    var v1, w1 := TickMine(v, 0, diff), TickMine(w, 0, diff);
    InRange(v1);
    TickMineKeeps(v1, 1, diff);
    TickMineKeeps(w1, 1, diff);
    TickMineSame(v1, w1, 1, diff);
    TickNodesSame(TickMine(v1, 1, diff), TickMine(w1, 1, diff), diff, NODES);
    hide ValleyOk, TickMine, TickNodes;
  }

  lemma TakeSame(v: Valley, w: Valley, s: Step)
    requires ValleyOk(v) && ValleyOk(w) && SameMatch(v, w) && Possible(s)
    ensures SameMatch(Take(v, s), Take(w, s))
  {
    InRange(v);
    match s
    case Clicks(event1, event2, team) => ClickSame(v, w, event1, event2, team); hide Click;
    case KillsMineBoss(mine, team) => ChangeMineSame(v, w, mine, team); hide ChangeMineOwner;
    case HandsInScraps(team) =>
      var quests := v.quests[team := v.quests[team] + 20];
      RepopulatedSame(v.(quests := quests), w.(quests := quests), team, FIRST_TOWER);
      hide Repopulated;
    case Waits(diff) => TickSame(v, w, diff); hide Tick;
    hide ValleyOk;
  }

  lemma {:induction false} PlayedSame(v: Valley, w: Valley, steps: seq<Step>)
    requires ValleyOk(v) && ValleyOk(w) && SameMatch(v, w) && AllPossible(steps)
    ensures SameMatch(Played(v, steps), Played(w, steps))
    decreases |steps|
  {
    if steps != [] {
      var rest := steps[..|steps| - 1];
      PlayedSame(v, w, rest);
      TakeSame(Played(v, rest), Played(w, rest), steps[|steps| - 1]);
    }
  }

  lemma {:induction false} PlayedOn(v: Valley, before: seq<Step>, after: seq<Step>)
    requires ValleyOk(v) && AllPossible(before) && AllPossible(after)
    ensures AllPossible(before + after) && Played(v, before + after) == Played(Played(v, before), after)
    decreases |after|
  {
    hide ValleyOk, Possible, Take;
    if after == [] {
      assert before + after == before;
    } else {
      PlayedOn(v, before, after[..|after| - 1]);
      assert (before + after)[..|before + after| - 1] == before + after[..|after| - 1];
    }
  }

  /** Nodes, mines and events take the same course whoever watches: the match a player enters is the one
      that has been played all along. */
  lemma EnteringChangesNothing(v: Valley, before: seq<Step>, data: map<nat, nat>, after: seq<Step>)
    requires ValleyOk(v) && AllPossible(before) && AllPossible(after) && IsSnapshot(Played(v, before), data)
    ensures ValleyOk(Entered(Played(v, before), data)) && AllPossible(before + after)
    ensures SameMatch(Played(Entered(Played(v, before), data), after), Played(v, before + after))
  {
    assert MatchOk(Played(v, before));
    hide MatchOk, ValleyOk, AllPossible, IsSnapshot, Played;
    EnteredOk(Played(v, before), data);
    PlayedSame(Entered(Played(v, before), data), Played(v, before), after);
    PlayedOn(v, before, after);
  }
}
