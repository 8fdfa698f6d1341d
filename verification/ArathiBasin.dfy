/** Arathi Basin (src/game/BattleGround/BattleGroundAB.cpp): five nodes that are claimed, contested and
    occupied, banners that follow two seconds later, scores, and what the players' maps show. */
module ArathiBasin {
  import EventObjects

  const NODES := 5
  const NEUTRAL := 0                 // BG_AB_NODE_TYPE_NEUTRAL
  const CONTESTED := 1               // BG_AB_NODE_TYPE_CONTESTED, + 0 for the alliance, + 1 for the horde
  const OCCUPIED := 3                // BG_AB_NODE_TYPE_OCCUPIED, likewise

  const CAPTURING_TIME := 60000
  const BANNER_DELAY := 2000
  const MAX_SCORE := 1600
  const WARNING_SCORE := 1400

  const BASES_ALLY := 1779
  const BASES_HORDE := 1778
  const RESOURCES_ALLY := 1776
  const RESOURCES_HORDE := 1777
  const RESOURCES_MAX := 1780
  const RESOURCES_WARNING := 1955
  const UNKNOWN := 1861

  /** m_BannerTimers[node]: the banner that is to be put up when the timer has run out. */
  datatype Banner = Banner(timer: nat, kind: nat, team: nat)

  /** A node's entries of m_Nodes, m_prevNodes, m_NodeTimers and m_BannerTimers. */
  datatype Node = Node(status: nat, prev: nat, timer: nat, banner: Banner)

  /** `client` is what a player's client holds: the world states it has been sent, 0 for any other. */
  datatype Basin = Basin(nodes: seq<Node>, scores: seq<nat>, lastTick: seq<nat>, events: EventObjects.Events,
                         client: map<nat, nat>, inProgress: bool)

  // ---------------------------------------------------------------- world states

  datatype Place =
    | NodeIcon(node: nat, status: nat)
    | Bases(team: nat)
    | Resources(team: nat)
    | Limit
    | Warning
    | Unknown
    | NoPlace

  /** The map icon of a node in a status: BG_AB_OP_NODEICONS for a neutral one, BG_AB_OP_NODESTATES and
      plusArray for the others. */
  function Icon(node: nat, status: nat): nat {
    if status == NEUTRAL then
      (match node case 0 => 1842 case 1 => 1846 case 2 => 1845 case 3 => 1844 case _ => 1843)
    else
      (match node case 0 => 1767 case 1 => 1782 case 2 => 1772 case 3 => 1792 case _ => 1787)
      + (match status case 1 => 2 case 2 => 3 case 3 => 0 case _ => 1)
  }

  function BasesOf(team: nat): nat {
    if team == 0 then BASES_ALLY else BASES_HORDE
  }

  function ResourcesOf(team: nat): nat {
    if team == 0 then RESOURCES_ALLY else RESOURCES_HORDE
  }

  /** What a number stands for. */
  function PlaceOf(w: nat): Place {
    match w
    case 1842 => NodeIcon(0, 0)
    case 1769 => NodeIcon(0, 1)
    case 1770 => NodeIcon(0, 2)
    case 1767 => NodeIcon(0, 3)
    case 1768 => NodeIcon(0, 4)
    case 1846 => NodeIcon(1, 0)
    case 1784 => NodeIcon(1, 1)
    case 1785 => NodeIcon(1, 2)
    case 1782 => NodeIcon(1, 3)
    case 1783 => NodeIcon(1, 4)
    case 1845 => NodeIcon(2, 0)
    case 1774 => NodeIcon(2, 1)
    case 1775 => NodeIcon(2, 2)
    case 1772 => NodeIcon(2, 3)
    case 1773 => NodeIcon(2, 4)
    case 1844 => NodeIcon(3, 0)
    case 1794 => NodeIcon(3, 1)
    case 1795 => NodeIcon(3, 2)
    case 1792 => NodeIcon(3, 3)
    case 1793 => NodeIcon(3, 4)
    case 1843 => NodeIcon(4, 0)
    case 1789 => NodeIcon(4, 1)
    case 1790 => NodeIcon(4, 2)
    case 1787 => NodeIcon(4, 3)
    case 1788 => NodeIcon(4, 4)
    case 1779 => Bases(0)
    case 1778 => Bases(1)
    case 1776 => Resources(0)
    case 1777 => Resources(1)
    case 1780 => Limit
    case 1955 => Warning
    case 1861 => Unknown
    case _ => NoPlace
  }

  lemma IconsDiffer(node: nat, status: nat)
    requires node < NODES && status < 5
    ensures PlaceOf(Icon(node, status)) == NodeIcon(node, status)
  {
  }

  lemma CountersDiffer(team: nat)
    requires team < 2
    ensures PlaceOf(BasesOf(team)) == Bases(team) && PlaceOf(ResourcesOf(team)) == Resources(team)
    ensures PlaceOf(RESOURCES_MAX) == Limit && PlaceOf(RESOURCES_WARNING) == Warning && PlaceOf(UNKNOWN) == Unknown
  {
  }

  lemma NumberOf(w: nat)
    ensures match PlaceOf(w)
            case NodeIcon(node, status) => node < NODES && status < 5 && w == Icon(node, status)
            case Bases(team) => team < 2 && w == BasesOf(team)
            case Resources(team) => team < 2 && w == ResourcesOf(team)
            case Limit => w == RESOURCES_MAX
            case Warning => w == RESOURCES_WARNING
            case Unknown => w == UNKNOWN
            case NoPlace => true
  {
  }

  /** No number stands for two things. */
  lemma SamePlace(w: nat, w': nat)
    requires PlaceOf(w) == PlaceOf(w') != NoPlace
    ensures w == w'
  {
    NumberOf(w);
    NumberOf(w');
  }

  // ---------------------------------------------------------------- one node

  /** Whether a player of the team can use the node's banner: if it is nobody's, or the other team's. */
  predicate MayClick(n: Node, team: nat) {
    n.status == NEUTRAL || team == n.status % 2
  }

  function Delayed(kind: nat, team: nat): Banner {
    Banner(BANNER_DELAY, kind, team)
  }

  /** What a click makes of the node: claimed or assaulted by the team, or defended and occupied again. */
  function Clicked(n: Node, team: nat): Node {
    if n.status == NEUTRAL then Node(team + CONTESTED, n.status, CAPTURING_TIME, Delayed(CONTESTED, team))
    else if n.status < OCCUPIED && n.prev >= OCCUPIED then Node(team + OCCUPIED, n.status, 0, Delayed(OCCUPIED, team))
    else Node(team + CONTESTED, n.status, CAPTURING_TIME, Delayed(CONTESTED, team))
  }

  /** A contested node whose time has run out is occupied. */
  function Captured(n: Node): Node
    requires n.status >= 1
  {
    Node(n.status + 2, n.status, 0, Delayed(OCCUPIED, n.status - 1))
  }

  function PendingStatus(b: Banner): nat {
    if b.kind != NEUTRAL then b.kind + b.team else b.kind
  }

  predicate IsContested(n: Node) {
    n.status == 1 || n.status == 2
  }

  /** The capture timer runs exactly while the node is contested; the status before is another one; a
      contested node that was occupied was held by the other team; and a banner that is pending is the
      one for the present status. */
  ghost predicate NodeOk(n: Node) {
    && n.status < 5 && n.prev < 5
    && (n.timer > 0 <==> IsContested(n))
    && (n.status == n.prev <==> n.status == NEUTRAL) && (n.status == NEUTRAL ==> n.banner.timer == 0)
    && (IsContested(n) && n.prev >= OCCUPIED ==> n.prev - OCCUPIED != n.status - CONTESTED)
    && (n.banner.timer > 0 ==> n.banner.kind != NEUTRAL && n.banner.team <= 1 && PendingStatus(n.banner) == n.status)
  }

  lemma ClickedKeeps(n: Node, team: nat)
    requires NodeOk(n) && team <= 1 && MayClick(n, team)
    ensures var n' := Clicked(n, team);
            NodeOk(n') && n'.prev == n.status && n'.status != NEUTRAL && n'.banner.timer > 0
  {
  }

  lemma CapturedKeeps(n: Node)
    requires NodeOk(n) && IsContested(n)
    ensures var n' := Captured(n);
            NodeOk(n') && n'.prev == n.status && n'.status == n.status + 2 && n'.banner.timer > 0
  {
  }

  /** Whoever can click a contested node that had been occupied is the team that had occupied it, and
      what he does restores exactly that; any other click contests the node for the clicking team. */
  lemma DefendingRestores(n: Node, team: nat)
    requires NodeOk(n) && team <= 1 && MayClick(n, team)
    ensures IsContested(n) && n.prev >= OCCUPIED ==> n.prev == team + OCCUPIED && Clicked(n, team).status == n.prev
    ensures !(IsContested(n) && n.prev >= OCCUPIED) ==> Clicked(n, team).status == team + CONTESTED && IsContested(Clicked(n, team))
  {
  }

  // ---------------------------------------------------------------- counting and showing

  /** How many of the first k nodes have the status. */
  function CountTo(nodes: seq<Node>, k: nat, status: nat): nat
    requires k <= |nodes|
  {
    if k == 0 then 0 else CountTo(nodes, k - 1, status) + if nodes[k - 1].status == status then 1 else 0
  }

  function Owned(nodes: seq<Node>, team: nat): nat {
    CountTo(nodes, |nodes|, team + OCCUPIED)
  }

  /** _SendNodeUpdate: takes down the icon of the previous status, puts up the new one, and renews the
      numbers of bases. */
  function SendNodeUpdate(client: map<nat, nat>, nodes: seq<Node>, node: nat): map<nat, nat>
    requires node < |nodes|
  {
    client[Icon(node, nodes[node].prev) := 0][Icon(node, nodes[node].status) := 1]
          [BASES_ALLY := Owned(nodes, 0)][BASES_HORDE := Owned(nodes, 1)]
  }

  function WithNode(v: Basin, node: nat, n: Node): Basin
    requires node < |v.nodes|
  {
    var nodes := v.nodes[node := n];
    v.(nodes := nodes, client := SendNodeUpdate(v.client, nodes, node))
  }

  function Click(v: Basin, event1: nat, team: nat): Basin
    requires |v.nodes| == NODES
  {
    if !v.inProgress || event1 >= NODES || !MayClick(v.nodes[event1], team) then v
    else WithNode(v, event1, Clicked(v.nodes[event1], team))
  }

  // ---------------------------------------------------------------- time

  /** The pending banner of a node, when its time has come, replaces the one that stands. */
  function TickBanner(v: Basin, node: nat, diff: nat): Basin
    requires node < |v.nodes|
  {
    var n := v.nodes[node];
    if n.banner.timer == 0 then v
    else if n.banner.timer > diff then v.(nodes := v.nodes[node := n.(banner := n.banner.(timer := n.banner.timer - diff))])
    else v.(nodes := v.nodes[node := n.(banner := n.banner.(timer := 0))],
            events := EventObjects.Spawn(v.events, node, PendingStatus(n.banner)))
  }

  function TickTimer(v: Basin, node: nat, diff: nat): Basin
    requires node < |v.nodes| && NodeOk(v.nodes[node])
  {
    var n := v.nodes[node];
    if n.timer == 0 then v
    else if n.timer > diff then v.(nodes := v.nodes[node := n.(timer := n.timer - diff)])
    else WithNode(v, node, Captured(n))
  }

  function TickInterval(points: nat): nat {
    match points case 0 => 0 case 1 => 12000 case 2 => 9000 case 3 => 6000 case 4 => 3000 case _ => 1000
  }

  function TickPoints(points: nat): nat {
    match points case 0 => 0 case 5 => 30 case _ => 10
  }

  /** The points a team gets for the nodes it holds. */
  function TickScore(v: Basin, team: nat, diff: nat): Basin
    requires team < |v.scores| && team < |v.lastTick|
  {
    var points := Owned(v.nodes, team);
    if points == 0 then v
    else
      var tick := v.lastTick[team] + diff;
      if tick > TickInterval(points) then
        var sum := v.scores[team] + TickPoints(points);
        var score := if sum > MAX_SCORE then MAX_SCORE else sum;
        v.(lastTick := v.lastTick[team := tick - TickInterval(points)], scores := v.scores[team := score],
           client := v.client[ResourcesOf(team) := score])
      else v.(lastTick := v.lastTick[team := tick])
  }

  function TestWin(v: Basin): Basin
    requires |v.scores| == 2
  {
    v.(inProgress := v.inProgress && v.scores[0] < MAX_SCORE && v.scores[1] < MAX_SCORE)
  }

  // ---------------------------------------------------------------- what a client should see

  function Get(client: map<nat, nat>, w: nat): nat {
    if w in client then client[w] else 0
  }

  function Value(v: Basin, p: Place): nat
    requires |v.nodes| == NODES && |v.scores| == 2
  {
    match p
    case NodeIcon(node, status) => if node < NODES && v.nodes[node].status == status then 1 else 0
    case Bases(team) => Owned(v.nodes, team)
    case Resources(team) => if team < 2 then v.scores[team] else 0
    case Limit => MAX_SCORE
    case Warning => WARNING_SCORE
    case Unknown => 2
    case NoPlace => 0
  }

  ghost predicate Shows(v: Basin, client: map<nat, nat>, w: nat)
    requires |v.nodes| == NODES && |v.scores| == 2
  {
    PlaceOf(w) != NoPlace ==> Get(client, w) == Value(v, PlaceOf(w))
  }

  ghost predicate InSync(v: Basin, client: map<nat, nat>)
    requires |v.nodes| == NODES && |v.scores| == 2
  {
    forall w: nat :: Shows(v, client, w)
  }

  /** With no banner pending the active event of a node is its status; otherwise the pending banner is,
      as NodeOk says. */
  ghost predicate BannersFollow(v: Basin)
    requires |v.nodes| == NODES
  {
    forall i :: 0 <= i < NODES ==> i in v.events.active && (v.nodes[i].banner.timer == 0 ==> v.events.active[i] == v.nodes[i].status)
  }

  ghost predicate Shape(v: Basin) {
    |v.nodes| == NODES && |v.scores| == 2 && |v.lastTick| == 2
  }

  ghost predicate NodesOk(v: Basin)
    requires Shape(v)
  {
    forall i :: 0 <= i < NODES ==> NodeOk(v.nodes[i])
  }

  /** Everything that holds of a match between any two of its events, whoever watches. */
  ghost predicate MatchOk(v: Basin) {
    && Shape(v) && NodesOk(v) && v.scores[0] <= MAX_SCORE && v.scores[1] <= MAX_SCORE
    && BannersFollow(v) && EventObjects.Good(v.events)
  }

  /** A match in order and a client in step with it. */
  ghost predicate BasinOk(v: Basin) {
    MatchOk(v) && InSync(v, v.client)
  }
}
