/** The data of the battleground queue (src/game/BattleGround/BattleGroundMgr.h) and what its
    operations do to it, as functions. BattleGroundQueue.dfy holds the class whose methods are
    proved to do exactly this.

    A `GroupQueueInfo*` is a reference into the store `groups`, so that the player map, the four
    lists of each bracket and the selection pools share group records the way the C++ pointers do;
    `delete` takes the record out of the store.
 */
module QueueModel {

  type Guid = nat
  type GroupRef = nat

  datatype Team = ALLIANCE | HORDE

  const WORD := 0x1_0000_0000 // counters and clocks are unsigned 32-bit numbers

  type Word = n: nat | n < WORD

  const BRACKETS := 16        // MAX_BATTLEGROUND_BRACKETS
  const LISTS := 64           // four lists for each bracket

  const PREMADE_ALLIANCE := 0
  const PREMADE_HORDE := 1
  const NORMAL_ALLIANCE := 2
  const NORMAL_HORDE := 3

  /** m_QueuedGroups[bracket][index] */
  function Slot(bracket: nat, index: nat): nat {
    4 * bracket + index
  }

  function TeamIndex(t: Team): nat {
    if t == ALLIANCE then 0 else 1
  }

  function Other(t: Team): Team {
    if t == ALLIANCE then HORDE else ALLIANCE
  }

  datatype GroupQueueInfo = GroupQueueInfo(
    players: set<Guid>,
    groupTeam: Team,
    bgTypeId: nat,
    isRated: bool,
    arenaType: nat,
    joinTime: nat,
    removeInviteTime: nat,
    invitedTo: nat,            // IsInvitedToBGInstanceGUID, 0 when not invited
    matchmakingRating: nat,
    opponentsTeamRating: nat)

  datatype Queue = Queue(
    players: map<Guid, GroupRef>,              // m_QueuedPlayers
    groups: map<GroupRef, GroupQueueInfo>,
    lists: map<nat, seq<GroupRef>>)            // m_QueuedGroups
  {
    function In(slot: nat): seq<GroupRef> {
      if slot in lists then lists[slot] else []
    }
  }

  // ---------------------------------------------------------------- the invariant

  ghost predicate NoDuplicates(s: seq<GroupRef>) {
    forall i, j :: 0 <= i < j < |s| ==> s[i] != s[j]
  }

  ghost predicate PlayersHaveGroups(q: Queue) {
    forall p :: p in q.players ==> q.players[p] in q.groups && p in q.groups[q.players[p]].players
  }

  ghost predicate GroupsHavePlayers(q: Queue) {
    forall g :: g in q.groups ==>
      q.groups[g].players != {} && forall p :: p in q.groups[g].players ==> p in q.players && q.players[p] == g
  }

  ghost predicate At(q: Queue, s: nat, g: GroupRef) {
    s in q.lists && g in q.lists[s]
  }

  /** What stands in a list is a group of the team that list is for. */
  ghost predicate ListsMatchTeams(q: Queue) {
    forall s: nat, g: GroupRef :: At(q, s, g) ==> g in q.groups && s % 2 == TeamIndex(q.groups[g].groupTeam)
  }

  ghost predicate InOneList(q: Queue) {
    forall s: nat, t: nat, g: GroupRef :: At(q, s, g) && At(q, t, g) ==> s == t
  }

  ghost predicate Listed(q: Queue, g: GroupRef) {
    exists s: nat :: At(q, s, g)
  }

  ghost predicate AllListed(q: Queue) {
    forall g :: g in q.groups ==> Listed(q, g)
  }

  ghost predicate NoRepeats(q: Queue) {
    && (forall s: nat :: s in q.lists <==> s < LISTS)
    && (forall s :: s in q.lists ==> NoDuplicates(q.lists[s]))
  }

  ghost predicate PlayersInv(q: Queue) {
    PlayersHaveGroups(q) && GroupsHavePlayers(q)
  }

  ghost predicate ListsInv(q: Queue) {
    ListsMatchTeams(q) && InOneList(q) && AllListed(q) && NoRepeats(q)
  }

  /** Every queued player belongs to exactly one group and every group to exactly one list, that
      list's parity is the group's team, and no group is empty. */
  ghost predicate Inv(q: Queue) {
    PlayersInv(q) && ListsInv(q)
  }

  // ---------------------------------------------------------------- the operations

  const EMPTY_QUEUE := Queue(map[], map[], map s | 0 <= s < LISTS :: [])

  function Without(s: seq<GroupRef>, g: GroupRef): seq<GroupRef> {
    if s == [] then []
    else if s[0] == g then s[1..]
    else [s[0]] + Without(s[1..], g)
  }

  function AddGroup(q: Queue, g: GroupRef, info: GroupQueueInfo, slot: nat): Queue {
    Queue(q.players + map p | p in info.players :: g,
          q.groups[g := info],
          q.lists[slot := q.In(slot) + [g]])
  }

  /** Whoever leaves: a member of a rated group that is not invited takes the others along. */
  function Leaving(q: Queue, p: Guid): set<Guid>
    requires p in q.players && q.players[p] in q.groups
  {
    var info := q.groups[q.players[p]];
    if info.isRated && info.invitedTo == 0 then info.players + {p} else {p}
  }

  function RemovePlayer(q: Queue, p: Guid): Queue
    requires p in q.players && q.players[p] in q.groups
  {
    var g := q.players[p];
    var info := q.groups[g];
    var left := info.players - Leaving(q, p);
    var players := q.players - Leaving(q, p);
    if left == {} then
      Queue(players, q.groups - {g}, map s | s in q.lists :: Without(q.lists[s], g))
    else
      Queue(players, q.groups[g := info.(players := left)], q.lists)
  }

  function Invite(q: Queue, g: GroupRef, side: Team, instance: nat, removeTime: nat): Queue
    requires g in q.groups
  {
    var info := q.groups[g].(groupTeam := side);
    q.(groups := q.groups[g := if info.invitedTo == 0 then info.(invitedTo := instance, removeInviteTime := removeTime) else info])
  }

  /** Takes a group out of one list and puts it in front of another. */
  function MoveToFront(q: Queue, g: GroupRef, from: nat, to: nat): Queue {
    q.(lists := q.lists[from := Without(q.In(from), g)][to := [g] + q.In(to)])
  }

  function SetTeam(q: Queue, g: GroupRef, side: Team): Queue
    requires g in q.groups
  {
    q.(groups := q.groups[g := q.groups[g].(groupTeam := side)])
  }

  // ---------------------------------------------------------------- lists

  lemma {:induction false} WithoutMembers(s: seq<GroupRef>, g: GroupRef)
    requires NoDuplicates(s)
    ensures NoDuplicates(Without(s, g))
    ensures forall h :: h in Without(s, g) <==> h in s && h != g
    ensures g !in s ==> Without(s, g) == s
  {
    if s != [] && s[0] != g {
      WithoutMembers(s[1..], g);
      assert s == [s[0]] + s[1..];
      assert s[0] !in s[1..];
    } else if s != [] {
      assert s == [s[0]] + s[1..];
    }
  }

  // ---------------------------------------------------------------- what every operation keeps

  lemma EmptyInv()
    ensures Inv(EMPTY_QUEUE)
  {
  }

  /** Joining keeps the invariant exactly when nobody in the group is queued already: otherwise
      such a player would be left behind in the group he was in before. */
  lemma AddGroupKeepsExactly(q: Queue, g: GroupRef, info: GroupQueueInfo, slot: nat)
    requires Inv(q) && g !in q.groups && info.players != {}
    requires slot < LISTS && slot % 2 == TeamIndex(info.groupTeam)
    ensures Inv(AddGroup(q, g, info, slot)) <==> info.players !! q.players.Keys
  {
    var q' := AddGroup(q, g, info, slot);
    if p :| p in info.players && p in q.players {
      JoinedTwice(q, g, info, slot, p);
    } else {
      AddGroupLists(q, g, info, slot);
      JoinedOnce(q, g, info, slot);
    }
  }

  lemma JoinedTwice(q: Queue, g: GroupRef, info: GroupQueueInfo, slot: nat, p: Guid)
    requires PlayersInv(q) && g !in q.groups && p in info.players && p in q.players
    ensures !PlayersInv(AddGroup(q, g, info, slot))
  {
    var q' := AddGroup(q, g, info, slot);
    assert q'.players[p] == g && q.players[p] in q'.groups && p in q'.groups[q.players[p]].players;
  }

  lemma JoinedOnce(q: Queue, g: GroupRef, info: GroupQueueInfo, slot: nat)
    requires PlayersInv(q) && g !in q.groups && info.players != {} && info.players !! q.players.Keys
    ensures PlayersInv(AddGroup(q, g, info, slot))
  {
    hide AddGroup;
    var q' := AddGroup(q, g, info, slot);
    AddGroupPlayers(q, g, info, slot);
    assert PlayersHaveGroups(q) && GroupsHavePlayers(q);
    assert PlayersHaveGroups(q');
    assert GroupsHavePlayers(q');
    hide *;
  }

  lemma AddGroupPlayers(q: Queue, g: GroupRef, info: GroupQueueInfo, slot: nat)
    ensures var q' := AddGroup(q, g, info, slot);
            && q'.groups == q.groups[g := info] && q'.players.Keys == q.players.Keys + info.players
            && forall p :: p in q'.players ==> q'.players[p] == if p in info.players then g else q.players[p]
  {
  }

  lemma AddGroupLists(q: Queue, g: GroupRef, info: GroupQueueInfo, slot: nat)
    requires ListsInv(q) && g !in q.groups
    requires slot < LISTS && slot % 2 == TeamIndex(info.groupTeam)
    ensures ListsInv(AddGroup(q, g, info, slot))
  {
    hide At, AddGroup;
    var q' := AddGroup(q, g, info, slot);
    AddGroupAt(q, g, info, slot);
    NewIsListed(q, q', g, slot);
    assert forall s: nat :: !At(q, s, g);
    assert ListsMatchTeams(q');
    assert InOneList(q');
    hide *;
  }

  lemma NewIsListed(q: Queue, q': Queue, g: GroupRef, slot: nat)
    requires AllListed(q) && q'.groups.Keys == q.groups.Keys + {g}
    requires forall s: nat, h: GroupRef :: At(q', s, h) <==> At(q, s, h) || (s == slot && h == g)
    ensures AllListed(q')
  {
    forall h | h in q'.groups ensures Listed(q', h) {
      if h == g {
        assert At(q', slot, g);
      } else {
        assert Listed(q, h);
        var s: nat :| At(q, s, h);
        assert At(q', s, h);
      }
    }
  }

  lemma AddGroupAt(q: Queue, g: GroupRef, info: GroupQueueInfo, slot: nat)
    requires NoRepeats(q) && ListsMatchTeams(q) && slot < LISTS && g !in q.groups
    ensures var q' := AddGroup(q, g, info, slot);
            && (forall s: nat, h: GroupRef :: At(q', s, h) <==> At(q, s, h) || (s == slot && h == g))
            && NoRepeats(q') && q'.groups == q.groups[g := info]
  {
    assert !At(q, slot, g);
  }

  lemma RemovePlayerKeeps(q: Queue, p: Guid)
    requires Inv(q) && p in q.players
    ensures Inv(RemovePlayer(q, p))
  {
    RemovePlayerPlayers(q, p);
    RemovePlayerLists(q, p);
  }

  lemma RemovePlayerPlayers(q: Queue, p: Guid)
    requires PlayersInv(q) && p in q.players
    ensures PlayersInv(RemovePlayer(q, p))
  {
  }

  lemma RemovePlayerLists(q: Queue, p: Guid)
    requires PlayersInv(q) && ListsInv(q) && p in q.players
    ensures ListsInv(RemovePlayer(q, p))
  {
    var q' := RemovePlayer(q, p);
    RemovePlayerAt(q, p);
    forall h | h in q'.groups ensures Listed(q', h) {
      var s: nat :| At(q, s, h);
      assert At(q', s, h);
    }
  }

  /** Only the group of the leaving player can disappear, from the store and from its list. */
  lemma RemovePlayerAt(q: Queue, p: Guid)
    requires NoRepeats(q) && p in q.players && q.players[p] in q.groups
    ensures var g, q' := q.players[p], RemovePlayer(q, p);
            && NoRepeats(q')
            && (forall h :: h in q'.groups ==> h in q.groups && q'.groups[h].groupTeam == q.groups[h].groupTeam)
            && (forall h :: h in q.groups && h != g ==> h in q'.groups)
            && (forall s: nat, h: GroupRef :: At(q', s, h) <==> At(q, s, h) && (h == g ==> g in q'.groups))
  {
    var g := q.players[p];
    forall s | s in q.lists
      ensures NoDuplicates(Without(q.lists[s], g)) && forall h :: h in Without(q.lists[s], g) <==> h in q.lists[s] && h != g
    {
      WithoutMembers(q.lists[s], g);
    }
  }

  lemma InviteKeeps(q: Queue, g: GroupRef, side: Team, instance: nat, removeTime: nat)
    requires Inv(q) && g in q.groups && q.groups[g].groupTeam == side
    ensures Inv(Invite(q, g, side, instance, removeTime))
  {
    var q' := Invite(q, g, side, instance, removeTime);
    hide PlayersInv, ListsInv;
    ListsStay(q, q');
    PlayersStay(q, q');
  }

  lemma MoveAt(q: Queue, g: GroupRef, from: nat, to: nat)
    requires ListsInv(q) && from < LISTS && to < LISTS && from != to && At(q, from, g)
    ensures var q' := MoveToFront(q, g, from, to);
            && q'.players == q.players && q'.groups == q.groups && NoRepeats(q')
            && (forall s: nat, h: GroupRef :: At(q', s, h) <==> if h == g then s == to else At(q, s, h))
  {
    WithoutMembers(q.lists[from], g);
    hide Without;
    assert !At(q, to, g);
    assert forall s: nat :: At(q, s, g) ==> s == from;
    var q' := MoveToFront(q, g, from, to);
    assert q'.lists[to][0] == g;
    forall s: nat, h: GroupRef ensures At(q', s, h) <==> if h == g then s == to else At(q, s, h) {
      if s != to && s != from {
        assert At(q', s, h) <==> At(q, s, h);
      }
    }
  }

  /** Moving a group within its team's lists (a premade demoted to the normal list). */
  lemma DemoteKeeps(q: Queue, g: GroupRef, from: nat, to: nat)
    requires Inv(q) && from < LISTS && to < LISTS && from != to && from % 2 == to % 2 && At(q, from, g)
    ensures Inv(MoveToFront(q, g, from, to))
  {
    var q' := MoveToFront(q, g, from, to);
    MoveAt(q, g, from, to);
    assert At(q, from, g) && ListsMatchTeams(q);
    Relisted(q, q', g, to);
    PlayersStay(q, q');
  }

  /** Moving a group to the other team's list together with changing its team. */
  lemma SwitchSideKeeps(q: Queue, g: GroupRef, side: Team, from: nat, to: nat)
    requires Inv(q) && from < LISTS && to < LISTS && from != to && to % 2 == TeamIndex(side) && At(q, from, g)
    ensures Inv(MoveToFront(SetTeam(q, g, side), g, from, to))
  {
    hide PlayersInv, MoveToFront, SetTeam, At;
    var q' := MoveToFront(q, g, from, to);
    assert g in q.groups && NoRepeats(q);
    MoveAt(q, g, from, to);
    var q'' := SetTeam(q', g, side);
    SetAndMove(q, g, side, from, to);
    SetTeamAt(q', g, side);
    hide ListsInv;
    Relisted(q, q'', g, to);
    PlayersStay(q, q'');
  }

  lemma SetAndMove(q: Queue, g: GroupRef, side: Team, from: nat, to: nat)
    requires g in q.groups && from in q.lists && to in q.lists
    ensures MoveToFront(SetTeam(q, g, side), g, from, to) == SetTeam(MoveToFront(q, g, from, to), g, side)
  {
  }

  lemma SetTeamAt(q: Queue, g: GroupRef, side: Team)
    requires g in q.groups
    ensures var q' := SetTeam(q, g, side);
            && q'.players == q.players && q'.lists == q.lists && q'.groups.Keys == q.groups.Keys
            && q'.groups[g] == q.groups[g].(groupTeam := side)
            && (forall h :: h in q.groups && h != g ==> q'.groups[h] == q.groups[h])
            && (forall s: nat, h: GroupRef :: At(q', s, h) <==> At(q, s, h))
  {
  }

  /** A group that stands in another list, one that suits its team, and nothing else has changed. */
  lemma Relisted(q: Queue, q': Queue, g: GroupRef, to: nat)
    requires ListsInv(q) && g in q.groups && q'.groups.Keys == q.groups.Keys && NoRepeats(q')
    requires to % 2 == TeamIndex(q'.groups[g].groupTeam)
    requires forall h :: h in q.groups && h != g ==> q'.groups[h].groupTeam == q.groups[h].groupTeam
    requires forall s: nat, h: GroupRef :: At(q', s, h) <==> if h == g then s == to else At(q, s, h)
    ensures ListsInv(q')
  {
    hide At;
    MovedIsListed(q, q', g, to);
    assert ListsMatchTeams(q) && InOneList(q);
    assert ListsMatchTeams(q');
    assert InOneList(q');
    hide *;
  }

  lemma MovedIsListed(q: Queue, q': Queue, g: GroupRef, to: nat)
    requires AllListed(q) && q'.groups.Keys == q.groups.Keys
    requires forall s: nat, h: GroupRef :: At(q', s, h) <==> if h == g then s == to else At(q, s, h)
    ensures AllListed(q')
  {
    forall h | h in q'.groups ensures Listed(q', h) {
      if h == g {
        assert At(q', to, g);
      } else {
        assert Listed(q, h);
        var s: nat :| At(q, s, h);
        assert At(q', s, h);
      }
    }
  }

  /** The lists are in order as long as they hold the same groups for the same teams. */
  lemma ListsStay(q: Queue, q': Queue)
    requires ListsInv(q) && q'.lists == q.lists && q'.groups.Keys == q.groups.Keys
    requires forall h :: h in q.groups ==> q'.groups[h].groupTeam == q.groups[h].groupTeam
    ensures ListsInv(q')
  {
    assert forall s: nat, h: GroupRef :: At(q', s, h) <==> At(q, s, h);
    forall h | h in q'.groups ensures Listed(q', h) {
      assert Listed(q, h);
      var s: nat :| At(q, s, h);
      assert At(q', s, h);
    }
    assert ListsMatchTeams(q');
    assert InOneList(q');
  }

  lemma PlayersStay(q: Queue, q': Queue)
    requires PlayersInv(q) && q'.players == q.players && q'.groups.Keys == q.groups.Keys
    requires forall h :: h in q.groups ==> q'.groups[h].players == q.groups[h].players
    ensures PlayersInv(q')
  {
    assert PlayersHaveGroups(q) && GroupsHavePlayers(q);
  }

  // ---------------------------------------------------------------- taking a player out, one at a time

  /** The queue after one player was erased from his group and from the player map, the group's
      place in its list being untouched yet. */
  function Erased(q: Queue, p: Guid): Queue
    requires p in q.players && q.players[p] in q.groups
  {
    var g := q.players[p];
    Queue(q.players - {p}, q.groups[g := q.groups[g].(players := q.groups[g].players - {p})], q.lists)
  }

  /** A group stands in no list but its own. */
  lemma OnlyThere(q: Queue, g: GroupRef, slot: nat)
    requires ListsInv(q) && At(q, slot, g)
    ensures forall s :: s in q.lists && s != slot ==> Without(q.lists[s], g) == q.lists[s]
  {
    forall s: nat | s in q.lists && s != slot ensures Without(q.lists[s], g) == q.lists[s] {
      assert At(q, slot, g) && !At(q, s, g);
      WithoutMembers(q.lists[s], g);
    }
  }

  /** The last member takes the group with him. */
  lemma ErasedLast(q: Queue, p: Guid, slot: nat)
    requires PlayersInv(q) && ListsInv(q) && p in q.players && At(q, slot, q.players[p])
    requires Erased(q, p).groups[q.players[p]].players == {}
    ensures var g, e := q.players[p], Erased(q, p);
            RemovePlayer(q, p) == Queue(e.players, e.groups - {g}, q.lists[slot := Without(q.lists[slot], g)])
  {
    var g, e := q.players[p], Erased(q, p);
    OnlyThere(q, g, slot);
    LastLeaves(q, p);
    hide ListsInv, PlayersInv, Without, RemovePlayer, Erased;
    OneListChanged(q.lists, map s | s in q.lists :: Without(q.lists[s], g), slot);
  }

  lemma LastLeaves(q: Queue, p: Guid)
    requires PlayersInv(q) && p in q.players && Erased(q, p).groups[q.players[p]].players == {}
    ensures var g, e := q.players[p], Erased(q, p);
            RemovePlayer(q, p) == Queue(e.players, e.groups - {g}, map s | s in q.lists :: Without(q.lists[s], g))
  {
    assert q.groups[q.players[p]].players == {p} && Leaving(q, p) == {p};
    hide Without, PlayersInv, Leaving;
  }

  lemma ErasedStays(q: Queue, p: Guid)
    requires PlayersInv(q) && p in q.players && Erased(q, p).groups[q.players[p]].players != {}
    requires var info := q.groups[q.players[p]]; !(info.isRated && info.invitedTo == 0)
    ensures RemovePlayer(q, p) == Erased(q, p)
  {
    assert Leaving(q, p) == {p};
  }

  /** Erasing one member of a rated group and then removing another is removing them all. */
  lemma ErasedRest(q: Queue, p: Guid, next: Guid)
    requires PlayersInv(q) && ListsInv(q) && p in q.players
    requires var info := q.groups[q.players[p]]; info.isRated && info.invitedTo == 0
    requires next in Erased(q, p).groups[q.players[p]].players
    ensures var e := Erased(q, p);
            Inv(e) && next in e.players && e.players[next] == q.players[p] && RemovePlayer(e, next) == RemovePlayer(q, p)
  {
    var g, e := q.players[p], Erased(q, p);
    ErasedInv(q, p);
    hide PlayersInv, ListsInv, Inv, Without;
    assert next in e.players && e.players[next] == g;
    var info := q.groups[g];
    assert Leaving(q, p) == info.players && Leaving(e, next) == info.players - {p};
    assert e.players - (info.players - {p}) == q.players - info.players;
    assert e.groups - {g} == q.groups - {g};
  }

  lemma ErasedInv(q: Queue, p: Guid)
    requires PlayersInv(q) && ListsInv(q) && p in q.players && Erased(q, p).groups[q.players[p]].players != {}
    ensures Inv(Erased(q, p))
    ensures forall x :: x in Erased(q, p).groups[q.players[p]].players ==> x in Erased(q, p).players && Erased(q, p).players[x] == q.players[p]
    ensures p in q.groups[q.players[p]].players
  {
    hide ListsInv;
    ErasedLists(q, p);
  }

  lemma ErasedLists(q: Queue, p: Guid)
    requires ListsInv(q) && p in q.players && q.players[p] in q.groups
    ensures ListsInv(Erased(q, p))
  {
    var e := Erased(q, p);
    assert e.lists == q.lists && e.groups.Keys == q.groups.Keys;
    assert forall s: nat, h: GroupRef :: At(e, s, h) <==> At(q, s, h);
    forall h | h in e.groups ensures Listed(e, h) {
      var s: nat :| At(q, s, h);
      assert At(e, s, h);
    }
  }

  /** The group has been taken out of the list, and the others have kept their order. */
  ghost predicate TakenOut(list: seq<GroupRef>, list': seq<GroupRef>, g: GroupRef) {
    g !in list' && exists i: nat | i < |list| :: list[i] == g && list' == list[..i] + list[i + 1..]
  }

  /** Only the list the group stood in has changed, and only by the group's leaving it. */
  ghost predicate GroupGone(q: Queue, q': Queue, g: GroupRef) {
    && q'.groups == q.groups - {g}
    && exists s: nat :: s in q.lists && s in q'.lists && TakenOut(q.lists[s], q'.lists[s], g) && q'.lists == q.lists[s := q'.lists[s]]
  }

  /** When one member of a rated group that is not invited leaves, the whole group is gone, from the
      store and from its list, where it stood once; nobody else is touched. */
  lemma RatedGroupLeavesWhole(q: Queue, p: Guid)
    requires Inv(q) && p in q.players
    requires var info := q.groups[q.players[p]]; info.isRated && info.invitedTo == 0
    ensures var g, q' := q.players[p], RemovePlayer(q, p);
            && (forall x :: x in q'.players <==> x in q.players && q.players[x] != g)
            && (forall x :: x in q'.players ==> q'.players[x] == q.players[x])
            && GroupGone(q, q', g)
  {
    var g, q' := q.players[p], RemovePlayer(q, p);
    RatedMembers(q, p);
    assert PlayersHaveGroups(q) && ListsInv(q);
    hide RemovePlayer, Inv, PlayersInv, ListsInv;
    WithoutLeavesGap(q, q', g);
  }

  lemma WithoutLeavesGap(q: Queue, q': Queue, g: GroupRef)
    requires ListsInv(q) && g in q.groups && q'.groups == q.groups - {g}
    requires q'.lists == map s | s in q.lists :: Without(q.lists[s], g)
    ensures GroupGone(q, q', g)
  {
    var slot := FindList(q, g);
    OnlyThere(q, g, slot);
    GapAt(q.lists[slot], g);
    hide Without, ListsInv, TakenOut;
    assert slot in q'.lists && TakenOut(q.lists[slot], q'.lists[slot], g);
    OneListChanged(q.lists, q'.lists, slot);
  }

  lemma FindList(q: Queue, g: GroupRef) returns (slot: nat)
    requires ListsInv(q) && g in q.groups
    ensures At(q, slot, g) && NoDuplicates(q.lists[slot])
  {
    assert Listed(q, g);
    slot :| At(q, slot, g);
  }

  lemma GapAt(list: seq<GroupRef>, g: GroupRef)
    requires NoDuplicates(list) && g in list
    ensures TakenOut(list, Without(list, g), g)
  {
    WithoutMembers(list, g);
    WithoutOne(list, g);
    hide *;
  }

  lemma OneListChanged(lists: map<nat, seq<GroupRef>>, lists': map<nat, seq<GroupRef>>, slot: nat)
    requires slot in lists && lists'.Keys == lists.Keys
    requires forall s: nat :: s in lists && s != slot ==> lists'[s] == lists[s]
    ensures lists' == lists[slot := lists'[slot]]
  {
  }

  /** A member of any other group leaves alone: with the last one the group goes too, and otherwise it
      stays where it stands, smaller by one. */
  lemma LeavesAlone(q: Queue, p: Guid)
    requires Inv(q) && p in q.players
    requires var info := q.groups[q.players[p]]; !info.isRated || info.invitedTo != 0
    ensures var g, q' := q.players[p], RemovePlayer(q, p);
            var rest := q.groups[g].players - {p};
            && q'.players == q.players - {p}
            && if rest == {} then GroupGone(q, q', g)
               else q'.lists == q.lists && q'.groups == q.groups[g := q.groups[g].(players := rest)]
  {
    var g, q' := q.players[p], RemovePlayer(q, p);
    assert PlayersHaveGroups(q) && ListsInv(q);
    hide Without, Inv, PlayersInv, ListsInv;
    if q.groups[g].players - {p} == {} {
      WithoutLeavesGap(q, q', g);
    }
  }

  lemma RatedMembers(q: Queue, p: Guid)
    requires PlayersInv(q) && p in q.players
    requires var info := q.groups[q.players[p]]; info.isRated && info.invitedTo == 0
    ensures var g, q' := q.players[p], RemovePlayer(q, p);
            && (forall x :: x in q'.players <==> x in q.players && q.players[x] != g)
            && (forall x :: x in q'.players ==> q'.players[x] == q.players[x])
            && q'.groups == q.groups - {g} && q'.lists == map s | s in q.lists :: Without(q.lists[s], g)
  {
    hide Without;
  }

  lemma {:induction false} WithoutOne(s: seq<GroupRef>, g: GroupRef)
    requires g in s && g !in Without(s, g)
    ensures TakenOut(s, Without(s, g), g)
  {
    if s[0] == g {
      assert s[1..] == s[..0] + s[0 + 1..];
    } else {
      assert g in s[1..] && g !in Without(s[1..], g);
      WithoutOne(s[1..], g);
      OneLater(s, Without(s[1..], g), g);
    }
  }

  lemma OneLater(s: seq<GroupRef>, rest: seq<GroupRef>, g: GroupRef)
    requires s != [] && s[0] != g && TakenOut(s[1..], rest, g)
    ensures TakenOut(s, [s[0]] + rest, g)
  {
    var i: nat :| i < |s[1..]| && s[1..][i] == g && rest == s[1..][..i] + s[1..][i + 1..];
    GapLater(s, i);
    assert s[i + 1] == g;
  }

  lemma GapLater(s: seq<GroupRef>, i: nat)
    requires i + 1 < |s|
    ensures [s[0]] + (s[1..][..i] + s[1..][i + 1..]) == s[..i + 1] + s[i + 1 + 1..]
  {
  }

  lemma {:induction false} WithoutMultiset(s: seq<GroupRef>, g: GroupRef)
    requires g in s
    ensures multiset(Without(s, g)) == multiset(s) - multiset{g}
  {
    assert s == [s[0]] + s[1..];
    if s[0] != g {
      WithoutMultiset(s[1..], g);
    }
  }

  // ---------------------------------------------------------------- rated matches within a faction

  /** In a rated match a team may be moved to the other faction's list before it is invited on that
      side; together that is a change of sides followed by an invitation. */
  lemma RatedSwitch(q: Queue, g: GroupRef, side: Team, from: nat, to: nat, instance: nat, time: nat)
    requires Inv(q) && from < LISTS && to < LISTS && from != to && to % 2 == TeamIndex(side)
    requires At(q, from, g) && g in q.groups
    ensures var switched := MoveToFront(SetTeam(q, g, side), g, from, to);
            && Inv(switched) && switched.groups[g].groupTeam == side
            && Invite(MoveToFront(q, g, from, to), g, side, instance, time) == Invite(switched, g, side, instance, time)
  {
    SwitchSideKeeps(q, g, side, from, to);
    RatedInvites(q, MoveToFront(q, g, from, to), MoveToFront(SetTeam(q, g, side), g, from, to), g, side, instance, time);
  }

  lemma RatedInvites(q: Queue, moved: Queue, switched: Queue, g: GroupRef, side: Team, instance: nat, time: nat)
    requires g in q.groups && moved.groups == q.groups && moved.players == switched.players && moved.lists == switched.lists
    requires switched.groups == q.groups[g := q.groups[g].(groupTeam := side)]
    ensures switched.groups[g].groupTeam == side && Invite(moved, g, side, instance, time) == Invite(switched, g, side, instance, time)
  {
  }
}
