/** The battleground queue (BattleGroundQueue, src/game/BattleGround/BattleGroundQueue.cpp): the
    player map, the group records, the lists of every bracket and the two selection pools, updated
    in place. Each method is proved to do to `State` what the functions of QueueModel, Filling,
    Matching and FactionMoves say. A method that says `hide` leaves the definitions to the lemmas it
    calls, so that its own proof is about the steps it takes. */
module BattleGroundQueues {
  import opened Options
  import opened QueueModel
  import opened SelectionPools
  import opened Ledger
  import opened BattleGrounds
  import opened FactionMoves
  import opened FirstCome
  import opened Matching
  import opened RatedMatches
  import Inviting
  import Filling

  const INVITE_ACCEPT_WAIT_TIME := 60000

  function ToSet(s: seq<Guid>): set<Guid> {
    set p | p in s
  }

  /** Which of a bracket's four lists a group joins. */
  function QueueIndex(isRated: bool, isPremade: bool, t: Team): nat {
    (if !isRated && !isPremade then 2 else 0) + TeamIndex(t)
  }

  function RemoveTime(now: nat): nat {
    (now + INVITE_ACCEPT_WAIT_TIME) % WORD
  }

  ghost predicate RefsKnown(st: Store, next: GroupRef) {
    forall g :: g in st ==> g < next
  }

  /** The counters after a player of the group has left the queue. */
  ghost function PlaceGivenBack(grounds: map<nat, Roster>, info: GroupQueueInfo, decreaseInvitedCount: bool): map<nat, Roster> {
    var b := info.invitedTo;
    if decreaseInvitedCount && b != 0 && b in grounds && (info.bgTypeId == 0 || grounds[b].typeId == info.bgTypeId)
    then grounds[b := grounds[b].Decrease(info.groupTeam)] else grounds
  }

  /** With the counter to be decreased, this is the step by which a player leaves the queue. */
  lemma LeavingTheQueue(q: Queue, grounds: map<nat, Roster>, coming: map<Guid, Ticket>, p: Guid)
    requires p in q.players && q.players[p] in q.groups
    ensures LeaveQueue(World(q, grounds, coming), p)
            == World(QueueModel.RemovePlayer(q, p), PlaceGivenBack(grounds, q.groups[q.players[p]], true), coming)
  {
  }

  lemma NothingGivenBack(grounds: map<nat, Roster>, info: GroupQueueInfo, decreaseInvitedCount: bool)
    requires !decreaseInvitedCount || info.invitedTo == 0
    ensures PlaceGivenBack(grounds, info, decreaseInvitedCount) == grounds
  {
  }

  /** Where a group stands. */
  ghost predicate Standing(lists: map<nat, seq<GroupRef>>, g: GroupRef, slot: nat, pos: nat) {
    slot in lists && pos < |lists[slot]| && lists[slot][pos] == g && NoDuplicates(lists[slot])
  }

  lemma ErasedIs(q: Queue, q': Queue, p: Guid)
    requires p in q.players && q.players[p] in q.groups
    requires q'.players == q.players - {p} && q'.lists == q.lists
    requires var g := q.players[p]; q'.groups == q.groups[g := q.groups[g].(players := q.groups[g].players - {p})]
    ensures q' == Erased(q, p) && |q'.players| < |q.players|
    ensures forall next :: RefsKnown(q.groups, next) ==> RefsKnown(q'.groups, next)
  {
    assert q'.players.Keys == q.players.Keys - {p};
    assert |q'.players.Keys| < |q.players.Keys|;
  }

  lemma GroupKnown(q: Queue, p: Guid)
    requires Inv(q) && p in q.players
    ensures q.players[p] in q.groups && PlayersInv(q) && ListsInv(q)
  {
  }

  lemma RemoveKnown(q: Queue, p: Guid, next: GroupRef)
    requires p in q.players && q.players[p] in q.groups && RefsKnown(q.groups, next)
    ensures RefsKnown(QueueModel.RemovePlayer(q, p).groups, next)
  {
  }

  lemma ListsKnown(q: Queue)
    requires Inv(q)
    ensures forall s: nat :: s in q.lists <==> s < LISTS
  {
  }

  lemma AddGroupIs(q: Queue, q': Queue, g: GroupRef, info: GroupQueueInfo, slot: nat)
    requires slot in q.lists
    requires q'.players == q.players + map p | p in info.players :: g
    requires q'.groups == q.groups[g := info] && q'.lists == q.lists[slot := q.lists[slot] + [g]]
    ensures q' == QueueModel.AddGroup(q, g, info, slot)
  {
  }

  /** A new group stands last in the list and has the record, its members belong to it, and for
      everybody else nothing has changed. */
  ghost predicate Joined(q: Queue, q': Queue, g: GroupRef, slot: nat, info: GroupQueueInfo) {
    && q'.groups == q.groups[g := info]
    && (forall p :: p in q'.players <==> p in q.players || p in info.players)
    && (forall p :: p in q'.players ==> q'.players[p] == if p in info.players then g else q.players[p])
    && slot in q.lists && q'.lists == q.lists[slot := q.lists[slot] + [g]]
  }

  lemma JoinedIs(q: Queue, g: GroupRef, info: GroupQueueInfo, slot: nat)
    requires slot in q.lists
    ensures Joined(q, QueueModel.AddGroup(q, g, info, slot), g, slot, info)
  {
  }

  lemma SlotIs(bracket: nat, isRated: bool, isPremade: bool, team: Team)
    ensures var index := (if !isRated && !isPremade then 2 else 0) + if team == HORDE then 1 else 0;
            index == QueueIndex(isRated, isPremade, team)
    ensures Slot(bracket, QueueIndex(isRated, isPremade, team))
            == 4 * bracket + (if isRated || isPremade then 0 else 2) + if team == HORDE then 1 else 0
  {
  }

  class BattleGroundQueue {
    var queuedPlayers: map<Guid, GroupRef>
    var groups: Store
    var queuedGroups: map<nat, seq<GroupRef>>
    var nextRef: GroupRef
    const alliancePool: SelectionPool
    const hordePool: SelectionPool

    function State(): Queue
      reads this
    {
      Queue(queuedPlayers, groups, queuedGroups)
    }

    ghost predicate Valid()
      reads this
    {
      Inv(State()) && alliancePool != hordePool && RefsKnown(groups, nextRef)
    }

    predicate PoolsEmpty()
      reads alliancePool, hordePool
    {
      alliancePool.selected == hordePool.selected == [] && alliancePool.playerCount == hordePool.playerCount == 0
    }

    lemma InOrder()
      requires Valid()
      ensures Inv(State()) && alliancePool != hordePool && RefsKnown(groups, nextRef)
      ensures State().players == queuedPlayers && State().groups == groups && State().lists == queuedGroups
    {
    }

    constructor ()
      ensures Valid() && State() == EMPTY_QUEUE && fresh(alliancePool) && fresh(hordePool) && PoolsEmpty()
    {
      queuedPlayers, groups, nextRef := map[], map[], 1;
      queuedGroups := EMPTY_QUEUE.lists;
      alliancePool := new SelectionPool();
      hordePool := new SelectionPool();
      new;
      EmptyInv();
    }

    /** Queues the members as one new group. The queue stays in order exactly when none of them is
        queued already. */
    method AddGroup(team: Team, members: seq<Guid>, bgTypeId: nat, bracket: nat, arenaType: nat,
                    isRated: bool, isPremade: bool, rating: nat, now: nat)
      returns (g: GroupRef)
      requires Valid() && members != [] && bracket < BRACKETS
      modifies this`queuedPlayers, this`groups, this`queuedGroups, this`nextRef
      ensures g !in old(groups)
      ensures State() == QueueModel.AddGroup(old(State()), g,
                           GroupQueueInfo(ToSet(members), team, bgTypeId, isRated, arenaType, now, 0, 0, rating, 0),
                           Slot(bracket, QueueIndex(isRated, isPremade, team)))
      ensures Valid() <==> ToSet(members) !! old(queuedPlayers).Keys
      ensures Joined(old(State()), State(), g, 4 * bracket + (if isRated || isPremade then 0 else 2) + if team == HORDE then 1 else 0,
                     GroupQueueInfo(ToSet(members), team, bgTypeId, isRated, arenaType, now, 0, 0, rating, 0))
    {
      hide Inv, Slot, QueueModel.AddGroup, QueueIndex, Joined;
      SlotIs(bracket, isRated, isPremade, team);
      ListsKnown(State());
      SlotFacts(bracket, QueueIndex(isRated, isPremade, team));
      assert nextRef !in groups && RefsKnown(groups, nextRef + 1);
      hide RefsKnown;
      g, nextRef := nextRef, nextRef + 1;
      var index := 0;
      if !isRated && !isPremade { index := index + 2; }
      if team == HORDE { index := index + 1; }
      var players := QueueMembers(members, g);
      var info := GroupQueueInfo(players, team, bgTypeId, isRated, arenaType, now, 0, 0, rating, 0);
      PushBack(g, info, Slot(bracket, index));
      assert members[0] in players;
      hide ToSet;
      AddGroupIs(old(State()), State(), g, info, Slot(bracket, index));
      JoinedIs(old(State()), g, info, Slot(bracket, index));
      AddGroupKeepsExactly(old(State()), g, info, Slot(bracket, index));
    }

    method PushBack(g: GroupRef, info: GroupQueueInfo, slot: nat)
      requires slot in queuedGroups && g < nextRef && RefsKnown(groups, nextRef)
      modifies this`groups, this`queuedGroups
      ensures RefsKnown(groups, nextRef)
      ensures groups == old(groups)[g := info]
      ensures queuedGroups == old(queuedGroups)[slot := old(queuedGroups)[slot] + [g]]
    {
      groups := groups[g := info];
      queuedGroups := queuedGroups[slot := queuedGroups[slot] + [g]];
    }

    method QueueMembers(members: seq<Guid>, g: GroupRef) returns (players: set<Guid>)
      modifies this`queuedPlayers
      ensures players == ToSet(members)
      ensures queuedPlayers == old(queuedPlayers) + map p | p in ToSet(members) :: g
    {
      players := {};
      for i := 0 to |members|
        invariant players == ToSet(members[..i])
        invariant queuedPlayers == old(queuedPlayers) + map p | p in players :: g
      {
        assert members[..i + 1] == members[..i] + [members[i]];
        queuedPlayers := queuedPlayers[members[i] := g];
        players := players + {members[i]};
      }
      assert members[..|members|] == members;
    }

    // -------------------------------------------------------------- leaving

    /** Looks for a group in the lists of its team, from the highest bracket down. It is always
        found. */
    method FindGroup(g: GroupRef) returns (slot: nat, pos: nat)
      requires Valid() && g in groups
      ensures At(State(), slot, g) && Standing(queuedGroups, g, slot, pos)
    {
      GroupIsSomewhere(State(), g);
      assert forall s :: s in queuedGroups ==> NoDuplicates(queuedGroups[s]);
      hide Inv;
      var index := TeamIndex(groups[g].groupTeam);
      var bracket, found := BRACKETS, false;
      slot, pos := 0, 0;
      while bracket > 0 && !found
        invariant 0 <= bracket <= BRACKETS
        invariant found ==> At(State(), slot, g) && pos < |queuedGroups[slot]| && queuedGroups[slot][pos] == g
        invariant !found ==> forall b, k :: bracket <= b < BRACKETS && (k == index || k == index + 2) ==> !At(State(), Slot(b, k), g)
      {
        bracket := bracket - 1;
        var j := index;
        while j < 4
          invariant j == index || j == index + 2 || j == index + 4
          invariant found ==> At(State(), slot, g) && pos < |queuedGroups[slot]| && queuedGroups[slot][pos] == g
          invariant !found ==> forall b, k :: bracket < b < BRACKETS && (k == index || k == index + 2) ==> !At(State(), Slot(b, k), g)
          invariant !found ==> (j > index ==> !At(State(), Slot(bracket, index), g))
                               && (j > index + 2 ==> !At(State(), Slot(bracket, index + 2), g))
        {
          var at := IndexIn(queuedGroups[Slot(bracket, j)], g);
          if at < |queuedGroups[Slot(bracket, j)]| {
            slot, pos, found := Slot(bracket, j), at, true;
          }
          j := j + 2;
        }
      }
    }

    /** Takes a player out of the queue; from a rated group that is not invited, everybody. If he
        gives up an invitation, the battleground gets his place back. */
    method RemovePlayer(guid: Guid, decreaseInvitedCount: bool, mgr: BattleGroundMgr)
      requires Valid() && mgr.Valid()
      modifies this`queuedPlayers, this`groups, this`queuedGroups, mgr.battlegrounds.Values
      ensures Valid() && mgr.Valid()
      ensures guid !in old(queuedPlayers) ==> State() == old(State()) && mgr.Rosters() == old(mgr.Rosters())
      ensures guid in old(queuedPlayers) ==>
                && old(queuedPlayers)[guid] in old(groups)
                && State() == QueueModel.RemovePlayer(old(State()), guid)
                && mgr.Rosters() == PlaceGivenBack(old(mgr.Rosters()), old(groups)[old(queuedPlayers)[guid]], decreaseInvitedCount)
      decreases |queuedPlayers|, 1
    {
      if guid in queuedPlayers {
        GroupKnown(State(), guid);
        RemoveQueued(guid, decreaseInvitedCount, mgr);
      }
    }

    method RemoveQueued(guid: Guid, decreaseInvitedCount: bool, mgr: BattleGroundMgr)
      requires Valid() && mgr.Valid() && guid in queuedPlayers && queuedPlayers[guid] in groups
      modifies this`queuedPlayers, this`groups, this`queuedGroups, mgr.battlegrounds.Values
      ensures Valid() && mgr.Valid()
      ensures State() == QueueModel.RemovePlayer(old(State()), guid)
      ensures mgr.Rosters() == PlaceGivenBack(old(mgr.Rosters()), old(groups[queuedPlayers[guid]]), decreaseInvitedCount)
      decreases |queuedPlayers|, 0
    {
      hide *;
      InOrder();
      var g := queuedPlayers[guid];
      var info := groups[g];
      var slot, pos := ErasePlayer(guid, decreaseInvitedCount, mgr);
      if groups[g].players == {} || info.invitedTo != 0 || !info.isRated {
        CloseGroup(old(State()), guid, g, slot, pos, mgr);
      } else {
        RemoveNext(old(State()), guid, g, decreaseInvitedCount, mgr);
      }
    }

    /** Goes on with the next member of a rated group. */
    method RemoveNext(ghost before: Queue, guid: Guid, g: GroupRef, decreaseInvitedCount: bool, mgr: BattleGroundMgr)
      requires Inv(before) && guid in before.players && before.players[guid] == g && g in before.groups && g in groups
      requires State() == Erased(before, guid) && RefsKnown(groups, nextRef) && mgr.Valid() && alliancePool != hordePool
      requires groups[g].players != {} && groups[g].invitedTo == 0 && groups[g].isRated
      modifies this`queuedPlayers, this`groups, this`queuedGroups, mgr.battlegrounds.Values
      ensures Valid() && mgr.Valid()
      ensures State() == QueueModel.RemovePlayer(before, guid) && mgr.Rosters() == old(mgr.Rosters())
      decreases |queuedPlayers|, 2
    {
      GroupKnown(before, guid);
      var next :| next in groups[g].players;
      ErasedRest(before, guid, next);
      hide Inv, PlayersInv, ListsInv, RefsKnown, QueueModel.RemovePlayer, Erased;
      NothingGivenBack(mgr.Rosters(), groups[g], decreaseInvitedCount);
      hide PlaceGivenBack;
      RemovePlayer(next, decreaseInvitedCount, mgr);
    }

    /** Deletes the group of a player taken out if he was its last member. */
    method CloseGroup(ghost before: Queue, guid: Guid, g: GroupRef, slot: nat, pos: nat, ghost mgr: BattleGroundMgr)
      requires Inv(before) && guid in before.players && before.players[guid] == g && g in before.groups
      requires State() == Erased(before, guid) && At(before, slot, g) && Standing(queuedGroups, g, slot, pos) && g in groups
      requires groups[g].players == {} || groups[g].invitedTo != 0 || !groups[g].isRated
      requires RefsKnown(before.groups, nextRef) && alliancePool != hordePool
      modifies this`groups, this`queuedGroups
      ensures Valid() && State() == QueueModel.RemovePlayer(before, guid) && mgr.Rosters() == old(mgr.Rosters())
    {
      hide Inv, RefsKnown, PlayersInv, ListsInv, QueueModel.RemovePlayer, At, Standing;
      GroupKnown(before, guid);
      RemovePlayerKeeps(before, guid);
      RemoveKnown(before, guid, nextRef);
      if groups[g].players == {} {
        ErasedLast(before, guid, slot);
        EraseGroup(g, slot, pos);
      } else {
        ErasedStays(before, guid);
      }
    }

    /** Takes the player out of his group and out of the player map. */
    method ErasePlayer(guid: Guid, decreaseInvitedCount: bool, mgr: BattleGroundMgr) returns (slot: nat, pos: nat)
      requires Valid() && mgr.Valid() && guid in queuedPlayers && queuedPlayers[guid] in groups
      modifies this`queuedPlayers, this`groups, mgr.battlegrounds.Values
      ensures State() == Erased(old(State()), guid) && RefsKnown(groups, nextRef) && |queuedPlayers| < |old(queuedPlayers)|
      ensures mgr.Valid() && mgr.Rosters() == PlaceGivenBack(old(mgr.Rosters()), old(groups[queuedPlayers[guid]]), decreaseInvitedCount)
      ensures var g := old(queuedPlayers[guid]);
              && Standing(queuedGroups, g, slot, pos) && At(old(State()), slot, g)
              && g in groups && groups[g] == old(groups)[g].(players := groups[g].players)
    {
      hide *;
      InOrder();
      var g := queuedPlayers[guid];
      var info := groups[g];
      slot, pos := FindGroup(g);
      EraseRecord(guid, mgr);
      GiveUpPlace(info, decreaseInvitedCount, mgr);
    }

    method EraseRecord(guid: Guid, ghost mgr: BattleGroundMgr)
      requires guid in queuedPlayers && queuedPlayers[guid] in groups && RefsKnown(groups, nextRef)
      modifies this`queuedPlayers, this`groups
      ensures State() == Erased(old(State()), guid) && RefsKnown(groups, nextRef) && |queuedPlayers| < |old(queuedPlayers)|
      ensures mgr.Rosters() == old(mgr.Rosters())
      ensures var g := old(queuedPlayers[guid]); g in groups && groups[g] == old(groups)[g].(players := groups[g].players)
    {
      var g := queuedPlayers[guid];
      groups := groups[g := groups[g].(players := groups[g].players - {guid})];
      queuedPlayers := queuedPlayers - {guid};
      ErasedIs(old(State()), State(), guid);
    }

    method GiveUpPlace(info: GroupQueueInfo, decreaseInvitedCount: bool, mgr: BattleGroundMgr)
      requires mgr.Valid()
      modifies mgr.battlegrounds.Values
      ensures mgr.Valid() && mgr.Rosters() == PlaceGivenBack(old(mgr.Rosters()), info, decreaseInvitedCount)
    {
      if decreaseInvitedCount && info.invitedTo != 0 {
        mgr.GiveBackPlace(info.invitedTo, info.bgTypeId, info.groupTeam);
      }
    }

    method EraseGroup(g: GroupRef, slot: nat, pos: nat)
      requires Standing(queuedGroups, g, slot, pos)
      modifies this`groups, this`queuedGroups
      ensures groups == old(groups) - {g} && slot in old(queuedGroups)
      ensures queuedGroups == old(queuedGroups)[slot := Without(old(queuedGroups)[slot], g)]
    {
      var list := queuedGroups[slot];
      WithoutAt(list, pos);
      queuedGroups := queuedGroups[slot := list[..pos] + list[pos + 1..]];
      groups := groups - {g};
    }

    // -------------------------------------------------------------- inviting

    /** Invites a group that is not invited yet, and counts its members who are online. `side`, when
        given, becomes the group's team in any case. */
    method InviteGroupToBG(g: GroupRef, bg: BattleGround, side: Option<Team>, now: nat, online: set<Guid>) returns (invited: bool)
      requires g in groups && bg.instanceId != 0
      modifies this`groups, bg`invitedAlliance, bg`invitedHorde
      ensures var team := if side.Some? then side.value else old(groups[g].groupTeam);
              && State() == Invite(old(State()), g, team, bg.instanceId, RemoveTime(now))
              && (invited <==> old(groups[g].invitedTo) == 0)
              && bg.Snapshot() == if invited then old(bg.Snapshot()).Raise(team, |old(groups[g].players) * online|)
                                  else old(bg.Snapshot())
      ensures var team := if side.Some? then side.value else old(groups[g].groupTeam);
              var turned := old(groups[g]).(groupTeam := team);
              groups == old(groups)[g := if old(groups[g].invitedTo) != 0 then turned
                                         else turned.(invitedTo := bg.instanceId,
                                                      removeInviteTime := (now + 60000) % 0x1_0000_0000)]
    {
      if side.Some? {
        groups := groups[g := groups[g].(groupTeam := side.value)];
      }
      if groups[g].invitedTo != 0 { return false; }
      groups := groups[g := groups[g].(invitedTo := bg.instanceId, removeInviteTime := RemoveTime(now))];
      CountMembers(groups[g].players, groups[g].groupTeam, bg, online);
      return true;
    }

    /** One place for each member who is online. */
    method CountMembers(members: set<Guid>, team: Team, bg: BattleGround, online: set<Guid>)
      modifies bg`invitedAlliance, bg`invitedHorde
      ensures bg.Snapshot() == old(bg.Snapshot()).Raise(team, |members * online|)
    {
      var rest := members;
      RaiseNone(bg.Snapshot(), team);
      SeenEnds(members, online);
      while rest != {}
        invariant rest <= members
        invariant bg.Snapshot() == old(bg.Snapshot()).Raise(team, Seen(members, rest, online))
      {
        var p :| p in rest;
        SeenOneMore(members, rest, p, online);
        RaiseOneMore(old(bg.Snapshot()), team, Seen(members, rest, online));
        rest := rest - {p};
        if p in online {
          bg.IncreaseInvitedCount(team);
        }
      }
    }

    /** Invites every group of a selection, each on its own side. */
    method InviteSelection(gs: seq<GroupRef>, bg: BattleGround, now: nat, online: set<Guid>, ghost w: World)
      requires Describes(w, bg) && bg.instanceId != 0 && forall g :: g in gs ==> g in groups
      modifies this`groups, bg`invitedAlliance, bg`invitedHorde
      ensures Describes(Inviting.InviteAllSeen(w, gs, bg.instanceId, RemoveTime(now), online), bg)
      ensures groups.Keys == old(groups).Keys
    {
      for i := 0 to |gs|
        invariant groups.Keys == old(groups).Keys
        invariant Describes(Inviting.InviteAllSeen(w, gs[..i], bg.instanceId, RemoveTime(now), online), bg)
      {
        assert gs[..i + 1][..i] == gs[..i];
        var _ := InviteGroupToBG(gs[i], bg, Some(groups[gs[i]].groupTeam), now, online);
      }
      assert gs[..|gs|] == gs;
    }

    /** The queue and the battleground as the books see them. */
    ghost predicate Describes(w: World, bg: BattleGround)
      reads this, bg
    {
      w.queue == State() && bg.instanceId in w.grounds && w.grounds[bg.instanceId] == bg.Snapshot()
    }

    predicate HasRoom(bg: BattleGround)
      reads bg
    {
      bg.status == WAIT_JOIN || bg.status == IN_PROGRESS
    }

    /** What there is to choose from for a battleground, and how many places. */
    method FindJob(bg: BattleGround, bracket: nat) returns (j: Filling.Job)
      requires Valid() && bracket < BRACKETS
      ensures j.Valid() && IsJob(j, State(), bracket) && j == JobOf(State(), bracket, bg.Snapshot(), HasRoom(bg))
      ensures bg.status == WAIT_JOIN || bg.status == IN_PROGRESS ==>
                j.aliFree == bg.Snapshot().FreeSlots(ALLIANCE) && j.hordeFree == bg.Snapshot().FreeSlots(HORDE)
      ensures j.aliFree <= bg.Snapshot().FreeSlots(ALLIANCE) && j.hordeFree <= bg.Snapshot().FreeSlots(HORDE)
    {
      ListsReady(State(), Slot(bracket, NORMAL_ALLIANCE), ALLIANCE);
      ListsReady(State(), Slot(bracket, NORMAL_HORDE), HORDE);
      var hordeFree := bg.GetFreeSlotsForTeam(HORDE);
      var aliFree := bg.GetFreeSlotsForTeam(ALLIANCE);
      j := Filling.Job(groups, queuedGroups[Slot(bracket, NORMAL_ALLIANCE)], queuedGroups[Slot(bracket, NORMAL_HORDE)], aliFree, hordeFree);
      ReadyIsValid(j);
    }

    /** Fills the free places of a running battleground from the normal lists and invites who was
        selected: the part of Update that is done for every battleground with free places. The counters
        rise by no more than was selected and stay within the limit, and with balancing on the sides
        come out as even as they can be. If all queued players are online, the books stay right. */
    method FillRunning(bg: BattleGround, bracket: nat, invitationType: nat, now: nat, online: set<Guid>, ghost w: World)
      requires Valid() && bracket < BRACKETS && bg.instanceId != 0 && Describes(w, bg)
      modifies this`groups, bg`invitedAlliance, bg`invitedHorde, alliancePool, hordePool
      ensures alliancePool.Counts(old(groups)) && hordePool.Counts(old(groups))
      ensures Filling.Filled(old(JobOf(State(), bracket, bg.Snapshot(), HasRoom(bg))), invitationType,
                             alliancePool.selected, hordePool.selected)
      ensures Describes(Inviting.InviteAllSeen(Inviting.InviteAllSeen(w, alliancePool.selected, bg.instanceId, RemoveTime(now), online),
                                               hordePool.selected, bg.instanceId, RemoveTime(now), online), bg)
      ensures RisesWithin(old(bg.GetInvitedCount(ALLIANCE)), bg.GetInvitedCount(ALLIANCE), alliancePool.playerCount, bg.maxPlayersPerTeam)
      ensures RisesWithin(old(bg.GetInvitedCount(HORDE)), bg.GetInvitedCount(HORDE), hordePool.playerCount, bg.maxPlayersPerTeam)
      ensures Ledger.Ok(w) && old(queuedPlayers).Keys <= online ==>
                var w' := Inviting.InviteAll(Inviting.InviteAll(w, alliancePool.selected, bg.instanceId, RemoveTime(now)),
                                             hordePool.selected, bg.instanceId, RemoveTime(now));
                && Ledger.Ok(w') && Inviting.SameExcess(w, w') && Describes(w', bg)
                && bg.GetInvitedCount(ALLIANCE) == old(bg.GetInvitedCount(ALLIANCE)) + alliancePool.playerCount
                && bg.GetInvitedCount(HORDE) == old(bg.GetInvitedCount(HORDE)) + hordePool.playerCount
      ensures invitationType != 0 && (bg.status == WAIT_JOIN || bg.status == IN_PROGRESS) ==>
                Filling.Balanced(old(bg.Snapshot()).FreeSlots(ALLIANCE), old(bg.Snapshot()).FreeSlots(HORDE),
                                 alliancePool.playerCount, hordePool.playerCount)
    {
      hide Inv, RefsKnown, Ledger.Ok, Total, RisesWithin, RemoveTime, Filling.Balanced, Inviting.Fits;
      hide Inviting.SameExcess, Inviting.InviteAllSeen, Inviting.InviteAll;
      FillPlayersToBG(bg, bracket, invitationType, w);
      ghost var b, time := bg.instanceId, RemoveTime(now);
      var ali, horde := alliancePool.selected, hordePool.selected;
      BothSeen(w, ali, horde, b, time, online);
      AllSeen(w, ali, horde, b, time, online);
      FittingAreKnown(w, ali, b, ALLIANCE);
      FittingAreKnown(w, horde, b, HORDE);
      InviteSelection(ali, bg, now, online, w);
      InviteSelection(horde, bg, now, online, Inviting.InviteAllSeen(w, ali, b, time, online));
    }

    /** Clears the pools and selects for a battleground: free groups of each side that fit. */
    method FillPlayersToBG(bg: BattleGround, bracket: nat, invitationType: nat, ghost w: World)
      requires Valid() && bracket < BRACKETS && Describes(w, bg)
      modifies alliancePool, hordePool
      ensures alliancePool.Counts(groups) && hordePool.Counts(groups)
      ensures Inviting.Fits(w, alliancePool.selected, bg.instanceId, ALLIANCE)
      ensures Inviting.Fits(w, hordePool.selected, bg.instanceId, HORDE)
      ensures Filling.Filled(JobOf(State(), bracket, bg.Snapshot(), HasRoom(bg)), invitationType, alliancePool.selected, hordePool.selected)
      ensures invitationType != 0 && (bg.status == WAIT_JOIN || bg.status == IN_PROGRESS) ==>
                Filling.Balanced(bg.Snapshot().FreeSlots(ALLIANCE), bg.Snapshot().FreeSlots(HORDE),
                                 alliancePool.playerCount, hordePool.playerCount)
    {
      hide Inv, Filling.Filled, Filling.Selection, Filling.Balanced, JobOf, Inviting.Fits;
      alliancePool.Init();
      hordePool.Init();
      var j := FindJob(bg, bracket);
      Filling.FillPlayersToBG(j, invitationType, alliancePool, hordePool);
      SelectionIsInvitable(w, j, invitationType, bg.instanceId, bracket);
      if invitationType != 0 { Filling.SelectionBalanced(j, invitationType); }
    }

    // -------------------------------------------------------------- premade matches

    method FindFree(list: seq<GroupRef>) returns (i: nat)
      requires forall g :: g in list ==> g in groups
      ensures i == FirstFree(groups, list)
    {
      i := 0;
      while i < |list| && groups[list[i]].invitedTo != 0
        invariant i <= |list| && FirstFree(groups, list) == i + FirstFree(groups, list[i..])
      {
        assert list[i..][1..] == list[i + 1..];
        i := i + 1;
      }
    }

    /** Puts a premade match together in the pools, or sees whether the first premade group of either
        team is to go on waiting as a normal one. */
    method CheckPremadeMatch(bracket: nat, minPlayers: nat, maxPlayers: nat, now: nat, wait: nat) returns (found: bool)
      requires Valid() && bracket < BRACKETS && now < WORD && wait < WORD
      requires PoolsEmpty()
      modifies this`queuedGroups, alliancePool, hordePool
      ensures Valid()
      ensures var q := old(State());
              && found == HasPremadeMatch(q, bracket)
              && (found ==> State() == q
                            && Match(alliancePool.selected, hordePool.selected)
                               == PremadeMatch(q.groups, PremadeLists(q, bracket), NormalLists(q, bracket), maxPlayers))
              && (!found ==> State() == Demoted(Demoted(q, bracket, 0, TimeBefore(now, wait), minPlayers),
                                                bracket, 1, TimeBefore(now, wait), minPlayers))
      ensures found ==> IsPremadeMatch(groups, PremadeLists(State(), bracket), NormalLists(State(), bracket), maxPlayers,
                                       Match(alliancePool.selected, hordePool.selected))
      ensures found ==> alliancePool.Counts(groups) && hordePool.Counts(groups)
      ensures !found ==> PoolsEmpty()
    {
      hide Inv, IsPremadeMatch, PremadeMatch, HasPremadeMatch, PremadeLists, NormalLists, Demoted, Slot, TimeBefore;
      ghost var q := State();
      if HasPremadeMatch(q, bracket) { PremadeMatchIsSo(q, bracket, maxPlayers); }
      found := SelectPremade(bracket, maxPlayers);
      if !found {
        DemotedKeeps(q, bracket, 0, TimeBefore(now, wait), minPlayers);
        DemotedKeeps(Demoted(q, bracket, 0, TimeBefore(now, wait), minPlayers), bracket, 1, TimeBefore(now, wait), minPlayers);
        DemoteFirst(bracket, 0, TimeBefore(now, wait), minPlayers);
        DemoteFirst(bracket, 1, TimeBefore(now, wait), minPlayers);
      }
    }

    method DemoteFirst(bracket: nat, team: nat, timeBefore: nat, minPlayers: nat)
      requires bracket < BRACKETS && team < 2 && forall s: nat :: s in queuedGroups <==> s < LISTS
      modifies this`queuedGroups
      ensures State() == Demoted(old(State()), bracket, team, timeBefore, minPlayers)
      ensures forall s: nat :: s in queuedGroups <==> s < LISTS
      ensures var from, to := old(State()).In(Slot(bracket, PREMADE_ALLIANCE + team)), old(State()).In(Slot(bracket, NORMAL_ALLIANCE + team));
              var g := if from == [] then 0 else from[0];
              var goes := from != [] && g in groups && groups[g].invitedTo == 0
                          && (groups[g].joinTime < timeBefore || |groups[g].players| < minPlayers);
              && State().In(Slot(bracket, PREMADE_ALLIANCE + team)) == (if goes then from[1..] else from)
              && State().In(Slot(bracket, NORMAL_ALLIANCE + team)) == if goes then [g] + to else to
    {
      SlotFacts(bracket, PREMADE_ALLIANCE + team);
      SlotFacts(bracket, NORMAL_ALLIANCE + team);
      var from, to := Slot(bracket, PREMADE_ALLIANCE + team), Slot(bracket, NORMAL_ALLIANCE + team);
      var list := queuedGroups[from];
      if Demotable(groups, list, timeBefore, minPlayers) {
        queuedGroups := queuedGroups[to := [list[0]] + queuedGroups[to]];
        queuedGroups := queuedGroups[from := queuedGroups[from][1..]];
      }
    }

    method SelectPremade(bracket: nat, maxPlayers: nat) returns (found: bool)
      requires Valid() && bracket < BRACKETS
      requires PoolsEmpty()
      modifies alliancePool, hordePool
      ensures forall s: nat :: s in queuedGroups <==> s < LISTS
      ensures found == HasPremadeMatch(State(), bracket)
      ensures found ==> Match(alliancePool.selected, hordePool.selected)
                        == PremadeMatch(groups, PremadeLists(State(), bracket), NormalLists(State(), bracket), maxPlayers)
      ensures found ==> alliancePool.Counts(groups) && hordePool.Counts(groups)
      ensures !found ==> PoolsEmpty()
    {
      hide Inv, Extend, Slot;
      ListsKnown(State());
      KnownGroups(State());
      var a, h := State().In(Slot(bracket, PREMADE_ALLIANCE)), State().In(Slot(bracket, PREMADE_HORDE));
      var i := FindFree(a);
      var k := FindFree(h);
      if i == |a| || k == |h| { return false; }
      hide FirstFree;
      ghost var st := groups;
      PoolFirst(alliancePool, a[i], maxPlayers);
      PoolFirst(hordePool, h[k], maxPlayers);
      hide Total;
      var target := if alliancePool.playerCount < hordePool.playerCount then hordePool.playerCount else alliancePool.playerCount;
      DoExtend(alliancePool, groups, State().In(Slot(bracket, NORMAL_ALLIANCE)), 0, target);
      DoExtend(hordePool, groups, State().In(Slot(bracket, NORMAL_HORDE)), 0, target);
      return true;
    }

    method PoolFirst(pool: SelectionPool, g: GroupRef, maxPlayers: nat)
      requires g in groups && groups[g].invitedTo == 0 && pool.selected == [] && pool.playerCount == 0
      modifies pool
      ensures pool.Counts(groups) && pool.selected == OnlyIfFits(groups, g, maxPlayers)
    {
      assert Total(groups, []) == 0 && [] + [g] == [g];
      var _ := pool.AddGroup(groups, g, maxPlayers);
    }

    // -------------------------------------------------------------- skirmishes within a faction

    /** Plays a faction against itself when only one of them has enough players, after the normal
        match has filled the pools as far as it could. The opponents, if there are exactly enough of
        them, change sides: their team, and the list they stand in. */
    method CheckSkirmishForSameFaction(bracket: nat, minPlayers: nat) returns (found: bool)
      requires Valid() && bracket < BRACKETS && minPlayers > 0
      requires alliancePool.Counts(groups) && hordePool.Counts(groups)
      requires alliancePool.selected == Gather(groups, NormalLists(State(), bracket)[0], 0, [], minPlayers, minPlayers).0
      requires hordePool.selected == Gather(groups, NormalLists(State(), bracket)[1], 0, [], minPlayers, minPlayers).0
      modifies this`groups, this`queuedGroups, alliancePool, hordePool
      ensures Valid()
      ensures var q, m := old(State()), Match(old(alliancePool.selected), old(hordePool.selected));
              var t := SkirmishTeam(q.groups, m, minPlayers);
              var m' := Match(alliancePool.selected, hordePool.selected);
              if Total(q.groups, m.ali) < minPlayers && Total(q.groups, m.horde) < minPlayers then !found && State() == q
              else && Chosen(m', t) == Chosen(m, t)
                   && SkirmishResult(q, State(), bracket, t, minPlayers, Chosen(m', t), Chosen(m', Other(t)), found)
      ensures alliancePool.Counts(old(groups)) && hordePool.Counts(old(groups))
    {
      hide Inv, RefsKnown, Gather, Slot, Total, NoDuplicates, SkirmishResult;
      SkirmishLists(State(), bracket);
      GatherBound(groups, NormalLists(State(), bracket)[1], minPlayers);
      if alliancePool.playerCount < minPlayers && hordePool.playerCount < minPlayers { return false; }
      if hordePool.playerCount == minPlayers {
        found := Skirmish(bracket, minPlayers, HORDE, hordePool, alliancePool);
      } else {
        found := Skirmish(bracket, minPlayers, ALLIANCE, alliancePool, hordePool);
      }
    }

    method Skirmish(bracket: nat, minPlayers: nat, t: Team, own: SelectionPool, other: SelectionPool) returns (found: bool)
      requires Valid() && bracket < BRACKETS && minPlayers > 0 && own != other
      requires own.Counts(groups) && own.playerCount >= minPlayers
      requires own.selected == Gather(groups, State().In(NormalSlot(bracket, t)), 0, [], minPlayers, minPlayers).0
      modifies this`groups, this`queuedGroups, other
      ensures Valid()
      ensures SkirmishResult(old(State()), State(), bracket, t, minPlayers, own.selected, other.selected, found)
      ensures other.Counts(old(groups))
    {
      hide Inv, RefsKnown, NormalSlot, Gather, Extend, NoDuplicates, Opposing, OpponentsBehind;
      var from, to := NormalSlot(bracket, t), NormalSlot(bracket, Other(t));
      ghost var q := State();
      SkirmishFacts(q, bracket, t, minPlayers);
      assert Total(groups, []) == 0;
      hide Total;
      other.Init();
      var list := queuedGroups[from];
      var pos := IndexIn(list, own.selected[|own.selected| - 1]);
      if pos == |list| { return false; }
      DoExtend(other, groups, list, pos + 1, minPlayers);
      if other.playerCount != minPlayers { return false; }
      SwitchIsSafe(q, other.selected, Other(t), from, to, pos + 1, nextRef);
      SwitchAll(other.selected, Other(t), from, to, pos + 1);
      return true;
    }

    method SwitchAll(gs: seq<GroupRef>, side: Team, from: nat, to: nat, start: nat)
      requires from != to && from in queuedGroups && to in queuedGroups && NoDuplicates(queuedGroups[from])
      requires OpponentsBehind(State(), gs, from, start)
      modifies this`groups, this`queuedGroups
      ensures forall g :: g in gs ==> g in old(groups)
      ensures State() == Switch(old(State()), gs, side, from, to)
    {
      var i := 0;
      assert gs[0..] == gs;
      while i < |gs|
        invariant i <= |gs| && from in queuedGroups && to in queuedGroups && start <= |queuedGroups[from]|
        invariant NoDuplicates(queuedGroups[from])
        invariant forall g :: g in gs[i..] ==> g in groups && g in queuedGroups[from][start..]
        invariant Switch(State(), gs[i..], side, from, to) == Switch(old(State()), gs, side, from, to)
      {
        assert gs[i..][0] == gs[i] && gs[i..][1..] == gs[i + 1..];
        LaterAreOthers(gs, i);
        MoveAcross(gs[i], side, from, to, start);
        i := i + 1;
      }
      assert gs[i..] == [];
    }

    /** Gives a group its new team, puts it in front of the other list and takes it out of its own. */
    method MoveAcross(g: GroupRef, side: Team, from: nat, to: nat, start: nat)
      requires from != to && from in queuedGroups && to in queuedGroups && start <= |queuedGroups[from]|
      requires g in groups && NoDuplicates(queuedGroups[from]) && g in queuedGroups[from][start..]
      modifies this`groups, this`queuedGroups
      ensures State() == MoveToFront(SetTeam(old(State()), g, side), g, from, to)
      ensures groups.Keys == old(groups).Keys && from in queuedGroups && to in queuedGroups
      ensures start <= |queuedGroups[from]| && NoDuplicates(queuedGroups[from])
      ensures forall h :: h != g && h in old(queuedGroups[from])[start..] ==> h in queuedGroups[from][start..]
    {
      groups := groups[g := groups[g].(groupTeam := side)];
      assert State() == SetTeam(old(State()), g, side);
      MoveOver(g, from, to, start);
    }

    method MoveOver(g: GroupRef, from: nat, to: nat, start: nat)
      requires from != to && from in queuedGroups && to in queuedGroups && start <= |queuedGroups[from]|
      requires NoDuplicates(queuedGroups[from]) && g in queuedGroups[from][start..]
      modifies this`queuedGroups
      ensures State() == MoveToFront(old(State()), g, from, to)
      ensures from in queuedGroups && to in queuedGroups
      ensures start <= |queuedGroups[from]| && NoDuplicates(queuedGroups[from])
      ensures forall h :: h != g && h in old(queuedGroups[from])[start..] ==> h in queuedGroups[from][start..]
    {
      queuedGroups := queuedGroups[to := [g] + queuedGroups[to]];
      var list := queuedGroups[from];
      var k := start;
      while k < |list| && list[k] != g
        invariant start <= k <= |list| && g in list[k..]
      {
        assert list[k..] == [list[k]] + list[k + 1..];
        k := k + 1;
      }
      RemoveAtFacts(list, k, start);
      hide NoDuplicates, Without;
      queuedGroups := queuedGroups[from := list[..k] + list[k + 1..]];
    }

    // -------------------------------------------------------------- normal and rated matches

    method CheckNormalMatch(bracket: nat, minPlayers: nat, maxPlayers: nat, invitationType: nat, testing: bool) returns (found: bool)
      requires Valid() && bracket < BRACKETS && minPlayers > 0
      requires PoolsEmpty()
      modifies alliancePool, hordePool
      ensures alliancePool.Counts(groups) && hordePool.Counts(groups)
      ensures var lists, m := NormalLists(State(), bracket), Match(alliancePool.selected, hordePool.selected);
              && m == NormalMatch(groups, lists[0], lists[1], minPlayers, maxPlayers, invitationType)
              && IsNormalMatch(groups, lists[0], lists[1], minPlayers, maxPlayers, invitationType, m)
              && (found <==> Accepts(groups, m, minPlayers, invitationType, testing))
      ensures var a, h := alliancePool.playerCount, hordePool.playerCount;
              var tooUneven := invitationType != 0 && a >= minPlayers && h >= minPlayers && (a > h + 2 || h > a + 2);
              found <==> !tooUneven && ((a >= minPlayers && h >= minPlayers) || (testing && a + h > 0))
    {
      hide IsNormalMatch;
      ListsReady(State(), Slot(bracket, NORMAL_ALLIANCE), ALLIANCE);
      ListsReady(State(), Slot(bracket, NORMAL_HORDE), HORDE);
      var a, h := State().In(Slot(bracket, NORMAL_ALLIANCE)), State().In(Slot(bracket, NORMAL_HORDE));
      found := Matching.CheckNormalMatch(groups, a, h, minPlayers, maxPlayers, invitationType, testing, alliancePool, hordePool);
    }

    /** A skirmish as Update looks for it: a normal match with exactly n players on each side, and if
        there is none a faction against itself. In the second case both pools hold exactly n players
        and no common group, the second one's groups have changed sides, in their records and in the
        lists, and nothing is lost. If nothing is found, nothing in the queue has changed. */
    method CheckSkirmish(bracket: nat, n: nat, invitationType: nat, testing: bool) returns (found: bool, turned: Option<Team>)
      requires Valid() && bracket < BRACKETS && n > 0 && PoolsEmpty()
      modifies this`groups, this`queuedGroups, alliancePool, hordePool
      ensures Valid()
      ensures alliancePool.Counts(old(groups)) && hordePool.Counts(old(groups))
      ensures turned.Some? ==> found
      ensures turned == None ==> State() == old(State())
      ensures var q, lists := old(State()), NormalLists(old(State()), bracket);
              var m := NormalMatch(q.groups, lists[0], lists[1], n, n, invitationType);
              && (turned == None && found <==> Accepts(q.groups, m, n, invitationType, testing))
              && (turned == None && found ==> Match(alliancePool.selected, hordePool.selected) == m)
      ensures turned.Some? ==> Turncoats(old(State()), State(), bracket, n, turned.value, Match(alliancePool.selected, hordePool.selected))
      ensures turned.Some? ==> CanPlay(State(), alliancePool.selected, ALLIANCE, n) && CanPlay(State(), hordePool.selected, HORDE, n)
      ensures var lists, m := NormalLists(old(State()), bracket), Match(alliancePool.selected, hordePool.selected);
              if turned == None && found then IsNormalMatch(old(groups), lists[0], lists[1], n, n, invitationType, m)
              else SkirmishSearch(old(groups), lists[0], lists[1], n, turned, m)
    {
      hide IsNormalMatch, SkirmishSearch;
      ghost var q := State();
      found := CheckNormalMatch(bracket, n, n, invitationType, testing);
      turned := None;
      if !found {
        NotAcceptedIsGathered(q, bracket, n, invitationType, testing);
        hide Gather, NormalMatch, Accepts, Inv, Total, SkirmishResult;
        ghost var m := Match(alliancePool.selected, hordePool.selected);
        var side := if hordePool.playerCount == n then HORDE else ALLIANCE;
        found := CheckSkirmishForSameFaction(bracket, n);
        SkirmishIsSo(q, State(), bracket, n, m, Match(alliancePool.selected, hordePool.selected), found);
        if found {
          turned := Some(Other(side));
          SkirmishTurns(q, State(), bracket, n, m, Match(alliancePool.selected, hordePool.selected));
          SkirmishPlays(q, State(), bracket, n, m, Match(alliancePool.selected, hordePool.selected));
        }
        hide Turncoats, CanPlay;
      }
    }

    method FindEligible(list: seq<GroupRef>, start: nat, s: Search) returns (k: nat)
      requires start <= |list| && forall g :: g in list ==> g in groups
      ensures k == Next(groups, list, start, s)
    {
      k := start;
      while k < |list| && !Eligible(groups, list[k], s)
        invariant start <= k <= |list| && Next(groups, list, k, s) == Next(groups, list, start, s)
      {
        k := k + 1;
      }
    }

    /** Offers the next eligible team of a list to an empty pool. */
    method PoolEligible(pool: SelectionPool, list: seq<GroupRef>, start: nat, s: Search) returns (k: nat)
      requires start <= |list| && Ready(groups, list)
      requires pool.selected == [] && pool.playerCount == 0
      modifies pool
      ensures k == Next(groups, list, start, s)
      ensures pool.playerCount > 0 <==> Enters(groups, list, k, s)
      ensures pool.playerCount == 0 ==> pool.selected == []
      ensures pool.playerCount > 0 ==> pool.selected == [list[k]]
    {
      k := FindEligible(list, start, s);
      assert Total(groups, []) == 0;
      if k < |list| {
        TotalNext(groups, [], list[k]);
        assert [] + [list[k]] == [list[k]];
        var _ := pool.AddGroup(groups, list[k], s.maxPlayers);
      }
    }

    /** Chooses the two teams of a rated match. */
    method ChooseTeams(bracket: nat, s: Search) returns (p: Option<Pairing>)
      requires Valid() && bracket < BRACKETS
      requires PoolsEmpty()
      modifies alliancePool, hordePool
      ensures p == Pair(groups, PremadeLists(State(), bracket)[0], PremadeLists(State(), bracket)[1], s)
    {
      SlotFacts(bracket, PREMADE_ALLIANCE);
      SlotFacts(bracket, PREMADE_HORDE);
      ListsReady(State(), Slot(bracket, PREMADE_ALLIANCE), ALLIANCE);
      ListsReady(State(), Slot(bracket, PREMADE_HORDE), HORDE);
      p := PairFrom(State().In(Slot(bracket, PREMADE_ALLIANCE)), State().In(Slot(bracket, PREMADE_HORDE)), s);
    }

    method PairFrom(a: seq<GroupRef>, h: seq<GroupRef>, s: Search) returns (p: Option<Pairing>)
      requires Ready(groups, a) && Ready(groups, h) && alliancePool != hordePool
      requires PoolsEmpty()
      modifies alliancePool, hordePool
      ensures p == Pair(groups, a, h, s)
    {
      hide Ready, Next, Enters;
      var i := PoolEligible(alliancePool, a, 0, s);
      var k := PoolEligible(hordePool, h, 0, s);
      var ali, horde := if i < |a| then a[i] else 0, if k < |h| then h[k] else 0;
      if alliancePool.playerCount == 0 && hordePool.playerCount > 0 {
        assert k < |h| by { EntersInside(groups, h, k, s); }
        var n := PoolEligible(alliancePool, h, k + 1, s);
        if n < |h| { ali := h[n]; }
        EntersInside(groups, h, n, s);
      } else if hordePool.playerCount == 0 && alliancePool.playerCount > 0 {
        assert i < |a| by { EntersInside(groups, a, i, s); }
        var n := PoolEligible(hordePool, a, i + 1, s);
        if n < |a| { horde := a[n]; }
        EntersInside(groups, a, n, s);
      } else {
        EntersInside(groups, a, i, s);
        EntersInside(groups, h, k, s);
      }
      return if alliancePool.playerCount > 0 && hordePool.playerCount > 0 then Some(Pairing(ali, horde)) else None;
    }

    /** Starts a rated match: each team learns the other's rating, a team of the wrong faction changes
        lists, and both are invited. */
    method StartRatedMatch(p: Pairing, bracket: nat, arena: BattleGround, now: nat, online: set<Guid>)
      requires Valid() && bracket < BRACKETS && p.ali != p.horde && arena.instanceId != 0
      requires InPremade(State(), p.ali, bracket) && InPremade(State(), p.horde, bracket)
      requires groups[p.ali].invitedTo == 0 && groups[p.horde].invitedTo == 0
      modifies this`groups, this`queuedGroups, arena`invitedAlliance, arena`invitedHorde
      ensures Valid() && State() == Started(old(State()), p, bracket, arena.instanceId, RemoveTime(now))
      ensures arena.Snapshot() == BothRaised(old(arena.Snapshot()), old(groups), p, online)
    {
      hide *;
      ghost var q := State();
      InOrder();
      TeamsKnown(q, p, bracket);
      StartedInOrder(q, p, bracket, arena.instanceId, RemoveTime(now), nextRef);
      ghost var after := Started(q, p, bracket, arena.instanceId, RemoveTime(now));
      PlaceTeams(p, bracket);
      InviteTeams(p, arena, now, online, q.groups, after);
    }

    /** A rated match as Update looks for it: two teams are chosen and, when an arena could be made for
        them, the match is started. Then both teams are invited, one on each side, and nobody else is;
        otherwise nothing has changed. */
    method CheckRated(bracket: nat, s: Search, arena: BattleGround?, now: nat, online: set<Guid>) returns (started: Option<Pairing>)
      requires Valid() && bracket < BRACKETS && PoolsEmpty() && (arena != null ==> arena.instanceId != 0)
      modifies this`groups, this`queuedGroups, alliancePool, hordePool, if arena == null then {} else {arena}
      ensures Valid() && (arena != null ==> arena.status == old(arena.status))
      ensures started == if arena == null then None
                         else Pair(old(groups), PremadeLists(old(State()), bracket)[0], PremadeLists(old(State()), bracket)[1], s)
      ensures started == None ==> State() == old(State()) && (arena != null ==> arena.Snapshot() == old(arena.Snapshot()))
      ensures started.Some? ==>
                var q, p := old(State()), started.value;
                && TeamsReady(q, p, bracket, s.maxPlayers) && Playing(q, State(), p, arena.instanceId)
                && State() == Started(q, p, bracket, arena.instanceId, RemoveTime(now))
                && arena.Snapshot() == BothRaised(old(arena.Snapshot()), q.groups, p, online)
    {
      hide *;
      ghost var q := State();
      InOrder();
      PairIsReady(q, bracket, s);
      started := ChooseTeams(bracket, s);
      if arena == null { return None; }
      if started.Some? {
        ReadyMeans(q, started.value, bracket, s.maxPlayers);
        StartedKeeps(q, started.value, bracket, arena.instanceId, RemoveTime(now));
        StartRatedMatch(started.value, bracket, arena, now, online);
      }
    }

    method InviteTeams(p: Pairing, arena: BattleGround, now: nat, online: set<Guid>, ghost st: Store, ghost after: Queue)
      requires p.ali in groups && p.horde in groups && p.ali != p.horde && arena.instanceId != 0
      requires p.ali in st && p.horde in st && st[p.ali].invitedTo == 0 && st[p.horde].invitedTo == 0 && MatesStay(st, groups, p)
      requires after == Invite(Invite(State(), p.ali, ALLIANCE, arena.instanceId, RemoveTime(now)),
                               p.horde, HORDE, arena.instanceId, RemoveTime(now))
      requires Inv(after) && RefsKnown(after.groups, nextRef) && alliancePool != hordePool
      modifies this`groups, arena`invitedAlliance, arena`invitedHorde
      ensures State() == after && Valid()
      ensures arena.Snapshot() == BothRaised(old(arena.Snapshot()), st, p, online)
    {
      hide Inv, RefsKnown;
      var _ := InviteGroupToBG(p.ali, arena, Some(ALLIANCE), now, online);
      var _ := InviteGroupToBG(p.horde, arena, Some(HORDE), now, online);
    }

    /** Everything about a rated match but the invitations. */
    method PlaceTeams(p: Pairing, bracket: nat)
      requires Valid() && bracket < BRACKETS && p.ali != p.horde
      requires InPremade(State(), p.ali, bracket) && InPremade(State(), p.horde, bracket)
      modifies this`groups, this`queuedGroups
      ensures p.ali in old(groups) && p.horde in old(groups)
      ensures State() == Moved(Moved(Introduced(old(State()), p), p.ali, ALLIANCE, bracket), p.horde, HORDE, bracket)
      ensures MatesStay(old(groups), groups, p) && p.ali in groups && p.horde in groups
    {
      ghost var q := State();
      IntroducedKeeps(q, p, bracket);
      PlacesKept(Introduced(q, p), p.ali, ALLIANCE, p.horde, bracket);
      hide Inv, NoRepeats;
      assert p.ali in groups && p.horde in groups;
      MatesIntroduced(q, p);
      assert p.ali in Introduced(q, p).groups && p.horde in Introduced(q, p).groups;
      hide InPremade, MatesStay, Introduced;
      Introduce(p);
      MoveToSide(p.ali, ALLIANCE, bracket);
      MoveToSide(p.horde, HORDE, bracket);
    }

    method Introduce(p: Pairing)
      requires p.ali in groups && p.horde in groups && p.ali != p.horde
      modifies this`groups
      ensures State() == Introduced(old(State()), p)
    {
      groups := groups[p.ali := groups[p.ali].(opponentsTeamRating := groups[p.horde].matchmakingRating)];
      groups := groups[p.horde := groups[p.horde].(opponentsTeamRating := groups[p.ali].matchmakingRating)];
    }

    method MoveToSide(g: GroupRef, side: Team, bracket: nat)
      requires bracket < BRACKETS && NoRepeats(State()) && InPremade(State(), g, bracket)
      modifies this`queuedGroups
      ensures State() == Moved(old(State()), g, side, bracket) && groups == old(groups)
    {
      PremadeSlots(bracket, side);
      if groups[g].groupTeam != side {
        MoveOver(g, Slot(bracket, PREMADE_ALLIANCE + TeamIndex(Other(side))), Slot(bracket, PREMADE_ALLIANCE + TeamIndex(side)), 0);
      }
    }
  }

  /** A place for every member of either team who is online. */
  ghost function BothRaised(r: Roster, st: Store, p: Pairing, online: set<Guid>): Roster
    requires p.ali in st && p.horde in st
  {
    r.Raise(ALLIANCE, |st[p.ali].players * online|).Raise(HORDE, |st[p.horde].players * online|)
  }

  /** Two different teams of the bracket's premade lists, neither invited yet, of a size that may play. */
  ghost predicate TeamsReady(q: Queue, p: Pairing, bracket: nat, maxPlayers: nat) {
    && p.ali != p.horde && InPremade(q, p.ali, bracket) && InPremade(q, p.horde, bracket)
    && q.groups[p.ali].invitedTo == 0 && q.groups[p.horde].invitedTo == 0
    && 0 < |q.groups[p.ali].players| <= maxPlayers && 0 < |q.groups[p.horde].players| <= maxPlayers
  }

  lemma ReadyMeans(q: Queue, p: Pairing, bracket: nat, maxPlayers: nat)
    requires TeamsReady(q, p, bracket, maxPlayers)
    ensures p.ali != p.horde && InPremade(q, p.ali, bracket) && InPremade(q, p.horde, bracket)
    ensures p.ali in q.groups && p.horde in q.groups
    ensures q.groups[p.ali].invitedTo == 0 && q.groups[p.horde].invitedTo == 0
  {
  }

  /** The teams chosen are such that the match can be started. */
  lemma PairIsReady(q: Queue, bracket: nat, s: Search)
    requires Inv(q) && bracket < BRACKETS
    ensures match Pair(q.groups, PremadeLists(q, bracket)[0], PremadeLists(q, bracket)[1], s)
            case None => true
            case Some(p) => TeamsReady(q, p, bracket, s.maxPlayers)
  {
    var a, h := Slot(bracket, PREMADE_ALLIANCE), Slot(bracket, PREMADE_HORDE);
    SlotFacts(bracket, PREMADE_ALLIANCE);
    SlotFacts(bracket, PREMADE_HORDE);
    SlotsDiffer(bracket, PREMADE_ALLIANCE, PREMADE_HORDE);
    hide Slot, Inv, Ready, Pair;
    ListsReady(q, a, ALLIANCE);
    ListsReady(q, h, HORDE);
    ListsApart(q, a, h);
    PairIsFair(q.groups, q.lists[a], q.lists[h], s);
    PremadeIsHome(q, bracket, ALLIANCE);
    PremadeIsHome(q, bracket, HORDE);
  }

  lemma PremadeIsHome(q: Queue, bracket: nat, t: Team)
    requires Inv(q) && bracket < BRACKETS
    ensures forall g :: g in q.In(Slot(bracket, PREMADE_ALLIANCE + TeamIndex(t))) ==> InPremade(q, g, bracket)
  {
    var slot := Slot(bracket, PREMADE_ALLIANCE + TeamIndex(t));
    SlotFacts(bracket, PREMADE_ALLIANCE + TeamIndex(t));
    ListsReady(q, slot, t);
  }

  /** In the books, such a match can be started in an arena with room for it. */
  lemma StartIsEnabled(w: World, bracket: nat, s: Search, b: nat, time: nat)
    requires Inv(w.queue) && bracket < BRACKETS && b in w.grounds
    requires s.maxPlayers <= w.grounds[b].FreeSlots(ALLIANCE) && s.maxPlayers <= w.grounds[b].FreeSlots(HORDE)
    ensures match Pair(w.queue.groups, PremadeLists(w.queue, bracket)[0], PremadeLists(w.queue, bracket)[1], s)
            case None => true
            case Some(p) => Ledger.Enabled(w, Ledger.Starts(p, bracket, b, time))
  {
    PairIsReady(w.queue, bracket, s);
  }

  /** With everybody online, starting a rated match is the step of the books that does so. */
  lemma StartingTheMatch(w: World, p: Pairing, bracket: nat, b: nat, time: nat, online: set<Guid>)
    requires p.ali in w.queue.groups && p.horde in w.queue.groups && b in w.grounds
    requires w.queue.groups[p.ali].players <= online && w.queue.groups[p.horde].players <= online
    ensures StartMatch(w, p, bracket, b, time)
            == w.(queue := Started(w.queue, p, bracket, b, time), grounds := w.grounds[b := BothRaised(w.grounds[b], w.queue.groups, p, online)])
  {
    assert w.queue.groups[p.ali].players * online == w.queue.groups[p.ali].players;
    assert w.queue.groups[p.horde].players * online == w.queue.groups[p.horde].players;
  }

  /** What the two records keep while the match is prepared. */
  ghost predicate MatesStay(st: Store, st': Store, p: Pairing) {
    && st'.Keys == st.Keys
    && forall g :: g in st && (g == p.ali || g == p.horde) ==>
         st'[g].players == st[g].players && st'[g].invitedTo == st[g].invitedTo
  }

  lemma MatesIntroduced(q: Queue, p: Pairing)
    requires p.ali in q.groups && p.horde in q.groups && p.ali != p.horde
    ensures MatesStay(q.groups, Introduced(q, p).groups, p)
  {
  }

  lemma StartedInOrder(q: Queue, p: Pairing, bracket: nat, instance: nat, time: nat, next: GroupRef)
    requires Inv(q) && bracket < BRACKETS && p.ali != p.horde && RefsKnown(q.groups, next)
    requires InPremade(q, p.ali, bracket) && InPremade(q, p.horde, bracket)
    requires q.groups[p.ali].invitedTo == 0 && q.groups[p.horde].invitedTo == 0
    ensures var q' := Started(q, p, bracket, instance, time);
            && Inv(q') && RefsKnown(q'.groups, next) && Playing(q, q', p, instance)
            && q' == Invite(Invite(Moved(Moved(Introduced(q, p), p.ali, ALLIANCE, bracket), p.horde, HORDE, bracket),
                                   p.ali, ALLIANCE, instance, time), p.horde, HORDE, instance, time)
  {
    StartedKeeps(q, p, bracket, instance, time);
    hide Inv, Moved, Introduced, Invite;
  }

  lemma TeamsKnown(q: Queue, p: Pairing, bracket: nat)
    requires InPremade(q, p.ali, bracket) && InPremade(q, p.horde, bracket)
    ensures p.ali in q.groups && p.horde in q.groups
  {
  }

  lemma TeamsApart(t: Queue, m: Queue, g: GroupRef, side: Team, h: GroupRef, bracket: nat)
    requires g in m.groups && g != h && t == SetTeam(m, g, side) && InPremade(t, h, bracket) && NoRepeats(t)
    ensures InPremade(m, h, bracket) && NoRepeats(m)
  {
  }

  lemma MovedKeepsGroups(q: Queue, g: GroupRef, side: Team, bracket: nat)
    requires g in q.groups
    ensures Moved(q, g, side, bracket).groups == q.groups
  {
  }

  /** Moving one team leaves the other where it stands. */
  lemma PlacesKept(q: Queue, g: GroupRef, side: Team, h: GroupRef, bracket: nat)
    requires Inv(q) && bracket < BRACKETS && g != h && InPremade(q, g, bracket) && InPremade(q, h, bracket)
    ensures NoRepeats(q) && NoRepeats(Moved(q, g, side, bracket)) && InPremade(Moved(q, g, side, bracket), h, bracket)
  {
    TurnedKeeps(q, g, side, bracket);
    TurnedIs(q, g, side, bracket);
    var t, m := Turned(q, g, side, bracket), Moved(q, g, side, bracket);
    assert NoRepeats(t) && NoRepeats(q);
    MovedKeepsGroups(q, g, side, bracket);
    assert t == SetTeam(m, g, side) && InPremade(t, h, bracket);
    TeamsApart(t, m, g, side, h, bracket);
  }

  lemma EntersInside(st: Store, list: seq<GroupRef>, k: nat, s: Search)
    ensures Enters(st, list, k, s) ==> k < |list|
  {
  }

  lemma LaterAreOthers(gs: seq<GroupRef>, i: nat)
    requires NoDuplicates(gs) && i < |gs|
    ensures gs[i] in gs[i..] && forall g :: g in gs[i + 1..] ==> g in gs[i..] && g != gs[i]
  {
  }

  lemma RemoveAtFacts(list: seq<GroupRef>, k: nat, start: nat)
    requires NoDuplicates(list) && start <= k < |list|
    ensures var rest := list[..k] + list[k + 1..];
            && rest == Without(list, list[k]) && NoDuplicates(rest) && start <= |rest|
            && forall h :: h != list[k] && h in list[start..] ==> h in rest[start..]
  {
    WithoutAt(list, k);
    WithoutMembers(list, list[k]);
    var rest := list[..k] + list[k + 1..];
    forall h | h != list[k] && h in list[start..] ensures h in rest[start..] {
      var i :| start <= i < |list| && list[i] == h;
      assert rest[if i < k then i else i - 1] == h;
    }
  }

  function NormalSlot(bracket: nat, t: Team): nat {
    Slot(bracket, NORMAL_ALLIANCE + TeamIndex(t))
  }

  lemma NormalSlotFacts(bracket: nat, t: Team)
    requires bracket < BRACKETS
    ensures NormalSlot(bracket, t) < LISTS && NormalSlot(bracket, t) % 2 == TeamIndex(t)
    ensures NormalSlot(bracket, t) != NormalSlot(bracket, Other(t))
  {
  }

  /** A faction playing against itself: its selection has exactly the players wanted, the opponents
      are other groups of the same list, and if there are exactly enough of them too they have been
      moved to the other side. */
  ghost predicate SkirmishResult(q: Queue, q': Queue, bracket: nat, t: Team, minPlayers: nat,
                                 own: seq<GroupRef>, other: seq<GroupRef>, found: bool) {
    && Opposing(q, bracket, t, minPlayers, own, other)
    && (found <==> Total(q.groups, other) == minPlayers)
    && q' == if found then Switch(q, other, Other(t), NormalSlot(bracket, t), NormalSlot(bracket, Other(t))) else q
  }

  ghost predicate Opposing(q: Queue, bracket: nat, t: Team, minPlayers: nat, own: seq<GroupRef>, other: seq<GroupRef>) {
    var list := q.In(NormalSlot(bracket, t));
    && own != [] && Total(q.groups, own) == minPlayers
    && NoDuplicates(other) && (forall g :: g in other ==> g in q.groups && g in list && g !in own)
    && other == Opponents(q.groups, list, own, minPlayers)
  }

  /** What a successful skirmish means: two teams of the wanted size without a common group, the
      second of which has changed sides, in its records and in the lists, and nothing is lost. */
  lemma SkirmishMoves(q: Queue, q': Queue, bracket: nat, t: Team, minPlayers: nat, own: seq<GroupRef>, other: seq<GroupRef>)
    requires Inv(q) && bracket < BRACKETS && SkirmishResult(q, q', bracket, t, minPlayers, own, other, true)
    ensures Total(q.groups, own) == minPlayers == Total(q.groups, other)
    ensures forall g :: g in own ==> g !in other
    ensures var from, to := NormalSlot(bracket, t), NormalSlot(bracket, Other(t));
            Inv(q') && SwitchedTeams(q, q', other, Other(t)) && SwitchedLists(q, q', other, from, to)
  {
    NormalSlotFacts(bracket, t);
    NormalSlotFacts(bracket, Other(t));
    ListsKnown(q);
    hide Inv, NormalSlot, Opponents, Total;
    var from, to := NormalSlot(bracket, t), NormalSlot(bracket, Other(t));
    assert forall g :: g in other ==> At(q, from, g) && g in q.groups;
    SwitchKeeps(q, other, Other(t), from, to);
  }

  /** The groups of one pool have come over to `side` from the other faction. */
  ghost predicate Turncoats(q: Queue, q': Queue, bracket: nat, n: nat, side: Team, m: Match) {
    var own, other := Chosen(m, Other(side)), Chosen(m, side);
    && Total(q.groups, own) == n == Total(q.groups, other)
    && (forall g :: g in own ==> g !in other)
    && SwitchedTeams(q, q', other, side)
    && SwitchedLists(q, q', other, NormalSlot(bracket, Other(side)), NormalSlot(bracket, side))
  }

  lemma SkirmishTurns(q: Queue, q': Queue, bracket: nat, n: nat, m: Match, m': Match)
    requires Inv(q) && bracket < BRACKETS
    requires var t := SkirmishTeam(q.groups, m, n);
             SkirmishResult(q, q', bracket, t, n, Chosen(m', t), Chosen(m', Other(t)), true)
    ensures Turncoats(q, q', bracket, n, Other(SkirmishTeam(q.groups, m, n)), m')
  {
    var t := SkirmishTeam(q.groups, m, n);
    assert Other(Other(t)) == t;
    SkirmishMoves(q, q', bracket, t, n, Chosen(m', t), Chosen(m', Other(t)));
  }

  /** What a skirmish within a faction is, told without the loops that look for it: the faction has
      gathered exactly n players, in `own`, the last of them at position p of its list; its opponents are
      the groups behind that position, first come, first served, if they come to exactly n players too;
      and then they play for the other side. */
  ghost predicate FacesItself(st: Store, list: seq<GroupRef>, t: Team, own: seq<GroupRef>, p: nat, n: nat,
                              turned: Option<Team>, m: Match) {
    exists other: seq<GroupRef> ::
      && p < |list| && FirstFit(st, list, p + 1, [], other, n)
      && if Total(st, other) == n
         then turned == Some(Other(t)) && m == if t == ALLIANCE then Match(own, other) else Match(other, own)
         else turned == None
  }

  /** The horde faces itself if it has gathered n players, else the alliance if it has, else nobody. */
  ghost predicate SkirmishSearch(st: Store, aliList: seq<GroupRef>, hordeList: seq<GroupRef>, n: nat,
                                 turned: Option<Team>, m: Match) {
    exists ali: seq<GroupRef>, i: nat, horde: seq<GroupRef>, j: nat ::
      && Walked(st, aliList, 0, [], ali, i, n, n) && Walked(st, hordeList, 0, [], horde, j, n, n)
      && if Total(st, horde) == n then FacesItself(st, hordeList, HORDE, horde, j, n, turned, m)
         else if Total(st, ali) == n then FacesItself(st, aliList, ALLIANCE, ali, i, n, turned, m)
         else turned == None
  }

  /** The opponents found behind the last group selected are the first that come. */
  lemma FacingItself(q: Queue, q': Queue, bracket: nat, t: Team, n: nat, m: Match, found: bool)
    requires Inv(q) && bracket < BRACKETS && n > 0
    requires var (own, p) := Gather(q.groups, q.In(NormalSlot(bracket, t)), 0, [], n, n);
             Chosen(m, t) == own && SkirmishResult(q, q', bracket, t, n, own, Chosen(m, Other(t)), found)
    ensures var list := q.In(NormalSlot(bracket, t));
            var (own, p) := Gather(q.groups, list, 0, [], n, n);
            FacesItself(q.groups, list, t, own, p, n, if found then Some(Other(t)) else None, m)
  {
    hide Inv, Gather, Total, FirstFit, NormalSlot, Ready, Extend;
    var list := q.In(NormalSlot(bracket, t));
    var (own, p) := Gather(q.groups, list, 0, [], n, n);
    SkirmishSlots(q, bracket, t);
    FilledAt(q.groups, list, n);
    BehindServes(q.groups, list, p, n);
  }

  lemma FilledAt(st: Store, list: seq<GroupRef>, n: nat)
    requires Ready(st, list) && n > 0 && Total(st, Gather(st, list, 0, [], n, n).0) >= n
    ensures var (s, p) := Gather(st, list, 0, [], n, n);
            s != [] && p < |list| && Opponents(st, list, s, n) == Extend(st, list, p + 1, [], n)
  {
    hide Gather, Extend, Picked, IndexIn;
    FilledBy(st, list, n, n);
  }

  lemma BehindServes(st: Store, list: seq<GroupRef>, p: nat, n: nat)
    requires Ready(st, list) && p < |list|
    ensures FirstFit(st, list, p + 1, [], Extend(st, list, p + 1, [], n), n)
  {
    ExtendServes(st, list, p + 1, [], n);
    hide Extend, FirstFit;
  }

  /** What comes after a normal match that has been refused is that search. */
  lemma SkirmishIsSo(q: Queue, q': Queue, bracket: nat, n: nat, m: Match, m': Match, found: bool)
    requires Inv(q) && bracket < BRACKETS && n > 0
    requires var lists := NormalLists(q, bracket);
             m == Match(Gather(q.groups, lists[0], 0, [], n, n).0, Gather(q.groups, lists[1], 0, [], n, n).0)
    requires var t := SkirmishTeam(q.groups, m, n);
             if Total(q.groups, m.ali) < n && Total(q.groups, m.horde) < n then !found
             else Chosen(m', t) == Chosen(m, t)
                  && SkirmishResult(q, q', bracket, t, n, Chosen(m', t), Chosen(m', Other(t)), found)
    ensures var lists := NormalLists(q, bracket);
            SkirmishSearch(q.groups, lists[0], lists[1], n, if found then Some(Other(SkirmishTeam(q.groups, m, n))) else None, m')
  {
    hide Inv, Gather, Total, Walked, FacesItself, SkirmishResult, Ready;
    var lists := NormalLists(q, bracket);
    var (ali, i) := Gather(q.groups, lists[0], 0, [], n, n);
    var (horde, j) := Gather(q.groups, lists[1], 0, [], n, n);
    ListsReady(q, Slot(bracket, NORMAL_ALLIANCE), ALLIANCE);
    ListsReady(q, Slot(bracket, NORMAL_HORDE), HORDE);
    WalkThenServe(q.groups, lists[0], n, n, 0);
    WalkThenServe(q.groups, lists[1], n, n, 0);
    SkirmishLists(q, bracket);
    GatherBound(q.groups, lists[0], n);
    GatherBound(q.groups, lists[1], n);
    if Total(q.groups, horde) == n || Total(q.groups, ali) == n {
      FacingItself(q, q', bracket, SkirmishTeam(q.groups, m, n), n, m', found);
    }
  }

  /** Different free groups of one team that come to exactly n players. */
  ghost predicate CanPlay(q: Queue, gs: seq<GroupRef>, t: Team, n: nat) {
    && NoDuplicates(gs) && Total(q.groups, gs) == n
    && forall g :: g in gs ==> g in q.groups && q.groups[g].invitedTo == 0 && q.groups[g].groupTeam == t
  }

  /** Such groups can be invited wherever there is room for n players. */
  lemma PlayersFit(w: World, gs: seq<GroupRef>, b: nat, t: Team, n: nat)
    requires b in w.grounds && CanPlay(w.queue, gs, t, n) && n <= w.grounds[b].FreeSlots(t)
    ensures Inviting.Fits(w, gs, b, t)
  {
  }

  /** After a skirmish has been found both pools can be invited, each on the side it is on by then. */
  lemma SkirmishPlays(q: Queue, q': Queue, bracket: nat, n: nat, m: Match, m': Match)
    requires Inv(q) && bracket < BRACKETS && n > 0
    requires m == Match(Gather(q.groups, NormalLists(q, bracket)[0], 0, [], n, n).0, Gather(q.groups, NormalLists(q, bracket)[1], 0, [], n, n).0)
    requires var t := SkirmishTeam(q.groups, m, n);
             Chosen(m', t) == Chosen(m, t) && SkirmishResult(q, q', bracket, t, n, Chosen(m', t), Chosen(m', Other(t)), true)
    ensures CanPlay(q', m'.ali, ALLIANCE, n) && CanPlay(q', m'.horde, HORDE, n)
  {
    hide Inv, CanPlay, Gather, SkirmishResult, SkirmishTeam;
    var t := SkirmishTeam(q.groups, m, n);
    OwnPlays(q, q', bracket, n, t, Chosen(m', t), Chosen(m', Other(t)));
    OthersPlay(q, q', bracket, n, t, Chosen(m', t), Chosen(m', Other(t)));
  }

  lemma OwnPlays(q: Queue, q': Queue, bracket: nat, n: nat, t: Team, own: seq<GroupRef>, other: seq<GroupRef>)
    requires Inv(q) && bracket < BRACKETS && n > 0
    requires own == Gather(q.groups, q.In(NormalSlot(bracket, t)), 0, [], n, n).0
    requires SkirmishResult(q, q', bracket, t, n, own, other, true)
    ensures CanPlay(q', own, t, n)
  {
    var from := NormalSlot(bracket, t);
    NormalSlotFacts(bracket, t);
    ListsReady(q, from, t);
    SkirmishMoves(q, q', bracket, t, n, own, other);
    GatheredFree(q.groups, q.lists[from], n);
    assert forall g :: g in own ==> OnSide(q, g, t);
    OnesWhoStay(q, q', other, Other(t), own, t, n);
  }

  lemma GatheredFree(st: Store, list: seq<GroupRef>, n: nat)
    requires Ready(st, list) && n > 0
    ensures var s := Gather(st, list, 0, [], n, n).0;
            NoDuplicates(s) && forall g :: g in s ==> g in list && !Invited(st, g)
  {
    assert Total(st, []) == 0;
    GatherKeeps(st, list, 0, [], n, n);
  }

  lemma OnesWhoStay(q: Queue, q': Queue, other: seq<GroupRef>, side: Team, own: seq<GroupRef>, t: Team, n: nat)
    requires SwitchedTeams(q, q', other, side) && NoDuplicates(own) && Total(q.groups, own) == n
    requires forall g :: g in own ==> g !in other && OnSide(q, g, t) && !Invited(q.groups, g)
    ensures CanPlay(q', own, t, n)
  {
    SameSizes(q.groups, q'.groups, own);
  }

  lemma OthersPlay(q: Queue, q': Queue, bracket: nat, n: nat, t: Team, own: seq<GroupRef>, other: seq<GroupRef>)
    requires Inv(q) && bracket < BRACKETS && n > 0
    requires own == Gather(q.groups, q.In(NormalSlot(bracket, t)), 0, [], n, n).0
    requires SkirmishResult(q, q', bracket, t, n, own, other, true)
    ensures CanPlay(q', other, Other(t), n)
  {
    hide Gather, Inv;
    var from := NormalSlot(bracket, t);
    NormalSlotFacts(bracket, t);
    ListsReady(q, from, t);
    hide NormalSlot, Ready, Total, Opponents;
    OpponentsAreOthers(q.groups, q.lists[from], n, n);
    SkirmishMoves(q, q', bracket, t, n, own, other);
    SameSizes(q.groups, q'.groups, other);
  }

  lemma {:induction false} SameSizes(st: Store, st': Store, gs: seq<GroupRef>)
    requires forall g :: g in gs ==> Size(st, g) == Size(st', g)
    ensures Total(st, gs) == Total(st', gs)
  {
    if gs != [] {
      SameSizes(st, st', gs[..|gs| - 1]);
      assert gs[|gs| - 1] in gs;
    }
  }

  lemma NotAcceptedIsGathered(q: Queue, bracket: nat, n: nat, invitationType: nat, testing: bool)
    requires Inv(q) && bracket < BRACKETS && n > 0
    requires var lists := NormalLists(q, bracket);
             !Accepts(q.groups, NormalMatch(q.groups, lists[0], lists[1], n, n, invitationType), n, invitationType, testing)
    ensures var lists := NormalLists(q, bracket);
            NormalMatch(q.groups, lists[0], lists[1], n, n, invitationType)
            == Match(Gather(q.groups, lists[0], 0, [], n, n).0, Gather(q.groups, lists[1], 0, [], n, n).0)
  {
    ListsReady(q, Slot(bracket, NORMAL_ALLIANCE), ALLIANCE);
    ListsReady(q, Slot(bracket, NORMAL_HORDE), HORDE);
    RefusedIsGathered(q.groups, q.In(Slot(bracket, NORMAL_ALLIANCE)), q.In(Slot(bracket, NORMAL_HORDE)), n, invitationType, testing);
  }

  /** What is known of a faction that has filled its pool exactly. */
  lemma SkirmishFacts(q: Queue, bracket: nat, t: Team, minPlayers: nat)
    requires Inv(q) && bracket < BRACKETS && minPlayers > 0
    requires var list := q.In(NormalSlot(bracket, t));
             Total(q.groups, Gather(q.groups, list, 0, [], minPlayers, minPlayers).0) >= minPlayers
    ensures var from, to := NormalSlot(bracket, t), NormalSlot(bracket, Other(t));
            && from in q.lists && to in q.lists && from != to && from < LISTS && to < LISTS && to % 2 == TeamIndex(Other(t))
            && NoDuplicates(q.lists[from]) && (forall g :: g in q.lists[from] ==> g in q.groups)
            && var s := Gather(q.groups, q.lists[from], 0, [], minPlayers, minPlayers).0;
            && s != [] && var i := IndexIn(q.lists[from], s[|s| - 1]);
            && i < |q.lists[from]|
            && var o := Extend(q.groups, q.lists[from], i + 1, [], minPlayers);
            && Opposing(q, bracket, t, minPlayers, s, o) && OpponentsBehind(q, o, from, i + 1)
  {
    hide Inv, NormalSlot, Ready, Gather, IndexIn, Extend, Total, NoDuplicates;
    var from, to := NormalSlot(bracket, t), NormalSlot(bracket, Other(t));
    SkirmishSlots(q, bracket, t);
    OpponentsFollow(q.groups, q.lists[from], minPlayers);
  }

  /** Different groups standing in a list from a position on. */
  ghost predicate OpponentsBehind(q: Queue, gs: seq<GroupRef>, from: nat, start: nat) {
    && NoDuplicates(gs) && from in q.lists && start <= |q.lists[from]|
    && forall g :: g in gs ==> g in q.groups && g in q.lists[from] && g in q.lists[from][start..]
  }

  lemma SkirmishSlots(q: Queue, bracket: nat, t: Team)
    requires Inv(q) && bracket < BRACKETS
    ensures var from, to := NormalSlot(bracket, t), NormalSlot(bracket, Other(t));
            && from in q.lists && to in q.lists && from != to && from < LISTS && to < LISTS && to % 2 == TeamIndex(Other(t))
            && Ready(q.groups, q.lists[from]) && NoDuplicates(q.lists[from]) && (forall g :: g in q.lists[from] ==> g in q.groups)
  {
    NormalSlotFacts(bracket, t);
    NormalSlotFacts(bracket, Other(t));
    ListsReady(q, NormalSlot(bracket, t), t);
    ListsKnown(q);
  }

  lemma OpponentsFollow(st: Store, list: seq<GroupRef>, minPlayers: nat)
    requires Ready(st, list) && minPlayers > 0
    requires Total(st, Gather(st, list, 0, [], minPlayers, minPlayers).0) >= minPlayers
    ensures var s := Gather(st, list, 0, [], minPlayers, minPlayers).0;
            && s != [] && Total(st, s) == minPlayers
            && var o, i := Opponents(st, list, s, minPlayers), IndexIn(list, s[|s| - 1]);
            NoDuplicates(o) && i < |list| && (forall g :: g in o ==> g in list && g !in s && g in list[i + 1..])
  {
    hide Picked, Gather, Extend, Total, IndexIn, NoDuplicates;
    FilledBy(st, list, minPlayers, minPlayers);
    GatherBound(st, list, minPlayers);
    var (s, n) := Gather(st, list, 0, [], minPlayers, minPlayers);
    OpponentsAreOthers(st, list, minPlayers, minPlayers);
    ExtendSources(st, list, n + 1, [], minPlayers);
  }

  lemma SkirmishLists(q: Queue, bracket: nat)
    requires Inv(q) && bracket < BRACKETS
    ensures NoDuplicates(q.In(Slot(bracket, NORMAL_ALLIANCE))) && NoDuplicates(q.In(Slot(bracket, NORMAL_HORDE)))
  {
  }

  lemma GatherBound(st: Store, list: seq<GroupRef>, n: nat)
    requires NoDuplicates(list) && n > 0
    ensures Total(st, Gather(st, list, 0, [], n, n).0) <= n
  {
    assert Total(st, []) == 0;
    GatherKeeps(st, list, 0, [], n, n);
  }

  lemma SwitchIsSafe(q: Queue, gs: seq<GroupRef>, side: Team, from: nat, to: nat, start: nat, next: GroupRef)
    requires Inv(q) && from < LISTS && to < LISTS && from != to && to % 2 == TeamIndex(side) && from in q.lists
    requires OpponentsBehind(q, gs, from, start) && RefsKnown(q.groups, next)
    ensures forall g :: g in gs ==> g in q.groups
    ensures Inv(Switch(q, gs, side, from, to)) && RefsKnown(Switch(q, gs, side, from, to).groups, next)
  {
    assert forall g :: g in gs ==> At(q, from, g);
    SwitchKeeps(q, gs, side, from, to);
  }

  function PremadeLists(q: Queue, bracket: nat): seq<seq<GroupRef>> {
    [q.In(Slot(bracket, PREMADE_ALLIANCE)), q.In(Slot(bracket, PREMADE_HORDE))]
  }

  function NormalLists(q: Queue, bracket: nat): seq<seq<GroupRef>> {
    [q.In(Slot(bracket, NORMAL_ALLIANCE)), q.In(Slot(bracket, NORMAL_HORDE))]
  }

  predicate HasPremadeMatch(q: Queue, bracket: nat) {
    var p := PremadeLists(q, bracket);
    FirstFree(q.groups, p[0]) < |p[0]| && FirstFree(q.groups, p[1]) < |p[1]|
  }

  lemma KnownGroups(q: Queue)
    requires Inv(q)
    ensures forall s: nat, g :: g in q.In(s) ==> g in q.groups
  {
    forall s: nat, g | g in q.In(s) ensures g in q.groups {
      assert At(q, s, g);
    }
  }

  ghost predicate IsJob(j: Filling.Job, q: Queue, bracket: nat) {
    && j.st == q.groups && Slot(bracket, NORMAL_ALLIANCE) in q.lists && Slot(bracket, NORMAL_HORDE) in q.lists
    && j.aliList == q.lists[Slot(bracket, NORMAL_ALLIANCE)] && j.hordeList == q.lists[Slot(bracket, NORMAL_HORDE)]
  }

  /** The bracket's normal lists, and the places free on either side of a battleground that lets players in. */
  ghost function JobOf(q: Queue, bracket: nat, r: Roster, open: bool): Filling.Job {
    var lists := NormalLists(q, bracket);
    Filling.Job(q.groups, lists[0], lists[1], if open then r.FreeSlots(ALLIANCE) else 0, if open then r.FreeSlots(HORDE) else 0)
  }

  ghost predicate OnSide(q: Queue, g: GroupRef, t: Team) {
    g in q.groups && q.groups[g].groupTeam == t && q.groups[g].players <= q.players.Keys
  }

  lemma ListsReady(q: Queue, slot: nat, t: Team)
    requires Inv(q) && slot < LISTS && slot % 2 == TeamIndex(t)
    ensures slot in q.lists && Ready(q.groups, q.lists[slot])
    ensures forall g :: g in q.lists[slot] ==> OnSide(q, g, t)
  {
    forall g | g in q.lists[slot] ensures OnSide(q, g, t) && Size(q.groups, g) > 0 {
      assert At(q, slot, g);
      assert q.groups[g].players != {} && forall p :: p in q.groups[g].players ==> p in q.players;
    }
  }

  lemma ReadyIsValid(j: Filling.Job)
    requires Ready(j.st, j.aliList) && Ready(j.st, j.hordeList)
    ensures j.Valid()
  {
  }

  /** One side's selection can be invited. */
  lemma SideIsInvitable(w: World, gs: seq<GroupRef>, free: nat, b: nat, t: Team)
    requires b in w.grounds && NoDuplicates(gs)
    requires forall g :: g in gs ==> OnSide(w.queue, g, t) && !Invited(w.queue.groups, g)
    requires Total(w.queue.groups, gs) <= free <= w.grounds[b].FreeSlots(t)
    ensures Inviting.Fits(w, gs, b, t)
  {
    forall g | g in gs ensures Inviting.Suits(w, g, b, t) { assert OnSide(w.queue, g, t); }
  }

  lemma SelectionIsInvitable(w: World, j: Filling.Job, invitationType: nat, b: nat, bracket: nat)
    requires Inv(w.queue) && b in w.grounds && bracket < BRACKETS && j.Valid() && IsJob(j, w.queue, bracket)
    requires j.aliFree <= w.grounds[b].FreeSlots(ALLIANCE) && j.hordeFree <= w.grounds[b].FreeSlots(HORDE)
    ensures var d := Filling.Selection(j, invitationType);
            Inviting.Fits(w, d.ali, b, ALLIANCE) && Inviting.Fits(w, d.horde, b, HORDE)
  {
    var d := Filling.Selection(j, invitationType);
    SlotFacts(bracket, NORMAL_ALLIANCE);
    SlotFacts(bracket, NORMAL_HORDE);
    Filling.SelectionFits(j, invitationType);
    ListsReady(w.queue, Slot(bracket, NORMAL_ALLIANCE), ALLIANCE);
    ListsReady(w.queue, Slot(bracket, NORMAL_HORDE), HORDE);
    SideIsInvitable(w, d.ali, j.aliFree, b, ALLIANCE);
    SideIsInvitable(w, d.horde, j.hordeFree, b, HORDE);
  }

  /** A counter rises by at most n and, as it rises at all only if there is room, stays within the limit. */
  predicate RisesWithin(before: nat, after: nat, n: nat, max: nat) {
    before <= after <= before + n && (n > 0 ==> before + n <= max)
  }

  lemma FittingAreKnown(w: World, gs: seq<GroupRef>, b: nat, t: Team)
    requires b in w.grounds && Inviting.Fits(w, gs, b, t)
    ensures forall g :: g in gs ==> g in w.queue.groups
  {
    forall g | g in gs ensures g in w.queue.groups { assert Inviting.Suits(w, g, b, t); }
  }

  /** Inviting both selections, whoever is online. */
  lemma BothSeen(w: World, ali: seq<GroupRef>, horde: seq<GroupRef>, b: nat, time: nat, online: set<Guid>)
    requires b in w.grounds && w.grounds[b].maxPerTeam < WORD
    requires w.grounds[b].invitedAlliance < WORD && w.grounds[b].invitedHorde < WORD
    requires Inviting.Fits(w, ali, b, ALLIANCE) && Inviting.Fits(w, horde, b, HORDE)
    ensures var w' := Inviting.InviteAllSeen(Inviting.InviteAllSeen(w, ali, b, time, online), horde, b, time, online);
            && RisesWithin(w.grounds[b].Invited(ALLIANCE), w'.grounds[b].Invited(ALLIANCE), Total(w.queue.groups, ali), w.grounds[b].maxPerTeam)
            && RisesWithin(w.grounds[b].Invited(HORDE), w'.grounds[b].Invited(HORDE), Total(w.queue.groups, horde), w.grounds[b].maxPerTeam)
  {
    var w1 := Inviting.InviteAllSeen(w, ali, b, time, online);
    Inviting.SeenWithin(w, ali, b, time, online, ALLIANCE);
    Inviting.StillFits(w, w1, ali, horde, b);
    Inviting.SeenWithin(w1, horde, b, time, online, HORDE);
  }

  /** Inviting both selections when all queued players are online. */
  lemma AllSeen(w: World, ali: seq<GroupRef>, horde: seq<GroupRef>, b: nat, time: nat, online: set<Guid>)
    requires b in w.grounds && b != 0 && Inv(w.queue)
    requires Inviting.Fits(w, ali, b, ALLIANCE) && Inviting.Fits(w, horde, b, HORDE)
    ensures Ledger.Ok(w) && w.queue.players.Keys <= online ==>
              var w1 := Inviting.InviteAllSeen(w, ali, b, time, online);
              var w' := Inviting.InviteAllSeen(w1, horde, b, time, online);
              && w' == Inviting.InviteAll(Inviting.InviteAll(w, ali, b, time), horde, b, time)
              && Ledger.Ok(w') && Inviting.SameExcess(w, w')
              && w'.grounds[b].Invited(ALLIANCE) == w.grounds[b].Invited(ALLIANCE) + Total(w.queue.groups, ali)
              && w'.grounds[b].Invited(HORDE) == w.grounds[b].Invited(HORDE) + Total(w.queue.groups, horde)
  {
    if Ledger.Ok(w) && w.queue.players.Keys <= online {
      MembersQueued(w.queue);
      Inviting.InviteBothKeeps(w, ali, horde, b, time);
      Inviting.AllOnlineSame(w, ali, b, time, online, ALLIANCE);
      var w1 := Inviting.InviteAllSeen(w, ali, b, time, online);
      Inviting.InviteAllKeeps(w, ali, b, time, ALLIANCE);
      Inviting.OtherSideStays(w, w1, ali, horde, b);
      Inviting.SidesApart(w, ali, horde, b);
      Inviting.AllOnlineSame(w1, horde, b, time, online, HORDE);
    }
  }

  lemma MembersQueued(q: Queue)
    requires Inv(q)
    ensures forall g :: g in q.groups ==> q.groups[g].players <= q.players.Keys
  {
    forall g | g in q.groups ensures q.groups[g].players <= q.players.Keys {
      assert forall p :: p in q.groups[g].players ==> p in q.players;
    }
  }

  /** The teams of a normal match fit into a new battleground, so both can be invited. */
  lemma NormalMatchIsInvitable(w: World, b: nat, bracket: nat, minPlayers: nat, maxPlayers: nat, invitationType: nat)
    requires Inv(w.queue) && bracket < BRACKETS && minPlayers > 0 && b in w.grounds
    requires maxPlayers <= w.grounds[b].FreeSlots(ALLIANCE) && maxPlayers <= w.grounds[b].FreeSlots(HORDE)
    ensures var lists := NormalLists(w.queue, bracket);
            var m := NormalMatch(w.queue.groups, lists[0], lists[1], minPlayers, maxPlayers, invitationType);
            Inviting.Fits(w, m.ali, b, ALLIANCE) && Inviting.Fits(w, m.horde, b, HORDE)
  {
    hide Inv, NormalMatch, Total, OnSide, Ready, Slot;
    var lists := NormalLists(w.queue, bracket);
    SlotFacts(bracket, NORMAL_ALLIANCE);
    SlotFacts(bracket, NORMAL_HORDE);
    ListsReady(w.queue, Slot(bracket, NORMAL_ALLIANCE), ALLIANCE);
    ListsReady(w.queue, Slot(bracket, NORMAL_HORDE), HORDE);
    NormalMatchFits(w.queue.groups, lists[0], lists[1], minPlayers, maxPlayers, invitationType);
    var m := NormalMatch(w.queue.groups, lists[0], lists[1], minPlayers, maxPlayers, invitationType);
    assert (forall g :: g in m.ali ==> g in lists[0]) && (forall g :: g in m.horde ==> g in lists[1]);
    SideIsInvitable(w, m.ali, maxPlayers, b, ALLIANCE);
    SideIsInvitable(w, m.horde, maxPlayers, b, HORDE);
  }

  lemma PremadeMatchIsSo(q: Queue, bracket: nat, maxPlayers: nat)
    requires Inv(q) && bracket < BRACKETS && HasPremadeMatch(q, bracket)
    ensures IsPremadeMatch(q.groups, PremadeLists(q, bracket), NormalLists(q, bracket), maxPlayers,
                           PremadeMatch(q.groups, PremadeLists(q, bracket), NormalLists(q, bracket), maxPlayers))
  {
    hide Inv, Ready, OnSide, Slot, PremadeMatch, FirstFree, IsPremadeMatch;
    SlotsOf(bracket, 0);
    SlotsOf(bracket, 1);
    ListsReady(q, Slot(bracket, NORMAL_ALLIANCE), ALLIANCE);
    ListsReady(q, Slot(bracket, NORMAL_HORDE), HORDE);
    ListsReady(q, Slot(bracket, PREMADE_ALLIANCE), ALLIANCE);
    ListsReady(q, Slot(bracket, PREMADE_HORDE), HORDE);
    ListsApart(q, Slot(bracket, PREMADE_ALLIANCE), Slot(bracket, NORMAL_ALLIANCE));
    ListsApart(q, Slot(bracket, PREMADE_HORDE), Slot(bracket, NORMAL_HORDE));
    PremadeMatchIs(q.groups, PremadeLists(q, bracket), NormalLists(q, bracket), maxPlayers);
  }

  lemma PremadeMatchIsInvitable(w: World, b: nat, bracket: nat, maxPlayers: nat, t: Team)
    requires Inv(w.queue) && bracket < BRACKETS && b in w.grounds && HasPremadeMatch(w.queue, bracket)
    requires maxPlayers <= w.grounds[b].FreeSlots(t)
    ensures var m := PremadeMatch(w.queue.groups, PremadeLists(w.queue, bracket), NormalLists(w.queue, bracket), maxPlayers);
            Inviting.Fits(w, Chosen(m, t), b, t)
  {
    hide Inv, Ready, OnSide, Slot, PremadeMatch, FirstFree, Total, NoDuplicates;
    var premade, normal, side := PremadeLists(w.queue, bracket), NormalLists(w.queue, bracket), TeamIndex(t);
    var from, to := Slot(bracket, PREMADE_ALLIANCE + side), Slot(bracket, NORMAL_ALLIANCE + side);
    SlotsOf(bracket, side);
    ListsReady(w.queue, from, t);
    ListsReady(w.queue, to, t);
    ListsApart(w.queue, from, to);
    assert premade[side] == w.queue.lists[from] && normal[side] == w.queue.lists[to];
    PremadeMatchFits(w.queue.groups, premade, normal, maxPlayers, side);
    var m := PremadeMatch(w.queue.groups, premade, normal, maxPlayers);
    SideIsInvitable(w, Chosen(m, t), maxPlayers, b, t);
  }

  lemma SlotsOf(bracket: nat, side: nat)
    requires bracket < BRACKETS && side < 2
    ensures var from, to := Slot(bracket, PREMADE_ALLIANCE + side), Slot(bracket, NORMAL_ALLIANCE + side);
            from < LISTS && to < LISTS && from % 2 == to % 2 == side && from != to
  {
    SlotFacts(bracket, PREMADE_ALLIANCE + side);
    SlotFacts(bracket, NORMAL_ALLIANCE + side);
    assert (PREMADE_ALLIANCE + side) % 2 == (NORMAL_ALLIANCE + side) % 2 == side;
    SlotsDiffer(bracket, PREMADE_ALLIANCE + side, NORMAL_ALLIANCE + side);
  }

  lemma SlotsDiffer(bracket: nat, i: nat, j: nat)
    requires i != j
    ensures Slot(bracket, i) != Slot(bracket, j)
  {
  }

  lemma ListsApart(q: Queue, s: nat, t: nat)
    requires Inv(q) && s != t && s in q.lists && t in q.lists
    ensures forall g :: g in q.lists[s] ==> g !in q.lists[t]
  {
    forall g | g in q.lists[s] ensures g !in q.lists[t] {
      assert At(q, s, g) && (g in q.lists[t] ==> At(q, t, g));
    }
  }

  /** How many of those no longer in `rest` are online. */
  function Seen(members: set<Guid>, rest: set<Guid>, online: set<Guid>): nat {
    |(members - rest) * online|
  }

  lemma SeenEnds(members: set<Guid>, online: set<Guid>)
    ensures Seen(members, members, online) == 0 && Seen(members, {}, online) == |members * online|
  {
    assert (members - members) * online == {} && members - {} == members;
  }

  lemma SeenOneMore(members: set<Guid>, rest: set<Guid>, p: Guid, online: set<Guid>)
    requires p in rest && rest <= members
    ensures Seen(members, rest - {p}, online) == Seen(members, rest, online) + if p in online then 1 else 0
  {
    var counted := (members - rest) * online;
    assert (members - (rest - {p})) * online == if p in online then counted + {p} else counted;
  }

  lemma RaiseNone(r: Roster, t: Team)
    requires r.Invited(t) < WORD
    ensures r.Raise(t, 0) == r
  {
  }

  lemma RaiseOneMore(r: Roster, t: Team, n: nat)
    ensures r.Raise(t, n).Increase(t) == r.Raise(t, n + 1)
  {
  }

  /** A group stands in one of the lists that its team has. */
  lemma GroupIsSomewhere(q: Queue, g: GroupRef)
    requires Inv(q) && g in q.groups
    ensures forall s: nat :: s in q.lists <==> s < LISTS
    ensures var index := TeamIndex(q.groups[g].groupTeam);
            exists b: nat, k: nat :: b < BRACKETS && (k == index || k == index + 2) && At(q, Slot(b, k), g)
  {
    assert Listed(q, g);
    var s: nat :| At(q, s, g);
    assert s % 2 == TeamIndex(q.groups[g].groupTeam) && s in q.lists;
    assert Slot(s / 4, s % 4) == s;
  }
}
