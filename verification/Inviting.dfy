/** Inviting whole selections. Update (src/game/BattleGround/BattleGroundQueue.cpp) invites every
    group of both pools to one battleground; what has been selected always fits, so every single
    invitation is one the books of Ledger allow. */
module Inviting {
  import opened QueueModel
  import opened SelectionPools
  import opened Ledger

  ghost function InviteAll(w: World, gs: seq<GroupRef>, b: nat, time: nat): (w': World)
    requires b in w.grounds
    ensures b in w'.grounds
    decreases |gs|
  {
    if gs == [] then w else InviteNext(InviteAll(w, gs[..|gs| - 1], b, time), gs[|gs| - 1], b, time)
  }

  ghost function InviteNext(w: World, g: GroupRef, b: nat, time: nat): (w': World)
    requires b in w.grounds
    ensures b in w'.grounds
  {
    if g in w.queue.groups then InviteGroup(w, g, b, time) else w
  }

  /** A selection for one side: groups of that side that are free, each once, and no more players
      than there are places. */
  ghost predicate Fits(w: World, gs: seq<GroupRef>, b: nat, t: Team)
    requires b in w.grounds
  {
    && NoDuplicates(gs)
    && (forall g :: g in gs ==> Suits(w, g, b, t))
    && Total(w.queue.groups, gs) <= w.grounds[b].FreeSlots(t)
  }

  ghost predicate Suits(w: World, g: GroupRef, b: nat, t: Team)
    requires b in w.grounds
  {
    g in w.queue.groups && w.queue.groups[g].invitedTo == 0 && w.queue.groups[g].groupTeam == t
  }

  /** What inviting gs changes: their invitation and their side's counter. */
  ghost predicate Changed(w: World, w': World, gs: seq<GroupRef>, b: nat, t: Team)
    requires b in w.grounds
  {
    && w'.grounds.Keys == w.grounds.Keys
    && w'.grounds[b].Invited(t) == w.grounds[b].Invited(t) + Total(w.queue.groups, gs)
    && w'.grounds[b].Invited(Other(t)) == w.grounds[b].Invited(Other(t))
    && w'.grounds[b].typeId == w.grounds[b].typeId && w'.grounds[b].maxPerTeam == w.grounds[b].maxPerTeam
    && w'.queue.groups.Keys == w.queue.groups.Keys
    && (forall h :: h in w.queue.groups && h !in gs ==> w'.queue.groups[h] == w.queue.groups[h])
    && (forall h :: h in gs && h in w.queue.groups ==> w'.queue.groups[h].invitedTo == b)
    && w'.queue.lists == w.queue.lists && w'.queue.players == w.queue.players && w'.coming == w.coming
  }

  /** Every counter is as far above what it counts as before. */
  ghost predicate SameExcess(w: World, w': World) {
    forall c: nat, s: Team :: Excess(w', c, s) == Excess(w, c, s)
  }

  lemma InviteOne(w: World, g: GroupRef, b: nat, time: nat, t: Team)
    requires b in w.grounds && Suits(w, g, b, t) && Size(w.queue.groups, g) + w.grounds[b].Invited(t) < WORD
    ensures Changed(w, InviteGroup(w, g, b, time), [g], b, t)
  {
    Raised(w.grounds[b], t, |w.queue.groups[g].players|, t);
    Raised(w.grounds[b], t, |w.queue.groups[g].players|, Other(t));
    TotalNext(w.queue.groups, [], g);
    assert [] + [g] == [g] && Total(w.queue.groups, []) == 0;
    hide Total, Roster.Raise;
  }

  lemma ChangedThen(w: World, w1: World, w2: World, gs: seq<GroupRef>, g: GroupRef, b: nat, t: Team)
    requires b in w.grounds && g !in gs && g in w.queue.groups && Changed(w, w1, gs, b, t) && Changed(w1, w2, [g], b, t)
    ensures Changed(w, w2, gs + [g], b, t)
  {
    TotalNext(w.queue.groups, gs, g);
    TotalNext(w1.queue.groups, [], g);
    assert [] + [g] == [g] && Total(w1.queue.groups, []) == 0;
  }

  /** The books are kept and the counter of the side goes up by the size of the selection. */
  lemma {:induction false} InviteAllKeeps(w: World, gs: seq<GroupRef>, b: nat, time: nat, t: Team)
    requires Ok(w) && b in w.grounds && Fits(w, gs, b, t)
    ensures var w' := InviteAll(w, gs, b, time); Ok(w') && Changed(w, w', gs, b, t) && SameExcess(w, w')
    decreases |gs|
  {
    hide Ok, Changed, Suits, NoDuplicates;
    if gs == [] {
      InviteNone(w, b, t);
    } else {
      var rest, g := gs[..|gs| - 1], gs[|gs| - 1];
      FitsRest(w, gs, b, t);
      hide Fits;
      InviteAllKeeps(w, rest, b, time, t);
      InviteAllNext(w, InviteAll(w, rest, b, time), rest, g, b, time, t);
      assert gs == rest + [g];
      hide *;
    }
  }

  lemma InviteNone(w: World, b: nat, t: Team)
    requires b in w.grounds
    ensures Changed(w, w, [], b, t)
  {
    assert Total(w.queue.groups, []) == 0;
  }

  lemma InviteAllNext(w: World, w1: World, rest: seq<GroupRef>, g: GroupRef, b: nat, time: nat, t: Team)
    requires Ok(w) && Ok(w1) && b in w.grounds && g !in rest && Suits(w, g, b, t) && Changed(w, w1, rest, b, t)
    requires Total(w.queue.groups, rest) + Size(w.queue.groups, g) <= w.grounds[b].FreeSlots(t)
    ensures b in w1.grounds
    ensures var w2 := InviteNext(w1, g, b, time); Ok(w2) && Changed(w, w2, rest + [g], b, t) && SameExcess(w1, w2)
  {
    hide Ok, Enabled;
    LimitOf(w, b, t);
    LastIsEnabled(w, w1, rest, g, b, time, t);
    SuitsExists(w1, g, b, t);
    SuitsExists(w, g, b, t);
    InviteOne(w1, g, b, time, t);
    InviteKeepsBooks(w1, g, b, time);
    ChangedThen(w, w1, InviteGroup(w1, g, b, time), rest, g, b, t);
    hide *;
  }

  lemma LimitOf(w: World, b: nat, t: Team)
    requires Ok(w) && b in w.grounds
    ensures w.grounds[b].Invited(t) <= w.grounds[b].maxPerTeam < WORD
  {
  }

  lemma FitsRest(w: World, gs: seq<GroupRef>, b: nat, t: Team)
    requires b in w.grounds && Fits(w, gs, b, t) && gs != []
    ensures var rest, g := gs[..|gs| - 1], gs[|gs| - 1];
            && Fits(w, rest, b, t) && g !in rest && Suits(w, g, b, t)
            && Total(w.queue.groups, rest) + Size(w.queue.groups, g) <= w.grounds[b].FreeSlots(t)
  {
    var rest, g := gs[..|gs| - 1], gs[|gs| - 1];
    assert forall h :: h in rest ==> h in gs;
    assert g in gs;
  }

  lemma SuitsExists(w: World, g: GroupRef, b: nat, t: Team)
    requires b in w.grounds && Suits(w, g, b, t)
    ensures g in w.queue.groups
  {
  }

  lemma LastIsEnabled(w: World, w1: World, rest: seq<GroupRef>, g: GroupRef, b: nat, time: nat, t: Team)
    requires b in w.grounds && Changed(w, w1, rest, b, t) && g !in rest && Suits(w, g, b, t)
    requires Total(w.queue.groups, rest) + Size(w.queue.groups, g) <= w.grounds[b].FreeSlots(t)
    requires w.grounds[b].Invited(t) <= w.grounds[b].maxPerTeam < WORD
    ensures Enabled(w1, Invites(g, b, time)) && Suits(w1, g, b, t)
    ensures Size(w1.queue.groups, g) + w1.grounds[b].Invited(t) < WORD
  {
    assert w1.queue.groups[g] == w.queue.groups[g];
  }

  /** Two selections, one for each side, can be invited one after the other: neither takes places
      or groups from the other, and both counters end within the limit. */
  lemma InviteBothKeeps(w: World, ali: seq<GroupRef>, horde: seq<GroupRef>, b: nat, time: nat)
    requires Ok(w) && b in w.grounds && Fits(w, ali, b, ALLIANCE) && Fits(w, horde, b, HORDE)
    ensures var w' := InviteAll(InviteAll(w, ali, b, time), horde, b, time);
            && Ok(w') && SameExcess(w, w')
            && w'.grounds[b].Invited(ALLIANCE) == w.grounds[b].Invited(ALLIANCE) + Total(w.queue.groups, ali) <= w.grounds[b].maxPerTeam
            && w'.grounds[b].Invited(HORDE) == w.grounds[b].Invited(HORDE) + Total(w.queue.groups, horde) <= w.grounds[b].maxPerTeam
  {
    InviteAllKeeps(w, ali, b, time, ALLIANCE);
    var w1 := InviteAll(w, ali, b, time);
    hide InviteAll;
    LimitOf(w, b, ALLIANCE);
    LimitOf(w, b, HORDE);
    hide Ok;
    OtherSideStays(w, w1, ali, horde, b);
    InviteAllKeeps(w1, horde, b, time, HORDE);
    FitsIn(w, ali, b, ALLIANCE);
    FitsIn(w, horde, b, HORDE);
    hide Fits, Total;
  }

  lemma FitsIn(w: World, gs: seq<GroupRef>, b: nat, t: Team)
    requires b in w.grounds && Fits(w, gs, b, t) && w.grounds[b].Invited(t) <= w.grounds[b].maxPerTeam
    ensures w.grounds[b].Invited(t) + Total(w.queue.groups, gs) <= w.grounds[b].maxPerTeam
  {
  }

  lemma SidesApart(w: World, ali: seq<GroupRef>, horde: seq<GroupRef>, b: nat)
    requires b in w.grounds && Fits(w, ali, b, ALLIANCE) && Fits(w, horde, b, HORDE)
    ensures forall g :: g in horde ==> g !in ali
  {
    forall g | g in horde ensures g !in ali {
      assert Suits(w, g, b, HORDE);
      assert g in ali ==> Suits(w, g, b, ALLIANCE);
    }
  }

  lemma OtherSideStays(w: World, w1: World, ali: seq<GroupRef>, horde: seq<GroupRef>, b: nat)
    requires b in w.grounds && Fits(w, ali, b, ALLIANCE) && Fits(w, horde, b, HORDE) && Changed(w, w1, ali, b, ALLIANCE)
    ensures Fits(w1, horde, b, HORDE) && Total(w1.queue.groups, horde) == Total(w.queue.groups, horde)
  {
    SidesApart(w, ali, horde, b);
    forall g | g in horde ensures Suits(w1, g, b, HORDE) { assert Suits(w, g, b, HORDE); }
    TotalSame(w.queue.groups, w1.queue.groups, horde);
  }

  lemma {:induction false} TotalSame(st: Store, st': Store, gs: seq<GroupRef>)
    requires forall g :: g in gs ==> Size(st, g) == Size(st', g)
    ensures Total(st, gs) == Total(st', gs)
  {
    if gs != [] {
      assert forall g :: g in gs[..|gs| - 1] ==> g in gs;
      assert gs[|gs| - 1] in gs;
      TotalSame(st, st', gs[..|gs| - 1]);
    }
  }

  // ---------------------------------------------------------------- members who are not online

  /** What the loop of an invitation really does: only members who are online are counted. */
  ghost function InviteSeen(w: World, g: GroupRef, b: nat, time: nat, online: set<Guid>): (w': World)
    requires b in w.grounds
    ensures b in w'.grounds
  {
    if g !in w.queue.groups then w
    else
      var info, r := w.queue.groups[g], w.grounds[b];
      w.(queue := Invite(w.queue, g, info.groupTeam, b, time),
         grounds := w.grounds[b := if info.invitedTo == 0 then r.Raise(info.groupTeam, |info.players * online|) else r])
  }

  ghost function InviteAllSeen(w: World, gs: seq<GroupRef>, b: nat, time: nat, online: set<Guid>): (w': World)
    requires b in w.grounds
    ensures b in w'.grounds
    decreases |gs|
  {
    if gs == [] then w else InviteSeen(InviteAllSeen(w, gs[..|gs| - 1], b, time, online), gs[|gs| - 1], b, time, online)
  }

  /** What inviting gs leaves of the world: the other groups, the other side's counter and the limits. */
  ghost predicate Spared(w: World, w': World, gs: seq<GroupRef>, b: nat, t: Team)
    requires b in w.grounds && b in w'.grounds
  {
    && w'.grounds[b].Invited(Other(t)) == w.grounds[b].Invited(Other(t)) && w'.grounds[b].maxPerTeam == w.grounds[b].maxPerTeam
    && w'.queue.groups.Keys == w.queue.groups.Keys
    && forall h :: h in w.queue.groups && h !in gs ==> w'.queue.groups[h] == w.queue.groups[h]
  }

  /** Whoever is online, the counter rises by no more than the selection, and nothing else is touched. */
  lemma {:induction false} SeenWithin(w: World, gs: seq<GroupRef>, b: nat, time: nat, online: set<Guid>, t: Team)
    requires b in w.grounds && NoDuplicates(gs) && forall g :: g in gs ==> Suits(w, g, b, t)
    requires w.grounds[b].Invited(t) + Total(w.queue.groups, gs) < WORD
    ensures var w' := InviteAllSeen(w, gs, b, time, online);
            && Spared(w, w', gs, b, t)
            && w.grounds[b].Invited(t) <= w'.grounds[b].Invited(t) <= w.grounds[b].Invited(t) + Total(w.queue.groups, gs)
    decreases |gs|
  {
    if gs != [] {
      var rest, g := gs[..|gs| - 1], gs[|gs| - 1];
      assert (forall h :: h in rest ==> h in gs) && g in gs && g !in rest;
      assert Suits(w, g, b, t);
      SeenWithin(w, rest, b, time, online, t);
      SeenNext(w, InviteAllSeen(w, rest, b, time, online), rest, gs, b, time, online, t);
    } else {
    }
  }

  lemma SeenNext(w: World, w1: World, rest: seq<GroupRef>, gs: seq<GroupRef>, b: nat, time: nat, online: set<Guid>, t: Team)
    requires b in w.grounds && b in w1.grounds && gs != [] && rest == gs[..|gs| - 1] && gs[|gs| - 1] !in rest
    requires Suits(w, gs[|gs| - 1], b, t) && Spared(w, w1, rest, b, t)
    requires w.grounds[b].Invited(t) <= w1.grounds[b].Invited(t) <= w.grounds[b].Invited(t) + Total(w.queue.groups, rest)
    requires w.grounds[b].Invited(t) + Total(w.queue.groups, gs) < WORD
    ensures var w' := InviteSeen(w1, gs[|gs| - 1], b, time, online);
            && Spared(w, w', gs, b, t)
            && w.grounds[b].Invited(t) <= w'.grounds[b].Invited(t) <= w.grounds[b].Invited(t) + Total(w.queue.groups, gs)
  {
    var g := gs[|gs| - 1];
    var info := w1.queue.groups[g];
    assert info == w.queue.groups[g];
    PartIsSmaller(info.players, online);
    Raised(w1.grounds[b], t, |info.players * online|, t);
    Raised(w1.grounds[b], t, |info.players * online|, Other(t));
    assert forall h :: h in rest ==> h in gs;
    assert g in gs;
    hide Roster.Raise, Roster.Invited;
  }

  lemma StillFits(w: World, w1: World, ali: seq<GroupRef>, horde: seq<GroupRef>, b: nat)
    requires b in w.grounds && b in w1.grounds
    requires Fits(w, ali, b, ALLIANCE) && Fits(w, horde, b, HORDE) && Spared(w, w1, ali, b, ALLIANCE)
    ensures Fits(w1, horde, b, HORDE) && Total(w1.queue.groups, horde) == Total(w.queue.groups, horde)
  {
    SidesApart(w, ali, horde, b);
    forall g | g in horde ensures Suits(w1, g, b, HORDE) { assert Suits(w, g, b, HORDE); }
    TotalSame(w.queue.groups, w1.queue.groups, horde);
  }

  /** When everybody is online, that is what the books expect. */
  lemma {:induction false} AllOnlineSame(w: World, gs: seq<GroupRef>, b: nat, time: nat, online: set<Guid>, t: Team)
    requires b in w.grounds && b != 0 && NoDuplicates(gs)
    requires forall g :: g in gs ==> Suits(w, g, b, t) && w.queue.groups[g].players <= online
    ensures InviteAllSeen(w, gs, b, time, online) == InviteAll(w, gs, b, time)
    ensures forall h :: h in w.queue.groups && h !in gs ==>
              h in InviteAll(w, gs, b, time).queue.groups && InviteAll(w, gs, b, time).queue.groups[h] == w.queue.groups[h]
    decreases |gs|
  {
    if gs != [] {
      var rest, g := gs[..|gs| - 1], gs[|gs| - 1];
      assert (forall h :: h in rest ==> h in gs) && g in gs && g !in rest;
      assert Suits(w, g, b, t) && w.queue.groups[g].players * online == w.queue.groups[g].players;
      AllOnlineSame(w, rest, b, time, online, t);
    }
  }

  /** Only members who are online are counted when a group is invited, so the counter of its side is
      right afterwards exactly when the whole group is online. */
  lemma InviteCountsOnlineExactly(w: World, g: GroupRef, b: nat, time: nat, online: set<Guid>)
    requires PlayersInv(w.queue) && g in w.queue.groups && w.queue.groups[g].invitedTo == 0 && b in w.grounds && b != 0
    requires var info := w.queue.groups[g];
             Counts(w, b, info.groupTeam) && w.grounds[b].Invited(info.groupTeam) + |info.players| < WORD
    ensures var info := w.queue.groups[g];
            var w' := World(Invite(w.queue, g, info.groupTeam, b, time),
                            w.grounds[b := w.grounds[b].Raise(info.groupTeam, |info.players * online|)], w.coming);
            Counts(w', b, info.groupTeam) <==> info.players <= online
  {
    var info := w.queue.groups[g];
    var t := info.groupTeam;
    var here := info.players * online;
    PartIsSmaller(info.players, online);
    HoldingAfterInvite(w.queue, g, b, time, b, t);
    Raised(w.grounds[b], t, |here|, t);
    assert |Holding(w.queue, b, t) + info.players| == |Holding(w.queue, b, t)| + |info.players|;
    hide PlayersInv, Invite, Holding, Coming, Inside, Roster.Raise;
  }

  /** A group of two, one of them offline, is invited: both hold the invitation and one is counted. */
  lemma OfflineMemberUncounted()
    ensures var group := GroupQueueInfo({7, 8}, ALLIANCE, 1, false, 0, 0, 0, 0, 0, 0);
            var q := Queue(map[7 := 1, 8 := 1], map[1 := group], EMPTY_QUEUE.lists[2 := [1]]);
            var w := World(q, map[3 := Roster(1, 40, 0, 0, map[])], map[]);
            Counts(w, 3, ALLIANCE) && !Counts(InviteSeen(w, 1, 3, 60000, {7}), 3, ALLIANCE)
  {
    var group := GroupQueueInfo({7, 8}, ALLIANCE, 1, false, 0, 0, 0, 0, 0, 0);
    var q := Queue(map[7 := 1, 8 := 1], map[1 := group], EMPTY_QUEUE.lists[2 := [1]]);
    var w := World(q, map[3 := Roster(1, 40, 0, 0, map[])], map[]);
    assert Holding(q, 3, ALLIANCE) == {} && Coming(map[], 3, ALLIANCE) == {} && Inside(map[], ALLIANCE) == {};
    InviteCountsOnlineExactly(w, 1, 3, 60000, {7});
    assert 8 in group.players && 8 !in {7};
  }

  lemma PartIsSmaller(a: set<Guid>, online: set<Guid>)
    ensures |a * online| <= |a| && (|a * online| == |a| <==> a <= online)
  {
    assert a == a * online + (a - online);
    assert |a| == |a * online| + |a - online|;
    assert a <= online <==> a - online == {};
  }
}
