/** The invited counters of the battlegrounds, and what they count.

    A battleground's counter for a team goes up when a group is invited and down when an invited
    player leaves the queue or leaves the battleground (InviteGroupToBG and RemovePlayer of
    src/game/BattleGround/BattleGroundQueue.cpp, RemovePlayerAtLeave of BattleGround.cpp). Between
    the two a player is queued holding the invitation, then on his way in, then inside. The counter
    is a 32-bit unsigned number, so a decrement too many would wrap around.

    A player who leaves the queue gives his place back only if the manager finds the battleground
    under the type his group queued for. Whenever it does not, the counter stays one too high for
    good: over every run, a counter is exactly what it counts plus the number of places lost so.

    The proofs go through a chain of small lemmas. Where one says `hide`, it rests on the contracts
    of the lemmas it calls and leaves the definitions out, which are large once unfolded.
 */
module Ledger {
  import opened QueueModel
  import RatedMatches

  /** What a battleground knows about its players. */
  datatype Roster = Roster(typeId: nat, maxPerTeam: nat, invitedAlliance: nat, invitedHorde: nat, players: map<Guid, Team>) {
    function Invited(t: Team): nat {
      if t == ALLIANCE then invitedAlliance else invitedHorde
    }

    function WithInvited(t: Team, n: nat): Roster {
      if t == ALLIANCE then this.(invitedAlliance := n) else this.(invitedHorde := n)
    }

    function Increase(t: Team): Roster {
      WithInvited(t, (Invited(t) + 1) % WORD)
    }

    /** One increase for each member of a group. */
    function Raise(t: Team, n: nat): Roster {
      WithInvited(t, (Invited(t) + n) % WORD)
    }

    function Decrease(t: Team): Roster {
      WithInvited(t, (Invited(t) + WORD - 1) % WORD)
    }

    function FreeSlots(t: Team): nat {
      if Invited(t) < maxPerTeam then maxPerTeam - Invited(t) else 0
    }

    function Enter(p: Guid, t: Team): Roster {
      this.(players := players[p := t])
    }

    function Leave(p: Guid): Roster {
      if p in players then this.(players := players - {p}).Decrease(players[p]) else this
    }
  }

  /** Where a player who has accepted is headed. */
  datatype Ticket = Ticket(instance: nat, team: Team)

  datatype World = World(queue: Queue, grounds: map<nat, Roster>, coming: map<Guid, Ticket>)

  // ---------------------------------------------------------------- what is counted

  ghost function Holding(q: Queue, instance: nat, t: Team): set<Guid> {
    set p | p in q.players && q.players[p] in q.groups
            && q.groups[q.players[p]].invitedTo == instance && q.groups[q.players[p]].groupTeam == t
  }

  ghost function Coming(coming: map<Guid, Ticket>, instance: nat, t: Team): set<Guid> {
    set p | p in coming && coming[p] == Ticket(instance, t)
  }

  ghost function Inside(players: map<Guid, Team>, t: Team): set<Guid> {
    set p | p in players && players[p] == t
  }

  /** Queued players holding an invitation, players on their way, players inside. */
  ghost function Claims(w: World, instance: nat, t: Team): nat
    requires instance in w.grounds
  {
    |Holding(w.queue, instance, t)| + |Coming(w.coming, instance, t)| + |Inside(w.grounds[instance].players, t)|
  }

  ghost predicate Counts(w: World, instance: nat, t: Team)
    requires instance in w.grounds
  {
    w.grounds[instance].Invited(t) == Claims(w, instance, t)
  }

  /** How far a counter is above what it counts; nothing for a battleground that does not exist. */
  ghost function Excess(w: World, instance: nat, t: Team): int {
    if instance in w.grounds then w.grounds[instance].Invited(t) - Claims(w, instance, t) else 0
  }

  ghost predicate LedgerOk(w: World) {
    forall b: nat, t: Team :: Excess(w, b, t) >= 0
  }

  ghost predicate WithinLimits(w: World) {
    forall b, t :: b in w.grounds ==> w.grounds[b].Invited(t) <= w.grounds[b].maxPerTeam < WORD
  }

  /** A player is inside at most one battleground, and not while he is on his way. */
  ghost predicate OnePlace(w: World) {
    && (forall b, p :: b in w.grounds && p in w.grounds[b].players ==> p !in w.coming)
    && (forall b, c, p :: b in w.grounds && c in w.grounds && p in w.grounds[b].players && p in w.grounds[c].players ==> b == c)
  }

  /** The battleground a group is invited to is found by the group's own type. */
  ghost predicate FoundByType(q: Queue, grounds: map<nat, Roster>, g: GroupRef)
    requires g in q.groups
  {
    var info := q.groups[g];
    info.invitedTo in grounds ==> info.bgTypeId == 0 || grounds[info.invitedTo].typeId == info.bgTypeId
  }

  /** Nobody holds an invitation to the battleground or is on his way to it. */
  ghost predicate Unclaimed(w: World, b: nat) {
    && (forall g :: g in w.queue.groups ==> w.queue.groups[g].invitedTo != b)
    && (forall p :: p in w.coming ==> w.coming[p].instance != b)
  }

  /** Nobody was told to come to a battleground that does not exist. */
  ghost predicate AllExist(w: World) {
    0 !in w.grounds
    && (forall g :: g in w.queue.groups ==> w.queue.groups[g].invitedTo == 0 || w.queue.groups[g].invitedTo in w.grounds)
    && (forall p :: p in w.coming ==> w.coming[p].instance in w.grounds)
  }

  ghost predicate Ok(w: World) {
    Inv(w.queue) && LedgerOk(w) && WithinLimits(w) && OnePlace(w) && AllExist(w)
  }

  // ---------------------------------------------------------------- the steps

  /** A player leaves the queue (or his invitation runs out): the counter goes down if he held an
      invitation and the battleground is found. */
  ghost function LeaveQueue(w: World, p: Guid): World
    requires p in w.queue.players && w.queue.players[p] in w.queue.groups
  {
    var info := w.queue.groups[w.queue.players[p]];
    var b := info.invitedTo;
    World(RemovePlayer(w.queue, p),
          if b in w.grounds && b != 0 && FoundByType(w.queue, w.grounds, w.queue.players[p])
          then w.grounds[b := w.grounds[b].Decrease(info.groupTeam)] else w.grounds,
          w.coming)
  }

  /** A free group is invited on the side it is on. */
  ghost function InviteGroup(w: World, g: GroupRef, b: nat, removeTime: nat): World
    requires g in w.queue.groups && b in w.grounds
  {
    var info, r := w.queue.groups[g], w.grounds[b];
    w.(queue := Invite(w.queue, g, info.groupTeam, b, removeTime),
       grounds := w.grounds[b := r.Raise(info.groupTeam, |info.players|)])
  }

  /** An invited player accepts: he leaves the queue without the counter going down, leaves the
      battleground he may be in, and is on his way. */
  ghost function Port(w: World, p: Guid): World
    requires p in w.queue.players && w.queue.players[p] in w.queue.groups
  {
    var info := w.queue.groups[w.queue.players[p]];
    World(RemovePlayer(w.queue, p),
          map b | b in w.grounds :: w.grounds[b].Leave(p),
          w.coming[p := Ticket(info.invitedTo, info.groupTeam)])
  }

  ghost function Arrive(w: World, p: Guid): World
    requires p in w.coming && w.coming[p].instance in w.grounds
  {
    var ticket := w.coming[p];
    w.(grounds := w.grounds[ticket.instance := w.grounds[ticket.instance].Enter(p, ticket.team)],
       coming := w.coming - {p})
  }

  ghost function LeaveGround(w: World, p: Guid, b: nat): World
    requires b in w.grounds
  {
    w.(grounds := w.grounds[b := w.grounds[b].Leave(p)])
  }

  /** A rated match: both teams are put on their sides and invited. */
  ghost function StartMatch(w: World, p: RatedMatches.Pairing, bracket: nat, b: nat, removeTime: nat): World
    requires p.ali in w.queue.groups && p.horde in w.queue.groups && b in w.grounds
  {
    var st, r := w.queue.groups, w.grounds[b];
    w.(queue := RatedMatches.Started(w.queue, p, bracket, b, removeTime),
       grounds := w.grounds[b := r.Raise(ALLIANCE, |st[p.ali].players|).Raise(HORDE, |st[p.horde].players|)])
  }

  datatype Step =
    | Joins(g: GroupRef, info: GroupQueueInfo, slot: nat)
    | Leaves(p: Guid)
    | Invites(g: GroupRef, instance: nat, removeTime: nat)
    | Demotes(g: GroupRef, from: nat, to: nat)
    | SwitchesSide(g: GroupRef, side: Team, from: nat, to: nat)
    | Starts(teams: RatedMatches.Pairing, bracket: nat, instance: nat, removeTime: nat)
    | Ports(p: Guid)
    | Arrives(p: Guid)
    | LeavesGround(p: Guid, instance: nat)
    | Opens(instance: nat, typeId: nat, maxPerTeam: nat)
    | Closes(instance: nat)

  /** When the callers of each operation let it happen. */
  ghost predicate Enabled(w: World, s: Step) {
    match s
    case Joins(g, info, slot) =>
      && g !in w.queue.groups && info.players != {} && info.players !! w.queue.players.Keys && info.invitedTo == 0
      && slot < LISTS && slot % 2 == TeamIndex(info.groupTeam)
    case Leaves(p) => p in w.queue.players && w.queue.players[p] in w.queue.groups
    case Invites(g, b, _) =>
      && g in w.queue.groups && w.queue.groups[g].invitedTo == 0 && b in w.grounds
      && |w.queue.groups[g].players| <= w.grounds[b].FreeSlots(w.queue.groups[g].groupTeam)
    case Demotes(g, from, to) => from < LISTS && to < LISTS && from != to && from % 2 == to % 2 && At(w.queue, from, g)
    case SwitchesSide(g, side, from, to) =>
      && from < LISTS && to < LISTS && from != to && to % 2 == TeamIndex(side)
      && At(w.queue, from, g) && g in w.queue.groups && w.queue.groups[g].invitedTo == 0
    case Starts(p, bracket, b, _) =>
      && bracket < BRACKETS && p.ali != p.horde && b in w.grounds
      && RatedMatches.InPremade(w.queue, p.ali, bracket) && RatedMatches.InPremade(w.queue, p.horde, bracket)
      && w.queue.groups[p.ali].invitedTo == 0 && w.queue.groups[p.horde].invitedTo == 0
      && |w.queue.groups[p.ali].players| <= w.grounds[b].FreeSlots(ALLIANCE)
      && |w.queue.groups[p.horde].players| <= w.grounds[b].FreeSlots(HORDE)
    case Ports(p) =>
      && p in w.queue.players && p !in w.coming && w.queue.players[p] in w.queue.groups
      && w.queue.groups[w.queue.players[p]].invitedTo in w.grounds
    case Arrives(p) => p in w.coming && w.coming[p].instance in w.grounds
    case LeavesGround(p, b) => b in w.grounds
    case Opens(b, _, max) =>
      && b != 0 && b !in w.grounds && max < WORD
    case Closes(b) =>
      && b in w.grounds && w.grounds[b].players == map[]
      && w.grounds[b].invitedAlliance == 0 && w.grounds[b].invitedHorde == 0
  }

  ghost function Take(w: World, s: Step): World
    requires Enabled(w, s)
  {
    match s
    case Joins(g, info, slot) => w.(queue := AddGroup(w.queue, g, info, slot))
    case Leaves(p) => LeaveQueue(w, p)
    case Invites(g, b, time) => InviteGroup(w, g, b, time)
    case Demotes(g, from, to) => w.(queue := MoveToFront(w.queue, g, from, to))
    case SwitchesSide(g, side, from, to) => w.(queue := MoveToFront(SetTeam(w.queue, g, side), g, from, to))
    case Starts(p, bracket, b, time) => StartMatch(w, p, bracket, b, time)
    case Ports(p) => Port(w, p)
    case Arrives(p) => Arrive(w, p)
    case LeavesGround(p, b) => LeaveGround(w, p, b)
    case Opens(b, typeId, max) => w.(grounds := w.grounds[b := Roster(typeId, max, 0, 0, map[])])
    case Closes(b) => w.(grounds := w.grounds - {b})
  }

  /** The step loses a place: an invited player leaves the queue and his battleground is not found. */
  ghost predicate Loses(w: World, s: Step, b: nat, t: Team) {
    match s
    case Leaves(p) =>
      && p in w.queue.players && w.queue.players[p] in w.queue.groups && b in w.grounds && b != 0
      && w.queue.groups[w.queue.players[p]].invitedTo == b && w.queue.groups[w.queue.players[p]].groupTeam == t
      && !FoundByType(w.queue, w.grounds, w.queue.players[p])
    case _ => false
  }

  // ---------------------------------------------------------------- how the sets change

  lemma HoldingAfterRemove(q: Queue, p: Guid, b: nat, t: Team)
    requires PlayersInv(q) && p in q.players && b != 0
    ensures Holding(RemovePlayer(q, p), b, t) == Holding(q, b, t) - {p}
    ensures p in Holding(q, b, t) <==> q.groups[q.players[p]].invitedTo == b && q.groups[q.players[p]].groupTeam == t
  {
    hide Without;
    assert PlayersHaveGroups(q) && GroupsHavePlayers(q);
    var q', g := RemovePlayer(q, p), q.players[p];
    forall x ensures x in Holding(q', b, t) <==> x in Holding(q, b, t) && x != p {
      if x in q.players && q.players[x] == g {
        assert x in q.groups[g].players;
      }
    }
  }

  lemma HoldingAfterInvite(q: Queue, g: GroupRef, b: nat, time: nat, c: nat, t: Team)
    requires PlayersInv(q) && g in q.groups && q.groups[g].invitedTo == 0 && b != 0 && c != 0
    ensures var info := q.groups[g];
            && (Holding(Invite(q, g, info.groupTeam, b, time), c, t)
                == if c == b && t == info.groupTeam then Holding(q, c, t) + info.players else Holding(q, c, t))
            && Holding(q, c, t) !! info.players
  {
    assert PlayersHaveGroups(q) && GroupsHavePlayers(q);
    var info := q.groups[g];
    var q' := Invite(q, g, info.groupTeam, b, time);
    forall x ensures x in Holding(q', c, t) <==> x in Holding(q, c, t) || (c == b && t == info.groupTeam && x in info.players) {
      if x in q.players && q.players[x] == g { assert x in info.players; }
    }
  }

  /** Groups that are not invited may change their sides and lists. */
  ghost predicate InvitedStay(q: Queue, q': Queue) {
    && q'.players == q.players && q'.groups.Keys == q.groups.Keys
    && forall h :: h in q.groups ==> q'.groups[h] == q.groups[h] || (q.groups[h].invitedTo == 0 && q'.groups[h].invitedTo == 0)
  }

  /** Moving groups that are not invited between lists or sides does not touch anybody's invitation. */
  lemma HoldingAfterMove(q: Queue, q': Queue, b: nat, t: Team)
    requires InvitedStay(q, q') && b != 0
    ensures Holding(q', b, t) == Holding(q, b, t)
  {
    forall x ensures x in Holding(q', b, t) <==> x in Holding(q, b, t) {
      if x in q.players && q.players[x] in q.groups { assert q.players[x] in q'.groups; }
    }
  }

  lemma HoldingAfterJoin(q: Queue, g: GroupRef, info: GroupQueueInfo, slot: nat, b: nat, t: Team)
    requires PlayersInv(q) && g !in q.groups && info.players !! q.players.Keys && info.invitedTo == 0 && b != 0
    ensures Holding(AddGroup(q, g, info, slot), b, t) == Holding(q, b, t)
  {
    assert PlayersHaveGroups(q);
    var q' := AddGroup(q, g, info, slot);
    forall x ensures x in Holding(q', b, t) <==> x in Holding(q, b, t) {
      if x in q.players { assert q.players[x] != g; }
    }
  }

  lemma ComingAfterPort(coming: map<Guid, Ticket>, p: Guid, ticket: Ticket, b: nat, t: Team)
    requires p !in coming
    ensures Coming(coming[p := ticket], b, t) == if ticket == Ticket(b, t) then Coming(coming, b, t) + {p} else Coming(coming, b, t)
    ensures p !in Coming(coming, b, t)
  {
  }

  lemma ComingAfterArrival(coming: map<Guid, Ticket>, p: Guid, b: nat, t: Team)
    requires p in coming
    ensures Coming(coming - {p}, b, t) == Coming(coming, b, t) - {p}
    ensures p in Coming(coming, b, t) <==> coming[p] == Ticket(b, t)
  {
  }

  lemma InsideAfterEntering(players: map<Guid, Team>, p: Guid, side: Team, t: Team)
    requires p !in players
    ensures Inside(players[p := side], t) == if side == t then Inside(players, t) + {p} else Inside(players, t)
    ensures p !in Inside(players, t)
  {
  }

  lemma InsideAfterLeaving(players: map<Guid, Team>, p: Guid, t: Team)
    ensures Inside(players - {p}, t) == Inside(players, t) - {p}
    ensures p in Inside(players, t) <==> p in players && players[p] == t
  {
  }

  // ---------------------------------------------------------------- what the counter does

  lemma Raised(r: Roster, side: Team, n: nat, t: Team)
    requires r.Invited(side) + n < WORD
    ensures var r' := r.Raise(side, n);
            && r'.Invited(t) == (if t == side then r.Invited(t) + n else r.Invited(t))
            && r'.players == r.players && r'.typeId == r.typeId && r'.maxPerTeam == r.maxPerTeam
  {
  }

  lemma Decreased(r: Roster, side: Team, t: Team)
    requires 0 < r.Invited(side) < WORD
    ensures var r' := r.Decrease(side);
            && r'.Invited(t) == (if t == side then r.Invited(t) - 1 else r.Invited(t))
            && r'.players == r.players && r'.typeId == r.typeId && r'.maxPerTeam == r.maxPerTeam
  {
  }

  lemma Left(r: Roster, p: Guid, t: Team)
    requires p in r.players ==> 0 < r.Invited(r.players[p]) < WORD
    ensures var r' := r.Leave(p);
            && r'.Invited(t) == (if p in r.players && r.players[p] == t then r.Invited(t) - 1 else r.Invited(t))
            && r'.players == r.players - {p} && r'.typeId == r.typeId && r'.maxPerTeam == r.maxPerTeam
  {
    if p in r.players { Decreased(r.(players := r.players - {p}), r.players[p], t); }
  }

  lemma LeaveFrame(r: Roster, p: Guid)
    ensures var r' := r.Leave(p);
            r'.players == r.players - {p} && r'.typeId == r.typeId && r'.maxPerTeam == r.maxPerTeam
  {
  }

  /** A player who is counted keeps the counter off zero. */
  lemma Counted(w: World, p: Guid, b: nat, t: Team)
    requires b in w.grounds && Excess(w, b, t) >= 0 && WithinLimits(w)
    requires p in Holding(w.queue, b, t) || p in Coming(w.coming, b, t) || p in Inside(w.grounds[b].players, t)
    ensures 0 < w.grounds[b].Invited(t) < WORD
  {
  }

  lemma OneLess(s: set<Guid>, p: Guid)
    ensures |s - {p}| == if p in s then |s| - 1 else |s|
  {
    if p !in s { assert s - {p} == s; }
  }

  // ---------------------------------------------------------------- the books after each step, one counter at a time

  /** What the step does to a counter's excess. */
  ghost predicate Booked(w: World, s: Step, w': World) {
    forall b: nat, t: Team :: Excess(w', b, t) == Excess(w, b, t) + if Loses(w, s, b, t) then 1 else 0
  }

  lemma JoinsExcess(w: World, g: GroupRef, info: GroupQueueInfo, slot: nat, b: nat, t: Team)
    requires PlayersInv(w.queue) && Enabled(w, Joins(g, info, slot)) && 0 !in w.grounds
    ensures Excess(w.(queue := AddGroup(w.queue, g, info, slot)), b, t) == Excess(w, b, t)
  {
    if b in w.grounds { HoldingAfterJoin(w.queue, g, info, slot, b, t); }
  }

  /** The leaving player's own battleground and team. */
  lemma LeavesOwn(w: World, p: Guid, b: nat, t: Team)
    requires PlayersInv(w.queue) && WithinLimits(w) && p in w.queue.players && b in w.grounds && b != 0 && Excess(w, b, t) >= 0
    requires var info := w.queue.groups[w.queue.players[p]]; info.invitedTo == b && info.groupTeam == t
    ensures Excess(LeaveQueue(w, p), b, t) == Excess(w, b, t) + if FoundByType(w.queue, w.grounds, w.queue.players[p]) then 0 else 1
  {
    HoldingAfterRemove(w.queue, p, b, t);
    GroupOf(w.queue, p);
    LeavesRoster(w, p, b);
    OneLess(Holding(w.queue, b, t), p);
    Counted(w, p, b, t);
    Decreased(w.grounds[b], t, t);
  }

  lemma LeavesRoster(w: World, p: Guid, b: nat)
    requires p in w.queue.players && w.queue.players[p] in w.queue.groups && b in w.grounds && b != 0
    ensures var w', info := LeaveQueue(w, p), w.queue.groups[w.queue.players[p]];
            && b in w'.grounds && w'.queue == RemovePlayer(w.queue, p) && w'.coming == w.coming
            && w'.grounds[b] == if info.invitedTo == b && FoundByType(w.queue, w.grounds, w.queue.players[p])
                                then w.grounds[b].Decrease(info.groupTeam) else w.grounds[b]
  {
  }

  lemma LeavesOther(w: World, p: Guid, b: nat, t: Team)
    requires PlayersInv(w.queue) && p in w.queue.players && b in w.grounds && b != 0
    requires var info := w.queue.groups[w.queue.players[p]];
             (info.invitedTo == b ==> info.groupTeam != t && 0 < w.grounds[b].Invited(info.groupTeam) < WORD)
    ensures Excess(LeaveQueue(w, p), b, t) == Excess(w, b, t)
  {
    var info := w.queue.groups[w.queue.players[p]];
    HoldingAfterRemove(w.queue, p, b, t);
    GroupOf(w.queue, p);
    LeavesRoster(w, p, b);
    hide PlayersInv, LeaveQueue, RemovePlayer, Holding, Coming, Inside, FoundByType;
    assert Holding(w.queue, b, t) - {p} == Holding(w.queue, b, t);
    if info.invitedTo == b { Decreased(w.grounds[b], info.groupTeam, t); }
    hide Roster.Decrease, Roster.Invited;
  }

  lemma LeavesExcess(w: World, p: Guid, b: nat, t: Team)
    requires PlayersInv(w.queue) && WithinLimits(w) && LedgerOk(w) && 0 !in w.grounds && p in w.queue.players
    ensures Excess(LeaveQueue(w, p), b, t) == Excess(w, b, t) + if Loses(w, Leaves(p), b, t) then 1 else 0
  {
    if b in w.grounds {
      var info := w.queue.groups[w.queue.players[p]];
      assert Excess(w, b, t) >= 0 && Excess(w, b, info.groupTeam) >= 0;
      if info.invitedTo == b && info.groupTeam == t {
        LeavesOwn(w, p, b, t);
      } else {
        if info.invitedTo == b { HolderCounted(w, p, b); }
        LeavesOther(w, p, b, t);
      }
    }
    hide PlayersInv, WithinLimits, RemovePlayer, Claims, Roster.Decrease;
  }

  lemma HolderCounted(w: World, p: Guid, b: nat)
    requires PlayersInv(w.queue) && WithinLimits(w) && LedgerOk(w) && p in w.queue.players && b in w.grounds
    requires w.queue.groups[w.queue.players[p]].invitedTo == b
    ensures 0 < w.grounds[b].Invited(w.queue.groups[w.queue.players[p]].groupTeam) < WORD
  {
    var t := w.queue.groups[w.queue.players[p]].groupTeam;
    assert p in Holding(w.queue, b, t);
    assert Excess(w, b, t) >= 0;
    Counted(w, p, b, t);
  }

  lemma InvitesExcess(w: World, g: GroupRef, b: nat, time: nat, c: nat, t: Team)
    requires PlayersInv(w.queue) && WithinLimits(w) && Enabled(w, Invites(g, b, time)) && 0 !in w.grounds
    ensures Excess(InviteGroup(w, g, b, time), c, t) == Excess(w, c, t)
  {
    if c in w.grounds {
      var info := w.queue.groups[g];
      RoomFor(w, g, b, time);
      HoldingAfterInvite(w.queue, g, b, time, c, t);
      Raised(w.grounds[b], info.groupTeam, |info.players|, t);
      InviteAddsUp(w, g, b, time, c, t);
    }
    hide WithinLimits, PlayersInv, Enabled, Claims, Invite, Holding, Roster.Raise;
  }

  lemma RoomFor(w: World, g: GroupRef, b: nat, time: nat)
    requires WithinLimits(w) && Enabled(w, Invites(g, b, time))
    ensures var info := w.queue.groups[g];
            w.grounds[b].Invited(info.groupTeam) + |info.players| <= w.grounds[b].maxPerTeam < WORD
  {
    assert w.grounds[b].Invited(w.queue.groups[g].groupTeam) <= w.grounds[b].maxPerTeam;
  }

  lemma InviteAddsUp(w: World, g: GroupRef, b: nat, time: nat, c: nat, t: Team)
    requires g in w.queue.groups && b in w.grounds && c in w.grounds
    requires var info := w.queue.groups[g]; var r := w.grounds[b].Raise(info.groupTeam, |info.players|);
             && r.players == w.grounds[b].players
             && r.Invited(t) == (if t == info.groupTeam then w.grounds[b].Invited(t) + |info.players| else w.grounds[b].Invited(t))
             && (Holding(Invite(w.queue, g, info.groupTeam, b, time), c, t)
                 == if c == b && t == info.groupTeam then Holding(w.queue, c, t) + info.players else Holding(w.queue, c, t))
             && Holding(w.queue, c, t) !! info.players
    ensures Excess(InviteGroup(w, g, b, time), c, t) == Excess(w, c, t)
  {
    var info := w.queue.groups[g];
    assert |Holding(w.queue, c, t) + info.players| == |Holding(w.queue, c, t)| + |info.players|;
    hide Invite, Holding, Coming, Inside, Roster.Raise, Roster.Invited;
  }

  lemma MovesExcess(w: World, q': Queue, b: nat, t: Team)
    requires InvitedStay(w.queue, q') && 0 !in w.grounds
    ensures Excess(w.(queue := q'), b, t) == Excess(w, b, t)
  {
    if b in w.grounds { HoldingAfterMove(w.queue, q', b, t); }
  }

  lemma PortsExcess(w: World, p: Guid, b: nat, t: Team)
    requires PlayersInv(w.queue) && WithinLimits(w) && LedgerOk(w) && 0 !in w.grounds
    requires p in w.queue.players && w.queue.players[p] in w.queue.groups && p !in w.coming
    ensures Excess(Port(w, p), b, t) == Excess(w, b, t)
  {
    hide PlayersInv, WithinLimits, LedgerOk, RemovePlayer, Holding, Coming, Inside;
    if b in w.grounds {
      var info := w.queue.groups[w.queue.players[p]];
      HoldingAfterRemove(w.queue, p, b, t);
      ComingAfterPort(w.coming, p, Ticket(info.invitedTo, info.groupTeam), b, t);
      OneLess(Holding(w.queue, b, t), p);
      OneMore(Coming(w.coming, b, t), p);
      LeftCounts(w, p, b, t);
    }
    hide Roster.Leave, Roster.Invited;
  }

  lemma OneMore(s: set<Guid>, p: Guid)
    ensures |s + {p}| == if p in s then |s| else |s| + 1
  {
    if p in s { assert s + {p} == s; }
  }

  /** Leaving a battleground lowers the counter by one exactly when it lowers the number of those inside. */
  lemma LeftCounts(w: World, p: Guid, b: nat, t: Team)
    requires WithinLimits(w) && LedgerOk(w) && b in w.grounds
    ensures var r, r' := w.grounds[b], w.grounds[b].Leave(p);
            && r'.Invited(t) <= r.Invited(t)
            && r.Invited(t) - r'.Invited(t) == |Inside(r.players, t)| - |Inside(r'.players, t)|
  {
    var r := w.grounds[b];
    InsideAfterLeaving(r.players, p, t);
    OneLess(Inside(r.players, t), p);
    if p in r.players { InsiderCounted(w, p, b); }
    Left(r, p, t);
  }

  lemma InsiderCounted(w: World, p: Guid, b: nat)
    requires WithinLimits(w) && LedgerOk(w) && b in w.grounds && p in w.grounds[b].players
    ensures 0 < w.grounds[b].Invited(w.grounds[b].players[p]) < WORD
  {
    var t := w.grounds[b].players[p];
    assert p in Inside(w.grounds[b].players, t);
    assert Excess(w, b, t) >= 0;
    Counted(w, p, b, t);
  }

  lemma ArrivesExcess(w: World, p: Guid, b: nat, t: Team)
    requires OnePlace(w) && Enabled(w, Arrives(p))
    ensures Excess(Arrive(w, p), b, t) == Excess(w, b, t)
  {
    hide Holding, Coming, Inside;
    if b in w.grounds {
      var ticket := w.coming[p];
      assert p !in w.grounds[b].players;
      hide OnePlace;
      ComingAfterArrival(w.coming, p, b, t);
      OneLess(Coming(w.coming, b, t), p);
      InsideAfterEntering(w.grounds[b].players, p, ticket.team, t);
      OneMore(Inside(w.grounds[b].players, t), p);
    }
  }

  lemma LeavesGroundExcess(w: World, p: Guid, b: nat, c: nat, t: Team)
    requires LedgerOk(w) && WithinLimits(w) && b in w.grounds
    ensures Excess(LeaveGround(w, p, b), c, t) == Excess(w, c, t)
  {
    if c in w.grounds { LeftCounts(w, p, c, t); }
  }

  lemma OpensExcess(w: World, b: nat, typeId: nat, max: nat, c: nat, t: Team)
    requires Enabled(w, Opens(b, typeId, max)) && PlayersInv(w.queue) && AllExist(w)
    ensures Excess(w.(grounds := w.grounds[b := Roster(typeId, max, 0, 0, map[])]), c, t) == Excess(w, c, t)
  {
    if c == b { NothingClaimed(w, b, t); }
  }

  lemma NothingClaimed(w: World, b: nat, t: Team)
    requires PlayersInv(w.queue) && AllExist(w) && b != 0 && b !in w.grounds
    ensures Holding(w.queue, b, t) == {} && Coming(w.coming, b, t) == {} && Inside(map[], t) == {}
  {
  }

  lemma ClosesExcess(w: World, b: nat, c: nat, t: Team)
    requires Enabled(w, Closes(b)) && LedgerOk(w)
    ensures Excess(w.(grounds := w.grounds - {b}), c, t) == Excess(w, c, t)
  {
    assert Excess(w, c, t) >= 0;
    if c == b { assert w.grounds[b].Invited(t) == 0; }
  }

  // ---------------------------------------------------------------- what the steps do not touch

  /** The battlegrounds stay the same but for their counters and players. */
  ghost predicate SameGrounds(w: World, w': World) {
    && w'.grounds.Keys == w.grounds.Keys
    && forall b :: b in w.grounds ==> w'.grounds[b].typeId == w.grounds[b].typeId && w'.grounds[b].maxPerTeam == w.grounds[b].maxPerTeam
  }

  ghost predicate SamePlayers(w: World, w': World) {
    w'.coming == w.coming && w'.grounds.Keys == w.grounds.Keys
    && forall b :: b in w.grounds ==> w'.grounds[b].players == w.grounds[b].players
  }

  /** No invitation was made that was not there before. */
  ghost predicate NoNewInvitations(q: Queue, q': Queue) {
    forall g :: g in q'.groups ==> q'.groups[g].invitedTo == 0 || (g in q.groups && q.groups[g].invitedTo == q'.groups[g].invitedTo)
  }

  ghost predicate NobodySentOut(coming: map<Guid, Ticket>, coming': map<Guid, Ticket>) {
    forall p :: p in coming' ==> p in coming && coming'[p] == coming[p]
  }

  ghost predicate NotRaised(w: World, w': World) {
    forall b: nat, t: Team :: b in w.grounds && b in w'.grounds ==> w'.grounds[b].Invited(t) <= w.grounds[b].Invited(t)
  }

  lemma BooksKept(w: World, s: Step, w': World)
    requires LedgerOk(w) && Booked(w, s, w')
    ensures LedgerOk(w')
  {
    forall b: nat, t: Team ensures Excess(w', b, t) >= 0 { assert Excess(w, b, t) >= 0; }
  }

  lemma LimitsKept(w: World, w': World)
    requires WithinLimits(w) && SameGrounds(w, w') && NotRaised(w, w')
    ensures WithinLimits(w')
  {
    forall b: nat, t: Team | b in w'.grounds ensures w'.grounds[b].Invited(t) <= w'.grounds[b].maxPerTeam < WORD {
      assert w.grounds[b].Invited(t) <= w.grounds[b].maxPerTeam;
    }
  }

  lemma OnePlaceKept(w: World, w': World)
    requires SamePlayers(w, w') && OnePlace(w)
    ensures OnePlace(w')
  {
  }

  lemma ExistKept(w: World, w': World)
    requires AllExist(w) && SameGrounds(w, w') && NoNewInvitations(w.queue, w'.queue) && NobodySentOut(w.coming, w'.coming)
    ensures AllExist(w')
  {
  }

  lemma RemovedInvitations(q: Queue, p: Guid)
    requires p in q.players && q.players[p] in q.groups
    ensures NoNewInvitations(q, RemovePlayer(q, p))
  {
  }

  // ---------------------------------------------------------------- every step keeps the books

  lemma WhatIsOk(w: World)
    requires Ok(w)
    ensures Inv(w.queue) && PlayersInv(w.queue) && LedgerOk(w) && WithinLimits(w) && OnePlace(w) && AllExist(w) && 0 !in w.grounds
  {
  }

  lemma OkFrom(w: World)
    requires Inv(w.queue) && LedgerOk(w) && WithinLimits(w) && OnePlace(w) && AllExist(w)
    ensures Ok(w)
  {
  }

  lemma JoinKeeps(w: World, g: GroupRef, info: GroupQueueInfo, slot: nat)
    requires Ok(w) && Enabled(w, Joins(g, info, slot))
    ensures var w' := w.(queue := AddGroup(w.queue, g, info, slot)); Ok(w') && Booked(w, Joins(g, info, slot), w')
  {
    var w', step := w.(queue := AddGroup(w.queue, g, info, slot)), Joins(g, info, slot);
    assert g !in w.queue.groups && info.players != {} && info.players !! w.queue.players.Keys && info.invitedTo == 0
           && slot < LISTS && slot % 2 == TeamIndex(info.groupTeam) by { hide Ok; }
    hide *;
    WhatIsOk(w);
    JoinedBooked(w, g, info, slot);
    AddGroupKeepsExactly(w.queue, g, info, slot);
    JoinedInvitations(w.queue, g, info, slot);
    JoinedLimits(w, w');
    ExistKept(w, w');
    BooksKept(w, step, w');
    OkFrom(w');
  }

  lemma JoinedBooked(w: World, g: GroupRef, info: GroupQueueInfo, slot: nat)
    requires Ok(w) && Enabled(w, Joins(g, info, slot))
    ensures Booked(w, Joins(g, info, slot), w.(queue := AddGroup(w.queue, g, info, slot)))
  {
    WhatIsOk(w);
    forall b: nat, t: Team ensures Excess(w.(queue := AddGroup(w.queue, g, info, slot)), b, t) == Excess(w, b, t) {
      JoinsExcess(w, g, info, slot, b, t);
    }
  }

  lemma JoinedLimits(w: World, w': World)
    requires WithinLimits(w) && OnePlace(w) && w'.grounds == w.grounds && w'.coming == w.coming
    ensures WithinLimits(w') && OnePlace(w') && SameGrounds(w, w') && NobodySentOut(w.coming, w'.coming)
  {
  }

  lemma JoinedInvitations(q: Queue, g: GroupRef, info: GroupQueueInfo, slot: nat)
    requires g !in q.groups && info.invitedTo == 0
    ensures NoNewInvitations(q, AddGroup(q, g, info, slot))
  {
  }

  lemma LeavesKeeps(w: World, p: Guid)
    requires Ok(w) && p in w.queue.players
    ensures Ok(LeaveQueue(w, p)) && Booked(w, Leaves(p), LeaveQueue(w, p))
  {
    var w' := LeaveQueue(w, p);
    WhatIsOk(w);
    GroupOf(w.queue, p);
    LeavesBooked(w, p);
    RemovePlayerKeeps(w.queue, p);
    RemovedInvitations(w.queue, p);
    LeavesGrounds(w, p);
    BooksKept(w, Leaves(p), w');
    LimitsKept(w, w');
    OnePlaceKept(w, w');
    ExistKept(w, w');
    OkFrom(w');
  }

  lemma GroupOf(q: Queue, p: Guid)
    requires PlayersInv(q) && p in q.players
    ensures q.players[p] in q.groups
  {
  }

  lemma LeavesBooked(w: World, p: Guid)
    requires Ok(w) && p in w.queue.players && w.queue.players[p] in w.queue.groups
    ensures Booked(w, Leaves(p), LeaveQueue(w, p))
  {
    WhatIsOk(w);
    forall b: nat, t: Team
      ensures Excess(LeaveQueue(w, p), b, t) == Excess(w, b, t) + if Loses(w, Leaves(p), b, t) then 1 else 0
    {
      LeavesExcess(w, p, b, t);
    }
  }

  lemma LeavesGrounds(w: World, p: Guid)
    requires p in w.queue.players && w.queue.players[p] in w.queue.groups && WithinLimits(w) && LedgerOk(w) && PlayersInv(w.queue)
    ensures var w' := LeaveQueue(w, p);
            && SameGrounds(w, w') && SamePlayers(w, w') && NotRaised(w, w') && w'.queue == RemovePlayer(w.queue, p)
            && NobodySentOut(w.coming, w'.coming)
  {
    var info := w.queue.groups[w.queue.players[p]];
    if info.invitedTo in w.grounds {
      HolderCounted(w, p, info.invitedTo);
      Decreased(w.grounds[info.invitedTo], info.groupTeam, ALLIANCE);
      Decreased(w.grounds[info.invitedTo], info.groupTeam, HORDE);
    }
    hide PlayersInv, WithinLimits, LedgerOk, Roster.Decrease, RemovePlayer;
  }

  lemma InviteKeepsBooks(w: World, g: GroupRef, b: nat, time: nat)
    requires Ok(w) && Enabled(w, Invites(g, b, time))
    ensures var w' := InviteGroup(w, g, b, time); Ok(w') && Booked(w, Invites(g, b, time), w')
  {
    var w', step := InviteGroup(w, g, b, time), Invites(g, b, time);
    assert g in w.queue.groups && b in w.grounds by { hide Ok; }
    hide *;
    WhatIsOk(w);
    InvitedBooked(w, g, b, time);
    InviteKeeps(w.queue, g, w.queue.groups[g].groupTeam, b, time);
    InvitedLimits(w, g, b, time);
    InvitedExist(w, g, b, time);
    BooksKept(w, step, w');
    OnePlaceKept(w, w');
    OkFrom(w');
  }

  lemma InvitedBooked(w: World, g: GroupRef, b: nat, time: nat)
    requires Ok(w) && Enabled(w, Invites(g, b, time))
    ensures Booked(w, Invites(g, b, time), InviteGroup(w, g, b, time))
  {
    WhatIsOk(w);
    hide Ok, PlayersInv, LedgerOk, WithinLimits, AllExist, InviteGroup;
    forall c: nat, t: Team ensures Excess(InviteGroup(w, g, b, time), c, t) == Excess(w, c, t) {
      InvitesExcess(w, g, b, time, c, t);
    }
    hide Excess, Enabled;
  }

  lemma InvitedLimits(w: World, g: GroupRef, b: nat, time: nat)
    requires WithinLimits(w) && Enabled(w, Invites(g, b, time))
    ensures var w' := InviteGroup(w, g, b, time);
            WithinLimits(w') && SamePlayers(w, w') && w'.queue == Invite(w.queue, g, w.queue.groups[g].groupTeam, b, time)
  {
    var w', info := InviteGroup(w, g, b, time), w.queue.groups[g];
    RoomFor(w, g, b, time);
    Raised(w.grounds[b], info.groupTeam, |info.players|, ALLIANCE);
    Raised(w.grounds[b], info.groupTeam, |info.players|, HORDE);
    forall c: nat, t: Team | c in w'.grounds ensures w'.grounds[c].Invited(t) <= w'.grounds[c].maxPerTeam < WORD {
      assert w.grounds[c].Invited(t) <= w.grounds[c].maxPerTeam;
    }
  }

  lemma InvitedExist(w: World, g: GroupRef, b: nat, time: nat)
    requires AllExist(w) && Enabled(w, Invites(g, b, time))
    ensures AllExist(InviteGroup(w, g, b, time))
  {
  }

  /** Any change of sides and lists that leaves the queue in order leaves the books alone. */
  lemma MoveKeepsBooks(w: World, q': Queue)
    requires Ok(w) && Inv(q') && InvitedStay(w.queue, q')
    ensures Ok(w.(queue := q'))
    ensures forall b: nat, t: Team :: Excess(w.(queue := q'), b, t) == Excess(w, b, t)
  {
    var w' := w.(queue := q');
    assert NoNewInvitations(w.queue, q');
    forall b: nat, t: Team ensures Excess(w', b, t) == Excess(w, b, t) { MovesExcess(w, q', b, t); }
    ExistKept(w, w');
    forall b: nat, t: Team ensures Excess(w', b, t) >= 0 { assert Excess(w, b, t) >= 0; }
  }

  lemma DemotesKeeps(w: World, g: GroupRef, from: nat, to: nat)
    requires Ok(w) && Enabled(w, Demotes(g, from, to))
    ensures var w' := w.(queue := MoveToFront(w.queue, g, from, to)); Ok(w') && Booked(w, Demotes(g, from, to), w')
  {
    DemoteKeeps(w.queue, g, from, to);
    assert InvitedStay(w.queue, MoveToFront(w.queue, g, from, to));
    MoveKeepsBooks(w, MoveToFront(w.queue, g, from, to));
  }

  lemma SwitchesSideKeeps(w: World, g: GroupRef, side: Team, from: nat, to: nat)
    requires Ok(w) && Enabled(w, SwitchesSide(g, side, from, to))
    ensures var w' := w.(queue := MoveToFront(SetTeam(w.queue, g, side), g, from, to));
            Ok(w') && Booked(w, SwitchesSide(g, side, from, to), w')
  {
    hide Inv, LedgerOk, WithinLimits, OnePlace, AllExist, At, MoveToFront, SetTeam;
    SwitchedStay(w.queue, g, side, from, to);
    SwitchSideKeeps(w.queue, g, side, from, to);
    hide InvitedStay;
    MoveKeepsBooks(w, MoveToFront(SetTeam(w.queue, g, side), g, from, to));
    hide Ok, Excess, Enabled;
  }

  lemma SwitchedStay(q: Queue, g: GroupRef, side: Team, from: nat, to: nat)
    requires g in q.groups && q.groups[g].invitedTo == 0
    ensures InvitedStay(q, MoveToFront(SetTeam(q, g, side), g, from, to))
  {
  }

  lemma PortsKeeps(w: World, p: Guid)
    requires Enabled(w, Ports(p)) && Ok(w)
    ensures Ok(Port(w, p)) && Booked(w, Ports(p), Port(w, p))
  {
    var w' := Port(w, p);
    hide *;
    WhatIsOk(w);
    PortsWhen(w, p);
    PortsBooked(w, p);
    RemovePlayerKeeps(w.queue, p);
    RemovedInvitations(w.queue, p);
    PortedGrounds(w, p);
    PortedExist(w, p);
    BooksKept(w, Ports(p), w');
    LimitsKept(w, w');
    OkFrom(w');
  }

  lemma PortsWhen(w: World, p: Guid)
    requires Enabled(w, Ports(p))
    ensures p in w.queue.players && w.queue.players[p] in w.queue.groups && p !in w.coming
  {
  }

  lemma PortsBooked(w: World, p: Guid)
    requires PlayersInv(w.queue) && WithinLimits(w) && LedgerOk(w) && 0 !in w.grounds
    requires p in w.queue.players && w.queue.players[p] in w.queue.groups && p !in w.coming
    ensures Booked(w, Ports(p), Port(w, p))
  {
    forall b: nat, t: Team ensures Excess(Port(w, p), b, t) == Excess(w, b, t) { PortsExcess(w, p, b, t); }
  }

  lemma PortedExist(w: World, p: Guid)
    requires AllExist(w) && Enabled(w, Ports(p)) && NoNewInvitations(w.queue, RemovePlayer(w.queue, p))
    ensures AllExist(Port(w, p))
  {
  }

  lemma PortedGrounds(w: World, p: Guid)
    requires p in w.queue.players && w.queue.players[p] in w.queue.groups && OnePlace(w) && WithinLimits(w) && LedgerOk(w)
    ensures SameGrounds(w, Port(w, p)) && OnePlace(Port(w, p)) && NotRaised(w, Port(w, p)) && Port(w, p).queue == RemovePlayer(w.queue, p)
  {
    var w' := Port(w, p);
    forall b | b in w.grounds ensures w'.grounds[b] == w.grounds[b].Leave(p) && w'.grounds[b].players == w.grounds[b].players - {p} {
      LeaveFrame(w.grounds[b], p);
    }
    forall b | b in w.grounds { LeaveFrame(w.grounds[b], p); }
    forall b: nat, t: Team | b in w.grounds ensures w'.grounds[b].Invited(t) <= w.grounds[b].Invited(t) { LeftCounts(w, p, b, t); }
    hide Roster.Leave, RemovePlayer, LedgerOk, WithinLimits, Inside, Roster.Invited;
  }

  lemma ArrivesKeeps(w: World, p: Guid)
    requires Enabled(w, Arrives(p)) && Ok(w)
    ensures Ok(Arrive(w, p)) && Booked(w, Arrives(p), Arrive(w, p))
  {
    var w' := Arrive(w, p);
    hide *;
    WhatIsOk(w);
    ArrivedGrounds(w, p);
    ArrivesBooked(w, p);
    ExistKept(w, w');
    BooksKept(w, Arrives(p), w');
    LimitsKept(w, w');
    OkFrom(w');
  }

  lemma ArrivesBooked(w: World, p: Guid)
    requires OnePlace(w) && Enabled(w, Arrives(p))
    ensures Booked(w, Arrives(p), Arrive(w, p))
  {
    forall b: nat, t: Team ensures Excess(Arrive(w, p), b, t) == Excess(w, b, t) { ArrivesExcess(w, p, b, t); }
  }

  lemma ArrivedOnePlace(w: World, p: Guid)
    requires p in w.coming && w.coming[p].instance in w.grounds && OnePlace(w)
    ensures OnePlace(Arrive(w, p))
  {
    var w', c := Arrive(w, p), w.coming[p].instance;
    assert forall b :: b in w.grounds ==> p !in w.grounds[b].players;
    assert forall b, x :: b in w.grounds && x != p ==> (x in w'.grounds[b].players <==> x in w.grounds[b].players);
    assert forall b :: b in w.grounds ==> (p in w'.grounds[b].players <==> b == c);
    assert w'.coming.Keys == w.coming.Keys - {p} && w'.grounds.Keys == w.grounds.Keys;
    hide Arrive;
    StillOnePlace(w, w', p, c);
  }

  /** Only p has moved: he is inside c now and nowhere else. */
  lemma StillOnePlace(w: World, w': World, p: Guid, c: nat)
    requires OnePlace(w) && w'.coming.Keys == w.coming.Keys - {p} && w'.grounds.Keys == w.grounds.Keys
    requires forall b, x :: b in w.grounds && x != p ==> (x in w'.grounds[b].players <==> x in w.grounds[b].players)
    requires forall b :: b in w.grounds ==> (p in w'.grounds[b].players <==> b == c)
    ensures OnePlace(w')
  {
    forall b, d, x | b in w'.grounds && d in w'.grounds && x in w'.grounds[b].players && x in w'.grounds[d].players ensures b == d {
      if x != p { assert x in w.grounds[b].players && x in w.grounds[d].players; }
    }
  }

  lemma ArrivedGrounds(w: World, p: Guid)
    requires p in w.coming && w.coming[p].instance in w.grounds && OnePlace(w)
    ensures var w' := Arrive(w, p);
            && SameGrounds(w, w') && OnePlace(w') && NotRaised(w, w') && w'.queue == w.queue
            && NoNewInvitations(w.queue, w'.queue) && NobodySentOut(w.coming, w'.coming)
  {
    ArrivedOnePlace(w, p);
    hide OnePlace;
  }

  lemma LeavesGroundKeeps(w: World, p: Guid, b: nat)
    requires Ok(w) && b in w.grounds
    ensures Ok(LeaveGround(w, p, b)) && Booked(w, LeavesGround(p, b), LeaveGround(w, p, b))
  {
    var w' := LeaveGround(w, p, b);
    WhatIsOk(w);
    LeftGrounds(w, p, b);
    LeftNotRaised(w, p, b);
    LeavesGroundBooked(w, p, b);
    ExistKept(w, w');
    BooksKept(w, LeavesGround(p, b), w');
    LimitsKept(w, w');
    OkFrom(w');
  }

  lemma LeavesGroundBooked(w: World, p: Guid, b: nat)
    requires LedgerOk(w) && WithinLimits(w) && b in w.grounds
    ensures Booked(w, LeavesGround(p, b), LeaveGround(w, p, b))
  {
    forall c: nat, t: Team ensures Excess(LeaveGround(w, p, b), c, t) == Excess(w, c, t) { LeavesGroundExcess(w, p, b, c, t); }
  }

  lemma LeftOnePlace(w: World, p: Guid, b: nat)
    requires b in w.grounds && OnePlace(w)
    ensures OnePlace(LeaveGround(w, p, b))
  {
    LeaveFrame(w.grounds[b], p);
    var w' := LeaveGround(w, p, b);
    assert forall c, x :: c in w.grounds && x in w'.grounds[c].players ==> x in w.grounds[c].players;
    assert w'.coming == w.coming && w'.grounds.Keys == w.grounds.Keys;
  }

  lemma LeftGrounds(w: World, p: Guid, b: nat)
    requires b in w.grounds && OnePlace(w)
    ensures var w' := LeaveGround(w, p, b);
            && SameGrounds(w, w') && OnePlace(w') && w'.queue == w.queue
            && NoNewInvitations(w.queue, w'.queue) && NobodySentOut(w.coming, w'.coming)
  {
    LeaveFrame(w.grounds[b], p);
    LeftOnePlace(w, p, b);
  }

  lemma LeftNotRaised(w: World, p: Guid, b: nat)
    requires b in w.grounds && WithinLimits(w) && LedgerOk(w)
    ensures NotRaised(w, LeaveGround(w, p, b))
  {
    forall c: nat, t: Team | c == b ensures LeaveGround(w, p, b).grounds[c].Invited(t) <= w.grounds[c].Invited(t) {
      LeftCounts(w, p, b, t);
    }
  }

  lemma OpensKeeps(w: World, b: nat, typeId: nat, max: nat)
    requires Ok(w) && Enabled(w, Opens(b, typeId, max))
    ensures var w' := w.(grounds := w.grounds[b := Roster(typeId, max, 0, 0, map[])]); Ok(w') && Booked(w, Opens(b, typeId, max), w')
  {
    var w' := w.(grounds := w.grounds[b := Roster(typeId, max, 0, 0, map[])]);
    OpenedRest(w, b, typeId, max);
    forall c: nat, t: Team ensures Excess(w', c, t) == Excess(w, c, t) { OpensExcess(w, b, typeId, max, c, t); }
    BooksKept(w, Opens(b, typeId, max), w');
  }

  lemma OpenedRest(w: World, b: nat, typeId: nat, max: nat)
    requires WithinLimits(w) && OnePlace(w) && AllExist(w) && Enabled(w, Opens(b, typeId, max))
    ensures var w' := w.(grounds := w.grounds[b := Roster(typeId, max, 0, 0, map[])]);
            WithinLimits(w') && OnePlace(w') && AllExist(w')
  {
  }

  lemma ClosesKeeps(w: World, b: nat)
    requires Ok(w) && Enabled(w, Closes(b))
    ensures var w' := w.(grounds := w.grounds - {b}); Ok(w') && Booked(w, Closes(b), w')
  {
    hide Inv;
    var w' := w.(grounds := w.grounds - {b});
    ClosedIsUnclaimed(w, b);
    forall c: nat, t: Team ensures Excess(w', c, t) == Excess(w, c, t) { ClosesExcess(w, b, c, t); }
    hide Excess;
    BooksKept(w, Closes(b), w');
    hide LedgerOk;
  }

  // ---------------------------------------------------------------- rated matches

  /** The queue when both teams know each other and stand on their sides, before they are invited. */
  ghost function LinedUp(q: Queue, p: RatedMatches.Pairing, bracket: nat): (q': Queue)
    requires p.ali in q.groups && p.horde in q.groups && p.ali != p.horde
    ensures q'.groups.Keys == q.groups.Keys
  {
    RatedMatches.StartedIs(q, p, bracket, 0, 0);
    RatedMatches.Turned(RatedMatches.Turned(RatedMatches.Introduced(q, p), p.ali, ALLIANCE, bracket), p.horde, HORDE, bracket)
  }

  lemma LinedUpKeeps(q: Queue, p: RatedMatches.Pairing, bracket: nat)
    requires Inv(q) && bracket < BRACKETS && p.ali != p.horde
    requires RatedMatches.InPremade(q, p.ali, bracket) && RatedMatches.InPremade(q, p.horde, bracket)
    requires q.groups[p.ali].invitedTo == 0 && q.groups[p.horde].invitedTo == 0
    ensures var q' := LinedUp(q, p, bracket);
            && Inv(q') && InvitedStay(q, q')
            && q'.groups[p.ali].groupTeam == ALLIANCE && q'.groups[p.horde].groupTeam == HORDE
            && q'.groups[p.ali].invitedTo == 0 && q'.groups[p.horde].invitedTo == 0
            && q'.groups[p.ali].players == q.groups[p.ali].players && q'.groups[p.horde].players == q.groups[p.horde].players
  {
    var x, q' := RatedMatches.Introduced(q, p), LinedUp(q, p, bracket);
    RatedMatches.IntroducedKeeps(q, p, bracket);
    RatedMatches.BothTurned(x, p, bracket);
    LinedUpRecords(q, x, q', p);
  }

  lemma LinedUpRecords(q: Queue, x: Queue, q': Queue, p: RatedMatches.Pairing)
    requires p.ali in q.groups && p.horde in q.groups && p.ali != p.horde
    requires q.groups[p.ali].invitedTo == 0 && q.groups[p.horde].invitedTo == 0
    requires x == q.(groups := q.groups[p.ali := q.groups[p.ali].(opponentsTeamRating := q.groups[p.horde].matchmakingRating)]
                                       [p.horde := q.groups[p.horde].(opponentsTeamRating := q.groups[p.ali].matchmakingRating)])
    requires q'.players == x.players
    requires q'.groups == x.groups[p.ali := x.groups[p.ali].(groupTeam := ALLIANCE)][p.horde := x.groups[p.horde].(groupTeam := HORDE)]
    ensures InvitedStay(q, q')
    ensures q'.groups[p.ali].groupTeam == ALLIANCE && q'.groups[p.horde].groupTeam == HORDE
    ensures q'.groups[p.ali].invitedTo == 0 && q'.groups[p.horde].invitedTo == 0
    ensures q'.groups[p.ali].players == q.groups[p.ali].players && q'.groups[p.horde].players == q.groups[p.horde].players
  {
  }

  /** Starting a rated match is lining up and inviting one team after the other. */
  lemma StartIsInviting(w: World, p: RatedMatches.Pairing, bracket: nat, b: nat, time: nat)
    requires p.ali in w.queue.groups && p.horde in w.queue.groups && p.ali != p.horde && b in w.grounds
    requires var q := LinedUp(w.queue, p, bracket);
             && q.groups[p.ali].groupTeam == ALLIANCE && q.groups[p.horde].groupTeam == HORDE
             && q.groups[p.ali].players == w.queue.groups[p.ali].players && q.groups[p.horde].players == w.queue.groups[p.horde].players
    ensures var w1 := w.(queue := LinedUp(w.queue, p, bracket));
            var w2 := InviteGroup(w1, p.ali, b, time);
            && p.horde in w2.queue.groups && w2.queue.groups[p.horde] == w1.queue.groups[p.horde]
            && StartMatch(w, p, bracket, b, time) == InviteGroup(w2, p.horde, b, time)
  {
    RatedMatches.StartedIs(w.queue, p, bracket, b, time);
  }

  lemma StartsKeeps(w: World, p: RatedMatches.Pairing, bracket: nat, b: nat, time: nat)
    requires Ok(w) && Enabled(w, Starts(p, bracket, b, time))
    ensures var w' := StartMatch(w, p, bracket, b, time); Ok(w') && Booked(w, Starts(p, bracket, b, time), w')
  {
    hide Inv, LedgerOk, WithinLimits, OnePlace, AllExist;
    LinedUpKeeps(w.queue, p, bracket);
    var q1 := LinedUp(w.queue, p, bracket);
    hide LinedUp, InvitedStay;
    MoveKeepsBooks(w, q1);
    StartIsInviting(w, p, bracket, b, time);
    hide Ok, StartMatch, RatedMatches.InPremade;
    InviteTeamsKeeps(w.(queue := q1), p, b, time);
    hide Excess, InviteGroup;
  }

  lemma InviteTeamsKeeps(w: World, p: RatedMatches.Pairing, b: nat, time: nat)
    requires Ok(w) && p.ali in w.queue.groups && p.horde in w.queue.groups && p.ali != p.horde && b in w.grounds
    requires w.queue.groups[p.ali].groupTeam == ALLIANCE && w.queue.groups[p.horde].groupTeam == HORDE
    requires w.queue.groups[p.ali].invitedTo == 0 && w.queue.groups[p.horde].invitedTo == 0
    requires |w.queue.groups[p.ali].players| <= w.grounds[b].FreeSlots(ALLIANCE)
    requires |w.queue.groups[p.horde].players| <= w.grounds[b].FreeSlots(HORDE)
    ensures var w1 := InviteGroup(w, p.ali, b, time);
            && p.horde in w1.queue.groups
            && var w2 := InviteGroup(w1, p.horde, b, time);
            Ok(w2) && forall c: nat, t: Team :: Excess(w2, c, t) == Excess(w, c, t)
  {
    Fitting(w, p, b, time);
    var w1 := InviteGroup(w, p.ali, b, time);
    hide Ok;
    InviteKeepsBooks(w, p.ali, b, time);
    InviteKeepsBooks(w1, p.horde, b, time);
    hide Excess, InviteGroup, Enabled;
    assert Booked(w, Invites(p.ali, b, time), w1);
  }

  /** There is room for both teams, one after the other. */
  lemma Fitting(w: World, p: RatedMatches.Pairing, b: nat, time: nat)
    requires Ok(w) && p.ali in w.queue.groups && p.horde in w.queue.groups && p.ali != p.horde && b in w.grounds
    requires w.queue.groups[p.ali].groupTeam == ALLIANCE && w.queue.groups[p.horde].groupTeam == HORDE
    requires w.queue.groups[p.ali].invitedTo == 0 && w.queue.groups[p.horde].invitedTo == 0
    requires |w.queue.groups[p.ali].players| <= w.grounds[b].FreeSlots(ALLIANCE)
    requires |w.queue.groups[p.horde].players| <= w.grounds[b].FreeSlots(HORDE)
    ensures Enabled(w, Invites(p.ali, b, time)) && Enabled(InviteGroup(w, p.ali, b, time), Invites(p.horde, b, time))
  {
    hide Inv, LedgerOk;
  }

  lemma TakeKeeps(w: World, s: Step)
    requires Ok(w) && Enabled(w, s)
    ensures Ok(Take(w, s)) && Booked(w, s, Take(w, s))
  {
    hide Ok, Excess, AddGroup, LeaveQueue, InviteGroup, MoveToFront, SetTeam, StartMatch, Port, Arrive, LeaveGround, FoundByType, At;
    match s
    case Joins(g, info, slot) => JoinKeeps(w, g, info, slot);
    case Leaves(p) => LeavesKeeps(w, p);
    case Invites(g, b, time) => InviteKeepsBooks(w, g, b, time);
    case Demotes(g, from, to) => DemotesKeeps(w, g, from, to);
    case SwitchesSide(g, side, from, to) => SwitchesSideKeeps(w, g, side, from, to);
    case Starts(p, bracket, b, time) => StartsKeeps(w, p, bracket, b, time);
    case Ports(p) => PortsKeeps(w, p);
    case Arrives(p) => ArrivesKeeps(w, p);
    case LeavesGround(p, b) => LeavesGroundKeeps(w, p, b);
    case Opens(b, typeId, max) => OpensKeeps(w, b, typeId, max);
    case Closes(b) => ClosesKeeps(w, b);
  }

  // ---------------------------------------------------------------- whole runs

  const START := World(EMPTY_QUEUE, map[], map[])

  /** The worlds a run goes through, one step after the other. */
  ghost predicate IsRun(ws: seq<World>, steps: seq<Step>) {
    && |ws| == |steps| + 1 && ws[0] == START
    && forall i :: 0 <= i < |steps| ==> Enabled(ws[i], steps[i]) && ws[i + 1] == Take(ws[i], steps[i])
  }

  /** The step takes one off a counter that is already zero. */
  ghost predicate Underflows(w: World, s: Step)
    requires Enabled(w, s)
  {
    match s
    case Leaves(p) =>
      var g := w.queue.players[p];
      var info := w.queue.groups[g];
      info.invitedTo in w.grounds && FoundByType(w.queue, w.grounds, g) && w.grounds[info.invitedTo].Invited(info.groupTeam) == 0
    case Ports(p) => exists b :: b in w.grounds && p in w.grounds[b].players && w.grounds[b].Invited(w.grounds[b].players[p]) == 0
    case LeavesGround(p, b) => p in w.grounds[b].players && w.grounds[b].Invited(w.grounds[b].players[p]) == 0
    case _ => false
  }

  lemma NothingUnderflows(w: World, s: Step)
    requires Ok(w) && Enabled(w, s)
    ensures !Underflows(w, s)
  {
    hide ListsInv;
    match s
    case Leaves(p) =>
      var b := w.queue.groups[w.queue.players[p]].invitedTo;
      if b in w.grounds { HolderCounted(w, p, b); }
    case Ports(p) => forall b | b in w.grounds && p in w.grounds[b].players { InsiderCounted(w, p, b); }
    case LeavesGround(p, b) => if p in w.grounds[b].players { InsiderCounted(w, p, b); }
    case _ =>
    hide Ok, FoundByType;
  }

  /** How many places of the team have been lost in the first i steps of a run. */
  ghost function Lost(ws: seq<World>, steps: seq<Step>, i: nat, b: nat, t: Team): nat
    requires |ws| == |steps| + 1 && i <= |steps|
  {
    if i == 0 then 0 else Lost(ws, steps, i - 1, b, t) + if Loses(ws[i - 1], steps[i - 1], b, t) then 1 else 0
  }

  /** Over every run, each counter is the number of queued players holding an invitation, players
      on their way and players inside, plus the places lost; so it counts exactly these players if and
      only if no place has been lost. It stays within the team's size and is never lowered at zero;
      and the queue keeps its invariant. */
  lemma EveryRunKeepsTheBooks(ws: seq<World>, steps: seq<Step>, i: nat, b: nat, t: Team)
    requires IsRun(ws, steps) && i < |ws|
    ensures Ok(ws[i])
    ensures b in ws[i].grounds ==> ws[i].grounds[b].Invited(t) == Claims(ws[i], b, t) + Lost(ws, steps, i, b, t)
    ensures b in ws[i].grounds ==> (Counts(ws[i], b, t) <==> Lost(ws, steps, i, b, t) == 0)
    ensures b !in ws[i].grounds ==> Lost(ws, steps, i, b, t) == 0
    ensures i < |steps| ==> !Underflows(ws[i], steps[i])
  {
    RunAddsUp(ws, steps, i, b, t);
    if i < |steps| { NothingUnderflows(ws[i], steps[i]); }
    hide Ok, Take, Enabled, Underflows, Claims, Lost;
  }

  lemma StartOk(b: nat, t: Team)
    ensures Ok(START) && Excess(START, b, t) == 0
  {
    EmptyInv();
  }

  lemma {:induction false} RunAddsUp(ws: seq<World>, steps: seq<Step>, i: nat, b: nat, t: Team)
    requires IsRun(ws, steps) && i < |ws|
    ensures Ok(ws[i]) && Excess(ws[i], b, t) == Lost(ws, steps, i, b, t)
  {
    if i == 0 {
      StartOk(b, t);
    } else {
      hide Ok, Excess, Loses, Take, Enabled;
      RunAddsUp(ws, steps, i - 1, b, t);
      TakeKeeps(ws[i - 1], steps[i - 1]);
    }
  }

  /** An empty battleground whose counters are zero can be deleted: nobody is left who was told to
      come to it. */
  lemma ClosedIsUnclaimed(w: World, b: nat)
    requires Ok(w) && Enabled(w, Closes(b))
    ensures Unclaimed(w, b)
  {
    forall g | g in w.queue.groups ensures w.queue.groups[g].invitedTo != b {
      var info := w.queue.groups[g];
      NobodyCounted(w, b, info.groupTeam);
      var p :| p in info.players;
      assert p in w.queue.players && w.queue.players[p] == g;
      assert p !in Holding(w.queue, b, info.groupTeam);
    }
    forall p | p in w.coming ensures w.coming[p].instance != b {
      NobodyCounted(w, b, w.coming[p].team);
      assert p !in Coming(w.coming, b, w.coming[p].team);
    }
  }

  lemma NobodyCounted(w: World, b: nat, t: Team)
    requires LedgerOk(w) && b in w.grounds && w.grounds[b].Invited(t) == 0
    ensures Holding(w.queue, b, t) == {} && Coming(w.coming, b, t) == {}
  {
    assert Excess(w, b, t) >= 0;
    assert |Holding(w.queue, b, t)| == 0 && |Coming(w.coming, b, t)| == 0;
  }

  // ---------------------------------------------------------------- when the battleground is not found

  /** A player giving up his invitation leaves the counter right exactly when the battleground is
      found by the type his group queued for. */
  lemma LeavingKeepsCountExactly(w: World, p: Guid)
    requires PlayersInv(w.queue) && WithinLimits(w) && p in w.queue.players
    requires var info := w.queue.groups[w.queue.players[p]];
             info.invitedTo in w.grounds && info.invitedTo != 0 && Counts(w, info.invitedTo, info.groupTeam)
    ensures var info := w.queue.groups[w.queue.players[p]];
            Counts(LeaveQueue(w, p), info.invitedTo, info.groupTeam) <==> FoundByType(w.queue, w.grounds, w.queue.players[p])
  {
    var w', info := LeaveQueue(w, p), w.queue.groups[w.queue.players[p]];
    var b, side := info.invitedTo, info.groupTeam;
    HoldingAfterRemove(w.queue, p, b, side);
    Counted(w, p, b, side);
    Decreased(w.grounds[b], side, side);
    hide PlayersInv, WithinLimits, RemovePlayer, Holding, Coming, Inside, Roster.Decrease;
  }

  const ARENA_ANY := 6        // BATTLEGROUND_AA, the type arena groups queue for
  const ARENA_NAGRAND := 4    // BATTLEGROUND_NA, one of the types an arena match has

  /** Groups queued for any arena are invited to matches kept under the arena they are fought in, so the
      counter of an arena stays one too high whenever somebody lets his invitation go. This is a property
      of the queue: nobody calls AddGroup for an arena at present (BattleGroundHandler.cpp:250, 273). */
  lemma ArenaCounterStaysHigh()
    ensures var group := GroupQueueInfo({7}, ALLIANCE, ARENA_ANY, true, 2, 0, 0, 3, 1500, 1500);
            var w := World(Queue(map[7 := 1], map[1 := group], EMPTY_QUEUE.lists[0 := [1]]),
                           map[3 := Roster(ARENA_NAGRAND, 2, 1, 0, map[])], map[]);
            && Counts(w, 3, ALLIANCE) && LeaveQueue(w, 7).queue.players == map[]
            && !Counts(LeaveQueue(w, 7), 3, ALLIANCE)
  {
    var group := GroupQueueInfo({7}, ALLIANCE, ARENA_ANY, true, 2, 0, 0, 3, 1500, 1500);
    var w := World(Queue(map[7 := 1], map[1 := group], EMPTY_QUEUE.lists[0 := [1]]),
                   map[3 := Roster(ARENA_NAGRAND, 2, 1, 0, map[])], map[]);
    assert Holding(w.queue, 3, ALLIANCE) == {7} && Coming(w.coming, 3, ALLIANCE) == {} && Inside(map[], ALLIANCE) == {};
    LeavingKeepsCountExactly(w, 7);
  }
}
