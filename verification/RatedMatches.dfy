/** Rated arena matches: which two teams are matched, and how a team is moved to the other faction's
    list when both are of the same faction (the last part of BattleGroundQueue::Update,
    src/game/BattleGround/BattleGroundQueue.cpp). */
module RatedMatches {
  import opened Options
  import opened QueueModel
  import opened SelectionPools

  /** Ratings that may meet, and the time before which a team has waited long enough to meet any. */
  datatype Search = Search(minRating: nat, maxRating: nat, discardTime: nat, maxPlayers: nat)

  predicate Eligible(st: Store, g: GroupRef, s: Search) {
    && g in st && st[g].invitedTo == 0
    && (s.minRating <= st[g].matchmakingRating <= s.maxRating || st[g].joinTime < s.discardTime)
  }

  /** The first eligible team from position i on. */
  function Next(st: Store, list: seq<GroupRef>, i: nat, s: Search): (k: nat)
    requires i <= |list|
    ensures i <= k <= |list|
    ensures forall n :: i <= n < k ==> !Eligible(st, list[n], s)
    ensures k < |list| ==> Eligible(st, list[k], s)
    decreases |list| - i
  {
    if i == |list| then i else if Eligible(st, list[i], s) then i else Next(st, list, i + 1, s)
  }

  predicate Enters(st: Store, list: seq<GroupRef>, k: nat, s: Search) {
    k < |list| && Size(st, list[k]) > 0 && Size(st, list[k]) <= s.maxPlayers
  }

  datatype Pairing = Pairing(ali: GroupRef, horde: GroupRef)

  /** One team from each list, or, when one list has none to offer, two from the other. */
  function Pair(st: Store, aliList: seq<GroupRef>, hordeList: seq<GroupRef>, s: Search): (p: Option<Pairing>) {
    var i, k := Next(st, aliList, 0, s), Next(st, hordeList, 0, s);
    if Enters(st, aliList, i, s) && Enters(st, hordeList, k, s) then Some(Pairing(aliList[i], hordeList[k]))
    else if Enters(st, hordeList, k, s) then
      var n := Next(st, hordeList, k + 1, s);
      if Enters(st, hordeList, n, s) then Some(Pairing(hordeList[n], hordeList[k])) else None
    else if Enters(st, aliList, i, s) then
      var n := Next(st, aliList, i + 1, s);
      if Enters(st, aliList, n, s) then Some(Pairing(aliList[i], aliList[n])) else None
    else None
  }

  /** Two different eligible teams of a size that may play, never an alliance team on the horde's
      side and a horde team on the alliance's at the same time. */
  lemma PairIsFair(st: Store, aliList: seq<GroupRef>, hordeList: seq<GroupRef>, s: Search)
    requires NoDuplicates(aliList) && NoDuplicates(hordeList) && forall g :: g in aliList ==> g !in hordeList
    ensures match Pair(st, aliList, hordeList, s)
            case None => true
            case Some(p) =>
              && p.ali != p.horde && Eligible(st, p.ali, s) && Eligible(st, p.horde, s)
              && 0 < Size(st, p.ali) <= s.maxPlayers && 0 < Size(st, p.horde) <= s.maxPlayers
              && (p.ali in aliList || p.horde in hordeList) && p.ali in aliList + hordeList && p.horde in aliList + hordeList
  {
    var i, k := Next(st, aliList, 0, s), Next(st, hordeList, 0, s);
    assert (i < |aliList| ==> aliList[i] in aliList) && (k < |hordeList| ==> hordeList[k] in hordeList);
  }

  /** Two teams are found unless fewer than two suit, if a team that suits can always play. */
  lemma PairIsFound(st: Store, aliList: seq<GroupRef>, hordeList: seq<GroupRef>, s: Search, g: GroupRef, h: GroupRef)
    requires NoDuplicates(aliList) && NoDuplicates(hordeList) && forall x :: x in aliList ==> x !in hordeList
    requires forall x :: (x in aliList || x in hordeList) && Eligible(st, x, s) ==> 0 < Size(st, x) <= s.maxPlayers
    requires g != h && g in aliList + hordeList && h in aliList + hordeList && Eligible(st, g, s) && Eligible(st, h, s)
    ensures Pair(st, aliList, hordeList, s).Some?
  {
  }

  /** The first team from position i on that is free and either within the ratings or tired of waiting,
      and it is of a size that can play. */
  ghost predicate Offers(st: Store, list: seq<GroupRef>, i: nat, k: nat, s: Search) {
    && i <= k < |list| && Suits(st, list[k], s) && 0 < Size(st, list[k]) <= s.maxPlayers
    && forall n :: i <= n < k ==> !Suits(st, list[n], s)
  }

  predicate Suits(st: Store, g: GroupRef, s: Search) {
    g in st && var info := st[g];
    && info.invitedTo == 0
    && (info.joinTime < s.discardTime
        || (s.minRating <= info.matchmakingRating && info.matchmakingRating <= s.maxRating))
  }

  /** Who waits longest plays: the first teams of the two lists meet if both lists have one to offer,
      else the first two of the list that has one; the one that comes first stays on its side. */
  lemma PairIsFirst(st: Store, aliList: seq<GroupRef>, hordeList: seq<GroupRef>, s: Search, i: nat, k: nat)
    ensures Offers(st, aliList, 0, i, s) && Offers(st, hordeList, 0, k, s) ==>
              Pair(st, aliList, hordeList, s) == Some(Pairing(aliList[i], hordeList[k]))
    ensures Offers(st, hordeList, 0, i, s) && Offers(st, hordeList, i + 1, k, s) && (forall n: nat :: !Offers(st, aliList, 0, n, s)) ==>
              Pair(st, aliList, hordeList, s) == Some(Pairing(hordeList[k], hordeList[i]))
    ensures Offers(st, aliList, 0, i, s) && Offers(st, aliList, i + 1, k, s) && (forall n: nat :: !Offers(st, hordeList, 0, n, s)) ==>
              Pair(st, aliList, hordeList, s) == Some(Pairing(aliList[i], aliList[k]))
  {
    hide Size, Offers, Suits;
    NextOffers(st, aliList, 0, s);
    NextOffers(st, hordeList, 0, s);
    OneOffer(st, aliList, 0, i, s);
    OneOffer(st, hordeList, 0, k, s);
    OneOffer(st, hordeList, 0, i, s);
    if Offers(st, hordeList, 0, i, s) { OfferInside(st, hordeList, 0, i, s); OneOffer(st, hordeList, i + 1, k, s); }
    if Offers(st, aliList, 0, i, s) { OfferInside(st, aliList, 0, i, s); OneOffer(st, aliList, i + 1, k, s); }
    hide Next, Enters;
  }

  lemma NextOffers(st: Store, list: seq<GroupRef>, i: nat, s: Search)
    requires i <= |list|
    ensures var k := Next(st, list, i, s);
            Enters(st, list, k, s) <==> Offers(st, list, i, k, s)
  {
  }

  lemma OfferInside(st: Store, list: seq<GroupRef>, i: nat, k: nat, s: Search)
    requires Offers(st, list, i, k, s)
    ensures k < |list|
  {
  }

  lemma OneOffer(st: Store, list: seq<GroupRef>, i: nat, k: nat, s: Search)
    requires i <= |list|
    ensures Offers(st, list, i, k, s) ==> Next(st, list, i, s) == k && Enters(st, list, k, s)
  {
  }

  /** And no pair is found in any other way. */
  lemma PairComesFirst(st: Store, aliList: seq<GroupRef>, hordeList: seq<GroupRef>, s: Search) returns (i: nat, k: nat)
    requires Pair(st, aliList, hordeList, s).Some?
    ensures (Offers(st, aliList, 0, i, s) && Offers(st, hordeList, 0, k, s))
            || (Offers(st, hordeList, 0, i, s) && Offers(st, hordeList, i + 1, k, s) && forall n: nat :: !Offers(st, aliList, 0, n, s))
            || (Offers(st, aliList, 0, i, s) && Offers(st, aliList, i + 1, k, s) && forall n: nat :: !Offers(st, hordeList, 0, n, s))
  {
    hide Size, Offers, Suits;
    i, k := Next(st, aliList, 0, s), Next(st, hordeList, 0, s);
    NextOffers(st, aliList, 0, s);
    NextOffers(st, hordeList, 0, s);
    if !Enters(st, aliList, i, s) {
      forall n: nat ensures !Offers(st, aliList, 0, n, s) { OneOffer(st, aliList, 0, n, s); }
      i, k := k, Next(st, hordeList, k + 1, s);
      NextOffers(st, hordeList, i + 1, s);
    } else if !Enters(st, hordeList, k, s) {
      forall n: nat ensures !Offers(st, hordeList, 0, n, s) { OneOffer(st, hordeList, 0, n, s); }
      k := Next(st, aliList, i + 1, s);
      NextOffers(st, aliList, i + 1, s);
    }
    hide Next;
  }

  function Against(q: Queue, g: GroupRef, rating: nat): Queue
    requires g in q.groups
  {
    q.(groups := q.groups[g := q.groups[g].(opponentsTeamRating := rating)])
  }

  /** Each team learns the other's rating. */
  function Introduced(q: Queue, p: Pairing): Queue
    requires p.ali in q.groups && p.horde in q.groups
  {
    Against(Against(q, p.ali, q.groups[p.horde].matchmakingRating), p.horde, q.groups[p.ali].matchmakingRating)
  }

  /** A team that plays for the other faction goes to the front of that faction's list; its record is
      changed by the invitation that follows. */
  function Moved(q: Queue, g: GroupRef, side: Team, bracket: nat): Queue
    requires g in q.groups
  {
    if q.groups[g].groupTeam == side then q
    else MoveToFront(q, g, Slot(bracket, PREMADE_ALLIANCE + TeamIndex(Other(side))), Slot(bracket, PREMADE_ALLIANCE + TeamIndex(side)))
  }

  function Started(q: Queue, p: Pairing, bracket: nat, instance: nat, time: nat): Queue
    requires p.ali in q.groups && p.horde in q.groups
  {
    var q1 := Moved(Moved(Introduced(q, p), p.ali, ALLIANCE, bracket), p.horde, HORDE, bracket);
    Invite(Invite(q1, p.ali, ALLIANCE, instance, time), p.horde, HORDE, instance, time)
  }

  // ---------------------------------------------------------------- what the start of a match keeps

  lemma AgainstKeeps(q: Queue, g: GroupRef, rating: nat)
    requires Inv(q) && g in q.groups
    ensures Inv(Against(q, g, rating))
  {
    var q' := Against(q, g, rating);
    assert forall s: nat, h: GroupRef :: At(q', s, h) <==> At(q, s, h);
    hide At;
    forall h | h in q'.groups ensures Listed(q', h) {
      var s: nat :| At(q, s, h);
      assert At(q', s, h);
    }
  }

  /** Changing the side of a team together with its place in the lists. */
  function Turned(q: Queue, g: GroupRef, side: Team, bracket: nat): Queue
    requires g in q.groups
  {
    if q.groups[g].groupTeam == side then q
    else MoveToFront(SetTeam(q, g, side), g, Slot(bracket, PREMADE_ALLIANCE + TeamIndex(Other(side))),
                     Slot(bracket, PREMADE_ALLIANCE + TeamIndex(side)))
  }

  ghost predicate InPremade(q: Queue, g: GroupRef, bracket: nat) {
    g in q.groups && At(q, Slot(bracket, PREMADE_ALLIANCE + TeamIndex(q.groups[g].groupTeam)), g)
  }

  lemma TurnedKeeps(q: Queue, g: GroupRef, side: Team, bracket: nat)
    requires Inv(q) && bracket < BRACKETS && InPremade(q, g, bracket)
    ensures var q' := Turned(q, g, side, bracket);
            && Inv(q') && q'.groups == q.groups[g := q.groups[g].(groupTeam := side)] && q'.players == q.players
            && forall h :: h != g && InPremade(q, h, bracket) ==> InPremade(q', h, bracket)
  {
    if q.groups[g].groupTeam != side {
      var from, to := Slot(bracket, PREMADE_ALLIANCE + TeamIndex(Other(side))), Slot(bracket, PREMADE_ALLIANCE + TeamIndex(side));
      PremadeSlots(bracket, side);
      hide Slot;
      SwitchSideKeeps(q, g, side, from, to);
      SetTeamAt(q, g, side);
      MoveAtSame(q, SetTeam(q, g, side), g, from, to);
      hide Inv, At, SetTeam, MoveToFront;
    }
  }

  lemma PremadeSlots(bracket: nat, side: Team)
    requires bracket < BRACKETS
    ensures var from, to := Slot(bracket, PREMADE_ALLIANCE + TeamIndex(Other(side))), Slot(bracket, PREMADE_ALLIANCE + TeamIndex(side));
            from < LISTS && to < LISTS && from != to && to % 2 == TeamIndex(side)
  {
  }

  /** MoveAt for a queue whose lists are those of a queue in order. */
  lemma MoveAtSame(q: Queue, q1: Queue, g: GroupRef, from: nat, to: nat)
    requires ListsInv(q) && from < LISTS && to < LISTS && from != to && At(q, from, g) && q1.lists == q.lists
    ensures var q' := MoveToFront(q1, g, from, to);
            && q'.players == q1.players && q'.groups == q1.groups
            && (forall s: nat, h: GroupRef :: At(q', s, h) <==> if h == g then s == to else At(q, s, h))
  {
    MoveAt(q, g, from, to);
    assert MoveToFront(q1, g, from, to).lists == MoveToFront(q, g, from, to).lists;
  }

  lemma TurnedIs(q: Queue, g: GroupRef, side: Team, bracket: nat)
    requires g in q.groups
    ensures g in Moved(q, g, side, bracket).groups && Turned(q, g, side, bracket) == SetTeam(Moved(q, g, side, bracket), g, side)
  {
  }

  lemma MovedAfterSetTeam(q: Queue, g: GroupRef, t: Team, h: GroupRef, side: Team, bracket: nat)
    requires g in q.groups && h in q.groups && g != h
    ensures g in Moved(q, h, side, bracket).groups
    ensures Moved(SetTeam(q, g, t), h, side, bracket) == SetTeam(Moved(q, h, side, bracket), g, t)
  {
  }

  lemma InvitesFixTeams(q: Queue, g: GroupRef, h: GroupRef, instance: nat, time: nat)
    requires g in q.groups && h in q.groups && g != h
    ensures Invite(Invite(SetTeam(SetTeam(q, g, ALLIANCE), h, HORDE), g, ALLIANCE, instance, time), h, HORDE, instance, time)
            == Invite(Invite(q, g, ALLIANCE, instance, time), h, HORDE, instance, time)
  {
    var a := SetTeam(q, g, ALLIANCE);
    InviteFixesTeam(q, g, ALLIANCE, instance, time);
    InviteBeside(a, h, HORDE, g, ALLIANCE, instance, time);
    InviteBeside(q, h, HORDE, g, ALLIANCE, instance, time);
    InviteFixesTeam(Invite(q, g, ALLIANCE, instance, time), h, HORDE, instance, time);
  }

  lemma InviteFixesTeam(q: Queue, g: GroupRef, side: Team, instance: nat, time: nat)
    requires g in q.groups
    ensures SetTeam(q, g, side).groups.Keys == q.groups.Keys
    ensures Invite(SetTeam(q, g, side), g, side, instance, time) == Invite(q, g, side, instance, time)
  {
  }

  lemma InviteBeside(q: Queue, h: GroupRef, turned: Team, g: GroupRef, side: Team, instance: nat, time: nat)
    requires g in q.groups && h in q.groups && g != h
    ensures SetTeam(q, h, turned).groups.Keys == q.groups.Keys == Invite(q, g, side, instance, time).groups.Keys
    ensures Invite(SetTeam(q, h, turned), g, side, instance, time) == SetTeam(Invite(q, g, side, instance, time), h, turned)
  {
  }

  /** Moving first and letting the invitation change the record comes to the same as changing the
      side properly and then inviting. */
  lemma StartedIs(q: Queue, p: Pairing, bracket: nat, instance: nat, time: nat)
    requires p.ali in q.groups && p.horde in q.groups && p.ali != p.horde
    ensures Turned(Introduced(q, p), p.ali, ALLIANCE, bracket).groups.Keys == q.groups.Keys
    ensures Turned(Turned(Introduced(q, p), p.ali, ALLIANCE, bracket), p.horde, HORDE, bracket).groups.Keys == q.groups.Keys
    ensures Started(q, p, bracket, instance, time)
            == Invite(Invite(Turned(Turned(Introduced(q, p), p.ali, ALLIANCE, bracket), p.horde, HORDE, bracket),
                             p.ali, ALLIANCE, instance, time), p.horde, HORDE, instance, time)
  {
    var x := Introduced(q, p);
    var m := Moved(x, p.ali, ALLIANCE, bracket);
    TurnedIs(x, p.ali, ALLIANCE, bracket);
    TurnedIs(SetTeam(m, p.ali, ALLIANCE), p.horde, HORDE, bracket);
    MovedAfterSetTeam(m, p.ali, ALLIANCE, p.horde, HORDE, bracket);
    InvitesFixTeams(Moved(m, p.horde, HORDE, bracket), p.ali, p.horde, instance, time);
    hide Turned, MoveToFront, Invite;
    assert Turned(x, p.ali, ALLIANCE, bracket).groups.Keys == q.groups.Keys;
  }

  /** The queue stays in order; both teams are invited to the match, one on each side, and nobody
      else is. */
  lemma StartedKeeps(q: Queue, p: Pairing, bracket: nat, instance: nat, time: nat)
    requires Inv(q) && bracket < BRACKETS && p.ali != p.horde
    requires InPremade(q, p.ali, bracket) && InPremade(q, p.horde, bracket)
    requires q.groups[p.ali].invitedTo == 0 && q.groups[p.horde].invitedTo == 0
    ensures var q' := Started(q, p, bracket, instance, time); Inv(q') && Playing(q, q', p, instance)
  {
    assert p.ali in q.groups && p.horde in q.groups;
    hide Inv, InPremade, Started, Introduced, Turned, Invite, Playing;
    var x := Introduced(q, p);
    IntroducedKeeps(q, p, bracket);
    StartedIs(q, p, bracket, instance, time);
    BothTurned(x, p, bracket);
    var x2 := Turned(Turned(x, p.ali, ALLIANCE, bracket), p.horde, HORDE, bracket);
    BothInvited(x2, p, instance, time);
    ThenPlaying(q, x, x2, Invite(Invite(x2, p.ali, ALLIANCE, instance, time), p.horde, HORDE, instance, time), p, instance, time);
  }

  lemma ThenPlaying(q: Queue, x: Queue, x2: Queue, x': Queue, p: Pairing, instance: nat, time: nat)
    requires p.ali in q.groups && p.horde in q.groups && p.ali != p.horde
    requires x == q.(groups := q.groups[p.ali := q.groups[p.ali].(opponentsTeamRating := q.groups[p.horde].matchmakingRating)]
                                       [p.horde := q.groups[p.horde].(opponentsTeamRating := q.groups[p.ali].matchmakingRating)])
    requires x2.players == x.players
    requires x2.groups == x.groups[p.ali := x.groups[p.ali].(groupTeam := ALLIANCE)][p.horde := x.groups[p.horde].(groupTeam := HORDE)]
    requires x'.players == x2.players
    requires x'.groups == x2.groups[p.ali := x2.groups[p.ali].(invitedTo := instance, removeInviteTime := time)]
                                   [p.horde := x2.groups[p.horde].(invitedTo := instance, removeInviteTime := time)]
    ensures Playing(q, x', p, instance)
  {
  }

  /** The two teams are invited, the alliance's on its side and the horde's on its; each knows the
      other's rating; the rest is as before. */
  ghost predicate Playing(q: Queue, q': Queue, p: Pairing, instance: nat)
    requires p.ali in q.groups && p.horde in q.groups
  {
    && q'.players == q.players && q'.groups.Keys == q.groups.Keys
    && q'.groups[p.ali].groupTeam == ALLIANCE && q'.groups[p.ali].invitedTo == instance
    && q'.groups[p.horde].groupTeam == HORDE && q'.groups[p.horde].invitedTo == instance
    && q'.groups[p.ali].players == q.groups[p.ali].players && q'.groups[p.horde].players == q.groups[p.horde].players
    && q'.groups[p.ali].opponentsTeamRating == q.groups[p.horde].matchmakingRating
    && q'.groups[p.horde].opponentsTeamRating == q.groups[p.ali].matchmakingRating
    && forall g :: g in q.groups && g != p.ali && g != p.horde ==> q'.groups[g] == q.groups[g]
  }

  lemma BothTurned(x: Queue, p: Pairing, bracket: nat)
    requires Inv(x) && bracket < BRACKETS && p.ali != p.horde && InPremade(x, p.ali, bracket) && InPremade(x, p.horde, bracket)
    ensures Turned(x, p.ali, ALLIANCE, bracket).groups.Keys == x.groups.Keys
    ensures var x2 := Turned(Turned(x, p.ali, ALLIANCE, bracket), p.horde, HORDE, bracket);
            && Inv(x2) && x2.players == x.players
            && x2.groups == x.groups[p.ali := x.groups[p.ali].(groupTeam := ALLIANCE)][p.horde := x.groups[p.horde].(groupTeam := HORDE)]
  {
    hide Inv;
    TurnedKeeps(x, p.ali, ALLIANCE, bracket);
    assert p.ali in x.groups && p.horde in x.groups;
    hide InPremade;
    TurnedKeeps(Turned(x, p.ali, ALLIANCE, bracket), p.horde, HORDE, bracket);
    hide Turned;
  }

  lemma BothInvited(x: Queue, p: Pairing, instance: nat, time: nat)
    requires Inv(x) && p.ali in x.groups && p.horde in x.groups && p.ali != p.horde
    requires x.groups[p.ali].groupTeam == ALLIANCE && x.groups[p.ali].invitedTo == 0
    requires x.groups[p.horde].groupTeam == HORDE && x.groups[p.horde].invitedTo == 0
    ensures var x' := Invite(Invite(x, p.ali, ALLIANCE, instance, time), p.horde, HORDE, instance, time);
            && Inv(x') && x'.players == x.players
            && x'.groups == x.groups[p.ali := x.groups[p.ali].(invitedTo := instance, removeInviteTime := time)]
                                    [p.horde := x.groups[p.horde].(invitedTo := instance, removeInviteTime := time)]
  {
    hide Inv;
    InviteKeeps(x, p.ali, ALLIANCE, instance, time);
    InviteKeeps(Invite(x, p.ali, ALLIANCE, instance, time), p.horde, HORDE, instance, time);
  }

  lemma IntroducedKeeps(q: Queue, p: Pairing, bracket: nat)
    requires Inv(q) && InPremade(q, p.ali, bracket) && InPremade(q, p.horde, bracket) && p.ali != p.horde
    ensures var x := Introduced(q, p);
            && Inv(x) && InPremade(x, p.ali, bracket) && InPremade(x, p.horde, bracket)
            && x == q.(groups := q.groups[p.ali := q.groups[p.ali].(opponentsTeamRating := q.groups[p.horde].matchmakingRating)]
                                         [p.horde := q.groups[p.horde].(opponentsTeamRating := q.groups[p.ali].matchmakingRating)])
  {
    AgainstKeeps(q, p.ali, q.groups[p.horde].matchmakingRating);
    AgainstKeeps(Against(q, p.ali, q.groups[p.horde].matchmakingRating), p.horde, q.groups[p.ali].matchmakingRating);
    hide Inv;
  }
}
