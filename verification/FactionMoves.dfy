/** Moving groups between the lists of a bracket: the demotion of a premade group and the move of
    half a skirmish to the other faction (CheckPremadeMatch and CheckSkirmishForSameFaction of
    src/game/BattleGround/BattleGroundQueue.cpp). */
module FactionMoves {
  import opened QueueModel
  import opened SelectionPools
  import opened Matching
  import opened FirstCome

  function Reversed(s: seq<GroupRef>): seq<GroupRef> {
    if s == [] then [] else Reversed(s[1..]) + [s[0]]
  }

  // ---------------------------------------------------------------- one group after the other

  /** Each group of `gs` gets the team `side` and goes from one list to the front of the other. */
  function Switch(q: Queue, gs: seq<GroupRef>, side: Team, from: nat, to: nat): Queue
    requires forall g :: g in gs ==> g in q.groups
    decreases |gs|
  {
    if gs == [] then q
    else Switch(MoveToFront(SetTeam(q, gs[0], side), gs[0], from, to), gs[1..], side, from, to)
  }

  lemma {:induction false} WithoutAt(s: seq<GroupRef>, k: nat)
    requires k < |s| && s[k] !in s[..k]
    ensures Without(s, s[k]) == s[..k] + s[k + 1..]
  {
    if k > 0 {
      var t := s[1..];
      assert s[..k] == [s[0]] + t[..k - 1];
      assert s[0] in s[..k];
      WithoutAt(t, k - 1);
      assert t[k..] == s[k + 1..];
    }
  }

  /** Where one group ends up, and that the two lists together neither gain nor lose a group. */
  lemma SwitchOne(q: Queue, g: GroupRef, side: Team, from: nat, to: nat)
    requires ListsInv(q) && from < LISTS && to < LISTS && from != to && At(q, from, g) && g in q.groups
    ensures var q' := MoveToFront(SetTeam(q, g, side), g, from, to);
            && q'.players == q.players && q'.groups == q.groups[g := q.groups[g].(groupTeam := side)]
            && q'.lists.Keys == q.lists.Keys
            && q'.lists[to] == [g] + q.lists[to]
            && q'.lists[from] == Without(q.lists[from], g)
            && multiset(q'.lists[from]) + multiset(q'.lists[to]) == multiset(q.lists[from]) + multiset(q.lists[to])
            && forall s :: s in q.lists && s != from && s != to ==> q'.lists[s] == q.lists[s]
  {
    hide Without;
    WithoutMultiset(q.lists[from], g);
  }

  /** Everything is kept: the invariant, the players and the groups; the groups moved have changed
      sides and stand in front of the other list, last one first; the two lists together are what
      they were. */
  lemma {:induction false} SwitchKeeps(q: Queue, gs: seq<GroupRef>, side: Team, from: nat, to: nat)
    requires Inv(q) && from < LISTS && to < LISTS && from != to && to % 2 == TeamIndex(side)
    requires NoDuplicates(gs) && forall g :: g in gs ==> At(q, from, g) && g in q.groups
    ensures var q' := Switch(q, gs, side, from, to);
            && Inv(q') && SwitchedTeams(q, q', gs, side) && SwitchedLists(q, q', gs, from, to)
    decreases |gs|
  {
    if gs != [] {
      var g := gs[0];
      var q1 := MoveToFront(SetTeam(q, g, side), g, from, to);
      SwitchFirst(q, gs, side, from, to);
      SwitchOne(q, g, side, from, to);
      assert Switch(q, gs, side, from, to) == Switch(q1, gs[1..], side, from, to);
      hide *;
      SwitchKeeps(q1, gs[1..], side, from, to);
      SwitchedStep(q, q1, Switch(q, gs, side, from, to), gs, side, from, to);
    } else {
      assert Reversed(gs) + q.lists[to] == q.lists[to];
    }
  }

  lemma SwitchFirst(q: Queue, gs: seq<GroupRef>, side: Team, from: nat, to: nat)
    requires Inv(q) && from < LISTS && to < LISTS && from != to && to % 2 == TeamIndex(side)
    requires gs != [] && NoDuplicates(gs) && forall g :: g in gs ==> At(q, from, g) && g in q.groups
    ensures ListsInv(q) && At(q, from, gs[0]) && gs[0] in q.groups && from in q.lists && to in q.lists
    ensures var q1 := MoveToFront(SetTeam(q, gs[0], side), gs[0], from, to);
            && Inv(q1) && NoDuplicates(gs[1..]) && forall h :: h in gs[1..] ==> At(q1, from, h) && h in q1.groups
  {
    var g := gs[0];
    var q1 := MoveToFront(SetTeam(q, g, side), g, from, to);
    ListsThere(q, from, to);
    hide Inv, ListsInv, NoRepeats, MoveToFront, SetTeam;
    assert At(q, from, g) && g in q.groups;
    hide At;
    SwitchSideKeeps(q, g, side, from, to);
    SwitchedFrom(q, g, side, from, to);
    SwitchRest(q, q1, gs, side, from);
    hide NoDuplicates;
  }

  lemma SwitchedFrom(q: Queue, g: GroupRef, side: Team, from: nat, to: nat)
    requires g in q.groups && from in q.lists && to in q.lists && from != to
    ensures var q' := MoveToFront(SetTeam(q, g, side), g, from, to);
            q'.groups.Keys == q.groups.Keys && from in q'.lists && q'.lists[from] == Without(q.lists[from], g)
  {
  }

  lemma ListsThere(q: Queue, from: nat, to: nat)
    requires Inv(q) && from < LISTS && to < LISTS
    ensures ListsInv(q) && NoRepeats(q) && from in q.lists && to in q.lists
  {
  }

  lemma SwitchRest(q: Queue, q1: Queue, gs: seq<GroupRef>, side: Team, from: nat)
    requires NoRepeats(q) && from in q.lists && from in q1.lists
    requires NoDuplicates(gs) && gs != [] && forall g :: g in gs ==> At(q, from, g) && g in q.groups
    requires q1.groups.Keys == q.groups.Keys && q1.lists[from] == Without(q.lists[from], gs[0])
    ensures NoDuplicates(gs[1..]) && forall h :: h in gs[1..] ==> At(q1, from, h) && h in q1.groups
  {
    WithoutMembers(q.lists[from], gs[0]);
    forall h | h in gs[1..] ensures h in gs && h != gs[0] {
      var i :| 0 <= i < |gs[1..]| && gs[1..][i] == h;
      assert gs[i + 1] == h;
    }
  }

  ghost predicate SwitchedTeams(q: Queue, q': Queue, gs: seq<GroupRef>, side: Team) {
    && q'.players == q.players && q'.groups.Keys == q.groups.Keys
    && forall g :: g in q.groups ==> q'.groups[g] == if g in gs then q.groups[g].(groupTeam := side) else q.groups[g]
  }

  ghost predicate SwitchedLists(q: Queue, q': Queue, gs: seq<GroupRef>, from: nat, to: nat) {
    && q'.lists.Keys == q.lists.Keys && from in q.lists && to in q.lists
    && q'.lists[to] == Reversed(gs) + q.lists[to]
    && multiset(q'.lists[from]) + multiset(q'.lists[to]) == multiset(q.lists[from]) + multiset(q.lists[to])
    && forall s :: s in q.lists && s != from && s != to ==> q'.lists[s] == q.lists[s]
  }

  lemma SwitchedStep(q: Queue, q1: Queue, q': Queue, gs: seq<GroupRef>, side: Team, from: nat, to: nat)
    requires gs != [] && gs[0] in q.groups && from in q.lists && to in q.lists
    requires q1.players == q.players && q1.groups == q.groups[gs[0] := q.groups[gs[0]].(groupTeam := side)]
    requires q1.lists.Keys == q.lists.Keys && q1.lists[to] == [gs[0]] + q.lists[to]
    requires multiset(q1.lists[from]) + multiset(q1.lists[to]) == multiset(q.lists[from]) + multiset(q.lists[to])
    requires forall s :: s in q.lists && s != from && s != to ==> q1.lists[s] == q.lists[s]
    requires SwitchedTeams(q1, q', gs[1..], side) && SwitchedLists(q1, q', gs[1..], from, to)
    ensures SwitchedTeams(q, q', gs, side) && SwitchedLists(q, q', gs, from, to)
  {
    SwitchedTeamsStep(q, q1, q', gs, side);
    SwitchedListsStep(q, q1, q', gs, from, to);
    hide *;
  }

  lemma SwitchedTeamsStep(q: Queue, q1: Queue, q': Queue, gs: seq<GroupRef>, side: Team)
    requires gs != [] && gs[0] in q.groups
    requires q1.players == q.players && q1.groups == q.groups[gs[0] := q.groups[gs[0]].(groupTeam := side)]
    requires SwitchedTeams(q1, q', gs[1..], side)
    ensures SwitchedTeams(q, q', gs, side)
  {
    assert gs == [gs[0]] + gs[1..];
    assert forall g :: g in gs <==> g == gs[0] || g in gs[1..];
  }

  lemma SwitchedListsStep(q: Queue, q1: Queue, q': Queue, gs: seq<GroupRef>, from: nat, to: nat)
    requires gs != [] && from in q.lists && to in q.lists
    requires q1.lists.Keys == q.lists.Keys && q1.lists[to] == [gs[0]] + q.lists[to]
    requires multiset(q1.lists[from]) + multiset(q1.lists[to]) == multiset(q.lists[from]) + multiset(q.lists[to])
    requires forall s :: s in q.lists && s != from && s != to ==> q1.lists[s] == q.lists[s]
    requires SwitchedLists(q1, q', gs[1..], from, to)
    ensures SwitchedLists(q, q', gs, from, to)
  {
    assert gs == [gs[0]] + gs[1..];
    assert Reversed(gs) + q.lists[to] == Reversed(gs[1..]) + ([gs[0]] + q.lists[to]);
  }

  // ---------------------------------------------------------------- what Extend takes when it starts elsewhere

  /** Selected groups are free, each once, and none of those still to come. */
  ghost predicate FreshAt(st: Store, list: seq<GroupRef>, i: nat, selected: seq<GroupRef>) {
    i <= |list| && NoDuplicates(selected) && forall g :: g in selected ==> g !in list[i..] && !Invited(st, g)
  }

  lemma FreshNext(st: Store, list: seq<GroupRef>, i: nat, selected: seq<GroupRef>)
    requires FreshAt(st, list, i, selected) && i < |list| && NoDuplicates(list)
    ensures FreshAt(st, list, i + 1, selected)
    ensures !Invited(st, list[i]) ==> FreshAt(st, list, i + 1, selected + [list[i]])
  {
    assert list[i..] == [list[i]] + list[i + 1..];
    assert list[i] !in list[i + 1..];
    assert list[i] !in selected;
    assert forall g :: g in selected ==> g !in list[i + 1..];
    assert NoDuplicates(selected + [list[i]]);
  }

  lemma {:induction false} ExtendFree(st: Store, list: seq<GroupRef>, i: nat, selected: seq<GroupRef>, desired: nat)
    requires FreshAt(st, list, i, selected) && NoDuplicates(list)
    ensures var s := Extend(st, list, i, selected, desired);
            && NoDuplicates(s) && (forall g :: g in s ==> !Invited(st, g))
            && (Total(st, s) <= desired || s == selected)
    decreases |list| - i
  {
    if i < |list| {
      assert NoDuplicates(selected) && forall g :: g in selected ==> !Invited(st, g);
      FreshNext(st, list, i, selected);
      TotalNext(st, selected, list[i]);
      if Invited(st, list[i]) {
        ExtendFree(st, list, i + 1, selected, desired);
      } else if desired >= Total(st, selected) + Size(st, list[i]) {
        ExtendFree(st, list, i + 1, selected + [list[i]], desired);
      } else if Total(st, selected) < desired {
        ExtendFree(st, list, i + 1, selected, desired);
      }
    }
  }

  lemma ExtendFresh(st: Store, list: seq<GroupRef>, i: nat, selected: seq<GroupRef>, desired: nat)
    requires i <= |list| && NoDuplicates(list) && NoDuplicates(selected)
    requires forall g :: g in selected ==> g !in list[i..] && !Invited(st, g)
    ensures var s := Extend(st, list, i, selected, desired);
            && NoDuplicates(s) && (forall g :: g in s ==> (g in selected || g in list[i..]) && !Invited(st, g))
            && (Total(st, s) <= desired || s == selected)
  {
    assert FreshAt(st, list, i, selected);
    ExtendFree(st, list, i, selected, desired);
    ExtendSources(st, list, i, selected, desired);
  }

  // ---------------------------------------------------------------- same-faction skirmish

  /** The faction that plays against itself, once it is known that one of them has enough players. */
  function SkirmishTeam(st: Store, m: Match, minPlayers: nat): Team {
    if Total(st, m.horde) == minPlayers then HORDE else ALLIANCE
  }

  function Chosen(m: Match, t: Team): seq<GroupRef> {
    if t == ALLIANCE then m.ali else m.horde
  }

  function IndexIn(list: seq<GroupRef>, g: GroupRef): (i: nat)
    ensures i <= |list| && g !in list[..i]
    ensures i < |list| ==> list[i] == g
    ensures g in list ==> i < |list|
  {
    if list == [] then 0
    else if list[0] == g then 0
    else
      var i := IndexIn(list[1..], g);
      assert list[..1 + i] == [list[0]] + list[1..][..i];
      1 + i
  }

  /** The opponents: more groups of the same list, after the last group selected. */
  function Opponents(st: Store, list: seq<GroupRef>, selected: seq<GroupRef>, minPlayers: nat): seq<GroupRef>
    requires selected != []
  {
    var i := IndexIn(list, selected[|selected| - 1]);
    if i < |list| then Extend(st, list, i + 1, [], minPlayers) else []
  }

  /** What the normal match has selected for the team, the last group of it being the one that
      filled the pool, has no group in common with the opponents. */
  lemma OpponentsAreOthers(st: Store, list: seq<GroupRef>, minPlayers: nat, maxPlayers: nat)
    requires Ready(st, list) && minPlayers > 0
    requires Total(st, Gather(st, list, 0, [], minPlayers, maxPlayers).0) >= minPlayers
    ensures var s := Gather(st, list, 0, [], minPlayers, maxPlayers).0;
            s != [] &&
            var o := Opponents(st, list, s, minPlayers);
            && NoDuplicates(o) && Total(st, o) <= minPlayers
            && (forall g :: g in o ==> g in list && !Invited(st, g) && g !in s)
            && forall g :: g in s ==> g in list && !Invited(st, g)
  {
    FilledBy(st, list, minPlayers, maxPlayers);
    var (s, n) := Gather(st, list, 0, [], minPlayers, maxPlayers);
    var o := Opponents(st, list, s, minPlayers);
    assert o == Extend(st, list, n + 1, [], minPlayers) by { hide Extend; hide Picked; hide Gather; hide IndexIn; }
    hide *;
    OpponentsPicked(st, list, n + 1, minPlayers);
    PickedApart(st, list, n + 1, s, o);
  }

  /** Groups selected from the part of a list that begins at position i. */
  ghost predicate PickedLater(st: Store, list: seq<GroupRef>, i: nat, o: seq<GroupRef>) {
    i <= |list| && NoDuplicates(o) && forall g :: g in o ==> g in list[i..] && !Invited(st, g)
  }

  lemma OpponentsPicked(st: Store, list: seq<GroupRef>, i: nat, minPlayers: nat)
    requires Ready(st, list) && i <= |list|
    ensures var o := Extend(st, list, i, [], minPlayers); PickedLater(st, list, i, o) && Total(st, o) <= minPlayers
  {
    assert Total(st, []) == 0;
    ExtendFresh(st, list, i, [], minPlayers);
  }

  /** What is selected in front of position i and from there on has nothing in common. */
  lemma PickedApart(st: Store, list: seq<GroupRef>, i: nat, s: seq<GroupRef>, o: seq<GroupRef>)
    requires Ready(st, list) && Picked(st, list, i, s) && PickedLater(st, list, i, o)
    ensures NoDuplicates(o)
    ensures forall g :: g in o ==> g in list && !Invited(st, g) && g !in s
    ensures forall g :: g in s ==> g in list && !Invited(st, g)
  {
    LaterIsOther(list, i);
  }

  /** The last group selected is the one the walk through the list stopped at. */
  lemma FilledBy(st: Store, list: seq<GroupRef>, minPlayers: nat, maxPlayers: nat)
    requires Ready(st, list) && minPlayers > 0
    requires Total(st, Gather(st, list, 0, [], minPlayers, maxPlayers).0) >= minPlayers
    ensures var (s, n) := Gather(st, list, 0, [], minPlayers, maxPlayers);
            s != [] && n < |list| && IndexIn(list, s[|s| - 1]) == n && Picked(st, list, n + 1, s)
  {
    assert Total(st, []) == 0 && Picked(st, list, 0, []);
    GatherKeeps(st, list, 0, [], minPlayers, maxPlayers);
    var (s, n) := Gather(st, list, 0, [], minPlayers, maxPlayers);
    var i := IndexIn(list, list[n]);
  }

  lemma LaterIsOther(list: seq<GroupRef>, n: nat)
    requires NoDuplicates(list) && n <= |list|
    ensures forall g :: g in list[n..] ==> g in list && g !in list[..n]
    ensures forall g :: g in list[..n] ==> g in list
  {
  }

  // ---------------------------------------------------------------- premade matches

  function FirstFree(st: Store, list: seq<GroupRef>): (i: nat)
    ensures i <= |list|
    ensures forall k :: 0 <= k < i ==> Invited(st, list[k])
    ensures i < |list| ==> !Invited(st, list[i])
  {
    if list == [] then 0 else if !Invited(st, list[0]) then 0 else 1 + FirstFree(st, list[1..])
  }

  function OnlyIfFits(st: Store, g: GroupRef, maxPlayers: nat): seq<GroupRef> {
    if maxPlayers >= Size(st, g) then [g] else []
  }

  lemma OnlyIfFitsFits(st: Store, g: GroupRef, maxPlayers: nat)
    ensures var s := OnlyIfFits(st, g, maxPlayers);
            Total(st, s) <= maxPlayers && NoDuplicates(s) && forall h :: h in s ==> h == g
  {
    assert Total(st, []) == 0;
    TotalNext(st, [], g);
    assert [] + [g] == [g];
  }

  /** The first free premade group of each faction, and normal groups to bring both up to the larger
      of the two. */
  function PremadeMatch(st: Store, premade: seq<seq<GroupRef>>, normal: seq<seq<GroupRef>>, maxPlayers: nat): (m: Match)
    requires |premade| == 2 && |normal| == 2
    requires FirstFree(st, premade[0]) < |premade[0]| && FirstFree(st, premade[1]) < |premade[1]|
  {
    var ali := OnlyIfFits(st, premade[0][FirstFree(st, premade[0])], maxPlayers);
    var horde := OnlyIfFits(st, premade[1][FirstFree(st, premade[1])], maxPlayers);
    var target := if Total(st, ali) < Total(st, horde) then Total(st, horde) else Total(st, ali);
    Match(Extend(st, normal[0], 0, ali, target), Extend(st, normal[1], 0, horde, target))
  }

  /** Nobody twice, nobody already invited, nobody from the wrong lists, and no side over the limit. */
  lemma PremadeMatchFits(st: Store, premade: seq<seq<GroupRef>>, normal: seq<seq<GroupRef>>, maxPlayers: nat, side: nat)
    requires |premade| == 2 && |normal| == 2 && side < 2
    requires FirstFree(st, premade[0]) < |premade[0]| && FirstFree(st, premade[1]) < |premade[1]|
    requires Ready(st, normal[side]) && (forall g :: g in premade[side] ==> g !in normal[side])
    ensures var m := PremadeMatch(st, premade, normal, maxPlayers);
            var s := if side == 0 then m.ali else m.horde;
            && NoDuplicates(s) && Total(st, s) <= maxPlayers
            && forall g :: g in s ==> (g in premade[side] || g in normal[side]) && !Invited(st, g)
  {
    var g, h := premade[0][FirstFree(st, premade[0])], premade[1][FirstFree(st, premade[1])];
    OnlyIfFitsFits(st, g, maxPlayers);
    OnlyIfFitsFits(st, h, maxPlayers);
    assert g in premade[0] && h in premade[1];
    var first := if side == 0 then OnlyIfFits(st, g, maxPlayers) else OnlyIfFits(st, h, maxPlayers);
    var a, b := Total(st, OnlyIfFits(st, g, maxPlayers)), Total(st, OnlyIfFits(st, h, maxPlayers));
    hide OnlyIfFits, FirstFree, Extend, Total, NoDuplicates;
    ExtendFresh(st, normal[side], 0, first, if a < b then b else a);
    hide Size;
  }

  /** The first group of a list that is free. */
  ghost predicate IsFirstFree(st: Store, list: seq<GroupRef>, i: nat) {
    i < |list| && !Invited(st, list[i]) && forall k :: 0 <= k < i ==> Invited(st, list[k])
  }

  /** What makes up a premade match: each side's first free premade group, if it is not too large, and then
      those normal groups, in their order, that have room under the larger of the two groups' sizes. */
  ghost predicate IsPremadeMatch(st: Store, premade: seq<seq<GroupRef>>, normal: seq<seq<GroupRef>>, maxPlayers: nat, m: Match)
    requires |premade| == 2 && |normal| == 2
  {
    exists i: nat, k: nat :: IsFirstFree(st, premade[0], i) && IsFirstFree(st, premade[1], k)
      && var g, h := premade[0][i], premade[1][k];
         var a, b := if Size(st, g) <= maxPlayers then [g] else [], if Size(st, h) <= maxPlayers then [h] else [];
         var limit := if Total(st, a) < Total(st, b) then Total(st, b) else Total(st, a);
         FirstFit(st, normal[0], 0, a, m.ali, limit) && FirstFit(st, normal[1], 0, b, m.horde, limit)
  }

  lemma PremadeMatchIs(st: Store, premade: seq<seq<GroupRef>>, normal: seq<seq<GroupRef>>, maxPlayers: nat)
    requires |premade| == 2 && |normal| == 2
    requires FirstFree(st, premade[0]) < |premade[0]| && FirstFree(st, premade[1]) < |premade[1]|
    requires Ready(st, normal[0]) && Ready(st, normal[1])
    requires (forall g :: g in premade[0] ==> g !in normal[0]) && (forall g :: g in premade[1] ==> g !in normal[1])
    ensures IsPremadeMatch(st, premade, normal, maxPlayers, PremadeMatch(st, premade, normal, maxPlayers))
  {
    hide Extend, FirstFit, Total, Size, CanBeOffered, ComesFrom, Ready;
    var i, k := FirstFree(st, premade[0]), FirstFree(st, premade[1]);
    var ali, horde := OnlyIfFits(st, premade[0][i], maxPlayers), OnlyIfFits(st, premade[1][k], maxPlayers);
    var target := if Total(st, ali) < Total(st, horde) then Total(st, horde) else Total(st, ali);
    assert premade[0][i] in premade[0] && premade[1][k] in premade[1];
    BesidesPremade(st, normal[0], ali);
    BesidesPremade(st, normal[1], horde);
    ExtendServes(st, normal[0], 0, ali, target);
    ExtendServes(st, normal[1], 0, horde, target);
    assert IsFirstFree(st, premade[0], i) && IsFirstFree(st, premade[1], k);
  }

  lemma BesidesPremade(st: Store, list: seq<GroupRef>, base: seq<GroupRef>)
    requires Ready(st, list) && forall g :: g in base ==> g !in list
    ensures CanBeOffered(st, list, 0, base)
  {
  }

  /** The clock value before which a premade group has waited long enough; the clock is a 32-bit
      number of milliseconds since the server was started. */
  function TimeBefore(now: nat, wait: nat): nat
    requires now < WORD && wait < WORD
  {
    (now + WORD - wait) % WORD
  }

  /** How long ago `joined` was, on the 32-bit clock. */
  function Waited(joined: nat, now: nat): nat
    requires joined < WORD && now < WORD
  {
    (now + WORD - joined) % WORD
  }

  /** The comparison of two clock values is the comparison meant, waited longer than `wait`, exactly when
      the clock has not wrapped around between the joining and now and the server has been up for as long
      as `wait`, or when it has wrapped and either less than `wait` ago or the group has not waited that
      long. */
  lemma WaitedExactly(joined: nat, now: nat, wait: nat)
    requires joined < WORD && now < WORD && wait < WORD
    ensures (joined < TimeBefore(now, wait) <==> Waited(joined, now) > wait) <==>
            if joined <= now then wait <= now else now < wait || Waited(joined, now) <= wait
  {
  }

  /** Ten minutes after the server was started a group that has waited for a minute counts as having
      waited for half an hour. */
  lemma DemotedTooEarly()
    ensures 540000 < TimeBefore(600000, 1800000) && Waited(540000, 600000) == 60000
  {
  }

  predicate Demotable(st: Store, list: seq<GroupRef>, timeBefore: nat, minPlayers: nat) {
    list != [] && list[0] in st && !Invited(st, list[0])
    && (st[list[0]].joinTime < timeBefore || Size(st, list[0]) < minPlayers)
  }

  /** The first premade group of a team goes to the front of the normal list. */
  function Demoted(q: Queue, bracket: nat, team: nat, timeBefore: nat, minPlayers: nat): Queue {
    var from := Slot(bracket, PREMADE_ALLIANCE + team);
    if Demotable(q.groups, q.In(from), timeBefore, minPlayers)
    then MoveToFront(q, q.In(from)[0], from, Slot(bracket, NORMAL_ALLIANCE + team)) else q
  }

  lemma SlotFacts(bracket: nat, index: nat)
    requires bracket < BRACKETS && index < 4
    ensures Slot(bracket, index) < LISTS && Slot(bracket, index) % 2 == index % 2
  {
  }

  lemma DemotedKeeps(q: Queue, bracket: nat, team: nat, timeBefore: nat, minPlayers: nat)
    requires Inv(q) && bracket < BRACKETS && team < 2
    ensures var q' := Demoted(q, bracket, team, timeBefore, minPlayers);
            Inv(q') && q'.groups == q.groups && q'.players == q.players
  {
    hide Inv;
    var from := Slot(bracket, PREMADE_ALLIANCE + team);
    if Demotable(q.groups, q.In(from), timeBefore, minPlayers) {
      var g, to := q.In(from)[0], Slot(bracket, NORMAL_ALLIANCE + team);
      SlotFacts(bracket, PREMADE_ALLIANCE + team);
      SlotFacts(bracket, NORMAL_ALLIANCE + team);
      assert from != to;
      hide Slot;
      assert At(q, from, g);
      hide At, Demotable;
      DemoteKeeps(q, g, from, to);
    }
    hide Slot, Demotable;
  }
}
