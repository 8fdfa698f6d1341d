/** Which groups the queue puts together for a new match (CheckNormalMatch, the premade and the
    same-faction selection of src/game/BattleGround/BattleGroundQueue.cpp). */
module Matching {
  import opened QueueModel
  import opened SelectionPools
  import opened FirstCome

  // ---------------------------------------------------------------- walking through a list

  /** Offering the free groups of list[i..] until the pool has `minPlayers`: the selection, and
      the position of the group that filled it (the end of the list if none did). */
  function Gather(st: Store, list: seq<GroupRef>, i: nat, selected: seq<GroupRef>, minPlayers: nat, maxPlayers: nat)
    : (seq<GroupRef>, nat)
    requires i <= |list|
    decreases |list| - i
  {
    if i == |list| then (selected, i)
    else if Invited(st, list[i]) then Gather(st, list, i + 1, selected, minPlayers, maxPlayers)
    else
      var fits := maxPlayers >= Total(st, selected) + Size(st, list[i]);
      var selected' := if fits then selected + [list[i]] else selected;
      if Total(st, selected') >= minPlayers then (selected', i)
      else Gather(st, list, i + 1, selected', minPlayers, maxPlayers)
  }

  /** Offering the free groups of list[i..] until one is refused by a full pool. */
  function Extend(st: Store, list: seq<GroupRef>, i: nat, selected: seq<GroupRef>, desired: nat): seq<GroupRef>
    requires i <= |list|
    decreases |list| - i
  {
    if i == |list| then selected
    else if Invited(st, list[i]) then Extend(st, list, i + 1, selected, desired)
    else if desired >= Total(st, selected) + Size(st, list[i]) then
      Extend(st, list, i + 1, selected + [list[i]], desired)
    else if Total(st, selected) < desired then Extend(st, list, i + 1, selected, desired)
    else selected
  }

  lemma PickedNext(st: Store, list: seq<GroupRef>, i: nat, selected: seq<GroupRef>)
    requires i < |list| && NoDuplicates(list) && Picked(st, list, i, selected)
    ensures Picked(st, list, i + 1, selected)
    ensures !Invited(st, list[i]) ==> Picked(st, list, i + 1, selected + [list[i]])
  {
    assert list[..i + 1] == list[..i] + [list[i]];
    assert list[i] !in list[..i];
  }

  /** What a walk that has selected s and stopped at n has achieved. */
  ghost predicate Gathered(st: Store, list: seq<GroupRef>, s: seq<GroupRef>, n: nat, minPlayers: nat, maxPlayers: nat) {
    && n <= |list| && Total(st, s) <= maxPlayers
    && (n < |list| <==> Total(st, s) >= minPlayers)
    && Picked(st, list, if n < |list| then n + 1 else n, s)
    && (n < |list| ==> s != [] && s[|s| - 1] == list[n])
  }

  lemma {:induction false} GatherKeeps(st: Store, list: seq<GroupRef>, i: nat, selected: seq<GroupRef>, minPlayers: nat, maxPlayers: nat)
    requires i <= |list| && NoDuplicates(list) && Picked(st, list, i, selected)
    requires Total(st, selected) <= maxPlayers && Total(st, selected) < minPlayers
    ensures var (s, n) := Gather(st, list, i, selected, minPlayers, maxPlayers); i <= n && Gathered(st, list, s, n, minPlayers, maxPlayers)
    decreases |list| - i
  {
    hide Picked, NoDuplicates;
    if i == |list| {
      hide Total;
    } else {
      PickedNext(st, list, i, selected);
      TotalNext(st, selected, list[i]);
      hide Total, Size;
      var fits := maxPlayers >= Total(st, selected) + Size(st, list[i]);
      var selected' := if fits then selected + [list[i]] else selected;
      if Invited(st, list[i]) {
        hide Gathered;
        GatherKeeps(st, list, i + 1, selected, minPlayers, maxPlayers);
      } else if Total(st, selected') < minPlayers {
        hide Gathered;
        GatherKeeps(st, list, i + 1, selected', minPlayers, maxPlayers);
      }
      hide Invited;
    }
  }

  lemma {:induction false} ExtendKeeps(st: Store, list: seq<GroupRef>, i: nat, selected: seq<GroupRef>, desired: nat)
    requires i <= |list| && NoDuplicates(list) && Picked(st, list, i, selected)
    ensures var s := Extend(st, list, i, selected, desired);
            && Picked(st, list, |list|, s) && (Total(st, s) <= desired || s == selected)
            && Total(st, s) >= Total(st, selected)
    decreases |list| - i
  {
    if i == |list| {
      PickedWhole(st, list, i, selected);
    } else {
      PickedNext(st, list, i, selected);
      PickedWhole(st, list, i, selected);
      TotalNext(st, selected, list[i]);
      if Invited(st, list[i]) {
        ExtendKeeps(st, list, i + 1, selected, desired);
      } else if desired >= Total(st, selected) + Size(st, list[i]) {
        ExtendKeeps(st, list, i + 1, selected + [list[i]], desired);
      } else if Total(st, selected) < desired {
        ExtendKeeps(st, list, i + 1, selected, desired);
      }
    }
  }

  /** What Extend adds comes from the part of the list it walks through. */
  lemma {:induction false} ExtendSources(st: Store, list: seq<GroupRef>, i: nat, selected: seq<GroupRef>, desired: nat)
    requires i <= |list|
    ensures forall g :: g in Extend(st, list, i, selected, desired) ==> g in selected || g in list[i..]
    decreases |list| - i
  {
    if i < |list| {
      assert list[i..] == [list[i]] + list[i + 1..];
      ExtendSources(st, list, i + 1, selected, desired);
      ExtendSources(st, list, i + 1, selected + [list[i]], desired);
    }
  }

  lemma PickedWhole(st: Store, list: seq<GroupRef>, i: nat, selected: seq<GroupRef>)
    requires i <= |list| && Picked(st, list, i, selected)
    ensures Picked(st, list, |list|, selected)
  {
    assert list[..|list|] == list;
  }

  // ---------------------------------------------------------------- what the walks achieve

  /** Walking through list[i..] until the pool has `minPlayers`: every group up to position n, where it
      has them, is served first come, first served under `maxPlayers`, and no group behind it. */
  ghost predicate Walked(st: Store, list: seq<GroupRef>, i: nat, base: seq<GroupRef>, s: seq<GroupRef>, n: nat,
                         minPlayers: nat, maxPlayers: nat) {
    && i <= n <= |list|
    && var upTo := if n < |list| then n + 1 else n;
    && s == PoolAt(list, i, base, s, upTo)
    && (forall p :: i <= p < upTo ==> Served(st, list, i, base, s, maxPlayers, p))
    && (forall p :: i <= p <= n ==> Total(st, PoolAt(list, i, base, s, p)) < minPlayers)
    && (n < |list| ==> Total(st, s) >= minPlayers)
  }

  lemma WalkedOn(st: Store, list: seq<GroupRef>, i: nat, base: seq<GroupRef>, s: seq<GroupRef>, n: nat,
                 minPlayers: nat, maxPlayers: nat)
    requires i < |list| && Served(st, list, i, base, s, maxPlayers, i) && Total(st, base) < minPlayers
    requires Walked(st, list, i + 1, if list[i] in s then base + [list[i]] else base, s, n, minPlayers, maxPlayers)
    ensures Walked(st, list, i, base, s, n, minPlayers, maxPlayers)
  {
    hide PoolAt, Total, Served;
    var base', next := if list[i] in s then base + [list[i]] else base, i + 1;
    var upTo := if n < |list| then n + 1 else n;
    PoolNext(list, i, base, s, upTo);
    PoolFirst(list, i, base, s);
    forall p | i <= p < upTo ensures Served(st, list, i, base, s, maxPlayers, p) {
      if p > i {
        ServedLater(st, list, i, base, s, maxPlayers, p);
        assert Served(st, list, next, base', s, maxPlayers, p);
      }
    }
    forall p | i <= p <= n ensures Total(st, PoolAt(list, i, base, s, p)) < minPlayers {
      if p > i {
        PoolNext(list, i, base, s, p);
        assert Total(st, PoolAt(list, next, base', s, p)) < minPlayers;
      }
    }
  }

  lemma WalkEnds(st: Store, list: seq<GroupRef>, i: nat, base: seq<GroupRef>, s: seq<GroupRef>, minPlayers: nat, maxPlayers: nat)
    requires i <= |list| && Total(st, base) < minPlayers
    requires if i == |list| then s == base
             else && Served(st, list, i, base, s, maxPlayers, i) && Total(st, s) >= minPlayers
                  && s == if list[i] in s then base + [list[i]] else base
    ensures Walked(st, list, i, base, s, i, minPlayers, maxPlayers)
  {
    hide PoolAt, Total, Served;
    PoolFirst(list, i, base, s);
    if i < |list| { PoolNext(list, i, base, s, i + 1); PoolFirst(list, i + 1, s, s); PoolFirst(list, i + 1, base, s); }
  }

  lemma {:induction false} GatherWalks(st: Store, list: seq<GroupRef>, i: nat, selected: seq<GroupRef>, minPlayers: nat, maxPlayers: nat)
    requires i <= |list| && CanBeOffered(st, list, i, selected) && Total(st, selected) < minPlayers
    ensures var (s, n) := Gather(st, list, i, selected, minPlayers, maxPlayers);
            && Walked(st, list, i, selected, s, n, minPlayers, maxPlayers)
            && ComesFrom(s, selected, list[i..])
    decreases |list| - i
  {
    hide CanBeOffered, Walked, PoolAt, Served, ComesFrom, Total, Size, Invited, NoDuplicates;
    var (s, n) := Gather(st, list, i, selected, minPlayers, maxPlayers);
    OfferedNone(st, list, i, selected);
    if i == |list| {
      WalkEnds(st, list, i, selected, s, minPlayers, maxPlayers);
    } else {
      var takes := !Invited(st, list[i]) && maxPlayers >= Total(st, selected) + Size(st, list[i]);
      var selected' := After(list, i, selected, takes);
      OfferedNone(st, list, i + 1, selected');
      OfferedNext(st, list, i, selected, takes);
      if !Invited(st, list[i]) && Total(st, selected') >= minPlayers {
        OfferedOne(st, list, i, selected, s, maxPlayers, takes);
        WalkEnds(st, list, i, selected, s, minPlayers, maxPlayers);
      } else {
        GatherWalks(st, list, i + 1, selected', minPlayers, maxPlayers);
        OfferedOne(st, list, i, selected, s, maxPlayers, takes);
        WalkedOn(st, list, i, selected, s, n, minPlayers, maxPlayers);
      }
    }
  }

  /** The second walk serves the rest of the list first come, first served. */
  lemma {:induction false} ExtendServes(st: Store, list: seq<GroupRef>, i: nat, selected: seq<GroupRef>, desired: nat)
    requires i <= |list| && CanBeOffered(st, list, i, selected)
    ensures var s := Extend(st, list, i, selected, desired);
            && FirstFit(st, list, i, selected, s, desired)
            && ComesFrom(s, selected, list[i..])
    decreases |list| - i
  {
    hide CanBeOffered, PoolAt, FirstFit, StopsAt, Served, ComesFrom, Total, Size, Invited, NoDuplicates;
    var s := Extend(st, list, i, selected, desired);
    OfferedNone(st, list, i, selected);
    if i == |list| {
      NothingLeft(st, list, selected, desired);
    } else {
      var takes := !Invited(st, list[i]) && desired >= Total(st, selected) + Size(st, list[i]);
      if takes || Invited(st, list[i]) || Total(st, selected) < desired {
        OfferedNext(st, list, i, selected, takes);
        ExtendServes(st, list, i + 1, After(list, i, selected, takes), desired);
        OfferedOne(st, list, i, selected, s, desired, takes);
        ServedFirst(st, list, i, selected, s, desired);
      } else {
        FullTakesNone(st, list, i, selected, desired);
      }
    }
  }

  method DoGather(pool: SelectionPool, st: Store, list: seq<GroupRef>, minPlayers: nat, maxPlayers: nat) returns (i: nat)
    requires pool.Counts(st) && forall g :: g in list ==> g in st
    modifies pool
    ensures pool.Counts(st)
    ensures (pool.selected, i) == Gather(st, list, 0, old(pool.selected), minPlayers, maxPlayers)
  {
    i := 0;
    while i < |list|
      invariant i <= |list| && pool.Counts(st)
      invariant Gather(st, list, i, pool.selected, minPlayers, maxPlayers)
                == Gather(st, list, 0, old(pool.selected), minPlayers, maxPlayers)
    {
      if !Invited(st, list[i]) {
        var _ := pool.AddGroup(st, list[i], maxPlayers);
        if pool.playerCount >= minPlayers { return; }
      }
      i := i + 1;
    }
  }

  method DoExtend(pool: SelectionPool, st: Store, list: seq<GroupRef>, start: nat, desired: nat)
    requires pool.Counts(st) && start <= |list| && forall g :: g in list ==> g in st
    modifies pool
    ensures pool.Counts(st)
    ensures pool.selected == Extend(st, list, start, old(pool.selected), desired)
  {
    var i := start;
    while i < |list|
      invariant start <= i <= |list| && pool.Counts(st)
      invariant Extend(st, list, i, pool.selected, desired) == Extend(st, list, start, old(pool.selected), desired)
    {
      if !Invited(st, list[i]) {
        var more := pool.AddGroup(st, list[i], desired);
        if !more { return; }
      }
      i := i + 1;
    }
  }

  // ---------------------------------------------------------------- normal matches

  datatype Match = Match(ali: seq<GroupRef>, horde: seq<GroupRef>)

  /** More groups for a pool that the group at position i has filled. */
  function Extra(st: Store, list: seq<GroupRef>, i: nat, selected: seq<GroupRef>, desired: nat): seq<GroupRef> {
    if i < |list| then Extend(st, list, i + 1, selected, desired) else selected
  }

  /** Both teams up to `minPlayers`; then, when both got there and balancing is on, more groups for
      the smaller team (the alliance, if they are equal) up to the size of the larger. */
  function NormalMatch(st: Store, aliList: seq<GroupRef>, hordeList: seq<GroupRef>, minPlayers: nat, maxPlayers: nat,
                       invitationType: nat): (m: Match)
  {
    var (ali, i) := Gather(st, aliList, 0, [], minPlayers, maxPlayers);
    var (horde, j) := Gather(st, hordeList, 0, [], minPlayers, maxPlayers);
    var a, h := Total(st, ali), Total(st, horde);
    if invitationType == 0 || a < minPlayers || h < minPlayers then Match(ali, horde)
    else if h < a then Match(ali, Extra(st, hordeList, j, horde, a))
    else Match(Extra(st, aliList, i, ali, h), horde)
  }

  /** Whether that is a match: enough players on both sides, and with balancing on no more than two
      players' difference. */
  predicate IsMatch(st: Store, m: Match, minPlayers: nat, invitationType: nat) {
    var a, h := Total(st, m.ali), Total(st, m.horde);
    a >= minPlayers && h >= minPlayers && (invitationType != 0 ==> Gap(a, h) <= 2)
  }

  ghost predicate Ready(st: Store, list: seq<GroupRef>) {
    NoDuplicates(list) && forall g :: g in list ==> g in st && Size(st, g) > 0
  }

  /** Groups are picked once, free, from their team's list, and no team exceeds `maxPlayers`. */
  lemma NormalMatchFits(st: Store, aliList: seq<GroupRef>, hordeList: seq<GroupRef>, minPlayers: nat, maxPlayers: nat,
                        invitationType: nat)
    requires Ready(st, aliList) && Ready(st, hordeList) && minPlayers > 0
    ensures var m := NormalMatch(st, aliList, hordeList, minPlayers, maxPlayers, invitationType);
            && Picked(st, aliList, |aliList|, m.ali) && Picked(st, hordeList, |hordeList|, m.horde)
            && Total(st, m.ali) <= maxPlayers && Total(st, m.horde) <= maxPlayers
  {
    var (ali, i) := Gather(st, aliList, 0, [], minPlayers, maxPlayers);
    var (horde, j) := Gather(st, hordeList, 0, [], minPlayers, maxPlayers);
    SideFits(st, aliList, minPlayers, maxPlayers, Total(st, horde));
    SideFits(st, hordeList, minPlayers, maxPlayers, Total(st, ali));
  }

  lemma SideFits(st: Store, list: seq<GroupRef>, minPlayers: nat, maxPlayers: nat, desired: nat)
    requires Ready(st, list) && minPlayers > 0
    ensures var (s, n) := Gather(st, list, 0, [], minPlayers, maxPlayers);
            var t := Extra(st, list, n, s, desired);
            && Picked(st, list, |list|, s) && Picked(st, list, |list|, t)
            && Total(st, s) <= maxPlayers && (Total(st, t) <= desired || t == s) && Total(st, t) >= Total(st, s)
            && (Total(st, s) >= minPlayers <==> n < |list|)
  {
    assert Total(st, []) == 0 && Picked(st, list, 0, []);
    hide Gather;
    hide Extend;
    hide Picked;
    hide Total;
    GatherKeeps(st, list, 0, [], minPlayers, maxPlayers);
    var (s, n) := Gather(st, list, 0, [], minPlayers, maxPlayers);
    if n < |list| {
      PickedWhole(st, list, n + 1, s);
      ExtendKeeps(st, list, n + 1, s, desired);
    }
  }

  /** Where enough players are to be had at all, they are found: a side that stays short of
      `minPlayers` has been looked through to its end. */
  lemma ShortMeansExhausted(st: Store, list: seq<GroupRef>, minPlayers: nat, maxPlayers: nat)
    requires Ready(st, list) && minPlayers > 0
    ensures var (s, n) := Gather(st, list, 0, [], minPlayers, maxPlayers);
            Total(st, s) < minPlayers <==> n == |list|
  {
    GatherKeeps(st, list, 0, [], minPlayers, maxPlayers);
  }

  /** Whether a match is started; `testing` is the debug switch that lets a battleground start with
      a single player. */
  predicate Accepts(st: Store, m: Match, minPlayers: nat, invitationType: nat, testing: bool) {
    var a, h := Total(st, m.ali), Total(st, m.horde);
    || IsMatch(st, m, minPlayers, invitationType)
    || (testing && (a > 0 || h > 0) && (invitationType == 0 || a < minPlayers || h < minPlayers || Gap(a, h) <= 2))
  }

  /** What makes up a normal match, in terms of who is served when. Each team is its list's first groups
      up to `minPlayers`; when both teams got there and balancing is on, the larger one stays so, and
      the smaller one also has the groups behind them that had room at their turn under the larger
      one's count. */
  ghost predicate IsNormalMatch(st: Store, aliList: seq<GroupRef>, hordeList: seq<GroupRef>, minPlayers: nat, maxPlayers: nat,
                                invitationType: nat, m: Match) {
    exists ali: seq<GroupRef>, i: nat, horde: seq<GroupRef>, j: nat ::
      && Walked(st, aliList, 0, [], ali, i, minPlayers, maxPlayers) && Walked(st, hordeList, 0, [], horde, j, minPlayers, maxPlayers)
      && var a, h := Total(st, ali), Total(st, horde);
         if invitationType == 0 || a < minPlayers || h < minPlayers then m == Match(ali, horde)
         else if h < a then m.ali == ali && FirstFit(st, hordeList, j + 1, horde, m.horde, a)
         else m.horde == horde && FirstFit(st, aliList, i + 1, ali, m.ali, h)
  }

  lemma NormalMatchIs(st: Store, aliList: seq<GroupRef>, hordeList: seq<GroupRef>, minPlayers: nat, maxPlayers: nat,
                      invitationType: nat)
    requires Ready(st, aliList) && Ready(st, hordeList) && minPlayers > 0
    ensures IsNormalMatch(st, aliList, hordeList, minPlayers, maxPlayers, invitationType,
                          NormalMatch(st, aliList, hordeList, minPlayers, maxPlayers, invitationType))
  {
    var (ali, i) := Gather(st, aliList, 0, [], minPlayers, maxPlayers);
    var (horde, j) := Gather(st, hordeList, 0, [], minPlayers, maxPlayers);
    hide Gather, Extend, Walked, FirstFit, Total, Ready;
    WalkThenServe(st, aliList, minPlayers, maxPlayers, Total(st, horde));
    WalkThenServe(st, hordeList, minPlayers, maxPlayers, Total(st, ali));
    assert Walked(st, aliList, 0, [], ali, i, minPlayers, maxPlayers) && Walked(st, hordeList, 0, [], horde, j, minPlayers, maxPlayers);
  }

  lemma WalkThenServe(st: Store, list: seq<GroupRef>, minPlayers: nat, maxPlayers: nat, desired: nat)
    requires Ready(st, list) && minPlayers > 0
    ensures var (s, n) := Gather(st, list, 0, [], minPlayers, maxPlayers);
            && Walked(st, list, 0, [], s, n, minPlayers, maxPlayers)
            && (Total(st, s) >= minPlayers <==> n < |list|)
            && (n < |list| ==> FirstFit(st, list, n + 1, s, Extend(st, list, n + 1, s, desired), desired))
  {
    hide *;
    var (s, n) := Gather(st, list, 0, [], minPlayers, maxPlayers);
    AtTheStart(st, list);
    GatherWalks(st, list, 0, [], minPlayers, maxPlayers);
    GatherKeeps(st, list, 0, [], minPlayers, maxPlayers);
    GatheredMeans(st, list, s, n, minPlayers, maxPlayers);
    if n < |list| {
      BehindTheWalk(st, list, s, n);
      ExtendServes(st, list, n + 1, s, desired);
    }
  }

  lemma AtTheStart(st: Store, list: seq<GroupRef>)
    requires Ready(st, list)
    ensures CanBeOffered(st, list, 0, []) && Picked(st, list, 0, []) && NoDuplicates(list) && Total(st, []) == 0
  {
  }

  lemma GatheredMeans(st: Store, list: seq<GroupRef>, s: seq<GroupRef>, n: nat, minPlayers: nat, maxPlayers: nat)
    requires Gathered(st, list, s, n, minPlayers, maxPlayers)
    ensures n <= |list| && (n < |list| <==> Total(st, s) >= minPlayers) && (n < |list| ==> Picked(st, list, n + 1, s))
  {
  }

  lemma BehindTheWalk(st: Store, list: seq<GroupRef>, s: seq<GroupRef>, n: nat)
    requires Ready(st, list) && n < |list| && Picked(st, list, n + 1, s)
    ensures CanBeOffered(st, list, n + 1, s)
  {
    forall p | n + 1 <= p < |list| ensures list[p] !in s {
      assert list[p] !in list[..n + 1];
    }
  }

  /** With the same number as minimum and maximum, a match that is refused has not been evened out:
      the pools hold what the walks through the lists have gathered. */
  lemma RefusedIsGathered(st: Store, aliList: seq<GroupRef>, hordeList: seq<GroupRef>, n: nat, invitationType: nat, testing: bool)
    requires Ready(st, aliList) && Ready(st, hordeList) && n > 0
    requires !Accepts(st, NormalMatch(st, aliList, hordeList, n, n, invitationType), n, invitationType, testing)
    ensures NormalMatch(st, aliList, hordeList, n, n, invitationType)
            == Match(Gather(st, aliList, 0, [], n, n).0, Gather(st, hordeList, 0, [], n, n).0)
  {
    var (ali, i) := Gather(st, aliList, 0, [], n, n);
    var (horde, j) := Gather(st, hordeList, 0, [], n, n);
    SideFits(st, aliList, n, n, Total(st, horde));
    SideFits(st, hordeList, n, n, Total(st, ali));
  }

  /** Fills both pools. Stepping past the group that filled a pool is safe: both have been filled. */
  method CheckNormalMatch(st: Store, aliList: seq<GroupRef>, hordeList: seq<GroupRef>, minPlayers: nat, maxPlayers: nat,
                          invitationType: nat, testing: bool, ali: SelectionPool, horde: SelectionPool)
    returns (found: bool)
    requires Ready(st, aliList) && Ready(st, hordeList) && minPlayers > 0
    requires ali != horde && ali.selected == [] && horde.selected == [] && ali.playerCount == 0 && horde.playerCount == 0
    modifies ali, horde
    ensures ali.Counts(st) && horde.Counts(st)
    ensures Match(ali.selected, horde.selected) == NormalMatch(st, aliList, hordeList, minPlayers, maxPlayers, invitationType)
    ensures IsNormalMatch(st, aliList, hordeList, minPlayers, maxPlayers, invitationType, Match(ali.selected, horde.selected))
    ensures found <==> Accepts(st, Match(ali.selected, horde.selected), minPlayers, invitationType, testing)
    ensures var a, h := ali.playerCount, horde.playerCount;
            var tooUneven := invitationType != 0 && a >= minPlayers && h >= minPlayers && (a > h + 2 || h > a + 2);
            found <==> !tooUneven && ((a >= minPlayers && h >= minPlayers) || (testing && a + h > 0))
  {
    NormalMatchIs(st, aliList, hordeList, minPlayers, maxPlayers, invitationType);
    hide IsNormalMatch;
    var evened := FillBoth(st, aliList, hordeList, minPlayers, maxPlayers, invitationType, ali, horde);
    if evened && Gap(horde.playerCount, ali.playerCount) > 2 { return false; }
    if testing && (ali.playerCount > 0 || horde.playerCount > 0) { return true; }
    return ali.playerCount >= minPlayers && horde.playerCount >= minPlayers;
  }

  /** The two walks, and the second one of the smaller team when both have filled their pools and
      balancing is on. */
  method FillBoth(st: Store, aliList: seq<GroupRef>, hordeList: seq<GroupRef>, minPlayers: nat, maxPlayers: nat,
                  invitationType: nat, ali: SelectionPool, horde: SelectionPool)
    returns (evened: bool)
    requires Ready(st, aliList) && Ready(st, hordeList) && minPlayers > 0
    requires ali != horde && ali.selected == [] && horde.selected == [] && ali.playerCount == 0 && horde.playerCount == 0
    modifies ali, horde
    ensures ali.Counts(st) && horde.Counts(st)
    ensures Match(ali.selected, horde.selected) == NormalMatch(st, aliList, hordeList, minPlayers, maxPlayers, invitationType)
    ensures evened <==> invitationType != 0 && ali.playerCount >= minPlayers && horde.playerCount >= minPlayers
  {
    assert Total(st, []) == 0;
    hide Gather, Extend, Total, Picked;
    var i := DoGather(ali, st, aliList, minPlayers, maxPlayers);
    var j := DoGather(horde, st, hordeList, minPlayers, maxPlayers);
    evened := invitationType != 0 && horde.playerCount >= minPlayers && ali.playerCount >= minPlayers;
    if evened {
      SideFits(st, aliList, minPlayers, maxPlayers, horde.playerCount);
      SideFits(st, hordeList, minPlayers, maxPlayers, ali.playerCount);
      hide Ready;
      assert (forall g :: g in aliList ==> g in st) && (forall g :: g in hordeList ==> g in st) by {
        KnownToStore(st, aliList);
        KnownToStore(st, hordeList);
      }
      EvenOut(st, aliList, hordeList, i, j, ali, horde);
      hide Extra;
    }
  }

  lemma KnownToStore(st: Store, list: seq<GroupRef>)
    requires Ready(st, list)
    ensures forall g :: g in list ==> g in st
  {
  }

  /** Offers more groups to the smaller of two filled pools. */
  method EvenOut(st: Store, aliList: seq<GroupRef>, hordeList: seq<GroupRef>, i: nat, j: nat,
                 ali: SelectionPool, horde: SelectionPool)
    requires ali != horde && ali.Counts(st) && horde.Counts(st) && i < |aliList| && j < |hordeList|
    requires (forall g :: g in aliList ==> g in st) && (forall g :: g in hordeList ==> g in st)
    modifies ali, horde
    ensures ali.Counts(st) && horde.Counts(st)
    ensures if old(horde.playerCount < ali.playerCount)
            then ali.selected == old(ali.selected)
                 && horde.selected == Extra(st, hordeList, j, old(horde.selected), old(ali.playerCount))
            else horde.selected == old(horde.selected)
                 && ali.selected == Extra(st, aliList, i, old(ali.selected), old(horde.playerCount))
  {
    if horde.playerCount < ali.playerCount {
      DoExtend(horde, st, hordeList, j + 1, ali.playerCount);
    } else {
      DoExtend(ali, st, aliList, i + 1, horde.playerCount);
    }
  }
}
