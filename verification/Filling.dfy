/** Filling the free places of a running battleground from the normal queue: the kick-and-refill
    loop of BattleGroundQueue::FillPlayersToBG (src/game/BattleGround/BattleGroundQueue.cpp).

    `Selection` says which groups get selected; that it is a total function is the statement that
    the loop terminates. Below it are the properties of the selection, and at the end the method
    that computes it with iterators moving through both lists.
 */
module Filling {
  import opened QueueModel
  import opened SelectionPools
  import opened FirstCome

  /** What is fixed while a battleground is being filled. */
  datatype Job = Job(st: Store, aliList: seq<GroupRef>, hordeList: seq<GroupRef>, aliFree: nat, hordeFree: nat) {
    ghost predicate Valid() {
      && NoDuplicates(aliList) && (forall g :: g in aliList ==> g in st && Size(st, g) > 0)
      && NoDuplicates(hordeList) && (forall g :: g in hordeList ==> g in st && Size(st, g) > 0)
    }
  }

  /** Both selections, and how far each list has been looked at. */
  datatype Picks = Picks(ali: seq<GroupRef>, aliIndex: nat, horde: seq<GroupRef>, hordeIndex: nat)

  ghost predicate SideOk(st: Store, list: seq<GroupRef>, upTo: nat, selected: seq<GroupRef>, free: nat) {
    && Picked(st, list, upTo, selected) && Total(st, selected) <= free
    && (Total(st, selected) == 0 <==> selected == [])
  }

  ghost predicate Ok(j: Job, c: Picks) {
    && SideOk(j.st, j.aliList, c.aliIndex, c.ali, j.aliFree)
    && SideOk(j.st, j.hordeList, c.hordeIndex, c.horde, j.hordeFree)
  }

  /** The two sides are as even as they are going to be: their remaining places differ by at most
      one, or nobody is selected at all, or one side has no one to give and is not behind the other
      by more than one place. */
  predicate Balanced(aliFree: nat, hordeFree: nat, ali: nat, horde: nat) {
    || Gap(aliFree + horde, hordeFree + ali) <= 1
    || (ali == 0 && horde == 0)
    || (ali == 0 && aliFree + horde <= hordeFree + 1)
    || (horde == 0 && hordeFree + ali <= aliFree + 1)
  }

  // ---------------------------------------------------------------- one side

  function KickAndRefill(st: Store, list: seq<GroupRef>, index: nat, selected: seq<GroupRef>, size: nat, target: nat)
    : (seq<GroupRef>, nat)
    requires index <= |list|
  {
    var (rest, refill) := Kicked(st, selected, size);
    if refill then Scan(st, list, index, rest, target) else (rest, index)
  }

  lemma KickedKeeps(st: Store, list: seq<GroupRef>, upTo: nat, selected: seq<GroupRef>, free: nat, size: nat)
    requires SideOk(st, list, upTo, selected, free) && forall g :: g in list ==> Size(st, g) > 0
    ensures var rest := Kicked(st, selected, size).0;
            && SideOk(st, list, upTo, rest, free)
            && |rest| == if selected == [] then 0 else |selected| - 1
  {
    if selected != [] {
      var k := KickIndex(st, selected, size);
      PickedWithout(st, list, upTo, selected, k);
      TotalWithout(st, selected, k);
      TotalZero(st, selected[..k] + selected[k + 1..]);
    }
  }

  lemma PickedWithout(st: Store, list: seq<GroupRef>, upTo: nat, s: seq<GroupRef>, k: nat)
    requires k < |s| && Picked(st, list, upTo, s)
    ensures var t := s[..k] + s[k + 1..];
            Picked(st, list, upTo, t) && forall g :: g in t ==> g in list
  {
    var t := s[..k] + s[k + 1..];
    assert forall i :: 0 <= i < |t| ==> t[i] == if i < k then s[i] else s[i + 1];
    assert forall g :: g in t ==> g in s;
  }

  lemma RefillKeeps(st: Store, list: seq<GroupRef>, index: nat, selected: seq<GroupRef>, free: nat, size: nat, target: nat)
    requires SideOk(st, list, index, selected, free) && target <= free
    requires NoDuplicates(list) && forall g :: g in list ==> Size(st, g) > 0
    ensures var (s, n) := KickAndRefill(st, list, index, selected, size, target);
            && SideOk(st, list, n, s, free) && index <= n
            && (n == index ==> |s| == if selected == [] then 0 else |selected| - 1)
  {
    KickedKeeps(st, list, index, selected, free, size);
    var (rest, refill) := Kicked(st, selected, size);
    ScanKeeps(st, list, index, rest, target);
    var (s, n) := Scan(st, list, index, rest, target);
    assert forall g :: g in s && refill ==> g in list;
    if refill { TotalZero(st, s); }
  }

  // ---------------------------------------------------------------- both sides

  predicate Uneven(diffAli: nat, diffHorde: nat, ali: nat, horde: nat) {
    Gap(diffAli, diffHorde) > 1 && (horde > 0 || ali > 0)
  }

  /** One round of the loop; the flag says that it is the last. */
  ghost function Round(j: Job, c: Picks): (Picks, bool)
    requires j.Valid() && Ok(j, c)
  {
    var diffAli, diffHorde := j.aliFree - Total(j.st, c.ali), j.hordeFree - Total(j.st, c.horde);
    if diffAli < diffHorde then
      var target := if j.aliFree >= diffHorde then j.aliFree - diffHorde else 0;
      var (ali, n) := KickAndRefill(j.st, j.aliList, c.aliIndex, c.ali, diffHorde - diffAli, target);
      var c' := c.(ali := ali, aliIndex := n);
      if Total(j.st, ali) > 0 then (c', false)
      else if j.aliFree <= diffHorde + 1 then (c', true)
      else (c'.(horde := Kicked(j.st, c.horde, diffHorde - diffAli).0), false)
    else if diffHorde < diffAli then
      var target := if j.hordeFree >= diffAli then j.hordeFree - diffAli else 0;
      var (horde, n) := KickAndRefill(j.st, j.hordeList, c.hordeIndex, c.horde, diffAli - diffHorde, target);
      var c' := c.(horde := horde, hordeIndex := n);
      if Total(j.st, horde) > 0 then (c', false)
      else if j.hordeFree <= diffAli + 1 then (c', true)
      else (c'.(ali := Kicked(j.st, c.ali, diffAli - diffHorde).0), false)
    else (c, true)
  }

  ghost predicate Finished(j: Job, c: Picks)
    requires Ok(j, c)
  {
    var ali, horde := Total(j.st, c.ali), Total(j.st, c.horde);
    !Uneven(j.aliFree - ali, j.hordeFree - horde, ali, horde)
  }

  function ToLookAt(j: Job, c: Picks): nat
    requires c.aliIndex <= |j.aliList| && c.hordeIndex <= |j.hordeList|
  {
    |j.aliList| - c.aliIndex + |j.hordeList| - c.hordeIndex
  }

  /** A round keeps both selections in order and makes progress: it moves on in a list, or leaves
      fewer groups selected, unless it is the last, and then the sides are balanced. */
  lemma RoundKeeps(j: Job, c: Picks)
    requires j.Valid() && Ok(j, c) && !Finished(j, c)
    ensures var (c', last) := Round(j, c);
            && Ok(j, c')
            && ToLookAt(j, c') <= ToLookAt(j, c)
            && (!last && ToLookAt(j, c') == ToLookAt(j, c) ==> |c'.ali| + |c'.horde| < |c.ali| + |c.horde|)
            && (last ==> Balanced(j.aliFree, j.hordeFree, Total(j.st, c'.ali), Total(j.st, c'.horde)))
  {
    var diffAli, diffHorde := j.aliFree - Total(j.st, c.ali), j.hordeFree - Total(j.st, c.horde);
    hide KickAndRefill, Kicked, Total, Picked;
    if diffAli < diffHorde {
      var target := if j.aliFree >= diffHorde then j.aliFree - diffHorde else 0;
      RefillKeeps(j.st, j.aliList, c.aliIndex, c.ali, j.aliFree, diffHorde - diffAli, target);
      KickedKeeps(j.st, j.hordeList, c.hordeIndex, c.horde, j.hordeFree, diffHorde - diffAli);
    } else {
      assert diffHorde < diffAli;
      var target := if j.hordeFree >= diffAli then j.hordeFree - diffAli else 0;
      RefillKeeps(j.st, j.hordeList, c.hordeIndex, c.horde, j.hordeFree, diffAli - diffHorde, target);
      KickedKeeps(j.st, j.aliList, c.aliIndex, c.ali, j.aliFree, diffAli - diffHorde);
    }
  }

  ghost function Rounds(j: Job, c: Picks): Picks
    requires j.Valid() && Ok(j, c)
    decreases ToLookAt(j, c), |c.ali| + |c.horde|
  {
    if Finished(j, c) then c
    else
      RoundKeeps(j, c);
      var (c', last) := Round(j, c);
      if last then c' else Rounds(j, c')
  }

  // ---------------------------------------------------------------- the whole selection

  /** First come, first served, as long as there are places. */
  function Greedy(j: Job): Picks {
    var (ali, i) := Scan(j.st, j.aliList, 0, [], j.aliFree);
    var (horde, k) := Scan(j.st, j.hordeList, 0, [], j.hordeFree);
    Picks(ali, i, horde, k)
  }

  lemma GreedyOk(j: Job)
    requires j.Valid()
    ensures Ok(j, Greedy(j))
  {
    ScanKeeps(j.st, j.aliList, 0, [], j.aliFree);
    ScanKeeps(j.st, j.hordeList, 0, [], j.hordeFree);
    var c := Greedy(j);
    assert forall g :: g in c.ali ==> g in j.aliList;
    assert forall g :: g in c.horde ==> g in j.hordeList;
    TotalZero(j.st, c.ali);
    TotalZero(j.st, c.horde);
  }

  /** The groups FillPlayersToBG selects; invitation type 0 switches balancing off. */
  ghost function Selection(j: Job, invitationType: nat): Picks
    requires j.Valid()
  {
    GreedyOk(j);
    if invitationType == 0 then Greedy(j) else Rounds(j, Greedy(j))
  }

  lemma {:induction false} RoundsKeep(j: Job, c: Picks)
    requires j.Valid() && Ok(j, c)
    ensures var d := Rounds(j, c);
            Ok(j, d) && Balanced(j.aliFree, j.hordeFree, Total(j.st, d.ali), Total(j.st, d.horde))
    decreases ToLookAt(j, c), |c.ali| + |c.horde|
  {
    if !Finished(j, c) {
      RoundKeeps(j, c);
      var (c', last) := Round(j, c);
      if !last {
        RoundsKeep(j, c');
      }
    }
  }

  /** With balancing on, whatever stands in the two lists, the selection ends balanced. */
  lemma SelectionBalanced(j: Job, invitationType: nat)
    requires j.Valid() && invitationType != 0
    ensures var d := Selection(j, invitationType);
            Balanced(j.aliFree, j.hordeFree, Total(j.st, d.ali), Total(j.st, d.horde))
  {
    GreedyOk(j);
    RoundsKeep(j, Greedy(j));
  }

  /** Nobody is selected twice or while invited, only waiting groups of the right list are, and
      they fit into the free places of their team. */
  lemma SelectionFits(j: Job, invitationType: nat)
    requires j.Valid()
    ensures var d := Selection(j, invitationType);
            && NoDuplicates(d.ali) && NoDuplicates(d.horde)
            && (forall g :: g in d.ali ==> g in j.aliList && !Invited(j.st, g))
            && (forall g :: g in d.horde ==> g in j.hordeList && !Invited(j.st, g))
            && Total(j.st, d.ali) <= j.aliFree && Total(j.st, d.horde) <= j.hordeFree
  {
    GreedyOk(j);
    RoundsKeep(j, Greedy(j));
  }

  /** Balancing changes nothing where first come, first served is even already. */
  lemma EvenGreedyStays(j: Job, invitationType: nat)
    requires j.Valid()
    requires var c := Greedy(j);
             Gap(j.aliFree + Total(j.st, c.horde), j.hordeFree + Total(j.st, c.ali)) <= 1
    ensures Selection(j, invitationType) == Greedy(j)
  {
    GreedyOk(j);
  }

  // ---------------------------------------------------------------- what filling achieves

  /** A list is offered to a pool, from position i on. */
  ghost predicate Offered(st: Store, list: seq<GroupRef>, i: nat, base: seq<GroupRef>, limit: nat, s: seq<GroupRef>, n: nat) {
    FirstFit(st, list, i, base, s, limit) && StopsAt(st, list, i, base, s, limit, n)
  }

  /** A pool gives up a group for `size`. If that was larger than wanted by more than one player, or the
      pool was empty, the list is offered to it from where it stands; otherwise nobody takes the place. */
  ghost predicate GivesUp(st: Store, list: seq<GroupRef>, i: nat, s: seq<GroupRef>, size: nat, target: nat, s': seq<GroupRef>, i': nat) {
    if s == [] then Offered(st, list, i, [], target, s', i')
    else exists k: nat :: IsKick(st, s, size, k)
                     && var rest := s[..k] + s[k + 1..];
                        if Size(st, s[k]) > size + 1 then Offered(st, list, i, rest, target, s', i') else s' == rest && i' == i
  }

  ghost predicate Kicks(st: Store, s: seq<GroupRef>, size: nat, s': seq<GroupRef>) {
    if s == [] then s' == [] else exists k: nat :: IsKick(st, s, size, k) && s' == s[..k] + s[k + 1..]
  }

  /** The side with fewer places left, here the first one, gives up a group, and offers its list again up
      to the other side's remainder. If that empties its pool, the other side gives up a group too, unless
      it has no more places left by then than the first one ever had, and one. */
  ghost predicate Concedes(st: Store, list: seq<GroupRef>, i: nat, s: seq<GroupRef>, free: nat, other: seq<GroupRef>, otherLeft: int,
                           s': seq<GroupRef>, i': nat, other': seq<GroupRef>, last: bool) {
    var left := free - Total(st, s);
    && left < otherLeft
    && GivesUp(st, list, i, s, otherLeft - left, if free >= otherLeft then free - otherLeft else 0, s', i')
    && if s' != [] then other' == other && !last
       else if free <= otherLeft + 1 then other' == other && last
       else Kicks(st, other, otherLeft - left, other') && !last
  }

  /** One round of balancing. */
  ghost predicate Evens(j: Job, c: Picks, c': Picks, last: bool) {
    var aliLeft, hordeLeft := j.aliFree - Total(j.st, c.ali), j.hordeFree - Total(j.st, c.horde);
    if aliLeft < hordeLeft
    then c'.hordeIndex == c.hordeIndex
         && Concedes(j.st, j.aliList, c.aliIndex, c.ali, j.aliFree, c.horde, hordeLeft, c'.ali, c'.aliIndex, c'.horde, last)
    else c'.aliIndex == c.aliIndex
         && Concedes(j.st, j.hordeList, c.hordeIndex, c.horde, j.hordeFree, c.ali, aliLeft, c'.horde, c'.hordeIndex, c'.ali, last)
  }

  /** The remainders differ by more than one, and there is somebody to give up. */
  ghost predicate Open(j: Job, c: Picks) {
    var aliLeft, hordeLeft := j.aliFree - Total(j.st, c.ali), j.hordeFree - Total(j.st, c.horde);
    (aliLeft > hordeLeft + 1 || hordeLeft > aliLeft + 1) && (c.ali != [] || c.horde != [])
  }

  /** n rounds lead from c to d, where there is nothing left to even out or the last one gave up. */
  ghost predicate Balances(j: Job, c: Picks, d: Picks, n: nat)
    decreases n
  {
    if !Open(j, c) then n == 0 && d == c
    else n > 0 && ((n == 1 && Evens(j, c, d, true)) || exists m :: Evens(j, c, m, false) && Balances(j, m, d, n - 1))
  }

  /** What FillPlayersToBG selects: both lists are offered from the beginning under the free places, and
      with balancing on that is evened out. */
  ghost predicate Filled(j: Job, invitationType: nat, ali: seq<GroupRef>, horde: seq<GroupRef>) {
    exists c: Picks, d: Picks, n: nat ::
      FirstRound(j, c) && AllRounds(j, invitationType, c, d, n) && ali == d.ali && horde == d.horde
  }

  ghost predicate FirstRound(j: Job, c: Picks) {
    && Offered(j.st, j.aliList, 0, [], j.aliFree, c.ali, c.aliIndex)
    && Offered(j.st, j.hordeList, 0, [], j.hordeFree, c.horde, c.hordeIndex)
  }

  ghost predicate AllRounds(j: Job, invitationType: nat, c: Picks, d: Picks, n: nat) {
    if invitationType == 0 then d == c else Balances(j, c, d, n)
  }

  lemma OffersAgain(st: Store, list: seq<GroupRef>, upTo: nat, s: seq<GroupRef>)
    requires Picked(st, list, upTo, s) && NoDuplicates(list) && forall g :: g in list ==> Size(st, g) > 0
    ensures CanBeOffered(st, list, upTo, s)
  {
    forall p | upTo <= p < |list| ensures list[p] !in s {
      assert list[p] !in list[..upTo];
    }
  }

  lemma RefillGivesUp(st: Store, list: seq<GroupRef>, i: nat, s: seq<GroupRef>, free: nat, size: nat, target: nat)
    requires SideOk(st, list, i, s, free) && NoDuplicates(list) && forall g :: g in list ==> Size(st, g) > 0
    ensures var (s', i') := KickAndRefill(st, list, i, s, size, target);
            GivesUp(st, list, i, s, size, target, s', i')
  {
    KickedKeeps(st, list, i, s, free, size);
    var (rest, refill) := Kicked(st, s, size);
    OffersAgain(st, list, i, rest);
    hide FirstFit, StopsAt, Picked, CanBeOffered, Total, IsKick;
    if s != [] { KickIndexIsKick(st, s, size); }
    if refill { ScanServes(st, list, i, rest, target); }
  }

  lemma KickedKicks(st: Store, s: seq<GroupRef>, size: nat)
    ensures Kicks(st, s, size, Kicked(st, s, size).0)
  {
    if s != [] { KickIndexIsKick(st, s, size); }
    hide IsKick;
  }

  /** What Round does to the side with fewer places left. */
  lemma RoundConcedes(st: Store, list: seq<GroupRef>, i: nat, s: seq<GroupRef>, free: nat, other: seq<GroupRef>, otherLeft: int)
    requires SideOk(st, list, i, s, free) && NoDuplicates(list) && forall g :: g in list ==> Size(st, g) > 0
    requires free - Total(st, s) < otherLeft
    ensures var size := otherLeft - (free - Total(st, s));
            var (s', i') := KickAndRefill(st, list, i, s, size, if free >= otherLeft then free - otherLeft else 0);
            var last := Total(st, s') == 0 && free <= otherLeft + 1;
            Concedes(st, list, i, s, free, other, otherLeft, s', i',
                     if Total(st, s') > 0 || last then other else Kicked(st, other, size).0, last)
  {
    hide KickAndRefill, Kicked, GivesUp, Kicks, Picked, Total, NoDuplicates;
    var size, target := otherLeft - (free - Total(st, s)), if free >= otherLeft then free - otherLeft else 0;
    RefillKeeps(st, list, i, s, free, size, target);
    RefillGivesUp(st, list, i, s, free, size, target);
    KickedKicks(st, other, size);
  }

  lemma RoundEvens(j: Job, c: Picks)
    requires j.Valid() && Ok(j, c) && !Finished(j, c)
    ensures var (c', last) := Round(j, c); Evens(j, c, c', last)
  {
    hide KickAndRefill, Kicked, Concedes, SideOk, NoDuplicates, Total, Size;
    var aliLeft, hordeLeft := j.aliFree - Total(j.st, c.ali), j.hordeFree - Total(j.st, c.horde);
    if aliLeft < hordeLeft {
      RoundConcedes(j.st, j.aliList, c.aliIndex, c.ali, j.aliFree, c.horde, hordeLeft);
    } else {
      RoundConcedes(j.st, j.hordeList, c.hordeIndex, c.horde, j.hordeFree, c.ali, aliLeft);
    }
  }

  lemma OpenUnlessFinished(j: Job, c: Picks)
    requires Ok(j, c)
    ensures Open(j, c) <==> !Finished(j, c)
  {
    hide Picked, Total;
  }

  lemma {:induction false} RoundsBalance(j: Job, c: Picks) returns (n: nat)
    requires j.Valid() && Ok(j, c)
    ensures Balances(j, c, Rounds(j, c), n)
    decreases ToLookAt(j, c), |c.ali| + |c.horde|
  {
    hide Round, Evens, Total, Open, Ok, Finished;
    OpenUnlessFinished(j, c);
    if Finished(j, c) {
      n := 0;
    } else {
      RoundKeeps(j, c);
      RoundEvens(j, c);
      var (c', last) := Round(j, c);
      if last {
        n := 1;
      } else {
        var m := RoundsBalance(j, c');
        n := m + 1;
      }
    }
  }

  /** The selection is the one described. */
  lemma SelectionFills(j: Job, invitationType: nat)
    requires j.Valid()
    ensures var d := Selection(j, invitationType); Filled(j, invitationType, d.ali, d.horde)
  {
    hide Rounds, Balances, Offered, Ok, CanBeOffered, Scan;
    GreedyOk(j);
    var c := Greedy(j);
    StartsFresh(j);
    GreedyOffers(j);
    var n := RoundsBalance(j, c);
    assert FirstRound(j, c) && AllRounds(j, invitationType, c, Selection(j, invitationType), n);
  }

  lemma GreedyOffers(j: Job)
    requires j.Valid()
    ensures FirstRound(j, Greedy(j))
  {
    hide CanBeOffered, FirstFit, StopsAt, Scan, ComesFrom;
    StartsFresh(j);
    ScanServes(j.st, j.aliList, 0, [], j.aliFree);
    ScanServes(j.st, j.hordeList, 0, [], j.hordeFree);
  }

  lemma StartsFresh(j: Job)
    requires j.Valid()
    ensures CanBeOffered(j.st, j.aliList, 0, []) && CanBeOffered(j.st, j.hordeList, 0, [])
  {
  }

  // ---------------------------------------------------------------- the method

  method FillPlayersToBG(j: Job, invitationType: nat, ali: SelectionPool, horde: SelectionPool)
    requires j.Valid()
    requires ali != horde && ali.selected == [] && horde.selected == [] && ali.playerCount == 0 && horde.playerCount == 0
    modifies ali, horde
    ensures ali.Counts(j.st) && horde.Counts(j.st)
    ensures var d := Selection(j, invitationType); ali.selected == d.ali && horde.selected == d.horde
    ensures Filled(j, invitationType, ali.selected, horde.selected)
  {
    SelectionFills(j, invitationType);
    hide Filled;
    GreedyOk(j);
    var aliIndex := Offer(ali, j.st, j.aliList, 0, j.aliFree);
    var hordeIndex := Offer(horde, j.st, j.hordeList, 0, j.hordeFree);
    if invitationType == 0 { return; }
    Balance(j, aliIndex, hordeIndex, ali, horde);
  }

  method Refill(pool: SelectionPool, st: Store, list: seq<GroupRef>, start: nat, size: nat, target: nat) returns (index: nat)
    requires pool.Counts(st) && start <= |list|
    requires forall g :: g in list ==> g in st
    requires forall g :: g in pool.selected ==> Size(st, g) > 0
    modifies pool
    ensures pool.Counts(st)
    ensures (pool.selected, index) == KickAndRefill(st, list, start, old(pool.selected), size, target)
  {
    index := start;
    var refill := pool.KickGroup(st, size);
    if refill {
      index := Offer(pool, st, list, start, target);
    }
  }

  /** One pass through the body of the loop. */
  method DoRound(j: Job, aliStart: nat, hordeStart: nat, ali: SelectionPool, horde: SelectionPool)
    returns (aliIndex: nat, hordeIndex: nat, last: bool)
    requires ali != horde && j.Valid() && ali.Counts(j.st) && horde.Counts(j.st)
    requires Ok(j, Picks(ali.selected, aliStart, horde.selected, hordeStart))
    requires !Finished(j, Picks(ali.selected, aliStart, horde.selected, hordeStart))
    modifies ali, horde
    ensures ali.Counts(j.st) && horde.Counts(j.st)
    ensures (Picks(ali.selected, aliIndex, horde.selected, hordeIndex), last)
            == Round(j, old(Picks(ali.selected, aliStart, horde.selected, hordeStart)))
  {
    hide Kicked, KickAndRefill, Total;
    assert forall g :: g in ali.selected ==> g in j.aliList;
    assert forall g :: g in horde.selected ==> g in j.hordeList;
    aliIndex, hordeIndex, last := aliStart, hordeStart, false;
    var diffAli, diffHorde := j.aliFree - ali.playerCount, j.hordeFree - horde.playerCount;
    if diffAli < diffHorde {
      aliIndex := Refill(ali, j.st, j.aliList, aliIndex, diffHorde - diffAli,
                         if j.aliFree >= diffHorde then j.aliFree - diffHorde else 0);
      if ali.playerCount == 0 {
        if j.aliFree <= diffHorde + 1 { last := true; return; }
        var _ := horde.KickGroup(j.st, diffHorde - diffAli);
      }
    } else {
      hordeIndex := Refill(horde, j.st, j.hordeList, hordeIndex, diffAli - diffHorde,
                           if j.hordeFree >= diffAli then j.hordeFree - diffAli else 0);
      if horde.playerCount == 0 {
        if j.hordeFree <= diffAli + 1 { last := true; return; }
        var _ := ali.KickGroup(j.st, diffAli - diffHorde);
      }
    }
  }

  method Balance(j: Job, aliStart: nat, hordeStart: nat, ali: SelectionPool, horde: SelectionPool)
    requires ali != horde && j.Valid() && ali.Counts(j.st) && horde.Counts(j.st)
    requires Ok(j, Picks(ali.selected, aliStart, horde.selected, hordeStart))
    modifies ali, horde
    ensures ali.Counts(j.st) && horde.Counts(j.st)
    ensures var d := Rounds(j, old(Picks(ali.selected, aliStart, horde.selected, hordeStart)));
            ali.selected == d.ali && horde.selected == d.horde
  {
    hide Round, Total, Picked;
    ghost var start := Picks(ali.selected, aliStart, horde.selected, hordeStart);
    var aliIndex, hordeIndex := aliStart, hordeStart;
    var diffAli, diffHorde := j.aliFree - ali.playerCount, j.hordeFree - horde.playerCount;
    while Gap(diffAli, diffHorde) > 1 && (horde.playerCount > 0 || ali.playerCount > 0)
      invariant ali.Counts(j.st) && horde.Counts(j.st)
      invariant Ok(j, Picks(ali.selected, aliIndex, horde.selected, hordeIndex))
      invariant diffAli == j.aliFree - ali.playerCount && diffHorde == j.hordeFree - horde.playerCount
      invariant Rounds(j, Picks(ali.selected, aliIndex, horde.selected, hordeIndex)) == Rounds(j, start)
      decreases |j.aliList| - aliIndex + |j.hordeList| - hordeIndex, |ali.selected| + |horde.selected|
    {
      RoundKeeps(j, Picks(ali.selected, aliIndex, horde.selected, hordeIndex));
      var last;
      aliIndex, hordeIndex, last := DoRound(j, aliIndex, hordeIndex, ali, horde);
      if last { break; }
      diffAli, diffHorde := j.aliFree - ali.playerCount, j.hordeFree - horde.playerCount;
    }
  }
}
