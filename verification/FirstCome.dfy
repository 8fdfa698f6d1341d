/** First come, first served, stated without reference to any loop: which groups of a list a pool takes
    in when the list is offered to it from some position on (SelectionPool::AddGroup as it is used
    in FillPlayersToBG and CheckNormalMatch of src/game/BattleGround/BattleGroundQueue.cpp).

    The queue's own walks over its lists are functions elsewhere; here is what they have to achieve.
 */
module FirstCome {
  import opened QueueModel
  import opened SelectionPools

  /** The groups of the list that are in s, in the list's order. */
  function Among(list: seq<GroupRef>, s: seq<GroupRef>): seq<GroupRef> {
    if list == [] then []
    else if list[0] in s then [list[0]] + Among(list[1..], s)
    else Among(list[1..], s)
  }

  /** The pool when the turn of list[p] comes: what was in it before, and what it has taken since. */
  function PoolAt(list: seq<GroupRef>, i: nat, base: seq<GroupRef>, s: seq<GroupRef>, p: nat): seq<GroupRef>
    requires i <= p <= |list|
  {
    base + Among(list[i..p], s)
  }

  /** list[p] is taken exactly if it is free and there is room for all of it at its turn. */
  ghost predicate Served(st: Store, list: seq<GroupRef>, i: nat, base: seq<GroupRef>, s: seq<GroupRef>, limit: nat, p: nat)
    requires i <= p < |list|
  {
    list[p] in s <==> !Invited(st, list[p]) && Total(st, PoolAt(list, i, base, s, p)) + Size(st, list[p]) <= limit
  }

  /** The pool holds what it held before, and then those groups of list[i..], in the list's order, that
      were free and had room at their turn; no such group was passed over. */
  ghost predicate FirstFit(st: Store, list: seq<GroupRef>, i: nat, base: seq<GroupRef>, s: seq<GroupRef>, limit: nat) {
    && i <= |list| && s == PoolAt(list, i, base, s, |list|)
    && forall p :: i <= p < |list| ==> Served(st, list, i, base, s, limit, p)
  }

  /** The position reached: the end, or the first group that was not taken when the pool was full. */
  ghost predicate StopsAt(st: Store, list: seq<GroupRef>, i: nat, base: seq<GroupRef>, s: seq<GroupRef>, limit: nat, n: nat) {
    && i <= n <= |list|
    && (n < |list| ==> list[n] !in s && Total(st, PoolAt(list, i, base, s, n)) >= limit)
    && forall p :: i <= p < n && list[p] !in s ==> Total(st, PoolAt(list, i, base, s, p)) < limit
  }

  /** A list whose groups are different, have members, and from i on are not in the pool yet. */
  ghost predicate CanBeOffered(st: Store, list: seq<GroupRef>, i: nat, base: seq<GroupRef>) {
    && i <= |list| && NoDuplicates(list)
    && (forall g :: g in list ==> Size(st, g) > 0)
    && forall p :: i <= p < |list| ==> list[p] !in base
  }

  ghost predicate ComesFrom(s: seq<GroupRef>, base: seq<GroupRef>, offered: seq<GroupRef>) {
    (forall g :: g in base ==> g in s) && forall g :: g in s ==> g in base || g in offered
  }

  // ---------------------------------------------------------------- one group at a time

  lemma PoolNext(list: seq<GroupRef>, i: nat, base: seq<GroupRef>, s: seq<GroupRef>, p: nat)
    requires i < p <= |list|
    ensures PoolAt(list, i, base, s, p) == PoolAt(list, i + 1, if list[i] in s then base + [list[i]] else base, s, p)
  {
    assert list[i..p][0] == list[i] && list[i..p][1..] == list[i + 1..p];
    assert base + ([list[i]] + Among(list[i + 1..p], s)) == base + [list[i]] + Among(list[i + 1..p], s);
  }

  lemma PoolFirst(list: seq<GroupRef>, i: nat, base: seq<GroupRef>, s: seq<GroupRef>)
    requires i <= |list|
    ensures PoolAt(list, i, base, s, i) == base
  {
    assert list[i..i] == [];
  }

  lemma {:induction false} AmongNone(list: seq<GroupRef>, s: seq<GroupRef>)
    requires forall g :: g in list ==> g !in s
    ensures Among(list, s) == []
  {
    if list != [] { AmongNone(list[1..], s); }
  }

  lemma ServedLater(st: Store, list: seq<GroupRef>, i: nat, base: seq<GroupRef>, s: seq<GroupRef>, limit: nat, p: nat)
    requires i < p < |list|
    ensures Served(st, list, i, base, s, limit, p)
            <==> Served(st, list, i + 1, if list[i] in s then base + [list[i]] else base, s, limit, p)
  {
    PoolNext(list, i, base, s, p);
    hide PoolAt, Total;
  }

  /** Serving the first group, and then the rest, is serving the list. */
  lemma ServedFirst(st: Store, list: seq<GroupRef>, i: nat, base: seq<GroupRef>, s: seq<GroupRef>, limit: nat)
    requires i < |list| && Served(st, list, i, base, s, limit, i)
    ensures var base' := if list[i] in s then base + [list[i]] else base;
            FirstFit(st, list, i, base, s, limit) <==> FirstFit(st, list, i + 1, base', s, limit)
  {
    var base' := if list[i] in s then base + [list[i]] else base;
    PoolNext(list, i, base, s, |list|);
    forall p | i < p < |list|
      ensures Served(st, list, i, base, s, limit, p) <==> Served(st, list, i + 1, base', s, limit, p)
    {
      ServedLater(st, list, i, base, s, limit, p);
    }
    hide PoolAt, Served;
    if FirstFit(st, list, i + 1, base', s, limit) {
      forall p | i <= p < |list| ensures Served(st, list, i, base, s, limit, p) {
        if p > i { assert Served(st, list, i + 1, base', s, limit, p); }
      }
    }
    if FirstFit(st, list, i, base, s, limit) {
      var next := i + 1;
      forall p | next <= p < |list| ensures Served(st, list, next, base', s, limit, p) {
        assert Served(st, list, i, base, s, limit, p);
      }
    }
  }

  /** First come, first served leaves no choice. */
  lemma {:induction false} FirstFitUnique(st: Store, list: seq<GroupRef>, i: nat, base: seq<GroupRef>,
                                          s: seq<GroupRef>, t: seq<GroupRef>, limit: nat)
    requires FirstFit(st, list, i, base, s, limit) && FirstFit(st, list, i, base, t, limit)
    ensures s == t
    decreases |list| - i
  {
    if i == |list| {
      PoolFirst(list, i, base, s);
      PoolFirst(list, i, base, t);
    } else {
      assert Served(st, list, i, base, s, limit, i) && Served(st, list, i, base, t, limit, i);
      PoolFirst(list, i, base, s);
      PoolFirst(list, i, base, t);
      ServedFirst(st, list, i, base, s, limit);
      ServedFirst(st, list, i, base, t, limit);
      hide FirstFit, Served;
      FirstFitUnique(st, list, i + 1, if list[i] in s then base + [list[i]] else base, s, t, limit);
    }
  }

  /** What the pool holds after the turn of list[i]. */
  function After(list: seq<GroupRef>, i: nat, base: seq<GroupRef>, takes: bool): seq<GroupRef>
    requires i < |list|
  {
    if takes then base + [list[i]] else base
  }

  lemma OfferedNext(st: Store, list: seq<GroupRef>, i: nat, base: seq<GroupRef>, takes: bool)
    requires CanBeOffered(st, list, i, base) && i < |list|
    ensures CanBeOffered(st, list, i + 1, After(list, i, base, takes))
  {
  }

  /** list[i] is in the final selection exactly if it has been taken at its turn. */
  lemma OfferedOne(st: Store, list: seq<GroupRef>, i: nat, base: seq<GroupRef>, s: seq<GroupRef>, limit: nat, takes: bool)
    requires CanBeOffered(st, list, i, base) && i < |list|
    requires takes <==> !Invited(st, list[i]) && Total(st, base) + Size(st, list[i]) <= limit
    requires ComesFrom(s, After(list, i, base, takes), list[i + 1..])
    ensures list[i] in s <==> takes
    ensures Served(st, list, i, base, s, limit, i) && ComesFrom(s, base, list[i..])
  {
    assert list[i..] == [list[i]] + list[i + 1..];
    assert list[i] in After(list, i, base, takes) <==> takes;
    assert list[i] !in list[i + 1..];
    PoolFirst(list, i, base, s);
    hide PoolAt, Total, Invited, Size;
  }

  lemma OfferedNone(st: Store, list: seq<GroupRef>, i: nat, base: seq<GroupRef>)
    requires i <= |list|
    ensures ComesFrom(base, base, list[i..])
  {
  }

  /** A pool that is full takes nobody. */
  lemma FullTakesNone(st: Store, list: seq<GroupRef>, i: nat, base: seq<GroupRef>, limit: nat)
    requires CanBeOffered(st, list, i, base) && Total(st, base) >= limit
    ensures FirstFit(st, list, i, base, base, limit)
    ensures forall p :: i <= p <= |list| ==> PoolAt(list, i, base, base, p) == base
  {
    forall p | i <= p <= |list| ensures PoolAt(list, i, base, base, p) == base {
      AmongNone(list[i..p], base);
    }
  }

  lemma StopsLater(st: Store, list: seq<GroupRef>, i: nat, base: seq<GroupRef>, s: seq<GroupRef>, limit: nat, n: nat)
    requires i < |list| && (list[i] in s || Total(st, base) < limit)
    requires StopsAt(st, list, i + 1, if list[i] in s then base + [list[i]] else base, s, limit, n)
    ensures StopsAt(st, list, i, base, s, limit, n)
  {
    var base' := if list[i] in s then base + [list[i]] else base;
    PoolNext(list, i, base, s, n);
    PoolFirst(list, i, base, s);
    forall p | i <= p < n && list[p] !in s ensures Total(st, PoolAt(list, i, base, s, p)) < limit {
      if p > i {
        PoolNext(list, i, base, s, p);
        assert Total(st, PoolAt(list, i + 1, base', s, p)) < limit;
      }
    }
    hide PoolAt, Total;
  }

  // ---------------------------------------------------------------- what offering achieves

  /** Offering a list to a pool serves it first come, first served, and stops where the pool is full. */
  lemma {:induction false} ScanServes(st: Store, list: seq<GroupRef>, i: nat, selected: seq<GroupRef>, desired: nat)
    requires i <= |list| && CanBeOffered(st, list, i, selected)
    ensures var (s, n) := Scan(st, list, i, selected, desired);
            && FirstFit(st, list, i, selected, s, desired) && StopsAt(st, list, i, selected, s, desired, n)
            && ComesFrom(s, selected, list[i..])
    decreases |list| - i
  {
    hide CanBeOffered, PoolAt, FirstFit, StopsAt, Served, ComesFrom, Total, Size, Invited, NoDuplicates;
    var (s, n) := Scan(st, list, i, selected, desired);
    OfferedNone(st, list, i, selected);
    if i == |list| {
      NothingLeft(st, list, selected, desired);
    } else {
      var takes := !Invited(st, list[i]) && desired >= Total(st, selected) + Size(st, list[i]);
      if takes || Total(st, selected) < desired {
        OfferedNext(st, list, i, selected, takes);
        ScanServes(st, list, i + 1, After(list, i, selected, takes), desired);
        OfferedOne(st, list, i, selected, s, desired, takes);
        ServedFirst(st, list, i, selected, s, desired);
        StopsLater(st, list, i, selected, s, desired, n);
      } else {
        FullTakesNone(st, list, i, selected, desired);
        StopsHere(st, list, i, selected, desired);
      }
    }
  }

  lemma NothingLeft(st: Store, list: seq<GroupRef>, base: seq<GroupRef>, limit: nat)
    ensures FirstFit(st, list, |list|, base, base, limit) && StopsAt(st, list, |list|, base, base, limit, |list|)
  {
    PoolFirst(list, |list|, base, base);
  }

  lemma StopsHere(st: Store, list: seq<GroupRef>, i: nat, base: seq<GroupRef>, limit: nat)
    requires CanBeOffered(st, list, i, base) && i < |list| && Total(st, base) >= limit
    ensures StopsAt(st, list, i, base, base, limit, i)
  {
    PoolFirst(list, i, base, base);
  }
}
