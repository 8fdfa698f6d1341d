/** The pools in which the queue collects the groups it is about to invite
    (BattleGroundQueue::SelectionPool, src/game/BattleGround/BattleGroundQueue.cpp). */
module SelectionPools {
  import opened QueueModel

  type Store = map<GroupRef, GroupQueueInfo>

  function Size(st: Store, g: GroupRef): nat {
    if g in st then |st[g].players| else 0
  }

  function Total(st: Store, s: seq<GroupRef>): nat {
    if s == [] then 0 else Total(st, s[..|s| - 1]) + Size(st, s[|s| - 1])
  }

  predicate Invited(st: Store, g: GroupRef) {
    g in st && st[g].invitedTo != 0
  }

  lemma TotalNext(st: Store, s: seq<GroupRef>, g: GroupRef)
    ensures Total(st, s + [g]) == Total(st, s) + Size(st, g)
  {
    assert (s + [g])[..|s|] == s;
  }

  lemma {:induction false} TotalWithout(st: Store, s: seq<GroupRef>, k: nat)
    requires k < |s|
    ensures Total(st, s) == Total(st, s[..k] + s[k + 1..]) + Size(st, s[k])
  {
    if k == |s| - 1 {
      assert s[..k] + s[k + 1..] == s[..k];
    } else {
      var t := s[..|s| - 1];
      TotalWithout(st, t, k);
      assert s[..k] + s[k + 1..] == (t[..k] + t[k + 1..]) + [s[|s| - 1]];
      TotalNext(st, t[..k] + t[k + 1..], s[|s| - 1]);
    }
  }

  lemma {:induction false} TotalZero(st: Store, s: seq<GroupRef>)
    requires forall g :: g in s ==> Size(st, g) > 0
    ensures Total(st, s) == 0 <==> s == []
  {
    if s != [] {
      assert s[|s| - 1] in s;
    }
  }

  // ---------------------------------------------------------------- kicking

  function Gap(a: nat, b: nat): nat {
    if a < b then b - a else a - b
  }

  /** The group to kick for `size`: the last one whose size is within one of it, and if there is
      none the last one among the largest. */
  ghost predicate IsKick(st: Store, s: seq<GroupRef>, size: nat, k: nat) {
    && k < |s|
    && if exists i :: 0 <= i < |s| && Gap(Size(st, s[i]), size) <= 1
       then Gap(Size(st, s[k]), size) <= 1 && forall i :: k < i < |s| ==> Gap(Size(st, s[i]), size) > 1
       else (forall i :: 0 <= i < |s| ==> Size(st, s[i]) <= Size(st, s[k]))
            && forall i :: k < i < |s| ==> Size(st, s[i]) < Size(st, s[k])
  }

  /** There is one such group and no other. */
  lemma KickUnique(st: Store, s: seq<GroupRef>, size: nat, j: nat, k: nat)
    requires IsKick(st, s, size, j) && IsKick(st, s, size, k)
    ensures j == k
  {
  }

  /** The candidate after looking at the first n groups, and whether it fits. */
  function KickScan(st: Store, s: seq<GroupRef>, size: nat, n: nat): (c: (bool, nat))
    requires n <= |s|
    ensures c.1 < n || (n == 0 && c.1 == 0)
  {
    if n == 0 then (false, 0)
    else
      var (found, k) := KickScan(st, s, size, n - 1);
      var here := Size(st, s[n - 1]);
      if Gap(here, size) <= 1 then (true, n - 1)
      else if !found && here >= Size(st, s[k]) then (false, n - 1)
      else (found, k)
  }

  lemma {:induction false} KickScanMeans(st: Store, s: seq<GroupRef>, size: nat, n: nat)
    requires n <= |s|
    ensures var (found, k) := KickScan(st, s, size, n);
            && (found <==> exists i :: 0 <= i < n && Gap(Size(st, s[i]), size) <= 1)
            && (found ==> Gap(Size(st, s[k]), size) <= 1 && forall i :: k < i < n ==> Gap(Size(st, s[i]), size) > 1)
            && (!found ==> (forall i :: 0 <= i < n ==> Size(st, s[i]) <= Size(st, s[k]))
                           && forall i :: k < i < n ==> Size(st, s[i]) < Size(st, s[k]))
  {
    hide Size, Gap;
    if n > 0 {
      KickScanMeans(st, s, size, n - 1);
    }
  }

  function KickIndex(st: Store, s: seq<GroupRef>, size: nat): (k: nat)
    requires s != []
    ensures k < |s|
  {
    KickScan(st, s, size, |s|).1
  }

  /** The scan finds the group it is meant to find. */
  lemma KickIndexIsKick(st: Store, s: seq<GroupRef>, size: nat)
    requires s != []
    ensures IsKick(st, s, size, KickIndex(st, s, size))
  {
    KickScanMeans(st, s, size, |s|);
  }

  /** What is left of a pool after KickGroup, and whether new groups are then offered to it. */
  function Kicked(st: Store, s: seq<GroupRef>, size: nat): (seq<GroupRef>, bool) {
    if s == [] then ([], true)
    else
      var k := KickIndex(st, s, size);
      (s[..k] + s[k + 1..], Size(st, s[k]) > size + 1)
  }

  class SelectionPool {
    var selected: seq<GroupRef>
    var playerCount: nat

    ghost predicate Counts(st: Store)
      reads this
    {
      playerCount == Total(st, selected)
    }

    constructor ()
      ensures selected == [] && playerCount == 0
    {
      selected, playerCount := [], 0;
    }

    method Init()
      modifies this
      ensures selected == [] && playerCount == 0
    {
      selected, playerCount := [], 0;
    }

    /** Takes a group in if it is free and there is room for it under `desiredCount`. The answer
        is whether it makes sense to go on offering groups. */
    method AddGroup(st: Store, g: GroupRef, desiredCount: nat) returns (more: bool)
      requires g in st && Counts(st)
      modifies this
      ensures Counts(st)
      ensures var fits := !Invited(st, g) && desiredCount >= old(playerCount) + Size(st, g);
              && selected == (if fits then old(selected) + [g] else old(selected))
              && (more <==> fits || playerCount < desiredCount)
    {
      TotalNext(st, selected, g);
      if st[g].invitedTo == 0 && desiredCount >= playerCount + |st[g].players| {
        selected := selected + [g];
        playerCount := playerCount + |st[g].players|;
        return true;
      }
      return playerCount < desiredCount;
    }

    /** Throws out the group that fits `size` best. The answer is whether new groups should be
        offered in its place: not if it was of the wanted size or smaller. */
    method KickGroup(st: Store, size: nat) returns (refill: bool)
      requires Counts(st)
      requires forall g :: g in selected ==> Size(st, g) > 0
      modifies this
      ensures Counts(st)
      ensures (selected, refill) == Kicked(st, old(selected), size)
    {
      if selected == [] { return true; }
      TotalZero(st, selected);
      var found, k := FindKick(st, size);
      hide KickScan, Total;
      if playerCount != 0 {
        TotalWithout(st, selected, k);
        var kicked := selected[k];
        selected := selected[..k] + selected[k + 1..];
        playerCount := playerCount - Size(st, kicked);
        if Size(st, kicked) <= size + 1 { return false; }
      }
      return true;
    }

    /** Looks for the last group that fits the size but for one player, failing that for the last of the
        largest. */
    method FindKick(st: Store, size: nat) returns (found: bool, k: nat)
      requires selected != []
      ensures k < |selected| && (found, k) == KickScan(st, selected, size, |selected|)
    {
      found, k := false, 0;
      for i := 0 to |selected|
        invariant k < |selected|
        invariant (found, k) == KickScan(st, selected, size, i)
      {
        if Gap(Size(st, selected[i]), size) <= 1 {
          k, found := i, true;
        } else if !found && Size(st, selected[i]) >= Size(st, selected[k]) {
          k := i;
        }
      }
    }
  }

  // ---------------------------------------------------------------- offering a list to a pool

  /** What is selected stands in the part of the list looked at so far, once, and is free. */
  ghost predicate Picked(st: Store, list: seq<GroupRef>, upTo: nat, selected: seq<GroupRef>) {
    && upTo <= |list|
    && NoDuplicates(selected)
    && forall g :: g in selected ==> g in list[..upTo] && !Invited(st, g)
  }

  /** Offering list[i..] one by one until the pool says that it is full: the selection then, and
      the position reached. */
  function Scan(st: Store, list: seq<GroupRef>, i: nat, selected: seq<GroupRef>, desired: nat): (seq<GroupRef>, nat)
    requires i <= |list|
    decreases |list| - i
  {
    if i == |list| then (selected, i)
    else if !Invited(st, list[i]) && desired >= Total(st, selected) + Size(st, list[i]) then
      Scan(st, list, i + 1, selected + [list[i]], desired)
    else if Total(st, selected) < desired then Scan(st, list, i + 1, selected, desired)
    else (selected, i)
  }

  lemma {:induction false} ScanKeeps(st: Store, list: seq<GroupRef>, i: nat, selected: seq<GroupRef>, desired: nat)
    requires NoDuplicates(list) && Picked(st, list, i, selected)
    ensures var (s, n) := Scan(st, list, i, selected, desired);
            && i <= n <= |list| && Picked(st, list, n, s)
            && (n == i ==> s == selected)
            && (Total(st, s) <= desired || s == selected)
            && (n < |list| ==> Total(st, s) >= desired)
    decreases |list| - i
  {
    if i < |list| {
      assert list[..i + 1] == list[..i] + [list[i]];
      assert list[i] !in list[..i];
      TotalNext(st, selected, list[i]);
      if !Invited(st, list[i]) && desired >= Total(st, selected) + Size(st, list[i]) {
        ScanKeeps(st, list, i + 1, selected + [list[i]], desired);
      } else if Total(st, selected) < desired {
        ScanKeeps(st, list, i + 1, selected, desired);
      }
    }
  }

  method Offer(pool: SelectionPool, st: Store, list: seq<GroupRef>, start: nat, desired: nat) returns (index: nat)
    requires start <= |list| && pool.Counts(st)
    requires forall g :: g in list ==> g in st
    modifies pool
    ensures pool.Counts(st)
    ensures (pool.selected, index) == Scan(st, list, start, old(pool.selected), desired)
  {
    index := start;
    while index < |list|
      invariant start <= index <= |list| && pool.Counts(st)
      invariant Scan(st, list, index, pool.selected, desired) == Scan(st, list, start, old(pool.selected), desired)
    {
      var more := pool.AddGroup(st, list[index], desired);
      if !more { return; }
      index := index + 1;
    }
  }
}
