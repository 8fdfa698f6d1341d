/** The condition-table compiler (contrib/convertConditions/ConvertConditions.py): rows with up to
    three conditions each are turned into ids of one shared table of numbered entries, where an entry
    is either a condition or the AND of two earlier entries. */
module Conditions {

  /** A condition type with its two values; types that are not positive stand for no condition. */
  datatype Cond = Cond(c: int, v1: int, v2: int)

  datatype Entry = Entry(id: nat, what: Cond)

  const AND := -1

  const FIRST := Entry(0, Cond(0, 0, 0))

  // ---------------------------------------------------------------- the table of entries

  /** Entry i has id i. */
  ghost predicate Dense(list: seq<Entry>) {
    list != [] && list[0] == FIRST && forall i :: 0 <= i < |list| ==> list[i].id == i
  }

  /** An entry joins two entries that come before it, or is something this compiler does not look into:
      a condition, or whatever else a table from earlier conversions may hold. */
  ghost predicate Grounded(list: seq<Entry>) {
    forall i :: 1 <= i < |list| ==> Known(list[i].what, i)
  }

  predicate Known(k: Cond, before: nat) {
    k.c != 0 && (k.c == AND ==> 1 <= k.v1 < before && 1 <= k.v2 < before)
  }

  function Swapped(k: Cond): Cond {
    Cond(k.c, k.v2, k.v1)
  }

  /** No condition and no pair of entries, in whichever order, is stored twice. */
  ghost predicate Unique(list: seq<Entry>) {
    forall i, j :: 1 <= i < j < |list| ==> list[i].what != list[j].what && (list[i].what.c == AND ==> list[i].what != Swapped(list[j].what))
  }

  ghost predicate Good(list: seq<Entry>) {
    Dense(list) && Grounded(list) && Unique(list)
  }

  /** Whether an entry is fulfilled, given which conditions are. */
  ghost predicate Holds(list: seq<Entry>, id: nat, env: Cond -> bool)
    requires Grounded(list) && id < |list|
    decreases id
  {
    var k := list[id].what;
    if id > 0 && k.c == AND then Holds(list, k.v1, env) && Holds(list, k.v2, env) else env(k)
  }

  /** The first entry from position i on that is the one looked for, by its id; 0 if there is none. */
  function FindFrom(list: seq<Entry>, i: nat, k: Cond): nat
    requires i <= |list|
    decreases |list| - i
  {
    if i == |list| then 0 else if list[i].what == k then list[i].id else FindFrom(list, i + 1, k)
  }

  function Find(list: seq<Entry>, k: Cond): nat {
    FindFrom(list, 0, k)
  }

  function Add(list: seq<Entry>, k: Cond): seq<Entry> {
    list + [Entry(|list|, k)]
  }

  lemma {:induction false} FindFromMeans(list: seq<Entry>, i: nat, k: Cond)
    requires Dense(list) && i <= |list| && k.c != 0
    ensures var n := FindFrom(list, i, k);
            && n < |list| && (n > 0 ==> i <= n && list[n].what == k)
            && (n == 0 ==> forall j :: i <= j < |list| ==> list[j].what != k)
    decreases |list| - i
  {
    if i < |list| && list[i].what != k {
      FindFromMeans(list, i + 1, k);
    }
  }

  lemma FindMeans(list: seq<Entry>, k: Cond)
    requires Dense(list) && k.c != 0
    ensures var n := Find(list, k);
            n < |list| && (n > 0 ==> list[n].what == k) && (n == 0 ==> forall j :: 0 <= j < |list| ==> list[j].what != k)
  {
    FindFromMeans(list, 0, k);
  }

  /** What has been found stays found as the table grows. */
  lemma FindStays(list: seq<Entry>, list': seq<Entry>, k: Cond)
    requires Good(list) && Good(list') && list <= list' && k.c != 0 && Find(list, k) > 0
    ensures Find(list', k) == Find(list, k)
  {
    FindMeans(list, k);
    FindMeans(list', k);
    var n, n' := Find(list, k), Find(list', k);
    assert list'[n].what == k;
  }

  /** A new entry may be stored if it is not there yet. */
  lemma AddKeeps(list: seq<Entry>, k: Cond)
    requires Good(list) && Known(k, |list|) && Find(list, k) == 0 && (k.c == AND ==> Find(list, Swapped(k)) == 0)
    ensures Good(Add(list, k)) && list <= Add(list, k) && |list| > 0
  {
    FindMeans(list, k);
    if k.c == AND { FindMeans(list, Swapped(k)); }
    var list' := Add(list, k);
    forall i, j | 1 <= i < j < |list'|
      ensures list'[i].what != list'[j].what && (list'[i].what.c == AND ==> list'[i].what != Swapped(list'[j].what))
    {
      if j < |list| { assert list'[i] == list[i] && list'[j] == list[j]; }
    }
  }

  /** Growing the table does not change what its entries mean. */
  lemma {:induction false} HoldsStays(list: seq<Entry>, list': seq<Entry>, id: nat, env: Cond -> bool)
    requires Grounded(list) && Grounded(list') && list <= list' && id < |list|
    ensures Holds(list', id, env) == Holds(list, id, env)
    decreases id
  {
    var k := list[id].what;
    assert list'[id] == list[id];
    if id > 0 && k.c == AND {
      assert Known(k, id);
      HoldsStays(list, list', k.v1, env);
      HoldsStays(list, list', k.v2, env);
    }
  }

  // ---------------------------------------------------------------- joining entries

  function And(a: nat, b: nat): Cond {
    Cond(AND, a, b)
  }

  /** The entry that joins a and b, in this order or the other; 0 if there is none. */
  function FindBoth(list: seq<Entry>, a: nat, b: nat): nat {
    if Find(list, And(a, b)) != 0 then Find(list, And(a, b)) else Find(list, And(b, a))
  }

  /** The entry means that both a and b are fulfilled. */
  ghost predicate Joins(list: seq<Entry>, id: nat, a: nat, b: nat) {
    && Grounded(list) && 0 < id < |list| && a < |list| && b < |list|
    && forall env :: Holds(list, id, env) == (Holds(list, a, env) && Holds(list, b, env))
  }

  lemma FindBothMeans(list: seq<Entry>, a: nat, b: nat)
    requires Good(list)
    ensures var n := FindBoth(list, a, b);
            (n > 0 ==> Joins(list, n, a, b)) && (n == 0 ==> Find(list, And(a, b)) == 0 && Find(list, And(b, a)) == 0)
  {
    FindMeans(list, And(a, b));
    FindMeans(list, And(b, a));
    var n := FindBoth(list, a, b);
    if n > 0 {
      assert Known(list[n].what, n);
    }
  }

  lemma AddedJoins(list: seq<Entry>, a: nat, b: nat)
    requires Good(list) && 1 <= a < |list| && 1 <= b < |list| && FindBoth(list, a, b) == 0
    ensures var list' := Add(list, And(a, b)); Good(list') && list <= list' && Joins(list', |list|, a, b)
  {
    FindBothMeans(list, a, b);
    AddKeeps(list, And(a, b));
    var list' := Add(list, And(a, b));
    assert list'[|list|].what == And(a, b);
  }

  /** Two conditions: the entry that joins them, which is stored if it is missing. */
  function Pair(list: seq<Entry>, f0: nat, f1: nat): (seq<Entry>, nat) {
    var n := FindBoth(list, f1, f0);
    if n > 0 then (list, n) else (Add(list, And(f1, f0)), |list|)
  }

  lemma PairMeans(list: seq<Entry>, f0: nat, f1: nat)
    requires Good(list) && 1 <= f0 < |list| && 1 <= f1 < |list|
    ensures var (list', n) := Pair(list, f0, f1); Good(list') && list <= list' && Joins(list', n, f1, f0)
  {
    FindBothMeans(list, f1, f0);
    if FindBoth(list, f1, f0) == 0 { AddedJoins(list, f1, f0); }
  }

  // ---------------------------------------------------------------- three conditions

  /** The entry that n and f join to means all of three entries. */
  ghost predicate Completes(list: seq<Entry>, n: nat, f: nat, fs: seq<nat>) {
    && Grounded(list) && |fs| == 3 && 1 <= n < |list| && 1 <= f < |list| && (forall i :: 0 <= i < 3 ==> 1 <= fs[i] < |list|)
    && forall env :: (Holds(list, n, env) && Holds(list, f, env)) == (Holds(list, fs[0], env) && Holds(list, fs[1], env) && Holds(list, fs[2], env))
  }

  ghost predicate JoinsAll(list: seq<Entry>, id: nat, fs: seq<nat>) {
    && Grounded(list) && |fs| == 3 && 0 < id < |list| && (forall i :: 0 <= i < 3 ==> 1 <= fs[i] < |list|)
    && forall env :: Holds(list, id, env) == (Holds(list, fs[0], env) && Holds(list, fs[1], env) && Holds(list, fs[2], env))
  }

  /** From position i on, the first pair found that has been joined with its third condition. */
  function FindLink(list: seq<Entry>, ns: seq<nat>, fs: seq<nat>, i: nat): nat
    requires |ns| == |fs| == 3 && i <= 3
    decreases 3 - i
  {
    if i == 3 then 0
    else if ns[i] > 0 && FindBoth(list, ns[i], fs[i]) > 0 then FindBoth(list, ns[i], fs[i])
    else FindLink(list, ns, fs, i + 1)
  }

  /** Which two of the three conditions have been joined already: entry i leaves out condition i. */
  function Pairs(list: seq<Entry>, fs: seq<nat>): seq<nat>
    requires |fs| == 3
  {
    [FindBoth(list, fs[1], fs[2]), FindBoth(list, fs[0], fs[2]), FindBoth(list, fs[0], fs[1])]
  }

  /** Three conditions: two of them are joined, if none are yet the last two, and the third with
      them, using what is in the table where that is possible. */
  function Triple(list: seq<Entry>, fs: seq<nat>): (seq<Entry>, nat)
    requires |fs| == 3
  {
    var ns := Pairs(list, fs);
    if ns == [0, 0, 0] then Link(Add(list, And(fs[1], fs[2])), [|list|, 0, 0], fs) else Link(list, ns, fs)
  }

  function Link(list: seq<Entry>, ns: seq<nat>, fs: seq<nat>): (seq<Entry>, nat)
    requires |ns| == |fs| == 3
  {
    var n := FindLink(list, ns, fs, 0);
    if n > 0 || ns == [0, 0, 0] then (list, n)
    else
      var i := if ns[0] > 0 then 0 else if ns[1] > 0 then 1 else 2;
      (Add(list, And(fs[i], ns[i])), |list|)
  }

  lemma {:induction false} FindLinkMeans(list: seq<Entry>, ns: seq<nat>, fs: seq<nat>, i: nat)
    requires Good(list) && |ns| == |fs| == 3 && i <= 3
    requires forall j :: 0 <= j < 3 && ns[j] > 0 ==> Completes(list, ns[j], fs[j], fs)
    ensures var n := FindLink(list, ns, fs, i);
            && (n > 0 ==> JoinsAll(list, n, fs))
            && (n == 0 ==> forall j :: i <= j < 3 && ns[j] > 0 ==> FindBoth(list, ns[j], fs[j]) == 0)
    decreases 3 - i
  {
    hide FindBoth, Good;
    if i < 3 {
      if ns[i] > 0 { FindBothMeans(list, ns[i], fs[i]); }
      FindLinkMeans(list, ns, fs, i + 1);
    }
  }

  lemma LinkMeans(list: seq<Entry>, ns: seq<nat>, fs: seq<nat>)
    requires Good(list) && |ns| == |fs| == 3 && ns != [0, 0, 0]
    requires forall j :: 0 <= j < 3 && ns[j] > 0 ==> Completes(list, ns[j], fs[j], fs)
    ensures var (list', n) := Link(list, ns, fs); Good(list') && list <= list' && JoinsAll(list', n, fs)
  {
    FindLinkMeans(list, ns, fs, 0);
    if FindLink(list, ns, fs, 0) == 0 {
      var i := if ns[0] > 0 then 0 else if ns[1] > 0 then 1 else 2;
      assert ns[i] > 0 && Completes(list, ns[i], fs[i], fs) && FindBoth(list, ns[i], fs[i]) == 0;
      FindBothTurned(list, fs[i], ns[i]);
      AddedJoins(list, fs[i], ns[i]);
      LinkCompletes(list, Add(list, And(fs[i], ns[i])), |list|, ns[i], fs[i], fs);
    }
  }

  lemma FindBothTurned(list: seq<Entry>, a: nat, b: nat)
    ensures FindBoth(list, a, b) == 0 <==> FindBoth(list, b, a) == 0
  {
  }

  lemma LinkCompletes(list: seq<Entry>, list': seq<Entry>, id: nat, n: nat, f: nat, fs: seq<nat>)
    requires Completes(list, n, f, fs) && list <= list' && Joins(list', id, f, n)
    ensures JoinsAll(list', id, fs)
  {
    forall env: Cond -> bool
      ensures Holds(list', id, env) == (Holds(list', fs[0], env) && Holds(list', fs[1], env) && Holds(list', fs[2], env))
    {
      forall j | j in [n, f, fs[0], fs[1], fs[2]] { HoldsStays(list, list', j, env); }
      assert Holds(list, n, env) == Holds(list', n, env) && Holds(list, f, env) == Holds(list', f, env);
    }
  }

  /** Three conditions compile to an entry that means all of them. */
  lemma TripleMeans(list: seq<Entry>, fs: seq<nat>)
    requires Good(list) && |fs| == 3 && forall i :: 0 <= i < 3 ==> 1 <= fs[i] < |list|
    ensures var (list', n) := Triple(list, fs); Good(list') && list <= list' && JoinsAll(list', n, fs)
  {
    var ns := Pairs(list, fs);
    FindBothMeans(list, fs[1], fs[2]);
    FindBothMeans(list, fs[0], fs[2]);
    FindBothMeans(list, fs[0], fs[1]);
    if ns == [0, 0, 0] {
      AddedJoins(list, fs[1], fs[2]);
      hide FindBoth, Good, Link;
      LinkMeans(Add(list, And(fs[1], fs[2])), [|list|, 0, 0], fs);
    } else {
      hide FindBoth, Good, Link;
      LinkMeans(list, ns, fs);
    }
  }

  // ---------------------------------------------------------------- nothing is stored twice

  /** Entry n joins a and b, in one order or the other. */
  predicate IsJoin(list: seq<Entry>, a: nat, b: nat, n: nat) {
    1 <= n < |list| && (list[n].what == Cond(-1, a, b) || list[n].what == Cond(-1, b, a))
  }

  lemma FindBothFinds(list: seq<Entry>, a: nat, b: nat)
    requires Good(list)
    ensures var n := FindBoth(list, a, b);
            (n > 0 ==> IsJoin(list, a, b, n)) && forall m: nat :: IsJoin(list, a, b, m) ==> m == n
  {
    FindMeans(list, And(a, b));
    FindMeans(list, And(b, a));
    var n := FindBoth(list, a, b);
    forall m: nat | IsJoin(list, a, b, m) ensures m == n {
      assert n > 0;
      OneJoin(list, a, b, m, n);
    }
  }

  lemma OneJoin(list: seq<Entry>, a: nat, b: nat, m: nat, n: nat)
    requires Unique(list) && IsJoin(list, a, b, m) && IsJoin(list, a, b, n)
    ensures m == n
  {
  }

  /** Two conditions: an entry is added if and only if none joins them yet. */
  lemma PairSpares(list: seq<Entry>, f0: nat, f1: nat, n: nat)
    requires Good(list)
    ensures var (list', id) := Pair(list, f0, f1);
            && (IsJoin(list, f0, f1, n) ==> list' == list && id == n)
            && ((forall m: nat :: !IsJoin(list, f0, f1, m)) ==>
                  list' == list + [Entry(|list|, Cond(-1, f1, f0))] && id == |list|)
  {
    hide FindBoth, Good;
    FindBothFinds(list, f1, f0);
    assert forall m: nat :: IsJoin(list, f0, f1, m) <==> IsJoin(list, f1, f0, m);
    hide IsJoin;
  }

  /** Entry n joins two of the three conditions, all but condition j. */
  predicate IsPair(list: seq<Entry>, fs: seq<nat>, j: nat, n: nat)
    requires |fs| == 3
  {
    j < 3 && IsJoin(list, fs[if j == 0 then 1 else 0], fs[if j == 2 then 1 else 2], n)
  }

  /** And entry m joins that one with condition j. */
  predicate IsTriple(list: seq<Entry>, fs: seq<nat>, j: nat, n: nat, m: nat)
    requires |fs| == 3
  {
    IsPair(list, fs, j, n) && IsJoin(list, n, fs[j], m)
  }

  ghost predicate HasPair(list: seq<Entry>, fs: seq<nat>)
    requires |fs| == 3
  {
    exists j: nat, n: nat :: IsPair(list, fs, j, n)
  }

  ghost predicate HasTriple(list: seq<Entry>, fs: seq<nat>)
    requires |fs| == 3
  {
    exists j: nat, n: nat, m: nat :: IsTriple(list, fs, j, n, m)
  }

  lemma PairsFind(list: seq<Entry>, fs: seq<nat>, j: nat)
    requires Good(list) && |fs| == 3 && j < 3
    ensures var n := Pairs(list, fs)[j];
            (n > 0 ==> IsPair(list, fs, j, n)) && forall m: nat :: IsPair(list, fs, j, m) ==> m == n
  {
    FindBothFinds(list, fs[if j == 0 then 1 else 0], fs[if j == 2 then 1 else 2]);
    hide FindBoth, Good, IsJoin;
  }

  /** The search through the pairs finds a join if there is one. */
  lemma {:induction false} FindLinkFinds(list: seq<Entry>, ns: seq<nat>, fs: seq<nat>, i: nat)
    requires Good(list) && |ns| == |fs| == 3 && i <= 3
    ensures FindLink(list, ns, fs, i) > 0 <==> exists j: nat, m: nat :: i <= j < 3 && ns[j] > 0 && IsJoin(list, ns[j], fs[j], m)
    decreases 3 - i
  {
    hide FindBoth, Good, IsJoin;
    if i < 3 {
      FindBothFinds(list, ns[i], fs[i]);
      JoinPositive(list, ns[i], fs[i]);
      FindLinkFinds(list, ns, fs, i + 1);
    }
  }

  lemma JoinPositive(list: seq<Entry>, a: nat, b: nat)
    ensures forall m: nat :: IsJoin(list, a, b, m) ==> m > 0
  {
  }

  /** Three conditions: nothing is added if two of them, whichever, have been joined and that entry with
      the third; one entry if two of them have been joined but with no third; and two entries if no two
      have been joined. */
  lemma TripleSpares(list: seq<Entry>, fs: seq<nat>)
    requires Good(list) && |fs| == 3 && forall i :: 0 <= i < 3 ==> 1 <= fs[i] < |list|
    ensures var list' := Triple(list, fs).0;
            && (HasTriple(list, fs) ==> list' == list)
            && (HasPair(list, fs) && !HasTriple(list, fs) ==> |list'| == |list| + 1)
            && (!HasPair(list, fs) ==> |list'| == |list| + 2)
  {
    hide FindBoth, Good, IsJoin;
    var ns := Pairs(list, fs);
    PairsFind(list, fs, 0);
    PairsFind(list, fs, 1);
    PairsFind(list, fs, 2);
    hide Pairs, IsPair;
    FindLinkFinds(list, ns, fs, 0);
    if ns == [0, 0, 0] {
      assert !HasPair(list, fs) by { NoPair(list, fs); }
      NothingJoinedYet(list, fs);
    } else {
      TripleFound(list, ns, fs);
      hide HasPair, HasTriple, FindLink;
    }
  }

  lemma NoPair(list: seq<Entry>, fs: seq<nat>)
    requires |fs| == 3
    requires forall j: nat, m: nat :: j < 3 && IsPair(list, fs, j, m) ==> m == 0
    ensures !HasPair(list, fs)
  {
  }

  /** The join that has just been added has not been joined with anything. */
  lemma NothingJoinedYet(list: seq<Entry>, fs: seq<nat>)
    requires Good(list) && |fs| == 3 && (forall i :: 0 <= i < 3 ==> 1 <= fs[i] < |list|)
    requires FindBoth(list, fs[1], fs[2]) == 0
    ensures var list1 := Add(list, And(fs[1], fs[2]));
            FindLink(list1, [|list|, 0, 0], fs, 0) == 0
  {
    var list1 := Add(list, And(fs[1], fs[2]));
    AddedJoins(list, fs[1], fs[2]);
    FindLinkFinds(list1, [|list|, 0, 0], fs, 0);
    forall m: nat ensures !IsJoin(list1, |list|, fs[0], m) {
      if 1 <= m < |list1| { assert Known(list1[m].what, m); }
    }
    hide FindLink, FindBoth;
  }

  lemma TripleFound(list: seq<Entry>, ns: seq<nat>, fs: seq<nat>)
    requires |ns| == |fs| == 3 && ns != [0, 0, 0]
    requires forall j: nat :: j < 3 && ns[j] > 0 ==> IsPair(list, fs, j, ns[j])
    requires forall j: nat, m: nat :: j < 3 && IsPair(list, fs, j, m) ==> m == ns[j]
    ensures HasPair(list, fs)
    ensures HasTriple(list, fs) <==> exists j: nat, m: nat :: 0 <= j < 3 && ns[j] > 0 && IsJoin(list, ns[j], fs[j], m)
  {
    hide IsJoin;
    assert ns[0] > 0 || ns[1] > 0 || ns[2] > 0;
    if j: nat, m: nat :| 0 <= j < 3 && ns[j] > 0 && IsJoin(list, ns[j], fs[j], m) {
      assert IsTriple(list, fs, j, ns[j], m);
    }
    if HasTriple(list, fs) {
      var j: nat, n: nat, m: nat :| IsTriple(list, fs, j, n, m);
      JoinPositive(list, fs[if j == 0 then 1 else 0], fs[if j == 2 then 1 else 2]);
      assert IsPair(list, fs, j, n);
    }
  }

  // ---------------------------------------------------------------- rows

  predicate Larger(a: Cond, b: Cond) {
    a.c > b.c || (a.c == b.c && (a.v1 > b.v1 || (a.v1 == b.v1 && a.v2 > b.v2)))
  }

  const NOTHING := Cond(0, 0, 0)

  /** A row of a table with one, two or three condition columns. */
  predicate IsRow(row: seq<Cond>) {
    1 <= |row| <= 3
  }

  function Column(row: seq<Cond>, i: nat): Cond {
    if i < |row| then row[i] else NOTHING
  }

  /** The row's conditions, largest first. */
  function Ordered(row: seq<Cond>): (o: seq<Cond>)
    ensures |o| == 3
  {
    var a, b, c := Column(row, 0), Column(row, 1), Column(row, 2);
    var a, b := if |row| >= 2 && Larger(b, a) then b else a, if |row| >= 2 && Larger(b, a) then a else b;
    var b, c := if |row| >= 3 && Larger(c, b) then c else b, if |row| >= 3 && Larger(c, b) then b else c;
    var a, b := if |row| >= 3 && Larger(b, a) then b else a, if |row| >= 3 && Larger(b, a) then a else b;
    [a, b, c]
  }

  function Count(row: seq<Cond>): (n: nat)
    ensures n <= 3
  {
    var o := Ordered(row);
    (if o[0].c > 0 then 1 else 0) + (if o[1].c > 0 then 1 else 0) + (if o[2].c > 0 then 1 else 0)
  }

  /** Every condition of the row is fulfilled. */
  ghost predicate AllHold(row: seq<Cond>, env: Cond -> bool) {
    forall i :: 0 <= i < |row| && row[i].c > 0 ==> env(row[i])
  }

  ghost predicate Met(k: Cond, env: Cond -> bool) {
    k.c > 0 ==> env(k)
  }

  lemma AllHoldColumns(row: seq<Cond>, env: Cond -> bool)
    requires IsRow(row)
    ensures AllHold(row, env) <==> Met(Column(row, 0), env) && Met(Column(row, 1), env) && Met(Column(row, 2), env)
  {
    assert row[0] == Column(row, 0);
    assert |row| >= 2 ==> row[1] == Column(row, 1);
    assert |row| >= 3 ==> row[2] == Column(row, 2);
  }

  /** Ordering loses nothing. */
  lemma OrderedPermutes(row: seq<Cond>)
    ensures var o, a, b, c := Ordered(row), Column(row, 0), Column(row, 1), Column(row, 2);
            o == [a, b, c] || o == [a, c, b] || o == [b, a, c] || o == [b, c, a] || o == [c, a, b] || o == [c, b, a]
  {
  }

  /** The largest comes first: by type, then by the first value, then by the second. */
  lemma OrderedSorts(row: seq<Cond>, i: nat, j: nat)
    requires i < j < |row| <= 3
    ensures var (a, b) := (Ordered(row)[i], Ordered(row)[j]);
            a.c > b.c || (a.c == b.c && (a.v1 > b.v1 || (a.v1 == b.v1 && a.v2 >= b.v2)))
  {
  }

  /** The conditions come first. */
  lemma OrderedFront(row: seq<Cond>)
    requires IsRow(row)
    ensures var o := Ordered(row); forall i :: 0 <= i < 3 ==> (o[i].c > 0 <==> i < Count(row))
    ensures Count(row) <= |row|
  {
    var o := Ordered(row);
    assert o[0].c > 0 || o[1].c <= 0;
    assert o[1].c > 0 || o[2].c <= 0;
    assert |row| < 3 ==> o[2] == NOTHING;
    assert |row| < 2 ==> o[1] == NOTHING;
  }

  /** Ordering puts the conditions in front, and they are those of the row. */
  lemma OrderedMeans(row: seq<Cond>, env: Cond -> bool)
    requires IsRow(row)
    ensures var o := Ordered(row);
            && (forall i :: 0 <= i < 3 ==> (o[i].c > 0 <==> i < Count(row)))
            && Count(row) <= |row|
            && (AllHold(row, env) <==> forall i :: 0 <= i < Count(row) ==> env(o[i]))
  {
    OrderedPermutes(row);
    OrderedFront(row);
    AllHoldColumns(row, env);
    var o := Ordered(row);
    assert AllHold(row, env) <==> Met(o[0], env) && Met(o[1], env) && Met(o[2], env);
  }

  /** An entry that stands for a row. */
  ghost predicate Means(list: seq<Entry>, id: nat, row: seq<Cond>) {
    Grounded(list) && 0 < id < |list| && forall env :: Holds(list, id, env) <==> AllHold(row, env)
  }

  /** All conditions of the row are stored. */
  ghost predicate Stored(list: seq<Entry>, row: seq<Cond>) {
    forall i :: 0 <= i < Count(row) ==> Find(list, Ordered(row)[i]) > 0
  }

  function AddMissing(list: seq<Entry>, k: Cond): seq<Entry> {
    if Find(list, k) == 0 then Add(list, k) else list
  }

  /** The first phase: whatever condition of the row is not stored yet is. */
  function Store(list: seq<Entry>, row: seq<Cond>): seq<Entry> {
    var o, n := Ordered(row), Count(row);
    var l1 := if n >= 1 then AddMissing(list, o[0]) else list;
    var l2 := if n >= 2 then AddMissing(l1, o[1]) else l1;
    if n >= 3 then AddMissing(l2, o[2]) else l2
  }

  lemma AddMissingKeeps(list: seq<Entry>, k: Cond)
    requires Good(list) && k.c > 0
    ensures var list' := AddMissing(list, k); Good(list') && list <= list' && Find(list', k) > 0
  {
    FindMeans(list, k);
    if Find(list, k) == 0 {
      AddKeeps(list, k);
      assert Add(list, k)[|list|].what == k;
      FindMeans(Add(list, k), k);
    }
  }

  lemma StoreKeeps(list: seq<Entry>, row: seq<Cond>, env: Cond -> bool)
    requires Good(list) && IsRow(row)
    ensures var list' := Store(list, row); Good(list') && list <= list' && Stored(list', row)
  {
    OrderedMeans(row, env);
    var o, n := Ordered(row), Count(row);
    hide Ordered, Count, Good, Find, AddMissing;
    if n >= 1 {
      AddMissingKeeps(list, o[0]);
      var l1 := AddMissing(list, o[0]);
      if n >= 2 {
        AddMissingKeeps(l1, o[1]);
        var l2 := AddMissing(l1, o[1]);
        FindStays(l1, l2, o[0]);
        if n >= 3 {
          AddMissingKeeps(l2, o[2]);
          FindStays(l2, AddMissing(l2, o[2]), o[0]);
          FindStays(l2, AddMissing(l2, o[2]), o[1]);
        }
      }
    }
  }

  /** Nothing else is stored: every entry added is a condition of the row. */
  lemma StoreSpares(list: seq<Entry>, row: seq<Cond>, n: nat)
    requires IsRow(row) && |list| <= n < |Store(list, row)|
    ensures Store(list, row)[n].what in row && Store(list, row)[n].what.c > 0
  {
    OrderedPermutes(row);
    OrderedFront(row);
    hide Find;
  }

  lemma StoredStays(list: seq<Entry>, list': seq<Entry>, row: seq<Cond>, env: Cond -> bool)
    requires Good(list) && Good(list') && list <= list' && IsRow(row) && Stored(list, row)
    ensures Stored(list', row)
  {
    OrderedMeans(row, env);
    forall i | 0 <= i < Count(row) ensures Find(list', Ordered(row)[i]) > 0 {
      FindStays(list, list', Ordered(row)[i]);
    }
  }

  /** The ids of the row's conditions. */
  function Founds(list: seq<Entry>, row: seq<Cond>): (fs: seq<nat>)
    ensures |fs| == 3
  {
    var o, n := Ordered(row), Count(row);
    [if n >= 1 then Find(list, o[0]) else 0, if n >= 2 then Find(list, o[1]) else 0, if n >= 3 then Find(list, o[2]) else 0]
  }

  /** The entry for a row in the phase of its number of conditions; 0 stands for the script's error
      message that a condition was not found. */
  function Emit(list: seq<Entry>, row: seq<Cond>): (seq<Entry>, nat) {
    var fs, n := Founds(list, row), Count(row);
    if exists i :: 0 <= i < n && fs[i] == 0 then (list, 0)
    else if n == 3 then Triple(list, fs)
    else if n == 2 then Pair(list, fs[0], fs[1])
    else (list, fs[0])
  }

  /** A row whose conditions are stored compiles to an entry that means the row. */
  lemma EmitMeans(list: seq<Entry>, row: seq<Cond>)
    requires Good(list) && IsRow(row) && Count(row) >= 1 && Stored(list, row)
    ensures var (list', n) := Emit(list, row); Good(list') && list <= list' && Means(list', n, row)
  {
    var fs, n := Founds(list, row), Count(row);
    FoundsHold(list, row);
    hide Founds, Ordered, Count, Find, Pair, Triple;
    if n == 3 {
      TripleMeans(list, fs);
      MeansRow(list, Triple(list, fs).0, Triple(list, fs).1, fs, row);
    } else if n == 2 {
      PairMeans(list, fs[0], fs[1]);
      MeansRow(list, Pair(list, fs[0], fs[1]).0, Pair(list, fs[0], fs[1]).1, fs, row);
    } else {
      MeansRow(list, list, fs[0], fs, row);
    }
    hide Good;
  }

  lemma FoundsHold(list: seq<Entry>, row: seq<Cond>)
    requires Good(list) && IsRow(row) && Stored(list, row)
    ensures var fs := Founds(list, row);
            && (forall i :: 0 <= i < Count(row) ==> 1 <= fs[i] < |list|)
            && forall env :: AllHold(row, env) <==> forall i :: 0 <= i < Count(row) ==> Holds(list, fs[i], env)
  {
    FoundsAre(list, row);
    var fs := Founds(list, row);
    forall env: Cond -> bool ensures AllHold(row, env) <==> forall i :: 0 <= i < Count(row) ==> Holds(list, fs[i], env) {
      OrderedMeans(row, env);
      assert forall i :: 0 <= i < Count(row) ==> Holds(list, fs[i], env) == env(Ordered(row)[i]);
    }
  }

  lemma FoundsAre(list: seq<Entry>, row: seq<Cond>)
    requires Good(list) && IsRow(row) && Stored(list, row)
    ensures var fs, o := Founds(list, row), Ordered(row);
            forall i :: 0 <= i < Count(row) ==> 1 <= fs[i] < |list| && list[fs[i]].what == o[i] && o[i].c > 0
  {
    OrderedFront(row);
    forall i | 0 <= i < Count(row) { FindMeans(list, Ordered(row)[i]); }
  }

  lemma MeansRow(list: seq<Entry>, list': seq<Entry>, id: nat, fs: seq<nat>, row: seq<Cond>)
    requires Good(list) && Good(list') && list <= list' && |fs| == 3 && 1 <= Count(row)
    requires forall i :: 0 <= i < Count(row) ==> 1 <= fs[i] < |list|
    requires forall env :: AllHold(row, env) <==> forall i :: 0 <= i < Count(row) ==> Holds(list, fs[i], env)
    requires match Count(row)
             case 1 => id == fs[0]
             case 2 => Joins(list', id, fs[1], fs[0])
             case _ => JoinsAll(list', id, fs)
    ensures Means(list', id, row)
  {
    hide Count, AllHold;
    forall env: Cond -> bool ensures Holds(list', id, env) <==> AllHold(row, env) {
      forall i | 0 <= i < Count(row) ensures Holds(list', fs[i], env) == Holds(list, fs[i], env) {
        HoldsStays(list, list', fs[i], env);
      }
    }
  }
}
