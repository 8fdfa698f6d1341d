/** The whole run of contrib/convertConditions/ConvertConditions.py: four phases over the rows of all
    tables. Phase 0 stores the single conditions, phase n compiles the rows with n of them. */
module ConditionRun {
  import opened Conditions

  /** An UPDATE statement for a row: its condition_id is set. */
  datatype Update = Update(row: nat, id: nat)

  datatype State = State(list: seq<Entry>, updates: seq<Update>)

  /** Before the first phase: the table, with what old conditions it has been given, and no updates. */
  function Start(list: seq<Entry>): State {
    State(list, [])
  }

  /** A table with n condition columns is read in the phases up to n. */
  predicate Reads(phase: nat, row: seq<Cond>) {
    phase <= |row|
  }

  function Step(s: State, phase: nat, r: nat, row: seq<Cond>): State {
    if Count(row) == 0 then s
    else if phase == 0 then s.(list := Store(s.list, row))
    else if phase != Count(row) then s
    else
      var (list, id) := Emit(s.list, row);
      State(list, if id == 0 then s.updates else s.updates + [Update(r, id)])
  }

  /** After the first n rows of a phase. */
  function Phase(s: State, phase: nat, rows: seq<seq<Cond>>, n: nat): State
    requires n <= |rows|
  {
    if n == 0 then s
    else
      var s1 := Phase(s, phase, rows, n - 1);
      if Reads(phase, rows[n - 1]) then Step(s1, phase, n - 1, rows[n - 1]) else s1
  }

  /** After the first p phases. */
  function Phases(list: seq<Entry>, rows: seq<seq<Cond>>, p: nat): State {
    if p == 0 then Start(list) else Phase(Phases(list, rows, p - 1), p - 1, rows, |rows|)
  }

  function Convert(list: seq<Entry>, rows: seq<seq<Cond>>): State {
    Phases(list, rows, 4)
  }

  // ---------------------------------------------------------------- what the phases achieve

  ghost predicate Rows(rows: seq<seq<Cond>>) {
    forall r :: 0 <= r < |rows| ==> IsRow(rows[r])
  }

  /** The row has been compiled once n rows of the phase have been read. */
  predicate Done(rows: seq<seq<Cond>>, phase: nat, n: nat, r: nat) {
    r < |rows| && 1 <= Count(rows[r]) && (Count(rows[r]) < phase || (Count(rows[r]) == phase && r < n))
  }

  ghost predicate AllStored(list: seq<Entry>, rows: seq<seq<Cond>>, n: nat)
    requires n <= |rows|
  {
    forall r :: 0 <= r < n ==> Stored(list, rows[r])
  }

  /** Updates are right: each sets a row that is done to an entry that means it. */
  ghost predicate Right(list: seq<Entry>, updates: seq<Update>, rows: seq<seq<Cond>>, phase: nat, n: nat) {
    forall k :: 0 <= k < |updates| ==> Done(rows, phase, n, updates[k].row) && Means(list, updates[k].id, rows[updates[k].row])
  }

  ghost predicate HasUpdate(updates: seq<Update>, r: nat) {
    exists k :: 0 <= k < |updates| && updates[k].row == r
  }

  /** Every row that is done has an update, and no row has two. */
  ghost predicate OnceEach(updates: seq<Update>, rows: seq<seq<Cond>>, phase: nat, n: nat) {
    && (forall r: nat :: Done(rows, phase, n, r) ==> HasUpdate(updates, r))
    && (forall j, k :: 0 <= j < k < |updates| ==> updates[j].row != updates[k].row)
  }

  ghost predicate Compiled(s: State, rows: seq<seq<Cond>>, phase: nat, n: nat) {
    && Good(s.list) && AllStored(s.list, rows, |rows|)
    && Right(s.list, s.updates, rows, phase, n) && OnceEach(s.updates, rows, phase, n)
  }

  lemma MeansStays(list: seq<Entry>, list': seq<Entry>, id: nat, row: seq<Cond>)
    requires Means(list, id, row) && Grounded(list') && list <= list'
    ensures Means(list', id, row)
  {
    forall env: Cond -> bool ensures Holds(list', id, env) <==> AllHold(row, env) {
      HoldsStays(list, list', id, env);
    }
  }

  lemma AllStoredStays(list: seq<Entry>, list': seq<Entry>, rows: seq<seq<Cond>>, n: nat)
    requires Good(list) && Good(list') && list <= list' && Rows(rows) && n <= |rows| && AllStored(list, rows, n)
    ensures AllStored(list', rows, n)
  {
    forall r | 0 <= r < n ensures Stored(list', rows[r]) {
      StoredStays(list, list', rows[r], k => true);
    }
  }

  /** Phase 0 stores every condition. */
  lemma {:induction false} StoringPhase(list: seq<Entry>, rows: seq<seq<Cond>>, n: nat)
    requires Good(list) && Rows(rows) && n <= |rows|
    ensures var s := Phase(Start(list), 0, rows, n);
            Good(s.list) && list <= s.list && AllStored(s.list, rows, n) && s.updates == []
  {
    hide Good, Stored, Store, Count;
    if n > 0 {
      StoringPhase(list, rows, n - 1);
      var s1, row := Phase(Start(list), 0, rows, n - 1), rows[n - 1];
      assert IsRow(row);
      hide IsRow;
      StoreKeeps(s1.list, row, k => true);
      AllStoredStays(s1.list, Store(s1.list, row), rows, n - 1);
      NothingToStore(s1.list, row);
      hide Rows;
    }
  }

  lemma NothingToStore(list: seq<Entry>, row: seq<Cond>)
    ensures Count(row) == 0 ==> Store(list, row) == list
  {
  }

  /** One row of a later phase. */
  lemma CompileRow(s: State, rows: seq<seq<Cond>>, phase: nat, n: nat)
    requires Rows(rows) && 1 <= phase && n < |rows| && Compiled(s, rows, phase, n)
    ensures Compiled(Step(s, phase, n, rows[n]), rows, phase, n + 1) && s.list <= Step(s, phase, n, rows[n]).list
  {
    var row := rows[n];
    if Count(row) == phase {
      EmitMeans(s.list, row);
      AllStoredStays(s.list, Emit(s.list, row).0, rows, |rows|);
      hide Emit, Count, Good, AllStored, Stored;
      UpdateAdded(s, Emit(s.list, row).0, Emit(s.list, row).1, rows, phase, n);
    } else {
      assert forall r: nat :: Done(rows, phase, n + 1, r) == Done(rows, phase, n, r);
      hide Done, Good, AllStored, Means, HasUpdate;
    }
  }

  lemma DoneNext(rows: seq<seq<Cond>>, phase: nat, n: nat)
    requires n < |rows| && Count(rows[n]) == phase >= 1
    ensures !Done(rows, phase, n, n)
    ensures forall r: nat :: Done(rows, phase, n + 1, r) <==> Done(rows, phase, n, r) || r == n
  {
  }

  lemma UpdateAdded(s: State, list: seq<Entry>, id: nat, rows: seq<seq<Cond>>, phase: nat, n: nat)
    requires n < |rows| && Count(rows[n]) == phase >= 1 && s.list <= list && Grounded(list) && Means(list, id, rows[n])
    requires Right(s.list, s.updates, rows, phase, n) && OnceEach(s.updates, rows, phase, n)
    ensures var updates := s.updates + [Update(n, id)];
            Right(list, updates, rows, phase, n + 1) && OnceEach(updates, rows, phase, n + 1)
  {
    var updates := s.updates + [Update(n, id)];
    DoneNext(rows, phase, n);
    forall k | 0 <= k < |s.updates| ensures Means(list, updates[k].id, rows[updates[k].row]) && updates[k].row != n {
      MeansStays(s.list, list, s.updates[k].id, rows[s.updates[k].row]);
    }
    forall r: nat | Done(rows, phase, n + 1, r) ensures HasUpdate(updates, r) {
      if r == n {
        assert updates[|s.updates|].row == n;
      } else {
        assert Done(rows, phase, n, r) && HasUpdate(s.updates, r);
        var k :| 0 <= k < |s.updates| && s.updates[k].row == r;
        assert updates[k].row == r;
      }
    }
  }

  lemma {:induction false} CompilePhase(s: State, rows: seq<seq<Cond>>, phase: nat, n: nat)
    requires Rows(rows) && 1 <= phase && n <= |rows| && Compiled(s, rows, phase, 0)
    ensures Compiled(Phase(s, phase, rows, n), rows, phase, n) && s.list <= Phase(s, phase, rows, n).list
  {
    hide *;
    if n == 0 {
      NoRowYet(s, phase, rows);
    } else {
      var s1 := Phase(s, phase, rows, n - 1);
      CompilePhase(s, rows, phase, n - 1);
      CompileRow(s1, rows, phase, n - 1);
      SkippedRow(s, rows, phase, n);
    }
  }

  lemma NoRowYet(s: State, phase: nat, rows: seq<seq<Cond>>)
    ensures Phase(s, phase, rows, 0) == s
  {
  }

  /** A row that is not read in a phase has fewer conditions than that, so reading it would change
      nothing. */
  lemma SkippedRow(s: State, rows: seq<seq<Cond>>, phase: nat, n: nat)
    requires Rows(rows) && 1 <= phase && 0 < n <= |rows|
    ensures Phase(s, phase, rows, n) == Step(Phase(s, phase, rows, n - 1), phase, n - 1, rows[n - 1])
  {
    OrderedFront(rows[n - 1]);
  }

  lemma NextPhase(s: State, rows: seq<seq<Cond>>, phase: nat)
    requires Compiled(s, rows, phase, |rows|)
    ensures Compiled(s, rows, phase + 1, 0)
  {
    assert forall r: nat :: Done(rows, phase + 1, 0, r) == Done(rows, phase, |rows|, r);
  }

  lemma {:induction false} PhasesCompile(list: seq<Entry>, rows: seq<seq<Cond>>, p: nat)
    requires Good(list) && Rows(rows) && 1 <= p
    ensures Compiled(Phases(list, rows, p), rows, p, 0)
  {
    if p == 1 {
      assert Phases(list, rows, 0) == Start(list);
      StoringPhase(list, rows, |rows|);
    } else {
      PhasesCompile(list, rows, p - 1);
      CompilePhase(Phases(list, rows, p - 1), rows, p - 1, |rows|);
      NextPhase(Phases(list, rows, p), rows, p - 1);
    }
  }

  /** The whole conversion, whatever the rows and whatever well-formed table it starts from: ids are dense,
      entries refer to smaller ids only, nothing is stored twice; every row with a condition gets one
      update and no row gets more; and the entry it is set to means that all its conditions are fulfilled. */
  lemma ConversionIsRight(list: seq<Entry>, rows: seq<seq<Cond>>)
    requires Good(list) && Rows(rows)
    ensures var s := Convert(list, rows);
            && Good(s.list)
            && (forall k :: 0 <= k < |s.updates| ==>
                  && s.updates[k].row < |rows| && Count(rows[s.updates[k].row]) > 0
                  && Means(s.list, s.updates[k].id, rows[s.updates[k].row]))
            && (forall r: nat :: r < |rows| && Count(rows[r]) > 0 ==> HasUpdate(s.updates, r))
            && (forall j, k :: 0 <= j < k < |s.updates| ==> s.updates[j].row != s.updates[k].row)
  {
    PhasesCompile(list, rows, 4);
    assert forall r: nat :: r < |rows| && Count(rows[r]) > 0 ==> Done(rows, 4, 0, r);
  }

  /** What the table held before, it still holds, under the same ids and with the same meaning. */
  lemma {:induction false} OldEntriesStay(list: seq<Entry>, rows: seq<seq<Cond>>, p: nat, id: nat, env: Cond -> bool)
    requires Good(list) && Rows(rows) && id < |list|
    ensures var s := Phases(list, rows, p); Good(s.list) && list <= s.list && Holds(s.list, id, env) == Holds(list, id, env)
    decreases p
  {
    if p > 0 {
      OldEntriesStay(list, rows, p - 1, id, env);
      var before := Phases(list, rows, p - 1);
      if p == 1 {
        StoringPhase(list, rows, |rows|);
        HoldsStays(list, Phases(list, rows, p).list, id, env);
      } else {
        PhasesCompile(list, rows, p - 1);
        CompilePhase(before, rows, p - 1, |rows|);
        HoldsStays(list, Phases(list, rows, p).list, id, env);
      }
    }
    hide Phase, Compiled, Holds;
  }

  // ---------------------------------------------------------------- the script

  /** A condition that is not found makes the script give up on the row. */
  lemma NotFound(list: seq<Entry>, row: seq<Cond>, i: nat)
    requires i < Count(row) && Founds(list, row)[i] == 0
    ensures Emit(list, row) == (list, 0)
  {
  }

  class Converter {
    var linkedList: seq<Entry>
    var oldMax: nat
    var updates: seq<Update>

    ghost predicate Valid()
      reads this
    {
      oldMax + 1 == |linkedList|
    }

    ghost function Now(): State
      reads this
    {
      State(linkedList, updates)
    }

    constructor ()
      ensures Valid() && Now() == Start([FIRST])
    {
      linkedList, oldMax, updates := [FIRST], 0, [];
    }

    /** Takes over the conditions of earlier conversions, in the order in which they are read. */
    method LoadOldConditions(entries: seq<Entry>)
      requires Valid()
      modifies this`linkedList, this`oldMax
      ensures Valid() && linkedList == old(linkedList) + entries
    {
      for i := 0 to |entries|
        invariant Valid() && linkedList == old(linkedList) + entries[..i]
      {
        assert entries[..i + 1] == entries[..i] + [entries[i]];
        linkedList := linkedList + [entries[i]];
        oldMax := oldMax + 1;
      }
      assert entries[..|entries|] == entries;
    }

    method InsertCondition(k: Cond)
      requires Valid()
      modifies this`linkedList, this`oldMax
      ensures Valid() && linkedList == Add(old(linkedList), k) && oldMax == |old(linkedList)|
    {
      oldMax := oldMax + 1;
      linkedList := linkedList + [Entry(oldMax, k)];
    }

    method FindCondition(k: Cond) returns (id: nat)
      ensures id == Find(linkedList, k)
    {
      var i := 0;
      while i < |linkedList|
        invariant i <= |linkedList| && FindFrom(linkedList, i, k) == Find(linkedList, k)
      {
        if linkedList[i].what == k { return linkedList[i].id; }
        i := i + 1;
      }
      return 0;
    }

    method FindEither(a: nat, b: nat) returns (id: nat)
      ensures id == FindBoth(linkedList, a, b)
    {
      id := FindCondition(And(a, b));
      if id == 0 {
        id := FindCondition(And(b, a));
      }
    }

    method StoreIfMissing(k: Cond)
      requires Valid()
      modifies this`linkedList, this`oldMax
      ensures Valid() && linkedList == AddMissing(old(linkedList), k)
    {
      var id := FindCondition(k);
      if id == 0 { InsertCondition(k); }
    }

    /** The link of a row with two conditions. */
    method LinkPair(fs: seq<nat>) returns (lastPoint: nat)
      requires Valid() && |fs| == 3
      modifies this`linkedList, this`oldMax
      ensures Valid() && (linkedList, lastPoint) == Pair(old(linkedList), fs[0], fs[1])
    {
      lastPoint := FindEither(fs[1], fs[0]);
      if lastPoint == 0 {
        InsertCondition(And(fs[1], fs[0]));
        lastPoint := oldMax;
      }
    }

    /** The link of a row with three conditions. */
    method LinkTriple(fs: seq<nat>) returns (lastPoint: nat)
      requires Valid() && |fs| == 3
      modifies this`linkedList, this`oldMax
      ensures Valid() && (linkedList, lastPoint) == Triple(old(linkedList), fs)
    {
      var n2 := FindEither(fs[0], fs[1]);
      var n1 := FindEither(fs[0], fs[2]);
      var n0 := FindEither(fs[1], fs[2]);
      if n0 == 0 && n1 == 0 && n2 == 0 {
        InsertCondition(And(fs[1], fs[2]));
        n0 := oldMax;
      }
      lastPoint := Complete([n0, n1, n2], fs);
    }

    method Complete(ns: seq<nat>, fs: seq<nat>) returns (lastPoint: nat)
      requires Valid() && |ns| == |fs| == 3
      modifies this`linkedList, this`oldMax
      ensures Valid() && (linkedList, lastPoint) == Link(old(linkedList), ns, fs)
    {
      lastPoint := 0;
      var i := 0;
      while i < 3 && lastPoint == 0
        invariant i <= 3 && linkedList == old(linkedList) && Valid()
        invariant FindLink(linkedList, ns, fs, 0) == if lastPoint > 0 then lastPoint else FindLink(linkedList, ns, fs, i)
      {
        if ns[i] > 0 {
          lastPoint := FindEither(ns[i], fs[i]);
        }
        i := i + 1;
      }
      if lastPoint == 0 {
        i := 0;
        while i < 3 && ns[i] == 0
          invariant i <= 3 && forall k :: 0 <= k < i ==> ns[k] == 0
        {
          i := i + 1;
        }
        if i < 3 {
          InsertCondition(And(fs[i], ns[i]));
          lastPoint := oldMax;
        }
      }
    }

    /** One row. */
    method ProgressRow(phase: nat, r: nat, row: seq<Cond>)
      requires Valid() && IsRow(row)
      modifies this
      ensures Valid() && Now() == Step(old(Now()), phase, r, row)
    {
      var o, n := Ordered(row), Count(row);
      if n == 0 { return; }
      if phase == 0 {
        StoreRow(row, o, n);
        return;
      }
      if phase != n { return; }
      var f0 := FindCondition(o[0]);
      var f1, f2 := 0, 0;
      if n >= 2 { f1 := FindCondition(o[1]); }
      if n >= 3 { f2 := FindCondition(o[2]); }
      assert [f0, f1, f2] == Founds(linkedList, row);
      if f0 == 0 || (n >= 2 && f1 == 0) || (n >= 3 && f2 == 0) {
        NotFound(linkedList, row, if f0 == 0 then 0 else if n >= 2 && f1 == 0 then 1 else 2);
        return;
      }
      EmitRow(r, row, [f0, f1, f2], n);
    }

    method StoreRow(row: seq<Cond>, o: seq<Cond>, n: nat)
      requires Valid() && o == Ordered(row) && n == Count(row) >= 1
      modifies this`linkedList, this`oldMax
      ensures Valid() && linkedList == Store(old(linkedList), row)
    {
      StoreIfMissing(o[0]);
      if n >= 2 { StoreIfMissing(o[1]); }
      if n >= 3 { StoreIfMissing(o[2]); }
    }

    method EmitRow(r: nat, row: seq<Cond>, fs: seq<nat>, n: nat)
      requires Valid() && n == Count(row) >= 1 && fs == Founds(linkedList, row)
      requires forall i :: 0 <= i < n ==> fs[i] > 0
      modifies this
      ensures Valid()
      ensures var (list, id) := Emit(old(linkedList), row);
              linkedList == list && updates == if id == 0 then old(updates) else old(updates) + [Update(r, id)]
    {
      var lastPoint := fs[0];
      if n == 3 {
        lastPoint := LinkTriple(fs);
      } else if n == 2 {
        lastPoint := LinkPair(fs);
      }
      if lastPoint > 0 {
        updates := updates + [Update(r, lastPoint)];
      }
    }

    method ProgressTables(phase: nat, rows: seq<seq<Cond>>)
      requires Valid() && Rows(rows)
      modifies this
      ensures Valid() && Now() == Phase(old(Now()), phase, rows, |rows|)
    {
      for r := 0 to |rows|
        invariant Valid() && Now() == Phase(old(Now()), phase, rows, r)
      {
        if Reads(phase, rows[r]) {
          ProgressRow(phase, r, rows[r]);
        }
      }
    }

    method Run(rows: seq<seq<Cond>>)
      requires Valid() && updates == [] && Rows(rows)
      modifies this
      ensures Valid() && Now() == Convert(old(linkedList), rows)
    {
      for phase := 0 to 4
        invariant Valid() && Now() == Phases(old(linkedList), rows, phase)
      {
        ProgressTables(phase, rows);
      }
    }
  }
}
