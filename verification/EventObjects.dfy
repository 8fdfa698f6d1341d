/** Which creatures and game objects of a battleground are spawned (SpawnEvent and OnObjectDBLoad of
    src/game/BattleGround/BattleGroundObjects.cpp). Objects are registered under a pair of events;
    for each first event at most one second event is active. */
module EventObjects {

  type Guid = nat

  const NONE := 255       // BG_EVENT_NONE
  const DOOR := 254       // BG_EVENT_DOOR

  datatype Objects = Objects(creatures: seq<Guid>, gameobjects: seq<Guid>)

  const NO_OBJECTS := Objects([], [])

  datatype Events = Events(
    active: map<nat, nat>,                 // m_ActiveEvents
    registered: map<(nat, nat), Objects>,  // m_EventObjects
    spawned: set<Guid>)                    // the objects that are spawned on the map
  {
    function At(e1: nat, e2: nat): Objects {
      if (e1, e2) in registered then registered[(e1, e2)] else NO_OBJECTS
    }

    function IsActive(e1: nat, e2: nat): bool {
      e1 in active && active[e1] == e2
    }

    /** m_ActiveEvents[event1]: looking at an event that is not there yet makes it 0. */
    function Touched(e1: nat): Events {
      if e1 in active then this else this.(active := active[e1 := 0])
    }
  }

  function Members(o: Objects): set<Guid> {
    (set g | g in o.creatures) + set g | g in o.gameobjects
  }

  /** SpawnEvent(event1, event2, false) */
  function Despawn(s: Events, e1: nat, e2: nat): Events {
    if e2 == NONE then s
    else
      var t := s.Touched(e1);
      if t.active[e1] != e2 then t
      else t.(active := t.active[e1 := NONE], spawned := t.spawned - Members(t.At(e1, e2)))
  }

  /** SpawnEvent(event1, event2, true) */
  function Spawn(s: Events, e1: nat, e2: nat): Events {
    if e2 == NONE then s
    else
      var t := s.Touched(e1);
      if t.active[e1] == e2 then t
      else
        var u := Despawn(t, e1, t.active[e1]);
        u.(active := u.active[e1 := e2], spawned := u.spawned + Members(u.At(e1, e2)))
  }

  function Switch(s: Events, e1: nat, e2: nat, spawn: bool): Events {
    if spawn then Spawn(s, e1, e2) else Despawn(s, e1, e2)
  }

  function Registered(s: Events, e1: nat, e2: nat, g: Guid, isCreature: bool): Events {
    var o := s.At(e1, e2);
    s.(registered := s.registered[(e1, e2) := if isCreature then o.(creatures := o.creatures + [g])
                                             else o.(gameobjects := o.gameobjects + [g])])
  }

  /** OnObjectDBLoad: an object without an event is left alone; one whose event is not active is
      despawned again. */
  function Load(s: Events, e1: nat, e2: nat, g: Guid, isCreature: bool): Events {
    var t := s.(spawned := s.spawned + {g});
    if e1 == NONE then t
    else
      var u := Registered(t, e1, e2, g, isCreature);
      if u.IsActive(e1, e2) then u else u.(spawned := u.spawned - {g})
  }

  // ---------------------------------------------------------------- what is visible

  ghost predicate Owns(s: Events, e1: nat, e2: nat, g: Guid) {
    g in Members(s.At(e1, e2))
  }

  /** An object belongs to one event, and none to a second event NONE, which the loader refuses. */
  ghost predicate OneEventEach(s: Events) {
    && (forall e1, e2, f1, f2, g :: Owns(s, e1, e2, g) && Owns(s, f1, f2, g) ==> e1 == f1 && e2 == f2)
    && (forall e1, g :: !Owns(s, e1, NONE, g))
  }

  /** An object is spawned exactly when its event is the active one. */
  ghost predicate Visible(s: Events) {
    forall e1, e2, g :: Owns(s, e1, e2, g) ==> (g in s.spawned <==> s.IsActive(e1, e2))
  }

  ghost predicate Good(s: Events) {
    OneEventEach(s) && Visible(s)
  }

  /** The call looks at a first event that nothing has been said about yet, finds it to be 0, and takes
      that for the truth although the objects of (event1, 0) are not spawned. */
  ghost predicate Misled(s: Events, e1: nat, e2: nat, spawn: bool) {
    && e1 !in s.active && e2 != NONE && (spawn <==> e2 == 0)
    && Members(s.At(e1, 0)) != {}
  }

  ghost predicate SameOwners(s: Events, t: Events) {
    forall e1, e2, g :: Owns(t, e1, e2, g) == Owns(s, e1, e2, g)
  }

  lemma TouchedKeepsExactly(s: Events, e1: nat)
    requires Good(s)
    ensures Good(s.Touched(e1)) <==> e1 in s.active || Members(s.At(e1, 0)) == {}
    ensures SameOwners(s, s.Touched(e1))
  {
    var t := s.Touched(e1);
    assert SameOwners(s, t);
    if e1 !in s.active {
      if Members(s.At(e1, 0)) != {} {
        var g :| g in Members(s.At(e1, 0));
        assert Owns(s, e1, 0, g) && Owns(t, e1, 0, g);
        assert !s.IsActive(e1, 0) && t.IsActive(e1, 0);
      } else {
        forall f1, f2, g | Owns(t, f1, f2, g) ensures g in t.spawned <==> t.IsActive(f1, f2) {
          assert Owns(s, f1, f2, g);
        }
      }
    }
  }

  lemma DespawnKeeps(s: Events, e1: nat, e2: nat)
    requires Good(s) && e1 in s.active
    ensures var t := Despawn(s, e1, e2);
            && Good(t) && SameOwners(s, t) && t.registered == s.registered
            && t.active == if e2 != NONE && s.active[e1] == e2 then s.active[e1 := NONE] else s.active
  {
    var t := Despawn(s, e1, e2);
    assert SameOwners(s, t);
    forall f1, f2, g | Owns(t, f1, f2, g) ensures g in t.spawned <==> t.IsActive(f1, f2) {
      assert Owns(s, f1, f2, g) && f2 != NONE;
      assert g in Members(s.At(e1, e2)) ==> Owns(s, e1, e2, g);
      assert f1 == e1 && f2 == e2 ==> g in Members(s.At(e1, e2));
    }
  }

  lemma SpawnKeeps(s: Events, e1: nat, e2: nat)
    requires Good(s) && e1 in s.active
    ensures var t := Spawn(s, e1, e2);
            && Good(t) && SameOwners(s, t) && t.registered == s.registered
            && t.active == if e2 != NONE then s.active[e1 := e2] else s.active
  {
    if e2 != NONE && s.active[e1] != e2 {
      DespawnKeeps(s, e1, s.active[e1]);
      var u := Despawn(s, e1, s.active[e1]);
      var t := Spawn(s, e1, e2);
      assert SameOwners(s, t);
      assert u.active[e1] == NONE;
      forall f1, f2, g | Owns(t, f1, f2, g) ensures g in t.spawned <==> t.IsActive(f1, f2) {
        assert Owns(u, f1, f2, g) && f2 != NONE;
        assert g in Members(u.At(e1, e2)) ==> Owns(u, e1, e2, g);
        assert f1 == e1 && f2 == e2 ==> g in Members(u.At(e1, e2));
      }
    }
  }

  // ---------------------------------------------------------------- exactly when calls keep it

  /** Saying of a new first event that nothing is active is always right. */
  lemma QuietKeeps(s: Events, e1: nat)
    requires Good(s) && e1 !in s.active
    ensures Good(s.(active := s.active[e1 := NONE]))
    ensures s.spawned - Members(s.At(e1, 0)) == s.spawned
  {
    var t := s.(active := s.active[e1 := NONE]);
    assert SameOwners(s, t);
    forall f1, f2, g | Owns(t, f1, f2, g) ensures g in t.spawned <==> t.IsActive(f1, f2) {
      assert Owns(s, f1, f2, g) && f2 != NONE;
    }
    forall g | g in Members(s.At(e1, 0)) ensures g !in s.spawned {
      assert Owns(s, e1, 0, g) && !s.IsActive(e1, 0);
    }
  }

  lemma UnpreparedSpawn(s: Events, e1: nat, e2: nat)
    requires Good(s) && e1 !in s.active && e2 != NONE && e2 != 0
    ensures Spawn(s, e1, e2) == Spawn(s.(active := s.active[e1 := NONE]), e1, e2)
  {
    QuietKeeps(s, e1);
    var t := s.Touched(e1);
    assert t.At(e1, 0) == s.At(e1, 0);
    var u := Despawn(t, e1, 0);
    assert u == s.(active := s.active[e1 := NONE]);
  }

  lemma UnpreparedDespawn(s: Events, e1: nat)
    requires Good(s) && e1 !in s.active
    ensures Despawn(s, e1, 0) == s.(active := s.active[e1 := NONE])
  {
    QuietKeeps(s, e1);
    assert s.Touched(e1).At(e1, 0) == s.At(e1, 0);
  }

  lemma SameRegisteredSameOwners(s: Events, t: Events)
    requires t.registered == s.registered
    ensures SameOwners(s, t)
  {
  }

  /** A call to SpawnEvent leaves spawned what belongs to the active events, and nothing else, exactly
      when it is not misled by an event that was never set. */
  lemma SwitchKeepsExactly(s: Events, e1: nat, e2: nat, spawn: bool)
    requires Good(s)
    ensures Good(Switch(s, e1, e2, spawn)) <==> !Misled(s, e1, e2, spawn)
    ensures Switch(s, e1, e2, spawn).registered == s.registered
  {
    if e1 in s.active {
      DespawnKeeps(s, e1, e2);
      SpawnKeeps(s, e1, e2);
    } else if e2 != NONE {
      var t := s.Touched(e1);
      TouchedKeepsExactly(s, e1);
      SameRegisteredSameOwners(s, t);
      if Members(s.At(e1, 0)) == {} {
        DespawnKeeps(t, e1, e2);
        SpawnKeeps(t, e1, e2);
      } else {
        QuietKeeps(s, e1);
        if spawn && e2 != 0 {
          UnpreparedSpawn(s, e1, e2);
          SpawnKeeps(s.(active := s.active[e1 := NONE]), e1, e2);
        } else if !spawn && e2 == 0 {
          UnpreparedDespawn(s, e1);
        }
      }
    }
  }

  /** What a call does to the active events, when the first event is known. */
  lemma SwitchActive(s: Events, e1: nat, e2: nat)
    requires e1 in s.active && e2 != NONE
    ensures Spawn(s, e1, e2).active == s.active[e1 := e2]
    ensures Despawn(s, e1, e2).active == if s.active[e1] == e2 then s.active[e1 := NONE] else s.active
  {
  }

  /** Never more than one second event of a first event can be seen. */
  lemma OneEventVisible(s: Events, e1: nat, e2: nat, f2: nat, g: Guid, h: Guid)
    requires Good(s) && Owns(s, e1, e2, g) && Owns(s, e1, f2, h) && g in s.spawned && h in s.spawned
    ensures e2 == f2
  {
    assert s.IsActive(e1, e2) && s.IsActive(e1, f2);
  }

  lemma MembersAdded(o: Objects, g: Guid, isCreature: bool)
    ensures Members(if isCreature then o.(creatures := o.creatures + [g]) else o.(gameobjects := o.gameobjects + [g])) == Members(o) + {g}
  {
  }

  lemma RegisteredOwners(s: Events, e1: nat, e2: nat, g: Guid, isCreature: bool)
    ensures forall f1, f2, h :: Owns(Registered(s, e1, e2, g, isCreature), f1, f2, h) <==> Owns(s, f1, f2, h) || (f1 == e1 && f2 == e2 && h == g)
  {
    MembersAdded(s.At(e1, e2), g, isCreature);
    var t := Registered(s, e1, e2, g, isCreature);
    assert forall f1, f2 :: f1 != e1 || f2 != e2 ==> t.At(f1, f2) == s.At(f1, f2);
  }

  lemma LoadKeeps(s: Events, e1: nat, e2: nat, g: Guid, isCreature: bool)
    requires Good(s) && (e1 == NONE || e2 != NONE)
    requires forall f1, f2 :: Owns(s, f1, f2, g) ==> e1 != NONE && f1 == e1 && f2 == e2
    ensures Good(Load(s, e1, e2, g, isCreature))
    ensures forall f1, f2, h :: Owns(Load(s, e1, e2, g, isCreature), f1, f2, h)
                                <==> Owns(s, f1, f2, h) || (e1 != NONE && f1 == e1 && f2 == e2 && h == g)
  {
    var t, u := s.(spawned := s.spawned + {g}), Load(s, e1, e2, g, isCreature);
    SameRegisteredSameOwners(s, t);
    if e1 != NONE {
      RegisteredOwners(t, e1, e2, g, isCreature);
      SameRegisteredSameOwners(Registered(t, e1, e2, g, isCreature), u);
    }
    hide Registered, Members;
    forall f1, f2, h | Owns(u, f1, f2, h) ensures h in u.spawned <==> u.IsActive(f1, f2) {
      assert h == g || Owns(s, f1, f2, h);
    }
  }

  // ---------------------------------------------------------------- whole runs

  datatype Step =
    | Loads(g: Guid, isCreature: bool)
    | Calls(e1: nat, e2: nat, spawn: bool)

  /** `home` is what the database says about each object. */
  function Take(s: Events, step: Step, home: map<Guid, (nat, nat)>): Events {
    match step
    case Loads(g, isCreature) =>
      if g in home then Load(s, home[g].0, home[g].1, g, isCreature) else Load(s, NONE, NONE, g, isCreature)
    case Calls(e1, e2, spawn) => Switch(s, e1, e2, spawn)
  }

  function Run(s: Events, steps: seq<Step>, home: map<Guid, (nat, nat)>): Events {
    if steps == [] then s else Take(Run(s, steps[..|steps| - 1], home), steps[|steps| - 1], home)
  }

  /** The loader refuses entries with an event NONE. */
  ghost predicate Loadable(home: map<Guid, (nat, nat)>) {
    forall g :: g in home ==> home[g].0 != NONE && home[g].1 != NONE
  }

  ghost predicate AtHome(s: Events, home: map<Guid, (nat, nat)>) {
    forall e1: nat, e2: nat, g: Guid :: Owns(s, e1, e2, g) ==> g in home && home[g] == (e1, e2)
  }

  /** Only first events are switched that the battleground's Reset has set. */
  ghost predicate Prepared(active: map<nat, nat>, steps: seq<Step>) {
    forall i :: 0 <= i < |steps| && steps[i].Calls? ==> steps[i].e1 in active
  }

  /** After any sequence of object loads and calls to SpawnEvent, exactly the objects of active events
      are spawned. */
  lemma {:induction false} EveryRunShowsActive(s: Events, steps: seq<Step>, home: map<Guid, (nat, nat)>)
    requires Good(s) && AtHome(s, home) && Loadable(home) && Prepared(s.active, steps)
    ensures var t := Run(s, steps, home);
            Good(t) && AtHome(t, home) && forall e1 :: e1 in s.active ==> e1 in t.active
  {
    if steps != [] {
      var rest := steps[..|steps| - 1];
      EveryRunShowsActive(s, rest, home);
      TakeKeeps(Run(s, rest, home), steps[|steps| - 1], home);
    }
  }

  lemma TakeKeeps(s: Events, step: Step, home: map<Guid, (nat, nat)>)
    requires Good(s) && AtHome(s, home) && Loadable(home) && (step.Calls? ==> step.e1 in s.active)
    ensures var t := Take(s, step, home);
            Good(t) && AtHome(t, home) && forall e1 :: e1 in s.active ==> e1 in t.active
  {
    match step
    case Loads(g, isCreature) =>
      var e := if g in home then home[g] else (NONE, NONE);
      LoadKeeps(s, e.0, e.1, g, isCreature);
    case Calls(e1, e2, spawn) =>
      DespawnKeeps(s, e1, e2);
      SpawnKeeps(s, e1, e2);
  }

  /** An object that is loaded belongs to its event from then on, as those loaded before do. */
  lemma LoadOwns(s: Events, g: Guid, isCreature: bool, home: map<Guid, (nat, nat)>)
    requires Good(s) && AtHome(s, home) && Loadable(home)
    ensures var t := Take(s, Loads(g, isCreature), home);
            && Good(t) && AtHome(t, home) && t.active == s.active && Kept(s, t)
            && (g in home ==> Owns(t, home[g].0, home[g].1, g))
  {
    var e := if g in home then home[g] else (NONE, NONE);
    LoadKeeps(s, e.0, e.1, g, isCreature);
  }

  ghost predicate Kept(s: Events, t: Events) {
    forall e1, e2, g :: Owns(s, e1, e2, g) ==> Owns(t, e1, e2, g)
  }

  /** Without that, even a battleground without a single spawned object goes wrong: the objects of
      event (7, 0) count as active and are not spawned. */
  lemma UnpreparedRunGoesWrong()
    ensures var s := Events(map[], map[(7, 0) := Objects([], [1])], {});
            Good(s) && !Good(Spawn(s, 7, 0)) && Spawn(s, 7, 0).IsActive(7, 0) && 1 !in Spawn(s, 7, 0).spawned
  {
    var s := Events(map[], map[(7, 0) := Objects([], [1])], {});
    assert 1 in Members(s.At(7, 0));
    SwitchKeepsExactly(s, 7, 0, true);
  }

  // ---------------------------------------------------------------- the battleground's methods

  /** The doors are the objects of one event. */
  predicate IsDoor(e1: nat, e2: nat) {
    e1 == DOOR && e2 == 0
  }

  class BattleGroundEvents {
    var activeEvents: map<nat, nat>
    var eventObjects: map<(nat, nat), Objects>
    var spawned: set<Guid>
    var started: bool             // the match is in progress or over
    var openDoors: set<Guid>      // the objects that have been told to open

    /** In a match that has started no door that is there is closed. */
    ghost predicate DoorsOpen()
      reads this
    {
      started && IsActiveEvent(DOOR, 0) && (DOOR, 0) in eventObjects ==>
        forall g :: g in eventObjects[(DOOR, 0)].gameobjects ==> g in openDoors
    }

    ghost function Now(): Events
      reads this
    {
      Events(activeEvents, eventObjects, spawned)
    }

    constructor ()
      ensures Now() == Events(map[], map[], {}) && !started && openDoors == {}
    {
      activeEvents, eventObjects, spawned, started, openDoors := map[], map[], {}, false, {};
    }

    predicate IsActiveEvent(e1: nat, e2: nat)
      reads this
      ensures IsActiveEvent(e1, e2) == Now().IsActive(e1, e2)
    {
      e1 in activeEvents && activeEvents[e1] == e2
    }

    /** Reading an entry of m_ActiveEvents. */
    method Lookup(e1: nat) returns (e2: nat)
      modifies this`activeEvents
      ensures Now() == old(Now()).Touched(e1) && e1 in activeEvents && e2 == activeEvents[e1]
    {
      if e1 !in activeEvents {
        activeEvents := activeEvents[e1 := 0];
      }
      e2 := activeEvents[e1];
    }

    method SpawnEvent(e1: nat, e2: nat, spawn: bool)
      modifies this`activeEvents, this`spawned
      ensures Now() == Switch(old(Now()), e1, e2, spawn)
      decreases spawn
    {
      if e2 == NONE { return; }
      var current := Lookup(e1);
      if spawn {
        if current == e2 { return; }
        SpawnEvent(e1, current, false);
        activeEvents := activeEvents[e1 := e2];
      } else {
        if current != e2 { return; }
        activeEvents := activeEvents[e1 := NONE];
      }
      if (e1, e2) in eventObjects {
        SpawnAll(eventObjects[(e1, e2)].creatures, spawn);
        SpawnAll(eventObjects[(e1, e2)].gameobjects, spawn);
      }
    }

    /** SpawnBGCreature or SpawnBGObject for each, at once or never. */
    method SpawnAll(guids: seq<Guid>, spawn: bool)
      modifies this`spawned
      ensures spawned == if spawn then old(spawned) + set g | g in guids else old(spawned) - set g | g in guids
    {
      for i := 0 to |guids|
        invariant spawned == if spawn then old(spawned) + set g | g in guids[..i] else old(spawned) - set g | g in guids[..i]
      {
        assert guids[..i + 1] == guids[..i] + [guids[i]];
        spawned := if spawn then spawned + {guids[i]} else spawned - {guids[i]};
      }
      assert guids[..|guids|] == guids;
    }

    /** A creature or object is read from the database, and is spawned; the first event is NONE if the
        database has none for it. */
    method OnObjectDBLoad(guid: Guid, isCreature: bool, e1: nat, e2: nat)
      modifies this`eventObjects, this`spawned, this`openDoors
      ensures Now() == Load(old(Now()), e1, e2, guid, isCreature)
      ensures openDoors == if !isCreature && started && IsDoor(e1, e2) && IsActiveEvent(e1, e2) then old(openDoors) + {guid} else old(openDoors)
      ensures old(DoorsOpen()) ==> DoorsOpen()
    {
      spawned := spawned + {guid};
      if e1 == NONE { return; }
      var o := if (e1, e2) in eventObjects then eventObjects[(e1, e2)] else NO_OBJECTS;
      eventObjects := eventObjects[(e1, e2) := if isCreature then o.(creatures := o.creatures + [guid])
                                               else o.(gameobjects := o.gameobjects + [guid])];
      if !IsActiveEvent(e1, e2) {
        spawned := spawned - {guid};
      } else if !isCreature && started && IsDoor(e1, e2) {
        openDoors := openDoors + {guid};
      }
    }

    /** Opens the doors, when they are there; nothing else is a door. */
    method OpenDoorEvent(e1: nat, e2: nat)
      modifies this`openDoors
      ensures IsDoor(e1, e2) ==> DoorsOpen()
      ensures openDoors == if IsDoor(e1, e2) && IsActiveEvent(e1, e2)
                        then old(openDoors) + set g | g in Now().At(e1, e2).gameobjects else old(openDoors)
    {
      if !IsDoor(e1, e2) { return; }
      if !IsActiveEvent(e1, e2) { return; }
      var doors := if (e1, e2) in eventObjects then eventObjects[(e1, e2)].gameobjects else [];
      for i := 0 to |doors|
        invariant openDoors == old(openDoors) + set g | g in doors[..i]
      {
        assert doors[..i + 1] == doors[..i] + [doors[i]];
        openDoors := openDoors + {doors[i]};
      }
      assert doors[..|doors|] == doors;
    }
  }
}
