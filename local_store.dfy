/** The local IndexedDB store, reduced to the two tables the download pipeline
    touches. Both tables use the record's `uid` as inbound primary key, so a
    table is a map from uid to record. The primitives below are the Dexie table
    calls the downloader makes: `get`, `bulkGet`, `add`, `bulkAdd`, `delete`
    and `bulkDelete`. */
module LocalStore {
  import opened Records

  /** The contents of the two tables at one moment. */
  datatype Tables = Tables(
    learningGoals: map<string, LearningGoal>,
    unitsOfMeaning: map<string, UnitOfMeaning>)

  /** A store with both tables empty. */
  const Empty := Tables(map[], map[])

  /** The primary key of every stored record is its own uid. */
  predicate WellKeyed(t: Tables) {
    && (forall k | k in t.learningGoals :: t.learningGoals[k].uid == k)
    && (forall k | k in t.unitsOfMeaning :: t.unitsOfMeaning[k].uid == k)
  }

  /** `table.get(key)`: the stored record, or nothing. */
  function Lookup<V>(table: map<string, V>, key: string): (r: Option<V>)
    ensures r.Some? <==> key in table
    ensures r.Some? ==> r.value == table[key]
  {
    if key in table then Some(table[key]) else None
  }

  /** `table.bulkGet(keys)`: one answer per key, in the order of the keys. */
  function BulkGet<V>(table: map<string, V>, keys: seq<string>): (r: seq<Option<V>>)
    ensures |r| == |keys|
    ensures forall i :: 0 <= i < |keys| ==> r[i] == Lookup(table, keys[i])
  {
    if keys == [] then [] else [Lookup(table, keys[0])] + BulkGet(table, keys[1..])
  }

  /** `table.add(goal)`: refused when the key is already taken. */
  function InsertGoal(goals: map<string, LearningGoal>, g: LearningGoal): (r: Option<map<string, LearningGoal>>)
    ensures r.Some? <==> g.uid !in goals
    ensures r.Some? ==> r.value.Keys == goals.Keys + {g.uid} && r.value[g.uid] == g
    ensures r.Some? ==> forall k | k in goals :: r.value[k] == goals[k]
  {
    if g.uid in goals then None else Some(goals[g.uid := g])
  }

  /** `table.bulkAdd(units)` awaited inside a transaction: the units are added
      in order, and the batch is refused as a whole at the first uid that is
      already taken, whether by a stored unit or by an earlier one of the batch. */
  function InsertUnits(units: map<string, UnitOfMeaning>, us: seq<UnitOfMeaning>): Option<map<string, UnitOfMeaning>>
    decreases us
  {
    if us == [] then Some(units)
    else if us[0].uid in units then None
    else InsertUnits(units[us[0].uid := us[0]], us[1..])
  }

  /** A batch is accepted exactly when its uids are distinct and none is stored yet. */
  lemma {:induction false} InsertUnitsSucceedsIff(units: map<string, UnitOfMeaning>, us: seq<UnitOfMeaning>)
    ensures InsertUnits(units, us).Some? <==> Distinct(Uids(us)) && forall k | k in Uids(us) :: k !in units
    decreases us
  {
    if us != [] {
      assert Uids(us) == [us[0].uid] + Uids(us[1..]);
      DistinctCons(Uids(us));
      if us[0].uid !in units {
        InsertUnitsSucceedsIff(units[us[0].uid := us[0]], us[1..]);
      }
    }
  }

  /** An accepted batch keeps every stored unit and stores each new unit under its uid. */
  lemma InsertUnitsContents(units: map<string, UnitOfMeaning>, us: seq<UnitOfMeaning>)
    requires InsertUnits(units, us).Some?
    ensures InsertUnits(units, us).value.Keys == units.Keys + Elems(Uids(us))
    ensures forall k | k in units :: InsertUnits(units, us).value[k] == units[k]
    ensures forall i | 0 <= i < |us| :: InsertUnits(units, us).value[us[i].uid] == us[i]
  {
    InsertUnitsKeys(units, us);
    InsertUnitsKeeps(units, us);
    InsertUnitsStores(units, us);
  }

  lemma {:induction false} InsertUnitsKeys(units: map<string, UnitOfMeaning>, us: seq<UnitOfMeaning>)
    requires InsertUnits(units, us).Some?
    ensures InsertUnits(units, us).value.Keys == units.Keys + Elems(Uids(us))
    decreases us
  {
    if us != [] {
      var next := units[us[0].uid := us[0]];
      InsertUnitsStep(units, us);
      InsertUnitsKeys(next, us[1..]);
      ElemsCons(Uids(us));
      assert Uids(us)[1..] == Uids(us[1..]);
      assert next.Keys == units.Keys + {us[0].uid};
    }
  }

  lemma {:induction false} InsertUnitsKeeps(units: map<string, UnitOfMeaning>, us: seq<UnitOfMeaning>)
    requires InsertUnits(units, us).Some?
    ensures forall k | k in units :: k in InsertUnits(units, us).value && InsertUnits(units, us).value[k] == units[k]
    decreases us
  {
    if us != [] {
      InsertUnitsStep(units, us);
      InsertUnitsKeeps(units[us[0].uid := us[0]], us[1..]);
    }
  }

  lemma {:induction false} InsertUnitsStores(units: map<string, UnitOfMeaning>, us: seq<UnitOfMeaning>)
    requires InsertUnits(units, us).Some?
    ensures forall i | 0 <= i < |us| :: us[i].uid in InsertUnits(units, us).value && InsertUnits(units, us).value[us[i].uid] == us[i]
    decreases us
  {
    if us != [] {
      var next := units[us[0].uid := us[0]];
      InsertUnitsStep(units, us);
      InsertUnitsStores(next, us[1..]);
      InsertUnitsKeeps(next, us[1..]);
      assert forall i | 0 < i < |us| :: us[i] == us[1..][i - 1];
    }
  }

  /** One step of an accepted batch: the first unit goes in, the rest follow. */
  lemma InsertUnitsStep(units: map<string, UnitOfMeaning>, us: seq<UnitOfMeaning>)
    requires us != [] && InsertUnits(units, us).Some?
    ensures us[0].uid !in units
    ensures InsertUnits(units, us) == InsertUnits(units[us[0].uid := us[0]], us[1..])
  {
  }

  /** The database instance the application creates once (`createLinguaDexie`).
      It opens the persistent `linguanodon-db`, so it starts with whatever
      earlier sessions stored there. */
  class Database {
    var learningGoals: map<string, LearningGoal>
    var unitsOfMeaning: map<string, UnitOfMeaning>

    /** The current contents of both tables. */
    function Snapshot(): Tables
      reads this
    {
      Tables(learningGoals, unitsOfMeaning)
    }

    ghost predicate Valid()
      reads this
    {
      WellKeyed(Snapshot())
    }

    /** Opening the database whose tables currently hold `initial`. */
    constructor (initial: Tables)
      requires WellKeyed(initial)
      ensures Valid() && Snapshot() == initial
    {
      learningGoals := initial.learningGoals;
      unitsOfMeaning := initial.unitsOfMeaning;
    }

    /** `learningGoals.add(g)`. */
    method Add(g: LearningGoal) returns (ok: bool)
      requires Valid()
      modifies this
      ensures Valid()
      ensures ok == (g.uid !in old(learningGoals))
      ensures learningGoals == if ok then old(learningGoals)[g.uid := g] else old(learningGoals)
      ensures unitsOfMeaning == old(unitsOfMeaning)
    {
      ok := g.uid !in learningGoals;
      if ok {
        learningGoals := learningGoals[g.uid := g];
      }
    }

    /** `unitsOfMeaning.bulkAdd(us)`: the units are added one after the other;
        the first clash refuses the whole batch. */
    method BulkAdd(us: seq<UnitOfMeaning>) returns (ok: bool)
      requires Valid()
      modifies this
      ensures Valid()
      ensures ok == InsertUnits(old(unitsOfMeaning), us).Some?
      ensures unitsOfMeaning == if ok then InsertUnits(old(unitsOfMeaning), us).value else old(unitsOfMeaning)
      ensures learningGoals == old(learningGoals)
    {
      var written := unitsOfMeaning;
      var i := 0;
      ok := true;
      while i < |us|
        invariant 0 <= i <= |us|
        invariant InsertUnits(old(unitsOfMeaning), us) == InsertUnits(written, us[i..])
        invariant forall k | k in written :: written[k].uid == k
      {
        assert us[i..][1..] == us[i + 1..];
        if us[i].uid in written {
          ok := false;
          break;
        }
        written := written[us[i].uid := us[i]];
        i := i + 1;
      }
      if ok {
        unitsOfMeaning := written;
      }
    }

    /** `learningGoals.delete(uid)`: removing an absent key is not an error. */
    method Delete(uid: string)
      requires Valid()
      modifies this
      ensures Valid()
      ensures learningGoals == old(learningGoals) - {uid}
      ensures unitsOfMeaning == old(unitsOfMeaning)
    {
      learningGoals := learningGoals - {uid};
    }

    /** `unitsOfMeaning.bulkDelete(uids)`: removes every listed key that is present. */
    method BulkDelete(uids: seq<string>)
      requires Valid()
      modifies this
      ensures Valid()
      ensures unitsOfMeaning == old(unitsOfMeaning) - Elems(uids)
      ensures learningGoals == old(learningGoals)
    {
      var remaining := unitsOfMeaning;
      for i := 0 to |uids|
        invariant remaining == old(unitsOfMeaning) - Elems(uids[..i])
        invariant Snapshot() == old(Snapshot())
      {
        assert uids[..i + 1] == uids[..i] + [uids[i]];
        ElemsSnoc(uids[..i], uids[i]);
        remaining := remaining - {uids[i]};
      }
      assert uids[..|uids|] == uids;
      assert remaining.Keys <= unitsOfMeaning.Keys;
      unitsOfMeaning := remaining;
    }

    /** Puts both tables back as they were: what an aborted transaction does. */
    method Restore(t: Tables)
      requires WellKeyed(t)
      modifies this
      ensures Valid() && Snapshot() == t
    {
      learningGoals := t.learningGoals;
      unitsOfMeaning := t.unitsOfMeaning;
    }
  }
}
