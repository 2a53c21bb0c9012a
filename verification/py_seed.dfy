/** `init_database` and `seed_from_json` of the Python service: seed an empty
    table from the fixture file inside one transaction, committed only after the
    last insert, so a failure anywhere leaves the table as it was. */
module PySeed {
  import opened Wrappers
  import opened Table
  import opened SeedData

  /** The row for one fixture, or why the loop body raised. The members are read
      before the statement runs (an absent one raises `KeyError`); SQLite then
      refuses a null before it looks at the CHECK constraints. A boolean value is
      stored as 1.0 or 0.0 and a number as it is. */
  function PyRow(f: Fixture, now: Timestamp): (r: Result<Sensor, SeedError>)
    ensures r.Ok? <==> Clean(f)
    ensures r.Ok? ==> Carries(f, r.value, now)
    ensures (f.value.None? || f.id.Absent? || f.name.Absent? || f.sensorType.Absent?
             || f.location.Absent? || f.unit.Absent? || f.status.Absent? || f.lastReading.Absent?)
            ==> r == Err(KeyMissing)
  {
    if f.value.None? || f.id.Absent? || f.name.Absent? || f.sensorType.Absent?
       || f.location.Absent? || f.unit.Absent? || f.status.Absent? || f.lastReading.Absent? then
      Err(KeyMissing)
    else if f.id.Null? || f.name.Null? || f.sensorType.Null? || f.location.Null?
            || f.unit.Null? || f.status.Null? || f.lastReading.Null? || f.value.value.JNull? then
      Err(InsertFailed(NotNullFailed))
    else if f.value.value.JString? then
      Err(UnsupportedValue)
    else
      Ok(Sensor(f.id.s, f.name.s, f.sensorType.s, f.location.s, StoredValue(f.value.value),
                f.unit.s, f.status.s, f.lastReading.s, now, now))
  }

  /** The ids of clean fixtures. */
  function FixtureIds(fs: seq<Fixture>): set<string>
    requires forall i :: 0 <= i < |fs| ==> Clean(fs[i])
  {
    set i | 0 <= i < |fs| && Clean(fs[i]) :: fs[i].id.s
  }

  lemma FixtureIdsSplit(fs: seq<Fixture>)
    requires fs != []
    ensures (forall i :: 0 <= i < |fs| ==> Clean(fs[i])) ==>
              FixtureIds(fs) == {fs[0].id.s} + FixtureIds(fs[1..])
  {
    if forall i :: 0 <= i < |fs| ==> Clean(fs[i]) {
      forall id | id in FixtureIds(fs)
        ensures id in {fs[0].id.s} + FixtureIds(fs[1..])
      {
        var i :| 0 <= i < |fs| && fs[i].id.s == id;
        if i > 0 {
          assert fs[1..][i - 1].id.s == id;
        }
      }
    }
  }

  /** The insert loop inside the open transaction: the first fixture that raises
      ends it with its error. */
  function InsertAll(store: Store, fs: seq<Fixture>, now: Timestamp): (r: Result<Store, SeedError>)
    ensures r.Ok? ==> forall i :: 0 <= i < |fs| ==> Clean(fs[i])
    ensures r.Ok? ==> forall id :: id in store ==> id in r.value && r.value[id] == store[id]
    ensures r.Ok? ==> r.value.Keys == store.Keys + FixtureIds(fs)
    ensures r.Ok? ==> forall i :: 0 <= i < |fs| ==>
                        Clean(fs[i]) && fs[i].id.s in r.value && Carries(fs[i], r.value[fs[i].id.s], now)
    ensures r.Ok? && Valid(store) ==> Valid(r.value)
    decreases |fs|
  {
    if fs == [] then Ok(store)
    else match PyRow(fs[0], now)
      case Err(e) => Err(e)
      case Ok(row) =>
        match Insert(store, row)
        case Err(e) => Err(InsertFailed(e))
        case Ok(next) =>
          var r := InsertAll(next, fs[1..], now);
          assert forall i :: 1 <= i < |fs| ==> fs[i] == fs[1..][i - 1];
          FixtureIdsSplit(fs);
          r
  }

  /** `seed_from_json` followed by closing the connection: a missing file changes
      nothing, and any error leaves the table as it was, because the transaction
      is only committed after the last insert. */
  function SeedFromJson(store: Store, file: SeedFile, now: Timestamp): (r: (Store, Option<SeedError>))
    ensures file.Missing? ==> r == (store, None)
    ensures r.1.Some? ==> r.0 == store
    ensures file.Unreadable? ==> r.1 == Some(ReadFailed)
    ensures file.Malformed? ==> r.1 == Some(ParseFailed)
    ensures file.Fixtures? && r.1.None? ==>
              && (forall i :: 0 <= i < |file.items| ==> Clean(file.items[i]))
              && r.0.Keys == store.Keys + FixtureIds(file.items)
              && forall i :: 0 <= i < |file.items| ==>
                   file.items[i].id.s in r.0 && Carries(file.items[i], r.0[file.items[i].id.s], now)
    ensures Valid(store) ==> Valid(r.0)
  {
    match file
    case Missing => (store, None)
    case Unreadable => (store, Some(ReadFailed))
    case Malformed => (store, Some(ParseFailed))
    case Fixtures(fs) =>
      match InsertAll(store, fs, now)
      case Err(e) => (store, Some(e))
      case Ok(written) => (written, None)
  }

  /** `init_database` after the schema exists: seed only when the table has no rows. */
  function InitDatabase(store: Store, file: SeedFile, now: Timestamp): (r: (Store, Option<SeedError>))
    ensures |store| > 0 ==> r == (store, None)
    ensures |store| == 0 ==> r == SeedFromJson(store, file, now)
    ensures r.1.Some? ==> r.0 == store
    ensures Valid(store) ==> Valid(r.0)
  {
    if |store| == 0 then SeedFromJson(store, file, now) else (store, None)
  }
}
