/** `SQLiteSensorRepository` of the Go service over the abstract table. `GetAll`
    and `GetByID` are the plain selects `Table.SelectAll` and `Table.SelectById`;
    this module holds the three writes. The clock is passed in: Create reads it
    once, Update twice (one `models.Now()` per timestamp column). */
module GoRepository {
  import opened Wrappers
  import opened Table
  import opened IdGen
  import opened GoModels

  /** What a repository call returns as its error: a validation error, an error
      from the driver, or `sql.ErrNoRows` from Delete. */
  datatype RepoError = Invalid(reason: ValidationError) | Db(cause: DbError) | NoRows

  /** A body that passed `Validate` satisfies the table's CHECK constraints. */
  lemma ValidatedRowPassesChecks(body: SensorCreate, row: Sensor)
    requires ValidateCreate(body).None?
    requires row.sensorType == body.sensorType && row.status == body.status
    ensures SatisfiesChecks(row)
  {
    EnumerationsMatchSchema();
  }

  /** The row Create writes: the body's fields, the generated id, one clock reading
      for all three timestamps. */
  function NewRow(id: string, body: SensorCreate, now: Timestamp): Sensor {
    Sensor(id, body.name, body.sensorType, body.location, body.value, body.unit,
           body.status, now, now, now)
  }

  /** `Create`: validate, compute the next id, insert, read the row back. */
  function Create(store: Store, body: SensorCreate, now: Timestamp): (r: (Store, Result<Sensor, RepoError>))
    ensures r.1.Err? <==> ValidateCreate(body).Some?
    ensures r.1.Err? ==> r.0 == store && r.1.error == Invalid(ValidateCreate(body).value)
    ensures r.1.Ok? ==>
              var s := r.1.value;
              && s.id == NextId(store) && s.id !in store
              && r.0 == store[s.id := s]
              && SelectById(r.0, s.id) == Some(s)
              && s.name == body.name && s.sensorType == body.sensorType
              && s.location == body.location && s.value == body.value
              && s.unit == body.unit && s.status == body.status
              && s.lastReading == now && s.createdAt == now && s.updatedAt == now
    ensures Valid(store) ==> Valid(r.0)
  {
    match ValidateCreate(body)
    case Some(e) => (store, Err(Invalid(e)))
    case None =>
      var id := NextId(store);
      var row := NewRow(id, body, now);
      NextIdFresh(store);
      ValidatedRowPassesChecks(body, row);
      match Insert(store, row)
      case Err(e) => (store, Err(Db(e)))
      case Ok(written) => (written, Ok(SelectById(written, id).value))
  }

  /** The row after an update: each supplied field replaces the stored one, the
      two timestamp columns take the two clock readings, and the id and creation
      time are never written. */
  function Patched(prev: Sensor, id: string, body: SensorUpdate, clock1: Timestamp, clock2: Timestamp): Sensor {
    Sensor(id,
           body.name.GetOr(prev.name),
           body.sensorType.GetOr(prev.sensorType),
           body.location.GetOr(prev.location),
           body.value.GetOr(prev.value),
           body.unit.GetOr(prev.unit),
           body.status.GetOr(prev.status),
           clock2, prev.createdAt, clock1)
  }

  /** `s` is `prev` with exactly the supplied fields of `body` written over it. */
  predicate OverwritesSupplied(prev: Sensor, body: SensorUpdate, s: Sensor) {
    && (if body.name.Some? then s.name == body.name.value else s.name == prev.name)
    && (if body.sensorType.Some? then s.sensorType == body.sensorType.value else s.sensorType == prev.sensorType)
    && (if body.location.Some? then s.location == body.location.value else s.location == prev.location)
    && (if body.value.Some? then s.value == body.value.value else s.value == prev.value)
    && (if body.unit.Some? then s.unit == body.unit.value else s.unit == prev.unit)
    && (if body.status.Some? then s.status == body.status.value else s.status == prev.status)
  }

  /** `Update`: a missing id is absent before the body is looked at; an invalid
      body changes nothing; otherwise the supplied fields are written and both
      timestamps refreshed, even when no field was supplied. */
  function Update(store: Store, id: string, body: SensorUpdate, clock1: Timestamp, clock2: Timestamp)
    : (r: (Store, Result<Option<Sensor>, RepoError>))
    ensures id !in store ==> r == (store, Ok(None))
    ensures id in store && ValidateUpdate(body).Some? ==>
              r == (store, Err(Invalid(ValidateUpdate(body).value)))
    ensures Valid(store) && id in store && ValidateUpdate(body).None? ==>
              && r.1.Ok? && r.1.value.Some?
              && var s := r.1.value.value;
              && r.0 == store[id := s]
              && s.id == id && s.createdAt == store[id].createdAt
              && s.updatedAt == clock1 && s.lastReading == clock2
              && OverwritesSupplied(store[id], body, s)
    ensures Valid(store) ==> Valid(r.0)
  {
    if id !in store then (store, Ok(None))
    else match ValidateUpdate(body)
      case Some(e) => (store, Err(Invalid(e)))
      case None =>
        var row := Patched(store[id], id, body, clock1, clock2);
        EnumerationsMatchSchema();
        match UpdateRow(store, row)
        case Err(e) => (store, Err(Db(e)))
        case Ok(written) => (written, Ok(SelectById(written, id)))
  }

  /** `Delete`: `sql.ErrNoRows` exactly when no row was removed. */
  function Delete(store: Store, id: string): (r: (Store, Option<RepoError>))
    ensures r.1.None? <==> id in store
    ensures r.1.Some? ==> r.1.value == NoRows && r.0 == store
    ensures r.0.Keys == store.Keys - {id}
    ensures forall k :: k in r.0 ==> r.0[k] == store[k]
    ensures SelectById(r.0, id).None?
    ensures Valid(store) ==> Valid(r.0)
  {
    var (remaining, removed) := DeleteRow(store, id);
    if removed == 0 then (remaining, Some(NoRows)) else (remaining, None)
  }

  /** An update with no field supplied still rewrites both timestamps and
      leaves every data field as it was. */
  lemma EmptyUpdateRefreshesTimestamps(store: Store, id: string, clock1: Timestamp, clock2: Timestamp)
    requires Valid(store) && id in store
    ensures var r := Update(store, id, SensorUpdate(None, None, None, None, None, None), clock1, clock2);
            r.1 == Ok(Some(store[id].(updatedAt := clock1, lastReading := clock2)))
  {
  }

  /** Reading a row right after a successful update gives the updated record. */
  lemma UpdateThenGet(store: Store, id: string, body: SensorUpdate, clock1: Timestamp, clock2: Timestamp)
    requires Valid(store)
    ensures var r := Update(store, id, body, clock1, clock2);
            r.1.Ok? ==> SelectById(r.0, id) == r.1.value
  {
  }

  /** Repeating an update with the same clock readings changes nothing more. */
  lemma UpdateIdempotent(store: Store, id: string, body: SensorUpdate, clock1: Timestamp, clock2: Timestamp)
    requires Valid(store)
    ensures var r := Update(store, id, body, clock1, clock2);
            Update(r.0, id, body, clock1, clock2) == r
  {
    var r := Update(store, id, body, clock1, clock2);
    if id in store && ValidateUpdate(body).None? {
      var s := r.1.value.value;
      assert Patched(s, id, body, clock1, clock2) == s;
      assert r.0[id := s] == r.0;
    }
  }

  /** Ids are not reserved: deleting the sensor just created and creating again
      hands out the same id, because the next number is computed from the ids
      present, not from those ever assigned. */
  lemma DeletedIdIsReused(store: Store, first: SensorCreate, second: SensorCreate, now: Timestamp, later: Timestamp)
    requires ValidateCreate(first).None? && ValidateCreate(second).None?
    ensures var (s1, created) := Create(store, first, now);
            var (s2, _) := Delete(s1, created.value.id);
            var (_, again) := Create(s2, second, later);
            again.Ok? && again.value.id == created.value.id
  {
    var (s1, created) := Create(store, first, now);
    var (s2, _) := Delete(s1, created.value.id);
    assert s2 == store;
  }
}
