/** `SensorRepository` of the Python service over the abstract table. `get_all` and
    `get_by_id` are the plain selects `Table.SelectAll` and `Table.SelectById`; this
    module holds the writes and the value conversion. The clock is passed in and is
    read once per write. */
module PyRepository {
  import opened Wrappers
  import opened Table
  import opened IdGen
  import opened PyModels
  import SeedData

  /** `_convert_value_for_storage`: a bool becomes 1.0 or 0.0 (tested before the
      number cases, since a Python bool is also an int), any other number its float.
      The request path stores the same value the seed path stores for the same JSON. */
  function ConvertValueForStorage(v: PyValue): (r: real)
    ensures v == PyBool(true) ==> r == 1.0
    ensures v == PyBool(false) ==> r == 0.0
    ensures v.PyInt? ==> r == v.i as real
    ensures v.PyFloat? ==> r == v.f
    ensures v.PyBool? ==> r == SeedData.StoredValue(SeedData.JBool(v.b))
    ensures v.PyInt? ==> r == SeedData.StoredValue(SeedData.JNumber(v.i as real))
    ensures v.PyFloat? ==> r == SeedData.StoredValue(SeedData.JNumber(v.f))
  {
    match v
    case PyBool(b) => SeedData.StoredValue(SeedData.JBool(b))
    case PyInt(i) => SeedData.StoredValue(SeedData.JNumber(i as real))
    case PyFloat(f) => SeedData.StoredValue(SeedData.JNumber(f))
  }

  /** Why a repository call raised: the table refused a statement, or a stored
      row failed the pydantic `Sensor` model `_row_to_sensor` builds. */
  datatype RepoError = Storage(cause: DbError) | RowRejected

  /** What `_row_to_sensor` demands of a stored row: the three text fields within
      the same bounds as a request body, and type and status members of their
      enumerations. The seed loader writes rows without these checks. */
  predicate Presentable(s: Sensor) {
    && LengthOk(s.name, NameMax) && LengthOk(s.location, LocationMax) && LengthOk(s.unit, UnitMax)
    && SatisfiesChecks(s)
  }

  predicate AllPresentable(store: Store) {
    forall id :: id in store ==> Presentable(store[id])
  }

  /** `[self._row_to_sensor(row) for row in rows]`: the rows as they are, or the
      error of the first one pydantic refuses. */
  function RowsToSensors(rows: seq<Sensor>): (r: Result<seq<Sensor>, RepoError>)
    ensures r.Ok? <==> forall i :: 0 <= i < |rows| ==> Presentable(rows[i])
    ensures r.Ok? ==> r.value == rows
    ensures r.Err? ==> r.error == RowRejected
  {
    if rows == [] then Ok([])
    else if !Presentable(rows[0]) then Err(RowRejected)
    else match RowsToSensors(rows[1..])
      case Err(e) => Err(e)
      case Ok(rest) => Ok([rows[0]] + rest)
  }

  /** `get_all`: every row ascending by id, or an error when any stored row fails
      the response model. */
  function GetAll(store: Store): (r: Result<seq<Sensor>, RepoError>)
    ensures r.Ok? <==> AllPresentable(store)
    ensures r.Ok? ==> r.value == SelectAll(store)
    ensures r.Err? ==> r.error == RowRejected
  {
    var rows := SelectAll(store);
    forall id | id in store
      ensures store[id] in rows
    {
      SelectAllComplete(store, id);
    }
    RowsToSensors(rows)
  }

  /** `get_by_id`: None for a missing id, the row for a present one, and an
      error when the stored row fails the response model. */
  function GetById(store: Store, id: string): (r: Result<Option<Sensor>, RepoError>)
    ensures id !in store ==> r == Ok(None)
    ensures id in store ==> (r.Ok? <==> Presentable(store[id]))
    ensures id in store && r.Ok? ==> r.value == Some(store[id])
    ensures r.Err? ==> r.error == RowRejected
  {
    match SelectById(store, id)
    case None => Ok(None)
    case Some(row) => if Presentable(row) then Ok(Some(row)) else Err(RowRejected)
  }

  /** `create`: next id, one clock reading for all three timestamps, the stored
      value converted, the enumeration members written by value; the insert is
      committed before the new row is read back through `get_by_id`. */
  function Create(store: Store, body: SensorCreate, now: Timestamp): (r: (Store, Result<Sensor, RepoError>))
    ensures var id := SensorId(PyNextNumber(store));
            && id == NextId(store)
            && id !in store && id in r.0
            && r.0 == store[id := r.0[id]]
            && var s := r.0[id];
            && s.id == id
            && s.name == body.name && s.sensorType == TypeValue(body.sensorType)
            && s.location == body.location && s.value == ConvertValueForStorage(body.value)
            && s.unit == body.unit && s.status == StatusValue(body.status)
            && s.lastReading == now && s.createdAt == now && s.updatedAt == now
    ensures r.1.Ok? <==> CreateWithinBounds(body)
    ensures r.1.Ok? ==> r.1.value == r.0[NextId(store)] && SelectById(r.0, r.1.value.id) == Some(r.1.value)
    ensures Valid(store) ==> Valid(r.0)
    ensures AllPresentable(store) && CreateWithinBounds(body) ==> AllPresentable(r.0)
  {
    var id := SensorId(PyNextNumber(store));
    NextNumbersAgree(store);
    var row := Sensor(id, body.name, TypeValue(body.sensorType), body.location,
                      ConvertValueForStorage(body.value), body.unit, StatusValue(body.status),
                      now, now, now);
    NextIdFresh(store);
    EnumValuesRoundTrip(body.sensorType, body.status);
    match Insert(store, row)
    case Err(e) => (store, Err(Storage(e)))
    case Ok(written) =>
      match GetById(written, id)
      case Err(e) => (written, Err(e))
      case Ok(found) => (written, Ok(found.value))
  }

  /** A field that survives `model_dump(exclude_unset=True)` and the `is not None` test. */
  predicate Supplied<T>(f: Field<T>) {
    f.Given?
  }

  /** True when no field of the body would reach the UPDATE statement. */
  predicate NothingSupplied(body: SensorUpdate) {
    !Supplied(body.name) && !Supplied(body.sensorType) && !Supplied(body.location)
    && !Supplied(body.value) && !Supplied(body.unit) && !Supplied(body.status)
  }

  function GivenOr<T>(f: Field<T>, default: T): T {
    if f.Given? then f.value else default
  }

  /** The row after an update with at least one supplied field. */
  function Patched(prev: Sensor, id: string, body: SensorUpdate, now: Timestamp): Sensor {
    Sensor(id,
           GivenOr(body.name, prev.name),
           if body.sensorType.Given? then TypeValue(body.sensorType.value) else prev.sensorType,
           GivenOr(body.location, prev.location),
           if body.value.Given? then ConvertValueForStorage(body.value.value) else prev.value,
           GivenOr(body.unit, prev.unit),
           if body.status.Given? then StatusValue(body.status.value) else prev.status,
           now, prev.createdAt, now)
  }

  /** `s` is `prev` with exactly the given fields of `body` written over it;
      omitted and explicitly null fields keep their stored values. */
  predicate OverwritesGiven(prev: Sensor, body: SensorUpdate, s: Sensor) {
    && (if body.name.Given? then s.name == body.name.value else s.name == prev.name)
    && (if body.sensorType.Given? then s.sensorType == TypeValue(body.sensorType.value)
        else s.sensorType == prev.sensorType)
    && (if body.location.Given? then s.location == body.location.value else s.location == prev.location)
    && (if body.value.Given? then s.value == ConvertValueForStorage(body.value.value)
        else s.value == prev.value)
    && (if body.unit.Given? then s.unit == body.unit.value else s.unit == prev.unit)
    && (if body.status.Given? then s.status == StatusValue(body.status.value) else s.status == prev.status)
  }

  /** `update`: the stored record is read first, so a missing id is None and a
      row the response model refuses raises before anything is written; the
      record untouched, timestamps included, when nothing was supplied; otherwise
      the given fields written, `updated_at` and `last_reading` set to one clock
      reading, and the row read back. */
  function Update(store: Store, id: string, body: SensorUpdate, now: Timestamp)
    : (r: (Store, Result<Option<Sensor>, RepoError>))
    ensures id !in store ==> r == (store, Ok(None))
    ensures id in store && !Presentable(store[id]) ==> r == (store, Err(RowRejected))
    ensures id in store && Presentable(store[id]) && NothingSupplied(body) ==>
              r == (store, Ok(Some(store[id])))
    ensures Valid(store) && id in store && Presentable(store[id]) && !NothingSupplied(body) ==>
              && id in r.0 && r.0 == store[id := r.0[id]]
              && var s := r.0[id];
              && s.id == id && s.createdAt == store[id].createdAt
              && s.updatedAt == now && s.lastReading == now
              && OverwritesGiven(store[id], body, s)
              && (r.1.Ok? <==> UpdateWithinBounds(body))
              && (r.1.Ok? ==> r.1.value == Some(s))
    ensures Valid(store) ==> Valid(r.0)
    ensures Valid(store) && AllPresentable(store) && UpdateWithinBounds(body) ==> AllPresentable(r.0)
  {
    match GetById(store, id)
    case Err(e) => (store, Err(e))
    case Ok(None) => (store, Ok(None))
    case Ok(Some(existing)) =>
      if NothingSupplied(body) then (store, Ok(Some(existing)))
      else
        var row := Patched(store[id], id, body, now);
        EnumValuesRoundTrip(GivenOr(body.sensorType, Temperature), GivenOr(body.status, Active));
        match UpdateRow(store, row)
        case Err(e) => (store, Err(Storage(e)))
        case Ok(written) => (written, GetById(written, id))
  }

  /** `delete`: True exactly when a row was removed. */
  function Delete(store: Store, id: string): (r: (Store, bool))
    ensures r.1 <==> id in store
    ensures !r.1 ==> r.0 == store
    ensures r.0.Keys == store.Keys - {id}
    ensures forall k :: k in r.0 ==> r.0[k] == store[k]
    ensures SelectById(r.0, id).None?
    ensures Valid(store) ==> Valid(r.0)
  {
    var (remaining, removed) := DeleteRow(store, id);
    (remaining, removed > 0)
  }
}
