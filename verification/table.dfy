/** The `sensors` table as both services create it: one row per sensor, keyed by
    its text id, with CHECK constraints on the type and status columns. SQL text
    and connections are abstracted into a finite map from id to row. */
module Table {
  import opened Wrappers
  import opened Sqlite

  /** A clock reading, passed in by the caller; its text format is not modelled. */
  type Timestamp = string

  /** One row of the table, which is also the record both services return. */
  datatype Sensor = Sensor(
    id: string,
    name: string,
    sensorType: string,
    location: string,
    value: real,
    unit: string,
    status: string,
    lastReading: Timestamp,
    createdAt: Timestamp,
    updatedAt: Timestamp)

  /** The list in `CHECK(type IN (...))`. */
  const CheckedTypes: set<string> :=
    {"temperature", "motion", "humidity", "light", "air_quality", "co2", "contact", "pressure"}

  /** The list in `CHECK(status IN (...))`. */
  const CheckedStatuses: set<string> := {"active", "inactive", "error"}

  predicate SatisfiesChecks(row: Sensor) {
    row.sensorType in CheckedTypes && row.status in CheckedStatuses
  }

  type Store = map<string, Sensor>

  /** What the table guarantees of its contents: the key is the row's own
      primary key, and every row passed the CHECK constraints when it was written. */
  predicate Valid(store: Store) {
    forall id :: id in store ==> store[id].id == id && SatisfiesChecks(store[id])
  }

  /** Why SQLite refused a statement: a constraint, or a failure of the engine
      itself (an unreadable file, a lost connection), which the abstract table
      never produces but a handler must still answer. Message texts are not modelled. */
  datatype DbError = CheckFailed | NotNullFailed | DuplicateId | Unavailable

  /** `INSERT INTO sensors ...`: the CHECK constraints are tested before the
      primary key, and a refused row leaves the table as it was. */
  function Insert(store: Store, row: Sensor): (r: Result<Store, DbError>)
    ensures r.Ok? <==> SatisfiesChecks(row) && row.id !in store
    ensures !SatisfiesChecks(row) ==> r == Err(CheckFailed)
    ensures r.Ok? ==> r.value.Keys == store.Keys + {row.id} && r.value[row.id] == row
    ensures r.Ok? ==> forall id :: id in store ==> r.value[id] == store[id]
    ensures r.Ok? && Valid(store) ==> Valid(r.value)
  {
    if !SatisfiesChecks(row) then Err(CheckFailed)
    else if row.id in store then Err(DuplicateId)
    else Ok(store[row.id := row])
  }

  /** `UPDATE sensors SET ... WHERE id = ?` writing the whole new row. An id that
      matches nothing changes nothing and succeeds, since SQLite tests the CHECK
      constraints only on the rows the WHERE clause selects; a matched row that
      fails a CHECK is refused. */
  function UpdateRow(store: Store, row: Sensor): (r: Result<Store, DbError>)
    ensures r.Ok? <==> row.id !in store || SatisfiesChecks(row)
    ensures r.Err? ==> r.error == CheckFailed
    ensures r.Ok? && row.id in store ==> r.value == store[row.id := row]
    ensures row.id !in store ==> r == Ok(store)
    ensures r.Ok? && Valid(store) ==> Valid(r.value)
  {
    if row.id !in store then Ok(store)
    else if !SatisfiesChecks(row) then Err(CheckFailed)
    else Ok(store[row.id := row])
  }

  /** `DELETE FROM sensors WHERE id = ?`, with the number of rows it removed. */
  function DeleteRow(store: Store, id: string): (r: (Store, nat))
    ensures r.0.Keys == store.Keys - {id}
    ensures forall k :: k in r.0 ==> r.0[k] == store[k]
    ensures r.1 == if id in store then 1 else 0
    ensures Valid(store) ==> Valid(r.0)
  {
    (store - {id}, if id in store then 1 else 0)
  }

  /** `SELECT ... WHERE id = ?`: no row is an absent result, not an error. */
  function SelectById(store: Store, id: string): (r: Option<Sensor>)
    ensures r.Some? <==> id in store
    ensures r.Some? ==> r.value == store[id]
    ensures Valid(store) && r.Some? ==> r.value.id == id
  {
    if id in store then Some(store[id]) else None
  }

  /** The rows stored under ids, in the order of ids. */
  function RowsOf(store: Store, ids: seq<string>): (r: seq<Sensor>)
    requires forall i :: 0 <= i < |ids| ==> ids[i] in store
    ensures |r| == |ids|
    ensures forall i :: 0 <= i < |ids| ==> r[i] == store[ids[i]]
  {
    if ids == [] then [] else [store[ids[0]]] + RowsOf(store, ids[1..])
  }

  /** `SELECT ... ORDER BY id`: every row exactly once, in ascending id order. */
  function SelectAll(store: Store): (r: seq<Sensor>)
    ensures |r| == |store|
    ensures forall i :: 0 <= i < |r| ==> r[i] in store.Values
    ensures Valid(store) ==> forall i, j :: 0 <= i < j < |r| ==> Below(r[i].id, r[j].id)
    ensures store == map[] ==> r == []
  {
    var ids := SortedKeys(store.Keys);
    assert |store.Keys| == |store|;
    RowsOf(store, ids)
  }

  /** Every stored row appears in the listing. */
  lemma SelectAllComplete(store: Store, id: string)
    requires id in store
    ensures store[id] in SelectAll(store)
  {
    var ids := SortedKeys(store.Keys);
    var i :| 0 <= i < |ids| && ids[i] == id;
    assert SelectAll(store)[i] == store[id];
  }
}
