/** `SeedFromJSON` of the Go service: seed an empty table from the fixture file,
    one autocommitted insert per fixture, stopping at the first refused insert. */
module GoSeed {
  import opened Wrappers
  import opened Table
  import opened SeedData

  /** A string member of `SensorJSON`: an absent or null member decodes to "". */
  function TextOf(f: TextField): string {
    if f.Str? then f.s else ""
  }

  /** The value coercion of the insert loop. `encoding/json` decodes every JSON
      number to `float64`, so the `int` case of the type switch never applies; a
      string, a null or an absent member leaves the zero value 0.0. */
  function CoerceValue(v: Option<JsonValue>): (r: real)
    ensures v == Some(JBool(true)) ==> r == 1.0
    ensures v == Some(JBool(false)) ==> r == 0.0
    ensures v.Some? && v.value.JNumber? ==> r == v.value.n
    ensures v.None? || v.value.JString? || v.value.JNull? ==> r == 0.0
    ensures v.Some? && (v.value.JNumber? || v.value.JBool?) ==> r == StoredValue(v.value)
  {
    if v.Some? && (v.value.JNumber? || v.value.JBool?) then StoredValue(v.value) else 0.0
  }

  /** The row inserted for a fixture. */
  function GoRow(f: Fixture, now: Timestamp): (row: Sensor)
    ensures Clean(f) ==> Carries(f, row, now)
    ensures row.id == TextOf(f.id) && row.lastReading == TextOf(f.lastReading)
    ensures row.createdAt == now && row.updatedAt == now
  {
    Sensor(TextOf(f.id), TextOf(f.name), TextOf(f.sensorType), TextOf(f.location),
           CoerceValue(f.value), TextOf(f.unit), TextOf(f.status), TextOf(f.lastReading),
           now, now)
  }

  function GoRows(fs: seq<Fixture>, now: Timestamp): (rows: seq<Sensor>)
    ensures |rows| == |fs|
    ensures forall i :: 0 <= i < |fs| ==> rows[i] == GoRow(fs[i], now)
  {
    seq(|fs|, i requires 0 <= i < |fs| => GoRow(fs[i], now))
  }

  /** The insert loop: rows go in in order, each one committed on its own; the
      first refused insert ends the loop with its error. */
  function InsertEach(store: Store, rows: seq<Sensor>): (r: (Store, Option<DbError>))
    ensures forall id :: id in store ==> id in r.0 && r.0[id] == store[id]
    ensures r.1.None? ==> r.0.Keys == store.Keys + IdsOf(rows)
    ensures r.1.None? ==> forall i :: 0 <= i < |rows| ==> rows[i].id in r.0 && r.0[rows[i].id] == rows[i]
    ensures Valid(store) ==> Valid(r.0)
    decreases |rows|
  {
    if rows == [] then (store, None)
    else match Insert(store, rows[0])
      case Err(e) => (store, Some(e))
      case Ok(next) =>
        var r := InsertEach(next, rows[1..]);
        assert IdsOf(rows) == {rows[0].id} + IdsOf(rows[1..]) by {
          forall id | id in IdsOf(rows)
            ensures id in {rows[0].id} + IdsOf(rows[1..])
          {
            var i :| 0 <= i < |rows| && rows[i].id == id;
            if i > 0 {
              assert rows[1..][i - 1].id == id;
            }
          }
          forall id | id in IdsOf(rows[1..])
            ensures id in IdsOf(rows)
          {
            var i :| 0 <= i < |rows[1..]| && rows[1..][i].id == id;
            assert rows[i + 1].id == id;
          }
        }
        assert forall i :: 1 <= i < |rows| ==> rows[i] == rows[1..][i - 1];
        r
  }

  /** `SeedFromJSON`: nothing happens when the table has rows or the file is
      missing; a read or decode error is returned; otherwise the fixtures are
      inserted in file order. */
  function SeedFromJson(store: Store, file: SeedFile, now: Timestamp): (r: (Store, Option<SeedError>))
    ensures |store| > 0 || file.Missing? ==> r == (store, None)
    ensures |store| == 0 && file.Unreadable? ==> r == (store, Some(ReadFailed))
    ensures |store| == 0 && file.Malformed? ==> r == (store, Some(ParseFailed))
    ensures r.1.Some? && file.Fixtures? ==> r.1.value.InsertFailed?
    ensures |store| == 0 && file.Fixtures? && r.1.None? ==>
              forall i :: 0 <= i < |file.items| ==>
                var id := TextOf(file.items[i].id);
                id in r.0 && r.0[id] == GoRow(file.items[i], now)
    ensures |store| == 0 && file.Fixtures? && r.1.None? && (forall i :: 0 <= i < |file.items| ==> Clean(file.items[i])) ==>
              forall i :: 0 <= i < |file.items| ==>
                file.items[i].id.s in r.0 && Carries(file.items[i], r.0[file.items[i].id.s], now)
    ensures Valid(store) ==> Valid(r.0)
  {
    if |store| > 0 then (store, None)
    else match file
      case Missing => (store, None)
      case Unreadable => (store, Some(ReadFailed))
      case Malformed => (store, Some(ParseFailed))
      case Fixtures(fs) =>
        var (written, failure) := InsertEach(store, GoRows(fs, now));
        match failure
        case None => (written, None)
        case Some(e) => (written, Some(InsertFailed(e)))
  }

  /** `InsertEach` ran the first k rows to completion, ending on `written`, and
      the row at position k was refused with `e`. */
  predicate StopsAt(store: Store, rows: seq<Sensor>, k: nat, written: Store, e: DbError) {
    && k < |rows|
    && InsertEach(store, rows[..k]) == (written, None)
    && Insert(written, rows[k]) == Err(e)
  }

  /** One step of the loop over a row that was accepted. */
  lemma InsertEachStep(store: Store, rows: seq<Sensor>)
    requires rows != [] && Insert(store, rows[0]).Ok?
    ensures InsertEach(store, rows) == InsertEach(Insert(store, rows[0]).value, rows[1..])
  {
  }

  /** When an insert is refused, the table holds exactly what the inserts before
      it wrote, and the refused row is the next one, refused with the error returned. */
  lemma {:induction false} FailureKeepsEarlierRows(store: Store, rows: seq<Sensor>)
    requires InsertEach(store, rows).1.Some?
    ensures exists k: nat :: StopsAt(store, rows, k, InsertEach(store, rows).0, InsertEach(store, rows).1.value)
    decreases |rows|
  {
    var r := InsertEach(store, rows);
    if Insert(store, rows[0]).Err? {
      assert rows[..0] == [];
      assert StopsAt(store, rows, 0, r.0, r.1.value);
    } else {
      var next := Insert(store, rows[0]).value;
      InsertEachStep(store, rows);
      FailureKeepsEarlierRows(next, rows[1..]);
      var k': nat :| StopsAt(next, rows[1..], k', r.0, r.1.value);
      var prefix := rows[..k' + 1];
      assert prefix[0] == rows[0] && prefix[1..] == rows[1..][..k'];
      InsertEachStep(store, prefix);
      assert rows[k' + 1] == rows[1..][k'];
      assert StopsAt(store, rows, k' + 1, r.0, r.1.value);
    }
  }
}
