/** The seed file both services read at start-up: a JSON array of sensor
    fixtures, each carrying its own id and last reading. Reading and decoding the
    file are not modelled; a fixture is given as the decoded JSON members. */
module SeedData {
  import opened Wrappers
  import opened Table

  /** A JSON value as the decoder hands it over. */
  datatype JsonValue = JNumber(n: real) | JBool(b: bool) | JString(s: string) | JNull

  /** A text member of a fixture: absent from the object, null, or a string. */
  datatype TextField = Absent | Null | Str(s: string)

  /** One element of the array; `value` is None when the member is absent. */
  datatype Fixture = Fixture(
    id: TextField,
    name: TextField,
    sensorType: TextField,
    location: TextField,
    value: Option<JsonValue>,
    unit: TextField,
    status: TextField,
    lastReading: TextField)

  /** The outcome of opening and decoding the seed path. */
  datatype SeedFile = Missing | Unreadable | Malformed | Fixtures(items: seq<Fixture>)

  /** Why seeding stopped: the file could not be read or decoded, a member was
      absent (Python's `KeyError`), a value the model cannot store, or a refused insert. */
  datatype SeedError = ReadFailed | ParseFailed | KeyMissing | UnsupportedValue | InsertFailed(cause: DbError)

  /** Every member present and a string, and the value a number or a boolean. */
  predicate Clean(f: Fixture) {
    && f.id.Str? && f.name.Str? && f.sensorType.Str? && f.location.Str?
    && f.unit.Str? && f.status.Str? && f.lastReading.Str?
    && f.value.Some? && (f.value.value.JNumber? || f.value.value.JBool?)
  }

  /** The ids a sequence of rows carries. */
  function IdsOf(rows: seq<Sensor>): set<string> {
    set i | 0 <= i < |rows| :: rows[i].id
  }

  /** How a number or a boolean value is stored: a number as it is, a boolean as
      1.0 or 0.0. Both seed loaders and the Python request path use this one
      definition; what each does with any other value is stated where it differs. */
  function StoredValue(v: JsonValue): real {
    match v
    case JBool(b) => if b then 1.0 else 0.0
    case JNumber(n) => n
    case _ => 0.0
  }

  /** `row` is what seeding writes for a clean fixture: the fixture's own id, text
      members and last reading, its value as stored, and one clock reading for
      both the creation and the update time. */
  predicate Carries(f: Fixture, row: Sensor, now: Timestamp) {
    && Clean(f)
    && row.id == f.id.s && row.name == f.name.s && row.sensorType == f.sensorType.s
    && row.location == f.location.s && row.value == StoredValue(f.value.value)
    && row.unit == f.unit.s && row.status == f.status.s
    && row.lastReading == f.lastReading.s
    && row.createdAt == now && row.updatedAt == now
  }
}
