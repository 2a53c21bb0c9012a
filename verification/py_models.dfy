/** The Python service's request models: the `SensorType` and `SensorStatus`
    enumerations, the field bounds pydantic enforces on a request body, and the
    optional-field shape of an update. */
module PyModels {
  import opened Wrappers
  import Table

  datatype SensorType = Temperature | Motion | Humidity | Light | AirQuality | Co2 | Contact | Pressure

  datatype SensorStatus = Active | Inactive | Error

  /** The enumeration member's `.value`. */
  function TypeValue(t: SensorType): string {
    match t
    case Temperature => "temperature"
    case Motion => "motion"
    case Humidity => "humidity"
    case Light => "light"
    case AirQuality => "air_quality"
    case Co2 => "co2"
    case Contact => "contact"
    case Pressure => "pressure"
  }

  function StatusValue(s: SensorStatus): string {
    match s
    case Active => "active"
    case Inactive => "inactive"
    case Error => "error"
  }

  /** Looking a member up by value, as pydantic does for a JSON string. */
  function ParseType(s: string): (r: Option<SensorType>)
    ensures r.Some? ==> TypeValue(r.value) == s
    ensures r.Some? <==> s in Table.CheckedTypes
  {
    match s
    case "temperature" => Some(Temperature)
    case "motion" => Some(Motion)
    case "humidity" => Some(Humidity)
    case "light" => Some(Light)
    case "air_quality" => Some(AirQuality)
    case "co2" => Some(Co2)
    case "contact" => Some(Contact)
    case "pressure" => Some(Pressure)
    case _ => None
  }

  function ParseStatus(s: string): (r: Option<SensorStatus>)
    ensures r.Some? ==> StatusValue(r.value) == s
    ensures r.Some? <==> s in Table.CheckedStatuses
  {
    match s
    case "active" => Some(Active)
    case "inactive" => Some(Inactive)
    case "error" => Some(Error)
    case _ => None
  }

  /** Every member's value is accepted by the table, and reads back as that member. */
  lemma EnumValuesRoundTrip(t: SensorType, s: SensorStatus)
    ensures ParseType(TypeValue(t)) == Some(t) && TypeValue(t) in Table.CheckedTypes
    ensures ParseStatus(StatusValue(s)) == Some(s) && StatusValue(s) in Table.CheckedStatuses
  {
  }

  /** `SensorType` has exactly the eight values and `SensorStatus` the three. */
  lemma EnumerationSizes()
    ensures |Table.CheckedTypes| == 8 && |Table.CheckedStatuses| == 3
    ensures forall v :: v in Table.CheckedTypes ==> exists t :: TypeValue(t) == v
    ensures forall v :: v in Table.CheckedStatuses ==> exists s :: StatusValue(s) == v
  {
    forall v | v in Table.CheckedTypes
      ensures exists t :: TypeValue(t) == v
    {
      assert TypeValue(ParseType(v).value) == v;
    }
    forall v | v in Table.CheckedStatuses
      ensures exists s :: StatusValue(s) == v
    {
      assert StatusValue(ParseStatus(v).value) == v;
    }
  }

  /** `Union[float, int, bool]` after pydantic picked the member matching the JSON. */
  datatype PyValue = PyFloat(f: real) | PyInt(i: int) | PyBool(b: bool)

  /** A field of an update body: omitted, explicitly null, or given a value. */
  datatype Field<T> = Unset | Null | Given(value: T)

  /** A validated `SensorCreate`. */
  datatype SensorCreate = SensorCreate(
    name: string,
    sensorType: SensorType,
    location: string,
    value: PyValue,
    unit: string,
    status: SensorStatus)

  /** A validated `SensorUpdate`. */
  datatype SensorUpdate = SensorUpdate(
    name: Field<string>,
    sensorType: Field<SensorType>,
    location: Field<string>,
    value: Field<PyValue>,
    unit: Field<string>,
    status: Field<SensorStatus>)

  /** A create body as decoded from JSON, before model validation; None is a
      missing or null field. */
  datatype RawCreate = RawCreate(
    name: Option<string>,
    sensorType: Option<string>,
    location: Option<string>,
    value: Option<PyValue>,
    unit: Option<string>,
    status: Option<string>)

  /** An update body as decoded from JSON, before model validation. */
  datatype RawUpdate = RawUpdate(
    name: Field<string>,
    sensorType: Field<string>,
    location: Field<string>,
    value: Field<PyValue>,
    unit: Field<string>,
    status: Field<string>)

  const NameMax: nat := 100
  const LocationMax: nat := 100
  const UnitMax: nat := 50

  /** `min_length=1, max_length=max`. */
  predicate LengthOk(s: string, max: nat) {
    1 <= |s| <= max
  }

  /** The three text fields of a create body within the bounds pydantic enforces. */
  predicate CreateWithinBounds(b: SensorCreate) {
    LengthOk(b.name, NameMax) && LengthOk(b.location, LocationMax) && LengthOk(b.unit, UnitMax)
  }

  /** `SensorCreate` validation: every field required, the three text fields
      within their bounds, type and status members of their enumerations.
      None is the 422 response. */
  function ValidateCreate(raw: RawCreate): (r: Option<SensorCreate>)
    ensures r.Some? <==>
              && raw.name.Some? && LengthOk(raw.name.value, NameMax)
              && raw.sensorType.Some? && raw.sensorType.value in Table.CheckedTypes
              && raw.location.Some? && LengthOk(raw.location.value, LocationMax)
              && raw.value.Some?
              && raw.unit.Some? && LengthOk(raw.unit.value, UnitMax)
              && raw.status.Some? && raw.status.value in Table.CheckedStatuses
    ensures r.Some? ==>
              && r.value.name == raw.name.value
              && TypeValue(r.value.sensorType) == raw.sensorType.value
              && r.value.location == raw.location.value
              && r.value.value == raw.value.value
              && r.value.unit == raw.unit.value
              && StatusValue(r.value.status) == raw.status.value
    ensures r.Some? ==> CreateWithinBounds(r.value)
  {
    if raw.name.None? || !LengthOk(raw.name.value, NameMax) then None
    else if raw.sensorType.None? || ParseType(raw.sensorType.value).None? then None
    else if raw.location.None? || !LengthOk(raw.location.value, LocationMax) then None
    else if raw.value.None? then None
    else if raw.unit.None? || !LengthOk(raw.unit.value, UnitMax) then None
    else if raw.status.None? || ParseStatus(raw.status.value).None? then None
    else
      Some(SensorCreate(raw.name.value, ParseType(raw.sensorType.value).value,
                        raw.location.value, raw.value.value, raw.unit.value,
                        ParseStatus(raw.status.value).value))
  }

  /** A given text field must respect its bounds; an omitted or null one passes. */
  predicate FieldLengthOk(f: Field<string>, max: nat) {
    f.Given? ==> LengthOk(f.value, max)
  }

  /** Every given text field of an update body within its bounds. */
  predicate UpdateWithinBounds(b: SensorUpdate) {
    FieldLengthOk(b.name, NameMax) && FieldLengthOk(b.location, LocationMax) && FieldLengthOk(b.unit, UnitMax)
  }

  function ParseField<T>(f: Field<string>, parse: string -> Option<T>): Field<T>
    requires f.Given? ==> parse(f.value).Some?
  {
    match f
    case Unset => Unset
    case Null => Null
    case Given(v) => Given(parse(v).value)
  }

  /** `SensorUpdate` validation: every field optional, and a given field obeys the
      same bounds as on create. None is the 422 response. */
  function ValidateUpdate(raw: RawUpdate): (r: Option<SensorUpdate>)
    ensures r.Some? <==>
              && FieldLengthOk(raw.name, NameMax)
              && (raw.sensorType.Given? ==> raw.sensorType.value in Table.CheckedTypes)
              && FieldLengthOk(raw.location, LocationMax)
              && FieldLengthOk(raw.unit, UnitMax)
              && (raw.status.Given? ==> raw.status.value in Table.CheckedStatuses)
    ensures r.Some? ==>
              && r.value.name == raw.name && r.value.location == raw.location
              && r.value.value == raw.value && r.value.unit == raw.unit
              && (r.value.sensorType.Given? <==> raw.sensorType.Given?)
              && (r.value.sensorType.Null? <==> raw.sensorType.Null?)
              && (r.value.sensorType.Given? ==> TypeValue(r.value.sensorType.value) == raw.sensorType.value)
              && (r.value.status.Given? <==> raw.status.Given?)
              && (r.value.status.Null? <==> raw.status.Null?)
              && (r.value.status.Given? ==> StatusValue(r.value.status.value) == raw.status.value)
    ensures r.Some? ==> UpdateWithinBounds(r.value)
  {
    if !FieldLengthOk(raw.name, NameMax) || !FieldLengthOk(raw.location, LocationMax)
       || !FieldLengthOk(raw.unit, UnitMax) then None
    else if raw.sensorType.Given? && ParseType(raw.sensorType.value).None? then None
    else if raw.status.Given? && ParseStatus(raw.status.value).None? then None
    else
      Some(SensorUpdate(raw.name, ParseField(raw.sensorType, ParseType), raw.location,
                        raw.value, raw.unit, ParseField(raw.status, ParseStatus)))
  }
}
