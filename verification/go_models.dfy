/** The Go service's request shapes and their `Validate` methods. The record it
    returns is the table row, `Table.Sensor`. */
module GoModels {
  import opened Wrappers
  import Table

  /** The keys of the `ValidSensorTypes` map. */
  const ValidSensorTypes: set<string> :=
    {"temperature", "motion", "humidity", "light", "air_quality", "co2", "contact", "pressure"}

  /** The keys of the `ValidSensorStatuses` map. */
  const ValidSensorStatuses: set<string> := {"active", "inactive", "error"}

  /** The body of a create request once gin has bound it. */
  datatype SensorCreate = SensorCreate(
    name: string,
    sensorType: string,
    location: string,
    value: real,
    unit: string,
    status: string)

  /** The body of an update request: a nil pointer is an omitted field. */
  datatype SensorUpdate = SensorUpdate(
    name: Option<string>,
    sensorType: Option<string>,
    location: Option<string>,
    value: Option<real>,
    unit: Option<string>,
    status: Option<string>)

  /** The two errors `Validate` builds with `fmt.Errorf`. */
  datatype ValidationError = InvalidType(given: string) | InvalidStatus(given: string)

  const TypeErrorPrefix: string := "invalid sensor type: "
  const StatusErrorPrefix: string := "invalid sensor status: "

  /** The error's text, `err.Error()`. */
  function Message(e: ValidationError): string {
    match e
    case InvalidType(t) => TypeErrorPrefix + t
    case InvalidStatus(s) => StatusErrorPrefix + s
  }

  /** The `binding` tags of `SensorCreate`, which gin checks before the handler
      sees the body: every field `required` (a zero value counts as missing),
      and name, location and unit within their `min`/`max` lengths. */
  predicate BindingTagsAccept(body: SensorCreate) {
    && 1 <= |body.name| <= 100 && body.sensorType != ""
    && 1 <= |body.location| <= 100 && body.value != 0.0
    && 1 <= |body.unit| <= 50 && body.status != ""
  }

  /** `SensorCreate.Validate`: nil (None) when both enumerations accept the body;
      the type is checked first, so a body wrong in both reports its type. */
  function ValidateCreate(body: SensorCreate): (r: Option<ValidationError>)
    ensures r.None? <==> body.sensorType in ValidSensorTypes && body.status in ValidSensorStatuses
    ensures body.sensorType !in ValidSensorTypes ==> r == Some(InvalidType(body.sensorType))
    ensures r == Some(InvalidStatus(body.status)) <==>
              body.sensorType in ValidSensorTypes && body.status !in ValidSensorStatuses
  {
    if body.sensorType !in ValidSensorTypes then Some(InvalidType(body.sensorType))
    else if body.status !in ValidSensorStatuses then Some(InvalidStatus(body.status))
    else None
  }

  /** `SensorUpdate.Validate`: an omitted type or status passes, a supplied one must
      be in its enumeration, and no other field is looked at. */
  function ValidateUpdate(body: SensorUpdate): (r: Option<ValidationError>)
    ensures r.None? <==>
              (body.sensorType.Some? ==> body.sensorType.value in ValidSensorTypes) &&
              (body.status.Some? ==> body.status.value in ValidSensorStatuses)
    ensures body.sensorType.Some? && body.sensorType.value !in ValidSensorTypes ==>
              r == Some(InvalidType(body.sensorType.value))
    ensures r.Some? && r.value.InvalidStatus? ==> body.status == Some(r.value.given)
    ensures r.Some? && r.value.InvalidStatus? <==>
              (body.sensorType.Some? ==> body.sensorType.value in ValidSensorTypes) &&
              body.status.Some? && body.status.value !in ValidSensorStatuses
  {
    if body.sensorType.Some? && body.sensorType.value !in ValidSensorTypes then
      Some(InvalidType(body.sensorType.value))
    else if body.status.Some? && body.status.value !in ValidSensorStatuses then
      Some(InvalidStatus(body.status.value))
    else None
  }

  /** An update that touches only name, location, value and unit always validates,
      even with an empty name: the update shape carries no binding tags. */
  lemma DataOnlyUpdateValidates(body: SensorUpdate)
    requires body.sensorType.None? && body.status.None?
    ensures ValidateUpdate(body).None?
  {
  }

  /** The Go enumerations are exactly the table's CHECK lists. */
  lemma EnumerationsMatchSchema()
    ensures ValidSensorTypes == Table.CheckedTypes
    ensures ValidSensorStatuses == Table.CheckedStatuses
  {
  }

  /** An error message names its field and gives back the offending value:
      different errors never share a message. */
  lemma {:induction false} MessageIdentifiesError(e1: ValidationError, e2: ValidationError)
    requires Message(e1) == Message(e2)
    ensures e1 == e2
  {
    var m := Message(e1);
    assert TypeErrorPrefix[15] == 't' && StatusErrorPrefix[15] == 's';
    assert e1.InvalidType? <==> m[15] == 't';
    assert e2.InvalidType? <==> Message(e2)[15] == 't';
    if e1.InvalidType? {
      assert e1.given == m[|TypeErrorPrefix|..] == e2.given;
    } else {
      assert e1.given == m[|StatusErrorPrefix|..] == e2.given;
    }
  }
}
