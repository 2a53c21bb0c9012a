/** The `/sensors` router of the Python service: how each endpoint turns the
    request body's validation and the repository's answer into a status code and
    a JSON body. The bearer check in front of it is not part of this model. */
module PyRouters {
  import opened Wrappers
  import opened Table
  import opened PyModels
  import PyRepository
  import IdGen

  /** A response body: nothing (204), one record, the list shape, an
      `HTTPException` detail, pydantic's list of validation errors (not modelled),
      or the plain text of an unhandled exception. */
  datatype Body =
    | Empty
    | SensorBody(sensor: Sensor)
    | ListBody(sensors: seq<Sensor>, count: int)
    | DetailBody(detail: string)
    | ValidationErrors
    | PlainText(text: string)

  datatype Response = Response(status: int, body: Body)

  function NotFoundDetail(id: string): string {
    "No sensor with id '" + id + "'"
  }

  function NotFound(id: string): Response {
    Response(404, DetailBody(NotFoundDetail(id)))
  }

  /** The 422 FastAPI answers before the endpoint runs when the body does not validate. */
  const Unprocessable: Response := Response(422, ValidationErrors)

  /** An exception escaping the endpoint becomes a 500 with a plain-text body. */
  const ServerError: Response := Response(500, PlainText("Internal Server Error"))

  /** `list_sensors`: every row once, ascending by id, with the count; a 500 when
      any stored row fails the response model. */
  function ListSensors(store: Store): (r: Response)
    ensures r.status == 200 <==> PyRepository.AllPresentable(store)
    ensures r.status != 200 ==> r == ServerError
    ensures r.status == 200 ==>
              && r.body.ListBody?
              && r.body.count == |r.body.sensors| == |store|
              && (forall i :: 0 <= i < |r.body.sensors| ==> r.body.sensors[i] in store.Values)
              && (forall id :: id in store ==> store[id] in r.body.sensors)
    ensures r.status == 200 && Valid(store) ==>
              forall i, j :: 0 <= i < j < |r.body.sensors| ==>
                Sqlite.Below(r.body.sensors[i].id, r.body.sensors[j].id)
  {
    forall id | id in store
      ensures store[id] in SelectAll(store)
    {
      SelectAllComplete(store, id);
    }
    match PyRepository.GetAll(store)
    case Err(_) => ServerError
    case Ok(rows) => Response(200, ListBody(rows, |rows|))
  }

  /** `get_sensor`: the stored record, 404 naming the id, or a 500 when the
      stored row fails the response model. */
  function GetSensor(store: Store, id: string): (r: Response)
    ensures r.status == 200 <==> id in store && PyRepository.Presentable(store[id])
    ensures r.status == 200 ==> r.body == SensorBody(store[id])
    ensures id in store && !PyRepository.Presentable(store[id]) ==> r == ServerError
    ensures id !in store ==> r == NotFound(id)
  {
    match PyRepository.GetById(store, id)
    case Err(_) => ServerError
    case Ok(None) => NotFound(id)
    case Ok(Some(s)) => Response(200, SensorBody(s))
  }

  /** `create_sensor`: 422 for a body `SensorCreate` refuses, without reaching the
      repository; otherwise 201 with the stored record. */
  function CreateSensor(store: Store, raw: RawCreate, now: Timestamp): (r: (Store, Response))
    ensures r.1.status == 201 || r.1.status == 422
    ensures r.1.status == 201 <==> ValidateCreate(raw).Some?
    ensures r.1.status == 422 ==> r == (store, Unprocessable)
    ensures r.1.status == 201 ==>
              && r.1.body.SensorBody?
              && r.1.body.sensor.id == IdGen.NextId(store)
              && r.0 == store[r.1.body.sensor.id := r.1.body.sensor]
              && r.1.body.sensor.name == raw.name.value
              && r.1.body.sensor.sensorType == raw.sensorType.value
              && r.1.body.sensor.status == raw.status.value
    ensures Valid(store) ==> Valid(r.0)
  {
    match ValidateCreate(raw)
    case None => (store, Unprocessable)
    case Some(body) =>
      var (written, outcome) := PyRepository.Create(store, body, now);
      (written, Response(201, SensorBody(outcome.value)))
  }

  /** `update_sensor`: 422 for a body `SensorUpdate` refuses, whether or not the
      id exists; 404 naming the id when the repository finds no row; 500 when the
      stored row fails the response model; otherwise 200 with the record. */
  function UpdateSensor(store: Store, id: string, raw: RawUpdate, now: Timestamp): (r: (Store, Response))
    ensures ValidateUpdate(raw).None? ==> r == (store, Unprocessable)
    ensures ValidateUpdate(raw).Some? && id !in store ==> r == (store, NotFound(id))
    ensures ValidateUpdate(raw).Some? && id in store && !PyRepository.Presentable(store[id]) ==>
              r == (store, ServerError)
    ensures Valid(store) && ValidateUpdate(raw).Some? && id in store && PyRepository.Presentable(store[id]) ==>
              && r.1.status == 200 && r.1.body.SensorBody?
              && r.0 == store[id := r.1.body.sensor]
              && r.1.body.sensor.id == id
              && r.1.body.sensor.createdAt == store[id].createdAt
              && PyRepository.OverwritesGiven(store[id], ValidateUpdate(raw).value, r.1.body.sensor)
    ensures Valid(store) && ValidateUpdate(raw).Some? && id in store && PyRepository.Presentable(store[id]) ==>
              if PyRepository.NothingSupplied(ValidateUpdate(raw).value) then r.0 == store
              else r.1.body.sensor.updatedAt == now && r.1.body.sensor.lastReading == now
    ensures Valid(store) ==> Valid(r.0)
  {
    match ValidateUpdate(raw)
    case None => (store, Unprocessable)
    case Some(body) =>
      var (written, outcome) := PyRepository.Update(store, id, body, now);
      match outcome
      case Err(_) => (written, ServerError)
      case Ok(None) => (written, NotFound(id))
      case Ok(Some(s)) => (written, Response(200, SensorBody(s)))
  }

  /** `delete_sensor`: 204 with no body when a row was removed, else 404. */
  function DeleteSensor(store: Store, id: string): (r: (Store, Response))
    ensures r.1.status == 204 <==> id in store
    ensures r.1.status == 204 ==> r.1.body == Empty
    ensures id !in store ==> r == (store, NotFound(id))
    ensures r.0.Keys == store.Keys - {id}
    ensures Valid(store) ==> Valid(r.0)
  {
    var (remaining, deleted) := PyRepository.Delete(store, id);
    if deleted then (remaining, Response(204, Empty)) else (remaining, NotFound(id))
  }

  /** A get right after a create answers 200 with the record the create returned. */
  lemma CreateThenGet(store: Store, raw: RawCreate, now: Timestamp)
    ensures var (written, created) := CreateSensor(store, raw, now);
            created.status == 201 ==>
              GetSensor(written, created.body.sensor.id) == Response(200, created.body)
  {
  }

  /** A get after a delete of the same id answers 404. */
  lemma DeleteThenGet(store: Store, id: string)
    ensures GetSensor(DeleteSensor(store, id).0, id) == NotFound(id)
  {
  }

  /** A type outside `SensorType` is a 422 and nothing is stored. */
  lemma UnknownTypeRejected(store: Store, raw: RawCreate, now: Timestamp)
    requires raw.sensorType.Some? && raw.sensorType.value !in Table.CheckedTypes
    ensures CreateSensor(store, raw, now) == (store, Unprocessable)
  {
  }

  /** An update supplying only nulls answers 200 with the stored record and
      changes nothing, timestamps included. */
  lemma NullOnlyUpdateChangesNothing(store: Store, id: string, now: Timestamp)
    requires Valid(store) && id in store && PyRepository.Presentable(store[id])
    ensures UpdateSensor(store, id, RawUpdate(Null, Null, Null, Null, Null, Null), now)
              == (store, Response(200, SensorBody(store[id])))
  {
    var raw := RawUpdate(Null, Null, Null, Null, Null, Null);
    assert ValidateUpdate(raw) == Some(SensorUpdate(Null, Null, Null, Null, Null, Null));
  }
}
