/** `SensorHandler` of the Go service: how each of the five handlers turns a
    binding result and a repository outcome into a status code and a JSON body.
    The mapping functions take the outcome as given, so every error path is
    covered even where the abstract table cannot produce it; the `Handle`
    functions run the mapping on the repository over a store. */
module GoHandlers {
  import opened Wrappers
  import opened Table
  import opened GoModels
  import opened GoRepository

  /** The `detail` member of an `ErrorResponse` (omitted from the JSON when empty).
      The text of a driver error is not modelled, only which error it was. */
  datatype Detail = NoDetail | Text(text: string) | DriverMessage(cause: DbError)

  /** A response body: nothing (204), one record, the list shape, or an error. */
  datatype Body =
    | Empty
    | SensorBody(sensor: Sensor)
    | ListBody(sensors: seq<Sensor>, count: int)
    | ErrorBody(error: string, detail: Detail)

  datatype Response = Response(status: int, body: Body)

  /** What `ShouldBindJSON` produced: the decoded body, or the text of its error. */
  datatype Bind<T> = Bound(body: T) | Unbound(reason: string)

  /** The text of `sql.ErrNoRows`. */
  const NoRowsText: string := "sql: no rows in result set"

  function NotFoundDetail(id: string): string {
    "No sensor with id '" + id + "'"
  }

  function NotFound(id: string): Response {
    Response(404, ErrorBody("Sensor not found", Text(NotFoundDetail(id))))
  }

  /** `err.Error()` of a repository error. */
  function ErrorDetail(e: RepoError): (d: Detail)
    ensures e.Invalid? ==> d == Text(Message(e.reason))
    ensures e.Db? ==> d == DriverMessage(e.cause)
    ensures e == NoRows ==> d == Text(NoRowsText)
  {
    match e
    case Invalid(v) => Text(Message(v))
    case Db(cause) => DriverMessage(cause)
    case NoRows => Text(NoRowsText)
  }

  /** No validation message reads as the text of `sql.ErrNoRows`. */
  lemma NoMessageIsNoRowsText(v: ValidationError)
    ensures Message(v) != NoRowsText
  {
    assert Message(v)[0] == 'i' != NoRowsText[0];
  }

  /** The detail of an error response tells the repository errors apart: two
      errors with the same detail are the same error. */
  lemma {:induction false} ErrorDetailIdentifiesError(e1: RepoError, e2: RepoError)
    requires ErrorDetail(e1) == ErrorDetail(e2)
    ensures e1 == e2
  {
    match e1
    case Invalid(v1) =>
      NoMessageIsNoRowsText(v1);
      if e2.Invalid? {
        MessageIdentifiesError(v1, e2.reason);
      }
    case Db(_) =>
    case NoRows =>
      if e2.Invalid? {
        NoMessageIsNoRowsText(e2.reason);
      }
  }

  /** `ListSensors`: 500 on a repository error, otherwise 200 with the list and
      its length as the count. */
  function ListResponse(outcome: Result<seq<Sensor>, RepoError>): (r: Response)
    ensures r.status == 200 <==> outcome.Ok?
    ensures r.status == 500 <==> outcome.Err?
    ensures outcome.Ok? ==> r.body.ListBody? && r.body.sensors == outcome.value
                            && r.body.count == |r.body.sensors|
    ensures outcome.Err? ==> r.body == ErrorBody("Failed to retrieve sensors", NoDetail)
  {
    match outcome
    case Err(_) => Response(500, ErrorBody("Failed to retrieve sensors", NoDetail))
    case Ok(sensors) => Response(200, ListBody(sensors, |sensors|))
  }

  /** `GetSensor`: 500 on a repository error, 404 naming the id when the row is
      absent, 200 with the record otherwise. */
  function GetResponse(id: string, outcome: Result<Option<Sensor>, RepoError>): (r: Response)
    ensures r.status == 500 <==> outcome.Err?
    ensures r.status == 404 <==> outcome == Ok(None)
    ensures r.status == 404 ==> r == NotFound(id)
    ensures r.status == 200 <==> outcome.Ok? && outcome.value.Some?
    ensures r.status == 200 ==> r.body == SensorBody(outcome.value.value)
  {
    match outcome
    case Err(_) => Response(500, ErrorBody("Failed to retrieve sensor", NoDetail))
    case Ok(None) => NotFound(id)
    case Ok(Some(s)) => Response(200, SensorBody(s))
  }

  /** `CreateSensor` after binding: every repository error, a storage failure
      included, is a 400 carrying the error's text; success is 201. */
  function CreateResponse(outcome: Result<Sensor, RepoError>): (r: Response)
    ensures r.status == 201 <==> outcome.Ok?
    ensures r.status == 400 <==> outcome.Err?
    ensures outcome.Ok? ==> r.body == SensorBody(outcome.value)
    ensures outcome.Err? ==> r.body == ErrorBody("Failed to create sensor", ErrorDetail(outcome.error))
  {
    match outcome
    case Err(e) => Response(400, ErrorBody("Failed to create sensor", ErrorDetail(e)))
    case Ok(s) => Response(201, SensorBody(s))
  }

  /** `UpdateSensor` after binding: any repository error is a 400, an absent row a
      404 naming the id, the updated record a 200. */
  function UpdateResponse(id: string, outcome: Result<Option<Sensor>, RepoError>): (r: Response)
    ensures r.status == 400 <==> outcome.Err?
    ensures outcome.Err? ==> r.body == ErrorBody("Failed to update sensor", ErrorDetail(outcome.error))
    ensures r.status == 404 <==> outcome == Ok(None)
    ensures r.status == 404 ==> r == NotFound(id)
    ensures r.status == 200 <==> outcome.Ok? && outcome.value.Some?
    ensures r.status == 200 ==> r.body == SensorBody(outcome.value.value)
  {
    match outcome
    case Err(e) => Response(400, ErrorBody("Failed to update sensor", ErrorDetail(e)))
    case Ok(None) => NotFound(id)
    case Ok(Some(s)) => Response(200, SensorBody(s))
  }

  /** `DeleteSensor`: `sql.ErrNoRows` is a 404, any other error a 500 with no
      detail, success a 204 with no body. */
  function DeleteResponse(id: string, outcome: Option<RepoError>): (r: Response)
    ensures r.status == 204 <==> outcome.None?
    ensures r.status == 204 ==> r.body == Empty
    ensures r.status == 404 <==> outcome == Some(NoRows)
    ensures r.status == 404 ==> r == NotFound(id)
    ensures r.status == 500 <==> outcome.Some? && outcome.value != NoRows
    ensures r.status == 500 ==> r.body == ErrorBody("Failed to delete sensor", NoDetail)
  {
    match outcome
    case None => Response(204, Empty)
    case Some(NoRows) => NotFound(id)
    case Some(_) => Response(500, ErrorBody("Failed to delete sensor", NoDetail))
  }

  /** The 400 for a body that did not bind. */
  function BindFailure(reason: string): Response {
    Response(400, ErrorBody("Invalid request body", Text(reason)))
  }

  /** `GET /sensors` over a store: always 200, every row once, ascending by id. */
  function HandleList(store: Store): (r: Response)
    ensures r.status == 200 && r.body.ListBody?
    ensures r.body.count == |store|
    ensures forall i :: 0 <= i < |r.body.sensors| ==> r.body.sensors[i] in store.Values
    ensures forall id :: id in store ==> store[id] in r.body.sensors
    ensures Valid(store) ==>
              forall i, j :: 0 <= i < j < |r.body.sensors| ==>
                Sqlite.Below(r.body.sensors[i].id, r.body.sensors[j].id)
  {
    var rows := SelectAll(store);
    forall id | id in store
      ensures store[id] in rows
    {
      SelectAllComplete(store, id);
    }
    ListResponse(Ok(rows))
  }

  /** `GET /sensors/:id` over a store: 200 with the stored record, or 404. */
  function HandleGet(store: Store, id: string): (r: Response)
    ensures id in store ==> r == Response(200, SensorBody(store[id]))
    ensures id !in store ==> r == NotFound(id)
  {
    GetResponse(id, Ok(SelectById(store, id)))
  }

  /** `POST /sensors` over a store: binding first, then the repository. */
  function HandleCreate(store: Store, bind: Bind<SensorCreate>, now: Timestamp): (r: (Store, Response))
    ensures r.1.status == 201 || r.1.status == 400
    ensures r.1.status == 201 <==> bind.Bound? && ValidateCreate(bind.body).None?
    ensures r.1.status == 400 ==> r.0 == store
    ensures bind.Unbound? ==> r.1 == BindFailure(bind.reason)
    ensures r.1.status == 201 ==>
              && r.1.body.SensorBody?
              && r.1.body.sensor.id == IdGen.NextId(store)
              && r.0 == store[r.1.body.sensor.id := r.1.body.sensor]
    ensures Valid(store) ==> Valid(r.0)
  {
    match bind
    case Unbound(reason) => (store, BindFailure(reason))
    case Bound(body) =>
      var (written, outcome) := Create(store, body, now);
      (written, CreateResponse(outcome))
  }

  /** `PUT /sensors/:id` over a store: binding first, then the repository, which
      looks the id up before validating the body. */
  function HandleUpdate(store: Store, id: string, bind: Bind<SensorUpdate>, clock1: Timestamp, clock2: Timestamp)
    : (r: (Store, Response))
    ensures bind.Unbound? ==> r == (store, BindFailure(bind.reason))
    ensures bind.Bound? && id !in store ==> r == (store, NotFound(id))
    ensures bind.Bound? && id in store && ValidateUpdate(bind.body).Some? ==>
              r.0 == store && r.1.status == 400
              && r.1.body == ErrorBody("Failed to update sensor", Text(Message(ValidateUpdate(bind.body).value)))
    ensures Valid(store) && bind.Bound? && id in store && ValidateUpdate(bind.body).None? ==>
              && r.1.status == 200 && r.1.body.SensorBody?
              && r.0 == store[id := r.1.body.sensor]
              && r.1.body.sensor.id == id
              && r.1.body.sensor.createdAt == store[id].createdAt
              && r.1.body.sensor.updatedAt == clock1
              && r.1.body.sensor.lastReading == clock2
              && OverwritesSupplied(store[id], bind.body, r.1.body.sensor)
    ensures Valid(store) ==> Valid(r.0)
  {
    match bind
    case Unbound(reason) => (store, BindFailure(reason))
    case Bound(body) =>
      var (written, outcome) := Update(store, id, body, clock1, clock2);
      (written, UpdateResponse(id, outcome))
  }

  /** `DELETE /sensors/:id` over a store: 204 when a row was removed, else 404. */
  function HandleDelete(store: Store, id: string): (r: (Store, Response))
    ensures r.1.status == 204 <==> id in store
    ensures r.1.status == 204 ==> r.1.body == Empty
    ensures id !in store ==> r == (store, NotFound(id))
    ensures r.0.Keys == store.Keys - {id}
    ensures Valid(store) ==> Valid(r.0)
  {
    var (remaining, outcome) := Delete(store, id);
    (remaining, DeleteResponse(id, outcome))
  }

  /** A get right after a successful create answers 200 with a record equal in
      every field to the one the create returned. */
  lemma CreateThenGet(store: Store, bind: Bind<SensorCreate>, now: Timestamp)
    requires Valid(store)
    ensures var (written, created) := HandleCreate(store, bind, now);
            created.status == 201 ==>
              HandleGet(written, created.body.sensor.id) == Response(200, created.body)
  {
  }

  /** A get after a delete of the same id answers 404, whether or not the id was there. */
  lemma DeleteThenGet(store: Store, id: string)
    ensures HandleGet(HandleDelete(store, id).0, id) == NotFound(id)
  {
  }

  /** Creating with an unknown type, in a body that passes gin's binding tags, is
      a 400 naming that type, and nothing is stored. A body the tags refuse never
      binds and gets `BindFailure` instead. */
  lemma UnknownTypeRejected(store: Store, body: SensorCreate, now: Timestamp)
    requires BindingTagsAccept(body)
    requires body.sensorType !in ValidSensorTypes
    ensures HandleCreate(store, Bound(body), now) ==
              (store, Response(400, ErrorBody("Failed to create sensor", Text(TypeErrorPrefix + body.sensorType))))
  {
  }

  /** An empty store lists as `{"sensors": [], "count": 0}` with status 200. */
  lemma EmptyListing()
    ensures HandleList(map[]) == Response(200, ListBody([], 0))
  {
  }

  /** Creating the sample sensor and then updating its value and status answers
      201 and then 200, with the new value and status and the name kept. */
  lemma CreateThenUpdateExample(store: Store, now: Timestamp, clock1: Timestamp, clock2: Timestamp)
    requires Valid(store)
    ensures var body := SensorCreate("Test", "temperature", "room", 72.5, "f", "active");
            var (s1, created) := HandleCreate(store, Bound(body), now);
            && created.status == 201
            && var id := created.body.sensor.id;
            && var patch := SensorUpdate(None, None, None, Some(75.5), None, Some("inactive"));
            && var (s2, updated) := HandleUpdate(s1, id, Bound(patch), clock1, clock2);
            && updated.status == 200
            && updated.body.sensor.value == 75.5
            && updated.body.sensor.status == "inactive"
            && updated.body.sensor.name == "Test"
            && updated.body.sensor.createdAt == now
  {
    var body := SensorCreate("Test", "temperature", "room", 72.5, "f", "active");
    assert ValidateCreate(body).None?;
    var (s1, created) := HandleCreate(store, Bound(body), now);
    var id := created.body.sensor.id;
    assert id in s1 && s1[id] == created.body.sensor;
    var patch := SensorUpdate(None, None, None, Some(75.5), None, Some("inactive"));
    assert ValidateUpdate(patch).None?;
  }
}
