/** The protected `/sensors` routes of the Go service: the bearer middleware in
    front of the five handlers. */
module GoApi {
  import opened Table
  import opened GoModels
  import opened GoHandlers
  import Auth

  /** A request to one of the five routes, with its bound body where it has one. */
  datatype Request =
    | ListAll
    | GetOne(id: string)
    | CreateOne(create: Bind<SensorCreate>)
    | UpdateOne(id: string, update: Bind<SensorUpdate>)
    | DeleteOne(id: string)

  /** The handler for a request, run on a store. Create reads the clock once and
      Update twice; the readings are passed in. */
  function Dispatch(store: Store, req: Request, clock1: Timestamp, clock2: Timestamp): (r: (Store, Response))
    ensures req.ListAll? || req.GetOne? ==> r.0 == store
    ensures Valid(store) ==> Valid(r.0)
  {
    match req
    case ListAll => (store, HandleList(store))
    case GetOne(id) => (store, HandleGet(store, id))
    case CreateOne(body) => HandleCreate(store, body, clock1)
    case UpdateOne(id, body) => HandleUpdate(store, id, body, clock1, clock2)
    case DeleteOne(id) => HandleDelete(store, id)
  }

  /** A request behind `AuthMiddleware`: a rejected header is answered with 401
      and the handler never runs, so the store is untouched. */
  function Serve(store: Store, header: string, validToken: string, req: Request, clock1: Timestamp, clock2: Timestamp)
    : (r: (Store, Response))
    ensures Auth.Authorize(header, validToken).Reject? ==>
              r == (store, Response(401, ErrorBody(Auth.Authorize(header, validToken).error, NoDetail)))
    ensures Auth.Authorize(header, validToken).Forward? ==> r == Dispatch(store, req, clock1, clock2)
    ensures Valid(store) ==> Valid(r.0)
  {
    match Auth.Authorize(header, validToken)
    case Reject(status, error) => (store, Response(status, ErrorBody(error, NoDetail)))
    case Forward => Dispatch(store, req, clock1, clock2)
  }

  /** Without an `Authorization` header every route answers 401 and changes nothing. */
  lemma NoHeaderIsUnauthorized(store: Store, validToken: string, req: Request, clock1: Timestamp, clock2: Timestamp)
    ensures Serve(store, "", validToken, req, clock1, clock2) ==
              (store, Response(401, ErrorBody(Auth.MissingHeader, NoDetail)))
  {
  }

  /** With the configured token the route answers exactly as its handler does. */
  lemma CorrectTokenReachesHandler(store: Store, validToken: string, req: Request, clock1: Timestamp, clock2: Timestamp)
    ensures Serve(store, "Bearer " + validToken, validToken, req, clock1, clock2) ==
              Dispatch(store, req, clock1, clock2)
  {
    Auth.AnyCaseOfBearer(validToken);
  }

  /** The Go service looks the id up before it validates the body: an update of a
      missing id answers 404 even when the body would be refused. */
  lemma MissingIdBeforeValidation(store: Store, id: string, body: SensorUpdate, clock1: Timestamp, clock2: Timestamp)
    requires id !in store && ValidateUpdate(body).Some?
    ensures Dispatch(store, UpdateOne(id, Bound(body)), clock1, clock2) == (store, NotFound(id))
  {
  }
}
