/** Where the two services agree and where they part ways, stated over the
    models of both: the writes of the repositories and the seed loaders. */
module Parity {
  import opened Wrappers
  import opened Table
  import opened SeedData
  import GoModels
  import PyModels
  import GoRepository
  import PyRepository
  import GoSeed
  import PySeed
  import GoHandlers
  import PyRouters

  /** The Go create body carrying what a validated Python body stores. */
  function GoCreateOf(body: PyModels.SensorCreate): GoModels.SensorCreate {
    GoModels.SensorCreate(body.name, PyModels.TypeValue(body.sensorType), body.location,
                          PyRepository.ConvertValueForStorage(body.value), body.unit,
                          PyModels.StatusValue(body.status))
  }

  /** A given Python field as a supplied Go field; omitted and null both become nil. */
  function Pointer<T, U>(f: PyModels.Field<T>, conv: T -> U): Option<U> {
    if f.Given? then Some(conv(f.value)) else None
  }

  function Identity(s: string): string { s }

  /** The Go update body carrying what a validated Python update writes. */
  function GoUpdateOf(body: PyModels.SensorUpdate): GoModels.SensorUpdate {
    GoModels.SensorUpdate(
      Pointer(body.name, Identity),
      Pointer(body.sensorType, PyModels.TypeValue),
      Pointer(body.location, Identity),
      Pointer(body.value, PyRepository.ConvertValueForStorage),
      Pointer(body.unit, Identity),
      Pointer(body.status, PyModels.StatusValue))
  }

  /** For a body both services accept, they store and return the same record
      under the same id. Gin cannot bind a JSON boolean into the `float64` value
      and its binding tags refuse a zero value and out-of-bounds texts, so those
      bodies are a 400 in the Go service and are left out here. */
  lemma CreatesAgree(store: Store, body: PyModels.SensorCreate, now: Timestamp)
    requires !body.value.PyBool?
    requires GoModels.BindingTagsAccept(GoCreateOf(body))
    ensures var g := GoRepository.Create(store, GoCreateOf(body), now);
            var p := PyRepository.Create(store, body, now);
            && g.0 == p.0 && g.1.Ok? && p.1.Ok?
            && g.1.value == p.1.value
  {
    PyModels.EnumValuesRoundTrip(body.sensorType, body.status);
    GoModels.EnumerationsMatchSchema();
  }

  /** An update that supplies at least one field writes the same record in both
      services when the Go service's two clock readings coincide, given a stored
      row and a body that the pydantic models accept and that carries no boolean
      value, which gin cannot bind into the Go body's `*float64`. */
  lemma UpdatesAgree(store: Store, id: string, body: PyModels.SensorUpdate, now: Timestamp)
    requires Valid(store)
    requires id in store ==> PyRepository.Presentable(store[id])
    requires PyModels.UpdateWithinBounds(body)
    requires !(body.value.Given? && body.value.value.PyBool?)
    requires !PyRepository.NothingSupplied(body)
    ensures var g := GoRepository.Update(store, id, GoUpdateOf(body), now, now);
            var p := PyRepository.Update(store, id, body, now);
            g.0 == p.0 && g.1.Ok? && p.1.Ok? && g.1.value == p.1.value
  {
    var gb := GoUpdateOf(body);
    PyModels.EnumValuesRoundTrip(
      PyRepository.GivenOr(body.sensorType, PyModels.Temperature),
      PyRepository.GivenOr(body.status, PyModels.Active));
    GoModels.EnumerationsMatchSchema();
    assert GoModels.ValidateUpdate(gb).None?;
    if id in store {
      var g := GoRepository.Update(store, id, gb, now, now);
      var p := PyRepository.Update(store, id, body, now);
      assert g.1.value.value == p.1.value.value;
    }
  }

  /** An update that supplies nothing is where the services differ: the Go
      service rewrites both timestamps, the Python service returns the stored
      record untouched. */
  lemma EmptyUpdatesDiffer(store: Store, id: string, clock1: Timestamp, clock2: Timestamp, now: Timestamp)
    requires Valid(store) && id in store && PyRepository.Presentable(store[id])
    ensures var g := GoRepository.Update(store, id, GoModels.SensorUpdate(None, None, None, None, None, None), clock1, clock2);
            && g.1 == Ok(Some(store[id].(updatedAt := clock1, lastReading := clock2)))
            && g.0 == store[id := store[id].(updatedAt := clock1, lastReading := clock2)]
    ensures var empty := PyModels.SensorUpdate(PyModels.Unset, PyModels.Null, PyModels.Unset,
                                               PyModels.Null, PyModels.Unset, PyModels.Unset);
            PyRepository.Update(store, id, empty, now) == (store, Ok(Some(store[id])))
  {
    GoRepository.EmptyUpdateRefreshesTimestamps(store, id, clock1, clock2);
  }

  /** On a clean fixture both seed loaders build the same row. */
  lemma SeedRowsAgree(f: Fixture, now: Timestamp)
    requires Clean(f)
    ensures PySeed.PyRow(f, now) == Ok(GoSeed.GoRow(f, now))
  {
  }

  /** The two insert loops over clean fixtures succeed together and then build
      the same table; when they fail, they fail on the same refused insert. */
  lemma {:induction false} InsertLoopsAgree(store: Store, fs: seq<Fixture>, now: Timestamp)
    requires forall i :: 0 <= i < |fs| ==> Clean(fs[i])
    ensures var g := GoSeed.InsertEach(store, GoSeed.GoRows(fs, now));
            var p := PySeed.InsertAll(store, fs, now);
            && (g.1.None? <==> p.Ok?)
            && (p.Ok? ==> p.value == g.0)
            && (p.Err? ==> p.error == InsertFailed(g.1.value))
    decreases |fs|
  {
    var rows := GoSeed.GoRows(fs, now);
    if fs != [] {
      SeedRowsAgree(fs[0], now);
      assert rows[0] == GoSeed.GoRow(fs[0], now);
      match Insert(store, rows[0])
      case Err(e) =>
      case Ok(next) =>
        assert rows[1..] == GoSeed.GoRows(fs[1..], now);
        InsertLoopsAgree(next, fs[1..], now);
    }
  }

  /** Seeding from clean fixtures: the services succeed together and then hold
      the same table; on a refused insert the Python service keeps the table as
      it was while the Go service keeps what the earlier inserts wrote. */
  lemma SeedsAgree(store: Store, file: SeedFile, now: Timestamp)
    requires file.Fixtures? ==> forall i :: 0 <= i < |file.items| ==> Clean(file.items[i])
    ensures var g := GoSeed.SeedFromJson(store, file, now);
            var p := PySeed.InitDatabase(store, file, now);
            && (g.1.None? <==> p.1.None?)
            && (g.1.None? ==> g.0 == p.0)
            && (p.1.Some? ==> p.0 == store && p.1 == g.1)
  {
    if file.Fixtures? {
      InsertLoopsAgree(store, file.items, now);
    }
  }

  /** A number of a Python update body as the Go `*float64` it decodes to. */
  function NumberPointer(f: PyModels.Field<PyModels.PyValue>): Option<real> {
    match f
    case Given(PyFloat(x)) => Some(x)
    case Given(PyInt(i)) => Some(i as real)
    case _ => None
  }

  /** The Go update body the same JSON request decodes to: omitted and null
      members are both nil pointers, and type and status keep their text. */
  function GoUpdateOfRaw(raw: PyModels.RawUpdate): GoModels.SensorUpdate {
    GoModels.SensorUpdate(
      Pointer(raw.name, Identity),
      Pointer(raw.sensorType, Identity),
      Pointer(raw.location, Identity),
      NumberPointer(raw.value),
      Pointer(raw.unit, Identity),
      Pointer(raw.status, Identity))
  }

  /** The order of the two checks in an update differs: one request to a missing
      id whose type or status the Go service refuses gets 404 from the Go service
      and 422 from the Python service. A boolean value, which gin refuses to bind
      into a number, is left out. */
  lemma RefusedUpdateOfMissingIdDiffers(store: Store, id: string, raw: PyModels.RawUpdate,
                                        clock1: Timestamp, clock2: Timestamp, now: Timestamp)
    requires id !in store
    requires !(raw.value.Given? && raw.value.value.PyBool?)
    requires GoModels.ValidateUpdate(GoUpdateOfRaw(raw)).Some?
    ensures GoHandlers.HandleUpdate(store, id, GoHandlers.Bound(GoUpdateOfRaw(raw)), clock1, clock2).1
              == GoHandlers.NotFound(id)
    ensures PyRouters.UpdateSensor(store, id, raw, now) == (store, PyRouters.Unprocessable)
  {
    GoModels.EnumerationsMatchSchema();
  }

  /** A seeded row whose name is empty is where the listings part ways: the Go
      service lists it, while the Python service's response model refuses it and
      the listing answers 500. */
  lemma EmptySeededNameListsOnlyInGo(f: Fixture, now: Timestamp)
    requires Clean(f) && f.name.s == ""
    requires f.sensorType.s in CheckedTypes && f.status.s in CheckedStatuses
    ensures var g := GoSeed.SeedFromJson(map[], Fixtures([f]), now);
            g.1.None? && GoHandlers.HandleList(g.0).status == 200
    ensures var p := PySeed.InitDatabase(map[], Fixtures([f]), now);
            p.1.None? && PyRouters.ListSensors(p.0) == PyRouters.ServerError
  {
    var row := PySeed.PyRow(f, now).value;
    assert Insert(map[], row) == Ok(map[f.id.s := row]);
    assert PySeed.InsertAll(map[], [f], now) == Ok(map[f.id.s := row]) by {
      assert [f][1..] == [];
    }
    SeedsAgree(map[], Fixtures([f]), now);
    var p := PySeed.InitDatabase(map[], Fixtures([f]), now);
    assert p.0[f.id.s] == row && !PyRepository.Presentable(row);
  }
}
