# IoT sensor registry — a Dafny model

The repository holds two services, one in Go and one in Python, that keep the
same registry of IoT sensors in a SQLite table and serve it over a
bearer-protected REST API: list, get, create, update and delete under
`/sensors`, plus a start-up seed from a JSON fixture file.

This project models the behaviour of both services once SQL is abstracted
away. The table becomes a finite map from id to row (`Table.Store`), and the
CHECK constraints on type and status become a store invariant (`Table.Valid`).
The SQLite semantics the services rely on are written out in `Sqlite`:

- `LIKE 'sensor-%'` is an ASCII case-insensitive prefix test;
- `SUBSTR(id, 8)` drops seven characters;
- `CAST(... AS INTEGER)` skips leading blanks, reads an optional sign and the
  longest digit run, and gives 0 when there are no digits;
- `ORDER BY id` orders by code points.

The clock is a parameter. Go's `Update` reads it twice, so it takes two readings.

Modules follow the program's structure:

- `Wrappers`, `Text`: shared types and text helpers, including `%03d` formatting.
- `Sqlite`, `Table`: the SQLite semantics and the abstract table.
- `IdGen`: how both services generate the next id.
- `GoModels`, `GoRepository`, `GoHandlers`, `Auth`, `GoApi`, `GoSeed`: the Go service.
- `PyModels`, `PyRepository`, `PyRouters`, `PySeed`: the Python service.
- `SeedData`: the fixture file both seed loaders read.
- `Parity`: where the two services agree and where they differ.

Three behaviours of the code worth noting:

- An `Authorization` value of exactly `Bearer ` (the scheme, one space and an
  empty token), as the middleware receives it from `c.GetHeader`, passes the
  format check and is refused by the token check (`Invalid or expired token`).
  Go's HTTP server trims trailing blanks from header values, so such a request
  sent over the network arrives as `Bearer` and gets the format error instead.
- A new id is one more than the largest suffix currently stored. Deleting the
  newest sensor and creating another hands out the deleted id again
  (`GoRepository.DeletedIdIsReused`).
- The Python service reads every stored row back through its pydantic `Sensor`
  model, which bounds the lengths of name, location and unit; the seed loader
  does not. A seeded row with an empty name makes the Python listing answer 500,
  while the Go service lists it (`Parity.EmptySeededNameListsOnlyInGo`).

## Model

| member | source | states |
|---|---|---|
| Text.Decimal | go-service/repositories/sensor_repository.go:92 | the decimal digits of a natural number: at least one digit, one digit exactly below 10, no leading zero |
| Text.Format03 | go-service/repositories/sensor_repository.go:92 | `%03d` output: at least three characters; all digits for n >= 0; a minus sign followed by digits for n < 0 |
| Text.DecimalValue | python-service/repositories/sensor_repository.py:41 | reading the decimal digits of n back gives n |
| Text.ZeroPadValue | python-service/repositories/sensor_repository.py:41 | zero padding does not change the value a digit string denotes |
| Text.Format03ThreeDigits | go-service/repositories/sensor_repository.go:92 | every number from 0 to 999 formats as exactly three digits |
| Sqlite.CastFormatRoundTrip | go-service/repositories/sensor_repository.go:83-92 | `CAST` of the `%03d` text of any integer, negative included, gives that integer back |
| Sqlite.CastOfDigits | go-service/repositories/sensor_repository.go:83 | `CAST` of a digit string is the number it spells |
| Sqlite.CastOfNegative | go-service/repositories/sensor_repository.go:83 | `CAST` of a minus sign and a digit string is the negated number |
| Sqlite.DigitRunOfDigits | go-service/repositories/sensor_repository.go:83 | `CAST` reads a whole digit string |
| Sqlite.BelowTransitive | go-service/repositories/sensor_repository.go:33 | the `ORDER BY id` order on text is transitive |
| Sqlite.BelowAsymmetric | go-service/repositories/sensor_repository.go:33 | the order never puts two ids both before each other |
| Sqlite.BelowTotal | go-service/repositories/sensor_repository.go:33 | any two different ids are ordered one way or the other |
| Sqlite.LeastExists | go-service/repositories/sensor_repository.go:33 | every non-empty set of ids has a first id in that order |
| Sqlite.SortedKeys | python-service/repositories/sensor_repository.py:22 | the ids of the table listed once each, strictly ascending |
| Table.Insert | go-service/database/database.go:17-27 | an insert succeeds iff the row passes both CHECK lists and its id is new; CHECK failures take precedence; nothing else changes; the invariant is kept |
| Table.UpdateRow | go-service/repositories/sensor_repository.go:153-156 | an UPDATE matching no row succeeds and changes nothing, whatever it sets; on a matched row it succeeds iff the new row passes the CHECK lists, then replaces only that id |
| Table.DeleteRow | go-service/repositories/sensor_repository.go:166-176 | removes exactly the id and reports 1 row when it was present and 0 otherwise |
| Table.SelectById | go-service/repositories/sensor_repository.go:58-72 | a missing id is an absent result, not an error; a present id gives exactly its row |
| Table.SelectAll | go-service/repositories/sensor_repository.go:30-55 | lists as many rows as stored, each a stored row, ascending by id; an empty table gives an empty list |
| Table.SelectAllComplete | python-service/repositories/sensor_repository.py:19-25 | every stored row appears in the listing |
| IdGen.Max | go-service/repositories/sensor_repository.go:83-90 | SQL `MAX`: NULL on no rows, otherwise a member no smaller than any other |
| IdGen.NextNumbersAgree | python-service/repositories/sensor_repository.py:39-41 | Python's `(max or 0) + 1` equals Go's `max + 1`, or 1 when MAX is NULL |
| IdGen.SensorIdParses | go-service/repositories/sensor_repository.go:83-92 | a generated id matches `LIKE 'sensor-%'` and its suffix casts back to the number it was made from |
| IdGen.NextIdAboveAll | go-service/repositories/sensor_repository.go:82-92 | the new id's suffix is above the suffix of every stored `sensor-%` id |
| IdGen.NextIdFresh | go-service/repositories/sensor_repository.go:82-92 | the new id is not in the store |
| IdGen.FirstId | go-service/repositories/sensor_repository.go:86-89 | with no `sensor-%` id stored, the new id is `sensor-001` |
| IdGen.NextIdShape | python-service/repositories/sensor_repository.py:39-41 | with every suffix below 999, the new id is `sensor-` followed by three digits |
| GoModels.ValidateCreate | go-service/models/sensor.go:52-60 | passes iff type and status are both in their lists; an unknown type is reported even when the status is also wrong |
| GoModels.ValidateUpdate | go-service/models/sensor.go:74-82 | an absent type or status passes; a present one must be in its list; a bad type is reported first, and the status error comes iff the type passes and a supplied status is not in its list |
| GoModels.DataOnlyUpdateValidates | go-service/models/sensor.go:74-82 | an update that touches only name, location, value or unit always validates |
| GoModels.EnumerationsMatchSchema | go-service/models/sensor.go:9-25 | the two Go lists equal the table's CHECK lists |
| GoModels.MessageIdentifiesError | go-service/models/sensor.go:54-58 | two validation errors with the same message are the same error |
| PyModels.ParseType | python-service/models/sensor.py:10-20 | a string names a `SensorType` iff it is one of the eight CHECK values, and that member's value is the string |
| PyModels.ParseStatus | python-service/models/sensor.py:23-28 | a string names a `SensorStatus` iff it is one of the three CHECK values, and that member's value is the string |
| PyModels.EnumValuesRoundTrip | python-service/models/sensor.py:10-28 | every member's value is accepted by the table and reads back as that member |
| PyModels.EnumerationSizes | python-service/models/sensor.py:10-28 | there are exactly eight type values and three status values, each the value of some member |
| PyModels.ValidateCreate | python-service/models/sensor.py:31-45 | a create body validates iff all six fields are present, the three texts are within 1–100, 1–100 and 1–50 characters, and type and status are members; the fields are carried over |
| PyModels.ValidateUpdate | python-service/models/sensor.py:48-56 | an update body validates iff every given text is within its bounds and every given type or status is a member; omitted and null stay apart |
| GoRepository.ValidatedRowPassesChecks | go-service/models/sensor.go:52-60 | a body that passed `Validate` gives a row the CHECK constraints accept |
| GoRepository.Create | go-service/repositories/sensor_repository.go:75-106 | fails iff validation fails, then changing nothing; otherwise stores the body under the next id, which is fresh, with one clock reading in all three timestamps, and a read-back returns it |
| GoRepository.Update | go-service/repositories/sensor_repository.go:109-162 | a missing id is absent before the body is validated; an invalid body changes nothing; otherwise only supplied fields change, id and created_at are kept, and updated_at and last_reading take the two clock readings |
| GoRepository.Delete | go-service/repositories/sensor_repository.go:165-181 | `ErrNoRows` iff the id was absent, and then nothing changes; otherwise exactly that row is gone |
| GoRepository.EmptyUpdateRefreshesTimestamps | go-service/repositories/sensor_repository.go:125-126 | an update with no field refreshes both timestamps and keeps every data field |
| GoRepository.UpdateThenGet | go-service/tests/sensors_test.go:249-303 | a get after a successful update returns the updated record |
| GoRepository.UpdateIdempotent | go-service/repositories/sensor_repository.go:128-161 | repeating an update with the same clock readings changes nothing more |
| GoRepository.DeletedIdIsReused | go-service/repositories/sensor_repository.go:82-92 | after deleting the sensor just created, the next create hands out the same id |
| PyRepository.ConvertValueForStorage | python-service/repositories/sensor_repository.py:125-129 | true is stored as 1.0, false as 0.0, any other number as that number: the same value the seed path stores for the same JSON value |
| PyRepository.RowsToSensors | python-service/repositories/sensor_repository.py:25 | the rows come back as they are iff every one passes the response model; otherwise the refusal |
| PyRepository.GetAll | python-service/repositories/sensor_repository.py:19-25 | the `ORDER BY id` listing iff every stored row passes the response model's bounds and enumerations; otherwise an error |
| PyRepository.GetById | python-service/repositories/sensor_repository.py:27-34 | None for a missing id; the stored row iff it passes the response model; otherwise an error |
| PyRepository.Create | python-service/repositories/sensor_repository.py:36-68 | always stores the body under the next id, which is fresh, with enum values, the converted value and one clock reading in all three timestamps; the read-back succeeds iff the texts are within the model bounds; API writes keep every row presentable |
| PyRepository.Update | python-service/repositories/sensor_repository.py:70-102 | a missing id gives None; a stored row the response model refuses raises before any write; with no given field the stored record comes back untouched; otherwise only given fields change, updated_at = last_reading = one reading, and the read-back succeeds iff the given texts are within bounds |
| PyRepository.Delete | python-service/repositories/sensor_repository.py:104-108 | True iff a row was removed; otherwise nothing changes |
| GoHandlers.NoMessageIsNoRowsText | go-service/handlers/sensors.go:98-106 | no validation message equals the text of `sql.ErrNoRows` |
| GoHandlers.ErrorDetailIdentifiesError | go-service/handlers/sensors.go:98-106 | two repository errors that give the same `detail` are the same error |
| GoHandlers.ListResponse | go-service/handlers/sensors.go:24-37 | 200 iff the repository answered, with count equal to the list length; 500 otherwise |
| GoHandlers.GetResponse | go-service/handlers/sensors.go:40-60 | 500 on an error, 404 naming the id when absent, 200 with the record when present |
| GoHandlers.CreateResponse | go-service/handlers/sensors.go:73-82 | every repository error, storage failures included, is a 400 with its text; success is 201 with the record |
| GoHandlers.UpdateResponse | go-service/handlers/sensors.go:98-115 | every repository error is a 400, an absent row a 404 naming the id, the record a 200 |
| GoHandlers.DeleteResponse | go-service/handlers/sensors.go:119-138 | `ErrNoRows` is a 404, any other error a 500 without detail, success a 204 without body |
| GoHandlers.HandleList | go-service/handlers/sensors.go:24-37 | 200 with every stored row once, ascending by id, and the count of rows |
| GoHandlers.HandleGet | go-service/handlers/sensors.go:40-60 | 200 with the stored record, or 404 naming the id |
| GoHandlers.HandleCreate | go-service/handlers/sensors.go:63-83 | 201 iff the body bound and validated, then stored under the next id; any 400 leaves the store unchanged |
| GoHandlers.HandleUpdate | go-service/handlers/sensors.go:86-116 | a body that does not bind is a 400; a missing id is a 404 whatever the body; an invalid body a 400 naming the error; otherwise 200 with only supplied fields changed, created_at kept, updated_at and last_reading the two clock readings |
| GoHandlers.HandleDelete | go-service/handlers/sensors.go:119-138 | 204 iff the id was present; otherwise 404 and nothing changes |
| GoHandlers.CreateThenGet | go-service/tests/sensors_test.go:199-247 | a get after a 201 create returns a record equal in every field |
| GoHandlers.DeleteThenGet | go-service/tests/sensors_test.go:305-349 | a get after a delete of the same id is a 404 |
| GoHandlers.UnknownTypeRejected | go-service/models/sensor.go:52-56 | for a body that passes gin's binding tags, an unknown type is a 400 naming the type, and nothing is stored |
| GoHandlers.EmptyListing | go-service/tests/sensors_test.go:137-162 | an empty store lists as an empty array with count 0 and status 200 |
| GoHandlers.CreateThenUpdateExample | go-service/tests/sensors_test.go:249-303 | creating a sensor and then updating value and status gives 201 then 200, with the new value and status and the name kept |
| Auth.IndexOfSpace | go-service/middleware/auth.go:24 | the position of the first space, or none when there is no space |
| Auth.SplitAtFirstSpace | go-service/middleware/auth.go:24 | `SplitN(h, " ", 2)`: one part iff there is no space; otherwise the parts joined by one space give h back, and the first has no space |
| Auth.SplitOfBearer | go-service/middleware/auth.go:24-25 | a header that starts with a bearer scheme and a space splits into that scheme and the rest |
| Auth.Authorize | go-service/middleware/auth.go:11-42 | 401 for a missing header, then for a bad scheme, then for a wrong token, each with its own message; forwarded iff the scheme lower-cases to "bearer" and the rest equals the token |
| Auth.ForwardIffBearerToken | go-service/middleware/auth.go:23-41 | forwarded iff the header is some s, one space and the token, with s lower-casing to "bearer" |
| Auth.AnyCaseOfBearer | go-service/middleware/auth.go:25 | "Bearer" and "BEARER" are both accepted as the scheme |
| GoApi.Dispatch | go-service/handlers/sensors.go:23-138 | list and get never change the store, and no route breaks the table invariant |
| GoApi.Serve | go-service/middleware/auth.go:11-42 | a rejected header is a 401 and the handler does not run; an accepted one gives the handler's answer |
| GoApi.NoHeaderIsUnauthorized | go-service/tests/sensors_test.go:72-83 | every route without an `Authorization` header is a 401 and changes nothing |
| GoApi.CorrectTokenReachesHandler | go-service/tests/sensors_test.go:99-111 | with the configured token, every route answers as its handler does |
| GoApi.MissingIdBeforeValidation | go-service/repositories/sensor_repository.go:111-122 | updating a missing id with a body that would be refused is a 404 |
| GoSeed.CoerceValue | go-service/database/database.go:116-128 | a JSON number is kept, true is 1.0, false is 0.0, and a string, a null or an absent value is 0.0 |
| GoSeed.GoRow | go-service/database/database.go:130-141 | the row keeps the fixture's id and last reading, with one clock reading as created_at and updated_at |
| GoSeed.InsertEach | go-service/database/database.go:114-145 | rows already stored stay; when every insert succeeds, exactly the fixture ids are added, each with its row |
| GoSeed.SeedFromJson | go-service/database/database.go:74-149 | nothing happens when the table has rows or the file is missing; read and decode errors are returned; otherwise every fixture row is stored |
| GoSeed.FailureKeepsEarlierRows | go-service/database/database.go:114-145 | on a refused insert the table holds exactly what the earlier inserts wrote, and the next row is the one refused, with the returned error |
| PySeed.PyRow | python-service/database.py:67-90 | a fixture gives a row iff it is clean, and that row carries it; an absent member raises `KeyError` |
| PySeed.InsertAll | python-service/database.py:67-90 | when every fixture goes in, all were clean, stored rows stay, and exactly the fixture ids are added, each with its row |
| PySeed.SeedFromJson | python-service/database.py:56-92 | a missing file changes nothing; any error leaves the table as it was; on success every fixture is stored |
| PySeed.InitDatabase | python-service/database.py:46-51 | seeding runs only on an empty table |
| PyRouters.ListSensors | python-service/routers/sensors.py:12-23 | 200 iff every stored row passes the response model, then every row once, ascending by id, with the count; otherwise 500 |
| PyRouters.GetSensor | python-service/routers/sensors.py:26-43 | 200 with the stored record iff it is present and passes the response model; 404 naming a missing id; 500 otherwise |
| PyRouters.CreateSensor | python-service/routers/sensors.py:46-58 | 422 without touching the store iff the body does not validate; otherwise 201 with the record stored under the next id |
| PyRouters.UpdateSensor | python-service/routers/sensors.py:61-80 | 422 for a refused body whether or not the id exists; 404 naming a missing id; 500 when the stored row fails the response model; otherwise 200 with only the given fields changed, id and created_at kept, and either nothing changed or both timestamps set to one reading |
| PyRouters.DeleteSensor | python-service/routers/sensors.py:83-100 | 204 iff a row was removed; otherwise 404 and nothing changes |
| PyRouters.CreateThenGet | python-service/tests/test_sensors.py:69-91 | a get after a 201 create returns the record the create returned |
| PyRouters.DeleteThenGet | python-service/tests/test_sensors.py:118-138 | a get after a delete of the same id is a 404 |
| PyRouters.UnknownTypeRejected | python-service/tests/test_sensors.py:150-161 | an unknown type is a 422 and nothing is stored |
| PyRouters.NullOnlyUpdateChangesNothing | python-service/repositories/sensor_repository.py:80-91 | an update giving only nulls is a 200 with the stored record and changes nothing |
| Parity.CreatesAgree | python-service/repositories/sensor_repository.py:36-68 | for a body both services accept (no boolean value, which gin cannot bind into a `float64`, and one that passes the binding tags, so a non-zero value), both store and return the same record, apart from the timestamp text, under the same id |
| Parity.UpdatesAgree | python-service/repositories/sensor_repository.py:80-102 | for a presentable stored row and a bounded body without a boolean value (gin cannot bind one into `*float64`), an update with at least one field writes the same record in both services, apart from the timestamp text, when Go's two clock readings coincide |
| Parity.EmptyUpdatesDiffer | python-service/repositories/sensor_repository.py:90-91 | with no field supplied, Go rewrites both timestamps while Python returns the record untouched |
| Parity.SeedRowsAgree | python-service/database.py:67-90 | on a clean fixture both loaders build the same row, apart from the timestamp text |
| Parity.InsertLoopsAgree | go-service/database/database.go:114-145 | over clean fixtures the two insert loops succeed together and build the same table, apart from the timestamp text, or fail on the same insert |
| Parity.SeedsAgree | python-service/database.py:46-92 | seeding from clean fixtures succeeds in both or in neither, with the same rows apart from the timestamp text; on failure Python keeps the table as it was |
| Parity.EmptySeededNameListsOnlyInGo | python-service/repositories/sensor_repository.py:110-123 | after seeding one fixture with an empty name, Go lists it with 200 and Python answers 500 |
| Parity.RefusedUpdateOfMissingIdDiffers | python-service/routers/sensors.py:61-80 | one JSON update to a missing id, whose type or status Go refuses, gets 404 from Go and 422 from Python |

## Left out

- SQL text, connections, prepared statements and schema creation. The table is an abstract map; only the CHECK lists survive, as the invariant `Table.Valid`.
- Failures of the storage engine itself (an unreadable file, a lost connection). The abstract table never produces them. The handler mappings still take them as input (`DbError.Unavailable`), so the 500 and 400 answers for them are covered.
- JSON decoding and framework binding. Gin's `ShouldBindJSON` with its `binding` tags is a given `Bind` value. This includes `required` refusing a zero `value`. Pydantic's decoding of JSON into a raw body is also not modelled; the pydantic field constraints are modelled (`PyModels.ValidateCreate`, `PyModels.ValidateUpdate`).
- The text of a driver error and pydantic's 422 error list. Only which error it was is kept.
- python-service/middleware/auth.py. Its header parsing happens inside FastAPI's `HTTPBearer`, which is FastAPI library code, outside this repository. The Python routers are therefore modelled without the bearer check.
- Logging and correlation-id middleware, configuration loading, `main`, the health endpoints and the `__init__` re-exports. They are plumbing with no effect on the registry.
- Clock formatting. A timestamp is an opaque string passed in.
- Parity: the lemmas that find the two services writing the same record pass one timestamp text to both. The two services never write the same text for the same instant: Go formats whole seconds with "Z" (go-service/models/sensor.go:103-104, go-service/database/database.go:102), and Python writes microseconds with "+00:00" (python-service/repositories/sensor_repository.py:43). So the records agree in every field except `last_reading`, `created_at` and `updated_at`.
- SeedData.JsonValue: a fixture value that is a JSON array or object is not modelled. Go's coercion would store 0.0 for it, and Python's sqlite3 binding would raise.
- PyRouters.ServerError: the body of Starlette's unhandled-exception 500 is the plain text "Internal Server Error", modelled as its own body constructor; its headers are not modelled.
- Concurrency. Reading the maximum and inserting the new id are two statements that a parallel create could interleave; the model is sequential.
- Floating point. Sensor values are `real`. Float64 rounding, and Python's `float()` of a very large int, are not modelled.
- The validation of the response body against `response_model` after an endpoint returns. Every record that reaches it has already passed the `Sensor` model in `_row_to_sensor`.
- IdGen.NextId: suffixes are unbounded integers. SQLite's saturation of out-of-range `CAST` results and Go's int64 overflow of `max + 1` are not modelled.
- Auth.Authorize: `strings.ToLower` is modelled on ASCII letters only. No non-ASCII character lower-cases to a letter of "bearer", so the decision is the same.
- PySeed.PyRow: a fixture whose value is a JSON string is treated as a failed insert. SQLite would accept it: text that reads as a number, such as "21.5", is converted to that REAL by the column's affinity, and other text is stored as text. The model's rows hold only reals, and string-to-number conversion is not modelled. A fixture whose id is JSON null is also treated as refused, although SQLite accepts a NULL in a non-integer primary key.
- SeedData.Fixture: text members that hold a number or a boolean are not modelled. Go's decoder refuses the file, and Python would store the value's text.
- The `API_TOKEN` start-up requirement (go-service/config/config.go:26-29) is configuration; `Auth.Authorize` takes any token as given.
