# Drone dispatch controller: a Dafny model of the loading pass

The dispatch controller is a small HTTP service. It keeps a fleet of delivery drones and a
catalog of medications in two tables, Drone and Medication. Two seeded reference tables
sit beside them: the drone states and the drone models.

The heart of the service is the **loading pass** (`POST /drone/<serial>/load`). It works like this:

- It resolves the drone by serial and refuses it when the battery is 25% or less.
- It sums the weight the drone already carries and marks the drone LOADING.
- It offers the drone every unassigned medication in creation order. A candidate is skipped
  when its weight plus the running load reaches the drone's max weight. Otherwise the
  candidate is assigned to the drone.
- A skip does not end the scan. At the end the drone is marked LOADED.

Around the loading pass sit:

- two read-only queries: the load of a drone, and the list of IDLE drones;
- drone registration;
- the checks the entity constructors make: a serial of at most 100 characters, and a
  medication code over `A-Z`, `0-9`, `-` and `_`;
- the seeding of the tables. Its insertion order fixes the state ids 1 (IDLE), 2 (LOADING)
  and 3 (LOADED), which the handlers hard-code.

The project has these modules:

- `Wrappers` holds `Option` and `Result`.
- `Seqs` holds an order-preserving filter, which models a `WHERE` clause.
- `Catalog` holds the state and model catalogs and their autoincrement ids.
- `Entities` holds the Drone and Medication records and their constructor checks.
- `Allocator` is the first-fit selection rule, stated as a function with its properties.
- `Dispatch` is the tables as a `Store` class whose methods are the request handlers.

Each SQL query is a pure function of the tables. Each loop of a handler is a `for` loop
proved against that function. Each `UPDATE` is a reassignment of a `seq` field.
`Store.stateWrites` is a ghost log of the committed drone-state updates, so that
"LOADING, then LOADED" can be stated.

Where the code does something a reader might not expect, the model follows the code:

- An unknown serial on `GET /drone/<serial>/load` is not an error. The query returns no rows,
  so the result is an empty list and weight 0. `Store.GetLoad` therefore has no failure case.
- An unknown serial on the loading pass, and an unknown model on registration, fail in the
  code by indexing an empty result (`[0]`). Both are modelled as `Failure(NotFound)` with the
  tables unchanged.
- Registration inserts with raw SQL and never calls the `Drone` constructor. So a serial
  longer than 100 characters is accepted there, and `Store.AddDrone` makes no length check.
  The seeded drones do go through the constructor (`Dispatch.SeedDrone` uses `Entities.NewDrone`).
- The battery refusal message is kept byte for byte as the code has it: "Batter is less or equal to 25%".
- Serials are not unique in the schema. The loading pass takes the first drone registered with
  the serial (`[0]`). The weight it already carries, and `get_load`, join on the serial
  itself, so they count the medications of every drone that carries it. Both are modelled as written.

## Model

| member | source | states |
|---|---|---|
| Catalog.Insert | drones/models.py:121-140 | inserting names one by one into a fresh autoincrement table gives the k-th name (from 0) id k + 1, one row per name |
| Catalog.StateIdMatchesCatalog | drones/models.py:122-131 | looking up each state's name in the seeded state table yields the id the handlers hard-code for it (IDLE 1, LOADING 2, LOADED 3, DELIVERING 4, DELIVERED 5, RETURNING 6) |
| Catalog.ModelIdMatchesCatalog | drones/models.py:133-140 | looking up each model class's name in the seeded model table yields ids 1..4 in insertion order |
| Catalog.LookupId | main.py:74-76 | a name lookup returns None exactly when no row carries the name; otherwise it returns the id of a row that carries it |
| Catalog.LookupFirst | main.py:74-76 | a name lookup returns the id of the first row carrying the name |
| Catalog.ModelNameResolves | main.py:74-76 | registration resolves a model name exactly when it is one of the four seeded model names |
| Catalog.NameOf | main.py:145 | the join of a catalog by id returns the name of the row carrying that id |
| Entities.AllowedCharsAreCodeChars | drones/models.py:10 | a character is in `allowed` exactly when it is an upper-case letter, a digit, `-` or `_` |
| Entities.NewDrone | drones/models.py:64-70 | construction fails with SerialTooLong exactly when the serial is longer than 100; on success serial, max weight and battery (and the assigned id, model and state) are the arguments |
| Entities.Stripped | drones/models.py:104 | deleting every character of `allowed` from a code leaves nothing exactly when every character of the code is an upper-case letter, a digit, `-` or `_` |
| Entities.SerialLengthBoundary | drones/models.py:66-67 | a 100-character serial is accepted and a 101-character one is rejected |
| Entities.SumWeights | main.py:95-98 | the weight sum of a list of medications: 0 for none, then each item's weight added in order |
| Entities.NewMedication | drones/models.py:102-112 | construction fails with CodeNotAllowed exactly when some character of the code is outside `allowed`; on success every field (the unset drone reference included) is the argument |
| Entities.CodeExamples | drones/models.py:104-106 | the code `AB CD` is rejected and `AB-12_CD` is accepted |
| Entities.DrawnCodePasses | drones/models.py:185-234 | a code made only of characters of `allowed` always passes the medication check |
| Allocator.Fits | main.py:106 | a candidate fits exactly when its weight plus the running load stays strictly below the max weight (the negation of the skip test) |
| Allocator.Step | main.py:106-109 | one iteration appends the candidate to the taken items when it fits at the running load and to the skipped ones otherwise, leaving the other side as it was; the load either stays unchanged or stays strictly below the max weight |
| Allocator.FirstFit | main.py:102-116 | the taken and skipped candidates together are as many as the candidates offered, and the final load is the starting load plus the weights taken (which items land on each side is stated by Allocator.FirstFitSplitsPool and Allocator.SkippedExactly) |
| Allocator.FirstFitPrefix | main.py:105-109 | scanning one more candidate is one more iteration applied to the scan of the candidates before it |
| Allocator.SkippedExactly | main.py:105-109 | the k-th candidate is skipped exactly when its weight plus the starting load plus the weights taken from the candidates before it reaches the max weight, and taken otherwise |
| Allocator.FirstFitSplitsPool | main.py:105-116 | the candidates split into the taken and the skipped ones, each a subsequence in candidate order |
| Allocator.TakenFromPool | main.py:102-116 | every taken item is one of the unassigned candidates offered |
| Allocator.TakenFitted | main.py:106-109 | each taken item fitted when taken: its weight plus the load before it stayed strictly below the max weight |
| Allocator.LoadBelowMax | main.py:106-109 | once anything is taken, the final load is strictly below the max weight |
| Allocator.LoadNeverDrops | main.py:105-109 | with non-negative weights the scan never lowers the load it started from |
| Allocator.SkippedDoNotFit | main.py:106-108 | with non-negative weights, no skipped candidate fits at the final load either (the load only grew after it was skipped) |
| Allocator.NothingFits | main.py:105-108 | a pool none of whose candidates fits is skipped whole and the load is unchanged |
| Allocator.SecondPassTakesNothing | main.py:105-109 | rescanning the skipped candidates from the reached load takes nothing |
| Allocator.ExactFillRefused | main.py:106 | a candidate that would bring the load to exactly the max weight is refused |
| Allocator.EachFittedExtend | main.py:106-109 | appending an item that fits at the current load keeps every taken item fitted |
| Allocator.ScenarioSixtyFiftyTwenty | main.py:105-116 | max 100, empty drone, weights [60, 50, 20]: 60 and 20 are taken, 50 is skipped, the load is 80 |
| Allocator.SkippedThenFits | main.py:105-109 | remaining capacity 25 and weights [30, 10]: 30 is skipped and the scan goes on to take 10 |
| Dispatch.Rows | main.py:113-116 | one reported row per medication, in order, carrying its id, name, weight and code |
| Dispatch.FindBySerial | main.py:90-92 | a drone found by serial carries that serial |
| Dispatch.FindBySerialFirstMatch | main.py:90-92 | the lookup fails exactly when no drone carries the serial; otherwise it yields the earliest registered drone carrying it |
| Dispatch.HeldBy | main.py:127 | the join by serial returns only medications assigned to a drone that carries the serial |
| Dispatch.Unassigned | main.py:102 | the candidate query returns only medications with no drone, and every medication with no drone |
| Dispatch.IdleDrones | main.py:145 | the IDLE query returns only drones in state 1 |
| Dispatch.IdleDronesExactly | main.py:145 | the IDLE query returns drones of the table, all in state 1, and every drone in state 1 |
| Dispatch.HeldByExactly | main.py:127 | the load query returns exactly the medications assigned to some drone that carries the serial |
| Dispatch.NextId | main.py:78 | the autoincrement id of a new drone is at least 1 and above every id in use |
| Dispatch.AssignTo | main.py:110-111 | the medication update keeps the table's length and every medication's id |
| Dispatch.SetState | main.py:99-100 | the state update changes the state of the drone with that id and nothing else |
| Dispatch.PlanLoad | main.py:90-109 | the request stops at the lookup exactly when no drone carries the serial; otherwise the drone found carries the serial and the pass is refused exactly when its battery is 25 or less; past that, the load is the weight held plus the weights taken and every unassigned medication is offered |
| Dispatch.Outcome | main.py:92-120 | the reply is a failure exactly on an unknown serial and the battery message exactly on a refused pass; after a pass it reports the max weight as limit, one row per taken item, and the limit message exactly when a candidate was skipped |
| Dispatch.LoadUpdatesKeepWellFormed | main.py:99-119 | the loading updates aimed at an existing drone keep ids unique, catalog references valid and medication foreign keys resolvable |
| Dispatch.LoadOutcomeCases | main.py:90-94 | a load request fails exactly on an unknown serial, and it stops with the battery message exactly when the first drone with that serial has 25% or less |
| Dispatch.LoadedResult | main.py:95-120 | past the battery check: the limit is the max weight; the load is the weight held plus the weight taken; the load is below the limit once anything was taken; the message is "Weight limit reached" exactly when some unassigned candidate was skipped, and empty exactly when none was; every returned item was unassigned |
| Dispatch.AssignmentTouchesOnlyTaken | main.py:102-112 | exactly the taken medications get the drone's id, each of them was unassigned before, and every other medication is unchanged |
| Dispatch.TakenUnassigned | main.py:102-109 | every medication the scan takes is a row of the table that had no drone |
| Dispatch.SeedDronesShape | drones/models.py:142-183 | the ten seeded drones get ids 1..10 in the order they are added, valid model ids, battery 100 and state IDLE |
| Dispatch.SeedDrone | drones/models.py:142-144 | every seeded drone is one the Drone constructor accepts, with full battery and state IDLE |
| Dispatch.SeedDrones | drones/models.py:142-183 | the seeding adds ten drones, no two of which share a serial |
| Dispatch.SeedMedications | drones/models.py:185-243 | the fifty seeded medications get ids 1..50 in creation order, their names, the drawn weight and code, done false and no drone; every code passes the check |
| Dispatch.SeedCodesPass | drones/models.py:185-234 | the Medication constructor accepts every seeded code drawn from `allowed` |
| Dispatch.SeedWellFormed | drones/models.py:142-243 | the freshly seeded tables have unique ids, valid catalog references and no dangling drone reference |
| Dispatch.Store.Populate | drones/models.py:121-243 | seeding yields well-formed tables: the ten seeded drones, all IDLE with full battery; the seeded medications with weights in [20, 50] and 40-character codes that pass the check; no state writes |
| Dispatch.Store.AddDrone | main.py:69-81 | an unknown model name fails with NotFound and changes nothing; otherwise a drone with the next id, the given fields, the resolved model id and state IDLE (1) is appended; medications untouched; the tables stay well formed |
| Dispatch.Store.GetLoad | main.py:124-138 | returns the rows of the medications held under the serial, and their total weight; changes nothing |
| Dispatch.Store.GetAvailable | main.py:142-153 | returns one row per IDLE drone, in table order, with its model and state names joined in; every row's state is "IDLE"; every IDLE drone is listed; changes nothing |
| Dispatch.Store.Load | main.py:85-120 | the reply is the outcome of the plan over the tables before the call; an unknown serial or a low battery changes nothing; otherwise the drone ends LOADED, after LOADING then LOADED were written in that order, only the taken medications are assigned to it, and the tables stay well formed |
| Dispatch.Store.LoadPass | main.py:95-119 | after the battery check: returns the first-fit result from the weight already held; sets the drone's state, logs LOADING then LOADED, assigns the taken items and keeps the tables well formed |
| Dispatch.Store.Scan | main.py:102-116 | the scan loop returns the rows of the taken candidates, the final load and the limit message exactly when a candidate was skipped, and assigns exactly the taken ones to the drone |
| Dispatch.Store.ScanEach | main.py:105-116 | the `for row in unloaded_meds` loop: after it, rows, message, load and the medication table are those of the first-fit allocation of the whole candidate list, from the table as it was before the loop; drones and state log unchanged |
| Dispatch.Store.Offer | main.py:106-116 | one iteration keeps the loop state equal to the first-fit allocation of one more candidate: a skip only sets the limit message, a take adds the weight, assigns the candidate to the drone in the table and appends its row |
| Dispatch.ScanStart | main.py:87-89 | the loop state before the first candidate (no rows, empty message, the held weight as load, medications untouched) is the first-fit allocation of no candidates |
| Dispatch.ScanSkip | main.py:106-108 | if the loop state matches the first-fit allocation of the first k candidates and candidate k does not fit, setting the limit message and changing nothing else matches it for k + 1 candidates |
| Dispatch.ScanTake | main.py:109-116 | if the loop state matches the first-fit allocation of the first k candidates and candidate k fits, adding its weight, assigning it to the drone and appending its row matches it for k + 1 candidates |
| Dispatch.ScanDone | main.py:105-116 | once all candidates are scanned, the rows, message, load and medications are those of the first-fit allocation of the whole candidate list |

## Left out

- HTTP routing, request parsing and the JSON replies (`jsonify`, the `{"result": ...}` wrapping) are transport. Replies are modelled as datatypes.
- SQLAlchemy sessions, commits and the text of the raw SQL statements are left out. Each committed update is a reassignment of a table field. The SQL string that registration returns as its message is not modelled.
- The query result order is not specified by SQL. The model assumes every query returns rows in creation order, the order in which SQLite scans these tables.
- The background job, `app.run`, `common.py` and `config.py` are left out: scheduling, I/O and configuration only.
- The `random` calls of the seeding are left out. The weights and codes are parameters of `Store.Populate` that meet the generator's bounds: weights in [20, 50], 40 characters each from `allowed`.
- The image blob and the meaning of `done` are left out. Neither is read by any modelled handler.
- `hello_world`, `get_battery`, `get_drones`, `get_models`, `get_states` and the empty `get_drone_health` are left out. They are single lookups with no logic of their own.
- Concurrent requests and a crash between commits are left out. The model is one sequential pass with no partial commit.
- The `int()` conversions in registration and in the weight sum are left out. Fields are modelled as integers already.
- A second loading pass over the whole store is not modelled. Only the allocator-level statement, `Allocator.SecondPassTakesNothing`, is proved.
- Dispatch.Store.AddDrone: an unknown model name is an uncaught `IndexError` in the code. It is modelled as `Failure(NotFound)` with nothing changed.
- Dispatch.Store.Load: an unknown serial is an uncaught `IndexError` in the code. It is modelled as `Failure(NotFound)` with nothing changed.
