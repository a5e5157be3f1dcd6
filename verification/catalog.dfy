/**
 * The two reference catalogs seeded once by `db_populate`: drone states and drone models.
 * Each is a table whose integer ids are handed out by autoincrement in insertion order;
 * the request handlers hard-code the ids 1 (IDLE), 2 (LOADING) and 3 (LOADED), so the
 * insertion order is part of the contract.
 */
module Catalog {
  import opened Wrappers

  /** The drone life-cycle labels. */
  datatype DroneState = Idle | Loading | Loaded | Delivering | Delivered | Returning

  /** The drone model classes. */
  datatype DroneModel = Lightweight | Middleweight | Cruiserweight | Heavyweight

  /** One row of a catalog table. */
  datatype CatalogRow = CatalogRow(id: int, name: string)

  function StateName(s: DroneState): string
  {
    match s
    case Idle => "IDLE"
    case Loading => "LOADING"
    case Loaded => "LOADED"
    case Delivering => "DELIVERING"
    case Delivered => "DELIVERED"
    case Returning => "RETURNING"
  }

  function ModelName(m: DroneModel): string
  {
    match m
    case Lightweight => "Lightweight"
    case Middleweight => "Middleweight"
    case Cruiserweight => "Cruiserweight"
    case Heavyweight => "Heavyweight"
  }

  /** The state names in the order `db_populate` inserts them. */
  const StateNames: seq<string> := ["IDLE", "LOADING", "LOADED", "DELIVERING", "DELIVERED", "RETURNING"]

  /** The model names in the order `db_populate` inserts them. */
  const ModelNames: seq<string> := ["Lightweight", "Middleweight", "Cruiserweight", "Heavyweight"]

  /**
   * The rows a fresh autoincrement table holds after the names are inserted one by one:
   * the k-th inserted name (counting from 0) gets id k + 1.
   */
  function Insert(names: seq<string>): (rows: seq<CatalogRow>)
    ensures |rows| == |names|
    ensures forall k :: 0 <= k < |rows| ==> rows[k].id == k + 1 && rows[k].name == names[k]
    decreases |names|
  {
    if names == [] then []
    else Insert(names[..|names| - 1]) + [CatalogRow(|names|, names[|names| - 1])]
  }

  function StateRows(): seq<CatalogRow>
  {
    Insert(StateNames)
  }

  function ModelRows(): seq<CatalogRow>
  {
    Insert(ModelNames)
  }

  /** `select id where name == n`, first row: None when no row carries the name. */
  function LookupId(rows: seq<CatalogRow>, n: string): (r: Option<int>)
    ensures r.None? <==> forall k :: 0 <= k < |rows| ==> rows[k].name != n
    ensures r.Some? ==> exists k :: 0 <= k < |rows| && rows[k] == CatalogRow(r.value, n)
    decreases |rows|
  {
    if rows == [] then None
    else if rows[0].name == n then Some(rows[0].id)
    else
      var r := LookupId(rows[1..], n);
      assert forall k :: 1 <= k < |rows| ==> rows[k] == rows[1..][k - 1];
      r
  }

  /** The fixed state ids the request handlers rely on. */
  function StateId(s: DroneState): int
  {
    match s
    case Idle => 1
    case Loading => 2
    case Loaded => 3
    case Delivering => 4
    case Delivered => 5
    case Returning => 6
  }

  /** The model id of each model class, as the seeded drones use it. */
  function ModelId(m: DroneModel): int
  {
    match m
    case Lightweight => 1
    case Middleweight => 2
    case Cruiserweight => 3
    case Heavyweight => 4
  }

  /** The name a row of a catalog table carries, looked up by id (the join of the listings). */
  function NameOf(rows: seq<CatalogRow>, id: int): (n: string)
    requires forall k :: 0 <= k < |rows| ==> rows[k].id == k + 1
    requires 1 <= id <= |rows|
    ensures exists k :: 0 <= k < |rows| && rows[k] == CatalogRow(id, n)
  {
    rows[id - 1].name
  }

  /**
   * The hard-coded ids agree with the catalog: looking up a state's name in the seeded
   * table yields exactly the id the handlers use for it.
   */
  lemma StateIdMatchesCatalog(s: DroneState)
    ensures LookupId(StateRows(), StateName(s)) == Some(StateId(s))
  {
    var rows := StateRows();
    assert rows[0].name == "IDLE" && rows[1].name == "LOADING" && rows[2].name == "LOADED";
    assert rows[3].name == "DELIVERING" && rows[4].name == "DELIVERED" && rows[5].name == "RETURNING";
    LookupFirst(rows, StateId(s) - 1, StateName(s));
  }

  /** Same for the model catalog, which `add_drone` searches by name. */
  lemma ModelIdMatchesCatalog(m: DroneModel)
    ensures LookupId(ModelRows(), ModelName(m)) == Some(ModelId(m))
  {
    var rows := ModelRows();
    assert rows[0].name == "Lightweight" && rows[1].name == "Middleweight";
    assert rows[2].name == "Cruiserweight" && rows[3].name == "Heavyweight";
    LookupFirst(rows, ModelId(m) - 1, ModelName(m));
  }

  /** A lookup finds the first row carrying the name. */
  lemma {:induction false} LookupFirst(rows: seq<CatalogRow>, k: nat, n: string)
    requires k < |rows| && rows[k].name == n
    requires forall j :: 0 <= j < k ==> rows[j].name != n
    ensures LookupId(rows, n) == Some(rows[k].id)
    decreases k
  {
    if k > 0 {
      LookupFirst(rows[1..], k - 1, n);
    }
  }

  /** `add_drone` resolves a model name exactly when it is one of the seeded model names. */
  lemma ModelNameResolves(n: string)
    ensures LookupId(ModelRows(), n).Some? <==> n in ModelNames
  {
    var rows := ModelRows();
    if n in ModelNames {
      var k :| 0 <= k < |ModelNames| && ModelNames[k] == n;
      assert rows[k].name == n;
    } else {
      forall k | 0 <= k < |rows| ensures rows[k].name != n {
        assert rows[k].name == ModelNames[k];
      }
    }
  }
}
