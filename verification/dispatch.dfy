/**
 * The dispatch service: the Drone and Medication tables as a store, and the request
 * handlers that read and update them — registering a drone, the loading pass, inspecting
 * a drone's load and listing the available drones — plus the initial seeding.
 * Each SQL query is a pure function of the tables; each loop of a handler is a loop here.
 */
module Dispatch {
  import opened Wrappers
  import Seqs
  import opened Catalog
  import opened Entities
  import opened Allocator

  /** A medication as the handlers report it: the selected columns id, name, weight, code. */
  datatype MedicationRow = MedicationRow(id: int, name: string, weight: int, code: string)

  /** A drone as the availability listing reports it, joined with its model and state names. */
  datatype DroneRow = DroneRow(id: int, serial: string, maxWeight: int, battery: int, model: string, state: string)

  /** The two normal outcomes of a load request. */
  datatype LoadOutcome =
    | BatteryLow(message: string)
    | Assigned(result: seq<MedicationRow>, limit: int, message: string, load: int)

  /** One committed `UPDATE Drone SET state_id = ...`. */
  datatype StateWrite = StateWrite(droneId: int, stateId: int)

  /** What the loading pass decides, given the tables before it. */
  datatype Plan =
    | NoDrone
    | LowBattery(drone: Drone)
    | Pass(drone: Drone, held: int, alloc: Allocation)

  const BatteryFloor := 25
  const BatteryMessage := "Batter is less or equal to 25%"
  const LimitMessage := "Weight limit reached"

  function RowOf(m: Medication): MedicationRow
  {
    MedicationRow(m.id, m.name, m.weight, m.code)
  }

  /** The reported rows of a sequence of medications, one per medication, in order. */
  function Rows(ms: seq<Medication>): (r: seq<MedicationRow>)
    ensures |r| == |ms|
    ensures forall i :: 0 <= i < |ms| ==> r[i] == RowOf(ms[i])
    decreases |ms|
  {
    if ms == [] then [] else Rows(ms[..|ms| - 1]) + [RowOf(ms[|ms| - 1])]
  }

  /** `select ... where serial == s` and `[0]`: the first drone registered with that serial. */
  function FindBySerial(drones: seq<Drone>, serial: string): (r: Option<Drone>)
    ensures r.Some? ==> r.value.serial == serial
    decreases |drones|
  {
    if drones == [] then None
    else if drones[0].serial == serial then Some(drones[0])
    else FindBySerial(drones[1..], serial)
  }

  /**
   * The lookup fails exactly when no drone carries the serial, and otherwise yields the
   * earliest registered drone that does.
   */
  lemma {:induction false} FindBySerialFirstMatch(drones: seq<Drone>, serial: string)
    ensures FindBySerial(drones, serial).None? <==> forall k :: 0 <= k < |drones| ==> drones[k].serial != serial
    ensures FindBySerial(drones, serial).Some? ==>
              exists k :: 0 <= k < |drones| && drones[k] == FindBySerial(drones, serial).value
                          && forall j :: 0 <= j < k ==> drones[j].serial != serial
    decreases |drones|
  {
    if drones != [] && drones[0].serial != serial {
      FindBySerialFirstMatch(drones[1..], serial);
      assert forall k :: 1 <= k < |drones| ==> drones[k] == drones[1..][k - 1];
      if FindBySerial(drones, serial).Some? {
        var k :| 0 <= k < |drones[1..]| && drones[1..][k] == FindBySerial(drones, serial).value
                 && forall j :: 0 <= j < k ==> drones[1..][j].serial != serial;
        assert drones[k + 1] == FindBySerial(drones, serial).value;
        assert forall j :: 1 <= j < k + 1 ==> drones[j] == drones[1..][j - 1];
      }
    }
  }

  /** The ids of every drone carrying the serial (the handlers join on the serial, not the id). */
  function SerialIds(drones: seq<Drone>, serial: string): set<int>
  {
    set k | 0 <= k < |drones| && drones[k].serial == serial :: drones[k].id
  }

  function DroneIds(drones: seq<Drone>): set<int>
  {
    set k | 0 <= k < |drones| :: drones[k].id
  }

  /** The join `Drone.medications where Drone.serial == serial`, in medication order. */
  function HeldBy(meds: seq<Medication>, drones: seq<Drone>, serial: string): (r: seq<Medication>)
    ensures forall i :: 0 <= i < |r| ==> r[i].droneId.Some? && r[i].droneId.value in SerialIds(drones, serial)
  {
    Seqs.FilterMembers(meds, (m: Medication) => m.droneId.Some? && m.droneId.value in SerialIds(drones, serial));
    Seqs.Filter(meds, (m: Medication) => m.droneId.Some? && m.droneId.value in SerialIds(drones, serial))
  }

  /** `select ... where drone_id == None`, in creation order. */
  function Unassigned(meds: seq<Medication>): (r: seq<Medication>)
    ensures forall i :: 0 <= i < |r| ==> r[i].droneId.None?
    ensures forall i :: 0 <= i < |meds| && meds[i].droneId.None? ==> meds[i] in r
  {
    Seqs.FilterMembers(meds, (m: Medication) => m.droneId.None?);
    Seqs.Filter(meds, (m: Medication) => m.droneId.None?)
  }

  /** `select ... where state_id == 1`. */
  function IdleDrones(drones: seq<Drone>): (r: seq<Drone>)
    ensures forall i :: 0 <= i < |r| ==> r[i].stateId == StateId(Idle)
  {
    Seqs.FilterMembers(drones, (d: Drone) => d.stateId == StateId(Idle));
    Seqs.Filter(drones, (d: Drone) => d.stateId == StateId(Idle))
  }

  /** The idle listing holds drones of the table, all idle, and every idle drone of the table. */
  lemma IdleDronesExactly(drones: seq<Drone>)
    ensures forall i :: 0 <= i < |IdleDrones(drones)| ==>
              IdleDrones(drones)[i] in drones && IdleDrones(drones)[i].stateId == StateId(Idle)
    ensures forall k :: 0 <= k < |drones| && drones[k].stateId == StateId(Idle) ==> drones[k] in IdleDrones(drones)
  {
    Seqs.FilterMembers(drones, (d: Drone) => d.stateId == StateId(Idle));
  }

  function IdsOf(ms: seq<Medication>): set<int>
  {
    set i | 0 <= i < |ms| :: ms[i].id
  }

  /** `UPDATE Medication SET drone_id = did WHERE id IN ids`. */
  function AssignTo(meds: seq<Medication>, ids: set<int>, did: int): (r: seq<Medication>)
    ensures |r| == |meds|
    ensures forall i :: 0 <= i < |meds| ==> r[i].id == meds[i].id
  {
    seq(|meds|, i requires 0 <= i < |meds| => if meds[i].id in ids then meds[i].(droneId := Some(did)) else meds[i])
  }

  /** `UPDATE Drone SET state_id = s WHERE id = did`. */
  function SetState(drones: seq<Drone>, did: int, s: int): (r: seq<Drone>)
    ensures |r| == |drones|
    ensures forall k :: 0 <= k < |drones| ==> r[k] == if drones[k].id == did then drones[k].(stateId := s) else drones[k]
  {
    seq(|drones|, k requires 0 <= k < |drones| => if drones[k].id == did then drones[k].(stateId := s) else drones[k])
  }

  /** The id autoincrement gives the next inserted drone: one past the largest id in use. */
  function NextId(drones: seq<Drone>): (n: int)
    ensures n >= 1
    ensures forall k :: 0 <= k < |drones| ==> drones[k].id < n
    decreases |drones|
  {
    if drones == [] then 1
    else
      var n := NextId(drones[..|drones| - 1]);
      assert forall k :: 0 <= k < |drones| - 1 ==> drones[k] == drones[..|drones| - 1][k];
      if drones[|drones| - 1].id < n then n else drones[|drones| - 1].id + 1
  }

  /** The integrity the tables keep: unique primary keys and resolvable foreign keys. */
  ghost predicate WellFormed(drones: seq<Drone>, meds: seq<Medication>)
  {
    && (forall k, j :: 0 <= k < j < |drones| ==> drones[k].id != drones[j].id)
    && (forall i, j :: 0 <= i < j < |meds| ==> meds[i].id != meds[j].id)
    && (forall k :: 0 <= k < |drones| ==> 1 <= drones[k].modelId <= |ModelNames| && 1 <= drones[k].stateId <= |StateNames|)
    && (forall i :: 0 <= i < |meds| && meds[i].droneId.Some? ==> meds[i].droneId.value in DroneIds(drones))
  }

  /** A drone row of the availability listing, with the catalog names joined in. */
  function AvailableRow(d: Drone): DroneRow
    requires 1 <= d.modelId <= |ModelNames| && 1 <= d.stateId <= |StateNames|
  {
    DroneRow(d.id, d.serial, d.maxWeight, d.battery, NameOf(ModelRows(), d.modelId), NameOf(StateRows(), d.stateId))
  }

  /** The decision of a loading pass over the tables as they were when it started. */
  function PlanLoad(drones: seq<Drone>, meds: seq<Medication>, serial: string): (p: Plan)
    ensures p.NoDrone? <==> FindBySerial(drones, serial).None?
    ensures !p.NoDrone? ==> p.drone.serial == serial && (p.LowBattery? <==> p.drone.battery <= BatteryFloor)
    ensures p.Pass? ==> p.alloc.load == p.held + SumWeights(p.alloc.taken)
    ensures p.Pass? ==> |p.alloc.taken| + |p.alloc.left| == |Unassigned(meds)|
  {
    match FindBySerial(drones, serial)
    case None => NoDrone
    case Some(d) =>
      if d.battery <= BatteryFloor then LowBattery(d)
      else
        var held := SumWeights(HeldBy(meds, drones, serial));
        Pass(d, held, FirstFit(Unassigned(meds), held, d.maxWeight))
  }

  /** What the loading handler returns for a plan. */
  function Outcome(p: Plan): (r: Result<LoadOutcome, Error>)
    ensures r.Failure? <==> p.NoDrone?
    ensures r.Success? ==> (r.value.BatteryLow? <==> p.LowBattery?)
    ensures p.Pass? ==> r.value.limit == p.drone.maxWeight && |r.value.result| == |p.alloc.taken|
    ensures p.Pass? ==> (r.value.message == LimitMessage <==> p.alloc.left != [])
  {
    match p
    case NoDrone => Failure(NotFound)
    case LowBattery(_) => Success(BatteryLow(BatteryMessage))
    case Pass(d, _, a) => Success(Assigned(Rows(a.taken), d.maxWeight, if a.left == [] then "" else LimitMessage, a.load))
  }

  lemma IdsOfAppend(t: seq<Medication>, c: Medication)
    ensures IdsOf(t + [c]) == IdsOf(t) + {c.id}
  {
    var t' := t + [c];
    assert t'[|t|] == c;
    forall x | x in IdsOf(t) ensures x in IdsOf(t') {
      var i :| 0 <= i < |t| && t[i].id == x;
      assert t'[i] == t[i];
    }
  }

  lemma AssignToTwice(meds: seq<Medication>, ids: set<int>, x: int, did: int)
    ensures AssignTo(AssignTo(meds, ids, did), {x}, did) == AssignTo(meds, ids + {x}, did)
  {
  }

  /** Taking `c` extends the rows, the assigned ids and the assignment by `c` alone. */
  lemma TakeStep(meds: seq<Medication>, a: Allocation, c: Medication, maxWeight: int, did: int)
    requires Fits(c.weight, a.load, maxWeight)
    ensures Step(a, c, maxWeight).taken == a.taken + [c]
    ensures Rows(a.taken + [c]) == Rows(a.taken) + [RowOf(c)]
    ensures AssignTo(AssignTo(meds, IdsOf(a.taken), did), {c.id}, did) == AssignTo(meds, IdsOf(a.taken + [c]), did)
  {
    assert (a.taken + [c])[..|a.taken|] == a.taken;
    IdsOfAppend(a.taken, c);
    AssignToTwice(meds, IdsOf(a.taken), c.id, did);
  }

  /**
   * What the scan has produced after offering the first `k` candidates of `pool`: the
   * running load, the reported rows and the message of the first-fit pass over that
   * prefix, and the medications `meds0` with the taken ones assigned to drone `did`.
   */
  ghost predicate Scanned(pool: seq<Medication>, k: nat, held: int, maxWeight: int, did: int, meds0: seq<Medication>,
                          meds: seq<Medication>, result: seq<MedicationRow>, message: string, load: int)
  {
    && k <= |pool|
    && var a := FirstFit(pool[..k], held, maxWeight);
       && load == a.load
       && result == Rows(a.taken)
       && message == (if a.left == [] then "" else LimitMessage)
       && meds == AssignTo(meds0, IdsOf(a.taken), did)
  }

  /** Nothing scanned yet: the held load, no rows, no message, the medications as they were. */
  lemma ScanStart(pool: seq<Medication>, held: int, maxWeight: int, did: int, meds0: seq<Medication>)
    ensures Scanned(pool, 0, held, maxWeight, did, meds0, meds0, [], "", held)
  {
    assert pool[..0] == [];
    assert IdsOf([]) == {};
    assert AssignTo(meds0, {}, did) == meds0;
  }

  /** A candidate that reaches the max weight is skipped: only the message changes. */
  lemma ScanSkip(pool: seq<Medication>, k: nat, held: int, maxWeight: int, did: int, meds0: seq<Medication>,
                 meds: seq<Medication>, result: seq<MedicationRow>, message: string, load: int)
    requires Scanned(pool, k, held, maxWeight, did, meds0, meds, result, message, load)
    requires k < |pool| && pool[k].weight + load >= maxWeight
    ensures Scanned(pool, k + 1, held, maxWeight, did, meds0, meds, result, LimitMessage, load)
  {
    FirstFitPrefix(pool, k, held, maxWeight);
  }

  /** A candidate that stays below the max weight is taken: load, rows and assignment grow by it. */
  lemma ScanTake(pool: seq<Medication>, k: nat, held: int, maxWeight: int, did: int, meds0: seq<Medication>,
                 meds: seq<Medication>, result: seq<MedicationRow>, message: string, load: int)
    requires Scanned(pool, k, held, maxWeight, did, meds0, meds, result, message, load)
    requires k < |pool| && pool[k].weight + load < maxWeight
    ensures Scanned(pool, k + 1, held, maxWeight, did, meds0, AssignTo(meds, {pool[k].id}, did),
                    result + [RowOf(pool[k])], message, load + pool[k].weight)
  {
    FirstFitPrefix(pool, k, held, maxWeight);
    TakeStep(meds0, FirstFit(pool[..k], held, maxWeight), pool[k], maxWeight, did);
  }

  /** Once every candidate was offered, the scan has produced the first-fit pass over the whole pool. */
  lemma ScanDone(pool: seq<Medication>, held: int, maxWeight: int, did: int, meds0: seq<Medication>,
                 meds: seq<Medication>, result: seq<MedicationRow>, message: string, load: int)
    requires Scanned(pool, |pool|, held, maxWeight, did, meds0, meds, result, message, load)
    ensures var a := FirstFit(pool, held, maxWeight);
            && result == Rows(a.taken)
            && message == (if a.left == [] then "" else LimitMessage)
            && load == a.load
            && meds == AssignTo(meds0, IdsOf(a.taken), did)
  {
    assert pool[..|pool|] == pool;
  }

  /** The loading updates keep the tables well formed when they target an existing drone. */
  lemma LoadUpdatesKeepWellFormed(drones: seq<Drone>, meds: seq<Medication>, ids: set<int>, did: int, s: int)
    requires WellFormed(drones, meds)
    requires did in DroneIds(drones) && 1 <= s <= |StateNames|
    ensures WellFormed(SetState(drones, did, s), AssignTo(meds, ids, did))
  {
    var drones' := SetState(drones, did, s);
    assert DroneIds(drones') == DroneIds(drones) by {
      forall x | x in DroneIds(drones) ensures x in DroneIds(drones') {
        var k :| 0 <= k < |drones| && drones[k].id == x;
        assert drones'[k].id == x;
      }
    }
  }

  /** A second state update of the same drone overwrites the first. */
  lemma SetStateTwice(drones: seq<Drone>, did: int, s: int, s': int)
    ensures SetState(SetState(drones, did, s), did, s') == SetState(drones, did, s')
  {
  }

  /** A load request fails exactly on an unknown serial, and stops at the battery check exactly when the resolved drone has 25 or less. */
  lemma LoadOutcomeCases(drones: seq<Drone>, meds: seq<Medication>, serial: string)
    ensures var o := Outcome(PlanLoad(drones, meds, serial));
            && (o == Failure(NotFound) <==> forall k :: 0 <= k < |drones| ==> drones[k].serial != serial)
            && (o == Success(BatteryLow(BatteryMessage)) <==>
                  exists k :: 0 <= k < |drones| && drones[k].serial == serial && drones[k].battery <= BatteryFloor
                              && forall j :: 0 <= j < k ==> drones[j].serial != serial)
  {
    FindBySerialFirstMatch(drones, serial);
    var found := FindBySerial(drones, serial);
    if found.Some? {
      var k :| 0 <= k < |drones| && drones[k] == found.value && forall j :: 0 <= j < k ==> drones[j].serial != serial;
      forall k' | 0 <= k' < |drones| && drones[k'].serial == serial && forall j :: 0 <= j < k' ==> drones[j].serial != serial
        ensures k' == k
      {
      }
    }
  }

  /**
   * A pass that gets past the battery check reports the drone's max weight as the limit,
   * the weight it held before plus the newly taken weight as the load, a load strictly
   * below the limit once anything was taken, the limit message exactly when some
   * unassigned candidate was left behind, and only items that were unassigned.
   */
  lemma LoadedResult(drones: seq<Drone>, meds: seq<Medication>, serial: string)
    requires PlanLoad(drones, meds, serial).Pass?
    ensures var p := PlanLoad(drones, meds, serial);
            var o := Outcome(p).value;
            && o.Assigned?
            && p.drone.serial == serial && p.drone.battery > BatteryFloor
            && o.limit == p.drone.maxWeight
            && o.load == SumWeights(HeldBy(meds, drones, serial)) + SumWeights(p.alloc.taken)
            && (o.result != [] ==> o.load < o.limit)
            && (o.message == LimitMessage <==> |o.result| < |Unassigned(meds)|)
            && (o.message == "" <==> |o.result| == |Unassigned(meds)|)
            && (forall i :: 0 <= i < |o.result| ==>
                  exists j :: 0 <= j < |meds| && meds[j].droneId.None? && o.result[i] == RowOf(meds[j]))
  {
    var p := PlanLoad(drones, meds, serial);
    var pool := Unassigned(meds);
    LoadBelowMax(pool, p.held, p.drone.maxWeight);
    TakenFromPool(pool, p.held, p.drone.maxWeight);
    Seqs.FilterMembers(meds, (m: Medication) => m.droneId.None?);
    var o := Outcome(p).value;
    forall i | 0 <= i < |o.result| ensures exists j :: 0 <= j < |meds| && meds[j].droneId.None? && o.result[i] == RowOf(meds[j]) {
      var m := p.alloc.taken[i];
      assert m in pool;
      var j :| 0 <= j < |meds| && meds[j] == m;
    }
  }

  /**
   * The medications a pass assigns are exactly the taken ones: each of them was
   * unassigned and now references the drone; every other medication is unchanged.
   */
  lemma AssignmentTouchesOnlyTaken(meds: seq<Medication>, held: int, maxWeight: int, did: int)
    requires forall i, j :: 0 <= i < j < |meds| ==> meds[i].id != meds[j].id
    ensures var taken := FirstFit(Unassigned(meds), held, maxWeight).taken;
            var after := AssignTo(meds, IdsOf(taken), did);
            forall i :: 0 <= i < |meds| ==>
              && (meds[i] in taken ==> meds[i].droneId.None? && after[i] == meds[i].(droneId := Some(did)))
              && (meds[i] !in taken ==> after[i] == meds[i])
  {
    var taken := FirstFit(Unassigned(meds), held, maxWeight).taken;
    TakenUnassigned(meds, held, maxWeight);
    IdsPickTaken(meds, taken);
  }

  /** Every taken candidate is a medication of the table that had no drone. */
  lemma TakenUnassigned(meds: seq<Medication>, held: int, maxWeight: int)
    ensures forall m :: m in FirstFit(Unassigned(meds), held, maxWeight).taken ==> m in meds && m.droneId.None?
  {
    var pool := Unassigned(meds);
    var taken := FirstFit(pool, held, maxWeight).taken;
    TakenFromPool(pool, held, maxWeight);
    Seqs.FilterMembers(meds, (m: Medication) => m.droneId.None?);
    forall m | m in taken ensures m in meds && m.droneId.None? {
      var x :| 0 <= x < |pool| && pool[x] == m;
    }
  }

  /** With unique ids, a medication's id is among the ids of `taken` exactly when it is in `taken`. */
  lemma IdsPickTaken(meds: seq<Medication>, taken: seq<Medication>)
    requires forall i, j :: 0 <= i < j < |meds| ==> meds[i].id != meds[j].id
    requires forall m :: m in taken ==> m in meds
    ensures forall i :: 0 <= i < |meds| ==> (meds[i].id in IdsOf(taken) <==> meds[i] in taken)
  {
    forall i | 0 <= i < |meds| ensures meds[i].id in IdsOf(taken) <==> meds[i] in taken {
      if meds[i].id in IdsOf(taken) {
        var t :| 0 <= t < |taken| && taken[t].id == meds[i].id;
        assert taken[t] in taken;
        var j :| 0 <= j < |meds| && meds[j] == taken[t];
        assert i == j;
      }
      if meds[i] in taken {
        var t :| 0 <= t < |taken| && taken[t] == meds[i];
        assert taken[t].id in IdsOf(taken);
      }
    }
  }


  /** `get_load` reports exactly the medications assigned to some drone carrying the serial. */
  lemma HeldByExactly(drones: seq<Drone>, meds: seq<Medication>, serial: string)
    ensures forall i :: 0 <= i < |HeldBy(meds, drones, serial)| ==>
              var m := HeldBy(meds, drones, serial)[i];
              m in meds && m.droneId.Some? && exists k :: 0 <= k < |drones| && drones[k].serial == serial && drones[k].id == m.droneId.value
    ensures forall j :: 0 <= j < |meds| && meds[j].droneId.Some? &&
                        (exists k :: 0 <= k < |drones| && drones[k].serial == serial && drones[k].id == meds[j].droneId.value)
                        ==> meds[j] in HeldBy(meds, drones, serial)
  {
    Seqs.FilterMembers(meds, (m: Medication) => m.droneId.Some? && m.droneId.value in SerialIds(drones, serial));
  }

  /** The medication names, in the order the seeding creates them. */
  const SeedNames: seq<string> := [
    "Vitamin D", "Amoxicillin", "Levothyroxine", "Lisinopril", "Ibuprofen",
    "Amphetamine", "Amlodipine", "Albuterol HFA", "Prednisone", "Gabapentin",
    "Benzonatate", "Alprazolam", "Cyclobenzaprine", "Azithromycin", "Atorvastatin",
    "Cetirizine", "Losartan", "Amoxicillin", "Cephalexin", "Metformin",
    "Metoprolol Succinate ER", "Folic Acid", "Hydrochlorothiazide", "Sildenafil", "Trazodone",
    "Zolpidem Tartrate ", "Escitalopram", "Clonazepam", "Methylprednisolone", "Tadalafil",
    "Methocarbamol", "Fluconazole", "Sertraline", "Doxycycline Hyclate", "Furosemide",
    "Fluoxetine", "Metronidazole", "Freestyle", "Omeprazole", "FeroSul",
    "Sulfamethoxazole", "Phenobarbital", "Armour", "Bromphen", "Metoprolol",
    "Meloxicam", "Pantoprazole", "Lisinopril", "Estradiol", "Famotidine"
  ]

  /** The seeded drones have ids 1..10, valid catalog references, full batteries and state IDLE. */
  lemma SeedDronesShape()
    ensures |SeedDrones()| == 10
    ensures forall k :: 0 <= k < |SeedDrones()| ==>
              && SeedDrones()[k].id == k + 1
              && 1 <= SeedDrones()[k].modelId <= |ModelNames|
              && SeedDrones()[k].stateId == StateId(Idle)
              && SeedDrones()[k].battery == 100
  {
  }

  /** A seeded drone: full battery, IDLE, built through the Drone constructor. */
  function SeedDrone(id: int, serial: string, maxWeight: int, model: DroneModel): (d: Drone)
    requires |serial| <= MaxSerialLength
    ensures NewDrone(serial, maxWeight, 100, id, ModelId(model), StateId(Idle)) == Success(d)
  {
    NewDrone(serial, maxWeight, 100, id, ModelId(model), StateId(Idle)).value
  }

  /** The ten seeded drones, with ids in the order the seeding adds them. */
  function SeedDrones(): (ds: seq<Drone>)
    ensures |ds| == 10
    ensures forall j, k :: 0 <= j < k < |ds| ==> ds[j].serial != ds[k].serial
  {
    [ SeedDrone(1, "b3b96530-7b0c-4ba2-a1f8-a15f23c8e867", 490, Heavyweight),
      SeedDrone(2, "5699f6e4-29f5-4f55-b905-3d671b7ea01a", 400, Lightweight),
      SeedDrone(3, "050460c1-03e0-4fd1-9ca9-773df7cddf2e", 450, Middleweight),
      SeedDrone(4, "2dfcfb09-a3c4-4ffc-a98a-50fee3c2228e", 475, Cruiserweight),
      SeedDrone(5, "11921a43-2ef2-4b5b-814a-089ddb6afac6", 500, Heavyweight),
      SeedDrone(6, "9216bbba-6fe6-44ac-8c67-92572e4ca9f5", 420, Lightweight),
      SeedDrone(7, "f167dc54-a672-4279-aefe-0088f7fdbfd6", 440, Middleweight),
      SeedDrone(8, "255fe9cd-f3f7-490d-8c2c-84e3289c61b2", 480, Cruiserweight),
      SeedDrone(9, "fab64f7d-6c00-4b4f-9128-cb47da4a9297", 500, Heavyweight),
      SeedDrone(10, "75177b23-aff8-4d21-9a3b-2d3f046ddab1", 485, Cruiserweight) ]
  }

  /** The seeded medications: the `Medication` constructor accepts every drawn code. */
  function SeedMedications(weights: seq<int>, codes: seq<string>): (ms: seq<Medication>)
    requires |weights| == |SeedNames| && |codes| == |SeedNames|
    requires forall i, j :: 0 <= i < |codes| && 0 <= j < |codes[i]| ==> codes[i][j] in AllowedChars
    ensures |ms| == |SeedNames|
    ensures forall i :: 0 <= i < |ms| ==>
              ms[i] == Medication(i + 1, SeedNames[i], weights[i], codes[i], false, None) && IsCode(ms[i].code)
  {
    SeedCodesPass(weights, codes);
    seq(|SeedNames|, i requires 0 <= i < |SeedNames| =>
      NewMedication(i + 1, SeedNames[i], weights[i], codes[i], false, None).value)
  }

  lemma SeedCodesPass(weights: seq<int>, codes: seq<string>)
    requires |weights| == |SeedNames| && |codes| == |SeedNames|
    requires forall i, j :: 0 <= i < |codes| && 0 <= j < |codes[i]| ==> codes[i][j] in AllowedChars
    ensures forall i :: 0 <= i < |SeedNames| ==>
              NewMedication(i + 1, SeedNames[i], weights[i], codes[i], false, None)
              == Success(Medication(i + 1, SeedNames[i], weights[i], codes[i], false, None))
  {
    forall i | 0 <= i < |SeedNames|
      ensures NewMedication(i + 1, SeedNames[i], weights[i], codes[i], false, None)
              == Success(Medication(i + 1, SeedNames[i], weights[i], codes[i], false, None))
    {
      DrawnCodePasses(i + 1, SeedNames[i], weights[i], codes[i], false, None);
    }
  }

  /** Freshly seeded tables are well formed: unassigned medications numbered from 1. */
  lemma SeedWellFormed(ms: seq<Medication>)
    requires forall i :: 0 <= i < |ms| ==> ms[i].id == i + 1 && ms[i].droneId.None?
    ensures WellFormed(SeedDrones(), ms)
  {
    SeedDronesShape();
  }

  class Store {
    var drones: seq<Drone>
    var medications: seq<Medication>
    /** Every committed drone-state update, in commit order. */
    ghost var stateWrites: seq<StateWrite>

    ghost predicate Valid()
      reads this
    {
      WellFormed(drones, medications)
    }

    /**
     * `db_populate`: the catalogs are the fixed tables of Catalog; the ten drones and the
     * fifty medications are inserted in order. The random weights and codes are parameters
     * that satisfy what the generator guarantees: weights in [20, 50], 40-character codes
     * drawn from `allowed`.
     */
    constructor Populate(weights: seq<int>, codes: seq<string>)
      requires |weights| == |SeedNames| && |codes| == |SeedNames|
      requires forall i :: 0 <= i < |weights| ==> 20 <= weights[i] <= 50
      requires forall i :: 0 <= i < |codes| ==> |codes[i]| == 40
      requires forall i, j :: 0 <= i < |codes| && 0 <= j < |codes[i]| ==> codes[i][j] in AllowedChars
      ensures Valid()
      ensures drones == SeedDrones()
      ensures forall k :: 0 <= k < |drones| ==> drones[k].stateId == StateId(Idle) && drones[k].battery == 100
      ensures medications == SeedMedications(weights, codes)
      ensures forall i :: 0 <= i < |medications| ==>
                20 <= medications[i].weight <= 50 && |medications[i].code| == 40 && IsCode(medications[i].code)
      ensures stateWrites == []
    {
      drones := SeedDrones();
      medications := SeedMedications(weights, codes);
      stateWrites := [];
      SeedDronesShape();
      SeedWellFormed(SeedMedications(weights, codes));
    }

    /**
     * `add_drone`: resolve the model by name (unknown name: NotFound) and insert a drone in
     * state IDLE with the next id. The raw insert does not go through the Drone constructor,
     * so the serial length is not checked here.
     */
    method AddDrone(serial: string, model: string, maxWeight: int, battery: int) returns (r: Result<Drone, Error>)
      requires Valid()
      modifies this
      ensures Valid()
      ensures r.Failure? <==> model !in ModelNames
      ensures r.Failure? ==> r.error == NotFound && drones == old(drones)
      ensures r.Success? ==>
                && r.value == Drone(NextId(old(drones)), serial, maxWeight, battery, LookupId(ModelRows(), model).value, StateId(Idle))
                && drones == old(drones) + [r.value]
      ensures medications == old(medications) && stateWrites == old(stateWrites)
    {
      var found := LookupId(ModelRows(), model);
      ModelNameResolves(model);
      if found.None? {
        return Failure(NotFound);
      }
      var d := Drone(NextId(drones), serial, maxWeight, battery, found.value, StateId(Idle));
      assert forall x :: x in DroneIds(drones) ==> x in DroneIds(drones + [d]) by {
        forall x | x in DroneIds(drones) ensures x in DroneIds(drones + [d]) {
          var k :| 0 <= k < |drones| && drones[k].id == x;
          assert (drones + [d])[k].id == x;
        }
      }
      drones := drones + [d];
      r := Success(d);
    }

    /** `get_load`: the medications held by drones with this serial and their total weight. */
    method GetLoad(serial: string) returns (items: seq<MedicationRow>, weight: int)
      ensures items == Rows(HeldBy(medications, drones, serial))
      ensures weight == SumWeights(HeldBy(medications, drones, serial))
    {
      var held := HeldBy(medications, drones, serial);
      items, weight := [], 0;
      for k := 0 to |held|
        invariant items == Rows(held[..k])
        invariant weight == SumWeights(held[..k])
      {
        assert held[..k + 1][..k] == held[..k];
        items := items + [RowOf(held[k])];
        weight := weight + held[k].weight;
      }
      assert held[..|held|] == held;
    }

    /** `get_available`: exactly the drones in state IDLE, with their model and state names. */
    method GetAvailable() returns (rows: seq<DroneRow>)
      requires Valid()
      ensures forall i :: 0 <= i < |rows| ==> rows[i].state == StateName(Idle)
      ensures |rows| == |IdleDrones(drones)|
      ensures forall i :: 0 <= i < |rows| ==>
                var d := IdleDrones(drones)[i];
                d in drones && d.stateId == StateId(Idle) && rows[i] == AvailableRow(d)
      ensures forall k :: 0 <= k < |drones| && drones[k].stateId == StateId(Idle) ==> AvailableRow(drones[k]) in rows
    {
      var idle := IdleDrones(drones);
      IdleDronesExactly(drones);
      rows := [];
      for k := 0 to |idle|
        invariant |rows| == k
        invariant forall i :: 0 <= i < k ==> rows[i] == AvailableRow(idle[i])
      {
        rows := rows + [AvailableRow(idle[k])];
      }
      StateIdMatchesCatalog(Idle);
      forall k | 0 <= k < |drones| && drones[k].stateId == StateId(Idle) ensures AvailableRow(drones[k]) in rows {
        var i :| 0 <= i < |idle| && idle[i] == drones[k];
        assert rows[i] == AvailableRow(drones[k]);
      }
    }

    /**
     * `load_drone`: resolve the drone, refuse a battery of 25 or less, sum the weight it
     * already holds, mark it LOADING, offer it every unassigned medication in creation
     * order (first fit under a strict bound), then mark it LOADED.
     */
    method Load(serial: string) returns (r: Result<LoadOutcome, Error>)
      requires Valid()
      modifies this
      ensures Valid()
      ensures r == Outcome(PlanLoad(old(drones), old(medications), serial))
      ensures !PlanLoad(old(drones), old(medications), serial).Pass? ==>
                drones == old(drones) && medications == old(medications) && stateWrites == old(stateWrites)
      ensures PlanLoad(old(drones), old(medications), serial).Pass? ==>
                var p := PlanLoad(old(drones), old(medications), serial);
                && drones == SetState(old(drones), p.drone.id, StateId(Loaded))
                && medications == AssignTo(old(medications), IdsOf(p.alloc.taken), p.drone.id)
                && stateWrites == old(stateWrites) + [StateWrite(p.drone.id, StateId(Loading))] + [StateWrite(p.drone.id, StateId(Loaded))]
    {
      var found := FindBySerial(drones, serial);
      if found.None? {
        assert PlanLoad(drones, medications, serial) == NoDrone;
        return Failure(NotFound);
      }
      var d := found.value;
      if d.battery <= BatteryFloor {
        assert PlanLoad(drones, medications, serial) == LowBattery(d);
        return Success(BatteryLow(BatteryMessage));
      }
      ghost var held := SumWeights(HeldBy(medications, drones, serial));
      ghost var a := FirstFit(Unassigned(medications), held, d.maxWeight);
      assert PlanLoad(drones, medications, serial) == Pass(d, held, a);
      assert d.id in DroneIds(drones) by {
        FindBySerialFirstMatch(drones, serial);
        var k :| 0 <= k < |drones| && drones[k] == d;
      }
      var result, message, load := LoadPass(serial, d);
      r := Success(Assigned(result, d.maxWeight, message, load));
    }

    /**
     * The part of `load_drone` after the battery check, for the drone `d` the serial
     * resolved to: sum what it holds, mark it LOADING, scan, mark it LOADED.
     */
    method LoadPass(serial: string, d: Drone) returns (result: seq<MedicationRow>, message: string, load: int)
      requires Valid() && d.id in DroneIds(drones)
      modifies this
      ensures Valid()
      ensures var a := FirstFit(Unassigned(old(medications)), SumWeights(HeldBy(old(medications), old(drones), serial)), d.maxWeight);
              && result == Rows(a.taken)
              && message == (if a.left == [] then "" else LimitMessage)
              && load == a.load
              && drones == SetState(old(drones), d.id, StateId(Loaded))
              && medications == AssignTo(old(medications), IdsOf(a.taken), d.id)
              && stateWrites == old(stateWrites) + [StateWrite(d.id, StateId(Loading))] + [StateWrite(d.id, StateId(Loaded))]
    {
      var _, held := GetLoad(serial);
      var pool := Unassigned(medications);
      drones := SetState(drones, d.id, StateId(Loading));
      stateWrites := stateWrites + [StateWrite(d.id, StateId(Loading))];
      result, message, load := Scan(pool, held, d);
      drones := SetState(drones, d.id, StateId(Loaded));
      stateWrites := stateWrites + [StateWrite(d.id, StateId(Loaded))];
      LoadUpdatesKeepWellFormed(old(drones), old(medications), IdsOf(FirstFit(pool, held, d.maxWeight).taken), d.id, StateId(Loaded));
      SetStateTwice(old(drones), d.id, StateId(Loading), StateId(Loaded));
    }

    /**
     * The scan of `load_drone`: offers every candidate of `pool` in order, takes the ones
     * that fit under the strict bound and assigns each taken one to drone `d` at once.
     */
    method Scan(pool: seq<Medication>, held: int, d: Drone) returns (result: seq<MedicationRow>, message: string, load: int)
      modifies this
      ensures var a := FirstFit(pool, held, d.maxWeight);
              && result == Rows(a.taken)
              && message == (if a.left == [] then "" else LimitMessage)
              && load == a.load
              && medications == AssignTo(old(medications), IdsOf(a.taken), d.id)
      ensures drones == old(drones) && stateWrites == old(stateWrites)
    {
      result, message, load := ScanEach(pool, held, d);
      ScanDone(pool, held, d.maxWeight, d.id, old(medications), medications, result, message, load);
    }

    /** The loop of the scan: after every candidate, the state is the first-fit allocation so far. */
    method ScanEach(pool: seq<Medication>, held: int, d: Drone) returns (result: seq<MedicationRow>, message: string, load: int)
      modifies this
      ensures Scanned(pool, |pool|, held, d.maxWeight, d.id, old(medications), medications, result, message, load)
      ensures drones == old(drones) && stateWrites == old(stateWrites)
    {
      result, message, load := [], "", held;
      ghost var meds0 := medications;
      ScanStart(pool, held, d.maxWeight, d.id, meds0);
      for k := 0 to |pool|
        invariant Scanned(pool, k, held, d.maxWeight, d.id, meds0, medications, result, message, load)
        invariant drones == old(drones) && stateWrites == old(stateWrites)
      {
        result, message, load := Offer(pool, k, held, d, meds0, result, message, load);
      }
      assert meds0 == old(medications);
    }

    /**
     * One iteration of the scan: candidate k is skipped, setting the limit message, when its
     * weight plus the running load reaches the max weight; otherwise it is assigned to `d`,
     * its weight is added and its row is appended.
     */
    method Offer(pool: seq<Medication>, k: nat, held: int, d: Drone, ghost meds0: seq<Medication>,
                 result: seq<MedicationRow>, message: string, load: int)
      returns (result': seq<MedicationRow>, message': string, load': int)
      requires k < |pool|
      requires Scanned(pool, k, held, d.maxWeight, d.id, meds0, medications, result, message, load)
      modifies this
      ensures Scanned(pool, k + 1, held, d.maxWeight, d.id, meds0, medications, result', message', load')
      ensures drones == old(drones) && stateWrites == old(stateWrites)
    {
      var c := pool[k];
      if c.weight + load >= d.maxWeight {
        ScanSkip(pool, k, held, d.maxWeight, d.id, meds0, medications, result, message, load);
        result', message', load' := result, LimitMessage, load;
      } else {
        ScanTake(pool, k, held, d.maxWeight, d.id, meds0, medications, result, message, load);
        medications := AssignTo(medications, {c.id}, d.id);
        result', message', load' := result + [RowOf(c)], message, load + c.weight;
      }
    }
  }
}
