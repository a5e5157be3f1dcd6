/**
 * The two mapped entities, Drone and Medication, and the checks their constructors make:
 * a serial of at most 100 characters, and a medication code drawn from the `allowed`
 * character set (upper-case letters, digits, `-` and `_`).
 */
module Entities {
  import opened Wrappers
  import Seqs

  /** The failures of the system: an unresolved lookup and the two constructor rejections. */
  datatype Error = NotFound | SerialTooLong | CodeNotAllowed

  /** A row of the Drone table; `modelId` and `stateId` reference the catalogs. */
  datatype Drone = Drone(id: int, serial: string, maxWeight: int, battery: int, modelId: int, stateId: int)

  /** A row of the Medication table; `droneId` is None while the item is unassigned. */
  datatype Medication = Medication(id: int, name: string, weight: int, code: string, done: bool, droneId: Option<int>)

  const MaxSerialLength := 100

  /** `string.ascii_uppercase + string.digits + '-' + '_'`. */
  const AllowedChars: string :=
    seq(26, i requires 0 <= i < 26 => ('A' as int + i) as char)
    + seq(10, i requires 0 <= i < 10 => ('0' as int + i) as char)
    + "-_"

  /** The character classes `allowed` is made of, stated directly. */
  predicate IsCodeChar(c: char)
  {
    ('A' <= c <= 'Z') || ('0' <= c <= '9') || c == '-' || c == '_'
  }

  /** Every character of the code passes the medication code check. */
  predicate IsCode(code: string)
  {
    forall i :: 0 <= i < |code| ==> IsCodeChar(code[i])
  }

  lemma AllowedCharsAreCodeChars(c: char)
    ensures c in AllowedChars <==> IsCodeChar(c)
  {
    var upper := seq(26, i requires 0 <= i < 26 => ('A' as int + i) as char);
    var digits := seq(10, i requires 0 <= i < 10 => ('0' as int + i) as char);
    assert AllowedChars == upper + digits + "-_";
    if 'A' <= c <= 'Z' {
      assert upper[c as int - 'A' as int] == c;
    } else if '0' <= c <= '9' {
      assert digits[c as int - '0' as int] == c;
    } else if c == '-' || c == '_' {
      assert "-_"[if c == '-' then 0 else 1] == c;
    }
  }

  /** What `code.translate` leaves after deleting every allowed character. */
  function Stripped(code: string): (r: string)
    ensures r == [] <==> IsCode(code)
  {
    Seqs.FilterEmpty(code, c => c !in AllowedChars);
    forall i | 0 <= i < |code| ensures code[i] in AllowedChars <==> IsCodeChar(code[i]) {
      AllowedCharsAreCodeChars(code[i]);
    }
    Seqs.Filter(code, c => c !in AllowedChars)
  }

  /** `Drone.__init__`: rejects a serial longer than 100 characters, else keeps every argument. */
  function NewDrone(serial: string, maxWeight: int, battery: int, id: int, modelId: int, stateId: int): (r: Result<Drone, Error>)
    ensures r.Success? <==> |serial| <= MaxSerialLength
    ensures r.Failure? ==> r.error == SerialTooLong
    ensures r.Success? ==> r.value.serial == serial && r.value.maxWeight == maxWeight && r.value.battery == battery
    ensures r.Success? ==> r.value.id == id && r.value.modelId == modelId && r.value.stateId == stateId
  {
    if |serial| > MaxSerialLength then Failure(SerialTooLong)
    else Success(Drone(id, serial, maxWeight, battery, modelId, stateId))
  }

  /**
   * `Medication.__init__`: rejects a code holding any character outside the allowed set,
   * else keeps every argument (the drone reference may be None).
   */
  function NewMedication(id: int, name: string, weight: int, code: string, done: bool, droneId: Option<int>): (r: Result<Medication, Error>)
    ensures r.Success? <==> IsCode(code)
    ensures r.Failure? ==> r.error == CodeNotAllowed
    ensures r.Success? ==> r.value == Medication(id, name, weight, code, done, droneId)
  {
    var test := Stripped(code);
    if |test| > 0 then Failure(CodeNotAllowed)
    else Success(Medication(id, name, weight, code, done, droneId))
  }

  /** Total weight of a sequence of medications. */
  function SumWeights(meds: seq<Medication>): int
    decreases |meds|
  {
    if meds == [] then 0 else SumWeights(meds[..|meds| - 1]) + meds[|meds| - 1].weight
  }

  /** A code built only from characters of `allowed` (as the seeding draws them) always passes. */
  lemma DrawnCodePasses(id: int, name: string, weight: int, code: string, done: bool, droneId: Option<int>)
    requires forall i :: 0 <= i < |code| ==> code[i] in AllowedChars
    ensures NewMedication(id, name, weight, code, done, droneId) == Success(Medication(id, name, weight, code, done, droneId))
  {
    forall i | 0 <= i < |code| ensures IsCodeChar(code[i]) {
      AllowedCharsAreCodeChars(code[i]);
    }
  }

  /** `AB CD` is rejected (the space), `AB-12_CD` is accepted. */
  lemma CodeExamples()
    ensures NewMedication(1, "Ibuprofen", 30, "AB CD", false, None).Failure?
    ensures NewMedication(1, "Ibuprofen", 30, "AB-12_CD", false, None).Success?
  {
    assert !IsCodeChar("AB CD"[2]);
  }

  /** The length bound is inclusive: 100 characters pass, 101 do not. */
  lemma SerialLengthBoundary()
    ensures NewDrone(seq(100, _ => 'A'), 400, 100, 1, 1, 1).Success?
    ensures NewDrone(seq(101, _ => 'A'), 400, 100, 1, 1, 1) == Failure(SerialTooLong)
  {
  }
}
