/** A medical condition: the prescriptions valid for it. */
module Conditions {
  import opened Prescriptions

  /** `Condition.java` stores an array of prescriptions. It is built with
      three, but the setter accepts an array of any length. */
  datatype Condition = Condition(validPrescriptions: seq<Prescription>)

  /** The constructor: the three prescriptions at indices 0, 1 and 2. */
  function NewCondition(p1: Prescription, p2: Prescription, p3: Prescription): (c: Condition)
    ensures |c.validPrescriptions| == 3
    ensures c.validPrescriptions[0] == p1
    ensures c.validPrescriptions[1] == p2
    ensures c.validPrescriptions[2] == p3
  {
    Condition([p1, p2, p3])
  }

  /** `setValidPrescriptions`: replaces the array wholesale, with no length
      check, so a condition may end up with any number of prescriptions. */
  function SetValidPrescriptions(c: Condition, a: seq<Prescription>): (r: Condition)
    ensures r.validPrescriptions == a
  {
    Condition(a)
  }

  /** `getValidPrescriptions()[k].setPrescribed(b)`: the getter hands out
      the stored array itself, so the change lands in the condition and
      every later read sees it. Nothing else in the condition changes. */
  function SetPrescribedAt(c: Condition, k: int, b: bool): (r: Condition)
    requires 0 <= k < |c.validPrescriptions|
    ensures |r.validPrescriptions| == |c.validPrescriptions|
    ensures r.validPrescriptions[k].isPrescribed == b
    ensures r.validPrescriptions[k].medication == c.validPrescriptions[k].medication
    ensures forall j :: 0 <= j < |c.validPrescriptions| && j != k ==>
              r.validPrescriptions[j] == c.validPrescriptions[j]
  {
    Condition(c.validPrescriptions[k := SetPrescribed(c.validPrescriptions[k], b)])
  }
}
