/** A patient's diagnosis: five fixed conditions, each with three fixed
    medications. */
module Diagnoses {
  import opened Prescriptions
  import opened Conditions

  const ConditionCount: int := 5
  const PrescriptionsPerCondition: int := 3

  /** The five conditions, as separate fields like `Diagnosis.java`. */
  datatype Diagnosis = Diagnosis(
    highBloodPressure: Condition,
    highCholesterol: Condition,
    kidneyDisease: Condition,
    liverDisease: Condition,
    brokenHumerus: Condition)

  /** The medications of each condition, in `getConditions` order:
      hypertension, cholesterol, kidney, liver, broken humerus. */
  const Catalogue: seq<seq<Medication>> :=
    [[Hydralazine, Labetalol, Fenoldopam],
     [Atorvastatin, Ezetimibe, Alirocumab],
     [Rocaltrol, Xphozah, Renvela],
     [Epclusa, Mavyret, Zepatier],
     [Ibuprofen, Oxycodone, PhysicalTherapy]]

  /** `getConditions`: a new array over the same five conditions. */
  function GetConditions(dx: Diagnosis): (cs: seq<Condition>)
    ensures |cs| == ConditionCount
    ensures cs[0] == dx.highBloodPressure && cs[1] == dx.highCholesterol
    ensures cs[2] == dx.kidneyDisease && cs[3] == dx.liverDisease
    ensures cs[4] == dx.brokenHumerus
  {
    [dx.highBloodPressure, dx.highCholesterol, dx.kidneyDisease, dx.liverDisease, dx.brokenHumerus]
  }

  /** A condition built from a catalogue row: one unprescribed prescription
      per medication. */
  function CatalogueCondition(i: int): (c: Condition)
    requires 0 <= i < ConditionCount
    ensures |c.validPrescriptions| == PrescriptionsPerCondition
    ensures forall k :: 0 <= k < PrescriptionsPerCondition ==>
              c.validPrescriptions[k] == Prescription(Catalogue[i][k], false)
  {
    NewCondition(NewPrescription(Catalogue[i][0]),
                 NewPrescription(Catalogue[i][1]),
                 NewPrescription(Catalogue[i][2]))
  }

  /** The constructor: condition `i` is built from catalogue row `i`. */
  function NewDiagnosis(): (dx: Diagnosis)
    ensures GetConditions(dx)[0] == CatalogueCondition(0)
    ensures GetConditions(dx)[1] == CatalogueCondition(1)
    ensures GetConditions(dx)[2] == CatalogueCondition(2)
    ensures GetConditions(dx)[3] == CatalogueCondition(3)
    ensures GetConditions(dx)[4] == CatalogueCondition(4)
  {
    Diagnosis(CatalogueCondition(0), CatalogueCondition(1), CatalogueCondition(2),
              CatalogueCondition(3), CatalogueCondition(4))
  }

  /** In a new diagnosis each condition holds its fixed medication triple
      and none of the fifteen prescriptions is prescribed. */
  lemma NewDiagnosisShape()
    ensures var cs := GetConditions(NewDiagnosis());
            forall i :: 0 <= i < ConditionCount ==>
              && |cs[i].validPrescriptions| == PrescriptionsPerCondition
              && (forall k :: 0 <= k < PrescriptionsPerCondition ==>
                    cs[i].validPrescriptions[k].medication == Catalogue[i][k] &&
                    !cs[i].validPrescriptions[k].isPrescribed)
  {
  }

  /** A change made to the condition object at `getConditions()[i]`:
      every array `getConditions` returns shares the five condition
      objects, so the change is what the next call returns at `i`, and the
      other four are untouched. (Storing a new object into the returned
      array is not such a change: the array is fresh on every call.) */
  function WithCondition(dx: Diagnosis, i: int, c: Condition): (r: Diagnosis)
    requires 0 <= i < ConditionCount
    ensures GetConditions(r) == GetConditions(dx)[i := c]
  {
    match i
    case 0 => dx.(highBloodPressure := c)
    case 1 => dx.(highCholesterol := c)
    case 2 => dx.(kidneyDisease := c)
    case 3 => dx.(liverDisease := c)
    case _ => dx.(brokenHumerus := c)
  }

  /** `getConditions()[i].getValidPrescriptions()[k].setPrescribed(b)`. */
  function TogglePrescription(dx: Diagnosis, i: int, k: int, b: bool): (r: Diagnosis)
    requires 0 <= i < ConditionCount
    requires 0 <= k < |GetConditions(dx)[i].validPrescriptions|
    ensures var before := GetConditions(dx)[i].validPrescriptions;
            var after := GetConditions(r)[i].validPrescriptions;
            && |after| == |before|
            && after[k] == Prescription(before[k].medication, b)
            && (forall j :: 0 <= j < |before| && j != k ==> after[j] == before[j])
    ensures forall i' :: 0 <= i' < ConditionCount && i' != i ==>
              GetConditions(r)[i'] == GetConditions(dx)[i']
  {
    WithCondition(dx, i, SetPrescribedAt(GetConditions(dx)[i], k, b))
  }

  /** Toggling the same prescription twice: the later choice wins, so a
      prescription switched off can be switched on again. */
  lemma ToggleLastWins(dx: Diagnosis, i: int, k: int, b1: bool, b2: bool)
    requires 0 <= i < ConditionCount
    requires 0 <= k < |GetConditions(dx)[i].validPrescriptions|
    ensures var once := TogglePrescription(dx, i, k, b1);
            k < |GetConditions(once)[i].validPrescriptions| &&
            TogglePrescription(once, i, k, b2) == TogglePrescription(dx, i, k, b2)
  {
  }

  /** Prescriptions are independent: toggling two different ones gives the
      same diagnosis in either order. */
  lemma ToggleCommutes(dx: Diagnosis, i: int, k: int, b: bool, i': int, k': int, b': bool)
    requires 0 <= i < ConditionCount && 0 <= i' < ConditionCount
    requires 0 <= k < |GetConditions(dx)[i].validPrescriptions|
    requires 0 <= k' < |GetConditions(dx)[i'].validPrescriptions|
    requires i != i' || k != k'
    ensures var first := TogglePrescription(dx, i, k, b);
            var second := TogglePrescription(dx, i', k', b');
            && k' < |GetConditions(first)[i'].validPrescriptions|
            && k < |GetConditions(second)[i].validPrescriptions|
            && TogglePrescription(first, i', k', b') == TogglePrescription(second, i, k, b)
  {
  }

  /** Every catalogue entry sits at the position matching its declaration
      order: row `i`, column `k` holds the medication of ordinal 3i + k. */
  lemma CatalogueFollowsDeclarationOrder()
    ensures |Catalogue| == ConditionCount
    ensures forall i :: 0 <= i < ConditionCount ==> |Catalogue[i]| == PrescriptionsPerCondition
    ensures forall i, k :: 0 <= i < ConditionCount && 0 <= k < PrescriptionsPerCondition ==>
              Ordinal(Catalogue[i][k]) == PrescriptionsPerCondition * i + k
  {
  }

  /** The fifteen medications of the catalogue are pairwise distinct and
      each medication appears in it exactly once. */
  lemma CatalogueIsPermutation()
    ensures forall i, k, i', k' ::
              0 <= i < ConditionCount && 0 <= k < PrescriptionsPerCondition &&
              0 <= i' < ConditionCount && 0 <= k' < PrescriptionsPerCondition &&
              Catalogue[i][k] == Catalogue[i'][k']
              ==> i == i' && k == k'
    ensures forall m: Medication ::
              Ordinal(m) / 3 < ConditionCount && Catalogue[Ordinal(m) / 3][Ordinal(m) % 3] == m
  {
  }
}
