/** A prescription: a fixed medication and whether it has been prescribed. */
module Prescriptions {

  /** How a medication is given. */
  datatype Administration = Intravascular | Intramuscular | Subcutaneous | Exercise | Oral

  /** The closed set of medications, in declaration order. */
  datatype Medication =
    | Hydralazine | Labetalol | Fenoldopam
    | Atorvastatin | Ezetimibe | Alirocumab
    | Rocaltrol | Xphozah | Renvela
    | Epclusa | Mavyret | Zepatier
    | Ibuprofen | Oxycodone | PhysicalTherapy

  /** Every medication, in declaration order (Java's `Medication.values()`). */
  const AllMedications: seq<Medication> :=
    [Hydralazine, Labetalol, Fenoldopam,
     Atorvastatin, Ezetimibe, Alirocumab,
     Rocaltrol, Xphozah, Renvela,
     Epclusa, Mavyret, Zepatier,
     Ibuprofen, Oxycodone, PhysicalTherapy]

  /** Every administration route, in declaration order. */
  const AllRoutes: seq<Administration> :=
    [Intravascular, Intramuscular, Subcutaneous, Exercise, Oral]

  /** Java's `Medication.ordinal()`: the position in declaration order. */
  function Ordinal(m: Medication): (i: nat)
    ensures i < |AllMedications|
    ensures AllMedications[i] == m
  {
    match m
    case Hydralazine => 0
    case Labetalol => 1
    case Fenoldopam => 2
    case Atorvastatin => 3
    case Ezetimibe => 4
    case Alirocumab => 5
    case Rocaltrol => 6
    case Xphozah => 7
    case Renvela => 8
    case Epclusa => 9
    case Mavyret => 10
    case Zepatier => 11
    case Ibuprofen => 12
    case Oxycodone => 13
    case PhysicalTherapy => 14
  }

  /** The route each medication is declared with. `Prescription.java`
      passes it to the enum constructor, which discards it, so no caller can
      read it back; it is recorded here only as the declaration table. */
  function DeclaredRoute(m: Medication): Administration
  {
    match m
    case Hydralazine => Intramuscular
    case Fenoldopam => Intramuscular
    case Alirocumab => Subcutaneous
    case PhysicalTherapy => Exercise
    case _ => Oral
  }

  /** There are exactly 15 medications and 5 routes, each listed once, and
      no medication is declared as intravascular. */
  lemma Enumerations()
    ensures |AllMedications| == 15 && |AllRoutes| == 5
    ensures forall m: Medication :: m in AllMedications
    ensures forall i :: 0 <= i < |AllMedications| ==> Ordinal(AllMedications[i]) == i
    ensures forall i, j :: 0 <= i < j < |AllMedications| ==> AllMedications[i] != AllMedications[j]
    ensures forall a: Administration :: a in AllRoutes
    ensures forall i, j :: 0 <= i < j < |AllRoutes| ==> AllRoutes[i] != AllRoutes[j]
    ensures forall m: Medication :: DeclaredRoute(m) != Intravascular
  {
    forall m: Medication
      ensures m in AllMedications
    {
      assert AllMedications[Ordinal(m)] == m;
    }
    forall i, j | 0 <= i < j < |AllMedications|
      ensures AllMedications[i] != AllMedications[j]
    {
      assert Ordinal(AllMedications[i]) == i;
    }
    forall a: Administration
      ensures a in AllRoutes
    {
      match a
      case Intravascular => assert AllRoutes[0] == a;
      case Intramuscular => assert AllRoutes[1] == a;
      case Subcutaneous => assert AllRoutes[2] == a;
      case Exercise => assert AllRoutes[3] == a;
      case Oral => assert AllRoutes[4] == a;
    }
  }

  datatype Prescription = Prescription(medication: Medication, isPrescribed: bool)

  /** The constructor: the given medication, not yet prescribed. */
  function NewPrescription(m: Medication): (p: Prescription)
    ensures p.medication == m
    ensures !p.isPrescribed
  {
    Prescription(m, false)
  }

  /** `setPrescribed`: changes the flag and never the medication (there is
      no medication setter). */
  function SetPrescribed(p: Prescription, b: bool): (r: Prescription)
    ensures r.isPrescribed == b
    ensures r.medication == p.medication
  {
    p.(isPrescribed := b)
  }
}
