/** A patient: a person plus an identifier, administrative details, vitals
    held with a -1 "unset" sentinel, a diagnosis, a lab panel and a bill. */
module Patients {
  import opened Optional
  import opened JavaInt
  import opened IntText
  import opened Persons
  import opened Diagnoses
  import opened LabPanels

  /** The bill's text; its back-pointer to the patient is not modelled. */
  datatype Bill = Bill(contents: string)

  /** The sentinel that marks a numeric vital as unset. */
  const Unset: int := -1

  /** Every text detail may be Java `null` (None): its setter stores any
      argument, `null` included. */
  datatype Patient = Patient(
    person: Person,
    patientID: Option<string>,
    insurancePlan: Option<string>,
    emergencyContact: Option<string>,
    isAdmitted: bool,
    isDischarged: bool,
    height: real,
    weight: real,
    bloodPressure: Option<string>,
    heartRate: real,
    oxyLevel: real,
    bodyTemp: real,
    bodyMassIndex: Int32,
    diagnosis: Diagnosis,
    labPanel: LabPanel,
    bill: Bill,
    dateAdmit: Option<string>,
    dischargeInstruction: Option<string>)

  // ---------------------------------------------------------------------
  // The integer sentinel codec

  /** `parseIntOrDefault`: the value of the text, or the sentinel when the
      text is null, empty or not an `int`. */
  function ParseIntOrDefault(s: Option<string>): (v: Int32)
    ensures s.None? || s == Some("") ==> v == Unset
    ensures s.Some? && ParseInt(s.value).None? ==> v == Unset
    ensures s.Some? && ParseInt(s.value).Some? ==> v == ParseInt(s.value).value
  {
    if s.None? || |s.value| == 0 then Unset
    else
      match ParseInt(s.value)
      case Some(n) => n
      case None => Unset
  }

  /** `intToStringOrEmpty`: empty for the sentinel, otherwise decimal text
      that reads back as the same value. */
  function IntToStringOrEmpty(v: Int32): (s: string)
    ensures s == "" <==> v == Unset
    ensures v != Unset ==> ParseInt(s) == Some(v)
  {
    if v == Unset then "" else (ParseFormat(v); FormatInt(v))
  }

  /** Every set value except the sentinel survives format then parse. */
  lemma IntCodecRoundTrip(v: Int32)
    ensures ParseIntOrDefault(Some(IntToStringOrEmpty(v))) == v
  {
  }

  // ---------------------------------------------------------------------
  // Construction

  /** The identifier derived from a person: first name, last name and date
      of birth, concatenated in that order. */
  function DerivedID(p: Person): string
  {
    p.firstName + p.lastName + p.dob
  }

  /** `Patient(Person)`: copies the person, derives the identifier, and
      starts with every other field at its default. */
  function FromPerson(p: Person): (pt: Patient)
    ensures pt.person == p
    ensures pt.patientID == Some(p.firstName + p.lastName + p.dob)
    ensures pt.insurancePlan == Some("") && pt.emergencyContact == Some("")
    ensures pt.bloodPressure == Some("")
    ensures !pt.isAdmitted && !pt.isDischarged
    ensures forall f :: GetVital(pt, f) == None
    ensures GetBodyMassIndex(pt) == ""
    ensures pt.diagnosis == NewDiagnosis() && pt.labPanel == NewPanel()
    ensures SeeBill(pt.bill) == ""
    ensures pt.dateAdmit == None && pt.dischargeInstruction == None
  {
    Patient(p, Some(DerivedID(p)), Some(""), Some(""), false, false,
            Unset as real, Unset as real, Some(""), Unset as real, Unset as real, Unset as real,
            Unset, NewDiagnosis(), NewPanel(), Bill(""), None, None)
  }

  /** `seeBill`. */
  function SeeBill(b: Bill): string
  {
    b.contents
  }

  // ---------------------------------------------------------------------
  // Body mass index: an `int` behind the sentinel codec

  /** `getBodyMassIndex`. */
  function GetBodyMassIndex(pt: Patient): (s: string)
    ensures s == "" <==> pt.bodyMassIndex == Unset
    ensures pt.bodyMassIndex != Unset ==> ParseInt(s) == Some(pt.bodyMassIndex)
  {
    IntToStringOrEmpty(pt.bodyMassIndex)
  }

  /** `setBodyMassIndex`: parses the text; changes nothing else. */
  function SetBodyMassIndex(pt: Patient, s: Option<string>): (r: Patient)
    ensures r.bodyMassIndex == ParseIntOrDefault(s)
    ensures r.(bodyMassIndex := pt.bodyMassIndex) == pt
  {
    pt.(bodyMassIndex := ParseIntOrDefault(s))
  }

  /** The decimal text of any `int` other than the sentinel round-trips
      through the setter and getter. */
  lemma BodyMassIndexRoundTrip(pt: Patient, n: Int32)
    requires n != Unset
    ensures GetBodyMassIndex(SetBodyMassIndex(pt, Some(FormatInt(n)))) == FormatInt(n)
  {
    ParseFormat(n);
  }

  /** The getter reads empty after the setter exactly when the text was
      null, empty, not an `int`, or the sentinel's own text; otherwise it
      reads the canonical form of what was set, which is the text itself
      when that was canonical. */
  lemma BodyMassIndexAfterSet(pt: Patient, s: Option<string>)
    ensures var got := GetBodyMassIndex(SetBodyMassIndex(pt, s));
            got == "" <==> (s.None? || ParseInt(s.value).None? || ParseInt(s.value) == Some(Unset))
    ensures var got := GetBodyMassIndex(SetBodyMassIndex(pt, s));
            got != "" ==> ParseInt(got) == ParseInt(s.value) && got == FormatInt(ParseInt(s.value).value)
    ensures var got := GetBodyMassIndex(SetBodyMassIndex(pt, s));
            got != "" && Canonical(s.value) ==> got == s.value
  {
    if s.Some? && ParseInt(s.value).Some? {
      FormatParse(s.value);
    }
  }

  /** Sentinel collision: "-1", "", null, text that is not a number and a
      number too large for an `int` all read back as empty. */
  lemma SentinelCollision(pt: Patient)
    ensures GetBodyMassIndex(SetBodyMassIndex(pt, Some("-1"))) == ""
    ensures GetBodyMassIndex(SetBodyMassIndex(pt, Some(""))) == ""
    ensures GetBodyMassIndex(SetBodyMassIndex(pt, None)) == ""
    ensures GetBodyMassIndex(SetBodyMassIndex(pt, Some("x"))) == ""
    ensures GetBodyMassIndex(SetBodyMassIndex(pt, Some("2147483648"))) == ""
  {
    assert "-1"[1..] == "1";
    assert DigitsValue("1") == 1 by {
      assert "1"[..0] == "";
    }
    assert !IsDigit("x"[0]);
    var big := "2147483648";
    assert DigitsValue(big) == 2147483648 by {
      assert big[..9] == "214748364";
      assert "214748364"[..8] == "21474836";
      assert "21474836"[..7] == "2147483";
      assert "2147483"[..6] == "214748";
      assert "214748"[..5] == "21474";
      assert "21474"[..4] == "2147";
      assert "2147"[..3] == "214";
      assert "214"[..2] == "21";
      assert "21"[..1] == "2";
      assert "2"[..0] == "";
    }
  }

  // ---------------------------------------------------------------------
  // Floating-point vitals: a `double` behind the same sentinel

  datatype Vital = Height | Weight | HeartRate | OxyLevel | BodyTemp

  /** `parseDoubleOrDefault`, given what `Double.parseDouble` made of the
      text (None for null, empty or unparseable text). */
  function ParseDoubleOrDefault(parsed: Option<real>): (v: real)
    ensures parsed.None? ==> v == Unset as real
    ensures parsed.Some? ==> v == parsed.value
  {
    parsed.GetOr(Unset as real)
  }

  /** `doubleToStringOrEmpty`, up to number formatting: None stands for the
      empty text, Some(v) for the text of v. */
  function DoubleToStringOrEmpty(v: real): (r: Option<real>)
    ensures r == None <==> v == Unset as real
    ensures r.Some? ==> r.value == v
  {
    if v == Unset as real then None else Some(v)
  }

  /** The stored `double` behind each vital. */
  function VitalValue(pt: Patient, f: Vital): real
  {
    match f
    case Height => pt.height
    case Weight => pt.weight
    case HeartRate => pt.heartRate
    case OxyLevel => pt.oxyLevel
    case BodyTemp => pt.bodyTemp
  }

  /** The getters `getHeight` ... `getBodyTemp`: empty for the sentinel,
      otherwise the stored value. */
  function GetVital(pt: Patient, f: Vital): (r: Option<real>)
    ensures r == None <==> VitalValue(pt, f) == Unset as real
    ensures r.Some? ==> r.value == VitalValue(pt, f)
    ensures r.Some? ==> r.value != Unset as real
  {
    match f
    case Height => DoubleToStringOrEmpty(pt.height)
    case Weight => DoubleToStringOrEmpty(pt.weight)
    case HeartRate => DoubleToStringOrEmpty(pt.heartRate)
    case OxyLevel => DoubleToStringOrEmpty(pt.oxyLevel)
    case BodyTemp => DoubleToStringOrEmpty(pt.bodyTemp)
  }

  /** The setters `setHeight` ... `setBodyTemp`: each stores one vital and
      changes no other. */
  function SetVital(pt: Patient, f: Vital, parsed: Option<real>): (r: Patient)
    ensures GetVital(r, f) == (if parsed == None || parsed == Some(Unset as real) then None else parsed)
    ensures forall g :: g != f ==> GetVital(r, g) == GetVital(pt, g)
    ensures r.(height := pt.height, weight := pt.weight, heartRate := pt.heartRate,
               oxyLevel := pt.oxyLevel, bodyTemp := pt.bodyTemp) == pt
  {
    var v := ParseDoubleOrDefault(parsed);
    match f
    case Height => pt.(height := v)
    case Weight => pt.(weight := v)
    case HeartRate => pt.(heartRate := v)
    case OxyLevel => pt.(oxyLevel := v)
    case BodyTemp => pt.(bodyTemp := v)
  }

  // ---------------------------------------------------------------------
  // Inherited person setters and the identifier

  /** The setters inherited from Person: they change the person, never the
      identifier, which was fixed at construction. */
  function SetPersonField(pt: Patient, f: Field, v: string): (r: Patient)
    ensures Get(r.person, f) == v
    ensures forall g :: g != f ==> Get(r.person, g) == Get(pt.person, g)
    ensures r.patientID == pt.patientID
    ensures r.(person := pt.person) == pt
  {
    pt.(person := Set(pt.person, f, v))
  }

  /** The identifier goes stale exactly when a first name, last name or
      date of birth is changed to a different value after construction. */
  lemma {:induction false} IdentifierNotResynced(p: Person, f: Field, v: string)
    requires f == FirstName || f == LastName || f == Dob
    ensures var pt := SetPersonField(FromPerson(p), f, v);
            pt.patientID == Some(DerivedID(p)) &&
            (pt.patientID == Some(DerivedID(pt.person)) <==> v == Get(p, f))
  {
    var pt := SetPersonField(FromPerson(p), f, v);
    var q := pt.person;
    if DerivedID(q) == DerivedID(p) {
      var a, b := DerivedID(q), DerivedID(p);
      assert |a| == |b|;
      match f
      case FirstName =>
        assert q.firstName == a[..|v|];
        assert p.firstName == b[..|p.firstName|];
      case LastName =>
        assert |q.lastName| == |p.lastName|;
        assert q.lastName == a[|p.firstName|..|p.firstName| + |v|];
        assert p.lastName == b[|p.firstName|..|p.firstName| + |p.lastName|];
      case Dob =>
        assert q.dob == a[|p.firstName| + |p.lastName|..];
        assert p.dob == b[|p.firstName| + |p.lastName|..];
    }
  }

  // ---------------------------------------------------------------------
  // Administrative details and status flags

  /** The text fields with plain getters and setters. */
  datatype Detail = PatientID | InsurancePlan | EmergencyContact | BloodPressure
                  | DateAdmit | DischargeInstruction

  /** The getters; None is a Java `null`. */
  function GetDetail(pt: Patient, d: Detail): Option<string>
  {
    match d
    case PatientID => pt.patientID
    case InsurancePlan => pt.insurancePlan
    case EmergencyContact => pt.emergencyContact
    case BloodPressure => pt.bloodPressure
    case DateAdmit => pt.dateAdmit
    case DischargeInstruction => pt.dischargeInstruction
  }

  /** The setters: store the argument unchecked, `null` included, and
      change no other detail. */
  function SetDetail(pt: Patient, d: Detail, v: Option<string>): (r: Patient)
    ensures GetDetail(r, d) == v
    ensures forall e :: e != d ==> GetDetail(r, e) == GetDetail(pt, e)
    ensures r.(patientID := pt.patientID, insurancePlan := pt.insurancePlan,
               emergencyContact := pt.emergencyContact, bloodPressure := pt.bloodPressure,
               dateAdmit := pt.dateAdmit, dischargeInstruction := pt.dischargeInstruction) == pt
  {
    match d
    case PatientID => pt.(patientID := v)
    case InsurancePlan => pt.(insurancePlan := v)
    case EmergencyContact => pt.(emergencyContact := v)
    case BloodPressure => pt.(bloodPressure := v)
    case DateAdmit => pt.(dateAdmit := v)
    case DischargeInstruction => pt.(dischargeInstruction := v)
  }

  /** One call of a detail setter. */
  datatype DetailOp = DetailOp(detail: Detail, value: Option<string>)

  /** A run of detail setter calls, applied in order. */
  function SetDetails(pt: Patient, ops: seq<DetailOp>): Patient
    decreases |ops|
  {
    if ops == [] then pt
    else
      var last := ops[|ops| - 1];
      SetDetail(SetDetails(pt, ops[..|ops| - 1]), last.detail, last.value)
  }

  /** The argument of the last call in `ops` that set detail `d`, if any,
      found by searching back from the end. */
  function LastSet(ops: seq<DetailOp>, d: Detail): Option<Option<string>>
    decreases |ops|
  {
    if ops == [] then None
    else if ops[|ops| - 1].detail == d then Some(ops[|ops| - 1].value)
    else LastSet(ops[..|ops| - 1], d)
  }

  /** A new patient: identifier, empty insurance, contact and blood
      pressure, and no admission date or discharge instructions yet. */
  lemma NewPatientDetails(p: Person)
    ensures GetDetail(FromPerson(p), PatientID) == Some(DerivedID(p))
    ensures forall d :: d in {InsurancePlan, EmergencyContact, BloodPressure} ==>
              GetDetail(FromPerson(p), d) == Some("")
    ensures GetDetail(FromPerson(p), DateAdmit) == None
    ensures GetDetail(FromPerson(p), DischargeInstruction) == None
  {
  }

  /** After any run of detail setter calls on a new patient, each detail
      reads as the argument of the last call that set it, or as its initial
      value when none did. */
  lemma {:induction false} DetailHistory(p: Person, ops: seq<DetailOp>, d: Detail)
    ensures GetDetail(SetDetails(FromPerson(p), ops), d)
            == (if LastSet(ops, d).Some? then LastSet(ops, d).value else GetDetail(FromPerson(p), d))
    decreases |ops|
  {
    if ops != [] {
      DetailHistory(p, ops[..|ops| - 1], d);
    }
  }

  /** So a detail is null exactly when its last setter call passed `null`,
      or, for the admission date and the discharge instruction, when no
      call set it. */
  lemma DetailNullIff(p: Person, ops: seq<DetailOp>, d: Detail)
    ensures GetDetail(SetDetails(FromPerson(p), ops), d) == None <==>
              LastSet(ops, d) == Some(None)
              || (LastSet(ops, d) == None && (d == DateAdmit || d == DischargeInstruction))
  {
    DetailHistory(p, ops, d);
    NewPatientDetails(p);
  }

  /** `setAdmitted` and `setDischarged`: each sets its own flag only. */
  function SetAdmitted(pt: Patient, b: bool): (r: Patient)
    ensures r.isAdmitted == b
    ensures r.(isAdmitted := pt.isAdmitted) == pt
  {
    pt.(isAdmitted := b)
  }

  function SetDischarged(pt: Patient, b: bool): (r: Patient)
    ensures r.isDischarged == b
    ensures r.(isDischarged := pt.isDischarged) == pt
  {
    pt.(isDischarged := b)
  }
}
