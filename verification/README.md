# Hospital front desk: the record and decision core

A Dafny model of the domain core of a small hospital front-desk application
(the `UI/UI` revision of the Java code). It covers:

- **Labs**: one lab test is a three-state result (`NotRun`, `Normal`,
  `Abnormal`) plus a Java `int` run counter. `run` draws a number in [0, 6);
  draw 0 means Abnormal and every other draw means Normal. Here the draw is
  an explicit parameter `d` with `0 <= d < 6`. `reset` forces `NotRun`.
- **Lab panel**: a fixed array of ten labs in the order RBC, WBC, liver,
  renal, electrolyte, X-ray, CT, MRI, urine, stool. It offers `runLab`,
  `resetLab` and a ten-name result snapshot.
- **Diagnosis catalogue**: five conditions, each with three prescriptions.
  A prescription is a fixed medication plus a "prescribed" flag. The Java
  getters return shared arrays and objects, so a flag changed through one
  `getConditions()` result shows up in the next. The model gives this
  write-through behaviour to functions on an immutable `Diagnosis` value.
- **Person and patient records**: the five-field `Person` and its
  `toString` text. A `Patient` is built from a person and derives its
  identifier as first name + last name + date of birth. Unset numeric
  vitals hold a `-1` sentinel and sit behind `parseIntOrDefault` /
  `intToStringOrEmpty` (and their `double` counterparts).
- **Login decision**: the credential check of the login screen. It is a
  pure function from the two field texts to an outcome, plus the message
  and field contents left on screen.

Modules follow the source files: `Labs`, `LabPanels`, `Prescriptions`,
`Conditions`, `Diagnoses`, `Persons`, `Patients` and `Login`. Three support
modules sit beside them. `JavaInt` models 32-bit `int` wrap-around.
`IntText` models `Integer.parseInt` and `Integer.toString` on ASCII
digits. `Optional` stands for Java `null` and for failed parses.

The repository also holds a second prototype under `Source Code/`. This
model follows the `UI/UI` revision, which differs from it in three ways:

- The patient identifier is first + last + dob. The other revision uses
  last + first + dob (`Source Code/main/java/hospital/ui/users/patients/Patient.java:50`).
- `Person` setters store any text. The other revision checks names, dates
  and phone numbers against patterns before storing them
  (`Source Code/main/java/hospital/ui/users/Person.java:72,94,117,158`).
- This revision's `Diagnosis` has no "is diagnosed" flags
  (`Source Code/main/java/hospital/ui/diagnose/Diagnosis.java:10`).

`Medication` declares an administration route, but its enum constructor
discards it, so the route is not observable. `DeclaredRoute` records only
the declaration table.

## Model

| member | source | states |
|---|---|---|
| Labs.NewLab | UI/UI/src/main/java/hospital/ui/labs/Lab.java:32-38 | A new lab has result NotRun and has been run zero times. |
| Labs.Reset | UI/UI/src/main/java/hospital/ui/labs/Lab.java:51-53 | After reset the result is NotRun and the run counter is unchanged. |
| Labs.ResetIdempotent | UI/UI/src/main/java/hospital/ui/labs/Lab.java:51-53 | Resetting twice equals resetting once. |
| Labs.Outcome | UI/UI/src/main/java/hospital/ui/labs/Lab.java:62-66 | A draw never yields NotRun. It yields Abnormal iff the draw is 0 and Normal iff it is not. |
| Labs.Run | UI/UI/src/main/java/hospital/ui/labs/Lab.java:58-67 | After run the result is never NotRun. It is Abnormal iff d = 0 and Normal iff 1 <= d < 6. The counter goes up by exactly one below MaxInt and wraps as a Java int at MaxInt. |
| Labs.DrawDistribution | UI/UI/src/main/java/hospital/ui/labs/Lab.java:55-66 | Of the six draws, exactly one ({0}) gives Abnormal and exactly five ({1..5}) give Normal, whatever the lab's state: the documented 1/6 chance. |
| Labs.History | UI/UI/src/main/java/hospital/ui/labs/Lab.java:32-67 | For any sequence of runs and resets on a new lab, the counter is the number of runs wrapped to 32 bits. The result is NotRun iff no operation happened or the last one was a reset. Otherwise the result is the outcome of the last draw. |
| JavaInt.Inc | UI/UI/src/main/java/hospital/ui/labs/Lab.java:60 | `timeRun++` adds one below MaxInt and wraps to MinInt at MaxInt. |
| JavaInt.Wrap | UI/UI/src/main/java/hospital/ui/labs/Lab.java:33 | A count wraps to a 32-bit value that is congruent to it mod 2^32, and equal to it when it fits. |
| JavaInt.IncWrap | UI/UI/src/main/java/hospital/ui/labs/Lab.java:60 | Incrementing the wrapped count n gives the wrapped count n + 1. |
| LabPanels.SlotOf | UI/UI/src/main/java/hospital/ui/labs/LabPanel.java:8-21 | Each kind of test has a slot below 10, and the panel order holds that kind at that slot. |
| LabPanels.PanelOrderIsBijection | UI/UI/src/main/java/hospital/ui/labs/LabPanel.java:21 | The panel order has exactly 10 entries (RBC, WBC, liver, renal, electrolyte, X-ray, CT, MRI, urine, stool), pairwise distinct, and inverse to the slot function. |
| LabPanels.NewPanel | UI/UI/src/main/java/hospital/ui/labs/LabPanel.java:8-21 | A new panel holds exactly 10 labs, each a new lab. |
| LabPanels.ResetLab | UI/UI/src/main/java/hospital/ui/labs/LabPanel.java:28-31 | resetLab(i) returns NotRun. Lab i becomes NotRun with its counter kept. Every other lab is unchanged, and the panel keeps 10 labs. |
| LabPanels.RunLab | UI/UI/src/main/java/hospital/ui/labs/LabPanel.java:38-41 | runLab(i) returns lab i's new result, which is Normal or Abnormal (Abnormal iff d = 0). Lab i's counter is incremented, and every other lab is unchanged. |
| LabPanels.ResultOfName | UI/UI/src/main/java/hospital/ui/labs/Lab.java:7-11 | Reading a result name back gives result r exactly when the name is r's name, so distinct results have distinct names. |
| LabPanels.CurrentResults | UI/UI/src/main/java/hospital/ui/labs/LabPanel.java:43-50 | The snapshot has length 10. Element i is the name of lab i's current result, and it reads back as that result. The panel is a value, so no lab changes. |
| Prescriptions.Ordinal | UI/UI/src/main/java/hospital/ui/diagnose/Prescription.java:6-20 | Each medication's ordinal indexes the declaration-order list at that medication. |
| Prescriptions.Enumerations | UI/UI/src/main/java/hospital/ui/diagnose/Prescription.java:6-32 | There are exactly 15 medications and 5 routes, each listed once with every value covered. No medication is declared INTRAVASCULAR. |
| Prescriptions.NewPrescription | UI/UI/src/main/java/hospital/ui/diagnose/Prescription.java:42-45 | A new prescription carries the given medication and is not prescribed. |
| Prescriptions.SetPrescribed | UI/UI/src/main/java/hospital/ui/diagnose/Prescription.java:52-72 | After setPrescribed(b), isPrescribed is b, and the medication never changes (there is no medication setter). |
| Conditions.NewCondition | UI/UI/src/main/java/hospital/ui/diagnose/Condition.java:4-18 | A new condition has exactly 3 prescriptions: p1, p2 and p3 at indices 0, 1 and 2. |
| Conditions.SetValidPrescriptions | UI/UI/src/main/java/hospital/ui/diagnose/Condition.java:34-36 | The getter after the setter yields exactly the array set, of whatever length. Length 3 is not preserved. |
| Conditions.SetPrescribedAt | UI/UI/src/main/java/hospital/ui/diagnose/Condition.java:25-27 | A flag set through the returned array is visible on the next read. Its medication and all other prescriptions stay the same. |
| Diagnoses.GetConditions | UI/UI/src/main/java/hospital/ui/diagnose/Diagnosis.java:38-40 | Exactly 5 conditions, in the order hypertension, cholesterol, kidney, liver, broken humerus. |
| Diagnoses.CatalogueCondition | UI/UI/src/main/java/hospital/ui/diagnose/Diagnosis.java:8-31 | Catalogue row i builds a condition of 3 unprescribed prescriptions carrying that row's medications in order. |
| Diagnoses.NewDiagnosis | UI/UI/src/main/java/hospital/ui/diagnose/Diagnosis.java:8-31 | In a new diagnosis, condition i is the one built from catalogue row i, e.g. index 0 is HYDRALAZINE, LABETALOL, FENOLDOPAM. |
| Diagnoses.NewDiagnosisShape | UI/UI/src/main/java/hospital/ui/diagnose/Diagnosis.java:8-31 | In a new diagnosis, every condition has exactly 3 prescriptions. Slot (i, k) carries catalogue medication (i, k), and all 15 are unprescribed. |
| Diagnoses.WithCondition | UI/UI/src/main/java/hospital/ui/diagnose/Diagnosis.java:38-40 | A change made to the condition object at getConditions()[i] is what the next getConditions() returns at i. The other four conditions are untouched. |
| Diagnoses.TogglePrescription | UI/UI/src/main/java/hospital/ui/diagnose/Diagnosis.java:38-40 | Toggling prescription k of condition i is seen by the next getConditions(): slot k has the same medication and the new flag. Every other prescription and condition is unchanged, as it is in Java while no prescription object is shared between slots. |
| Diagnoses.ToggleLastWins | UI/UI/src/main/java/hospital/ui/diagnose/Prescription.java:61-63 | When the same prescription is toggled twice, the later value wins, so it can be switched off and on again. |
| Diagnoses.ToggleCommutes | UI/UI/src/main/java/hospital/ui/diagnose/Diagnosis.java:8-40 | Toggles of two different prescriptions commute. This holds for diagnoses whose prescriptions are unshared objects, which is how every Diagnosis constructor builds them. |
| Diagnoses.CatalogueFollowsDeclarationOrder | UI/UI/src/main/java/hospital/ui/diagnose/Diagnosis.java:8-31 | The catalogue has 5 rows of 3. Entry (i, k) is the medication whose declaration ordinal is 3i + k. |
| Diagnoses.CatalogueIsPermutation | UI/UI/src/main/java/hospital/ui/diagnose/Diagnosis.java:8-31 | The 15 catalogue medications are pairwise distinct, and every medication appears at a position computed from its ordinal. |
| Persons.NewPerson | UI/UI/src/main/java/hospital/ui/users/Person.java:22-28 | The constructor stores all five fields exactly as given. |
| Persons.Set | UI/UI/src/main/java/hospital/ui/users/Person.java:59-133 | Each setter stores any string without validation, so the getter returns it. The other four fields are unchanged. |
| Persons.FieldsDetermine | UI/UI/src/main/java/hospital/ui/users/Person.java:7-11 | The five getters determine a person value: two values are equal iff all five getters agree. (Java `Person` does not override `equals`; this is about the record's contents, not object identity.) |
| Persons.ToString | UI/UI/src/main/java/hospital/ui/users/Person.java:35-43 | The text starts with `Person{firstName='` followed by the first name and ends with the bare phone number followed by `}`. Its length is the five field lengths plus the fixed 64 characters of labels and quotes. |
| Persons.Parse | UI/UI/src/main/java/hospital/ui/users/Person.java:35-43 | Whatever the reader accepts is exactly the toString text of the person it returns. |
| Persons.ParseToString | UI/UI/src/main/java/hospital/ui/users/Person.java:35-43 | If the four quoted fields contain no single quote, the toString text reads back as the same person. |
| Persons.ToStringNotInjective | UI/UI/src/main/java/hospital/ui/users/Person.java:35-43 | Quotes inside fields break unique reading. For any texts a, b and c, first name a + `', lastName='` + b with last name c prints the same as the distinct person with first name a and last name b + `', lastName='` + c. |
| IntText.FormatInt | UI/UI/src/main/java/hospital/ui/users/patients/Patient.java:487 | Integer.toString writes a minus sign for negatives, then canonical digits: a non-empty run with no leading zero unless it is "0" itself. A negative number never prints as "-0" or with a zero after the sign. |
| IntText.FormatNatPositive | UI/UI/src/main/java/hospital/ui/users/patients/Patient.java:487 | The digits of a positive number never start with 0. |
| IntText.ParseInt | UI/UI/src/main/java/hospital/ui/users/patients/Patient.java:476 | Integer.parseInt fails on empty text. An accepted text is one sign or digit followed by digits only, with at least one digit. A plain digit string, or one digit string after '+' or '-', is accepted exactly when its value (negated after '-') is in int range, and then gives that value. |
| IntText.DigitsOfFormatNat | UI/UI/src/main/java/hospital/ui/users/patients/Patient.java:476-487 | The digits Integer.toString writes denote the number formatted. |
| IntText.ParseFormat | UI/UI/src/main/java/hospital/ui/users/patients/Patient.java:476-487 | Every int survives toString then parseInt. |
| IntText.FormatOfCanonical | UI/UI/src/main/java/hospital/ui/users/patients/Patient.java:476-487 | Canonical digits (no superfluous leading zero) survive reading then formatting, text for text. |
| IntText.FormatParse | UI/UI/src/main/java/hospital/ui/users/patients/Patient.java:476-487 | Formatting an accepted text's value gives text with the same value, and the same text when the input was canonical. |
| Patients.ParseIntOrDefault | UI/UI/src/main/java/hospital/ui/users/patients/Patient.java:471-480 | Null, empty or unparseable text gives -1. Otherwise the result is the parsed value. |
| Patients.IntToStringOrEmpty | UI/UI/src/main/java/hospital/ui/users/patients/Patient.java:486-488 | The text is empty iff the value is the sentinel -1. Otherwise it parses back to the value. |
| Patients.IntCodecRoundTrip | UI/UI/src/main/java/hospital/ui/users/patients/Patient.java:471-488 | Formatting then parsing returns every int, the sentinel included. |
| Patients.FromPerson | UI/UI/src/main/java/hospital/ui/users/patients/Patient.java:32-55 | A new patient copies the person, and its ID is first + last + dob. Insurance, contact and blood pressure are empty; it is neither admitted nor discharged. Every vital reads empty. It has a new diagnosis and panel, an empty bill, and null admission date and discharge instructions. |
| Patients.GetBodyMassIndex | UI/UI/src/main/java/hospital/ui/users/patients/Patient.java:337-339 | The BMI reads empty exactly when it holds the sentinel. Any other value reads as text that Integer.parseInt turns back into that value. |
| Patients.SetBodyMassIndex | UI/UI/src/main/java/hospital/ui/users/patients/Patient.java:346-348 | The setter stores the parsed value (or the sentinel) in the BMI, and every other field of the patient is unchanged. |
| Patients.BodyMassIndexRoundTrip | UI/UI/src/main/java/hospital/ui/users/patients/Patient.java:337-348 | For every int n other than -1, setting str(n) then reading gives str(n). |
| Patients.BodyMassIndexAfterSet | UI/UI/src/main/java/hospital/ui/users/patients/Patient.java:337-348 | After a set, the read is empty iff the text was null, unparseable or text whose value is -1 (such as "-1" or "-01"). Otherwise it is the canonical form of the value set, and the same text when the input was canonical. |
| Patients.SentinelCollision | UI/UI/src/main/java/hospital/ui/users/patients/Patient.java:471-488 | Setting "-1", "", null, "x" or "2147483648" all read back as "". |
| Patients.ParseDoubleOrDefault | UI/UI/src/main/java/hospital/ui/users/patients/Patient.java:460-469 | A failed or missing parse gives -1. Otherwise the result is the parsed value. |
| Patients.DoubleToStringOrEmpty | UI/UI/src/main/java/hospital/ui/users/patients/Patient.java:482-484 | The text is empty iff the value is -1. Otherwise it shows the value. |
| Patients.GetVital | UI/UI/src/main/java/hospital/ui/users/patients/Patient.java:229-330 | A vital reads as empty exactly when its stored value is the sentinel -1. Otherwise it reads as the stored value, so it never reads as -1. |
| Patients.SetVital | UI/UI/src/main/java/hospital/ui/users/patients/Patient.java:229-330 | Setting one double vital makes its getter show the value, or empty when the parse failed or gave -1. The other four vitals read as before, and every non-vital field of the patient is unchanged. |
| Patients.SetPersonField | UI/UI/src/main/java/hospital/ui/users/Person.java:59-133 | On a patient, the inherited setters change only the named person field. The patient ID and every other patient field are unchanged. |
| Patients.IdentifierNotResynced | UI/UI/src/main/java/hospital/ui/users/patients/Patient.java:34 | After changing the first name, last name or dob of a new patient, the ID is still the original one. It disagrees with the derived ID exactly when the value actually changed. |
| Patients.SetDetail | UI/UI/src/main/java/hospital/ui/users/patients/Patient.java:121-456 | The ID, insurance, contact, blood pressure, admission date and discharge instruction setters store their argument unchecked, null included, and the getter returns it. The other details read as before, and the person, flags, vitals, diagnosis, panel and bill are unchanged. |
| Patients.NewPatientDetails | UI/UI/src/main/java/hospital/ui/users/patients/Patient.java:34-54 | A new patient's ID is the derived one, insurance, contact and blood pressure are "", and admission date and discharge instructions are null. |
| Patients.DetailHistory | UI/UI/src/main/java/hospital/ui/users/patients/Patient.java:121-456 | After any sequence of detail setter calls on a new patient, each detail reads as the argument of the last call that set it, or as its initial value if none did. |
| Patients.DetailNullIff | UI/UI/src/main/java/hospital/ui/users/patients/Patient.java:121-456 | A detail is null iff its last setter call passed null, or, for the admission date and discharge instruction only, iff no call set it. ID, insurance, contact and blood pressure start non-null. |
| Patients.SetAdmitted | UI/UI/src/main/java/hospital/ui/users/patients/Patient.java:193-204 | Sets the admitted flag to the given value; every other field of the patient is unchanged. |
| Patients.SetDischarged | UI/UI/src/main/java/hospital/ui/users/patients/Patient.java:211-222 | Sets the discharged flag to the given value; every other field of the patient is unchanged. |
| Login.Decide | UI/UI/src/main/java/hospital/ui/LoginController.java:46-72 | Success carries the role whose name is the user name, with password "123". Missing fields means some field is empty, and Incorrect means both are non-empty. |
| Login.CheckLogin | UI/UI/src/main/java/hospital/ui/LoginController.java:46-72 | "Login Successful!" iff the pair is a known account. "Enter All Fields!" iff a field is empty. "Incorrect Username or Password" iff neither holds, and only then are both fields cleared. |
| Login.SuccessIff | UI/UI/src/main/java/hospital/ui/LoginController.java:46-65 | Exactly the four pairs Doctor, Nurse, Staff and Billing with "123" succeed, and each passes on its own role. |
| Login.EmptyFieldMeansMissing | UI/UI/src/main/java/hospital/ui/LoginController.java:66-67 | Matching is tried first, but an empty field yields "Enter All Fields!" iff one is empty. |
| Login.IncorrectIff | UI/UI/src/main/java/hospital/ui/LoginController.java:68-71 | Incorrect iff both fields are non-empty and the pair is not a known account. |
| Login.CaseSensitive | UI/UI/src/main/java/hospital/ui/LoginController.java:46-47 | Comparison is exact: "doctor"/"123" is refused. |

## Left out

- The Lab run's random draw: `java.util.Random` becomes the parameter `d`, so the model fixes no distribution beyond counting the draws.
- Lab costs: the `LabType` constructor discards them, and nothing stores a cost or total.
- `Medication`'s administration route: its constructor discards it, and nothing can read it back.
- `Integer.parseInt` also accepts non-ASCII Unicode decimal digits. The model accepts ASCII digits only.
- Java `null`: it appears for `parseIntOrDefault`'s argument and for the six text details of a patient, which any setter may set to null. Null person names, null arrays passed to `setValidPrescriptions`, null `Prescription` arguments to `Condition`'s constructor, and a null diagnosis, lab panel or bill passed to `setDiagnosis`, `setLab` or `setBill` are not modelled.
- Patients.GetDetail: no detail is promised to be non-null in general, because every detail setter accepts null. `Patients.NewPatientDetails` gives the initial values, and `Patients.DetailNullIff` states when each detail is null.
- Out-of-range indices: `LabPanel.runLab`, `resetLab` and the arrays returned by `getConditions()` and `getValidPrescriptions()` throw `ArrayIndexOutOfBoundsException` on a bad index. `LabPanels.ResetLab`, `LabPanels.RunLab`, `Conditions.SetPrescribedAt`, `Diagnoses.WithCondition` and `Diagnoses.TogglePrescription` require the index to be in range instead of modelling the exception.
- Patients.SetVital: `Double.parseDouble` / `Double.toString` formatting, NaN and infinities are not modelled. The setter takes the parsed value, or None for null, empty or unparseable text. The getter returns the stored value, or None for the empty text.
- `timeIn` / `timeOut` (`LocalDateTime.now()` and their setters): clock values.
- The 24-argument `Patient` constructor, and the whole-object setters `setDiagnosis`, `setLab` and `setBill`: they store their argument as given. For a non-null argument, the model's record update expresses them; a null argument is not modelled (see the `null` line above). `setTimeIn` and `setTimeOut` are left out with the clock fields.
- `Bill`'s back-pointer to its patient and its setters. Only the initial empty contents, read through `seeBill`, are modelled.
- The login screen's widget effects: the scene change to the main view and the static role handoff to `MainViewController`. `Decide` returns the role instead.
- `InterfaceLoad`, `Main` and `MainViewController`: stage and scene loading and widget wiring. The prescription check boxes in `MainViewController` index the prescription array by the condition index. That goes out of bounds for conditions 3 and 4, so it is not taken as a specification of the diagnosis rules.
- The staff classes (`Staff`, `Doctor`, `Nurse`, `EmergencyRoomStaff`, `BillingStaff`): trivial credential holders with no behaviour.
- Object sharing: `setValidPrescriptions`, `setDiagnosis` and `setLab` store references, so two conditions or patients could share one array or prescription and see each other's changes. The model treats conditions, prescriptions, diagnoses and panels as values, each owned by one place. No code in the `UI/UI` revision creates such sharing, and the constructors never do.
- The `Source Code/` revision (`Database`, `WarningManager`, validated setters, `isDiagnosed` flags, bill formatting) is not part of this model.
