/** The fixed panel of ten lab tests every patient carries, addressed by
    index in a canonical order. */
module LabPanels {
  import JavaInt
  import opened Labs
  import opened Optional

  const PanelSize: int := 10

  /** The ten tests, named as in `Lab.java`'s `LabType`. */
  datatype LabKind =
    | RedBloodCell | WhiteBloodCell | LiverFunction | RenalFunction | Electrolyte
    | XRay | CtScan | Mri
    | Urine | Stool

  /** The panel's slot order. */
  const PanelOrder: seq<LabKind> :=
    [RedBloodCell, WhiteBloodCell, LiverFunction, RenalFunction, Electrolyte,
     XRay, CtScan, Mri, Urine, Stool]

  /** The slot a kind of test occupies. */
  function SlotOf(k: LabKind): (i: nat)
    ensures i < PanelSize
    ensures PanelOrder[i] == k
  {
    match k
    case RedBloodCell => 0
    case WhiteBloodCell => 1
    case LiverFunction => 2
    case RenalFunction => 3
    case Electrolyte => 4
    case XRay => 5
    case CtScan => 6
    case Mri => 7
    case Urine => 8
    case Stool => 9
  }

  /** The order lists every kind of test exactly once. */
  lemma PanelOrderIsBijection()
    ensures |PanelOrder| == PanelSize
    ensures forall i :: 0 <= i < PanelSize ==> SlotOf(PanelOrder[i]) == i
    ensures forall i, j :: 0 <= i < j < PanelSize ==> PanelOrder[i] != PanelOrder[j]
  {
  }

  datatype LabPanel = LabPanel(labs: seq<Lab>) {
    /** The array has exactly one lab per slot. */
    predicate Valid() {
      |labs| == PanelSize
    }
  }

  /** A freshly constructed panel: ten new labs. */
  function NewPanel(): (p: LabPanel)
    ensures p.Valid()
    ensures forall i :: 0 <= i < PanelSize ==> p.labs[i] == NewLab()
  {
    LabPanel(seq(PanelSize, _ => NewLab()))
  }

  /** What `runLab` and `resetLab` give back: the updated panel and the
      result now held by the addressed lab. */
  datatype Step = Step(panel: LabPanel, result: LabResult)

  /** `resetLab(i)`: resets lab `i` and reports its result. */
  function ResetLab(p: LabPanel, i: int): (s: Step)
    requires p.Valid()
    requires 0 <= i < PanelSize
    ensures s.panel.Valid()
    ensures s.result == NotRun
    ensures s.panel.labs[i].result == NotRun
    ensures s.panel.labs[i].timeRun == p.labs[i].timeRun
    ensures forall j :: 0 <= j < PanelSize && j != i ==> s.panel.labs[j] == p.labs[j]
  {
    var labs' := p.labs[i := Reset(p.labs[i])];
    Step(LabPanel(labs'), labs'[i].result)
  }

  /** `runLab(i)`: runs lab `i` with draw `d` and reports its new result. */
  function RunLab(p: LabPanel, i: int, d: int): (s: Step)
    requires p.Valid()
    requires 0 <= i < PanelSize
    requires ValidDraw(d)
    ensures s.panel.Valid()
    ensures s.result == Normal || s.result == Abnormal
    ensures s.result == Abnormal <==> d == 0
    ensures s.panel.labs[i].result == s.result
    ensures s.panel.labs[i].timeRun == JavaInt.Inc(p.labs[i].timeRun)
    ensures forall j :: 0 <= j < PanelSize && j != i ==> s.panel.labs[j] == p.labs[j]
  {
    var labs' := p.labs[i := Run(p.labs[i], d)];
    Step(LabPanel(labs'), labs'[i].result)
  }

  /** Java's `LabResult.name()`. */
  function ResultName(r: LabResult): string
  {
    match r
    case NotRun => "NotRun"
    case Normal => "Normal"
    case Abnormal => "Abnormal"
  }

  /** Java's `LabResult.valueOf`, with a missing constant as None. */
  function ResultOfName(name: string): (r: Option<LabResult>)
    ensures forall res :: r == Some(res) <==> ResultName(res) == name
  {
    if name == "NotRun" then Some(NotRun)
    else if name == "Normal" then Some(Normal)
    else if name == "Abnormal" then Some(Abnormal)
    else None
  }

  /** `getCurrentResults`: the name of every lab's current result, slot by
      slot. The panel is a value, so taking the snapshot changes no lab. */
  method CurrentResults(p: LabPanel) returns (names: seq<string>)
    requires p.Valid()
    ensures |names| == PanelSize
    ensures forall i :: 0 <= i < PanelSize ==> names[i] == ResultName(p.labs[i].result)
    ensures forall i :: 0 <= i < PanelSize ==> ResultOfName(names[i]) == Some(p.labs[i].result)
  {
    names := [];
    var i := 0;
    while i < PanelSize
      invariant 0 <= i <= PanelSize
      invariant |names| == i
      invariant forall j :: 0 <= j < i ==> names[j] == ResultName(p.labs[j].result)
    {
      names := names + [ResultName(p.labs[i].result)];
      i := i + 1;
    }
  }
}
