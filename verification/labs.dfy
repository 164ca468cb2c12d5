/** One lab test: a result state machine over NotRun, Normal and Abnormal,
    plus a count of how many times the test has been run. The draw that
    `Lab.java` takes from `Random` is an explicit parameter `d` in [0, 6). */
module Labs {
  import opened JavaInt

  datatype LabResult = NotRun | Normal | Abnormal

  /** `timeRun` is a Java `int`, so it wraps past MaxInt. */
  datatype Lab = Lab(result: LabResult, timeRun: Int32)

  /** Number of equally likely outcomes of one draw. */
  const DrawCount: int := 6

  /** The draws `run` can take. */
  predicate ValidDraw(d: int) {
    0 <= d < DrawCount
  }

  /** A freshly constructed lab. */
  function NewLab(): (l: Lab)
    ensures l.result == NotRun && l.timeRun == 0
  {
    Lab(NotRun, 0)
  }

  /** `reset`: forces the result back to NotRun; the run count is kept. */
  function Reset(l: Lab): (r: Lab)
    ensures r.result == NotRun
    ensures r.timeRun == l.timeRun
  {
    l.(result := NotRun)
  }

  /** The result a single draw produces. */
  function Outcome(d: int): (r: LabResult)
    requires ValidDraw(d)
    ensures r != NotRun
    ensures r == Abnormal <==> d == 0
    ensures r == Normal <==> d != 0
  {
    if d == 0 then Abnormal else Normal
  }

  /** `run`: counts one more run and records the outcome of draw `d`,
      whatever the previous result was. */
  function Run(l: Lab, d: int): (r: Lab)
    requires ValidDraw(d)
    ensures r.result != NotRun
    ensures r.result == Abnormal <==> d == 0
    ensures r.result == Normal <==> 1 <= d < DrawCount
    ensures r.timeRun == Inc(l.timeRun)
    ensures l.timeRun < MaxInt ==> r.timeRun == l.timeRun + 1
  {
    Lab(Outcome(d), Inc(l.timeRun))
  }

  /** Resetting twice is the same as resetting once. */
  lemma ResetIdempotent(l: Lab)
    ensures Reset(Reset(l)) == Reset(l)
  {
  }

  /** The draws that give each outcome: exactly one of the six draws is
      Abnormal (the documented 1/6 chance), the other five are Normal,
      whatever the lab's state. */
  lemma DrawDistribution(l: Lab)
    ensures (set d | 0 <= d < DrawCount && Run(l, d).result == Abnormal) == {0}
    ensures (set d | 0 <= d < DrawCount && Run(l, d).result == Normal) == {1, 2, 3, 4, 5}
    ensures |set d | 0 <= d < DrawCount && Run(l, d).result == Abnormal| == 1
    ensures |set d | 0 <= d < DrawCount && Run(l, d).result == Normal| == 5
  {
  }

  /** An operation a caller applies to one lab. */
  datatype LabOp = RunOp(draw: int) | ResetOp

  predicate ValidOps(ops: seq<LabOp>) {
    forall k :: 0 <= k < |ops| ==> (ops[k].RunOp? ==> ValidDraw(ops[k].draw))
  }

  /** Applies the operations in order. */
  function ApplyAll(l: Lab, ops: seq<LabOp>): Lab
    requires ValidOps(ops)
    decreases |ops|
  {
    if ops == [] then l
    else
      var prefix := ops[..|ops| - 1];
      var prev := ApplyAll(l, prefix);
      match ops[|ops| - 1]
      case RunOp(d) => Run(prev, d)
      case ResetOp => Reset(prev)
  }

  /** How many of the operations are runs. */
  function RunCount(ops: seq<LabOp>): nat
    decreases |ops|
  {
    if ops == [] then 0
    else RunCount(ops[..|ops| - 1]) + (if ops[|ops| - 1].RunOp? then 1 else 0)
  }

  /** After any history starting from a new lab: the run counter is the
      number of runs (wrapped to 32 bits), and the result is NotRun exactly
      when no run happened or the most recent operation was a reset;
      otherwise it is the outcome of the most recent draw. */
  lemma {:induction false} History(ops: seq<LabOp>)
    requires ValidOps(ops)
    ensures ApplyAll(NewLab(), ops).timeRun == Wrap(RunCount(ops))
    ensures ApplyAll(NewLab(), ops).result == NotRun <==> (ops == [] || ops[|ops| - 1].ResetOp?)
    ensures ops != [] && ops[|ops| - 1].RunOp? ==>
              ApplyAll(NewLab(), ops).result == Outcome(ops[|ops| - 1].draw)
    decreases |ops|
  {
    if ops != [] {
      var prefix := ops[..|ops| - 1];
      assert ValidOps(prefix) by {
        forall k | 0 <= k < |prefix|
          ensures prefix[k].RunOp? ==> ValidDraw(prefix[k].draw)
        {
          assert prefix[k] == ops[k];
        }
      }
      History(prefix);
      IncWrap(RunCount(prefix));
    }
  }
}
