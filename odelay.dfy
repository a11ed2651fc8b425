/**
 * `odelay` (pycse.py, lines 55-201): integrate over a grid of abscissas,
 * evaluate every event function at every grid point, refine each strict
 * sign change, log the crossings that pass the direction filter and stop
 * at the first collected terminal one.
 *
 * The specification is declarative. The trajectory depends only on the
 * grid, so every pair (step `i`, event `j`) has an outcome of its own
 * (`PairOutcome`); the run is the pairs in the order the two loops visit
 * them, up to the first pair that stops it (`FirstStopFrom`).
 */
module Odelay {
  import opened Results
  import opened RootRefiner

  /** The arguments of `odelay`: the right-hand side and its options live inside `step`. */
  datatype Problem = Problem(step: Integrator, y0: real, xspan: seq<real>, events: seq<Event>, tol: real)

  /** One entry of the event log: `TE[k]`, `YE[k]` and `IE[k]`. */
  datatype Record = Record(x: real, y: real, index: nat)

  /** The five lists that `odelay` returns. */
  datatype Output = Output(X: seq<real>, sol: seq<real>, TE: seq<real>, YE: seq<real>, IE: seq<nat>)

  datatype OdelayError =
    | EmptyGrid        // `xspan[0]` raises at line 75
    | NonFiniteSecant  // the slope of line 153 is zero or infinite

  /** A (step, event) pair of the two nested loops. */
  datatype Pair = Pair(step: nat, event: nat)

  /** The default `TOLERANCE` of line 55. */
  const DefaultTolerance: real := 0.000001

  /** The number of grid steps: the loop runs over `xspan[0:-2]`. */
  function Steps(p: Problem): nat {
    if |p.xspan| >= 2 then |p.xspan| - 2 else 0
  }

  /** The state at grid point `i`, integrating from `y0` one grid step at a time. */
  function StateAt(p: Problem, i: nat): real
    requires i < |p.xspan|
  {
    if i == 0 then p.y0 else p.step(StateAt(p, i - 1), p.xspan[i - 1], p.xspan[i])
  }

  /** The states at grid points `0..i`. */
  function Trajectory(p: Problem, i: nat): (s: seq<real>)
    requires i < |p.xspan|
    ensures |s| == i + 1
    ensures forall k :: 0 <= k <= i ==> s[k] == StateAt(p, k)
  {
    if i == 0 then [p.y0] else Trajectory(p, i - 1) + [StateAt(p, i)]
  }

  /** What event `j` returns at grid point `i`; its value is the cell `e[j, i]`. */
  function GridEval(p: Problem, i: nat, j: nat): EventValue
    requires i < |p.xspan| && j < |p.events|
  {
    p.events[j](StateAt(p, i), p.xspan[i])
  }

  /** The strict sign test of line 108. */
  predicate SignChange(p: Problem, i: nat, j: nat)
    requires i + 1 < |p.xspan| && j < |p.events|
  {
    GridEval(p, i + 1, j).value * GridEval(p, i, j).value < 0.0
  }

  /**
   * What event `j` contributes at step `i`: nothing without a strict sign
   * change, otherwise the refinement of the bracket between grid points `i`
   * and `i + 1`, started with the flags of the call at line 106.
   */
  function PairOutcome(p: Problem, i: nat, j: nat): Outcome
    requires i < Steps(p) && j < |p.events|
  {
    if SignChange(p, i, j) then
      var prev := GridEval(p, i, j);
      var next := GridEval(p, i + 1, j);
      Refined(Search(p.events[j], p.step, p.tol, prev.value, next.value),
              Bracket(Endpoint(p.xspan[i], StateAt(p, i), prev.value),
                      Endpoint(p.xspan[i + 1], StateAt(p, i + 1), next.value)),
              0, Flags(next.isterminal, next.direction)).outcome
    else
      NoCrossing
  }

  /** A refinement starts exactly on a strict sign change (line 108). */
  lemma CrossingIffSignChange(p: Problem, i: nat, j: nat)
    requires i < Steps(p) && j < |p.events|
    ensures PairOutcome(p, i, j).NoCrossing? <==> !SignChange(p, i, j)
  {
  }

  /** The outcomes after which `odelay` returns at once (lines 193-199, or a failed secant). */
  predicate Stops(o: Outcome) {
    o.FlatSecant? || (o.Collected? && o.terminal)
  }

  /** The records an outcome appends to the log (lines 143-145). */
  function Recorded(o: Outcome, j: nat): seq<Record> {
    if o.Collected? then [Record(o.x, o.y, j)] else []
  }

  /** The record `r` is the collected outcome of event `r.index` at step `i`. */
  ghost predicate Explains(p: Problem, i: nat, r: Record) {
    i < Steps(p) && r.index < |p.events| && SignChange(p, i, r.index) &&
    var o := PairOutcome(p, i, r.index);
    o.Collected? && o.x == r.x && o.y == r.y
  }

  /** The records of events `0..j-1` at step `i`, in event order. */
  function StepLog(p: Problem, i: nat, j: nat): (log: seq<Record>)
    requires i < Steps(p) && j <= |p.events|
    ensures forall k :: 0 <= k < |log| ==> log[k].index < j
  {
    if j == 0 then [] else StepLog(p, i, j - 1) + Recorded(PairOutcome(p, i, j - 1), j - 1)
  }

  /** The records of all events at steps `0..i-1`, in visiting order. */
  function LogBefore(p: Problem, i: nat): (log: seq<Record>)
    requires i <= Steps(p)
    ensures forall k :: 0 <= k < |log| ==> log[k].index < |p.events|
  {
    if i == 0 then [] else LogBefore(p, i - 1) + StepLog(p, i - 1, |p.events|)
  }

  /** Every record of step `i` is the collected outcome of its event. */
  lemma {:induction false} StepLogExplained(p: Problem, i: nat, j: nat)
    requires i < Steps(p) && j <= |p.events|
    ensures forall k :: 0 <= k < |StepLog(p, i, j)| ==> Explains(p, i, StepLog(p, i, j)[k])
  {
    if j > 0 {
      StepLogExplained(p, i, j - 1);
      var a := StepLog(p, i, j - 1);
      var o := PairOutcome(p, i, j - 1);
      forall k | 0 <= k < |StepLog(p, i, j)|
        ensures Explains(p, i, StepLog(p, i, j)[k])
      {
        if k < |a| {
          assert StepLog(p, i, j)[k] == a[k];
        } else {
          assert StepLog(p, i, j)[k] == Record(o.x, o.y, j - 1);
        }
      }
    }
  }

  /** Some step before `i` explains `r`. */
  ghost predicate ExplainedBefore(p: Problem, i: nat, r: Record) {
    exists s: nat :: s < i && Explains(p, s, r)
  }

  /** Every record of steps `0..i-1` is the collected outcome of its event at one of them. */
  lemma {:induction false} LogBeforeExplained(p: Problem, i: nat)
    requires i <= Steps(p)
    ensures forall k :: 0 <= k < |LogBefore(p, i)| ==> ExplainedBefore(p, i, LogBefore(p, i)[k])
  {
    if i > 0 {
      LogBeforeExplained(p, i - 1);
      StepLogExplained(p, i - 1, |p.events|);
      var a := LogBefore(p, i - 1);
      var b := StepLog(p, i - 1, |p.events|);
      forall k | 0 <= k < |LogBefore(p, i)|
        ensures ExplainedBefore(p, i, LogBefore(p, i)[k])
      {
        if k < |a| {
          assert LogBefore(p, i)[k] == a[k];
          assert ExplainedBefore(p, i - 1, a[k]);
          var s: nat :| s < i - 1 && Explains(p, s, a[k]);
          assert s < i && Explains(p, s, LogBefore(p, i)[k]);
        } else {
          assert LogBefore(p, i)[k] == b[k - |a|];
          assert Explains(p, i - 1, LogBefore(p, i)[k]);
        }
      }
    } else {
      assert |LogBefore(p, i)| == 0;
    }
  }

  /** `(i, j)` is visited no later than `(i', j')`. */
  ghost predicate NotAfter(i: nat, j: nat, i': nat, j': nat) {
    i < i' || (i == i' && j <= j')
  }

  /** No pair from `(i, j)` up to, but excluding, `(i', j')` stops the run. */
  ghost predicate Quiet(p: Problem, i: nat, j: nat, i': nat, j': nat) {
    forall a: nat, b: nat ::
      a < Steps(p) && b < |p.events| && NotAfter(i, j, a, b) && !NotAfter(i', j', a, b) ==>
        !Stops(PairOutcome(p, a, b))
  }

  /** The first pair, from `(i, j)` on in visiting order, that stops the run. */
  function FirstStopFrom(p: Problem, i: nat, j: nat): (q: Option<Pair>)
    requires i <= Steps(p) && j <= |p.events|
    ensures q.Some? ==> q.value.step < Steps(p) && q.value.event < |p.events|
    decreases Steps(p) - i, |p.events| - j
  {
    if i == Steps(p) then None
    else if j == |p.events| then FirstStopFrom(p, i + 1, 0)
    else if Stops(PairOutcome(p, i, j)) then Some(Pair(i, j))
    else FirstStopFrom(p, i, j + 1)
  }

  /**
   * The search finds a stopping pair at or after `(i, j)` with no stopping
   * pair between, or reports that none of the remaining pairs stops.
   */
  lemma {:induction false} FirstStopFound(p: Problem, i: nat, j: nat)
    requires i <= Steps(p) && j <= |p.events|
    ensures FirstStopFrom(p, i, j).None? ==> Quiet(p, i, j, Steps(p), 0)
    ensures FirstStopFrom(p, i, j).Some? ==>
      var q := FirstStopFrom(p, i, j).value;
      q.step < Steps(p) && q.event < |p.events| && NotAfter(i, j, q.step, q.event) &&
      Stops(PairOutcome(p, q.step, q.event)) && Quiet(p, i, j, q.step, q.event)
    decreases Steps(p) - i, |p.events| - j
  {
    if i == Steps(p) {
    } else if j == |p.events| {
      FirstStopFound(p, i + 1, 0);
    } else if !Stops(PairOutcome(p, i, j)) {
      FirstStopFound(p, i, j + 1);
    }
  }

  /** `TE`: the abscissas of the log. */
  function Times(log: seq<Record>): (t: seq<real>)
    ensures |t| == |log| && forall k :: 0 <= k < |log| ==> t[k] == log[k].x
  {
    seq(|log|, k requires 0 <= k < |log| => log[k].x)
  }

  /** `YE`: the states of the log. */
  function States(log: seq<Record>): (t: seq<real>)
    ensures |t| == |log| && forall k :: 0 <= k < |log| ==> t[k] == log[k].y
  {
    seq(|log|, k requires 0 <= k < |log| => log[k].y)
  }

  /** `IE`: the event indices of the log. */
  function Indices(log: seq<Record>): (t: seq<nat>)
    ensures |t| == |log| && forall k :: 0 <= k < |log| ==> t[k] == log[k].index
  {
    seq(|log|, k requires 0 <= k < |log| => log[k].index)
  }

  function Finish(X: seq<real>, sol: seq<real>, log: seq<Record>): Output {
    Output(X, sol, Times(log), States(log), Indices(log))
  }

  /**
   * The event log of the whole run: every collected crossing when nothing
   * stops the run, otherwise those before the stopping pair and its own.
   */
  function RunLog(p: Problem): seq<Record> {
    match FirstStopFrom(p, 0, 0)
    case None => LogBefore(p, Steps(p))
    case Some(q) =>
      LogBefore(p, q.step) + StepLog(p, q.step, q.event) + Recorded(PairOutcome(p, q.step, q.event), q.event)
  }

  /**
   * What `odelay` returns: the whole grid but its last point when nothing
   * stops the run; otherwise the grid up to the stopping step with its last
   * sample replaced by the terminal event.
   */
  function Integrate(p: Problem): Result<Output, OdelayError> {
    if |p.xspan| == 0 then Err(EmptyGrid)
    else match FirstStopFrom(p, 0, 0)
      case None =>
        Ok(Finish(p.xspan[..Steps(p) + 1], Trajectory(p, Steps(p)), RunLog(p)))
      case Some(q) =>
        var o := PairOutcome(p, q.step, q.event);
        if o.Collected? then
          Ok(Finish(p.xspan[..q.step + 1] + [o.x], Trajectory(p, q.step) + [o.y], RunLog(p)))
        else
          Err(NonFiniteSecant)
  }

  /** The pair `(i, j)` stops the run and no earlier pair does. */
  ghost predicate FirstStopAt(p: Problem, i: nat, j: nat) {
    i < Steps(p) && j < |p.events| && Quiet(p, 0, 0, i, j) && Stops(PairOutcome(p, i, j))
  }

  lemma FirstStopUnique(p: Problem, i: nat, j: nat)
    requires FirstStopAt(p, i, j)
    ensures FirstStopFrom(p, 0, 0) == Some(Pair(i, j))
  {
    FirstStopFound(p, 0, 0);
    var q := FirstStopFrom(p, 0, 0);
    assert NotAfter(0, 0, i, j) && !NotAfter(Steps(p), 0, i, j);
    assert q.Some?;
    var a, b := q.value.step, q.value.event;
    assert NotAfter(0, 0, a, b) && NotAfter(0, 0, i, j);
    assert NotAfter(i, j, a, b) || NotAfter(a, b, i, j);
  }

  /** Every record of the run's log is explained by some step. */
  lemma RunLogExplained(p: Problem, k: nat)
    requires k < |RunLog(p)|
    ensures ExplainedBefore(p, Steps(p), RunLog(p)[k])
  {
    var q := FirstStopFrom(p, 0, 0);
    if q.None? {
      LogBeforeExplained(p, Steps(p));
    } else {
      var i, j := q.value.step, q.value.event;
      var a := LogBefore(p, i);
      var b := StepLog(p, i, j);
      var c := Recorded(PairOutcome(p, i, j), j);
      assert RunLog(p) == a + b + c;
      if k < |a| {
        LogBeforeExplained(p, i);
        assert RunLog(p)[k] == a[k];
        assert ExplainedBefore(p, i, a[k]);
        var s: nat :| s < i && Explains(p, s, a[k]);
        assert Explains(p, s, RunLog(p)[k]);
      } else if k < |a| + |b| {
        StepLogExplained(p, i, j);
        assert RunLog(p)[k] == b[k - |a|];
        assert Explains(p, i, RunLog(p)[k]);
      } else {
        assert RunLog(p)[k] == c[0];
        assert Explains(p, i, RunLog(p)[k]);
      }
    }
  }

  /** `TE`, `YE` and `IE` grow together and every `IE` entry names an event. */
  lemma EventLogsAligned(p: Problem)
    ensures Integrate(p).Ok? ==>
      var out := Integrate(p).value;
      |out.TE| == |out.YE| == |out.IE| && |out.X| == |out.sol| &&
      forall k :: 0 <= k < |out.IE| ==> out.IE[k] < |p.events|
  {
    if Integrate(p).Ok? {
      var out := Integrate(p).value;
      var log := RunLog(p);
      assert out.IE == Indices(log);
      if FirstStopFrom(p, 0, 0).Some? {
        var q := FirstStopFrom(p, 0, 0).value;
        var a := LogBefore(p, q.step) + StepLog(p, q.step, q.event);
        assert forall k :: 0 <= k < |a| ==> a[k].index < |p.events|;
        assert log == a + Recorded(PairOutcome(p, q.step, q.event), q.event);
      }
      assert forall k :: 0 <= k < |log| ==> log[k].index < |p.events|;
    }
  }

  /**
   * Every log entry is the collected refinement of a strict sign change of
   * event `IE[k]` between two consecutive grid points.
   */
  lemma RecordsComeFromCrossings(p: Problem)
    ensures Integrate(p).Ok? ==>
      var out := Integrate(p).value;
      forall k :: 0 <= k < |out.IE| ==> ExplainedBefore(p, Steps(p), Record(out.TE[k], out.YE[k], out.IE[k]))
  {
    if Integrate(p).Ok? {
      var out := Integrate(p).value;
      var log := RunLog(p);
      assert out.TE == Times(log) && out.YE == States(log) && out.IE == Indices(log);
      forall k | 0 <= k < |out.IE|
        ensures ExplainedBefore(p, Steps(p), Record(out.TE[k], out.YE[k], out.IE[k]))
      {
        assert Record(out.TE[k], out.YE[k], out.IE[k]) == log[k];
        RunLogExplained(p, k);
      }
    }
  }

  /** An event value of exactly zero at either grid point never starts a refinement. */
  lemma ZeroIsNotACrossing(p: Problem, i: nat, j: nat)
    requires i < Steps(p) && j < |p.events|
    requires GridEval(p, i, j).value == 0.0 || GridEval(p, i + 1, j).value == 0.0
    ensures PairOutcome(p, i, j) == NoCrossing
  {
  }

  /** Nothing stops the run: the two loops visit every pair. */
  ghost predicate RunsToEnd(p: Problem) {
    FirstStopFrom(p, 0, 0).None?
  }

  /** The run reaches the end of the grid exactly when no pair stops it. */
  lemma RunsToEndIffNoStop(p: Problem)
    ensures RunsToEnd(p) <==>
      forall i: nat, j: nat :: i < Steps(p) && j < |p.events| ==> !Stops(PairOutcome(p, i, j))
  {
    FirstStopFound(p, 0, 0);
    if forall i: nat, j: nat :: i < Steps(p) && j < |p.events| ==> !Stops(PairOutcome(p, i, j)) {
      NoStopFound(p, 0, 0);
    }
  }

  /**
   * Without a stopping pair, one sample per step is appended: `X` is
   * `xspan` without its last point (just `xspan[0]` on a one-point grid),
   * `sol` the grid trajectory, and the log every collected crossing.
   */
  lemma CoversGridWithoutStop(p: Problem)
    requires |p.xspan| >= 1 && RunsToEnd(p)
    ensures Steps(p) + 1 == if |p.xspan| >= 2 then |p.xspan| - 1 else 1
    ensures Integrate(p) == Ok(Finish(p.xspan[..Steps(p) + 1], Trajectory(p, Steps(p)), LogBefore(p, Steps(p))))
  {
  }

  /** When no pair stops the run, the search from any pair finds nothing. */
  lemma {:induction false} NoStopFound(p: Problem, i: nat, j: nat)
    requires i <= Steps(p) && j <= |p.events|
    requires forall a: nat, b: nat :: a < Steps(p) && b < |p.events| ==> !Stops(PairOutcome(p, a, b))
    ensures FirstStopFrom(p, i, j) == None
    decreases Steps(p) - i, |p.events| - j
  {
    if i == Steps(p) {
    } else if j == |p.events| {
      NoStopFound(p, i + 1, 0);
    } else {
      NoStopFound(p, i, j + 1);
    }
  }

  /** On a strictly increasing grid the last point is never a sample unless something stops the run. */
  lemma NeverReachesLastPoint(p: Problem)
    requires |p.xspan| >= 2 && RunsToEnd(p)
    requires forall k :: 0 < k < |p.xspan| ==> p.xspan[k - 1] < p.xspan[k]
    ensures Integrate(p).Ok? && p.xspan[|p.xspan| - 1] !in Integrate(p).value.X
  {
    CoversGridWithoutStop(p);
    var n := |p.xspan|;
    assert Integrate(p).value.X == p.xspan[..n - 1];
    LastNotBefore(p.xspan);
  }

  /** In a strictly increasing sequence the last element is not among the others. */
  lemma LastNotBefore(s: seq<real>)
    requires |s| >= 1
    requires forall k :: 0 < k < |s| ==> s[k - 1] < s[k]
    ensures s[|s| - 1] !in s[..|s| - 1]
  {
    forall k | 0 <= k < |s| - 1
      ensures s[k] < s[|s| - 1]
    {
      IncreasingUpTo(s, k, |s| - 1);
    }
  }

  lemma {:induction false} IncreasingUpTo(s: seq<real>, a: nat, b: nat)
    requires forall k :: 0 < k < |s| ==> s[k - 1] < s[k]
    requires a < b < |s|
    ensures s[a] < s[b]
    decreases b - a
  {
    if a + 1 < b {
      IncreasingUpTo(s, a + 1, b);
    }
  }

  /**
   * A collected terminal event at step `i` deletes the sample at
   * `xspan[i + 1]` and puts the event in its place, so `len(X)` is
   * unchanged; the log ends with that event and nothing after the pair is
   * processed.
   */
  lemma TerminalEventEndsRun(p: Problem, i: nat, j: nat)
    requires FirstStopAt(p, i, j) && PairOutcome(p, i, j).Collected?
    ensures Integrate(p).Ok?
    ensures var out := Integrate(p).value;
      var o := PairOutcome(p, i, j);
      |out.X| == |out.sol| == i + 2 && out.X[..i + 1] == p.xspan[..i + 1] &&
      out.sol[..i + 1] == Trajectory(p, i) &&
      |out.TE| == |LogBefore(p, i)| + |StepLog(p, i, j)| + 1 &&
      out.X[i + 1] == out.TE[|out.TE| - 1] == o.x &&
      out.sol[i + 1] == out.YE[|out.YE| - 1] == o.y &&
      out.IE[|out.IE| - 1] == j
  {
    FirstStopUnique(p, i, j);
  }

  /** A secant that cannot be computed before any terminal event aborts the run. */
  lemma FlatSecantAborts(p: Problem, i: nat, j: nat)
    requires FirstStopAt(p, i, j) && PairOutcome(p, i, j).FlatSecant?
    ensures Integrate(p) == Err(NonFiniteSecant)
  {
    FirstStopUnique(p, i, j);
  }

  /** Appending one record appends one entry to each of `TE`, `YE` and `IE`. */
  lemma ProjectionsAppend(log: seq<Record>, r: Record)
    ensures Times(log + [r]) == Times(log) + [r.x]
    ensures States(log + [r]) == States(log) + [r.y]
    ensures Indices(log + [r]) == Indices(log) + [r.index]
  {
  }

  /** Moving past a pair that does not stop the run. */
  lemma PastQuietPair(p: Problem, i: nat, j: nat)
    requires i < Steps(p) && j < |p.events| && !Stops(PairOutcome(p, i, j))
    ensures FirstStopFrom(p, i, j) == FirstStopFrom(p, i, j + 1)
    ensures StepLog(p, i, j + 1) == StepLog(p, i, j) + Recorded(PairOutcome(p, i, j), j)
  {
  }

  /** Moving past the last event of a step. */
  lemma PastStep(p: Problem, i: nat)
    requires i < Steps(p)
    ensures FirstStopFrom(p, i, |p.events|) == FirstStopFrom(p, i + 1, 0)
    ensures LogBefore(p, i + 1) == LogBefore(p, i) + StepLog(p, i, |p.events|)
  {
  }

  /** The result once the search reaches a stopping pair. */
  lemma StopResult(p: Problem, i: nat, j: nat)
    requires |p.xspan| > 0 && i < Steps(p) && j < |p.events|
    requires FirstStopFrom(p, 0, 0) == FirstStopFrom(p, i, j) && Stops(PairOutcome(p, i, j))
    ensures var o := PairOutcome(p, i, j);
      if o.Collected? then
        Integrate(p) == Ok(Finish(p.xspan[..i + 1] + [o.x], Trajectory(p, i) + [o.y],
                                  LogBefore(p, i) + StepLog(p, i, j) + [Record(o.x, o.y, j)]))
      else
        Integrate(p) == Err(NonFiniteSecant)
  {
    assert FirstStopFrom(p, i, j) == Some(Pair(i, j));
  }

  /** Column `c` of the table `e` holds every event's value at grid point `c` (lines 86, 106). */
  ghost predicate Tabulated(p: Problem, e: array2<real>, c: nat)
    reads e
  {
    e.Length0 == |p.events| && c < e.Length1 == |p.xspan| &&
    forall jj :: 0 <= jj < |p.events| ==> e[jj, c] == GridEval(p, c, jj).value
  }

  /** The event loop of step `i` has visited events `0..j-1`; `TE`, `YE` and `IE` project the log. */
  ghost predicate Scanned(p: Problem, i: nat, j: nat, log: seq<Record>, TE: seq<real>, YE: seq<real>, IE: seq<nat>) {
    i < Steps(p) && j <= |p.events| && log == LogBefore(p, i) + StepLog(p, i, j) &&
    TE == Times(log) && YE == States(log) && IE == Indices(log) &&
    FirstStopFrom(p, 0, 0) == FirstStopFrom(p, i, j)
  }

  /** The grid loop has visited steps `0..i-1` and nothing stopped the run. */
  ghost predicate Visited(p: Problem, i: nat, log: seq<Record>, TE: seq<real>, YE: seq<real>, IE: seq<nat>) {
    i <= Steps(p) && log == LogBefore(p, i) &&
    TE == Times(log) && YE == States(log) && IE == Indices(log) &&
    FirstStopFrom(p, 0, 0) == FirstStopFrom(p, i, 0)
  }

  lemma ScanStarts(p: Problem, i: nat, log: seq<Record>, TE: seq<real>, YE: seq<real>, IE: seq<nat>)
    requires i < Steps(p) && Visited(p, i, log, TE, YE, IE)
    ensures Scanned(p, i, 0, log, TE, YE, IE)
  {
    assert LogBefore(p, i) + StepLog(p, i, 0) == LogBefore(p, i);
  }

  lemma ScanEnds(p: Problem, i: nat, log: seq<Record>, TE: seq<real>, YE: seq<real>, IE: seq<nat>)
    requires Scanned(p, i, |p.events|, log, TE, YE, IE)
    ensures Visited(p, i + 1, log, TE, YE, IE)
  {
    PastStep(p, i);
  }

  /** Once every step is visited, the output is the search's result. */
  lemma RunEnds(p: Problem, log: seq<Record>, TE: seq<real>, YE: seq<real>, IE: seq<nat>)
    requires |p.xspan| > 0 && Visited(p, Steps(p), log, TE, YE, IE)
    ensures Integrate(p) == Ok(Output(p.xspan[..Steps(p) + 1], Trajectory(p, Steps(p)), TE, YE, IE))
  {
  }

  /**
   * The work of lines 108-199 for event `j` at step `i`, once its value at
   * `xspan[i + 1]` is in the table: refine a strict sign change, log what
   * is collected and build the truncated result of a terminal event.
   */
  method VisitPair(ghost p: Problem, step: Integrator, events: seq<Event>, tol: real,
                   i: nat, j: nat, ePt0: real, eLt0: real, X: seq<real>, sol: seq<real>,
                   TE0: seq<real>, YE0: seq<real>, IE0: seq<nat>, ghost log0: seq<Record>,
                   isterminal0: bool, direction0: int)
    returns (stop: Option<Result<Output, OdelayError>>, TE: seq<real>, YE: seq<real>, IE: seq<nat>,
             ghost log: seq<Record>, isterminal: bool, direction: int)
    requires p.step == step && p.events == events && p.tol == tol && |p.xspan| > 0
    requires i < Steps(p) && j < |events|
    requires ePt0 == GridEval(p, i, j).value && eLt0 == GridEval(p, i + 1, j).value
    requires isterminal0 == GridEval(p, i + 1, j).isterminal && direction0 == GridEval(p, i + 1, j).direction
    requires X == p.xspan[..i + 2] && sol == Trajectory(p, i + 1)
    requires Scanned(p, i, j, log0, TE0, YE0, IE0)
    ensures stop.Some? ==> stop.value == Integrate(p)
    ensures stop.None? ==> Scanned(p, i, j + 1, log, TE, YE, IE)
  {
    TE, YE, IE, log, isterminal, direction := TE0, YE0, IE0, log0, isterminal0, direction0;
    stop := None;
    if eLt0 * ePt0 < 0.0 {
      var xLt, fLt, eLt := X[|X| - 1], sol[|sol| - 1], eLt0;
      var xPt, fPt, ePt := X[|X| - 2], sol[|sol| - 2], ePt0;
      var outcome;
      outcome, isterminal, direction :=
        Refine(events[j], step, tol, ePt0, eLt0, xPt, fPt, ePt, xLt, fLt, eLt, isterminal, direction);
      assert outcome == PairOutcome(p, i, j);

      if outcome.FlatSecant? {
        Aborts(p, i, j, log, TE, YE, IE);
        stop := Some(Err(NonFiniteSecant));
        return;
      }
      var terminal := false;
      if outcome.Collected? {
        Collects(p, i, j, log, TE, YE, IE);
        TE, YE, IE := TE + [outcome.x], YE + [outcome.y], IE + [j];
        log := log + [Record(outcome.x, outcome.y, j)];
        terminal := isterminal;
      } else {
        PassesQuietly(p, i, j, log, TE, YE, IE);
      }
      if terminal {
        // the event replaces the sample at xspan[i + 1]
        var X', sol' := X[..|X| - 1], sol[..|sol| - 1];
        assert X' == p.xspan[..i + 1] && sol' == Trajectory(p, i);
        X', sol' := X' + [TE[|TE| - 1]], sol' + [YE[|YE| - 1]];
        stop := Some(Ok(Output(X', sol', TE, YE, IE)));
        return;
      }
    } else {
      assert PairOutcome(p, i, j) == NoCrossing;
      PassesQuietly(p, i, j, log, TE, YE, IE);
    }
  }

  /** A pair that collects nothing leaves the log as it is. */
  lemma PassesQuietly(p: Problem, i: nat, j: nat, log: seq<Record>, TE: seq<real>, YE: seq<real>, IE: seq<nat>)
    requires Scanned(p, i, j, log, TE, YE, IE) && j < |p.events|
    requires PairOutcome(p, i, j).NoCrossing? || PairOutcome(p, i, j).Rejected? || PairOutcome(p, i, j).Exhausted?
    ensures Scanned(p, i, j + 1, log, TE, YE, IE)
  {
    PastQuietPair(p, i, j);
  }

  /**
   * A collected pair appends its record; a terminal one ends the run with
   * the grid up to step `i` and the event in place of `xspan[i + 1]`.
   */
  lemma Collects(p: Problem, i: nat, j: nat, log: seq<Record>, TE: seq<real>, YE: seq<real>, IE: seq<nat>)
    requires Scanned(p, i, j, log, TE, YE, IE) && j < |p.events| && PairOutcome(p, i, j).Collected?
    ensures var o := PairOutcome(p, i, j);
      var log' := log + [Record(o.x, o.y, j)];
      (!o.terminal ==> Scanned(p, i, j + 1, log', TE + [o.x], YE + [o.y], IE + [j])) &&
      (o.terminal ==>
        Integrate(p) == Ok(Output(p.xspan[..i + 1] + [o.x], Trajectory(p, i) + [o.y], TE + [o.x], YE + [o.y], IE + [j])))
  {
    var o := PairOutcome(p, i, j);
    var rec := Record(o.x, o.y, j);
    LogGrows(p, i, j, log, rec);
    if o.terminal {
      StopResult(p, i, j);
    } else {
      PastQuietPair(p, i, j);
    }
  }

  /** A secant that cannot be computed ends the run with an error. */
  lemma Aborts(p: Problem, i: nat, j: nat, log: seq<Record>, TE: seq<real>, YE: seq<real>, IE: seq<nat>)
    requires Scanned(p, i, j, log, TE, YE, IE) && j < |p.events| && PairOutcome(p, i, j).FlatSecant?
    ensures Integrate(p) == Err(NonFiniteSecant)
  {
    StopResult(p, i, j);
  }

  /** Appending a collected record of pair `(i, j)` to the log of the pairs before it. */
  lemma LogGrows(p: Problem, i: nat, j: nat, log: seq<Record>, rec: Record)
    requires i < Steps(p) && j < |p.events| && log == LogBefore(p, i) + StepLog(p, i, j)
    requires PairOutcome(p, i, j).Collected? && rec == Record(PairOutcome(p, i, j).x, PairOutcome(p, i, j).y, j)
    ensures log + [rec] == LogBefore(p, i) + StepLog(p, i, j + 1)
    ensures Times(log + [rec]) == Times(log) + [rec.x]
    ensures States(log + [rec]) == States(log) + [rec.y]
    ensures Indices(log + [rec]) == Indices(log) + [rec.index]
  {
    var before, current := LogBefore(p, i), StepLog(p, i, j);
    assert StepLog(p, i, j + 1) == current + [rec];
    assert before + current + [rec] == before + (current + [rec]);
    ProjectionsAppend(log, rec);
  }

  /**
   * One iteration of the inner loop (lines 105-199): evaluate event `j` at
   * grid point `i + 1`, write the value into `e[j, i + 1]` (line 106) and
   * visit the pair.
   */
  method ScanEvent(ghost p: Problem, step: Integrator, events: seq<Event>, tol: real, e: array2<real>,
                   i: nat, j: nat, X: seq<real>, sol: seq<real>, TE0: seq<real>, YE0: seq<real>, IE0: seq<nat>,
                   ghost log0: seq<Record>)
    returns (stop: Option<Result<Output, OdelayError>>, TE: seq<real>, YE: seq<real>, IE: seq<nat>,
             ghost log: seq<Record>, isterminal: bool, direction: int)
    requires p.step == step && p.events == events && p.tol == tol && |p.xspan| > 0
    requires e.Length0 == |events| && e.Length1 == |p.xspan| && i < Steps(p) && j < |events|
    requires X == p.xspan[..i + 2] && sol == Trajectory(p, i + 1)
    requires e[j, i] == GridEval(p, i, j).value
    requires Scanned(p, i, j, log0, TE0, YE0, IE0)
    modifies e
    ensures e[j, i + 1] == GridEval(p, i + 1, j).value
    ensures forall jj, c :: 0 <= jj < e.Length0 && 0 <= c < e.Length1 && (jj != j || c != i + 1) ==>
      e[jj, c] == old(e[jj, c])
    ensures stop.Some? ==> stop.value == Integrate(p)
    ensures stop.None? ==> Scanned(p, i, j + 1, log, TE, YE, IE)
  {
    var v := events[j](sol[i + 1], X[i + 1]);
    e[j, i + 1], isterminal, direction := v.value, v.isterminal, v.direction;
    assert v == GridEval(p, i + 1, j);
    stop, TE, YE, IE, log, isterminal, direction :=
      VisitPair(p, step, events, tol, i, j, e[j, i], e[j, i + 1], X, sol, TE0, YE0, IE0, log0, isterminal, direction);
  }

  /**
   * One pass of the inner loop (lines 104-199) at grid step `i`: evaluate
   * every event at `xspan[i + 1]` into column `i + 1` of `e` (line 106)
   * and visit each pair. Returns the result of `odelay` when a pair stops
   * the run, and otherwise the grown log.
   */
  method ScanEvents(ghost p: Problem, step: Integrator, events: seq<Event>, tol: real, e: array2<real>,
                    i: nat, X: seq<real>, sol: seq<real>, TE0: seq<real>, YE0: seq<real>, IE0: seq<nat>,
                    ghost log0: seq<Record>, isterminal0: bool, direction0: int)
    returns (stop: Option<Result<Output, OdelayError>>, TE: seq<real>, YE: seq<real>, IE: seq<nat>,
             ghost log: seq<Record>, isterminal: bool, direction: int)
    requires p.step == step && p.events == events && p.tol == tol && |p.xspan| > 0
    requires e.Length0 == |events| && e.Length1 == |p.xspan| && i < Steps(p)
    requires X == p.xspan[..i + 2] && sol == Trajectory(p, i + 1)
    requires Visited(p, i, log0, TE0, YE0, IE0)
    requires Tabulated(p, e, i)
    modifies e
    ensures stop.Some? ==> stop.value == Integrate(p)
    ensures stop.None? ==> Visited(p, i + 1, log, TE, YE, IE) && Tabulated(p, e, i + 1)
    ensures forall jj, c :: 0 <= jj < e.Length0 && 0 <= c < e.Length1 && c != i + 1 ==> e[jj, c] == old(e[jj, c])
  {
    TE, YE, IE, log, isterminal, direction := TE0, YE0, IE0, log0, isterminal0, direction0;
    stop := None;
    ghost var next := i + 1;
    ScanStarts(p, i, log, TE, YE, IE);
    for j := 0 to |events|
      invariant stop.None?
      invariant Scanned(p, i, j, log, TE, YE, IE)
      invariant forall jj :: 0 <= jj < j ==> e[jj, next] == GridEval(p, next, jj).value
      invariant forall jj, c :: 0 <= jj < e.Length0 && 0 <= c < e.Length1 && c != next ==> e[jj, c] == old(e[jj, c])
    {
      assert e[j, i] == old(e[j, i]) == GridEval(p, i, j).value;
      stop, TE, YE, IE, log, isterminal, direction :=
        ScanEvent(p, step, events, tol, e, i, j, X, sol, TE, YE, IE, log);
      if stop.Some? {
        return;
      }
    }
    ScanEnds(p, i, log, TE, YE, IE);
  }

  /**
   * `odelay` itself: the grid loop (lines 90-102), the event table `e`
   * (lines 85-87), the event loop of each step (`ScanEvents`) and the
   * final return (line 201).
   */
  method Odelay(step: Integrator, y0: real, xspan: seq<real>, events: seq<Event> := [],
                tol: real := DefaultTolerance)
    returns (r: Result<Output, OdelayError>)
    ensures r == Integrate(Problem(step, y0, xspan, events, tol))
  {
    ghost var p := Problem(step, y0, xspan, events, tol);
    if |xspan| == 0 {
      return Err(EmptyGrid);
    }
    var x0 := xspan[0];
    var X := [x0];
    var sol := [y0];
    var TE: seq<real>, YE: seq<real>, IE: seq<nat> := [], [], [];
    ghost var log: seq<Record> := [];

    var e := new real[|events|, |xspan|];
    var isterminal, direction := false, 0;
    for j := 0 to |events|
      invariant forall jj :: 0 <= jj < j ==> e[jj, 0] == GridEval(p, 0, jj).value
    {
      var v := events[j](y0, x0);
      e[j, 0], isterminal, direction := v.value, v.isterminal, v.direction;
    }

    var head := if |xspan| >= 2 then xspan[..|xspan| - 2] else [];
    assert Visited(p, 0, log, TE, YE, IE);
    for i := 0 to |head|
      invariant X == xspan[..i + 1] && sol == Trajectory(p, i)
      invariant Visited(p, i, log, TE, YE, IE)
      invariant Tabulated(p, e, i)
    {
      var x1 := head[i];
      var x2 := xspan[i + 1];
      var f1 := sol[i];
      var f2 := step(f1, x1, x2);
      X := X + [x2];
      sol := sol + [f2];
      var stop;
      stop, TE, YE, IE, log, isterminal, direction :=
        ScanEvents(p, step, events, tol, e, i, X, sol, TE, YE, IE, log, isterminal, direction);
      if stop.Some? {
        return stop.value;
      }
    }
    RunEnds(p, log, TE, YE, IE);
    return Ok(Output(X, sol, TE, YE, IE));
  }
}
