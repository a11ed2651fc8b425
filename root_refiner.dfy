/**
 * The secant refinement that `odelay` runs once the values of one event
 * function change sign between two grid points (pycse.py, lines 113-189),
 * together with the direction filter that decides whether the located
 * crossing is collected (lines 131-149).
 */
module RootRefiner {

  /** What an event function returns: `[value, isterminal, direction]`. */
  datatype EventValue = EventValue(value: real, isterminal: bool, direction: int)

  /** An event function of the state `y` and the abscissa `x`. */
  type Event = (real, real) -> EventValue

  /**
   * The integrator (`odeint` with the right-hand side and options fixed):
   * `step(y, x1, x2)` is the state at `x2` of the solution whose state at
   * `x1` is `y`.
   */
  type Integrator = (real, real, real) -> real

  /** The iteration cap of the refinement loop (line 124). */
  const MaxIterations: nat := 100

  function Abs(r: real): real {
    if r < 0.0 then -r else r
  }

  /**
   * The direction filter, as the `if`/`elif` chain of lines 131-140
   * evaluates it: `eNext` and `ePrev` are the event's values at the two
   * grid points, never the refined ones.
   */
  predicate Accepts(direction: int, eNext: real, ePrev: real) {
    if direction == 0 then true
    else if eNext > ePrev && direction == 1 then true
    else if eNext < ePrev && direction == -1 then true
    else false
  }

  /**
   * On a genuine sign change, direction 1 keeps exactly the upward
   * crossings, -1 exactly the downward ones, 0 keeps both and any other
   * direction keeps none.
   */
  lemma CrossingSense(direction: int, eNext: real, ePrev: real)
    requires eNext * ePrev < 0.0
    ensures Accepts(0, eNext, ePrev)
    ensures Accepts(1, eNext, ePrev) <==> ePrev < 0.0 < eNext
    ensures Accepts(-1, eNext, ePrev) <==> eNext < 0.0 < ePrev
    ensures direction != -1 && direction != 0 && direction != 1 ==> !Accepts(direction, eNext, ePrev)
  {
    ProductSigns(eNext, ePrev);
  }

  lemma ProductSigns(a: real, b: real)
    ensures a * b < 0.0 ==> (a < 0.0 < b) || (b < 0.0 < a)
  {
  }

  /** One end of the bracket: abscissa, state and event value. */
  datatype Endpoint = Endpoint(x: real, f: real, e: real)

  /** The two triples of the loop: `(xPt, fPt, ePt)` and `(xLt, fLt, eLt)`. */
  datatype Bracket = Bracket(prev: Endpoint, last: Endpoint) {

    /** The test of line 125. */
    predicate Resolved(tol: real) {
      Abs(last.x - prev.x) < tol
    }

    /** The slope of line 153 exists and is non-zero, so line 157 is finite. */
    predicate SlopeDefined() {
      prev.x != last.x && prev.e != last.e
    }

    /** The event values at the two ends have opposite signs. */
    predicate Straddles() {
      prev.e * last.e < 0.0
    }
  }

  lemma QuotientNonZero(a: real, b: real)
    requires a != 0.0 && b != 0.0
    ensures a / b != 0.0
  {
    assert a / b * b == a;
  }

  /** The estimated zero of lines 153-157. */
  function Secant(b: Bracket): real
    requires b.SlopeDefined()
  {
    var m := (b.prev.e - b.last.e) / (b.prev.x - b.last.x);
    QuotientNonZero(b.prev.e - b.last.e, b.prev.x - b.last.x);
    -b.prev.e / m + b.prev.x
  }

  /**
   * The estimate is the zero of the chord through the two ends: it lies a
   * fraction `prev.e / (prev.e - last.e)` of the way from `prev.x` to
   * `last.x`.
   */
  lemma SecantOnChord(b: Bracket)
    requires b.SlopeDefined()
    ensures Secant(b) == b.prev.x + b.prev.e / (b.prev.e - b.last.e) * (b.last.x - b.prev.x)
    ensures b.prev.e * (b.last.x - Secant(b)) + b.last.e * (Secant(b) - b.prev.x) == 0.0
  {
    var dx := b.prev.x - b.last.x;
    var de := b.prev.e - b.last.e;
    var m := de / dx;
    assert m * dx == de;
    var t := b.prev.e / de;
    assert t * de == b.prev.e;
    assert b.prev.e / m == t * dx by {
      assert t * dx * m == t * de;
    }
    var nx := Secant(b);
    assert nx == b.prev.x - t * dx;
    assert nx - b.prev.x == t * (b.last.x - b.prev.x);
    calc {
      b.prev.e * (b.last.x - nx) + b.last.e * (nx - b.prev.x);
      b.prev.e * (b.last.x - b.prev.x) - b.prev.e * t * (b.last.x - b.prev.x)
        + b.last.e * t * (b.last.x - b.prev.x);
      (b.prev.e - t * de) * (b.last.x - b.prev.x);
      0.0;
    }
  }

  lemma ProductPositive(a: real, b: real)
    requires a > 0.0 && b > 0.0
    ensures a * b > 0.0
  {
  }

  lemma PositiveFactor(x: real, d: real)
    requires d > 0.0 && x * d > 0.0
    ensures x > 0.0
  {
  }

  /** A quotient of two positives, the smaller on top, lies strictly between 0 and 1. */
  lemma DivInUnit(a: real, d: real)
    requires 0.0 < a < d
    ensures 0.0 < a / d < 1.0
  {
    var t := a / d;
    assert t * d == a;
    PositiveFactor(t, d);
    assert (1.0 - t) * d == d - a;
    PositiveFactor(1.0 - t, d);
  }

  /** On a straddling bracket the estimate lies strictly between its ends. */
  lemma SecantInsideBracket(b: Bracket)
    requires b.SlopeDefined() && b.Straddles()
    ensures b.prev.x < b.last.x ==> b.prev.x < Secant(b) < b.last.x
    ensures b.last.x < b.prev.x ==> b.last.x < Secant(b) < b.prev.x
  {
    SecantOnChord(b);
    var de := b.prev.e - b.last.e;
    var t := b.prev.e / de;
    assert t * de == b.prev.e;
    ProductSigns(b.prev.e, b.last.e);
    if b.prev.e > 0.0 {
      DivInUnit(b.prev.e, de);
    } else {
      DivInUnit(-b.prev.e, -de);
      assert t == -b.prev.e / -de;
    }
    var d := b.last.x - b.prev.x;
    var s, u := Secant(b), 1.0 - t;
    assert s - b.prev.x == t * d;
    assert b.last.x - s == u * d;
    if d > 0.0 {
      ProductPositive(t, d);
      ProductPositive(u, d);
    } else if d < 0.0 {
      ProductPositive(t, -d);
      ProductPositive(u, -d);
      assert t * d == -(t * -d) && u * d == -(u * -d);
    }
  }

  /** The bracket update of lines 178-187, compared with `eLt`. */
  function Update(b: Bracket, n: Endpoint): Bracket {
    if b.last.e * n.e > 0.0 then Bracket(n, b.last) else Bracket(b.prev, n)
  }

  /**
   * An update replaces exactly one triple and leaves the other untouched.
   * Because the test compares with `eLt`, the new bracket straddles zero
   * only when the last triple was replaced and the new value has the sign
   * opposite to `ePt`.
   */
  lemma UpdateReplacesOneEndpoint(b: Bracket, n: Endpoint)
    ensures b.last.e * n.e > 0.0 ==> Update(b, n) == Bracket(n, b.last)
    ensures b.last.e * n.e <= 0.0 ==> Update(b, n) == Bracket(b.prev, n)
    ensures Update(b, n).Straddles() <==> b.last.e * n.e <= 0.0 && b.prev.e * n.e < 0.0
  {
  }

  /**
   * A straddling bracket never survives an update: either both ends take
   * the sign of `eLt`, or the new value has the sign of `ePt` or is zero.
   */
  lemma StraddleAlwaysLost(b: Bracket, n: Endpoint)
    requires b.Straddles()
    ensures !Update(b, n).Straddles()
  {
    UpdateReplacesOneEndpoint(b, n);
    ProductSigns(b.prev.e, b.last.e);
  }

  /** The refinement was asked for, and how it ended. */
  datatype Outcome =
    | NoCrossing                                  // no strict sign change: no refinement (line 108)
    | Collected(x: real, y: real, terminal: bool)  // lines 142-147
    | Rejected                                    // the direction filter said no (line 149)
    | Exhausted                                   // the cap of line 124 was reached
    | FlatSecant                                  // line 157 would divide by a zero slope

  /** The two event variables that every call of an event function overwrites. */
  datatype Flags = Flags(isterminal: bool, direction: int)

  /** What stays fixed during one refinement. */
  datatype Search = Search(event: Event, step: Integrator, tol: real, ePrev: real, eNext: real)

  /** The outcome together with the state of the loop when it ended. */
  datatype Refinement = Refinement(outcome: Outcome, final: Bracket, iterations: nat, flags: Flags)

  /**
   * The refinement loop of lines 124-189 run from bracket `b` with `k`
   * counted iterations done. Every refinement ends in one of the four
   * outcomes of the loop; `RefinedEnds` says which.
   */
  function Refined(s: Search, b: Bracket, k: nat, flags: Flags): (r: Refinement)
    requires k <= MaxIterations
    ensures !r.outcome.NoCrossing?
    decreases MaxIterations - k, if b.Resolved(s.tol) then 0 else 1
  {
    if k == MaxIterations then
      Refinement(Exhausted, b, k, flags)
    else if b.Resolved(s.tol) then
      var o := if Accepts(flags.direction, s.eNext, s.ePrev) then Collected(b.last.x, b.last.f, flags.isterminal) else Rejected;
      Refinement(o, b, k, flags)
    else if !b.SlopeDefined() then
      Refinement(FlatSecant, b, k, flags)
    else
      var nx := Secant(b);
      if Abs(nx - b.prev.x) < s.tol then
        // lines 160-163: only xLt moves; fLt and eLt are kept
        Refined(s, Bracket(b.prev, Endpoint(nx, b.last.f, b.last.e)), k, flags)
      else
        var nf := s.step(b.prev.f, b.prev.x, nx);
        var v := s.event(nf, nx);
        Refined(s, Update(b, Endpoint(nx, nf, v.value)), k + 1, Flags(v.isterminal, v.direction))
  }

  /**
   * How the loop ends: at most 100 counted iterations; Collected or
   * Rejected exactly when it breaks at line 151 on a resolved bracket,
   * as the direction filter decides with the most recent flags;
   * Exhausted exactly when the cap is reached; FlatSecant only on an
   * unresolved bracket whose slope is undefined. A collected event is the
   * last triple's abscissa and state, and until the first counted
   * iteration the flags and the earlier triple are those it started with.
   */
  lemma {:induction false} RefinedEnds(s: Search, b: Bracket, k: nat, flags: Flags)
    requires k <= MaxIterations
    ensures var r := Refined(s, b, k, flags);
      && k <= r.iterations <= MaxIterations
      && (r.outcome.Exhausted? <==> r.iterations == MaxIterations)
      && (r.outcome.Collected? <==>
           r.iterations < MaxIterations && r.final.Resolved(s.tol) && Accepts(r.flags.direction, s.eNext, s.ePrev))
      && (r.outcome.Rejected? <==>
           r.iterations < MaxIterations && r.final.Resolved(s.tol) && !Accepts(r.flags.direction, s.eNext, s.ePrev))
      && (r.outcome.FlatSecant? ==> !r.final.Resolved(s.tol) && !r.final.SlopeDefined())
      && (r.outcome.Collected? ==>
           r.outcome.x == r.final.last.x && r.outcome.y == r.final.last.f && r.outcome.terminal == r.flags.isterminal)
      && (r.iterations == k ==> r.flags == flags && r.final.prev == b.prev)
    decreases MaxIterations - k, if b.Resolved(s.tol) then 0 else 1
  {
    if k < MaxIterations && !b.Resolved(s.tol) && b.SlopeDefined() {
      var nx := Secant(b);
      if Abs(nx - b.prev.x) < s.tol {
        RefinedEnds(s, Bracket(b.prev, Endpoint(nx, b.last.f, b.last.e)), k, flags);
      } else {
        var nf := s.step(b.prev.f, b.prev.x, nx);
        var v := s.event(nf, nx);
        RefinedEnds(s, Update(b, Endpoint(nx, nf, v.value)), k + 1, Flags(v.isterminal, v.direction));
      }
    }
  }

  /**
   * A positive tolerance rules out a zero-width bracket at line 153, so a
   * failed slope means the two event values coincide.
   */
  lemma FlatSecantMeansEqualValues(s: Search, b: Bracket, k: nat, flags: Flags)
    requires k <= MaxIterations && s.tol > 0.0
    ensures Refined(s, b, k, flags).outcome.FlatSecant? ==>
      Refined(s, b, k, flags).final.prev.e == Refined(s, b, k, flags).final.last.e
  {
    RefinedEnds(s, b, k, flags);
  }

  /**
   * A secant step shorter than the tolerance (lines 160-163) resolves the
   * bracket at once, without a call to the integrator or the event: the
   * collected state is the stale `fLt`, not a state at the collected
   * abscissa.
   */
  lemma ShortStepCollectsStaleState(s: Search, b: Bracket, k: nat, flags: Flags)
    requires k < MaxIterations && !b.Resolved(s.tol) && b.SlopeDefined()
    requires Abs(Secant(b) - b.prev.x) < s.tol
    ensures Refined(s, b, k, flags).outcome ==
      if Accepts(flags.direction, s.eNext, s.ePrev) then Collected(Secant(b), b.last.f, flags.isterminal) else Rejected
  {
    var b' := Bracket(b.prev, Endpoint(Secant(b), b.last.f, b.last.e));
    assert b'.Resolved(s.tol);
    assert Refined(s, b, k, flags) == Refined(s, b', k, flags);
  }

  /**
   * The loop of lines 121-189. The bracket starts at the two grid points,
   * `isterminal0` and `direction0` are what the event returned at the
   * later one, and the flags returned are those of the most recent call.
   */
  method Refine(event: Event, step: Integrator, tol: real, ePrev: real, eNext: real,
                xPt0: real, fPt0: real, ePt0: real, xLt0: real, fLt0: real, eLt0: real,
                isterminal0: bool, direction0: int)
    returns (outcome: Outcome, isterminal: bool, direction: int)
    ensures var r := Refined(Search(event, step, tol, ePrev, eNext),
                             Bracket(Endpoint(xPt0, fPt0, ePt0), Endpoint(xLt0, fLt0, eLt0)),
                             0, Flags(isterminal0, direction0));
      outcome == r.outcome && Flags(isterminal, direction) == r.flags
    ensures outcome.Collected? ==> outcome.terminal == isterminal
  {
    ghost var s := Search(event, step, tol, ePrev, eNext);
    ghost var start := Refined(s, Bracket(Endpoint(xPt0, fPt0, ePt0), Endpoint(xLt0, fLt0, eLt0)),
                               0, Flags(isterminal0, direction0));
    var xPt, fPt, ePt := xPt0, fPt0, ePt0;
    var xLt, fLt, eLt := xLt0, fLt0, eLt0;
    isterminal, direction := isterminal0, direction0;
    var k := 0;
    while k < MaxIterations
      invariant k <= MaxIterations
      invariant Refined(s, Bracket(Endpoint(xPt, fPt, ePt), Endpoint(xLt, fLt, eLt)), k,
                        Flags(isterminal, direction)) == start
      decreases MaxIterations - k, if Abs(xLt - xPt) < tol then 0 else 1
    {
      ghost var b := Bracket(Endpoint(xPt, fPt, ePt), Endpoint(xLt, fLt, eLt));
      if Abs(xLt - xPt) < tol {
        var collect := false;
        if direction == 0 {
          collect := true;
        } else if eNext > ePrev && direction == 1 {
          collect := true;
        } else if eNext < ePrev && direction == -1 {
          collect := true;
        }
        outcome := if collect then Collected(xLt, fLt, isterminal) else Rejected;
        return;
      }
      if xPt == xLt || ePt == eLt {
        outcome := FlatSecant;
        return;
      }
      var m := (ePt - eLt) / (xPt - xLt);
      QuotientNonZero(ePt - eLt, xPt - xLt);
      var newX := -ePt / m + xPt;
      assert newX == Secant(b);
      if Abs(newX - xPt) < tol {
        xLt := newX;
        continue;
      }
      var newF := step(fPt, xPt, newX);
      var v := event(newF, newX);
      assert Refined(s, b, k, Flags(isterminal, direction))
          == Refined(s, Update(b, Endpoint(newX, newF, v.value)), k + 1, Flags(v.isterminal, v.direction));
      isterminal, direction := v.isterminal, v.direction;
      if eLt * v.value > 0.0 {
        xPt, fPt, ePt := newX, newF, v.value;
      } else {
        xLt, fLt, eLt := newX, newF, v.value;
      }
      k := k + 1;
    }
    outcome := Exhausted;
  }
}
