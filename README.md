# pycse `odelay` and `deriv` in Dafny

This project models two functions of `pycse.py` and proves properties of the models.

`odelay` integrates an ODE over a grid of abscissas `xspan`. At every grid point it evaluates a list of event functions. When the value of an event function changes sign strictly between two consecutive grid points, a secant loop runs until the bracket is narrower than `TOLERANCE`, until 100 counted iterations pass, or until the slope cannot be computed. A crossing that passes the event's direction filter is logged in `TE`, `YE` and `IE`. A collected crossing whose `isterminal` flag is set ends the run, and the event takes the place of the last grid sample.

`deriv` computes finite-difference derivatives, by its `'two-point'` and `'four-point'` methods.

The files:

- `results.dfy`: the `Result` and `Option` datatypes.
- `root_refiner.dfy` (module `RootRefiner`):
  - the direction filter;
  - the secant estimate and the bracket update;
  - the refinement loop, as the method `Refine`, proved against the recursive function `Refined`.
- `odelay.dfy` (module `Odelay`):
  - the driver, as the method `Odelay`, with its event table `e` as an `array2<real>`;
  - `ScanEvents`, `ScanEvent` and `VisitPair`, which hold the inner loop;
  - the declarative function `Integrate`, which `Odelay` is proved against.

  `Integrate` gives every pair (grid step `i`, event `j`) its own outcome. The run is then the pairs in the order the two loops visit them, up to the first pair that stops it.
- `deriv.dfy` (module `Deriv`): both methods, each filling a preallocated array, and the properties of their results.

The integrator (`odeint` with the right-hand side and its options fixed) is a parameter `step(y, x1, x2)`. It gives the state at `x2` of the solution whose state at `x1` is `y`. Event functions are parameters `(y, x) -> EventValue(value, isterminal, direction)`. The state is a single real, because lines 102 and 174 keep one component of `odeint`'s result.

Quirks of the code that the model keeps as written:

- The grid loop runs over `xspan[0:-2]` (line 90). So `len(xspan) - 2` steps are taken, and the last grid point is never integrated to.
- The sign test is strict (line 108). A value of exactly zero never starts a refinement.
- The bracket update compares the new value with `eLt`, not `ePt` (line 178). An update never keeps a straddling bracket (`StraddleAlwaysLost`), but a later update can make it straddle again (`UpdateReplacesOneEndpoint`). `SecantInsideBracket` applies to every secant step taken from a straddling bracket, and the first step always is one.
- A secant step shorter than the tolerance moves only `xLt` (lines 160-163). The bracket is then resolved and `fLt` is stale.
- `isterminal` and `direction` are whatever the most recent call of an event function returned: the grid evaluation, or the last refinement step.
- The direction filter compares the two grid values `e[j, i+1]` and `e[j, i]`. The comments at lines 135 and 138 call these directions the other way round from the code; the model follows the code.
- In `'four-point'` with three samples, index 1 is also index `-2`. The backward difference written at line 226 replaces the forward one of line 225.

Further behaviour of the code that the model keeps:

- No grid is rejected. A one-point grid returns `[xspan[0]]` and `[y0]`. Only an empty `xspan` raises, with an `IndexError` at line 75 (`Err(EmptyGrid)`). Monotonicity of the grid is not checked.
- The short-step branch (lines 160-163) ends the loop on the next iteration, because the bracket is then narrower than the tolerance (`ShortStepCollectsStaleState`).
- The division at line 153 is unguarded. When the slope is zero the model reports the run as `Err(NonFiniteSecant)`.

## Model

| member | source | states |
|---|---|---|
| RootRefiner.CrossingSense | pycse.py:131-140 | On a strict sign change, direction 0 accepts every crossing. Direction 1 accepts exactly the upward crossings and -1 exactly the downward ones (both as iffs). Any other direction accepts none. |
| RootRefiner.SecantOnChord | pycse.py:153-157 | The estimate `new_x` is the zero of the chord through the two bracket ends. |
| RootRefiner.SecantInsideBracket | pycse.py:153-157 | On a bracket whose values have opposite signs, the estimate lies strictly between the two abscissas. |
| RootRefiner.UpdateReplacesOneEndpoint | pycse.py:177-187 | The update replaces exactly one endpoint and keeps the other. The new bracket straddles zero iff the last endpoint was replaced and the new value is opposite in sign to `ePt`. |
| RootRefiner.StraddleAlwaysLost | pycse.py:177-187 | An update of a straddling bracket never yields a straddling bracket. |
| RootRefiner.RefinedEnds | pycse.py:121-189 | The loop ends after at most 100 counted iterations. It is collected or rejected exactly when it breaks on a resolved bracket, as the most recent flags decide. It is exhausted exactly at the cap. A failed secant happens only on an unresolved bracket. A collected event is `(xLt, fLt)` with the latest `isterminal`. Without a counted iteration, the flags and `(xPt, fPt, ePt)` are the initial ones. |
| RootRefiner.FlatSecantMeansEqualValues | pycse.py:153 | With a positive tolerance, a slope that cannot be computed means `ePt == eLt`. |
| RootRefiner.ShortStepCollectsStaleState | pycse.py:159-163 | A secant step shorter than the tolerance resolves the bracket at once. What is collected is `new_x` with the stale `fLt`. |
| RootRefiner.Refine | pycse.py:121-189 | The loop returns the outcome and the final flags of `Refined` from the initial bracket. A collected outcome carries the returned `isterminal`. |
| Odelay.CrossingIffSignChange | pycse.py:108 | A pair starts a refinement iff the product of consecutive event values is strictly negative. |
| Odelay.ZeroIsNotACrossing | pycse.py:108 | An event value of exactly zero at either grid point never starts a refinement. |
| Odelay.FirstStopFound | pycse.py:104-199 | The search returns the first stopping pair in visiting order, with no stopping pair before it, or reports that no remaining pair stops the run. |
| Odelay.FirstStopUnique | pycse.py:193-199 | The pair that stops the run with no earlier stopping pair is the one the run stops at. |
| Odelay.EventLogsAligned | pycse.py:142-145 | `TE`, `YE` and `IE` have equal lengths, and so do `X` and `sol`. Every `IE` entry is a valid event index. |
| Odelay.RecordsComeFromCrossings | pycse.py:108-145 | Every log entry `(TE[k], YE[k], IE[k])` is the collected refinement of a strict sign change of event `IE[k]` at some grid step. |
| Odelay.RunsToEndIffNoStop | pycse.py:193-201 | The run reaches the end of the grid iff no pair is a collected terminal event or a failed secant. |
| Odelay.CoversGridWithoutStop | pycse.py:90-102 | Without a stop, `X` is `xspan[:n-1]` (`[xspan[0]]` on a one-point grid) and `sol` is the grid trajectory. The log holds every collected crossing. |
| Odelay.NeverReachesLastPoint | pycse.py:90 | On a strictly increasing grid without a stop, `xspan[-1]` is not in `X`. |
| Odelay.TerminalEventEndsRun | pycse.py:193-199 | A terminal event at step `i` deletes the sample at `xspan[i+1]` and puts the event in its place. `len(X) == len(sol) == i + 2`, the prefix is unchanged, and `X[-1]`, `sol[-1]`, `IE[-1]` are `TE[-1]`, `YE[-1]` and the event's index. No later pair adds a record. |
| Odelay.FlatSecantAborts | pycse.py:153-157 | A failed secant that is the first stopping pair makes the run an error. |
| Odelay.Collects | pycse.py:142-199 | A collected pair appends one record to each of `TE`, `YE` and `IE`. A terminal one ends the run with the truncated grid. |
| Odelay.VisitPair | pycse.py:108-199 | One pair either returns `odelay`'s result or advances the log to the next pair. |
| Odelay.ScanEvent | pycse.py:105-199 | One iteration writes event `j`'s value at `xspan[i+1]` into `e[j, i+1]` and leaves every other cell of `e` as it was. It either returns `odelay`'s result or advances the log to the next event. |
| Odelay.ScanEvents | pycse.py:104-199 | One pass of the event loop fills column `i+1` of `e` with each event's value at `xspan[i+1]` and leaves every other column as it was. It either returns `odelay`'s result or advances the log to the next step. |
| Odelay.Odelay | pycse.py:55-201 | The method returns exactly `Integrate` of its arguments. |
| Deriv.TwoPoint | pycse.py:209-216 | The result fails iff there are fewer than two samples. Otherwise it has `len(y)` entries: centred differences inside and one-sided differences at the two ends. |
| Deriv.TwoPointExactOnLines | pycse.py:211-215 | On samples of a line `a*x + b`, every entry is `a`. |
| Deriv.FourPoint | pycse.py:218-228 | The result fails iff `x` or `y` has fewer than three samples. Otherwise it has `len(y)` entries: the 4-point difference inside, and lines 224-227 at indices 0, 1, n-2 and n-1, the later one winning. |
| Deriv.EndsOverwritten | pycse.py:221-227 | Overwriting the four end entries of the centred differences gives the four-point result at every index. |
| Deriv.FourPointExactOnLines | pycse.py:220-227 | On evenly spaced samples of a line `a*x + b`, every entry is `a`. |
| Deriv.FourPointThreeSamples | pycse.py:224-227 | With three samples, entry 1 equals entry 0, the forward difference at 0. Entry 2 is the backward difference. |
| Deriv.FourPointThreeSamplesLosesForwardDifference | pycse.py:225-226 | On `x = [0, 1, 2]`, `y = [0, 0, 1]`, entry 1 is not the forward difference of line 225. |
| Deriv.EndsAgree | pycse.py:214-227 | On equal-length data, both methods give the same first and last entries. |

## Left out

- Printing `odeint` messages and the `full_output` option (lines 94-99, 167-172) are I/O.
  - The integrator is a parameter, so its failures are outside the model.
  - The extra keyword arguments live inside the `step` parameter.
- `f0 = func(y0, x0)` and `xf = xspan[-1]` (lines 76-78) are computed but never used.
- Floating point: reals stand in for IEEE doubles, with no rounding, overflow, `inf` or `nan`.
  - Odelay.Odelay: a zero slope at line 153 (`ePt == eLt`) would give `inf` or `nan` in numpy, with behaviour that depends on `odeint`. The model ends the run with `Err(NonFiniteSecant)` instead.
  - Deriv.TwoPoint: zero denominators are excluded by a `requires`, because numpy would produce `inf` or `nan`.
  - Deriv.FourPoint: zero denominators are excluded by a `requires`, for the same reason.
- Deriv.TwoPoint: requires `len(x) == len(y)`. numpy broadcasting of unequal lengths is not modelled.
- `deriv`'s string dispatch is not modelled. `TwoPoint` and `FourPoint` are its two branches; an unknown method string falls through and returns `None`.
- The `deriv` method `'fft'` is not part of this model; it needs a Fourier transform.
- The rest of `pycse.py` is not part of this model (`regress`, `nlinfit`, the `__main__` demonstration).
- Vector-valued states are not modelled. Lines 102 and 174 keep one component of each `odeint` result, so the state passed on is a scalar.
- Python's truthy `isterminal` values (such as `1`) are modelled as `bool`.
