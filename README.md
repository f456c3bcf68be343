# Windmill step engine

A Dafny model of the "windmill" animation engine of two manim scenes,
`modelo.py` and `windmill.py`. A windmill is a line through one point of a
finite point set, its pivot. The line turns clockwise at a constant speed.
When it meets another point of the set, that point becomes the pivot.

The engine has four parts:

- **Pivot search.** Each point other than the pivot has a sweep angle: how far the line must turn clockwise to
  reach it.
  - Sweeps below 1e-6 count as "already on the line" and are masked to infinity.
  - The next pivot is the first candidate with the smallest remaining sweep.
  - When every sweep is tiny, modelo.py keeps the first candidate with a half turn.
- **Rotation step.** The step needs `angle / rot_speed` seconds. When that exceeds the time budget, the line turns by
  the matching fraction of the angle and keeps its pivot. Otherwise it turns fully and switches pivot.
  - modelo.py also shortens the animations handed to the step, records a shadow of the line on each pivot change
    when shadows are on, and returns a fresh hit flash.
- **Run loop,** `let_windmill_run`: steps are taken with the remaining time as their budget until no time is left.
- **Small state machines:**
  - the lazily created shadow list;
  - the per-point pivot counter, which counts rising edges of "this point is the pivot";
  - the side-of-line colouring of the dots.

Modules:

- `Geometry`: 2-D vectors, Python's `x % PI` and the quarter-turn rotation.
- `PivotSearch`: the candidate filter, the sweeps, the mask, `np.argmin`, and modelo.py's `next_pivot_and_angle`.
- `Stepping`:
  - the windmill's state and the `Windmill` class;
  - `Advance`, the clip of one step;
  - `StepSpec`, selection then clip;
  - `RunSpec`, the run loop;
  - what holds of every step and of every run.

  Both scene files share this module. A flag `halfTurn` tells them apart: modelo.py takes the half turn,
  windmill.py cannot.
- `Modelo`: modelo.py's scene as a class. It holds `leave_shadows` and `windmill_shadows`, the step with its
  animations and shadows, the run loop, the pivot counters and the dot colouring.
- `WindmillPy`: windmill.py's scene.
  - Its `next_pivot_and_angle` returns a flat pair in the all-tiny case and a nested list otherwise.
  - `rotate_next_pivot` takes `[0]` of that result and unpacks it into two names. On the flat pair this yields a
    bare point, and the unpacking raises.
  - The model keeps this exception. `TwoPointsStallAfterFirstContact` shows what it means for a two-point set: after
    the first contact the former pivot lies on the line. With exact arithmetic, windmill.py's next step therefore
    always fails, while modelo.py turns half round. modelo.py's comment "Edge case for 2 points" anticipates exactly
    this case.

Each imperative operation is a method proved against a specification function:

- `RotateToNextPivot` and `RotateNextPivot` against `StepSpec`;
- both `LetWindmillRun` methods against `RunSpec`.

Conventions:

- **Exceptions.** `non_pivots[0]` on an empty list, `points[0]` on an empty point set, and windmill.py's unpacking
  error are `Failure` values of a `Result`.
- **Reals.** Coordinates, angles and times are reals.
- **PI.** It is the double 3.141592653589793, the value numpy and manim use.
- **`x % PI`.** It is `x - PI * floor(x / PI)`, i.e. Python's remainder, which takes the divisor's sign.
- **Parameters.** manim's `angle_of_vector` (an atan2) is the parameter `angleOf`. The line's `get_vector` in the dot
  colouring is a parameter too.
- **Quarter turn.** `rotate_vector(v, TAU/4)` is `(-v.y, v.x)`.
- **Distances.** `get_norm(d) < 1e-6` is `d·d < 1e-12`; both sides are non-negative, so the two tests agree.
- **Shadows.** A shadow is a copy of the windmill taken after the new pivot is assigned (modelo.py:134-137).
- **Points on the line.** From points (0,0), (1,0), (0,1) with pivot (0,0) and angle 0, the code picks (0,1) with a
  quarter turn. The point (1,0) is already on the line: its sweep is 0, so it is masked.

## Model

| member | source | states |
|---|---|---|
| Geometry.ModPi | modelo.py:81 | Python's `% PI` lands in [0, PI) |
| Geometry.ModPiUnique | modelo.py:81 | the remainder is the only value in [0, PI) that differs from x by whole half turns |
| Geometry.ModPiPeriodic | modelo.py:81 | adding whole half turns does not change the remainder |
| Geometry.Perp | modelo.py:165 | the quarter turn is perpendicular to v and as long as v |
| Geometry.PerpDotIsCross | modelo.py:164-171 | projecting on the quarter turn of u is the orientation test u × v |
| Geometry.CrossNeg | modelo.py:164-171 | reversing u flips the sign of u × v |
| Geometry.CrossScale | modelo.py:164-171 | scaling u by k scales u × v by k |
| Geometry.Near | modelo.py:215-216 | `get_norm(p - q) < 1e-6` holds for p = q, and only when both coordinates differ by less than 1e-6 |
| PivotSearch.NonPivots | modelo.py:75-78 | candidates are exactly the points of the set other than the pivot, never more of them than points |
| PivotSearch.NonPivotsAppend | modelo.py:75-78 | the filter keeps the point-set order: filtering a concatenation concatenates the filtered parts |
| PivotSearch.NonPivotsWithoutPivot | modelo.py:75-78 | a point set without the pivot is kept whole, in order |
| PivotSearch.SweepAngle | modelo.py:80-83 | every sweep lies in [0, PI) |
| PivotSearch.Sweeps | modelo.py:80-83 | one sweep per candidate, each in [0, PI) |
| PivotSearch.AllTiny | modelo.py:86-87 | `np.all(angles < 1e-6)`: true exactly when every sweep is below 1e-6, so true for no candidates |
| PivotSearch.Mask | modelo.py:86-90 | `angles[tiny_indices] = np.inf`: same length; an entry is infinity exactly when its sweep is below 1e-6, else it is that sweep; all entries are infinity exactly when all sweeps are tiny |
| PivotSearch.SweepIgnoresTurns | modelo.py:73-81 | whole turns of the line's angle leave every sweep unchanged, so manim's angle normalisation does not matter |
| PivotSearch.ArgMin | modelo.py:91 | `np.argmin` gives an index whose entry nothing is below, strictly below every earlier entry: the first minimum |
| PivotSearch.MaskedArgMinIsFirstEligibleMin | modelo.py:86-91 | unless all sweeps are tiny, masking and then argmin pick the first smallest sweep that is not tiny |
| PivotSearch.FirstEligibleMinUnique | modelo.py:90-91 | only one index is the first smallest non-tiny sweep |
| PivotSearch.NextPivotAndAngle | modelo.py:72-92 | fails (IndexError) exactly when no point differs from the pivot; otherwise it returns another point of the set and a turn in [1e-6, PI] |
| PivotSearch.NextPivotAndAngleCases | modelo.py:86-92 | when all sweeps are tiny: the first candidate with a half turn; otherwise the first candidate with the smallest non-tiny sweep, together with that sweep |
| PivotSearch.ChosenTurnIsSmallestEligible | modelo.py:86-92 | in the normal case the turn is at least 1e-6 and at most every non-tiny sweep, and no point already on the line is chosen |
| PivotSearch.FormerPivotOnLine | modelo.py:80-85 | after turning by q's sweep about p, the line goes through p as seen from q (sweep 0), given that atan2 differs by a half turn on opposite vectors |
| Stepping.Advance | modelo.py:104-128 | a step keeps the point set and speed and flashes the point aimed at; it moves the pivot to that point exactly when it switches; it never takes longer than `max_time`; a step that keeps the pivot was clipped to exactly `max_time` (also windmill.py:112-122) |
| Stepping.AdvanceClips | modelo.py:104-128 | run time is `angle/rot_speed`, or its minimum with `max_time`; the pivot switches exactly when not clipped; the line turns by run time times speed, which is `max_time*rot_speed` when clipped |
| Stepping.AdvanceFacts | modelo.py:104-128 | a step turns at the windmill's speed; a full step turns by between 1e-6 and PI within the budget; a clipped step uses the whole budget; the point set and speed are kept |
| Stepping.StepSpec | modelo.py:98-128 | IndexError when no point differs from the pivot; with the half turn (modelo.py) it fails exactly then; windmill.py's only other failure is the unpacking error; a successful step keeps the point set and speed |
| Stepping.StepChoice | modelo.py:98-128 | a successful step is the clip of the selected point and turn |
| Stepping.StepFacts | modelo.py:98-131 | after a successful step: point set and speed kept; constant speed; the pivot changes exactly on a full step, and then to another point of the set; a full step fits the budget; a clipped step uses all of it |
| Stepping.BudgetShrinks | modelo.py:149-155 | a full step with at least 1e-6 of turn, or a step that uses the whole remaining time, lowers the bound on the steps left |
| Stepping.StepShrinksBudget | modelo.py:149-155 | every successful step of the loop lowers that bound and never uses more than the time left, so the loop terminates |
| Stepping.StepGoesOn | modelo.py:149-155 | a step taken with time left either fails, or is a good step (StepOk) that lowers the bound on the steps left |
| Stepping.RunSpec | modelo.py:144-156 | the run loop: each step is taken with the time left before it, and the run stops without an exception only when no time is left |
| Stepping.RunAfter | modelo.py:149-155 | after a step's result the loop stops on an exception, or goes on from the new state with the time left; either way the run is a Chain |
| Stepping.RunStopsWithoutTime | modelo.py:149 | with time at or below zero the loop does nothing |
| Stepping.RunStopsOnFailure | modelo.py:149-154 | a failing step ends the run with that exception |
| Stepping.RunGoesOn | modelo.py:149-155 | a successful step is followed by the run from the new state with the time decreased by the step's run time |
| Stepping.Contacts | modelo.py:133-142 | no more contacts than steps, and none in a run that never switched the pivot |
| Stepping.ContactsStep | modelo.py:133-142 | one more step adds its state to the list of pivot contacts exactly when it switched the pivot |
| Stepping.RunsFromStep | modelo.py:149-155 | one loop turn keeps the loop invariant "the steps so far, then the run from here" and lowers the bound |
| Stepping.ChainConservesTime | modelo.py:149-155 | over a run that raises nothing, the run times add up to exactly the time given |
| Stepping.ChainNeverOvershoots | modelo.py:149-155 | every prefix of the run times stays within the time given |
| Stepping.ChainClipsOnlyLast | modelo.py:105-109 | only the last step of a run can be clipped |
| Stepping.ChainKeepsPointSet | modelo.py:133-134 | a run keeps the point set and speed, and ends on the initial pivot or on a point of the set |
| Stepping.RunConservesTime | modelo.py:144-156 | a run started with positive time that raises nothing ends at exactly 0: its run times sum to the time given |
| Stepping.RunNeverOvershoots | modelo.py:144-156 | the remaining time never goes negative at any point of the run |
| Stepping.RunClipsOnlyLast | modelo.py:144-156 | every step of a run except the last switches the pivot |
| Stepping.RunKeepsPointSet | modelo.py:144-156 | the run ends on the initial pivot or on a point of the set, with the same point set and speed |
| Stepping.ProperStepSucceeds | modelo.py:72-128 | modelo.py's step from a pivot of the set with another point present never raises |
| Stepping.StepKeepsProper | modelo.py:127-134 | after a step the pivot is still a point of the set and another point is present |
| Stepping.ProperRunNeverFails | modelo.py:144-156 | modelo.py's run from a pivot of the set with another point present raises nothing, for any time |
| Stepping.ProperRunUsesAllTime | modelo.py:144-156 | such a run with positive time raises nothing and its run times sum to exactly the time given, so `time` ends at 0 |
| Stepping.Windmill.constructor | modelo.py:46-53 | the line stores the point set, the pivot, the angle and the speed it was given |
| Modelo.Anim.HitFlash | modelo.py:182-197 | the hit flash at a point has run time 0.25 |
| Modelo.SelectedStep | modelo.py:98-131 | a successful selection gives modelo.py's step: the clip of the chosen point and turn |
| Modelo.ClipRunTimes | modelo.py:113-115 | every animation handed over now lasts `min(old run time, run time)`, also when listed twice |
| Modelo.DotColor | modelo.py:164-171 | by the orientation test: a dot gets color1 when the turn from the line's vector to it is counter-clockwise (strictly left of the line), else color2 |
| Modelo.RightwardLineColorsAbove | modelo.py:164-171 | with the line along +x, dots above the pivot get color1 and dots level with it or below get color2 |
| Modelo.OnLineGetsSecondColor | modelo.py:164-171 | a dot on the line gets color2 |
| Modelo.ReversedLineSwapsColors | modelo.py:164-171 | reversing the line's direction swaps the colours of every dot off the line |
| Modelo.ColorIgnoresLength | modelo.py:164-171 | scaling the line's vector by a positive factor changes no colour |
| Modelo.RisingEdges | modelo.py:214-219 | the count over a run of frames is at most the number of frames, and 0 when the point is never the pivot |
| Modelo.RisingEdgesAppend | modelo.py:214-219 | the counts over two stretches of frames add up, the second stretch starting from the last frame of the first |
| Modelo.RisingEdgesAtMostVisits | modelo.py:214-219 | a counter never counts more visits than frames at the pivot |
| Modelo.RisingEdgesCountsSeparatedVisits | modelo.py:214-219 | when the point is never the pivot in two frames in a row, and was not before, every frame at the pivot is counted |
| Modelo.RisingEdgesOneMoreFrame | modelo.py:214-219 | one more frame adds exactly that frame's rise from the frame before it |
| Modelo.CounterAfterUpdate | modelo.py:214-219 | one `update_counter` call keeps a counter equal to the count over the frames it has seen, with `is_pivot` the last of them |
| Modelo.StayingPivotCountsNothing | modelo.py:214-219 | frames at the pivot after it already was count nothing |
| Modelo.HeldVisitCountsOnce | modelo.py:214-219 | a visit held through any number of frames counts once |
| Modelo.PivotCounter.constructor | modelo.py:203-209 | a counter starts at 0, not at the pivot, bound to its point and windmill |
| Modelo.RunLoopStep | modelo.py:144-156 | one turn of the loop keeps its invariant: the run so far grows by the step, and the shadows by the step's state exactly when it switched pivot with shadows on |
| Modelo.WindmillScene.constructor | modelo.py:17-21 | speed 0.25 by default, shadows off, no shadow list yet |
| Modelo.WindmillScene.GetWindmill | modelo.py:40-56 | the pivot defaults to the first point (IndexError on an empty set); the scene's speed and the given angle (TAU/4 by default) are stored |
| Modelo.WindmillScene.GetWindmillShadows | modelo.py:67-70 | the shadow list is made only the first time; an existing one is returned unchanged |
| Modelo.WindmillScene.StartLeavingShadows | modelo.py:63-65 | shadows are on and the list exists, with the shadows it already had |
| Modelo.WindmillScene.HandlePivotChange | modelo.py:133-142 | the pivot is the new point; with shadows on, the list grows by exactly the copy of the line as it now stands, otherwise it is untouched |
| Modelo.WindmillScene.RotateTowards | modelo.py:99-131 | the windmill takes the clipped step; the animations handed over are shortened; one fresh flash at the point aimed at is returned; shadows grow exactly on a pivot change with shadows on |
| Modelo.WindmillScene.RotateToNextPivot | modelo.py:94-131 | the windmill, run time, flash and shadows are those of modelo.py's step; on an exception nothing changes |
| Modelo.WindmillScene.LetWindmillRun | modelo.py:144-156 | the final windmill and the exception are the run's; with shadows on, the shadows grow by the state after every pivot contact of the run, otherwise they are untouched |
| Modelo.WindmillScene.GetPivotCounters | modelo.py:199-212 | one fresh counter per point of the set, in order, at 0 and not at the pivot |
| Modelo.WindmillScene.UpdateCounter | modelo.py:214-219 | `is_pivot` becomes "within 1e-6 of the pivot"; the value rises by one exactly on a false-to-true change and is otherwise kept |
| WindmillPy.NextPivotAndAngle | windmill.py:75-106 | IndexError exactly when no candidate exists; the flat pair `(non_pivots[0], PI)` exactly when all sweeps are tiny; otherwise a nested choice of another point of the set with a turn in [1e-6, PI) |
| WindmillPy.SameChoiceAsModelo | windmill.py:94-106 | windmill.py chooses the same point and turn as modelo.py in every case; the two differ only in the shape of the result |
| WindmillPy.NestedSelectionSteps | windmill.py:104-123 | a nested selection is carried out as in modelo.py |
| WindmillPy.FlatSelectionFails | windmill.py:102-108 | taking `[0]` of the flat pair and unpacking it fails |
| WindmillPy.FirstStepOfTwo | windmill.py:107-123 | with two points, a full first step moves the pivot to the other point and turns by its sweep |
| WindmillPy.SecondStepOfTwo | windmill.py:102-108 | with two points on the line, windmill.py's step fails, while modelo.py turns half round back to the other point |
| WindmillPy.TwoPointsStallAfterFirstContact | windmill.py:102-129 | with a two-point set and exact arithmetic, the step after the first contact always fails in windmill.py and is a half turn in modelo.py |
| WindmillPy.GetWindmill | windmill.py:52-63 | the pivot defaults to `points[0]` (IndexError on an empty set); the speed is 0.25 and the default angle TAU/8 |
| WindmillPy.HandlePivotChange | windmill.py:124-125 | only the pivot changes |
| WindmillPy.RotateTowards | windmill.py:112-123 | the windmill takes the clipped step and its run time is returned |
| WindmillPy.RotateNextPivot | windmill.py:107-123 | the windmill and the run time are those of windmill.py's step: the clipped step, or an exception (no candidate, or a flat pair that cannot be unpacked) that leaves the windmill unchanged |
| WindmillPy.LetWindmillRun | windmill.py:126-129 | the final windmill and the exception are those of the run with windmill.py's step |

## Left out

- **Rendering.** Everything the scenes draw or play is out: `Rotate`, `play`, the flash and Uncreate objects
  (only their run time is kept), dots, lines, labels and updaters that only move objects.
  - Also out: the display objects built inside windmill.py's `next_pivot_and_angle` (lines 70-74, 79-82, 87-101)
    and the second half of its nested result.
  - They have no behaviour beyond drawing.
- **Fading and stroking the shadow copy.** It is visual only. The shadow is the windmill's state.
- **`get_random_point_set`** (both files). It draws random numbers; point sets are inputs.
- **Floating point.** Reals are used throughout, so the model does not capture rounding. In particular, `x % PI` in
  floats can round up to exactly PI, and atan2 can be imprecise.
- TwoPointsStallAfterFirstContact: holds only in exact arithmetic. In floats the former pivot's sweep after the first
  contact is a rounding residue. A residue just below 0 gives a sweep just below PI after `% PI`, and windmill.py then
  turns almost half round instead of raising.
- **The third coordinate of manim's points.** It is always 0.
- **`angle_of_vector` and `get_vector`** are parameters, not computed.
  `FormerPivotOnLine` and `TwoPointsStallAfterFirstContact` assume only that atan2 differs by a half turn on opposite
  vectors.
- **Angle normalisation.** The windmill's angle is not normalised to (-PI, PI] as manim's `get_angle` does.
  `SweepIgnoresTurns` shows that sweeps do not depend on it.
- **Non-positive speeds.** The rotation step and the run loop require a positive rotation speed
  (`Windmill.Valid`). With speed 0 the source divides by zero; with a negative speed its loop need not end.
- **windmill.py's `added_anims` parameter.** It is accepted and then never played or used.
- **windmill.py's `construct`**, modelo.py's `IntroduceWindmill` and the other scripted scenes, and caso1.py. They
  are fixed choreography (manual rotations, speed changes), not engine logic.
- **The hit sound** and the scene's style configuration.
