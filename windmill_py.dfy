/** The engine of windmill.py: the same selection and step as modelo.py,
    except that its next_pivot_and_angle returns two differently shaped
    values, and its rotation step indexes the result with `[0]` before
    unpacking it. In the all-tiny case that indexing yields a bare point, so
    the step fails where modelo.py would take a half turn. */
module WindmillPy {
  import opened Geometry
  import opened PivotSearch
  import opened Stepping

  /** `windmill_rotation_speed` in the scene's CONFIG. */
  const WINDMILL_ROTATION_SPEED: real := 0.25

  /** The two shapes next_pivot_and_angle returns: the flat pair
      `(non_pivots[0], PI)` when every sweep is tiny, and otherwise the
      nested list whose first entry is the chosen point and its sweep (the
      second entry, the display objects, is not modelled). */
  datatype Selection =
    | Flat(point: Vec2, angle: real)
    | Nested(choice: Choice)

  /** windmill.py's next_pivot_and_angle. */
  function NextPivotAndAngle(points: seq<Vec2>, pivot: Vec2, currAngle: real, angleOf: Vec2 -> real)
    : (r: Result<Selection>)
    ensures r.Failure? <==> NonPivots(points, pivot) == []
    ensures r.Failure? ==> r.error == IndexOutOfRange
    ensures r.Success? && r.value.Flat? <==>
              NonPivots(points, pivot) != [] && AllTiny(Sweeps(angleOf, pivot, currAngle, NonPivots(points, pivot)))
    ensures r.Success? && r.value.Flat? ==> r.value == Flat(NonPivots(points, pivot)[0], PI)
    ensures r.Success? && r.value.Nested? ==>
              var c := r.value.choice;
              c.point in points && c.point != pivot && TINY <= c.angle < PI
  {
    var cands := NonPivots(points, pivot);
    var sweeps := Sweeps(angleOf, pivot, currAngle, cands);
    if AllTiny(sweeps) then
      if cands == [] then Failure(IndexOutOfRange) else Success(Flat(cands[0], PI))
    else
      var k := ArgMin(Mask(sweeps));
      MaskedArgMinIsFirstEligibleMin(sweeps);
      Success(Nested(Choice(cands[k], sweeps[k])))
  }

  /** The two scene files choose alike: they fail together, the flat pair
      carries modelo.py's half-turn choice, and the nested list carries
      modelo.py's choice in every other case. */
  lemma SameChoiceAsModelo(points: seq<Vec2>, pivot: Vec2, currAngle: real, angleOf: Vec2 -> real)
    ensures var r := NextPivotAndAngle(points, pivot, currAngle, angleOf);
            var m := PivotSearch.NextPivotAndAngle(points, pivot, currAngle, angleOf);
            && (r.Failure? <==> m.Failure?)
            && (r.Failure? ==> r.error == m.error)
            && (r.Success? && r.value.Flat? ==> m == Success(Choice(r.value.point, r.value.angle)))
            && (r.Success? && r.value.Nested? ==> m == Success(r.value.choice))
  {
  }

  /** The step of windmill.py is StepSpec without the half turn: a nested
      selection is carried out as in modelo.py... */
  lemma NestedSelectionSteps(s: MillState, maxTime: Option<real>, angleOf: Vec2 -> real, c: Choice)
    returns (o: Outcome)
    requires s.rotSpeed > 0.0
    requires NextPivotAndAngle(s.pointSet, s.pivot, s.angle, angleOf) == Success(Nested(c))
    ensures c.angle > 0.0 && o == Advance(s, c, maxTime)
    ensures StepSpec(s, maxTime, angleOf, false) == Success(o)
  {
    SameChoiceAsModelo(s.pointSet, s.pivot, s.angle, angleOf);
    o := Advance(s, c, maxTime);
  }

  /** ... and unpacking the bare point of a flat selection fails. */
  lemma FlatSelectionFails(s: MillState, maxTime: Option<real>, angleOf: Vec2 -> real)
    requires s.rotSpeed > 0.0
    requires NextPivotAndAngle(s.pointSet, s.pivot, s.angle, angleOf).Success?
    requires NextPivotAndAngle(s.pointSet, s.pivot, s.angle, angleOf).value.Flat?
    ensures StepSpec(s, maxTime, angleOf, false) == Failure(UnpackMismatch)
  {
    SameChoiceAsModelo(s.pointSet, s.pivot, s.angle, angleOf);
  }

  /** With two points, a full first step moves the pivot to the other
      point and turns the line by that point's sweep. */
  lemma FirstStepOfTwo(p: Vec2, q: Vec2, angle: real, rotSpeed: real, angleOf: Vec2 -> real,
                       maxTime: Option<real>, o: Outcome)
    requires p != q && rotSpeed > 0.0
    requires StepSpec(MillState([p, q], p, angle, rotSpeed), maxTime, angleOf, false) == Success(o)
    requires o.pivotChanged
    ensures o.next == MillState([p, q], q, angle - SweepAngle(angleOf, p, angle, q), rotSpeed)
  {
    var s := MillState([p, q], p, angle, rotSpeed);
    assert NonPivots([p, q], p) == [q] by {
      assert [p, q][1..] == [q];
      assert [q][1..] == [];
    }
    var c := StepChoice(s, maxTime, angleOf, false);
    NextPivotAndAngleCases(s.pointSet, s.pivot, s.angle, angleOf);
    assert c == Choice(q, SweepAngle(angleOf, p, angle, q));
  }

  /** Once the line passes through both points of a two-point set,
      windmill.py's step cannot unpack the flat selection and fails, where
      modelo.py takes a half turn back to the other point. */
  lemma SecondStepOfTwo(p: Vec2, q: Vec2, angle: real, rotSpeed: real, angleOf: Vec2 -> real,
                        maxTime: Option<real>)
    requires p != q && rotSpeed > 0.0
    requires SweepAngle(angleOf, q, angle, p) == 0.0
    ensures StepSpec(MillState([p, q], q, angle, rotSpeed), maxTime, angleOf, false) == Failure(UnpackMismatch)
    ensures StepSpec(MillState([p, q], q, angle, rotSpeed), maxTime, angleOf, true)
         == Success(Advance(MillState([p, q], q, angle, rotSpeed), Choice(p, PI), maxTime))
  {
    assert NonPivots([p, q], q) == [p] by {
      assert [p, q][1..] == [q];
      assert [q][1..] == [];
    }
    assert AllTiny(Sweeps(angleOf, q, angle, [p]));
  }

  /** The two-point edge case: with a two-point set and an atan2 that
      differs by a half turn on opposite vectors, the step after the first
      contact always fails in windmill.py, and in modelo.py is a half turn. */
  lemma TwoPointsStallAfterFirstContact(p: Vec2, q: Vec2, angle: real, rotSpeed: real, angleOf: Vec2 -> real,
                                        first: Option<real>, second: Option<real>, o: Outcome)
    requires p != q && rotSpeed > 0.0
    requires Antipodal(angleOf, Sub(q, p))
    requires StepSpec(MillState([p, q], p, angle, rotSpeed), first, angleOf, false) == Success(o)
    requires o.pivotChanged
    ensures StepSpec(o.next, second, angleOf, false) == Failure(UnpackMismatch)
    ensures StepSpec(o.next, second, angleOf, true) == Success(Advance(o.next, Choice(p, PI), second))
  {
    FirstStepOfTwo(p, q, angle, rotSpeed, angleOf, first, o);
    FormerPivotOnLine(angleOf, p, q, angle);
    SecondStepOfTwo(p, q, o.next.angle, rotSpeed, angleOf, second);
  }

  /** `get_windmill`: the pivot defaults to the first point, which fails on
      an empty point set; the speed is the configured one. */
  method GetWindmill(points: seq<Vec2>, pivot: Option<Vec2> := None, angle: real := TAU / 8.0)
    returns (r: Result<Windmill>)
    ensures r.Failure? <==> pivot.None? && points == []
    ensures r.Failure? ==> r.error == IndexOutOfRange
    ensures r.Success? ==> fresh(r.value) && r.value.Valid()
    ensures r.Success? ==>
              r.value.State()
              == MillState(points, if pivot.Some? then pivot.value else points[0], angle, WINDMILL_ROTATION_SPEED)
  {
    if pivot.Some? {
      var w := new Windmill(points, pivot.value, angle, WINDMILL_ROTATION_SPEED);
      return Success(w);
    }
    if points == [] {
      return Failure(IndexOutOfRange);
    }
    var w := new Windmill(points, points[0], angle, WINDMILL_ROTATION_SPEED);
    return Success(w);
  }

  /** `handle_pivot_change`: only the pivot changes. */
  method HandlePivotChange(w: Windmill, newPivot: Vec2)
    modifies w
    ensures w.State() == old(w.State()).(pivot := newPivot)
  {
    w.pivot := newPivot;
  }

  /** The body of `rotate_next_pivot` once the point and the turn are
      unpacked: clip the step to `maxTime`, turn the line, and switch pivot
      when the step was not clipped. */
  method RotateTowards(w: Windmill, c: Choice, maxTime: Option<real>) returns (runTime: real)
    requires w.Valid() && c.angle > 0.0
    modifies w
    ensures var o := Advance(old(w.State()), c, maxTime);
            w.State() == o.next && runTime == o.runTime
    ensures w.Valid()
  {
    var newPivot, angle := c.point, c.angle;
    var changePivotAtEnd := true;
    runTime := angle / w.rotSpeed;
    var turn := angle;
    if maxTime.Some? && runTime > maxTime.value {
      var ratio := maxTime.value / runTime;
      turn := angle * ratio;
      runTime := maxTime.value;
      changePivotAtEnd := false;
    }
    w.angle := w.angle - turn;
    if changePivotAtEnd {
      HandlePivotChange(w, newPivot);
    }
  }

  /** `rotate_next_pivot`: the step of StepSpec without the half turn,
      carried out on the windmill; it returns the run time. Both exceptions
      (no other point, or a flat selection that cannot be unpacked) leave
      the windmill as it was. */
  method RotateNextPivot(w: Windmill, angleOf: Vec2 -> real, maxTime: Option<real> := None)
    returns (r: Result<real>)
    requires w.Valid()
    modifies w
    ensures w.Valid()
    ensures var spec := StepSpec(old(w.State()), maxTime, angleOf, false);
            && (r.Failure? <==> spec.Failure?)
            && (r.Failure? ==> r.error == spec.error && w.State() == old(w.State()))
            && (r.Success? ==> w.State() == spec.value.next && r.value == spec.value.runTime)
  {
    var sel := NextPivotAndAngle(w.pointSet, w.pivot, w.angle, angleOf);
    if sel.Failure? {
      return Failure(sel.error);
    }
    if sel.value.Flat? {
      FlatSelectionFails(w.State(), maxTime, angleOf);
      return Failure(UnpackMismatch);
    }
    ghost var o := NestedSelectionSteps(w.State(), maxTime, angleOf, sel.value.choice);
    var runTime := RotateTowards(w, sel.value.choice, maxTime);
    return Success(runTime);
  }

  /** `let_windmill_run`: steps with the remaining time as their budget until
      no time is left; an exception ends it. The final windmill and the
      exception are those of RunSpec without the half turn. */
  method LetWindmillRun(w: Windmill, angleOf: Vec2 -> real, time: real) returns (failure: Option<Error>)
    requires w.Valid()
    modifies w
    ensures w.Valid()
    ensures var run := RunSpec(old(w.State()), time, angleOf, false);
            w.State() == run.final && failure == run.failure
  {
    ghost var s0 := w.State();
    ghost var steps: seq<Outcome> := [];
    RunsFromStart(s0, time, angleOf, false);
    var remaining := time;
    while remaining > 0.0
      invariant w.Valid() && w.rotSpeed == s0.rotSpeed
      invariant RunsFrom(s0, time, steps, w.State(), remaining, angleOf, false)
      decreases Budget(remaining, w.rotSpeed)
    {
      ghost var s := w.State();
      var r := RotateNextPivot(w, angleOf, Some(remaining));
      if r.Failure? {
        RunsFromFailure(s0, time, steps, s, remaining, angleOf, false, r.error);
        return Some(r.error);
      }
      ghost var o := StepSpec(s, Some(remaining), angleOf, false).value;
      ghost var (done, before) := (steps, remaining);
      steps := steps + [o];
      remaining := remaining - r.value;
      RunsFromStep(s0, time, done, s, before, angleOf, false, o, w.State(), remaining);
    }
    RunsFromEnd(s0, time, steps, w.State(), remaining, angleOf, false);
    return None;
  }
}
