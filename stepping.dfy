/** The time-budgeted rotation step and the run loop, as specification
    functions over the windmill's state, and the windmill object itself.
    Both scene files follow the same rules; they differ only in the half-turn
    case, which modelo.py takes and windmill.py cannot (flag `halfTurn`). */
module Stepping {
  import opened Geometry
  import opened PivotSearch

  /** What the engine reads and writes of a windmill line: its point set,
      its pivot, its direction angle and its rotation speed. */
  datatype MillState = MillState(pointSet: seq<Vec2>, pivot: Vec2, angle: real, rotSpeed: real)

  /** One rotation step: the state after it, the run time it reports,
      whether the pivot switched, and the point the hit flash is shown at. */
  datatype Outcome = Outcome(next: MillState, runTime: real, pivotChanged: bool, hit: Vec2)

  function Min(a: real, b: real): real { if a <= b then a else b }

  /** The clip of a rotation step towards choice `c`: the required time is
      `c.angle / rotSpeed`; beyond `maxTime` the line turns by the fraction
      `maxTime / required` of the angle and keeps its pivot. */
  function Advance(s: MillState, c: Choice, maxTime: Option<real>): (o: Outcome)
    requires s.rotSpeed > 0.0 && c.angle > 0.0
    ensures o.next.pointSet == s.pointSet && o.next.rotSpeed == s.rotSpeed && o.hit == c.point
    ensures o.next.pivot == (if o.pivotChanged then c.point else s.pivot)
    ensures maxTime.Some? ==> o.runTime <= maxTime.value
    ensures !o.pivotChanged ==> maxTime.Some? && o.runTime == maxTime.value
  {
    var required := c.angle / s.rotSpeed;
    if maxTime.Some? && required > maxTime.value then
      var ratio := maxTime.value / required;
      Outcome(s.(angle := s.angle - c.angle * ratio), maxTime.value, false, c.point)
    else
      Outcome(s.(pivot := c.point, angle := s.angle - c.angle), required, true, c.point)
  }

  /** The step reports `min(required, maxTime)`, switches pivot exactly when
      it is not clipped, and in both cases turns the line by run time times
      speed; a clipped step therefore turns by `maxTime * rotSpeed`. */
  lemma AdvanceClips(s: MillState, c: Choice, maxTime: Option<real>)
    requires s.rotSpeed > 0.0 && c.angle > 0.0
    ensures var o := Advance(s, c, maxTime);
            var required := c.angle / s.rotSpeed;
            && o.runTime == (if maxTime.None? then required else Min(required, maxTime.value))
            && (o.pivotChanged <==> maxTime.None? || required <= maxTime.value)
            && o.next.pivot == (if o.pivotChanged then c.point else s.pivot)
            && s.angle - o.next.angle == o.runTime * s.rotSpeed
            && (o.pivotChanged ==> s.angle - o.next.angle == c.angle)
            && o.next.pointSet == s.pointSet && o.next.rotSpeed == s.rotSpeed
            && o.hit == c.point
  {
    var v := s.rotSpeed;
    var required := c.angle / v;
    assert required * v == c.angle;
    assert required > 0.0;
    if maxTime.Some? && required > maxTime.value {
      var m := maxTime.value;
      var ratio := m / required;
      calc {
        c.angle * ratio;
        (required * v) * (m / required);
        (required * (m / required)) * v;
        m * v;
      }
    }
  }

  /** The step the engine takes from state `s`: select, then clip. With
      `halfTurn` false the all-tiny case is an error (windmill.py). */
  function StepSpec(s: MillState, maxTime: Option<real>, angleOf: Vec2 -> real, halfTurn: bool)
    : (r: Result<Outcome>)
    requires s.rotSpeed > 0.0
    ensures NonPivots(s.pointSet, s.pivot) == [] ==> r == Failure(IndexOutOfRange)
    ensures halfTurn ==> (r.Failure? <==> NonPivots(s.pointSet, s.pivot) == [])
    ensures r.Failure? && NonPivots(s.pointSet, s.pivot) != [] ==> !halfTurn && r.error == UnpackMismatch
    ensures r.Success? ==> r.value.next.pointSet == s.pointSet && r.value.next.rotSpeed == s.rotSpeed
  {
    match NextPivotAndAngle(s.pointSet, s.pivot, s.angle, angleOf)
    case Failure(e) => Failure(e)
    case Success(c) =>
      if !halfTurn && AllTiny(Sweeps(angleOf, s.pivot, s.angle, NonPivots(s.pointSet, s.pivot))) then
        Failure(UnpackMismatch)
      else
        Success(Advance(s, c, maxTime))
  }

  /** The line turns at the windmill's speed for the run time the step reports. */
  predicate TurnsAtSpeed(s: MillState, o: Outcome)
  {
    s.angle - o.next.angle == o.runTime * s.rotSpeed
  }

  /** A full step turns by at least the threshold and at most a half turn. */
  predicate FullStepLength(runTime: real, rotSpeed: real)
  {
    TINY <= runTime * rotSpeed <= PI
  }

  /** The clip facts of Advance, with the products kept inside the two
      predicates above. */
  lemma AdvanceFacts(s: MillState, c: Choice, maxTime: Option<real>)
    requires s.rotSpeed > 0.0 && TINY <= c.angle <= PI
    ensures var o := Advance(s, c, maxTime);
            && TurnsAtSpeed(s, o)
            && (o.pivotChanged ==> FullStepLength(o.runTime, s.rotSpeed))
            && (o.pivotChanged && maxTime.Some? ==> o.runTime <= maxTime.value)
            && (!o.pivotChanged ==> maxTime.Some? && o.runTime == maxTime.value)
            && o.next.pivot == (if o.pivotChanged then c.point else s.pivot)
            && o.next.pointSet == s.pointSet && o.next.rotSpeed == s.rotSpeed
  {
    AdvanceClips(s, c, maxTime);
  }

  /** A successful step is the clip of the selection. */
  lemma StepChoice(s: MillState, maxTime: Option<real>, angleOf: Vec2 -> real, halfTurn: bool) returns (c: Choice)
    requires s.rotSpeed > 0.0
    requires StepSpec(s, maxTime, angleOf, halfTurn).Success?
    ensures NextPivotAndAngle(s.pointSet, s.pivot, s.angle, angleOf) == Success(c)
    ensures StepSpec(s, maxTime, angleOf, halfTurn) == Success(Advance(s, c, maxTime))
  {
    c := NextPivotAndAngle(s.pointSet, s.pivot, s.angle, angleOf).value;
  }

  /** What a successful step guarantees: the point set and speed stay, the
      line turns at constant speed, the pivot changes exactly on a full step
      and then to another point of the set, a full step turns by between
      TINY and PI and fits the budget, and a clipped step uses the whole
      budget. */
  lemma StepFacts(s: MillState, maxTime: Option<real>, angleOf: Vec2 -> real, halfTurn: bool, o: Outcome)
    requires s.rotSpeed > 0.0
    requires StepSpec(s, maxTime, angleOf, halfTurn) == Success(o)
    ensures o.next.pointSet == s.pointSet && o.next.rotSpeed == s.rotSpeed
    ensures TurnsAtSpeed(s, o)
    ensures o.pivotChanged <==> o.next.pivot != s.pivot
    ensures o.pivotChanged ==> o.next.pivot in s.pointSet
    ensures o.pivotChanged ==> FullStepLength(o.runTime, s.rotSpeed)
    ensures o.pivotChanged && maxTime.Some? ==> o.runTime <= maxTime.value
    ensures !o.pivotChanged ==> maxTime.Some? && o.runTime == maxTime.value
  {
    var c := StepChoice(s, maxTime, angleOf, halfTurn);
    AdvanceFacts(s, c, maxTime);
  }

  /** The results of a run: the final state, every step taken in order, and
      the exception that stopped it, if any. */
  datatype Run = Run(final: MillState, steps: seq<Outcome>, failure: Option<Error>)

  /** A bound on the number of steps left with `time` to go: each full step
      uses at least TINY / rotSpeed of it. */
  function Budget(time: real, rotSpeed: real): nat
    requires rotSpeed > 0.0
  {
    if time <= 0.0 then 0
    else
      assert time * rotSpeed > 0.0;
      ((time * rotSpeed) / TINY).Floor + 1
  }

  /** A full step that fits the budget, or a step that uses all of it,
      lowers the bound. */
  lemma BudgetShrinks(time: real, rotSpeed: real, runTime: real, full: bool, rest: real)
    requires rotSpeed > 0.0 && time > 0.0 && rest == time - runTime
    requires full ==> FullStepLength(runTime, rotSpeed) && runTime <= time
    requires !full ==> runTime == time
    ensures Budget(rest, rotSpeed) < Budget(time, rotSpeed)
  {
    var v := rotSpeed;
    var b := (time * v) / TINY;
    assert b.Floor >= 0;
    if rest > 0.0 {
      assert rest * v == time * v - runTime * v;
      var a := (rest * v) / TINY;
      assert a <= b - 1.0;
      assert a.Floor < b.Floor;
    }
  }

  lemma StepShrinksBudget(s: MillState, time: real, angleOf: Vec2 -> real, halfTurn: bool, o: Outcome,
                           left: real)
    requires s.rotSpeed > 0.0 && time > 0.0 && left == time - o.runTime
    requires StepSpec(s, Some(time), angleOf, halfTurn) == Success(o)
    ensures o.next.rotSpeed == s.rotSpeed
    ensures o.runTime <= time
    ensures Budget(left, s.rotSpeed) < Budget(time, s.rotSpeed)
  {
    StepFacts(s, Some(time), angleOf, halfTurn, o);
    BudgetShrinks(time, s.rotSpeed, o.runTime, o.pivotChanged, left);
  }

  /** Total run time of a sequence of steps. */
  function TotalTime(steps: seq<Outcome>): real
  {
    if steps == [] then 0.0 else steps[0].runTime + TotalTime(steps[1..])
  }

  lemma {:induction false} TotalTimeAppend(a: seq<Outcome>, b: seq<Outcome>)
    ensures TotalTime(a + b) == TotalTime(a) + TotalTime(b)
  {
    if a == [] {
      assert a + b == b;
    } else {
      assert (a + b)[0] == a[0];
      assert (a + b)[1..] == a[1..] + b;
      TotalTimeAppend(a[1..], b);
    }
  }

  /** The first k steps of `[o] + steps` take o's run time plus that of the
      first k - 1 of `steps`. */
  lemma TotalTimePrefix(o: Outcome, steps: seq<Outcome>, k: nat)
    requires 0 < k <= |steps| + 1
    ensures TotalTime(([o] + steps)[..k]) == o.runTime + TotalTime(steps[..k - 1])
  {
    var pre := ([o] + steps)[..k];
    assert pre[0] == o;
    assert pre[1..] == steps[..k - 1];
  }

  /** The states right after each pivot switch of a run. */
  function Contacts(steps: seq<Outcome>): (r: seq<MillState>)
    ensures |r| <= |steps|
    ensures (forall i :: 0 <= i < |steps| ==> !steps[i].pivotChanged) ==> r == []
  {
    if steps == [] then []
    else (if steps[0].pivotChanged then [steps[0].next] else []) + Contacts(steps[1..])
  }

  lemma {:induction false} ContactsAppend(a: seq<Outcome>, b: seq<Outcome>)
    ensures Contacts(a + b) == Contacts(a) + Contacts(b)
  {
    if a == [] {
      assert a + b == b;
    } else {
      assert (a + b)[0] == a[0];
      assert (a + b)[1..] == a[1..] + b;
      ContactsAppend(a[1..], b);
    }
  }

  /** One more step adds its state to the contacts, after whatever came
      before them, exactly when it switched the pivot. */
  lemma ContactsStep(before: seq<MillState>, steps: seq<Outcome>, o: Outcome)
    ensures before + Contacts(steps + [o])
         == (before + Contacts(steps)) + (if o.pivotChanged then [o.next] else [])
  {
    ContactsAppend(steps, [o]);
    assert [o][1..] == [];
  }

  /** The remainder of a chain after its first step. */
  function Tail(r: Run): Run
    requires r.steps != []
  {
    Run(r.final, r.steps[1..], r.failure)
  }

  /** What one step of a run guarantees with `time` left: there was time
      left, the point set and speed stay, and the step either switches to
      another point of the set within the time left, or is clipped to
      exactly that time. */
  predicate StepOk(s: MillState, time: real, o: Outcome)
  {
    && time > 0.0
    && o.next.pointSet == s.pointSet && o.next.rotSpeed == s.rotSpeed
    && o.runTime <= time
    && (o.pivotChanged <==> o.next.pivot != s.pivot)
    && (o.pivotChanged ==> o.next.pivot in s.pointSet)
    && (!o.pivotChanged ==> o.runTime == time)
  }

  /** What a run guarantees step by step, free of the selection: every step
      is StepOk for the time left before it, and the run stops without an
      exception only once no time is left. */
  predicate Chain(s: MillState, time: real, r: Run)
    decreases |r.steps|
  {
    if r.steps == [] then
      r.final == s && (r.failure.None? <==> time <= 0.0)
    else
      var o := r.steps[0];
      StepOk(s, time, o) && Chain(o.next, time - o.runTime, Tail(r))
  }

  lemma StepIsOk(s: MillState, time: real, angleOf: Vec2 -> real, halfTurn: bool, o: Outcome)
    requires s.rotSpeed > 0.0 && time > 0.0
    requires StepSpec(s, Some(time), angleOf, halfTurn) == Success(o)
    ensures StepOk(s, time, o)
  {
    StepFacts(s, Some(time), angleOf, halfTurn, o);
  }

  /** A good step in front of a chain extends it. */
  lemma ChainCons(s: MillState, time: real, r: Run, o: Outcome, rest: Run)
    requires r.steps != [] && r.steps[0] == o && Tail(r) == rest
    requires StepOk(s, time, o)
    requires Chain(o.next, time - o.runTime, rest)
    ensures Chain(s, time, r)
  {
  }

  /** `let_windmill_run`: `while time > 0`, a step with the remaining time as
      its budget, then `time -= run_time`. */
  /** What the run loop needs of a step's result with `time` left: there
      is time left, and a successful step is StepOk and lowers the bound. */
  predicate GoesOn(s: MillState, time: real, st: Result<Outcome>)
    requires s.rotSpeed > 0.0
  {
    && time > 0.0
    && (st.Success? ==>
          StepOk(s, time, st.value)
          && Budget(time - st.value.runTime, s.rotSpeed) < Budget(time, s.rotSpeed))
  }

  lemma StepGoesOn(s: MillState, time: real, angleOf: Vec2 -> real, halfTurn: bool)
    requires s.rotSpeed > 0.0 && time > 0.0
    ensures GoesOn(s, time, StepSpec(s, Some(time), angleOf, halfTurn))
  {
    var st := StepSpec(s, Some(time), angleOf, halfTurn);
    if st.Success? {
      StepShrinksBudget(s, time, angleOf, halfTurn, st.value, time - st.value.runTime);
      StepIsOk(s, time, angleOf, halfTurn, st.value);
    }
  }

  function RunSpec(s: MillState, time: real, angleOf: Vec2 -> real, halfTurn: bool): (r: Run)
    requires s.rotSpeed > 0.0
    ensures Chain(s, time, r)
    decreases Budget(time, s.rotSpeed), 1
  {
    if time <= 0.0 then Run(s, [], None)
    else
      StepGoesOn(s, time, angleOf, halfTurn);
      RunAfter(s, time, angleOf, halfTurn, StepSpec(s, Some(time), angleOf, halfTurn))
  }

  /** The run loop after one step's result `st`: an exception ends it, a
      successful step is followed by the run on the time that is left. */
  function RunAfter(s: MillState, time: real, angleOf: Vec2 -> real, halfTurn: bool, st: Result<Outcome>)
    : (r: Run)
    requires s.rotSpeed > 0.0 && GoesOn(s, time, st)
    ensures Chain(s, time, r)
    decreases Budget(time, s.rotSpeed), 0
  {
    match st
    case Failure(e) => Run(s, [], Some(e))
    case Success(o) =>
      var rest := RunSpec(o.next, time - o.runTime, angleOf, halfTurn);
      ChainCons(s, time, Run(rest.final, [o] + rest.steps, rest.failure), o, rest);
      Run(rest.final, [o] + rest.steps, rest.failure)
  }

  /** The run loop ends at once when no time is left. */
  lemma RunStopsWithoutTime(s: MillState, time: real, angleOf: Vec2 -> real, halfTurn: bool)
    requires s.rotSpeed > 0.0 && time <= 0.0
    ensures RunSpec(s, time, angleOf, halfTurn) == Run(s, [], None)
  {
  }

  /** A failing step ends the run with that step's exception. */
  lemma RunStopsOnFailure(s: MillState, time: real, angleOf: Vec2 -> real, halfTurn: bool, e: Error)
    requires s.rotSpeed > 0.0 && time > 0.0
    requires StepSpec(s, Some(time), angleOf, halfTurn) == Failure(e)
    ensures RunSpec(s, time, angleOf, halfTurn) == Run(s, [], Some(e))
  {
    StepGoesOn(s, time, angleOf, halfTurn);
    assert RunSpec(s, time, angleOf, halfTurn) == RunAfter(s, time, angleOf, halfTurn, Failure(e));
  }

  /** A successful step is followed by the run from the new state with the
      time that is left. */
  lemma RunGoesOn(s: MillState, time: real, angleOf: Vec2 -> real, halfTurn: bool, o: Outcome, left: real)
    requires s.rotSpeed > 0.0 && time > 0.0 && left == time - o.runTime
    requires StepSpec(s, Some(time), angleOf, halfTurn) == Success(o)
    ensures o.next.rotSpeed > 0.0
    ensures var rest := RunSpec(o.next, left, angleOf, halfTurn);
            RunSpec(s, time, angleOf, halfTurn) == Run(rest.final, [o] + rest.steps, rest.failure)
  {
    StepGoesOn(s, time, angleOf, halfTurn);
    assert RunSpec(s, time, angleOf, halfTurn) == RunAfter(s, time, angleOf, halfTurn, Success(o));
  }

  lemma AppendAssoc(a: seq<Outcome>, b: seq<Outcome>, c: seq<Outcome>)
    ensures a + (b + c) == (a + b) + c
  {
  }

  /** The run loop's invariant: the run from `s0` with `time` is the steps
      `done` so far followed by the run from the current state `s` with the
      time that is left. */
  predicate RunsFrom(s0: MillState, time: real, done: seq<Outcome>, s: MillState, remaining: real,
                     angleOf: Vec2 -> real, halfTurn: bool)
    requires s0.rotSpeed > 0.0 && s.rotSpeed > 0.0
  {
    var rest := RunSpec(s, remaining, angleOf, halfTurn);
    RunSpec(s0, time, angleOf, halfTurn) == Run(rest.final, done + rest.steps, rest.failure)
  }

  lemma RunsFromStart(s0: MillState, time: real, angleOf: Vec2 -> real, halfTurn: bool)
    requires s0.rotSpeed > 0.0
    ensures RunsFrom(s0, time, [], s0, time, angleOf, halfTurn)
  {
    assert [] + RunSpec(s0, time, angleOf, halfTurn).steps == RunSpec(s0, time, angleOf, halfTurn).steps;
  }

  /** A successful step keeps the invariant, one step further on, at the
      state `next` it reaches with the time `left` that it leaves. */
  lemma RunsFromStep(s0: MillState, time: real, done: seq<Outcome>, s: MillState, remaining: real,
                     angleOf: Vec2 -> real, halfTurn: bool, o: Outcome, next: MillState, left: real)
    requires s0.rotSpeed > 0.0 && s.rotSpeed > 0.0 && remaining > 0.0
    requires RunsFrom(s0, time, done, s, remaining, angleOf, halfTurn)
    requires StepSpec(s, Some(remaining), angleOf, halfTurn) == Success(o)
    requires next == o.next && left == remaining - o.runTime
    ensures next.rotSpeed == s.rotSpeed
    ensures RunsFrom(s0, time, done + [o], next, left, angleOf, halfTurn)
    ensures Budget(left, s.rotSpeed) < Budget(remaining, s.rotSpeed)
  {
    StepShrinksBudget(s, remaining, angleOf, halfTurn, o, left);
    RunGoesOn(s, remaining, angleOf, halfTurn, o, left);
    var tail := RunSpec(next, left, angleOf, halfTurn);
    assert RunSpec(s, remaining, angleOf, halfTurn) == Run(tail.final, [o] + tail.steps, tail.failure);
    AppendAssoc(done, [o], tail.steps);
  }

  /** With no time left, the run so far is the whole run. */
  lemma RunsFromEnd(s0: MillState, time: real, done: seq<Outcome>, s: MillState, remaining: real,
                    angleOf: Vec2 -> real, halfTurn: bool)
    requires s0.rotSpeed > 0.0 && s.rotSpeed > 0.0 && remaining <= 0.0
    requires RunsFrom(s0, time, done, s, remaining, angleOf, halfTurn)
    ensures RunSpec(s0, time, angleOf, halfTurn) == Run(s, done, None)
  {
    RunStopsWithoutTime(s, remaining, angleOf, halfTurn);
    assert done + [] == done;
  }

  /** A failing step ends the whole run with the steps so far. */
  lemma RunsFromFailure(s0: MillState, time: real, done: seq<Outcome>, s: MillState, remaining: real,
                        angleOf: Vec2 -> real, halfTurn: bool, e: Error)
    requires s0.rotSpeed > 0.0 && s.rotSpeed > 0.0 && remaining > 0.0
    requires RunsFrom(s0, time, done, s, remaining, angleOf, halfTurn)
    requires StepSpec(s, Some(remaining), angleOf, halfTurn) == Failure(e)
    ensures RunSpec(s0, time, angleOf, halfTurn) == Run(s, done, Some(e))
  {
    RunStopsOnFailure(s, remaining, angleOf, halfTurn, e);
    assert done + [] == done;
  }

  /** A chain that raises nothing uses exactly the time it was given. */
  lemma {:induction false} ChainConservesTime(s: MillState, time: real, r: Run)
    requires Chain(s, time, r) && time > 0.0 && r.failure.None?
    ensures TotalTime(r.steps) == time
    decreases |r.steps|
  {
    var o := r.steps[0];
    if time - o.runTime > 0.0 {
      ChainConservesTime(o.next, time - o.runTime, Tail(r));
    } else {
      assert Tail(r).steps == [];
    }
  }

  /** The run times of any prefix of a chain stay within the time given. */
  lemma {:induction false} ChainNeverOvershoots(s: MillState, time: real, r: Run, k: nat)
    requires Chain(s, time, r) && time >= 0.0 && k <= |r.steps|
    ensures TotalTime(r.steps[..k]) <= time
    decreases |r.steps|
  {
    if k > 0 {
      var o := r.steps[0];
      ChainNeverOvershoots(o.next, time - o.runTime, Tail(r), k - 1);
      assert r.steps == [o] + Tail(r).steps;
      TotalTimePrefix(o, Tail(r).steps, k);
    }
  }

  /** Only the last step of a chain can be clipped. */
  lemma {:induction false} ChainClipsOnlyLast(s: MillState, time: real, r: Run, i: nat)
    requires Chain(s, time, r) && i + 1 < |r.steps|
    ensures r.steps[i].pivotChanged
    decreases |r.steps|
  {
    var o := r.steps[0];
    if i == 0 {
      assert Tail(r).steps != [];
    } else {
      assert r.steps[i] == Tail(r).steps[i - 1];
      ChainClipsOnlyLast(o.next, time - o.runTime, Tail(r), i - 1);
    }
  }

  /** A chain keeps the point set and the speed, and ends on its initial
      pivot or on a point of the set. */
  lemma {:induction false} ChainKeepsPointSet(s: MillState, time: real, r: Run)
    requires Chain(s, time, r)
    ensures r.final.pointSet == s.pointSet && r.final.rotSpeed == s.rotSpeed
    ensures r.final.pivot == s.pivot || r.final.pivot in s.pointSet
    decreases |r.steps|
  {
    if r.steps != [] {
      var o := r.steps[0];
      ChainKeepsPointSet(o.next, time - o.runTime, Tail(r));
    }
  }

  /** A run that starts with positive time and raises nothing ends with
      exactly zero left: its run times add up to the time it was given. */
  lemma RunConservesTime(s: MillState, time: real, angleOf: Vec2 -> real, halfTurn: bool)
    requires s.rotSpeed > 0.0 && time > 0.0
    requires RunSpec(s, time, angleOf, halfTurn).failure.None?
    ensures TotalTime(RunSpec(s, time, angleOf, halfTurn).steps) == time
  {
    ChainConservesTime(s, time, RunSpec(s, time, angleOf, halfTurn));
  }

  /** The remaining time never goes negative: after any number of steps of a
      run, the run times so far do not exceed the time it was given. */
  lemma RunNeverOvershoots(s: MillState, time: real, angleOf: Vec2 -> real, halfTurn: bool, k: nat)
    requires s.rotSpeed > 0.0 && time >= 0.0
    requires k <= |RunSpec(s, time, angleOf, halfTurn).steps|
    ensures TotalTime(RunSpec(s, time, angleOf, halfTurn).steps[..k]) <= time
  {
    ChainNeverOvershoots(s, time, RunSpec(s, time, angleOf, halfTurn), k);
  }

  /** Every step of a run except the last one switches the pivot: only the
      final step can be clipped. */
  lemma RunClipsOnlyLast(s: MillState, time: real, angleOf: Vec2 -> real, halfTurn: bool, i: nat)
    requires s.rotSpeed > 0.0
    requires i + 1 < |RunSpec(s, time, angleOf, halfTurn).steps|
    ensures RunSpec(s, time, angleOf, halfTurn).steps[i].pivotChanged
  {
    ChainClipsOnlyLast(s, time, RunSpec(s, time, angleOf, halfTurn), i);
  }

  /** A run keeps the point set and the speed, and ends on the initial pivot
      or on a point of the set. */
  lemma RunKeepsPointSet(s: MillState, time: real, angleOf: Vec2 -> real, halfTurn: bool)
    requires s.rotSpeed > 0.0
    ensures var r := RunSpec(s, time, angleOf, halfTurn);
            && r.final.pointSet == s.pointSet && r.final.rotSpeed == s.rotSpeed
            && (r.final.pivot == s.pivot || r.final.pivot in s.pointSet)
  {
    ChainKeepsPointSet(s, time, RunSpec(s, time, angleOf, halfTurn));
  }

  /** A windmill as the scenes set it up: the pivot is a point of the set,
      and the set has another point. */
  predicate Proper(s: MillState)
  {
    s.pivot in s.pointSet && NonPivots(s.pointSet, s.pivot) != []
  }

  /** modelo.py's step cannot raise on a proper windmill. */
  lemma ProperStepSucceeds(s: MillState, maxTime: Option<real>, angleOf: Vec2 -> real)
    requires s.rotSpeed > 0.0 && Proper(s)
    ensures StepSpec(s, maxTime, angleOf, true).Success?
  {
  }

  /** A step keeps a windmill proper: a new pivot is a point of the set, and
      the old pivot is then another one. */
  lemma StepKeepsProper(s: MillState, maxTime: Option<real>, angleOf: Vec2 -> real, halfTurn: bool, o: Outcome)
    requires s.rotSpeed > 0.0 && Proper(s)
    requires StepSpec(s, maxTime, angleOf, halfTurn) == Success(o)
    ensures Proper(o.next)
  {
    StepFacts(s, maxTime, angleOf, halfTurn, o);
    if o.pivotChanged {
      assert s.pivot in NonPivots(s.pointSet, o.next.pivot);
    }
  }

  /** modelo.py's run from a proper windmill never raises. */
  lemma {:induction false} ProperRunNeverFails(s: MillState, time: real, angleOf: Vec2 -> real)
    requires s.rotSpeed > 0.0 && Proper(s)
    ensures RunSpec(s, time, angleOf, true).failure.None?
    decreases Budget(time, s.rotSpeed)
  {
    if time <= 0.0 {
      RunStopsWithoutTime(s, time, angleOf, true);
    } else {
      ProperStepSucceeds(s, Some(time), angleOf);
      var o := StepSpec(s, Some(time), angleOf, true).value;
      StepKeepsProper(s, Some(time), angleOf, true, o);
      StepShrinksBudget(s, time, angleOf, true, o, time - o.runTime);
      RunGoesOn(s, time, angleOf, true, o, time - o.runTime);
      ProperRunNeverFails(o.next, time - o.runTime, angleOf);
    }
  }

  /** modelo.py's `let_windmill_run` on a proper windmill with positive time
      ends with exactly zero left: its run times add up to the time given. */
  lemma ProperRunUsesAllTime(s: MillState, time: real, angleOf: Vec2 -> real)
    requires s.rotSpeed > 0.0 && Proper(s) && time > 0.0
    ensures RunSpec(s, time, angleOf, true).failure.None?
    ensures TotalTime(RunSpec(s, time, angleOf, true).steps) == time
  {
    ProperRunNeverFails(s, time, angleOf);
    RunConservesTime(s, time, angleOf, true);
  }

  /** The windmill line: `point_set` (windmill.py: `points_set`), `pivot`,
      `rot_speed`, and the direction that manim's `get_angle` reports. */
  class Windmill {
    var pointSet: seq<Vec2>
    var pivot: Vec2
    var angle: real
    var rotSpeed: real

    ghost predicate Valid()
      reads this
    {
      rotSpeed > 0.0
    }

    function State(): MillState
      reads this
    {
      MillState(pointSet, pivot, angle, rotSpeed)
    }

    constructor (points: seq<Vec2>, pivot: Vec2, angle: real, rotSpeed: real)
      ensures State() == MillState(points, pivot, angle, rotSpeed)
    {
      this.pointSet := points;
      this.pivot := pivot;
      this.angle := angle;
      this.rotSpeed := rotSpeed;
    }
  }
}
