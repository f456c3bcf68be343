/** The scene of modelo.py: building a windmill, the rotation step with its
    hit flashes and shadows, the run loop, the pivot counters and the side
    colouring of the dots. */
module Modelo {
  import opened Geometry
  import opened PivotSearch
  import opened Stepping

  /** `windmill_rotation_speed` in the scene's configuration. */
  const WINDMILL_ROTATION_SPEED: real := 0.25

  /** The run time of the Uncreate animation that `get_hit_flash` returns. */
  const HIT_FLASH_RUN_TIME: real := 0.25

  /** An animation handed from one step to the next: the hit flash at the
      point just reached. Only its run time matters to the engine. */
  class Anim {
    const point: Vec2
    var runTime: real

    /** `get_hit_flash(point)`. */
    constructor HitFlash(point: Vec2)
      ensures this.point == point && runTime == HIT_FLASH_RUN_TIME
    {
      this.point := point;
      runTime := HIT_FLASH_RUN_TIME;
    }
  }

  /** What `rotate_to_next_pivot` returns: the animations to play after the
      contact and the run time of the step. */
  datatype Hit = Hit(anims: seq<Anim>, runTime: real)

  /** A selection that succeeds gives the step of modelo.py: the clip of
      the chosen point and turn. */
  lemma SelectedStep(s: MillState, maxTime: Option<real>, angleOf: Vec2 -> real, c: Choice) returns (o: Outcome)
    requires s.rotSpeed > 0.0
    requires NextPivotAndAngle(s.pointSet, s.pivot, s.angle, angleOf) == Success(c)
    ensures c.angle > 0.0 && o == Advance(s, c, maxTime)
    ensures StepSpec(s, maxTime, angleOf, true) == Success(o)
  {
    o := Advance(s, c, maxTime);
  }

  /** The loop of `rotate_to_next_pivot` over `added_anims`: no animation may
      outlast the step. An animation listed twice is clipped once. */
  method ClipRunTimes(anims: seq<Anim>, runTime: real)
    modifies anims
    ensures forall a :: a in anims ==> a.runTime == Min(old(a.runTime), runTime)
  {
    for i := 0 to |anims|
      invariant forall a :: a in anims[..i] ==> a.runTime == Min(old(a.runTime), runTime)
      invariant forall a :: a in anims && a !in anims[..i] ==> a.runTime == old(a.runTime)
    {
      var a := anims[i];
      assert anims[..i + 1] == anims[..i] + [a];
      if a.runTime > runTime {
        a.runTime := runTime;
      }
    }
  }

  /** `update_dot_color`: the dot's side of the line is the sign of its
      projection on the quarter turn of `lineVector` (manim's `get_vector`).
      A dot takes `color1` when it lies strictly to the left of the line,
      seen along `lineVector`, and `color2` otherwise, on the line included. */
  function DotColor<C>(lineVector: Vec2, center: Vec2, pivot: Vec2, color1: C, color2: C): (c: C)
    ensures Cross(lineVector, Sub(center, pivot)) > 0.0 ==> c == color1
    ensures Cross(lineVector, Sub(center, pivot)) <= 0.0 ==> c == color2
  {
    PerpDotIsCross(lineVector, Sub(center, pivot));
    if Dot(Perp(lineVector), Sub(center, pivot)) > 0.0 then color1 else color2
  }

  /** With the line pointing along +x, dots above the pivot take the first
      colour and dots level with it or below take the second. */
  lemma RightwardLineColorsAbove<C>(center: Vec2, pivot: Vec2, color1: C, color2: C)
    ensures center.y > pivot.y ==> DotColor(Vec2(1.0, 0.0), center, pivot, color1, color2) == color1
    ensures center.y <= pivot.y ==> DotColor(Vec2(1.0, 0.0), center, pivot, color1, color2) == color2
  {
    assert Cross(Vec2(1.0, 0.0), Sub(center, pivot)) == center.y - pivot.y;
  }

  /** A dot on the line, at the pivot plus a multiple of the direction, gets
      the second colour. */
  lemma OnLineGetsSecondColor<C>(lineVector: Vec2, pivot: Vec2, k: real, color1: C, color2: C)
    ensures DotColor(lineVector, Add(pivot, Scale(k, lineVector)), pivot, color1, color2) == color2
  {
    var d := Sub(Add(pivot, Scale(k, lineVector)), pivot);
    assert d == Scale(k, lineVector);
    assert Cross(lineVector, d) == k * (lineVector.x * lineVector.y - lineVector.y * lineVector.x);
  }

  /** Turning the line half round swaps the two colours of every dot off the
      line. */
  lemma ReversedLineSwapsColors<C>(lineVector: Vec2, center: Vec2, pivot: Vec2, color1: C, color2: C)
    requires Cross(lineVector, Sub(center, pivot)) != 0.0
    ensures DotColor(Neg(lineVector), center, pivot, color1, color2)
         == DotColor(lineVector, center, pivot, color2, color1)
  {
    CrossNeg(lineVector, Sub(center, pivot));
  }

  /** Only the direction of the line matters, not its length. */
  lemma ColorIgnoresLength<C>(lineVector: Vec2, k: real, center: Vec2, pivot: Vec2, color1: C, color2: C)
    requires k > 0.0
    ensures DotColor(Scale(k, lineVector), center, pivot, color1, color2)
         == DotColor(lineVector, center, pivot, color1, color2)
  {
    var d := Sub(center, pivot);
    CrossScale(k, lineVector, d);
  }

  /** A counter step of `update_counter`: one more exactly when the point
      becomes the pivot. */
  function Rise(wasPivot: bool, isPivot: bool): nat
  {
    if !wasPivot && isPivot then 1 else 0
  }

  /** The value a counter gains over a sequence of frames, given whether the
      point was the pivot before them and whether it is in each frame. */
  function RisingEdges(wasPivot: bool, frames: seq<bool>): (n: nat)
    ensures n <= |frames|
    ensures (forall i :: 0 <= i < |frames| ==> !frames[i]) ==> n == 0
    decreases |frames|
  {
    if frames == [] then 0 else Rise(wasPivot, frames[0]) + RisingEdges(frames[0], frames[1..])
  }

  /** The number of frames in which the point is the pivot. */
  function CountTrue(frames: seq<bool>): nat
  {
    if frames == [] then 0 else (if frames[0] then 1 else 0) + CountTrue(frames[1..])
  }

  /** Counting over two stretches of frames adds up, the second starting
      from the last frame of the first. */
  lemma {:induction false} RisingEdgesAppend(wasPivot: bool, a: seq<bool>, b: seq<bool>)
    requires a != []
    ensures RisingEdges(wasPivot, a + b) == RisingEdges(wasPivot, a) + RisingEdges(a[|a| - 1], b)
    decreases |a|
  {
    assert (a + b)[0] == a[0];
    assert (a + b)[1..] == a[1..] + b;
    if |a| > 1 {
      RisingEdgesAppend(a[0], a[1..], b);
      assert a[1..][|a[1..]| - 1] == a[|a| - 1];
    } else {
      assert a[1..] + b == b;
    }
  }

  /** The counter never counts more visits than frames at the pivot. */
  lemma {:induction false} RisingEdgesAtMostVisits(wasPivot: bool, frames: seq<bool>)
    ensures RisingEdges(wasPivot, frames) <= CountTrue(frames)
    decreases |frames|
  {
    if frames != [] {
      RisingEdgesAtMostVisits(frames[0], frames[1..]);
    }
  }

  /** Two frames in a row at the pivot are one visit. */
  predicate NoRepeatedVisit(frames: seq<bool>)
  {
    forall i :: 0 <= i < |frames| - 1 ==> !(frames[i] && frames[i + 1])
  }

  /** When the point is never the pivot for two frames in a row, and was not
      before, the counter counts every frame at the pivot. */
  lemma {:induction false} RisingEdgesCountsSeparatedVisits(wasPivot: bool, frames: seq<bool>)
    requires NoRepeatedVisit(frames)
    requires frames != [] && frames[0] ==> !wasPivot
    ensures RisingEdges(wasPivot, frames) == CountTrue(frames)
    decreases |frames|
  {
    if frames != [] {
      var tail := frames[1..];
      assert NoRepeatedVisit(tail) by {
        forall i | 0 <= i < |tail| - 1
          ensures !(tail[i] && tail[i + 1])
        {
          assert tail[i] == frames[i + 1] && tail[i + 1] == frames[i + 2];
        }
      }
      if tail != [] {
        assert tail[0] == frames[1];
      }
      RisingEdgesCountsSeparatedVisits(frames[0], tail);
    }
  }

  /** Whether the point is the pivot after a sequence of frames. */
  function LastFrame(wasPivot: bool, frames: seq<bool>): bool
  {
    if frames == [] then wasPivot else frames[|frames| - 1]
  }

  /** One more frame, that is one more `update_counter` call, adds exactly
      the rise of that frame: the counter's value after any sequence of
      calls is its start value plus RisingEdges. */
  lemma RisingEdgesOneMoreFrame(wasPivot: bool, frames: seq<bool>, isPivot: bool)
    ensures RisingEdges(wasPivot, frames + [isPivot])
         == RisingEdges(wasPivot, frames) + Rise(LastFrame(wasPivot, frames), isPivot)
  {
    if frames == [] {
      assert frames + [isPivot] == [isPivot];
    } else {
      RisingEdgesAppend(wasPivot, frames, [isPivot]);
    }
  }

  /** A counter's fields after the frames seen so far, started as
      `get_pivot_counters` leaves it (0, not at the pivot). */
  predicate CounterAfter(value: int, isPivot: bool, frames: seq<bool>)
  {
    value == RisingEdges(false, frames) && isPivot == LastFrame(false, frames)
  }

  /** One `update_counter` call, as UpdateCounter states it, moves a counter
      that followed the frames so far to one that follows them plus the new
      frame: repeated calls count RisingEdges. */
  lemma CounterAfterUpdate(value: int, isPivot: bool, frames: seq<bool>, next: bool)
    requires CounterAfter(value, isPivot, frames)
    ensures CounterAfter(value + Rise(isPivot, next), next, frames + [next])
  {
    RisingEdgesOneMoreFrame(false, frames, next);
  }

  /** Frames in which the point stays the pivot count nothing once it is. */
  lemma {:induction false} StayingPivotCountsNothing(n: nat)
    ensures RisingEdges(true, seq(n, i => true)) == 0
  {
    if n > 0 {
      assert seq(n, i => true)[1..] == seq(n - 1, i => true);
      StayingPivotCountsNothing(n - 1);
    }
  }

  /** A visit held for any number of frames counts once. */
  lemma HeldVisitCountsOnce(n: nat)
    requires n > 0
    ensures RisingEdges(false, seq(n, i => true)) == 1
  {
    assert seq(n, i => true)[0] && seq(n, i => true)[1..] == seq(n - 1, i => true);
    StayingPivotCountsNothing(n - 1);
  }

  /** A counter over one point of the set: `counter.point`,
      `counter.windmill`, `counter.is_pivot` and the displayed integer. */
  class PivotCounter {
    const point: Vec2
    const windmill: Windmill
    var isPivot: bool
    var value: int

    constructor (point: Vec2, windmill: Windmill)
      ensures this.point == point && this.windmill == windmill
      ensures !isPivot && value == 0
    {
      this.point := point;
      this.windmill := windmill;
      isPivot := false;
      value := 0;
    }
  }

  /** One turn of `let_windmill_run` keeps its invariant: the run so far
      grows by the step taken, and the shadows by that step's state when
      it switched the pivot with shadows on. */
  lemma RunLoopStep(s0: MillState, time: real, done: seq<Outcome>, s: MillState, remaining: real,
                    angleOf: Vec2 -> real, o: Outcome, next: MillState, left: real,
                    leave: bool, shadows0: seq<MillState>, before: seq<MillState>, after: seq<MillState>)
    requires s0.rotSpeed > 0.0 && s.rotSpeed > 0.0 && remaining > 0.0
    requires RunsFrom(s0, time, done, s, remaining, angleOf, true)
    requires StepSpec(s, Some(remaining), angleOf, true) == Success(o)
    requires next == o.next && left == remaining - o.runTime
    requires leave ==> before == shadows0 + Contacts(done)
    requires after == before + (if leave && o.pivotChanged then [o.next] else [])
    ensures next.rotSpeed == s.rotSpeed
    ensures RunsFrom(s0, time, done + [o], next, left, angleOf, true)
    ensures Budget(left, s.rotSpeed) < Budget(remaining, s.rotSpeed)
    ensures leave ==> after == shadows0 + Contacts(done + [o])
  {
    RunsFromStep(s0, time, done, s, remaining, angleOf, true, o, next, left);
    ContactsStep(shadows0, done, o);
  }

  /** The scene's engine state: the configured speed, `leave_shadows`, and
      `windmill_shadows`, where None stands for the attribute not yet made. */
  class WindmillScene {
    const windmillRotationSpeed: real
    var leaveShadows: bool
    var windmillShadows: Option<seq<MillState>>

    constructor (windmillRotationSpeed: real := WINDMILL_ROTATION_SPEED)
      ensures this.windmillRotationSpeed == windmillRotationSpeed
      ensures !leaveShadows && windmillShadows == None
    {
      this.windmillRotationSpeed := windmillRotationSpeed;
      leaveShadows := false;
      windmillShadows := None;
    }

    /** The shadows so far, none when the list was never made. */
    function ShadowList(): seq<MillState>
      reads this
    {
      if windmillShadows.Some? then windmillShadows.value else []
    }

    /** `get_windmill`: the pivot defaults to the first point, which fails on
        an empty point set; the speed comes from the scene. */
    method GetWindmill(points: seq<Vec2>, pivot: Option<Vec2> := None, angle: real := TAU / 4.0)
      returns (r: Result<Windmill>)
      ensures r.Failure? <==> pivot.None? && points == []
      ensures r.Failure? ==> r.error == IndexOutOfRange
      ensures r.Success? ==> fresh(r.value)
      ensures r.Success? ==>
                r.value.State()
                == MillState(points, if pivot.Some? then pivot.value else points[0], angle, windmillRotationSpeed)
    {
      if pivot.Some? {
        var w := new Windmill(points, pivot.value, angle, windmillRotationSpeed);
        return Success(w);
      }
      if points == [] {
        return Failure(IndexOutOfRange);
      }
      var w := new Windmill(points, points[0], angle, windmillRotationSpeed);
      return Success(w);
    }

    /** `get_windmill_shadows`: makes the list the first time and returns it. */
    method GetWindmillShadows() returns (shadows: seq<MillState>)
      modifies this
      ensures old(windmillShadows).Some? ==> windmillShadows == old(windmillShadows)
      ensures old(windmillShadows).None? ==> windmillShadows == Some([])
      ensures shadows == ShadowList() == old(ShadowList())
      ensures leaveShadows == old(leaveShadows)
    {
      if windmillShadows.None? {
        windmillShadows := Some([]);
      }
      shadows := windmillShadows.value;
    }

    /** `start_leaving_shadows`. */
    method StartLeavingShadows()
      modifies this
      ensures leaveShadows
      ensures windmillShadows == Some(old(ShadowList()))
    {
      leaveShadows := true;
      var _ := GetWindmillShadows();
    }

    /** `handle_pivot_change`: the new pivot, and with shadows on, a copy of
        the windmill as it now stands added to the shadows. */
    method HandlePivotChange(w: Windmill, newPivot: Vec2)
      modifies this, w
      ensures w.State() == old(w.State()).(pivot := newPivot)
      ensures leaveShadows == old(leaveShadows)
      ensures leaveShadows ==> windmillShadows == Some(old(ShadowList()) + [w.State()])
      ensures !leaveShadows ==> windmillShadows == old(windmillShadows)
    {
      w.pivot := newPivot;
      if leaveShadows {
        var shadows := GetWindmillShadows();
        windmillShadows := Some(shadows + [w.State()]);
      }
    }

    /** The body of `rotate_to_next_pivot` once the next pivot and its turn
        are chosen: clip the step to `maxTime`, shorten the animations
        handed over, turn the line, switch pivot when the step was not
        clipped, and hand back a fresh hit flash at the point aimed at. */
    method RotateTowards(w: Windmill, c: Choice, maxTime: Option<real>, addedAnims: seq<Anim>)
      returns (hit: Hit)
      requires w.Valid() && c.angle > 0.0
      modifies this, w, addedAnims
      ensures var o := Advance(old(w.State()), c, maxTime);
              && w.State() == o.next && hit.runTime == o.runTime
              && |hit.anims| == 1 && fresh(hit.anims[0])
              && hit.anims[0].point == o.hit && hit.anims[0].runTime == HIT_FLASH_RUN_TIME
              && (leaveShadows && o.pivotChanged ==> windmillShadows == Some(old(ShadowList()) + [w.State()]))
              && (!(leaveShadows && o.pivotChanged) ==> windmillShadows == old(windmillShadows))
      ensures ShadowList() == old(ShadowList()) + (if leaveShadows && Advance(old(w.State()), c, maxTime).pivotChanged
                                                   then [w.State()] else [])
      ensures w.Valid() && leaveShadows == old(leaveShadows)
      ensures forall a :: a in addedAnims ==> a.runTime == Min(old(a.runTime), hit.runTime)
    {
      var newPivot, angle := c.point, c.angle;
      var changePivotAtEnd := true;
      var runTime := angle / w.rotSpeed;
      var turn := angle;
      if maxTime.Some? && runTime > maxTime.value {
        var ratio := maxTime.value / runTime;
        turn := angle * ratio;
        runTime := maxTime.value;
        changePivotAtEnd := false;
      }
      ClipRunTimes(addedAnims, runTime);
      w.angle := w.angle - turn;
      if changePivotAtEnd {
        HandlePivotChange(w, newPivot);
      }
      var flash := new Anim.HitFlash(newPivot);
      return Hit([flash], runTime);
    }

    /** `rotate_to_next_pivot`: the step of StepSpec with the half-turn
        case, carried out on the windmill, the shadows and the animations
        handed over, which are clipped to the step's run time. The exception
        of the selection leaves everything as it was. */
    method RotateToNextPivot(w: Windmill, angleOf: Vec2 -> real, maxTime: Option<real> := None,
                             addedAnims: seq<Anim> := [])
      returns (r: Result<Hit>)
      requires w.Valid()
      modifies this, w, addedAnims
      ensures w.Valid() && leaveShadows == old(leaveShadows)
      ensures var spec := StepSpec(old(w.State()), maxTime, angleOf, true);
              && (r.Failure? <==> spec.Failure?)
              && (r.Failure? ==> r.error == spec.error)
              && (r.Success? ==> w.State() == spec.value.next && r.value.runTime == spec.value.runTime)
              && (r.Success? ==> |r.value.anims| == 1 && fresh(r.value.anims[0])
                                 && r.value.anims[0].point == spec.value.hit
                                 && r.value.anims[0].runTime == HIT_FLASH_RUN_TIME)
              && (r.Success? && leaveShadows && spec.value.pivotChanged ==>
                    windmillShadows == Some(old(ShadowList()) + [w.State()]))
              && (r.Success? && !(leaveShadows && spec.value.pivotChanged) ==>
                    windmillShadows == old(windmillShadows))
              && (r.Success? ==>
                    ShadowList() == old(ShadowList()) + (if leaveShadows && spec.value.pivotChanged
                                                         then [spec.value.next] else []))
      ensures r.Success? ==> forall a :: a in addedAnims ==> a.runTime == Min(old(a.runTime), r.value.runTime)
      ensures r.Failure? ==> w.State() == old(w.State()) && windmillShadows == old(windmillShadows)
      ensures r.Failure? ==> forall a :: a in addedAnims ==> a.runTime == old(a.runTime)
    {
      var sel := NextPivotAndAngle(w.pointSet, w.pivot, w.angle, angleOf);
      if sel.Failure? {
        return Failure(sel.error);
      }
      ghost var o := SelectedStep(w.State(), maxTime, angleOf, sel.value);
      var hit := RotateTowards(w, sel.value, maxTime, addedAnims);
      return Success(hit);
    }

    /** `let_windmill_run`: steps with the remaining time as their budget, each
        handed the flash of the step before, until no time is left; an
        exception ends it. The run, the final windmill and the shadows are
        those of RunSpec. */
    method LetWindmillRun(w: Windmill, angleOf: Vec2 -> real, time: real) returns (failure: Option<Error>)
      requires w.Valid()
      modifies this, w
      ensures w.Valid() && leaveShadows == old(leaveShadows)
      ensures var run := RunSpec(old(w.State()), time, angleOf, true);
              && w.State() == run.final
              && failure == run.failure
              && (leaveShadows ==> ShadowList() == old(ShadowList()) + Contacts(run.steps))
              && (!leaveShadows ==> windmillShadows == old(windmillShadows))
    {
      ghost var s0 := w.State();
      ghost var shadows0 := ShadowList();
      ghost var steps: seq<Outcome> := [];
      RunsFromStart(s0, time, angleOf, true);
      var animsFromLastHit: seq<Anim> := [];
      var remaining := time;
      while remaining > 0.0
        invariant w.Valid() && w.rotSpeed == s0.rotSpeed && leaveShadows == old(leaveShadows)
        invariant |animsFromLastHit| <= 1 && (animsFromLastHit != [] ==> fresh(animsFromLastHit[0]))
        invariant RunsFrom(s0, time, steps, w.State(), remaining, angleOf, true)
        invariant leaveShadows ==> ShadowList() == shadows0 + Contacts(steps)
        invariant !leaveShadows ==> windmillShadows == old(windmillShadows)
        decreases Budget(remaining, w.rotSpeed)
      {
        ghost var s := w.State();
        ghost var sh := ShadowList();
        var r := RotateToNextPivot(w, angleOf, Some(remaining), animsFromLastHit);
        if r.Failure? {
          RunsFromFailure(s0, time, steps, s, remaining, angleOf, true, r.error);
          return Some(r.error);
        }
        ghost var o := StepSpec(s, Some(remaining), angleOf, true).value;
        ghost var (done, before) := (steps, remaining);
        steps := steps + [o];
        animsFromLastHit := r.value.anims;
        remaining := remaining - r.value.runTime;
        RunLoopStep(s0, time, done, s, before, angleOf, o, w.State(), remaining,
                    leaveShadows, shadows0, sh, ShadowList());
      }
      RunsFromEnd(s0, time, steps, w.State(), remaining, angleOf, true);
      return None;
    }

    /** `get_pivot_counters`: one counter at zero per point of the set, in
        order, none of them at the pivot yet. */
    method GetPivotCounters(w: Windmill) returns (counters: seq<PivotCounter>)
      ensures |counters| == |w.pointSet|
      ensures forall i :: 0 <= i < |counters| ==>
                fresh(counters[i]) && counters[i].point == w.pointSet[i] && counters[i].windmill == w
                && !counters[i].isPivot && counters[i].value == 0
    {
      counters := [];
      for i := 0 to |w.pointSet|
        invariant |counters| == i
        invariant forall j :: 0 <= j < i ==>
                    fresh(counters[j]) && counters[j].point == w.pointSet[j] && counters[j].windmill == w
                    && !counters[j].isPivot && counters[j].value == 0
      {
        var counter := new PivotCounter(w.pointSet[i], w);
        counters := counters + [counter];
      }
    }

    /** `update_counter`: the counter goes up by one when its point has just
        become the pivot (within 1e-6), and remembers whether it is. */
    method UpdateCounter(counter: PivotCounter)
      modifies counter
      ensures counter.isPivot == Near(counter.point, counter.windmill.pivot)
      ensures counter.value == old(counter.value) + Rise(old(counter.isPivot), counter.isPivot)
    {
      var willBePivot := Near(counter.point, counter.windmill.pivot);
      if !counter.isPivot && willBePivot {
        counter.value := counter.value + 1;
      }
      counter.isPivot := willBePivot;
    }
  }
}
