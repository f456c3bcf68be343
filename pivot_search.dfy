/** Choosing the next pivot of the windmill: the candidates, their sweep
    angles, the masking of angles that are already on the line, the first
    minimum, and the half-turn fallback (modelo.py's next_pivot_and_angle). */
module PivotSearch {
  import opened Geometry

  datatype Option<+T> = None | Some(value: T)

  /** The Python exceptions the engine can raise. */
  datatype Error =
    | IndexOutOfRange   // `non_pivots[0]` on an empty list
    | UnpackMismatch    // `new_pivot, angle = <a bare point>` in windmill.py

  datatype Result<+T> = Success(value: T) | Failure(error: Error)

  /** `filter(lambda p: not np.all(p == pivot), point_set)`, in order. */
  function NonPivots(points: seq<Vec2>, pivot: Vec2): (r: seq<Vec2>)
    ensures |r| <= |points|
    ensures forall p :: p in r <==> p in points && p != pivot
  {
    if points == [] then []
    else (if points[0] == pivot then [] else [points[0]]) + NonPivots(points[1..], pivot)
  }

  /** The filter keeps the order of the point set: filtering a concatenation
      concatenates the filtered parts. */
  lemma {:induction false} NonPivotsAppend(a: seq<Vec2>, b: seq<Vec2>, pivot: Vec2)
    ensures NonPivots(a + b, pivot) == NonPivots(a, pivot) + NonPivots(b, pivot)
  {
    if a == [] {
      assert a + b == b;
    } else {
      assert (a + b)[0] == a[0];
      assert (a + b)[1..] == a[1..] + b;
      NonPivotsAppend(a[1..], b, pivot);
    }
  }

  /** A point set that does not contain the pivot is kept whole. */
  lemma {:induction false} NonPivotsWithoutPivot(points: seq<Vec2>, pivot: Vec2)
    requires pivot !in points
    ensures NonPivots(points, pivot) == points
  {
    if points != [] {
      assert pivot !in points[1..];
      NonPivotsWithoutPivot(points[1..], pivot);
    }
  }

  /** The sweep of one point: `-(angle_of_vector(point - pivot) - curr_angle) % PI`,
      the clockwise turn after which the line through the pivot meets it.
      `angleOf` stands for manim's angle_of_vector (an atan2). */
  function SweepAngle(angleOf: Vec2 -> real, pivot: Vec2, currAngle: real, p: Vec2): (r: real)
    ensures 0.0 <= r < PI
  {
    ModPi(-(angleOf(Sub(p, pivot)) - currAngle))
  }

  /** Whole turns of the line do not change a sweep, so it does not matter
      that manim reports the line's angle normalised to (-PI, PI]. */
  lemma SweepIgnoresTurns(angleOf: Vec2 -> real, pivot: Vec2, currAngle: real, p: Vec2, k: int)
    ensures SweepAngle(angleOf, pivot, currAngle + (k as real) * TAU, p)
         == SweepAngle(angleOf, pivot, currAngle, p)
  {
    var x := -(angleOf(Sub(p, pivot)) - currAngle);
    assert -(angleOf(Sub(p, pivot)) - (currAngle + (k as real) * TAU)) == x + ((2 * k) as real) * PI;
    ModPiPeriodic(x, 2 * k);
  }

  /** atan2 on opposite vectors: the two angles differ by a half turn. */
  predicate Antipodal(angleOf: Vec2 -> real, v: Vec2)
  {
    angleOf(Neg(v)) == angleOf(v) + PI || angleOf(Neg(v)) == angleOf(v) - PI
  }

  /** After the line turns by the sweep of `q` about `p`, it passes through
      both points: seen from `q`, the former pivot `p` has sweep zero. */
  lemma FormerPivotOnLine(angleOf: Vec2 -> real, p: Vec2, q: Vec2, currAngle: real)
    requires Antipodal(angleOf, Sub(q, p))
    ensures SweepAngle(angleOf, q, currAngle - SweepAngle(angleOf, p, currAngle, q), p) == 0.0
  {
    var a := angleOf(Sub(q, p));
    var y := -(a - currAngle);
    var f := (y / PI).Floor;
    assert SweepAngle(angleOf, p, currAngle, q) == y - PI * (f as real);
    assert Sub(p, q) == Neg(Sub(q, p));
    var b := angleOf(Sub(p, q));
    var z := -(b - (currAngle - (y - PI * (f as real))));
    if b == a + PI {
      assert z == ((f - 1) as real) * PI;
      ModPiUnique(z, f - 1, 0.0);
    } else {
      assert z == ((f + 1) as real) * PI;
      ModPiUnique(z, f + 1, 0.0);
    }
  }

  /** The array `angles`, one sweep per candidate, each in [0, PI). */
  function Sweeps(angleOf: Vec2 -> real, pivot: Vec2, currAngle: real, points: seq<Vec2>): (r: seq<real>)
    ensures |r| == |points|
    ensures forall i :: 0 <= i < |r| ==> 0.0 <= r[i] < PI
  {
    seq(|points|, i requires 0 <= i < |points| => SweepAngle(angleOf, pivot, currAngle, points[i]))
  }

  /** `np.all(angles < 1e-6)`: no sweep reaches the threshold; true of the
      empty array. */
  function AllTiny(sweeps: seq<real>): (b: bool)
    ensures sweeps == [] ==> b
    ensures b <==> forall x :: x in sweeps ==> x < TINY
  {
    assert (forall x :: x in sweeps ==> x < TINY) ==> forall i :: 0 <= i < |sweeps| ==> sweeps[i] in sweeps;
    forall i :: 0 <= i < |sweeps| ==> sweeps[i] < TINY
  }

  /** An entry of `angles` after `angles[tiny_indices] = np.inf`. */
  datatype Ext = Finite(v: real) | Infinity

  /** The strict order of floats extended with infinity. */
  predicate Below(a: Ext, b: Ext)
  {
    a.Finite? && (b.Infinity? || a.v < b.v)
  }

  /** `angles[tiny_indices] = np.inf`: tiny sweeps become infinity, the
      others are kept; every entry is infinite exactly when all sweeps are
      tiny. */
  function Mask(sweeps: seq<real>): (r: seq<Ext>)
    ensures |r| == |sweeps|
    ensures forall i :: 0 <= i < |r| ==> (r[i].Infinity? <==> sweeps[i] < TINY)
    ensures forall i :: 0 <= i < |r| && r[i].Finite? ==> r[i].v == sweeps[i]
    ensures (forall i :: 0 <= i < |r| ==> r[i].Infinity?) <==> AllTiny(sweeps)
  {
    seq(|sweeps|, i requires 0 <= i < |sweeps| => if sweeps[i] < TINY then Infinity else Finite(sweeps[i]))
  }

  /** `np.argmin`: the index of the first minimum, found by a left-to-right
      scan that moves only on a strictly smaller entry. */
  function ArgMin(s: seq<Ext>): (k: nat)
    requires |s| > 0
    ensures k < |s|
    ensures forall j :: 0 <= j < |s| ==> !Below(s[j], s[k])
    ensures forall j :: 0 <= j < k ==> Below(s[k], s[j])
  {
    if |s| == 1 then 0
    else
      var k := ArgMin(s[..|s| - 1]);
      if Below(s[|s| - 1], s[k]) then |s| - 1 else k
  }

  /** Index k holds the smallest sweep that is not tiny, and no earlier index
      holds a sweep as small (ties go to the earliest candidate). */
  predicate IsFirstEligibleMin(sweeps: seq<real>, k: int)
  {
    && 0 <= k < |sweeps|
    && TINY <= sweeps[k]
    && (forall j :: 0 <= j < |sweeps| && TINY <= sweeps[j] ==> sweeps[k] <= sweeps[j])
    && (forall j :: 0 <= j < k && TINY <= sweeps[j] ==> sweeps[k] < sweeps[j])
  }

  /** Masking tiny sweeps to infinity and taking the first minimum selects the
      first smallest sweep that is not tiny. */
  lemma MaskedArgMinIsFirstEligibleMin(sweeps: seq<real>)
    requires !AllTiny(sweeps)
    ensures IsFirstEligibleMin(sweeps, ArgMin(Mask(sweeps)))
  {
    var m := Mask(sweeps);
    var i :| 0 <= i < |sweeps| && TINY <= sweeps[i];
    var k := ArgMin(m);
    assert m[i] == Finite(sweeps[i]);
    assert !Below(m[i], m[k]);
    assert m[k].Finite?;
    forall j | 0 <= j < |sweeps| && TINY <= sweeps[j]
      ensures sweeps[k] <= sweeps[j]
    {
      assert m[j] == Finite(sweeps[j]) && !Below(m[j], m[k]);
    }
    forall j | 0 <= j < k && TINY <= sweeps[j]
      ensures sweeps[k] < sweeps[j]
    {
      assert m[j] == Finite(sweeps[j]) && Below(m[k], m[j]);
    }
  }

  /** At most one index is the first eligible minimum. */
  lemma FirstEligibleMinUnique(sweeps: seq<real>, k1: int, k2: int)
    requires IsFirstEligibleMin(sweeps, k1) && IsFirstEligibleMin(sweeps, k2)
    ensures k1 == k2
  {
  }

  /** The next pivot and the clockwise turn that reaches it. */
  datatype Choice = Choice(point: Vec2, angle: real)

  /** modelo.py's next_pivot_and_angle, on the windmill's point set, pivot
      and current angle. */
  function NextPivotAndAngle(points: seq<Vec2>, pivot: Vec2, currAngle: real, angleOf: Vec2 -> real)
    : (r: Result<Choice>)
    ensures r.Failure? <==> NonPivots(points, pivot) == []
    ensures r.Failure? ==> r.error == IndexOutOfRange
    ensures r.Success? ==> r.value.point in points && r.value.point != pivot
    ensures r.Success? ==> TINY <= r.value.angle <= PI
  {
    var cands := NonPivots(points, pivot);
    var sweeps := Sweeps(angleOf, pivot, currAngle, cands);
    if AllTiny(sweeps) then
      if cands == [] then Failure(IndexOutOfRange) else Success(Choice(cands[0], PI))
    else
      var k := ArgMin(Mask(sweeps));
      MaskedArgMinIsFirstEligibleMin(sweeps);
      Success(Choice(cands[k], sweeps[k]))
  }

  /** The two cases of the selection: when every candidate is already on
      the line, the first candidate with a half turn; otherwise the first
      candidate whose sweep is the smallest one that is not tiny. */
  lemma NextPivotAndAngleCases(points: seq<Vec2>, pivot: Vec2, currAngle: real, angleOf: Vec2 -> real)
    ensures var cands := NonPivots(points, pivot);
            var sweeps := Sweeps(angleOf, pivot, currAngle, cands);
            var r := NextPivotAndAngle(points, pivot, currAngle, angleOf);
            && (cands != [] && AllTiny(sweeps) ==> r == Success(Choice(cands[0], PI)))
            && (!AllTiny(sweeps) ==>
                  exists k :: IsFirstEligibleMin(sweeps, k) && r == Success(Choice(cands[k], sweeps[k])))
  {
    var cands := NonPivots(points, pivot);
    var sweeps := Sweeps(angleOf, pivot, currAngle, cands);
    if !AllTiny(sweeps) {
      var k := ArgMin(Mask(sweeps));
      MaskedArgMinIsFirstEligibleMin(sweeps);
      assert IsFirstEligibleMin(sweeps, k);
    }
  }

  /** In the normal case the chosen turn is at least the threshold and no
      larger than any sweep that is not tiny, and a point already on the line
      is never chosen. */
  lemma ChosenTurnIsSmallestEligible(points: seq<Vec2>, pivot: Vec2, currAngle: real, angleOf: Vec2 -> real)
    requires !AllTiny(Sweeps(angleOf, pivot, currAngle, NonPivots(points, pivot)))
    ensures var cands := NonPivots(points, pivot);
            var sweeps := Sweeps(angleOf, pivot, currAngle, cands);
            var r := NextPivotAndAngle(points, pivot, currAngle, angleOf);
            && r.Success?
            && TINY <= r.value.angle
            && (forall j :: 0 <= j < |sweeps| && TINY <= sweeps[j] ==> r.value.angle <= sweeps[j])
            && (forall j :: 0 <= j < |cands| && cands[j] == r.value.point ==> TINY <= sweeps[j])
  {
    var cands := NonPivots(points, pivot);
    var sweeps := Sweeps(angleOf, pivot, currAngle, cands);
    var r := NextPivotAndAngle(points, pivot, currAngle, angleOf);
    NextPivotAndAngleCases(points, pivot, currAngle, angleOf);
    var k :| IsFirstEligibleMin(sweeps, k) && r == Success(Choice(cands[k], sweeps[k]));
    forall j | 0 <= j < |cands| && cands[j] == r.value.point
      ensures TINY <= sweeps[j]
    {
      assert sweeps[j] == SweepAngle(angleOf, pivot, currAngle, cands[j]);
      assert sweeps[k] == SweepAngle(angleOf, pivot, currAngle, cands[k]);
    }
  }
}
