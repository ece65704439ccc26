/** The piecewise weight ramp of a deposit plan. */
module WeightRamp {
  import opened Options

  datatype Point = Point(t: real, w: real)

  const MIN_SPAN := 0.000001

  function Max(a: real, b: real): real { if a < b then b else a }

  // ---- the breakpoints in time order ----------------------------------------------------------

  ghost predicate InOrder(ps: seq<Point>) {
    forall i, j :: 0 <= i < j < |ps| ==> ps[i].t <= ps[j].t
  }

  /** Puts `p` behind the points that are not later. */
  function Insert(ps: seq<Point>, p: Point): (r: seq<Point>)
    ensures |r| == |ps| + 1 && multiset(r) == multiset(ps) + multiset{p}
  {
    if ps == [] then [p]
    else if p.t < ps[|ps| - 1].t then
      assert ps == ps[..|ps| - 1] + [ps[|ps| - 1]];
      Insert(ps[..|ps| - 1], p) + [ps[|ps| - 1]]
    else ps + [p]
  }

  /** The stable sort by time. */
  function SortByTime(ps: seq<Point>): (r: seq<Point>)
    ensures |r| == |ps| && multiset(r) == multiset(ps)
  {
    if ps == [] then []
    else
      assert ps == ps[..|ps| - 1] + [ps[|ps| - 1]];
      Insert(SortByTime(ps[..|ps| - 1]), ps[|ps| - 1])
  }

  lemma {:induction false} InsertInOrder(ps: seq<Point>, p: Point)
    requires InOrder(ps)
    ensures InOrder(Insert(ps, p))
  {
    if ps != [] && p.t < ps[|ps| - 1].t {
      var front := ps[..|ps| - 1];
      var last := ps[|ps| - 1];
      InsertInOrder(front, p);
      var r := Insert(front, p);
      forall i | 0 <= i < |r| ensures r[i].t <= last.t {
        assert r[i] in multiset(r);
        assert r[i] in multiset(front) || r[i] == p;
        if r[i] != p {
          var j :| 0 <= j < |front| && front[j] == r[i];
        }
      }
    }
  }

  lemma {:induction false} SortInOrder(ps: seq<Point>)
    ensures InOrder(SortByTime(ps))
  {
    if ps != [] {
      SortInOrder(ps[..|ps| - 1]);
      InsertInOrder(SortByTime(ps[..|ps| - 1]), ps[|ps| - 1]);
    }
  }

  // ---- the ramp -------------------------------------------------------------------------------

  function MaxWeight(ps: seq<Point>): (m: real)
    requires ps != []
    ensures forall i :: 0 <= i < |ps| ==> ps[i].w <= m
    ensures exists i :: 0 <= i < |ps| && ps[i].w == m
  {
    if |ps| == 1 then ps[0].w
    else
      var m := MaxWeight(ps[1..]);
      assert forall i :: 1 <= i < |ps| ==> ps[i] == ps[1..][i - 1];
      if m < ps[0].w then ps[0].w
      else
        assert exists i :: 0 <= i < |ps| && ps[i].w == m by {
          var i :| 0 <= i < |ps[1..]| && ps[1..][i].w == m;
          assert ps[i + 1].w == m;
        }
        m
  }

  function Between(a: Point, b: Point, elapsed: real): real {
    a.w + (b.w - a.w) * ((elapsed - a.t) / Max(b.t - a.t, MIN_SPAN))
  }

  /** The first segment that contains `elapsed`, if any. */
  function Segments(ps: seq<Point>, elapsed: real): Option<real> {
    if |ps| < 2 then None
    else if ps[0].t <= elapsed <= ps[1].t then Some(Between(ps[0], ps[1], elapsed))
    else Segments(ps[1..], elapsed)
  }

  function RampOver(ps: seq<Point>, elapsed: real): real
    requires ps != []
  {
    if elapsed <= ps[0].t then ps[0].w
    else
      var inside := Segments(ps, elapsed);
      if inside.Some? then inside.value else MaxWeight(ps)
  }

  /** The reading of a plan's timeline after `elapsed` seconds. */
  function Ramp(timeline: seq<Point>, elapsed: real): real
    requires timeline != []
  {
    RampOver(SortByTime(timeline), elapsed)
  }

  /** The same ramp, computed by the loop over neighbouring breakpoints. */
  method Ramped(points: seq<Point>, elapsed: real) returns (grams: real)
    requires points != []
    ensures grams == RampOver(points, elapsed)
  {
    if elapsed <= points[0].t {
      return points[0].w;
    }
    var i := 0;
    while i + 1 < |points|
      invariant 0 <= i < |points|
      invariant Segments(points[i..], elapsed) == Segments(points, elapsed)
    {
      var a, b := points[i], points[i + 1];
      if a.t <= elapsed <= b.t {
        var span := Max(b.t - a.t, MIN_SPAN);
        return a.w + (b.w - a.w) * ((elapsed - a.t) / span);
      }
      assert points[i..][1..] == points[i + 1..];
      i := i + 1;
    }
    grams := MaxWeight(points);
  }

  // ---- where the ramp reads -------------------------------------------------------------------

  lemma Product(x: real, y: real)
    requires y >= 0.0
    ensures x >= 0.0 ==> x * y >= 0.0
    ensures y > 0.0 ==> (x * y >= 0.0 <==> x >= 0.0) && (x * y == 0.0 <==> x == 0.0)
  {
    if y > 0.0 {
      if x < 0.0 {
        assert (-x) * y > 0.0;
      } else if x > 0.0 {
        assert x * y > 0.0;
      }
    }
  }

  /** A share between 0 and 1 of the way. */
  lemma ShareOfSpan(a: Point, b: Point, elapsed: real)
    requires a.t <= elapsed <= b.t
    ensures 0.0 <= (elapsed - a.t) / Max(b.t - a.t, MIN_SPAN) <= 1.0
  {
    var span := Max(b.t - a.t, MIN_SPAN);
    var share := (elapsed - a.t) / span;
    assert share * span == elapsed - a.t;
    Product(share, span);
    Product(1.0 - share, span);
    assert (1.0 - share) * span == span - share * span;
  }

  lemma Mix(lo: real, hi: real, u: real, v: real, share: real)
    requires 0.0 <= share <= 1.0 && lo <= u <= hi && lo <= v <= hi
    ensures lo <= u + (v - u) * share <= hi
  {
    Product(1.0 - share, hi - u);
    Product(1.0 - share, u - lo);
    Product(share, hi - v);
    Product(share, v - lo);
    assert hi - (u + (v - u) * share) == (1.0 - share) * (hi - u) + share * (hi - v);
    assert u + (v - u) * share - lo == (1.0 - share) * (u - lo) + share * (v - lo);
  }

  ghost predicate Within(ps: seq<Point>, lo: real, hi: real) {
    forall i :: 0 <= i < |ps| ==> lo <= ps[i].w <= hi
  }

  lemma {:induction false} SegmentsWithin(ps: seq<Point>, elapsed: real, lo: real, hi: real)
    requires Within(ps, lo, hi)
    ensures Segments(ps, elapsed).Some? ==> lo <= Segments(ps, elapsed).value <= hi
  {
    if |ps| >= 2 {
      if ps[0].t <= elapsed <= ps[1].t {
        ShareOfSpan(ps[0], ps[1], elapsed);
        Mix(lo, hi, ps[0].w, ps[1].w, (elapsed - ps[0].t) / Max(ps[1].t - ps[0].t, MIN_SPAN));
      } else {
        SegmentsWithin(ps[1..], elapsed, lo, hi);
      }
    }
  }

  /** The reading never leaves the range of the weights, whatever their order. */
  lemma RampStaysInRange(timeline: seq<Point>, elapsed: real, lo: real, hi: real)
    requires timeline != [] && Within(timeline, lo, hi)
    ensures lo <= Ramp(timeline, elapsed) <= hi
  {
    var ps := SortByTime(timeline);
    forall i | 0 <= i < |ps| ensures lo <= ps[i].w <= hi {
      assert ps[i] in multiset(timeline);
      var j :| 0 <= j < |timeline| && timeline[j] == ps[i];
    }
    SegmentsWithin(ps, elapsed, lo, hi);
  }

  // ---- monotone weights -----------------------------------------------------------------------

  ghost predicate Rising(ps: seq<Point>) {
    forall i, j :: 0 <= i < j < |ps| ==> ps[i].w <= ps[j].w
  }

  /** A time inside the breakpoints falls into a segment. */
  lemma {:induction false} InsideHasSegment(ps: seq<Point>, elapsed: real)
    requires InOrder(ps) && ps != [] && ps[0].t <= elapsed <= ps[|ps| - 1].t
    ensures |ps| >= 2 ==> Segments(ps, elapsed).Some?
  {
    if |ps| >= 2 && elapsed > ps[1].t {
      if |ps| == 2 {
        assert false;
      } else {
        InsideHasSegment(ps[1..], elapsed);
      }
    }
  }

  /** A time behind the last breakpoint falls into none. */
  lemma {:induction false} BehindHasNone(ps: seq<Point>, elapsed: real)
    requires InOrder(ps) && ps != [] && elapsed > ps[|ps| - 1].t
    ensures Segments(ps, elapsed).None?
  {
    if |ps| >= 2 {
      assert ps[1].t <= ps[|ps| - 1].t;
      BehindHasNone(ps[1..], elapsed);
    }
  }

  lemma BetweenRises(a: Point, b: Point, x: real, y: real)
    requires a.t <= x <= y <= b.t && a.w <= b.w
    ensures Between(a, b, x) <= Between(a, b, y)
  {
    var span := Max(b.t - a.t, MIN_SPAN);
    var p, q := (x - a.t) / span, (y - a.t) / span;
    assert p * span == x - a.t && q * span == y - a.t;
    assert (q - p) * span == y - x;
    Product(q - p, span);
    Product(b.w - a.w, q - p);
  }

  /** Over rising weights the segments read in order. */
  lemma {:induction false} SegmentsRise(ps: seq<Point>, x: real, y: real)
    requires InOrder(ps) && Rising(ps) && |ps| >= 2 && ps[0].t <= x <= y <= ps[|ps| - 1].t
    ensures Segments(ps, x).Some? && Segments(ps, y).Some? && Segments(ps, x).value <= Segments(ps, y).value
  {
    InsideHasSegment(ps, x);
    InsideHasSegment(ps, y);
    if x <= ps[1].t && y <= ps[1].t {
      BetweenRises(ps[0], ps[1], x, y);
    } else if x <= ps[1].t {
      SegmentsWithin([ps[0], ps[1]], x, ps[0].w, ps[1].w);
      assert Within(ps[1..], ps[1].w, MaxWeight(ps));
      SegmentsWithin(ps[1..], y, ps[1].w, MaxWeight(ps));
    } else {
      SegmentsRise(ps[1..], x, y);
    }
  }

  /** With weights that rise in time order the reading never falls. */
  lemma RampRises(timeline: seq<Point>, x: real, y: real)
    requires timeline != [] && Rising(SortByTime(timeline)) && x <= y
    ensures Ramp(timeline, x) <= Ramp(timeline, y)
  {
    var ps := SortByTime(timeline);
    var n := |ps|;
    SortInOrder(timeline);
    var lo, hi := ps[0].w, MaxWeight(ps);
    assert Within(ps, lo, hi);
    SegmentsWithin(ps, x, lo, hi);
    SegmentsWithin(ps, y, lo, hi);
    if x > ps[0].t {
      if y <= ps[n - 1].t {
        assert n >= 2;
        SegmentsRise(ps, x, y);
      } else {
        BehindHasNone(ps, y);
      }
    }
  }

  // ---- breakpoints ----------------------------------------------------------------------------

  ghost predicate Strict(ps: seq<Point>) {
    forall i, j :: 0 <= i < j < |ps| ==> ps[i].t < ps[j].t
  }

  lemma {:induction false} SegmentEndingAt(ps: seq<Point>, i: nat)
    requires Strict(ps) && 0 < i < |ps|
    ensures Segments(ps, ps[i].t) == Some(Between(ps[i - 1], ps[i], ps[i].t))
  {
    if i > 1 {
      assert ps[1].t < ps[i].t;
      SegmentEndingAt(ps[1..], i - 1);
    }
  }

  lemma ReachesEndIff(a: Point, b: Point)
    requires a.t < b.t
    ensures Between(a, b, b.t) == b.w <==> b.t - a.t >= MIN_SPAN || b.w == a.w
  {
    var span := Max(b.t - a.t, MIN_SPAN);
    var share := (b.t - a.t) / span;
    var short := 1.0 - share;
    assert short * span == span - (b.t - a.t);
    Product(short, span);
    assert b.w - Between(a, b, b.t) == (b.w - a.w) * short;
    if short > 0.0 {
      Product(b.w - a.w, short);
    } else {
      assert short == 0.0;
    }
  }

  lemma OverPassesThroughIff(ps: seq<Point>, i: nat)
    requires Strict(ps) && i < |ps|
    ensures (RampOver(ps, ps[i].t) == ps[i].w)
       <==> (i == 0 || ps[i].t - ps[i - 1].t >= MIN_SPAN || ps[i].w == ps[i - 1].w)
  {
    if i > 0 {
      assert ps[0].t < ps[i].t;
      SegmentEndingAt(ps, i);
      ReachesEndIff(ps[i - 1], ps[i]);
    }
  }

  /** The ramp passes through a breakpoint exactly when it is the first one, or its segment is at
      least a microsecond long, or the weight does not change on it. */
  lemma PassesThroughIff(timeline: seq<Point>, ps: seq<Point>, i: nat)
    requires timeline != [] && ps == SortByTime(timeline) && Strict(ps) && i < |ps|
    ensures (Ramp(timeline, ps[i].t) == ps[i].w)
       <==> (i == 0 || ps[i].t - ps[i - 1].t >= MIN_SPAN || ps[i].w == ps[i - 1].w)
  {
    OverPassesThroughIff(ps, i);
  }

  // ---- the shape between and outside the breakpoints ------------------------------------------

  /** The points of one time, in the order they are listed. */
  function AtTime(ps: seq<Point>, t: real): seq<Point> {
    if ps == [] then []
    else AtTime(ps[..|ps| - 1], t) + (if ps[|ps| - 1].t == t then [ps[|ps| - 1]] else [])
  }

  function OneAt(p: Point, t: real): seq<Point> {
    if p.t == t then [p] else []
  }

  lemma SwapOne(x: seq<Point>, a: seq<Point>, b: seq<Point>)
    requires a == [] || b == []
    ensures x + a + b == x + b + a
  {
  }

  lemma AtTimeSnoc(ps: seq<Point>, p: Point, t: real)
    ensures AtTime(ps + [p], t) == AtTime(ps, t) + OneAt(p, t)
  {
    assert (ps + [p])[..|ps|] == ps;
  }

  lemma {:induction false} InsertStable(ps: seq<Point>, p: Point, t: real)
    requires InOrder(ps)
    ensures AtTime(Insert(ps, p), t) == AtTime(ps, t) + OneAt(p, t)
    decreases |ps|
  {
    hide AtTime;
    AtTimeSnoc(ps, p, t);
    if ps != [] && p.t < ps[|ps| - 1].t {
      var front, last := ps[..|ps| - 1], ps[|ps| - 1];
      InsertStable(front, p, t);
      AtTimeSnoc(front, last, t);
      AtTimeSnoc(Insert(front, p), last, t);
      assert ps == front + [last];
      SwapOne(AtTime(front, t), OneAt(p, t), OneAt(last, t));
    } else {
      assert Insert(ps, p) == ps + [p];
    }
  }

  /** Points of the same time stay in the order they are listed. */
  lemma {:induction false} SortStable(ps: seq<Point>, t: real)
    ensures AtTime(SortByTime(ps), t) == AtTime(ps, t)
    decreases |ps|
  {
    if ps != [] {
      SortStable(ps[..|ps| - 1], t);
      SortInOrder(ps[..|ps| - 1]);
      InsertStable(SortByTime(ps[..|ps| - 1]), ps[|ps| - 1], t);
    }
  }

  lemma {:induction false} SegmentAt(ps: seq<Point>, i: nat, elapsed: real)
    requires InOrder(ps) && i + 1 < |ps| && ps[i].t < elapsed <= ps[i + 1].t
    ensures Segments(ps, elapsed) == Some(Between(ps[i], ps[i + 1], elapsed))
    decreases i
  {
    if i > 0 {
      assert ps[1].t <= ps[i].t;
      SegmentAt(ps[1..], i - 1, elapsed);
    }
  }

  /** `grams` is on the straight line through `a` and `b` at time `elapsed`. */
  predicate OnLine(a: Point, b: Point, elapsed: real, grams: real) {
    (grams - a.w) * (b.t - a.t) == (b.w - a.w) * (elapsed - a.t)
  }

  lemma BetweenIsOnLine(a: Point, b: Point, elapsed: real)
    requires b.t - a.t >= MIN_SPAN
    ensures OnLine(a, b, elapsed, Between(a, b, elapsed))
  {
    var span := b.t - a.t;
    var share := (elapsed - a.t) / span;
    assert share * span == elapsed - a.t;
    assert Between(a, b, elapsed) - a.w == (b.w - a.w) * share;
    Regroup(b.w - a.w, share, span);
  }

  lemma Regroup(x: real, y: real, z: real)
    ensures x * y * z == x * (y * z)
  {
  }

  /** The ramp is the first weight up to the first breakpoint, the straight line on every segment
      of at least a microsecond, and the greatest weight behind the last breakpoint. */
  lemma RampIsPiecewiseLinear(timeline: seq<Point>, elapsed: real)
    requires timeline != []
    ensures var ps := SortByTime(timeline);
      var grams := Ramp(timeline, elapsed);
      && (elapsed <= ps[0].t ==> grams == ps[0].w)
      && (forall i :: 0 <= i < |ps| - 1 && ps[i].t < elapsed <= ps[i + 1].t && ps[i + 1].t - ps[i].t >= 0.000001 ==>
            OnLine(ps[i], ps[i + 1], elapsed, grams))
      && (elapsed > ps[|ps| - 1].t ==>
            (forall i :: 0 <= i < |ps| ==> ps[i].w <= grams) && (exists i :: 0 <= i < |ps| && ps[i].w == grams))
  {
    hide OnLine, Between, SortByTime;
    var ps := SortByTime(timeline);
    SortInOrder(timeline);
    forall i | 0 <= i < |ps| - 1 && ps[i].t < elapsed <= ps[i + 1].t && ps[i + 1].t - ps[i].t >= 0.000001
      ensures OnLine(ps[i], ps[i + 1], elapsed, Ramp(timeline, elapsed))
    {
      assert ps[0].t <= ps[i].t;
      SegmentAt(ps, i, elapsed);
      BetweenIsOnLine(ps[i], ps[i + 1], elapsed);
    }
    if elapsed > ps[|ps| - 1].t {
      BehindHasNone(ps, elapsed);
      assert ps[0].t <= ps[|ps| - 1].t;
    }
  }
}
