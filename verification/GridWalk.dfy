/** Which cells a straight segment touches, over the reals: the row span of each column, and the
    geometry it has to agree with. Cell (c, r) covers [c, c+1] x [r, r+1]. */
module GridWalk {

  const EPS: real := 0.000000001

  datatype Segment = Segment(x0: real, y0: real, x1: real, y1: real)

  function Lo(v: real): int { (v - EPS).Floor }
  function Hi(v: real): int { (v + EPS).Floor }
  function Min(a: real, b: real): real { if a <= b then a else b }
  function Max(a: real, b: real): real { if a <= b then b else a }

  /** Left end first, as the walk does. */
  function Ordered(s: Segment): Segment {
    if s.x1 < s.x0 then Segment(s.x1, s.y1, s.x0, s.y0) else s
  }

  predicate Vertical(s: Segment) { s.x1 - s.x0 <= EPS }

  /** The rows the segment meets inside column c, as heights; the ends are used exactly. */
  function SpanReal(c: int, s: Segment, slope: real): (real, real) {
    var xa := if s.x0 > c as real then s.x0 else c as real;
    var xb := if s.x1 < (c + 1) as real then s.x1 else (c + 1) as real;
    var ya := if xa == s.x0 then s.y0 else if xa == s.x1 then s.y1 else s.y0 + slope * (xa - s.x0);
    var yb := if xb == s.x1 then s.y1 else if xb == s.x0 then s.y0 else s.y0 + slope * (xb - s.x0);
    var lo, hi := Min(ya, yb), Max(ya, yb);
    (Max(lo, Min(s.y0, s.y1)), Min(hi, Max(s.y0, s.y1)))
  }

  function Span(c: int, s: Segment, slope: real): (int, int) {
    var (lo, hi) := SpanReal(c, s, slope);
    (Lo(lo), Hi(hi))
  }

  function Slope(s: Segment): real
    requires s.x0 < s.x1
  {
    (s.y1 - s.y0) / (s.x1 - s.x0)
  }

  /** Cell (c, r) is one the walk yields. */
  predicate YieldedOrdered(s: Segment, c: int, r: int)
    requires s.x0 <= s.x1
  {
    && Lo(s.x0) <= c <= Hi(s.x1)
    && if Vertical(s) then Lo(Min(s.y0, s.y1)) <= r <= Hi(Max(s.y0, s.y1))
       else Span(c, s, Slope(s)).0 <= r <= Span(c, s, Slope(s)).1
  }

  predicate Yielded(s: Segment, c: int, r: int) {
    YieldedOrdered(Ordered(s), c, r)
  }

  // ---- the two walks ---------------------------------------------------------------------------------

  method CellsTouched(seg: Segment) returns (cells: seq<(int, int)>)
    ensures forall c, r :: (c, r) in cells <==> Yielded(seg, c, r)
    ensures InOrder(cells)
    // each closed cell that meets the segment, and none that is not within 2 EPS of it
    ensures forall c, r :: Meets(seg, c, r, 0.0) ==> (c, r) in cells
    ensures forall c, r :: (c, r) in cells ==> Meets(seg, c, r, 0.000000002)
  {
    var s := Ordered(seg);
    cells := [];
    var vertical := Vertical(s);
    var slope := if vertical then 0.0 else (s.y1 - s.y0) / (s.x1 - s.x0);
    var c := Lo(s.x0);
    while c <= Hi(s.x1)
      invariant Lo(s.x0) <= c
      invariant forall k, q :: (k, q) in cells <==> k < c && Yielded(seg, k, q)
      invariant InOrder(cells)
    {
      var r0, r1 := if vertical then Lo(Min(s.y0, s.y1)) else Span(c, s, slope).0,
                    if vertical then Hi(Max(s.y0, s.y1)) else Span(c, s, slope).1;
      var r := r0;
      while r <= r1
        invariant r0 <= r
        invariant forall k, q :: (k, q) in cells <==>
                  (k < c && Yielded(seg, k, q)) || (k == c && r0 <= q < r && q <= r1)
        invariant InOrder(cells)
      {
        forall i | 0 <= i < |cells| ensures Follows(cells[i], (c, r)) {
          assert (cells[i].0, cells[i].1) in cells;
        }
        cells := cells + [(c, r)];
        r := r + 1;
      }
      c := c + 1;
    }
    TouchedExactly(seg);
  }

  /** Column by column from the left, each from the bottom. */
  predicate Follows(p: (int, int), q: (int, int)) { p.0 < q.0 || (p.0 == q.0 && p.1 < q.1) }

  ghost predicate InOrder(cells: seq<(int, int)>) {
    forall i, j :: 0 <= i < j < |cells| ==> Follows(cells[i], cells[j])
  }

  ghost predicate Hit(mask: seq<int>, nx: nat, ny: nat, seg: Segment, c: int, r: int)
    requires |mask| == nx * ny
  {
    0 <= c < nx && 0 <= r < ny && Yielded(seg, c, r)
    && 0 <= r * nx + c < |mask| && mask[r * nx + c] == 1
  }

  lemma CellIndex(nx: nat, ny: nat, c: int, r: int)
    requires 0 <= c < nx && 0 <= r < ny
    ensures 0 <= r * nx + c < nx * ny
  {
    assert r * nx + c < (r + 1) * nx;
    assert (r + 1) * nx <= ny * nx;
  }

  /** True exactly when some yielded cell inside the grid is set. */
  method AnySet(mask: seq<int>, nx: nat, ny: nat, seg: Segment) returns (hit: bool)
    requires |mask| == nx * ny
    ensures hit <==> exists c, r :: Hit(mask, nx, ny, seg, c, r)
    // a set cell that the segment meets is found, and what is found is a set cell within 2 EPS of it
    ensures forall c, r :: SetMet(mask, nx, ny, seg, c, r, 0.0) ==> hit
    ensures hit ==> exists c, r :: SetMet(mask, nx, ny, seg, c, r, 0.000000002)
  {
    HitsExactly(mask, nx, ny, seg);
    var s := Ordered(seg);
    var vertical := Vertical(s);
    var slope := if vertical then 0.0 else (s.y1 - s.y0) / (s.x1 - s.x0);
    var c := if Lo(s.x0) > 0 then Lo(s.x0) else 0;
    var last := if Hi(s.x1) < nx - 1 then Hi(s.x1) else nx - 1;
    while c <= last
      invariant 0 <= c && Lo(s.x0) <= c
      invariant forall k, q :: k < c ==> !Hit(mask, nx, ny, seg, k, q)
    {
      var r0, r1 := if vertical then Lo(Min(s.y0, s.y1)) else Span(c, s, slope).0,
                    if vertical then Hi(Max(s.y0, s.y1)) else Span(c, s, slope).1;
      if r0 < 0 { r0 := 0; }
      if r1 > ny - 1 { r1 := ny - 1; }
      var r := r0;
      while r <= r1
        invariant r0 <= r
        invariant forall q :: r0 <= q < r && q <= r1 ==> !Hit(mask, nx, ny, seg, c, q)
      {
        CellIndex(nx, ny, c, r);
        if mask[r * nx + c] == 1 {
          assert Hit(mask, nx, ny, seg, c, r);
          return true;
        }
        r := r + 1;
      }
      c := c + 1;
    }
    hit := false;
  }

  /** A set cell of the grid that the segment meets, or comes that near to. */
  ghost predicate SetMet(mask: seq<int>, nx: nat, ny: nat, seg: Segment, c: int, r: int, slack: real) {
    && 0 <= c < nx && 0 <= r < ny && 0 <= r * nx + c < |mask| && mask[r * nx + c] == 1
    && Meets(seg, c, r, slack)
  }

  lemma HitsExactly(mask: seq<int>, nx: nat, ny: nat, seg: Segment)
    requires |mask| == nx * ny
    ensures forall c, r :: SetMet(mask, nx, ny, seg, c, r, 0.0) ==> Hit(mask, nx, ny, seg, c, r)
    ensures forall c, r :: Hit(mask, nx, ny, seg, c, r) ==> SetMet(mask, nx, ny, seg, c, r, 0.000000002)
  {
    TouchedExactly(seg);
  }

  // ---- the geometry ----------------------------------------------------------------------------------

  predicate On(s: Segment, t: real, x: real, y: real) {
    0.0 <= t <= 1.0 && x == s.x0 + t * (s.x1 - s.x0) && y == s.y0 + t * (s.y1 - s.y0)
  }

  ghost predicate OnSegment(s: Segment, x: real, y: real) {
    exists t :: On(s, t, x, y)
  }

  /** Some point of the segment is in the closed cell, or at most `slack` outside it in each axis. */
  ghost predicate Meets(s: Segment, c: int, r: int, slack: real) {
    exists x, y :: OnSegment(s, x, y) && Within(c, r, x, y, slack)
  }

  /** The point is in the closed cell, or at most `slack` outside it in each axis. */
  predicate Within(c: int, r: int, x: real, y: real, slack: real) {
    c as real - slack <= x <= (c + 1) as real + slack && r as real - slack <= y <= (r + 1) as real + slack
  }

  function HeightAt(s: Segment, k: real, u: real): real { s.y0 + k * (u - s.x0) }

  function Line(s: Segment, u: real): real
    requires s.x0 < s.x1
  {
    HeightAt(s, Slope(s), u)
  }

  lemma SlopeTimes(s: Segment)
    requires s.x0 < s.x1
    ensures Slope(s) * (s.x1 - s.x0) == s.y1 - s.y0
    ensures Line(s, s.x0) == s.y0 && Line(s, s.x1) == s.y1
  {
  }

  lemma Product(k: real, d: real)
    requires d >= 0.0
    ensures k >= 0.0 ==> k * d >= 0.0
    ensures k <= 0.0 ==> k * d <= 0.0
  {
  }

  lemma Distribute(k: real, u: real, d: real)
    ensures k * (u + d) == k * u + k * d
  {
  }

  lemma Scale(k: real, u: real, v: real)
    requires u <= v
    ensures k >= 0.0 ==> k * u <= k * v
    ensures k <= 0.0 ==> k * v <= k * u
  {
    var d := v - u;
    Product(k, d);
    Distribute(k, u, d);
    assert u + d == v;
  }

  lemma Positive(k: real, d: real)
    requires k > 0.0 && d > 0.0
    ensures k * d > 0.0
  {
  }

  lemma Cancel(k: real, u: real, v: real)
    requires k > 0.0 && k * u <= k * v
    ensures u <= v
  {
    assert k * u - k * v == k * (u - v);
    if v < u {
      Positive(k, u - v);
    }
  }

  lemma Assoc(k: real, t: real, d: real)
    ensures k * (t * d) == t * (k * d)
  {
  }

  /** How far along [0, d], or [d, 0], a value is. */
  lemma Fraction(u: real, d: real) returns (t: real)
    requires (d > 0.0 && 0.0 <= u <= d) || (d < 0.0 && d <= u <= 0.0)
    ensures 0.0 <= t <= 1.0 && t * d == u
  {
    t := u / d;
    var k := if d > 0.0 then d else -d;
    assert k * t == if d > 0.0 then u else -u;
    Cancel(k, 0.0, t);
    Cancel(k, t, 1.0);
  }

  lemma HeightMonotone(s: Segment, k: real, a: real, u: real)
    requires a <= u
    ensures k >= 0.0 ==> HeightAt(s, k, a) <= HeightAt(s, k, u)
    ensures k <= 0.0 ==> HeightAt(s, k, u) <= HeightAt(s, k, a)
  {
    Scale(k, a - s.x0, u - s.x0);
  }

  /** On a stretch of the line every height is between those of the stretch's ends. */
  lemma LineBetween(s: Segment, a: real, u: real, b: real)
    requires s.x0 < s.x1 && a <= u <= b
    ensures Min(Line(s, a), Line(s, b)) <= Line(s, u) <= Max(Line(s, a), Line(s, b))
  {
    HeightMonotone(s, Slope(s), a, u);
    HeightMonotone(s, Slope(s), u, b);
  }

  lemma OnLine(s: Segment, t: real, x: real, y: real)
    requires s.x0 < s.x1 && On(s, t, x, y)
    ensures s.x0 <= x <= s.x1 && y == Line(s, x)
  {
    var dx := s.x1 - s.x0;
    SlopeTimes(s);
    Scale(dx, 0.0, t);
    Scale(dx, t, 1.0);
    assert dx * t == t * dx;
    assert x - s.x0 == t * dx;
    Assoc(Slope(s), t, dx);
  }

  /** And back: every point of the line between the ends is on the segment. */
  lemma LineOn(s: Segment, x: real)
    requires s.x0 < s.x1 && s.x0 <= x <= s.x1
    ensures OnSegment(s, x, Line(s, x))
  {
    var dx := s.x1 - s.x0;
    var t := Fraction(x - s.x0, dx);
    SlopeTimes(s);
    Assoc(Slope(s), t, dx);
    assert On(s, t, x, Line(s, x));
  }

  /** Using the ends' heights exactly changes nothing over the reals. */
  lemma SpanIsHeights(c: int, s: Segment, k: real)
    requires s.x0 < s.x1 && HeightAt(s, k, s.x0) == s.y0 && HeightAt(s, k, s.x1) == s.y1
    ensures var xa, xb := Max(s.x0, c as real), Min(s.x1, (c + 1) as real);
      var lo, hi := Min(HeightAt(s, k, xa), HeightAt(s, k, xb)), Max(HeightAt(s, k, xa), HeightAt(s, k, xb));
      SpanReal(c, s, k) == (Max(lo, Min(s.y0, s.y1)), Min(hi, Max(s.y0, s.y1)))
  {
  }

  lemma SpanIsLine(c: int, s: Segment)
    requires s.x0 < s.x1
    ensures var xa, xb := Max(s.x0, c as real), Min(s.x1, (c + 1) as real);
      var lo, hi := Min(Line(s, xa), Line(s, xb)), Max(Line(s, xa), Line(s, xb));
      SpanReal(c, s, Slope(s)) == (Max(lo, Min(s.y0, s.y1)), Min(hi, Max(s.y0, s.y1)))
  {
    SlopeTimes(s);
    SpanIsHeights(c, s, Slope(s));
  }

  /** SUPERCOVER: every closed cell that meets the segment is yielded. */
  lemma Supercover(seg: Segment, c: int, r: int)
    requires Meets(seg, c, r, 0.0)
    ensures Yielded(seg, c, r)
  {
    var x, y :| OnSegment(seg, x, y) && Within(c, r, x, y, 0.0);
    NearRow(seg, c, r, x, y);
  }

  lemma TouchedExactly(seg: Segment)
    ensures forall c, r :: Meets(seg, c, r, 0.0) ==> Yielded(seg, c, r)
    ensures forall c, r :: Yielded(seg, c, r) ==> Meets(seg, c, r, 0.000000002)
  {
    forall c, r | Meets(seg, c, r, 0.0) ensures Yielded(seg, c, r) {
      Supercover(seg, c, r);
    }
    forall c, r | Yielded(seg, c, r) ensures Meets(seg, c, r, 0.000000002) {
      NothingFar(seg, c, r);
    }
  }

  /** A height within EPS of a grid line counts as on it, on both sides. */
  lemma NearRow(seg: Segment, c: int, r: int, x: real, y: real)
    requires OnSegment(seg, x, y) && c as real <= x <= (c + 1) as real
    requires r as real - 0.000000001 <= y < (r + 1) as real + 0.000000001
    ensures Yielded(seg, c, r)
  {
    var s := Ordered(seg);
    OrderedSamePoints(seg, x, y);
    var t :| On(s, t, x, y);
    EndsBound(s, t, x, y);
    if !Vertical(s) {
      OnLine(s, t, x, y);
      SpanIsLine(c, s);
      var xa, xb := Max(s.x0, c as real), Min(s.x1, (c + 1) as real);
      LineBetween(s, xa, x, xb);
    }
  }

  /** A segment no wider than EPS is one column of cells, or two beside a grid line, over its whole height. */
  lemma NarrowIsVertical(seg: Segment, c: int, r: int)
    requires -0.000000001 <= seg.x1 - seg.x0 <= 0.000000001
    ensures Yielded(seg, c, r) <==>
            && c as real - 0.000000001 <= Max(seg.x0, seg.x1) && Min(seg.x0, seg.x1) < (c + 1) as real + 0.000000001
            && r as real - 0.000000001 <= Max(seg.y0, seg.y1) && Min(seg.y0, seg.y1) < (r + 1) as real + 0.000000001
  {
  }

  /** A point of the segment is between its ends, in both axes. */
  lemma EndsBound(s: Segment, t: real, x: real, y: real)
    requires On(s, t, x, y)
    ensures Min(s.x0, s.x1) <= x <= Max(s.x0, s.x1) && Min(s.y0, s.y1) <= y <= Max(s.y0, s.y1)
  {
    Between(s.x0, s.x1, t);
    Between(s.y0, s.y1, t);
  }

  lemma Between(a: real, b: real, t: real)
    requires 0.0 <= t <= 1.0
    ensures Min(a, b) <= a + t * (b - a) <= Max(a, b)
  {
    var d := b - a;
    var p, q := d * t, d * (1.0 - t);
    Product(d, t);
    Product(d, 1.0 - t);
    Distribute(d, t, 1.0 - t);
    assert p + q == d;
    assert t * d == p;
  }

  lemma OrderedSamePoints(seg: Segment, x: real, y: real)
    ensures OnSegment(Ordered(seg), x, y) <==> OnSegment(seg, x, y)
  {
    if seg.x1 < seg.x0 {
      var s := Ordered(seg);
      forall t
        ensures On(seg, t, x, y) <==> On(s, 1.0 - t, x, y)
      {
        assert seg.x0 + t * (seg.x1 - seg.x0) == seg.x1 + (1.0 - t) * (seg.x0 - seg.x1);
        assert seg.y0 + t * (seg.y1 - seg.y0) == seg.y1 + (1.0 - t) * (seg.y0 - seg.y1);
      }
      if OnSegment(s, x, y) {
        var u :| On(s, u, x, y);
        assert On(seg, 1.0 - u, x, y) by {
          assert 1.0 - (1.0 - u) == u;
        }
      }
    }
  }

  // ---- nothing far away ------------------------------------------------------------------------------

  /** A height of [lo, hi] within EPS of the row. */
  function NearHeight(lo: real, hi: real, r: int): real {
    if hi < r as real then hi else if lo > (r + 1) as real then lo else Max(lo, r as real)
  }

  lemma NearHeightOK(lo: real, hi: real, r: int)
    requires lo <= hi && Lo(lo) <= r <= Hi(hi)
    ensures var y := NearHeight(lo, hi, r);
      lo <= y <= hi && r as real - EPS <= y <= (r + 1) as real + EPS
  {
  }

  /** The line takes every height between those of a stretch's ends somewhere on the stretch. */
  lemma Divide(n: real, k: real) returns (d: real)
    requires k != 0.0
    ensures k * d == n
  {
    d := n / k;
  }

  lemma CancelProducts(k: real, u: real, v: real, ku: real, kv: real)
    requires k != 0.0 && ku == k * u && kv == k * v
    ensures k > 0.0 && ku <= kv ==> u <= v
    ensures k < 0.0 && kv <= ku ==> u <= v
  {
    var d := v - u;
    assert k * d == kv - ku;
    if k > 0.0 && d < 0.0 { Positive(k, -d); }
    if k < 0.0 && d < 0.0 { Positive(-k, -d); }
  }

  /** Some d between u and v has k d == h, if h is between k u and k v. */
  lemma SolveLinear(k: real, u: real, v: real, h: real, ku: real, kv: real) returns (d: real)
    requires u <= v && ku == k * u && kv == k * v && Min(ku, kv) <= h <= Max(ku, kv)
    ensures u <= d <= v && k * d == h
  {
    Scale(k, u, v);
    if h == ku {
      d := u;
    } else {
      assert k != 0.0;
      d := Divide(h, k);
      CancelProducts(k, u, v, ku, kv);
      CancelProducts(k, v, u, kv, ku);
      CancelProducts(k, u, d, ku, h);
      CancelProducts(k, d, v, h, kv);
    }
  }

  lemma Solve(s: Segment, a: real, b: real, y: real) returns (x: real)
    requires s.x0 < s.x1 && a <= b && Min(Line(s, a), Line(s, b)) <= y <= Max(Line(s, a), Line(s, b))
    ensures a <= x <= b && Line(s, x) == y
  {
    var k := Slope(s);
    var d := SolveLinear(k, a - s.x0, b - s.x0, y - s.y0, k * (a - s.x0), k * (b - s.x0));
    x := s.x0 + d;
    assert x - s.x0 == d;
  }

  /** TIGHT: every yielded cell is within 2 EPS of the segment. */
  lemma NothingFar(seg: Segment, c: int, r: int)
    requires Yielded(seg, c, r)
    ensures Meets(seg, c, r, 0.000000002)
  {
    var s := Ordered(seg);
    var x, y;
    if Vertical(s) {
      x, y := NearVertical(s, c, r);
    } else if c as real > s.x1 {
      x, y := s.x1, s.y1;
      BeyondEnd(s, c, r);
    } else if (c + 1) as real < s.x0 {
      x, y := s.x0, s.y0;
      BeyondEnd(s, c, r);
    } else {
      x, y := NearInside(s, c, r);
    }
    OrderedSamePoints(seg, x, y);
  }

  lemma NearVertical(s: Segment, c: int, r: int) returns (x: real, y: real)
    requires s.x0 <= s.x1 && Vertical(s) && YieldedOrdered(s, c, r)
    ensures OnSegment(s, x, y) && Within(c, r, x, y, 2.0 * EPS)
  {
    var lo, hi := Min(s.y0, s.y1), Max(s.y0, s.y1);
    NearHeightOK(lo, hi, r);
    y := NearHeight(lo, hi, r);
    var t := 0.0;
    if s.y0 != s.y1 {
      t := Fraction(y - s.y0, s.y1 - s.y0);
    }
    x := s.x0 + t * (s.x1 - s.x0);
    assert On(s, t, x, y);
    EndsBound(s, t, x, y);
    assert c as real <= s.x1 + EPS && (c + 1) as real >= s.x0 - EPS;
    assert s.x1 <= x + EPS && x - EPS <= s.x0;
  }

  /** A column the segment only nearly reaches: its rows are those of the nearer end. */
  lemma BeyondEnd(s: Segment, c: int, r: int)
    requires s.x0 <= s.x1 && !Vertical(s) && YieldedOrdered(s, c, r)
    requires c as real > s.x1 || (c + 1) as real < s.x0
    ensures var (x, y) := if c as real > s.x1 then (s.x1, s.y1) else (s.x0, s.y0);
      OnSegment(s, x, y) && Within(c, r, x, y, 2.0 * EPS)
  {
    SlopeTimes(s);
    SpanIsLine(c, s);
    if c as real > s.x1 {
      assert On(s, 1.0, s.x1, s.y1);
      LineBetween(s, s.x0, s.x1, c as real);
    } else {
      assert On(s, 0.0, s.x0, s.y0);
      LineBetween(s, (c + 1) as real, s.x0, s.x1);
    }
  }

  lemma NearInside(s: Segment, c: int, r: int) returns (x: real, y: real)
    requires s.x0 <= s.x1 && !Vertical(s) && YieldedOrdered(s, c, r)
    requires c as real <= s.x1 && s.x0 <= (c + 1) as real
    ensures OnSegment(s, x, y) && Within(c, r, x, y, 2.0 * EPS)
  {
    SlopeTimes(s);
    SpanIsLine(c, s);
    var xa, xb := Max(s.x0, c as real), Min(s.x1, (c + 1) as real);
    LineBetween(s, s.x0, xa, s.x1);
    LineBetween(s, s.x0, xb, s.x1);
    var lo, hi := Min(Line(s, xa), Line(s, xb)), Max(Line(s, xa), Line(s, xb));
    NearHeightOK(lo, hi, r);
    y := NearHeight(lo, hi, r);
    x := Solve(s, xa, xb, y);
    LineOn(s, x);
  }

  /** The cells do not depend on which end comes first. */
  lemma DirectionFree(seg: Segment, c: int, r: int)
    ensures Yielded(seg, c, r) <==> Yielded(Segment(seg.x1, seg.y1, seg.x0, seg.y0), c, r)
  {
  }

  /** So a set cell that the segment meets, even at a corner, is never missed. */
  lemma ObstacleNeverMissed(mask: seq<int>, nx: nat, ny: nat, seg: Segment, c: int, r: int)
    requires |mask| == nx * ny && SetMet(mask, nx, ny, seg, c, r, 0.0)
    ensures Hit(mask, nx, ny, seg, c, r)
  {
    Supercover(seg, c, r);
  }
}
