/** Connector geometry (components/Connection.tsx): looking up the two
    endpoint notes, the points where the connector leaves the source note and
    enters the target note, and the bounding box of the drawn curve. The
    curve's control points come from trigonometry and are inputs here. */
module ConnectionView {
  import opened Types
  import opened SeqOps

  /** The connector's endpoint notes, or None when either is missing (nothing is drawn). */
  function EndpointNotes(notes: seq<Note>, c: Connection): (r: Option<(Note, Note)>)
    ensures r.None? <==> Find(notes, NoteId, c.from_object_id).None? || Find(notes, NoteId, c.to_object_id).None?
    ensures r.Some? ==> r.value.0.id == c.from_object_id && r.value.1.id == c.to_object_id
    ensures r.Some? ==> r.value.0 in notes && r.value.1 in notes
  {
    var from := Find(notes, NoteId, c.from_object_id);
    var to := Find(notes, NoteId, c.to_object_id);
    if from.None? || to.None? then None else Some((from.value, to.value))
  }

  /** The connector is highlighted exactly when it is the selected item. */
  predicate IsSelected(c: Connection, selectedItemId: Option<string>) {
    selectedItemId == Some(c.id)
  }

  function Center(n: Note): Point {
    Point(n.x + n.width / 2.0, n.y + n.height / 2.0)
  }

  /** Both notes have an area and their centres differ, so no division is by zero. */
  predicate Drawable(from: Note, to: Note) {
    from.width > 0.0 && from.height > 0.0 && to.width > 0.0 && to.height > 0.0
    && Center(from) != Center(to)
  }

  /** Where the ray from the centre in direction (dx, dy) leaves a rectangle
      with half-sizes hw, hh, relative to the centre: through a vertical edge
      when the direction is steeper horizontally than the rectangle,
      otherwise through a horizontal one. */
  function EdgeOffset(hw: real, hh: real, dx: real, dy: real): Point
    requires hw > 0.0 && hh > 0.0 && (dx != 0.0 || dy != 0.0)
  {
    if Abs(dx) / hw > Abs(dy) / hh then
      Point(if dx > 0.0 then hw else -hw, (dy * hw) / Abs(dx))
    else
      Point((dx * hh) / Abs(dy), if dy > 0.0 then hh else -hh)
  }

  /** The source's exit point. */
  function StartPoint(c: Point, hw: real, hh: real, dx: real, dy: real): Point
    requires hw > 0.0 && hh > 0.0 && (dx != 0.0 || dy != 0.0)
  {
    Shift(c, EdgeOffset(hw, hh, dx, dy))
  }

  /** The point at offset o from c. */
  function Shift(c: Point, o: Point): Point {
    Point(c.x + o.x, c.y + o.y)
  }

  /** The target's entry point, written out as the source writes it. */
  function EndPoint(c: Point, hw: real, hh: real, dx: real, dy: real): Point
    requires hw > 0.0 && hh > 0.0 && (dx != 0.0 || dy != 0.0)
  {
    if Abs(dx) / hw > Abs(dy) / hh then
      Point(c.x + (if dx > 0.0 then -hw else hw), c.y - (dy * hw) / Abs(dx))
    else
      Point(c.x - (dx * hh) / Abs(dy), c.y + (if dy > 0.0 then -hh else hh))
  }

  /** p lies on the rectangle's outline. */
  predicate OnOutline(c: Point, hw: real, hh: real, p: Point) {
    || (Abs(p.x - c.x) == hw && Abs(p.y - c.y) <= hh)
    || (Abs(p.y - c.y) == hh && Abs(p.x - c.x) <= hw)
  }

  /** p lies on the open ray from c in direction (dx, dy). */
  predicate OnRay(c: Point, dx: real, dy: real, p: Point) {
    (p.x - c.x) * dy == (p.y - c.y) * dx && (p.x - c.x) * dx + (p.y - c.y) * dy > 0.0
  }

  lemma ProductPos(a: real, b: real)
    requires a > 0.0 && b > 0.0
    ensures a * b > 0.0
  {
  }

  lemma SumOfSquaresPos(dx: real, dy: real)
    requires dx != 0.0 || dy != 0.0
    ensures dx * dx + dy * dy > 0.0
  {
    if dx != 0.0 {
      if dx > 0.0 { ProductPos(dx, dx); } else { ProductPos(-dx, -dx); }
    } else {
      if dy > 0.0 { ProductPos(dy, dy); } else { ProductPos(-dy, -dy); }
    }
  }

  /** An offset that is a positive multiple of (dx, dy) lies on the ray. */
  lemma ScaledOffset(ox: real, oy: real, dx: real, dy: real, t: real)
    requires t > 0.0 && (dx != 0.0 || dy != 0.0)
    requires ox == t * dx && oy == t * dy
    ensures ox * dy == oy * dx && ox * dx + oy * dy > 0.0
  {
    assert ox * dy == t * (dx * dy);
    assert oy * dx == t * (dx * dy);
    assert ox * dx + oy * dy == t * (dx * dx + dy * dy);
    SumOfSquaresPos(dx, dy);
    ProductPos(t, dx * dx + dy * dy);
  }

  /** h / |d| scales d to length h along its own sign. */
  lemma ScaleToEdge(d: real, h: real)
    requires d != 0.0 && h > 0.0
    ensures h / Abs(d) > 0.0
    ensures (h / Abs(d)) * d == if d > 0.0 then h else -h
  {
    if d > 0.0 {
      assert (h / d) * d == h;
    } else {
      assert (h / -d) * d == -((h / -d) * -d);
    }
  }

  /** a/ha > b/hb, cross-multiplied. */
  lemma CrossMultiply(a: real, b: real, ha: real, hb: real)
    requires ha > 0.0 && hb > 0.0
    ensures a / ha > b / hb <==> a * hb > b * ha
  {
    assert (a / ha) * (ha * hb) == a * hb;
    assert (b / hb) * (ha * hb) == b * ha;
    var k := ha * hb;
    ProductPos(ha, hb);
    if a / ha > b / hb {
      assert (a / ha) * k > (b / hb) * k;
    }
    if a * hb > b * ha {
      assert (a / ha) * k > (b / hb) * k;
    }
  }

  lemma QuotientBound(num: real, den: real, bound: real)
    requires den > 0.0 && num <= bound * den
    ensures num / den <= bound
  {
    assert (num / den) * den == num;
  }

  lemma QuotientCommutes(a: real, h: real, d: real)
    requires d != 0.0
    ensures (a * h) / d == (h / d) * a
  {
  }

  lemma AbsQuotient(a: real, h: real, d: real)
    requires h > 0.0 && d > 0.0
    ensures Abs((a * h) / d) == (Abs(a) * h) / d
  {
    if a < 0.0 {
      assert (a * h) / d == -(((-a) * h) / d);
      assert ((-a) * h) / d >= 0.0;
    } else {
      assert (a * h) / d >= 0.0;
    }
  }

  lemma ProductNonneg(a: real, b: real)
    requires a >= 0.0 && b >= 0.0
    ensures a * b >= 0.0
  {
  }

  /** In the vertical-edge branch the direction has a horizontal component. */
  lemma VerticalBranchDx(hw: real, hh: real, dx: real, dy: real)
    requires hw > 0.0 && hh > 0.0 && Abs(dx) / hw > Abs(dy) / hh
    ensures Abs(dy) * hw < Abs(dx) * hh && Abs(dx) > 0.0
  {
    CrossMultiply(Abs(dx), Abs(dy), hw, hh);
    ProductNonneg(Abs(dy), hw);
  }

  /** In the horizontal-edge branch the direction has a vertical component. */
  lemma HorizontalBranchDy(hw: real, hh: real, dx: real, dy: real)
    requires hw > 0.0 && hh > 0.0 && (dx != 0.0 || dy != 0.0) && !(Abs(dx) / hw > Abs(dy) / hh)
    ensures Abs(dx) * hh <= Abs(dy) * hw && Abs(dy) > 0.0
  {
    CrossMultiply(Abs(dx), Abs(dy), hw, hh);
    if Abs(dx) > 0.0 {
      ProductPos(Abs(dx), hh);
    }
  }

  /** The offset (±h, d·h/|e|) of an edge point: it is (d', d)·h/|d'| when
      d' is the component that hits the edge, so it is on the ray, and the
      other coordinate stays within the edge. */
  lemma EdgeOffsetOnRay(h: real, e: real, d: real)
    requires h > 0.0 && e != 0.0
    ensures var oe := if e > 0.0 then h else -h;
      var od := (d * h) / Abs(e);
      oe * d == od * e && oe * e + od * d > 0.0
  {
    var t := h / Abs(e);
    var oe := if e > 0.0 then h else -h;
    var od := (d * h) / Abs(e);
    assert t > 0.0 && oe == t * e by { ScaleToEdge(e, h); }
    assert od == t * d by { QuotientCommutes(d, h, Abs(e)); }
    ScaledOffset(oe, od, e, d, t);
  }

  lemma EdgeOffsetWithin(h: real, e: real, d: real, bound: real)
    requires h > 0.0 && Abs(e) > 0.0 && Abs(d) * h <= bound * Abs(e)
    ensures Abs((d * h) / Abs(e)) <= bound
  {
    AbsQuotient(d, h, Abs(e));
    QuotientBound(Abs(d) * h, Abs(e), bound);
  }

  /** The edge offset lies on the rectangle's outline ... */
  lemma EdgeOffsetOnOutline(hw: real, hh: real, dx: real, dy: real)
    requires hw > 0.0 && hh > 0.0 && (dx != 0.0 || dy != 0.0)
    ensures var o := EdgeOffset(hw, hh, dx, dy);
      (Abs(o.x) == hw && Abs(o.y) <= hh) || (Abs(o.y) == hh && Abs(o.x) <= hw)
  {
    if Abs(dx) / hw > Abs(dy) / hh {
      VerticalBranchDx(hw, hh, dx, dy);
      EdgeOffsetWithin(hw, dx, dy, hh);
    } else {
      HorizontalBranchDy(hw, hh, dx, dy);
      EdgeOffsetWithin(hh, dy, dx, hw);
    }
  }

  lemma VerticalOffsetOnDirection(hw: real, hh: real, dx: real, dy: real)
    requires hw > 0.0 && hh > 0.0 && Abs(dx) / hw > Abs(dy) / hh
    ensures var o := EdgeOffset(hw, hh, dx, dy);
      o.x * dy == o.y * dx && o.x * dx + o.y * dy > 0.0
  {
    VerticalBranchDx(hw, hh, dx, dy);
    EdgeOffsetOnRay(hw, dx, dy);
  }

  lemma HorizontalOffsetOnDirection(hw: real, hh: real, dx: real, dy: real)
    requires hw > 0.0 && hh > 0.0 && (dx != 0.0 || dy != 0.0) && !(Abs(dx) / hw > Abs(dy) / hh)
    ensures var o := EdgeOffset(hw, hh, dx, dy);
      o.x * dy == o.y * dx && o.x * dx + o.y * dy > 0.0
  {
    HorizontalBranchDy(hw, hh, dx, dy);
    EdgeOffsetOnRay(hh, dy, dx);
    var o := EdgeOffset(hw, hh, dx, dy);
    assert o.y * dx == o.x * dy && o.y * dy + o.x * dx > 0.0;
  }

  /** ... and on the ray in direction (dx, dy). */
  lemma EdgeOffsetOnDirection(hw: real, hh: real, dx: real, dy: real)
    requires hw > 0.0 && hh > 0.0 && (dx != 0.0 || dy != 0.0)
    ensures var o := EdgeOffset(hw, hh, dx, dy);
      o.x * dy == o.y * dx && o.x * dx + o.y * dy > 0.0
  {
    if Abs(dx) / hw > Abs(dy) / hh {
      VerticalOffsetOnDirection(hw, hh, dx, dy);
    } else {
      HorizontalOffsetOnDirection(hw, hh, dx, dy);
    }
  }

  /** The start point is where the ray from the source centre towards the
      target crosses the source's outline, on the edge that faces the target. */
  lemma StartPointOnOutline(c: Point, hw: real, hh: real, dx: real, dy: real)
    requires hw > 0.0 && hh > 0.0 && (dx != 0.0 || dy != 0.0)
    ensures OnOutline(c, hw, hh, StartPoint(c, hw, hh, dx, dy))
    ensures OnRay(c, dx, dy, StartPoint(c, hw, hh, dx, dy))
    ensures Abs(dx) / hw > Abs(dy) / hh ==>
              StartPoint(c, hw, hh, dx, dy).x == c.x + (if dx > 0.0 then hw else -hw)
    ensures !(Abs(dx) / hw > Abs(dy) / hh) ==>
              StartPoint(c, hw, hh, dx, dy).y == c.y + (if dy > 0.0 then hh else -hh)
  {
    StartPointOnRay(c, hw, hh, dx, dy);
  }

  lemma StartPointOnRay(c: Point, hw: real, hh: real, dx: real, dy: real)
    requires hw > 0.0 && hh > 0.0 && (dx != 0.0 || dy != 0.0)
    ensures OnOutline(c, hw, hh, StartPoint(c, hw, hh, dx, dy))
    ensures OnRay(c, dx, dy, StartPoint(c, hw, hh, dx, dy))
  {
    var o := EdgeOffset(hw, hh, dx, dy);
    EdgeOffsetOnOutline(hw, hh, dx, dy);
    EdgeOffsetOnDirection(hw, hh, dx, dy);
    assert OffsetOnOutline(hw, hh, o);
    assert OffsetOnRay(dx, dy, o);
    ShiftedOffset(c, hw, hh, dx, dy, o);
  }

  predicate OffsetOnOutline(hw: real, hh: real, o: Point) {
    (Abs(o.x) == hw && Abs(o.y) <= hh) || (Abs(o.y) == hh && Abs(o.x) <= hw)
  }

  predicate OffsetOnRay(dx: real, dy: real, o: Point) {
    o.x * dy == o.y * dx && o.x * dx + o.y * dy > 0.0
  }

  /** Outline and ray facts about an offset o carry over to the point c + o. */
  lemma ShiftedOffset(c: Point, hw: real, hh: real, dx: real, dy: real, o: Point)
    requires OffsetOnOutline(hw, hh, o) && OffsetOnRay(dx, dy, o)
    ensures OnOutline(c, hw, hh, Shift(c, o))
    ensures OnRay(c, dx, dy, Shift(c, o))
  {
    assert Shift(c, o).x - c.x == o.x && Shift(c, o).y - c.y == o.y;
  }

  /** The end point uses the mirrored formulas: it is the start point of the
      reverse direction, so it lies where the ray from the target centre back
      towards the source crosses the target's outline. */
  lemma NegQuotient(a: real, h: real, d: real)
    requires d != 0.0
    ensures ((-a) * h) / d == -((a * h) / d)
  {
  }

  lemma ReverseVerticalOffset(hw: real, hh: real, dx: real, dy: real)
    requires hw > 0.0 && hh > 0.0 && Abs(dx) / hw > Abs(dy) / hh
    ensures EdgeOffset(hw, hh, -dx, -dy) == Point(if dx > 0.0 then -hw else hw, -((dy * hw) / Abs(dx)))
  {
    VerticalBranchDx(hw, hh, dx, dy);
    NegQuotient(dy, hw, Abs(dx));
    assert Abs(-dx) == Abs(dx) && Abs(-dy) == Abs(dy);
  }

  lemma ReverseHorizontalOffset(hw: real, hh: real, dx: real, dy: real)
    requires hw > 0.0 && hh > 0.0 && (dx != 0.0 || dy != 0.0) && !(Abs(dx) / hw > Abs(dy) / hh)
    ensures EdgeOffset(hw, hh, -dx, -dy) == Point(-((dx * hh) / Abs(dy)), if dy > 0.0 then -hh else hh)
  {
    HorizontalBranchDy(hw, hh, dx, dy);
    NegQuotient(dx, hh, Abs(dy));
    var a, b := -dx, -dy;
    assert Abs(a) == Abs(dx) && Abs(b) == Abs(dy);
    assert !(Abs(a) / hw > Abs(b) / hh);
    assert EdgeOffset(hw, hh, a, b) == Point((a * hh) / Abs(b), if b > 0.0 then hh else -hh);
  }

  lemma EndPointVertical(c: Point, hw: real, hh: real, dx: real, dy: real)
    requires hw > 0.0 && hh > 0.0 && Abs(dx) / hw > Abs(dy) / hh
    ensures EndPoint(c, hw, hh, dx, dy) == StartPoint(c, hw, hh, -dx, -dy)
  {
    ReverseVerticalOffset(hw, hh, dx, dy);
  }

  lemma EndPointHorizontal(c: Point, hw: real, hh: real, dx: real, dy: real)
    requires hw > 0.0 && hh > 0.0 && (dx != 0.0 || dy != 0.0) && !(Abs(dx) / hw > Abs(dy) / hh)
    ensures EndPoint(c, hw, hh, dx, dy) == StartPoint(c, hw, hh, -dx, -dy)
  {
    ReverseHorizontalOffset(hw, hh, dx, dy);
  }

  lemma EndPointIsReverseStart(c: Point, hw: real, hh: real, dx: real, dy: real)
    requires hw > 0.0 && hh > 0.0 && (dx != 0.0 || dy != 0.0)
    ensures EndPoint(c, hw, hh, dx, dy) == StartPoint(c, hw, hh, -dx, -dy)
  {
    if Abs(dx) / hw > Abs(dy) / hh {
      EndPointVertical(c, hw, hh, dx, dy);
    } else {
      EndPointHorizontal(c, hw, hh, dx, dy);
    }
  }

  lemma EndPointMirrorsStart(c: Point, hw: real, hh: real, dx: real, dy: real)
    requires hw > 0.0 && hh > 0.0 && (dx != 0.0 || dy != 0.0)
    ensures EndPoint(c, hw, hh, dx, dy) == StartPoint(c, hw, hh, -dx, -dy)
    ensures OnOutline(c, hw, hh, EndPoint(c, hw, hh, dx, dy))
    ensures OnRay(c, -dx, -dy, EndPoint(c, hw, hh, dx, dy))
  {
    EndPointIsReverseStart(c, hw, hh, dx, dy);
    StartPointOnOutline(c, hw, hh, -dx, -dy);
  }

  /** The SVG box around the curve's four defining points, padded by 30. */
  datatype Bounds = Bounds(minX: real, minY: real, maxX: real, maxY: real, width: real, height: real)

  function Min4(a: real, b: real, c: real, d: real): real { Min(Min(a, b), Min(c, d)) }
  function Max4(a: real, b: real, c: real, d: real): real { Max(Max(a, b), Max(c, d)) }

  function CurveBounds(p1: Point, p2: Point, cp1: Point, cp2: Point): Bounds {
    var minX := Min4(p1.x, p2.x, cp1.x, cp2.x) - 30.0;
    var minY := Min4(p1.y, p2.y, cp1.y, cp2.y) - 30.0;
    var maxX := Max4(p1.x, p2.x, cp1.x, cp2.x) + 30.0;
    var maxY := Max4(p1.y, p2.y, cp1.y, cp2.y) + 30.0;
    Bounds(minX, minY, maxX, maxY, maxX - minX, maxY - minY)
  }

  predicate InsideWithMargin(b: Bounds, p: Point, margin: real) {
    b.minX + margin <= p.x <= b.maxX - margin && b.minY + margin <= p.y <= b.maxY - margin
  }

  /** Every defining point is at least 30 inside the box, one point touches
      each padded side, and the box is at least 60 by 60. */
  lemma CurveBoundsContain(p1: Point, p2: Point, cp1: Point, cp2: Point)
    ensures var b := CurveBounds(p1, p2, cp1, cp2);
      && InsideWithMargin(b, p1, 30.0) && InsideWithMargin(b, p2, 30.0)
      && InsideWithMargin(b, cp1, 30.0) && InsideWithMargin(b, cp2, 30.0)
      && (b.minX + 30.0 in {p1.x, p2.x, cp1.x, cp2.x}) && (b.maxX - 30.0 in {p1.x, p2.x, cp1.x, cp2.x})
      && (b.minY + 30.0 in {p1.y, p2.y, cp1.y, cp2.y}) && (b.maxY - 30.0 in {p1.y, p2.y, cp1.y, cp2.y})
      && b.width == b.maxX - b.minX >= 60.0 && b.height == b.maxY - b.minY >= 60.0
  {
  }

  /** What ConnectionLine draws: the two edge points and the padded box. */
  datatype Geometry = Geometry(start: Point, end: Point, bounds: Bounds)

  function Layout(from: Note, to: Note, cp1: Point, cp2: Point): Geometry
    requires Drawable(from, to)
  {
    var a := Center(from);
    var b := Center(to);
    var dx := b.x - a.x;
    var dy := b.y - a.y;
    var p1 := StartPoint(a, from.width / 2.0, from.height / 2.0, dx, dy);
    var p2 := EndPoint(b, to.width / 2.0, to.height / 2.0, dx, dy);
    Geometry(p1, p2, CurveBounds(p1, p2, cp1, cp2))
  }

  /** The drawn connector starts on the source note's outline, heading for
      the target centre, and ends on the target note's outline, coming from
      the source centre; the box holds both ends with room to spare. */
  lemma LayoutSpec(from: Note, to: Note, cp1: Point, cp2: Point)
    requires Drawable(from, to)
    ensures var g := Layout(from, to, cp1, cp2);
      var a := Center(from);
      var b := Center(to);
      && OnOutline(a, from.width / 2.0, from.height / 2.0, g.start)
      && OnRay(a, b.x - a.x, b.y - a.y, g.start)
      && OnOutline(b, to.width / 2.0, to.height / 2.0, g.end)
      && OnRay(b, a.x - b.x, a.y - b.y, g.end)
      && InsideWithMargin(g.bounds, g.start, 30.0) && InsideWithMargin(g.bounds, g.end, 30.0)
  {
    var a := Center(from);
    var b := Center(to);
    var dx := b.x - a.x;
    var dy := b.y - a.y;
    StartPointOnOutline(a, from.width / 2.0, from.height / 2.0, dx, dy);
    EndPointMirrorsStart(b, to.width / 2.0, to.height / 2.0, dx, dy);
    assert -dx == a.x - b.x && -dy == a.y - b.y;
    var p1 := StartPoint(a, from.width / 2.0, from.height / 2.0, dx, dy);
    var p2 := EndPoint(b, to.width / 2.0, to.height / 2.0, dx, dy);
    CurveBoundsContain(p1, p2, cp1, cp2);
  }
}
