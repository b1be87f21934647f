/** The geometry of the status schema, on values: where the n-th box of a column goes, and where a
    horizontal and a vertical line cross. */
module SchemaLayout {
  import opened Basics

  const WIDTH := 1280
  const HEIGHT := 1024
  const BOX_WIDTH := 153
  const BOX_HEIGHT := 204
  const MARGIN := 25

  const STREAMDUP := 0
  const MASTERBOX := 1
  const RTMP := 2
  const HLS := 3

  datatype Rect = Rect(x: int, y: int, width: int, height: int)

  datatype Point = Point(x: int, y: int)

  datatype Line = Line(from: Point, to: Point, arrow: bool)

  // ------------------------------------------------------------------ boxes

  /** The left edge of a column. */
  function Left(column: nat): int {
    if column == STREAMDUP then 128 else if column == MASTERBOX then 564 else 999
  }

  /** `a / b`. */
  function Share(a: nat, b: nat): nat
    requires b > 0
  {
    assert a == a / b * b + a % b && 0 <= a % b < b;
    QuotientBounds(a, b, a / b, a % b);
    a / b
  }

  lemma ShareFacts(a: nat, b: nat)
    requires b > 0
    ensures Share(a, b) * b <= a < (Share(a, b) + 1) * b && Share(a, b) <= a
  {
    assert a == a / b * b + a % b && 0 <= a % b < b;
    QuotientBounds(a, b, a / b, a % b);
  }

  lemma QuotientBounds(a: nat, b: nat, q: int, r: int)
    requires b > 0 && a == q * b + r && 0 <= r < b
    ensures 0 <= q <= a
  {
    if q < 0 { ScaleFactor(q, -1, b); }
    if q > a { ScaleFactor(1, b, q); }
  }

  lemma ScaleFactor(p: int, q: int, b: nat)
    requires p <= q
    ensures p * b <= q * b
  {
  }

  /** The distance between boxes of a column that holds `count`. */
  function YMargin(column: nat, count: nat): nat {
    Share(512, Shares(column, count))
  }

  /** Into how many distances half the canvas is divided. */
  function Shares(column: nat, count: nat): (n: nat)
    ensures n > 0
  {
    if column == MASTERBOX then count / 2 + count % 2 + 1 else count + 1
  }

  function BoxHeight(yMargin: nat): nat {
    if 2 * yMargin / 3 < BOX_HEIGHT then 2 * yMargin / 3 else BOX_HEIGHT
  }

  /** How many distances below the middle the n-th box is: masterboxes alternate around the middle,
      the streamers of one kind go up from it and those of the other kind down. */
  function Offset(column: nat, n: nat): int {
    if column == MASTERBOX then (if n % 2 == 1 then -(n / 2 + 1) else n / 2)
    else if column == RTMP then 0 - n
    else n
  }

  /** The n-th box, from 1, of a column that holds `count`. */
  function Box(column: nat, n: nat, count: nat): Rect {
    if column == STREAMDUP then Rect(Left(column), 410, BOX_WIDTH, BOX_HEIGHT)
    else
      var m := YMargin(column, count);
      var h := BoxHeight(m);
      Rect(Left(column), 512 + m * Offset(column, n) - h / 2, BOX_WIDTH, h)
  }

  /** Where boxes are, and how large.  Half the canvas is divided by one more than the boxes of a column, or than half
      the masterboxes: `m` is the largest distance that fits.  Boxes have two thirds of it as height, at most that
      of a streamdup.  The middles of masterboxes stand alternately above and below the middle of the canvas, those
      of RTMP streamers go up from it, those of HLS streamers down. */
  lemma BoxPlace(column: nat, n: nat, count: nat) returns (m: nat, h: nat)
    requires column in {MASTERBOX, RTMP, HLS} && 1 <= n <= count
    ensures var parts := if column == MASTERBOX then (count + 1) / 2 + 1 else count + 1;
            m * parts <= 512 < (m + 1) * parts
    ensures if m < 306 then 3 * h <= 2 * m < 3 * (h + 1) else h == 204
    ensures m >= 2 ==> h > 0
    ensures h <= m
    ensures m == YMargin(column, count) && h == BoxHeight(m)
    ensures var b := Box(column, n, count);
            && b.x == (if column == MASTERBOX then 564 else 999) && b.width == 153 && b.height == h
            && b.y + h / 2 == 512 + (if column == RTMP then -(m * n)
                                     else if column == HLS then m * n
                                     else if n % 2 == 1 then -(m * ((n + 1) / 2))
                                     else m * (n / 2))
  {
    m := YMargin(column, count);
    h := BoxHeight(m);
    ShareFacts(512, Shares(column, count));
    Negated(m, n);
    Negated(m, n / 2 + 1);
    assert n % 2 == 1 ==> (n + 1) / 2 == n / 2 + 1;
  }

  lemma Negated(m: int, k: int)
    ensures m * (0 - k) == -(m * k) && m * -k == -(m * k)
  {
  }

  /** Two boxes of a column are at least the distance apart, from top to top. */
  lemma BoxesSpread(column: nat, n1: nat, n2: nat, count: nat, m: nat)
    requires column in {MASTERBOX, RTMP, HLS} && n1 != n2 && n1 >= 1 && n2 >= 1 && m == YMargin(column, count)
    ensures Box(column, n1, count).height == Box(column, n2, count).height
    ensures Box(column, n1, count).y + m <= Box(column, n2, count).y
            || Box(column, n2, count).y + m <= Box(column, n1, count).y
  {
    var o1, o2 := Offset(column, n1), Offset(column, n2);
    if o1 < o2 { Further(m, o1, o2); } else { Further(m, o2, o1); }
  }

  lemma Further(m: nat, a: int, b: int)
    requires a < b
    ensures m * a + m <= m * b
  {
    assert m * b - m * a == m * (b - a);
    Scale(m, 1, b - a);
  }

  /** All streamdups stand at one place, half a box above the middle of the canvas. */
  lemma DupPlace(n: nat, count: nat)
    ensures Box(STREAMDUP, n, count) == Rect(128, 410, 153, 204)
  {
  }

  predicate Inside(r: Rect) {
    0 <= r.x && r.x + r.width <= WIDTH && 0 <= r.y && r.y + r.height <= HEIGHT
  }

  predicate Apart(r: Rect, s: Rect) {
    r.x + r.width <= s.x || s.x + s.width <= r.x || r.y + r.height <= s.y || s.y + s.height <= r.y
  }

  /** All the offsets of a column fit in the half of the canvas. */
  lemma OffsetFits(column: nat, n: nat, count: nat)
    requires column in {MASTERBOX, RTMP, HLS} && 1 <= n <= count
    ensures var m, o := YMargin(column, count), Offset(column, n);
            m * o <= 512 - m && -(m * o) <= 512 - m && 0 <= m <= 512
  {
    var m, o, parts := YMargin(column, count), Offset(column, n), Shares(column, count);
    assert 1 - parts <= o <= parts - 1;
    ShareFacts(512, parts);
    FitsInParts(m, o, parts);
  }

  lemma FitsInParts(m: nat, o: int, parts: nat)
    requires 1 - parts <= o <= parts - 1 && m * parts <= 512
    ensures m * o <= 512 - m && -(m * o) <= 512 - m
  {
    assert m * (parts - 1) == m * parts - m;
    if o >= 0 {
      Scale(m, o, parts - 1);
    } else {
      Scale(m, -o, parts - 1);
      assert m * -o == -(m * o);
    }
  }

  lemma Scale(m: nat, a: nat, b: nat)
    requires a <= b
    ensures m * a <= m * b
  {
  }

  /** No box leaves the canvas, however many there are. */
  lemma BoxInside(column: nat, n: nat, count: nat)
    requires column <= HLS && 1 <= n <= count
    ensures Inside(Box(column, n, count))
  {
    if column != STREAMDUP { OffsetFits(column, n, count); }
  }

  /** Boxes of different columns, and different boxes of one column other than the first, do not overlap;
      the two kinds of streamers share a column of the canvas, one above and one below its middle. */
  lemma BoxesApart(column1: nat, n1: nat, count1: nat, column2: nat, n2: nat, count2: nat)
    requires column1 <= HLS && column2 <= HLS && 1 <= n1 <= count1 && 1 <= n2 <= count2
    requires column1 == column2 ==> column1 != STREAMDUP && n1 != n2 && count1 == count2
    ensures Apart(Box(column1, n1, count1), Box(column2, n2, count2))
  {
    if Left(column1) == Left(column2) {
      if column1 == column2 {
        var m := YMargin(column1, count1);
        var o1, o2 := Offset(column1, n1), Offset(column2, n2);
        if o1 < o2 { Spread(m, o1, o2); } else { Spread(m, o2, o1); }
      } else {
        SideOfMiddle(column1, n1, count1);
        SideOfMiddle(column2, n2, count2);
      }
    }
  }

  lemma Spread(m: nat, a: int, b: int)
    requires a < b
    ensures m * a + BoxHeight(m) <= m * b
  {
    assert m * b - m * a == m * (b - a);
    Scale(m, 1, b - a);
  }

  lemma SideOfMiddle(column: nat, n: nat, count: nat)
    requires column in {RTMP, HLS} && n >= 1
    ensures var r := Box(column, n, count);
            if column == RTMP then r.y + r.height <= 512 else 512 <= r.y
  {
    var m := YMargin(column, count);
    Scale(m, 1, n);
    assert m * (0 - n) == 0 - m * n;
  }

  // ------------------------------------------------------------------ machine arithmetic

  const TWO32 := 0x1_0000_0000

  /** The value of an integer in 32 unsigned bits, and of 32 bits read as a signed integer. */
  function Unsigned(n: int): nat {
    n % TWO32
  }

  function Signed(u: nat): int {
    if u % TWO32 < 0x8000_0000 then u % TWO32 else u % TWO32 - TWO32
  }

  /** The vertical position of the n-th masterbox as the machine computes it: unsigned throughout, with a
      multiplier that is meant to be negative. */
  function MachineY(yMargin: nat, n: nat, height: nat): int {
    var pos := Signed(Unsigned((n / 2 + (if n % 2 == 1 then 1 else 0)) * (if n % 2 == 1 then -1 else 1)));
    Signed(Unsigned(Unsigned(512 + Unsigned(yMargin * Unsigned(pos))) - height / 2))
  }

  lemma SignedOfUnsigned(n: int)
    requires -0x8000_0000 <= n < 0x8000_0000
    ensures Signed(Unsigned(n)) == n
  {
  }

  lemma {:induction false} Wraps(a: int, k: int)
    ensures Unsigned(a + k * TWO32) == Unsigned(a)
    decreases if k < 0 then -k else k
  {
    if k > 0 {
      Wraps(a, k - 1);
      assert a + k * TWO32 == a + (k - 1) * TWO32 + TWO32;
    } else if k < 0 {
      Wraps(a, k + 1);
      assert a + k * TWO32 == a + (k + 1) * TWO32 - TWO32;
    }
  }

  /** Wrapping a factor does not change the wrapped product. */
  lemma WrapProduct(m: int, a: int)
    ensures Unsigned(m * Unsigned(a)) == Unsigned(m * a)
  {
    var q := a / TWO32;
    assert a == q * TWO32 + Unsigned(a);
    assert m * a == m * Unsigned(a) + (m * q) * TWO32 by {
      assert m * (q * TWO32) == (m * q) * TWO32;
      assert m * (q * TWO32 + Unsigned(a)) == m * (q * TWO32) + m * Unsigned(a);
    }
    Wraps(m * Unsigned(a), m * q);
  }

  lemma WrapSum(a: int, b: int)
    ensures Unsigned(Unsigned(a) + b) == Unsigned(a + b)
  {
    Wraps(Unsigned(a) + b, a / TWO32);
    assert a + b == Unsigned(a) + b + (a / TWO32) * TWO32;
  }

  lemma SignedAgain(o: int)
    ensures Unsigned(Signed(Unsigned(o))) == Unsigned(o)
  {
  }

  lemma WrappedTail(product: int, h: int)
    requires -0x8000_0000 <= 512 + product - h < 0x8000_0000
    ensures Signed(Unsigned(Unsigned(512 + Unsigned(product)) - h)) == 512 + product - h
  {
    WrapSum(product, 512);
    WrapSum(512 + product, 0 - h);
    SignedOfUnsigned(512 + product - h);
  }

  /** What the machine computes from a wrapped factor is the plain sum, when that fits. */
  lemma WrappedSum(m: nat, o: int, h: nat)
    requires -0x8000_0000 <= 512 + m * o - h < 0x8000_0000
    ensures Signed(Unsigned(Unsigned(512 + Unsigned(m * Unsigned(Signed(Unsigned(o))))) - h)) == 512 + m * o - h
  {
    var product := m * o;
    SignedAgain(o);
    WrapProduct(m, o);
    assert Unsigned(m * Unsigned(Signed(Unsigned(o)))) == Unsigned(product);
    WrappedTail(product, h);
  }

  /** The machine's value is the intended signed integer, for any number of masterboxes. */
  lemma MachineYIsIntended(n: nat, count: nat)
    requires 1 <= n <= count
    ensures var m := YMargin(MASTERBOX, count);
            MachineY(m, n, BoxHeight(m)) == Box(MASTERBOX, n, count).y
  {
    var m, o := YMargin(MASTERBOX, count), Offset(MASTERBOX, n);
    OffsetFits(MASTERBOX, n, count);
    WrappedSum(m, o, BoxHeight(m) / 2);
    assert (n / 2 + (if n % 2 == 1 then 1 else 0)) * (if n % 2 == 1 then -1 else 1) == o;
  }

  // ------------------------------------------------------------------ lines

  predicate Horizontal(l: Line) { l.from.y == l.to.y }

  predicate Vertical(l: Line) { l.from.x == l.to.x }

  predicate Between(a: int, v: int, b: int) {
    a < v < b || b < v < a
  }

  /** A horizontal and a vertical line cross strictly inside both, at that point. */
  predicate CrossAt(h: Line, v: Line, p: Point) {
    && Between(h.from.x, v.from.x, h.to.x) && Between(v.from.y, h.from.y, v.to.y)
    && p == Point(v.from.x, h.from.y)
  }

  predicate OnCanvasSide(l: Line) {
    0 <= l.from.x && 0 <= l.from.y && 0 <= l.to.x && 0 <= l.to.y
  }

  ghost predicate AllAcross(s: seq<Line>) {
    forall i :: 0 <= i < |s| ==> Horizontal(s[i]) && OnCanvasSide(s[i])
  }

  ghost predicate AllUpright(s: seq<Line>) {
    forall i :: 0 <= i < |s| ==> Vertical(s[i]) && OnCanvasSide(s[i])
  }

  lemma LinesConcat(a: seq<Line>, b: seq<Line>)
    ensures AllAcross(a) && AllAcross(b) ==> AllAcross(a + b)
    ensures AllUpright(a) && AllUpright(b) ==> AllUpright(a + b)
  {
  }

  /** What crossing is: a horizontal and a vertical line have a point in common that is an end of neither. */
  lemma CrossingIsCommon(h: Line, v: Line, p: Point)
    requires Horizontal(h) && Vertical(v)
    ensures CrossAt(h, v, p) <==>
              && p.y == h.from.y && (h.from.x < p.x < h.to.x || h.to.x < p.x < h.from.x)
              && p.x == v.from.x && (v.from.y < p.y < v.to.y || v.to.y < p.y < v.from.y)
  {
  }

  /** Adds the crossing point, if there is one and it is new.  A coordinate of 0 stands for no crossing. */
  method Intersect(h: Line, v: Line, edges: seq<Point>) returns (r: seq<Point>)
    requires Horizontal(h) && Vertical(v) && NoDup(edges)
    ensures NoDup(r) && edges <= r
    ensures forall p :: p in r <==> p in edges || (CrossAt(h, v, p) && p.x != 0 && p.y != 0)
  {
    var p := Point(0, 0);
    if h.from.x < h.to.x && v.from.x > h.from.x && v.from.x < h.to.x {
      p := p.(x := v.from.x);
    } else if h.from.x > h.to.x && v.from.x < h.from.x && v.from.x > h.to.x {
      p := p.(x := v.from.x);
    }
    r := edges;
    if p.x != 0 {
      if v.from.y < v.to.y && h.from.y > v.from.y && h.from.y < v.to.y {
        p := p.(y := h.from.y);
      } else if v.from.y > v.to.y && h.from.y < v.from.y && h.from.y > v.to.y {
        p := p.(y := h.from.y);
      }
      if p.y != 0 && p !in edges {
        r := edges + [p];
        assert forall q :: q in r <==> q in edges || q == p;
      }
    }
  }

  /** On lines without negative coordinates the 0 loses nothing: a strict crossing is never there. */
  lemma CrossingIsNotZero(h: Line, v: Line, p: Point)
    requires OnCanvasSide(h) && OnCanvasSide(v) && CrossAt(h, v, p)
    ensures p.x > 0 && p.y > 0
  {
  }

  /** With negative coordinates it does: this crossing is strict and is not found. */
  lemma LostCrossing() returns (h: Line, v: Line, p: Point)
    ensures Horizontal(h) && Vertical(v) && CrossAt(h, v, p) && p.x == 0
  {
    h, v, p := Line(Point(-1, 5), Point(1, 5), false), Line(Point(0, 0), Point(0, 9), false), Point(0, 5);
  }
}
