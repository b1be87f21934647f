/** Heights and positions of the rows of a tree list. */
module RowLayout {

  const TOP := 2

  ghost function Max(a: int, b: int): int { if a < b then b else a }

  /** What an item asks of a layout pass: its indentation and the height its row needs. */
  datatype Want = Want(x: int, need: nat)

  /** Where an item is put and the height stored for its row. */
  datatype Row = Row(x: int, y: int, height: int)

  /** A pass: the rows, the line height after each of them, where the pass ends and the line height
      it leaves. */
  datatype Pass = Pass(rows: seq<Row>, lines: seq<int>, bottom: int, line: int)

  /** A variable row keeps its own height, stored in an unsigned char; otherwise all rows have the
      line height of the moment. */
  function RowHeight(h: nat, line: int, variable: bool): int {
    if variable then Byte(h) else line
  }

  /** `n` stored in an unsigned char, by repeated subtraction. */
  function Byte(n: nat): nat {
    if n < 256 then n else Byte(n - 256)
  }

  /** A tenth of `n`, rounded down. */
  function Tenth(n: nat): nat {
    if n < 10 then 0 else 1 + Tenth(n - 10)
  }

  lemma {:induction false} ByteIsRemainder(n: nat)
    ensures Byte(n) == n % 256
  {
    if n >= 256 {
      ByteIsRemainder(n - 256);
    }
  }

  lemma {:induction false} TenthIsQuotient(n: nat)
    ensures Tenth(n) == n / 10
  {
    if n >= 10 {
      TenthIsQuotient(n - 10);
    }
  }

  /** A pass over `ws` that starts at `top`: a row that needs more than the line height raises it
      before the row is placed. */
  ghost function Plan(ws: seq<Want>, top: int, line: int, variable: bool): (p: Pass)
    ensures |p.rows| == |p.lines| == |ws|
  {
    if ws == [] then Pass([], [], top, line)
    else
      var p, w := Plan(ws[..|ws| - 1], top, line, variable), ws[|ws| - 1];
      var l := Max(p.line, w.need);
      Pass(p.rows + [Row(w.x, p.bottom, Byte(w.need))], p.lines + [l], p.bottom + RowHeight(w.need, l, variable), l)
  }

  /** The same, row by row: each row starts where the one above it ends, and the line height is the
      largest need so far. */
  ghost predicate IsPass(ws: seq<Want>, top: int, line: int, variable: bool, p: Pass) {
    && |p.rows| == |p.lines| == |ws|
    && forall k {:trigger RowAt(ws, top, line, variable, p, k)} ::
         0 <= k <= |ws| ==> RowAt(ws, top, line, variable, p, k)
  }

  /** Row `k` is as it should be; past the last row, the pass ends as it should. */
  ghost predicate RowAt(ws: seq<Want>, top: int, line: int, variable: bool, p: Pass, k: nat)
    requires k <= |ws| == |p.rows| == |p.lines|
  {
    if k == |ws| then p.line == LineBefore(line, p, k) && p.bottom == TopOf(ws, top, variable, p, k)
    else
      && p.lines[k] == Max(LineBefore(line, p, k), ws[k].need)
      && p.rows[k] == Row(ws[k].x, TopOf(ws, top, variable, p, k), Byte(ws[k].need))
  }

  ghost function LineBefore(line: int, p: Pass, k: nat): int
    requires k <= |p.lines|
  {
    if k == 0 then line else p.lines[k - 1]
  }

  ghost function TopOf(ws: seq<Want>, top: int, variable: bool, p: Pass, k: nat): int
    requires k <= |ws| == |p.rows| == |p.lines|
  {
    if k == 0 then top else p.rows[k - 1].y + RowHeight(ws[k - 1].need, p.lines[k - 1], variable)
  }

  lemma {:induction false} PlanIsPass(ws: seq<Want>, top: int, line: int, variable: bool)
    ensures IsPass(ws, top, line, variable, Plan(ws, top, line, variable))
  {
    var p := Plan(ws, top, line, variable);
    if ws != [] {
      var init := ws[..|ws| - 1];
      var q := Plan(init, top, line, variable);
      PlanIsPass(init, top, line, variable);
      assert RowAt(init, top, line, variable, q, |init|);
      forall k | 0 <= k <= |ws| ensures RowAt(ws, top, line, variable, p, k) {
        if k < |init| { assert RowAt(init, top, line, variable, q, k); }
      }
    }
  }

  /** The two descriptions of a pass are the same. */
  lemma {:induction false} PassIsPlan(ws: seq<Want>, top: int, line: int, variable: bool, p: Pass)
    ensures IsPass(ws, top, line, variable, p) <==> p == Plan(ws, top, line, variable)
  {
    PlanIsPass(ws, top, line, variable);
    if IsPass(ws, top, line, variable, p) {
      var q := Plan(ws, top, line, variable);
      SamePass(ws, top, line, variable, p, q, |ws|);
    }
  }

  lemma {:induction false} SamePass(ws: seq<Want>, top: int, line: int, variable: bool, p: Pass, q: Pass, n: nat)
    requires IsPass(ws, top, line, variable, p) && IsPass(ws, top, line, variable, q) && n <= |ws|
    ensures p.rows[..n] == q.rows[..n] && p.lines[..n] == q.lines[..n]
    ensures n == |ws| ==> p == q
  {
    if n > 0 {
      SamePass(ws, top, line, variable, p, q, n - 1);
      assert RowAt(ws, top, line, variable, p, n - 1) && RowAt(ws, top, line, variable, q, n - 1);
      if n > 1 {
        assert p.rows[..n - 1][n - 2] == q.rows[..n - 1][n - 2] && p.lines[..n - 1][n - 2] == q.lines[..n - 1][n - 2];
      }
      assert p.rows[..n] == p.rows[..n - 1] + [p.rows[n - 1]] && q.rows[..n] == q.rows[..n - 1] + [q.rows[n - 1]];
      assert p.lines[..n] == p.lines[..n - 1] + [p.lines[n - 1]] && q.lines[..n] == q.lines[..n - 1] + [q.lines[n - 1]];
    }
    if n == |ws| {
      assert RowAt(ws, top, line, variable, p, n) && RowAt(ws, top, line, variable, q, n);
      assert p.rows[..n] == p.rows && q.rows[..n] == q.rows && p.lines[..n] == p.lines && q.lines[..n] == q.lines;
    }
  }

  lemma {:induction false} PlanConcat(a: seq<Want>, b: seq<Want>, top: int, line: int, variable: bool)
    ensures var p := Plan(a, top, line, variable);
            var q := Plan(b, p.bottom, p.line, variable);
            Plan(a + b, top, line, variable) == Pass(p.rows + q.rows, p.lines + q.lines, q.bottom, q.line)
  {
    if b == [] {
      assert a + b == a;
    } else {
      assert (a + b)[..|a + b| - 1] == a + b[..|b| - 1];
      PlanConcat(a, b[..|b| - 1], top, line, variable);
    }
  }

  lemma PlanOne(w: Want, top: int, line: int, variable: bool)
    ensures var l := Max(line, w.need);
            Plan([w], top, line, variable) ==
            Pass([Row(w.x, top, Byte(w.need))], [l], top + RowHeight(w.need, l, variable), l)
  {
    assert [w][..0] == [];
    assert Plan([], top, line, variable) == Pass([], [], top, line);
  }

  /** A pass over nothing, over one row and the rest, and over two parts. */
  lemma EmptyPass(top: int, line: int, variable: bool)
    ensures IsPass([], top, line, variable, Pass([], [], top, line))
  {
  }

  lemma FirstPass(w: Want, ws: seq<Want>, top: int, line: int, variable: bool, p: Pass) returns (later: Pass)
    requires IsPass([w] + ws, top, line, variable, p)
    ensures var l := Max(line, w.need);
            && IsPass(ws, top + RowHeight(w.need, l, variable), l, variable, later)
            && p == Pass([Row(w.x, top, Byte(w.need))] + later.rows, [l] + later.lines, later.bottom, later.line)
            && (ws == [] ==> later == Pass([], [], top + RowHeight(w.need, l, variable), l))
  {
    var l := Max(line, w.need);
    PlanFirst(w, ws, top, line, variable);
    PassIsPlan([w] + ws, top, line, variable, p);
    later := Plan(ws, top + RowHeight(w.need, l, variable), l, variable);
    PlanIsPass(ws, top + RowHeight(w.need, l, variable), l, variable);
  }

  lemma NextPass(a: seq<Want>, b: seq<Want>, top: int, line: int, variable: bool, p: Pass) returns (q: Pass, r: Pass)
    requires IsPass(a, top, line, variable, p)
    ensures IsPass(b, p.bottom, p.line, variable, q)
    ensures IsPass(a + b, top, line, variable, r)
    ensures r == Pass(p.rows + q.rows, p.lines + q.lines, q.bottom, q.line)
  {
    PassIsPlan(a, top, line, variable, p);
    PlanConcat(a, b, top, line, variable);
    q := Plan(b, p.bottom, p.line, variable);
    r := Plan(a + b, top, line, variable);
    PlanIsPass(b, p.bottom, p.line, variable);
    PlanIsPass(a + b, top, line, variable);
  }

  lemma PlanFirst(w: Want, ws: seq<Want>, top: int, line: int, variable: bool)
    ensures var l := Max(line, w.need);
            var p := Plan(ws, top + RowHeight(w.need, l, variable), l, variable);
            Plan([w] + ws, top, line, variable) ==
              Pass([Row(w.x, top, Byte(w.need))] + p.rows, [l] + p.lines, p.bottom, p.line)
  {
    PlanOne(w, top, line, variable);
    PlanConcat([w], ws, top, line, variable);
  }

  /** The rows of a pass are those of its beginnings. */
  lemma {:induction false} PlanRow(ws: seq<Want>, top: int, line: int, variable: bool, k: nat)
    requires k < |ws|
    ensures var p := Plan(ws[..k], top, line, variable);
            Plan(ws, top, line, variable).rows[k] == Row(ws[k].x, p.bottom, Byte(ws[k].need))
  {
    if k < |ws| - 1 {
      PlanRow(ws[..|ws| - 1], top, line, variable, k);
      assert ws[..|ws| - 1][..k] == ws[..k];
    }
  }

  lemma {:induction false} LineGrows(ws: seq<Want>, top: int, line: int, variable: bool)
    ensures line <= Plan(ws, top, line, variable).line
    ensures forall i :: 0 <= i < |ws| ==> ws[i].need <= Plan(ws, top, line, variable).line
  {
    if ws != [] {
      LineGrows(ws[..|ws| - 1], top, line, variable);
    }
  }

  /** A pass leaves the line height alone exactly when every row already fits it. */
  lemma {:induction false} LineSettled(ws: seq<Want>, top: int, line: int, variable: bool)
    ensures Plan(ws, top, line, variable).line == line <==> forall i :: 0 <= i < |ws| ==> ws[i].need <= line
  {
    LineGrows(ws, top, line, variable);
    if ws != [] {
      LineGrows(ws[..|ws| - 1], top, line, variable);
      LineSettled(ws[..|ws| - 1], top, line, variable);
    }
  }

  /** All rows from `i` up to but not including `j` get no height: variable ones cut to nothing. */
  ghost predicate NoneHigh(ws: seq<Want>, variable: bool, i: nat, j: nat)
    requires j <= |ws|
  {
    variable && forall k :: i <= k < j ==> Byte(ws[k].need) == 0
  }

  /** Rows never go upwards, and two have the same Y exactly if nothing from the one to the other has a height. */
  lemma {:induction false} TopsRise(ws: seq<Want>, i: nat, j: nat, top: int, line: int, variable: bool)
    requires i < j < |ws| && 0 < line
    ensures Plan(ws, top, line, variable).rows[i].y <= Plan(ws, top, line, variable).rows[j].y
    ensures Plan(ws, top, line, variable).rows[i].y == Plan(ws, top, line, variable).rows[j].y
            <==> NoneHigh(ws, variable, i, j)
  {
    var rows := Plan(ws, top, line, variable).rows;
    NextTop(ws, j - 1, top, line, variable);
    if i < j - 1 {
      TopsRise(ws, i, j - 1, top, line, variable);
      assert NoneHigh(ws, variable, i, j) <==> NoneHigh(ws, variable, i, j - 1) && Byte(ws[j - 1].need) == 0;
    } else {
      assert NoneHigh(ws, variable, i, j) <==> variable && Byte(ws[i].need) == 0;
    }
  }

  lemma NextTop(ws: seq<Want>, k: nat, top: int, line: int, variable: bool)
    requires k + 1 < |ws| && 0 < line
    ensures var rows := Plan(ws, top, line, variable).rows;
            && rows[k].y <= rows[k + 1].y
            && (rows[k].y == rows[k + 1].y <==> variable && Byte(ws[k].need) == 0)
  {
    PlanRow(ws, top, line, variable, k);
    PlanRow(ws, top, line, variable, k + 1);
    LineGrows(ws[..k], top, line, variable);
    assert ws[..k + 1][..k] == ws[..k];
  }

  /** The heights the rows take in drawing once they are sized. */
  ghost function Heights(ws: seq<Want>, line: int, variable: bool): seq<int> {
    seq(|ws|, k requires 0 <= k < |ws| => RowHeight(ws[k].need, line, variable))
  }

  /** Once the line height is settled a pass tiles the plane. */
  lemma {:induction false} SettledTiles(ws: seq<Want>, top: int, line: int, variable: bool)
    requires variable || Plan(ws, top, line, variable).line == line
    ensures Tile(Tops(Plan(ws, top, line, variable).rows), Heights(ws, line, variable), top)
    ensures Plan(ws, top, line, variable).bottom == top + Total(Heights(ws, line, variable))
  {
    if ws != [] {
      var init, w := ws[..|ws| - 1], ws[|ws| - 1];
      var p, h := Plan(init, top, line, variable), RowHeight(w.need, line, variable);
      LineSettled(ws, top, line, variable);
      LineSettled(init, top, line, variable);
      SettledTiles(init, top, line, variable);
      SettledRow(ws, top, line, variable);
      TileSnoc(Tops(p.rows), Heights(init, line, variable), top, h);
    }
  }

  /** The last row of a settled pass. */
  lemma SettledRow(ws: seq<Want>, top: int, line: int, variable: bool)
    requires ws != [] && (variable || Plan(ws, top, line, variable).line == line)
    ensures var init, p := ws[..|ws| - 1], Plan(ws[..|ws| - 1], top, line, variable);
            var h := RowHeight(ws[|ws| - 1].need, line, variable);
            && Heights(ws, line, variable) == Heights(init, line, variable) + [h]
            && Tops(Plan(ws, top, line, variable).rows) == Tops(p.rows) + [p.bottom]
            && Plan(ws, top, line, variable).bottom == p.bottom + h
  {
    var init, w := ws[..|ws| - 1], ws[|ws| - 1];
    HeightsSnoc(init, w, line, variable);
    assert ws == init + [w];
    var p := Plan(init, top, line, variable);
    TopsSnoc(p.rows, Row(w.x, p.bottom, Byte(w.need)));
    assert !variable ==> Max(p.line, w.need) == line;
  }

  lemma HeightsSnoc(ws: seq<Want>, w: Want, line: int, variable: bool)
    ensures Heights(ws + [w], line, variable) == Heights(ws, line, variable) + [RowHeight(w.need, line, variable)]
  {
  }

  lemma TopsSnoc(rows: seq<Row>, r: Row)
    ensures Tops(rows + [r]) == Tops(rows) + [r.y]
  {
  }

  lemma TileSnoc(tops: seq<int>, heights: seq<int>, top: int, h: int)
    requires Tile(tops, heights, top)
    ensures Tile(tops + [top + Total(heights)], heights + [h], top)
    ensures Total(heights + [h]) == Total(heights) + h
  {
    TileTop(tops, heights, top, |tops|);
    assert heights[..|heights|] == heights;
    assert (heights + [h])[..|heights + [h]| - 1] == heights;
    var n, t, hs := |tops|, tops + [top + Total(heights)], heights + [h];
    assert n == 0 ==> heights == [];
    forall k | 0 <= k < |t| ensures TileAt(t, hs, top, k) {
      if k > 0 { assert t[k - 1] == tops[k - 1] && hs[k - 1] == heights[k - 1]; }
      if k < n { assert TileAt(tops, heights, top, k) && t[k] == tops[k]; }
    }
  }

  ghost function Tops(rows: seq<Row>): seq<int> {
    seq(|rows|, k requires 0 <= k < |rows| => rows[k].y)
  }

  // ------------------------------------------------------------------ bands

  /** Bands of the given heights, one below the other from `top`. */
  ghost predicate Tile(tops: seq<int>, heights: seq<int>, top: int) {
    && |tops| == |heights|
    && forall k {:trigger TileAt(tops, heights, top, k)} :: 0 <= k < |tops| ==> TileAt(tops, heights, top, k)
  }

  ghost predicate TileAt(tops: seq<int>, heights: seq<int>, top: int, k: nat)
    requires k < |tops| == |heights|
  {
    tops[k] == if k == 0 then top else tops[k - 1] + heights[k - 1]
  }

  ghost function Total(heights: seq<int>): int {
    if heights == [] then 0 else Total(heights[..|heights| - 1]) + heights[|heights| - 1]
  }

  /** `r` is the first band whose closed interval contains `y`; none contains it when `r` is -1. */
  ghost predicate FirstHit(tops: seq<int>, heights: seq<int>, y: int, r: int)
    requires |tops| == |heights|
  {
    && -1 <= r < |tops|
    && (r >= 0 ==> tops[r] <= y <= tops[r] + heights[r])
    && forall k :: 0 <= k < (if r < 0 then |tops| else r) ==> !(tops[k] <= y <= tops[k] + heights[k])
  }

  lemma {:induction false} TileTop(tops: seq<int>, heights: seq<int>, top: int, k: nat)
    requires Tile(tops, heights, top) && k <= |tops|
    ensures k < |tops| ==> tops[k] == top + Total(heights[..k])
    ensures k > 0 ==> tops[k - 1] + heights[k - 1] == top + Total(heights[..k])
  {
    if k < |tops| { assert TileAt(tops, heights, top, k); }
    if k > 0 {
      TileTop(tops, heights, top, k - 1);
      assert heights[..k][..k - 1] == heights[..k - 1];
    }
  }

  lemma {:induction false} TileOrder(tops: seq<int>, heights: seq<int>, top: int, j: nat, k: nat)
    requires Tile(tops, heights, top) && j < k < |tops|
    requires forall i :: 0 <= i < |heights| ==> heights[i] >= 0
    ensures tops[j] + heights[j] <= tops[k]
  {
    assert TileAt(tops, heights, top, k);
    if j < k - 1 {
      TileOrder(tops, heights, top, j, k - 1);
    }
  }

  /** The band below whose top a height of the tiling is. */
  lemma {:induction false} BandOf(tops: seq<int>, heights: seq<int>, top: int, y: int, n: nat) returns (k: nat)
    requires Tile(tops, heights, top) && 0 < n <= |tops| && top < y <= top + Total(heights[..n])
    ensures k < n && tops[k] < y <= tops[k] + heights[k]
  {
    TileTop(tops, heights, top, n);
    TileTop(tops, heights, top, n - 1);
    if tops[n - 1] < y {
      k := n - 1;
    } else {
      assert TileAt(tops, heights, top, 0);
      k := BandOf(tops, heights, top, y, n - 1);
    }
  }

  /** The hit test inverts the tiling: a point strictly below the top of a band and not below its
      bottom hits that band and no other; the very top edge hits the first band; a point outside hits
      nothing. */
  lemma HitInvertsTiling(tops: seq<int>, heights: seq<int>, top: int, y: int, r: int)
    requires Tile(tops, heights, top) && forall i :: 0 <= i < |heights| ==> heights[i] >= 0
    requires FirstHit(tops, heights, y, r)
    ensures forall k :: 0 <= k < |tops| && tops[k] < y <= tops[k] + heights[k] ==> r == k
    ensures y == top && tops != [] ==> r == 0
    ensures r == -1 <==> tops == [] || y < top || top + Total(heights) < y
  {
    forall k | 0 <= k < |tops| && tops[k] < y <= tops[k] + heights[k] ensures r == k {
      if 0 <= r < k { TileOrder(tops, heights, top, r, k); }
    }
    if tops != [] {
      var n := |tops|;
      assert TileAt(tops, heights, top, 0);
      TileTop(tops, heights, top, n);
      assert heights[..n] == heights;
      if top < y <= top + Total(heights) { var k := BandOf(tops, heights, top, y, n); }
      if r > 0 { TileOrder(tops, heights, top, 0, r); }
      if 0 <= r < n - 1 { TileOrder(tops, heights, top, r, n - 1); }
    }
  }
}
