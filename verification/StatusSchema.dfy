/** The status schema: servers placed in columns, the links between them, and the lines drawn for the
    links. */
module StatusSchema {
  import opened Basics
  import opened SchemaLayout

  class Server {
    const id: nat
    const column: nat
    const leaf: bool
    var rect: Rect
    var srcs: seq<Server>

    constructor (id: nat, column: nat, leaf: bool)
      ensures this.id == id && this.column == column && this.leaf == leaf && srcs == []
    {
      this.id, this.column, this.leaf := id, column, leaf;
      rect, srcs := Rect(0, 0, 0, 0), [];
    }
  }

  // ------------------------------------------------------------------ the servers that are wanted

  /** What a server was made from. */
  function Given(s: Server): (nat, nat, bool) {
    (s.id, s.column, s.leaf)
  }

  ghost predicate HasId(s: seq<Server>, id: nat) {
    exists i :: 0 <= i < |s| && s[i].id == id
  }

  /** `g` is wanted, and nothing before it has its id. */
  ghost predicate FirstWanted(wanted: seq<(nat, nat, bool)>, g: (nat, nat, bool)) {
    exists k :: 0 <= k < |wanted| && wanted[k] == g && forall j :: 0 <= j < k ==> wanted[j].0 != g.0
  }

  /** The servers are those wanted: of several with one id the first. */
  ghost predicate FirstsOf(s: seq<Server>, wanted: seq<(nat, nat, bool)>) {
    && (forall i :: 0 <= i < |s| ==> FirstWanted(wanted, Given(s[i])))
    && (forall k :: 0 <= k < |wanted| ==> HasId(s, wanted[k].0))
  }

  lemma OneMoreWanted(s: seq<Server>, t: seq<Server>, x: Server, wanted: seq<(nat, nat, bool)>, k: nat)
    requires k < |wanted| && Given(x) == wanted[k] && FirstsOf(s, wanted[..k])
    requires HasId(s, x.id) ==> t == s
    requires !HasId(s, x.id) ==> exists p :: 0 <= p <= |s| && t == s[..p] + [x] + s[p..]
    ensures FirstsOf(t, wanted[..k + 1])
    ensures forall y :: y in t ==> y == x || y in s
  {
    var more := wanted[..k + 1];
    forall i | 0 <= i < |s| ensures FirstWanted(more, Given(s[i])) { StillWanted(wanted, k, Given(s[i])); }
    if HasId(s, x.id) {
      forall j | 0 <= j < k + 1 ensures HasId(t, more[j].0) {
        if j < k { assert more[j] == wanted[..k][j]; }
      }
    } else {
      var p :| 0 <= p <= |s| && t == s[..p] + [x] + s[p..];
      assert FirstWanted(more, Given(x)) by {
        forall j | 0 <= j < k ensures more[j].0 != x.id { assert HasId(s, wanted[..k][j].0); }
        assert more[k] == Given(x);
      }
      forall i | 0 <= i < |t| ensures FirstWanted(more, Given(t[i])) {
        if i < p { assert t[i] == s[i]; } else if i > p { assert t[i] == s[i - 1]; }
      }
      forall j | 0 <= j < k + 1 ensures HasId(t, more[j].0) { StillThere(s, p, x, t, wanted, k, j); }
    }
  }

  lemma StillWanted(wanted: seq<(nat, nat, bool)>, k: nat, g: (nat, nat, bool))
    requires k < |wanted| && FirstWanted(wanted[..k], g)
    ensures FirstWanted(wanted[..k + 1], g)
  {
    var few, more := wanted[..k], wanted[..k + 1];
    var i :| 0 <= i < |few| && few[i] == g && forall j :: 0 <= j < i ==> few[j].0 != g.0;
    assert more[i] == g;
    assert forall j :: 0 <= j < i ==> more[j] == few[j];
  }

  lemma StillThere(s: seq<Server>, p: nat, x: Server, t: seq<Server>, wanted: seq<(nat, nat, bool)>, k: nat, j: nat)
    requires p <= |s| && t == s[..p] + [x] + s[p..] && j <= k < |wanted| && x.id == wanted[k].0
    requires j < k ==> HasId(s, wanted[..k][j].0)
    ensures HasId(t, wanted[j].0)
  {
    if j == k {
      assert t[p].id == wanted[j].0;
    } else {
      var i :| 0 <= i < |s| && s[i].id == wanted[..k][j].0;
      assert t[if i < p then i else i + 1] == s[i];
    }
  }

  // ------------------------------------------------------------------ servers in order

  ghost predicate Sorted(s: seq<Server>) {
    forall i, j {:trigger InOrder(s, i, j)} :: 0 <= i < j < |s| ==> InOrder(s, i, j)
  }

  ghost predicate InOrder(s: seq<Server>, i: nat, j: nat)
    requires i < |s| && j < |s|
  {
    s[i].id < s[j].id
  }

  lemma Different(s: seq<Server>, i: nat, j: nat)
    requires Sorted(s) && i < |s| && j < |s| && i != j
    ensures s[i] != s[j] && s[i].id != s[j].id
  {
    if i < j { assert InOrder(s, i, j); } else { assert InOrder(s, j, i); }
  }

  /** A new id goes behind the smaller ones. */
  lemma InsertedInOrder(s: seq<Server>, k: nat, x: Server)
    requires Sorted(s) && k <= |s| && (forall j :: 0 <= j < k ==> s[j].id < x.id) && (k < |s| ==> x.id < s[k].id)
    ensures Sorted(s[..k] + [x] + s[k..])
    ensures forall j :: 0 <= j < |s| ==> s[j].id != x.id
  {
    var t := s[..k] + [x] + s[k..];
    forall j | k <= j < |s| ensures x.id < s[j].id {
      if k < j { assert InOrder(s, k, j); }
    }
    forall i, j | 0 <= i < j < |t| ensures InOrder(t, i, j) {
      var i', j' := if i < k then i else i - 1, if j < k then j else j - 1;
      if i != k && j != k { assert InOrder(s, i', j'); }
    }
  }

  /** How many of the first `k` are in column `c`. */
  ghost function Rank(s: seq<Server>, c: nat, k: nat): nat
    requires k <= |s|
  {
    if k == 0 then 0 else Rank(s, c, k - 1) + (if s[k - 1].column == c then 1 else 0)
  }

  ghost function Count(s: seq<Server>, c: nat): nat {
    Rank(s, c, |s|)
  }

  /** A rank is a number of servers of the column. */
  lemma {:induction false} RankCounts(s: seq<Server>, c: nat, k: nat)
    requires k <= |s|
    ensures Rank(s, c, k) == |set i | 0 <= i < k && s[i].column == c|
  {
    var now := set i | 0 <= i < k && s[i].column == c;
    if k > 0 {
      RankCounts(s, c, k - 1);
      var before := set i | 0 <= i < k - 1 && s[i].column == c;
      assert now == before + (if s[k - 1].column == c then {k - 1} else {});
    }
  }

  lemma {:induction false} RankGrows(s: seq<Server>, c: nat, j: nat, k: nat)
    requires j <= k <= |s|
    ensures Rank(s, c, j) <= Rank(s, c, k)
    ensures j < k && s[j].column == c ==> Rank(s, c, j) < Rank(s, c, k)
  {
    if j < k { RankGrows(s, c, j, k - 1); }
  }

  /** One more server counts in its own column, for those behind it. */
  lemma {:induction false} RankInsert(s: seq<Server>, p: nat, x: Server, c: nat, k: nat)
    requires p <= |s| && k <= |s| + 1
    ensures Rank(s[..p] + [x] + s[p..], c, k) ==
            if k <= p then Rank(s, c, k) else Rank(s, c, k - 1) + (if x.column == c then 1 else 0)
  {
    if k > 0 { RankInsert(s, p, x, c, k - 1); }
  }

  // ------------------------------------------------------------------ links

  /** `src` sends to `dst`: streamdups to masterboxes, masterboxes that are not leaves to streamers. */
  predicate Feeds(src: Server, dst: Server) {
    || (src.column == STREAMDUP && dst.column == MASTERBOX)
    || (src.column == MASTERBOX && !src.leaf && (dst.column == RTMP || dst.column == HLS))
  }

  datatype Link = Link(src: Option<Server>, dsts: seq<Server>)

  /** Of the first `k` servers, in order, those that feed `dst`, and those that `src` feeds. */
  ghost function Sources(s: seq<Server>, dst: Server, k: nat): seq<Server>
    requires k <= |s|
  {
    if k == 0 then [] else Sources(s, dst, k - 1) + (if Feeds(s[k - 1], dst) then [s[k - 1]] else [])
  }

  ghost function Targets(s: seq<Server>, src: Server, k: nat): seq<Server>
    requires k <= |s|
  {
    if k == 0 then [] else Targets(s, src, k - 1) + (if Feeds(src, s[k - 1]) then [s[k - 1]] else [])
  }

  function LinkFrom(src: Server, dsts: seq<Server>): Link {
    Link(if dsts == [] then None else Some(src), dsts)
  }

  /** The links of one server: a streamdup is also linked from the border. */
  ghost function LinksOf(s: seq<Server>, src: Server): seq<Link> {
    var l := LinkFrom(src, Targets(s, src, |s|));
    if src.column == STREAMDUP then [Link(None, [src]), l]
    else if src.column == MASTERBOX && !src.leaf then [l]
    else []
  }

  ghost function Parts(s: seq<Server>): (parts: seq<seq<Link>>)
    ensures |parts| == |s| && forall k {:trigger parts[k]} :: 0 <= k < |s| ==> parts[k] == LinksOf(s, s[k])
  {
    seq(|s|, k requires 0 <= k < |s| => LinksOf(s, s[k]))
  }

  /** The links of all servers, in the order of the servers. */
  ghost function Wiring(s: seq<Server>): seq<Link> {
    Flat(Parts(s), |s|)
  }

  ghost predicate AreParts(s: seq<Server>, parts: seq<seq<Link>>) {
    |parts| == |s| && forall k {:trigger IsPart(s, parts, k)} :: 0 <= k < |s| ==> IsPart(s, parts, k)
  }

  ghost predicate IsPart(s: seq<Server>, parts: seq<seq<Link>>, k: nat)
    requires k < |s| == |parts|
  {
    parts[k] == LinksOf(s, s[k])
  }

  lemma PartsOf(s: seq<Server>) returns (parts: seq<seq<Link>>)
    ensures AreParts(s, parts) && Flat(parts, |s|) == Wiring(s)
  {
    parts := Parts(s);
  }

  /** The first `k` parts, one after the other. */
  ghost function Flat<T>(parts: seq<seq<T>>, k: nat): seq<T>
    requires k <= |parts|
  {
    if k == 0 then [] else Flat(parts, k - 1) + parts[k - 1]
  }

  lemma {:induction false} FlatAt<T>(parts: seq<seq<T>>, k: nat, i: nat) returns (j: nat, m: nat)
    requires k <= |parts| && i < |Flat(parts, k)|
    ensures j < k && m < |parts[j]| && Flat(parts, k)[i] == parts[j][m]
  {
    var n := |Flat(parts, k - 1)|;
    if i < n {
      j, m := FlatAt(parts, k - 1, i);
    } else {
      j, m := k - 1, i - n;
    }
  }

  lemma {:induction false} FlatHas<T>(parts: seq<seq<T>>, k: nat, j: nat, m: nat) returns (i: nat)
    requires j < k <= |parts| && m < |parts[j]|
    ensures i < |Flat(parts, k)| && Flat(parts, k)[i] == parts[j][m]
  {
    if j == k - 1 {
      i := |Flat(parts, k - 1)| + m;
    } else {
      i := FlatHas(parts, k - 1, j, m);
    }
  }

  /** Sources and targets are the two sides of feeding. */
  lemma {:induction false} SourcesAre(s: seq<Server>, dst: Server, k: nat)
    requires k <= |s|
    ensures forall i :: 0 <= i < |Sources(s, dst, k)| ==>
              Sources(s, dst, k)[i] in s[..k] && Feeds(Sources(s, dst, k)[i], dst)
    ensures forall j :: 0 <= j < k && Feeds(s[j], dst) ==> s[j] in Sources(s, dst, k)
  {
    if k > 0 {
      SourcesAre(s, dst, k - 1);
      assert s[..k] == s[..k - 1] + [s[k - 1]];
    }
  }

  lemma {:induction false} TargetsAre(s: seq<Server>, src: Server, k: nat)
    requires k <= |s|
    ensures forall i :: 0 <= i < |Targets(s, src, k)| ==>
              Targets(s, src, k)[i] in s[..k] && Feeds(src, Targets(s, src, k)[i])
    ensures forall j :: 0 <= j < k && Feeds(src, s[j]) ==> s[j] in Targets(s, src, k)
  {
    if k > 0 {
      TargetsAre(s, src, k - 1);
      assert s[..k] == s[..k - 1] + [s[k - 1]];
    }
  }

  // ------------------------------------------------------------------ lines

  /** Place of the server with that id in a list, from 1; one past the end if it is not there. */
  ghost function Position(srcs: seq<Server>, id: nat): nat {
    if srcs == [] || srcs[0].id == id then 1 else 1 + Position(srcs[1..], id)
  }

  function Middle(r: Rect): int { r.y + r.height / 2 }

  /** The distance between two lines that enter a box of that height from `n` sources. */
  function Step(height: nat, n: nat): nat {
    Share(height, n + 1)
  }

  /** The line to a box from the left border, or from the right one. */
  function BorderLine(column: nat, d: Rect): Line {
    if column == STREAMDUP then Line(Point(0, Middle(d)), Point(d.x, Middle(d)), true)
    else Line(Point(WIDTH, Middle(d)), Point(d.x + d.width, Middle(d)), true)
  }

  /** From the side of one box, over, up or down, and over again into another, at height `y`. */
  function Route(s: Rect, d: Rect, y: int, nb: nat): (Line, Line, Line) {
    var toRight := s.x < d.x;
    var xSrc := if toRight then s.x + s.width else s.x;
    var xDst := if toRight then d.x else d.x + d.width;
    var x := if toRight then xSrc + nb * MARGIN else xSrc - nb * MARGIN;
    (Line(Point(xSrc, Middle(s)), Point(x, Middle(s)), false),
     Line(Point(x, Middle(s)), Point(x, y), false),
     Line(Point(x, y), Point(xDst, y), true))
  }

  /** Where the line from `src` enters `dst`. */
  ghost function EntryY(src: Server, dst: Server): int
    requires dst.rect.height >= 0
    reads dst`rect, dst`srcs
  {
    dst.rect.y + Step(dst.rect.height, |dst.srcs|) * Position(dst.srcs, src.id)
  }

  /** The three lines from the right side of `src` to the left side of `dst`. */
  ghost predicate Joins(src: Server, dst: Server, nb: nat, first: Line, up: Line, last: Line)
    requires dst.rect.height >= 0
    reads src`rect, dst`rect, dst`srcs
  {
    var right, middle := src.rect.x + src.rect.width, src.rect.y + src.rect.height / 2;
    var x, y := right + 25 * nb, EntryY(src, dst);
    && first == Line(Point(right, middle), Point(x, middle), false)
    && up == Line(Point(x, middle), Point(x, y), false)
    && last == Line(Point(x, y), Point(dst.rect.x, y), true)
  }

  lemma RouteJoins(src: Server, dst: Server, nb: nat, first: Line, up: Line, last: Line)
    requires dst.rect.height >= 0 && src.rect.x < dst.rect.x
    requires (first, up, last) == Route(src.rect, dst.rect, EntryY(src, dst), nb)
    ensures Joins(src, dst, nb, first, up, last)
  {
  }

  /** So the first line starts at the right side of the one at its middle, each line starts where the one before it
      ends, and the last ends with an arrow at the left side of the other. */
  lemma LinesMeet(src: Server, dst: Server, nb: nat, first: Line, up: Line, last: Line)
    requires dst.rect.height >= 0 && Joins(src, dst, nb, first, up, last)
    ensures first.from == Point(src.rect.x + src.rect.width, src.rect.y + src.rect.height / 2)
    ensures first.to == up.from && up.to == last.from && last.to == Point(dst.rect.x, EntryY(src, dst))
    ensures Horizontal(first) && Vertical(up) && Horizontal(last) && !first.arrow && !up.arrow && last.arrow
    ensures up.from.x == src.rect.x + src.rect.width + 25 * nb
  {
  }

  /** What the asserts on a link demand: from the border only to a streamdup or an RTMP streamer, and
      otherwise only to a server that has sources. */
  ghost predicate Linkable(s: seq<Server>, l: Link)
    reads s`rect, s`srcs
  {
    && (l.src.Some? ==> l.src.value in s)
    && forall k :: 0 <= k < |l.dsts| ==>
         && l.dsts[k] in s && l.dsts[k].rect.height >= 0
         && (if l.src.None? then l.dsts[k].column == STREAMDUP || l.dsts[k].column == RTMP else l.dsts[k].srcs != [])
  }

  ghost predicate AllLinkable(s: seq<Server>, links: seq<Link>)
    reads s`rect, s`srcs
  {
    forall i {:trigger Linkable(s, links[i])} :: 0 <= i < |links| ==> Linkable(s, links[i])
  }

  /** The lines of the first `k` branches of the link numbered `nb`. */
  ghost function HorizontalOf(s: seq<Server>, l: Link, nb: nat, k: nat): seq<Line>
    requires k <= |l.dsts| && Linkable(s, l)
    reads s`rect, s`srcs
  {
    if k == 0 then []
    else
      var d := l.dsts[k - 1];
      HorizontalOf(s, l, nb, k - 1)
      + (if l.src.None? then [BorderLine(d.column, d.rect)]
         else var r := Route(l.src.value.rect, d.rect, EntryY(l.src.value, d), nb); [r.0, r.2])
  }

  ghost function VerticalOf(s: seq<Server>, l: Link, nb: nat, k: nat): seq<Line>
    requires k <= |l.dsts| && Linkable(s, l)
    reads s`rect, s`srcs
  {
    if k == 0 || l.src.None? then []
    else
      var d := l.dsts[k - 1];
      VerticalOf(s, l, nb, k - 1) + [Route(l.src.value.rect, d.rect, EntryY(l.src.value, d), nb).1]
  }

  /** The lines of the first `k` links, numbered from 1. */
  ghost function AllHorizontal(s: seq<Server>, links: seq<Link>, k: nat): seq<Line>
    requires k <= |links| && AllLinkable(s, links)
    reads s`rect, s`srcs
  {
    if k == 0 then []
    else
      assert Linkable(s, links[k - 1]);
      AllHorizontal(s, links, k - 1) + HorizontalOf(s, links[k - 1], k, |links[k - 1].dsts|)
  }

  ghost function AllVertical(s: seq<Server>, links: seq<Link>, k: nat): seq<Line>
    requires k <= |links| && AllLinkable(s, links)
    reads s`rect, s`srcs
  {
    if k == 0 then []
    else
      assert Linkable(s, links[k - 1]);
      AllVertical(s, links, k - 1) + VerticalOf(s, links[k - 1], k, |links[k - 1].dsts|)
  }

  ghost function BoxAt(s: seq<Server>, k: nat): Rect
    requires k < |s|
  {
    Box(s[k].column, Rank(s, s[k].column, k) + 1, Count(s, s[k].column))
  }

  class Schema {
    var servers: seq<Server>
    var links: seq<Link>
    var hLines: seq<Line>
    var vLines: seq<Line>

    constructor ()
      ensures servers == [] && links == [] && hLines == [] && vLines == []
    {
      servers, links, hLines, vLines := [], [], [], [];
    }

    method Reset()
      modifies this
      ensures servers == [] && links == [] && hLines == [] && vLines == [] && Placed()
    {
      servers, links, hLines, vLines := [], [], [], [];
    }

    // ---------------------------------------------------------------- layout

    /** Every server of the four columns has the box of its rank among the servers of its column. */
    ghost predicate Placed()
      reads this`servers, servers`rect
    {
      Sorted(servers) && forall k {:trigger BoxAt(servers, k)} :: 0 <= k < |servers| && servers[k].column <= HLS ==>
        servers[k].rect == BoxAt(servers, k)
    }

    ghost predicate ColumnPlaced(c: nat)
      reads this`servers, servers`rect
    {
      forall k {:trigger BoxAt(servers, k)} :: 0 <= k < |servers| && servers[k].column == c ==>
        servers[k].rect == BoxAt(servers, k)
    }

    /** Insertion into the set ordered by id: nothing happens when the id is there. */
    method Insert(s: Server) returns (ghost p: nat)
      requires Sorted(servers)
      modifies this`servers
      ensures Sorted(servers) && p <= |old(servers)|
      ensures (exists k :: 0 <= k < |old(servers)| && old(servers)[k].id == s.id) ==> servers == old(servers)
      ensures (forall k :: 0 <= k < |old(servers)| ==> old(servers)[k].id != s.id) ==>
                servers == old(servers)[..p] + [s] + old(servers)[p..]
    {
      var k := 0;
      while k < |servers| && servers[k].id < s.id
        invariant k <= |servers| && servers == old(servers)
        invariant forall j :: 0 <= j < k ==> servers[j].id < s.id
      {
        k := k + 1;
      }
      p := k;
      if k < |servers| && servers[k].id == s.id { return; }
      InsertedInOrder(servers, k, s);
      servers := servers[..k] + [s] + servers[k..];
    }

    method CountColumn(c: nat) returns (n: nat)
      ensures n == Count(servers, c)
    {
      n := 0;
      var k := 0;
      while k < |servers|
        invariant k <= |servers| && n == Rank(servers, c, k)
      {
        if servers[k].column == c { n := n + 1; }
        k := k + 1;
      }
    }

    /** The vertical position of the n-th box as the machine computes it. */
    function MachineTop(c: nat, yMargin: nat, n: nat, height: nat): int {
      if c == MASTERBOX then MachineY(yMargin, n, height)
      else if c == RTMP then Signed(Unsigned(512 - yMargin * n - height / 2))
      else Signed(Unsigned(512 + yMargin * n - height / 2))
    }

    lemma MachineTopIsTop(c: nat, n: nat, count: nat)
      requires c in {MASTERBOX, RTMP, HLS} && 1 <= n <= count
      ensures var m := YMargin(c, count); MachineTop(c, m, n, BoxHeight(m)) == Box(c, n, count).y
    {
      if c == MASTERBOX {
        MachineYIsIntended(n, count);
      } else {
        var m := YMargin(c, count);
        BoxInside(c, n, count);
        assert m * (0 - n) == 0 - m * n;
        SignedOfUnsigned(Box(c, n, count).y);
      }
    }

    /** The height and the vertical position of the n-th server of a column. */
    method PlaceOne(s: Server, yMargin: nat, n: nat, ghost k: nat)
      requires k < |servers| && servers[k] == s && s.column in {MASTERBOX, RTMP, HLS}
      requires n == Rank(servers, s.column, k) + 1 && yMargin == YMargin(s.column, Count(servers, s.column))
      requires s.rect.x == Left(s.column) && s.rect.width == BOX_WIDTH
      modifies s`rect
      ensures s.rect == BoxAt(servers, k) && s.rect.x == Left(s.column) && s.rect.width == BOX_WIDTH
    {
      ghost var count := Count(servers, s.column);
      var h := BoxHeight(yMargin);
      RankGrows(servers, s.column, k, |servers|);
      MachineTopIsTop(s.column, n, count);
      s.rect := s.rect.(height := h, y := MachineTop(s.column, yMargin, n, h));
    }

    /** How far the placing of column `c` is: the first `k` of its servers stand at `boxes`, all of them
        have their x and width, and the others stand where they `were`. */
    ghost predicate PlacedAt(c: nat, were: seq<Rect>, boxes: seq<Rect>, j: nat, k: nat)
      requires j < |servers| == |boxes| == |were|
      reads this`servers, servers`rect
    {
      if servers[j].column == c then
        && servers[j].rect.x == Left(c) && servers[j].rect.width == BOX_WIDTH
        && (j < k ==> servers[j].rect == boxes[j])
      else servers[j].rect == were[j]
    }

    ghost predicate PlacedUpTo(c: nat, were: seq<Rect>, boxes: seq<Rect>, k: nat)
      reads this`servers, servers`rect
    {
      && |servers| == |boxes| == |were|
      && forall j {:trigger PlacedAt(c, were, boxes, j, k)} :: 0 <= j < |servers| ==> PlacedAt(c, were, boxes, j, k)
    }

    method PlaceNext(c: nat, yMargin: nat, n: nat, k: nat, ghost were: seq<Rect>, ghost boxes: seq<Rect>)
        returns (m: nat)
      requires Sorted(servers) && c in {MASTERBOX, RTMP, HLS} && k < |servers| && PlacedUpTo(c, were, boxes, k)
      requires boxes[k] == BoxAt(servers, k)
      requires n == Rank(servers, c, k) + 1 && yMargin == YMargin(c, Count(servers, c))
      modifies servers`rect
      ensures PlacedUpTo(c, were, boxes, k + 1) && m == Rank(servers, c, k + 1) + 1
    {
      m := n;
      ghost var next := k + 1;
      assert PlacedAt(c, were, boxes, k, k);
      if servers[k].column == c {
        PlaceOne(servers[k], yMargin, n, k);
        m := n + 1;
      }
      forall j | 0 <= j < |servers| ensures PlacedAt(c, were, boxes, j, next) {
        assert old(PlacedAt(c, were, boxes, j, k));
        if j != k { Different(servers, j, k); }
      }
    }

    /** Places all servers of one of the last three columns again; `server` gets the column's x and width. */
    method ComputeCoord(server: Server)
      requires Sorted(servers) && server.column in {MASTERBOX, RTMP, HLS}
      requires InColumn(server.column, server)
      modifies server`rect, servers`rect
      ensures ColumnPlaced(server.column)
      ensures forall k ::
                0 <= k < |servers| && servers[k].column != server.column ==> servers[k].rect == old(servers[k].rect)
    {
      var c := server.column;
      var count := CountColumn(c);
      server.rect := server.rect.(x := Left(c), width := BOX_WIDTH);
      var yMargin := YMargin(c, count);
      ghost var were, boxes := PlacingStart(c);
      PlaceAll(c, yMargin, were, boxes);
      AllPlaced(c, were, boxes);
    }

    /** The loop over all servers. */
    method PlaceAll(c: nat, yMargin: nat, ghost were: seq<Rect>, ghost boxes: seq<Rect>)
      requires Sorted(servers) && c in {MASTERBOX, RTMP, HLS} && PlacedUpTo(c, were, boxes, 0)
      requires |boxes| == |servers|
      requires forall j {:trigger boxes[j]} :: 0 <= j < |servers| ==> boxes[j] == BoxAt(servers, j)
      requires yMargin == YMargin(c, Count(servers, c))
      modifies servers`rect
      ensures PlacedUpTo(c, were, boxes, |servers|)
    {
      ghost var all := servers;
      var n := 1;
      var k := 0;
      while k < |servers|
        invariant k <= |servers| && servers == all && n == Rank(all, c, k) + 1
        invariant PlacedUpTo(c, were, boxes, k)
      {
        n := PlaceNext(c, yMargin, n, k, were, boxes);
        k := k + 1;
      }
    }

    lemma AllPlaced(c: nat, were: seq<Rect>, boxes: seq<Rect>)
      requires Sorted(servers) && PlacedUpTo(c, were, boxes, |servers|)
      requires |were| == |boxes| == |servers|
      requires forall j {:trigger boxes[j]} :: 0 <= j < |servers| ==> boxes[j] == BoxAt(servers, j)
      ensures ColumnPlaced(c)
      ensures forall j :: 0 <= j < |servers| && servers[j].column != c ==> servers[j].rect == were[j]
    {
      forall j | 0 <= j < |servers|
        ensures servers[j].rect == if servers[j].column == c then BoxAt(servers, j) else were[j]
      {
        assert PlacedAt(c, were, boxes, j, |servers|);
      }
    }

    lemma PlacingStart(c: nat) returns (were: seq<Rect>, boxes: seq<Rect>)
      requires forall j :: 0 <= j < |servers| && servers[j].column == c ==>
                 servers[j].rect.x == Left(c) && servers[j].rect.width == BOX_WIDTH
      ensures PlacedUpTo(c, were, boxes, 0)
      ensures |were| == |servers| && forall j :: 0 <= j < |servers| ==> were[j] == servers[j].rect
      ensures |boxes| == |servers|
      ensures forall j {:trigger boxes[j]} :: 0 <= j < |servers| ==> boxes[j] == BoxAt(servers, j)
    {
      were := seq(|servers|, j requires 0 <= j < |servers| reads this, servers => servers[j].rect);
      boxes := seq(|servers|, j requires 0 <= j < |servers| reads this => BoxAt(servers, j));
    }

    /** The other servers of a column have its x and width already. */
    ghost predicate InColumn(c: nat, but: Server)
      reads this`servers, servers`rect
    {
      forall k :: 0 <= k < |servers| && servers[k].column == c && servers[k] != but ==>
        servers[k].rect.x == Left(c) && servers[k].rect.width == BOX_WIDTH
    }

    method AddServer(s: Server)
      requires Placed()
      modifies this`servers, servers`rect, s`rect
      ensures Placed()
      ensures (exists k :: 0 <= k < |old(servers)| && old(servers)[k].id == s.id) ==> servers == old(servers)
      ensures (forall k :: 0 <= k < |old(servers)| ==> old(servers)[k].id != s.id) ==>
                exists p :: 0 <= p <= |old(servers)| && servers == old(servers)[..p] + [s] + old(servers)[p..]
    {
      ghost var was := servers;
      ghost var p := Insert(s);
      label inserted:
      OtherColumns(was, p, s);
      if s.column == STREAMDUP {
        s.rect := Rect(Left(STREAMDUP), 512 - BOX_HEIGHT / 2, BOX_WIDTH, BOX_HEIGHT);
      } else if s.column <= HLS {
        ComputeCoord(s);
      }
    }

    /** An insertion leaves the other columns as they are. */
    lemma OtherColumns(was: seq<Server>, p: nat, s: Server)
      requires p <= |was| && (servers == was || servers == was[..p] + [s] + was[p..])
      requires forall k {:trigger BoxAt(was, k)} ::
                 0 <= k < |was| && was[k].column <= HLS ==> was[k].rect == BoxAt(was, k)
      ensures forall k {:trigger BoxAt(servers, k)} ::
                (0 <= k < |servers| && servers[k].column <= HLS && servers[k] != s
                 && (servers[k].column != s.column || s.column == STREAMDUP)) ==> servers[k].rect == BoxAt(servers, k)
      ensures s.column <= HLS ==> InColumn(s.column, s)
    {
      forall k | 0 <= k < |servers| && servers[k] != s && servers[k].column <= HLS
        ensures servers[k].rect.x == Left(servers[k].column) && servers[k].rect.width == BOX_WIDTH
        ensures servers[k].column != s.column || s.column == STREAMDUP ==> servers[k].rect == BoxAt(servers, k)
      {
        OtherColumn(was, p, s, k);
      }
    }

    lemma OtherColumn(was: seq<Server>, p: nat, s: Server, k: nat)
      requires p <= |was| && (servers == was || servers == was[..p] + [s] + was[p..])
      requires forall k {:trigger BoxAt(was, k)} ::
                 0 <= k < |was| && was[k].column <= HLS ==> was[k].rect == BoxAt(was, k)
      requires k < |servers| && servers[k].column <= HLS && servers[k] != s
      ensures servers[k].rect.x == Left(servers[k].column) && servers[k].rect.width == BOX_WIDTH
      ensures servers[k].column != s.column || s.column == STREAMDUP ==> servers[k].rect == BoxAt(servers, k)
    {
      if servers == was {
        assert was[k].rect == BoxAt(was, k);
      } else {
        var j := if k < p then k else k - 1;
        assert servers[k] == was[j] && was[j].rect == BoxAt(was, j);
        RankInsert(was, p, s, servers[k].column, k);
        RankInsert(was, p, s, servers[k].column, |was| + 1);
      }
    }

    /** However many servers were added: no box leaves the canvas, and two boxes overlap only if both are
        streamdups. */
    lemma NoOverlap(j: nat, k: nat)
      requires Placed() && j < |servers| && k < |servers| && servers[j].column <= HLS && servers[k].column <= HLS
      ensures Inside(servers[j].rect)
      ensures j != k && !(servers[j].column == servers[k].column == STREAMDUP)
              ==> Apart(servers[j].rect, servers[k].rect)
    {
      RankFacts(j, k);
      assert servers[j].rect == BoxAt(servers, j) && servers[k].rect == BoxAt(servers, k);
      var c, d := servers[j].column, servers[k].column;
      BoxInside(c, Rank(servers, c, j) + 1, Count(servers, c));
      if j != k && !(c == d == STREAMDUP) {
        BoxesApart(c, Rank(servers, c, j) + 1, Count(servers, c), d, Rank(servers, d, k) + 1, Count(servers, d));
      }
    }

    /** Where a server of the last three columns stands and how high it is: it is the `n`-th of the `count` of its
        column in the order of the ids. */
    lemma WhereServersStand(k: nat) returns (m: nat, h: nat, n: nat, count: nat)
      requires Placed() && k < |servers| && servers[k].column in {MASTERBOX, RTMP, HLS}
      ensures n == |set i | 0 <= i <= k && servers[i].column == servers[k].column|
      ensures count == |set i | 0 <= i < |servers| && servers[i].column == servers[k].column|
      ensures var parts := if servers[k].column == MASTERBOX then (count + 1) / 2 + 1 else count + 1;
              m * parts <= 512 < (m + 1) * parts
      ensures if m < 306 then 3 * h <= 2 * m < 3 * (h + 1) else h == 204
      ensures m >= 2 ==> h > 0
      ensures var c, b := servers[k].column, servers[k].rect;
              && b.x == (if c == MASTERBOX then 564 else 999) && b.width == 153 && b.height == h
              && b.y + h / 2 == 512 + (if c == RTMP then -(m * n)
                                       else if c == HLS then m * n
                                       else if n % 2 == 1 then -(m * ((n + 1) / 2))
                                       else m * (n / 2))
    {
      var c := servers[k].column;
      n, count := Rank(servers, c, k) + 1, Count(servers, c);
      RankFacts(k, k);
      m, h := BoxPlace(c, n, count);
      assert servers[k].rect == BoxAt(servers, k);
      RankCounts(servers, c, k + 1);
      RankCounts(servers, c, |servers|);
      assert (set i | 0 <= i <= k && servers[i].column == c) == set i | 0 <= i < k + 1 && servers[i].column == c;
    }

    /** A streamdup stands at the one place for streamdups. */
    lemma WhereDupsStand(k: nat)
      requires Placed() && k < |servers| && servers[k].column == STREAMDUP
      ensures servers[k].rect == Rect(128, 410, 153, 204)
    {
      assert servers[k].rect == BoxAt(servers, k);
      DupPlace(Rank(servers, STREAMDUP, k) + 1, Count(servers, STREAMDUP));
    }

    /** Two servers of one of these columns have the same height, and between them is at least the third of their
        distance that is not box. */
    lemma GapBetween(j: nat, k: nat) returns (m: nat)
      requires Placed() && j < |servers| && k < |servers| && j != k
      requires servers[j].column == servers[k].column && servers[k].column in {MASTERBOX, RTMP, HLS}
      ensures var count := |set i | 0 <= i < |servers| && servers[i].column == servers[k].column|;
              var parts := if servers[k].column == MASTERBOX then (count + 1) / 2 + 1 else count + 1;
              m * parts <= 512 < (m + 1) * parts
      ensures servers[j].rect.height == servers[k].rect.height <= m
      ensures servers[j].rect.y + m <= servers[k].rect.y || servers[k].rect.y + m <= servers[j].rect.y
    {
      var c := servers[k].column;
      RankFacts(j, k);
      RankCounts(servers, c, |servers|);
      assert servers[j].rect == BoxAt(servers, j) && servers[k].rect == BoxAt(servers, k);
      var h;
      m, h := BoxPlace(c, Rank(servers, c, k) + 1, Count(servers, c));
      BoxesSpread(c, Rank(servers, c, j) + 1, Rank(servers, c, k) + 1, Count(servers, c), m);
    }

    lemma RankFacts(j: nat, k: nat)
      requires j < |servers| && k < |servers|
      ensures var c, d := servers[j].column, servers[k].column;
              && Rank(servers, c, j) + 1 <= Count(servers, c) && Rank(servers, d, k) + 1 <= Count(servers, d)
              && (c == d && j != k ==> Rank(servers, c, j) != Rank(servers, d, k))
    {
      var c, d := servers[j].column, servers[k].column;
      RankGrows(servers, c, j, |servers|);
      RankGrows(servers, d, k, |servers|);
      if j < k { RankGrows(servers, c, j, k); } else { RankGrows(servers, d, k, j); }
    }

    // ---------------------------------------------------------------- wiring

    /** Links `src` to all it feeds, and makes it a source of each. */
    method Connect(src: Server) returns (l: Link)
      requires Sorted(servers)
      modifies servers`srcs
      ensures l == LinkFrom(src, Targets(servers, src, |servers|))
      ensures forall k :: 0 <= k < |servers| ==>
                servers[k].srcs == old(servers[k].srcs) + (if Feeds(src, servers[k]) then [src] else [])
    {
      l := Link(None, []);
      var k := 0;
      while k < |servers|
        invariant k <= |servers| && l == LinkFrom(src, Targets(servers, src, k))
        invariant forall j :: 0 <= j < |servers| ==>
                    servers[j].srcs == old(servers[j].srcs) + (if j < k && Feeds(src, servers[j]) then [src] else [])
      {
        var dst := servers[k];
        forall j | 0 <= j < |servers| && j != k ensures servers[j] != dst { Different(servers, j, k); }
        if Feeds(src, dst) {
          l := Link(Some(src), l.dsts + [dst]);
          dst.srcs := dst.srcs + [src];
        }
        k := k + 1;
      }
    }

    /** The links of one server. */
    method LinkServer(src: Server)
      requires Sorted(servers)
      modifies this`links, servers`srcs
      ensures links == old(links) + LinksOf(servers, src)
      ensures forall k :: 0 <= k < |servers| ==>
                servers[k].srcs == old(servers[k].srcs) + (if Feeds(src, servers[k]) then [src] else [])
    {
      if src.column == STREAMDUP {
        links := links + [Link(None, [src])];
        var l := Connect(src);
        links := links + [l];
      } else if src.column == MASTERBOX && !src.leaf {
        var l := Connect(src);
        links := links + [l];
      }
    }

    ghost function Srcs(): (r: seq<seq<Server>>)
      reads this, servers
      ensures |r| == |servers| && forall j :: 0 <= j < |servers| ==> r[j] == servers[j].srcs
      ensures Added(r, 0)
    {
      var r := seq(|servers|, j requires 0 <= j < |servers| reads this, servers => servers[j].srcs);
      assert forall j :: 0 <= j < |servers| ==> AddedAt(r, j, 0);
      r
    }

    /** Each server had the sources `was`, and those of the first `k` were added. */
    ghost predicate Added(was: seq<seq<Server>>, k: nat)
      requires k <= |servers|
      reads this`servers, servers`srcs
    {
      && |was| == |servers|
      && forall j {:trigger AddedAt(was, j, k)} :: 0 <= j < |servers| ==> AddedAt(was, j, k)
    }

    ghost predicate AddedAt(was: seq<seq<Server>>, j: nat, k: nat)
      requires j < |servers| == |was| && k <= |servers|
      reads this`servers, servers`srcs
    {
      servers[j].srcs == was[j] + Sources(servers, servers[j], k)
    }

    method LinkNext(k: nat, ghost was: seq<seq<Server>>, ghost links0: seq<Link>, ghost parts: seq<seq<Link>>)
      requires Sorted(servers) && k < |servers| && Added(was, k) && AreParts(servers, parts)
      requires links == links0 + Flat(parts, k)
      modifies this`links, servers`srcs
      ensures links == links0 + Flat(parts, k + 1) && Added(was, k + 1)
    {
      assert IsPart(servers, parts, k);
      LinkServer(servers[k]);
      ghost var next := k + 1;
      forall j | 0 <= j < |servers| ensures AddedAt(was, j, next) {
        assert old(AddedAt(was, j, k));
        assert Sources(servers, servers[j], next) ==
               Sources(servers, servers[j], k) + (if Feeds(servers[k], servers[j]) then [servers[k]] else []);
      }
    }

    method LinkAllServers()
      requires Sorted(servers)
      modifies this`links, servers`srcs
      ensures links == old(links) + Wiring(servers)
      ensures forall k {:trigger servers[k].srcs} :: 0 <= k < |servers| ==>
                servers[k].srcs == old(servers[k].srcs) + Sources(servers, servers[k], |servers|)
    {
      ghost var was := Srcs();
      ghost var parts := PartsOf(servers);
      LinkEach(was, parts);
      AllAdded(was);
    }

    /** The loop over the servers. */
    method LinkEach(ghost was: seq<seq<Server>>, ghost parts: seq<seq<Link>>)
      requires Sorted(servers) && Added(was, 0) && AreParts(servers, parts)
      modifies this`links, servers`srcs
      ensures links == old(links) + Flat(parts, |servers|) && Added(was, |servers|)
    {
      ghost var links0 := links;
      var k := 0;
      while k < |servers|
        invariant k <= |servers| && links == links0 + Flat(parts, k) && Added(was, k)
      {
        LinkNext(k, was, links0, parts);
        k := k + 1;
      }
    }

    lemma AllAdded(was: seq<seq<Server>>)
      requires Added(was, |servers|)
      ensures |was| == |servers|
      ensures forall k {:trigger servers[k].srcs} :: 0 <= k < |servers| ==>
                servers[k].srcs == was[k] + Sources(servers, servers[k], |servers|)
    {
      forall k | 0 <= k < |servers| ensures servers[k].srcs == was[k] + Sources(servers, servers[k], |servers|) {
        assert AddedAt(was, k, |servers|);
      }
    }

    /** The state after a reset, any number of servers without sources, and one linking. */
    ghost predicate Ready()
      reads this`servers, this`links, servers`rect, servers`srcs
    {
      && Placed()
      && links == Wiring(servers)
      && forall k {:trigger servers[k].srcs} :: 0 <= k < |servers| ==>
           servers[k].srcs == Sources(servers, servers[k], |servers|)
    }

    method LinkOnce()
      requires Placed() && links == [] && forall k :: 0 <= k < |servers| ==> servers[k].srcs == []
      modifies this`links, servers`srcs
      ensures Ready()
    {
      LinkAllServers();
    }

    // ---------------------------------------------------------------- lines

    method PositionOf(srcs: seq<Server>, id: nat) returns (pos: nat)
      ensures pos == Position(srcs, id)
    {
      pos := 1;
      var k := 0;
      while k < |srcs| && srcs[k].id != id
        invariant k <= |srcs| && pos == k + 1
        invariant k + Position(srcs[k..], id) == Position(srcs, id)
      {
        pos := pos + 1;
        k := k + 1;
      }
    }

    /** The lines of one link. */
    method ComputeLink(link: Link, nb: nat)
      requires Linkable(servers, link)
      modifies this`hLines, this`vLines
      ensures hLines == old(hLines) + HorizontalOf(servers, link, nb, |link.dsts|)
      ensures vLines == old(vLines) + VerticalOf(servers, link, nb, |link.dsts|)
    {
      ghost var h, v := hLines, vLines;
      var k := 0;
      while k < |link.dsts|
        invariant k <= |link.dsts|
        invariant hLines == h + HorizontalOf(servers, link, nb, k)
        invariant vLines == v + VerticalOf(servers, link, nb, k)
      {
        ComputeBranch(link, nb, k, h, v);
        k := k + 1;
      }
    }

    method ComputeBranch(link: Link, nb: nat, k: nat, ghost h: seq<Line>, ghost v: seq<Line>)
      requires Linkable(servers, link) && k < |link.dsts|
      requires hLines == h + HorizontalOf(servers, link, nb, k) && vLines == v + VerticalOf(servers, link, nb, k)
      modifies this`hLines, this`vLines
      ensures hLines == h + HorizontalOf(servers, link, nb, k + 1) && vLines == v + VerticalOf(servers, link, nb, k + 1)
    {
      var dst := link.dsts[k];
      ghost var h', v' := HorizontalOf(servers, link, nb, k + 1), VerticalOf(servers, link, nb, k + 1);
      if link.src.None? {
        if dst.column == STREAMDUP || dst.column == RTMP {
          hLines := hLines + [BorderLine(dst.column, dst.rect)];
        } else {
          assert false;
        }
      } else {
        var src := link.src.value;
        assert |dst.srcs| != 0;
        var pos := PositionOf(dst.srcs, src.id);
        var r := Route(src.rect, dst.rect, dst.rect.y + Step(dst.rect.height, |dst.srcs|) * pos, nb);
        vLines := vLines + [r.1];
        hLines := hLines + [r.0, r.2];
      }
      assert hLines == h + h' && vLines == v + v';
    }

    /** `h` and `v` list the lines after each link. */
    ghost predicate LinesAfter(h: seq<seq<Line>>, v: seq<seq<Line>>)
      reads this`servers, this`links, servers`rect, servers`srcs
    {
      && AllLinkable(servers, links) && |h| == |v| == |links| + 1
      && forall k {:trigger LinesAt(h, v, k)} :: 0 <= k <= |links| ==> LinesAt(h, v, k)
    }

    ghost predicate LinesAt(h: seq<seq<Line>>, v: seq<seq<Line>>, k: nat)
      requires AllLinkable(servers, links) && k <= |links| && |h| == |v| == |links| + 1
      reads this`servers, this`links, servers`rect, servers`srcs
    {
      h[k] == AllHorizontal(servers, links, k) && v[k] == AllVertical(servers, links, k)
    }

    method ComputeNext(k: nat, ghost h: seq<seq<Line>>, ghost v: seq<seq<Line>>)
      requires LinesAfter(h, v) && k < |links| && hLines == h[k] && vLines == v[k]
      modifies this`hLines, this`vLines
      ensures hLines == h[k + 1] && vLines == v[k + 1]
    {
      assert LinesAt(h, v, k);
      ghost var next := k + 1;
      assert LinesAt(h, v, next);
      assert Linkable(servers, links[k]);
      ComputeLink(links[k], k + 1);
    }

    /** The lines are computed anew from the links. */
    method Refresh()
      requires AllLinkable(servers, links)
      modifies this`hLines, this`vLines
      ensures hLines == AllHorizontal(servers, links, |links|)
      ensures vLines == AllVertical(servers, links, |links|)
    {
      ghost var h, v := LinesGoal();
      hLines, vLines := [], [];
      assert h[0] == [] && v[0] == [];
      var k := 0;
      while k < |links|
        invariant k <= |links| && LinesAfter(h, v)
        invariant hLines == h[k] && vLines == v[k]
      {
        ComputeNext(k, h, v);
        k := k + 1;
      }
      assert LinesAt(h, v, k);
    }

    lemma LinesGoal() returns (h: seq<seq<Line>>, v: seq<seq<Line>>)
      requires AllLinkable(servers, links)
      ensures LinesAfter(h, v) && h[0] == [] && v[0] == []
    {
      var s, l := servers, links;
      h := seq(|l| + 1, k requires 0 <= k <= |l| && AllLinkable(s, l) reads s => AllHorizontal(s, l, k));
      v := seq(|l| + 1, k requires 0 <= k <= |l| && AllLinkable(s, l) reads s => AllVertical(s, l, k));
    }

    /** For each horizontal line the points where it crosses a vertical one. */
    method FindCrossings() returns (edges: seq<seq<Point>>)
      requires AllAcross(hLines) && AllUpright(vLines)
      ensures |edges| == |hLines|
      ensures forall i :: 0 <= i < |edges| ==> CrossingsOf(hLines[i], vLines, edges[i])
    {
      edges := [];
      var i := 0;
      while i < |hLines|
        invariant i <= |hLines| && |edges| == i
        invariant forall j :: 0 <= j < i ==> CrossingsOf(hLines[j], vLines, edges[j])
      {
        var points: seq<Point> := [];
        var k := 0;
        while k < |vLines|
          invariant k <= |vLines| && CrossingsOf(hLines[i], vLines[..k], points)
        {
          ghost var before := points;
          points := Intersect(hLines[i], vLines[k], points);
          OneMoreLine(hLines[i], vLines, k, before, points);
          k := k + 1;
        }
        assert vLines[..k] == vLines;
        edges := edges + [points];
        i := i + 1;
      }
    }

    /** From an empty schema: any servers are added, linked once and drawn. */
    method Show(wanted: seq<(nat, nat, bool)>) returns (edges: seq<seq<Point>>)
      modifies this
      ensures Drawn() && FirstsOf(servers, wanted) && |edges| == |hLines|
      ensures |vLines| == Pairs(servers, |servers|)
      ensures |hLines| == Count(servers, STREAMDUP) + 2 * Pairs(servers, |servers|)
      ensures forall i :: 0 <= i < |edges| ==> CrossingsOf(hLines[i], vLines, edges[i])
    {
      Fill(wanted);
      edges := Draw();
    }

    method Fill(wanted: seq<(nat, nat, bool)>)
      modifies this
      ensures Ready() && FirstsOf(servers, wanted)
    {
      Reset();
      AddAll(wanted);
      LinkOnce();
    }

    method AddAll(wanted: seq<(nat, nat, bool)>)
      requires Placed() && servers == [] && links == []
      modifies this`servers
      ensures Placed() && links == [] && FirstsOf(servers, wanted)
      ensures forall i :: 0 <= i < |servers| ==> fresh(servers[i]) && servers[i].srcs == []
    {
      var k := 0;
      while k < |wanted|
        invariant k <= |wanted| && Placed() && FirstsOf(servers, wanted[..k])
        invariant forall i :: 0 <= i < |servers| ==> fresh(servers[i]) && servers[i].srcs == []
      {
        AddWanted(wanted, k);
        k := k + 1;
      }
      assert wanted[..k] == wanted;
    }

    /** One turn of the loop. */
    method AddWanted(wanted: seq<(nat, nat, bool)>, k: nat)
      requires Placed() && k < |wanted| && FirstsOf(servers, wanted[..k])
      requires forall i :: 0 <= i < |servers| ==> servers[i].srcs == []
      modifies this`servers, servers`rect
      ensures Placed() && FirstsOf(servers, wanted[..k + 1])
      ensures forall i :: 0 <= i < |servers| ==> servers[i] in old(servers) || fresh(servers[i])
      ensures forall i :: 0 <= i < |servers| ==> servers[i].srcs == []
    {
      var s := new Server(wanted[k].0, wanted[k].1, wanted[k].2);
      ghost var before := servers;
      AddServer(s);
      OneMoreWanted(before, servers, s, wanted, k);
      assert forall y :: y in before ==> y.srcs == [];
      assert forall i :: 0 <= i < |servers| ==> servers[i] in servers;
    }

    /** From a linked schema: no assert fires, the numbers of lines follow from the sizes of the columns,
        and the crossings found are exactly the strict ones. */
    method Draw() returns (edges: seq<seq<Point>>)
      requires Ready()
      modifies this`hLines, this`vLines
      ensures Drawn()
      ensures |vLines| == Pairs(servers, |servers|)
      ensures |hLines| == Count(servers, STREAMDUP) + 2 * Pairs(servers, |servers|)
      ensures |edges| == |hLines|
      ensures forall i :: 0 <= i < |edges| ==> CrossingsOf(hLines[i], vLines, edges[i])
    {
      DrawLines();
      edges := FindCrossings();
    }

    method DrawLines()
      requires Ready()
      modifies this`hLines, this`vLines
      ensures Drawn() && AllAcross(hLines) && AllUpright(vLines)
      ensures |vLines| == Pairs(servers, |servers|)
      ensures |hLines| == Count(servers, STREAMDUP) + 2 * Pairs(servers, |servers|)
    {
      ReadyIsLinkable();
      Refresh();
      LinesAreStraight(servers, links, |links|);
      LineCounts(servers, links, |links|);
      WiringTotals(servers);
    }

    /** The lines are those of the links of a linked schema. */
    ghost predicate Drawn()
      reads this, servers`rect, servers`srcs
    {
      && Ready() && AllLinkable(servers, links)
      && forall n {:trigger LinesUpTo(n)} :: n == |links| ==> LinesUpTo(n)
    }

    ghost predicate LinesUpTo(n: nat)
      requires AllLinkable(servers, links) && n <= |links|
      reads this, servers`rect, servers`srcs
    {
      hLines == AllHorizontal(servers, links, n) && vLines == AllVertical(servers, links, n)
    }

    /** Between two servers of which one feeds the other three lines are drawn: from the right side of the first, at
        its middle, over to a distance of its own for each link; from there up or down; and from there over to the
        left side of the second, where an arrow enters it (at what height: `EntryPlace`). */
    lemma ArrowBetween(src: Server, dst: Server) returns (i: nat, k: nat, l: nat)
      requires Drawn() && src in servers && dst in servers
      requires (src.column == STREAMDUP && dst.column == MASTERBOX)
               || (src.column == MASTERBOX && !src.leaf && (dst.column == RTMP || dst.column == HLS))
      ensures i + 1 < |hLines| && k < |vLines| && dst.rect.height >= 0
      ensures Joins(src, dst, l + 1, hLines[i], vLines[k], hLines[i + 1])
      ensures l < |links| && links[l].src == Some(src) && dst in links[l].dsts
    {
      i, k, l := RouteBetween(src, dst);
      RouteJoins(src, dst, l + 1, hLines[i], vLines[k], hLines[i + 1]);
    }

    /** The side of a box is divided by one more than its sources, and the line of each enters it at its place in the
        order of their ids. */
    lemma EntryPlace(src: Server, dst: Server) returns (p: nat, step: nat)
      requires Ready() && src in servers && dst in servers
      requires (src.column == STREAMDUP && dst.column == MASTERBOX)
               || (src.column == MASTERBOX && !src.leaf && (dst.column == RTMP || dst.column == HLS))
      ensures p < |dst.srcs| && dst.srcs[p] == src && forall j :: 0 <= j < p ==> dst.srcs[j].id < src.id
      ensures step * (|dst.srcs| + 1) <= dst.rect.height < (step + 1) * (|dst.srcs| + 1)
      ensures dst.rect.height >= 0 && EntryY(src, dst) == dst.rect.y + step * (p + 1)
    {
      HasSource(src, dst);
      SourcesInOrder(dst);
      p, step := PlaceInOrder(dst, src);
    }

    lemma RouteBetween(src: Server, dst: Server) returns (i: nat, k: nat, l: nat)
      requires Drawn() && src in servers && dst in servers && Feeds(src, dst)
      ensures i + 1 < |hLines| && k < |vLines| && dst.rect.height >= 0 && src.rect.x < dst.rect.x
      ensures (hLines[i], vLines[k], hLines[i + 1]) == Route(src.rect, dst.rect, EntryY(src, dst), l + 1)
      ensures l < |links| && links[l].src == Some(src) && dst in links[l].dsts
    {
      var b;
      l, b := LinkBetween(src, dst);
      i, k := LinesBetween(src, dst, l, b);
      LeftOf(src, dst);
    }

    lemma LeftOf(src: Server, dst: Server)
      requires Ready() && src in servers && dst in servers && Feeds(src, dst)
      ensures src.rect.x < dst.rect.x
    {
      IsOnCanvas(src);
      IsOnCanvas(dst);
    }

    /** The link of a server to one that it feeds, and the branch of that link. */
    lemma LinkBetween(src: Server, dst: Server) returns (l: nat, b: nat)
      requires Ready() && src in servers && dst in servers && Feeds(src, dst)
      ensures l < |links| && links[l].src == Some(src) && b < |links[l].dsts| && links[l].dsts[b] == dst
    {
      var a :| 0 <= a < |servers| && servers[a] == src;
      TargetsAre(servers, src, |servers|);
      var j :| 0 <= j < |servers| && servers[j] == dst;
      var targets := Targets(servers, src, |servers|);
      b :| b < |targets| && targets[b] == dst;
      var m := if src.column == STREAMDUP then 1 else 0;
      assert LinksOf(servers, src)[m] == Link(Some(src), targets);
      l := FlatHas(Parts(servers), |servers|, a, m);
    }

    lemma LinesBetween(src: Server, dst: Server, l: nat, b: nat) returns (i: nat, k: nat)
      requires Drawn() && l < |links| && links[l].src == Some(src) && b < |links[l].dsts| && links[l].dsts[b] == dst
      ensures i + 1 < |hLines| && k < |vLines| && dst.rect.height >= 0
      ensures var r := Route(src.rect, dst.rect, EntryY(src, dst), l + 1);
              hLines[i] == r.0 && vLines[k] == r.1 && hLines[i + 1] == r.2
    {
      assert Linkable(servers, links[l]) && LinesUpTo(|links|);
      i, k := LinesOfBranch(servers, links, l, b);
    }

    /** Into each streamdup leads a line from the left border, at its middle. */
    lemma LineFromBorder(d: Server) returns (i: nat)
      requires Drawn() && d in servers && d.column == STREAMDUP
      ensures i < |hLines|
      ensures hLines[i].from == Point(0, d.rect.y + d.rect.height / 2)
      ensures hLines[i].to == Point(d.rect.x, d.rect.y + d.rect.height / 2) && hLines[i].arrow
    {
      var a :| 0 <= a < |servers| && servers[a] == d;
      assert LinksOf(servers, d)[0] == Link(None, [d]);
      var l := FlatHas(Parts(servers), |servers|, a, 0);
      assert Linkable(servers, links[l]) && LinesUpTo(|links|);
      i := LineOfBorder(servers, links, l, d);
      BorderLineEnds(STREAMDUP, d.rect);
    }

    /** The arrows of the sources of a server end on its left side, in the order of their ids and each strictly inside
        the side exactly if the box is high enough. */
    lemma ArrowsEnter(d: Server, a: nat, b: nat) returns (i: nat, j: nat)
      requires Drawn() && d in servers && d.column <= HLS && a < b < |d.srcs|
      ensures i < |hLines| && j < |hLines| && hLines[i].arrow && hLines[j].arrow
      ensures hLines[i].to.x == hLines[j].to.x == d.rect.x
      ensures d.rect.y < hLines[i].to.y < d.rect.y + d.rect.height <==> d.rect.height >= |d.srcs| + 1
      ensures d.rect.y < hLines[j].to.y < d.rect.y + d.rect.height <==> d.rect.height >= |d.srcs| + 1
      ensures d.rect.height >= |d.srcs| + 1 ==> hLines[i].to.y < hLines[j].to.y
    {
      i := ArrowInto(d, a);
      j := ArrowInto(d, b);
      Entries(d, a);
      Entries(d, b);
    }

    lemma ArrowInto(d: Server, a: nat) returns (i: nat)
      requires Drawn() && d in servers && d.column <= HLS && a < |d.srcs|
      ensures i < |hLines| && hLines[i].arrow && d.rect.height >= 0
      ensures hLines[i].to == Point(d.rect.x, EntryY(d.srcs[a], d))
    {
      WhoFeeds(d, d.srcs[a]);
      var k, l;
      i, k, l := ArrowBetween(d.srcs[a], d);
      LinesMeet(d.srcs[a], d, l + 1, hLines[i], vLines[k], hLines[i + 1]);
      i := i + 1;
    }

    /** No other lines are drawn: every horizontal one leads from the border into a streamdup, or is the first or the
        last between two servers of which one feeds the other, and every vertical one is between two such servers. */
    lemma WhoseAcross(i: nat) returns (src: Option<Server>, d: Server)
      requires Drawn() && i < |hLines|
      ensures d in servers && d.rect.height >= 0
      ensures src.None? ==> d.column == STREAMDUP && hLines[i] == BorderLine(STREAMDUP, d.rect)
      ensures src.Some? ==>
                && src.value in servers && Feeds(src.value, d)
                && (hLines[i].from == Point(src.value.rect.x + src.value.rect.width,
                                            src.value.rect.y + src.value.rect.height / 2)
                    || hLines[i].to == Point(d.rect.x, EntryY(src.value, d)))
    {
      assert LinesUpTo(|links|);
      var l, b := AcrossOf(servers, links, i);
      WiringProper(servers, l);
      src, d := links[l].src, links[l].dsts[b];
      if src.Some? {
        LeftOf(src.value, d);
        RouteEnds(src.value.rect, d.rect, EntryY(src.value, d), l + 1);
      }
    }

    lemma WhoseUpright(k: nat) returns (src: Server, d: Server)
      requires Drawn() && k < |vLines|
      ensures src in servers && d in servers && Feeds(src, d) && d.rect.height >= 0
      ensures vLines[k].from.y == src.rect.y + src.rect.height / 2 && vLines[k].to.y == EntryY(src, d)
    {
      assert LinesUpTo(|links|);
      var l, b := UprightOf(servers, links, k);
      WiringProper(servers, l);
      src, d := links[l].src.value, links[l].dsts[b];
      RouteEnds(src.rect, d.rect, EntryY(src, d), l + 1);
    }

    lemma ReadyIsLinkable()
      requires Ready()
      ensures AllLinkable(servers, links)
      ensures forall i :: 0 <= i < |links| ==> Linkable(servers, links[i]) && Rightwards(servers, links[i])
    {
      forall i | 0 <= i < |links| ensures Linkable(servers, links[i]) && Rightwards(servers, links[i]) {
        WiringProper(servers, i);
        LinkReady(links[i]);
      }
    }

    lemma LinkReady(l: Link)
      requires Ready() && Proper(servers, l)
      ensures Linkable(servers, l) && Rightwards(servers, l)
    {
      forall k | 0 <= k < |l.dsts|
        ensures OnCanvas(l.dsts[k])
        ensures l.src.Some? ==> OnCanvas(l.src.value) && l.dsts[k].srcs != [] && l.src.value.rect.x < l.dsts[k].rect.x
      {
        IsOnCanvas(l.dsts[k]);
        if l.src.Some? {
          IsOnCanvas(l.src.value);
          HasSource(l.src.value, l.dsts[k]);
        }
      }
    }

    lemma IsOnCanvas(d: Server)
      requires Ready() && d in servers && d.column <= HLS
      ensures OnCanvas(d) && d.rect.x == Left(d.column)
    {
      var k :| 0 <= k < |servers| && servers[k] == d;
      assert servers[k].rect == BoxAt(servers, k);
      NoOverlap(k, k);
    }

    lemma HasSource(src: Server, d: Server)
      requires Ready() && src in servers && d in servers && Feeds(src, d)
      ensures d.srcs != [] && src in d.srcs
    {
      var k :| 0 <= k < |servers| && servers[k] == d;
      SourcesAre(servers, d, |servers|);
      assert servers[..|servers|] == servers;
    }

    /** The sources of a server are in the order of their ids, and each enters its box at its own place,
        strictly inside exactly if the box is high enough. */
    lemma Entries(d: Server, i: nat)
      requires Ready() && d in servers && d.column <= HLS && i < |d.srcs|
      ensures Sorted(d.srcs) && d.rect.height >= 0
      ensures d.rect.y < EntryY(d.srcs[i], d) < d.rect.y + d.rect.height <==> d.rect.height >= |d.srcs| + 1
      ensures d.rect.height >= |d.srcs| + 1 ==> forall j :: 0 <= j < i ==> EntryY(d.srcs[j], d) < EntryY(d.srcs[i], d)
    {
      SourcesInOrder(d);
      EntryIs(d, i);
      EntryInside(d.rect.height, |d.srcs|, i + 1);
      forall j | 0 <= j < i && d.rect.height >= |d.srcs| + 1 ensures EntryY(d.srcs[j], d) < EntryY(d.srcs[i], d) {
        EntryIs(d, j);
        StepPositive(d.rect.height, |d.srcs| + 1);
        FurtherIn(Step(d.rect.height, |d.srcs|), j + 1, i + 1);
      }
    }

    /** The wiring is complete: the sources of a masterbox are the streamdups, those of a streamer the
        masterboxes that forward, each once and in the order of their ids. */
    lemma WhoFeeds(d: Server, x: Server)
      requires Ready() && d in servers && d.column <= HLS
      ensures x in d.srcs <==> x in servers && Feeds(x, d)
      ensures Feeds(x, d) <==>
                || (d.column == MASTERBOX && x.column == STREAMDUP)
                || (d.column in {RTMP, HLS} && x.column == MASTERBOX && !x.leaf)
      ensures Sorted(d.srcs)
    {
      SourcesInOrder(d);
      SourcesAre(servers, d, |servers|);
      assert servers[..|servers|] == servers;
      var k :| 0 <= k < |servers| && servers[k] == d;
      assert servers[k].srcs == Sources(servers, d, |servers|);
      if x in d.srcs { var i :| 0 <= i < |d.srcs| && d.srcs[i] == x; }
      if x in servers && Feeds(x, d) { var j :| 0 <= j < |servers| && servers[j] == x; }
    }

    lemma SourcesInOrder(d: Server)
      requires Ready() && d in servers && d.column <= HLS
      ensures Sorted(d.srcs) && d.rect.height >= 0
    {
      var k :| 0 <= k < |servers| && servers[k] == d;
      assert servers[k].srcs == Sources(servers, d, |servers|);
      IsOnCanvas(d);
      SourcesSorted(servers, d, |servers|);
    }
  }

  lemma PlaceInOrder(d: Server, src: Server) returns (p: nat, step: nat)
    requires Sorted(d.srcs) && d.rect.height >= 0 && src in d.srcs
    ensures p < |d.srcs| && d.srcs[p] == src && forall j :: 0 <= j < p ==> d.srcs[j].id < src.id
    ensures step * (|d.srcs| + 1) <= d.rect.height < (step + 1) * (|d.srcs| + 1)
    ensures EntryY(src, d) == d.rect.y + step * (p + 1)
  {
    p :| p < |d.srcs| && d.srcs[p] == src;
    step := Step(d.rect.height, |d.srcs|);
    EntryIs(d, p);
    ShareFacts(d.rect.height, |d.srcs| + 1);
    forall j | 0 <= j < p ensures d.srcs[j].id < src.id { assert InOrder(d.srcs, j, p); }
  }

  /** The i-th source in the order of ids enters at the i-th place. */
  lemma EntryIs(d: Server, i: nat)
    requires Sorted(d.srcs) && d.rect.height >= 0 && i < |d.srcs|
    ensures EntryY(d.srcs[i], d) == d.rect.y + Step(d.rect.height, |d.srcs|) * (i + 1)
  {
    PositionIs(d.srcs, i);
  }

  ghost predicate OnCanvas(d: Server)
    reads d`rect
  {
    Inside(d.rect) && d.rect.width >= 0 && d.rect.height >= 0
  }

  /** The link goes to boxes on the canvas, from the border or from a box further left. */
  ghost predicate Rightwards(s: seq<Server>, l: Link)
    requires Linkable(s, l)
    reads s`rect, s`srcs
  {
    forall k :: 0 <= k < |l.dsts| ==>
      && OnCanvas(l.dsts[k])
      && (l.src.Some? ==> OnCanvas(l.src.value) && l.src.value.rect.x < l.dsts[k].rect.x)
  }

  lemma EntryInside(height: nat, n: nat, pos: nat)
    requires 1 <= pos <= n
    ensures 0 < Step(height, n) * pos < height <==> height >= n + 1
  {
    var step := Step(height, n);
    ShareFacts(height, n + 1);
    if height >= n + 1 {
      StepPositive(height, n + 1);
      FurtherIn(step, 0, pos);
      FurtherIn(step, pos, n + 1);
    } else {
      StepZero(height, n + 1);
    }
  }

  lemma StepPositive(height: nat, n: nat)
    requires 0 < n <= height
    ensures Share(height, n) >= 1
  {
    var q := Share(height, n);
    ShareFacts(height, n);
    if q < 1 { ScaleFactor(q + 1, 1, n); }
  }

  lemma StepZero(height: nat, n: nat)
    requires height < n
    ensures Share(height, n) == 0
  {
    var q := Share(height, n);
    ShareFacts(height, n);
    if q > 0 { ScaleFactor(1, q, n); }
  }

  lemma FurtherIn(step: nat, a: nat, b: nat)
    requires a < b && step >= 1
    ensures step * a < step * b
  {
    assert step * b == step * a + step * (b - a);
    Scale(b - a, 1, step);
    assert (b - a) * step == step * (b - a);
  }

  lemma {:induction false} PositionIs(srcs: seq<Server>, i: nat)
    requires Sorted(srcs) && i < |srcs|
    ensures Position(srcs, srcs[i].id) == i + 1
  {
    if i > 0 {
      Different(srcs, 0, i);
      assert srcs[i] == srcs[1..][i - 1];
      forall a, b | 0 <= a < b < |srcs[1..]| ensures InOrder(srcs[1..], a, b) { assert InOrder(srcs, a + 1, b + 1); }
      PositionIs(srcs[1..], i - 1);
    }
  }

  lemma {:induction false} SourcesSorted(s: seq<Server>, d: Server, k: nat)
    requires Sorted(s) && k <= |s|
    ensures Sorted(Sources(s, d, k))
  {
    if k > 0 {
      SourcesSorted(s, d, k - 1);
      SourcesAre(s, d, k - 1);
      var before := Sources(s, d, k - 1);
      forall i | 0 <= i < |before| ensures before[i].id < s[k - 1].id {
        assert before[i] in s[..k - 1];
        var j :| 0 <= j < |s[..k - 1]| && s[..k - 1][j] == before[i];
        assert InOrder(s, j, k - 1);
      }
      var all := Sources(s, d, k);
      forall a, b | 0 <= a < b < |all| ensures InOrder(all, a, b) {
        if b < |before| { assert InOrder(before, a, b); }
      }
    }
  }

  // ------------------------------------------------------------------ what the lines are

  /** Lines are horizontal, or vertical, as the lists say, and never left of or above the canvas. */
  lemma {:induction false} LinesAreStraight(s: seq<Server>, links: seq<Link>, k: nat)
    requires k <= |links| && AllLinkable(s, links)
    requires forall i :: 0 <= i < |links| ==> Linkable(s, links[i]) && Rightwards(s, links[i])
    ensures AllAcross(AllHorizontal(s, links, k)) && AllUpright(AllVertical(s, links, k))
  {
    if k > 0 {
      var l := links[k - 1];
      LinesAreStraight(s, links, k - 1);
      LinkIsStraight(s, l, k, |l.dsts|);
      LinesConcat(AllHorizontal(s, links, k - 1), HorizontalOf(s, l, k, |l.dsts|));
      LinesConcat(AllVertical(s, links, k - 1), VerticalOf(s, l, k, |l.dsts|));
    }
  }

  lemma {:induction false} LinkIsStraight(s: seq<Server>, l: Link, nb: nat, k: nat)
    requires k <= |l.dsts| && Linkable(s, l) && Rightwards(s, l)
    ensures AllAcross(HorizontalOf(s, l, nb, k)) && AllUpright(VerticalOf(s, l, nb, k))
  {
    if k > 0 {
      LinkIsStraight(s, l, nb, k - 1);
      var d := l.dsts[k - 1];
      assert OnCanvas(d);
      var h, v := HorizontalOf(s, l, nb, k - 1), VerticalOf(s, l, nb, k - 1);
      if l.src.Some? {
        var y := EntryY(l.src.value, d);
        RouteIsStraight(l.src.value.rect, d.rect, y, nb);
        var r := Route(l.src.value.rect, d.rect, y, nb);
        LinesConcat(h, [r.0, r.2]);
        LinesConcat(v, [r.1]);
      } else {
        LinesConcat(h, [BorderLine(d.column, d.rect)]);
      }
    }
  }

  lemma RouteIsStraight(s: Rect, d: Rect, y: int, nb: nat)
    requires Inside(s) && Inside(d) && s.width >= 0 && s.height >= 0 && d.width >= 0 && s.x < d.x && y >= 0
    ensures var r := Route(s, d, y, nb);
            && Horizontal(r.0) && Vertical(r.1) && Horizontal(r.2)
            && OnCanvasSide(r.0) && OnCanvasSide(r.1) && OnCanvasSide(r.2)
  {
  }

  /** The three lines meet: from the middle of the side that faces the other box, to the facing side of that box. */
  lemma RouteMeets(s: Rect, d: Rect, y: int, nb: nat)
    ensures var side := if s.x < d.x then s.x + s.width else s.x;
            var x, middle := if s.x < d.x then side + 25 * nb else side - 25 * nb, s.y + s.height / 2;
            Route(s, d, y, nb) ==
            (Line(Point(side, middle), Point(x, middle), false),
             Line(Point(x, middle), Point(x, y), false),
             Line(Point(x, y), Point(if s.x < d.x then d.x else d.x + d.width, y), true))
  {
  }

  lemma RouteEnds(s: Rect, d: Rect, y: int, nb: nat)
    ensures s.x < d.x ==> Route(s, d, y, nb).0.from == Point(s.x + s.width, s.y + s.height / 2)
    ensures s.x < d.x ==> Route(s, d, y, nb).2.to == Point(d.x, y)
    ensures Route(s, d, y, nb).1.from.y == s.y + s.height / 2 && Route(s, d, y, nb).1.to.y == y
  {
  }

  /** The line of a streamdup comes from the left border and that of a streamer from the right one. */
  lemma BorderLineEnds(column: nat, d: Rect)
    ensures var l := BorderLine(column, d);
            && Horizontal(l) && l.arrow && l.to.y == d.y + d.height / 2
            && (if column == STREAMDUP then l.from.x == 0 && l.to.x == d.x
                else l.from.x == 1280 && l.to.x == d.x + d.width)
  {
  }

  /** The lines of one branch of a link. */
  lemma {:induction false} BranchLines(s: seq<Server>, l: Link, nb: nat, m: nat, k: nat)
    requires Linkable(s, l) && l.src.Some? && k < m <= |l.dsts|
    ensures |HorizontalOf(s, l, nb, m)| == 2 * m && |VerticalOf(s, l, nb, m)| == m && l.dsts[k].rect.height >= 0
    ensures var r := Route(l.src.value.rect, l.dsts[k].rect, EntryY(l.src.value, l.dsts[k]), nb);
            && HorizontalOf(s, l, nb, m)[2 * k] == r.0 && HorizontalOf(s, l, nb, m)[2 * k + 1] == r.2
            && VerticalOf(s, l, nb, m)[k] == r.1
  {
    LinkCount(s, l, nb, m);
    LinkCount(s, l, nb, m - 1);
    if k < m - 1 { BranchLines(s, l, nb, m - 1, k); }
  }

  /** Where the lines of one link are among all lines. */
  lemma {:induction false} AcrossAt(s: seq<Server>, links: seq<Link>, n: nat, l: nat, i: nat)
    requires l < n <= |links| && AllLinkable(s, links) && Linkable(s, links[l])
    requires i < |HorizontalOf(s, links[l], l + 1, |links[l].dsts|)|
    ensures |AllHorizontal(s, links, l)| + i < |AllHorizontal(s, links, n)|
    ensures AllHorizontal(s, links, n)[|AllHorizontal(s, links, l)| + i] ==
            HorizontalOf(s, links[l], l + 1, |links[l].dsts|)[i]
  {
    if l < n - 1 {
      assert Linkable(s, links[n - 1]);
      AcrossAt(s, links, n - 1, l, i);
    }
  }

  lemma {:induction false} UprightAt(s: seq<Server>, links: seq<Link>, n: nat, l: nat, k: nat)
    requires l < n <= |links| && AllLinkable(s, links) && Linkable(s, links[l])
    requires k < |VerticalOf(s, links[l], l + 1, |links[l].dsts|)|
    ensures |AllVertical(s, links, l)| + k < |AllVertical(s, links, n)|
    ensures AllVertical(s, links, n)[|AllVertical(s, links, l)| + k] ==
            VerticalOf(s, links[l], l + 1, |links[l].dsts|)[k]
  {
    if l < n - 1 {
      assert Linkable(s, links[n - 1]);
      UprightAt(s, links, n - 1, l, k);
    }
  }

  lemma {:induction false} AcrossOfLink(s: seq<Server>, links: seq<Link>, n: nat, i: nat) returns (l: nat, m: nat)
    requires n <= |links| && AllLinkable(s, links) && i < |AllHorizontal(s, links, n)|
    ensures l < n && Linkable(s, links[l]) && m < |HorizontalOf(s, links[l], l + 1, |links[l].dsts|)|
    ensures AllHorizontal(s, links, n)[i] == HorizontalOf(s, links[l], l + 1, |links[l].dsts|)[m]
  {
    assert Linkable(s, links[n - 1]);
    var before := |AllHorizontal(s, links, n - 1)|;
    if i < before {
      l, m := AcrossOfLink(s, links, n - 1, i);
    } else {
      l, m := n - 1, i - before;
    }
  }

  lemma {:induction false} AcrossOfBranch(s: seq<Server>, l: Link, nb: nat, n: nat, m: nat) returns (b: nat)
    requires Linkable(s, l) && n <= |l.dsts| && m < |HorizontalOf(s, l, nb, n)|
    ensures b < n && l.dsts[b].rect.height >= 0
    ensures l.src.None? ==> HorizontalOf(s, l, nb, n)[m] == BorderLine(l.dsts[b].column, l.dsts[b].rect)
    ensures l.src.Some? ==>
              var r := Route(l.src.value.rect, l.dsts[b].rect, EntryY(l.src.value, l.dsts[b]), nb);
              HorizontalOf(s, l, nb, n)[m] == r.0 || HorizontalOf(s, l, nb, n)[m] == r.2
  {
    if m < |HorizontalOf(s, l, nb, n - 1)| {
      b := AcrossOfBranch(s, l, nb, n - 1, m);
    } else {
      b := n - 1;
    }
  }

  lemma AcrossOf(s: seq<Server>, links: seq<Link>, i: nat) returns (l: nat, b: nat)
    requires AllLinkable(s, links) && i < |AllHorizontal(s, links, |links|)|
    ensures l < |links| && b < |links[l].dsts| && links[l].dsts[b].rect.height >= 0
    ensures links[l].src.None? ==>
              AllHorizontal(s, links, |links|)[i] == BorderLine(links[l].dsts[b].column, links[l].dsts[b].rect)
    ensures links[l].src.Some? ==>
              var src, d := links[l].src.value, links[l].dsts[b];
              AllHorizontal(s, links, |links|)[i] in {Route(src.rect, d.rect, EntryY(src, d), l + 1).0,
                                                      Route(src.rect, d.rect, EntryY(src, d), l + 1).2}
  {
    var m;
    l, m := AcrossOfLink(s, links, |links|, i);
    b := AcrossOfBranch(s, links[l], l + 1, |links[l].dsts|, m);
  }

  lemma {:induction false} UprightOfLink(s: seq<Server>, links: seq<Link>, n: nat, k: nat) returns (l: nat, m: nat)
    requires n <= |links| && AllLinkable(s, links) && k < |AllVertical(s, links, n)|
    ensures l < n && Linkable(s, links[l]) && m < |VerticalOf(s, links[l], l + 1, |links[l].dsts|)|
    ensures AllVertical(s, links, n)[k] == VerticalOf(s, links[l], l + 1, |links[l].dsts|)[m]
  {
    assert Linkable(s, links[n - 1]);
    var before := |AllVertical(s, links, n - 1)|;
    if k < before {
      l, m := UprightOfLink(s, links, n - 1, k);
    } else {
      l, m := n - 1, k - before;
    }
  }

  lemma UprightOfBranch(s: seq<Server>, l: Link, nb: nat, n: nat, m: nat)
    requires Linkable(s, l) && n <= |l.dsts| && m < |VerticalOf(s, l, nb, n)|
    ensures l.src.Some? && m < n && l.dsts[m].rect.height >= 0
    ensures VerticalOf(s, l, nb, n)[m] == Route(l.src.value.rect, l.dsts[m].rect, EntryY(l.src.value, l.dsts[m]), nb).1
  {
    LinkCount(s, l, nb, n);
    BranchLines(s, l, nb, n, m);
  }

  lemma UprightOf(s: seq<Server>, links: seq<Link>, k: nat) returns (l: nat, b: nat)
    requires AllLinkable(s, links) && k < |AllVertical(s, links, |links|)|
    ensures l < |links| && links[l].src.Some? && b < |links[l].dsts| && links[l].dsts[b].rect.height >= 0
    ensures var src, d := links[l].src.value, links[l].dsts[b];
            AllVertical(s, links, |links|)[k] == Route(src.rect, d.rect, EntryY(src, d), l + 1).1
  {
    l, b := UprightOfLink(s, links, |links|, k);
    UprightOfBranch(s, links[l], l + 1, |links[l].dsts|, b);
  }

  lemma LinesOfBranch(s: seq<Server>, links: seq<Link>, l: nat, b: nat) returns (i: nat, k: nat)
    requires AllLinkable(s, links) && l < |links| && Linkable(s, links[l])
    requires links[l].src.Some? && b < |links[l].dsts|
    ensures i + 1 < |AllHorizontal(s, links, |links|)| && k < |AllVertical(s, links, |links|)|
    ensures var src, d := links[l].src.value, links[l].dsts[b];
            d.rect.height >= 0
            && var r := Route(src.rect, d.rect, EntryY(src, d), l + 1);
               && AllHorizontal(s, links, |links|)[i] == r.0 && AllHorizontal(s, links, |links|)[i + 1] == r.2
               && AllVertical(s, links, |links|)[k] == r.1
  {
    i, k := |AllHorizontal(s, links, l)| + 2 * b, |AllVertical(s, links, l)| + b;
    BranchLines(s, links[l], l + 1, |links[l].dsts|, b);
    AcrossAt(s, links, |links|, l, 2 * b);
    AcrossAt(s, links, |links|, l, 2 * b + 1);
    UprightAt(s, links, |links|, l, b);
  }

  lemma LineOfBorder(s: seq<Server>, links: seq<Link>, l: nat, d: Server) returns (i: nat)
    requires AllLinkable(s, links) && l < |links| && Linkable(s, links[l]) && links[l] == Link(None, [d])
    ensures i < |AllHorizontal(s, links, |links|)|
    ensures AllHorizontal(s, links, |links|)[i] == BorderLine(d.column, d.rect)
  {
    assert HorizontalOf(s, links[l], l + 1, 1) == HorizontalOf(s, links[l], l + 1, 0) + [BorderLine(d.column, d.rect)];
    i := |AllHorizontal(s, links, l)|;
    AcrossAt(s, links, |links|, l, 0);
  }

  lemma {:induction false} LineCounts(s: seq<Server>, links: seq<Link>, k: nat)
    requires k <= |links| && AllLinkable(s, links)
    ensures |AllHorizontal(s, links, k)| == HTotal(links, k)
    ensures |AllVertical(s, links, k)| == VTotal(links, k)
  {
    if k > 0 {
      LineCounts(s, links, k - 1);
      assert Linkable(s, links[k - 1]);
      LinkCount(s, links[k - 1], k, |links[k - 1].dsts|);
    }
  }

  lemma {:induction false} LinkCount(s: seq<Server>, l: Link, nb: nat, k: nat)
    requires k <= |l.dsts| && Linkable(s, l)
    ensures |HorizontalOf(s, l, nb, k)| == if l.src.None? then k else 2 * k
    ensures |VerticalOf(s, l, nb, k)| == if l.src.None? then 0 else k
  {
    if k > 0 { LinkCount(s, l, nb, k - 1); }
  }

  /** One of the lines is strictly crossed by `h` there. */
  ghost predicate Crossed(h: Line, vs: seq<Line>, p: Point) {
    exists k :: 0 <= k < |vs| && CrossAt(h, vs[k], p)
  }

  /** A list without duplicates of exactly the points where `h` strictly crosses one of the lines. */
  ghost predicate CrossingsOf(h: Line, vs: seq<Line>, points: seq<Point>) {
    NoDup(points) && forall p {:trigger Crossed(h, vs, p)} {:trigger p in points} :: p in points <==> Crossed(h, vs, p)
  }

  lemma CrossedSnoc(h: Line, vs: seq<Line>, k: nat, p: Point)
    requires k < |vs|
    ensures Crossed(h, vs[..k + 1], p) <==> Crossed(h, vs[..k], p) || CrossAt(h, vs[k], p)
  {
    var now := vs[..k + 1];
    assert now == vs[..k] + [vs[k]];
    if Crossed(h, vs[..k], p) {
      var j :| 0 <= j < |vs[..k]| && CrossAt(h, vs[..k][j], p);
      assert now[j] == vs[..k][j];
    }
    if CrossAt(h, vs[k], p) { assert now[k] == vs[k]; }
  }

  lemma OneMoreLine(h: Line, vs: seq<Line>, k: nat, before: seq<Point>, after: seq<Point>)
    requires k < |vs| && CrossingsOf(h, vs[..k], before) && NoDup(after) && OnCanvasSide(h) && OnCanvasSide(vs[k])
    requires forall p :: p in after <==> p in before || (CrossAt(h, vs[k], p) && p.x != 0 && p.y != 0)
    ensures CrossingsOf(h, vs[..k + 1], after)
  {
    forall p ensures p in after <==> Crossed(h, vs[..k + 1], p) {
      CrossedSnoc(h, vs, k, p);
      if CrossAt(h, vs[k], p) { CrossingIsNotZero(h, vs[k], p); }
    }
  }

  // ------------------------------------------------------------------ what the wiring is

  /** Every link starts at the border and ends at a streamdup, or joins servers that feed each other. */
  ghost predicate Proper(s: seq<Server>, l: Link) {
    match l.src
    case None => forall k :: 0 <= k < |l.dsts| ==> l.dsts[k] in s && l.dsts[k].column == STREAMDUP
    case Some(src) => src in s && forall k :: 0 <= k < |l.dsts| ==> l.dsts[k] in s && Feeds(src, l.dsts[k])
  }

  lemma WiringProper(s: seq<Server>, i: nat)
    requires i < |Wiring(s)|
    ensures Proper(s, Wiring(s)[i])
  {
    var j, m := FlatAt(Parts(s), |s|, i);
    LinksOfProper(s, j, m);
  }

  lemma LinksOfProper(s: seq<Server>, k: nat, m: nat)
    requires k < |s| && m < |LinksOf(s, s[k])|
    ensures Proper(s, LinksOf(s, s[k])[m])
  {
    TargetsAre(s, s[k], |s|);
    assert s[..|s|] == s;
    assert Proper(s, LinkFrom(s[k], Targets(s, s[k], |s|)));
    assert s[k].column == STREAMDUP ==> Proper(s, Link(None, [s[k]]));
  }

  /** How many lines the links ask for. */
  ghost function HTotal(links: seq<Link>, k: nat): nat
    requires k <= |links|
  {
    if k == 0 then 0
    else HTotal(links, k - 1) + (if links[k - 1].src.None? then |links[k - 1].dsts| else 2 * |links[k - 1].dsts|)
  }

  ghost function VTotal(links: seq<Link>, k: nat): nat
    requires k <= |links|
  {
    if k == 0 then 0 else VTotal(links, k - 1) + (if links[k - 1].src.None? then 0 else |links[k - 1].dsts|)
  }

  lemma {:induction false} TotalsConcat(a: seq<Link>, b: seq<Link>, k: nat)
    requires k <= |b|
    ensures HTotal(a + b, |a| + k) == HTotal(a, |a|) + HTotal(b, k)
    ensures VTotal(a + b, |a| + k) == VTotal(a, |a|) + VTotal(b, k)
  {
    if k > 0 {
      TotalsConcat(a, b, k - 1);
      assert (a + b)[|a| + k - 1] == b[k - 1];
    } else {
      TotalsPrefix(a, b, |a|);
    }
  }

  lemma {:induction false} TotalsPrefix(a: seq<Link>, b: seq<Link>, k: nat)
    requires k <= |a|
    ensures HTotal(a + b, k) == HTotal(a, k) && VTotal(a + b, k) == VTotal(a, k)
  {
    if k > 0 { TotalsPrefix(a, b, k - 1); }
  }

  /** The masterboxes among the first `k` that forward. */
  ghost function Forwarders(s: seq<Server>, k: nat): nat
    requires k <= |s|
  {
    if k == 0 then 0 else Forwarders(s, k - 1) + (if s[k - 1].column == MASTERBOX && !s[k - 1].leaf then 1 else 0)
  }

  /** How many of the first `k` servers `src` feeds. */
  ghost function Fed(s: seq<Server>, src: Server, k: nat): nat
    requires k <= |s|
  {
    if k == 0 then 0 else Fed(s, src, k - 1) + (if Feeds(src, s[k - 1]) then 1 else 0)
  }

  lemma {:induction false} FedTargets(s: seq<Server>, src: Server, k: nat)
    requires k <= |s|
    ensures |Targets(s, src, k)| == Fed(s, src, k)
  {
    if k > 0 { FedTargets(s, src, k - 1); }
  }

  lemma {:induction false} FedCount(s: seq<Server>, src: Server, k: nat)
    requires k <= |s|
    ensures src.column == STREAMDUP ==> Fed(s, src, k) == Rank(s, MASTERBOX, k)
    ensures src.column == MASTERBOX && !src.leaf ==> Fed(s, src, k) == Rank(s, RTMP, k) + Rank(s, HLS, k)
    ensures src.column != STREAMDUP && (src.column != MASTERBOX || src.leaf) ==> Fed(s, src, k) == 0
  {
    if k > 0 { FedCount(s, src, k - 1); }
  }

  /** The pairs of servers of which the first, among the first `k`, feeds the second. */
  ghost function Pairs(s: seq<Server>, k: nat): nat
    requires k <= |s|
  {
    if k == 0 then 0 else Pairs(s, k - 1) + Fed(s, s[k - 1], |s|)
  }

  /** One line from the border for each streamdup, and three for each pair. */
  lemma WiringTotals(s: seq<Server>)
    ensures VTotal(Wiring(s), |Wiring(s)|) == Pairs(s, |s|)
    ensures HTotal(Wiring(s), |Wiring(s)|) == Count(s, STREAMDUP) + 2 * Pairs(s, |s|)
  {
    var parts := PartsOf(s);
    FlatTotals(parts, |s|);
    PartPairs(s, parts, |s|);
    PartLines(s, parts, |s|);
  }

  /** The totals of lists of links, part by part. */
  ghost function HParts(parts: seq<seq<Link>>, k: nat): nat
    requires k <= |parts|
  {
    if k == 0 then 0 else HParts(parts, k - 1) + HTotal(parts[k - 1], |parts[k - 1]|)
  }

  ghost function VParts(parts: seq<seq<Link>>, k: nat): nat
    requires k <= |parts|
  {
    if k == 0 then 0 else VParts(parts, k - 1) + VTotal(parts[k - 1], |parts[k - 1]|)
  }

  lemma {:induction false} FlatTotals(parts: seq<seq<Link>>, k: nat)
    requires k <= |parts|
    ensures HTotal(Flat(parts, k), |Flat(parts, k)|) == HParts(parts, k)
    ensures VTotal(Flat(parts, k), |Flat(parts, k)|) == VParts(parts, k)
  {
    if k > 0 {
      FlatTotals(parts, k - 1);
      TotalsConcat(Flat(parts, k - 1), parts[k - 1], |parts[k - 1]|);
    }
  }

  lemma {:induction false} PartPairs(s: seq<Server>, parts: seq<seq<Link>>, k: nat)
    requires AreParts(s, parts) && k <= |s|
    ensures VParts(parts, k) == Pairs(s, k)
  {
    if k > 0 {
      PartPairs(s, parts, k - 1);
      var h, v := PartSize(s, parts, k - 1);
    }
  }

  lemma {:induction false} PartLines(s: seq<Server>, parts: seq<seq<Link>>, k: nat)
    requires AreParts(s, parts) && k <= |s|
    ensures HParts(parts, k) == Rank(s, STREAMDUP, k) + 2 * Pairs(s, k)
  {
    if k > 0 {
      PartLines(s, parts, k - 1);
      var h, v := PartSize(s, parts, k - 1);
    }
  }

  lemma PartSize(s: seq<Server>, parts: seq<seq<Link>>, k: nat) returns (h: nat, v: nat)
    requires AreParts(s, parts) && k < |s|
    ensures v == VTotal(parts[k], |parts[k]|) && h == HTotal(parts[k], |parts[k]|)
    ensures v == Pairs(s, k + 1) - Pairs(s, k) && h == Rank(s, STREAMDUP, k + 1) - Rank(s, STREAMDUP, k) + 2 * v
  {
    v, h := VTotal(parts[k], |parts[k]|), HTotal(parts[k], |parts[k]|);
    assert IsPart(s, parts, k);
    LinksOfTotals(s, s[k]);
  }

  /** The pairs, from the sizes of the columns. */
  lemma {:induction false} PairsProduct(s: seq<Server>, k: nat)
    requires k <= |s|
    ensures Pairs(s, k) ==
            Product(Rank(s, STREAMDUP, k), Count(s, MASTERBOX))
            + Product(Forwarders(s, k), Count(s, RTMP) + Count(s, HLS))
  {
    if k > 0 {
      PairsProduct(s, k - 1);
      FedCount(s, s[k - 1], |s|);
      var d, f := Rank(s, STREAMDUP, k - 1), Forwarders(s, k - 1);
      var m, t := Count(s, MASTERBOX), Count(s, RTMP) + Count(s, HLS);
      assert Product(d + 1, m) == Product(d, m) + m && Product(f + 1, t) == Product(f, t) + t;
    }
  }

  /** `a * b`, by repeated addition. */
  ghost function Product(a: nat, b: nat): nat {
    if a == 0 then 0 else Product(a - 1, b) + b
  }

  lemma {:induction false} ProductIsTimes(a: nat, b: nat)
    ensures Product(a, b) == a * b
  {
    if a > 0 {
      ProductIsTimes(a - 1, b);
      assert a * b == (a - 1) * b + b;
    }
  }

  lemma SumOfProducts(d: nat, m: nat, f: nat, t: nat)
    ensures Product(d, m) + Product(f, t) == d * m + f * t
  {
    ProductIsTimes(d, m);
    ProductIsTimes(f, t);
  }

  /** The closed formula: streamdups times masterboxes, and forwarding masterboxes times streamers. */
  lemma PairsFormula(s: seq<Server>, d: nat, m: nat, f: nat, t: nat)
    requires d == Count(s, STREAMDUP) && m == Count(s, MASTERBOX)
    requires f == Forwarders(s, |s|) && t == Count(s, RTMP) + Count(s, HLS)
    ensures Pairs(s, |s|) == d * m + f * t
  {
    assert Pairs(s, |s|) == Product(d, m) + Product(f, t) by { PairsProduct(s, |s|); }
    SumOfProducts(d, m, f, t);
  }

  lemma LinksOfTotals(s: seq<Server>, src: Server)
    ensures var l := LinksOf(s, src);
            && VTotal(l, |l|) == Fed(s, src, |s|)
            && HTotal(l, |l|) == (if src.column == STREAMDUP then 1 else 0) + 2 * VTotal(l, |l|)
  {
    FedTargets(s, src, |s|);
    FedCount(s, src, |s|);
    var l := LinksOf(s, src);
    if src.column == STREAMDUP {
      assert HTotal(l, 0) == 0 && VTotal(l, 0) == 0;
      assert l[0].src.None? && |l[0].dsts| == 1;
      assert HTotal(l, 1) == 1 && VTotal(l, 1) == 0;
    } else if l != [] {
      assert HTotal(l, 0) == 0 && VTotal(l, 0) == 0;
    }
  }
}
