/** The tree list control without its painting: items with parent and child links, and the window
    that owns them.  The window keeps, as a ghost, the shape of its tree; every method is proved
    against functions of that shape. */
module TreeList {
  import opened Basics
  import opened OrderedForest
  import opened ForestWalk
  import opened ForestEdit
  import opened ForestSearch
  import opened RowLayout

  const MARGIN := 2
  const LINEATROOT := 5
  const LINEHEIGHT := 10

  /** The style flags that the tree logic reads. */
  datatype Style = Style(
    hideRoot: bool, multiple: bool, variableRows: bool, linesAtRoot: bool, hasButtons: bool)

  /** Measures supplied by the toolkit: the height of a label, image and button sizes, the indent
      (the last two also halved), where the main column starts, how wide all columns are together, and how letters
      are folded when case does not count. */
  datatype Metrics = Metrics(
    textHeight: string -> nat, imgHeight: nat, btnWidth: nat, btnWidth2: nat, indent: nat, indent2: nat,
    colStart: nat, headerWidth: nat, fold: char -> char)

  /** `unit * n`, by repeated addition. */
  function Times(unit: nat, n: nat): nat {
    if n == 0 then 0 else unit + Times(unit, n - 1)
  }

  lemma {:induction false} TimesIs(unit: nat, n: nat)
    ensures Times(unit, n) == unit * n
  {
    if n > 0 {
      TimesIs(unit, n - 1);
      assert unit * n == unit + unit * (n - 1);
    }
  }

  function Opt(p: Item?): Option<Item> {
    if p == null then None else Some(p)
  }

  /** A cursor, unless its item is in `s`. */
  ghost function Unless(p: Item?, s: set<Item>): Item? {
    if p != null && p in s then null else p
  }

  ghost function SelSet(p: Item?): set<Item> {
    if p == null then {} else {p}
  }

  ghost function Without(s: seq<Item>, x: Item): seq<Item> {
    if x in s then var k := IndexIn(s, x); s[..k] + s[k + 1..] else s
  }

  /** Dictionary order of texts. */
  predicate AtMost(s: string, t: string) {
    s == [] || (t != [] && (s[0] < t[0] || (s[0] == t[0] && AtMost(s[1..], t[1..]))))
  }

  lemma {:induction false} AtMostTotal(s: string, t: string)
    ensures AtMost(s, t) || AtMost(t, s)
  {
    if s != [] && t != [] && s[0] == t[0] { AtMostTotal(s[1..], t[1..]); }
  }

  lemma {:induction false} AtMostTransitive(s: string, t: string, u: string)
    requires AtMost(s, t) && AtMost(t, u)
    ensures AtMost(s, u)
  {
    if s != [] && t != [] && u != [] && s[0] == t[0] == u[0] { AtMostTransitive(s[1..], t[1..], u[1..]); }
  }

  /** One text stands before another if it is the beginning of it, or smaller at the first letter in which they
      differ. */
  lemma {:induction false} AtMostIs(s: string, t: string)
    ensures AtMost(s, t) <==>
              s <= t || exists k :: 0 <= k < |s| && k < |t| && s[..k] == t[..k] && s[k] < t[k]
  {
    if s != [] && t != [] && s[0] == t[0] {
      var u, v := s[1..], t[1..];
      AtMostIs(u, v);
      if u <= v { assert s == [s[0]] + u && t[..|s|] == [t[0]] + v[..|u|]; }
      if s <= t { assert u == v[..|u|]; }
      if k: nat :| k < |u| && k < |v| && u[..k] == v[..k] && u[k] < v[k] {
        assert s[..k + 1] == [s[0]] + u[..k] && t[..k + 1] == [t[0]] + v[..k];
        assert s[k + 1] < t[k + 1];
      }
      if k: nat :| k < |s| && k < |t| && s[..k] == t[..k] && s[k] < t[k] {
        assert k > 0;
        assert u[..k - 1] == s[..k][1..] && v[..k - 1] == t[..k][1..];
        assert u[k - 1] < v[k - 1];
      }
    } else if s != [] && t != [] {
      if s[0] < t[0] { assert s[..0] == t[..0]; }
      SameStart(s, t);
    }
  }

  lemma SameStart(s: string, t: string)
    requires s != [] && t != []
    ensures forall k {:trigger s[..k]} {:trigger t[..k]} ::
              0 < k <= |s| && k <= |t| && s[..k] == t[..k] ==> s[0] == t[0]
  {
    assert forall k :: 0 < k <= |s| ==> s[..k][0] == s[0];
    assert forall k :: 0 < k <= |t| ==> t[..k][0] == t[0];
  }

  class Item {
    const texts: seq<string>
    var parent: Item?
    var children: seq<Item>
    var collapsed: bool
    var hilight: bool
    var hasPlus: bool
    var x: int
    var y: int
    var height: nat

    constructor (parent: Item?, texts: seq<string>)
      ensures this.parent == parent && this.texts == texts && children == []
      ensures collapsed && !hilight && !hasPlus && x == 0 && y == 0 && height == 0
    {
      this.parent := parent;
      this.texts := texts;
      children := [];
      collapsed, hilight, hasPlus := true, false, false;
      x, y, height := 0, 0, 0;
    }

    ghost function Place(): Row reads this`x, this`y, this`height { Row(x, y, height) }

    predicate IsExpanded() reads this`collapsed { !collapsed }

    predicate HasPlus() reads this`hasPlus, this`children { hasPlus || children != [] }

    function GetText(column: nat): string { if column < |texts| then texts[column] else "" }
  }

  class Window {
    const metrics: Metrics
    const mainColumn: nat
    const answers: nat -> bool  // what user code says to the events that it may veto, one after the other
    var asked: nat              // how many of them it was sent so far
    var style: Style
    var root: Item?
    var curItem: Item?
    var shiftItem: Item?
    var selectItem: Item?
    var dirty: bool
    var lineHeight: int
    ghost var shape: Forest<Item>
    ghost var items: set<Item>
    ghost var freed: set<Item>

    // ---------------------------------------------------------------- the invariant

    /** The links of the items are those of the shape. */
    ghost predicate Linked()
      reads this`shape, this`items, items`children, items`parent
    {
      && items == Items(shape)
      && Distinct(shape)
      && forall i {:trigger LinkedAt(i)} :: i in items ==> LinkedAt(i)
    }

    ghost predicate LinkedAt(i: Item)
      reads this`shape, i`children, i`parent
    {
      && i in Items(shape)
      && i.children == ChildrenOf(shape, i)
      && Opt(i.parent) == ParentOf(shape, i)
    }

    ghost predicate Rooted()
      reads this`shape, this`root
    {
      if root == null then shape.Nil? else shape.Cons? && shape.item == root && shape.rest.Nil?
    }

    ghost predicate Present(p: Item?)
      reads this`items
    {
      p != null ==> p in items
    }

    ghost predicate Cursors()
      reads this`items, this`curItem, this`shiftItem, this`selectItem
    {
      Present(curItem) && Present(shiftItem) && Present(selectItem)
    }

    ghost function Expanded(): set<Item>
      reads this`shape, this`items, items`collapsed
    {
      set i | i in items && !i.collapsed
    }

    /** The items whose children are laid out: the expanded ones, and a hidden root in any case. */
    ghost function Open(): set<Item>
      reads this`shape, this`items, this`root, this`style, items`collapsed
    {
      Expanded() + (if root != null && style.hideRoot then {root} else {})
    }

    ghost function Highlighted(): set<Item>
      reads this`items, items`hilight
    {
      set i | i in items && i.hilight
    }

    /** The items with a row, top to bottom. */
    ghost function Shown(): seq<Item>
      reads this`shape, this`items, this`root, this`style, items`collapsed
    {
      if style.hideRoot && shape.Cons? then Walk(shape.kids, Open()) else Walk(shape, Open())
    }

    // ---------------------------------------------------------------- rows

    /** The height a row needs: label or image, with some space added. */
    function Need(i: Item): (h: nat)
      ensures h >= 2
    {
      var text := i.GetText(mainColumn);
      var textH := metrics.textHeight(if |text| > 0 then text else " ");
      var maxH := if metrics.imgHeight > textH then metrics.imgHeight else textH;
      if maxH < 30 then maxH + 2 else maxH + Tenth(maxH)
    }

    /** A row is as high as its label, or as the image if that is higher, and two more, or a tenth of it more. */
    lemma NeedIs(i: Item)
      ensures var text := if mainColumn < |i.texts| then i.texts[mainColumn] else "";
              var textH := metrics.textHeight(if text == "" then " " else text);
              var high := if textH < metrics.imgHeight then metrics.imgHeight else textH;
              Need(i) == high + (if high < 30 then 2 else high / 10)
    {
      var text := i.GetText(mainColumn);
      var textH := metrics.textHeight(if |text| > 0 then text else " ");
      TenthIsQuotient(if metrics.imgHeight > textH then metrics.imgHeight else textH);
    }

    /** The horizontal position of the items of a level. */
    function LevelX(style: Style, level: nat): int {
      metrics.colStart + MARGIN + (if style.linesAtRoot then LINEATROOT else 0)
      + (if style.hasButtons then metrics.btnWidth - metrics.btnWidth2 else metrics.indent - metrics.indent2)
      + Times(metrics.indent, if style.hideRoot && level > 0 then level - 1 else level)
    }

    /** Each level is indented by one more than the level above it; below a hidden root the first level starts where the
        root would. */
    lemma LevelXIs(style: Style, level: nat)
      ensures LevelX(style, level) ==
              metrics.colStart + 2 + (if style.linesAtRoot then 5 else 0)
              + (if style.hasButtons then metrics.btnWidth - metrics.btnWidth2 else metrics.indent - metrics.indent2)
              + metrics.indent * (if style.hideRoot && level > 0 then level - 1 else level)
    {
      TimesIs(metrics.indent, if style.hideRoot && level > 0 then level - 1 else level);
    }

    ghost function WantOf(style: Style, f: Forest<Item>, i: Item): Want {
      Want(LevelX(style, if i in Items(f) then Depth(f, i) else 0), Need(i))
    }

    /** What a layout pass is asked for by the items `s` of a window with that style and shape. */
    ghost function Wants(style: Style, f: Forest<Item>, s: seq<Item>): seq<Want> {
      seq(|s|, k requires 0 <= k < |s| => WantOf(style, f, s[k]))
    }

    function LineHeight(i: Item): int
      reads this`style, this`lineHeight, i`height
    {
      if style.variableRows then i.height else lineHeight
    }

    /** A variable row whose height was cut to nothing. */
    ghost predicate EmptyRow(i: Item)
      reads this`style
    {
      style.variableRows && Byte(Need(i)) == 0
    }

    /** The rows of `s` from the one at `j` up to but not including the one at `k` have no height. */
    ghost predicate NoneHighFrom(s: seq<Item>, j: nat, k: nat)
      requires k <= |s|
      reads this`style
    {
      forall i {:trigger EmptyRow(s[i])} :: j <= i < k ==> EmptyRow(s[i])
    }

    ghost predicate Sized(s: seq<Item>)
      reads s`height
    {
      forall k :: 0 <= k < |s| ==> s[k].height == Byte(Need(s[k]))
    }

    /** Y never goes up along `s`, and stays the same exactly over rows without height. */
    ghost predicate Rising(s: seq<Item>)
      reads this`style, s`y
    {
      forall j, k {:trigger RisesAt(s, j, k)} :: 0 <= j < k < |s| ==> RisesAt(s, j, k)
    }

    ghost predicate RisesAt(s: seq<Item>, j: nat, k: nat)
      requires j < k < |s|
      reads this`style, s`y
    {
      s[j].y <= s[k].y && (s[j].y == s[k].y <==> NoneHighFrom(s, j, k))
    }

    ghost predicate Ordered()
      requires items == Items(shape)
      reads this`shape, this`items, this`root, this`style, items`collapsed, items`y, items`height
    {
      ShownPresent();
      Sized(Shown()) && Rising(Shown())
    }

    lemma ShownPresent()
      requires items == Items(shape)
      ensures forall i :: i in Shown() ==> i in items
    {
      WalkItems(shape, Open());
      if shape.Cons? { WalkItems(shape.kids, Open()); }
    }

    /** The invariant.  The last line is the promise of the dirty flag: unless it is set, rows are sized
        and their Y positions follow the shown order, equal only where rows have no height. */
    ghost predicate Valid()
      reads this, items`children, items`parent, items`collapsed, items`y, items`height
    {
      && Linked()
      && Rooted()
      && Cursors()
      && items !! freed
      && lineHeight > 0
      && (!dirty ==> Ordered())
    }

    constructor (metrics: Metrics, mainColumn: nat, style: Style, answers: nat -> bool)
      ensures Valid() && shape == Nil && root == null && freed == {}
      ensures this.metrics == metrics && this.mainColumn == mainColumn && this.style == style
      ensures this.answers == answers && asked == 0
    {
      this.metrics, this.mainColumn, this.style := metrics, mainColumn, style;
      this.answers, asked := answers, 0;
      root, curItem, shiftItem, selectItem := null, null, null, null;
      dirty := false;
      lineHeight := LINEHEIGHT;
      shape, items, freed := Nil, {}, {};
    }

    // ---------------------------------------------------------------- user code

    /** Sends an event that user code may veto. */
    method SendEvent() returns (allowed: bool)
      modifies this`asked
      ensures allowed == answers(old(asked)) && asked == old(asked) + 1
    {
      allowed := answers(asked);
      asked := asked + 1;
    }

    /** User code allowed all that it was asked from event `first` up to but not including `end`. */
    ghost predicate Granted(first: nat, end: nat) {
      forall n {:trigger answers(n)} :: first <= n < end ==> answers(n)
    }

    // ---------------------------------------------------------------- navigation

    /** Index of an item in a list that holds it. */
    method IndexOf(s: seq<Item>, i: Item) returns (k: nat)
      requires i in s
      ensures k < |s| && s[k] == i && i !in s[..k]
    {
      k := 0;
      while s[k] != i
        invariant k < |s| && i !in s[..k] && i in s[k..]
        decreases |s| - k
      {
        k := k + 1;
      }
    }

    method GetNextSibling(item: Item) returns (r: Item?)
      requires Linked() && item in items
      ensures Opt(r) == if item.parent == null then None else NextSibling(shape, item)
    {
      assert LinkedAt(item);
      var parent := item.parent;
      if parent == null { return null; }
      ParentFacts(shape, item);
      assert LinkedAt(parent);
      var siblings := parent.children;
      var index := IndexOf(siblings, item);
      SiblingIndex(shape, parent, index);
      return if index < |siblings| - 1 then siblings[index + 1] else null;
    }

    method GetPrevSibling(item: Item) returns (r: Item?)
      requires Linked() && item in items
      ensures Opt(r) == if item.parent == null then None else PrevSibling(shape, item)
    {
      assert LinkedAt(item);
      var parent := item.parent;
      if parent == null { return null; }
      ParentFacts(shape, item);
      assert LinkedAt(parent);
      var siblings := parent.children;
      var index := IndexOf(siblings, item);
      SiblingIndex(shape, parent, index);
      return if index >= 1 then siblings[index - 1] else null;
    }

    /** The items a traversal enters. */
    ghost function Entered(fullTree: bool): set<Item>
      reads this`shape, this`items, items`collapsed
    {
      if fullTree then items else Expanded()
    }

    lemma RootHasNoSiblings(i: Item)
      requires Linked() && Rooted() && i in items && i.parent == null
      ensures i == root && LaterOf(shape, i) == Nil && PrevSibling(shape, i) == None
    {
      assert LinkedAt(i);
      ParentFacts(shape, i);
      assert Roots(shape) == [shape.item];
    }

    method GetNext(item: Item, fullTree: bool) returns (next: Item?)
      requires Linked() && Rooted() && item in items
      ensures Opt(next) == NextOf(shape, item, Entered(fullTree))
    {
      assert LinkedAt(item);
      if fullTree || item.IsExpanded() {
        var children := item.children;
        if |children| > 0 { return children[0]; }
      }
      var parent: Item? := item;
      next := null;
      ghost var goal := FirstOf(After(shape, item, items, true));
      while true
        invariant parent != null && parent in items
        invariant FirstOf(After(shape, parent, items, true)) == goal
        decreases Depth(shape, parent)
      {
        assert LinkedAt(parent);
        ClimbStep(shape, parent);
        ParentFacts(shape, parent);
        if parent.parent == null { RootHasNoSiblings(parent); }
        next := GetNextSibling(parent);
        parent := parent.parent;
        if next != null || parent == null { break; }
      }
    }

    method GetPrev(item: Item, fullTree: bool) returns (prev: Item?)
      requires Linked() && Rooted() && item in items
      ensures Opt(prev) == PrevOf(shape, item, Entered(fullTree))
    {
      ghost var open := Entered(fullTree);
      assert LinkedAt(item);
      BeforeStep(shape, item, open);
      if item.parent == null { RootHasNoSiblings(item); }
      prev := GetPrevSibling(item);
      assert Opt(prev) == PrevSibling(shape, item);
      if prev == null {
        return item.parent;
      }
      assert PrevOf(shape, item, open) == LastOf([prev] + Under(shape, prev, open));
      while fullTree || prev.IsExpanded()
        invariant Linked() && open == Entered(fullTree)
        invariant prev != null && prev in items
        invariant LastOf([prev] + Under(shape, prev, open)) == PrevOf(shape, item, open)
        decreases Size(KidsOf(shape, prev))
      {
        var children := prev.children;
        assert LinkedAt(prev);
        if |children| == 0 { break; }
        assert prev in open;
        LastUnder(shape, prev, open);
        prev := children[|children| - 1];
      }
      assert LinkedAt(prev);
      assert Under(shape, prev, open) == [];
    }

    // ---------------------------------------------------------------- selection

    method UnselectAllChildren(item: Item, ghost branch: set<Item>)
      requires Linked() && item in items && Present(selectItem) && branch == Items(Branch(shape, item))
      modifies this`selectItem, items`hilight
      ensures forall i :: i in items ==> i.hilight == (old(i.hilight) && i !in branch)
      ensures selectItem ==
              if old(selectItem) != null && old(selectItem) in branch && old(selectItem.hilight) then null
              else old(selectItem)
      decreases Size(KidsOf(shape, item))
    {
      ghost var kids, sel := KidsOf(shape, item), selectItem;
      ghost var cleared := UnselectFirst(item);
      if item.hilight {
        item.hilight := false;
        if item == selectItem { selectItem := null; }
      }
      if item.children != [] {
        var n := 0;
        while n < |item.children|
          invariant n <= |item.children|
          invariant cleared == branch - Items(From(kids, n))
          invariant forall i :: i in items ==> i.hilight == (old(i.hilight) && i !in cleared)
          invariant selectItem == (if sel != null && sel in cleared && old(sel.hilight) then null else sel)
        {
          ghost var b := UnselectStep(item, n, branch, cleared);
          UnselectAllChildren(item.children[n], b);
          cleared := cleared + b;
          n := n + 1;
        }
      }
      assert cleared == branch by { NoneLeft(item); }
    }

    lemma UnselectFirst(item: Item) returns (c: set<Item>)
      requires Linked() && item in items
      ensures c == {item} && c == Items(Branch(shape, item)) - Items(From(KidsOf(shape, item), 0))
    {
      BranchItems(shape, item);
      KidsInside(shape, item);
      c := {item};
    }

    lemma UnselectStep(item: Item, n: nat, branch: set<Item>, done: set<Item>) returns (b: set<Item>)
      requires Linked() && item in items && n < |item.children|
      requires branch == Items(Branch(shape, item))
      requires done == branch - Items(From(KidsOf(shape, item), n))
      ensures item.children[n] in items && Size(KidsOf(shape, item.children[n])) < Size(KidsOf(shape, item))
      ensures b == Items(Branch(shape, item.children[n]))
      ensures done + b == branch - Items(From(KidsOf(shape, item), n + 1))
    {
      assert LinkedAt(item);
      ChildStep(shape, item, n);
      KidsInside(shape, item);
      BranchItems(shape, item);
      BranchItems(shape, item.children[n]);
      b := Items(Branch(shape, item.children[n]));
    }

    method UnselectAll()
      requires Linked() && Rooted() && Present(selectItem)
      modifies this`selectItem, items`hilight
      ensures Highlighted() == {}
      ensures selectItem == Unless(old(selectItem), old(Highlighted()))
    {
      if root != null {
        UnselectAllChildren(root, items);
      }
    }

    method Unselect()
      requires Linked() && Present(selectItem)
      modifies this`selectItem, items`hilight
      ensures selectItem == null
      ensures Highlighted() == old(Highlighted()) - (if old(selectItem) == null then {} else {old(selectItem)})
    {
      if selectItem != null {
        selectItem.hilight := false;
        selectItem := null;
      }
    }

    /** What is visible in the branches of the children of `i` from index `n` on. */
    ghost function VisibleFrom(i: Item, n: nat): seq<Item>
      requires i in Items(shape)
      reads this`shape, this`items, items`collapsed
    {
      Walk(From(KidsOf(shape, i), n), Expanded())
    }

    ghost function VisibleBranch(i: Item): seq<Item>
      requires i in Items(shape)
      reads this`shape, this`items, items`collapsed
    {
      Walk(Branch(shape, i), Expanded())
    }

    /** Highlights `crt` and what is visible under it, in order, until `last`. */
    method TagAllChildrenUntilLast(crt: Item, last: Item, ghost all: seq<Item>) returns (found: bool)
      requires Linked() && crt in items && all == VisibleBranch(crt)
      modifies items`hilight
      ensures found <==> last in all
      ensures forall i :: i in items ==> i.hilight == (old(i.hilight) || i in UpTo(all, last))
      decreases Size(KidsOf(shape, crt)), 1
    {
      ghost var under := Under(shape, crt, Expanded());
      BranchWalk(shape, crt, Expanded());
      assert LinkedAt(crt);
      crt.hilight := true;
      if crt == last { return true; }
      UpToConcat([crt], under, last);
      if crt.children != [] && crt.IsExpanded() {
        found := TagChildren(crt, 0, last, under);
      } else {
        assert under == [];
        found := false;
      }
    }

    /** The loop over the children of `parent` from index `first` on, tagging until `last`. */
    method TagChildren(parent: Item, first: nat, last: Item, ghost all: seq<Item>) returns (found: bool)
      requires Linked() && parent in items && first <= |parent.children| && all == VisibleFrom(parent, first)
      modifies items`hilight
      ensures found <==> last in all
      ensures forall i :: i in items ==> i.hilight == (old(i.hilight) || i in UpTo(all, last))
      decreases Size(KidsOf(shape, parent)), 0
    {
      ghost var k, open := KidsOf(shape, parent), Expanded();
      ghost var done := [];
      var n := first;
      while n < |parent.children|
        invariant n <= |parent.children| && Expanded() == open
        invariant all == done + Walk(From(k, n), open) && last !in done
        invariant forall i :: i in items ==> i.hilight == (old(i.hilight) || i in done)
      {
        ghost var w := TagStep(parent, n, open, done, last);
        found := TagAllChildrenUntilLast(parent.children[n], last, w);
        if found {
          assert UpTo(all, last) == done + UpTo(w, last) && last in all;
          return;
        }
        done := done + w;
        n := n + 1;
      }
      assert all == done && UpTo(done, last) == done by { TagLast(parent, done, last); }
      return false;
    }

    lemma TagStep(parent: Item, n: nat, open: set<Item>, done: seq<Item>, last: Item) returns (w: seq<Item>)
      requires Linked() && parent in items && n < |parent.children| && last !in done
      ensures parent.children[n] in items && Size(KidsOf(shape, parent.children[n])) < Size(KidsOf(shape, parent))
      ensures w == Walk(Branch(shape, parent.children[n]), open)
      ensures var k := KidsOf(shape, parent);
              && done + Walk(From(k, n), open) == done + w + Walk(From(k, n + 1), open)
              && (last in w ==> UpTo(done + Walk(From(k, n), open), last) == done + UpTo(w, last))
      ensures last !in w ==> UpTo(w, last) == w
    {
      assert LinkedAt(parent);
      ChildStep(shape, parent, n);
      BranchWalk(shape, parent.children[n], open);
      w := Walk(Branch(shape, parent.children[n]), open);
      var rest := Walk(From(KidsOf(shape, parent), n + 1), open);
      assert Walk(From(KidsOf(shape, parent), n), open) == w + rest;
      assert done + (w + rest) == done + w + rest;
      UpToConcat(done, w + rest, last);
      UpToConcat(w, rest, last);
    }

    lemma TagLast(parent: Item, done: seq<Item>, last: Item)
      requires Linked() && parent in items && last !in done
      ensures From(KidsOf(shape, parent), |parent.children|) == Nil
      ensures UpTo(done, last) == done
    {
      assert LinkedAt(parent);
      FromRoots(KidsOf(shape, parent), |parent.children|);
      UpToConcat(done, [], last);
    }

    /** Continues after the branch of `crt`: its later siblings, then those of its parent, until `last`.
        Past the root it starts again from the top. */
    method TagNextChildren(crt: Item, last: Item, ghost all: seq<Item>) returns (found: bool)
      requires Linked() && Rooted() && crt in items && all == Following(crt)
      modifies items`hilight
      ensures found <==> last in all
      ensures forall i :: i in items ==> i.hilight == (old(i.hilight) || i in UpTo(all, last))
      decreases Depth(shape, crt), 1
    {
      var parent := crt.parent;
      if parent == null {
        RootFollowing(crt);
        found := TagAllChildrenUntilLast(crt, last, all);
      } else {
        ParentPresent(crt);
        found := TagOutwards(crt, parent, last, all);
      }
    }

    lemma ParentPresent(i: Item)
      requires Linked() && i in items && i.parent != null
      ensures i.parent in items && i in i.parent.children && Depth(shape, i.parent) < Depth(shape, i)
    {
      assert LinkedAt(i);
      ParentFacts(shape, i);
      assert LinkedAt(i.parent);
    }

    /** The later siblings, and then what follows the parent. */
    method TagOutwards(crt: Item, parent: Item, last: Item, ghost all: seq<Item>) returns (found: bool)
      requires Linked() && Rooted() && crt in items && crt.parent == parent && all == Following(crt)
      requires parent in items && crt in parent.children && Depth(shape, parent) < Depth(shape, crt)
      modifies items`hilight
      ensures found <==> last in all
      ensures forall i :: i in items ==> i.hilight == (old(i.hilight) || i in UpTo(all, last))
      decreases Depth(shape, crt), 0
    {
      var index := IndexOf(parent.children, crt);
      ghost var now, later := FollowingClimb(crt, index, all, last);
      found := TagBeside(parent, index + 1, last, now);
      if !found {
        found := TagNextChildren(parent, last, later);
      }
    }

    /** The later siblings, if they are shown. */
    method TagBeside(parent: Item, first: nat, last: Item, ghost now: seq<Item>) returns (found: bool)
      requires Linked() && Rooted() && parent in items && first <= |parent.children| && parent.children != []
      requires now == (if parent in Open() then VisibleFrom(parent, first) else [])
      modifies items`hilight
      ensures found <==> last in now
      ensures forall i :: i in items ==> i.hilight == (old(i.hilight) || i in UpTo(now, last))
    {
      found := false;
      if (parent.children != [] && parent.IsExpanded()) || (parent == root && style.hideRoot) {
        found := TagChildren(parent, first, last, now);
      }
    }

    lemma RootFollowing(crt: Item)
      requires Linked() && Rooted() && crt in items && crt.parent == null
      ensures Following(crt) == VisibleBranch(crt)
    {
      RootHasNoSiblings(crt);
    }

    /** What follows the branch of an item: what is after it in the walk, then the walk again. */
    ghost function Following(i: Item): seq<Item>
      requires i in Items(shape)
      reads this`shape, this`items, this`root, this`style, items`collapsed
    {
      After(shape, i, Open(), true) + Walk(shape, Expanded())
    }

    /** One climb: what follows is the later siblings, when shown, and then what follows the parent. */
    lemma FollowingClimb(crt: Item, index: nat, all: seq<Item>, last: Item) returns (now: seq<Item>, later: seq<Item>)
      requires Linked() && Rooted() && crt in items && crt.parent != null && crt.parent in items
      requires index < |crt.parent.children| && crt.parent.children[index] == crt && all == Following(crt)
      ensures now == (if crt.parent in Open() then VisibleFrom(crt.parent, index + 1) else [])
      ensures later == Following(crt.parent) && (last in all <==> last in now || last in later)
      ensures forall i :: i in UpTo(all, last) <==> i in UpTo(now, last) || (last !in now && i in UpTo(later, last))
    {
      now, later := FollowingParts(crt, index);
      UpToConcat(now, later, last);
    }

    lemma FollowingParts(crt: Item, index: nat) returns (now: seq<Item>, later: seq<Item>)
      requires Linked() && Rooted() && crt in items && crt.parent != null && crt.parent in items
      requires index < |crt.parent.children| && crt.parent.children[index] == crt
      ensures now == (if crt.parent in Open() then VisibleFrom(crt.parent, index + 1) else [])
      ensures later == Following(crt.parent) && Following(crt) == now + later
    {
      assert LinkedAt(crt) && LinkedAt(crt.parent);
      AfterClimb(shape, crt, Open(), true);
      FromLater(shape, crt.parent, index);
      OpenBelow(crt.parent, index + 1);
      now := if crt.parent in Open() then VisibleFrom(crt.parent, index + 1) else [];
      later := Following(crt.parent);
      assert now == Beside(shape, crt, Open(), true);
      Assoc(now, After(shape, crt.parent, Open(), true), Walk(shape, Expanded()));
    }

    /** Below the root, open means expanded. */
    lemma OpenBelow(parent: Item, n: nat)
      requires Linked() && Rooted() && parent in items && n <= |parent.children|
      ensures Walk(From(KidsOf(shape, parent), n), Open()) == VisibleFrom(parent, n)
    {
      assert LinkedAt(parent);
      var k := KidsOf(shape, parent);
      KidsInside(shape, parent);
      FromRoots(k, n);
      if root in Items(k) {
        ChildFacts(shape, parent, root);
        assert false;
      }
      WalkAgree(From(k, n), Open(), Expanded());
    }

    // ---------------------------------------------------------------- layout

    /** What a layout pass that starts at an item visits. */
    ghost function Laid(item: Item, level: int): seq<Item>
      requires item in Items(shape)
      reads this`shape, this`items, this`root, this`style, items`collapsed
    {
      if style.hideRoot && level == 0 then Walk(KidsOf(shape, item), Open()) else Walk(Branch(shape, item), Open())
    }

    method CalculateSize(item: Item)
      requires item in items
      modifies this`lineHeight, item`height
      ensures item.height == Byte(Need(item))
      ensures lineHeight == Max(old(lineHeight), Need(item))
    {
      var maxH := Need(item);
      item.height := Byte(maxH);  // an unsigned char
      if maxH > lineHeight { lineHeight := maxH; }
    }

    method PlaceRow(item: Item, level: nat, y: int) returns (bottom: int)
      requires item in items
      modifies this`lineHeight, item`x, item`y, item`height
      ensures item.Place() == Row(LevelX(style, level), y, Byte(Need(item)))
      ensures lineHeight == Max(old(lineHeight), Need(item))
      ensures bottom == y + RowHeight(Need(item), lineHeight, style.variableRows)
    {
      CalculateSize(item);
      item.x := LevelX(style, level);
      item.y := y;
      bottom := y + LineHeight(item);
    }

    method CalculateLevel(item: Item, level: nat, y: int, ghost all: seq<Item>, ghost plan: Pass) returns (bottom: int)
      requires Linked() && Rooted() && item in items && level == Depth(shape, item)
      requires all == Laid(item, level) && IsPass(Wants(style, shape, all), y, lineHeight, style.variableRows, plan)
      modifies this`lineHeight, items`x, items`y, items`height
      ensures AllHave(all, plan.rows)
      ensures bottom == plan.bottom && lineHeight == plan.line
      ensures forall i :: i in items && i !in all ==> i.Place() == old(i.Place())
      decreases Size(KidsOf(shape, item)), 3
    {
      LaidFirst(item, level, all);
      if style.hideRoot && level == 0 {
        bottom := CalculateChildren(item, level, y, all, plan);
      } else {
        bottom := CalculateRows(item, level, y, all, plan);
      }
    }

    /** The row of the item and those below it. */
    method CalculateRows(item: Item, level: nat, y: int, ghost all: seq<Item>, ghost plan: Pass) returns (bottom: int)
      requires Linked() && Rooted() && item in items && level == Depth(shape, item)
      requires all == [item] + (if item.collapsed then [] else Walk(KidsOf(shape, item), Open()))
      requires IsPass(Wants(style, shape, all), y, lineHeight, style.variableRows, plan)
      modifies this`lineHeight, items`x, items`y, items`height
      ensures AllHave(all, plan.rows)
      ensures bottom == plan.bottom && lineHeight == plan.line
      ensures forall i :: i in items && i !in all ==> i.Place() == old(i.Place())
      decreases Size(KidsOf(shape, item)), 2
    {
      ghost var tail, later, top, line := FirstRow(item, level, y, all, lineHeight, plan);
      bottom := PlaceRow(item, level, y);
      assert bottom == top && lineHeight == line;
      if item.IsExpanded() {
        bottom := CalculateChildren(item, level, bottom, tail, later);
      }
      HasConcat([item], plan.rows[..1], tail, later.rows);
      assert [item] + tail == all && plan.rows[..1] + later.rows == plan.rows;
    }

    /** The loop over the children. */
    method CalculateChildren(item: Item, level: nat, y: int, ghost all: seq<Item>, ghost plan: Pass)
        returns (bottom: int)
      requires Linked() && Rooted() && item in items && level == Depth(shape, item)
      requires all == Walk(KidsOf(shape, item), Open())
               && IsPass(Wants(style, shape, all), y, lineHeight, style.variableRows, plan)
      modifies this`lineHeight, items`x, items`y, items`height
      ensures AllHave(all, plan.rows)
      ensures bottom == plan.bottom && lineHeight == plan.line
      ensures forall i :: i in items && i !in all ==> i.Place() == old(i.Place())
      decreases Size(KidsOf(shape, item)), 1
    {
      bottom := y;
      ghost var kids, line, open, sty, f := KidsOf(shape, item), lineHeight, Open(), style, shape;
      ghost var done, now := [], Pass([], [], y, line);
      EmptyPass(y, line, sty.variableRows);
      var n := 0;
      while n < |item.children|
        invariant n <= |item.children|
        invariant style == sty && shape == f && Open() == open
        invariant all == done + Walk(From(kids, n), open)
        invariant IsPass(Wants(sty, f, done), y, line, sty.variableRows, now)
        invariant AllHave(done, now.rows)
        invariant bottom == now.bottom && lineHeight == now.line
        invariant forall i :: i in items && i !in done ==> i.Place() == old(i.Place())
      {
        bottom, done, now := CalculateChild(item, level, n, bottom, all, done, y, line, now);
        n := n + 1;
      }
      assert all == done by { NoneLeft(item); }
      OnePass(Wants(sty, f, all), y, line, sty.variableRows, now, plan);
    }

    /** One turn of the loop. */
    method CalculateChild(item: Item, level: nat, n: nat, top: int, ghost all: seq<Item>, ghost done: seq<Item>,
                          ghost y: int, ghost line: int, ghost now: Pass)
      returns (bottom: int, ghost next: seq<Item>, ghost late: Pass)
      requires Linked() && Rooted() && item in items && level == Depth(shape, item) && n < |item.children|
      requires all == Walk(KidsOf(shape, item), Open()) == done + Walk(From(KidsOf(shape, item), n), Open())
      requires IsPass(Wants(style, shape, done), y, line, style.variableRows, now)
      requires AllHave(done, now.rows) && top == now.bottom && lineHeight == now.line
      modifies this`lineHeight, items`x, items`y, items`height
      ensures all == next + Walk(From(KidsOf(shape, item), n + 1), Open())
      ensures IsPass(Wants(style, shape, next), y, line, style.variableRows, late)
      ensures AllHave(next, late.rows) && bottom == late.bottom && lineHeight == late.line
      ensures forall i :: i in items && i !in next ==> i.Place() == old(i.Place())
      ensures forall i :: i in done ==> i in next
      decreases Size(KidsOf(shape, item)), 0
    {
      ghost var w, p;
      w, p, late := LaidStep(item, level, n, done, all, y, line, now);
      next := done + w;
      assert forall k :: 0 <= k < |done| ==> done[k] in items && done[k] !in w;
      bottom := CalculateLevel(item.children[n], level + 1, top, w, p);
      HasConcat(done, now.rows, w, p.rows);
    }

    lemma WantsConcat(a: seq<Item>, b: seq<Item>)
      ensures Wants(style, shape, a + b) == Wants(style, shape, a) + Wants(style, shape, b)
    {
    }

    lemma FirstRow(item: Item, level: nat, y: int, all: seq<Item>, line: int, plan: Pass)
      returns (tail: seq<Item>, later: Pass, b: int, l: int)
      requires Linked() && item in items && level == Depth(shape, item)
      requires all == [item] + (if item.collapsed then [] else Walk(KidsOf(shape, item), Open()))
      requires IsPass(Wants(style, shape, all), y, line, style.variableRows, plan)
      ensures all == [item] + tail && tail == all[1..] && item !in tail
      ensures l == Max(line, Need(item)) && b == y + RowHeight(Need(item), l, style.variableRows)
      ensures IsPass(Wants(style, shape, tail), b, l, style.variableRows, later)
      ensures tail == [] ==> later == Pass([], [], b, l)
      ensures plan.rows == [Row(LevelX(style, level), y, Byte(Need(item)))] + later.rows
      ensures plan.bottom == later.bottom && plan.line == later.line
    {
      tail := RowsUnder(item, all);
      l := Max(line, Need(item));
      b := y + RowHeight(Need(item), l, style.variableRows);
      later := FirstPass(WantOf(style, shape, item), Wants(style, shape, tail), y, line, style.variableRows, plan);
    }

    lemma RowsUnder(item: Item, all: seq<Item>) returns (tail: seq<Item>)
      requires Linked() && item in items
      requires all == [item] + (if item.collapsed then [] else Walk(KidsOf(shape, item), Open()))
      ensures tail == all[1..] && item !in tail && all == [item] + tail
      ensures Wants(style, shape, all) == [WantOf(style, shape, item)] + Wants(style, shape, tail)
    {
      KidsInside(shape, item);
      WalkItems(KidsOf(shape, item), Open());
      tail := if item.collapsed then [] else Walk(KidsOf(shape, item), Open());
      assert item !in tail;
      WantsCons(item, tail);
    }

    lemma WantsCons(item: Item, tail: seq<Item>)
      ensures Wants(style, shape, [item] + tail) == [WantOf(style, shape, item)] + Wants(style, shape, tail)
    {
    }

    lemma LaidFirst(item: Item, level: nat, all: seq<Item>)
      requires Linked() && Rooted() && item in items && level == Depth(shape, item) && all == Laid(item, level)
      ensures style.hideRoot && level == 0 ==> all == Walk(KidsOf(shape, item), Open())
      ensures !(style.hideRoot && level == 0) ==>
                all == [item] + (if item.collapsed then [] else Walk(KidsOf(shape, item), Open()))
    {
      assert LinkedAt(item);
      BranchWalk(shape, item, Open());
      if item == root { assert Depth(shape, item) == 0; }
    }

    lemma LaidStep(item: Item, level: nat, n: nat, done: seq<Item>, all: seq<Item>, y: int, line: int, now: Pass)
      returns (w: seq<Item>, p: Pass, q: Pass)
      requires Linked() && Rooted() && item in items && level == Depth(shape, item) && n < |item.children|
      requires all == Walk(KidsOf(shape, item), Open()) == done + Walk(From(KidsOf(shape, item), n), Open())
      requires IsPass(Wants(style, shape, done), y, line, style.variableRows, now)
      ensures item.children[n] in items && Size(KidsOf(shape, item.children[n])) < Size(KidsOf(shape, item))
      ensures Depth(shape, item.children[n]) == level + 1 && w == Laid(item.children[n], level + 1)
      ensures all == done + w + Walk(From(KidsOf(shape, item), n + 1), Open())
      ensures forall i :: i in done ==> i in items && i !in w
      ensures IsPass(Wants(style, shape, w), now.bottom, now.line, style.variableRows, p)
      ensures IsPass(Wants(style, shape, done + w), y, line, style.variableRows, q)
      ensures q.rows == now.rows + p.rows && q.bottom == p.bottom && q.line == p.line
    {
      w := LaidChild(item, level, n, done, all);
      WantsConcat(done, w);
      p, q := NextPass(Wants(style, shape, done), Wants(style, shape, w), y, line, style.variableRows, now);
    }

    lemma OnePass(ws: seq<Want>, top: int, line: int, variable: bool, p: Pass, q: Pass)
      requires IsPass(ws, top, line, variable, p) && IsPass(ws, top, line, variable, q)
      ensures p == q
    {
      PassIsPlan(ws, top, line, variable, p);
      PassIsPlan(ws, top, line, variable, q);
    }

    lemma Apart(a: seq<Item>, b: seq<Item>, c: seq<Item>, all: seq<Item>)
      requires all == a + (b + c) && NoDup(all)
      ensures all == a + b + c && forall i :: i in a ==> i in all && i !in b
    {
      forall i | i in a ensures i in all && i !in b {
        var j :| 0 <= j < |a| && a[j] == i;
        assert all[j] == i;
        assert forall k :: 0 <= k < |b| ==> b[k] == all[|a| + k];
      }
    }

    ghost predicate AllHave(s: seq<Item>, rows: seq<Row>)
      reads s
    {
      |s| == |rows| && forall k :: 0 <= k < |s| ==> s[k].Place() == rows[k]
    }

    lemma HasConcat(a: seq<Item>, p: seq<Row>, b: seq<Item>, q: seq<Row>)
      requires AllHave(a, p) && AllHave(b, q)
      ensures AllHave(a + b, p + q)
    {
    }

    /** Past the last child nothing is left. */
    lemma NoneLeft(item: Item)
      requires Linked() && item in items
      ensures From(KidsOf(shape, item), |item.children|) == Nil
    {
      assert LinkedAt(item);
      FromRoots(KidsOf(shape, item), |item.children|);
    }

    /** A layout of all shown items from the top of the window. */
    ghost function LayoutFrom(line: int): Pass
      reads this`shape, this`items, this`root, this`style, items`collapsed
    {
      Plan(Wants(style, shape, Shown()), TOP, line, style.variableRows)
    }

    /** The line height covers every shown row. */
    ghost predicate Covered()
      reads this`shape, this`items, this`root, this`style, this`lineHeight, items`collapsed
    {
      forall i :: i in Shown() ==> Need(i) <= lineHeight
    }

    /** The items stand where a pass that starts with the present line height puts them. */
    ghost predicate Settled()
      reads this`shape, this`items, this`root, this`style, this`lineHeight, items
      requires items == Items(shape)
    {
      ShownPresent();
      Covered() && AllHave(Shown(), LayoutFrom(lineHeight).rows)
    }

    method CalculatePositions() returns (ghost plan: Pass)
      requires Linked() && Rooted() && lineHeight > 0
      modifies this`lineHeight, items`x, items`y, items`height
      ensures IsPass(Wants(style, shape, Shown()), TOP, old(lineHeight), style.variableRows, plan)
      ensures AllHave(Shown(), plan.rows)
      ensures lineHeight == plan.line && lineHeight >= old(lineHeight)
      ensures forall i :: i in items && i !in Shown() ==> i.Place() == old(i.Place())
      ensures Ordered() && Covered()
    {
      ghost var shown := Shown();
      plan := LayoutFrom(lineHeight);
      PlanIsPass(Wants(style, shape, shown), TOP, lineHeight, style.variableRows);
      if root == null { return; }
      ghost var line := lineHeight;
      ShownPresent();
      assert shown == Laid(root, 0) by { assert Branch(shape, root) == shape; }
      var y := CalculateLevel(root, 0, TOP, shown, plan);
      AfterPass(shown, line, plan);
    }

    /** Passes reach a fixpoint: any pass covers all rows, a pass over covered rows keeps the line height
        and settles, and a pass over settled rows moves nothing. */
    method LayoutPass()
      requires Linked() && Rooted() && lineHeight > 0
      modifies this`lineHeight, items`x, items`y, items`height
      ensures Covered() && lineHeight >= old(lineHeight)
      ensures old(Covered()) ==> lineHeight == old(lineHeight) && Settled()
      ensures old(Settled()) ==> forall i :: i in items ==> i.Place() == old(i.Place())
    {
      ghost var settled, covered, line := Settled(), Covered(), lineHeight;
      ghost var expected := ExpectedPass();
      ghost var plan := CalculatePositions();
      OnePass(Wants(style, shape, Shown()), TOP, line, style.variableRows, plan, expected);
      if covered { SettledBy(plan); }
      if settled { SamePlaces(plan.rows); }
    }

    /** What the next pass will give. */
    lemma ExpectedPass() returns (plan: Pass)
      requires items == Items(shape)
      ensures IsPass(Wants(style, shape, Shown()), TOP, lineHeight, style.variableRows, plan)
      ensures Covered() ==> plan.line == lineHeight
      ensures Settled() ==> AllHave(Shown(), plan.rows)
    {
      plan := LayoutFrom(lineHeight);
      PlanIsPass(Wants(style, shape, Shown()), TOP, lineHeight, style.variableRows);
      if Covered() { CoveredPass(); }
    }

    lemma SettledBy(plan: Pass)
      requires items == Items(shape) && Covered() && AllHave(Shown(), plan.rows)
      requires IsPass(Wants(style, shape, Shown()), TOP, lineHeight, style.variableRows, plan)
      ensures Settled()
    {
      PassIsPlan(Wants(style, shape, Shown()), TOP, lineHeight, style.variableRows, plan);
    }

    twostate lemma SamePlaces(new rows: seq<Row>)
      requires unchanged(this`shape, this`items, this`root, this`style) && unchanged(items`collapsed)
      requires items == Items(shape)
      requires AllHave(old(Shown()), rows) && old(AllHave(Shown(), rows))
      requires forall i :: i in items && i !in Shown() ==> i.Place() == old(i.Place())
      ensures forall i :: i in items ==> i.Place() == old(i.Place())
    {
      var shown := Shown();
      forall i | i in shown && i in items ensures i.Place() == old(i.Place()) {
        var k :| 0 <= k < |shown| && shown[k] == i;
        assert old(shown[k].Place()) == rows[k];
      }
    }

    lemma CoveredPass()
      requires Covered()
      ensures LayoutFrom(lineHeight).line == lineHeight
    {
      var ws := Wants(style, shape, Shown());
      forall k | 0 <= k < |ws| ensures ws[k].need <= lineHeight {
        assert Shown()[k] in Shown();
      }
      LineSettled(ws, TOP, lineHeight, style.variableRows);
    }

    lemma AfterPass(shown: seq<Item>, line: int, plan: Pass)
      requires items == Items(shape) && shown == Shown() && plan == LayoutFrom(line) && line > 0
      requires AllHave(shown, plan.rows)
      ensures (forall i :: i in shown ==> Need(i) <= plan.line) && line <= plan.line
      ensures (forall i :: i in shown ==> Need(i) <= line) ==> plan.line == line
      ensures Ordered()
    {
      var ws := Wants(style, shape, shown);
      LineGrows(ws, TOP, line, style.variableRows);
      LineSettled(ws, TOP, line, style.variableRows);
      assert forall i :: i in shown ==> exists k :: 0 <= k < |ws| && shown[k] == i && ws[k].need == Need(i);
      forall k | 0 <= k < |shown| ensures shown[k].height == Byte(Need(shown[k])) {
        PlanRow(ws, TOP, line, style.variableRows, k);
        assert shown[k].Place() == plan.rows[k];
      }
      forall j, k | 0 <= j < k < |shown| ensures RisesAt(shown, j, k) {
        PassRises(shown, line, plan, j, k);
      }
    }

    lemma PassRises(shown: seq<Item>, line: int, plan: Pass, j: nat, k: nat)
      requires plan == Plan(Wants(style, shape, shown), TOP, line, style.variableRows) && line > 0
      requires AllHave(shown, plan.rows) && j < k < |shown|
      ensures RisesAt(shown, j, k)
    {
      var ws := Wants(style, shape, shown);
      TopsRise(ws, j, k, TOP, line, style.variableRows);
      assert shown[j].Place() == plan.rows[j] && shown[k].Place() == plan.rows[k];
      SameEmpty(shown, j, k);
    }

    lemma SameEmpty(s: seq<Item>, j: nat, k: nat)
      requires j < k < |s|
      ensures NoneHigh(Wants(style, shape, s), style.variableRows, j, k) <==> NoneHighFrom(s, j, k)
    {
      var ws := Wants(style, shape, s);
      if NoneHigh(ws, style.variableRows, j, k) {
        forall i | j <= i < k ensures EmptyRow(s[i]) { assert Byte(ws[i].need) == 0; }
      }
      if NoneHighFrom(s, j, k) {
        assert EmptyRow(s[j]);
        forall i | j <= i < k ensures Byte(ws[i].need) == 0 { assert EmptyRow(s[i]); }
      }
    }

    // ---------------------------------------------------------------- selecting

    /** Highlighting moves nothing. */
    twostate lemma OnlyHighlights()
      requires unchanged(this`shape, this`items, this`root, this`style, this`dirty, this`freed, this`lineHeight)
      requires unchanged(this`curItem, this`shiftItem)
      requires unchanged(items`children, items`parent, items`collapsed, items`y, items`height)
      requires old(Valid()) && Present(selectItem)
      ensures Valid() && Shown() == old(Shown())
    {
    }

    /** All that tagging from `first` may meet, in order. */
    ghost function Ahead(first: Item): seq<Item>
      requires first in Items(shape)
      reads this`shape, this`items, this`root, this`style, items`collapsed
    {
      VisibleBranch(first) + Following(first)
    }

    /** Tags from `first` on until `last`. */
    method TagRange(first: Item, last: Item, ghost all: seq<Item>)
      requires Linked() && Rooted() && first in items && all == Ahead(first)
      modifies items`hilight
      ensures forall i :: i in items ==> i.hilight == (old(i.hilight) || i in UpTo(all, last))
    {
      ghost var now, later := VisibleBranch(first), Following(first);
      UpToConcat(now, later, last);
      var found := TagAllChildrenUntilLast(first, last, now);
      if !found {
        found := TagNextChildren(first, last, later);
      }
    }

    lemma ShownWalk(a: Item, b: Item)
      requires Linked() && Rooted() && a in Shown() && b in Shown()
      ensures a in items && a in Walk(shape, Open()) && b in Walk(shape, Open())
      ensures Range(Walk(shape, Open()), a, b) == Range(Shown(), a, b)
      ensures IndexIn(Walk(shape, Open()), a) <= IndexIn(Walk(shape, Open()), b)
              <==> IndexIn(Shown(), a) <= IndexIn(Shown(), b)
    {
      ShownPresent();
      var w, s := Walk(shape, Open()), Shown();
      if style.hideRoot {
        HiddenRootWalk();
        WalkNoDup(shape, Open());
        RangeTail(shape.item, s, a, b);
      }
    }

    lemma HiddenRootWalk()
      requires Rooted() && style.hideRoot && shape.Cons?
      ensures Walk(shape, Open()) == [shape.item] + Shown()
    {
      assert Walk(shape.rest, Open()) == [];
    }

    lemma ShownRange(first: Item, last: Item)
      requires Linked() && Rooted() && first in Shown() && last in Shown()
      requires IndexIn(Shown(), first) <= IndexIn(Shown(), last)
      ensures first in items
      ensures Elements(UpTo(Ahead(first), last)) == Range(Shown(), first, last)
      ensures Range(Shown(), first, last) <= items
    {
      ShownWalk(first, last);
      ShownPresent();
      RangeFrom(shape, Open(), first, last, Walk(shape, Expanded()));
      AheadParts(first);
    }

    lemma AheadParts(first: Item)
      requires Linked() && Rooted() && first in Shown()
      ensures first in items
      ensures Ahead(first) ==
              [first] + Under(shape, first, Open()) + After(shape, first, Open(), true) + Walk(shape, Expanded())
    {
      BranchOpen(first);
      BranchWalk(shape, first, Open());
    }

    /** A shown branch is the same whether it is walked through open or through expanded items. */
    lemma BranchOpen(i: Item)
      requires Linked() && Rooted() && i in Shown()
      ensures i in items && Walk(Branch(shape, i), Open()) == VisibleBranch(i)
    {
      ShownPresent();
      if style.hideRoot {
        WalkItems(shape.kids, Open());
        BranchItems(shape, i);
        KidsInside(shape.kids, i);
        assert KidsOf(shape, i) == KidsOf(shape.kids, i);
        WalkAgree(Branch(shape, i), Open(), Expanded());
      } else {
        assert Open() == Expanded();
      }
    }

    /** Tagging starts from `item` although `last` comes first: their rows have the same Y. */
    ghost predicate WrongWay(item: Item, last: Item)
      requires item in Shown() && last in Shown()
      reads this`shape, this`items, this`root, this`style, items`collapsed
    {
      var i, j := IndexIn(Shown(), item), IndexIn(Shown(), last);
      j < i && NoneHighFrom(Shown(), j, i)
    }

    /** The comparison of Y tells the order, unless there is no height between the two. */
    lemma ShownOrder(item: Item, last: Item)
      requires Linked() && Ordered() && item in Shown() && last in Shown() && item != last
      ensures last.y < item.y <==> IndexIn(Shown(), last) < IndexIn(Shown(), item) && !WrongWay(item, last)
    {
      var s, i, j := Shown(), IndexIn(Shown(), item), IndexIn(Shown(), last);
      assert s[i] == item && s[j] == last;
      if j < i { assert RisesAt(s, j, i); } else { assert RisesAt(s, i, j); }
    }

    method UnselectOthers()
      requires Linked() && Rooted() && Present(selectItem)
      modifies this`selectItem, items`hilight
      ensures Highlighted() == Kept(old(selectItem), old(Highlighted()), true)
      ensures selectItem == if style.multiple then Unless(old(selectItem), old(Highlighted())) else null
    {
      if style.multiple {
        UnselectAll();
      } else {
        Unselect();
      }
    }

    /** What stays highlighted of `h` when others are, or are not, to be unselected. */
    ghost function Kept(selected: Item?, h: set<Item>, unselectOthers: bool): set<Item>
      reads this`style
    {
      if !unselectOthers then h
      else if style.multiple then {}
      else h - (if selected == null then {} else {selected})
    }

    ghost predicate IsRange(item: Item?, last: Item?) {
      item != null && last != null && item != last
    }

    /** The outcome of an accepted selection of a single item, or of nothing. */
    ghost predicate SelectedOne(item: Item?, unselectOthers: bool, h: set<Item>, selected: Item?)
      reads this`items, this`style, this`selectItem, items`hilight
    {
      var kept := Kept(selected, h, unselectOthers);
      if item == null then
        && Highlighted() == {}
        && selectItem == (if unselectOthers && !style.multiple then null else Unless(selected, h))
      else
        && Highlighted() == (if item in kept then kept - {item} else kept + {item})
        && selectItem == (if !unselectOthers then selected else if item in kept then null else item)
    }

    /** What that means for an item: with the others kept only its own highlight changes; with the others unselected it
        becomes the one item that is highlighted, and the selected one, in multiple mode always and otherwise if just
        the selected item was highlighted before. */
    lemma SelectedAlone(item: Item, unselectOthers: bool, h: set<Item>, selected: Item?)
      requires SelectedOne(item, unselectOthers, h, selected) && item in items && h <= items
      ensures !unselectOthers ==>
                selectItem == selected && forall i :: i in items ==> i.hilight == if i == item then i !in h else i in h
      ensures unselectOthers && (style.multiple || (if selected == null then h == {} else h == {selected})) ==>
                selectItem == item && Highlighted() == {item}
    {
      forall i | i in items && !unselectOthers ensures i.hilight == if i == item then i !in h else i in h {
        assert i.hilight <==> i in Highlighted();
      }
    }

    /** The outcome of an accepted selection of a range. */
    ghost predicate SelectedRange(item: Item, last: Item, unselectOthers: bool, h: set<Item>, selected: Item?)
      requires item in Items(shape) && last in Items(shape)
      reads this`shape, this`items, this`root, this`style, this`selectItem, items`collapsed, items`hilight, item`y,
            last`y
    {
      && selectItem == (if unselectOthers && !style.multiple then null else Unless(selected, h))
      && Highlighted() == Tagged(item, last)
    }

    /** What a range selection highlights: what the walk meets from the end that is higher up until the other
        end, going on from the top past the last item. */
    ghost function Tagged(item: Item, last: Item): set<Item>
      requires item in Items(shape) && last in Items(shape)
      reads this`shape, this`items, this`root, this`style, items`collapsed, item`y, last`y
    {
      Elements(if last.y < item.y then UpTo(Ahead(last), item) else UpTo(Ahead(item), last))
    }

    /** Of two shown items: exactly the items from one to the other are highlighted, unless the range went the
        wrong way round and there is more to be seen than the two. */
    ghost predicate RangeOutcome(item: Item, last: Item)
      reads this`shape, this`items, this`root, this`style, items`collapsed, items`hilight
    {
      item in Shown() && last in Shown() ==>
        (Highlighted() == Range(Shown(), last, item) <==>
         !WrongWay(item, last) || (!style.hideRoot && |Shown()| == 2))
    }

    /** A range selection between two shown items highlights exactly the items from the one to the other, unless
        it goes the wrong way round; then it does so only if the tree has no other shown items. */
    lemma RangeByRows(item: Item, last: Item)
      requires Linked() && Rooted() && Ordered() && item in Shown() && last in Shown() && item != last
      ensures item in items && last in items
      ensures Tagged(item, last) == Range(Shown(), last, item) <==>
              !WrongWay(item, last) || (!style.hideRoot && |Shown()| == 2)
    {
      ShownPresent();
      ShownOrder(item, last);
      RangeSwap(Shown(), last, item);
      if last.y < item.y {
        ShownRange(last, item);
      } else if WrongWay(item, last) {
        WrongRange(item, last);
      } else {
        ShownRange(item, last);
      }
    }

    /** From the later item on: all shown items after it, then from the top to the earlier one. */
    lemma WrongRange(item: Item, last: Item)
      requires Linked() && Rooted() && item in Shown() && last in Shown()
      requires IndexIn(Shown(), last) < IndexIn(Shown(), item)
      ensures item in items
      ensures Elements(UpTo(Ahead(item), last)) == Range(Shown(), last, item) <==> !style.hideRoot && |Shown()| == 2
    {
      var i, j := WrongPlaces(item, last);
      if style.hideRoot {
        NotAtTop(last);
        WrongHidden(i, j);
      } else {
        WrongShown(i, j);
      }
    }

    /** The two sets in terms of places in the walk. */
    lemma WrongPlaces(item: Item, last: Item) returns (i: nat, j: nat)
      requires Linked() && Rooted() && item in Shown() && last in Shown()
      requires IndexIn(Shown(), last) < IndexIn(Shown(), item)
      ensures item in items && last in Walk(shape, Open()) && i == IndexIn(Walk(shape, Open()), last)
      ensures i < j < |Walk(shape, Open())|
      ensures UpTo(Ahead(item), last) ==
              UpTo(Walk(shape, Open())[j..] + Walk(shape, Expanded()), Walk(shape, Open())[i])
      ensures Range(Shown(), last, item) == Elements(Walk(shape, Open())[i..j + 1])
    {
      i, j := SlicedRange(last, item);
      AheadTail(item, j);
    }

    lemma SlicedRange(a: Item, b: Item) returns (i: nat, j: nat)
      requires Linked() && Rooted() && a in Shown() && b in Shown() && IndexIn(Shown(), a) < IndexIn(Shown(), b)
      ensures a in Walk(shape, Open()) && i == IndexIn(Walk(shape, Open()), a)
      ensures b in Walk(shape, Open()) && j == IndexIn(Walk(shape, Open()), b)
      ensures i < j && Range(Shown(), a, b) == Elements(Walk(shape, Open())[i..j + 1])
    {
      var w, s := Walk(shape, Open()), Shown();
      ShownWalk(a, b);
      i, j := IndexIn(w, a), IndexIn(w, b);
      assert i != j by { assert w[i] == a && w[j] == b; }
      assert Range(w, a, b) == Elements(w[i..j + 1]) by { RangeAt(w, a, b); }
    }

    lemma WrongShown(i: nat, j: nat)
      requires Linked() && Rooted() && !style.hideRoot && i < j < |Walk(shape, Open())|
      ensures var w := Walk(shape, Open());
              Elements(UpTo(w[j..] + Walk(shape, Expanded()), w[i])) == Elements(w[i..j + 1]) <==> |Shown()| == 2
    {
      assert Open() == Expanded();
      WalkNoDup(shape, Open());
      WrongWayRound(Walk(shape, Open()), i, j);
    }

    lemma NotAtTop(last: Item)
      requires Linked() && Rooted() && style.hideRoot && last in Shown()
      ensures root != null && last in Walk(shape, Open()) && IndexIn(Walk(shape, Open()), last) > 0
    {
      HiddenRootWalk();
      WalkNoDup(shape, Open());
      OnlyPlace(Walk(shape, Open()), last, IndexIn(Shown(), last) + 1);
    }

    lemma WrongHidden(i: nat, j: nat)
      requires Linked() && Rooted() && style.hideRoot && root != null && 0 < i < j < |Walk(shape, Open())|
      ensures var w := Walk(shape, Open());
              && root in Elements(UpTo(w[j..] + Walk(shape, Expanded()), w[i]))
              && root !in Elements(w[i..j + 1])
    {
      var w := Walk(shape, Open());
      WalkNoDup(shape, Open());
      WalkItems(shape, Open());
      WalkItems(shape, Expanded());
      RootTagged(w, i, j, Walk(shape, Expanded()));
      InPart(w, i, j + 1, 0);
    }

    lemma AheadTail(item: Item, i: nat)
      requires Linked() && Rooted() && item in Shown()
      requires i < |Walk(shape, Open())| && Walk(shape, Open())[i] == item
      ensures item in items && Ahead(item) == Walk(shape, Open())[i..] + Walk(shape, Expanded())
    {
      AheadParts(item);
      var w, under, after := Walk(shape, Open()), Under(shape, item, Open()), After(shape, item, Open(), true);
      ShownPresent();
      WalkNoDup(shape, Open());
      WalkSplit(shape, item, Open());
      PlaceInSplit(w, i, Before(shape, item, Open()), item, under, after);
      assert w[i..] == [item] + w[i + 1..];
      Assoc([item], under, after);
    }

    /** Going on from the top tags what is at the top. */
    lemma RootTagged(w: seq<Item>, i: nat, j: nat, again: seq<Item>)
      requires NoDup(w) && i < j < |w| && again != []
      ensures again[0] in UpTo(w[j..] + again, w[i])
    {
      OnlyPlace(w, w[i], i);
      NotInTail(w, w[i], j);
      UpToConcat(w[j..], again, w[i]);
      assert UpTo(again, w[i])[0] == again[0];
      assert UpTo(w[j..] + again, w[i])[|w[j..]|] == again[0];
    }

    /** Selects the items between two others, by the Y positions of their rows. */
    method SelectRange(item: Item, last: Item)
      requires Linked() && Rooted() && Highlighted() == {}
      requires item in items && last in items
      modifies items`hilight
      ensures Highlighted() == Tagged(item, last)
    {
      ghost var goal := Tagged(item, last);
      if last.y < item.y {
        AheadPresent(last, item);
        TagRange(last, item, Ahead(last));
      } else {
        AheadPresent(item, last);
        TagRange(item, last, Ahead(item));
      }
      HighlightedAre(goal);
    }

    lemma HighlightedAre(goal: set<Item>)
      requires goal <= items && forall i :: i in items ==> (i.hilight <==> i in goal)
      ensures Highlighted() == goal
    {
    }

    lemma AheadPresent(first: Item, last: Item)
      requires Linked() && first in items
      ensures Elements(UpTo(Ahead(first), last)) <= items
    {
      WalkItems(Branch(shape, first), Expanded());
      BranchItems(shape, first);
      KidsInside(shape, first);
      AfterItems(shape, first, Open(), true);
      WalkItems(shape, Expanded());
      UpToMembers(Ahead(first), last);
    }

    /** `ok` is false when user code vetoes the change. */
    method SelectItem(item: Item?, last: Item?, unselectOthers: bool) returns (ok: bool)
      requires Valid() && Present(item) && Present(last)
      modifies this`asked, this`selectItem, items`hilight
      modifies (if IsRange(item, last) then {this} else {})`lineHeight
      modifies (if IsRange(item, last) then items else {})`x
      modifies (if IsRange(item, last) then items else {})`y
      modifies (if IsRange(item, last) then items else {})`height
      ensures Valid()
      ensures ok == answers(old(asked)) && asked == old(asked) + 1
      ensures !ok ==> Highlighted() == old(Highlighted()) && selectItem == old(selectItem)
      ensures ok && IsRange(item, last)
              ==> SelectedRange(item, last, unselectOthers, old(Highlighted()), old(selectItem))
      ensures ok && IsRange(item, last) ==> RangeOutcome(item, last)
      ensures ok && !IsRange(item, last) ==> SelectedOne(item, unselectOthers, old(Highlighted()), old(selectItem))
      ensures !ok || !dirty ==> lineHeight == old(lineHeight) && forall i :: i in items ==> i.Place() == old(i.Place())
    {
      ok := SendEvent();
      if !ok { return; }
      if last != null && item != null && item != last {
        SelectSeveral(item, last, unselectOthers);
      } else {
        SelectOne(item, unselectOthers);
      }
    }

    method SelectOne(item: Item?, unselectOthers: bool)
      requires Valid() && Present(item)
      modifies this`selectItem, items`hilight
      ensures Valid()
      ensures SelectedOne(item, unselectOthers, old(Highlighted()), old(selectItem))
    {
      var unselectedAll := false;
      if unselectOthers {
        unselectedAll := style.multiple;
        UnselectOthers();
      }
      if item != null {
        Toggle(item);
        if unselectOthers {
          selectItem := if item.hilight then item else null;
        }
      } else {
        if !unselectedAll { UnselectAll(); }
      }
      OnlyHighlights();
    }

    method Toggle(item: Item)
      requires item in items
      modifies item`hilight
      ensures item.hilight == (item !in old(Highlighted()))
      ensures Highlighted() == if item.hilight then old(Highlighted()) + {item} else old(Highlighted()) - {item}
    {
      item.hilight := !item.hilight;
    }

    method SelectSeveral(item: Item, last: Item, unselectOthers: bool)
      requires Valid() && item in items && last in items && item != last
      modifies this`selectItem, items`hilight, this`lineHeight, items`x, items`y, items`height
      ensures Valid()
      ensures SelectedRange(item, last, unselectOthers, old(Highlighted()), old(selectItem))
      ensures RangeOutcome(item, last)
      ensures !dirty ==> lineHeight == old(lineHeight) && forall i :: i in items ==> i.Place() == old(i.Place())
    {
      UnselectForRange(unselectOthers);
      EnsurePositions();
      HighlightRange(item, last);
    }

    method HighlightRange(item: Item, last: Item)
      requires Valid() && Ordered() && Highlighted() == {} && item in items && last in items && item != last
      modifies items`hilight
      ensures Valid()
      ensures Highlighted() == Tagged(item, last)
      ensures RangeOutcome(item, last)
    {
      SelectRange(item, last);
      OnlyHighlights();
      if item in Shown() && last in Shown() { RangeByRows(item, last); }
    }

    /** Positions are computed in any case before they are used. */
    method EnsurePositions()
      requires Valid()
      modifies this`lineHeight, items`x, items`y, items`height
      ensures Valid() && Ordered()
      ensures !dirty ==> lineHeight == old(lineHeight) && forall i :: i in items ==> i.Place() == old(i.Place())
    {
      if !dirty { return; }
      ghost var plan := CalculatePositions();
    }

    method UnselectForRange(unselectOthers: bool)
      requires Valid()
      modifies this`selectItem, items`hilight
      ensures Valid() && Ordered() == old(Ordered())
      ensures Highlighted() == {}
      ensures selectItem ==
              if unselectOthers && !style.multiple then null else Unless(old(selectItem), old(Highlighted()))
    {
      var unselectedAll := false;
      if unselectOthers {
        unselectedAll := style.multiple;
        UnselectOthers();
      }
      if !unselectedAll { UnselectAll(); }
      OnlyHighlights();
    }

    // ---------------------------------------------------------------- changing the tree

    /** Giving `p` the list of children `order` keeps all links in step with the shape. */
    twostate lemma Relinked(p: Item, new order: seq<Item>)
      requires old(Linked()) && p in old(items) && Allowed(old(shape), p, order)
      requires shape == Rearrange(old(shape), p, order) && items == Items(shape)
      requires p.children == order
      requires forall i :: i in items ==> Moved(i, p)
      ensures Linked()
    {
      RearrangeItems(old(shape), p, order);
      forall i | i in items ensures LinkedAt(i) {
        RearrangeLinks(old(shape), p, order, i);
        if i in old(items) {
          assert old(LinkedAt(i));
          if i in order { OldChild(old(shape), p, i); }
        }
      }
    }

    /** An item that was there keeps its links, apart from the list of `p`; a new one is a leaf under `p`. */
    twostate predicate Moved(new i: Item, p: Item)
      reads this`items, i`parent, i`children
    {
      if i in old(items) then i.parent == old(i.parent) && (i != p ==> i.children == old(i.children))
      else i.parent == p && i.children == []
    }

    lemma OldChild(f: Forest<Item>, p: Item, i: Item)
      requires Distinct(f) && p in Items(f) && i in Items(f) && i in ChildrenOf(f, p)
      ensures ParentOf(f, i) == Some(p)
    {
      var k :| 0 <= k < |ChildrenOf(f, p)| && ChildrenOf(f, p)[k] == i;
      SiblingIndex(f, p, k);
    }

    /** A new leaf at place `previous` among the children of `parent`. */
    method DoInsertItem(parent: Item?, previous: nat, texts: seq<string>) returns (item: Item?)
      requires Valid() && Present(parent) && (parent != null ==> previous <= |parent.children|)
      modifies this`dirty, this`shape, this`items
      modifies items`children
      ensures Valid()
      ensures forall i :: i in old(items) && i != parent ==> i.children == old(i.children)
      ensures parent == null ==> item == null && shape == old(shape) && items == old(items) && dirty == old(dirty)
      ensures parent != null ==> item != null && fresh(item) && item.texts == texts && item.children == []
      ensures item != null ==> item.collapsed && !item.hilight && !item.hasPlus && items == old(items) + {item} && dirty
      ensures Highlighted() == old(Highlighted())
      ensures item != null ==>
                && parent.children == old(parent.children)[..previous] + [item] + old(parent.children)[previous..]
                && shape == Rearrange(old(shape), parent, parent.children)
    {
      if parent == null { return null; }
      dirty := true;
      assert LinkedAt(parent);
      var leaf := new Item(parent, texts);
      assert leaf !in old(items);
      parent.children := parent.children[..previous] + [leaf] + parent.children[previous..];
      InsertChild(shape, parent, previous, leaf, parent.children);
      shape := Rearrange(shape, parent, parent.children);
      items := items + {leaf};
      Relinked(parent, parent.children);
      item := leaf;
    }

    method AddRoot(texts: seq<string>) returns (item: Item?)
      requires Valid()
      modifies this`dirty, this`shape, this`items, this`root, this`curItem
      ensures Valid()
      ensures old(root) != null ==> item == null && root == old(root) && shape == old(shape) && curItem == old(curItem)
      ensures Highlighted() == old(Highlighted())
      ensures old(root) == null ==>
                && item != null && fresh(item) && item.texts == texts && item.collapsed == !style.hideRoot
                && !item.hilight && item.hasPlus == style.hideRoot && root == item && Rooted() && shape.kids == Nil
                && items == {item} && dirty
                && curItem == (if style.hideRoot then null else old(curItem))
    {
      if root != null { return null; }
      dirty := true;
      var i := new Item(null, texts);
      root := i;
      shape := Cons(i, Nil, Nil);
      items := {i};
      if style.hideRoot {
        i.hasPlus := true;
        i.collapsed := false;
        curItem := null;  // its first child, and it has none
      }
      assert Items<Item>(Nil) == {};
      assert LinkedAt(i);
      item := i;
    }

    /** Exactly the selected item, if any, is highlighted. */
    ghost predicate SingleSelection()
      reads this`items, this`selectItem, items`hilight
    {
      Highlighted() == SelSet(selectItem)
    }

    /** The same, apart from highlights on items of `doomed`. */
    ghost predicate SelectedBeyond(doomed: set<Item>)
      reads this`items, this`selectItem, items`hilight
    {
      Highlighted() - doomed == SelSet(selectItem)
    }

    ghost predicate CursorsAvoid(s: set<Item>)
      reads this`curItem, this`shiftItem, this`selectItem
    {
      && (curItem != null ==> curItem !in s)
      && (shiftItem != null ==> shiftItem !in s)
      && (selectItem != null ==> selectItem !in s)
    }

    /** The current item does not stay on an item that goes: it moves to the next sibling, or to nothing. */
    method LeaveCurrent(item: Item)
      requires Linked() && Rooted() && item in items && Present(curItem)
      modifies this`curItem
      ensures Present(curItem)
      ensures Opt(curItem) == if old(curItem) == item then NextSibling(shape, item) else Opt(old(curItem))
      ensures curItem != item
    {
      if item == curItem {
        assert LinkedAt(item);
        ParentFacts(shape, item);
        LaterInside(shape, item);
        if item.parent == null { RootHasNoSiblings(item); }
        curItem := item.parent;
        if curItem != null {
          assert LinkedAt(curItem);
          var siblings := curItem.children;
          var index := IndexOf(siblings, item);
          SiblingIndex(shape, item.parent, index);
          curItem := if index < |siblings| - 1 then siblings[index + 1] else null;
          assert Opt(curItem) == NextSibling(shape, item);
        }
      }
    }

    /** A selected item that goes hands the selection on to the current item. */
    method HandOver(item: Item, ghost doomed: set<Item>)
      requires Valid() && item in items && curItem != item && selectItem == item
      requires curItem != null ==> curItem !in doomed
      modifies this`asked, this`selectItem, items`hilight
      ensures Valid() && asked == old(asked) + 1
      ensures selectItem == null || selectItem == curItem
      ensures old(SelectedBeyond(doomed)) ==>
                (SelectedBeyond(doomed + {item}) <==> answers(old(asked)) || curItem == null)
    {
      selectItem := curItem;
      assert Valid();
      ghost var h := Highlighted();
      var ok := SelectItem(selectItem, null, true);  // unselect others
      if ok && h - doomed == {item} { HandedOver(item, doomed, h); }
      if !ok && h - doomed == {item} { assert h - (doomed + {item}) == {}; }
    }

    lemma HandedOver(item: Item, doomed: set<Item>, h: set<Item>)
      requires curItem != item && (curItem != null ==> curItem !in doomed)
      requires SelectedOne(curItem, true, h, curItem) && h - doomed == {item}
      ensures SelectedBeyond(doomed + {item})
    {
    }

    /** Before an item goes, no cursor stays on it. */
    method LetGo(item: Item, ghost doomed: set<Item>)
      requires Valid() && item in items && item !in doomed && CursorsAvoid(doomed)
      requires NextSibling(shape, item).Some? ==> NextSibling(shape, item).value !in doomed
      modifies this`asked, this`dirty, this`curItem, this`shiftItem, this`selectItem, items`hilight
      ensures Valid() && dirty && old(asked) <= asked
      ensures Opt(curItem) == if old(curItem) == item then NextSibling(shape, item) else Opt(old(curItem))
      ensures shiftItem == Unless(old(shiftItem), {item})
      ensures old(selectItem) != item ==>
                asked == old(asked) && selectItem == old(selectItem) && Highlighted() == old(Highlighted())
      ensures CursorsAvoid(doomed + {item})
      ensures old(selectItem) == item ==> asked == old(asked) + 1
      ensures old(SelectedBeyond(doomed)) ==>
                (SelectedBeyond(doomed + {item}) <==> Granted(old(asked), asked) || curItem == null)
    {
      LeaveCursors(item);
      if item == selectItem {
        HandOver(item, doomed);
      }
    }

    method LeaveCursors(item: Item)
      requires Valid() && item in items
      modifies this`dirty, this`curItem, this`shiftItem
      ensures Valid() && dirty && curItem != item
      ensures Opt(curItem) == if old(curItem) == item then NextSibling(shape, item) else Opt(old(curItem))
      ensures shiftItem == Unless(old(shiftItem), {item})
    {
      dirty := true;
      assert Valid();
      LeaveCurrent(item);
      if item == shiftItem { shiftItem := null; }
    }

    /** What deletion keeps while part of the tree is torn down: everything but the rows. */
    ghost predicate Torn(doomed: set<Item>)
      reads this, items`children, items`parent
    {
      Linked() && Rooted() && Cursors() && CursorsAvoid(doomed) && dirty && lineHeight > 0
    }

    /** The selection is as it was, apart from highlights on items that are gone, and nobody was asked. */
    twostate predicate SelectionKept()
      reads this`asked, this`items, this`selectItem, items`hilight
    {
      asked == old(asked) && selectItem == old(selectItem) && Highlighted() == old(Highlighted()) * items
    }

    /** Deletes `item`, recursively; the caller takes it out of its parent's list.  `doomed` are the
        ancestors that are being deleted too. */
    method DoDeleteItem(item: Item, ghost doomed: set<Item>)
      requires Valid() && item in items && CursorsAvoid(doomed) && Items(Branch(shape, item)) !! doomed
      requires NextSibling(shape, item).Some? ==> NextSibling(shape, item).value !in doomed
      modifies this`asked, this`dirty, this`shape, this`items, this`freed, this`curItem, this`shiftItem, this`selectItem
      modifies items`hilight, items`children
      ensures Torn(doomed + {item})
      ensures shape == Rearrange(old(shape), item, []) && items == old(items) - Items(KidsOf(old(shape), item))
      ensures item in items && item.children == [] && freed == old(freed) + Items(Branch(old(shape), item))
      ensures forall i :: i in items && i != item ==> i.children == old(i.children)
      ensures Opt(curItem) ==
              if old(curItem) == item then NextSibling(old(shape), item)
              else Opt(Unless(old(curItem), Items(KidsOf(old(shape), item))))
      ensures shiftItem == Unless(old(shiftItem), Items(Branch(old(shape), item)))
      ensures Unless(old(selectItem), Items(Branch(old(shape), item))) == old(selectItem) ==> SelectionKept()
      ensures old(asked) <= asked
      ensures Granted(old(asked), asked) && old(SelectedBeyond(doomed)) ==> SelectedBeyond(doomed + {item})
      decreases Size(KidsOf(shape, item)), 3
    {
      BranchItems(shape, item);
      EmptyOut(item, doomed);
      assert item !in freed;
      freed := freed + {item};
    }

    /** Lets go of `item` and deletes what is below it. */
    method EmptyOut(item: Item, ghost doomed: set<Item>)
      requires Valid() && item in items && CursorsAvoid(doomed) && Items(Branch(shape, item)) !! doomed
      requires NextSibling(shape, item).Some? ==> NextSibling(shape, item).value !in doomed
      modifies this`asked, this`dirty, this`shape, this`items, this`freed, this`curItem, this`shiftItem, this`selectItem
      modifies items`hilight, items`children
      ensures Valid() && dirty && CursorsAvoid(doomed + {item})
      ensures shape == Rearrange(old(shape), item, []) && items == old(items) - Items(KidsOf(old(shape), item))
      ensures item in items && item.children == [] && freed == old(freed) + Items(KidsOf(old(shape), item))
      ensures forall i :: i in items && i != item ==> i.children == old(i.children)
      ensures Opt(curItem) ==
              if old(curItem) == item then NextSibling(old(shape), item)
              else Opt(Unless(old(curItem), Items(KidsOf(old(shape), item))))
      ensures shiftItem == Unless(old(shiftItem), Items(Branch(old(shape), item)))
      ensures Unless(old(selectItem), Items(Branch(old(shape), item))) == old(selectItem) ==> SelectionKept()
      ensures old(asked) <= asked
      ensures Granted(old(asked), asked) && old(SelectedBeyond(doomed)) ==> SelectedBeyond(doomed + {item})
      decreases Size(KidsOf(shape, item)), 2
    {
      BranchItems(shape, item);
      KidsInside(shape, item);
      LaterInside(shape, item);
      LetGo(item, doomed);
      DeleteChildList(item, doomed + {item});
    }

    /** The loop over the children, from the right. */
    method DeleteChildList(item: Item, ghost doomed: set<Item>)
      requires Valid() && item in items && CursorsAvoid(doomed) && Items(KidsOf(shape, item)) !! doomed
      modifies this`asked, this`dirty, this`shape, this`items, this`freed, this`curItem, this`shiftItem, this`selectItem
      modifies items`hilight, items`children
      ensures Valid() && CursorsAvoid(doomed) && (dirty <==> old(dirty) || old(item.children) != [])
      ensures shape == Rearrange(old(shape), item, []) && items == old(items) - Items(KidsOf(old(shape), item))
      ensures item in items && item.children == [] && freed == old(freed) + Items(KidsOf(old(shape), item))
      ensures forall i :: i in items && i != item ==> i.children == old(i.children)
      ensures curItem == Unless(old(curItem), Items(KidsOf(old(shape), item)))
      ensures shiftItem == Unless(old(shiftItem), Items(KidsOf(old(shape), item)))
      ensures Unless(old(selectItem), Items(KidsOf(old(shape), item))) == old(selectItem) ==> SelectionKept()
      ensures old(asked) <= asked
      ensures Granted(old(asked), asked) && old(SelectedBeyond(doomed)) ==> SelectedBeyond(doomed)
      decreases Size(KidsOf(shape, item)), 1
    {
      ghost var f0, cs, was, freed0 := shape, item.children, items, freed;
      var n := |item.children|;
      TrimStart(item);
      KidsInside(shape, item);
      while n > 0
        invariant 0 <= n <= |cs| && cs == ChildrenOf(f0, item)
        invariant shape == Rearrange(f0, item, cs[..n]) && item.children == cs[..n]
        invariant Valid() && item in items && CursorsAvoid(doomed) && (dirty <==> old(dirty) || n < |cs|)
        invariant items <= was && was - items <= Items(KidsOf(f0, item)) && freed == freed0 + (was - items)
        invariant forall i :: i in items && i != item ==> i.children == old(i.children)
        invariant curItem == Unless(old(curItem), was - items)
        invariant shiftItem == Unless(old(shiftItem), was - items)
        invariant Unless(old(selectItem), Items(KidsOf(f0, item))) == old(selectItem) ==> SelectionKept()
        invariant old(asked) <= asked
        invariant Granted(old(asked), asked) && old(SelectedBeyond(doomed)) ==> SelectedBeyond(doomed)
      {
        DeleteLast(item, n, doomed, f0, cs);
        n := n - 1;
      }
      TrimEnd(f0, item);
    }

    lemma TrimStart(item: Item)
      requires Linked() && item in items
      ensures item.children == ChildrenOf(shape, item)
      ensures shape == Rearrange(shape, item, item.children[..|item.children|])
    {
      assert LinkedAt(item);
      assert item.children[..|item.children|] == item.children;
      CutChildren(shape, item, |item.children|);
      WholeRearrange(shape, item);
    }

    lemma TrimEnd(f0: Forest<Item>, item: Item)
      requires Distinct(f0) && item in Items(f0)
      ensures ChildrenOf(f0, item)[..0] == []
      ensures Items(Rearrange(f0, item, [])) == Items(f0) - Items(KidsOf(f0, item))
    {
      RearrangeItems(f0, item, []);
    }

    /** One turn of the loop: the last child goes with its branch, and is taken out of the list at once. */
    method DeleteLast(item: Item, n: nat, ghost doomed: set<Item>, ghost f0: Forest<Item>, ghost cs: seq<Item>)
      requires Distinct(f0) && item in Items(f0) && cs == ChildrenOf(f0, item) && 0 < n <= |cs|
      requires Valid() && item in items && CursorsAvoid(doomed) && Items(KidsOf(f0, item)) !! doomed
      requires shape == Rearrange(f0, item, cs[..n]) && item.children == cs[..n]
      modifies this`asked, this`dirty, this`shape, this`items, this`freed, this`curItem, this`shiftItem, this`selectItem
      modifies items`hilight, items`children
      ensures Valid() && dirty && item in items && CursorsAvoid(doomed)
      ensures shape == Rearrange(f0, item, cs[..n - 1]) && item.children == cs[..n - 1]
      ensures items <= old(items) && old(items) - items <= Items(KidsOf(f0, item))
              && freed == old(freed) + (old(items) - items)
      ensures forall i :: i in items && i != item ==> i.children == old(i.children)
      ensures curItem == Unless(old(curItem), old(items) - items)
      ensures shiftItem == Unless(old(shiftItem), old(items) - items)
      ensures Unless(old(selectItem), Items(KidsOf(f0, item))) == old(selectItem) ==> SelectionKept()
      ensures old(asked) <= asked
      ensures Granted(old(asked), asked) && old(SelectedBeyond(doomed)) ==> SelectedBeyond(doomed)
      decreases Size(KidsOf(f0, item)), 0
    {
      var child := item.children[n - 1];
      LastBranch(child, item, n, f0, cs);
      assert cs[..n][..n - 1] == cs[..n - 1];
      DropLast(item, child, doomed);
      assert old(items) - items == Items(Branch(old(shape), child));
    }

    /** Deletes the last child with its branch and takes it out of the list. */
    method DropLast(item: Item, child: Item, ghost doomed: set<Item>)
      requires Valid() && item in items && CursorsAvoid(doomed)
      requires item.children != [] && child == item.children[|item.children| - 1]
      requires child in items && NextSibling(shape, child) == None
      requires Items(Branch(shape, child)) !! doomed && item !in Items(Branch(shape, child))
      requires Items(Branch(shape, child)) <= items && item in Items(Rearrange(shape, child, []))
      modifies this`asked, this`dirty, this`shape, this`items, this`freed, this`curItem, this`shiftItem, this`selectItem
      modifies items`hilight, items`children
      ensures Valid() && dirty && item in items && CursorsAvoid(doomed)
      ensures item.children == old(item.children)[..|old(item.children)| - 1]
      ensures shape == Rearrange(Rearrange(old(shape), child, []), item, item.children)
      ensures items == old(items) - Items(Branch(old(shape), child))
      ensures freed == old(freed) + Items(Branch(old(shape), child))
      ensures forall i :: i in items && i != item ==> i.children == old(i.children)
      ensures curItem == Unless(old(curItem), Items(Branch(old(shape), child)))
      ensures shiftItem == Unless(old(shiftItem), Items(Branch(old(shape), child)))
      ensures Unless(old(selectItem), Items(Branch(old(shape), child))) == old(selectItem) ==> SelectionKept()
      ensures old(asked) <= asked
      ensures Granted(old(asked), asked) && old(SelectedBeyond(doomed)) ==> SelectedBeyond(doomed)
      decreases Size(KidsOf(shape, child)), 4
    {
      BranchItems(shape, child);
      AllButLast(item.children);
      DoDeleteItem(child, doomed);
      TakeOutDeleted(item, |item.children| - 1, child, doomed);
    }

    lemma LastBranch(child: Item, item: Item, n: nat, f0: Forest<Item>, cs: seq<Item>)
      requires Distinct(f0) && item in Items(f0) && cs == ChildrenOf(f0, item) && 0 < n <= |cs|
      requires shape == Rearrange(f0, item, cs[..n]) && child == cs[n - 1] && Linked()
      ensures child in items && Size(KidsOf(shape, child)) < Size(KidsOf(f0, item)) && NextSibling(shape, child) == None
      ensures item !in Items(Branch(shape, child)) && Items(Branch(shape, child)) <= Items(KidsOf(f0, item))
      ensures Items(Branch(shape, child)) <= items
      ensures var g := Rearrange(shape, child, []);
              && Distinct(g) && item in Items(g) && Allowed(g, item, cs[..n - 1])
              && Rearrange(g, item, cs[..n - 1]) == Rearrange(f0, item, cs[..n - 1])
    {
      TrimLast(f0, item, n);
      BranchItems(shape, child);
      KidsInside(shape, child);
    }

    lemma AllButLast(cs: seq<Item>)
      requires cs != []
      ensures cs[..|cs| - 1] + cs[|cs|..] == cs[..|cs| - 1]
    {
    }

    twostate lemma FewerItems(child: Item)
      requires items == old(items) - {child} && unchanged(old(items)`hilight)
      ensures Highlighted() == old(Highlighted()) - {child}
    {
    }

    lemma SameRoot(f: Forest<Item>, g: Forest<Item>)
      requires f.Cons? && f.rest.Nil? && Roots(g) == Roots(f)
      ensures g.Cons? && g.item == f.item && g.rest.Nil?
    {
      assert Roots(f) == [f.item];
      assert Roots(g)[0] == f.item;
    }

    /** Takes an emptied child out of its parent's list. */
    method TakeOut(parent: Item, k: nat)
      requires Linked() && Rooted() && parent in items && k < |parent.children| && parent.children[k] in items
      requires parent.children[k].children == []
      requires Torn({parent.children[k]}) && items - {parent.children[k]} !! freed
      modifies this`shape, this`items, parent`children
      ensures Valid()
      ensures parent.children == old(parent.children)[..k] + old(parent.children)[k + 1..]
      ensures shape == Rearrange(old(shape), parent, parent.children)
      ensures items == old(items) - {old(parent.children[k])} && parent in items
    {
      assert LinkedAt(parent) && LinkedAt(parent.children[k]);
      DropChild(shape, parent, k);
      BranchItems(shape, parent.children[k]);
      KidsInside(shape, parent);
      RootsAreItems(KidsOf(shape, parent));
      RearrangeItems(shape, parent, parent.children[..k] + parent.children[k + 1..]);
      SameRoot(shape, Rearrange(shape, parent, parent.children[..k] + parent.children[k + 1..]));
      items := items - {parent.children[k]};
      parent.children := parent.children[..k] + parent.children[k + 1..];
      shape := Rearrange(shape, parent, parent.children);
      Relinked(parent, parent.children);
    }

    /** The same, and what it means for the highlights. */
    method TakeOutDeleted(parent: Item, k: nat, child: Item, ghost doomed: set<Item>)
      requires Linked() && Rooted() && parent in items && k < |parent.children| && parent.children[k] == child
      requires child in items && child.children == []
      requires Torn(doomed + {child}) && items - {child} !! freed
      modifies this`shape, this`items, parent`children
      ensures Valid()
      ensures parent.children == old(parent.children)[..k] + old(parent.children)[k + 1..]
      ensures shape == Rearrange(old(shape), parent, parent.children)
      ensures items == old(items) - {child} && parent in items
      ensures Highlighted() == old(Highlighted()) - {child}
      ensures old(SelectedBeyond(doomed + {child})) ==> SelectedBeyond(doomed)
    {
      TakeOut(parent, k);
      FewerItems(child);
    }

    method Delete(item: Item?)
      requires Valid() && Present(item)
      modifies this`asked, this`dirty, this`shape, this`items, this`freed, this`curItem, this`shiftItem, this`selectItem
      modifies items`hilight, items`children
      ensures Valid()
      ensures item == null || item == root ==>
                && shape == old(shape) && items == old(items) && dirty == old(dirty) && freed == old(freed)
                && curItem == old(curItem) && shiftItem == old(shiftItem) && selectItem == old(selectItem)
                && Highlighted() == old(Highlighted()) && asked == old(asked)
      ensures item != null && item != root ==> Deleted(item)
      ensures old(asked) <= asked
      ensures Granted(old(asked), asked) && old(SingleSelection()) ==> SingleSelection()
    {
      if item == null { return; }
      if item == root { return; }
      DeleteBelow(item);
    }

    method DeleteBelow(item: Item)
      requires Valid() && item in items && item != root
      modifies this`asked, this`dirty, this`shape, this`items, this`freed, this`curItem, this`shiftItem, this`selectItem
      modifies items`hilight, items`children
      ensures Valid() && Deleted(item)
      ensures old(asked) <= asked
      ensures Granted(old(asked), asked) && old(SingleSelection()) ==> SingleSelection()
    {
      var parent := item.parent;
      NotRoot(item);
      ClearedAndOut(parent, item);
      NothingDoomed();
      CutOut(parent, item);
      NothingDoomed();
    }

    /** The branch goes, and then the item goes from its parent's list. */
    method CutOut(parent: Item, item: Item)
      requires Valid() && item in items && parent in items && parent !in Items(Branch(shape, item))
      requires item in parent.children && NoDup(parent.children)
      modifies this`asked, this`dirty, this`shape, this`items, this`freed, this`curItem, this`shiftItem, this`selectItem
      modifies items`hilight, items`children
      ensures Valid() && dirty && old(asked) <= asked && parent in Items(Rearrange(old(shape), item, []))
      ensures shape == Rearrange(Rearrange(old(shape), item, []), parent, parent.children)
      ensures items == old(items) - Items(Branch(old(shape), item)) && parent in items
      ensures freed == old(freed) + Items(Branch(old(shape), item))
      ensures parent.children == Without(old(parent.children), item)
      ensures forall i :: i in items && i != parent ==> i.children == old(i.children)
      ensures Opt(curItem) ==
              if old(curItem) == item then NextSibling(old(shape), item)
              else Opt(Unless(old(curItem), Items(KidsOf(old(shape), item))))
      ensures shiftItem == Unless(old(shiftItem), Items(Branch(old(shape), item)))
      ensures Unless(old(selectItem), Items(Branch(old(shape), item))) == old(selectItem) ==> SelectionKept()
      ensures Granted(old(asked), asked) && old(SelectedBeyond({})) ==> SelectedBeyond({})
    {
      BranchItems(shape, item);
      DoDeleteItem(item, {});
      TakeOutItem(parent, item);
    }

    lemma NothingDoomed()
      ensures SelectedBeyond({}) <==> SingleSelection()
    {
      assert Highlighted() - {} == Highlighted();
    }

    /** Emptying an item and taking it out of its list is taking it out. */
    lemma ClearedAndOut(parent: Item, item: Item)
      requires Linked() && parent in items && item in parent.children && NoDup(parent.children)
      ensures item in items && parent in Items(Rearrange(shape, item, []))
      ensures var rest := Without(parent.children, item);
              Rearrange(Rearrange(shape, item, []), parent, rest) == Rearrange(shape, parent, rest)
    {
      assert LinkedAt(parent);
      KidsInside(shape, parent);
      RootsAreItems(KidsOf(shape, parent));
      var k := IndexIn(parent.children, item);
      WithoutAt(parent.children, k);
      DropChild(shape, parent, k);
      RearrangeAfterClear(shape, parent, item, Without(parent.children, item));
    }

    method TakeOutItem(parent: Item, item: Item)
      requires Linked() && Rooted() && parent in items && item in parent.children && NoDup(parent.children)
      requires item in items && item.children == []
      requires Torn({} + {item}) && items - {item} !! freed
      modifies this`shape, this`items, parent`children
      ensures Valid() && parent in items
      ensures parent.children == Without(old(parent.children), item) && items == old(items) - {item}
      ensures shape == Rearrange(old(shape), parent, parent.children)
      ensures Highlighted() == old(Highlighted()) - {item}
      ensures old(SelectedBeyond({} + {item})) ==> SelectedBeyond({})
    {
      var index := IndexOf(parent.children, item);
      WithoutAt(parent.children, index);
      TakeOutDeleted(parent, index, item, {});
    }

    lemma NotRoot(item: Item)
      requires Linked() && Rooted() && item in items && item != root
      ensures item.parent != null && ParentOf(shape, item) == Some(item.parent)
      ensures item.parent in items && item.parent !in Items(Branch(shape, item))
      ensures item in item.parent.children && NoDup(item.parent.children)
    {
      assert LinkedAt(item);
      if item.parent == null { RootHasNoSiblings(item); }
      ParentFacts(shape, item);
      ChildrenAbove(shape, item.parent, item);
      assert LinkedAt(item.parent);
      KidsInside(shape, item.parent);
      RootsAreItems(KidsOf(shape, item.parent));
    }

    lemma WithoutAt(s: seq<Item>, k: nat)
      requires NoDup(s) && k < |s|
      ensures Without(s, s[k]) == s[..k] + s[k + 1..]
    {
    }

    /** After `item` is deleted: its branch is gone and freed, the rest of the tree is as it was, and no
        cursor is stale. */
    twostate predicate Deleted(item: Item)
      requires item in Items(old(shape))
      reads this, items`children, items`hilight
    {
      && dirty
      && items == old(items) - Items(Branch(old(shape), item))
      && (old(item.parent) != null && old(item.parent) in Items(old(shape)) ==>
           shape == Rearrange(old(shape), old(item.parent), Without(old(item.parent.children), item)))
      && freed == old(freed) + Items(Branch(old(shape), item))
      && (forall i :: i in items ==>
           i.children == if i == old(item.parent) then Without(old(item.parent.children), item) else old(i.children))
      && Opt(curItem) ==
         (if old(curItem) == item then NextSibling(old(shape), item)
          else Opt(Unless(old(curItem), Items(KidsOf(old(shape), item)))))
      && shiftItem == Unless(old(shiftItem), Items(Branch(old(shape), item)))
      && (Unless(old(selectItem), Items(Branch(old(shape), item))) == old(selectItem) ==> SelectionKept())
      && Cursors()
    }

    method DeleteChildren(item: Item?)
      requires Valid() && Present(item)
      modifies this`asked, this`dirty, this`shape, this`items, this`freed, this`curItem, this`shiftItem, this`selectItem
      modifies items`hilight, items`children
      ensures Valid()
      ensures item == null ==>
                && shape == old(shape) && items == old(items) && dirty == old(dirty) && freed == old(freed)
                && curItem == old(curItem) && shiftItem == old(shiftItem) && selectItem == old(selectItem)
                && Highlighted() == old(Highlighted()) && asked == old(asked)
      ensures item != null ==>
                && shape == Rearrange(old(shape), item, []) && item.children == []
                && items == old(items) - Items(KidsOf(old(shape), item))
                && freed == old(freed) + Items(KidsOf(old(shape), item))
                && curItem == Unless(old(curItem), Items(KidsOf(old(shape), item)))
                && shiftItem == Unless(old(shiftItem), Items(KidsOf(old(shape), item)))
                && (dirty <==> old(dirty) || old(item.children) != [])
                && (Unless(old(selectItem), Items(KidsOf(old(shape), item))) == old(selectItem) ==> SelectionKept())
      ensures old(asked) <= asked
      ensures Granted(old(asked), asked) && old(SingleSelection()) ==> SingleSelection()
    {
      if item == null { return; }
      DeleteChildList(item, {});
    }

    method DeleteRoot()
      requires Valid()
      modifies this`asked, this`dirty, this`shape, this`items, this`freed, this`curItem, this`shiftItem,
               this`selectItem, this`root
      modifies items`hilight, items`children
      ensures Valid()
      ensures root == null && shape == Nil && items == {} && freed == old(freed) + old(items) && asked == old(asked)
      ensures old(root) != null ==> curItem == null && shiftItem == null && selectItem == null
    {
      if root == null { return; }
      ForgetCursors();
      ghost var all, gone := RootParts();
      DeleteChildren(root);
      OnlyOneLeft(all, gone, root, items);
      assert freed == old(freed) + gone;
      DropRoot();
    }

    method ForgetCursors()
      requires Valid()
      modifies this`curItem, this`selectItem, this`shiftItem
      ensures Valid() && curItem == selectItem == shiftItem == null
    {
      curItem, selectItem, shiftItem := null, null, null;
    }

    lemma RootParts() returns (all: set<Item>, gone: set<Item>)
      requires Linked() && Rooted() && root != null
      ensures all == items && root in items && gone == Items(KidsOf(shape, root))
      ensures all == {root} + gone && root !in gone
    {
      all, gone := items, Items(shape.kids);
    }

    lemma OnlyOneLeft(all: set<Item>, gone: set<Item>, i: Item, left: set<Item>)
      requires all == {i} + gone && i !in gone && left == all - gone
      ensures left == {i} && gone + {i} == all
    {
    }

    /** Deletes a root without children. */
    method DropRoot()
      requires root != null && items == {root} && items !! freed && lineHeight > 0
      requires curItem == null && selectItem == null && shiftItem == null
      modifies this`root, this`shape, this`items, this`freed
      ensures Valid() && root == null && shape == Nil && items == {} && freed == old(freed) + {old(root)}
    {
      freed := freed + {root};
      root, shape, items := null, Nil, {};
    }

    // ---------------------------------------------------------------- cursors

    method SetCurrentItem(item: Item?)
      requires Valid() && Present(item)
      modifies this`curItem
      ensures Valid() && curItem == item
    {
      curItem := item;
    }

    /** A click, or a key, with the shift key down remembers the current item unless one is remembered; one without
        it forgets it. */
    method SetShiftItem(shiftDown: bool)
      requires Valid()
      modifies this`shiftItem
      ensures Valid()
      ensures shiftItem ==
              if style.multiple && shiftDown then (if old(shiftItem) == null then curItem else old(shiftItem)) else null
    {
      if style.multiple && shiftDown {
        if shiftItem == null { shiftItem := curItem; }
      } else {
        shiftItem := null;
      }
    }

    // ---------------------------------------------------------------- expanding and visibility

    /** User code is asked exactly if there is something to expand. */
    method Expand(item: Item)
      requires Valid() && item in items
      modifies this`asked, this`dirty, item`collapsed
      ensures Valid()
      ensures asked == old(asked) + (if old(item.collapsed) && item.HasPlus() then 1 else 0)
      ensures item.collapsed == (old(item.collapsed) && !(item.HasPlus() && answers(old(asked))))
      ensures dirty == (old(dirty) || item.collapsed != old(item.collapsed))
      ensures Expanded() == old(Expanded()) + (if item.collapsed then {} else {item})
    {
      if !item.HasPlus() || item.IsExpanded() { return; }
      var allowed := SendEvent();
      if !allowed { return; }  // expand canceled
      item.collapsed := false;
      dirty := true;
    }

    method Collapse(item: Item)
      requires Valid() && item in items
      modifies this`asked, this`dirty, item`collapsed
      ensures Valid()
      ensures asked == old(asked) + (if !old(item.collapsed) && item.HasPlus() then 1 else 0)
      ensures item.collapsed == (old(item.collapsed) || (item.HasPlus() && answers(old(asked))))
      ensures dirty == (old(dirty) || item.collapsed != old(item.collapsed))
      ensures Expanded() == old(Expanded()) - (if item.collapsed then {item} else {})
    {
      if !item.HasPlus() || !item.IsExpanded() { return; }
      var allowed := SendEvent();
      if !allowed { return; }  // collapse canceled
      item.collapsed := true;
      dirty := true;
    }

    /** Expanding opens more, only in `branch`, and closes nothing; a change makes the layout dirty. */
    twostate predicate OnlyExpanded(branch: set<Item>)
      reads this`shape, this`items, this`dirty, items`collapsed
    {
      Expanding(old(Expanded()), branch, old(dirty))
    }

    ghost predicate Expanding(expanded: set<Item>, branch: set<Item>, wasDirty: bool)
      reads this`shape, this`items, this`dirty, items`collapsed
    {
      expanded <= Expanded() <= expanded + branch && dirty == (wasDirty || Expanded() != expanded)
    }

    /** Everything in the branch that has a plus is expanded, exactly if user code allows all that it is asked.  No
        item is asked about twice. */
    method ExpandAll(item: Item)
      requires Valid() && item in items
      modifies this`asked, this`dirty, items`collapsed
      ensures Valid()
      ensures OnlyExpanded(Items(Branch(shape, item)))
      ensures old(asked) <= asked <= old(asked) + 1 + Size(KidsOf(shape, item))
      ensures Granted(old(asked), asked) <==> Opened(Items(Branch(shape, item)))
      decreases Size(KidsOf(shape, item)), 2
    {
      ghost var branch, kids := Items(Branch(shape, item)), KidsOf(shape, item);
      ghost var expanded, wasDirty := Expanded(), dirty;
      BranchItems(shape, item);
      KidsInside(shape, item);
      assert LinkedAt(item);
      Expand(item);
      if !item.IsExpanded() {
        assert item.children == [] ==> kids == Nil;
        return;
      }
      ExpandChildren(item, branch, expanded, wasDirty);
    }

    /** The loop over the children. */
    method ExpandChildren(item: Item, ghost branch: set<Item>, ghost expanded: set<Item>, ghost wasDirty: bool)
      requires Valid() && item in items && !item.collapsed && branch == Items(Branch(shape, item))
      requires Expanding(expanded, branch, wasDirty)
      modifies this`asked, this`dirty, items`collapsed
      ensures Valid() && !item.collapsed && old(asked) <= asked <= old(asked) + Size(KidsOf(shape, item))
      ensures Expanding(expanded, branch, wasDirty)
      ensures Granted(old(asked), asked) <==> Opened(Items(KidsOf(shape, item)))
      decreases Size(KidsOf(shape, item)), 1
    {
      ghost var kids := KidsOf(shape, item);
      PastEnds(item);
      var n := 0;
      while n < |item.children|
        invariant n <= |item.children| && Valid() && !item.collapsed
        invariant Expanding(expanded, branch, wasDirty)
        invariant old(asked) <= asked && asked + Size(From(kids, n)) <= old(asked) + Size(kids)
        invariant Granted(old(asked), asked) <==> Opened(Past(item, n))
      {
        ExpandChild(item, n, branch, expanded, wasDirty);
        n := n + 1;
      }
    }

    /** What is under the first `n` children. */
    ghost function Past(item: Item, n: nat): set<Item>
      requires item in Items(shape)
      reads this`shape
    {
      Items(KidsOf(shape, item)) - Items(From(KidsOf(shape, item), n))
    }

    lemma PastEnds(item: Item)
      requires Linked() && item in items
      ensures Past(item, 0) == {} && Past(item, |item.children|) == Items(KidsOf(shape, item))
    {
      NoneLeft(item);
    }

    /** One child more. */
    lemma PastNext(item: Item, n: nat) returns (part: set<Item>)
      requires Linked() && item in items && n < |item.children|
      ensures item.children[n] in items && Size(KidsOf(shape, item.children[n])) < Size(KidsOf(shape, item))
      ensures part == Items(Branch(shape, item.children[n])) <= Items(Branch(shape, item)) && part <= items
      ensures Past(item, n + 1) == Past(item, n) + part && Past(item, n) !! part && Past(item, n) <= items
      ensures Size(From(KidsOf(shape, item), n)) ==
              1 + Size(KidsOf(shape, item.children[n])) + Size(From(KidsOf(shape, item), n + 1))
    {
      assert LinkedAt(item);
      ChildStep(shape, item, n);
      BranchItems(shape, item);
      BranchItems(shape, item.children[n]);
      KidsInside(shape, item);
      FromInside(KidsOf(shape, item), n);
      part := Items(Branch(shape, item.children[n]));
    }

    /** Everything of `s` that has a plus is expanded. */
    ghost predicate Opened(s: set<Item>)
      reads this`shape, this`items, items`collapsed, s`hasPlus, s`children
    {
      forall i :: i in s && i.HasPlus() ==> i in Expanded()
    }

    /** One turn of the loop. */
    method ExpandChild(item: Item, n: nat, ghost branch: set<Item>, ghost expanded: set<Item>, ghost wasDirty: bool)
      requires Valid() && item in items && !item.collapsed && n < |item.children|
               && branch == Items(Branch(shape, item))
      requires Expanding(expanded, branch, wasDirty)
      modifies this`asked, this`dirty, items`collapsed
      ensures Valid() && !item.collapsed && old(asked) <= asked
      ensures asked + Size(From(KidsOf(shape, item), n + 1)) <= old(asked) + Size(From(KidsOf(shape, item), n))
      ensures Expanding(expanded, branch, wasDirty)
      ensures Granted(old(asked), asked) && old(Opened(Past(item, n))) <==> Opened(Past(item, n + 1))
      decreases Size(KidsOf(shape, item)), 0
    {
      ghost var before := Expanded();
      ghost var part := PastNext(item, n);
      ExpandAll(item.children[n]);
      assert item in before;
      StillOpened(Past(item, n), part);
    }

    /** Expanding in `part` opens nothing in `done`. */
    twostate lemma StillOpened(done: set<Item>, new part: set<Item>)
      requires unchanged(this`shape, this`items) && unchanged(done`children, done`hasPlus)
      requires done !! part && done <= items && part <= items && old(Expanded()) <= Expanded() <= old(Expanded()) + part
      ensures old(Opened(done)) && Opened(part) <==> Opened(done + part)
    {
      assert Opened(done + part) <==> Opened(done) && Opened(part);
      forall i | i in done ensures i in Expanded() <==> i in old(Expanded()) {
      }
    }

    /** Expands all ancestors. */
    method ExpandAncestors(item: Item)
      requires Valid() && item in items
      modifies this`asked, this`dirty, items`collapsed
      ensures Valid()
      ensures OnlyExpanded(Ancestors(shape, item))
      ensures old(asked) <= asked <= old(asked) + Depth(shape, item)
      ensures Granted(old(asked), asked) <==> item in Walk(shape, Expanded())
    {
      var parent := item.parent;
      ghost var up, expanded, wasDirty := Ancestors(shape, item), Expanded(), dirty;
      ClimbFacts(item);
      while parent != null
        invariant Valid() && Present(parent) && (parent != null ==> parent.children != [])
        invariant UpFrom(parent) <= up
        invariant old(asked) <= asked
                  && asked + (if parent == null then 0 else 1 + Depth(shape, parent)) <= old(asked) + Depth(shape, item)
        invariant Granted(old(asked), asked) <==> up - UpFrom(parent) <= Expanded()
        invariant Expanding(expanded, up, wasDirty)
        decreases if parent == null then 0 else 1 + Depth(shape, parent)
      {
        ClimbFacts(parent);
        ExpandOne(parent, up, up - UpFrom(parent), expanded, wasDirty);
        assert up - UpFrom(parent) + {parent} == up - UpFrom(parent.parent);
        parent := parent.parent;
      }
      WalkAncestors(shape, item, Expanded());
    }

    /** One turn of the loop. */
    method ExpandOne(i: Item, ghost up: set<Item>, ghost done: set<Item>, ghost expanded: set<Item>,
                     ghost wasDirty: bool)
      requires Valid() && i in items && i in up && i.children != [] && i !in done
      requires Expanding(expanded, up, wasDirty)
      modifies this`asked, this`dirty, items`collapsed
      ensures Valid() && Expanding(expanded, up, wasDirty) && old(asked) <= asked <= old(asked) + 1
      ensures Granted(old(asked), asked) && old(done <= Expanded()) <==> done + {i} <= Expanded()
    {
      Expand(i);
    }

    /** A parent, if any, and its ancestors. */
    ghost function UpFrom(p: Item?): set<Item>
      requires p != null ==> p in Items(shape)
      reads this`shape
    {
      if p == null then {} else {p} + Ancestors(shape, p)
    }

    lemma ClimbFacts(i: Item)
      requires Linked() && i in items
      ensures Present(i.parent) && Ancestors(shape, i) == UpFrom(i.parent)
      ensures i.parent != null ==> i.parent.children != [] && Depth(shape, i) == 1 + Depth(shape, i.parent)
      ensures i.parent == null ==> Depth(shape, i) == 0
      ensures i !in Ancestors(shape, i)
    {
      assert LinkedAt(i);
      AncestorsClimb(shape, i);
      ParentFacts(shape, i);
      if i.parent != null { assert LinkedAt(i.parent); }
    }

    /** Makes an item visible; the rest of the scrolling is not part of this model. */
    method EnsureVisible(item: Item?)
      requires Valid() && Present(item)
      modifies this`asked, this`dirty, this`lineHeight, items`collapsed, items`x, items`y, items`height
      ensures Valid() && old(asked) <= asked
      ensures item == null ==> asked == old(asked) && Expanded() == old(Expanded())
      ensures item != null ==> OnlyExpanded(Ancestors(shape, item)) && Ordered()
      ensures item != null ==> (Granted(old(asked), asked) <==> item in Walk(shape, Expanded()))
    {
      if item == null { return; }
      ExpandAncestors(item);
      ghost var expanded := Expanded();
      EnsurePositions();
      assert Expanded() == expanded;
    }

    /** No collapsed ancestor; a hidden root counts as open. */
    method IsVisible(item: Item) returns (visible: bool)
      requires Linked() && Rooted() && item in items
      ensures visible <==> item in Walk(shape, Open())
    {
      var parent := item.parent;
      ClimbFacts(item);
      WalkAncestors(shape, item, Open());
      ghost var up, open := Ancestors(shape, item), Open();
      while parent != null
        invariant Present(parent)
        invariant up <= open <==> UpFrom(parent) <= open
        decreases if parent == null then 0 else 1 + Depth(shape, parent)
      {
        ClimbFacts(parent);
        if parent == root && style.hideRoot {
          RootHasNoAncestors();
          break;
        }
        if !parent.IsExpanded() { return false; }
        parent := parent.parent;
      }
      return true;
    }

    lemma RootHasNoAncestors()
      requires Rooted() && root != null && items == Items(shape)
      ensures root in items && Ancestors(shape, root) == {}
    {
    }

    /** The last item of the expanded walk that is visible: the last of that walk. */
    method GetLastVisible() returns (res: Item?)
      requires Linked() && Rooted() && root != null
      ensures Opt(res) == LastOf(Walk(shape, Expanded()))
    {
      ghost var walk := Walk(shape, Expanded());
      WalkItems(shape, Expanded());
      var id := root;
      res := id;
      ghost var k := 0;
      while true
        invariant id != null && k < |walk| && walk[k] == id && res == id
        decreases |walk| - k
      {
        NextIsSuccessor(shape, Expanded(), k);
        id := GetNext(id, false);
        if id == null { break; }
        k := k + 1;
        ExpandedIsVisible(id);
        var visible := IsVisible(id);
        if visible { res := id; }
      }
    }

    lemma ExpandedIsVisible(i: Item)
      requires items == Items(shape) && Distinct(shape) && i in Walk(shape, Expanded())
      ensures i in items && i in Walk(shape, Open())
    {
      WalkItems(shape, Expanded());
      WalkAncestors(shape, i, Expanded());
      WalkAncestors(shape, i, Open());
    }

    /** With the root expanded, or shown, walking by `GetNext(·, false)` meets exactly the visible items. */
    lemma VisibleWalk()
      requires Linked() && Rooted() && root != null && (style.hideRoot ==> !root.collapsed)
      ensures Walk(shape, Expanded()) == Walk(shape, Open())
    {
      assert Open() == Expanded();
    }

    /** When everything with children is expanded the visible items are all the items. */
    lemma AllExpanded()
      requires Linked() && forall i :: i in items && i.HasPlus() ==> i in Expanded()
      ensures Walk(shape, Expanded()) == Walk(shape, items)
    {
      forall i | i in items && KidsOf(shape, i).Cons? ensures i in Expanded() {
        assert LinkedAt(i);
      }
      WalkAll(shape, Expanded());
    }

    method GetChildrenCount(item: Item) returns (total: nat)
      requires Linked() && item in items
      ensures total == Size(KidsOf(shape, item))
      decreases Size(KidsOf(shape, item))
    {
      ghost var kids := KidsOf(shape, item);
      assert LinkedAt(item);
      total := |item.children|;
      var n := 0;
      while n < |item.children|
        invariant n <= |item.children|
        invariant total + Size(From(kids, n)) == Size(kids) + (|item.children| - n)
      {
        ChildStep(shape, item, n);
        var below := GetChildrenCount(item.children[n]);
        total := total + below;
        n := n + 1;
      }
      FromRoots(kids, |item.children|);
    }

    // ---------------------------------------------------------------- searching

    /** Does the text of an item match: exactly or by its beginning, with letters folded or not. */
    predicate Matches(i: Item, column: nat, str: string, partial: bool, noCase: bool) {
      var whole := i.GetText(column);
      var text := if partial && |str| < |whole| then whole[..|str|] else whole;
      if noCase then Fold(text) == Fold(str) else text == str
    }

    /** What a match is: the letters of `str`, folded or not, are those of the text, or those it begins with. */
    lemma MatchIs(i: Item, column: nat, str: string, partial: bool, noCase: bool)
      ensures var text := if column < |i.texts| then i.texts[column] else "";
              Matches(i, column, str, partial, noCase) <==>
                && (if partial then |str| <= |text| else |str| == |text|)
                && forall k {:trigger str[k]} {:trigger text[k]} :: 0 <= k < |str| ==>
                     if noCase then metrics.fold(text[k]) == metrics.fold(str[k]) else text[k] == str[k]
    {
      var whole := i.GetText(column);
      var text := if partial && |str| < |whole| then whole[..|str|] else whole;
      assert forall k :: 0 <= k < |text| ==> text[k] == whole[k];
      FoldIs(text, str);
    }

    lemma FoldIs(s: string, t: string)
      ensures Fold(s) == Fold(t) <==>
                |s| == |t| && forall k :: 0 <= k < |s| ==> metrics.fold(s[k]) == metrics.fold(t[k])
    {
      if Fold(s) == Fold(t) {
        assert |Fold(s)| == |s| && |Fold(t)| == |t|;
        forall k | 0 <= k < |s| ensures metrics.fold(s[k]) == metrics.fold(t[k]) {
          assert Fold(s)[k] == metrics.fold(s[k]) && Fold(t)[k] == metrics.fold(t[k]);
        }
      }
    }

    function Fold(s: string): string {
      seq(|s|, k requires 0 <= k < |s| => metrics.fold(s[k]))
    }

    /** The search that starts at `item`. */
    ghost function SearchOf(item: Item?, mode: Mode): (q: Search<Item>)
      requires Linked() && Rooted() && Present(item)
      reads this`shape, this`items, this`root, this`style, items`children, items`parent, items`collapsed
      ensures Sound(q)
    {
      Search(shape, style.hideRoot, Opt(item), mode, Expanded())
    }

    ghost function Hits(column: nat, str: string, partial: bool, noCase: bool): set<Item>
      reads this`items
    {
      set i | i in items && Matches(i, column, str, partial, noCase)
    }

    ghost predicate FoundFirst(s: seq<Item>, r: Item?, column: nat, str: string, partial: bool, noCase: bool) {
      if r == null then forall k :: 0 <= k < |s| ==> !Matches(s[k], column, str, partial, noCase)
      else exists k :: 0 <= k < |s| && s[k] == r && Matches(r, column, str, partial, noCase)
                       && forall j :: 0 <= j < k ==> !Matches(s[j], column, str, partial, noCase)
    }

    /** The first match in the order in which the search looks; nothing if there is none.  It has to be a
        search that ends. */
    method FindItem(item: Item?, column: nat, str: string, partial: bool, noCase: bool, mode: Mode)
      returns (r: Item?)
      requires Linked() && Rooted() && Present(item)
      requires MayEnd(SearchOf(item, mode), Hits(column, str, partial, noCase))
      ensures FoundFirst(Order(SearchOf(item, mode)), r, column, str, partial, noCase)
      ensures r != null ==>
                var text := if column < |r.texts| then r.texts[column] else "";
                && r in Order(SearchOf(item, mode))
                && (if partial then |str| <= |text| else |str| == |text|)
                && forall k {:trigger str[k]} :: 0 <= k < |str| ==>
                     if noCase then metrics.fold(text[k]) == metrics.fold(str[k]) else text[k] == str[k]
      ensures r == null ==>
                forall x :: x in Order(SearchOf(item, mode)) ==>
                  var text := if column < |x.texts| then x.texts[column] else "";
                  || (if partial then |text| < |str| else |text| != |str|)
                  || exists k {:trigger str[k]} ::
                       0 <= k < |str| && k < |text|
                       && if noCase then metrics.fold(text[k]) != metrics.fold(str[k]) else text[k] != str[k]
    {
      ghost var q, hits := SearchOf(item, mode), Hits(column, str, partial, noCase);
      EndsExactly(q, hits);
      ghost var last := LastProbe(q, hits);
      ghost var n;
      r, n := LookRound(item, column, str, partial, noCase, mode, q, last);
      if r == null {
        FoundNone(q, n, column, str, partial, noCase);
        NoneMatches(Order(q), column, str, partial, noCase);
      } else {
        FoundAt(q, r, n, column, str, partial, noCase);
        MatchIs(r, column, str, partial, noCase);
      }
    }

    lemma NoneMatches(s: seq<Item>, column: nat, str: string, partial: bool, noCase: bool)
      requires FoundFirst(s, null, column, str, partial, noCase)
      ensures forall x :: x in s ==>
                var text := if column < |x.texts| then x.texts[column] else "";
                || (if partial then |text| < |str| else |text| != |str|)
                || exists k {:trigger str[k]} ::
                     0 <= k < |str| && k < |text|
                     && if noCase then metrics.fold(text[k]) != metrics.fold(str[k]) else text[k] != str[k]
    {
      forall x | x in s
        ensures var text := if column < |x.texts| then x.texts[column] else "";
                || (if partial then |text| < |str| else |text| != |str|)
                || exists k {:trigger str[k]} ::
                     0 <= k < |str| && k < |text|
                     && if noCase then metrics.fold(text[k]) != metrics.fold(str[k]) else text[k] != str[k]
      {
        MatchIs(x, column, str, partial, noCase);
      }
    }

    /** The loop of the search, and in which of its turns it stops. */
    method LookRound(item: Item?, column: nat, str: string, partial: bool, noCase: bool, mode: Mode,
                     ghost q: Search<Item>, ghost last: nat) returns (r: Item?, ghost n: nat)
      requires Linked() && Rooted() && Present(item) && q == SearchOf(item, mode)
      requires Stops(q, Hits(column, str, partial, noCase), ProbeAt(q, last))
      ensures Present(r) && Unstopped(q, Hits(column, str, partial, noCase), n)
      ensures if r == null then ProbeAt(q, n).next in {None, Opt(item)}
              else ProbeAt(q, n).next == Some(r) && r != item && Matches(r, column, str, partial, noCase)
    {
      ghost var hits := Hits(column, str, partial, noCase);
      n := 0;
      var next := FirstLook(item, mode);
      var cookie := 0;
      while next != null && next != item
        invariant Probe(Opt(next), cookie) == ProbeAt(q, n) && Present(next)
        invariant n <= last && Unstopped(q, hits, n)
        decreases last - n
      {
        if Matches(next, column, str, partial, noCase) { return next, n; }
        assert next !in hits;
        next, cookie := LookOn(item, mode, next, cookie, q, hits, n, last);
        n := n + 1;
      }
      r := null;
    }

    /** One turn of the loop. */
    method LookOn(item: Item?, mode: Mode, now: Item, cookie: nat, ghost q: Search<Item>, ghost hits: set<Item>,
                  ghost n: nat, ghost last: nat) returns (next: Item?, turned: nat)
      requires Linked() && Rooted() && Present(item) && now in items && q == SearchOf(item, mode)
      requires Probe(Some(now), cookie) == ProbeAt(q, n) && n <= last && Stops(q, hits, ProbeAt(q, last))
      requires Unstopped(q, hits, n) && now != item && now !in hits
      ensures Present(next) && Probe(Opt(next), turned) == ProbeAt(q, n + 1)
      ensures n < last && Unstopped(q, hits, n + 1)
    {
      NotYet(q, hits, n, last);
      next, turned := NextLook(item, mode, now, cookie);
    }

    lemma LastProbe(q: Search<Item>, hits: set<Item>) returns (n: nat)
      requires Sound(q) && Ends(q, hits)
      ensures Stops(q, hits, ProbeAt(q, n))
    {
      n :| Stops(q, hits, ProbeAt(q, n));
    }

    lemma FoundAt(q: Search<Item>, r: Item, n: nat, column: nat, str: string, partial: bool, noCase: bool)
      requires Sound(q) && q.f == shape && items == Items(shape) && r in items
      requires Matches(r, column, str, partial, noCase) && Opt(r) != q.item && ProbeAt(q, n).next == Opt(r)
      requires Unstopped(q, Hits(column, str, partial, noCase), n)
      ensures FoundFirst(Order(q), r, column, str, partial, noCase)
    {
      var hits := Hits(column, str, partial, noCase);
      FirstStop(q, hits, n);
      OrderItems(q);
      forall j | 0 <= j < n ensures !Matches(Order(q)[j], column, str, partial, noCase) {
        assert Order(q)[..n][j] == Order(q)[j];
      }
    }

    lemma FoundNone(q: Search<Item>, n: nat, column: nat, str: string, partial: bool, noCase: bool)
      requires Sound(q) && q.f == shape && items == Items(shape)
      requires ProbeAt(q, n).next.None? || ProbeAt(q, n).next == q.item
      requires Unstopped(q, Hits(column, str, partial, noCase), n)
      ensures FoundFirst(Order(q), null, column, str, partial, noCase)
    {
      FirstStop(q, Hits(column, str, partial, noCase), n);
      OrderItems(q);
    }

    /** The step of a search. */
    method StepFrom(i: Item, mode: Mode, ghost start: Item?) returns (next: Item?)
      requires Linked() && Rooted() && i in items && Present(start)
      ensures Present(next) && Opt(next) == Step(SearchOf(start, mode), i)
    {
      TrailStep(SearchOf(start, mode), i);
      if mode == Level {
        if i.parent == null { RootHasNoSiblings(i); }
        next := GetNextSibling(i);
      } else if mode == ExpandedOnly {
        next := GetNext(i, false);
      } else {
        next := GetNext(i, true);
      }
    }

    method FirstLook(item: Item?, mode: Mode) returns (next: Item?)
      requires Linked() && Rooted() && Present(item)
      ensures Present(next) && Opt(next) == FirstProbe(SearchOf(item, mode)).next
    {
      next := null;
      if item != null { next := StepFrom(item, mode, item); }
      if next == null {
        next := root;
        if next != null && style.hideRoot {
          RootChildren();
          next := if |root.children| > 0 then root.children[0] else null;
        }
      }
    }

    /** The item looked at after `now`: the next one, or, to come back to the start, the root or another child of
        a hidden root. */
    method NextLook(item: Item?, mode: Mode, now: Item, cookie: nat) returns (next: Item?, turned: nat)
      requires Linked() && Rooted() && Present(item) && now in items
      ensures Present(next)
      ensures Probe(Opt(next), turned) == NextProbe(SearchOf(item, mode), Probe(Some(now), cookie))
    {
      next := StepFrom(now, mode, item);
      turned := cookie;
      if next == null && item != null {
        next := root;
        if style.hideRoot {
          RootChildren();
          if cookie + 1 < |root.children| {
            next, turned := root.children[cookie + 1], cookie + 1;
          } else {
            next := null;
          }
        }
      }
    }

    lemma RootChildren()
      requires Linked() && Rooted() && root != null
      ensures root.children == Roots(shape.kids) && forall c :: c in root.children ==> c in items
    {
      assert LinkedAt(root);
      RootsAreItems(shape.kids);
    }

    // ---------------------------------------------------------------- hit test

    ghost predicate InBand(i: Item, py: int)
      reads this`style, this`lineHeight, i`y, i`height
    {
      i.y <= py <= i.y + LineHeight(i)
    }

    /** `r` is the first of `s` whose band contains `py`. */
    ghost predicate HitIn(s: seq<Item>, py: int, r: Item?)
      reads this`style, this`lineHeight, s`y, s`height
    {
      if r == null then forall k :: 0 <= k < |s| ==> !InBand(s[k], py)
      else exists k :: 0 <= k < |s| && s[k] == r && InBand(r, py) && forall j :: 0 <= j < k ==> !InBand(s[j], py)
    }

    method HitTest(item: Item, px: int, py: int, level: nat, ghost all: seq<Item>) returns (r: Item?)
      requires Linked() && Rooted() && item in items && level == Depth(shape, item) && all == Laid(item, level)
      ensures if px > metrics.headerWidth then r == null else HitIn(all, py, r)
      decreases Size(KidsOf(shape, item)), 1
    {
      LaidFirst(item, level, all);
      if !style.hideRoot || level > 0 {
        if px > metrics.headerWidth { return null; }
        var h := LineHeight(item);
        if item.y <= py <= item.y + h {
          assert all[0] == item;
          return item;
        }
        if !item.IsExpanded() { return null; }
        r := HitChildren(item, px, py, level, all[1..]);
        HitAfter(item, all, py, r);
      } else {
        r := HitChildren(item, px, py, level, all);
      }
    }

    lemma HitAfter(item: Item, all: seq<Item>, py: int, r: Item?)
      requires all != [] && all[0] == item && !InBand(item, py) && HitIn(all[1..], py, r)
      ensures HitIn(all, py, r)
    {
      if r != null {
        var k :| 0 <= k < |all[1..]| && all[1..][k] == r && InBand(r, py)
          && forall j :: 0 <= j < k ==> !InBand(all[1..][j], py);
        forall j | 0 <= j < k + 1 ensures !InBand(all[j], py) {
          if j > 0 { assert all[j] == all[1..][j - 1]; }
        }
        assert all[k + 1] == r;
      } else {
        forall j | 0 <= j < |all| ensures !InBand(all[j], py) {
          if j > 0 { assert all[j] == all[1..][j - 1]; }
        }
      }
    }

    method HitChildren(item: Item, px: int, py: int, level: nat, ghost all: seq<Item>) returns (r: Item?)
      requires Linked() && Rooted() && item in items && level == Depth(shape, item)
      requires all == Walk(KidsOf(shape, item), Open())
      ensures if px > metrics.headerWidth then r == null else HitIn(all, py, r)
      decreases Size(KidsOf(shape, item)), 0
    {
      ghost var kids, open := KidsOf(shape, item), Open();
      ghost var done := [];
      var n := 0;
      while n < |item.children|
        invariant n <= |item.children|
        invariant all == done + Walk(From(kids, n), open)
        invariant px <= metrics.headerWidth ==> forall k :: 0 <= k < |done| ==> !InBand(done[k], py)
      {
        ghost var w := LaidChild(item, level, n, done, all);
        r := HitTest(item.children[n], px, py, level + 1, w);
        if r != null {
          HitWithin(done, w, Walk(From(kids, n + 1), open), py, r);
          return;
        }
        done := done + w;
        n := n + 1;
      }
      assert all == done by { NoneLeft(item); }
      r := null;
    }

    lemma HitWithin(a: seq<Item>, b: seq<Item>, c: seq<Item>, py: int, r: Item)
      requires HitIn(b, py, r) && forall k :: 0 <= k < |a| ==> !InBand(a[k], py)
      ensures HitIn(a + b + c, py, r)
    {
      var k :| 0 <= k < |b| && b[k] == r && InBand(r, py) && forall j :: 0 <= j < k ==> !InBand(b[j], py);
      var s := a + b + c;
      assert s[|a| + k] == r;
      forall j | 0 <= j < |a| + k ensures !InBand(s[j], py) {
        if j >= |a| { assert s[j] == b[j - |a|]; }
      }
    }

    lemma LaidChild(item: Item, level: nat, n: nat, done: seq<Item>, all: seq<Item>) returns (w: seq<Item>)
      requires Linked() && Rooted() && item in items && level == Depth(shape, item) && n < |item.children|
      requires all == Walk(KidsOf(shape, item), Open()) == done + Walk(From(KidsOf(shape, item), n), Open())
      ensures item.children[n] in items && Size(KidsOf(shape, item.children[n])) < Size(KidsOf(shape, item))
      ensures Depth(shape, item.children[n]) == level + 1 && w == Laid(item.children[n], level + 1)
      ensures all == done + w + Walk(From(KidsOf(shape, item), n + 1), Open())
      ensures forall i :: i in done ==> i in items && i !in w
    {
      assert LinkedAt(item);
      var child := item.children[n];
      ChildStep(shape, item, n);
      SiblingIndex(shape, item, n);
      ParentFacts(shape, child);
      BranchWalk(shape, child, Open());
      w := Walk(Branch(shape, child), Open());
      var rest := Walk(From(KidsOf(shape, item), n + 1), Open());
      assert Walk(From(KidsOf(shape, item), n), Open()) == w + rest;
      KidsInside(shape, item);
      WalkItems(KidsOf(shape, item), Open());
      WalkNoDup(KidsOf(shape, item), Open());
      Apart(done, w, rest, all);
    }

    // ---------------------------------------------------------------- rows one below the other

    /** The rows of `s` lie one below the other from `top`, with the heights they have. */
    ghost predicate Stacked(s: seq<Item>, top: int)
      reads this`style, this`lineHeight, s`y, s`height
    {
      forall k {:trigger StackedAt(s, top, k)} :: 0 <= k < |s| ==> StackedAt(s, top, k)
    }

    ghost predicate StackedAt(s: seq<Item>, top: int, k: nat)
      requires k < |s|
      reads this`style, this`lineHeight, s`y, s`height
    {
      s[k].y == if k == 0 then top else s[k - 1].y + LineHeight(s[k - 1])
    }

    /** The rows of `s` together. */
    ghost function HeightOf(s: seq<Item>): int
      reads this`style, this`lineHeight, s`height
    {
      if s == [] then 0 else HeightOf(s[..|s| - 1]) + LineHeight(s[|s| - 1])
    }

    /** The bands of stacked rows. */
    lemma {:induction false} StackedBands(s: seq<Item>, top: int) returns (tops: seq<int>, heights: seq<int>)
      requires lineHeight > 0 && Stacked(s, top)
      ensures Tile(tops, heights, top) && |tops| == |s| && Total(heights) == HeightOf(s)
      ensures forall k :: 0 <= k < |s| ==> s[k].y == tops[k] && LineHeight(s[k]) == heights[k]
      ensures forall k :: 0 <= k < |s| ==> heights[k] >= 0
    {
      tops, heights := [], [];
      if s != [] {
        var init, x := s[..|s| - 1], s[|s| - 1];
        StackedInit(s, top);
        tops, heights := StackedBands(init, top);
        TileSnoc(tops, heights, top, LineHeight(x));
        StackedNext(s, top, tops, heights);
        tops, heights := tops + [x.y], heights + [LineHeight(x)];
      }
    }

    lemma StackedInit(s: seq<Item>, top: int)
      requires s != [] && Stacked(s, top)
      ensures Stacked(s[..|s| - 1], top)
    {
      var init := s[..|s| - 1];
      forall k | 0 <= k < |init| ensures StackedAt(init, top, k) { assert StackedAt(s, top, k); }
    }

    lemma StackedNext(s: seq<Item>, top: int, tops: seq<int>, heights: seq<int>)
      requires s != [] && Stacked(s, top) && |tops| == |heights| == |s| - 1 && Tile(tops, heights, top)
      requires forall k :: 0 <= k < |s| - 1 ==> s[k].y == tops[k] && LineHeight(s[k]) == heights[k]
      ensures s[|s| - 1].y == top + Total(heights)
    {
      TileTop(tops, heights, top, |tops|);
      assert heights[..|heights|] == heights;
      assert StackedAt(s, top, |s| - 1);
    }

    /** A settled layout is stacked from the top of the layout pass. */
    lemma SettledStacked()
      requires items == Items(shape) && Settled() && lineHeight > 0
      ensures Stacked(Shown(), 2)
    {
      var s, ws, v := Shown(), Wants(style, shape, Shown()), style.variableRows;
      var plan := LayoutFrom(lineHeight);
      AfterPass(s, lineHeight, plan);
      SettledTiles(ws, TOP, lineHeight, v);
      forall k | 0 <= k < |s| ensures StackedAt(s, TOP, k) { TileStacked(s, plan.rows, k); }
    }

    /** In a settled layout a row starts where its level does. */
    lemma SettledLefts(k: nat)
      requires items == Items(shape) && Settled() && k < |Shown()| && Shown()[k] in Items(shape)
      ensures var depth := Depth(shape, Shown()[k]);
              Shown()[k].x ==
              metrics.colStart + 2 + (if style.linesAtRoot then 5 else 0)
              + (if style.hasButtons then metrics.btnWidth - metrics.btnWidth2 else metrics.indent - metrics.indent2)
              + metrics.indent * (if style.hideRoot && depth > 0 then depth - 1 else depth)
    {
      SettledPut(Shown(), k);
      LevelXIs(style, Depth(shape, Shown()[k]));
    }

    lemma TileStacked(s: seq<Item>, rows: seq<Row>, k: nat)
      requires AllHave(s, rows) && Sized(s) && k < |s|
      requires Tile(Tops(rows), Heights(Wants(style, shape, s), lineHeight, style.variableRows), TOP)
      ensures StackedAt(s, TOP, k)
    {
      var tops, heights := Tops(rows), Heights(Wants(style, shape, s), lineHeight, style.variableRows);
      assert TileAt(tops, heights, TOP, k);
      assert s[k].Place() == rows[k];
      if k > 0 {
        assert s[k - 1].Place() == rows[k - 1] && s[k - 1].height == Byte(Need(s[k - 1]));
        assert heights[k - 1] == LineHeight(s[k - 1]);
      }
    }

    /** In a stack Y never goes up, and stays the same exactly over rows without height. */
    lemma StackedRises(s: seq<Item>, top: int)
      requires lineHeight > 0 && Stacked(s, top) && Sized(s)
      ensures Rising(s)
    {
      forall j, k | 0 <= j < k < |s| ensures RisesAt(s, j, k) { StackRise(s, top, j, k); }
    }

    lemma {:induction false} StackRise(s: seq<Item>, top: int, j: nat, k: nat)
      requires lineHeight > 0 && Stacked(s, top) && Sized(s) && j < k < |s|
      ensures RisesAt(s, j, k)
    {
      assert StackedAt(s, top, k) && s[k - 1].height == Byte(Need(s[k - 1]));
      assert EmptyRow(s[k - 1]) <==> LineHeight(s[k - 1]) == 0;
      if j < k - 1 { StackRise(s, top, j, k - 1); }
      assert NoneHighFrom(s, j, k) <==> EmptyRow(s[k - 1]) && NoneHighFrom(s, j, k - 1);
    }

    /** On rows stacked from `top`, as the layout pass and painting leave them: an item is hit exactly strictly
        below the top of its row down to its bottom, the very top edge belongs to the first row, and nothing
        is hit outside the rows. */
    method ItemAt(px: int, py: int, ghost top: int) returns (r: Item?)
      requires Valid() && root != null && Stacked(Shown(), top) && px <= metrics.headerWidth
      ensures RightHit(Shown(), top, top + HeightOf(Shown()), py, r)
    {
      ghost var s := Shown();
      ShownIsLaid();
      r := HitTest(root, px, py, 0, s);
      assert old(HitIn(s, py, r));
      HitIsRight(s, top, py, r);
    }

    /** An item of `s` is hit from just below its top to its bottom, the first one also at its top, and nothing
        is hit outside the rows, which lie between `top` and `bottom`. */
    ghost predicate RightHit(s: seq<Item>, top: int, bottom: int, py: int, r: Item?)
      reads this`style, this`lineHeight, s`y, s`height
    {
      && (r != null ==> r in s)
      && (forall k :: 0 <= k < |s| && s[k].y < py <= s[k].y + LineHeight(s[k]) ==> r == s[k])
      && (py == top && s != [] ==> r == s[0])
      && (r == null <==> s == [] || py < top || bottom < py)
    }

    lemma HitIsRight(s: seq<Item>, top: int, py: int, r: Item?)
      requires lineHeight > 0 && Stacked(s, top) && HitIn(s, py, r)
      ensures RightHit(s, top, top + HeightOf(s), py, r)
    {
      var tops, heights := StackedBands(s, top);
      var n := HitPlace(s, tops, heights, py, r);
      HitInvertsTiling(tops, heights, top, py, n);
    }

    lemma HitPlace(s: seq<Item>, tops: seq<int>, heights: seq<int>, py: int, r: Item?) returns (n: int)
      requires |tops| == |heights| == |s| && HitIn(s, py, r)
      requires forall k :: 0 <= k < |s| ==> s[k].y == tops[k] && LineHeight(s[k]) == heights[k]
      ensures FirstHit(tops, heights, py, n)
      ensures if r == null then n == -1 else 0 <= n < |s| && s[n] == r
    {
      n := -1;
      if r != null {
        n :| 0 <= n < |s| && s[n] == r && InBand(r, py) && forall j :: 0 <= j < n ==> !InBand(s[j], py);
      }
      forall k | 0 <= k < (if n < 0 then |tops| else n) ensures !(tops[k] <= py <= tops[k] + heights[k]) {
        assert !InBand(s[k], py);
      }
    }

    // ---------------------------------------------------------------- size and painting

    /** `bottom` is the lowest edge of the rows of `s`, or `y` if that is lower. */
    ghost predicate Lowest(s: seq<Item>, y: int, bottom: int)
      reads this`style, this`lineHeight, s`y, s`height
    {
      && y <= bottom
      && (forall k :: 0 <= k < |s| ==> s[k].y + LineHeight(s[k]) <= bottom)
      && (bottom == y || exists k :: 0 <= k < |s| && bottom == s[k].y + LineHeight(s[k]))
    }

    lemma LowestConcat(a: seq<Item>, b: seq<Item>, y: int, m: int, bottom: int, s: seq<Item>)
      requires Lowest(a, y, m) && Lowest(b, m, bottom) && s == a + b
      ensures Lowest(s, y, bottom)
    {
      assert forall k :: 0 <= k < |a| ==> s[k] == a[k];
      assert forall k :: 0 <= k < |b| ==> s[|a| + k] == b[k];
    }

    lemma LowestFirst(item: Item, y: int, bottom: int, s: seq<Item>)
      requires s == [item]
      requires bottom == if y >= item.y + LineHeight(item) then y else item.y + LineHeight(item)
      ensures Lowest(s, y, bottom)
    {
      assert s[0] == item;
    }

    method GetSize(item: Item, y: int, ghost all: seq<Item>) returns (bottom: int)
      requires Linked() && item in items && all == VisibleBranch(item)
      ensures Lowest(all, y, bottom)
      decreases Size(KidsOf(shape, item)), 2
    {
      ghost var done := VisibleFirst(item);
      bottom := item.y + LineHeight(item);
      if y >= bottom { bottom := y; }
      LowestFirst(item, y, bottom, done);
      if item.IsExpanded() {
        bottom := GetChildrenSize(item, y, bottom, done, all);
      } else {
        assert all == done;
      }
    }

    /** The loop over the children. */
    method GetChildrenSize(item: Item, ghost y: int, top: int, ghost first: seq<Item>, ghost all: seq<Item>)
      returns (bottom: int)
      requires Linked() && item in items && Lowest(first, y, top)
      requires all == first + Walk(From(KidsOf(shape, item), 0), Expanded())
      ensures Lowest(all, y, bottom)
      decreases Size(KidsOf(shape, item)), 1
    {
      ghost var done := first;
      bottom := top;
      var n := 0;
      while n < |item.children|
        invariant n <= |item.children|
        invariant all == done + Walk(From(KidsOf(shape, item), n), Expanded())
        invariant Lowest(done, y, bottom)
      {
        bottom, done := GetChildSize(item, n, y, bottom, done, all);
        n := n + 1;
      }
      AllVisited(item, done, all);
    }

    lemma AllVisited(item: Item, done: seq<Item>, all: seq<Item>)
      requires Linked() && item in items
      requires all == done + Walk(From(KidsOf(shape, item), |item.children|), Expanded())
      ensures done == all
    {
      NoneLeft(item);
    }

    /** One turn of the loop. */
    method GetChildSize(item: Item, n: nat, ghost y: int, top: int, ghost done: seq<Item>, ghost all: seq<Item>)
      returns (bottom: int, ghost next: seq<Item>)
      requires Linked() && item in items && n < |item.children|
      requires all == done + Walk(From(KidsOf(shape, item), n), Expanded()) && Lowest(done, y, top)
      ensures all == next + Walk(From(KidsOf(shape, item), n + 1), Expanded()) && Lowest(next, y, bottom)
      decreases Size(KidsOf(shape, item)), 0
    {
      ghost var w;
      w, next := VisibleStep(item, n, done, all);
      bottom := GetSize(item.children[n], top, w);
      assert Lowest(done, y, top);
      LowestConcat(done, w, y, top, bottom, next);
    }

    lemma VisibleFirst(item: Item) returns (done: seq<Item>)
      requires Linked() && item in items
      ensures done == [item]
      ensures VisibleBranch(item) ==
              done + (if item.collapsed then [] else Walk(From(KidsOf(shape, item), 0), Expanded()))
    {
      BranchWalk(shape, item, Expanded());
      done := [item];
    }

    lemma VisibleStep(item: Item, n: nat, done: seq<Item>, all: seq<Item>) returns (w: seq<Item>, next: seq<Item>)
      requires Linked() && item in items && n < |item.children|
      requires all == done + Walk(From(KidsOf(shape, item), n), Expanded())
      ensures item.children[n] in items && Size(KidsOf(shape, item.children[n])) < Size(KidsOf(shape, item))
      ensures w == VisibleBranch(item.children[n]) && next == done + w
      ensures all == next + Walk(From(KidsOf(shape, item), n + 1), Expanded())
    {
      assert LinkedAt(item);
      ChildStep(shape, item, n);
      BranchWalk(shape, item.children[n], Expanded());
      w := VisibleBranch(item.children[n]);
      next := done + w;
      var rest := Walk(From(KidsOf(shape, item), n + 1), Expanded());
      assert done + (w + rest) == done + w + rest;
    }

    /** With a shown root and rows stacked from `top` the reported size is the bottom of the last row. */
    method ContentBottom(ghost top: nat) returns (bottom: int)
      requires Valid() && root != null && !style.hideRoot && Stacked(Shown(), top)
      ensures bottom == top + HeightOf(Shown())
    {
      ghost var s := Shown();
      WholeBranch();
      bottom := GetSize(root, 0, s);
      assert old(Lowest(s, 0, bottom));
      LowestIsBottom(s, top, bottom);
    }

    lemma WholeBranch()
      requires Rooted() && root != null && !style.hideRoot && items == Items(shape)
      ensures root in items && Shown() == VisibleBranch(root) != []
    {
      assert Open() == Expanded();
      assert Branch(shape, root) == shape;
    }

    lemma LowestIsBottom(s: seq<Item>, top: nat, bottom: int)
      requires lineHeight > 0 && s != [] && Stacked(s, top) && Lowest(s, 0, bottom)
      ensures bottom == top + HeightOf(s)
    {
      var tops, heights := StackedBands(s, top);
      var n := |s|;
      TileTop(tops, heights, top, n);
      assert heights[..n] == heights;
      assert s[n - 1].y + LineHeight(s[n - 1]) == top + Total(heights);
      LowestBand(s, top, tops, heights, bottom);
    }

    lemma LowestBand(s: seq<Item>, top: nat, tops: seq<int>, heights: seq<int>, bottom: int)
      requires |tops| == |heights| == |s| > 0 && Tile(tops, heights, top) && Lowest(s, 0, bottom)
      requires forall k :: 0 <= k < |s| ==> s[k].y == tops[k] && LineHeight(s[k]) == heights[k]
      requires forall k :: 0 <= k < |s| ==> heights[k] >= 0
      ensures bottom <= tops[|s| - 1] + heights[|s| - 1]
    {
      var n := |s|;
      if bottom == 0 {
        assert TileAt(tops, heights, top, 0);
        if n > 1 { TileOrder(tops, heights, top, 0, n - 1); }
      } else {
        var k :| 0 <= k < n && bottom == s[k].y + LineHeight(s[k]);
        if k < n - 1 { TileOrder(tops, heights, top, k, n - 1); }
      }
    }

    /** `tops` goes down the rows of `s`, one row height at a time, to the bottom of the last. */
    ghost predicate StepsDown(s: seq<Item>, tops: seq<int>)
      reads this`style, this`lineHeight, s`height
    {
      && |tops| == |s| + 1
      && forall k {:trigger StepDown(s, tops, k)} :: 0 <= k < |s| ==> StepDown(s, tops, k)
    }

    ghost predicate StepDown(s: seq<Item>, tops: seq<int>, k: nat)
      requires k < |s| && |tops| == |s| + 1
      reads this`style, this`lineHeight, s`height
    {
      tops[k + 1] == tops[k] + LineHeight(s[k])
    }

    ghost function PutPlace(style: Style, f: Forest<Item>, i: Item, top: int): (int, int) {
      (LevelX(style, if i in Items(f) then Depth(f, i) else 0), top)
    }

    /** The items of `s` stand at the left of their levels and at `tops`. */
    ghost predicate AllPut(style: Style, f: Forest<Item>, s: seq<Item>, tops: seq<int>)
      reads s`x, s`y
    {
      |s| <= |tops| && forall k :: 0 <= k < |s| ==> XY(s[k]) == PutPlace(style, f, s[k], tops[k])
    }

    lemma PutConcat(style: Style, f: Forest<Item>, a: seq<Item>, b: seq<Item>, tops: seq<int>, part: seq<int>)
      requires AllPut(style, f, a, tops) && AllPut(style, f, b, part)
      requires |a| + |b| < |tops| && part == tops[|a|..|a| + |b| + 1]
      ensures AllPut(style, f, a + b, tops)
    {
      forall k | 0 <= k < |b| ensures XY(b[k]) == PutPlace(style, f, (a + b)[|a| + k], tops[|a| + k]) {
        assert part[k] == tops[|a| + k];
      }
    }

    ghost function XY(i: Item): (int, int)
      reads i`x, i`y
    {
      (i.x, i.y)
    }

    /** The positions given by painting: from `y` down, with the heights the rows have. */
    method PaintLevel(item: Item, level: nat, y: int, ghost all: seq<Item>, ghost tops: seq<int>) returns (bottom: int)
      requires Linked() && Rooted() && item in items && level == Depth(shape, item) && all == Laid(item, level)
      requires StepsDown(all, tops) && tops[0] == y
      modifies items`x, items`y
      ensures AllPut(style, shape, all, tops)
      ensures bottom == tops[|all|]
      ensures forall i :: i in items && i !in all ==> XY(i) == old(XY(i))
      decreases Size(KidsOf(shape, item)), 3
    {
      LaidFirst(item, level, all);
      if style.hideRoot && level == 0 {
        bottom := PaintChildren(item, level, y, all, tops);
      } else {
        bottom := PaintRows(item, level, y, all, tops);
      }
    }

    /** The row of the item and those below it. */
    method PaintRows(item: Item, level: nat, y: int, ghost all: seq<Item>, ghost tops: seq<int>) returns (bottom: int)
      requires Linked() && Rooted() && item in items && level == Depth(shape, item)
      requires all == [item] + (if item.collapsed then [] else Walk(KidsOf(shape, item), Open()))
      requires StepsDown(all, tops) && tops[0] == y
      modifies items`x, items`y
      ensures AllPut(style, shape, all, tops)
      ensures bottom == tops[|all|]
      ensures forall i :: i in items && i !in all ==> XY(i) == old(XY(i))
      decreases Size(KidsOf(shape, item)), 2
    {
      item.x := LevelX(style, level);
      item.y := y;
      bottom := y + LineHeight(item);
      assert StepDown(all, tops, 0) && all[0] == item;
      if !item.IsExpanded() { return; }
      ghost var tail := PaintTail(item, all, tops);
      bottom := PaintChildren(item, level, bottom, tail, tops[1..]);
      PutFirst(item, level, all, tops);
    }

    lemma PutFirst(item: Item, level: nat, all: seq<Item>, tops: seq<int>)
      requires item in Items(shape) && level == Depth(shape, item) && all != [] && all[0] == item && tops != []
      requires XY(item) == (LevelX(style, level), tops[0]) && AllPut(style, shape, all[1..], tops[1..])
      ensures AllPut(style, shape, all, tops)
    {
      forall k | 1 <= k < |all| ensures XY(all[k]) == PutPlace(style, shape, all[k], tops[k]) {
        assert all[k] == all[1..][k - 1] && tops[k] == tops[1..][k - 1];
      }
    }

    lemma PaintTail(item: Item, all: seq<Item>, tops: seq<int>) returns (tail: seq<Item>)
      requires Linked() && item in items && all == [item] + Walk(KidsOf(shape, item), Open()) && StepsDown(all, tops)
      ensures tail == all[1..] && tail == Walk(KidsOf(shape, item), Open()) && item !in tail
      ensures StepsDown(tail, tops[1..])
    {
      tail := all[1..];
      KidsInside(shape, item);
      WalkItems(KidsOf(shape, item), Open());
      forall k | 0 <= k < |tail| ensures StepDown(tail, tops[1..], k) {
        assert StepDown(all, tops, k + 1);
      }
    }

    method PaintChildren(item: Item, level: nat, y: int, ghost all: seq<Item>, ghost tops: seq<int>)
        returns (bottom: int)
      requires Linked() && Rooted() && item in items && level == Depth(shape, item)
      requires all == Walk(KidsOf(shape, item), Open()) && StepsDown(all, tops) && tops[0] == y
      modifies items`x, items`y
      ensures AllPut(style, shape, all, tops)
      ensures bottom == tops[|all|]
      ensures forall i :: i in items && i !in all ==> XY(i) == old(XY(i))
      decreases Size(KidsOf(shape, item)), 1
    {
      bottom := y;
      ghost var kids, open, sty, f := KidsOf(shape, item), Open(), style, shape;
      ghost var done := [];
      var n := 0;
      while n < |item.children|
        invariant n <= |item.children| && style == sty && shape == f && Open() == open
        invariant StepsDown(all, tops)
        invariant all == done + Walk(From(kids, n), open)
        invariant AllPut(sty, f, done, tops)
        invariant bottom == tops[|done|]
        invariant forall i :: i in items && i !in done ==> XY(i) == old(XY(i))
      {
        bottom, done := PaintChild(item, level, n, bottom, done, all, tops);
        n := n + 1;
      }
      assert all == done by { NoneLeft(item); }
    }

    /** One turn of the loop. */
    method PaintChild(item: Item, level: nat, n: nat, y: int, ghost done: seq<Item>, ghost all: seq<Item>,
                      ghost tops: seq<int>)
      returns (bottom: int, ghost next: seq<Item>)
      requires Linked() && Rooted() && item in items && level == Depth(shape, item) && n < |item.children|
      requires all == Walk(KidsOf(shape, item), Open()) == done + Walk(From(KidsOf(shape, item), n), Open())
      requires StepsDown(all, tops) && AllPut(style, shape, done, tops) && y == tops[|done|]
      modifies items`x, items`y
      ensures all == next + Walk(From(KidsOf(shape, item), n + 1), Open())
      ensures AllPut(style, shape, next, tops) && bottom == tops[|next|]
      ensures forall i :: i in items && i !in next ==> XY(i) == old(XY(i))
      ensures forall i :: i in done ==> i in next
      decreases Size(KidsOf(shape, item)), 0
    {
      ghost var w, part;
      w, part, next := PaintPart(item, level, n, done, all, tops);
      assert forall k :: 0 <= k < |done| ==> done[k] in items && done[k] !in w;
      bottom := PaintLevel(item.children[n], level + 1, y, w, part);
      PutConcat(style, shape, done, w, tops, part);
    }

    lemma PaintPart(item: Item, level: nat, n: nat, done: seq<Item>, all: seq<Item>, tops: seq<int>)
      returns (w: seq<Item>, part: seq<int>, next: seq<Item>)
      requires Linked() && Rooted() && item in items && level == Depth(shape, item) && n < |item.children|
      requires all == Walk(KidsOf(shape, item), Open()) == done + Walk(From(KidsOf(shape, item), n), Open())
      requires StepsDown(all, tops)
      ensures item.children[n] in items && Size(KidsOf(shape, item.children[n])) < Size(KidsOf(shape, item))
      ensures Depth(shape, item.children[n]) == level + 1 && w == Laid(item.children[n], level + 1)
      ensures all == done + w + Walk(From(KidsOf(shape, item), n + 1), Open())
      ensures forall i :: i in done ==> i in items && i !in w
      ensures part == tops[|done|..|done| + |w| + 1] && StepsDown(w, part)
      ensures next == done + w && part[0] == tops[|done|] && part[|w|] == tops[|next|]
    {
      w := LaidChild(item, level, n, done, all);
      part, next := tops[|done|..|done| + |w| + 1], done + w;
      StepsPart(all, tops, done, w, Walk(From(KidsOf(shape, item), n + 1), Open()));
    }

    lemma StepsPart(all: seq<Item>, tops: seq<int>, a: seq<Item>, b: seq<Item>, c: seq<Item>)
      requires all == a + b + c && StepsDown(all, tops)
      ensures |a| + |b| < |tops| && StepsDown(b, tops[|a|..|a| + |b| + 1])
    {
      var part := tops[|a|..|a| + |b| + 1];
      forall k | 0 <= k < |b| ensures StepDown(b, part, k) {
        assert StepDown(all, tops, |a| + k);
        assert all[|a| + k] == b[k];
      }
    }

    /** The tops of rows stacked from `y`. */
    lemma {:induction false} StackedTops(s: seq<Item>, y: int) returns (tops: seq<int>)
      ensures StepsDown(s, tops) && tops[0] == y
    {
      if s == [] {
        tops := [y];
      } else {
        var init := s[..|s| - 1];
        var t := StackedTops(init, y);
        tops := t + [t[|init|] + LineHeight(s[|init|])];
        forall k | 0 <= k < |s| ensures StepDown(s, tops, k) {
          if k < |init| { assert StepDown(init, t, k); }
        }
      }
    }

    /** Painting starts at the very top and stacks the rows from there; on a settled layout each shown item ends
        `TOP` higher than the layout pass had put it. */
    method OnPaint()
      requires Valid()
      modifies items`x, items`y
      ensures Valid()
      ensures Stacked(Shown(), 0)
      ensures old(Settled()) ==> PaintedHigher()
      ensures forall i :: i in items && i !in Shown() ==> XY(i) == old(XY(i))
    {
      if root != null { Paint(); }
    }

    method Paint()
      requires Valid() && root != null
      modifies items`x, items`y
      ensures Valid()
      ensures Stacked(Shown(), 0)
      ensures old(Settled()) ==> PaintedHigher()
      ensures forall i :: i in items && i !in Shown() ==> XY(i) == old(XY(i))
    {
      ghost var s := Shown();
      ghost var tops, laid := PaintStart(s);
      var bottom := PaintLevel(root, 0, 0, s, tops);
      Painted(s, tops, laid);
    }

    lemma ShownIsLaid()
      requires Rooted() && root != null && items == Items(shape)
      ensures root in items && Depth(shape, root) == 0 && Shown() == Laid(root, 0)
    {
      assert Branch(shape, root) == shape;
    }

    lemma PaintStart(s: seq<Item>) returns (tops: seq<int>, laid: seq<int>)
      requires Valid() && root != null && s == Shown()
      ensures root in items && Depth(shape, root) == 0 && s == Laid(root, 0)
      ensures StepsDown(s, tops) && tops[0] == 0
      ensures Settled() ==> WereLower(s, tops, laid)
    {
      ShownIsLaid();
      tops := StackedTops(s, 0);
      laid := [];
      if Settled() { laid := SettledTops(s, tops); }
    }

    /** The items of `s` stand at `laid`, `TOP` lower than `tops`. */
    ghost predicate WereLower(s: seq<Item>, tops: seq<int>, laid: seq<int>)
      reads this`style, this`shape, s`x, s`y
    {
      AllPut(style, shape, s, laid) && |s| <= |tops| && forall k :: 0 <= k < |s| ==> laid[k] == tops[k] + TOP
    }

    twostate lemma Painted(s: seq<Item>, new tops: seq<int>, new laid: seq<int>)
      requires unchanged(this`shape, this`items, this`root, this`style, this`dirty, this`freed, this`lineHeight)
      requires unchanged(this`curItem, this`shiftItem, this`selectItem)
      requires unchanged(items`children, items`parent, items`collapsed, items`height)
      requires old(Valid()) && s == Shown() && AllPut(style, shape, s, tops) && StepsDown(s, tops) && tops[0] == 0
      requires old(Settled()) ==> old(WereLower(s, tops, laid))
      ensures Valid() && Stacked(s, 0)
      ensures old(Settled()) ==> PaintedHigher()
    {
      ShownPresent();
      assert Linked();
      PutStacked(s, tops);
      if !dirty { StackedRises(s, 0); }
      if old(Settled()) { PutHigher(s, tops, laid); }
    }

    lemma PutStacked(s: seq<Item>, tops: seq<int>)
      requires AllPut(style, shape, s, tops) && StepsDown(s, tops)
      ensures Stacked(s, tops[0])
    {
      forall k | 0 <= k < |s| ensures StackedAt(s, tops[0], k) {
        assert XY(s[k]).1 == tops[k];
        if k > 0 { assert StepDown(s, tops, k - 1) && XY(s[k - 1]).1 == tops[k - 1]; }
      }
    }

    twostate lemma PutHigher(s: seq<Item>, new tops: seq<int>, new laid: seq<int>)
      requires unchanged(this`shape, this`items, this`root, this`style)
      requires unchanged(items`collapsed)
      requires items == Items(shape) && s == Shown() && AllPut(style, shape, s, tops) && old(WereLower(s, tops, laid))
      ensures PaintedHigher()
    {
      forall i | i in items && i in s ensures i.x == old(i.x) && i.y == old(i.y) - TOP {
        var k :| 0 <= k < |s| && s[k] == i;
        assert XY(s[k]) == PutPlace(style, shape, s[k], tops[k]);
        assert old(XY(s[k])) == PutPlace(style, shape, s[k], laid[k]);
      }
    }

    twostate predicate PaintedHigher()
      requires items == Items(shape) && unchanged(this`items)
      reads this, items`collapsed, items`x, items`y
    {
      forall i :: i in items && i in Shown() ==> i.x == old(i.x) && i.y == old(i.y) - 2
    }

    /** Where the rows of a settled layout are: `TOP` lower than rows stacked from 0. */
    lemma SettledTops(s: seq<Item>, tops: seq<int>) returns (laid: seq<int>)
      requires Valid() && s == Shown() && Settled() && StepsDown(s, tops) && tops[0] == 0
      ensures WereLower(s, tops, laid)
    {
      SettledStacked();
      laid := seq(|s|, k requires 0 <= k < |s| => tops[k] + TOP);
      forall k | 0 <= k < |s| ensures XY(s[k]) == PutPlace(style, shape, s[k], laid[k]) {
        StackedTop(s, TOP, tops, k);
        SettledPut(s, k);
      }
    }

    lemma SettledPut(s: seq<Item>, k: nat)
      requires items == Items(shape) && s == Shown() && Settled() && k < |s|
      ensures XY(s[k]) == PutPlace(style, shape, s[k], s[k].y)
    {
      PlanRow(Wants(style, shape, s), TOP, lineHeight, style.variableRows, k);
      assert s[k].Place() == LayoutFrom(lineHeight).rows[k];
    }

    lemma {:induction false} StackedTop(s: seq<Item>, top: int, tops: seq<int>, k: nat)
      requires k < |s| && Stacked(s, top) && StepsDown(s, tops) && tops[0] == 0
      ensures s[k].y == tops[k] + top
    {
      assert StackedAt(s, top, k);
      if k > 0 {
        StackedTop(s, top, tops, k - 1);
        assert StepDown(s, tops, k - 1);
      }
    }

    // ---------------------------------------------------------------- sorting, styles, idle time

    /** The text by which an item is sorted: that of the main column when no column is given. */
    function SortText(i: Item, column: int): string {
      i.GetText(if column < 0 then mainColumn else column)
    }

    /** May `a` stand before `b`: the order of their texts, reversed if a column is given. */
    predicate InPlace(a: Item, b: Item, column: int, reverse: bool) {
      if column >= 0 && reverse then AtMost(SortText(b, column), SortText(a, column))
      else AtMost(SortText(a, column), SortText(b, column))
    }

    ghost predicate SortedBy(s: seq<Item>, column: int, reverse: bool) {
      forall j, k :: 0 <= j < k < |s| ==> InPlace(s[j], s[k], column, reverse)
    }

    /** What the order is: by the texts of the column asked for, or of the main column when none is given, upwards or,
        if a column is given, downwards on demand. */
    lemma SortedMeans(s: seq<Item>, column: int, reverse: bool, j: nat, k: nat)
      requires SortedBy(s, column, reverse) && j < k < |s|
      ensures var c := if column < 0 then mainColumn else column;
              var t := if c < |s[j].texts| then s[j].texts[c] else "";
              var u := if c < |s[k].texts| then s[k].texts[c] else "";
              var low, high := if column >= 0 && reverse then u else t, if column >= 0 && reverse then t else u;
              low <= high || exists n :: 0 <= n < |low| && n < |high| && low[..n] == high[..n] && low[n] < high[n]
    {
      assert InPlace(s[j], s[k], column, reverse);
      AtMostIs(SortText(s[j], column), SortText(s[k], column));
      AtMostIs(SortText(s[k], column), SortText(s[j], column));
    }

    /** Puts `i` into a sorted list. */
    method InsertSorted(s: seq<Item>, i: Item, column: int, reverse: bool) returns (r: seq<Item>)
      requires SortedBy(s, column, reverse)
      ensures SortedBy(r, column, reverse) && multiset(r) == multiset(s) + multiset{i}
    {
      var k := |s|;
      while k > 0 && !InPlace(s[k - 1], i, column, reverse)
        invariant 0 <= k <= |s| && forall j :: k <= j < |s| ==> InPlace(i, s[j], column, reverse)
      {
        InPlaceTotal(s[k - 1], i, column, reverse);
        k := k - 1;
      }
      r := s[..k] + [i] + s[k..];
      InsertedSorted(s, k, i, column, reverse);
      InsertedBag(s, k, i);
    }

    lemma InsertedBag(s: seq<Item>, k: nat, i: Item)
      requires k <= |s|
      ensures multiset(s[..k] + [i] + s[k..]) == multiset(s) + multiset{i}
    {
      assert s == s[..k] + s[k..];
    }

    lemma InsertedSorted(s: seq<Item>, k: nat, i: Item, column: int, reverse: bool)
      requires SortedBy(s, column, reverse) && k <= |s|
      requires k > 0 ==> InPlace(s[k - 1], i, column, reverse)
      requires forall j :: k <= j < |s| ==> InPlace(i, s[j], column, reverse)
      ensures SortedBy(s[..k] + [i] + s[k..], column, reverse)
    {
      var r := s[..k] + [i] + s[k..];
      forall a, b | 0 <= a < b < |r| ensures InPlace(r[a], r[b], column, reverse) {
        var x, y := if a < k then a else a - 1, if b < k then b else b - 1;
        if b == k {
          if a < k - 1 { InPlaceTransitive(s[a], s[k - 1], i, column, reverse); }
        } else if a != k {
          assert InPlace(s[x], s[y], column, reverse);
        }
      }
    }

    lemma InPlaceTotal(a: Item, b: Item, column: int, reverse: bool)
      ensures InPlace(a, b, column, reverse) || InPlace(b, a, column, reverse)
    {
      AtMostTotal(SortText(a, column), SortText(b, column));
    }

    lemma InPlaceTransitive(a: Item, b: Item, c: Item, column: int, reverse: bool)
      requires InPlace(a, b, column, reverse) && InPlace(b, c, column, reverse)
      ensures InPlace(a, c, column, reverse)
    {
      var x, y, z := SortText(a, column), SortText(b, column), SortText(c, column);
      if column >= 0 && reverse { AtMostTransitive(z, y, x); } else { AtMostTransitive(x, y, z); }
    }

    /** A sorted list of the same items. */
    method Sorted(s: seq<Item>, column: int, reverse: bool) returns (r: seq<Item>)
      ensures SortedBy(r, column, reverse) && multiset(r) == multiset(s)
    {
      r := [];
      var n := 0;
      while n < |s|
        invariant n <= |s| && SortedBy(r, column, reverse) && multiset(r) == multiset(s[..n])
      {
        r := InsertSorted(r, s[n], column, reverse);
        assert s[..n + 1] == s[..n] + [s[n]];
        n := n + 1;
      }
      assert s[..n] == s;
    }

    /** The children of `item` in the order of their texts; each keeps its own children. */
    method SortChildren(item: Item, column: int, reverse: bool)
      requires Valid() && item in items
      modifies this`dirty, this`shape, item`children
      ensures Valid() && items == old(items)
      ensures multiset(item.children) == multiset(old(item.children))
      ensures |item.children| > 1 ==> SortedBy(item.children, column, reverse)
      ensures shape == Rearrange(old(shape), item, item.children)
      ensures dirty == (old(dirty) || |item.children| > 1)
    {
      assert LinkedAt(item);
      if |item.children| > 1 {
        dirty := true;
        var order := Sorted(item.children, column, reverse);
        SameMembers(shape, item, order);
        PermuteChildren(shape, item, order);
        SameRoot(shape, Rearrange(shape, item, order));
        item.children := order;
        shape := Rearrange(shape, item, order);
        Relinked(item, order);
      } else {
        WholeRearrange(shape, item);
      }
    }

    lemma SameMembers(f: Forest<Item>, p: Item, order: seq<Item>)
      requires Distinct(f) && p in Items(f) && multiset(order) == multiset(ChildrenOf(f, p))
      ensures NoDup(order) && |order| == |ChildrenOf(f, p)|
      ensures forall c :: c in order <==> c in ChildrenOf(f, p)
    {
      KidsInside(f, p);
      RootsAreItems(KidsOf(f, p));
      SameBag(ChildrenOf(f, p), order);
    }

    /** A change of the selection mode takes all highlights away. */
    method SetWindowStyle(styles: Style)
      requires Valid()
      modifies this`style, this`dirty, this`selectItem, items`hilight
      ensures Valid() && style == styles && dirty
      ensures Highlighted() == if styles.multiple != old(style.multiple) then {} else old(Highlighted())
      ensures selectItem ==
              if styles.multiple != old(style.multiple) then Unless(old(selectItem), old(Highlighted()))
              else old(selectItem)
    {
      if styles.multiple != style.multiple { UnselectAll(); }
      style := styles;
      dirty := true;
    }

    /** After all changes a layout pass, if one is due; refreshing the screen is left to `OnPaint`. */
    method OnIdle()
      requires Valid()
      modifies this`dirty, this`lineHeight, items`x, items`y, items`height
      ensures Valid() && !dirty
      ensures old(dirty) ==> Covered()
      ensures !old(dirty) ==> lineHeight == old(lineHeight) && forall i :: i in items ==> i.Place() == old(i.Place())
    {
      if !dirty { return; }
      dirty := false;
      ghost var plan := CalculatePositions();
    }
  }

  /** A forest of items without children is walked from left to right. */
  lemma {:induction false} FlatWalk<T>(f: Forest<T>, open: set<T>)
    requires Distinct(f)
    requires forall x :: x in Items(f) && x in Roots(f) ==> KidsOf(f, x) == Nil
    ensures Walk(f, open) == Roots(f)
  {
    if f.Cons? {
      assert f.item in Roots(f) && f.kids == Nil;
      forall x | x in Items(f.rest) && x in Roots(f.rest) ensures KidsOf(f.rest, x) == Nil {
        assert x in Roots(f) && KidsOf(f, x) == KidsOf(f.rest, x);
      }
      FlatWalk(f.rest, open);
    }
  }

  /** The children of `root` are the leaves `s`. */
  ghost predicate Leaves(w: Window, root: Item, s: seq<Item>)
    reads root`children, s`children, w`items
  {
    root in w.items && root !in s && root.children == s && forall i :: i in s ==> i in w.items && i.children == []
  }

  method AddLeaf(w: Window, root: Item, texts: seq<string>, ghost s: seq<Item>) returns (leaf: Item)
    requires w.Valid() && Leaves(w, root, s)
    modifies w`dirty, w`shape, w`items, w.items`children
    ensures w.Valid() && fresh(leaf) && w.items == old(w.items) + {leaf} && leaf.texts == texts
    ensures Leaves(w, root, s + [leaf])
  {
    leaf := w.DoInsertItem(root, |root.children|, texts);
    assert root.children == s + [leaf];
  }

  /** A window of rows of variable height with leaves A, B and C under its root; A needs 256 pixels. */
  method ThreeRows() returns (w: Window, a: Item, b: Item, c: Item)
    ensures w.Valid() && w.style.variableRows && !w.style.hideRoot && fresh(w)
    ensures w.root != null && fresh(w.items) && Leaves(w, w.root, [a, b, c]) && w.EmptyRow(a)
    ensures forall n :: w.answers(n)
  {
    w, a := OneRow();
    b := AddLeaf(w, w.root, ["B"], [a]);
    c := AddLeaf(w, w.root, ["C"], [a] + [b]);
    assert [a] + [b] + [c] == [a, b, c];
  }

  method OneRow() returns (w: Window, a: Item)
    ensures w.Valid() && w.style.variableRows && !w.style.hideRoot && fresh(w)
    ensures w.root != null && fresh(w.items) && Leaves(w, w.root, [a]) && w.EmptyRow(a) && forall n :: w.answers(n)
  {
    var metrics := Metrics(text => if text == "A" then 233 else 10, 0, 0, 0, 0, 0, 0, 0, letter => letter);
    w := new Window(metrics, 0, Style(false, true, true, false, false), event => true);
    var root := w.AddRoot(["root"]);
    RootAlone(w);
    a := AddLeaf(w, root, ["A"], []);
    assert [] + [a] == [a];
    LargeNeed(w, a);
  }

  lemma RootAlone(w: Window)
    requires w.Linked() && w.Rooted() && w.root != null && w.shape.kids == Nil
    ensures w.root in w.items && w.root.children == []
  {
    assert w.LinkedAt(w.root);
  }

  lemma LargeNeed(w: Window, a: Item)
    requires a.texts == ["A"] && w.mainColumn == 0 && w.metrics.textHeight("A") == 233 && w.metrics.imgHeight == 0
    requires w.style.variableRows
    ensures w.EmptyRow(a)
  {
    TenthIsQuotient(233);
    assert a.GetText(0) == "A";
    assert w.Need(a) == 256;
    ByteIsRemainder(256);
  }

  /** A and B are next to each other in the shown order, but a range from A to B goes the wrong way round. */
  ghost predicate AskedWrong(w: Window, a: Item, b: Item, c: Item)
    reads w`root, w`shape, w`items, w`style, w.items`collapsed
  {
    a != b && w.root != null && w.Shown() == [w.root, a, b, c] && w.WrongWay(b, a) && Range(w.Shown(), a, b) == {a, b}
  }

  /** The same window with its root expanded. */
  method ExpandedRows() returns (w: Window, a: Item, b: Item, c: Item)
    ensures w.Valid() && fresh(w) && fresh(w.items) && a in w.items && b in w.items
    ensures AskedWrong(w, a, b, c) && forall n :: w.answers(n)
  {
    w, a, b, c := ThreeRows();
    w.Expand(w.root);
    ThreeShown(w, w.root, a, b, c);
  }

  /** A range that goes wrong: the row of A is empty, so that from A to B the selection starts at B and goes
      round over C and the root.  User code allows everything. */
  method WrongWayRange() returns (w: Window, a: Item, b: Item, c: Item)
    ensures w.Valid()
    ensures AskedWrong(w, a, b, c) && w.Highlighted() != {a, b}
  {
    w, a, b, c := ExpandedRows();
    SelectWrong(w, a, b, c);
  }

  method SelectWrong(w: Window, a: Item, b: Item, c: Item)
    requires w.Valid() && AskedWrong(w, a, b, c) && w.answers(w.asked) && a in w.items && b in w.items
    modifies w`asked, w`selectItem, w`lineHeight, w.items`hilight, w.items`x, w.items`y, w.items`height
    ensures w.Valid() && AskedWrong(w, a, b, c) && w.Highlighted() != {a, b}
  {
    var ok := w.SelectItem(b, a, true);
    GoneWrong(w, a, b, c);
  }

  lemma GoneWrong(w: Window, a: Item, b: Item, c: Item)
    requires AskedWrong(w, a, b, c) && w.RangeOutcome(b, a)
    ensures w.Highlighted() != {a, b}
  {
  }

  lemma ThreeShown(w: Window, root: Item, a: Item, b: Item, c: Item)
    requires w.Linked() && w.Rooted() && w.root == root && !w.style.hideRoot && w.style.variableRows
    requires !root.collapsed && Leaves(w, root, [a, b, c]) && w.EmptyRow(a)
    ensures a != b && w.Shown() == [root, a, b, c] && w.WrongWay(b, a) && Range(w.Shown(), a, b) == {a, b}
  {
    LeavesShown(w, root, [a, b, c]);
    var s := w.Shown();
    assert s == [root, a, b, c];
    OnlyPlace(s, a, 1);
    OnlyPlace(s, b, 2);
    assert s[1] != s[2];
    assert s[1..3] == [a, b];
  }

  lemma LeavesShown(w: Window, root: Item, s: seq<Item>)
    requires w.Linked() && w.Rooted() && w.root == root && !w.style.hideRoot && !root.collapsed && Leaves(w, root, s)
    ensures w.Shown() == [root] + s && NoDup(w.Shown())
  {
    assert w.LinkedAt(root);
    forall i | i in s && i in Items(w.shape.kids) ensures KidsOf(w.shape.kids, i) == Nil {
      assert w.LinkedAt(i);
    }
    FlatWalk(w.shape.kids, w.Open());
    assert Walk(w.shape.rest, w.Open()) == [];
    assert w.Shown() == [root] + s;
    WalkNoDup(w.shape, w.Open());
  }
}
