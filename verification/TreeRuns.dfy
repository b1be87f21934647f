/** Runs of the tree list: any list of operations, one after the other.  What each operation does is a relation on
    snapshots of the window; what holds over whole runs is proved from that relation. */
module TreeRuns {
  import opened Basics
  import opened OrderedForest
  import opened ForestWalk
  import opened ForestEdit
  import opened TreeList

  /** An operation.  Items are named by their places in the walk through the full tree; a place past its end names
      no item. */
  datatype Op =
    | AddRoot(texts: seq<string>) | Insert(parent: nat, previous: nat, texts: seq<string>)
    | Remove(item: nat) | RemoveBelow(item: nat) | RemoveAll
    | Expand(item: nat) | Collapse(item: nat) | ExpandAll(item: nat) | Reveal(item: nat)
    | Sort(item: nat, column: int, reverse: bool)
    | Select(item: nat, unselectOthers: bool) | SelectTo(item: nat, last: nat, unselectOthers: bool)
    | SelectFromShift(item: nat, unselectOthers: bool) | Unselect
    | SetCurrent(item: nat) | SetShift(shiftDown: bool)
    | Restyle(styles: Style) | Idle | Paint

  /** What an operation can change, apart from rows. */
  datatype Snapshot = Snapshot(
    shape: Forest<Item>, freed: set<Item>, cur: Item?, shift: Item?, sel: Item?,
    lit: set<Item>,       // the highlighted items
    expanded: set<Item>,
    marked: set<Item>,    // items with a plus in any case
    style: Style, asked: nat)

  ghost function Marked(w: Window): set<Item>
    reads w`items, w.items`hasPlus
  {
    set i | i in w.items && i.hasPlus
  }

  ghost function Now(w: Window): Snapshot
    reads w, w.items`hilight, w.items`collapsed, w.items`hasPlus
  {
    Snapshot(w.shape, w.freed, w.curItem, w.shiftItem, w.selectItem, w.Highlighted(), w.Expanded(), Marked(w),
             w.style, w.asked)
  }

  /** The item at a place. */
  ghost function Nth<T>(f: Forest<T>, n: nat): (i: Option<T>)
    ensures i.Some? ==> i.value in Items(f)
  {
    WalkItems(f, Items(f));
    if n < |Walk(f, Items(f))| then Some(Walk(f, Items(f))[n]) else None
  }

  // ------------------------------------------------------------------ what the operations do

  /** Exactly the selected item, if any, is highlighted. */
  ghost predicate Single(s: Snapshot) {
    s.lit == SelSet(s.sel)
  }

  ghost predicate HasPlus(s: Snapshot, i: Item)
    requires i in Items(s.shape)
  {
    i in s.marked || KidsOf(s.shape, i).Cons?
  }

  /** Everything of `branch` that has a plus is expanded. */
  ghost predicate OpenedIn(s: Snapshot, branch: set<Item>, expanded: set<Item>) {
    forall x :: x in branch && x in Items(s.shape) && HasPlus(s, x) ==> x in expanded
  }

  /** A first item, open if it is hidden. */
  ghost predicate Planted(s: Snapshot, t: Snapshot, texts: seq<string>) {
    && t.shape.Cons? && t.shape.kids.Nil? && t.shape.rest.Nil?
    && var r := t.shape.item;
       && r.texts == texts && r !in s.freed
       && t == s.(shape := t.shape, cur := if s.style.hideRoot then null else s.cur,
                  expanded := if s.style.hideRoot then {r} else {}, marked := if s.style.hideRoot then {r} else {})
  }

  /** A new leaf at a place among the children of `p`; nothing else changes. */
  ghost predicate Inserted(s: Snapshot, t: Snapshot, p: Item, previous: nat, texts: seq<string>)
    requires p in Items(s.shape) && previous <= |ChildrenOf(s.shape, p)|
  {
    var c := ChildrenOf(s.shape, p);
    exists x {:trigger c[..previous] + [x]} :: x in Items(t.shape) && x.texts == texts && x !in Items(s.shape) + s.freed
      && t == s.(shape := Rearrange(s.shape, p, c[..previous] + [x] + c[previous..]))
  }

  /** The items `gone` are freed and no cursor or highlight stays on them; if the selected item is not one of them
      user code is not asked and the selection stays, and if user code allows what it is asked a single selection
      stays single. */
  ghost predicate Freed(w: Window, s: Snapshot, t: Snapshot, gone: set<Item>) {
    && t.freed == s.freed + gone && t.shift == Unless(s.shift, gone)
    && t.expanded == s.expanded - gone && t.marked == s.marked - gone && t.style == s.style
    && s.asked <= t.asked
    && (Unless(s.sel, gone) == s.sel ==> t.sel == s.sel && t.lit == s.lit - gone && t.asked == s.asked)
    && (w.Granted(s.asked, t.asked) && Single(s) ==> Single(t))
  }

  /** `i` goes with its branch; the current item moves to the next sibling if it was `i`. */
  ghost predicate Removed(w: Window, s: Snapshot, t: Snapshot, i: Item, p: Item)
    requires i in Items(s.shape) && p in Items(s.shape)
  {
    && t.shape == Rearrange(s.shape, p, Without(ChildrenOf(s.shape, p), i))
    && Freed(w, s, t, Items(Branch(s.shape, i)))
    && Opt(t.cur) == (if s.cur == i then NextSibling(s.shape, i) else Opt(Unless(s.cur, Items(KidsOf(s.shape, i)))))
  }

  ghost predicate RemovedBelow(w: Window, s: Snapshot, t: Snapshot, i: Item)
    requires i in Items(s.shape)
  {
    && t.shape == Rearrange(s.shape, i, [])
    && Freed(w, s, t, Items(KidsOf(s.shape, i)))
    && t.cur == Unless(s.cur, Items(KidsOf(s.shape, i)))
  }

  /** More is expanded, only in `branch`, as user code allows it. */
  ghost predicate Widened(s: Snapshot, t: Snapshot, branch: set<Item>) {
    && t == s.(expanded := t.expanded, asked := t.asked)
    && s.expanded <= t.expanded <= s.expanded + branch && s.asked <= t.asked
  }

  /** What a range may meet from `first` on. */
  ghost function Ahead(s: Snapshot, first: Item): seq<Item>
    requires first in Items(s.shape)
  {
    var open := s.expanded + (if s.shape.Cons? && s.style.hideRoot then {s.shape.item} else {});
    Walk(Branch(s.shape, first), s.expanded) + (After(s.shape, first, open, true) + Walk(s.shape, s.expanded))
  }

  /** `lit` is what a range highlights from one of its ends. */
  ghost predicate RangeOf(s: Snapshot, item: Item, last: Item, lit: set<Item>) {
    && item in Items(s.shape) && last in Items(s.shape)
    && (lit == Elements(UpTo(Ahead(s, last), item)) || lit == Elements(UpTo(Ahead(s, item), last)))
  }

  /** A selection: refused, of a range from one of the two ends, of one item, or of none. */
  ghost predicate Selected(w: Window, s: Snapshot, t: Snapshot, item: Item?, last: Item?, unselectOthers: bool) {
    if !w.answers(s.asked) then t == s.(asked := s.asked + 1)
    else if item != null && last != null && item != last then
      && t == s.(asked := s.asked + 1, lit := t.lit,
                 sel := if unselectOthers && !s.style.multiple then null else Unless(s.sel, s.lit))
      && RangeOf(s, item, last, t.lit)
    else if item == null then
      t == s.(asked := s.asked + 1, lit := {},
              sel := if unselectOthers && !s.style.multiple then null else Unless(s.sel, s.lit))
    else
      var kept := if !unselectOthers then s.lit else if s.style.multiple then {} else s.lit - SelSet(s.sel);
      t == s.(asked := s.asked + 1, lit := if item in kept then kept - {item} else kept + {item},
              sel := if !unselectOthers then s.sel else if item in kept then null else item)
  }

  ghost function Ref(i: Option<Item>): Item? {
    match i case None => null case Some(x) => x
  }

  ghost predicate Effect(w: Window, op: Op, s: Snapshot, t: Snapshot) {
    match op
    case AddRoot(texts) => if s.shape.Cons? then t == s else Planted(s, t, texts)
    case Insert(n, previous, texts) =>
      (match Nth(s.shape, n)
       case None => t == s
       case Some(p) => if previous > |ChildrenOf(s.shape, p)| then t == s else Inserted(s, t, p, previous, texts))
    case Remove(n) =>
      (match Nth(s.shape, n)
       case None => t == s
       case Some(i) =>
         var p := ParentOf(s.shape, i);
         if p.None? then t == s else p.value in Items(s.shape) && Removed(w, s, t, i, p.value))
    case RemoveBelow(n) => (match Nth(s.shape, n) case None => t == s case Some(i) => RemovedBelow(w, s, t, i))
    case RemoveAll =>
      t == if s.shape.Nil? then s
           else s.(shape := Nil, freed := s.freed + Items(s.shape), cur := null, shift := null, sel := null,
                   lit := {}, expanded := {}, marked := {})
    case Expand(n) =>
      (match Nth(s.shape, n)
       case None => t == s
       case Some(i) =>
         if i in s.expanded || !HasPlus(s, i) then t == s
         else t == s.(asked := s.asked + 1, expanded := s.expanded + if w.answers(s.asked) then {i} else {}))
    case Collapse(n) =>
      (match Nth(s.shape, n)
       case None => t == s
       case Some(i) =>
         if i !in s.expanded || !HasPlus(s, i) then t == s
         else t == s.(asked := s.asked + 1, expanded := s.expanded - if w.answers(s.asked) then {i} else {}))
    case ExpandAll(n) =>
      (match Nth(s.shape, n)
       case None => t == s
       case Some(i) =>
         && Widened(s, t, Items(Branch(s.shape, i)))
         && (w.Granted(s.asked, t.asked) <==> OpenedIn(s, Items(Branch(s.shape, i)), t.expanded)))
    case Reveal(n) =>
      (match Nth(s.shape, n)
       case None => t == s
       case Some(i) =>
         && Widened(s, t, Ancestors(s.shape, i))
         && (w.Granted(s.asked, t.asked) <==> i in Walk(s.shape, t.expanded)))
    case Sort(n, column, reverse) =>
      (match Nth(s.shape, n)
       case None => t == s
       case Some(i) =>
         && i in Items(t.shape) && t == s.(shape := Rearrange(s.shape, i, ChildrenOf(t.shape, i)))
         && multiset(ChildrenOf(t.shape, i)) == multiset(ChildrenOf(s.shape, i))
         && (|ChildrenOf(t.shape, i)| > 1 ==> w.SortedBy(ChildrenOf(t.shape, i), column, reverse)))
    case Select(n, unselectOthers) => Selected(w, s, t, Ref(Nth(s.shape, n)), null, unselectOthers)
    case SelectTo(n, m, unselectOthers) =>
      Selected(w, s, t, Ref(Nth(s.shape, n)), Ref(Nth(s.shape, m)), unselectOthers)
    case SelectFromShift(n, unselectOthers) => Selected(w, s, t, Ref(Nth(s.shape, n)), s.shift, unselectOthers)
    case Unselect => t == s.(sel := null, lit := s.lit - SelSet(s.sel))
    case SetCurrent(n) => t == s.(cur := Ref(Nth(s.shape, n)))
    case SetShift(shiftDown) =>
      t == s.(shift := if s.style.multiple && shiftDown then (if s.shift == null then s.cur else s.shift) else null)
    case Restyle(styles) =>
      t == if styles.multiple != s.style.multiple then s.(style := styles, lit := {}, sel := Unless(s.sel, s.lit))
           else s.(style := styles)
    case Idle => t == s
    case Paint => t == s
  }

  // ------------------------------------------------------------------ performing an operation

  /** The item at a place, or nothing. */
  method NthItem(w: Window, n: nat) returns (i: Item?)
    requires w.Linked() && w.Rooted()
    ensures w.Present(i) && Opt(i) == Nth(w.shape, n)
  {
    ghost var f := w.shape;
    WalkItems(f, Items(f));
    i := w.root;
    var k := 0;
    while i != null && k < n
      invariant k <= n && w.shape == f && Opt(i) == Nth(f, k) && (i == null ==> Nth(f, n) == None)
    {
      NextIsSuccessor(f, Items(f), k);
      i := w.GetNext(i, true);
      k := k + 1;
    }
  }

  /** What an operation keeps, and what it does. */
  twostate predicate Done(w: Window, op: Op)
    reads w, w.items
  {
    w.Valid() && Effect(w, op, old(Now(w)), Now(w))
  }

  /** Only expand flags, and how many events there were, changed. */
  twostate lemma NowExpanded(w: Window)
    requires unchanged(w`shape, w`items, w`freed, w`curItem, w`shiftItem, w`selectItem, w`style)
    requires unchanged(w.items`hilight) && unchanged(w.items`hasPlus)
    ensures Now(w) == old(Now(w)).(expanded := w.Expanded(), asked := w.asked)
  {
    assert Marked(w) == old(Marked(w)) && w.Highlighted() == old(w.Highlighted());
  }

  /** Only the selection, and how many events there were, changed. */
  twostate lemma NowSelected(w: Window)
    requires unchanged(w`shape, w`items, w`freed, w`curItem, w`shiftItem, w`style)
    requires unchanged(w.items`collapsed) && unchanged(w.items`hasPlus)
    ensures Now(w) == old(Now(w)).(sel := w.selectItem, lit := w.Highlighted(), asked := w.asked)
  {
    assert Marked(w) == old(Marked(w)) && w.Expanded() == old(w.Expanded());
  }

  /** Only the shape changed. */
  twostate lemma NowSorted(w: Window)
    requires unchanged(w`items, w`freed, w`curItem, w`shiftItem, w`selectItem, w`style, w`asked)
    requires unchanged(w.items`hilight) && unchanged(w.items`collapsed) && unchanged(w.items`hasPlus)
    ensures Now(w) == old(Now(w)).(shape := w.shape)
  {
    assert Marked(w) == old(Marked(w)) && w.Expanded() == old(w.Expanded()) && w.Highlighted() == old(w.Highlighted());
  }

  /** Items went, and the flags of the others are as they were. */
  twostate lemma NowFewer(w: Window, new gone: set<Item>)
    requires w.items == old(w.items) - gone && unchanged(w.items`collapsed) && unchanged(w.items`hasPlus)
    ensures w.Expanded() == old(w.Expanded()) - gone && Marked(w) == old(Marked(w)) - gone
    ensures old(w.Highlighted()) * w.items == old(w.Highlighted()) - gone
  {
  }

  /** A new item came, collapsed and without marks. */
  twostate lemma NowMore(w: Window, new x: Item)
    requires w.items == old(w.items) + {x} && fresh(x) && x.collapsed && !x.hilight && !x.hasPlus
    requires unchanged(w`freed, w`curItem, w`shiftItem, w`selectItem, w`style, w`asked)
    requires unchanged(old(w.items)`hilight) && unchanged(old(w.items)`collapsed) && unchanged(old(w.items)`hasPlus)
    ensures Now(w) == old(Now(w)).(shape := w.shape)
  {
    assert Marked(w) == old(Marked(w)) && w.Expanded() == old(w.Expanded()) && w.Highlighted() == old(w.Highlighted());
  }

  method PerformAddRoot(w: Window, texts: seq<string>)
    requires w.Valid()
    modifies w, w.items
    ensures Done(w, Op.AddRoot(texts)) && fresh(w.items - old(w.items))
  {
    var r := w.AddRoot(texts);
  }

  method PerformInsert(w: Window, n: nat, previous: nat, texts: seq<string>)
    requires w.Valid()
    modifies w, w.items
    ensures Done(w, Op.Insert(n, previous, texts)) && fresh(w.items - old(w.items))
  {
    var p := NthItem(w, n);
    if p != null {
      assert w.LinkedAt(p);
      if previous <= |p.children| {
        var x := w.DoInsertItem(p, previous, texts);
        NowMore(w, x);
      }
    }
  }

  method PerformRemove(w: Window, n: nat)
    requires w.Valid()
    modifies w, w.items
    ensures Done(w, Op.Remove(n)) && fresh(w.items - old(w.items))
  {
    var i := NthItem(w, n);
    if i != null {
      ParentLinks(w, i);
      if i == w.root {
        w.Delete(i);
        NowFewer(w, {});
      } else {
        RemoveItem(w, i, i.parent);
      }
    }
  }

  method RemoveItem(w: Window, i: Item, p: Item)
    requires w.Valid() && i in w.items && i != w.root && i.parent == p && p in w.items
    requires p.children == ChildrenOf(w.shape, p)
    modifies w, w.items
    ensures w.Valid() && fresh(w.items - old(w.items))
    ensures Removed(w, old(Now(w)), Now(w), i, p)
  {
    ghost var gone := Items(Branch(w.shape, i));
    w.Delete(i);
    NowFewer(w, gone);
    FreedIs(w, gone);
  }

  /** What deletion promises of the window holds of its snapshots. */
  twostate lemma FreedIs(w: Window, new gone: set<Item>)
    requires w.Expanded() == old(w.Expanded()) - gone && Marked(w) == old(Marked(w)) - gone
    requires old(w.Highlighted()) * w.items == old(w.Highlighted()) - gone && unchanged(w`style)
    requires w.freed == old(w.freed) + gone && w.shiftItem == Unless(old(w.shiftItem), gone) && old(w.asked) <= w.asked
    requires Unless(old(w.selectItem), gone) == old(w.selectItem) ==> w.SelectionKept()
    requires w.Granted(old(w.asked), w.asked) && old(w.SingleSelection()) ==> w.SingleSelection()
    ensures Freed(w, old(Now(w)), Now(w), gone)
  {
  }

  /** The links of an item and its parent are those of the shape; only the root has no parent. */
  lemma ParentLinks(w: Window, i: Item)
    requires w.Linked() && w.Rooted() && i in w.items
    ensures i == w.root <==> ParentOf(w.shape, i) == None
    ensures i != w.root ==>
              && i.parent != null && i.parent in w.items && ParentOf(w.shape, i) == Some(i.parent)
              && i.parent.children == ChildrenOf(w.shape, i.parent)
  {
    assert w.LinkedAt(i);
    ParentFacts(w.shape, i);
    if i != w.root {
      w.NotRoot(i);
      assert w.LinkedAt(i.parent);
    } else {
      assert Roots(w.shape) == [i] + Roots(w.shape.rest);
    }
  }

  method PerformRemoveBelow(w: Window, n: nat)
    requires w.Valid()
    modifies w, w.items
    ensures Done(w, Op.RemoveBelow(n)) && fresh(w.items - old(w.items))
  {
    var i := NthItem(w, n);
    ghost var gone := if i == null then {} else Items(KidsOf(w.shape, i));
    w.DeleteChildren(i);
    NowFewer(w, gone);
    if i != null { FreedIs(w, gone); }
  }

  method PerformRemoveAll(w: Window)
    requires w.Valid()
    modifies w, w.items
    ensures Done(w, Op.RemoveAll) && fresh(w.items - old(w.items))
  {
    w.DeleteRoot();
  }

  method PerformExpand(w: Window, n: nat)
    requires w.Valid()
    modifies w, w.items
    ensures Done(w, Op.Expand(n)) && w.items == old(w.items)
  {
    var i := NthItem(w, n);
    if i != null {
      assert w.LinkedAt(i);
      w.Expand(i);
      NowExpanded(w);
    }
  }

  method PerformCollapse(w: Window, n: nat)
    requires w.Valid()
    modifies w, w.items
    ensures Done(w, Op.Collapse(n)) && w.items == old(w.items)
  {
    var i := NthItem(w, n);
    if i != null {
      assert w.LinkedAt(i);
      w.Collapse(i);
      NowExpanded(w);
    }
  }

  method PerformExpandAll(w: Window, n: nat)
    requires w.Valid()
    modifies w, w.items
    ensures Done(w, Op.ExpandAll(n)) && w.items == old(w.items)
  {
    var i := NthItem(w, n);
    if i != null {
      BranchItems(w.shape, i);
      KidsInside(w.shape, i);
      w.ExpandAll(i);
      NowExpanded(w);
      PlusIs(w, Items(Branch(w.shape, i)));
    }
  }

  /** The items of a branch that have a plus, in the window and in its snapshot. */
  lemma PlusIs(w: Window, branch: set<Item>)
    requires w.Linked() && branch <= w.items
    ensures w.Opened(branch) <==> OpenedIn(Now(w), branch, w.Expanded())
  {
    forall x | x in branch ensures x.HasPlus() <==> HasPlus(Now(w), x) { assert w.LinkedAt(x); }
  }

  method PerformReveal(w: Window, n: nat)
    requires w.Valid()
    modifies w, w.items
    ensures Done(w, Op.Reveal(n)) && w.items == old(w.items)
  {
    var i := NthItem(w, n);
    w.EnsureVisible(i);
    NowExpanded(w);
  }

  method PerformSort(w: Window, n: nat, column: int, reverse: bool)
    requires w.Valid()
    modifies w, w.items
    ensures Done(w, Op.Sort(n, column, reverse)) && w.items == old(w.items)
  {
    var i := NthItem(w, n);
    if i != null {
      assert w.LinkedAt(i);
      w.SortChildren(i, column, reverse);
      assert w.LinkedAt(i);
      NowSorted(w);
    }
  }

  method PerformSelect(w: Window, item: Item?, last: Item?, unselectOthers: bool)
    requires w.Valid() && w.Present(item) && w.Present(last)
    modifies w, w.items
    ensures w.Valid() && w.items == old(w.items)
    ensures Selected(w, old(Now(w)), Now(w), item, last, unselectOthers)
  {
    ghost var s := Now(w);
    var ok := w.SelectItem(item, last, unselectOthers);
    NowSelected(w);
    if ok && w.IsRange(item, last) {
      TaggedIs(w, s, item, last);
      assert Now(w).lit == w.Highlighted() == w.Tagged(item, last);
    }
  }

  /** What a range highlights, from the window and from a snapshot. */
  lemma TaggedIs(w: Window, s: Snapshot, item: Item, last: Item)
    requires w.Linked() && w.Rooted() && item in w.items && last in w.items
    requires s.shape == w.shape && s.expanded == w.Expanded() && s.style == w.style
    ensures RangeOf(s, item, last, w.Tagged(item, last))
  {
    AheadIs(w, s, item);
    AheadIs(w, s, last);
    var from, back := Ahead(s, item), Ahead(s, last);
    if last.y < item.y {
      assert w.Tagged(item, last) == Elements(UpTo(w.Ahead(last), item)) == Elements(UpTo(back, item));
    } else {
      assert w.Tagged(item, last) == Elements(UpTo(w.Ahead(item), last)) == Elements(UpTo(from, last));
    }
  }

  lemma AheadIs(w: Window, s: Snapshot, i: Item)
    requires w.Linked() && w.Rooted() && i in w.items
    requires s.shape == w.shape && s.expanded == w.Expanded() && s.style == w.style
    ensures w.Ahead(i) == Ahead(s, i)
  {
    var open := w.Expanded() + (if w.shape.Cons? && w.style.hideRoot then {w.shape.item} else {});
    assert w.Open() == open;
    assert w.VisibleBranch(i) == Walk(Branch(w.shape, i), w.Expanded());
    assert After(w.shape, i, w.Open(), true) == After(w.shape, i, open, true);
    assert w.Following(i) == After(w.shape, i, open, true) + Walk(w.shape, w.Expanded());
  }

  method PerformSelectOne(w: Window, n: nat, unselectOthers: bool)
    requires w.Valid()
    modifies w, w.items
    ensures Done(w, Op.Select(n, unselectOthers)) && w.items == old(w.items)
  {
    var item := NthItem(w, n);
    PerformSelect(w, item, null, unselectOthers);
  }

  method PerformSelectTo(w: Window, n: nat, m: nat, unselectOthers: bool)
    requires w.Valid()
    modifies w, w.items
    ensures Done(w, Op.SelectTo(n, m, unselectOthers)) && w.items == old(w.items)
  {
    var item := NthItem(w, n);
    var last := NthItem(w, m);
    PerformSelect(w, item, last, unselectOthers);
  }

  method PerformSelectFromShift(w: Window, n: nat, unselectOthers: bool)
    requires w.Valid()
    modifies w, w.items
    ensures Done(w, Op.SelectFromShift(n, unselectOthers)) && w.items == old(w.items)
  {
    var item := NthItem(w, n);
    PerformSelect(w, item, w.shiftItem, unselectOthers);
  }

  method PerformUnselect(w: Window)
    requires w.Valid()
    modifies w, w.items
    ensures Done(w, Op.Unselect) && w.items == old(w.items)
  {
    w.Unselect();
    w.OnlyHighlights();
    NowSelected(w);
  }

  method PerformSetCurrent(w: Window, n: nat)
    requires w.Valid()
    modifies w, w.items
    ensures Done(w, Op.SetCurrent(n)) && w.items == old(w.items)
  {
    var i := NthItem(w, n);
    w.SetCurrentItem(i);
  }

  method PerformSetShift(w: Window, shiftDown: bool)
    requires w.Valid()
    modifies w, w.items
    ensures Done(w, Op.SetShift(shiftDown)) && w.items == old(w.items)
  {
    w.SetShiftItem(shiftDown);
  }

  method PerformRestyle(w: Window, styles: Style)
    requires w.Valid()
    modifies w, w.items
    ensures Done(w, Op.Restyle(styles)) && w.items == old(w.items)
  {
    w.SetWindowStyle(styles);
  }

  method PerformIdle(w: Window)
    requires w.Valid()
    modifies w, w.items
    ensures Done(w, Op.Idle) && w.items == old(w.items)
  {
    w.OnIdle();
  }

  method PerformPaint(w: Window)
    requires w.Valid()
    modifies w, w.items
    ensures Done(w, Op.Paint) && w.items == old(w.items)
  {
    w.OnPaint();
  }

  method Perform(w: Window, op: Op)
    requires w.Valid()
    modifies w, w.items
    ensures Done(w, op) && fresh(w.items - old(w.items))
  {
    match op
    case AddRoot(texts) => PerformAddRoot(w, texts);
    case Insert(n, previous, texts) => PerformInsert(w, n, previous, texts);
    case Remove(n) => PerformRemove(w, n);
    case RemoveBelow(n) => PerformRemoveBelow(w, n);
    case RemoveAll => PerformRemoveAll(w);
    case Expand(n) => PerformExpand(w, n);
    case Collapse(n) => PerformCollapse(w, n);
    case ExpandAll(n) => PerformExpandAll(w, n);
    case Reveal(n) => PerformReveal(w, n);
    case Sort(n, column, reverse) => PerformSort(w, n, column, reverse);
    case Select(n, unselectOthers) => PerformSelectOne(w, n, unselectOthers);
    case SelectTo(n, m, unselectOthers) => PerformSelectTo(w, n, m, unselectOthers);
    case SelectFromShift(n, unselectOthers) => PerformSelectFromShift(w, n, unselectOthers);
    case Unselect => PerformUnselect(w);
    case SetCurrent(n) => PerformSetCurrent(w, n);
    case SetShift(shiftDown) => PerformSetShift(w, shiftDown);
    case Restyle(styles) => PerformRestyle(w, styles);
    case Idle => PerformIdle(w);
    case Paint => PerformPaint(w);
  }

  // ------------------------------------------------------------------ runs

  /** `ss` are the snapshots before, between and after the operations. */
  ghost predicate IsRun(w: Window, ops: seq<Op>, ss: seq<Snapshot>) {
    && |ss| == |ops| + 1
    && (forall k {:trigger StepAt(w, ops, ss, k)} :: 0 <= k < |ops| ==> StepAt(w, ops, ss, k))
    && (forall k :: 0 <= k < |ss| ==> Sane(ss[k]))
  }

  ghost predicate StepAt(w: Window, ops: seq<Op>, ss: seq<Snapshot>, k: nat)
    requires k < |ops| && |ss| == |ops| + 1
  {
    Effect(w, ops[k], ss[k], ss[k + 1])
  }

  /** A tree without an item twice or a freed one, and with cursors, highlights and flags on its own items. */
  ghost predicate Sane(s: Snapshot) {
    && Distinct(s.shape) && (s.shape.Cons? ==> s.shape.rest.Nil?) && Items(s.shape) !! s.freed
    && s.lit + s.expanded + s.marked + SelSet(s.cur) + SelSet(s.shift) + SelSet(s.sel) <= Items(s.shape)
  }

  lemma ValidIsSane(w: Window)
    requires w.Valid()
    ensures Sane(Now(w))
  {
  }

  /** Performs all operations; the snapshots are those of a run. */
  method Run(w: Window, ops: seq<Op>) returns (ghost ss: seq<Snapshot>)
    requires w.Valid()
    modifies w, w.items
    ensures w.Valid() && fresh(w.items - old(w.items))
    ensures IsRun(w, ops, ss) && ss[0] == old(Now(w)) && ss[|ops|] == Now(w)
  {
    ss := [Now(w)];
    ValidIsSane(w);
    var k := 0;
    assert ops[..0] == [];
    while k < |ops|
      invariant k <= |ops| && w.Valid() && fresh(w.items - old(w.items))
      invariant IsRun(w, ops[..k], ss) && ss[0] == old(Now(w)) && ss[k] == Now(w)
    {
      Perform(w, ops[k]);
      ValidIsSane(w);
      OneMore(w, ops, k, ss, Now(w));
      ss := ss + [Now(w)];
      k := k + 1;
    }
    assert ops[..k] == ops;
  }

  lemma OneMore(w: Window, ops: seq<Op>, k: nat, ss: seq<Snapshot>, t: Snapshot)
    requires k < |ops| && IsRun(w, ops[..k], ss) && Effect(w, ops[k], ss[k], t) && Sane(t)
    ensures IsRun(w, ops[..k + 1], ss + [t])
  {
    var more, late := ops[..k + 1], ss + [t];
    forall j | 0 <= j < k + 1 ensures StepAt(w, more, late, j) {
      if j < k { assert StepAt(w, ops[..k], ss, j); }
    }
  }

  // ------------------------------------------------------------------ what holds over runs

  /** No operation un-frees an item, and what leaves the tree is freed. */
  ghost predicate Frees(s: Snapshot, t: Snapshot) {
    s.freed <= t.freed && Items(s.shape) - Items(t.shape) <= t.freed && s.asked <= t.asked
  }

  lemma EffectFrees(w: Window, op: Op, s: Snapshot, t: Snapshot)
    requires Sane(s) && Effect(w, op, s, t)
    ensures Frees(s, t)
  {
    if op.Insert? {
      var p := Nth(s.shape, op.parent);
      if p.Some? && op.previous <= |ChildrenOf(s.shape, p.value)| {
        InsertFrees(s, t, p.value, op.previous, op.texts);
      }
    } else if op.Remove? || op.RemoveBelow? || op.Sort? {
      var i := Nth(s.shape, op.item);
      if i.Some? {
        if op.RemoveBelow? {
          RearrangeItems(s.shape, i.value, []);
        } else if op.Sort? {
          w.SameMembers(s.shape, i.value, ChildrenOf(t.shape, i.value));
          PermuteChildren(s.shape, i.value, ChildrenOf(t.shape, i.value));
        } else if ParentOf(s.shape, i.value).Some? {
          RemoveFrees(w, s, t, i.value, ParentOf(s.shape, i.value).value);
        }
      }
    }
  }

  lemma InsertFrees(s: Snapshot, t: Snapshot, p: Item, previous: nat, texts: seq<string>)
    requires Sane(s) && p in Items(s.shape) && previous <= |ChildrenOf(s.shape, p)|
             && Inserted(s, t, p, previous, texts)
    ensures Frees(s, t)
  {
    var c := ChildrenOf(s.shape, p);
    var x {:trigger c[..previous] + [x]} :| x in Items(t.shape) && x.texts == texts && x !in Items(s.shape) + s.freed
      && t == s.(shape := Rearrange(s.shape, p, c[..previous] + [x] + c[previous..]));
    InsertChild(s.shape, p, previous, x, c[..previous] + [x] + c[previous..]);
  }

  lemma RemoveFrees(w: Window, s: Snapshot, t: Snapshot, i: Item, p: Item)
    requires Sane(s) && i in Items(s.shape) && ParentOf(s.shape, i) == Some(p) && p in Items(s.shape)
    requires Removed(w, s, t, i, p)
    ensures Frees(s, t)
  {
    ParentFacts(s.shape, i);
    var c := ChildrenOf(s.shape, p);
    KidsInside(s.shape, p);
    RootsAreItems(KidsOf(s.shape, p));
    var k := IndexIn(c, i);
    DropChild(s.shape, p, k);
  }

  /** Over a run freed items stay freed and never come back, and items that go are freed. */
  lemma {:induction false} FreedForGood(w: Window, ops: seq<Op>, ss: seq<Snapshot>, j: nat, k: nat)
    requires IsRun(w, ops, ss) && j <= k < |ss|
    ensures ss[j].freed <= ss[k].freed && ss[j].freed !! Items(ss[k].shape)
    ensures Items(ss[j].shape) - Items(ss[k].shape) <= ss[k].freed && ss[j].asked <= ss[k].asked
  {
    if j < k {
      FreedForGood(w, ops, ss, j, k - 1);
      assert StepAt(w, ops, ss, k - 1);
      EffectFrees(w, ops[k - 1], ss[k - 1], ss[k]);
    }
    assert Sane(ss[k]);
  }

  /** An operation that selects no range and leaves no other item selected. */
  predicate Plain(op: Op) {
    !op.SelectTo? && !op.SelectFromShift? && (op.Select? ==> op.unselectOthers)
  }

  lemma EffectSingle(w: Window, op: Op, s: Snapshot, t: Snapshot)
    requires Effect(w, op, s, t) && Plain(op) && Single(s) && w.Granted(s.asked, t.asked)
    ensures Single(t)
  {
  }

  /** Over a run of plain operations, if user code allows all that it is asked, exactly the selected item is
      highlighted at all times. */
  lemma {:induction false} SingleThroughout(w: Window, ops: seq<Op>, ss: seq<Snapshot>, k: nat)
    requires IsRun(w, ops, ss) && k < |ss|
    requires forall op :: op in ops ==> Plain(op)
    requires Single(ss[0]) && w.Granted(ss[0].asked, ss[k].asked)
    ensures Single(ss[k])
  {
    if k > 0 {
      FreedForGood(w, ops, ss, 0, k - 1);
      FreedForGood(w, ops, ss, k - 1, k);
      SingleThroughout(w, ops, ss, k - 1);
      assert StepAt(w, ops, ss, k - 1);
      EffectSingle(w, ops[k - 1], ss[k - 1], ss[k]);
    }
  }
}
