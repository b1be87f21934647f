/** Changing a forest at one item: giving it a new list of children. */
module ForestEdit {
  import opened Basics
  import opened OrderedForest

  /** `f` with the children of `x` replaced by the forest `k`. */
  ghost function SetKids<T>(f: Forest<T>, x: T, k: Forest<T>): Forest<T> {
    if f.Nil? then Nil
    else if f.item == x then Cons(x, k, f.rest)
    else Cons(f.item, SetKids(f.kids, x, k), SetKids(f.rest, x, k))
  }

  /** The forest with roots `order`: roots of `k` keep their branch, new ones are leaves. */
  ghost function Pick<T>(k: Forest<T>, order: seq<T>): Forest<T> {
    if order == [] then Nil
    else Cons(order[0], if order[0] in Items(k) then KidsOf(k, order[0]) else Nil, Pick(k, order[1..]))
  }

  /** `f` with `order` as the list of children of `x`; kept children keep their branch. */
  ghost function Rearrange<T>(f: Forest<T>, x: T, order: seq<T>): Forest<T>
    requires x in Items(f)
  {
    SetKids(f, x, Pick(KidsOf(f, x), order))
  }

  /** A list of children `x` may be given: children it has, and items new to the forest. */
  ghost predicate Allowed<T>(f: Forest<T>, x: T, order: seq<T>)
    requires x in Items(f)
  {
    && NoDup(order)
    && forall c :: c in order ==> c in ChildrenOf(f, x) || c !in Items(f)
  }

  // ------------------------------------------------------------------ facts about Pick

  ghost predicate PickOk<T>(k: Forest<T>, order: seq<T>) {
    NoDup(order) && forall c :: c in order ==> c in Roots(k) || c !in Items(k)
  }

  /** `y` is under one of the listed items that `k` already had. */
  ghost predicate UnderKept<T>(k: Forest<T>, order: seq<T>, y: T) {
    exists i :: 0 <= i < |order| && order[i] in Items(k) && y in Items(KidsOf(k, order[i]))
  }

  lemma {:induction false} PickRoots<T>(k: Forest<T>, order: seq<T>)
    ensures Roots(Pick(k, order)) == order
  {
    if order != [] {
      PickRoots(k, order[1..]);
    }
  }

  lemma PickOkTail<T>(k: Forest<T>, order: seq<T>)
    requires order != [] && PickOk(k, order)
    ensures PickOk(k, order[1..]) && order[0] !in order[1..]
  {
    assert forall c :: c in order[1..] ==> c in order;
  }

  /** Branches of distinct roots do not meet. */
  lemma {:induction false} BranchesApart<T>(k: Forest<T>, a: T, b: T)
    requires Distinct(k) && a in Roots(k) && b in Roots(k) && a != b
    ensures a in Items(k) && b in Items(k)
    ensures a !in Items(KidsOf(k, b)) && Items(KidsOf(k, a)) !! Items(KidsOf(k, b))
  {
    RootsAreItems(k);
    RootsAreItems(k.rest);
    if a == k.item {
      KidsInside(k.rest, b);
      assert KidsOf(k, b) == KidsOf(k.rest, b);
    } else if b == k.item {
      KidsInside(k.rest, a);
      assert KidsOf(k, a) == KidsOf(k.rest, a);
    } else {
      BranchesApart(k.rest, a, b);
      assert KidsOf(k, a) == KidsOf(k.rest, a) && KidsOf(k, b) == KidsOf(k.rest, b);
    }
  }

  /** The items picked are the listed ones and what is under those kept. */
  lemma {:induction false} PickItems<T>(k: Forest<T>, order: seq<T>)
    requires Distinct(k) && PickOk(k, order)
    ensures Distinct(Pick(k, order))
    ensures forall y :: y in Items(Pick(k, order)) <==>
              y in order || UnderKept(k, order, y)
    ensures forall y :: y in Items(Pick(k, order)) ==>
              KidsOf(Pick(k, order), y) == (if y in Items(k) then KidsOf(k, y) else Nil)
  {
    if order != [] {
      var c, p := order[0], Pick(k, order);
      PickOkTail(k, order);
      PickItems(k, order[1..]);
      var r := Pick(k, order[1..]);
      assert p.rest == r;
      forall y | y in Items(r)
        ensures y != c && y !in Items(p.kids) && (c in Items(k) ==> y !in Items(KidsOf(k, c)))
      {
        assert y in Items(Pick(k, order[1..]));
        assert y in order[1..] || UnderKept(k, order[1..], y);
        PickApart(k, order, y);
      }
      if c in Items(k) {
        KidsInside(k, c);
      }
      forall y
        ensures UnderKept(k, order, y) <==>
                UnderKept(k, order[1..], y) || (c in Items(k) && y in Items(KidsOf(k, c))) {
        if UnderKept(k, order[1..], y) {
          var i :| 0 <= i < |order[1..]| && order[1..][i] in Items(k) && y in Items(KidsOf(k, order[1..][i]));
          assert order[i + 1] == order[1..][i];
        }
        if UnderKept(k, order, y) {
          var i :| 0 <= i < |order| && order[i] in Items(k) && y in Items(KidsOf(k, order[i]));
          assert i > 0 ==> order[i] == order[1..][i - 1];
        }
      }
    }
  }

  /** What is under a listed item: it is in `k`, apart from the other roots' branches. */
  lemma KeptApart<T>(k: Forest<T>, order: seq<T>, y: T) returns (i: nat)
    requires Distinct(k) && PickOk(k, order) && UnderKept(k, order, y)
    ensures i < |order| && order[i] in Roots(k) && order[i] in Items(k) && y in Items(KidsOf(k, order[i]))
    ensures y in Items(k) && y !in Roots(k)
  {
    i :| 0 <= i < |order| && order[i] in Items(k) && y in Items(KidsOf(k, order[i]));
    assert order[i] in order;
    KidsInside(k, order[i]);
    ChildFacts(k, order[i], y);
    ParentFacts(k, y);
  }

  /** What is under the later children is apart from the first child's branch. */
  lemma PickApart<T>(k: Forest<T>, order: seq<T>, y: T)
    requires Distinct(k) && PickOk(k, order) && order != []
    requires y in order[1..] || UnderKept(k, order[1..], y)
    ensures y != order[0]
    ensures order[0] in Items(k) ==> y !in Items(KidsOf(k, order[0]))
  {
    PickOkTail(k, order);
    assert order[0] in order;
    var b := y;
    if y in order[1..] {
      assert y in order;
    } else {
      var i := KeptApart(k, order[1..], y);
      b := order[1..][i];
      assert b in order[1..] && b in order;
    }
    if order[0] in Items(k) {
      BranchApart(k, order[0], b, y);
    } else {
      RootsAreItems(k);
    }
  }

  lemma BranchApart<T>(k: Forest<T>, a: T, b: T, y: T)
    requires Distinct(k) && a in Roots(k) && a != b
    requires (y == b && (b in Roots(k) || b !in Items(k)))
             || (b in Roots(k) && b in Items(k) && y in Items(KidsOf(k, b)))
    ensures a in Items(k) && y != a && y !in Items(KidsOf(k, a))
  {
    RootsAreItems(k);
    KidsInside(k, a);
    if b in Roots(k) {
      BranchesApart(k, a, b);
      BranchesApart(k, b, a);
    }
  }

  lemma PickSources<T>(k: Forest<T>, order: seq<T>, y: T)
    requires Distinct(k) && PickOk(k, order) && y in Items(Pick(k, order))
    ensures y in order || y in Items(k)
  {
    PickItems(k, order);
    if y !in order {
      var i := KeptApart(k, order, y);
    }
  }

  lemma {:induction false} PickParents<T>(k: Forest<T>, order: seq<T>, y: T)
    requires Distinct(k) && PickOk(k, order) && y in Items(Pick(k, order))
    ensures y in order ==> ParentOf(Pick(k, order), y) == None
    ensures y !in order ==> y in Items(k) && ParentOf(Pick(k, order), y) == ParentOf(k, y)
  {
    PickItems(k, order);
    PickRoots(k, order);
    var p := Pick(k, order);
    ParentFacts(p, y);
    if y !in order {
      var i := KeptApart(k, order, y);
      var c := order[i];
      ChildFacts(k, c, y);
      assert KidsOf(p, c) == KidsOf(k, c);
      ChildFacts(p, c, y);
    }
  }

  /** Picking twice: only the last choice counts. */
  lemma {:induction false} PickAgain<T>(k: Forest<T>, k': Forest<T>, order: seq<T>)
    requires forall c ::
               c in order ==> (c in Items(k) <==> c in Items(k')) && (c in Items(k) ==> KidsOf(k, c) == KidsOf(k', c))
    ensures Pick(k, order) == Pick(k', order)
  {
    if order != [] {
      assert forall c :: c in order[1..] ==> c in order;
      PickAgain(k, k', order[1..]);
    }
  }

  /** Picking all roots in their order gives the forest back. */
  lemma {:induction false} PickSame<T>(k: Forest<T>, g: Forest<T>)
    requires Inside(g, k)
    ensures Pick(k, Roots(g)) == g
  {
    if g.Cons? {
      InsideStep(g, k);
      PickSame(k, g.rest);
      assert Roots(g)[1..] == Roots(g.rest);
    }
  }

  // ------------------------------------------------------------------ facts about SetKids

  lemma {:induction false} SetKidsAbsent<T>(f: Forest<T>, x: T, k: Forest<T>)
    requires x !in Items(f)
    ensures SetKids(f, x, k) == f
  {
    if f.Cons? {
      SetKidsAbsent(f.kids, x, k);
      SetKidsAbsent(f.rest, x, k);
    }
  }

  lemma {:induction false} SetKidsItems<T>(f: Forest<T>, x: T, k: Forest<T>)
    requires Distinct(f) && x in Items(f) && Distinct(k)
    requires Items(k) !! (Items(f) - Items(KidsOf(f, x)))
    ensures Items(SetKids(f, x, k)) == Items(f) - Items(KidsOf(f, x)) + Items(k)
    ensures Distinct(SetKids(f, x, k))
    ensures Roots(SetKids(f, x, k)) == Roots(f)
  {
    KidsInside(f, x);
    if x == f.item {
      SwapSet({x} + Items(f.rest), Items(f.kids), Items(f.kids), Items(k));
    } else if x in Items(f.kids) {
      KidsInside(f.kids, x);
      SetKidsAbsent(f.rest, x, k);
      SetKidsItems(f.kids, x, k);
      SwapSet({f.item} + Items(f.rest), Items(f.kids), Items(KidsOf(f.kids, x)), Items(k));
    } else {
      KidsInside(f.rest, x);
      SetKidsAbsent(f.kids, x, k);
      SetKidsItems(f.rest, x, k);
      SwapSet({f.item} + Items(f.kids), Items(f.rest), Items(KidsOf(f.rest, x)), Items(k));
    }
  }

  lemma SwapSet<T>(a: set<T>, b: set<T>, less: set<T>, more: set<T>)
    requires a !! b && less <= b
    ensures a + (b - less + more) == a + b - less + more
  {
  }

  /** Below `x` the new forest rules; elsewhere each item keeps its parent and its list of children. */
  lemma {:induction false} SetKidsLinks<T>(f: Forest<T>, x: T, k: Forest<T>, y: T)
    requires Distinct(f) && x in Items(f) && Distinct(k)
    requires Items(k) !! (Items(f) - Items(KidsOf(f, x)))
    requires y in Items(SetKids(f, x, k))
    ensures y in Items(k) ==>
              && KidsOf(SetKids(f, x, k), y) == KidsOf(k, y)
              && ParentOf(SetKids(f, x, k), y) == (if ParentOf(k, y).None? then Some(x) else ParentOf(k, y))
    ensures y !in Items(k) ==>
              && y in Items(f)
              && KidsOf(SetKids(f, x, k), y) == (if y == x then k else SetKids(KidsOf(f, y), x, k))
              && ParentOf(SetKids(f, x, k), y) == ParentOf(f, y)
  {
    SetKidsItems(f, x, k);
    KidsInside(f, x);
    if x == f.item {
      if y !in Items(k) && y != x {
        KidsInside(f.rest, y);
        SetKidsAbsent(KidsOf(f, y), x, k);
      }
    } else if x in Items(f.kids) {
      KidsInside(f.kids, x);
      SetKidsAbsent(f.rest, x, k);
      SetKidsItems(f.kids, x, k);
      if y in Items(SetKids(f.kids, x, k)) {
        SetKidsLinks(f.kids, x, k, y);
      } else if y != f.item {
        KidsInside(f.rest, y);
        SetKidsAbsent(KidsOf(f, y), x, k);
      }
    } else {
      KidsInside(f.rest, x);
      SetKidsAbsent(f.kids, x, k);
      SetKidsItems(f.rest, x, k);
      if y in Items(SetKids(f.rest, x, k)) {
        SetKidsLinks(f.rest, x, k, y);
      } else if y != f.item {
        KidsInside(f.kids, y);
        SetKidsAbsent(KidsOf(f, y), x, k);
      }
    }
  }

  /** Replacing the children of `x` forgets any change made below `x` before. */
  lemma {:induction false} SetKidsTwice<T>(f: Forest<T>, c: T, k1: Forest<T>, x: T, k2: Forest<T>)
    requires Distinct(f) && x in Items(f) && c in Items(KidsOf(f, x))
    ensures SetKids(SetKids(f, c, k1), x, k2) == SetKids(f, x, k2)
  {
    KidsInside(f, x);
    if x == f.item {
      SetKidsAbsent(f.rest, c, k1);
    } else if x in Items(f.kids) {
      KidsInside(f.kids, x);
      SetKidsAbsent(f.rest, c, k1);
      SetKidsTwice(f.kids, c, k1, x, k2);
    } else {
      KidsInside(f.rest, x);
      SetKidsAbsent(f.kids, c, k1);
      SetKidsTwice(f.rest, c, k1, x, k2);
    }
  }

  lemma {:induction false} SetKidsOverwrite<T>(f: Forest<T>, x: T, k1: Forest<T>, k2: Forest<T>)
    ensures SetKids(SetKids(f, x, k1), x, k2) == SetKids(f, x, k2)
  {
    if f.Cons? {
      SetKidsOverwrite(f.kids, x, k1, k2);
      SetKidsOverwrite(f.rest, x, k1, k2);
    }
  }

  // ------------------------------------------------------------------ facts about Rearrange

  /** After giving `x` the children `order`: `x` has them, they have `x` as parent, new ones have no
      children, and every other link is as before. */
  lemma RearrangeLinks<T>(f: Forest<T>, x: T, order: seq<T>, y: T)
    requires Distinct(f) && x in Items(f) && Allowed(f, x, order)
    requires y in Items(Rearrange(f, x, order))
    ensures Distinct(Rearrange(f, x, order))
    ensures y in order || y in Items(f)
    ensures ChildrenOf(Rearrange(f, x, order), y) ==
            if y == x then order else if y in Items(f) then ChildrenOf(f, y) else []
    ensures ParentOf(Rearrange(f, x, order), y) == if y in order then Some(x) else ParentOf(f, y)
  {
    var k0 := KidsOf(f, x);
    var k := Pick(k0, order);
    RearrangeItems(f, x, order);
    SetKidsLinks(f, x, k, y);
    KidsInside(f, x);
    if y in Items(k) {
      PickItems(k0, order);
      PickParents(k0, order, y);
      if y in Items(k0) { ChildFacts(f, x, y); }
    } else {
      PickRoots(k0, order);
      RootsAreItems(k);
      if y != x {
        SetKidsRoots(KidsOf(f, y), x, k);
      }
    }
  }

  lemma {:induction false} SetKidsRoots<T>(f: Forest<T>, x: T, k: Forest<T>)
    ensures Roots(SetKids(f, x, k)) == Roots(f)
  {
    if f.Cons? {
      SetKidsRoots(f.rest, x, k);
    }
  }

  /** The items after the change: those not below `x`, and the listed children with their branches. */
  lemma RearrangeItems<T>(f: Forest<T>, x: T, order: seq<T>)
    requires Distinct(f) && x in Items(f) && Allowed(f, x, order)
    ensures var k := Pick(KidsOf(f, x), order);
            && Distinct(k)
            && Items(k) !! (Items(f) - Items(KidsOf(f, x)))
            && Items(Rearrange(f, x, order)) == Items(f) - Items(KidsOf(f, x)) + Items(k)
    ensures PickOk(KidsOf(f, x), order)
    ensures Distinct(Rearrange(f, x, order))
    ensures Roots(Rearrange(f, x, order)) == Roots(f)
    ensures x in Items(Rearrange(f, x, order))
    ensures forall c :: c in order ==> c in Items(Rearrange(f, x, order))
  {
    var k0 := KidsOf(f, x);
    KidsInside(f, x);
    RootsAreItems(k0);
    assert PickOk(k0, order);
    var k := Pick(k0, order);
    forall y | y in Items(k) ensures y !in Items(f) || y in Items(k0) {
      PickSources(k0, order, y);
    }
    PickItems(k0, order);
    SetKidsItems(f, x, k);
  }

  /** Emptying a child first does not matter once the child itself is dropped. */
  lemma RearrangeAfterClear<T>(f: Forest<T>, x: T, c: T, order: seq<T>)
    requires Distinct(f) && x in Items(f) && c in ChildrenOf(f, x)
    requires NoDup(order) && c !in order && forall o :: o in order ==> o in ChildrenOf(f, x)
    ensures c in Items(f) && x in Items(Rearrange(f, c, []))
    ensures Rearrange(Rearrange(f, c, []), x, order) == Rearrange(f, x, order)
  {
    var k := KidsOf(f, x);
    KidsInside(f, x);
    RootsAreItems(k);
    KidsInside(f, c);
    RearrangeItems(f, c, []);
    assert x !in Items(KidsOf(f, c)) by {
      KidsInside(k, c);
      assert KidsOf(k, c) == KidsOf(f, c);
    }
    SetKidsLinks(f, c, Nil, x);
    forall o | o in order
      ensures o in Items(k) && o in Items(SetKids(k, c, Nil)) && KidsOf(k, o) == KidsOf(SetKids(k, c, Nil), o)
    {
      BranchesApart(k, o, c);
      BranchesApart(k, c, o);
      SetKidsItems(k, c, Nil);
      SetKidsLinks(k, c, Nil, o);
      SetKidsAbsent(KidsOf(k, o), c, Nil);
    }
    PickAgain(SetKids(k, c, Nil), k, order);
    SetKidsTwice(f, c, Nil, x, Pick(k, order));
  }

  /** Shortening a list of children twice. */
  lemma RearrangeAgain<T>(f: Forest<T>, x: T, first: seq<T>, order: seq<T>)
    requires Distinct(f) && x in Items(f) && Allowed(f, x, first)
    requires forall o :: o in order ==> o in first && o in Items(f)
    ensures x in Items(Rearrange(f, x, first))
    ensures Rearrange(Rearrange(f, x, first), x, order) == Rearrange(f, x, order)
  {
    var k := KidsOf(f, x);
    RearrangeItems(f, x, first);
    SetKidsLinks(f, x, Pick(k, first), x) by { KidsInside(f, x); }
    KidsInside(f, x);
    RootsAreItems(k);
    PickItems(k, first);
    forall o | o in order
      ensures o in Items(k) && o in Items(Pick(k, first)) && KidsOf(k, o) == KidsOf(Pick(k, first), o)
    {
      assert o in first;
    }
    PickAgain(Pick(k, first), k, order);
    SetKidsOverwrite(f, x, Pick(k, first), Pick(k, order));
  }

  /** Dropping one child removes exactly its branch. */
  lemma DropChild<T>(f: Forest<T>, x: T, i: nat)
    requires Distinct(f) && x in Items(f) && i < |ChildrenOf(f, x)|
    ensures var cs := ChildrenOf(f, x);
            && cs[i] in Items(f)
            && Allowed(f, x, cs[..i] + cs[i + 1..])
            && cs[i] !in cs[..i] + cs[i + 1..]
            && Items(Rearrange(f, x, cs[..i] + cs[i + 1..])) == Items(f) - Items(Branch(f, cs[i]))
  {
    var k := KidsOf(f, x);
    var cs := Roots(k);
    KidsInside(f, x);
    RootsAreItems(k);
    assert Allowed(f, x, cs[..i] + cs[i + 1..]);
    RearrangeItems(f, x, cs[..i] + cs[i + 1..]);
    var p := Pick(k, cs[..i] + cs[i + 1..]);
    forall y ensures y in Items(p) <==> y in Items(k) && y != cs[i] && y !in Items(KidsOf(k, cs[i])) {
      DroppedMember(k, i, y);
    }
    KidsInside(k, cs[i]);
    DroppedItems(Items(f), Items(k), Items(p), cs[i], Items(KidsOf(k, cs[i])));
    assert Items(Branch(f, cs[i])) == {cs[i]} + Items(KidsOf(k, cs[i])) by {
      assert KidsOf(f, cs[i]) == KidsOf(k, cs[i]);
    }
  }

  lemma DroppedItems<T>(all: set<T>, k: set<T>, p: set<T>, c: T, under: set<T>)
    requires k <= all && under <= k && c in k
    requires forall y :: y in p <==> y in k && y != c && y !in under
    ensures all - k + p == all - ({c} + under)
  {
  }

  /** Picking all roots but one leaves out exactly that root's branch. */
  lemma DroppedMember<T>(k: Forest<T>, i: nat, y: T)
    requires Distinct(k) && i < |Roots(k)| && Roots(k)[i] in Items(k)
    ensures var c := Roots(k)[i];
            y in Items(Pick(k, Roots(k)[..i] + Roots(k)[i + 1..])) <==>
            y in Items(k) && y != c && y !in Items(KidsOf(k, c))
  {
    RootsAreItems(k);
    if y in Items(Pick(k, Roots(k)[..i] + Roots(k)[i + 1..])) {
      DroppedOut(k, i, y);
    }
    if y in Items(k) && y != Roots(k)[i] && y !in Items(KidsOf(k, Roots(k)[i])) {
      DroppedKept(k, i, y);
    }
  }

  lemma DroppedOk<T>(k: Forest<T>, i: nat)
    requires Distinct(k) && i < |Roots(k)|
    ensures var order := Roots(k)[..i] + Roots(k)[i + 1..];
            PickOk(k, order) && PickOk(k, [Roots(k)[i]] + order)
  {
    RootsAreItems(k);
    var cs := Roots(k);
    var all := [cs[i]] + (cs[..i] + cs[i + 1..]);
    forall c | c in all ensures c in cs {
      var j :| 0 <= j < |all| && all[j] == c;
      assert c == cs[if j == 0 then i else if j <= i then j - 1 else j];
    }
  }

  lemma DroppedOut<T>(k: Forest<T>, i: nat, y: T)
    requires Distinct(k) && i < |Roots(k)| && Roots(k)[i] in Items(k)
    requires y in Items(Pick(k, Roots(k)[..i] + Roots(k)[i + 1..]))
    ensures y in Items(k) && y != Roots(k)[i] && y !in Items(KidsOf(k, Roots(k)[i]))
  {
    var cs := Roots(k);
    var order := cs[..i] + cs[i + 1..];
    DroppedOk(k, i);
    RootsAreItems(k);
    PickSources(k, order, y);
    PickItems(k, order);
    assert ([cs[i]] + order)[1..] == order;
    PickApart(k, [cs[i]] + order, y);
  }

  lemma DroppedKept<T>(k: Forest<T>, i: nat, y: T)
    requires Distinct(k) && i < |Roots(k)| && Roots(k)[i] in Items(k)
    requires y in Items(k) && y != Roots(k)[i] && y !in Items(KidsOf(k, Roots(k)[i]))
    ensures y in Items(Pick(k, Roots(k)[..i] + Roots(k)[i + 1..]))
  {
    var cs := Roots(k);
    var order := cs[..i] + cs[i + 1..];
    DroppedOk(k, i);
    PickItems(k, order);
    var r := RootAbove(k, y);
    KeptPlace(cs, i, r);
  }

  lemma KeptPlace<T>(cs: seq<T>, i: nat, r: T)
    requires i < |cs| && r in cs && r != cs[i]
    ensures r in cs[..i] + cs[i + 1..]
  {
    var j :| 0 <= j < |cs| && cs[j] == r;
    assert r == (cs[..i] + cs[i + 1..])[if j < i then j else j - 1];
  }

  /** Every item is a root or under one. */
  lemma {:induction false} RootAbove<T>(k: Forest<T>, y: T) returns (r: T)
    requires Distinct(k) && y in Items(k)
    ensures r in Roots(k) && r in Items(k) && (y == r || y in Items(KidsOf(k, r)))
  {
    if y == k.item || y in Items(k.kids) {
      r := k.item;
    } else {
      r := RootAbove(k.rest, y);
      assert KidsOf(k, r) == KidsOf(k.rest, r);
    }
  }

  /** Deleting from the right: with the children of `x` cut to the first `n`, the last of them can be
      emptied and dropped, and what goes is exactly its branch. */
  lemma TrimLast<T>(f0: Forest<T>, x: T, n: nat)
    requires Distinct(f0) && x in Items(f0) && 0 < n <= |ChildrenOf(f0, x)|
    ensures Allowed(f0, x, ChildrenOf(f0, x)[..n]) && Allowed(f0, x, ChildrenOf(f0, x)[..n - 1])
    ensures var cs, f := ChildrenOf(f0, x), Rearrange(f0, x, ChildrenOf(f0, x)[..n]);
            var c := cs[n - 1];
            && Distinct(f) && x in Items(f) && ChildrenOf(f, x) == cs[..n]
            && c in Items(f) && c in Items(f0) && KidsOf(f, c) == KidsOf(f0, c)
            && Size(KidsOf(f, c)) < Size(KidsOf(f0, x))
            && ParentOf(f, c) == Some(x) && NextSibling(f, c) == None
            && x !in Items(Branch(f, c)) && Items(Branch(f, c)) <= Items(KidsOf(f0, x))
            && Items(Rearrange(f0, x, cs[..n - 1])) == Items(f) - Items(Branch(f, c))
    ensures var cs, f := ChildrenOf(f0, x), Rearrange(f0, x, ChildrenOf(f0, x)[..n]);
            var g := Rearrange(f, cs[n - 1], []);
            && Distinct(g) && x in Items(g) && ChildrenOf(g, x) == cs[..n]
            && Allowed(g, x, cs[..n - 1])
            && Rearrange(g, x, cs[..n - 1]) == Rearrange(f0, x, cs[..n - 1])
  {
    var cs := ChildrenOf(f0, x);
    var c, f := cs[n - 1], Rearrange(f0, x, cs[..n]);
    CutChildren(f0, x, n);
    CutChildren(f0, x, n - 1);
    assert cs[..n][n - 1] == c;
    SiblingIndex(f, x, n - 1);
    DropChild(f, x, n - 1);
    assert cs[..n][..n - 1] + cs[..n][n..] == cs[..n - 1];
    RearrangeAgain(f0, x, cs[..n], cs[..n - 1]);
    RearrangeAfterClear(f, x, c, cs[..n - 1]);
    KeptKids(f0, x, n, c);
    ChildrenAbove(f, x, c);
    BranchUnder(f0, x, c);
    RearrangeItems(f, c, []);
    RearrangeLinks(f, c, [], x);
    assert forall o :: o in cs[..n - 1] ==> o in cs[..n];
  }

  lemma CutChildren<T>(f: Forest<T>, x: T, n: nat)
    requires Distinct(f) && x in Items(f) && n <= |ChildrenOf(f, x)|
    ensures var o := ChildrenOf(f, x)[..n];
            && Allowed(f, x, o)
            && Distinct(Rearrange(f, x, o)) && x in Items(Rearrange(f, x, o))
            && ChildrenOf(Rearrange(f, x, o), x) == o
    ensures forall i :: 0 <= i < |ChildrenOf(f, x)| ==> ChildrenOf(f, x)[i] in Items(f)
  {
    KidsInside(f, x);
    RootsAreItems(KidsOf(f, x));
    var o := ChildrenOf(f, x)[..n];
    RearrangeItems(f, x, o);
    RearrangeLinks(f, x, o, x);
  }

  lemma KeptKids<T>(f: Forest<T>, x: T, n: nat, c: T)
    requires Distinct(f) && x in Items(f) && n <= |ChildrenOf(f, x)| && c in ChildrenOf(f, x)[..n]
    ensures c in Items(f) && c in Items(Rearrange(f, x, ChildrenOf(f, x)[..n]))
    ensures KidsOf(Rearrange(f, x, ChildrenOf(f, x)[..n]), c) == KidsOf(f, c)
    ensures Size(KidsOf(f, c)) < Size(KidsOf(f, x))
  {
    var k, o := KidsOf(f, x), ChildrenOf(f, x)[..n];
    KidsInside(f, x);
    RootsAreItems(k);
    CutChildren(f, x, n);
    RearrangeItems(f, x, o);
    PickItems(k, o);
    SetKidsLinks(f, x, Pick(k, o), c);
    KidsInside(k, c);
  }

  lemma BranchUnder<T>(f: Forest<T>, x: T, c: T)
    requires Distinct(f) && x in Items(f) && c in ChildrenOf(f, x)
    ensures c in Items(f) && Items(Branch(f, c)) <= Items(KidsOf(f, x))
    ensures forall g :: c in Items(g) && KidsOf(g, c) == KidsOf(f, c) ==> Items(Branch(g, c)) == Items(Branch(f, c))
  {
    var k := KidsOf(f, x);
    KidsInside(f, x);
    RootsAreItems(k);
    KidsInside(k, c);
    BranchItems(f, c);
  }

  lemma ChildrenAbove<T>(f: Forest<T>, x: T, c: T)
    requires Distinct(f) && x in Items(f) && c in ChildrenOf(f, x) && c in Items(f)
    ensures x !in Items(Branch(f, c))
  {
    var k := KidsOf(f, x);
    KidsInside(f, x);
    RootsAreItems(k);
    KidsInside(k, c);
    BranchItems(f, c);
  }

  /** Inserting a new leaf adds it and nothing else. */
  lemma InsertChild<T>(f: Forest<T>, p: T, k: nat, item: T, order: seq<T>)
    requires Distinct(f) && p in Items(f) && item !in Items(f) && k <= |ChildrenOf(f, p)|
    requires order == ChildrenOf(f, p)[..k] + [item] + ChildrenOf(f, p)[k..]
    ensures Allowed(f, p, order)
    ensures Items(Rearrange(f, p, order)) == Items(f) + {item}
    ensures Roots(Rearrange(f, p, order)) == Roots(f)
  {
    var kids := KidsOf(f, p);
    KidsInside(f, p);
    RootsAreItems(kids);
    assert forall c :: c in order ==> c in Roots(kids) || c == item;
    assert Allowed(f, p, order);
    RearrangeItems(f, p, order);
    InsertedItems(kids, k, item, order);
  }

  lemma InsertedItems<T>(kids: Forest<T>, k: nat, item: T, order: seq<T>)
    requires Distinct(kids) && item !in Items(kids) && k <= |Roots(kids)| && PickOk(kids, order)
    requires order == Roots(kids)[..k] + [item] + Roots(kids)[k..]
    ensures Items(Pick(kids, order)) == Items(kids) + {item}
  {
    PickItems(kids, order);
    RootsAreItems(kids);
    assert order[k] == item;
    forall y ensures y in Items(Pick(kids, order)) <==> y in Items(kids) || y == item {
      if y in Items(Pick(kids, order)) {
        PickSources(kids, order, y);
      }
      if y in Items(kids) { InsertKept(kids, k, item, order, y); }
    }
    OneMore(Items(kids), Items(Pick(kids, order)), item);
  }

  lemma OneMore<T>(s: set<T>, t: set<T>, x: T)
    requires forall y :: y in t <==> y in s || y == x
    ensures t == s + {x}
  {
  }

  lemma InsertKept<T>(kids: Forest<T>, k: nat, item: T, order: seq<T>, y: T)
    requires Distinct(kids) && y in Items(kids) && k <= |Roots(kids)|
    requires order == Roots(kids)[..k] + [item] + Roots(kids)[k..]
    ensures y in order || UnderKept(kids, order, y)
  {
    var r := RootAbove(kids, y);
    var j :| 0 <= j < |Roots(kids)| && Roots(kids)[j] == r;
    assert order[if j < k then j else j + 1] == r;
  }

  lemma {:induction false} SetKidsSame<T>(f: Forest<T>, x: T)
    requires Distinct(f) && x in Items(f)
    ensures SetKids(f, x, KidsOf(f, x)) == f
  {
    if x == f.item {
    } else if x in Items(f.kids) {
      SetKidsSame(f.kids, x);
      SetKidsAbsent(f.rest, x, KidsOf(f, x));
    } else {
      SetKidsSame(f.rest, x);
      SetKidsAbsent(f.kids, x, KidsOf(f, x));
    }
  }

  /** Giving an item the children it has changes nothing. */
  lemma WholeRearrange<T>(f: Forest<T>, x: T)
    requires Distinct(f) && x in Items(f)
    ensures Rearrange(f, x, ChildrenOf(f, x)) == f
  {
    KidsInside(f, x);
    PickSame(KidsOf(f, x), KidsOf(f, x));
    SetKidsSame(f, x);
  }

  /** Putting the children of an item in another order keeps all items. */
  lemma PermuteChildren<T>(f: Forest<T>, p: T, order: seq<T>)
    requires Distinct(f) && p in Items(f) && NoDup(order)
    requires forall c :: c in order <==> c in ChildrenOf(f, p)
    ensures Allowed(f, p, order)
    ensures Items(Rearrange(f, p, order)) == Items(f)
    ensures Roots(Rearrange(f, p, order)) == Roots(f)
  {
    var kids := KidsOf(f, p);
    KidsInside(f, p);
    RootsAreItems(kids);
    RearrangeItems(f, p, order);
    PickItems(kids, order);
    forall y ensures y in Items(Pick(kids, order)) <==> y in Items(kids) {
      if y in Items(Pick(kids, order)) { PickSources(kids, order, y); }
      if y in Items(kids) {
        var r := RootAbove(kids, y);
        var j :| 0 <= j < |order| && order[j] == r;
      }
    }
    SameItems(Items(Pick(kids, order)), Items(kids));
  }

  lemma SameItems<T>(s: set<T>, t: set<T>)
    requires forall y :: y in s <==> y in t
    ensures s == t
  {
  }
}
