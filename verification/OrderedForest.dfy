/** Ordered forests in left-child / right-sibling form: the shape of a tree list, without pointers.

    `Cons(x, kids, rest)` is an item `x`, the forest of its children and the forest of its later
    siblings.  A tree control holds either `Nil` or a forest with one root. */
module OrderedForest {
  import opened Basics

  datatype Forest<T> = Nil | Cons(item: T, kids: Forest<T>, rest: Forest<T>)

  ghost function Items<T>(f: Forest<T>): set<T> {
    if f.Nil? then {} else {f.item} + Items(f.kids) + Items(f.rest)
  }

  ghost function Size<T>(f: Forest<T>): nat {
    if f.Nil? then 0 else 1 + Size(f.kids) + Size(f.rest)
  }

  /** The top-level items, left to right. */
  ghost function Roots<T>(f: Forest<T>): seq<T> {
    if f.Nil? then [] else [f.item] + Roots(f.rest)
  }

  /** No item occurs twice. */
  ghost predicate Distinct<T>(f: Forest<T>) {
    f.Cons? ==>
      && f.item !in Items(f.kids)
      && f.item !in Items(f.rest)
      && Items(f.kids) !! Items(f.rest)
      && Distinct(f.kids)
      && Distinct(f.rest)
  }

  /** The forest of children of `x`. */
  ghost function KidsOf<T>(f: Forest<T>, x: T): Forest<T>
    requires x in Items(f)
  {
    if x == f.item then f.kids
    else if x in Items(f.kids) then KidsOf(f.kids, x)
    else KidsOf(f.rest, x)
  }

  ghost function ChildrenOf<T>(f: Forest<T>, x: T): seq<T>
    requires x in Items(f)
  {
    Roots(KidsOf(f, x))
  }

  ghost function ParentOf<T>(f: Forest<T>, x: T): Option<T>
    requires x in Items(f)
  {
    if x == f.item then None
    else if x in Items(f.kids) then
      var p := ParentOf(f.kids, x);
      if p.None? then Some(f.item) else p
    else ParentOf(f.rest, x)
  }

  /** The forest of later siblings of `x`. */
  ghost function LaterOf<T>(f: Forest<T>, x: T): Forest<T>
    requires x in Items(f)
  {
    if x == f.item then f.rest
    else if x in Items(f.kids) then LaterOf(f.kids, x)
    else LaterOf(f.rest, x)
  }

  ghost function Head<T>(f: Forest<T>): Option<T> {
    if f.Nil? then None else Some(f.item)
  }

  ghost function PrevSibling<T>(f: Forest<T>, x: T): Option<T>
    requires x in Items(f)
  {
    if x == f.item then None
    else if x in Items(f.kids) then PrevSibling(f.kids, x)
    else if Head(f.rest) == Some(x) then Some(f.item)
    else PrevSibling(f.rest, x)
  }

  ghost function NextSibling<T>(f: Forest<T>, x: T): Option<T>
    requires x in Items(f)
  {
    Head(LaterOf(f, x))
  }

  /** Number of ancestors of `x`. */
  ghost function Depth<T>(f: Forest<T>, x: T): nat
    requires x in Items(f)
  {
    if x == f.item then 0
    else if x in Items(f.kids) then 1 + Depth(f.kids, x)
    else Depth(f.rest, x)
  }

  /** `x` with everything under it. */
  ghost function Branch<T>(f: Forest<T>, x: T): Forest<T>
    requires x in Items(f)
  {
    Cons(x, KidsOf(f, x), Nil)
  }

  lemma BranchItems<T>(f: Forest<T>, x: T)
    requires x in Items(f)
    ensures Items(Branch(f, x)) == {x} + Items(KidsOf(f, x))
  {
    assert Items<T>(Nil) == {};
  }

  // ------------------------------------------------------------------ parts of a forest

  /** Every item of `g` has in `f` the children it has in `g`. */
  ghost predicate Inside<T>(g: Forest<T>, f: Forest<T>) {
    && Items(g) <= Items(f)
    && Distinct(g)
    && forall y :: y in Items(g) ==> KidsOf(g, y) == KidsOf(f, y)
  }

  lemma {:induction false} KidsInside<T>(f: Forest<T>, x: T)
    requires Distinct(f) && x in Items(f)
    ensures Inside(KidsOf(f, x), f)
    ensures x !in Items(KidsOf(f, x))
    ensures Size(KidsOf(f, x)) < Size(f)
  {
    if x == f.item {
    } else if x in Items(f.kids) {
      KidsInside(f.kids, x);
    } else {
      KidsInside(f.rest, x);
    }
  }

  /** Walking along a list of siblings stays inside the forest. */
  lemma InsideStep<T>(g: Forest<T>, f: Forest<T>)
    requires g.Cons? && Inside(g, f)
    ensures g.item in Items(f) && KidsOf(f, g.item) == g.kids
    ensures Inside(g.kids, f) && Inside(g.rest, f)
  {
    assert KidsOf(g, g.item) == g.kids;
    assert forall y :: y in Items(g.rest) ==> KidsOf(g, y) == KidsOf(g.rest, y);
    assert forall y :: y in Items(g.kids) ==> KidsOf(g, y) == KidsOf(g.kids, y);
  }

  /** The forest without its first `n` roots. */
  ghost function From<T>(f: Forest<T>, n: nat): Forest<T> {
    if n == 0 || f.Nil? then f else From(f.rest, n - 1)
  }

  lemma {:induction false} FromRoots<T>(f: Forest<T>, n: nat)
    requires n <= |Roots(f)|
    ensures Roots(From(f, n)) == Roots(f)[n..]
    ensures Items(From(f, n)) <= Items(f) && Size(From(f, n)) <= Size(f)
    ensures n < |Roots(f)| ==> From(f, n).Cons? && From(f, n).rest == From(f, n + 1)
    ensures n == |Roots(f)| ==> From(f, n) == Nil
  {
    if n > 0 {
      FromRoots(f.rest, n - 1);
    }
  }

  lemma {:induction false} FromInside<T>(f: Forest<T>, n: nat)
    requires Distinct(f)
    ensures Inside(From(f, n), f)
  {
    if n > 0 && f.Cons? {
      FromInside(f.rest, n - 1);
      assert forall y :: y in Items(f.rest) ==> KidsOf(f, y) == KidsOf(f.rest, y);
    }
  }

  /** One step of a loop over the children of `x`: the next child heads what is left. */
  lemma ChildStep<T>(f: Forest<T>, x: T, n: nat)
    requires Distinct(f) && x in Items(f) && n < |ChildrenOf(f, x)|
    ensures var k, c := KidsOf(f, x), ChildrenOf(f, x)[n];
            && c in Items(f) && c in Items(k) && c != x
            && From(k, n) == Cons(c, KidsOf(f, c), From(k, n + 1))
            && c !in Items(KidsOf(f, c)) + Items(From(k, n + 1))
            && Items(KidsOf(f, c)) !! Items(From(k, n + 1))
            && Items(From(k, n)) == {c} + Items(KidsOf(f, c)) + Items(From(k, n + 1))
            && Items(From(k, n)) <= Items(k)
            && Size(KidsOf(f, c)) < Size(k)
  {
    var k := KidsOf(f, x);
    KidsInside(f, x);
    FromRoots(k, n);
    FromInside(k, n);
    InsideStep(From(k, n), k);
    assert Roots(k)[n..][0] == Roots(k)[n];
  }

  lemma {:induction false} RootsAreItems<T>(f: Forest<T>)
    ensures forall i :: 0 <= i < |Roots(f)| ==> Roots(f)[i] in Items(f)
    ensures Distinct(f) ==> NoDup(Roots(f))
  {
    if f.Cons? {
      RootsAreItems(f.rest);
    }
  }

  /** An item has no parent exactly when it is a root; otherwise its parent is an item of which it
      is a child. */
  lemma {:induction false} ParentFacts<T>(f: Forest<T>, x: T)
    requires Distinct(f) && x in Items(f)
    ensures ParentOf(f, x).None? <==> x in Roots(f)
    ensures ParentOf(f, x).Some? ==>
              var p := ParentOf(f, x).value;
              && p in Items(f) && p != x
              && x in ChildrenOf(f, p)
              && x in Items(KidsOf(f, p))
              && Depth(f, x) == Depth(f, p) + 1
    ensures ParentOf(f, x).None? ==> Depth(f, x) == 0
  {
    RootsAreItems(f);
    if x == f.item {
    } else if x in Items(f.kids) {
      ParentFacts(f.kids, x);
      RootsAreItems(f.kids);
      RootsAreItems(f.rest);
    } else {
      ParentFacts(f.rest, x);
      var p := ParentOf(f.rest, x);
      if p.Some? { assert KidsOf(f, p.value) == KidsOf(f.rest, p.value); }
    }
  }

  /** Conversely the children of `p` have `p` as their parent. */
  lemma {:induction false} ChildFacts<T>(f: Forest<T>, p: T, x: T)
    requires Distinct(f) && p in Items(f) && x in Items(KidsOf(f, p))
    ensures x in Items(f)
    ensures ParentOf(f, x) == (if ParentOf(KidsOf(f, p), x).None? then Some(p) else ParentOf(KidsOf(f, p), x))
    ensures LaterOf(f, x) == LaterOf(KidsOf(f, p), x)
    ensures PrevSibling(f, x) == PrevSibling(KidsOf(f, p), x)
  {
    if p == f.item {
    } else if p in Items(f.kids) {
      ChildFacts(f.kids, p, x);
      KidsInside(f.kids, p);
      assert x in Items(f.kids);
      if ParentOf(KidsOf(f, p), x).Some? { ParentFacts(KidsOf(f, p), x); }
    } else {
      ChildFacts(f.rest, p, x);
      KidsInside(f.rest, p);
    }
  }

  /** The list position of a root fixes its neighbours. */
  lemma {:induction false} RootNeighbours<T>(f: Forest<T>, i: nat)
    requires Distinct(f) && i < |Roots(f)|
    ensures Roots(f)[i] in Items(f)
    ensures Roots(LaterOf(f, Roots(f)[i])) == Roots(f)[i + 1..]
    ensures PrevSibling(f, Roots(f)[i]) == (if i == 0 then None else Some(Roots(f)[i - 1]))
  {
    RootsAreItems(f);
    if i > 0 {
      RootNeighbours(f.rest, i - 1);
      var x := Roots(f)[i];
      assert Roots(f.rest)[i - 1] == x;
      assert x in Items(f.rest);
      assert Roots(f.rest)[i..] == Roots(f)[i + 1..];
    }
  }

  /** A child's neighbours in its parent's list are its siblings in the forest. */
  lemma SiblingIndex<T>(f: Forest<T>, p: T, i: nat)
    requires Distinct(f) && p in Items(f) && i < |ChildrenOf(f, p)|
    ensures var x := ChildrenOf(f, p)[i];
            && x in Items(f)
            && ParentOf(f, x) == Some(p)
            && Roots(LaterOf(f, x)) == ChildrenOf(f, p)[i + 1..]
            && NextSibling(f, x) == (if i + 1 < |ChildrenOf(f, p)| then Some(ChildrenOf(f, p)[i + 1]) else None)
            && PrevSibling(f, x) == (if i == 0 then None else Some(ChildrenOf(f, p)[i - 1]))
  {
    var x := ChildrenOf(f, p)[i];
    KidsInside(f, p);
    RootNeighbours(KidsOf(f, p), i);
    ChildFacts(f, p, x);
    ParentFacts(KidsOf(f, p), x);
    assert x in Roots(KidsOf(f, p));
    if i + 1 < |ChildrenOf(f, p)| {
      assert Roots(LaterOf(f, x))[0] == ChildrenOf(f, p)[i + 1];
    }
  }

  /** The later siblings of a child are the rest of its parent's list. */
  lemma FromLater<T>(f: Forest<T>, p: T, i: nat)
    requires Distinct(f) && p in Items(f) && i < |ChildrenOf(f, p)|
    ensures ChildrenOf(f, p)[i] in Items(f)
    ensures LaterOf(f, ChildrenOf(f, p)[i]) == From(KidsOf(f, p), i + 1)
  {
    var k := KidsOf(f, p);
    KidsInside(f, p);
    RootsAreItems(k);
    ChildFacts(f, p, Roots(k)[i]);
    FromLaterRoot(k, i);
  }

  lemma {:induction false} FromLaterRoot<T>(k: Forest<T>, i: nat)
    requires Distinct(k) && i < |Roots(k)|
    ensures Roots(k)[i] in Items(k) && LaterOf(k, Roots(k)[i]) == From(k, i + 1)
  {
    RootsAreItems(k);
    if i > 0 {
      FromLaterRoot(k.rest, i - 1);
      assert Roots(k)[i] == Roots(k.rest)[i - 1];
    }
  }

  lemma {:induction false} LaterInside<T>(f: Forest<T>, x: T)
    requires Distinct(f) && x in Items(f)
    ensures Inside(LaterOf(f, x), f)
    ensures x !in Items(LaterOf(f, x)) && Items(LaterOf(f, x)) !! Items(KidsOf(f, x))
  {
    if x == f.item {
      assert forall y :: y in Items(f.rest) ==> KidsOf(f, y) == KidsOf(f.rest, y);
    } else if x in Items(f.kids) {
      LaterInside(f.kids, x);
    } else {
      LaterInside(f.rest, x);
    }
  }

  // ------------------------------------------------------------------ ancestors

  ghost function Ancestors<T>(f: Forest<T>, x: T): set<T>
    requires x in Items(f)
  {
    if x == f.item then {}
    else if x in Items(f.kids) then {f.item} + Ancestors(f.kids, x)
    else Ancestors(f.rest, x)
  }

  lemma {:induction false} AncestorsClimb<T>(f: Forest<T>, x: T)
    requires Distinct(f) && x in Items(f)
    ensures Ancestors(f, x) ==
            match ParentOf(f, x) { case None => {} case Some(p) => if p in Items(f) then {p} + Ancestors(f, p) else {} }
    ensures Ancestors(f, x) <= Items(f) && x !in Ancestors(f, x)
  {
    if x == f.item {
    } else if x in Items(f.kids) {
      AncestorsClimb(f.kids, x);
      ParentFacts(f.kids, x);
    } else {
      AncestorsClimb(f.rest, x);
      ParentFacts(f.rest, x);
    }
  }
}
