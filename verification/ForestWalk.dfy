/** Preorder walks of a forest through a set of open items.  With every item open the walk is the
    full preorder; with the expanded items open it is the visible order. */
module ForestWalk {
  import opened Basics
  import opened OrderedForest

  /** Preorder, entering the children of open items only. */
  ghost function Walk<T>(f: Forest<T>, open: set<T>): seq<T> {
    if f.Nil? then []
    else [f.item] + (if f.item in open then Walk(f.kids, open) else []) + Walk(f.rest, open)
  }

  /** The part of the walk strictly under `x`. */
  ghost function Under<T>(f: Forest<T>, x: T, open: set<T>): seq<T>
    requires x in Items(f)
  {
    if x in open then Walk(KidsOf(f, x), open) else []
  }

  /** The part of the walk before `x`. */
  ghost function Before<T>(f: Forest<T>, x: T, open: set<T>): seq<T>
    requires x in Items(f)
  {
    if x == f.item then []
    else if x in Items(f.kids) then [f.item] + Before(f.kids, x, open)
    else [f.item] + (if f.item in open then Walk(f.kids, open) else []) + Before(f.rest, x, open)
  }

  /** What comes after the branch of `x`: its later siblings, those of its parent, and so on,
      leaving out the siblings in a list that is not open.  `listOpen` says whether the top list is. */
  ghost function After<T>(f: Forest<T>, x: T, open: set<T>, listOpen: bool): seq<T>
    requires x in Items(f)
  {
    var later := if listOpen then Walk(f.rest, open) else [];
    if x == f.item then later
    else if x in Items(f.kids) then After(f.kids, x, open, f.item in open) + later
    else After(f.rest, x, open, listOpen)
  }

  lemma {:induction false} WalkItems<T>(f: Forest<T>, open: set<T>)
    ensures forall x :: x in Walk(f, open) ==> x in Items(f)
    ensures f.Cons? ==> Walk(f, open) != [] && Walk(f, open)[0] == f.item
  {
    if f.Cons? {
      WalkItems(f.kids, open);
      WalkItems(f.rest, open);
    }
  }

  lemma BranchWalk<T>(f: Forest<T>, x: T, open: set<T>)
    requires x in Items(f)
    ensures Walk(Branch(f, x), open) == [x] + Under(f, x, open)
  {
    assert Walk<T>(Nil, open) == [];
  }

  lemma {:induction false} WalkNoDup<T>(f: Forest<T>, open: set<T>)
    requires Distinct(f)
    ensures NoDup(Walk(f, open))
  {
    if f.Cons? {
      var k := if f.item in open then Walk(f.kids, open) else [];
      var r := Walk(f.rest, open);
      assert Walk(f, open) == [f.item] + (k + r);
      assert NoDup([f.item] + (k + r)) by {
        WalkItems(f.kids, open);
        WalkItems(f.rest, open);
        WalkNoDup(f.kids, open);
        WalkNoDup(f.rest, open);
        OnceEach(f.item, k, r);
      }
    }
  }

  lemma OnceEach<T>(x: T, a: seq<T>, b: seq<T>)
    requires NoDup(a) && NoDup(b) && x !in a && x !in b && forall y :: y in a ==> y !in b
    ensures NoDup([x] + (a + b))
  {
    var all := [x] + (a + b);
    forall i, j | 0 <= i < j < |all| ensures all[i] != all[j] {
      if i == 0 {
        assert all[j] in a || all[j] in b;
      } else if i <= |a| < j {
        assert all[i] in a && all[j] in b;
      }
    }
  }

  /** The walk depends only on which of the forest's own items are open. */
  lemma {:induction false} WalkAgree<T>(f: Forest<T>, open1: set<T>, open2: set<T>)
    requires forall x :: x in Items(f) ==> (x in open1 <==> x in open2)
    ensures Walk(f, open1) == Walk(f, open2)
  {
    if f.Cons? {
      WalkAgree(f.kids, open1, open2);
      WalkAgree(f.rest, open1, open2);
    }
  }

  /** Items without children need not be open. */
  lemma {:induction false} WalkAll<T>(f: Forest<T>, open: set<T>)
    requires Distinct(f)
    requires forall x :: x in Items(f) && KidsOf(f, x).Cons? ==> x in open
    ensures Walk(f, open) == Walk(f, Items(f))
  {
    if f.Cons? {
      assert KidsOf(f, f.item) == f.kids;
      assert forall x :: x in Items(f.kids) ==> KidsOf(f, x) == KidsOf(f.kids, x);
      assert forall x :: x in Items(f.rest) ==> KidsOf(f, x) == KidsOf(f.rest, x);
      WalkAll(f.kids, open);
      WalkAll(f.rest, open);
      WalkAgree(f.kids, Items(f.kids), Items(f));
      WalkAgree(f.rest, Items(f.rest), Items(f));
    }
  }

  /** The full walk meets every item, once. */
  lemma {:induction false} FullWalk<T>(f: Forest<T>, open: set<T>)
    requires Items(f) <= open
    ensures forall x :: x in Items(f) <==> x in Walk(f, open)
    ensures |Walk(f, open)| == Size(f)
  {
    if f.Cons? {
      FullWalk(f.kids, open);
      FullWalk(f.rest, open);
      assert Walk(f, open) == [f.item] + Walk(f.kids, open) + Walk(f.rest, open);
    }
  }

  lemma Regroup<T>(p: seq<T>, m: seq<T>, q: seq<T>, a: seq<T>, b: seq<T>, c: seq<T>, d: seq<T>)
    requires m == a + b + c + d
    ensures p + m + q == (p + a) + b + c + (d + q)
  {
  }

  /** Around an item the walk splits into what is before it, under it and after it. */
  lemma {:induction false} WalkSplit<T>(f: Forest<T>, x: T, open: set<T>)
    requires Distinct(f) && x in Walk(f, open)
    ensures x in Items(f)
    ensures Walk(f, open) == Before(f, x, open) + [x] + Under(f, x, open) + After(f, x, open, true)
  {
    WalkItems(f, open);
    var k := if f.item in open then Walk(f.kids, open) else [];
    var r := Walk(f.rest, open);
    if x == f.item {
      assert [f.item] + k + r == [] + [x] + k + r;
    } else if x in Items(f.kids) {
      WalkItems(f.rest, open);
      assert f.item in open && x in k;
      WalkSplit(f.kids, x, open);
      Regroup([f.item], k, r, Before(f.kids, x, open), [x], Under(f.kids, x, open), After(f.kids, x, open, true));
    } else {
      WalkItems(f.kids, open);
      WalkSplit(f.rest, x, open);
      Regroup([f.item] + k, r, [], Before(f.rest, x, open), [x], Under(f.rest, x, open), After(f.rest, x, open, true));
      assert [f.item] + k + r + [] == [f.item] + k + r;
      assert After(f.rest, x, open, true) + [] == After(f.rest, x, open, true);
    }
  }

  /** An item is met by the walk exactly when all its ancestors are open. */
  lemma {:induction false} WalkAncestors<T>(f: Forest<T>, x: T, open: set<T>)
    requires Distinct(f) && x in Items(f)
    ensures x in Walk(f, open) <==> Ancestors(f, x) <= open
  {
    WalkItems(f.kids, open);
    WalkItems(f.rest, open);
    if x == f.item {
    } else if x in Items(f.kids) {
      WalkAncestors(f.kids, x, open);
    } else {
      WalkAncestors(f.rest, x, open);
    }
  }

  /** The later siblings of `x`, if their list is open. */
  ghost function Beside<T>(f: Forest<T>, x: T, open: set<T>, listOpen: bool): seq<T>
    requires x in Items(f)
  {
    if (if ParentOf(f, x).None? then listOpen else ParentOf(f, x).value in open) then Walk(LaterOf(f, x), open) else []
  }

  /** Climbing: what is after `x` is its later siblings, then what is after its parent. */
  lemma {:induction false} AfterClimb<T>(f: Forest<T>, x: T, open: set<T>, listOpen: bool)
    requires Distinct(f) && x in Items(f)
    ensures ParentOf(f, x).Some? ==> ParentOf(f, x).value in Items(f)
    ensures After(f, x, open, listOpen) ==
            Beside(f, x, open, listOpen)
            + (match ParentOf(f, x) { case None => [] case Some(p) => After(f, p, open, listOpen) })
  {
    if x == f.item {
    } else if x in Items(f.kids) {
      AfterClimb(f.kids, x, open, f.item in open);
      var a := Beside(f.kids, x, open, f.item in open);
      var later := if listOpen then Walk(f.rest, open) else [];
      assert Beside(f, x, open, listOpen) == a;
      if ParentOf(f.kids, x).Some? {
        var p := ParentOf(f.kids, x).value;
        Assoc(a, After(f.kids, p, open, f.item in open), later);
      } else {
        Assoc(a, [], later);
      }
    } else {
      AfterClimb(f.rest, x, open, listOpen);
      assert Beside(f, x, open, listOpen) == Beside(f.rest, x, open, listOpen);
    }
  }

  lemma Assoc<T>(a: seq<T>, b: seq<T>, c: seq<T>)
    ensures a + b + c == a + (b + c) && [] + c == c && a + [] == a
  {
  }

  /** The first item after a visible branch is the same with all lists open. */
  lemma {:induction false} AfterHead<T>(f: Forest<T>, x: T, open: set<T>, all: set<T>)
    requires Distinct(f) && x in Walk(f, open) && Items(f) <= all
    ensures x in Items(f)
    ensures After(f, x, open, true) == [] <==> After(f, x, all, true) == []
    ensures After(f, x, open, true) != [] ==> After(f, x, open, true)[0] == After(f, x, all, true)[0]
  {
    WalkItems(f, open);
    WalkItems(f.rest, open);
    WalkItems(f.rest, all);
    if x == f.item {
    } else if x in Items(f.kids) {
      assert f.item in open && x in Walk(f.kids, open);
      AfterHead(f.kids, x, open, all);
    } else {
      WalkItems(f.kids, open);
      AfterHead(f.rest, x, open, all);
    }
  }

  // ------------------------------------------------------------------ next and previous

  /** First child when the item is open, else the first item after its branch. */
  ghost function NextOf<T>(f: Forest<T>, x: T, open: set<T>): Option<T>
    requires x in Items(f)
  {
    if x in open && KidsOf(f, x).Cons? then Some(KidsOf(f, x).item)
    else FirstOf(After(f, x, Items(f), true))
  }

  ghost function FirstOf<T>(s: seq<T>): Option<T> {
    if s == [] then None else Some(s[0])
  }

  ghost function LastOf<T>(s: seq<T>): Option<T> {
    if s == [] then None else Some(s[|s| - 1])
  }

  /** The climb by which the next item is found. */
  lemma ClimbStep<T>(f: Forest<T>, x: T)
    requires Distinct(f) && x in Items(f)
    ensures ParentOf(f, x).Some? ==> ParentOf(f, x).value in Items(f)
    ensures FirstOf(After(f, x, Items(f), true)) ==
            if NextSibling(f, x).Some? then NextSibling(f, x)
            else match ParentOf(f, x) { case None => None case Some(p) => FirstOf(After(f, p, Items(f), true)) }
  {
    ParentFacts(f, x);
    AfterClimb(f, x, Items(f), true);
    WalkItems(LaterOf(f, x), Items(f));
  }

  /** The item that `NextOf` names is the successor in the walk. */
  lemma NextIsSuccessor<T>(f: Forest<T>, open: set<T>, i: nat)
    requires Distinct(f) && i < |Walk(f, open)|
    ensures Walk(f, open)[i] in Items(f)
    ensures NextOf(f, Walk(f, open)[i], open) ==
            if i + 1 < |Walk(f, open)| then Some(Walk(f, open)[i + 1]) else None
  {
    var w := Walk(f, open);
    var x := w[i];
    WalkItems(f, open);
    WalkSplit(f, x, open);
    WalkNoDup(f, open);
    AfterHead(f, x, open, Items(f));
    WalkItems(KidsOf(f, x), open);
    PlaceInSplit(w, i, Before(f, x, open), x, Under(f, x, open), After(f, x, open, true));
  }

  /** Where a list without duplicates is split around `x`, `x` stands. */
  lemma PlaceInSplit<T>(w: seq<T>, i: nat, before: seq<T>, x: T, under: seq<T>, after: seq<T>)
    requires NoDup(w) && w == before + [x] + under + after && i < |w| && w[i] == x
    ensures before == w[..i]
    ensures under + after == w[i + 1..]
    ensures FirstOf(if under != [] then under else after) == if i + 1 < |w| then Some(w[i + 1]) else None
  {
    assert w[|before|] == x;
    assert i == |before|;
  }

  /** The first root followed by `n` steps to the next item. */
  ghost function AfterSteps<T>(f: Forest<T>, open: set<T>, n: nat): (r: Option<T>)
    requires Distinct(f)
    ensures r == if n < |Walk(f, open)| then Some(Walk(f, open)[n]) else None
  {
    WalkItems(f, open);
    if n == 0 then (if f.Nil? then None else Some(f.item))
    else
      var prev := AfterSteps(f, open, n - 1);
      if prev.None? then None
      else
        NextIsSuccessor(f, open, n - 1);
        NextOf(f, prev.value, open)
  }

  /** Stepping through the full tree from the first root meets each item, only once, and stops after
      as many steps as there are items. */
  lemma StepsMeet<T>(f: Forest<T>, x: T) returns (n: nat)
    requires Distinct(f) && x in Items(f)
    ensures n < Size(f) && AfterSteps(f, Items(f), n) == Some(x)
  {
    FullWalk(f, Items(f));
    n :| 0 <= n < |Walk(f, Items(f))| && Walk(f, Items(f))[n] == x;
  }

  lemma StepsOnce<T>(f: Forest<T>, m: nat, n: nat)
    requires Distinct(f)
    ensures AfterSteps(f, Items(f), n).Some? <==> n < Size(f)
    ensures m < n < Size(f) ==> AfterSteps(f, Items(f), m) != AfterSteps(f, Items(f), n)
  {
    FullWalk(f, Items(f));
    WalkNoDup(f, Items(f));
  }

  /** The item before `x` in the walk. */
  ghost function PrevOf<T>(f: Forest<T>, x: T, open: set<T>): Option<T>
    requires x in Items(f)
  {
    LastOf(Before(f, x, open))
  }

  lemma PrevIsPredecessor<T>(f: Forest<T>, open: set<T>, i: nat)
    requires Distinct(f) && i < |Walk(f, open)|
    ensures Walk(f, open)[i] in Items(f)
    ensures PrevOf(f, Walk(f, open)[i], open) == if i == 0 then None else Some(Walk(f, open)[i - 1])
  {
    var w := Walk(f, open);
    var x := w[i];
    WalkSplit(f, x, open);
    WalkNoDup(f, open);
    PlaceInSplit(w, i, Before(f, x, open), x, Under(f, x, open), After(f, x, open, true));
  }

  /** Next and previous are inverse along any walk. */
  lemma NextPrevInverse<T>(f: Forest<T>, open: set<T>, x: T, y: T)
    requires Distinct(f) && x in Walk(f, open) && y in Walk(f, open)
    ensures x in Items(f) && y in Items(f)
    ensures NextOf(f, x, open) == Some(y) <==> PrevOf(f, y, open) == Some(x)
  {
    WalkItems(f, open);
    var w := Walk(f, open);
    var i :| 0 <= i < |w| && w[i] == x;
    var j :| 0 <= j < |w| && w[j] == y;
    NextIsSuccessor(f, open, i);
    PrevIsPredecessor(f, open, j);
    assert (i + 1 < |w| && w[i + 1] == y <==> i + 1 == j) && (j > 0 && w[j - 1] == x <==> i + 1 == j) by {
      WalkNoDup(f, open);
    }
  }

  /** What comes before an item, one step at a time: its previous sibling's branch, or its parent. */
  ghost predicate StepsBack<T>(f: Forest<T>, x: T, open: set<T>)
    requires x in Items(f)
  {
    match PrevSibling(f, x)
    case Some(y) => y in Items(f) && Before(f, x, open) == Before(f, y, open) + [y] + Under(f, y, open)
    case None =>
      match ParentOf(f, x)
      case None => Before(f, x, open) == []
      case Some(p) => p in Items(f) && Before(f, x, open) == Before(f, p, open) + [p]
  }

  lemma {:induction false} BeforeStep<T>(f: Forest<T>, x: T, open: set<T>)
    requires Distinct(f) && x in Items(f)
    ensures StepsBack(f, x, open)
  {
    if x == f.item {
    } else if x in Items(f.kids) {
      BeforeStep(f.kids, x, open);
      BeforeStepDown(f, x, open);
    } else {
      BeforeStep(f.rest, x, open);
      BeforeStepAlong(f, x, open);
    }
  }

  lemma BeforeStepDown<T>(f: Forest<T>, x: T, open: set<T>)
    requires Distinct(f) && x in Items(f) && x != f.item && x in Items(f.kids)
    requires StepsBack(f.kids, x, open)
    ensures StepsBack(f, x, open)
  {
    if PrevSibling(f, x).Some? {
      var y := PrevSibling(f, x).value;
      assert KidsOf(f, y) == KidsOf(f.kids, y);
      Regroup([f.item], Before(f.kids, x, open), [], Before(f.kids, y, open), [y], Under(f.kids, y, open), []);
    } else if ParentOf(f.kids, x).Some? {
      var p := ParentOf(f.kids, x).value;
      assert Before(f, p, open) == [f.item] + Before(f.kids, p, open);
    }
  }

  lemma BeforeStepAlong<T>(f: Forest<T>, x: T, open: set<T>)
    requires Distinct(f) && x in Items(f) && x != f.item && x !in Items(f.kids)
    requires StepsBack(f.rest, x, open)
    ensures StepsBack(f, x, open)
  {
    if Head(f.rest) == Some(x) {
      var k := [f.item] + (if f.item in open then Walk(f.kids, open) else []);
      assert k == [] + [f.item] + Under(f, f.item, open);
    } else if PrevSibling(f.rest, x).Some? {
      AlongSibling(f, x, PrevSibling(f.rest, x).value, open);
    } else if ParentOf(f.rest, x).Some? {
      AlongParent(f, x, ParentOf(f.rest, x).value, open);
    } else {
      FirstRoot(f.rest, x);
    }
  }

  lemma Regroup3<T>(p: seq<T>, a: seq<T>, b: seq<T>, c: seq<T>)
    ensures p + (a + b + c) == (p + a) + b + c
  {
  }

  lemma AlongSibling<T>(f: Forest<T>, x: T, y: T, open: set<T>)
    requires Distinct(f) && f.Cons? && x in Items(f.rest) && x != f.item && x !in Items(f.kids)
    requires PrevSibling(f.rest, x) == Some(y) && StepsBack(f.rest, x, open) && Head(f.rest) != Some(x)
    ensures StepsBack(f, x, open)
  {
    var k := [f.item] + (if f.item in open then Walk(f.kids, open) else []);
    var b, under := Before(f.rest, y, open), Under(f.rest, y, open);
    assert PrevSibling(f, x) == Some(y) && Under(f, y, open) == under;
    assert Before(f, y, open) == k + b && Before(f, x, open) == k + (b + [y] + under);
    Regroup3(k, b, [y], under);
  }

  lemma AlongParent<T>(f: Forest<T>, x: T, p: T, open: set<T>)
    requires Distinct(f) && f.Cons? && x in Items(f.rest) && x != f.item && x !in Items(f.kids)
    requires PrevSibling(f.rest, x) == None && ParentOf(f.rest, x) == Some(p) && StepsBack(f.rest, x, open)
    requires Head(f.rest) != Some(x)
    ensures StepsBack(f, x, open)
  {
    var k := [f.item] + (if f.item in open then Walk(f.kids, open) else []);
    assert Before(f, p, open) == k + Before(f.rest, p, open);
  }

  /** A root without a previous sibling is the first. */
  lemma {:induction false} FirstRoot<T>(f: Forest<T>, x: T)
    requires Distinct(f) && x in Items(f) && ParentOf(f, x).None? && PrevSibling(f, x).None?
    ensures x == f.item
  {
    if x != f.item {
      FirstRoot(f.rest, x);
    }
  }

  /** The last item of a walk is the last one under the last root. */
  lemma {:induction false} LastOfWalk<T>(f: Forest<T>, open: set<T>)
    requires Distinct(f) && f.Cons?
    ensures Roots(f) != [] && Roots(f)[|Roots(f)| - 1] in Items(f)
    ensures var z := Roots(f)[|Roots(f)| - 1];
            LastOf(Walk(f, open)) == LastOf([z] + Under(f, z, open))
  {
    RootsAreItems(f);
    if f.rest.Cons? {
      LastOfWalk(f.rest, open);
      WalkItems(f.rest, open);
      var z := Roots(f.rest)[|Roots(f.rest)| - 1];
      assert z == Roots(f)[|Roots(f)| - 1] && z in Items(f.rest);
      assert Under(f, z, open) == Under(f.rest, z, open);
      LastOfConcat([f.item] + (if f.item in open then Walk(f.kids, open) else []), Walk(f.rest, open));
    } else {
      assert Roots(f) == [f.item];
    }
  }

  lemma LastOfConcat<T>(a: seq<T>, b: seq<T>)
    requires b != []
    ensures LastOf(a + b) == LastOf(b)
  {
  }

  /** The last item under an open item is the last one of its last child's branch. */
  lemma LastUnder<T>(f: Forest<T>, x: T, open: set<T>)
    requires Distinct(f) && x in Items(f) && x in open && ChildrenOf(f, x) != []
    ensures var z := ChildrenOf(f, x)[|ChildrenOf(f, x)| - 1];
            && z in Items(f)
            && Size(KidsOf(f, z)) < Size(KidsOf(f, x))
            && LastOf([x] + Under(f, x, open)) == LastOf([z] + Under(f, z, open))
  {
    var k := KidsOf(f, x);
    var z := Roots(k)[|Roots(k)| - 1];
    KidsInside(f, x);
    LastOfWalk(k, open);
    WalkItems(k, open);
    LastOfConcat([x], Walk(k, open));
    KidsInside(k, z);
    assert KidsOf(k, z) == KidsOf(f, z);
    assert Under(k, z, open) == Under(f, z, open);
  }

  // ------------------------------------------------------------------ ranges

  /** The start of `s` up to and including the first `x`; all of `s` when `x` is not there. */
  ghost function UpTo<T>(s: seq<T>, x: T): seq<T> {
    if s == [] then [] else if s[0] == x then [x] else [s[0]] + UpTo(s[1..], x)
  }

  lemma {:induction false} UpToConcat<T>(a: seq<T>, b: seq<T>, x: T)
    ensures x in a ==> UpTo(a + b, x) == UpTo(a, x)
    ensures x !in a ==> UpTo(a, x) == a && UpTo(a + b, x) == a + UpTo(b, x)
  {
    if a == [] {
      assert a + b == b;
    } else {
      assert (a + b)[1..] == a[1..] + b;
      UpToConcat(a[1..], b, x);
      assert a == [a[0]] + a[1..];
    }
  }

  lemma {:induction false} UpToMembers<T>(s: seq<T>, x: T)
    ensures forall y :: y in UpTo(s, x) ==> y in s
  {
    if s != [] { UpToMembers(s[1..], x); }
  }

  lemma {:induction false} AfterItems<T>(f: Forest<T>, x: T, open: set<T>, listOpen: bool)
    requires x in Items(f)
    ensures forall y :: y in After(f, x, open, listOpen) ==> y in Items(f)
  {
    WalkItems(f.rest, open);
    if x == f.item {
    } else if x in Items(f.kids) {
      AfterItems(f.kids, x, open, f.item in open);
    } else {
      AfterItems(f.rest, x, open, listOpen);
    }
  }

  /** From the place of one item to the place of another. */
  lemma RangeUpTo<T>(s: seq<T>, i: nat, j: nat)
    requires NoDup(s) && i <= j < |s|
    ensures UpTo(s[i..], s[j]) == s[i..j + 1]
  {
    assert s[i..] == s[i..j] + s[j..];
    UpToConcat(s[i..j], s[j..], s[j]);
  }

  /** A rearrangement of a list without duplicates has none, and the same members. */
  lemma SameBag<T>(s: seq<T>, t: seq<T>)
    requires NoDup(s) && multiset(t) == multiset(s)
    ensures NoDup(t) && |t| == |s| && forall x :: x in t <==> x in s
  {
    assert |multiset(t)| == |t| && |multiset(s)| == |s|;
    forall x ensures x in t <==> x in s { assert x in multiset(t) <==> x in multiset(s); }
    forall i, j | 0 <= i < j < |t| ensures t[i] != t[j] {
      if t[i] == t[j] {
        Twice(t, i, j);
        Once(s, t[i]);
      }
    }
  }

  lemma Twice<T>(t: seq<T>, i: nat, j: nat)
    requires i < j < |t| && t[i] == t[j]
    ensures multiset(t)[t[i]] >= 2
  {
    assert t == t[..j] + t[j..];
    assert t[i] in t[..j] && t[j] in t[j..];
    assert multiset(t) == multiset(t[..j]) + multiset(t[j..]);
  }

  lemma {:induction false} Once<T>(s: seq<T>, x: T)
    requires NoDup(s)
    ensures multiset(s)[x] <= 1
  {
    if s != [] {
      Once(s[1..], x);
      assert s == [s[0]] + s[1..];
      assert x in multiset(s[1..]) ==> x in s[1..];
    }
  }

  ghost function Elements<T>(s: seq<T>): set<T> {
    set i | i in s
  }

  /** A place of `x`; the only one in a list without duplicates. */
  ghost function IndexIn<T>(s: seq<T>, x: T): (i: nat)
    requires x in s
    ensures i < |s| && s[i] == x
  {
    var i :| 0 <= i < |s| && s[i] == x;
    i
  }

  /** The items of `s` from `a` to `b`, whichever comes first, both included. */
  ghost function Range<T>(s: seq<T>, a: T, b: T): set<T>
    requires a in s && b in s
  {
    var i, j := IndexIn(s, a), IndexIn(s, b);
    Elements(if i <= j then s[i..j + 1] else s[j..i + 1])
  }

  lemma RangeSwap<T>(s: seq<T>, a: T, b: T)
    requires a in s && b in s
    ensures Range(s, a, b) == Range(s, b, a)
  {
  }

  lemma RangeAt<T>(s: seq<T>, a: T, b: T)
    requires a in s && b in s && IndexIn(s, a) <= IndexIn(s, b)
    ensures Range(s, a, b) == Elements(s[IndexIn(s, a)..IndexIn(s, b) + 1])
  {
  }

  /** Taking the walk from `a` on until `b` gives their range. */
  lemma RangeFrom<T>(f: Forest<T>, open: set<T>, a: T, b: T, rest: seq<T>)
    requires Distinct(f) && a in Walk(f, open) && b in Walk(f, open)
    requires IndexIn(Walk(f, open), a) <= IndexIn(Walk(f, open), b)
    ensures a in Items(f)
    ensures Elements(UpTo([a] + Under(f, a, open) + After(f, a, open, true) + rest, b)) == Range(Walk(f, open), a, b)
  {
    WalkNoDup(f, open);
    WalkSplit(f, a, open);
    var before, under, after := Before(f, a, open), Under(f, a, open), After(f, a, open, true);
    assert before + [a] + under + after == before + ([a] + under + after);
    RangeOfTail(Walk(f, open), before, [a] + under + after, a, b, rest);
  }


  lemma RangeOfTail<T>(w: seq<T>, before: seq<T>, tail: seq<T>, a: T, b: T, rest: seq<T>)
    requires NoDup(w) && a in w && b in w && IndexIn(w, a) <= IndexIn(w, b)
    requires w == before + tail && tail != [] && tail[0] == a
    ensures Elements(UpTo(tail + rest, b)) == Range(w, a, b)
  {
    var j := IndexIn(w, b);
    assert w[|before|] == a;
    RangeInTail(before, tail, rest, j);
  }

  lemma RangeInTail<T>(before: seq<T>, tail: seq<T>, rest: seq<T>, j: nat)
    requires NoDup(before + tail) && |before| <= j < |before + tail|
    ensures UpTo(tail + rest, (before + tail)[j]) == (before + tail)[|before|..j + 1]
  {
    var w := before + tail;
    TailFrom(before, tail, j);
    UpToConcat(tail, rest, w[j]);
    RangeUpTo(w, |before|, j);
  }

  lemma TailFrom<T>(before: seq<T>, tail: seq<T>, j: nat)
    requires |before| <= j < |before + tail|
    ensures (before + tail)[|before|..] == tail && (before + tail)[j] in tail
  {
    assert (before + tail)[j] == tail[j - |before|];
  }

  /** A range does not change when an item in front of all is left out. */
  lemma IndexTail<T>(x: T, s: seq<T>, a: T)
    requires a in s && NoDup([x] + s)
    ensures a in [x] + s && IndexIn([x] + s, a) == IndexIn(s, a) + 1
  {
    var i := IndexIn(s, a);
    assert ([x] + s)[i + 1] == a;
    OnlyPlace([x] + s, a, i + 1);
  }

  lemma RangeTail<T>(x: T, s: seq<T>, a: T, b: T)
    requires a in s && b in s && NoDup([x] + s)
    ensures a in [x] + s && b in [x] + s
    ensures IndexIn([x] + s, a) == IndexIn(s, a) + 1 && IndexIn([x] + s, b) == IndexIn(s, b) + 1
    ensures Range([x] + s, a, b) == Range(s, a, b)
  {
    IndexTail(x, s, a);
    IndexTail(x, s, b);
    forall i, j {:trigger s[i..j]} | 0 <= i <= j <= |s|
      ensures Elements(([x] + s)[i + 1..j + 1]) == Elements(s[i..j])
    {
      SliceTail(x, s, i, j);
    }
    RangeShift([x] + s, s, a, b);
  }

  lemma RangeShift<T>(w: seq<T>, s: seq<T>, a: T, b: T)
    requires a in s && b in s && a in w && b in w
    requires IndexIn(w, a) == IndexIn(s, a) + 1 && IndexIn(w, b) == IndexIn(s, b) + 1
    requires |w| == |s| + 1
    requires forall i, j {:trigger s[i..j]} :: 0 <= i <= j <= |s| ==> Elements(w[i + 1..j + 1]) == Elements(s[i..j])
    ensures Range(w, a, b) == Range(s, a, b)
  {
    var i, j := IndexIn(s, a), IndexIn(s, b);
    if i <= j {
      assert Elements(s[i..j + 1]) == Elements(w[i + 1..j + 2]);
    } else {
      assert Elements(s[j..i + 1]) == Elements(w[j + 1..i + 2]);
    }
  }

  lemma SliceTail<T>(x: T, s: seq<T>, i: nat, j: nat)
    requires i <= j <= |s|
    ensures Elements(([x] + s)[i + 1..j + 1]) == Elements(s[i..j])
  {
    assert ([x] + s)[i + 1..j + 1] == s[i..j];
  }

  lemma NotInTail<T>(s: seq<T>, x: T, i: nat)
    requires NoDup(s) && x in s && IndexIn(s, x) < i <= |s|
    ensures x !in s[i..]
  {
    assert forall k :: 0 <= k < |s[i..]| ==> s[i..][k] == s[i + k];
  }

  /** Going from the later of two items past the end and from the top to the earlier one gives what is between
      them only if there is nothing else. */
  lemma WrongWayRound<T>(s: seq<T>, i: nat, j: nat)
    requires NoDup(s) && i < j < |s|
    ensures Elements(UpTo(s[j..] + s, s[i])) == Elements(s[i..j + 1]) <==> |s| == 2
  {
    assert s[i] !in s[..i] && s[i] !in s[j..] by {
      InPart(s, 0, i, i);
      InPart(s, j, |s|, i);
      assert s[0..i] == s[..i] && s[j..|s|] == s[j..];
    }
    UpToRound(s, i, j);
    RoundSet(s, i, j);
  }

  lemma UpToRound<T>(s: seq<T>, i: nat, j: nat)
    requires i < j < |s| && s[i] !in s[..i] && s[i] !in s[j..]
    ensures UpTo(s[j..] + s, s[i]) == s[j..] + s[..i + 1]
  {
    UpToConcat(s[j..], s, s[i]);
    assert forall k :: 0 <= k < i ==> s[..i][k] == s[k];
    UpToFirst(s, i);
  }

  lemma {:induction false} UpToFirst<T>(s: seq<T>, i: nat)
    requires i < |s| && forall k :: 0 <= k < i ==> s[k] != s[i]
    ensures UpTo(s, s[i]) == s[..i + 1]
  {
    if i > 0 {
      UpToFirst(s[1..], i - 1);
      assert s[..i + 1] == [s[0]] + s[1..][..i];
    }
  }

  lemma RoundSet<T>(s: seq<T>, i: nat, j: nat)
    requires NoDup(s) && i < j < |s|
    ensures Elements(s[j..] + s[..i + 1]) == Elements(s[i..j + 1]) <==> |s| == 2
  {
    if |s| == 2 {
      assert s[j..] + s[..i + 1] == [s[1], s[0]] && s[i..j + 1] == [s[0], s[1]];
    } else {
      var m := if j < |s| - 1 then |s| - 1 else if i > 0 then 0 else i + 1;
      InRound(s, i, j, m);
      InPart(s, i, j + 1, m);
      assert s[m] in Elements(s[j..] + s[..i + 1]) <==> s[m] !in Elements(s[i..j + 1]);
    }
  }

  lemma InRound<T>(s: seq<T>, i: nat, j: nat, m: nat)
    requires NoDup(s) && i < j < |s| && m < |s|
    ensures s[m] in s[j..] + s[..i + 1] <==> m <= i || j <= m
  {
    InPart(s, j, |s|, m);
    InPart(s, 0, i + 1, m);
    assert s[j..|s|] == s[j..] && s[0..i + 1] == s[..i + 1];
  }

  lemma InPart<T>(s: seq<T>, lo: nat, hi: nat, m: nat)
    requires NoDup(s) && lo <= hi <= |s| && m < |s|
    ensures s[m] in s[lo..hi] <==> lo <= m < hi
  {
    if lo <= m < hi { assert s[lo..hi][m - lo] == s[m]; }
  }

  lemma OnlyPlace<T>(s: seq<T>, x: T, i: nat)
    requires NoDup(s) && i < |s| && s[i] == x
    ensures IndexIn(s, x) == i
  {
  }
}
