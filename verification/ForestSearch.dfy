/** A search that steps through a forest from a start item and goes round to it: which items it looks at, in
    which order, and when it ends. */
module ForestSearch {
  import opened Basics
  import opened OrderedForest
  import opened ForestWalk

  /** How a search steps: through all items, through expanded ones, or along a list of siblings. */
  datatype Mode = FullTree | ExpandedOnly | Level

  /** A search in the tree `f`, with a hidden root or not, from `item` if there is one. */
  datatype Search<T> = Search(f: Forest<T>, hidden: bool, item: Option<T>, mode: Mode, open: set<T>)

  ghost predicate Sound<T>(q: Search<T>) {
    && Distinct(q.f)
    && (q.f.Cons? ==> q.f.rest.Nil?)
    && (q.item.Some? ==> q.item.value in Items(q.f))
  }

  // ------------------------------------------------------------------ the items after an item

  /** All that stepping from `x` by `NextOf` comes to, whether `x` is itself in the walk or not. */
  ghost function Chain<T>(f: Forest<T>, x: T, open: set<T>): seq<T>
    requires x in Items(f)
  {
    if x == f.item then (if x in open then Walk(f.kids, open) else []) + Walk(f.rest, open)
    else if x in Items(f.kids) then Chain(f.kids, x, open) + Walk(f.rest, open)
    else Chain(f.rest, x, open)
  }

  lemma {:induction false} ChainHead<T>(f: Forest<T>, x: T, open: set<T>, all: set<T>)
    requires Distinct(f) && x in Items(f) && Items(f) <= all
    ensures FirstOf(Chain(f, x, open)) ==
            if x in open && KidsOf(f, x).Cons? then Some(KidsOf(f, x).item) else FirstOf(After(f, x, all, true))
  {
    WalkItems(f.rest, open);
    WalkItems(f.rest, all);
    if x == f.item {
      WalkItems(f.kids, open);
    } else if x in Items(f.kids) {
      ChainHead(f.kids, x, open, all);
    } else {
      ChainHead(f.rest, x, open, all);
    }
  }

  lemma {:induction false} ChainItems<T>(f: Forest<T>, x: T, open: set<T>)
    requires Distinct(f) && x in Items(f)
    ensures forall y :: y in Chain(f, x, open) ==> y in Items(f) && y != x
  {
    WalkItems(f.rest, open);
    if x == f.item {
      WalkItems(f.kids, open);
    } else if x in Items(f.kids) {
      ChainItems(f.kids, x, open);
    } else {
      ChainItems(f.rest, x, open);
    }
  }

  /** The chain of `x` is its first item and the chain of that one. */
  ghost predicate StepsOn<T>(f: Forest<T>, x: T, open: set<T>)
    requires x in Items(f)
  {
    var c := Chain(f, x, open);
    c != [] ==> c[0] in Items(f) && c == [c[0]] + Chain(f, c[0], open)
  }

  lemma {:induction false} ChainStep<T>(f: Forest<T>, x: T, open: set<T>)
    requires Distinct(f) && x in Items(f)
    ensures StepsOn(f, x, open)
  {
    if x == f.item {
      if x in open && f.kids.Cons? {
        WalkStep(f.kids, open);
        Assoc([f.kids.item], Chain(f.kids, f.kids.item, open), Walk(f.rest, open));
      } else if f.rest.Cons? {
        WalkStep(f.rest, open);
        Assoc(Walk(f.rest, open), [], []);
      }
    } else if x in Items(f.kids) {
      ChainStep(f.kids, x, open);
      var c, later := Chain(f.kids, x, open), Walk(f.rest, open);
      if c != [] {
        Assoc([c[0]], Chain(f.kids, c[0], open), later);
      } else if f.rest.Cons? {
        WalkStep(f.rest, open);
        Assoc(Walk(f.rest, open), [], []);
      }
    } else {
      ChainStep(f.rest, x, open);
    }
  }

  /** A walk is its first item and the chain of that one. */
  lemma WalkStep<T>(g: Forest<T>, open: set<T>)
    requires g.Cons?
    ensures Walk(g, open) == [g.item] + Chain(g, g.item, open)
  {
    Assoc([g.item], if g.item in open then Walk(g.kids, open) else [], Walk(g.rest, open));
  }

  /** The later siblings of an item, one after the other. */
  lemma {:induction false} SiblingStep<T>(f: Forest<T>, x: T)
    requires Distinct(f) && x in Items(f)
    ensures forall y :: y in Roots(LaterOf(f, x)) ==> y in Items(f) && y != x
    ensures var c := Roots(LaterOf(f, x)); c != [] ==> c[0] in Items(f) && c == [c[0]] + Roots(LaterOf(f, c[0]))
  {
    RootsAreItems(f.rest);
    if x == f.item {
    } else if x in Items(f.kids) {
      SiblingStep(f.kids, x);
    } else {
      SiblingStep(f.rest, x);
    }
  }

  /** The next sibling is on the chain. */
  lemma {:induction false} SiblingOnChain<T>(f: Forest<T>, x: T, open: set<T>)
    requires Distinct(f) && x in Items(f) && NextSibling(f, x).Some?
    ensures NextSibling(f, x).value in Chain(f, x, open)
  {
    if x == f.item {
      WalkItems(f.rest, open);
      assert Walk(f.rest, open)[0] in Walk(f.rest, open);
    } else if x in Items(f.kids) {
      SiblingOnChain(f.kids, x, open);
    } else {
      SiblingOnChain(f.rest, x, open);
    }
  }

  /** The item a search steps to from `x`. */
  ghost function Step<T>(q: Search<T>, x: T): Option<T>
    requires x in Items(q.f)
  {
    match q.mode
    case FullTree => NextOf(q.f, x, Items(q.f))
    case ExpandedOnly => NextOf(q.f, x, q.open)
    case Level => NextSibling(q.f, x)
  }

  /** All the items that stepping from `x` comes to. */
  ghost function Trail<T>(q: Search<T>, x: T): seq<T>
    requires x in Items(q.f)
  {
    match q.mode
    case FullTree => Chain(q.f, x, Items(q.f))
    case ExpandedOnly => Chain(q.f, x, q.open)
    case Level => Roots(LaterOf(q.f, x))
  }

  lemma TrailStep<T>(q: Search<T>, x: T)
    requires Sound(q) && x in Items(q.f)
    ensures Step(q, x) == FirstOf(Trail(q, x))
    ensures forall y :: y in Trail(q, x) ==> y in Items(q.f) && y != x
    ensures var c := Trail(q, x); c != [] ==> c[0] in Items(q.f) && c == [c[0]] + Trail(q, c[0])
  {
    match q.mode
    case Level => SiblingStep(q.f, x);
    case _ =>
      var open := if q.mode == FullTree then Items(q.f) else q.open;
      ChainHead(q.f, x, open, Items(q.f));
      ChainItems(q.f, x, open);
      ChainStep(q.f, x, open);
  }

  lemma SiblingOnTrail<T>(q: Search<T>, x: T)
    requires Sound(q) && x in Items(q.f) && NextSibling(q.f, x).Some?
    ensures NextSibling(q.f, x).value in Trail(q, x)
  {
    match q.mode
    case Level => assert Roots(LaterOf(q.f, x))[0] == NextSibling(q.f, x).value;
    case _ => SiblingOnChain(q.f, x, if q.mode == FullTree then Items(q.f) else q.open);
  }

  /** `x` and what comes after it. */
  ghost function Onward<T>(q: Search<T>, x: T): seq<T>
    requires x in Items(q.f)
  {
    [x] + Trail(q, x)
  }

  /** The end of a trail is a trail. */
  lemma {:induction false} TrailAt<T>(q: Search<T>, x: T, i: nat)
    requires Sound(q) && x in Items(q.f) && i < |Onward(q, x)|
    ensures Onward(q, x)[i] in Items(q.f)
    ensures Onward(q, Onward(q, x)[i]) == Onward(q, x)[i..]
    decreases i
  {
    if i > 0 {
      TrailStep(q, x);
      var y := Trail(q, x)[0];
      assert Onward(q, y) == Trail(q, x) == Onward(q, x)[1..];
      TrailAt(q, y, i - 1);
      assert Onward(q, x)[1..][i - 1..] == Onward(q, x)[i..];
    }
  }

  /** From an item of a trail one steps to the next one. */
  lemma StepAt<T>(q: Search<T>, x: T, i: nat)
    requires Sound(q) && x in Items(q.f) && i < |Onward(q, x)|
    ensures Onward(q, x)[i] in Items(q.f)
    ensures Step(q, Onward(q, x)[i]) == if i + 1 < |Onward(q, x)| then Some(Onward(q, x)[i + 1]) else None
  {
    TrailAt(q, x, i);
    TrailStep(q, Onward(q, x)[i]);
    assert Trail(q, Onward(q, x)[i]) == Onward(q, x)[i + 1..];
  }

  // ------------------------------------------------------------------ the search

  /** The item to be looked at, if any, and which child of a hidden root the search last went round to. */
  datatype Probe<T> = Probe(next: Option<T>, cookie: nat)

  ghost function Child<T>(q: Search<T>, j: nat): Option<T> {
    if q.f.Cons? && j < |Roots(q.f.kids)| then Some(Roots(q.f.kids)[j]) else None
  }

  /** The first item looked at: the one after the start item, or the top. */
  ghost function FirstProbe<T>(q: Search<T>): Probe<T>
    requires Sound(q)
  {
    var next := if q.item.Some? then Step(q, q.item.value) else None;
    Probe(if next.Some? then next else if q.hidden then Child(q, 0) else Head(q.f), 0)
  }

  /** The next item looked at.  A search with a start item goes round: to the root, or to the next child of a
      hidden root, until there is none. */
  ghost function NextProbe<T>(q: Search<T>, p: Probe<T>): Probe<T>
    requires p.next.Some? ==> p.next.value in Items(q.f)
  {
    if p.next.None? then p
    else
      var next := Step(q, p.next.value);
      if next.Some? || q.item.None? then p.(next := next)
      else if !q.hidden then p.(next := Head(q.f))
      else if Child(q, p.cookie + 1).Some? then Probe(Child(q, p.cookie + 1), p.cookie + 1)
      else p.(next := None)
  }

  ghost function ProbeAt<T>(q: Search<T>, n: nat): (p: Probe<T>)
    requires Sound(q)
    ensures p.next.Some? ==> p.next.value in Items(q.f)
  {
    if n == 0 then
      FirstProbeInside(q);
      FirstProbe(q)
    else
      NextProbeInside(q, ProbeAt(q, n - 1));
      NextProbe(q, ProbeAt(q, n - 1))
  }

  lemma ChildInside<T>(q: Search<T>, j: nat)
    ensures Child(q, j).Some? ==> Child(q, j).value in Items(q.f)
  {
    if q.f.Cons? { RootsAreItems(q.f.kids); }
  }

  lemma FirstProbeInside<T>(q: Search<T>)
    requires Sound(q)
    ensures var p := FirstProbe(q); p.next.Some? ==> p.next.value in Items(q.f)
  {
    ChildInside(q, 0);
    if q.item.Some? { TrailStep(q, q.item.value); }
  }

  lemma NextProbeInside<T>(q: Search<T>, p: Probe<T>)
    requires Sound(q) && (p.next.Some? ==> p.next.value in Items(q.f))
    ensures var p := NextProbe(q, p); p.next.Some? ==> p.next.value in Items(q.f)
  {
    ChildInside(q, p.cookie + 1);
    if p.next.Some? { TrailStep(q, p.next.value); }
  }

  /** The search stops at nothing, at its start item, or at a hit. */
  ghost predicate Stops<T>(q: Search<T>, hits: set<T>, p: Probe<T>) {
    p.next.None? || p.next == q.item || p.next.value in hits
  }

  /** It did not stop in the first `n` probes. */
  ghost predicate Unstopped<T>(q: Search<T>, hits: set<T>, n: nat)
    requires Sound(q)
  {
    forall j: nat :: j < n ==> !Stops(q, hits, ProbeAt(q, j))
  }

  ghost predicate Ends<T>(q: Search<T>, hits: set<T>)
    requires Sound(q)
  {
    exists n: nat :: Stops(q, hits, ProbeAt(q, n))
  }

  // ------------------------------------------------------------------ the order of looking

  ghost function Ahead<T>(q: Search<T>): seq<T>
    requires Sound(q)
  {
    if q.item.Some? then Trail(q, q.item.value) else []
  }

  /** All that a search meets from the root. */
  ghost function Round<T>(q: Search<T>): seq<T>
    requires Sound(q)
  {
    if q.f.Cons? then Onward(q, q.f.item) else []
  }

  /** All that it meets from a child of the root. */
  ghost function FromChild<T>(q: Search<T>, j: nat): seq<T>
    requires Sound(q)
  {
    ChildInside(q, j);
    if Child(q, j).Some? then Onward(q, Child(q, j).value) else []
  }

  /** The child of a hidden root from which a search first goes on: the second, unless there is nothing after
      the start item. */
  ghost function Start<T>(q: Search<T>): nat
    requires Sound(q)
  {
    if Ahead(q) == [] then 0 else 1
  }

  /** What is met after the items ahead. */
  ghost function Wrap<T>(q: Search<T>): seq<T>
    requires Sound(q)
  {
    if q.hidden then FromChild(q, Start(q)) else Round(q)
  }

  /** `s` up to but not including the first `x`. */
  ghost function Until<T>(s: seq<T>, x: Option<T>): seq<T> {
    if s == [] || Some(s[0]) == x then [] else [s[0]] + Until(s[1..], x)
  }

  lemma {:induction false} UntilIsPrefix<T>(s: seq<T>, x: Option<T>)
    ensures |Until(s, x)| <= |s| && Until(s, x) == s[..|Until(s, x)|]
    ensures forall i :: 0 <= i < |Until(s, x)| ==> Some(s[i]) != x
    ensures |Until(s, x)| < |s| ==> Some(s[|Until(s, x)|]) == x
  {
    if s != [] && Some(s[0]) != x {
      UntilIsPrefix(s[1..], x);
      assert s == [s[0]] + s[1..];
    }
  }

  /** The items that a search looks at, in order, unless it stops at a hit before. */
  ghost function Order<T>(q: Search<T>): seq<T>
    requires Sound(q)
  {
    Ahead(q) + Until(Wrap(q), q.item)
  }

  /** The items that are met before the search goes round a second time. */
  ghost function Met<T>(q: Search<T>): seq<T>
    requires Sound(q)
  {
    Ahead(q) + Wrap(q)
  }

  /** Where a search is after `n` steps that did not take it round twice. */
  ghost function Place<T>(q: Search<T>, n: nat): Probe<T>
    requires Sound(q) && n < |Met(q)|
  {
    Probe(Some(Met(q)[n]), if q.hidden && n >= |Ahead(q)| then Start(q) else 0)
  }

  /** The probes go through what is ahead and then through what comes after going round. */
  lemma ProbeIs<T>(q: Search<T>, n: nat)
    requires Sound(q) && n < |Met(q)|
    ensures ProbeAt(q, n) == Place(q, n)
  {
    var ps := PlacesTraced(q);
    TraceIs(q, ps, n);
  }

  lemma PlacesTraced<T>(q: Search<T>) returns (ps: seq<Probe<T>>)
    requires Sound(q) && Met(q) != []
    ensures |ps| == |Met(q)| && (forall i :: 0 <= i < |ps| ==> ps[i] == Place(q, i)) && Traced(q, ps)
  {
    ps := seq(|Met(q)|, i requires 0 <= i < |Met(q)| => Place(q, i));
    FirstPlace(q);
    forall i {:trigger TracedAt(q, ps, i)} | 0 <= i < |ps| - 1 ensures TracedAt(q, ps, i) {
      NextPlace(q, i);
    }
  }

  /** Each probe is the one after the one before. */
  ghost predicate Traced<T>(q: Search<T>, ps: seq<Probe<T>>)
    requires Sound(q)
  {
    && ps != [] && ps[0] == FirstProbe(q)
    && forall i {:trigger TracedAt(q, ps, i)} :: 0 <= i < |ps| - 1 ==> TracedAt(q, ps, i)
  }

  ghost predicate TracedAt<T>(q: Search<T>, ps: seq<Probe<T>>, i: nat)
    requires i + 1 < |ps|
  {
    && (ps[i].next.Some? ==> ps[i].next.value in Items(q.f))
    && NextProbe(q, ps[i]) == ps[i + 1]
  }

  lemma {:induction false} TraceIs<T>(q: Search<T>, ps: seq<Probe<T>>, n: nat)
    requires Sound(q) && Traced(q, ps) && n < |ps|
    ensures ProbeAt(q, n) == ps[n]
  {
    if n > 0 {
      TraceIs(q, ps, n - 1);
      assert TracedAt(q, ps, n - 1);
    }
  }

  lemma ProbeNext<T>(q: Search<T>, n: nat, was: Probe<T>, now: Probe<T>)
    requires Sound(q) && n > 0 && ProbeAt(q, n - 1) == was
    requires (was.next.Some? ==> was.next.value in Items(q.f)) && NextProbe(q, was) == now
    ensures ProbeAt(q, n) == now
  {
  }

  lemma FirstPlace<T>(q: Search<T>)
    requires Sound(q) && Met(q) != []
    ensures FirstProbe(q) == Place(q, 0)
  {
    if q.item.Some? { TrailStep(q, q.item.value); }
  }

  lemma NextPlace<T>(q: Search<T>, n: nat)
    requires Sound(q) && n + 1 < |Met(q)|
    ensures Met(q)[n] in Items(q.f) && NextProbe(q, Place(q, n)) == Place(q, n + 1)
  {
    var m := |Ahead(q)|;
    if n < m {
      AheadStep(q, n);
    } else {
      WrapStep(q, n - m);
    }
  }

  lemma AheadStep<T>(q: Search<T>, i: nat)
    requires Sound(q) && i < |Ahead(q)|
    ensures Ahead(q)[i] in Items(q.f)
    ensures Step(q, Ahead(q)[i]) == if i + 1 < |Ahead(q)| then Some(Ahead(q)[i + 1]) else None
  {
    StepAt(q, q.item.value, i + 1);
  }

  lemma WrapStep<T>(q: Search<T>, i: nat)
    requires Sound(q) && i < |Wrap(q)|
    ensures Wrap(q)[i] in Items(q.f)
    ensures Step(q, Wrap(q)[i]) == if i + 1 < |Wrap(q)| then Some(Wrap(q)[i + 1]) else None
  {
    ChildInside(q, Start(q));
    StepAt(q, if q.hidden then Child(q, Start(q)).value else q.f.item, i);
  }

  /** Without a start item the search is over after them. */
  lemma NoStartEnds<T>(q: Search<T>)
    requires Sound(q) && q.item.None?
    ensures ProbeAt(q, |Wrap(q)|).next.None?
  {
    if Wrap(q) != [] {
      var n := |Wrap(q)| - 1;
      ProbeIs(q, n);
      WrapStep(q, n);
      ProbeNext(q, n + 1, Place(q, n), NextProbe(q, Place(q, n)));
    }
  }

  /** The children of a hidden root that are still to come are met from an earlier one. */
  lemma {:induction false} ChildMet<T>(q: Search<T>, c: nat, j: nat)
    requires Sound(q) && c <= j && Child(q, j).Some?
    ensures Child(q, j).value in FromChild(q, c)
    decreases j - c
  {
    ChildInside(q, c);
    if c < j {
      ChildMet(q, c + 1, j);
      var x := Child(q, c).value;
      SiblingIndex(q.f, q.f.item, c);
      SiblingOnTrail(q, x);
      var i :| 0 <= i < |Trail(q, x)| && Trail(q, x)[i] == Child(q, c + 1).value;
      TrailAt(q, x, i + 1);
    }
  }

  /** However often it goes round, a search looks at no other items. */
  lemma {:induction false} LooksNowhereElse<T>(q: Search<T>, n: nat)
    requires Sound(q)
    ensures ProbeAt(q, n).next.Some? ==> ProbeAt(q, n).next.value in Met(q)
  {
    if n == 0 {
      if Met(q) != [] { ProbeIs(q, 0); } else if q.item.Some? { TrailStep(q, q.item.value); }
    } else {
      LooksNowhereElse(q, n - 1);
      if ProbeAt(q, n - 1).next.Some? { NextNowhereElse(q, ProbeAt(q, n - 1)); }
    }
  }

  lemma NextNowhereElse<T>(q: Search<T>, p: Probe<T>)
    requires Sound(q) && p.next.Some? && p.next.value in Items(q.f) && p.next.value in Met(q)
    ensures NextProbe(q, p).next.Some? ==> NextProbe(q, p).next.value in Met(q)
  {
    var y := p.next.value;
    if y in Ahead(q) {
      var i :| 0 <= i < |Ahead(q)| && Ahead(q)[i] == y;
      AheadStep(q, i);
    } else {
      var i :| 0 <= i < |Wrap(q)| && Wrap(q)[i] == y;
      WrapStep(q, i);
    }
    if q.hidden {
      if Child(q, p.cookie + 1).Some? { ChildMet(q, Start(q), p.cookie + 1); }
    } else {
      assert Round(q)[0] == q.f.item;
    }
  }

  // ------------------------------------------------------------------ when a search ends

  /** There is something at which a search can end. */
  ghost predicate MayEnd<T>(q: Search<T>, hits: set<T>)
    requires Sound(q)
  {
    || q.hidden
    || q.item.None?
    || q.item.value in Round(q)
    || exists y :: y in Ahead(q) + Round(q) && y in hits
  }

  lemma {:induction false} AlwaysNext<T>(q: Search<T>, n: nat)
    requires Sound(q) && !q.hidden && q.item.Some?
    ensures ProbeAt(q, n).next.Some?
  {
    if n > 0 { AlwaysNext(q, n - 1); }
  }

  lemma NeverStops<T>(q: Search<T>, hits: set<T>, n: nat)
    requires Sound(q) && !MayEnd(q, hits)
    ensures !Stops(q, hits, ProbeAt(q, n))
  {
    AlwaysNext(q, n);
    LooksNowhereElse(q, n);
    TrailStep(q, q.item.value);
  }

  /** With a hidden root a search runs out of children to go round to. */
  lemma {:induction false} HiddenEnds<T>(q: Search<T>, n: nat) returns (m: nat)
    requires Sound(q) && q.hidden
    ensures ProbeAt(q, m).next.None?
    decreases var c, k := ProbeAt(q, n).cookie, if q.f.Cons? then |Roots(q.f.kids)| else 0; if c < k then k - c else 0,
              if ProbeAt(q, n).next.Some? then 1 + |Trail(q, ProbeAt(q, n).next.value)| else 0
  {
    m := n;
    if ProbeAt(q, n).next.Some? {
      TrailStep(q, ProbeAt(q, n).next.value);
      m := HiddenEnds(q, n + 1);
    }
  }

  /** A search comes back to its start item if it meets that after going round. */
  lemma ComesBack<T>(q: Search<T>)
    requires Sound(q) && q.item.Some? && q.item.value in Wrap(q)
    ensures ProbeAt(q, |Order(q)|).next == q.item
  {
    UntilStops(Wrap(q), q.item);
    ProbeIs(q, |Order(q)|);
  }

  lemma {:induction false} UntilStops<T>(s: seq<T>, x: Option<T>)
    requires x.Some? && x.value in s
    ensures |Until(s, x)| < |s| && Some(s[|Until(s, x)|]) == x
  {
    if Some(s[0]) != x { UntilStops(s[1..], x); }
  }

  /** When a search ends, for every tree, start item, mode and set of hits. */
  lemma EndsExactly<T>(q: Search<T>, hits: set<T>)
    requires Sound(q)
    ensures Ends(q, hits) <==> MayEnd(q, hits)
  {
    if q.hidden {
      var m := HiddenEnds(q, 0);
      assert Stops(q, hits, ProbeAt(q, m));
    } else if q.item.None? {
      NoStartEnds(q);
      assert Stops(q, hits, ProbeAt(q, |Wrap(q)|));
    } else if q.item.value in Round(q) {
      ComesBack(q);
      assert Stops(q, hits, ProbeAt(q, |Order(q)|));
    } else if y :| y in Ahead(q) + Round(q) && y in hits {
      var i :| 0 <= i < |Ahead(q) + Round(q)| && (Ahead(q) + Round(q))[i] == y;
      ProbeIs(q, i);
      assert Stops(q, hits, ProbeAt(q, i));
    } else {
      forall n: nat ensures !Stops(q, hits, ProbeAt(q, n)) { NeverStops(q, hits, n); }
    }
  }

  /** A search through expanded items from one under a collapsed parent, with no hits, never ends. */
  lemma NeverEnds() returns (q: Search<nat>)
    ensures q == Search(Cons(0, Cons(1, Cons(2, Nil, Nil), Nil), Nil), false, Some(2), ExpandedOnly, {0})
    ensures Sound(q) && !Ends(q, {})
  {
    q := Search(Cons(0, Cons(1, Cons(2, Nil, Nil), Nil), Nil), false, Some(2), ExpandedOnly, {0});
    assert Round(q) == [0, 1];
    EndsExactly(q, {});
  }

  /** One more turn of a search that has not stopped. */
  lemma NotYet<T>(q: Search<T>, hits: set<T>, n: nat, last: nat)
    requires Sound(q) && n <= last && Stops(q, hits, ProbeAt(q, last))
    requires Unstopped(q, hits, n) && !Stops(q, hits, ProbeAt(q, n))
    ensures n < last && Unstopped(q, hits, n + 1) && ProbeAt(q, n + 1) == NextProbe(q, ProbeAt(q, n))
  {
  }

  // ------------------------------------------------------------------ what a search finds

  ghost predicate NoHit<T>(s: seq<T>, hits: set<T>) {
    forall j :: 0 <= j < |s| ==> s[j] !in hits
  }

  lemma OrderItems<T>(q: Search<T>)
    requires Sound(q)
    ensures forall y :: y in Order(q) ==> y in Items(q.f) && Some(y) != q.item
  {
    forall y | y in Order(q) ensures y in Items(q.f) && Some(y) != q.item {
      var j :| 0 <= j < |Order(q)| && Order(q)[j] == y;
      OrderIs(q, j);
    }
  }

  /** Where a search stops first: at the first hit in the order of looking, or after all of it. */
  lemma FirstStop<T>(q: Search<T>, hits: set<T>, n: nat)
    requires Sound(q) && Stops(q, hits, ProbeAt(q, n))
    requires Unstopped(q, hits, n)
    ensures var p := ProbeAt(q, n).next;
            if p.None? || p == q.item then NoHit(Order(q), hits)
            else p.value in hits && n < |Order(q)| && p == Some(Order(q)[n]) && NoHit(Order(q)[..n], hits)
  {
    var o := Order(q);
    forall j | 0 <= j < |o| ensures ProbeAt(q, j).next == Some(o[j]) && Some(o[j]) != q.item { OrderIs(q, j); }
    forall j | 0 <= j < |o| && j < n ensures o[j] !in hits { assert !Stops(q, hits, ProbeAt(q, j)); }
    if n >= |o| { AfterAll(q, hits, n); }
  }

  lemma OrderIs<T>(q: Search<T>, j: nat)
    requires Sound(q) && j < |Order(q)|
    ensures ProbeAt(q, j).next == Some(Order(q)[j]) && Some(Order(q)[j]) != q.item
  {
    UntilIsPrefix(Wrap(q), q.item);
    assert Order(q)[j] == Met(q)[j];
    ProbeIs(q, j);
    if q.item.Some? { TrailStep(q, q.item.value); }
  }

  /** A search that has looked at all and found nothing stops at nothing or at its start item. */
  lemma AfterAll<T>(q: Search<T>, hits: set<T>, n: nat)
    requires Sound(q) && n >= |Order(q)| && NoHit(Order(q), hits) && Stops(q, hits, ProbeAt(q, n))
    requires Unstopped(q, hits, n)
    ensures ProbeAt(q, n).next.None? || ProbeAt(q, n).next == q.item
  {
    if q.item.None? {
      UntilAll(Wrap(q), q.item);
      NoStartEnds(q);
      assert Stops(q, hits, ProbeAt(q, |Wrap(q)|));
    } else if q.item.value in Wrap(q) {
      ComesBack(q);
      assert Stops(q, hits, ProbeAt(q, |Order(q)|));
    } else {
      UntilAll(Wrap(q), q.item);
      NothingLeft(q, hits, ProbeAt(q, n).next);
      LooksNowhereElse(q, n);
    }
  }

  lemma {:induction false} UntilAll<T>(s: seq<T>, x: Option<T>)
    requires x.Some? ==> x.value !in s
    ensures Until(s, x) == s
  {
    if s != [] {
      UntilAll(s[1..], x);
      assert s == [s[0]] + s[1..];
    }
  }

  lemma NothingLeft<T>(q: Search<T>, hits: set<T>, next: Option<T>)
    requires Sound(q) && Order(q) == Met(q) && NoHit(Order(q), hits)
    ensures next.Some? && next.value in Met(q) ==> next.value !in hits
  {
  }

  /** The start item is met from the root, so that the search goes round to it: first what comes after it in
      the round, then what comes before it. */
  lemma OrderIsCyclic<T>(q: Search<T>, k: nat)
    requires Sound(q) && !q.hidden && k < |Round(q)| && q.item == Some(Round(q)[k])
    ensures Order(q) == Round(q)[k + 1..] + Round(q)[..k]
  {
    var r := Round(q);
    assert Ahead(q) == r[k + 1..] by {
      TrailAt(q, q.f.item, k);
      assert Onward(q, r[k]) == r[k..];
    }
    assert Until(r, q.item) == r[..k] by {
      OnceOnward(q, q.f.item);
      UntilFirst(r, k);
    }
    assert Wrap(q) == r;
  }

  lemma {:induction false} OnceOnward<T>(q: Search<T>, x: T)
    requires Sound(q) && x in Items(q.f)
    ensures NoDup(Onward(q, x))
    decreases |Trail(q, x)|
  {
    TrailStep(q, x);
    if Trail(q, x) != [] { OnceOnward(q, Trail(q, x)[0]); }
  }

  lemma {:induction false} UntilFirst<T>(s: seq<T>, k: nat)
    requires NoDup(s) && k < |s|
    ensures Until(s, Some(s[k])) == s[..k]
  {
    if k > 0 { UntilFirst(s[1..], k - 1); }
  }

  /** Through the full tree or through expanded items, a round is the walk. */
  lemma RoundIsWalk<T>(q: Search<T>)
    requires Sound(q) && q.mode != Level
    ensures Round(q) == Walk(q.f, if q.mode == FullTree then Items(q.f) else q.open)
  {
    if q.f.Cons? { WalkStep(q.f, if q.mode == FullTree then Items(q.f) else q.open); }
  }

  /** Along a list of siblings a search with a shown root looks at the later siblings and then at the root alone. */
  lemma LevelOrder<T>(q: Search<T>, p: T, i: nat)
    requires Sound(q) && q.mode == Level && !q.hidden && p in Items(q.f)
    requires i < |ChildrenOf(q.f, p)| && q.item == Some(ChildrenOf(q.f, p)[i])
    ensures Order(q) == ChildrenOf(q.f, p)[i + 1..] + [q.f.item]
  {
    SiblingIndex(q.f, p, i);
    var x := ChildrenOf(q.f, p)[i];
    assert Round(q) == [q.f.item];
    assert x != q.f.item by { ParentFacts(q.f, x); }
    assert Until([q.f.item], Some(x)) == [q.f.item];
  }

  /** With a hidden root a search that starts at neither end of what is met from the first child does not look
      at everything: it goes round to the second child.  From an end it looks at all other items. */
  lemma HiddenLooksAtAll<T>(q: Search<T>, k: nat)
    requires Sound(q) && q.hidden && k < |FromChild(q, 0)| && q.item == Some(FromChild(q, 0)[k])
    ensures (forall y :: y in FromChild(q, 0) && Some(y) != q.item ==> y in Order(q)) <==>
            k == 0 || k == |FromChild(q, 0)| - 1
  {
    var s := FromChild(q, 0);
    HiddenAhead(q, k);
    OnceOnward(q, Child(q, 0).value);
    if k == |s| - 1 {
      UntilFirst(s, k);
      LastSees(s);
    } else if k == 0 {
    } else {
      var m := SecondChild(q);
      FirstMissed(s, k, m);
    }
  }

  lemma HiddenAhead<T>(q: Search<T>, k: nat)
    requires Sound(q) && q.hidden && k < |FromChild(q, 0)| && q.item == Some(FromChild(q, 0)[k])
    ensures Child(q, 0).Some? && Child(q, 0).value in Items(q.f) && FromChild(q, 0) == Onward(q, Child(q, 0).value)
    ensures Ahead(q) == FromChild(q, 0)[k + 1..]
  {
    ChildInside(q, 0);
    TrailAt(q, Child(q, 0).value, k);
    assert FromChild(q, 0)[k..][1..] == FromChild(q, 0)[k + 1..];
  }

  lemma LastSees<T>(s: seq<T>)
    requires s != []
    ensures forall y :: y in s && y != s[|s| - 1] ==> y in s[..|s| - 1]
  {
  }

  lemma FirstMissed<T>(s: seq<T>, k: nat, m: nat)
    requires NoDup(s) && 0 < k < |s| && 0 < m <= |s|
    ensures s[0] != s[k] && s[0] !in s[k + 1..] + Until(s[m..], Some(s[k]))
  {
    var after, second := s[k + 1..], s[m..];
    UntilIsPrefix(second, Some(s[k]));
    assert forall i :: 0 <= i < |after| ==> after[i] == s[k + 1 + i];
    assert forall i :: 0 <= i < |second| ==> second[i] == s[m + i];
  }

  /** What is met from the second child is met later from the first. */
  lemma SecondChild<T>(q: Search<T>) returns (m: nat)
    requires Sound(q) && Child(q, 0).Some?
    ensures 0 < m <= |FromChild(q, 0)| && FromChild(q, 1) == FromChild(q, 0)[m..]
  {
    ChildInside(q, 0);
    if Child(q, 1).Some? {
      SiblingIndex(q.f, q.f.item, 0);
      var x := Child(q, 0).value;
      SiblingOnTrail(q, x);
      var i :| 0 <= i < |Trail(q, x)| && Trail(q, x)[i] == Child(q, 1).value;
      TrailAt(q, x, i + 1);
      m := i + 1;
    } else {
      m := |FromChild(q, 0)|;
    }
  }

  /** Three rows under a hidden root: from the second one the first is not looked at. */
  lemma HiddenMiss() returns (q: Search<nat>)
    ensures q == Search(Cons(0, Cons(1, Nil, Cons(2, Nil, Cons(3, Nil, Nil))), Nil), true, Some(2), FullTree, {})
    ensures Sound(q) && Order(q) == [3]
  {
    q := Search(Cons(0, Cons(1, Nil, Cons(2, Nil, Cons(3, Nil, Nil))), Nil), true, Some(2), FullTree, {});
    assert Ahead(q) == [3];
    assert FromChild(q, 1) == [2, 3];
  }
}
