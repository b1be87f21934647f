/** From the replies of servers to one global status. */
module StatusMerge {
  datatype Status = WAITING | INITIALIZING | RUNNING | ERROR | UNKNOWN

  /** Does `w` occur in `s`. */
  predicate Contains(s: string, w: string) {
    exists i :: 0 <= i <= |s| && OccursAt(s, w, i)
  }

  predicate OccursAt(s: string, w: string, i: nat) {
    i + |w| <= |s| && s[i..i + |w|] == w
  }

  function ParseStatus(value: string): Status {
    if Contains(value, "WAITING") then WAITING
    else if Contains(value, "INITIALIZING") then INITIALIZING
    else if Contains(value, "RUNNING") then RUNNING
    else if Contains(value, "RUNNING;ENABLE") then RUNNING
    else if Contains(value, "RUNNING;DISABLE") then RUNNING
    else if Contains(value, "ERROR") then ERROR
    else UNKNOWN
  }

  /** What comes after the first space; all of it when there is none. */
  function AfterSpace(s: string): string {
    if ' ' !in s then s else if s[0] == ' ' then s[1..] else AfterSpace(s[1..])
  }

  /** The words are looked for in this order, anywhere in the reply; `RUNNING;ENABLE` and `RUNNING;DISABLE` contain
      the word before them. */
  lemma ReplySays(value: string)
    ensures ParseStatus(value) == WAITING <==> exists a, b :: value == a + "WAITING" + b
    ensures ParseStatus(value) == INITIALIZING <==>
              && (exists a, b :: value == a + "INITIALIZING" + b)
              && !exists a, b :: value == a + "WAITING" + b
    ensures ParseStatus(value) == RUNNING <==>
              && (exists a, b :: value == a + "RUNNING" + b)
              && !exists a, b :: value == a + "WAITING" + b || value == a + "INITIALIZING" + b
    ensures ParseStatus(value) == ERROR <==>
              && (exists a, b :: value == a + "ERROR" + b)
              && !exists a, b ::
                    value == a + "WAITING" + b || value == a + "INITIALIZING" + b || value == a + "RUNNING" + b
  {
    ContainsIs(value, "WAITING");
    ContainsIs(value, "INITIALIZING");
    ContainsIs(value, "RUNNING");
    ContainsIs(value, "ERROR");
    if Contains(value, "RUNNING" + ";ENABLE") { PartContains(value, "RUNNING", ";ENABLE"); }
    if Contains(value, "RUNNING" + ";DISABLE") { PartContains(value, "RUNNING", ";DISABLE"); }
    assert "RUNNING" + ";ENABLE" == "RUNNING;ENABLE" && "RUNNING" + ";DISABLE" == "RUNNING;DISABLE";
  }

  lemma ContainsIs(s: string, w: string)
    ensures Contains(s, w) <==> exists a, b :: s == a + w + b
  {
    if i: nat :| i <= |s| && OccursAt(s, w, i) {
      assert s == s[..i] + w + s[i + |w|..];
    }
    if a, b :| s == a + w + b {
      assert s[|a|..|a| + |w|] == w;
      assert OccursAt(s, w, |a|);
    }
  }

  lemma PartContains(s: string, w: string, more: string)
    requires Contains(s, w + more)
    ensures Contains(s, w)
  {
    ContainsIs(s, w + more);
    var a, b :| s == a + (w + more) + b;
    assert s == a + w + (more + b);
    ContainsIs(s, w);
  }

  /** The first word of a reply goes, with the space behind it; a reply of one word stays. */
  lemma {:induction false} FirstWordGoes(a: string, b: string)
    requires ' ' !in a
    ensures AfterSpace(a + " " + b) == b
    ensures AfterSpace(a) == a
  {
    var s := a + " " + b;
    assert s[|a|] == ' ';
    if a == [] {
      assert s[1..] == b;
    } else {
      assert s[0] == a[0] && s[1..] == a[1..] + " " + b;
      FirstWordGoes(a[1..], b);
    }
  }

  function Parsed(values: seq<string>): seq<Status> {
    seq(|values|, k requires 0 <= k < |values| => ParseStatus(values[k]))
  }

  /** One more reply. */
  function Merge(status: Status, next: Status): Status {
    if status == UNKNOWN then next else if status != next then ERROR else status
  }

  ghost function Global(s: seq<Status>): Status {
    if s == [] then UNKNOWN else Merge(Global(s[..|s| - 1]), s[|s| - 1])
  }

  method GetGlobalStatus(values: seq<string>) returns (status: Status)
    ensures status == Global(Parsed(values))
  {
    status := UNKNOWN;
    ghost var all := Parsed(values);
    var k := 0;
    while k < |values|
      invariant k <= |values| && status == Global(all[..k])
    {
      var next := ParseStatus(values[k]);
      if status == UNKNOWN {
        status := next;
      } else if status != next {
        status := ERROR;
      }
      assert all[..k + 1][..k] == all[..k] && all[..k + 1][k] == next;
      k := k + 1;
    }
    assert all[..k] == all;
  }

  /** The replies from the first one that says something. */
  ghost function Known(s: seq<Status>): seq<Status> {
    if s != [] && s[0] == UNKNOWN then Known(s[1..]) else s
  }

  predicate AllAre(s: seq<Status>, v: Status) {
    forall k :: 0 <= k < |s| ==> s[k] == v
  }

  /** The status from the place `p` of the first reply that says anything: that reply's, if all from it on say the
      same, else an error; without such a reply, unknown. */
  lemma {:induction false} GlobalFrom(s: seq<Status>, p: nat)
    requires p <= |s| && (forall k :: 0 <= k < p ==> s[k] == UNKNOWN) && (p < |s| ==> s[p] != UNKNOWN)
    ensures Global(s) ==
            if p == |s| then UNKNOWN else if forall k :: p <= k < |s| ==> s[k] == s[p] then s[p] else ERROR
  {
    if s != [] {
      var init, last := s[..|s| - 1], s[|s| - 1];
      if p < |s| {
        GlobalFrom(init, p);
        if p < |init| {
          assert (forall k :: p <= k < |s| ==> s[k] == s[p]) <==>
                 (forall k :: p <= k < |init| ==> init[k] == init[p]) && last == s[p];
        }
      } else {
        GlobalFrom(init, p - 1);
      }
    }
  }

  /** What the global status of a list is: leading replies that say nothing are dropped; then nothing left
      gives `UNKNOWN`, one and the same status gives that status, anything else is an error. */
  lemma {:induction false} GlobalMeans(s: seq<Status>)
    ensures Global(s) ==
            if Known(s) == [] then UNKNOWN else if AllAre(Known(s), Known(s)[0]) then Known(s)[0] else ERROR
    decreases |s|
  {
    if s != [] {
      var init, last := s[..|s| - 1], s[|s| - 1];
      GlobalMeans(init);
      KnownSnoc(init, last);
      assert s == init + [last];
      if Known(init) != [] {
        var k := Known(init);
        KnownStarts(init);
        if AllAre(k, k[0]) && last == k[0] {
          assert AllAre(k + [last], k[0]);
        } else if AllAre(k, k[0]) {
          assert (k + [last])[|k|] != k[0];
        } else {
          var i :| 0 <= i < |k| && k[i] != k[0];
          assert (k + [last])[i] != k[0];
        }
      }
    }
  }

  lemma {:induction false} KnownSnoc(s: seq<Status>, v: Status)
    ensures Known(s + [v]) == if Known(s) == [] && v == UNKNOWN then [] else Known(s) + [v]
  {
    if s != [] && s[0] == UNKNOWN {
      assert (s + [v])[1..] == s[1..] + [v];
      KnownSnoc(s[1..], v);
    } else if s == [] {
      assert Known([v][1..]) == [];
    }
  }

  lemma {:induction false} KnownStarts(s: seq<Status>)
    ensures Known(s) != [] ==> Known(s)[0] != UNKNOWN
    ensures forall k :: 0 <= k < |Known(s)| ==> Known(s)[k] in s
    ensures forall k :: 0 <= k < |s| && s[k] != UNKNOWN ==> s[k] in Known(s)
  {
    if s != [] && s[0] == UNKNOWN {
      KnownStarts(s[1..]);
      forall k | 0 <= k < |s| && s[k] != UNKNOWN ensures s[k] in Known(s) {
        assert s[1..][k - 1] == s[k];
      }
    }
  }

  /** One error anywhere makes the whole an error. */
  lemma ErrorAbsorbs(s: seq<Status>)
    requires ERROR in s
    ensures Global(s) == ERROR
  {
    GlobalMeans(s);
    KnownStarts(s);
    var k :| 0 <= k < |s| && s[k] == ERROR;
    assert ERROR in Known(s);
  }

  /** Some replies say nothing and all others say the same, which is not an error: the one case in which
      the order of the replies matters. */
  ghost predicate Mixed(s: seq<Status>) {
    UNKNOWN in s && exists v :: v in s && v !in {UNKNOWN, ERROR} && forall w :: w in s ==> w == v || w == UNKNOWN
  }

  /** Without such a mixture the order does not matter. */
  lemma OrderDoesNotMatter(s: seq<Status>, t: seq<Status>)
    requires multiset(s) == multiset(t) && !Mixed(s)
    ensures Global(s) == Global(t)
  {
    forall v ensures v in s <==> v in t { assert v in multiset(s) <==> v in multiset(t); }
    MixedByMembers(t, s);
    ByMembers(s);
    ByMembers(t);
    assert forall v {:trigger OnlySays(s, v)} :: OnlySays(s, v) <==> OnlySays(t, v);
    assert OnlySays(s, WAITING) <==> OnlySays(t, WAITING);
    assert OnlySays(s, INITIALIZING) <==> OnlySays(t, INITIALIZING);
    assert OnlySays(s, RUNNING) <==> OnlySays(t, RUNNING);
  }

  ghost predicate OnlySays(s: seq<Status>, v: Status) {
    v in s && forall w :: w in s ==> w == v
  }

  lemma MixedByMembers(s: seq<Status>, t: seq<Status>)
    requires forall v :: v in s <==> v in t
    ensures Mixed(s) ==> Mixed(t)
  {
    if Mixed(s) {
      var v :| v in s && v !in {UNKNOWN, ERROR} && forall w :: w in s ==> w == v || w == UNKNOWN;
      assert v in t;
    }
  }

  /** Without such a mixture the members alone decide. */
  lemma ByMembers(s: seq<Status>)
    requires !Mixed(s)
    ensures Global(s) == UNKNOWN <==> forall v :: v in s ==> v == UNKNOWN
    ensures forall v {:trigger OnlySays(s, v)} :: v != UNKNOWN && v != ERROR ==> (Global(s) == v <==> OnlySays(s, v))
  {
    GlobalMeans(s);
    KnownStarts(s);
    var k := Known(s);
    if k != [] {
      var v := k[0];
      assert v in s;
      if AllAre(k, v) {
        forall w | w in s ensures w == v || w == UNKNOWN {
          if w != UNKNOWN { assert w in k; }
        }
        if v != ERROR { assert UNKNOWN !in s; }
      } else {
        var i :| 0 <= i < |k| && k[i] != v;
        assert k[i] in s;
      }
    }
    forall v | v != UNKNOWN && v in s ensures v in k { assert v in k; }
  }

  /** With such a mixture it does: replies that say nothing are harmless in front and an error behind. */
  lemma OrderMatters(s: seq<Status>) returns (t: seq<Status>, u: seq<Status>)
    requires Mixed(s)
    ensures multiset(t) == multiset(s) == multiset(u) && Global(t) != Global(u)
  {
    var v :| v in s && v !in {UNKNOWN, ERROR} && forall w :: w in s ==> w == v || w == UNKNOWN;
    var a, b := multiset(s)[UNKNOWN], multiset(s)[v];
    var x, y := Repeat(UNKNOWN, a), Repeat(v, b);
    t, u := x + y, y + x;
    RepeatBag(UNKNOWN, a);
    RepeatBag(v, b);
    assert multiset(t) == multiset(x) + multiset(y) == multiset(u);
    assert multiset(s) == multiset(x) + multiset(y) by {
      forall w ensures multiset(s)[w] == (multiset(x) + multiset(y))[w] {
        if w != v && w != UNKNOWN { assert w !in s; }
      }
    }
    GlobalMeans(t);
    GlobalMeans(u);
    KnownRepeat(a, y);
    assert Known(u) == u && u[0] == v && u[b] == UNKNOWN;
  }

  ghost function Repeat(v: Status, n: nat): (s: seq<Status>)
    ensures |s| == n && AllAre(s, v)
  {
    seq(n, k => v)
  }

  lemma {:induction false} RepeatBag(v: Status, n: nat)
    ensures multiset(Repeat(v, n))[v] == n && forall w :: w != v ==> multiset(Repeat(v, n))[w] == 0
  {
    if n > 0 {
      RepeatBag(v, n - 1);
      assert Repeat(v, n) == Repeat(v, n - 1) + [v];
    }
    forall w | w != v ensures multiset(Repeat(v, n))[w] == 0 { assert w !in Repeat(v, n); }
  }

  lemma {:induction false} KnownRepeat(n: nat, y: seq<Status>)
    requires y != [] && y[0] != UNKNOWN
    ensures Known(Repeat(UNKNOWN, n) + y) == y
  {
    if n == 0 {
      assert Repeat(UNKNOWN, 0) + y == y;
    } else {
      KnownRepeat(n - 1, y);
      assert (Repeat(UNKNOWN, n) + y)[1..] == Repeat(UNKNOWN, n - 1) + y;
    }
  }

  // ------------------------------------------------------------------ the text of a reply

  /** The place of the last `c` among the first `n` characters, or -1. */
  function LastBefore(s: string, c: char, n: nat): (i: int)
    requires n <= |s|
    ensures -1 <= i < n && (i >= 0 ==> s[i] == c) && forall k :: i < k < n ==> s[k] != c
  {
    if n == 0 then -1 else if s[n - 1] == c then n - 1 else LastBefore(s, c, n - 1)
  }

  /** The last newline is erased, and then everything from the newline before it on. */
  function Trim(s: string): string {
    var i := LastBefore(s, '\n', |s|);
    var erased := if i < 0 then s else s[..i] + s[i + 1..];
    var pos := LastBefore(erased, '\n', |erased|);
    if pos < 0 then erased else erased[..pos]
  }

  /** So of the lines of a reply all but the last two stay, when the reply ends with the last newline all but
      the last one; a reply with a single newline loses just that. */
  lemma TrimLines(a: string, b: string, c: string)
    requires '\n' !in b && '\n' !in c
    ensures Trim(a + "\n" + b + "\n" + c) == a
    ensures '\n' !in a ==> Trim(a + "\n" + c) == a + c
    ensures Trim(c) == c
  {
    TrimTwo(a, b, c);
    if '\n' !in a { TrimOne(a, c); }
    NoneBefore(c);
  }

  lemma TrimTwo(a: string, b: string, c: string)
    requires '\n' !in b && '\n' !in c
    ensures Trim(a + "\n" + b + "\n" + c) == a
  {
    var s, p := a + "\n" + b + "\n" + c, |a| + 1 + |b|;
    LastIs(a + "\n" + b, c);
    var erased := s[..p] + s[p + 1..];
    assert erased == a + "\n" + (b + c);
    LastIs(a, b + c);
    assert LastBefore(s, '\n', |s|) == p && LastBefore(erased, '\n', |erased|) == |a|;
    assert erased[..|a|] == a;
  }

  lemma TrimOne(a: string, c: string)
    requires '\n' !in a && '\n' !in c
    ensures Trim(a + "\n" + c) == a + c
  {
    var s := a + "\n" + c;
    LastIs(a, c);
    assert s[..|a|] + s[|a| + 1..] == a + c;
    NoneBefore(a + c);
  }

  lemma NoneBefore(s: string)
    requires '\n' !in s
    ensures LastBefore(s, '\n', |s|) == -1
  {
  }

  lemma LastIs(a: string, c: string)
    requires '\n' !in c
    ensures LastBefore(a + "\n" + c, '\n', |a + "\n" + c|) == |a|
  {
    var s := a + "\n" + c;
    assert s[|a|] == '\n';
    forall k | |a| < k < |s| ensures s[k] != '\n' { assert s[k] == c[k - |a| - 1]; }
  }
}
