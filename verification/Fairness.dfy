/** Progress of the rendezvous over whole infinite runs.  Every thread is scheduled fairly, nothing is
    assumed about spurious wake-ups, timers, failures or new calls, and yet every call returns, exactly
    if no caller ever becomes hopeless. */
module Fairness {
  import opened Basics
  import opened Rendezvous

  /** An infinite run: its states, and what happened at each moment, if anything. */
  type Trace = nat -> State
  type Actions = nat -> Option<Step>

  ghost predicate StepAt(r: Trace, act: Actions, i: nat) {
    match act(i)
    case None => r(i + 1) == r(i)
    case Some(a) => Enabled(r(i), a) && r(i + 1) == Do(r(i), a)
  }

  // ------------------------------------------------------------------ fairness

  /** Who is scheduled: the thread of a call, or the thread that runs the handlers of the strand. */
  datatype Agent = Caller(c: nat) | Strand

  /** What an agent does of its own.  Waking without a notification, the arrival of a call and the end
      of a timer are nobody's. */
  predicate Owns(g: Agent, a: Step) {
    match a
    case LockCheck(c) => g == Caller(c)
    case LockSync(c) => g == Caller(c)
    case LookupFails(c) => g == Caller(c)
    case Post(c) => g == Caller(c)
    case ArmTimer(c) => g == Caller(c)
    case Sleep(c) => g == Caller(c)
    case Relock(c) => g == Caller(c)
    case Leave(c) => g == Caller(c)
    case Return(c) => g == Caller(c)
    case RunConnect(_) => g == Strand
    case ReplyOrRefusal => g == Strand
    case ExchangeFails => g == Strand
    case SetReady => g == Strand
    case Notify(_) => g == Strand
    case NotifyNobody => g == Strand
    case Enter(_) => false
    case Wake(_) => false
    case Timeout(_) => false
  }

  ghost predicate CanAct(s: State, g: Agent) {
    exists a :: Owns(g, a) && Enabled(s, a)
  }

  ghost predicate ActsAt(act: Actions, g: Agent, i: nat) {
    act(i).Some? && Owns(g, act(i).value)
  }

  ghost predicate CanSoon(r: Trace, g: Agent, i: nat) {
    exists j: nat :: j >= i && CanAct(r(j), g)
  }

  ghost predicate ActsSoon(act: Actions, g: Agent, i: nat) {
    exists j: nat :: j >= i && ActsAt(act, g, j)
  }

  /** Who can act again and again does act again and again. */
  ghost predicate StronglyFair(r: Trace, act: Actions, g: Agent) {
    (forall i: nat :: CanSoon(r, g, i)) ==> forall i: nat :: ActsSoon(act, g, i)
  }

  ghost predicate FairRun(r: Trace, act: Actions) {
    && Init(r(0))
    && (forall i: nat :: StepAt(r, act, i))
    && (forall g :: StronglyFair(r, act, g))
  }

  lemma {:induction false} FairRunInv(r: Trace, act: Actions, i: nat)
    requires FairRun(r, act)
    ensures Inv(r(i))
  {
    if i == 0 {
      InitInv(r(0));
    } else {
      FairRunInv(r, act, i - 1);
      assert StepAt(r, act, i - 1);
      if act(i - 1).Some? { StepInv(r(i - 1), act(i - 1).value); }
    }
  }

  /** Who can act again and again from some moment on acts after that moment. */
  lemma Scheduled(r: Trace, act: Actions, g: Agent, n: nat) returns (j: nat)
    requires FairRun(r, act) && forall i: nat :: n <= i ==> CanSoon(r, g, i)
    ensures n <= j && ActsAt(act, g, j)
  {
    forall i: nat ensures CanSoon(r, g, i) {
      var m := if i < n then n else i;
      assert CanSoon(r, g, m);
      var k: nat :| k >= m && CanAct(r(k), g);
      assert k >= i;
    }
    assert StronglyFair(r, act, g);
    assert ActsSoon(act, g, n);
    j :| j >= n && ActsAt(act, g, j);
  }

  // ------------------------------------------------------------------ the holder of the outer mutex

  /** How far the holder of the outer mutex is from its return.  While its operation is on the way this
      does not depend on its phase: it may wake up and fall asleep again any number of times. */
  function Rank(s: State, h: nat): nat
    requires h in s.calls
  {
    var k := s.calls[h];
    if k.phase == Locked then 20
    else if k.phase == Performing then 19
    else if k.progress == Flying then (if h !in s.connects then 16 else if s.handler == Idle then 17 else 18)
    else if k.progress == Written then 15
    else match k.phase
         case Sleeping => 5
         case Posting => 4
         case Waking => 4
         case Testing => 3
         case Leaving => 2
         case _ => 0
  }

  /** Who brings the holder on. */
  function Helper(rank: nat, h: nat): Agent {
    if rank == 5 || 15 <= rank <= 18 then Strand else Caller(h)
  }

  ghost predicate InsideAt(s: State, h: nat) {
    Inv(s) && h in s.calls && Inside(s.calls[h].phase) && !Hopeless(s, h)
  }

  /** The holder is where it was or farther on. */
  ghost predicate NotBack(s: State, t: State, h: nat)
    requires h in s.calls
  {
    && h in t.calls && (Inside(t.calls[h].phase) || t.calls[h].phase == Returned)
    && Rank(t, h) <= Rank(s, h)
  }

  /** No step of anybody takes the holder back. */
  lemma NeverBack(s: State, a: Step, h: nat)
    requires InsideAt(s, h) && Enabled(s, a) && (h in Do(s, a).calls ==> !Hopeless(Do(s, a), h))
    ensures NotBack(s, Do(s, a), h)
  {
    if a.RunConnect? || a.ReplyOrRefusal? || a.ExchangeFails? || a.SetReady? || a.Notify? || a.NotifyNobody? {
      StrandNotBack(s, a, h);
    } else {
      CallerNotBack(s, a, h);
    }
  }

  lemma StrandNotBack(s: State, a: Step, h: nat)
    requires InsideAt(s, h) && Enabled(s, a) && (h in Do(s, a).calls ==> !Hopeless(Do(s, a), h))
    requires a.RunConnect? || a.ReplyOrRefusal? || a.ExchangeFails? || a.SetReady? || a.Notify? || a.NotifyNobody?
    ensures NotBack(s, Do(s, a), h)
  {
    assert CallOk(s, h);
    if s.handler != Idle { assert CallOk(s, s.handler.op); }
    if a.RunConnect? || a.Notify? { assert CallOk(s, a.c); }
  }

  lemma CallerNotBack(s: State, a: Step, h: nat)
    requires InsideAt(s, h) && Enabled(s, a) && (h in Do(s, a).calls ==> !Hopeless(Do(s, a), h))
    requires !(a.RunConnect? || a.ReplyOrRefusal? || a.ExchangeFails? || a.SetReady? || a.Notify? || a.NotifyNobody?)
    ensures NotBack(s, Do(s, a), h)
  {
    assert CallOk(s, h);
    if a.c in s.calls { assert CallOk(s, a.c); }
  }

  /** A step of its helper takes it on. */
  lemma Helps(s: State, a: Step, h: nat)
    requires InsideAt(s, h) && Enabled(s, a) && (h in Do(s, a).calls ==> !Hopeless(Do(s, a), h))
    requires Owns(Helper(Rank(s, h), h), a)
    ensures h in Do(s, a).calls && Rank(Do(s, a), h) < Rank(s, h)
  {
    assert CallOk(s, h);
    if s.handler != Idle { assert CallOk(s, s.handler.op); }
    if a.RunConnect? || a.Notify? { assert CallOk(s, a.c); }
  }

  /** The helper can act, except that a handler with its entry written waits for the inner mutex. */
  lemma HelperCan(s: State, h: nat)
    requires InsideAt(s, h) && (Rank(s, h) == 15 ==> s.syncMut == Free)
    ensures CanAct(s, Helper(Rank(s, h), h))
  {
    var a := HelpingStep(s, h);
    HelpingStepEnabled(s, h);
    assert Owns(Helper(Rank(s, h), h), a) && Enabled(s, a);
  }

  function HelpingStep(s: State, h: nat): Step
    requires h in s.calls
  {
    var k := s.calls[h];
    if k.phase == Locked then LockSync(h)
    else if k.phase == Performing then Post(h)
    else if k.progress == Flying then
      if h !in s.connects then ReplyOrRefusal
      else if s.handler == Idle then RunConnect(h)
      else if k.phase == Sleeping then Notify(h)
      else NotifyNobody
    else if k.progress == Written then SetReady
    else match k.phase
         case Sleeping => Notify(h)
         case Posting => ArmTimer(h)
         case Waking => Relock(h)
         case Testing => Leave(h)
         case _ => Return(h)
  }

  lemma HelpingStepEnabled(s: State, h: nat)
    requires InsideAt(s, h) && (Rank(s, h) == 15 ==> s.syncMut == Free)
    ensures Enabled(s, HelpingStep(s, h))
  {
    assert CallOk(s, h);
    if s.handler != Idle { assert CallOk(s, s.handler.op); }
    if s.syncMut.Held? { assert CallOk(s, s.syncMut.holder); }
    forall d | d in s.calls && s.calls[d].phase == Sleeping ensures s.checkMut == Held(d) { assert CallOk(s, d); }
  }

  // ------------------------------------------------------------------ the holder returns

  /** In no state of the run anybody is hopeless. */
  ghost predicate NeverBlocked(r: Trace) {
    forall i: nat :: Unblocked(r(i))
  }

  ghost predicate Holds(r: Trace, i: nat, h: nat) {
    InsideAt(r(i), h)
  }

  lemma HoldsOrReturned(r: Trace, act: Actions, i: nat, h: nat)
    requires FairRun(r, act) && NeverBlocked(r) && Holds(r, i, h)
    ensures h in r(i + 1).calls && Rank(r(i + 1), h) <= Rank(r(i), h)
    ensures Holds(r, i + 1, h) || At(r(i + 1), h, Returned)
    ensures ActsAt(act, Helper(Rank(r(i), h), h), i) ==> Rank(r(i + 1), h) < Rank(r(i), h)
  {
    assert StepAt(r, act, i) && Unblocked(r(i + 1));
    FairRunInv(r, act, i + 1);
    if act(i).Some? {
      var a := act(i).value;
      NeverBack(r(i), a, h);
      if Owns(Helper(Rank(r(i), h), h), a) { Helps(r(i), a, h); }
    }
  }

  lemma ReturnedNext(r: Trace, act: Actions, i: nat, h: nat)
    requires FairRun(r, act) && At(r(i), h, Returned)
    ensures At(r(i + 1), h, Returned)
  {
    assert StepAt(r, act, i);
    FairRunInv(r, act, i);
    if act(i).Some? { ReturnedStays(r(i), act(i).value, h); }
  }

  lemma ReturnedRank(r: Trace, act: Actions, i: nat, h: nat)
    requires FairRun(r, act) && At(r(i), h, Returned)
    ensures Rank(r(i), h) == 0
  {
    FairRunInv(r, act, i);
    assert CallOk(r(i), h);
  }

  lemma StillNext(r: Trace, act: Actions, i: nat, h: nat)
    requires FairRun(r, act) && NeverBlocked(r) && (Holds(r, i, h) || At(r(i), h, Returned))
    ensures h in r(i).calls && h in r(i + 1).calls && Rank(r(i + 1), h) <= Rank(r(i), h)
    ensures Holds(r, i + 1, h) || At(r(i + 1), h, Returned)
  {
    if Holds(r, i, h) {
      HoldsOrReturned(r, act, i, h);
    } else {
      ReturnedNext(r, act, i, h);
      ReturnedRank(r, act, i + 1, h);
    }
  }

  /** From the moment it has the outer mutex a caller holds it until it has returned. */
  lemma {:induction false} StillHolds(r: Trace, act: Actions, i: nat, j: nat, h: nat)
    requires FairRun(r, act) && NeverBlocked(r) && Holds(r, i, h) && i <= j
    ensures h in r(j).calls && Rank(r(j), h) <= Rank(r(i), h)
    ensures Holds(r, j, h) || At(r(j), h, Returned)
  {
    if i < j {
      StillHolds(r, act, i, j - 1, h);
      StillNext(r, act, j - 1, h);
    }
  }

  /** While the entry is written and the holder keeps the inner mutex, the holder itself can act; its
      step leads towards sleep. */
  lemma KeepsSync(s: State, h: nat)
    requires InsideAt(s, h) && Rank(s, h) == 15 && s.syncMut != Free
    ensures s.calls[h].phase in {Posting, Testing} && CanAct(s, Caller(h))
  {
    assert CallOk(s, h) && CallOk(s, s.syncMut.holder);
    var a := if s.calls[h].phase == Posting then ArmTimer(h) else Sleep(h);
    assert Owns(Caller(h), a) && Enabled(s, a);
  }

  lemma TowardsSleep(s: State, a: Step, h: nat)
    requires InsideAt(s, h) && Rank(s, h) == 15 && s.syncMut != Free && Enabled(s, a)
    ensures var t := Do(s, a);
            && h in t.calls
            && (Owns(Caller(h), a) ==> t.syncMut == Free || (At(s, h, Posting) && At(t, h, Testing)))
            && (!Owns(Caller(h), a) ==> t.calls[h].phase == s.calls[h].phase)
  {
    assert CallOk(s, h) && CallOk(s, s.syncMut.holder);
    if s.handler != Idle { assert CallOk(s, s.handler.op); }
    if !(a.Enter? || a.ReplyOrRefusal? || a.ExchangeFails? || a.SetReady? || a.NotifyNobody? || a.Timeout?) {
      if a.c in s.calls { assert CallOk(s, a.c); }
    }
  }

  /** The inner mutex is kept, with the entry written, from `n` on. */
  ghost predicate Keeps(r: Trace, n: nat, h: nat) {
    forall i: nat {:trigger Holds(r, i, h)} :: n <= i ==> Holds(r, i, h) && Rank(r(i), h) == 15 && r(i).syncMut != Free
  }

  lemma {:induction false} PhaseKept(r: Trace, act: Actions, n: nat, j: nat, h: nat)
    requires FairRun(r, act) && Keeps(r, n, h) && n <= j && At(r(n), h, Testing)
    ensures At(r(j), h, Testing)
  {
    if n < j {
      PhaseKept(r, act, n, j - 1, h);
      assert Holds(r, j - 1, h) && Holds(r, j, h) && StepAt(r, act, j - 1);
      if act(j - 1).Some? { TowardsSleep(r(j - 1), act(j - 1).value, h); }
    }
  }

  lemma KeeperActs(r: Trace, act: Actions, n: nat, h: nat) returns (j: nat)
    requires FairRun(r, act) && Keeps(r, n, h)
    ensures n <= j && At(r(j), h, Posting) && At(r(j + 1), h, Testing)
  {
    forall i: nat | n <= i ensures CanSoon(r, Caller(h), i) {
      assert Holds(r, i, h);
      KeepsSync(r(i), h);
    }
    j := Scheduled(r, act, Caller(h), n);
    assert Holds(r, j, h) && Holds(r, j + 1, h) && StepAt(r, act, j);
    TowardsSleep(r(j), act(j).value, h);
  }

  /** So the inner mutex is not kept for ever. */
  lemma NotKept(r: Trace, act: Actions, n: nat, h: nat)
    requires FairRun(r, act)
    ensures !Keeps(r, n, h)
  {
    if Keeps(r, n, h) {
      var j := KeeperActs(r, act, n, h);
      assert Keeps(r, j + 1, h);
      var k := KeeperActs(r, act, j + 1, h);
      PhaseKept(r, act, j + 1, k, h);
    }
  }

  /** The holder stays where it is from `n` on. */
  ghost predicate Stays(r: Trace, n: nat, h: nat, rank: nat) {
    forall i: nat {:trigger Holds(r, i, h)} :: n <= i ==> Holds(r, i, h) && Rank(r(i), h) == rank
  }

  lemma HelperCanSoon(r: Trace, act: Actions, n: nat, h: nat, rank: nat, i: nat)
    requires FairRun(r, act) && Stays(r, n, h, rank) && n <= i
    ensures CanSoon(r, Helper(rank, h), i)
  {
    var j := i;
    if rank == 15 {
      NotKept(r, act, i, h);
      j :| i <= j && !(Holds(r, j, h) && Rank(r(j), h) == 15 && r(j).syncMut != Free);
    }
    assert Holds(r, j, h);
    HelperCan(r(j), h);
  }

  lemma CannotStay(r: Trace, act: Actions, n: nat, h: nat, rank: nat)
    requires FairRun(r, act) && NeverBlocked(r)
    ensures !Stays(r, n, h, rank)
  {
    if Stays(r, n, h, rank) {
      forall i: nat | n <= i ensures CanSoon(r, Helper(rank, h), i) { HelperCanSoon(r, act, n, h, rank, i); }
      var j := Scheduled(r, act, Helper(rank, h), n);
      assert Holds(r, j, h) && Holds(r, j + 1, h);
      HoldsOrReturned(r, act, j, h);
    }
  }

  /** The holder of the outer mutex returns. */
  lemma {:induction false} HolderReturns(r: Trace, act: Actions, i: nat, h: nat) returns (j: nat)
    requires FairRun(r, act) && NeverBlocked(r) && Holds(r, i, h)
    ensures i <= j && At(r(j), h, Returned)
    decreases Rank(r(i), h)
  {
    CannotStay(r, act, i, h, Rank(r(i), h));
    j :| i <= j && !(Holds(r, j, h) && Rank(r(j), h) == Rank(r(i), h));
    StillHolds(r, act, i, j, h);
    if Holds(r, j, h) {
      j := HolderReturns(r, act, j, h);
    }
  }

  // ------------------------------------------------------------------ everybody returns

  /** The outer mutex is given up again and again. */
  lemma FreeSoon(r: Trace, act: Actions, i: nat) returns (j: nat)
    requires FairRun(r, act) && NeverBlocked(r)
    ensures i <= j && r(j).checkMut == Free
  {
    j := i;
    if r(i).checkMut.Held? {
      var h := r(i).checkMut.holder;
      HeldInside(r, act, i);
      var k := HolderReturns(r, act, i, h);
      j := FreeBetween(r, act, i, k, h);
    }
  }

  lemma HeldInside(r: Trace, act: Actions, i: nat)
    requires FairRun(r, act) && NeverBlocked(r) && r(i).checkMut.Held?
    ensures Holds(r, i, r(i).checkMut.holder)
  {
    FairRunInv(r, act, i);
    assert CallOk(r(i), r(i).checkMut.holder) && Unblocked(r(i));
  }

  /** Nobody else gets the outer mutex before it was free. */
  lemma {:induction false} FreeBetween(r: Trace, act: Actions, i: nat, k: nat, h: nat) returns (j: nat)
    requires FairRun(r, act) && r(i).checkMut == Held(h) && i <= k && At(r(k), h, Returned)
    ensures i <= j <= k && r(j).checkMut == Free
    decreases k - i
  {
    FairRunInv(r, act, k);
    assert CallOk(r(k), h);
    if r(i + 1).checkMut == Free {
      j := i + 1;
    } else {
      assert StepAt(r, act, i);
      FairRunInv(r, act, i);
      if act(i).Some? { PassedOn(r(i), act(i).value, h); }
      j := FreeBetween(r, act, i + 1, k, h);
    }
  }

  lemma PassedOn(s: State, a: Step, h: nat)
    requires Inv(s) && Enabled(s, a) && s.checkMut == Held(h)
    ensures Do(s, a).checkMut in {Free, Held(h)}
  {
    if a.Return? { assert CallOk(s, a.c); }
  }

  /** A call that queues and is scheduled gets the outer mutex; nobody else moves it. */
  lemma QueueStep(s: State, a: Step, c: nat)
    requires Inv(s) && Enabled(s, a) && At(s, c, Entering)
    ensures c in Do(s, a).calls
    ensures At(Do(s, a), c, if Owns(Caller(c), a) then Locked else Entering)
  {
    assert CallOk(s, c);
    if s.handler != Idle { assert CallOk(s, s.handler.op); }
    if a.LookupFails? { assert CallOk(s, a.c); }
  }

  ghost predicate Queues(r: Trace, i: nat, c: nat) {
    At(r(i), c, Entering)
  }

  lemma NotForeverQueued(r: Trace, act: Actions, n: nat, c: nat) returns (j: nat)
    requires FairRun(r, act) && NeverBlocked(r) && Queues(r, n, c)
    ensures n < j && c in r(j).calls && r(j).calls[c].phase != Entering
  {
    if forall i: nat :: n <= i ==> Queues(r, i, c) {
      forall i: nat | n <= i ensures CanSoon(r, Caller(c), i) {
        var k := FreeSoon(r, act, i);
        assert Queues(r, k, c);
        assert Owns(Caller(c), LockCheck(c)) && Enabled(r(k), LockCheck(c));
        assert CanAct(r(k), Caller(c));
      }
      j := Scheduled(r, act, Caller(c), n);
      assert Queues(r, j, c) && Queues(r, j + 1, c) && StepAt(r, act, j);
      FairRunInv(r, act, j);
      QueueStep(r(j), act(j).value, c);
      assert false;
    } else {
      var k: nat :| n <= k && !Queues(r, k, c);
      j := FirstOut(r, act, n, k, c);
    }
  }

  lemma {:induction false} FirstOut(r: Trace, act: Actions, n: nat, k: nat, c: nat) returns (j: nat)
    requires FairRun(r, act) && Queues(r, n, c) && n <= k && !Queues(r, k, c)
    ensures n < j <= k && c in r(j).calls && r(j).calls[c].phase != Entering
    decreases k - n
  {
    assert StepAt(r, act, n);
    FairRunInv(r, act, n);
    if act(n).Some? { QueueStep(r(n), act(n).value, c); }
    if Queues(r, n + 1, c) {
      j := FirstOut(r, act, n + 1, k, c);
    } else {
      j := n + 1;
    }
  }

  /** In a fair run in which nobody is ever hopeless every call returns. */
  lemma Returns(r: Trace, act: Actions, i: nat, c: nat) returns (j: nat)
    requires FairRun(r, act) && NeverBlocked(r) && c in r(i).calls
    ensures i <= j && At(r(j), c, Returned)
  {
    j := i;
    if r(i).calls[c].phase == Entering {
      assert Queues(r, i, c);
      j := NotForeverQueued(r, act, i, c);
    }
    if r(j).calls[c].phase != Returned {
      FairRunInv(r, act, j);
      assert Unblocked(r(j)) && Holds(r, j, c);
      j := HolderReturns(r, act, j, c);
    }
  }

  lemma {:induction false} HopelessOn(r: Trace, act: Actions, i: nat, j: nat, d: nat)
    requires FairRun(r, act) && i <= j && d in r(i).calls && Hopeless(r(i), d)
    ensures d in r(j).calls && Hopeless(r(j), d)
  {
    if i < j {
      HopelessOn(r, act, i, j - 1, d);
      assert StepAt(r, act, j - 1);
      FairRunInv(r, act, j - 1);
      if act(j - 1).Some? { HopelessForever(r(j - 1), act(j - 1).value, d); }
    }
  }

  ghost predicate ReturnsSoon(r: Trace, i: nat, c: nat) {
    exists j: nat :: i <= j && At(r(j), c, Returned)
  }

  /** Every call that is ever made returns. */
  ghost predicate AllReturn(r: Trace) {
    forall i: nat, c: nat {:trigger ReturnsSoon(r, i, c)} :: c in r(i).calls ==> ReturnsSoon(r, i, c)
  }

  /** In a fair run every call returns if and only if no caller is ever hopeless. */
  lemma FairRunsReturn(r: Trace, act: Actions)
    requires FairRun(r, act)
    ensures AllReturn(r) <==> NeverBlocked(r)
  {
    if NeverBlocked(r) {
      forall i: nat, c: nat {:trigger ReturnsSoon(r, i, c)} | c in r(i).calls ensures ReturnsSoon(r, i, c) {
        var j := Returns(r, act, i, c);
      }
    } else {
      var i: nat :| !Unblocked(r(i));
      var d :| d in r(i).calls && Hopeless(r(i), d);
      if ReturnsSoon(r, i, d) {
        var j: nat :| i <= j && At(r(j), d, Returned);
        HopelessOn(r, act, i, j, d);
      }
    }
  }

  // ------------------------------------------------------------------ both happen

  /** The states that the steps lead through. */
  ghost predicate Leads(s: State, steps: seq<Step>, t: State)
    decreases |steps|
  {
    if steps == [] then s == t else Enabled(s, steps[0]) && Leads(Do(s, steps[0]), steps[1..], t)
  }

  ghost function StateAfter(s: State, steps: seq<Step>, i: nat): State
    decreases |steps|
  {
    if i == 0 || steps == [] || !Enabled(s, steps[0]) then s else StateAfter(Do(s, steps[0]), steps[1..], i - 1)
  }

  lemma {:induction false} AfterSteps(s: State, steps: seq<Step>, t: State, i: nat)
    requires Leads(s, steps, t)
    ensures i < |steps| ==> var u := StateAfter(s, steps, i);
                            Enabled(u, steps[i]) && StateAfter(s, steps, i + 1) == Do(u, steps[i])
    ensures |steps| <= i ==> StateAfter(s, steps, i) == t
    decreases |steps|
  {
    if steps != [] && i > 0 {
      AfterSteps(Do(s, steps[0]), steps[1..], t, i - 1);
    }
  }

  /** Steps to a state in which nobody can act of its own, and then silence: that is a fair run. */
  lemma QuietIsFair(s: State, steps: seq<Step>, t: State) returns (r: Trace, act: Actions)
    requires Init(s) && Leads(s, steps, t) && forall g :: !CanAct(t, g)
    ensures FairRun(r, act) && forall i: nat :: if i < |steps| then act(i) == Some(steps[i]) else r(i) == t
  {
    r := (i: nat) => StateAfter(s, steps, i);
    act := (i: nat) => if i < |steps| then Some(steps[i]) else None;
    forall i: nat ensures StepAt(r, act, i) && (|steps| <= i ==> r(i) == t) {
      AfterSteps(s, steps, t, i);
      AfterSteps(s, steps, t, i + 1);
    }
    forall g ensures StronglyFair(r, act, g) {
      assert !CanSoon(r, g, |steps|);
    }
  }

  lemma OneMore(s: State, a: Step, m: State, steps: seq<Step>, t: State)
    requires Enabled(s, a) && Do(s, a) == m && Leads(m, steps, t)
    ensures Leads(s, [a] + steps, t)
  {
    assert ([a] + steps)[1..] == steps;
  }

  function NoCalls(): State {
    State(map[], Free, Free, 0, false, {}, {}, Idle, {})
  }

  /** A state with the one call 0, which holds the outer mutex until it has returned. */
  function Alone(phase: Phase, progress: Progress, tree: seq<Entry>, sync: Mutex, ready: bool,
                 connects: set<nat>, timers: set<nat>, handler: Handler, posted: set<nat>): State {
    State(map[0 := Call(phase, progress, tree)], if Inside(phase) then Held(0) else Free, sync, 0, ready,
          connects, timers, handler, posted)
  }

  lemma FirstSteps(steps: seq<Step>, t: State)
    requires Leads(Alone(Performing, Nothing, [], Held(0), false, {}, {}, Idle, {}), steps, t)
    ensures Leads(NoCalls(), [Enter(0)] + ([LockCheck(0)] + ([LockSync(0)] + steps)), t)
  {
    var s1 := Alone(Entering, Nothing, [], Free, false, {}, {}, Idle, {});
    var s2 := Alone(Locked, Nothing, [], Free, false, {}, {}, Idle, {});
    var s3 := Alone(Performing, Nothing, [], Held(0), false, {}, {}, Idle, {});
    OneMore(s2, LockSync(0), s3, steps, t);
    OneMore(s1, LockCheck(0), s2, [LockSync(0)] + steps, t);
    OneMore(NoCalls(), Enter(0), s1, [LockCheck(0)] + ([LockSync(0)] + steps), t);
  }

  lemma PostedStep(steps: seq<Step>, t: State)
    requires Leads(Alone(Posting, Flying, [], Held(0), false, {0}, {}, Idle, {0}), steps, t)
    ensures Leads(Alone(Performing, Nothing, [], Held(0), false, {}, {}, Idle, {}), [Post(0)] + steps, t)
  {
    var s3 := Alone(Performing, Nothing, [], Held(0), false, {}, {}, Idle, {});
    var s4 := Alone(Posting, Flying, [], Held(0), false, {0}, {}, Idle, {0});
    assert s3.connects + {0} == {0};
    OneMore(s3, Post(0), s4, steps, t);
  }

  lemma AsleepSteps(steps: seq<Step>, t: State)
    requires Leads(Alone(Sleeping, Flying, [], Free, false, {0}, {0}, Idle, {0}), steps, t)
    ensures Leads(Alone(Posting, Flying, [], Held(0), false, {0}, {}, Idle, {0}),
                  [ArmTimer(0)] + ([Sleep(0)] + steps), t)
  {
    var s4 := Alone(Posting, Flying, [], Held(0), false, {0}, {}, Idle, {0});
    var s5 := Alone(Testing, Flying, [], Held(0), false, {0}, {0}, Idle, {0});
    var s6 := Alone(Sleeping, Flying, [], Free, false, {0}, {0}, Idle, {0});
    OneMore(s5, Sleep(0), s6, steps, t);
    assert s4.timers + {0} == {0};
    OneMore(s4, ArmTimer(0), s5, [Sleep(0)] + steps, t);
  }

  lemma AnsweredSteps(steps: seq<Step>, t: State)
    requires Leads(Alone(Sleeping, Written, [Entry(0, 0)], Free, false, {}, {0}, Appended(0), {0}), steps, t)
    ensures Leads(Alone(Sleeping, Flying, [], Free, false, {0}, {0}, Idle, {0}),
                  [RunConnect(0)] + ([ReplyOrRefusal] + steps), t)
  {
    var s6 := Alone(Sleeping, Flying, [], Free, false, {0}, {0}, Idle, {0});
    var s7 := Alone(Sleeping, Flying, [], Free, false, {}, {0}, Exchanging(0), {0});
    var s8 := Alone(Sleeping, Written, [Entry(0, 0)], Free, false, {}, {0}, Appended(0), {0});
    assert s7.calls[0].tree + [Entry(0, 0)] == [Entry(0, 0)] && s6.connects - {0} == {};
    OneMore(s7, ReplyOrRefusal, s8, steps, t);
    OneMore(s6, RunConnect(0), s7, [ReplyOrRefusal] + steps, t);
  }

  lemma ReadyStep(steps: seq<Step>, t: State)
    requires Leads(Alone(Sleeping, Settled, [Entry(0, 0)], Free, true, {}, {0}, Notifying(0), {0}), steps, t)
    ensures Leads(Alone(Sleeping, Written, [Entry(0, 0)], Free, false, {}, {0}, Appended(0), {0}),
                  [SetReady] + steps, t)
  {
    var s8 := Alone(Sleeping, Written, [Entry(0, 0)], Free, false, {}, {0}, Appended(0), {0});
    var s9 := Alone(Sleeping, Settled, [Entry(0, 0)], Free, true, {}, {0}, Notifying(0), {0});
    OneMore(s8, SetReady, s9, steps, t);
  }

  lemma NotifiedSteps(steps: seq<Step>, t: State)
    requires Leads(Alone(Testing, Settled, [Entry(0, 0)], Held(0), true, {}, {0}, Idle, {0}), steps, t)
    ensures Leads(Alone(Sleeping, Settled, [Entry(0, 0)], Free, true, {}, {0}, Notifying(0), {0}),
                  [Notify(0)] + ([Relock(0)] + steps), t)
  {
    var s9 := Alone(Sleeping, Settled, [Entry(0, 0)], Free, true, {}, {0}, Notifying(0), {0});
    var s10 := Alone(Waking, Settled, [Entry(0, 0)], Free, true, {}, {0}, Idle, {0});
    var s11 := Alone(Testing, Settled, [Entry(0, 0)], Held(0), true, {}, {0}, Idle, {0});
    OneMore(s10, Relock(0), s11, steps, t);
    OneMore(s9, Notify(0), s10, [Relock(0)] + steps, t);
  }

  lemma LastSteps(steps: seq<Step>, t: State)
    requires Leads(Alone(Returned, Settled, [Entry(0, 0)], Free, true, {}, {0}, Idle, {0}), steps, t)
    ensures Leads(Alone(Testing, Settled, [Entry(0, 0)], Held(0), true, {}, {0}, Idle, {0}),
                  [Leave(0)] + ([Return(0)] + steps), t)
  {
    var s11 := Alone(Testing, Settled, [Entry(0, 0)], Held(0), true, {}, {0}, Idle, {0});
    var s12 := Alone(Leaving, Settled, [Entry(0, 0)], Free, true, {}, {0}, Idle, {0});
    var s13 := Alone(Returned, Settled, [Entry(0, 0)], Free, true, {}, {0}, Idle, {0});
    OneMore(s12, Return(0), s13, steps, t);
    OneMore(s11, Leave(0), s12, [Return(0)] + steps, t);
  }

  /** The steps of one call that sleeps, is notified and returns. */
  lemma WholeCall() returns (steps: seq<Step>, t: State)
    ensures Leads(NoCalls(), steps, t) && |steps| == 13 && steps[9] == Notify(0)
    ensures t == Alone(Returned, Settled, [Entry(0, 0)], Free, true, {}, {0}, Idle, {0})
  {
    t := Alone(Returned, Settled, [Entry(0, 0)], Free, true, {}, {0}, Idle, {0});
    steps := [];
    LastSteps(steps, t);
    steps := [Leave(0)] + ([Return(0)] + steps);
    NotifiedSteps(steps, t);
    steps := [Notify(0)] + ([Relock(0)] + steps);
    ReadyStep(steps, t);
    steps := [SetReady] + steps;
    AnsweredSteps(steps, t);
    steps := [RunConnect(0)] + ([ReplyOrRefusal] + steps);
    AsleepSteps(steps, t);
    steps := [ArmTimer(0)] + ([Sleep(0)] + steps);
    PostedStep(steps, t);
    steps := [Post(0)] + steps;
    FirstSteps(steps, t);
    steps := [Enter(0)] + ([LockCheck(0)] + ([LockSync(0)] + steps));
  }

  /** A fair run with a call that sleeps, is notified and returns. */
  lemma OneCallReturns() returns (r: Trace, act: Actions)
    ensures FairRun(r, act) && AllReturn(r) && act(9) == Some(Notify(0)) && At(r(13), 0, Returned)
  {
    var steps, t := WholeCall();
    Silent(t);
    r, act := QuietIsFair(NoCalls(), steps, t);
    forall i: nat ensures Unblocked(r(i)) {
      forall d {:trigger Hopeless(r(i), d)} | d in r(i).calls ensures !Hopeless(r(i), d) {
        if Hopeless(r(i), d) { HopelessOn(r, act, i, i + 13, d); }
      }
    }
    FairRunsReturn(r, act);
  }

  lemma Silent(t: State)
    requires t == Alone(Returned, Settled, [Entry(0, 0)], Free, true, {}, {0}, Idle, {0})
    ensures forall g :: !CanAct(t, g)
  {
  }

  /** A fair run in which the first lookup of a name fails: the call falls asleep and never returns. */
  lemma OneCallBlocked() returns (r: Trace, act: Actions)
    ensures FairRun(r, act) && !AllReturn(r)
  {
    var t := BlockedSteps();
    FirstSteps([LookupFails(0)] + ([Sleep(0)] + []), t);
    var steps := [Enter(0)] + ([LockCheck(0)] + ([LockSync(0)] + ([LookupFails(0)] + ([Sleep(0)] + []))));
    r, act := QuietIsFair(NoCalls(), steps, t);
    FairRunsReturn(r, act);
    assert !Unblocked(r(|steps|));
  }

  lemma BlockedSteps() returns (t: State)
    ensures Leads(Alone(Performing, Nothing, [], Held(0), false, {}, {}, Idle, {}),
                  [LookupFails(0)] + ([Sleep(0)] + []), t)
    ensures 0 in t.calls && Hopeless(t, 0) && forall g :: !CanAct(t, g)
  {
    var s3 := Alone(Performing, Nothing, [], Held(0), false, {}, {}, Idle, {});
    var s4 := Alone(Testing, Settled, [Entry(0, 0)], Held(0), false, {}, {}, Idle, {});
    t := Alone(Sleeping, Settled, [Entry(0, 0)], Free, false, {}, {}, Idle, {});
    OneMore(s4, Sleep(0), t, [], t);
    assert s3.calls[0].tree + [Entry(0, 0)] == [Entry(0, 0)];
    OneMore(s3, LookupFails(0), s4, [Sleep(0)] + [], t);
  }
}
