/** The rendezvous by which a connection turns an asynchronous exchange into a blocking call: any number
    of callers, two mutexes, a condition variable and a strand that runs one handler at a time.  A state
    machine: a step is one atomic action of a caller or of a handler, and any interleaving is a run. */
module Rendezvous {

  /** Where a `status` call is.  `Entering` waits for the outer mutex and `Locked` for the inner one;
      the inner one is held while `Performing`, `Posting` and `Testing`, and given up while asleep. */
  datatype Phase = Entering | Locked | Performing | Posting | Testing | Sleeping | Waking | Leaving | Returned

  /** What became of a call's operation: posted and flying, its entry written, the caller free to go,
      or broken by an error during the exchange. */
  datatype Progress = Nothing | Flying | Written | Settled | Broken

  /** An entry of a result tree: for which operation it was made, and for which stream it was asked. */
  datatype Entry = Entry(op: nat, asked: nat)

  datatype Call = Call(phase: Phase, progress: Progress, tree: seq<Entry>)

  /** A connect handler that runs in the strand. */
  datatype Handler = Idle | Exchanging(op: nat) | Appended(op: nat) | Notifying(op: nat)

  datatype Mutex = Free | Held(holder: nat)

  datatype State = State(
    calls: map<nat, Call>,
    checkMut: Mutex, syncMut: Mutex,
    current: nat,  // the call that set stream id and result last
    dataReady: bool,
    connects: set<nat>, timers: set<nat>,        // handlers posted and not yet run
    handler: Handler,
    posted: set<nat>)                            // all operations ever posted

  ghost predicate Init(s: State) {
    s == State(map[], Free, Free, 0, false, {}, {}, Idle, {})
  }

  function SetPhase(s: State, c: nat, p: Phase): State
    requires c in s.calls
  {
    s.(calls := s.calls[c := s.calls[c].(phase := p)])
  }

  function SetProgress(s: State, c: nat, p: Progress): State
    requires c in s.calls
  {
    s.(calls := s.calls[c := s.calls[c].(progress := p)])
  }

  /** What appending a result does: an entry on operation `op` goes to the tree of the current call. */
  function Append(s: State, op: nat): State
    requires s.current in s.calls
  {
    var c := s.calls[s.current];
    s.(calls := s.calls[s.current := c.(tree := c.tree + [Entry(op, s.current)])])
  }

  // ------------------------------------------------------------------ steps of callers

  datatype Step =
    | Enter(c: nat) | LockCheck(c: nat) | LockSync(c: nat)
    | LookupFails(c: nat) | Post(c: nat) | ArmTimer(c: nat)
    | Sleep(c: nat) | Wake(c: nat) | Relock(c: nat) | Leave(c: nat) | Return(c: nat)
    | RunConnect(c: nat) | ReplyOrRefusal | ExchangeFails | SetReady | Notify(c: nat) | NotifyNobody | Timeout(c: nat)

  predicate At(s: State, c: nat, p: Phase) {
    c in s.calls && s.calls[c].phase == p
  }

  predicate Enabled(s: State, a: Step) {
    match a
    case Enter(c) => c !in s.calls
    case LockCheck(c) => At(s, c, Entering) && s.checkMut == Free
    case LockSync(c) => At(s, c, Locked) && s.syncMut == Free
    case LookupFails(c) => At(s, c, Performing) && s.current in s.calls
    case Post(c) => At(s, c, Performing)
    case ArmTimer(c) => At(s, c, Posting)
    case Sleep(c) => At(s, c, Testing) && !s.dataReady
    case Wake(c) => At(s, c, Sleeping)
    case Relock(c) => At(s, c, Waking) && s.syncMut == Free
    case Leave(c) => At(s, c, Testing) && s.dataReady
    case Return(c) => At(s, c, Leaving)
    case RunConnect(c) => c in s.connects && s.handler == Idle
    case ReplyOrRefusal => s.handler.Exchanging? && s.current in s.calls && s.handler.op in s.calls
    case ExchangeFails => s.handler.Exchanging? && s.handler.op in s.calls
    case SetReady => s.handler.Appended? && s.handler.op in s.calls && s.syncMut == Free
    case Notify(c) => s.handler.Notifying? && At(s, c, Sleeping)
    case NotifyNobody => s.handler.Notifying? && forall c :: c in s.calls ==> s.calls[c].phase != Sleeping
    case Timeout(c) => c in s.timers && s.handler == Idle
  }

  function Do(s: State, a: Step): State
    requires Enabled(s, a)
  {
    match a
    // a new call, with a result tree of its own
    case Enter(c) => s.(calls := s.calls[c := Call(Entering, Nothing, [])])
    case LockCheck(c) => SetPhase(s, c, Locked).(checkMut := Held(c))
    case LockSync(c) => SetPhase(s, c, Performing).(syncMut := Held(c), current := c)
    // looking up the name throws: the caller itself appends an entry, and data_ready stays as it was
    case LookupFails(c) =>
      var t := Append(s, c);
      assert c in t.calls;
      SetProgress(SetPhase(t, c, Testing), c, Settled)
    case Post(c) =>
      SetProgress(SetPhase(s, c, Posting), c, Flying).(
        dataReady := false, connects := s.connects + {c}, posted := s.posted + {c})
    case ArmTimer(c) => SetPhase(s, c, Testing).(timers := s.timers + {c})
    // waiting gives up the inner mutex in the same step
    case Sleep(c) => SetPhase(s, c, Sleeping).(syncMut := Free)
    case Wake(c) => SetPhase(s, c, Waking)
    case Relock(c) => SetPhase(s, c, Testing).(syncMut := Held(c))
    case Leave(c) => SetPhase(s, c, Leaving).(syncMut := Free)
    case Return(c) => SetPhase(s, c, Returned).(checkMut := Free)
    case RunConnect(c) => s.(connects := s.connects - {c}, handler := Exchanging(c))
    // connecting was refused, or the exchange went through: in both cases an entry, without a mutex
    case ReplyOrRefusal =>
      var op := s.handler.op;
      SetProgress(Append(s, op), op, Written).(handler := Appended(op))
    case ExchangeFails => SetProgress(s, s.handler.op, Broken).(handler := Idle)
    case SetReady => SetProgress(s, s.handler.op, Settled).(dataReady := true, handler := Notifying(s.handler.op))
    case Notify(c) => SetPhase(s, c, Waking).(handler := Idle)
    case NotifyNobody => s.(handler := Idle)
    // closing the socket can only change how exchanges end, and they may end either way at any time
    case Timeout(c) => s.(timers := s.timers - {c})
  }

  ghost predicate Next(s: State, t: State) {
    exists a :: Enabled(s, a) && Do(s, a) == t
  }

  // ------------------------------------------------------------------ the invariant

  /** The phases in which a call holds the outer mutex, and those in which it holds the inner one too. */
  predicate Inside(p: Phase) {
    p in {Locked, Performing, Posting, Testing, Sleeping, Waking, Leaving}
  }

  predicate HoldsSync(p: Phase) {
    p in {Performing, Posting, Testing}
  }

  /** The phases after the operation was started. */
  predicate Started(p: Phase) {
    p in {Posting, Testing, Sleeping, Waking}
  }

  /** The operation was posted and its handler has not yet set `dataReady`. */
  predicate InFlight(s: State, c: nat) {
    c in s.connects || s.handler == Exchanging(c) || s.handler == Appended(c)
  }

  ghost predicate CallOk(s: State, c: nat)
    requires c in s.calls
  {
    var k := s.calls[c];
    && (Inside(k.phase) <==> s.checkMut == Held(c))
    && (HoldsSync(k.phase) <==> s.syncMut == Held(c))
    && (Inside(k.phase) && k.phase != Locked ==> s.current == c)
    && k.tree == (if k.progress in {Written, Settled} then [Entry(c, c)] else [])
    && (match k.progress
        case Nothing => k.phase in {Entering, Locked, Performing}
        case Flying => Started(k.phase) && !s.dataReady && c in s.posted
        case Written => Started(k.phase) && !s.dataReady && c in s.posted
        case Settled => Started(k.phase) || k.phase in {Leaving, Returned}
        case Broken => Started(k.phase) && !s.dataReady && c in s.posted)
    && (k.progress == Flying <==> c in s.connects || s.handler == Exchanging(c))
    && (k.progress == Written <==> s.handler == Appended(c))
    && (s.handler == Exchanging(c) ==> c !in s.connects)
    && (k.phase in {Leaving, Returned} ==> k.progress == Settled)
    // asleep although the result is there: the notification is on its way
    && (k.phase == Sleeping && s.dataReady ==> s.handler == Notifying(c))
  }

  ghost predicate Inv(s: State) {
    && s.connects + s.posted <= s.calls.Keys
    && (s.checkMut.Held? ==> s.checkMut.holder in s.calls) && (s.syncMut.Held? ==> s.syncMut.holder in s.calls)
    && (s.handler != Idle ==> s.handler.op in s.calls)
    && (forall c {:trigger CallOk(s, c)} :: c in s.calls ==> CallOk(s, c))
    // nothing ready although something was posted: an operation is still flying, or is broken
    && (!s.dataReady && s.posted != {} ==> Unready(s))
    && (s.dataReady ==> s.posted != {})
  }

  ghost predicate Unready(s: State) {
    exists c :: c in s.calls && s.calls[c].progress in {Flying, Written, Broken}
  }

  lemma InitInv(s: State)
    requires Init(s)
    ensures Inv(s)
  {
  }

  /** Every step of every caller and handler keeps the invariant. */
  lemma StepInv(s: State, a: Step)
    requires Inv(s) && Enabled(s, a)
    ensures Inv(Do(s, a))
  {
    var t := Do(s, a);
    forall c {:trigger CallOk(t, c)} | c in t.calls ensures CallOk(t, c) {
      StepCallOk(s, a, c);
    }
    StepKnown(s, a);
    StepHolders(s, a);
    StepHandler(s, a);
    StepPosted(s, a);
    if !t.dataReady && t.posted != {} { StepUnready(s, a); }
  }

  /** Every step speaks of known calls. */
  lemma StepKnown(s: State, a: Step)
    requires Inv(s) && Enabled(s, a)
    ensures Do(s, a).connects + Do(s, a).posted <= Do(s, a).calls.Keys
  {
    assert s.calls.Keys <= Do(s, a).calls.Keys;
  }

  lemma StepHolders(s: State, a: Step)
    requires Inv(s) && Enabled(s, a)
    ensures var t := Do(s, a);
            && (t.checkMut.Held? ==> t.checkMut.holder in t.calls)
            && (t.syncMut.Held? ==> t.syncMut.holder in t.calls)
  {
  }

  lemma StepHandler(s: State, a: Step)
    requires Inv(s) && Enabled(s, a)
    ensures Do(s, a).handler != Idle ==> Do(s, a).handler.op in Do(s, a).calls
  {
  }

  lemma StepPosted(s: State, a: Step)
    requires Inv(s) && Enabled(s, a)
    ensures Do(s, a).dataReady ==> Do(s, a).posted != {}
  {
    if s.handler != Idle { assert CallOk(s, s.handler.op); }
  }

  lemma StepCallOk(s: State, a: Step, c: nat)
    requires Inv(s) && Enabled(s, a) && c in Do(s, a).calls
    ensures CallOk(Do(s, a), c)
  {
    if a.Enter? || a.LockCheck? || a.LockSync? || a.LookupFails? || a.Post? {
      StartsCallOk(s, a, c);
    } else if a.ArmTimer? || a.Sleep? || a.Wake? || a.Relock? || a.Leave? || a.Return? {
      WaitsCallOk(s, a, c);
    } else {
      RunsCallOk(s, a, c);
    }
  }

  lemma StartsCallOk(s: State, a: Step, c: nat)
    requires Inv(s) && Enabled(s, a) && c in Do(s, a).calls
    requires a.Enter? || a.LockCheck? || a.LockSync? || a.LookupFails? || a.Post?
    ensures CallOk(Do(s, a), c)
  {
    assert c in s.calls ==> CallOk(s, c);
    assert a.c in s.calls ==> CallOk(s, a.c);
  }

  lemma WaitsCallOk(s: State, a: Step, c: nat)
    requires Inv(s) && Enabled(s, a) && c in Do(s, a).calls
    requires a.ArmTimer? || a.Sleep? || a.Wake? || a.Relock? || a.Leave? || a.Return?
    ensures CallOk(Do(s, a), c)
  {
    assert CallOk(s, c) && CallOk(s, a.c);
  }

  lemma RunsCallOk(s: State, a: Step, c: nat)
    requires Inv(s) && Enabled(s, a) && c in Do(s, a).calls
    requires !(a.Enter? || a.LockCheck? || a.LockSync? || a.LookupFails? || a.Post?)
    requires !(a.ArmTimer? || a.Sleep? || a.Wake? || a.Relock? || a.Leave? || a.Return?)
    ensures CallOk(Do(s, a), c)
  {
    assert CallOk(s, c);
    assert s.handler != Idle ==> CallOk(s, s.handler.op);
    assert a.RunConnect? || a.Notify? ==> CallOk(s, a.c);
  }

  lemma StepUnready(s: State, a: Step)
    requires Inv(s) && Enabled(s, a) && !Do(s, a).dataReady && Do(s, a).posted != {}
    ensures Unready(Do(s, a))
  {
    var t := Do(s, a);
    if a.Post? {
      assert t.calls[a.c].progress == Flying;
    } else {
      var c :| c in s.calls && s.calls[c].progress in {Flying, Written, Broken};
      assert CallOk(s, c);
      assert t.calls[c].progress in {Flying, Written, Broken};
    }
  }

  // ------------------------------------------------------------------ runs

  ghost predicate Run(r: seq<State>) {
    |r| > 0 && Init(r[0]) && forall i :: 0 <= i < |r| - 1 ==> Next(r[i], r[i + 1])
  }

  lemma {:induction false} RunInv(r: seq<State>, i: nat)
    requires Run(r) && i < |r|
    ensures Inv(r[i])
  {
    if i == 0 {
      InitInv(r[0]);
    } else {
      RunInv(r, i - 1);
      assert Next(r[i - 1], r[i - 1 + 1]);
      var a :| Enabled(r[i - 1], a) && Do(r[i - 1], a) == r[i];
      StepInv(r[i - 1], a);
    }
  }

  /** In any interleaving: at most one operation is in flight, and a call that has returned has in its
      own result tree exactly one entry, on its own operation and for its own stream. */
  lemma Isolation(r: seq<State>, i: nat, c: nat, d: nat)
    requires Run(r) && i < |r| && c in r[i].calls && d in r[i].calls
    ensures InFlight(r[i], c) && InFlight(r[i], d) ==> c == d
    ensures r[i].calls[c].phase == Returned ==> r[i].calls[c].tree == [Entry(c, c)]
  {
    RunInv(r, i);
    assert CallOk(r[i], c) && CallOk(r[i], d);
  }

  /** What a call has when it returns it keeps: no later step writes to its tree. */
  lemma {:induction false} ReturnedIsFinal(r: seq<State>, i: nat, j: nat, c: nat)
    requires Run(r) && i <= j < |r| && At(r[i], c, Returned)
    ensures c in r[j].calls && r[j].calls[c] == r[i].calls[c]
  {
    if i < j {
      ReturnedIsFinal(r, i, j - 1, c);
      RunInv(r, j - 1);
      assert Next(r[j - 1], r[j - 1 + 1]);
      var a :| Enabled(r[j - 1], a) && Do(r[j - 1], a) == r[j];
      ReturnedStays(r[j - 1], a, c);
    }
  }

  lemma ReturnedStays(s: State, a: Step, c: nat)
    requires Inv(s) && Enabled(s, a) && At(s, c, Returned)
    ensures c in Do(s, a).calls && Do(s, a).calls[c] == s.calls[c]
  {
    assert CallOk(s, c);
    if a.ReplyOrRefusal? { assert CallOk(s, s.handler.op); }
    if a.LookupFails? { assert CallOk(s, a.c); }
  }

  // ------------------------------------------------------------------ progress

  /** A caller that has started its operation and will never return: the exchange raised an error, or
      its name lookup failed while nothing had ever been ready. */
  predicate Hopeless(s: State, c: nat)
    requires c in s.calls
  {
    && Started(s.calls[c].phase)
    && (s.calls[c].progress == Broken || (s.calls[c].progress == Settled && !s.dataReady))
  }

  /** No wake-up is lost: a caller in the wait loop has its handler still to run, or finds the result
      ready and, if it sleeps, is about to be notified, or its exchange broke, or its lookup failed
      before any operation was ever posted. */
  lemma NoLostWakeUp(r: seq<State>, i: nat, c: nat)
    requires Run(r) && i < |r| && c in r[i].calls && r[i].calls[c].phase in {Testing, Sleeping, Waking}
    ensures var s := r[i];
            || InFlight(s, c)
            || (s.dataReady && (s.calls[c].phase == Sleeping ==> s.handler == Notifying(c)))
            || s.calls[c].progress == Broken
            || (s.calls[c].progress == Settled && !s.dataReady && s.posted == {})
  {
    RunInv(r, i);
    OnlyCause(r[i], c);
  }

  lemma OnlyCause(s: State, c: nat)
    requires Inv(s) && c in s.calls && Started(s.calls[c].phase)
    ensures s.calls[c].progress == Settled && !s.dataReady ==> s.posted == {}
    ensures CallOk(s, c)
  {
    assert CallOk(s, c);
    if s.calls[c].progress == Settled && !s.dataReady && s.posted != {} {
      var d :| d in s.calls && s.calls[d].progress in {Flying, Written, Broken};
      HasMutex(s, d);
    }
  }

  lemma HasMutex(s: State, d: nat)
    requires Inv(s) && d in s.calls && s.calls[d].progress in {Flying, Written, Broken}
    ensures s.checkMut == Held(d)
  {
    assert CallOk(s, d);
  }

  /** A hopeless caller stays so whatever happens. */
  lemma HopelessForever(s: State, a: Step, c: nat)
    requires Inv(s) && Enabled(s, a) && c in s.calls && Hopeless(s, c)
    ensures c in Do(s, a).calls && Hopeless(Do(s, a), c)
  {
    assert CallOk(s, c);
    if s.handler != Idle { assert CallOk(s, s.handler.op); }
    if !(a.Enter? || a.ReplyOrRefusal? || a.ExchangeFails? || a.SetReady? || a.NotifyNobody? || a.Timeout?) {
      if a.c in s.calls { assert CallOk(s, a.c); }
    }
  }

  /** Nobody is hopeless. */
  ghost predicate Unblocked(s: State) {
    forall d {:trigger Hopeless(s, d)} :: d in s.calls ==> !Hopeless(s, d)
  }

  /** A step that brings a caller that does not queue for the outer mutex nearer to its return, and how
      near it is. */
  function OwnStep(s: State, c: nat): Step
    requires c in s.calls
  {
    var k := s.calls[c];
    if k.phase == Entering then LockCheck(c)
    else if k.phase == Locked then LockSync(c)
    else if k.phase == Performing then Post(c)
    else if k.progress == Flying then
      if c !in s.connects then ReplyOrRefusal
      else if s.handler == Idle then RunConnect(c)
      else if k.phase == Sleeping then Notify(c)
      else NotifyNobody
    else if k.progress == Written && s.syncMut == Free then SetReady
    else if k.phase == Posting then ArmTimer(c)
    else if k.phase == Testing then (if s.dataReady then Leave(c) else Sleep(c))
    else if k.phase == Sleeping then Wake(c)
    else if k.phase == Waking then Relock(c)
    else Return(c)
  }

  function OwnDistance(s: State, c: nat): nat
    requires c in s.calls
  {
    var k := s.calls[c];
    (if k.progress == Flying then (if c !in s.connects then 20 else if s.handler == Idle then 21 else 22)
     else if k.progress == Written then 10 else 0)
    + (match k.phase
       case Entering => 32 case Locked => 31 case Performing => 30
       case Posting => 5 case Testing => if k.progress == Settled then 2 else 4
       case Sleeping => if k.progress == Settled then 4 else 3
       case Waking => 3 case Leaving => 1 case Returned => 0)
  }

  /** Whose turn it is before `c` can go on: the holder of the outer mutex if `c` queues for it. */
  function Actor(s: State, c: nat): nat {
    if At(s, c, Entering) && s.checkMut.Held? then s.checkMut.holder else c
  }

  function Distance(s: State, c: nat): nat
    requires Inv(s) && c in s.calls
  {
    if Actor(s, c) == c then OwnDistance(s, c) else 40 + OwnDistance(s, Actor(s, c))
  }

  lemma OwnStepEnabled(s: State, c: nat)
    requires Inv(s) && c in s.calls && !Hopeless(s, c) && s.calls[c].phase != Returned && Actor(s, c) == c
    ensures Enabled(s, OwnStep(s, c))
  {
    assert CallOk(s, c);
    if s.handler != Idle { assert CallOk(s, s.handler.op); }
    if s.syncMut.Held? { assert CallOk(s, s.syncMut.holder); }
    forall d | d in s.calls && s.calls[d].phase == Sleeping ensures s.checkMut == Held(d) { assert CallOk(s, d); }
  }

  lemma OwnStepNearer(s: State, c: nat)
    requires Inv(s) && c in s.calls && !Hopeless(s, c) && s.calls[c].phase != Returned && Enabled(s, OwnStep(s, c))
    ensures var t := Do(s, OwnStep(s, c));
            c in t.calls && OwnDistance(t, c) < OwnDistance(s, c)
  {
    assert CallOk(s, c);
    if s.handler != Idle { assert CallOk(s, s.handler.op); }
    if s.syncMut.Held? { assert CallOk(s, s.syncMut.holder); }
  }

  lemma OwnStepHopeful(s: State, c: nat)
    requires Inv(s) && c in s.calls && !Hopeless(s, c) && s.calls[c].phase != Returned && Enabled(s, OwnStep(s, c))
    ensures var t := Do(s, OwnStep(s, c)); c in t.calls && !Hopeless(t, c)
  {
    assert CallOk(s, c);
    if s.handler != Idle { assert CallOk(s, s.handler.op); }
  }

  lemma OwnAdvances(s: State, c: nat)
    requires Inv(s) && c in s.calls && !Hopeless(s, c) && s.calls[c].phase != Returned && Actor(s, c) == c
    ensures Enabled(s, OwnStep(s, c))
    ensures var t := Do(s, OwnStep(s, c));
            c in t.calls && !Hopeless(t, c) && OwnDistance(t, c) < OwnDistance(s, c)
  {
    OwnStepEnabled(s, c);
    OwnStepNearer(s, c);
    OwnStepHopeful(s, c);
  }

  /** Such a step changes the phase of nobody else and leaves the outer mutex to `c` or to nobody. */
  lemma OwnStepIsOwn(s: State, c: nat, d: nat)
    requires Inv(s) && c in s.calls && s.calls[c].phase != Returned && Actor(s, c) == c && Enabled(s, OwnStep(s, c))
    requires d in s.calls && d != c
    ensures var t := Do(s, OwnStep(s, c));
            d in t.calls && t.calls[d].phase == s.calls[d].phase && t.checkMut in {Free, Held(c)}
  {
    assert CallOk(s, c) && CallOk(s, d);
    if s.handler != Idle { assert CallOk(s, s.handler.op); }
  }

  lemma OwnStepMutex(s: State, c: nat)
    requires Inv(s) && c in s.calls && s.calls[c].phase != Returned && Actor(s, c) == c && Enabled(s, OwnStep(s, c))
    ensures Do(s, OwnStep(s, c)).checkMut in {Free, Held(c)}
  {
    assert CallOk(s, c);
  }

  lemma HopelessHolds(s: State, d: nat)
    requires Inv(s) && d in s.calls && Hopeless(s, d)
    ensures s.checkMut == Held(d)
  {
    assert CallOk(s, d);
  }

  /** Only the holder of the outer mutex can be hopeless. */
  lemma HolderIsNot(s: State, c: nat)
    requires Inv(s) && c in s.calls && !Hopeless(s, c) && s.checkMut in {Free, Held(c)}
    ensures Unblocked(s)
  {
    forall d {:trigger Hopeless(s, d)} | d in s.calls ensures !Hopeless(s, d) {
      if Hopeless(s, d) { HopelessHolds(s, d); }
    }
  }

  lemma OwnStepUnblocked(s: State, c: nat)
    requires Inv(s) && c in s.calls && !Hopeless(s, c) && s.calls[c].phase != Returned && Actor(s, c) == c
    ensures Enabled(s, OwnStep(s, c)) && Inv(Do(s, OwnStep(s, c))) && Unblocked(Do(s, OwnStep(s, c)))
  {
    OwnAdvances(s, c);
    OwnStepMutex(s, c);
    StepInv(s, OwnStep(s, c));
    HolderIsNot(Do(s, OwnStep(s, c)), c);
  }

  /** While nobody is hopeless the holder of the outer mutex can go on, and so can everybody behind it. */
  lemma Advances(s: State, c: nat)
    requires Inv(s) && Unblocked(s) && c in s.calls && s.calls[c].phase != Returned
    ensures var h := Actor(s, c);
            && h in s.calls && Enabled(s, OwnStep(s, h))
            && var t := Do(s, OwnStep(s, h));
               Inv(t) && Unblocked(t) && c in t.calls && Distance(t, c) < Distance(s, c)
  {
    var h := Actor(s, c);
    assert CallOk(s, h);
    OwnAdvances(s, h);
    OwnStepUnblocked(s, h);
    if h != c {
      OwnStepIsOwn(s, h, c);
      BehindMeets(Do(s, OwnStep(s, h)), c, h);
    }
  }

  /** Behind `h` a caller is farther away than it is at the head of the queue. */
  lemma BehindMeets(t: State, c: nat, h: nat)
    requires Inv(t) && At(t, c, Entering) && h in t.calls && t.checkMut in {Free, Held(h)}
    ensures Distance(t, c) <= (if t.checkMut == Free then 32 else 40 + OwnDistance(t, h))
  {
    assert CallOk(t, c) && CallOk(t, h);
  }

  // ------------------------------------------------------------------ who returns

  ghost predicate Reaches(s: State, t: State, n: nat)
    decreases n
  {
    if n == 0 then s == t else exists m :: Next(s, m) && Reaches(m, t, n - 1)
  }

  /** Some run from `s` leads to the return of `c`. */
  ghost predicate MayReturn(s: State, c: nat) {
    exists t: State, n: nat :: Reaches(s, t, n) && At(t, c, Returned)
  }

  /** While nobody is hopeless everybody can return. */
  lemma {:induction false} CanReturn(s: State, c: nat) returns (t: State, n: nat)
    requires Inv(s) && Unblocked(s) && c in s.calls
    ensures Reaches(s, t, n) && At(t, c, Returned)
    decreases Distance(s, c)
  {
    if s.calls[c].phase == Returned {
      t, n := s, 0;
    } else {
      Advances(s, c);
      var a := OwnStep(s, Actor(s, c));
      var m;
      t, m := CanReturn(Do(s, a), c);
      n := m + 1;
      assert Next(s, Do(s, a)) && Reaches(Do(s, a), t, m);
    }
  }

  /** A hopeless caller keeps the outer mutex, so that nobody returns who has not yet. */
  lemma HopelessBlocks(s: State, a: Step, d: nat, c: nat)
    requires Inv(s) && Enabled(s, a) && d in s.calls && Hopeless(s, d) && c in s.calls && !At(s, c, Returned)
    ensures c in Do(s, a).calls && !At(Do(s, a), c, Returned)
  {
    assert CallOk(s, c) && CallOk(s, d);
  }

  lemma BlockedNext(s: State, m: State, d: nat, c: nat)
    requires Inv(s) && d in s.calls && Hopeless(s, d) && c in s.calls && !At(s, c, Returned) && Next(s, m)
    ensures Inv(m) && d in m.calls && Hopeless(m, d) && c in m.calls && !At(m, c, Returned)
  {
    var a :| Enabled(s, a) && Do(s, a) == m;
    StepInv(s, a);
    HopelessForever(s, a, d);
    HopelessBlocks(s, a, d, c);
  }

  lemma {:induction false} BlockedRun(s: State, t: State, n: nat, d: nat, c: nat)
    requires Inv(s) && d in s.calls && Hopeless(s, d) && c in s.calls && !At(s, c, Returned) && Reaches(s, t, n)
    ensures !At(t, c, Returned)
    decreases n
  {
    if n > 0 {
      var m :| Next(s, m) && Reaches(m, t, n - 1);
      BlockedNext(s, m, d, c);
      BlockedRun(m, t, n - 1, d, c);
    }
  }

  /** For every call, whatever it is at: it has returned or can still return if and only if it has
      returned or nobody is hopeless. */
  lemma ReturnsUnlessBlocked(s: State, c: nat)
    requires Inv(s) && c in s.calls
    ensures MayReturn(s, c) <==> At(s, c, Returned) || Unblocked(s)
  {
    if At(s, c, Returned) {
      assert Reaches(s, s, 0);
    } else if Unblocked(s) {
      var t, n := CanReturn(s, c);
      assert Reaches(s, t, n) && At(t, c, Returned);
    } else {
      var d :| d in s.calls && Hopeless(s, d);
      if MayReturn(s, c) {
        var t: State, n: nat :| Reaches(s, t, n) && At(t, c, Returned);
        BlockedRun(s, t, n, d, c);
      }
    }
  }

  /** The same phase by phase: a caller that has started its operation can return exactly if it is not
      hopeless itself, one inside before that always can, and one that still queues for the outer mutex
      exactly if nobody is hopeless. */
  lemma ReturnsUnlessHopeless(s: State, c: nat)
    requires Inv(s) && c in s.calls
    ensures Started(s.calls[c].phase) ==> (MayReturn(s, c) <==> !Hopeless(s, c))
    ensures s.calls[c].phase in {Locked, Performing, Leaving, Returned} ==> MayReturn(s, c)
    ensures s.calls[c].phase == Entering ==> (MayReturn(s, c) <==> Unblocked(s))
  {
    ReturnsUnlessBlocked(s, c);
    assert CallOk(s, c);
    forall d | d in s.calls && Hopeless(s, d) ensures s.checkMut == Held(d) { assert CallOk(s, d); }
  }

  /** Both ways of being hopeless happen: a first call whose name lookup fails, and one whose exchange breaks. */
  lemma HopelessLookup() returns (r: seq<State>)
    ensures Run(r) && 0 in r[|r| - 1].calls && Hopeless(r[|r| - 1], 0) && r[|r| - 1].posted == {}
  {
    var s := FirstCall();
    var t := Do(s[3], LookupFails(0));
    assert Next(s[3], t);
    r := s + [t];
  }

  lemma HopelessExchange() returns (r: seq<State>)
    ensures Run(r) && 0 in r[|r| - 1].calls && Hopeless(r[|r| - 1], 0) && r[|r| - 1].calls[0].progress == Broken
  {
    var s := FirstCall();
    var t := Do(s[3], Post(0));
    var u := Do(t, RunConnect(0));
    var v := Do(u, ExchangeFails);
    assert Next(s[3], t) && Next(t, u) && Next(u, v);
    r := s + [t, u, v];
  }

  /** A caller that did nothing wrong and never returns: it queues behind one whose name lookup failed. */
  lemma HopelessQueue() returns (r: seq<State>)
    ensures Run(r) && At(r[|r| - 1], 1, Entering)
    ensures !Hopeless(r[|r| - 1], 1) && !MayReturn(r[|r| - 1], 1)
  {
    var s := FirstCall();
    var t := Do(s[3], LookupFails(0));
    var u := Do(t, Enter(1));
    assert Next(s[3], t) && Next(t, u);
    r := s + [t, u];
    RunInv(r, 5);
    assert Hopeless(u, 0);
    ReturnsUnlessHopeless(u, 1);
  }

  lemma FirstCall() returns (r: seq<State>)
    ensures |r| == 4 && Run(r)
    ensures r[3] == State(map[0 := Call(Performing, Nothing, [])], Held(0), Held(0), 0, false, {}, {}, Idle, {})
  {
    var s0 := State(map[], Free, Free, 0, false, {}, {}, Idle, {});
    var s1 := Do(s0, Enter(0));
    var s2 := Do(s1, LockCheck(0));
    var s3 := Do(s2, LockSync(0));
    assert Next(s0, s1) && Next(s1, s2) && Next(s2, s3);
    r := [s0, s1, s2, s3];
  }
}
