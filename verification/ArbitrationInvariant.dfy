/**
 The inductive invariant of the arbitration step system, in seven parts, and the proof that every
 event keeps it. Each part has a frame lemma for the steps that do not concern it.
 */
module ArbitrationInvariant {
  import opened Wrappers
  import opened ActivityGates
  import opened ControlMode
  import opened InputControl
  import opened Arbitration

  // ---------------------------------------------------------------- views of a program point

  /** The lease whose release function the thread holds. */
  function LeaseOf(pc: PC): Option<nat> {
    match pc
    case SecondCheck(_, l) => Some(l)
    case DropLease(l) => Some(l)
    case Writing(_, l) => Some(l)
    case ToolBegin(_, _, lease) => lease
    case Operating(_, _, _, lease) => lease
    case StartingManual(_, l) => Some(l)
    case AwaitingDone(_, l, _) => Some(l)
    case Activating(_, l) => Some(l)
    case Aborting(l) => Some(l)
    case Finishing(lease, _) => lease
    case _ => None
  }

  /** Between beginManual's increment and endManual's decrement. */
  predicate CountedPC(pc: PC) {
    pc.AwaitingDone? || pc.Activating? || pc.Aborting? || pc.Finishing? || pc.Uncounting?
  }

  /** Counted, and past the wait for a preempted operation. */
  predicate ClearedPC(pc: PC) {
    pc.Activating? || pc.Finishing? || pc.Uncounting?
  }

  /** Between setTransitioning(true) and setTransitioning(false). */
  predicate MarkedPC(pc: PC) {
    || pc.SwPreempt? || pc.SwEnter? || pc.SwParked? || pc.SwCleanup?
    || pc.SwSave? || pc.SwRollback? || pc.SwLeave? || pc.SwUnmark?
  }

  /** Holding the gate's exclusive side. */
  predicate ExclusivePC(pc: PC) {
    pc.SwCleanup? || pc.SwSave? || pc.SwRollback? || pc.SwLeave?
  }

  function LeaseAt(s: Sys, o: Owner): Option<nat> {
    match o
    case Thread(t) => if t in s.threads then LeaseOf(s.threads[t]) else None
    case InSession(x) => if x in s.shared.sessions then s.shared.sessions[x].lease else None
  }

  predicate ClearedAt(s: Sys, o: Owner) {
    match o
    case Thread(t) => t in s.threads && ClearedPC(s.threads[t])
    case InSession(x) => x in s.shared.sessions && s.shared.sessions[x].active
  }

  /** The reservers and finishers in flight. */
  function InFlight(threads: map<nat, PC>): set<nat> {
    set t | t in threads && CountedPC(threads[t])
  }

  function ActiveSessions(sessions: map<nat, Session>): set<nat> {
    set x | x in sessions && sessions[x].active
  }

  /** The uncompleted reservations of one generation of a session. */
  function Outstanding(rs: map<nat, Reservation>, x: nat, generation: nat): set<nat> {
    set r | r in rs && rs[r].session == x && rs[r].generation == generation && !rs[r].once
  }

  // ---------------------------------------------------------------- the seven parts

  ghost predicate ParkedOk(g: Gate, pc: PC) {
    match pc
    case ParkedShared(_, ch) =>
      ch < g.made && (ch !in g.closed ==> g.exclusive)
    case SwParked(_, _, ch) =>
      ch < g.made && (ch !in g.closed ==> g.exclusive || g.active > 0)
    case _ => true
  }

  ghost predicate InvGate(s: Sys) {
    && GateOk(s.shared.gate)
    && forall t :: t in s.threads ==> ParkedOk(s.shared.gate, s.threads[t])
  }

  ghost predicate InvLedger(s: Sys) {
    && s.shared.gate.active == |s.shared.ledger|
    && (forall o :: LeaseAt(s, o).Some? ==>
        LeaseAt(s, o).value in s.shared.ledger && s.shared.ledger[LeaseAt(s, o).value] == o)
    && (forall l :: l in s.shared.ledger ==>
        LeaseAt(s, s.shared.ledger[l]) == Some(l) && l < s.shared.leases && l !in s.shared.spent)
    && (forall l :: l in s.shared.spent ==> l < s.shared.leases)
    && (forall l: nat :: l < s.shared.leases ==> l in s.shared.ledger || l in s.shared.spent)
  }

  /** What the mode is once a switch from `from` to `next` has come out as `o`. */
  predicate OutcomeOk(o: Outcome, from: Mode, next: Mode, mode: Mode) {
    match o
    case Skipped => true
    case PreemptFailed => mode == from
    case TimedOut => mode == from
    case CleanupFailed(stored) => mode == if stored then Off else from
    case SaveFailed(stored) => mode == if stored then next else from
    case Switched => mode == next
  }

  ghost predicate SwitchOk(m: Manager, pc: PC) {
    match pc
    case SwMark(from, next) => m.loaded && m.mode == from && from != next && ValidMode(next)
    case SwPreempt(from, next) => m.loaded && m.mode == from && from != next && ValidMode(next)
    case SwEnter(from, next) => m.loaded && m.mode == from && from != next && ValidMode(next)
    case SwParked(from, next, _) => m.loaded && m.mode == from && from != next && ValidMode(next)
    case SwCleanup(from, next) => m.loaded && m.mode == from && from != next && ValidMode(next)
    case SwSave(from, next) => m.loaded && m.mode == from && from != next && ValidMode(next)
    case SwRollback(from, next) => m.loaded && m.mode == from && from != next && ValidMode(next)
    case SwLeave(from, next, o) => m.loaded && OutcomeOk(o, from, next, m.mode)
    case SwUnmark(from, next, o) => m.loaded && OutcomeOk(o, from, next, m.mode)
    case SwUnlock(from, next, o) => o.Skipped? || (m.loaded && OutcomeOk(o, from, next, m.mode))
    case _ => true
  }

  ghost predicate InvSwitch(s: Sys) {
    && ManagerOk(s.shared.mgr)
    && (forall t :: t in s.threads && SwitchingPC(s.threads[t]) ==> s.shared.transitionMu == Some(t))
    && match s.shared.transitionMu
       case None => !s.shared.mgr.transitioning && !s.shared.gate.exclusive
       case Some(t) =>
         && t in s.threads && SwitchingPC(s.threads[t]) && SwitchOk(s.shared.mgr, s.threads[t])
         && (s.shared.mgr.transitioning <==> MarkedPC(s.threads[t]))
         && (s.shared.gate.exclusive <==> ExclusivePC(s.threads[t]))
  }

  /** The lease was granted, for this mode if one is named. */
  ghost predicate GrantedFor(s: Sys, l: nat, expected: Option<Mode>) {
    l in s.shared.grants && (expected.Some? ==> s.shared.grants[l] == Grant(expected.value, expected))
  }

  function ExpectedBy(caller: Caller): Option<Mode> {
    if caller.Executor? then Some(Mcp) else None
  }

  /** A tool that has no lease only reads. */
  ghost predicate GrantOk(s: Sys, pc: PC) {
    match pc
    case FirstCheck(goal) => IsGoal(goal)
    case EnterShared(goal) => IsGoal(goal)
    case ParkedShared(goal, _) => IsGoal(goal)
    case SecondCheck(goal, _) => IsGoal(goal)
    case Writing(expected, l) => GrantedFor(s, l, Some(expected))
    case ToolBegin(kind, caller, lease) =>
      if lease.Some? then kind.HID? && GrantedFor(s, lease.value, ExpectedBy(caller)) else kind.ReadOnly?
    case Operating(_, kind, caller, lease) =>
      if lease.Some? then kind.HID? && GrantedFor(s, lease.value, ExpectedBy(caller)) else kind.ReadOnly?
    case StartingManual(_, l) => GrantedFor(s, l, None)
    case AwaitingDone(_, l, _) => GrantedFor(s, l, None)
    case Activating(_, l) => GrantedFor(s, l, None)
    case Aborting(l) => GrantedFor(s, l, None)
    case Finishing(Some(l), _) => GrantedFor(s, l, None)
    case _ => true
  }

  predicate IsGoal(goal: Goal) {
    goal.ForWrite? ==> goal.tool ==> goal.expected == Mcp
  }

  ghost predicate InvGrants(s: Sys) {
    && (forall l :: l in s.shared.grants ==>
          && l < s.shared.leases
          && (s.shared.grants[l].expected.Some? ==> s.shared.grants[l].expected.value == s.shared.grants[l].mode)
          && (l !in s.shared.spent ==> s.shared.mgr.loaded && s.shared.mgr.mode == s.shared.grants[l].mode))
    && (forall t :: t in s.threads ==> GrantOk(s, s.threads[t]))
    && (forall x :: x in s.shared.sessions && s.shared.sessions[x].lease.Some? ==>
        GrantedFor(s, s.shared.sessions[x].lease.value, None))
  }

  ghost predicate OperationOk(c: Coordinator, pc: PC) {
    match pc
    case Operating(id, kind, _, _) => c.active.Some? && c.active.value.id == id && c.active.value.kind == kind
    case AwaitingDone(_, _, id) =>
      && 0 < id <= c.nextID
      && (HIDOpen(c) ==> c.active.value.id == id)
      && (id in c.done || (c.active.Some? && c.active.value.id == id && c.active.value.cause.Some?))
    case _ => true
  }

  ghost predicate InvCoord(s: Sys) {
    && (s.shared.coord.active.Some? ==>
        0 < s.shared.coord.active.value.id <= s.shared.coord.nextID
            && s.shared.coord.active.value.id !in s.shared.coord.done)
    && (forall id :: id in s.shared.coord.done ==> id <= s.shared.coord.nextID)
    && (forall t :: t in s.threads ==> OperationOk(s.shared.coord, s.threads[t]))
    && (forall t, u :: t in s.threads && u in s.threads && s.threads[t].Operating? && s.threads[u].Operating? ==>
        t == u)
    && (s.shared.coord.active.Some? ==> exists t :: t in s.threads && s.threads[t].Operating?)
    && (HIDOpen(s.shared.coord) ==> forall o :: !ClearedAt(s, o))
  }

  ghost predicate InvCounted(s: Sys) {
    s.shared.coord.manualSessions == |ActiveSessions(s.shared.sessions)| + |InFlight(s.threads)|
  }

  ghost predicate InvSessions(s: Sys) {
    && (forall x :: x in s.shared.sessions ==> SessionOk(s.shared.sessions[x]))
    && (forall x :: x in s.shared.sessions ==>
          s.shared.sessions[x].pending == |Outstanding(s.shared.reservations, x, s.shared.sessions[x].generation)|)
    && (forall r :: r in s.shared.reservations ==>
          s.shared.reservations[r].session in s.shared.sessions &&
          s.shared.reservations[r].generation <= s.shared.sessions[s.shared.reservations[r].session].generation)
  }

  ghost predicate Inv(s: Sys) {
    InvGate(s) && InvLedger(s) && InvSwitch(s) && InvGrants(s) && InvCoord(s) && InvCounted(s) && InvSessions(s)
  }

  // ---------------------------------------------------------------- the gate

  /** Every critical section of the gate keeps the gate and every parked thread right. */
  lemma GatePassKeeps(g: Gate, p: Pass)
    requires GateOk(g)
    requires p == PassShared(g) || p == PassExclusive(g)
    ensures GateOk(p.gate)
    ensures forall pc :: ParkedOk(g, pc) ==> ParkedOk(p.gate, pc)
    ensures p.Parks? ==> p.channel < p.gate.made && p.channel !in p.gate.closed
  {
  }

  lemma GateReleaseKeeps(g: Gate, g': Gate)
    requires GateOk(g)
    requires (g' == ReleaseShared(g) && g.active > 0) || (g' == ReleaseExclusive(g) && g.exclusive)
    ensures GateOk(g')
    ensures forall pc :: ParkedOk(g, pc) ==> ParkedOk(g', pc)
  {
  }

  lemma GateFrame(s: Sys, t: nat, a: After)
    requires InvGate(s) && t in s.threads
    requires a.shared.gate == s.shared.gate
    requires a.pc == s.threads[t] || !(a.pc.ParkedShared? || a.pc.SwParked?)
    ensures InvGate(StepTo(s, t, a))
  {
  }

  lemma GatePassed(s: Sys, t: nat, a: After, p: Pass)
    requires InvGate(s) && t in s.threads
    requires a.shared.gate == p.gate
    requires (p == PassShared(s.shared.gate) && (p.Parks? ==> s.shared.gate.exclusive)
              && (a.pc.ParkedShared? ==> p.Parks? && a.pc.channel == p.channel) && !a.pc.SwParked?)
          || (p == PassExclusive(s.shared.gate)
              && (a.pc.SwParked? ==> p.Parks? && a.pc.channel == p.channel) && !a.pc.ParkedShared?)
    ensures InvGate(StepTo(s, t, a))
  {
    GatePassKeeps(s.shared.gate, p);
  }

  lemma GateReleased(s: Sys, t: nat, a: After)
    requires InvGate(s) && t in s.threads && !(a.pc.ParkedShared? || a.pc.SwParked?)
    requires (a.shared.gate == ReleaseShared(s.shared.gate) && s.shared.gate.active > 0)
          || (a.shared.gate == ReleaseExclusive(s.shared.gate) && s.shared.gate.exclusive)
    ensures InvGate(StepTo(s, t, a))
  {
    GateReleaseKeeps(s.shared.gate, a.shared.gate);
  }

  lemma HeldLeaseCounts(s: Sys, o: Owner)
    requires InvLedger(s) && LeaseAt(s, o).Some?
    ensures s.shared.gate.active > 0
    ensures LeaseAt(s, o).value !in s.shared.spent
  {
    var l := LeaseAt(s, o).value;
    assert l in s.shared.ledger;
    assert |s.shared.ledger.Keys| > 0;
  }

  // ---------------------------------------------------------------- the ledger

  predicate SameLeases(h: Shared, h': Shared) {
    && h'.ledger == h.ledger && h'.leases == h.leases && h'.spent == h.spent
    && h'.gate.active == h.gate.active
  }

  lemma LedgerFrame(s: Sys, t: nat, a: After)
    requires InvLedger(s) && t in s.threads
    requires LeaseOf(a.pc) == LeaseOf(s.threads[t])
    requires SameLeases(s.shared, a.shared) && a.shared.sessions == s.shared.sessions
    ensures InvLedger(StepTo(s, t, a))
  {
    forall o
      ensures LeaseAt(StepTo(s, t, a), o) == LeaseAt(s, o)
    {
    }
  }

  /** A session may change, but not which lease it holds. */
  lemma LedgerSession(s: Sys, t: nat, a: After, x: nat, x1: Session)
    requires InvLedger(s) && t in s.threads && x in s.shared.sessions
    requires LeaseOf(a.pc) == LeaseOf(s.threads[t]) && x1.lease == s.shared.sessions[x].lease
    requires SameLeases(s.shared, a.shared) && a.shared.sessions == s.shared.sessions[x := x1]
    ensures InvLedger(StepTo(s, t, a))
  {
    forall o
      ensures LeaseAt(StepTo(s, t, a), o) == LeaseAt(s, o)
    {
    }
  }

  lemma LedgerReleased(s: Sys, t: nat, a: After)
    requires InvGate(s) && InvLedger(s) && t in s.threads && LeaseOf(s.threads[t]).Some?
    requires LeaseOf(a.pc) == None
    requires a.shared == Release(s.shared, LeaseOf(s.threads[t]).value)
    ensures InvLedger(StepTo(s, t, a))
  {
    HeldLeaseCounts(s, Thread(t));
    var l := LeaseOf(s.threads[t]).value;
    assert LeaseAt(s, Thread(t)) == Some(l);
    assert a.shared.ledger.Keys == s.shared.ledger.Keys - {l};
    forall o
      ensures LeaseAt(StepTo(s, t, a), o) == if o == Thread(t) then None else LeaseAt(s, o)
    {
    }
  }

  lemma LedgerTaken(s: Sys, t: nat, a: After)
    requires InvLedger(s) && t in s.threads && LeaseOf(s.threads[t]) == None
    requires LeaseOf(a.pc) == Some(s.shared.leases)
    requires a.shared.sessions == s.shared.sessions && a.shared.spent == s.shared.spent
    requires a.shared.gate.active == s.shared.gate.active + 1
    requires a.shared.leases == s.shared.leases + 1
    requires a.shared.ledger == s.shared.ledger[s.shared.leases := Thread(t)]
    ensures InvLedger(StepTo(s, t, a))
  {
    forall o
      ensures LeaseAt(StepTo(s, t, a), o) == if o == Thread(t) then Some(s.shared.leases) else LeaseAt(s, o)
    {
    }
  }

  /** A lease passed on between a thread and a session: activation, and the end of a session. */
  lemma LedgerMoved(s: Sys, t: nat, a: After, x: nat, x1: Session, l: nat)
    requires InvLedger(s) && t in s.threads && x in s.shared.sessions
    requires a.shared.sessions == s.shared.sessions[x := x1]
    requires SameLeases(s.shared.(ledger := a.shared.ledger), a.shared)
    requires
      || (LeaseOf(s.threads[t]) == Some(l) && LeaseOf(a.pc) == None
          && s.shared.sessions[x].lease == None && x1.lease == Some(l)
          && a.shared.ledger == s.shared.ledger[l := InSession(x)])
      || (LeaseOf(s.threads[t]) == None && LeaseOf(a.pc) == Some(l)
          && s.shared.sessions[x].lease == Some(l) && x1.lease == None
          && a.shared.ledger == s.shared.ledger[l := Thread(t)])
    ensures InvLedger(StepTo(s, t, a))
  {
    var s' := StepTo(s, t, a);
    var from, to := if LeaseOf(a.pc) == None then Thread(t) else InSession(x),
                    if LeaseOf(a.pc) == None then InSession(x) else Thread(t);
    assert LeaseAt(s, from) == Some(l) && LeaseAt(s, to) == None;
    assert s'.shared.ledger.Keys == s.shared.ledger.Keys;
    assert |s'.shared.ledger| == |s.shared.ledger|;
    forall o
      ensures LeaseAt(s', o) == if o == to then Some(l) else if o == from then None else LeaseAt(s, o)
    {
    }
  }

  // ---------------------------------------------------------------- the switch

  lemma LoadKeeps(m: Manager, access: FileAccess)
    requires ManagerOk(m) && Load(m, access).Some?
    ensures var m' := Load(m, access).value;
            && ManagerOk(m') && m'.loaded && m'.transitioning == m.transitioning && m'.file == m.file
            && (m.loaded ==> m' == m)
  {
  }

  /** A step of any thread that is not a switch. */
  lemma SwitchFrame(s: Sys, t: nat, a: After, c: Choice)
    requires InvSwitch(s) && t in s.threads && !SwitchingPC(s.threads[t]) && !SwitchingPC(a.pc)
    requires a.shared.gate.exclusive == s.shared.gate.exclusive && a.shared.transitionMu == s.shared.transitionMu
    requires a.shared.mgr == s.shared.mgr || Load(s.shared.mgr, c.access) == Some(a.shared.mgr)
    ensures InvSwitch(StepTo(s, t, a))
  {
    if a.shared.mgr != s.shared.mgr {
      LoadKeeps(s.shared.mgr, c.access);
    }
    var s' := StepTo(s, t, a);
    if s.shared.transitionMu.Some? {
      var u := s.shared.transitionMu.value;
      assert u != t && s'.threads[u] == s.threads[u];
      assert SwitchOk(s'.shared.mgr, s'.threads[u]);
    }
  }

  /** A step of the thread that holds the transition mutex. */
  lemma SwitchOwn(s: Sys, t: nat, a: After)
    requires InvSwitch(s) && t in s.threads && SwitchingPC(s.threads[t]) && SwitchingPC(a.pc)
    requires a.shared.transitionMu == s.shared.transitionMu
    requires ManagerOk(a.shared.mgr) && SwitchOk(a.shared.mgr, a.pc)
    requires a.shared.mgr.transitioning <==> MarkedPC(a.pc)
    requires a.shared.gate.exclusive <==> ExclusivePC(a.pc)
    ensures InvSwitch(StepTo(s, t, a))
  {
  }

  lemma SwitchLocked(s: Sys, t: nat, a: After)
    requires InvSwitch(s) && t in s.threads && s.threads[t].SwLock?
    requires a == ActSwLock(s.shared, t, s.threads[t])
    ensures InvSwitch(StepTo(s, t, a))
  {
    if a.shared.transitionMu == s.shared.transitionMu && s.shared.transitionMu.Some? {
      assert s.shared.transitionMu.value != t;
    }
  }

  lemma SwitchUnlocked(s: Sys, t: nat, a: After)
    requires InvSwitch(s) && t in s.threads && s.threads[t].SwUnlock?
    requires a == ActSwUnlock(s.shared, s.threads[t])
    ensures InvSwitch(StepTo(s, t, a))
  {
  }

  // ---------------------------------------------------------------- the grants

  ghost predicate SessionsGranted(s: Sys, sessions: map<nat, Session>) {
    forall x :: x in sessions && sessions[x].lease.Some? ==> GrantedFor(s, sessions[x].lease.value, None)
  }

  predicate ModeStays(m: Manager, m': Manager) {
    m.loaded ==> m'.loaded && m'.mode == m.mode
  }

  /** The mode that every open grant saw stays put, or there is no open grant. */
  lemma GrantFrame(s: Sys, t: nat, a: After)
    requires InvGrants(s) && t in s.threads
    requires a.shared.grants == s.shared.grants && a.shared.leases >= s.shared.leases
    requires s.shared.spent <= a.shared.spent
    requires ModeStays(s.shared.mgr, a.shared.mgr) || forall l :: l in s.shared.grants ==> l in s.shared.spent
    requires GrantOk(s, a.pc) && SessionsGranted(s, a.shared.sessions)
    ensures InvGrants(StepTo(s, t, a))
  {
    var s' := StepTo(s, t, a);
    assert forall l, e :: GrantedFor(s, l, e) ==> GrantedFor(s', l, e);
    assert forall pc :: GrantOk(s, pc) ==> GrantOk(s', pc);
  }

  lemma GrantTaken(s: Sys, t: nat, a: After, l: nat)
    requires InvGrants(s) && InvLedger(s) && t in s.threads && LeaseOf(s.threads[t]) == Some(l)
    requires s.threads[t].SecondCheck?
    requires ModeStays(s.shared.mgr, a.shared.mgr) && a.shared.mgr.loaded
    requires a.shared.grants == s.shared.grants[l := Grant(a.shared.mgr.mode, Expected(s.threads[t].goal))]
    requires Expected(s.threads[t].goal).Some? ==> Expected(s.threads[t].goal).value == a.shared.mgr.mode
    requires a.shared.sessions == s.shared.sessions
    requires SameLeases(s.shared, a.shared)
    requires GrantOk(StepTo(s, t, a), a.pc)
    ensures InvGrants(StepTo(s, t, a))
  {
    var s' := StepTo(s, t, a);
    assert LeaseAt(s, Thread(t)) == Some(l);
    forall u | u in s'.threads
      ensures GrantOk(s', s'.threads[u])
    {
      if u != t {
        assert LeaseAt(s, Thread(u)) != Some(l);
        assert GrantOk(s, s.threads[u]);
      }
    }
    forall x | x in s.shared.sessions && s.shared.sessions[x].lease.Some?
      ensures s.shared.sessions[x].lease.value in s'.shared.grants
    {
    }
  }

  /** As long as a lease is open, nobody is in the exclusive section. */
  lemma NoGrantOpen(s: Sys)
    requires InvGate(s) && InvLedger(s) && InvGrants(s) && s.shared.gate.exclusive
    ensures forall l :: l in s.shared.grants ==> l in s.shared.spent
  {
    assert s.shared.ledger.Keys == {};
  }

  // ---------------------------------------------------------------- the coordinator

  /** The thread that runs the active operation is still there. */
  lemma RunnerStays(s: Sys, t: nat, a: After)
    requires t in s.threads && (s.threads[t].Operating? ==> a.pc.Operating?)
    requires exists u :: u in s.threads && s.threads[u].Operating?
    ensures exists u :: u in StepTo(s, t, a).threads && StepTo(s, t, a).threads[u].Operating?
  {
    var u :| u in s.threads && s.threads[u].Operating?;
    assert u in StepTo(s, t, a).threads && StepTo(s, t, a).threads[u].Operating?;
  }

  /** A step that leaves the coordinator alone, or only cancels, and clears nobody. */
  lemma CoordFrame(s: Sys, t: nat, a: After)
    requires InvCoord(s) && t in s.threads
    requires a.shared.coord == s.shared.coord || a.shared.coord == Cancel(s.shared.coord, ModeChanged)
    requires a.pc.Operating? || s.threads[t].Operating? ==> a.pc == s.threads[t]
    requires a.pc.AwaitingDone? ==> a.pc == s.threads[t]
    requires !HIDOpen(s.shared.coord) || !ClearedPC(a.pc)
    requires !HIDOpen(s.shared.coord) || forall x :: x in a.shared.sessions ==> !a.shared.sessions[x].active
    ensures InvCoord(StepTo(s, t, a))
  {
    var s' := StepTo(s, t, a);
    assert forall pc :: OperationOk(s.shared.coord, pc) ==> OperationOk(s'.shared.coord, pc);
    if s.shared.coord.active.Some? { RunnerStays(s, t, a); }
    if HIDOpen(s'.shared.coord) {
      forall o
        ensures !ClearedAt(s', o)
      {
        if o.Thread? && o.t != t { assert !ClearedAt(s, o); }
      }
    }
  }

  lemma NobodyCounted(s: Sys)
    requires InvCounted(s) && s.shared.coord.manualSessions <= 0
    ensures forall o :: !ClearedAt(s, o)
    ensures forall t :: t in s.threads ==> !CountedPC(s.threads[t])
  {
    assert ActiveSessions(s.shared.sessions) == {} && InFlight(s.threads) == {};
    forall t | t in s.threads
      ensures !CountedPC(s.threads[t])
    {
      assert t !in InFlight(s.threads);
    }
    forall x | x in s.shared.sessions
      ensures !s.shared.sessions[x].active
    {
      assert x !in ActiveSessions(s.shared.sessions);
    }
  }

  lemma CoordBegun(s: Sys, t: nat, a: After, kind: OperationKind)
    requires InvCoord(s) && InvCounted(s) && t in s.threads && s.threads[t].ToolBegin?
    requires CanBegin(s.shared.coord, kind, s.shared.now)
    requires a.shared == s.shared.(coord := Begin(s.shared.coord, kind))
    requires a.pc.Operating? && a.pc.id == s.shared.coord.nextID + 1 && a.pc.kind == kind
    ensures InvCoord(StepTo(s, t, a))
  {
    var s' := StepTo(s, t, a);
    if kind.HID? {
      NobodyCounted(s);
    }
    assert s'.threads[t].Operating?;
    forall u | u in s'.threads
      ensures OperationOk(s'.shared.coord, s'.threads[u])
    {
      if u != t {
        assert OperationOk(s.shared.coord, s.threads[u]);
      }
    }
    forall o | HIDOpen(s'.shared.coord)
      ensures !ClearedAt(s', o)
    {
      assert !ClearedAt(s, o);
    }
  }

  lemma CoordEnded(s: Sys, t: nat, a: After)
    requires InvCoord(s) && t in s.threads && s.threads[t].Operating?
    requires a.shared == s.shared.(coord := EndOperation(s.shared.coord, s.threads[t].id))
    requires a.pc.DropLease? || a.pc.Exited?
    ensures InvCoord(StepTo(s, t, a))
    ensures s.shared.coord.active.Some? && s.shared.coord.active.value.id == s.threads[t].id
  {
    var s' := StepTo(s, t, a);
    assert OperationOk(s.shared.coord, s.threads[t]);
    forall u | u in s'.threads
      ensures OperationOk(s'.shared.coord, s'.threads[u]) && !s'.threads[u].Operating?
    {
      if u != t {
        assert OperationOk(s.shared.coord, s.threads[u]);
      }
    }
  }

  /** beginManual: counted from here on, waiting when an HID operation is open. */
  lemma CoordManual(s: Sys, t: nat, a: After)
    requires InvCoord(s) && t in s.threads && s.threads[t].StartingManual?
    requires a == ActStartingManual(s.shared, s.threads[t])
    ensures InvCoord(StepTo(s, t, a))
  {
    var s' := StepTo(s, t, a);
    if s.shared.coord.active.Some? { RunnerStays(s, t, a); }
    forall u | u in s'.threads
      ensures OperationOk(s'.shared.coord, s'.threads[u])
    {
      if u != t {
        assert OperationOk(s.shared.coord, s.threads[u]);
      }
    }
    if HIDOpen(s'.shared.coord) {
      forall o
        ensures !ClearedAt(s', o)
      {
        assert !ClearedAt(s, o);
      }
    }
  }

  lemma CoordUncounted(s: Sys, t: nat, a: After, cooldown: bool)
    requires InvCoord(s) && t in s.threads && !s.threads[t].Operating?
    requires a.shared == s.shared.(coord := EndManual(s.shared.coord, cooldown, s.shared.now))
    requires a.pc.DropLease? || a.pc.Exited?
    ensures InvCoord(StepTo(s, t, a))
  {
    var s' := StepTo(s, t, a);
    if s.shared.coord.active.Some? { RunnerStays(s, t, a); }
    forall u | u in s'.threads
      ensures OperationOk(s'.shared.coord, s'.threads[u])
    {
      if u != t {
        assert OperationOk(s.shared.coord, s.threads[u]);
      }
    }
    if HIDOpen(s'.shared.coord) {
      forall o
        ensures !ClearedAt(s', o)
      {
        assert !ClearedAt(s, o);
      }
    }
  }

  // ---------------------------------------------------------------- the count of manual sessions

  /** Two sets that agree everywhere but at x differ in size by what they say about x. */
  lemma Toggle(a: set<nat>, b: set<nat>, x: nat)
    requires forall y :: y != x ==> (y in a <==> y in b)
    ensures |b| - (if x in b then 1 else 0) == |a| - (if x in a then 1 else 0)
  {
    assert a - {x} == b - {x};
    assert |a - {x}| == |a| - if x in a then 1 else 0;
    assert |b - {x}| == |b| - if x in b then 1 else 0;
  }

  lemma InFlightMoves(threads: map<nat, PC>, t: nat, pc: PC)
    requires t in threads
    ensures |InFlight(threads[t := pc])| == |InFlight(threads)|
            + (if CountedPC(pc) then 1 else 0) - (if CountedPC(threads[t]) then 1 else 0)
    ensures CountedPC(threads[t]) ==> |InFlight(threads)| > 0
  {
    Toggle(InFlight(threads), InFlight(threads[t := pc]), t);
  }

  lemma ActiveMoves(sessions: map<nat, Session>, x: nat, s: Session)
    requires x in sessions
    ensures |ActiveSessions(sessions[x := s])| == |ActiveSessions(sessions)|
            + (if s.active then 1 else 0) - (if sessions[x].active then 1 else 0)
  {
    Toggle(ActiveSessions(sessions), ActiveSessions(sessions[x := s]), x);
  }

  lemma CountFrame(s: Sys, t: nat, a: After)
    requires InvCounted(s) && t in s.threads
    requires a.shared.sessions == s.shared.sessions
    requires a.shared.coord.manualSessions == s.shared.coord.manualSessions
             + (if CountedPC(a.pc) then 1 else 0) - (if CountedPC(s.threads[t]) then 1 else 0)
    ensures InvCounted(StepTo(s, t, a))
  {
    InFlightMoves(s.threads, t, a.pc);
  }

  /** endManual's guard always passes. */
  lemma CountPositive(s: Sys, t: nat)
    requires InvCounted(s) && t in s.threads && CountedPC(s.threads[t])
    ensures s.shared.coord.manualSessions > 0
  {
    InFlightMoves(s.threads, t, Exited);
  }

  lemma CountSession(s: Sys, t: nat, a: After, x: nat, x1: Session)
    requires InvCounted(s) && t in s.threads && x in s.shared.sessions
    requires a.shared.sessions == s.shared.sessions[x := x1]
    requires (if CountedPC(a.pc) then 1 else 0) + (if x1.active then 1 else 0)
             == (if CountedPC(s.threads[t]) then 1 else 0) + (if s.shared.sessions[x].active then 1 else 0)
    requires a.shared.coord.manualSessions == s.shared.coord.manualSessions
    ensures InvCounted(StepTo(s, t, a))
  {
    InFlightMoves(s.threads, t, a.pc);
    ActiveMoves(s.shared.sessions, x, x1);
  }

  // ---------------------------------------------------------------- sessions and reservations

  lemma SessionsFrame(s: Sys, t: nat, a: After)
    requires InvSessions(s)
    requires a.shared.sessions == s.shared.sessions && a.shared.reservations == s.shared.reservations
    ensures InvSessions(StepTo(s, t, a))
  {
  }

  /** Writing one reservation of session x leaves every other session's count alone. */
  lemma OutstandingElsewhere(rs: map<nat, Reservation>, rid: nat, r: Reservation, y: nat, g: nat)
    requires r.session != y && (rid in rs ==> rs[rid].session == r.session)
    ensures Outstanding(rs[rid := r], y, g) == Outstanding(rs, y, g)
  {
  }

  lemma OutstandingMoves(rs: map<nat, Reservation>, rid: nat, r: Reservation, g: nat)
    requires rid in rs ==> rs[rid].session == r.session && rs[rid].generation == r.generation
    ensures |Outstanding(rs[rid := r], r.session, g)| == |Outstanding(rs, r.session, g)|
            + (if r.generation == g && !r.once then 1 else 0)
            - (if rid in rs && r.generation == g && !rs[rid].once then 1 else 0)
  {
    Toggle(Outstanding(rs, r.session, g), Outstanding(rs[rid := r], r.session, g), rid);
  }

  lemma NewGenerationIsEmpty(s: Sys, x: nat)
    requires InvSessions(s) && x in s.shared.sessions
    ensures Outstanding(s.shared.reservations, x, s.shared.sessions[x].generation + 1) == {}
  {
  }

  /** Adding a reservation of session x's (new) current generation. */
  lemma SessionsReserved(s: Sys, t: nat, a: After, x: nat, rid: nat, r: Reservation, x1: Session)
    requires InvSessions(s) && x in s.shared.sessions && rid !in s.shared.reservations
    requires a.shared.sessions == s.shared.sessions[x := x1]
    requires a.shared.reservations == s.shared.reservations[rid := r]
    requires r.session == x && r.generation == x1.generation && !r.once
    requires SessionOk(x1)
    requires var x0 := s.shared.sessions[x];
             || (x1.generation == x0.generation && x1.pending == x0.pending + 1)
             || (x1.generation == x0.generation + 1 && x1.pending == 1)
    ensures InvSessions(StepTo(s, t, a))
  {
    OutstandingMoves(s.shared.reservations, rid, r, x1.generation);
    NewGenerationIsEmpty(s, x);
    forall y | y in s.shared.sessions && y != x
      ensures s.shared.sessions[y].pending == |Outstanding(a.shared.reservations, y, s.shared.sessions[y].generation)|
    {
      OutstandingElsewhere(s.shared.reservations, rid, r, y, s.shared.sessions[y].generation);
    }
  }

  /** Completing a reservation, whatever generation it belongs to. */
  lemma SessionsCompleted(s: Sys, t: nat, a: After, x: nat, rid: nat, x1: Session)
    requires InvSessions(s) && rid in s.shared.reservations && !s.shared.reservations[rid].once
    requires x == s.shared.reservations[rid].session
    requires a.shared.sessions == s.shared.sessions[x := x1]
    requires a.shared.reservations == s.shared.reservations[rid := s.shared.reservations[rid].(once := true)]
    requires SessionOk(x1) && x1.generation == s.shared.sessions[x].generation
    requires x1.pending == s.shared.sessions[x].pending
             - (if s.shared.reservations[rid].generation == x1.generation then 1 else 0)
    ensures InvSessions(StepTo(s, t, a))
  {
    var r := s.shared.reservations[rid].(once := true);
    OutstandingMoves(s.shared.reservations, rid, r, x1.generation);
    forall y | y in s.shared.sessions && y != x
      ensures s.shared.sessions[y].pending == |Outstanding(a.shared.reservations, y, s.shared.sessions[y].generation)|
    {
      OutstandingElsewhere(s.shared.reservations, rid, r, y, s.shared.sessions[y].generation);
    }
  }

  /** A reservation that is still uncompleted is counted: complete's guard always passes. */
  lemma OutstandingCounts(s: Sys, rid: nat)
    requires InvSessions(s) && rid in s.shared.reservations && !s.shared.reservations[rid].once
    requires s.shared.reservations[rid].generation == s.shared.sessions[s.shared.reservations[rid].session].generation
    ensures s.shared.sessions[s.shared.reservations[rid].session].pending > 0
    ensures s.shared.sessions[s.shared.reservations[rid].session].active
  {
    var r := s.shared.reservations[rid];
    assert rid in Outstanding(s.shared.reservations, r.session, r.generation);
  }

  /** A reset keeps the count; a close starts an empty generation. */
  lemma SessionsTouched(s: Sys, t: nat, a: After, x: nat, x1: Session)
    requires InvSessions(s) && x in s.shared.sessions
    requires a.shared.reservations == s.shared.reservations
    requires a.shared.sessions == s.shared.sessions[x := x1]
    requires SessionOk(x1)
    requires var x0 := s.shared.sessions[x];
             || (x1.generation == x0.generation && x1.pending == x0.pending)
             || (x1.generation == x0.generation + 1 && x1.pending == 0)
    ensures InvSessions(StepTo(s, t, a))
  {
    NewGenerationIsEmpty(s, x);
  }
}
