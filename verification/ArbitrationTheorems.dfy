/** What the arbitration protocol guarantees, for every run with any number of threads and sessions. */
module ArbitrationTheorems {
  import opened Wrappers
  import opened ActivityGates
  import opened ControlMode
  import opened InputControl
  import opened Arbitration
  import opened ArbitrationInvariant
  import opened ArbitrationSteps

  ghost predicate ReachedBy(s: Sys, states: seq<Sys>, events: seq<Event>, i: nat) {
    IsRun(states, events) && i < |states| && s == states[i]
  }

  // ---------------------------------------------------------------- who drives the target

  /** An active manual session never coexists with an open HID operation, whoever opened it. */
  lemma ManualExcludesHID(s: Sys, states: seq<Sys>, events: seq<Event>, i: nat)
    requires ReachedBy(s, states, events, i)
    ensures (exists x :: x in s.shared.sessions && s.shared.sessions[x].active) ==>
              !HIDOpen(s.shared.coord)
              && forall t :: t in s.threads ==> !(s.threads[t].Operating? && s.threads[t].kind.HID?)
  {
    InvOnRuns(states, events, i);
    if HIDOpen(s.shared.coord) {
      SessionsIdleUnderHID(s);
    }
    forall t | t in s.threads
      ensures OperationOk(s.shared.coord, s.threads[t])
    {
    }
  }

  /** At most one operation runs, and an HID operation that came through the executor runs in mode
      mcp, under a lease. */
  lemma ToolsRunInMcpMode(s: Sys, states: seq<Sys>, events: seq<Event>, i: nat, t: nat)
    requires ReachedBy(s, states, events, i)
    requires t in s.threads && s.threads[t].Operating?
    ensures s.threads[t].kind.HID? && s.threads[t].caller.Executor? ==>
              s.threads[t].lease.Some? && s.shared.mgr.loaded && s.shared.mgr.mode == Mcp
    ensures forall u :: u in s.threads && s.threads[u].Operating? ==> u == t
    ensures s.shared.coord.active.Some? && s.shared.coord.active.value.id == s.threads[t].id
  {
    InvOnRuns(states, events, i);
    assert OperationOk(s.shared.coord, s.threads[t]) && GrantOk(s, s.threads[t]);
    if s.threads[t].lease.Some? {
      HeldLeaseCounts(s, Thread(t));
    }
  }

  /** Who writes under a lease of AcquireWrite(expected) writes in that mode, whichever it is. */
  lemma WritersHaveTheirMode(s: Sys, states: seq<Sys>, events: seq<Event>, i: nat, t: nat)
    requires ReachedBy(s, states, events, i) && t in s.threads && s.threads[t].Writing?
    ensures s.shared.mgr.loaded && s.shared.mgr.mode == s.threads[t].mode && !s.shared.gate.exclusive
  {
    InvOnRuns(states, events, i);
    assert GrantOk(s, s.threads[t]);
    HeldLeaseCounts(s, Thread(t));
  }

  /** So an open MCP operation on the HID lane never overlaps a PicoClaw writer, or a writer of any
      other mode; nor do writers of two modes overlap. */
  lemma WritersOfModesExclude(s: Sys, states: seq<Sys>, events: seq<Event>, i: nat, t: nat, u: nat)
    requires ReachedBy(s, states, events, i) && t in s.threads && u in s.threads && s.threads[u].Writing?
    ensures s.threads[t].Writing? ==> s.threads[t].mode == s.threads[u].mode
    ensures s.threads[t].Operating? && s.threads[t].kind.HID? && s.threads[t].caller.Executor? ==>
              s.threads[u].mode == Mcp && s.threads[u].mode != Picoclaw
  {
    WritersHaveTheirMode(s, states, events, i, u);
    if s.threads[t].Writing? {
      WritersHaveTheirMode(s, states, events, i, t);
    } else if s.threads[t].Operating? {
      ToolsRunInMcpMode(s, states, events, i, t);
    }
  }

  /** A manual write is made for a reservation that is not completed yet; while it can be, its
      session is active, under an open lease, and no HID operation is open. */
  lemma ManualWritesExcludeHID(s: Sys, states: seq<Sys>, events: seq<Event>, i: nat, r: nat)
    requires ReachedBy(s, states, events, i) && Uncompleted(s, r)
    ensures var x := s.shared.sessions[s.shared.reservations[r].session];
            x.active && x.lease.Some? && x.lease.value !in s.shared.spent
    ensures !HIDOpen(s.shared.coord)
    ensures forall t :: t in s.threads ==> !(s.threads[t].Operating? && s.threads[t].kind.HID?)
  {
    InvOnRuns(states, events, i);
    OutstandingCounts(s, r);
    SessionsEndWhenIdle(s, states, events, i, s.shared.reservations[r].session);
    ManualExcludesHID(s, states, events, i);
  }

  // ---------------------------------------------------------------- leases and modes

  lemma LeaseChange(h: Shared, t: nat, pc: PC, c: Choice)
    requires ManagerOk(h.mgr) && IsLeasePC(pc)
    ensures var h' := ActLease(h, t, pc, c).shared;
            && (h'.mgr.mode != h.mgr.mode ==> !h.mgr.loaded) && h'.mgr.file == h.mgr.file
            && h.spent <= h'.spent && h.grants.Keys <= h'.grants.Keys
  {
    hide PassShared, PassExclusive, ReleaseShared, ReleaseExclusive, Begin, EndOperation;
  }

  lemma ManualChange(h: Shared, t: nat, pc: PC, c: Choice)
    requires ManagerOk(h.mgr) && IsManualPC(pc)
    ensures var h' := ActManual(h, t, pc, c).shared;
            && (h'.mgr.mode != h.mgr.mode ==> !h.mgr.loaded) && h'.mgr.file == h.mgr.file
            && h.spent <= h'.spent && h.grants.Keys <= h'.grants.Keys
  {
    hide ReleaseShared, Complete, Reset, Close, BeginManual, EndManual;
  }

  lemma SwitchChange(h: Shared, t: nat, pc: PC, c: Choice)
    requires ManagerOk(h.mgr) && IsSwitchPC(pc)
    ensures var h' := ActSwitch(h, t, pc, c).shared;
            && (h'.mgr.mode != h.mgr.mode ==> !h.mgr.loaded || pc.SwSave? || pc.SwRollback?)
            && (h'.mgr.file != h.mgr.file ==> pc.SwSave? || pc.SwRollback?)
            && h.spent == h'.spent && h.grants == h'.grants
  {
    hide PassExclusive, ReleaseExclusive, Cancel;
  }

  /** Which steps change the mode or its file: the first load, and a save in the exclusive section.
      No step forgets a grant or a release. */
  lemma ModeChange(h: Shared, t: nat, pc: PC, c: Choice)
    requires ManagerOk(h.mgr)
    ensures var h' := Act(h, t, pc, c).shared;
            && (h'.mgr.mode != h.mgr.mode ==> !h.mgr.loaded || pc.SwSave? || pc.SwRollback?)
            && (h'.mgr.file != h.mgr.file ==> pc.SwSave? || pc.SwRollback?)
            && h.spent <= h'.spent && h.grants.Keys <= h'.grants.Keys
  {
    hide ActManual, ActSwitch, ActLease;
    if IsManualPC(pc) {
      ManualChange(h, t, pc, c);
    } else if IsSwitchPC(pc) {
      SwitchChange(h, t, pc, c);
    } else {
      LeaseChange(h, t, pc, c);
    }
  }

  lemma SavingIsExclusive(s: Sys, t: nat)
    requires Inv(s) && t in s.threads && (s.threads[t].SwSave? || s.threads[t].SwRollback?)
    ensures s.shared.gate.exclusive && s.shared.ledger == map[]
    ensures forall l :: l in s.shared.grants ==> l in s.shared.spent
  {
    assert s.shared.ledger.Keys == {};
    NoGrantOpen(s);
  }

  lemma SavingStep(s: Sys, e: Event)
    requires Inv(s) && Enabled(s, e) && Next(s, e).shared.mgr.file != s.shared.mgr.file
    ensures s.shared.ledger == map[] && s.shared.gate.active == 0 && forall o :: LeaseAt(s, o) == None
  {
    hide Act, Inv, LeaseAt;
    match e
    case Run(t, c) =>
      SwitchFacts(s, t);
      ModeChange(s.shared, t, s.threads[t], c);
      SavingIsExclusive(s, t);
      NoLeaseOpen(s);
    case _ =>
  }

  lemma NoLeaseOpen(s: Sys)
    requires Inv(s) && s.shared.ledger == map[]
    ensures s.shared.gate.active == 0 && forall o :: LeaseAt(s, o) == None
  {
  }

  /** The mode file is written only while no lease is open. */
  lemma SavesOnlyWithoutLeases(s: Sys, states: seq<Sys>, events: seq<Event>, i: nat)
    requires ReachedBy(s, states, events, i) && i < |events|
    requires states[i + 1].shared.mgr.file != s.shared.mgr.file
    ensures s.shared.ledger == map[] && s.shared.gate.active == 0
    ensures forall o :: LeaseAt(s, o) == None
  {
    hide Next, Enabled, LeaseAt;
    InvOnRuns(states, events, i);
    RunStep(states, events, i);
    SavingStep(s, events[i]);
  }

  /** One event keeps the mode that an open lease was granted, and the grant. */
  lemma ModeHeld(s: Sys, e: Event, l: nat)
    requires Inv(s) && Enabled(s, e)
    requires l in s.shared.grants && l !in Next(s, e).shared.spent
    ensures Next(s, e).shared.mgr.mode == s.shared.mgr.mode && l !in s.shared.spent
  {
    hide Act;
    match e
    case Run(t, c) =>
      ModeChange(s.shared, t, s.threads[t], c);
      if s.threads[t].SwSave? || s.threads[t].SwRollback? {
        SavingIsExclusive(s, t);
      }
    case _ =>
  }

  /** A lease sees one mode from its second check until its release, however the run goes on. */
  lemma {:induction false} LeaseSeesOneMode(states: seq<Sys>, events: seq<Event>, i: nat, j: nat, l: nat)
    requires IsRun(states, events) && i <= j < |states|
    requires l in states[i].shared.grants && l !in states[j].shared.spent
    ensures states[j].shared.mgr.mode == states[i].shared.mgr.mode == states[i].shared.grants[l].mode
    ensures l in states[j].shared.grants
    decreases j - i
  {
    hide Act, Next;
    InvOnRuns(states, events, i);
    SpentStays(states, events, i, j, l);
    OpenGrantFacts(states[i], l);
    if i < j {
      SpentStays(states, events, i + 1, j, l);
      ModeHeld(states[i], events[i], l);
      GrantsGrow(states[i], events[i]);
      LeaseSeesOneMode(states, events, i + 1, j, l);
    }
  }

  lemma OpenGrantFacts(s: Sys, l: nat)
    requires Inv(s) && l in s.shared.grants && l !in s.shared.spent
    ensures s.shared.mgr.loaded && s.shared.mgr.mode == s.shared.grants[l].mode
    ensures s.shared.grants[l].expected.Some? ==> s.shared.grants[l].expected.value == s.shared.mgr.mode
  {
  }

  /** Whatever mode AcquireWrite expected, its lease sees that mode until its release. */
  lemma WriteLeaseSeesItsMode(states: seq<Sys>, events: seq<Event>, i: nat, j: nat, l: nat, expected: Mode)
    requires IsRun(states, events) && i <= j < |states|
    requires l in states[i].shared.grants && states[i].shared.grants[l].expected == Some(expected)
    requires l !in states[j].shared.spent
    ensures states[j].shared.mgr.mode == expected
  {
    LeaseSeesOneMode(states, events, i, j, l);
    InvOnRuns(states, events, i);
    SpentStays(states, events, i, j, l);
    OpenGrantFacts(states[i], l);
  }

  lemma GrantsGrow(s: Sys, e: Event)
    requires Inv(s) && Enabled(s, e)
    ensures s.shared.spent <= Next(s, e).shared.spent && s.shared.grants.Keys <= Next(s, e).shared.grants.Keys
  {
    hide Act;
    match e
    case Run(t, c) => ModeChange(s.shared, t, s.threads[t], c);
    case _ =>
  }

  lemma {:induction false} SpentStays(states: seq<Sys>, events: seq<Event>, i: nat, j: nat, l: nat)
    requires IsRun(states, events) && i <= j < |states| && l !in states[j].shared.spent
    ensures l !in states[i].shared.spent
    decreases j - i
  {
    hide Act, Next;
    if i < j {
      SpentStays(states, events, i + 1, j, l);
      InvOnRuns(states, events, i);
      GrantsGrow(states[i], events[i]);
    }
  }

  /** Leases that saw different modes are never open together. */
  lemma OpenLeasesAgree(s: Sys, states: seq<Sys>, events: seq<Event>, i: nat, l: nat, k: nat)
    requires ReachedBy(s, states, events, i)
    requires l in s.shared.grants && k in s.shared.grants && l !in s.shared.spent && k !in s.shared.spent
    ensures s.shared.grants[l].mode == s.shared.grants[k].mode
  {
    InvOnRuns(states, events, i);
  }

  /** What a switch leaves behind, read by its own thread before it gives up the transition mutex:
      a finished switch has its target mode, a failed cleanup falls back to off, and everything that
      fails before a save leaves the mode alone. */
  lemma SwitchOutcome(s: Sys, states: seq<Sys>, events: seq<Event>, i: nat, t: nat)
    requires ReachedBy(s, states, events, i) && t in s.threads && s.threads[t].SwUnlock?
    ensures s.shared.transitionMu == Some(t) && !s.shared.mgr.transitioning && !s.shared.gate.exclusive
    ensures OutcomeOk(s.threads[t].outcome, s.threads[t].from, s.threads[t].next, s.shared.mgr.mode)
  {
    InvOnRuns(states, events, i);
  }

  // ---------------------------------------------------------------- accounting

  /** The counts are exact: open leases, manual sessions, pending reservations. */
  lemma CountsAreExact(s: Sys, states: seq<Sys>, events: seq<Event>, i: nat)
    requires ReachedBy(s, states, events, i)
    ensures s.shared.gate.active == |s.shared.ledger|
    ensures s.shared.coord.manualSessions == |ActiveSessions(s.shared.sessions)| + |InFlight(s.threads)|
    ensures forall x :: x in s.shared.sessions ==>
              s.shared.sessions[x].pending == |Outstanding(s.shared.reservations, x, s.shared.sessions[x].generation)|
  {
    InvOnRuns(states, events, i);
  }

  /** Every lease that was issued is either spent, or held by exactly one thread or session. */
  lemma LeasesHaveOneHolder(s: Sys, states: seq<Sys>, events: seq<Event>, i: nat, l: nat)
    requires ReachedBy(s, states, events, i) && l < s.shared.leases
    ensures l in s.shared.spent <==> forall o :: LeaseAt(s, o) != Some(l)
    ensures forall o, p :: LeaseAt(s, o) == Some(l) && LeaseAt(s, p) == Some(l) ==> o == p
  {
    InvOnRuns(states, events, i);
    if l !in s.shared.spent {
      assert LeaseAt(s, s.shared.ledger[l]) == Some(l);
    }
  }

  /** A session keeps the lane exactly while something is pending or held, and it holds a lease for
      exactly that long; a closed session is idle. */
  lemma SessionsEndWhenIdle(s: Sys, states: seq<Sys>, events: seq<Event>, i: nat, x: nat)
    requires ReachedBy(s, states, events, i) && x in s.shared.sessions
    ensures var y := s.shared.sessions[x];
            && (y.active <==> y.pending > 0 || Holding(y))
            && (y.active <==> y.lease.Some?)
            && (y.closed ==> !y.active)
            && (y.active ==> y.lease.value !in s.shared.spent)
  {
    InvOnRuns(states, events, i);
    if s.shared.sessions[x].active {
      HeldLeaseCounts(s, InSession(x));
    }
  }

  /** A reservation that a completion would still act on. */
  predicate Uncompleted(s: Sys, r: nat) {
    && r in s.shared.reservations && !s.shared.reservations[r].once
    && s.shared.reservations[r].session in s.shared.sessions
    && s.shared.reservations[r].generation == s.shared.sessions[s.shared.reservations[r].session].generation
  }

  /** The three "greater than zero" guards always pass, and no release function runs twice. */
  lemma GuardsNeverFire(s: Sys, states: seq<Sys>, events: seq<Event>, i: nat, t: nat)
    requires ReachedBy(s, states, events, i) && t in s.threads
    ensures s.threads[t].DropLease? ==> s.shared.gate.active > 0 && s.threads[t].held !in s.shared.spent
    ensures s.threads[t].Finishing? && s.threads[t].lease.Some? ==>
              s.shared.gate.active > 0 && s.threads[t].lease.value !in s.shared.spent
    ensures s.threads[t].Aborting? || s.threads[t].Uncounting? ==> s.shared.coord.manualSessions > 0
    ensures s.threads[t].Completing? ==>
              forall r :: Uncompleted(s, r) ==> s.shared.sessions[s.shared.reservations[r].session].pending > 0
  {
    InvOnRuns(states, events, i);
    ThreadFacts(s, t);
    if CountedPC(s.threads[t]) {
      CountPositive(s, t);
    }
    forall r | Uncompleted(s, r)
      ensures s.shared.sessions[s.shared.reservations[r].session].pending > 0
    {
      OutstandingCounts(s, r);
    }
  }

  /** Completing a reservation a second time, or one of an older generation, changes nothing but
      its own once-flag. */
  lemma StaleCompletionsDoNothing(s: Sys, states: seq<Sys>, events: seq<Event>, i: nat, t: nat, c: Choice, rid: nat)
    requires ReachedBy(s, states, events, i) && t in s.threads && s.threads[t] == Completing(rid)
    requires rid in s.shared.reservations && !Uncompleted(s, rid)
    ensures var a, r := Act(s.shared, t, s.threads[t], c), s.shared.reservations[rid];
            && a.pc == Exited
            && a.shared == s.shared.(reservations := s.shared.reservations[rid := r.(once := true)])
  {
    hide Inv, ActCompleting;
    InvOnRuns(states, events, i);
    ReservationFacts(s, rid);
    CompletingStale(s.shared, t, c, rid);
  }

  lemma CompletingStale(h: Shared, t: nat, c: Choice, rid: nat)
    requires rid in h.reservations && h.reservations[rid].session in h.sessions
    requires var r := h.reservations[rid]; r.once || r.generation != h.sessions[r.session].generation
    ensures var a := ActCompleting(h, t, Completing(rid), c);
            && a.pc == Exited
            && a.shared == h.(reservations := h.reservations[rid := h.reservations[rid].(once := true)])
  {
    var r := h.reservations[rid];
    if r.once {
      assert h.reservations[rid := r.(once := true)] == h.reservations;
    } else {
      assert h.sessions[r.session := h.sessions[r.session]] == h.sessions;
    }
  }

  /** What a step may do to reservations and sessions: none is forgotten, a once-flag stays set, and
      generations only go up, and what is closed stays closed. */
  ghost predicate Ages(h: Shared, h': Shared) {
    && (forall r :: r in h.reservations ==>
          && r in h'.reservations && (h.reservations[r].once ==> h'.reservations[r].once)
          && h'.reservations[r].(once := h.reservations[r].once) == h.reservations[r])
    && (forall x :: x in h.sessions ==>
          && x in h'.sessions && h.sessions[x].generation <= h'.sessions[x].generation
          && (h.sessions[x].closed ==> h'.sessions[x].closed))
  }

  lemma JoinedAges(h: Shared, h1: Shared, req: Request, rid: nat)
    requires req.session in h.sessions && rid !in h.reservations
    requires h1.sessions == h.sessions && h1.reservations == h.reservations
    ensures Ages(h, Joined(h1, req, rid))
  {
  }

  lemma ReservingAges(h: Shared, pc: PC, c: Choice)
    requires pc.Reserving? && c.rid !in h.reservations
    ensures Ages(h, ActReserving(h, pc, c).shared)
  {
    hide Load, Joined, Admits;
    if pc.req.session in h.sessions && Load(h.mgr, c.access).Some? {
      JoinedAges(h, h.(mgr := Load(h.mgr, c.access).value), pc.req, c.rid);
    }
  }

  lemma ActivatingAges(h: Shared, pc: PC, c: Choice)
    requires pc.Activating? && c.rid !in h.reservations
    ensures Ages(h, ActActivating(h, pc, c).shared)
  {
    hide Joined;
    if pc.req.session in h.sessions {
      JoinedAges(h, h, pc.req, c.rid);
    }
  }

  lemma EndAges(h: Shared, h1: Shared, t: nat, x: nat, after: (Session, Ending))
    requires x in h.sessions && h.sessions[x].generation <= after.0.generation
    requires h.sessions[x].closed ==> after.0.closed
    requires h1 == h.(reservations := h1.reservations)
    requires Ages(h, h1)
    ensures Ages(h, EndSession(h1, t, x, after).shared)
  {
    hide EndSession;
    EndSessionStores(h1, t, x, after);
  }

  lemma EndSessionStores(h: Shared, t: nat, x: nat, after: (Session, Ending))
    ensures EndSession(h, t, x, after).shared.sessions == h.sessions[x := after.0]
    ensures EndSession(h, t, x, after).shared.reservations == h.reservations
  {
  }

  lemma EndingAges(h: Shared, t: nat, pc: PC, c: Choice)
    requires pc.Completing? || pc.Resetting? || pc.Closing?
    ensures Ages(h, ActManual(h, t, pc, c).shared)
  {
    hide EndSession, Complete, Reset, Close;
    match pc
    case Completing(rid) =>
      if rid in h.reservations && !h.reservations[rid].once && h.reservations[rid].session in h.sessions {
        var r := h.reservations[rid];
        var after := Complete(h.sessions[r.session], r.generation, r.kind, r.held, c.success, r.startCooldown);
        CompleteKeepsGeneration(h.sessions[r.session], r, c.success);
        EndAges(h, h.(reservations := h.reservations[rid := r.(once := true)]), t, r.session, after);
      }
    case Resetting(x, kind) =>
      if x in h.sessions {
        ResetKeepsGeneration(h.sessions[x], kind);
        EndAges(h, h, t, x, Reset(h.sessions[x], kind));
      }
    case Closing(x) =>
      if x in h.sessions {
        CloseEndsGeneration(h.sessions[x]);
        EndAges(h, h, t, x, Close(h.sessions[x]));
      }
  }

  lemma IdleKeepsGeneration(x: Session)
    ensures FinishIfIdle(x).0.generation == x.generation && FinishIfIdle(x).0.closed == x.closed
  {
  }

  lemma SettlingKeepsGeneration(x: Session, kind: ReportKind, held: bool, success: bool, startCooldown: bool)
    ensures var x' := Settle(x, kind, held, success, startCooldown);
            x'.generation == x.generation && x'.closed == x.closed
  {
    hide SetHeld, ClearHeld;
  }

  lemma CompleteKeepsGeneration(x: Session, r: Reservation, success: bool)
    ensures var x' := Complete(x, r.generation, r.kind, r.held, success, r.startCooldown).0;
            x'.generation == x.generation && x'.closed == x.closed
  {
    hide FinishIfIdle, Settle;
    SettlingKeepsGeneration(x, r.kind, r.held, success, r.startCooldown);
    IdleKeepsGeneration(Settle(x, r.kind, r.held, success, r.startCooldown));
  }

  lemma ResetKeepsGeneration(x: Session, kind: ReportKind)
    ensures Reset(x, kind).0.generation == x.generation && Reset(x, kind).0.closed == x.closed
  {
  }

  lemma CloseEndsGeneration(x: Session)
    ensures x.generation <= Close(x).0.generation && Close(x).0.closed
  {
  }

  lemma CountingAges(h: Shared, t: nat, pc: PC, c: Choice)
    requires pc.StartingManual? || pc.AwaitingDone? || pc.Aborting? || pc.Finishing? || pc.Uncounting?
    ensures ActManual(h, t, pc, c).shared.reservations == h.reservations
    ensures ActManual(h, t, pc, c).shared.sessions == h.sessions
  {
    hide ReleaseShared, BeginManual, EndManual;
  }

  lemma ManualAges(h: Shared, t: nat, pc: PC, c: Choice)
    requires IsManualPC(pc) && c.rid !in h.reservations
    ensures Ages(h, ActManual(h, t, pc, c).shared)
  {
    hide ActReserving, ActActivating;
    if pc.Reserving? {
      ReservingAges(h, pc, c);
    } else if pc.Activating? {
      ActivatingAges(h, pc, c);
    } else {
      hide ActManual;
      if pc.Completing? || pc.Resetting? || pc.Closing? {
        EndingAges(h, t, pc, c);
      } else {
        CountingAges(h, t, pc, c);
      }
    }
  }

  lemma LeaseStepsAge(h: Shared, t: nat, pc: PC, c: Choice)
    requires IsLeasePC(pc)
    ensures ActLease(h, t, pc, c).shared.reservations == h.reservations
    ensures ActLease(h, t, pc, c).shared.sessions == h.sessions
  {
    hide PassShared, ReleaseShared, Load, Begin, EndOperation;
  }

  lemma SwitchStepsAge(h: Shared, t: nat, pc: PC, c: Choice)
    requires IsSwitchPC(pc)
    ensures ActSwitch(h, t, pc, c).shared.reservations == h.reservations
    ensures ActSwitch(h, t, pc, c).shared.sessions == h.sessions
  {
    hide PassExclusive, ReleaseExclusive, Load, Save, Cancel;
  }

  lemma ActAges(h: Shared, t: nat, pc: PC, c: Choice)
    requires c.rid !in h.reservations
    ensures Ages(h, Act(h, t, pc, c).shared)
  {
    hide ActManual, ActSwitch, ActLease;
    if IsManualPC(pc) {
      ManualAges(h, t, pc, c);
    } else if IsSwitchPC(pc) {
      SwitchStepsAge(h, t, pc, c);
    } else {
      LeaseStepsAge(h, t, pc, c);
    }
  }

  lemma StepAges(s: Sys, e: Event)
    requires Enabled(s, e)
    ensures Ages(s.shared, Next(s, e).shared)
  {
    hide Act;
    match e
    case Run(t, c) => ActAges(s.shared, t, s.threads[t], c);
    case _ =>
  }

  lemma StaleStep(s: Sys, s': Sys, r: nat)
    requires Inv(s) && Ages(s.shared, s'.shared) && r in s.shared.reservations && !Uncompleted(s, r)
    ensures r in s'.shared.reservations && !Uncompleted(s', r)
  {
    hide Inv;
    ReservationFacts(s, r);
  }

  /** And once a reservation is stale, it is stale for the rest of the run. */
  lemma {:induction false} StaleStays(states: seq<Sys>, events: seq<Event>, i: nat, j: nat, r: nat)
    requires IsRun(states, events) && i <= j < |states|
    requires r in states[i].shared.reservations && !Uncompleted(states[i], r)
    ensures r in states[j].shared.reservations && !Uncompleted(states[j], r)
    decreases j
  {
    hide Next, Enabled, Ages, Uncompleted, Inv;
    if i < j {
      StaleStays(states, events, i, j - 1, r);
      InvOnRuns(states, events, j - 1);
      RunStep(states, events, j - 1);
      StepAges(states[j - 1], events[j - 1]);
      StaleStep(states[j - 1], states[j], r);
    }
  }

  lemma RunStep(states: seq<Sys>, events: seq<Event>, i: nat)
    requires IsRun(states, events) && i < |events|
    ensures Enabled(states[i], events[i]) && states[i + 1] == Next(states[i], events[i])
  {
  }

  /** When every thread has come to an end, nothing is left over but the sessions that hold the lane. */
  lemma QuietMeansClean(s: Sys, states: seq<Sys>, events: seq<Event>, i: nat)
    requires ReachedBy(s, states, events, i)
    requires forall t :: t in s.threads ==> s.threads[t].Exited?
    ensures s.shared.coord.active == None && s.shared.transitionMu == None
    ensures !s.shared.mgr.transitioning && !s.shared.gate.exclusive
    ensures s.shared.coord.manualSessions == |ActiveSessions(s.shared.sessions)| == s.shared.gate.active
  {
    InvOnRuns(states, events, i);
    assert InFlight(s.threads) == {};
    LedgerIsSessions(s);
  }

  lemma LedgerFacts(s: Sys)
    requires InvLedger(s) && InvSessions(s) && forall t :: t in s.threads ==> s.threads[t].Exited?
    ensures forall x :: x in s.shared.sessions && s.shared.sessions[x].active ==>
              && s.shared.sessions[x].lease.Some?
              && s.shared.sessions[x].lease.value in s.shared.ledger
              && s.shared.ledger[s.shared.sessions[x].lease.value] == InSession(x)
    ensures forall l :: l in s.shared.ledger ==>
              && s.shared.ledger[l].InSession? && s.shared.ledger[l].x in s.shared.sessions
              && s.shared.sessions[s.shared.ledger[l].x].active
              && s.shared.sessions[s.shared.ledger[l].x].lease == Some(l)
  {
    forall x | x in s.shared.sessions && s.shared.sessions[x].active
      ensures s.shared.sessions[x].lease.Some? && LeaseAt(s, InSession(x)) == s.shared.sessions[x].lease
    {
    }
    forall l | l in s.shared.ledger
      ensures LeaseAt(s, s.shared.ledger[l]) == Some(l)
    {
    }
  }

  lemma LedgerIsSessions(s: Sys)
    requires InvLedger(s) && InvSessions(s) && forall t :: t in s.threads ==> s.threads[t].Exited?
    ensures |s.shared.ledger| == |ActiveSessions(s.shared.sessions)|
  {
    hide InvLedger, InvSessions;
    LedgerFacts(s);
    var f := map x | x in s.shared.sessions && s.shared.sessions[x].active :: s.shared.sessions[x].lease.value;
    assert f.Keys == ActiveSessions(s.shared.sessions);
    forall l | l in s.shared.ledger.Keys
      ensures exists x :: x in f && f[x] == l
    {
      assert s.shared.ledger[l].x in f && f[s.shared.ledger[l].x] == l;
    }
    Bijection(f, s.shared.ledger.Keys);
  }

  lemma {:induction false} Bijection(f: map<nat, nat>, range: set<nat>)
    requires forall x :: x in f ==> f[x] in range
    requires forall l :: l in range ==> exists x :: x in f && f[x] == l
    requires forall x, y :: x in f && y in f && f[x] == f[y] ==> x == y
    ensures |f.Keys| == |range|
    decreases |range|
  {
    if range != {} {
      var l :| l in range;
      var x :| x in f && f[x] == l;
      var g := f - {x};
      forall k | k in range - {l}
        ensures exists y :: y in g && g[y] == k
      {
        var y :| y in f && f[y] == k;
        assert y in g;
      }
      Bijection(g, range - {l});
      assert g.Keys == f.Keys - {x};
    } else {
      assert f.Keys == {};
    }
  }

  // ---------------------------------------------------------------- the cooldown

  predicate UntilOk(h: Shared) {
    h.coord.manualUntil.Some? ==> h.coord.manualUntil.value <= h.now + Cooldown(h.coord)
  }

  /** The cooldown's end never moves back. */
  predicate UntilGrows(c: Coordinator, c': Coordinator) {
    && c'.manualCooldown == c.manualCooldown
    && (c.manualUntil.Some? ==> c'.manualUntil.Some? && c.manualUntil.value <= c'.manualUntil.value)
  }

  lemma UntilManual(h: Shared, t: nat, pc: PC, c: Choice)
    requires UntilOk(h) && IsManualPC(pc)
    ensures var h' := ActManual(h, t, pc, c).shared;
            UntilOk(h') && UntilGrows(h.coord, h'.coord) && h'.now == h.now
  {
    hide ReleaseShared, Load, Complete, Reset, Close;
  }

  /** The cooldown is none of a step's business. */
  predicate UntilSame(h: Shared, h': Shared) {
    && h'.coord.manualUntil == h.coord.manualUntil && h'.coord.manualCooldown == h.coord.manualCooldown
    && h'.now == h.now
  }

  lemma UntilLease(h: Shared, t: nat, pc: PC, c: Choice)
    requires IsLeasePC(pc)
    ensures UntilSame(h, ActLease(h, t, pc, c).shared)
  {
    hide PassShared, ReleaseShared, Load;
  }

  lemma UntilSwitch(h: Shared, t: nat, pc: PC, c: Choice)
    requires IsSwitchPC(pc)
    ensures UntilSame(h, ActSwitch(h, t, pc, c).shared)
  {
    hide PassExclusive, ReleaseExclusive, Load, Save;
  }

  lemma UntilAct(h: Shared, t: nat, pc: PC, c: Choice)
    requires UntilOk(h)
    ensures var h' := Act(h, t, pc, c).shared;
            UntilOk(h') && UntilGrows(h.coord, h'.coord) && h'.now == h.now
  {
    hide ActManual, ActSwitch, ActLease;
    if IsManualPC(pc) {
      UntilManual(h, t, pc, c);
    } else if IsSwitchPC(pc) {
      UntilSwitch(h, t, pc, c);
    } else {
      UntilLease(h, t, pc, c);
    }
  }

  lemma UntilStep(s: Sys, e: Event)
    requires UntilOk(s.shared) && Enabled(s, e)
    ensures UntilOk(Next(s, e).shared) && UntilGrows(s.shared.coord, Next(s, e).shared.coord)
  {
    match e
    case Run(t, c) => UntilAct(s.shared, t, s.threads[t], c);
    case _ =>
  }

  lemma {:induction false} UntilOnRuns(states: seq<Sys>, events: seq<Event>, i: nat, j: nat)
    requires IsRun(states, events) && i <= j < |states| && UntilOk(states[i].shared)
    ensures UntilOk(states[j].shared) && UntilGrows(states[i].shared.coord, states[j].shared.coord)
    decreases j - i
  {
    hide Next, Enabled, IsInit;
    if i < j {
      UntilStep(states[i], events[i]);
      UntilOnRuns(states, events, i + 1, j);
    }
  }

  /** The step e opens an HID operation. */
  ghost predicate OpensHID(s: Sys, e: Event)
    requires Enabled(s, e)
  {
    HIDOpen(Next(s, e).shared.coord) && Next(s, e).shared.coord.nextID > s.shared.coord.nextID
  }

  lemma ManualOpensNothing(h: Shared, t: nat, pc: PC, c: Choice)
    requires IsManualPC(pc)
    ensures ActManual(h, t, pc, c).shared.coord.nextID == h.coord.nextID
  {
    hide ReleaseShared, Load, Complete, Reset, Close;
  }

  lemma SwitchOpensNothing(h: Shared, t: nat, pc: PC, c: Choice)
    requires IsSwitchPC(pc)
    ensures ActSwitch(h, t, pc, c).shared.coord.nextID == h.coord.nextID
  {
    hide PassExclusive, ReleaseExclusive, Load, Save;
  }

  lemma LeaseOpens(h: Shared, t: nat, pc: PC, c: Choice)
    requires IsLeasePC(pc)
    requires var c' := ActLease(h, t, pc, c).shared.coord; HIDOpen(c') && c'.nextID > h.coord.nextID
    ensures pc.ToolBegin? && !ManualBlocks(h.coord, h.now)
  {
    hide PassShared, ReleaseShared, Load;
  }

  lemma OpeningIsAllowed(h: Shared, t: nat, pc: PC, c: Choice)
    requires var c' := Act(h, t, pc, c).shared.coord; HIDOpen(c') && c'.nextID > h.coord.nextID
    ensures pc.ToolBegin? && !ManualBlocks(h.coord, h.now)
  {
    hide ActManual, ActSwitch, ActLease, HIDOpen, ManualBlocks;
    if IsManualPC(pc) {
      ManualOpensNothing(h, t, pc, c);
      assert false;
    } else if IsSwitchPC(pc) {
      SwitchOpensNothing(h, t, pc, c);
      assert false;
    } else {
      LeaseOpens(h, t, pc, c);
    }
  }

  /** The end of the last session sets the end of the cooldown. */
  lemma CooldownStarts(s: Sys, t: nat, c: Choice)
    requires t in s.threads && s.threads[t] == Uncounting(true) && s.shared.coord.manualSessions == 1
    ensures var h' := Act(s.shared, t, s.threads[t], c).shared;
            h'.coord.manualUntil == Some(s.shared.now + Cooldown(s.shared.coord))
  {
  }

  lemma OpeningIsLate(s: Sys, e: Event)
    requires Inv(s) && Enabled(s, e) && OpensHID(s, e)
    ensures s.shared.coord.manualUntil.Some? ==> s.shared.now >= s.shared.coord.manualUntil.value
    ensures ActiveSessions(s.shared.sessions) == {} && InFlight(s.threads) == {}
  {
    hide Act, Inv;
    match e
    case Run(u, c) =>
      OpeningIsAllowed(s.shared, u, s.threads[u], c);
      NobodyActive(s);
    case _ =>
  }

  lemma NobodyActive(s: Sys)
    requires Inv(s) && s.shared.coord.manualSessions <= 0
    ensures ActiveSessions(s.shared.sessions) == {} && InFlight(s.threads) == {}
  {
    NobodyCounted(s);
  }

  /** When the last manual session ends with a cooldown, no HID operation opens before it is over. */
  lemma CooldownKeepsToolsOut(states: seq<Sys>, events: seq<Event>, i: nat, j: nat, t: nat)
    requires IsRun(states, events) && states[0].shared.coord.manualUntil.None?
    requires i < j < |events| && events[i].Run? && events[i].t == t && t in states[i].threads
    requires states[i].threads[t] == Uncounting(true) && states[i].shared.coord.manualSessions == 1
    requires Enabled(states[j], events[j]) && OpensHID(states[j], events[j])
    ensures states[j].shared.now >= states[i].shared.now + Cooldown(states[i].shared.coord)
    ensures ActiveSessions(states[j].shared.sessions) == {} && InFlight(states[j].threads) == {}
  {
    hide Act, OpensHID, Enabled, Inv;
    RunStep(states, events, i);
    CooldownStarts(states[i], t, events[i].c);
    UntilOnRuns(states, events, 0, i);
    UntilStep(states[i], events[i]);
    UntilOnRuns(states, events, i + 1, j);
    InvOnRuns(states, events, j);
    OpeningIsLate(states[j], events[j]);
  }

  // ---------------------------------------------------------------- no lost wake-ups

  /** A thread parked on a channel that is still open is parked on the gate's current channel, and
      what it waits for has not happened yet. */
  lemma NoLostWakeUps(s: Sys, states: seq<Sys>, events: seq<Event>, i: nat, t: nat)
    requires ReachedBy(s, states, events, i) && t in s.threads
    requires s.threads[t].ParkedShared? || s.threads[t].SwParked?
    requires s.threads[t].channel !in s.shared.gate.closed
    ensures s.shared.gate.changed == Some(s.threads[t].channel)
    ensures s.threads[t].ParkedShared? ==> s.shared.gate.exclusive
    ensures s.threads[t].SwParked? ==> s.shared.gate.exclusive || s.shared.gate.active > 0
  {
    InvOnRuns(states, events, i);
    assert ParkedOk(s.shared.gate, s.threads[t]);
  }

  /** The exclusive side and the shared side never overlap. */
  lemma ExclusiveMeansNoLease(s: Sys, states: seq<Sys>, events: seq<Event>, i: nat)
    requires ReachedBy(s, states, events, i) && s.shared.gate.exclusive
    ensures s.shared.gate.active == 0 && forall o :: LeaseAt(s, o) == None
    ensures exists t :: t in s.threads && ExclusivePC(s.threads[t]) && s.shared.transitionMu == Some(t)
  {
    InvOnRuns(states, events, i);
    assert s.shared.ledger.Keys == {};
  }

  /** A reservation that waits for an operation waits for one that is over, or for the active one,
      which is then cancelled and still has a thread to end it. */
  lemma ManualWaitsForCancelled(s: Sys, states: seq<Sys>, events: seq<Event>, i: nat, t: nat)
    requires ReachedBy(s, states, events, i) && t in s.threads && s.threads[t].AwaitingDone?
    requires s.threads[t].id !in s.shared.coord.done
    ensures s.shared.coord.active.Some? && s.shared.coord.active.value.id == s.threads[t].id
    ensures s.shared.coord.active.value.cause.Some?
    ensures exists u :: u in s.threads && s.threads[u].Operating? && s.threads[u].id == s.threads[t].id
  {
    InvOnRuns(states, events, i);
    assert OperationOk(s.shared.coord, s.threads[t]);
    var u :| u in s.threads && s.threads[u].Operating?;
    assert OperationOk(s.shared.coord, s.threads[u]);
  }
}
