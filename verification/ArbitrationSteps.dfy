/** Every event keeps the invariant: one lemma per program point, then the dispatch. */
module ArbitrationSteps {
  import opened Wrappers
  import opened ActivityGates
  import opened ControlMode
  import opened InputControl
  import opened Arbitration
  import opened ArbitrationInvariant

  // ---------------------------------------------------------------- steps that change little

  lemma SessionsIdleUnderHID(s: Sys)
    requires InvCoord(s) && HIDOpen(s.shared.coord)
    ensures forall x :: x in s.shared.sessions ==> !s.shared.sessions[x].active
    ensures forall t :: t in s.threads ==> !ClearedPC(s.threads[t])
  {
    forall x | x in s.shared.sessions
      ensures !s.shared.sessions[x].active
    {
      assert !ClearedAt(s, InSession(x));
    }
    forall t | t in s.threads
      ensures !ClearedPC(s.threads[t])
    {
      assert !ClearedAt(s, Thread(t));
    }
  }

  lemma GrantsHold(s: Sys, t: nat)
    requires InvGrants(s) && t in s.threads
    ensures GrantOk(s, s.threads[t]) && SessionsGranted(s, s.shared.sessions)
  {
  }

  lemma LoadStays(s: Sys, c: Choice)
    requires InvSwitch(s)
    ensures Load(s.shared.mgr, c.access).Some? ==>
              Load(s.shared.mgr, c.access).value.loaded && ModeStays(s.shared.mgr, Load(s.shared.mgr, c.access).value)
  {
  }

  const ANY := Choice(Unchanged, false, false, false, false, false, Saved, false, 0)

  /** The parts about leases, for a step outside the switch that leaves the gate alone. */
  lemma LeasesQuiet(s: Sys, t: nat, a: After, c: Choice)
    requires InvGate(s) && InvLedger(s) && InvSwitch(s) && InvGrants(s)
    requires t in s.threads && !SwitchingPC(s.threads[t]) && !SwitchingPC(a.pc)
    requires a.shared.gate == s.shared.gate && a.shared.transitionMu == s.shared.transitionMu
    requires a.shared.mgr == s.shared.mgr || Load(s.shared.mgr, c.access) == Some(a.shared.mgr)
    requires SameLeases(s.shared, a.shared) && a.shared.sessions == s.shared.sessions
    requires a.shared.grants == s.shared.grants
    requires LeaseOf(a.pc) == LeaseOf(s.threads[t]) && GrantOk(s, a.pc)
    requires a.pc == s.threads[t] || !a.pc.ParkedShared?
    ensures var s' := StepTo(s, t, a); InvGate(s') && InvLedger(s') && InvSwitch(s') && InvGrants(s')
  {
    hide InvGate, InvLedger, InvSwitch, InvGrants, InvCoord, InvCounted, InvSessions;
    assert InvGate(StepTo(s, t, a)) by { GateFrame(s, t, a); }
    assert InvLedger(StepTo(s, t, a)) by { LedgerFrame(s, t, a); }
    assert InvSwitch(StepTo(s, t, a)) by { SwitchFrame(s, t, a, c); }
    assert InvGrants(StepTo(s, t, a)) by { LoadStays(s, c); GrantsHold(s, t); GrantFrame(s, t, a); }
  }

  /** The parts about operations and sessions, for a step that leaves them alone. */
  lemma SessionsQuiet(s: Sys, t: nat, a: After)
    requires InvCoord(s) && InvCounted(s) && InvSessions(s) && t in s.threads
    requires a.shared.sessions == s.shared.sessions && a.shared.reservations == s.shared.reservations
    requires a.shared.coord == s.shared.coord || a.shared.coord == Cancel(s.shared.coord, ModeChanged)
    requires CountedPC(a.pc) == CountedPC(s.threads[t])
    requires ClearedPC(a.pc) ==> !HIDOpen(s.shared.coord) || ClearedPC(s.threads[t])
    requires a.pc == s.threads[t] || !(a.pc.Operating? || s.threads[t].Operating? || a.pc.AwaitingDone?)
    ensures var s' := StepTo(s, t, a); InvCoord(s') && InvCounted(s') && InvSessions(s')
  {
    hide InvGate, InvLedger, InvSwitch, InvGrants, InvCoord, InvCounted, InvSessions;
    assert InvCoord(StepTo(s, t, a)) by { if HIDOpen(s.shared.coord) { SessionsIdleUnderHID(s); } CoordFrame(s, t, a); }
    assert InvCounted(StepTo(s, t, a)) by { CountFrame(s, t, a); }
    assert InvSessions(StepTo(s, t, a)) by { SessionsFrame(s, t, a); }
  }

  /** A step outside the switch that only moves its thread, and may load the mode. */
  lemma QuietKept(s: Sys, t: nat, a: After, c: Choice)
    requires Inv(s) && t in s.threads
    requires !SwitchingPC(s.threads[t]) && !SwitchingPC(a.pc)
    requires a.shared == s.shared || (Load(s.shared.mgr, c.access).Some?
             && a.shared == s.shared.(mgr := Load(s.shared.mgr, c.access).value))
    requires LeaseOf(a.pc) == LeaseOf(s.threads[t]) && CountedPC(a.pc) == CountedPC(s.threads[t])
    requires ClearedPC(a.pc) ==> !HIDOpen(s.shared.coord) || ClearedPC(s.threads[t])
    requires GrantOk(s, a.pc)
    requires a.pc == s.threads[t]
             || !(a.pc.ParkedShared? || a.pc.Operating? || s.threads[t].Operating? || a.pc.AwaitingDone?)
    ensures Inv(StepTo(s, t, a))
  {
    hide InvGate, InvLedger, InvSwitch, InvGrants, InvCoord, InvCounted, InvSessions;
    LeasesQuiet(s, t, a, c);
    SessionsQuiet(s, t, a);
  }

  lemma FirstCheckKept(s: Sys, t: nat, c: Choice)
    requires Inv(s) && t in s.threads && s.threads[t].FirstCheck?
    ensures Inv(StepTo(s, t, ActFirstCheck(s.shared, s.threads[t], c)))
  {
    hide Inv;
    ThreadFacts(s, t);
    QuietKept(s, t, ActFirstCheck(s.shared, s.threads[t], c), c);
  }

  lemma ParkedSharedKept(s: Sys, t: nat, c: Choice)
    requires Inv(s) && t in s.threads && s.threads[t].ParkedShared?
    ensures Inv(StepTo(s, t, ActParkedShared(s.shared, s.threads[t])))
  {
    hide Inv;
    ThreadFacts(s, t);
    QuietKept(s, t, ActParkedShared(s.shared, s.threads[t]), c);
  }

  lemma ThreadFacts(s: Sys, t: nat)
    requires Inv(s) && t in s.threads
    ensures OperationOk(s.shared.coord, s.threads[t]) && GrantOk(s, s.threads[t])
    ensures GateOk(s.shared.gate) && ManagerOk(s.shared.mgr)
    ensures LeaseOf(s.threads[t]).Some? ==> s.shared.gate.active > 0 && LeaseOf(s.threads[t]).value !in s.shared.spent
    ensures s.shared.coord.active.Some? ==> s.shared.coord.active.value.id !in s.shared.coord.done
  {
    if LeaseOf(s.threads[t]).Some? {
      HeldLeaseCounts(s, Thread(t));
    }
  }

  lemma AwaitingDoneKept(s: Sys, t: nat, c: Choice)
    requires Inv(s) && t in s.threads && s.threads[t].AwaitingDone?
    ensures Inv(StepTo(s, t, ActAwaitingDone(s.shared, s.threads[t], c)))
  {
    hide Inv;
    ThreadFacts(s, t);
    QuietKept(s, t, ActAwaitingDone(s.shared, s.threads[t], c), c);
  }

  // ---------------------------------------------------------------- leases

  lemma EnterSharedKept(s: Sys, t: nat)
    requires Inv(s) && t in s.threads && s.threads[t].EnterShared?
    ensures Inv(StepTo(s, t, ActEnterShared(s.shared, t, s.threads[t])))
  {
    hide InvGate, InvLedger, InvSwitch, InvGrants, InvCoord, InvCounted, InvSessions;
    var a := ActEnterShared(s.shared, t, s.threads[t]);
    assert InvGate(StepTo(s, t, a)) by { GatePassed(s, t, a, PassShared(s.shared.gate)); }
    assert InvLedger(StepTo(s, t, a)) by {
      if s.shared.gate.exclusive { LedgerFrame(s, t, a); } else { LedgerTaken(s, t, a); }
    }
    assert InvSwitch(StepTo(s, t, a)) by { SwitchFrame(s, t, a, ANY); }
    assert InvGrants(StepTo(s, t, a)) by { GrantsHold(s, t); GrantFrame(s, t, a); }
    SessionsQuiet(s, t, a);
  }

  lemma SecondCheckKept(s: Sys, t: nat, c: Choice)
    requires Inv(s) && t in s.threads && s.threads[t].SecondCheck?
    ensures Inv(StepTo(s, t, ActSecondCheck(s.shared, s.threads[t], c)))
  {
    hide InvGate, InvLedger, InvSwitch, InvGrants, InvCoord, InvCounted, InvSessions;
    var pc := s.threads[t];
    var a := ActSecondCheck(s.shared, pc, c);
    if Load(s.shared.mgr, c.access).Some? && Admits(Load(s.shared.mgr, c.access).value, pc.goal) {
      assert InvGate(StepTo(s, t, a)) by { GateFrame(s, t, a); }
      assert InvLedger(StepTo(s, t, a)) by { LedgerFrame(s, t, a); }
      assert InvSwitch(StepTo(s, t, a)) by { SwitchFrame(s, t, a, c); }
      assert InvGrants(StepTo(s, t, a)) by { LoadStays(s, c); GrantsHold(s, t); GrantTaken(s, t, a, pc.held); }
      SessionsQuiet(s, t, a);
    } else {
      QuietKept(s, t, a, c);
    }
  }

  /** Running a release function: from DropLease, and from Finishing. */
  lemma LeasesReleased(s: Sys, t: nat, a: After)
    requires Inv(s) && t in s.threads && LeaseOf(s.threads[t]).Some?
    requires (s.threads[t].DropLease? && a.pc.Exited?) || (s.threads[t].Finishing? && a.pc.Uncounting?)
    requires a.shared == Release(s.shared, LeaseOf(s.threads[t]).value)
    ensures var s' := StepTo(s, t, a); InvGate(s') && InvLedger(s') && InvSwitch(s') && InvGrants(s')
  {
    hide InvGate, InvLedger, InvSwitch, InvGrants, InvCoord, InvCounted, InvSessions;
    assert InvGate(StepTo(s, t, a)) by { HeldLeaseCounts(s, Thread(t)); GateReleased(s, t, a); }
    assert InvLedger(StepTo(s, t, a)) by { LedgerReleased(s, t, a); }
    assert InvSwitch(StepTo(s, t, a)) by { SwitchFrame(s, t, a, ANY); }
    assert InvGrants(StepTo(s, t, a)) by { GrantsHold(s, t); GrantFrame(s, t, a); }
  }

  lemma ReleaseKept(s: Sys, t: nat, a: After)
    requires Inv(s) && t in s.threads && LeaseOf(s.threads[t]).Some?
    requires (s.threads[t].DropLease? && a.pc.Exited?) || (s.threads[t].Finishing? && a.pc.Uncounting?)
    requires a.shared == Release(s.shared, LeaseOf(s.threads[t]).value)
    ensures Inv(StepTo(s, t, a))
  {
    hide InvGate, InvLedger, InvSwitch, InvGrants, InvCoord, InvCounted, InvSessions;
    LeasesReleased(s, t, a);
    SessionsQuiet(s, t, a);
  }

  lemma WritingKept(s: Sys, t: nat, c: Choice)
    requires Inv(s) && t in s.threads && s.threads[t].Writing?
    ensures Inv(StepTo(s, t, ActWriting(s.shared, s.threads[t])))
  {
    hide Inv;
    QuietKept(s, t, ActWriting(s.shared, s.threads[t]), c);
  }

  lemma DropLeaseKept(s: Sys, t: nat)
    requires Inv(s) && t in s.threads && s.threads[t].DropLease?
    ensures Inv(StepTo(s, t, ActDropLease(s.shared, s.threads[t])))
  {
    hide Inv;
    ReleaseKept(s, t, ActDropLease(s.shared, s.threads[t]));
  }

  lemma FinishingKept(s: Sys, t: nat, c: Choice)
    requires Inv(s) && t in s.threads && s.threads[t].Finishing?
    ensures Inv(StepTo(s, t, ActFinishing(s.shared, s.threads[t])))
  {
    hide Inv;
    if s.threads[t].lease.Some? {
      ReleaseKept(s, t, ActFinishing(s.shared, s.threads[t]));
    } else {
      QuietKept(s, t, ActFinishing(s.shared, s.threads[t]), c);
    }
  }

  // ---------------------------------------------------------------- operations

  /** A step that changes the coordinator only, once its own part is settled. */
  lemma CoordOnlyKept(s: Sys, t: nat, a: After)
    requires Inv(s) && t in s.threads
    requires !SwitchingPC(s.threads[t]) && !SwitchingPC(a.pc)
    requires a.shared == s.shared.(coord := a.shared.coord)
    requires LeaseOf(a.pc) == LeaseOf(s.threads[t]) && GrantOk(s, a.pc) && !a.pc.ParkedShared?
    requires a.shared.coord.manualSessions == s.shared.coord.manualSessions
             + (if CountedPC(a.pc) then 1 else 0) - (if CountedPC(s.threads[t]) then 1 else 0)
    requires InvCoord(StepTo(s, t, a))
    ensures Inv(StepTo(s, t, a))
  {
    hide InvGate, InvLedger, InvSwitch, InvGrants, InvCoord, InvCounted, InvSessions;
    LeasesQuiet(s, t, a, ANY);
    assert InvCounted(StepTo(s, t, a)) by { CountFrame(s, t, a); }
    assert InvSessions(StepTo(s, t, a)) by { SessionsFrame(s, t, a); }
  }

  lemma ToolBeginKept(s: Sys, t: nat, c: Choice)
    requires Inv(s) && t in s.threads && s.threads[t].ToolBegin?
    ensures Inv(StepTo(s, t, ActToolBegin(s.shared, s.threads[t])))
  {
    hide InvGate, InvLedger, InvSwitch, InvGrants, InvCoord, InvCounted, InvSessions;
    var a := ActToolBegin(s.shared, s.threads[t]);
    if CanBegin(s.shared.coord, s.threads[t].kind, s.shared.now) {
      assert InvCoord(StepTo(s, t, a)) by { CoordBegun(s, t, a, s.threads[t].kind); }
      assert GrantOk(s, a.pc) by { GrantsHold(s, t); }
      CoordOnlyKept(s, t, a);
    } else {
      QuietKept(s, t, a, c);
    }
  }

  lemma OperatingKept(s: Sys, t: nat)
    requires Inv(s) && t in s.threads && s.threads[t].Operating?
    ensures Inv(StepTo(s, t, ActOperating(s.shared, s.threads[t])))
  {
    hide InvGate, InvLedger, InvSwitch, InvGrants, InvCoord, InvCounted, InvSessions;
    var a := ActOperating(s.shared, s.threads[t]);
    assert InvCoord(StepTo(s, t, a)) by { CoordEnded(s, t, a); }
    CoordOnlyKept(s, t, a);
  }

  lemma StartingManualKept(s: Sys, t: nat)
    requires Inv(s) && t in s.threads && s.threads[t].StartingManual?
    ensures Inv(StepTo(s, t, ActStartingManual(s.shared, s.threads[t])))
  {
    hide InvGate, InvLedger, InvSwitch, InvGrants, InvCoord, InvCounted, InvSessions;
    var a := ActStartingManual(s.shared, s.threads[t]);
    assert InvCoord(StepTo(s, t, a)) by { CoordManual(s, t, a); }
    assert GrantOk(s, a.pc) by { GrantsHold(s, t); }
    CoordOnlyKept(s, t, a);
  }

  lemma AbortingKept(s: Sys, t: nat)
    requires Inv(s) && t in s.threads && s.threads[t].Aborting?
    ensures Inv(StepTo(s, t, ActAborting(s.shared, s.threads[t])))
  {
    hide InvGate, InvLedger, InvSwitch, InvGrants, InvCoord, InvCounted, InvSessions;
    var a := ActAborting(s.shared, s.threads[t]);
    assert InvCoord(StepTo(s, t, a)) by { CoordUncounted(s, t, a, false); }
    CountPositive(s, t);
    CoordOnlyKept(s, t, a);
  }

  lemma UncountingKept(s: Sys, t: nat)
    requires Inv(s) && t in s.threads && s.threads[t].Uncounting?
    ensures Inv(StepTo(s, t, ActUncounting(s.shared, s.threads[t])))
  {
    hide InvGate, InvLedger, InvSwitch, InvGrants, InvCoord, InvCounted, InvSessions;
    var a := ActUncounting(s.shared, s.threads[t]);
    assert InvCoord(StepTo(s, t, a)) by { CoordUncounted(s, t, a, s.threads[t].cooldown); }
    CountPositive(s, t);
    CoordOnlyKept(s, t, a);
  }

  // ---------------------------------------------------------------- manual sessions

  /** A step that changes session x, once the parts about leases and reservations are settled. */
  lemma SessionKept(s: Sys, t: nat, a: After, c: Choice, x: nat, x1: Session)
    requires Inv(s) && t in s.threads && x in s.shared.sessions
    requires !SwitchingPC(s.threads[t]) && !SwitchingPC(a.pc)
    requires !(a.pc.ParkedShared? || a.pc.Operating? || s.threads[t].Operating? || a.pc.AwaitingDone?)
    requires a.shared.gate == s.shared.gate && a.shared.coord == s.shared.coord
    requires a.shared.transitionMu == s.shared.transitionMu && a.shared.grants == s.shared.grants
    requires a.shared.leases == s.shared.leases && a.shared.spent == s.shared.spent
    requires a.shared.mgr == s.shared.mgr || Load(s.shared.mgr, c.access) == Some(a.shared.mgr)
    requires a.shared.sessions == s.shared.sessions[x := x1]
    requires x1.active || ClearedPC(a.pc) ==> !HIDOpen(s.shared.coord)
    requires GrantOk(s, a.pc) && (x1.lease.Some? ==> GrantedFor(s, x1.lease.value, None))
    requires (if CountedPC(a.pc) then 1 else 0) + (if x1.active then 1 else 0)
             == (if CountedPC(s.threads[t]) then 1 else 0) + (if s.shared.sessions[x].active then 1 else 0)
    requires InvLedger(StepTo(s, t, a)) && InvSessions(StepTo(s, t, a))
    ensures Inv(StepTo(s, t, a))
  {
    hide InvGate, InvLedger, InvSwitch, InvGrants, InvCoord, InvCounted, InvSessions;
    assert InvGate(StepTo(s, t, a)) by { GateFrame(s, t, a); }
    assert InvSwitch(StepTo(s, t, a)) by { SwitchFrame(s, t, a, c); }
    assert InvGrants(StepTo(s, t, a)) by { LoadStays(s, c); GrantsHold(s, t); GrantFrame(s, t, a); }
    assert InvCoord(StepTo(s, t, a)) by { if HIDOpen(s.shared.coord) { SessionsIdleUnderHID(s); } CoordFrame(s, t, a); }
    assert InvCounted(StepTo(s, t, a)) by { CountSession(s, t, a, x, x1); }
  }

  lemma SessionFacts(s: Sys, x: nat)
    requires Inv(s) && x in s.shared.sessions
    ensures SessionOk(s.shared.sessions[x])
    ensures s.shared.sessions[x].active ==> !HIDOpen(s.shared.coord)
    ensures s.shared.sessions[x].lease.Some? ==> GrantedFor(s, s.shared.sessions[x].lease.value, None)
  {
    if HIDOpen(s.shared.coord) { SessionsIdleUnderHID(s); }
  }

  /** A reservation that joins a session which is already active. */
  lemma JoinKept(s: Sys, t: nat, a: After, c: Choice, req: Request)
    requires Inv(s) && t in s.threads && req.session in s.shared.sessions && c.rid !in s.shared.reservations
    requires s.shared.sessions[req.session].active
    requires a.shared == Joined(s.shared.(mgr := a.shared.mgr), req, c.rid)
    requires a.shared.mgr == s.shared.mgr || Load(s.shared.mgr, c.access) == Some(a.shared.mgr)
    requires (s.threads[t].Reserving? && a.pc.Exited?)
             || (s.threads[t].Activating? && a.pc == Aborting(s.threads[t].held))
    ensures Inv(StepTo(s, t, a))
  {
    hide InvGate, InvLedger, InvSwitch, InvGrants, InvCoord, InvCounted, InvSessions;
    var x0 := s.shared.sessions[req.session];
    SessionFacts(s, req.session);
    assert GrantOk(s, a.pc) by { GrantsHold(s, t); }
    assert InvLedger(StepTo(s, t, a)) by { LedgerSession(s, t, a, req.session, AddPending(x0)); }
    assert InvSessions(StepTo(s, t, a)) by {
      SessionsReserved(s, t, a, req.session, c.rid, JoinReservation(x0, req), AddPending(x0));
    }
    SessionKept(s, t, a, c, req.session, AddPending(x0));
  }

  /** The reservation that activates a session, and passes its lease on to it. */
  lemma ActivationKept(s: Sys, t: nat, a: After, c: Choice, req: Request)
    requires Inv(s) && t in s.threads && req.session in s.shared.sessions && c.rid !in s.shared.reservations
    requires s.threads[t].Activating? && s.threads[t].req == req
    requires !s.shared.sessions[req.session].closed && !s.shared.sessions[req.session].active
    requires a == ActActivating(s.shared, s.threads[t], c)
    ensures Inv(StepTo(s, t, a))
  {
    hide InvGate, InvLedger, InvSwitch, InvGrants, InvCoord, InvCounted, InvSessions;
    var l := s.threads[t].held;
    var x1 := Activate(s.shared.sessions[req.session], l);
    SessionFacts(s, req.session);
    assert InvLedger(StepTo(s, t, a)) by { LedgerMoved(s, t, a, req.session, x1, l); }
    assert InvSessions(StepTo(s, t, a)) by {
      SessionsReserved(s, t, a, req.session, c.rid, NewReservation(x1, req), x1);
    }
    assert GrantedFor(s, l, None) by { GrantsHold(s, t); }
    assert !HIDOpen(s.shared.coord) by { if HIDOpen(s.shared.coord) { SessionsIdleUnderHID(s); } }
    SessionKept(s, t, a, c, req.session, x1);
  }

  lemma ReservingKept(s: Sys, t: nat, c: Choice)
    requires Inv(s) && t in s.threads && s.threads[t].Reserving? && c.rid !in s.shared.reservations
    ensures Inv(StepTo(s, t, ActReserving(s.shared, s.threads[t], c)))
  {
    hide Inv;
    var a := ActReserving(s.shared, s.threads[t], c);
    var req := s.threads[t].req;
    if req.session !in s.shared.sessions || a.shared.sessions == s.shared.sessions {
      QuietKept(s, t, a, c);
    } else {
      JoinKept(s, t, a, c, req);
    }
  }

  lemma ActivatingKept(s: Sys, t: nat, c: Choice)
    requires Inv(s) && t in s.threads && s.threads[t].Activating? && c.rid !in s.shared.reservations
    ensures Inv(StepTo(s, t, ActActivating(s.shared, s.threads[t], c)))
  {
    hide Inv;
    var a := ActActivating(s.shared, s.threads[t], c);
    var req := s.threads[t].req;
    if req.session !in s.shared.sessions || s.shared.sessions[req.session].closed {
      ThreadFacts(s, t);
      QuietKept(s, t, a, c);
    } else if s.shared.sessions[req.session].active {
      JoinKept(s, t, a, c, req);
    } else {
      ActivationKept(s, t, a, c, req);
    }
  }

  /** What Complete, Reset and Close do to a session, as far as leases and counts go. */
  ghost predicate EndsWell(x0: Session, after: (Session, Ending)) {
    match after.1
    case Stays => after.0.active == x0.active && after.0.lease == x0.lease
    case Ends(lease, _) => x0.active && lease.Some? && lease == x0.lease && !after.0.active && after.0.lease == None
  }

  lemma EndSessionKept(s: Sys, t: nat, c: Choice, h: Shared, x: nat, after: (Session, Ending))
    requires Inv(s) && t in s.threads && x in s.shared.sessions
    requires s.threads[t].Completing? || s.threads[t].Resetting? || s.threads[t].Closing?
    requires h == s.shared.(reservations := h.reservations)
    requires EndsWell(s.shared.sessions[x], after)
    requires InvSessions(StepTo(s, t, EndSession(h, t, x, after)))
    ensures Inv(StepTo(s, t, EndSession(h, t, x, after)))
  {
    hide InvGate, InvLedger, InvSwitch, InvGrants, InvCoord, InvCounted, InvSessions;
    var a := EndSession(h, t, x, after);
    SessionFacts(s, x);
    assert InvLedger(StepTo(s, t, a)) by {
      if after.1.Stays? {
        LedgerSession(s, t, a, x, after.0);
      } else {
        LedgerMoved(s, t, a, x, after.0, after.1.lease.value);
      }
    }
    SessionKept(s, t, a, c, x, after.0);
  }

  lemma IdleIsWell(s: Session)
    requires s.pending >= 0 && (s.closed ==> !s.active) && (s.active <==> s.lease.Some?)
    requires (s.cooldownOnIdle ==> s.active) && (!s.active ==> s.pending == 0 && !Holding(s))
    ensures var after := FinishIfIdle(s);
            && EndsWell(s, after) && SessionOk(after.0)
            && after.0.generation == s.generation && after.0.pending == s.pending
  {
  }

  lemma SettleIsWell(s: Session, kind: ReportKind, held: bool, success: bool, startCooldown: bool)
    requires s.pending > 0
    ensures var s' := Settle(s, kind, held, success, startCooldown);
            && s'.pending == s.pending - 1 && s'.active == s.active && s'.closed == s.closed && s'.lease == s.lease
            && s'.generation == s.generation
  {
    hide SetHeld, ClearHeld;
  }

  lemma CompleteIsWell(s: Session, r: Reservation, success: bool)
    requires SessionOk(s) && r.generation <= s.generation
    requires r.generation == s.generation ==> s.active && s.pending > 0
    ensures var after := Complete(s, r.generation, r.kind, r.held, success, r.startCooldown);
            && EndsWell(s, after) && SessionOk(after.0) && after.0.generation == s.generation
            && after.0.pending == s.pending - (if r.generation == s.generation then 1 else 0)
  {
    hide FinishIfIdle, Settle, Holding;
    if r.generation == s.generation {
      SettleIsWell(s, r.kind, r.held, success, r.startCooldown);
      IdleIsWell(Settle(s, r.kind, r.held, success, r.startCooldown));
    }
  }

  lemma ResetIsWell(s: Session, kind: ReportKind)
    requires SessionOk(s)
    ensures var after := Reset(s, kind);
            && EndsWell(s, after) && SessionOk(after.0)
            && after.0.generation == s.generation && after.0.pending == s.pending
  {
  }

  lemma CloseIsWell(s: Session)
    requires SessionOk(s)
    ensures var after := Close(s);
            && EndsWell(s, after) && SessionOk(after.0)
            && (after.0 == s || (after.0.generation == s.generation + 1 && after.0.pending == 0))
  {
  }

  lemma ReservationFacts(s: Sys, rid: nat)
    requires Inv(s) && rid in s.shared.reservations
    ensures var r := s.shared.reservations[rid];
            && r.session in s.shared.sessions && r.generation <= s.shared.sessions[r.session].generation
            && (!r.once && r.generation == s.shared.sessions[r.session].generation ==>
                  s.shared.sessions[r.session].active && s.shared.sessions[r.session].pending > 0)
  {
    var r := s.shared.reservations[rid];
    if !r.once && r.generation == s.shared.sessions[r.session].generation { OutstandingCounts(s, rid); }
  }

  lemma CompletionKept(s: Sys, t: nat, c: Choice, rid: nat)
    requires Inv(s) && t in s.threads && s.threads[t] == Completing(rid)
    requires rid in s.shared.reservations && !s.shared.reservations[rid].once
    ensures Inv(StepTo(s, t, ActCompleting(s.shared, t, s.threads[t], c)))
  {
    hide InvGate, InvLedger, InvSwitch, InvGrants, InvCoord, InvCounted, InvSessions;
    var a := ActCompleting(s.shared, t, s.threads[t], c);
    var r := s.shared.reservations[rid];
    ReservationFacts(s, rid);
    SessionFacts(s, r.session);
    CompleteIsWell(s.shared.sessions[r.session], r, c.success);
    var after := Complete(s.shared.sessions[r.session], r.generation, r.kind, r.held, c.success, r.startCooldown);
    assert InvSessions(StepTo(s, t, a)) by { SessionsCompleted(s, t, a, r.session, rid, after.0); }
    EndSessionKept(s, t, c, s.shared.(reservations := s.shared.reservations[rid := r.(once := true)]), r.session,
        after);
  }

  lemma CompletingKept(s: Sys, t: nat, c: Choice)
    requires Inv(s) && t in s.threads && s.threads[t].Completing?
    ensures Inv(StepTo(s, t, ActCompleting(s.shared, t, s.threads[t], c)))
  {
    hide Inv;
    var rid := s.threads[t].reservation;
    if rid !in s.shared.reservations || s.shared.reservations[rid].once {
      QuietKept(s, t, ActCompleting(s.shared, t, s.threads[t], c), c);
    } else {
      CompletionKept(s, t, c, rid);
    }
  }

  lemma ResettingKept(s: Sys, t: nat, c: Choice)
    requires Inv(s) && t in s.threads && s.threads[t].Resetting?
    ensures Inv(StepTo(s, t, ActResetting(s.shared, t, s.threads[t])))
  {
    hide InvGate, InvLedger, InvSwitch, InvGrants, InvCoord, InvCounted, InvSessions;
    var a := ActResetting(s.shared, t, s.threads[t]);
    var x := s.threads[t].session;
    if x !in s.shared.sessions {
      QuietKept(s, t, a, c);
    } else {
      var after := Reset(s.shared.sessions[x], s.threads[t].report);
      SessionFacts(s, x);
      ResetIsWell(s.shared.sessions[x], s.threads[t].report);
      assert InvSessions(StepTo(s, t, a)) by { SessionsTouched(s, t, a, x, after.0); }
      EndSessionKept(s, t, c, s.shared, x, after);
    }
  }

  lemma ClosingKept(s: Sys, t: nat, c: Choice)
    requires Inv(s) && t in s.threads && s.threads[t].Closing?
    ensures Inv(StepTo(s, t, ActClosing(s.shared, t, s.threads[t])))
  {
    hide InvGate, InvLedger, InvSwitch, InvGrants, InvCoord, InvCounted, InvSessions;
    var a := ActClosing(s.shared, t, s.threads[t]);
    var x := s.threads[t].session;
    if x !in s.shared.sessions {
      QuietKept(s, t, a, c);
    } else {
      var after := Close(s.shared.sessions[x]);
      SessionFacts(s, x);
      CloseIsWell(s.shared.sessions[x]);
      assert InvSessions(StepTo(s, t, a)) by { SessionsTouched(s, t, a, x, after.0); }
      EndSessionKept(s, t, c, s.shared, x, after);
    }
  }

  // ---------------------------------------------------------------- mode switches

  /** A step of a switch, once the gate's part and the switch's part are settled. */
  lemma SwitchStepKept(s: Sys, t: nat, a: After)
    requires Inv(s) && t in s.threads && IsSwitchPC(s.threads[t])
    requires IsSwitchPC(a.pc) || a.pc.Exited?
    requires a.shared == s.shared.(gate := a.shared.gate, mgr := a.shared.mgr, coord := a.shared.coord,
                                   transitionMu := a.shared.transitionMu)
    requires a.shared.gate.active == s.shared.gate.active
    requires a.shared.coord == s.shared.coord || a.shared.coord == Cancel(s.shared.coord, ModeChanged)
    requires ModeStays(s.shared.mgr, a.shared.mgr) || s.shared.gate.exclusive
    requires InvGate(StepTo(s, t, a)) && InvSwitch(StepTo(s, t, a))
    ensures Inv(StepTo(s, t, a))
  {
    hide InvGate, InvLedger, InvSwitch, InvGrants, InvCoord, InvCounted, InvSessions;
    assert InvLedger(StepTo(s, t, a)) by { LedgerFrame(s, t, a); }
    assert InvGrants(StepTo(s, t, a)) by {
      GrantsHold(s, t);
      if s.shared.gate.exclusive { NoGrantOpen(s); }
      GrantFrame(s, t, a);
    }
    SessionsQuiet(s, t, a);
  }

  lemma SwitchFacts(s: Sys, t: nat)
    requires Inv(s) && t in s.threads
    ensures ManagerOk(s.shared.mgr) && SwitchOk(s.shared.mgr, s.threads[t])
    ensures SwitchingPC(s.threads[t]) ==>
              && s.shared.transitionMu == Some(t)
              && (s.shared.mgr.transitioning <==> MarkedPC(s.threads[t]))
              && (s.shared.gate.exclusive <==> ExclusivePC(s.threads[t]))
  {
  }

  lemma SwLockKept(s: Sys, t: nat)
    requires Inv(s) && t in s.threads && s.threads[t].SwLock?
    ensures Inv(StepTo(s, t, ActSwLock(s.shared, t, s.threads[t])))
  {
    hide InvGate, InvLedger, InvSwitch, InvGrants, InvCoord, InvCounted, InvSessions;
    var a := ActSwLock(s.shared, t, s.threads[t]);
    SwitchFacts(s, t);
    assert InvGate(StepTo(s, t, a)) by { GateFrame(s, t, a); }
    assert InvSwitch(StepTo(s, t, a)) by { SwitchLocked(s, t, a); }
    SwitchStepKept(s, t, a);
  }

  lemma SwUnlockKept(s: Sys, t: nat)
    requires Inv(s) && t in s.threads && s.threads[t].SwUnlock?
    ensures Inv(StepTo(s, t, ActSwUnlock(s.shared, s.threads[t])))
  {
    hide InvGate, InvLedger, InvSwitch, InvGrants, InvCoord, InvCounted, InvSessions;
    var a := ActSwUnlock(s.shared, s.threads[t]);
    SwitchFacts(s, t);
    assert InvGate(StepTo(s, t, a)) by { GateFrame(s, t, a); }
    assert InvSwitch(StepTo(s, t, a)) by { SwitchUnlocked(s, t, a); }
    SwitchStepKept(s, t, a);
  }

  lemma SwCheckKept(s: Sys, t: nat, c: Choice)
    requires Inv(s) && t in s.threads && s.threads[t].SwCheck?
    ensures Inv(StepTo(s, t, ActSwCheck(s.shared, s.threads[t], c)))
  {
    hide InvGate, InvLedger, InvSwitch, InvGrants, InvCoord, InvCounted, InvSessions;
    var a := ActSwCheck(s.shared, s.threads[t], c);
    SwitchFacts(s, t);
    assert InvGate(StepTo(s, t, a)) by { GateFrame(s, t, a); }
    assert InvSwitch(StepTo(s, t, a)) by { SwitchOwn(s, t, a); }
    SwitchStepKept(s, t, a);
  }

  lemma SwMarkKept(s: Sys, t: nat)
    requires Inv(s) && t in s.threads && s.threads[t].SwMark?
    ensures Inv(StepTo(s, t, ActSwMark(s.shared, s.threads[t])))
  {
    hide InvGate, InvLedger, InvSwitch, InvGrants, InvCoord, InvCounted, InvSessions;
    var a := ActSwMark(s.shared, s.threads[t]);
    SwitchFacts(s, t);
    assert InvGate(StepTo(s, t, a)) by { GateFrame(s, t, a); }
    assert InvSwitch(StepTo(s, t, a)) by { SwitchOwn(s, t, a); }
    SwitchStepKept(s, t, a);
  }

  lemma SwUnmarkKept(s: Sys, t: nat)
    requires Inv(s) && t in s.threads && s.threads[t].SwUnmark?
    ensures Inv(StepTo(s, t, ActSwUnmark(s.shared, s.threads[t])))
  {
    hide InvGate, InvLedger, InvSwitch, InvGrants, InvCoord, InvCounted, InvSessions;
    var a := ActSwUnmark(s.shared, s.threads[t]);
    SwitchFacts(s, t);
    assert InvGate(StepTo(s, t, a)) by { GateFrame(s, t, a); }
    assert InvSwitch(StepTo(s, t, a)) by { SwitchOwn(s, t, a); }
    SwitchStepKept(s, t, a);
  }

  lemma SwPreemptKept(s: Sys, t: nat, c: Choice)
    requires Inv(s) && t in s.threads && s.threads[t].SwPreempt?
    ensures Inv(StepTo(s, t, ActSwPreempt(s.shared, s.threads[t], c)))
  {
    hide InvGate, InvLedger, InvSwitch, InvGrants, InvCoord, InvCounted, InvSessions;
    var a := ActSwPreempt(s.shared, s.threads[t], c);
    SwitchFacts(s, t);
    assert InvGate(StepTo(s, t, a)) by { GateFrame(s, t, a); }
    assert InvSwitch(StepTo(s, t, a)) by { SwitchOwn(s, t, a); }
    SwitchStepKept(s, t, a);
  }

  lemma SwEnterKept(s: Sys, t: nat)
    requires Inv(s) && t in s.threads && s.threads[t].SwEnter?
    ensures Inv(StepTo(s, t, ActSwEnter(s.shared, s.threads[t])))
  {
    hide InvGate, InvLedger, InvSwitch, InvGrants, InvCoord, InvCounted, InvSessions;
    var a := ActSwEnter(s.shared, s.threads[t]);
    SwitchFacts(s, t);
    assert InvGate(StepTo(s, t, a)) by { GatePassed(s, t, a, PassExclusive(s.shared.gate)); }
    assert InvSwitch(StepTo(s, t, a)) by { SwitchOwn(s, t, a); }
    SwitchStepKept(s, t, a);
  }

  lemma SwParkedKept(s: Sys, t: nat, c: Choice)
    requires Inv(s) && t in s.threads && s.threads[t].SwParked?
    ensures Inv(StepTo(s, t, ActSwParked(s.shared, s.threads[t], c)))
  {
    hide InvGate, InvLedger, InvSwitch, InvGrants, InvCoord, InvCounted, InvSessions;
    var a := ActSwParked(s.shared, s.threads[t], c);
    SwitchFacts(s, t);
    assert InvGate(StepTo(s, t, a)) by { GateFrame(s, t, a); }
    assert InvSwitch(StepTo(s, t, a)) by { SwitchOwn(s, t, a); }
    SwitchStepKept(s, t, a);
  }

  lemma SwCleanupKept(s: Sys, t: nat, c: Choice)
    requires Inv(s) && t in s.threads && s.threads[t].SwCleanup?
    ensures Inv(StepTo(s, t, ActSwCleanup(s.shared, s.threads[t], c)))
  {
    hide InvGate, InvLedger, InvSwitch, InvGrants, InvCoord, InvCounted, InvSessions;
    var a := ActSwCleanup(s.shared, s.threads[t], c);
    SwitchFacts(s, t);
    assert InvGate(StepTo(s, t, a)) by { GateFrame(s, t, a); }
    assert InvSwitch(StepTo(s, t, a)) by { SwitchOwn(s, t, a); }
    SwitchStepKept(s, t, a);
  }

  lemma SwSaveKept(s: Sys, t: nat, c: Choice)
    requires Inv(s) && t in s.threads && s.threads[t].SwSave?
    ensures Inv(StepTo(s, t, ActSwSave(s.shared, s.threads[t], c)))
  {
    hide InvGate, InvLedger, InvSwitch, InvGrants, InvCoord, InvCounted, InvSessions;
    var a := ActSwSave(s.shared, s.threads[t], c);
    SwitchFacts(s, t);
    assert InvGate(StepTo(s, t, a)) by { GateFrame(s, t, a); }
    assert InvSwitch(StepTo(s, t, a)) by { SwitchOwn(s, t, a); }
    SwitchStepKept(s, t, a);
  }

  lemma SwRollbackKept(s: Sys, t: nat, c: Choice)
    requires Inv(s) && t in s.threads && s.threads[t].SwRollback?
    ensures Inv(StepTo(s, t, ActSwRollback(s.shared, s.threads[t], c)))
  {
    hide InvGate, InvLedger, InvSwitch, InvGrants, InvCoord, InvCounted, InvSessions;
    var a := ActSwRollback(s.shared, s.threads[t], c);
    SwitchFacts(s, t);
    assert InvGate(StepTo(s, t, a)) by { GateFrame(s, t, a); }
    assert InvSwitch(StepTo(s, t, a)) by { SwitchOwn(s, t, a); }
    SwitchStepKept(s, t, a);
  }

  lemma SwLeaveKept(s: Sys, t: nat)
    requires Inv(s) && t in s.threads && s.threads[t].SwLeave?
    ensures Inv(StepTo(s, t, ActSwLeave(s.shared, s.threads[t])))
  {
    hide InvGate, InvLedger, InvSwitch, InvGrants, InvCoord, InvCounted, InvSessions;
    var a := ActSwLeave(s.shared, s.threads[t]);
    SwitchFacts(s, t);
    assert InvGate(StepTo(s, t, a)) by { GateReleased(s, t, a); }
    assert InvSwitch(StepTo(s, t, a)) by { SwitchOwn(s, t, a); }
    SwitchStepKept(s, t, a);
  }

  // ---------------------------------------------------------------- the dispatch

  lemma LeaseRunKept(s: Sys, t: nat, c: Choice)
    requires Inv(s) && t in s.threads && c.rid !in s.shared.reservations
    requires IsLeasePC(s.threads[t])
    ensures Inv(StepTo(s, t, Act(s.shared, t, s.threads[t], c)))
  {
    hide Inv;
    match s.threads[t]
    case Exited => ExitedKept(s, t);
    case FirstCheck(_) => FirstCheckKept(s, t, c);
    case EnterShared(_) => EnterSharedKept(s, t);
    case ParkedShared(_, _) => ParkedSharedKept(s, t, c);
    case SecondCheck(_, _) => SecondCheckKept(s, t, c);
    case DropLease(_) => DropLeaseKept(s, t);
    case Writing(_, _) => WritingKept(s, t, c);
    case ToolBegin(_, _, _) => ToolBeginKept(s, t, c);
    case Operating(_, _, _, _) => OperatingKept(s, t);
  }

  lemma ManualRunKept(s: Sys, t: nat, c: Choice)
    requires Inv(s) && t in s.threads && c.rid !in s.shared.reservations
    requires IsManualPC(s.threads[t])
    ensures Inv(StepTo(s, t, Act(s.shared, t, s.threads[t], c)))
  {
    hide Inv;
    match s.threads[t]
    case Reserving(_) => ReservingKept(s, t, c);
    case StartingManual(_, _) => StartingManualKept(s, t);
    case AwaitingDone(_, _, _) => AwaitingDoneKept(s, t, c);
    case Activating(_, _) => ActivatingKept(s, t, c);
    case Aborting(_) => AbortingKept(s, t);
    case Completing(_) => CompletingKept(s, t, c);
    case Resetting(_, _) => ResettingKept(s, t, c);
    case Closing(_) => ClosingKept(s, t, c);
    case Finishing(_, _) => FinishingKept(s, t, c);
    case Uncounting(_) => UncountingKept(s, t);
  }

  lemma SwitchRunKept(s: Sys, t: nat, c: Choice)
    requires Inv(s) && t in s.threads && IsSwitchPC(s.threads[t])
    ensures Inv(StepTo(s, t, Act(s.shared, t, s.threads[t], c)))
  {
    hide Inv;
    match s.threads[t]
    case SwLock(_, _) => SwLockKept(s, t);
    case SwCheck(_, _) => SwCheckKept(s, t, c);
    case SwMark(_, _) => SwMarkKept(s, t);
    case SwPreempt(_, _) => SwPreemptKept(s, t, c);
    case SwEnter(_, _) => SwEnterKept(s, t);
    case SwParked(_, _, _) => SwParkedKept(s, t, c);
    case SwCleanup(_, _) => SwCleanupKept(s, t, c);
    case SwSave(_, _) => SwSaveKept(s, t, c);
    case SwRollback(_, _) => SwRollbackKept(s, t, c);
    case SwLeave(_, _, _) => SwLeaveKept(s, t);
    case SwUnmark(_, _, _) => SwUnmarkKept(s, t);
    case SwUnlock(_, _, _) => SwUnlockKept(s, t);
  }

  lemma ExitedKept(s: Sys, t: nat)
    requires Inv(s) && t in s.threads && s.threads[t].Exited?
    ensures Inv(StepTo(s, t, After(s.shared, Exited)))
  {
    assert s.threads[t := Exited] == s.threads;
  }

  lemma SpawnKept(s: Sys, t: nat, pc: PC)
    requires Inv(s) && t !in s.threads && IsStart(pc)
    ensures Inv(s.(threads := s.threads[t := pc]))
  {
    hide InvGate, InvLedger, InvSwitch, InvGrants, InvCoord, InvCounted, InvSessions;
    SpawnLeases(s, t, pc);
    SpawnSessions(s, t, pc);
  }

  lemma SpawnLeases(s: Sys, t: nat, pc: PC)
    requires InvGate(s) && InvLedger(s) && InvSwitch(s) && InvGrants(s) && t !in s.threads && IsStart(pc)
    ensures var s' := s.(threads := s.threads[t := pc]); InvGate(s') && InvLedger(s') && InvSwitch(s') && InvGrants(s')
  {
    hide InvLedger, InvGrants;
    var s' := s.(threads := s.threads[t := pc]);
    assert InvLedger(s') by { SpawnLedger(s, t, pc); }
    assert InvGrants(s') by { SpawnGrants(s, t, pc); }
  }

  lemma SpawnLedger(s: Sys, t: nat, pc: PC)
    requires InvLedger(s) && t !in s.threads && IsStart(pc)
    ensures InvLedger(s.(threads := s.threads[t := pc]))
  {
    var s' := s.(threads := s.threads[t := pc]);
    forall o
      ensures LeaseAt(s', o) == LeaseAt(s, o)
    {
    }
  }

  lemma SpawnGrants(s: Sys, t: nat, pc: PC)
    requires InvGrants(s) && t !in s.threads && IsStart(pc)
    ensures InvGrants(s.(threads := s.threads[t := pc]))
  {
    var s' := s.(threads := s.threads[t := pc]);
    assert forall q :: GrantOk(s, q) ==> GrantOk(s', q);
  }

  lemma SpawnSessions(s: Sys, t: nat, pc: PC)
    requires InvCoord(s) && InvCounted(s) && InvSessions(s) && t !in s.threads && IsStart(pc)
    ensures var s' := s.(threads := s.threads[t := pc]); InvCoord(s') && InvCounted(s') && InvSessions(s')
  {
    hide InvCoord;
    var s' := s.(threads := s.threads[t := pc]);
    assert InFlight(s'.threads) == InFlight(s.threads);
    assert InvCoord(s') by { SpawnCoord(s, t, pc); }
  }

  lemma SpawnCoord(s: Sys, t: nat, pc: PC)
    requires InvCoord(s) && t !in s.threads && IsStart(pc)
    ensures InvCoord(s.(threads := s.threads[t := pc]))
  {
    var s' := s.(threads := s.threads[t := pc]);
    if s.shared.coord.active.Some? {
      var u :| u in s.threads && s.threads[u].Operating?;
      assert u in s'.threads && s'.threads[u].Operating?;
    }
    if HIDOpen(s.shared.coord) {
      forall o
        ensures !ClearedAt(s', o)
      {
        assert !ClearedAt(s, o);
      }
    }
  }

  lemma NewSessionKept(s: Sys, x: nat)
    requires Inv(s) && x !in s.shared.sessions
    ensures Inv(WithSession(s, x))
  {
    hide InvGate, InvLedger, InvSwitch, InvGrants, InvCoord, InvCounted, InvSessions;
    NewSessionLeases(s, x);
    NewSessionCounts(s, x);
  }

  function WithSession(s: Sys, x: nat): Sys {
    s.(shared := s.shared.(sessions := s.shared.sessions[x := FRESH_SESSION]))
  }

  lemma NewSessionLeases(s: Sys, x: nat)
    requires InvGate(s) && InvLedger(s) && InvSwitch(s) && InvGrants(s) && x !in s.shared.sessions
    ensures var s' := WithSession(s, x); InvGate(s') && InvLedger(s') && InvSwitch(s') && InvGrants(s')
  {
    hide InvLedger, InvGrants;
    assert InvLedger(WithSession(s, x)) by { NewSessionLedger(s, x); }
    assert InvGrants(WithSession(s, x)) by { NewSessionGrants(s, x); }
  }

  lemma NewSessionLedger(s: Sys, x: nat)
    requires InvLedger(s) && x !in s.shared.sessions
    ensures InvLedger(WithSession(s, x))
  {
    forall o
      ensures LeaseAt(WithSession(s, x), o) == LeaseAt(s, o)
    {
    }
  }

  lemma NewSessionGrants(s: Sys, x: nat)
    requires InvGrants(s) && x !in s.shared.sessions
    ensures InvGrants(WithSession(s, x))
  {
    assert forall q :: GrantOk(s, q) ==> GrantOk(WithSession(s, x), q);
  }

  lemma NewSessionCounts(s: Sys, x: nat)
    requires InvCoord(s) && InvCounted(s) && InvSessions(s) && x !in s.shared.sessions
    ensures var s' := WithSession(s, x); InvCoord(s') && InvCounted(s') && InvSessions(s')
  {
    hide InvCoord, InvSessions;
    var s' := WithSession(s, x);
    assert ActiveSessions(s'.shared.sessions) == ActiveSessions(s.shared.sessions);
    assert InvCoord(s') by { NewSessionCoord(s, x); }
    assert InvSessions(s') by { NewSessionPending(s, x); }
  }

  lemma NewSessionCoord(s: Sys, x: nat)
    requires InvCoord(s) && x !in s.shared.sessions
    ensures InvCoord(WithSession(s, x))
  {
    if HIDOpen(s.shared.coord) {
      forall o
        ensures !ClearedAt(WithSession(s, x), o)
      {
        assert !ClearedAt(s, o);
      }
    }
  }

  lemma NewSessionPending(s: Sys, x: nat)
    requires InvSessions(s) && x !in s.shared.sessions
    ensures InvSessions(WithSession(s, x))
  {
    assert Outstanding(s.shared.reservations, x, 0) == {};
  }

  function AtTime(s: Sys, now: int): Sys {
    s.(shared := s.shared.(now := now))
  }

  lemma TickLeases(s: Sys, now: int)
    requires InvGate(s) && InvLedger(s) && InvSwitch(s)
    ensures InvGate(AtTime(s, now)) && InvLedger(AtTime(s, now)) && InvSwitch(AtTime(s, now))
  {
    forall o
      ensures LeaseAt(AtTime(s, now), o) == LeaseAt(s, o)
    {
    }
  }

  lemma TickGrants(s: Sys, now: int)
    requires InvGrants(s)
    ensures InvGrants(AtTime(s, now))
  {
    assert forall q :: GrantOk(s, q) ==> GrantOk(AtTime(s, now), q);
  }

  lemma TickSessions(s: Sys, now: int)
    requires InvCoord(s) && InvCounted(s) && InvSessions(s)
    ensures InvCoord(AtTime(s, now)) && InvCounted(AtTime(s, now)) && InvSessions(AtTime(s, now))
  {
    forall o
      ensures ClearedAt(AtTime(s, now), o) == ClearedAt(s, o)
    {
    }
  }

  lemma TickKept(s: Sys, now: int)
    requires Inv(s)
    ensures Inv(AtTime(s, now))
  {
    hide InvGate, InvLedger, InvSwitch, InvGrants, InvCoord, InvCounted, InvSessions;
    TickLeases(s, now);
    TickGrants(s, now);
    TickSessions(s, now);
  }

  lemma InitHasInv(s: Sys)
    requires IsInit(s)
    ensures Inv(s)
  {
    assert InFlight(s.threads) == {} && ActiveSessions(s.shared.sessions) == {};
  }

  /** The invariant is inductive. */
  lemma InvKept(s: Sys, e: Event)
    requires Inv(s) && Enabled(s, e)
    ensures Inv(Next(s, e))
  {
    hide Inv;
    match e
    case Run(t, c) =>
      if IsSwitchPC(s.threads[t]) { SwitchRunKept(s, t, c); }
      else if IsManualPC(s.threads[t]) { ManualRunKept(s, t, c); }
      else { LeaseRunKept(s, t, c); }
    case Spawn(t, pc) => SpawnKept(s, t, pc);
    case NewSession(x) => NewSessionKept(s, x);
    case Tick(now) => TickKept(s, now);
  }

  /** Every state of every run satisfies the invariant. */
  lemma {:induction false} InvOnRuns(states: seq<Sys>, events: seq<Event>, i: nat)
    requires IsRun(states, events) && i < |states|
    ensures Inv(states[i])
  {
    if i == 0 {
      InitHasInv(states[0]);
    } else {
      InvOnRuns(states, events, i - 1);
      InvKept(states[i - 1], events[i - 1]);
    }
  }
}
