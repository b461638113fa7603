/**
 How a thread gets what it asked for, or not: the two checks of a lease, the way of a reservation to
 an active session, closed sessions, and why operations are cancelled.
 */
module ReservationTheorems {
  import opened Wrappers
  import opened ActivityGates
  import opened ControlMode
  import opened InputControl
  import opened Arbitration
  import opened ArbitrationInvariant
  import opened ArbitrationSteps
  import opened ArbitrationTheorems
  import opened SwitchTheorems

  /** Thread t takes step i, from pc. */
  ghost predicate StepsAt(states: seq<Sys>, events: seq<Event>, i: nat, t: nat, pc: PC) {
    && IsRun(states, events) && i < |events| && events[i].Run? && events[i].t == t
    && t in states[i].threads && states[i].threads[t] == pc
  }

  lemma StepIs(states: seq<Sys>, events: seq<Event>, i: nat, t: nat, pc: PC)
    requires StepsAt(states, events, i, t, pc)
    ensures Inv(states[i]) && Enabled(states[i], events[i])
    ensures states[i + 1] == StepTo(states[i], t, Act(states[i].shared, t, pc, events[i].c))
  {
    hide Inv, Act;
    InvOnRuns(states, events, i);
    RunStep(states, events, i);
  }

  // ---------------------------------------------------------------- the checks of a lease

  /** The mode can be read, no switch is marked, and it is the mode that a writer expects. */
  predicate Welcome(m: Manager, m': Manager, goal: Goal, access: FileAccess) {
    && (access.Unreadable? ==> m.transitioning)
    && !m.transitioning
    && (goal.ForWrite? ==> m'.mode == goal.expected)
  }

  lemma CheckResults(s: Sys, t: nat, goal: Goal, c: Choice)
    requires Inv(s) && t in s.threads
    ensures s.threads[t] == FirstCheck(goal) ==>
              var a := Act(s.shared, t, s.threads[t], c);
              a.pc == if Welcome(s.shared.mgr, a.shared.mgr, goal, c.access) then EnterShared(goal) else Exited
    ensures s.threads[t].SecondCheck? && s.threads[t].goal == goal ==>
              var a, l := Act(s.shared, t, s.threads[t], c), s.threads[t].held;
              a.pc == if !Welcome(s.shared.mgr, a.shared.mgr, goal, c.access) then DropLease(l)
                      else match goal
                           case ForWrite(expected, true) => ToolBegin(HID, Executor, Some(l))
                           case ForWrite(expected, false) => Writing(expected, l)
                           case ForBackground => ToolBegin(HID, Background, Some(l))
                           case ForManual(req) => if c.allow then StartingManual(req, l) else DropLease(l)
  {
    hide InvGate, InvLedger, InvGrants, InvCoord, InvCounted, InvSessions;
  }

  /** A lease is taken only after a check that found its holder welcome; a second check, under the
      lease, decides whether it is kept, and for what. */
  lemma LeasesAreCheckedTwice(states: seq<Sys>, events: seq<Event>, i: nat, t: nat, pc: PC)
    requires StepsAt(states, events, i, t, pc) && (pc.FirstCheck? || pc.SecondCheck?)
    ensures t in states[i + 1].threads
    ensures var welcome, next :=
              Welcome(states[i].shared.mgr, states[i + 1].shared.mgr, pc.goal, events[i].c.access),
              states[i + 1].threads[t];
            && (pc.FirstCheck? ==> next == if welcome then EnterShared(pc.goal) else Exited)
            && (pc.SecondCheck? && (!welcome || (pc.goal.ForManual? && !events[i].c.allow)) ==>
                  next == DropLease(pc.held))
            && (pc.SecondCheck? && welcome ==>
                  match pc.goal
                  case ForWrite(expected, true) => next == ToolBegin(HID, Executor, Some(pc.held))
                  case ForWrite(expected, false) => next == Writing(expected, pc.held)
                  case ForBackground => next == ToolBegin(HID, Background, Some(pc.held))
                  case ForManual(req) => events[i].c.allow ==> next == StartingManual(req, pc.held))
  {
    hide Inv, Act, Welcome;
    StepIs(states, events, i, t, pc);
    CheckResults(states[i], t, pc.goal, events[i].c);
  }

  // ---------------------------------------------------------------- the way of a reservation

  /** The second check of this reservation, under lease l, which the caller allowed. */
  function AllowedUnder(req: Request, l: nat): Kind {
    (pc: PC, c: Choice, m: Manager) =>
      pc == SecondCheck(ForManual(req), l) && c.allow && !m.transitioning && !c.access.Unreadable?
  }

  predicate Past(pc: PC) {
    pc.StartingManual? || pc.AwaitingDone? || pc.Activating?
  }

  ghost predicate WasAllowed(states: seq<Sys>, events: seq<Event>, i: nat, t: nat)
    requires i < |states|
  {
    t in states[i].threads && Past(states[i].threads[t]) ==>
      Did(states, events, i, t, AllowedUnder(states[i].threads[t].req, states[i].threads[t].held))
  }

  lemma PastMoves(h: Shared, t: nat, pc: PC, c: Choice)
    requires Past(Act(h, t, pc, c).pc)
    ensures Past(pc) ==> Act(h, t, pc, c).pc.req == pc.req && Act(h, t, pc, c).pc.held == pc.held
    ensures !Past(pc) ==>
              pc == SecondCheck(ForManual(Act(h, t, pc, c).pc.req), Act(h, t, pc, c).pc.held)
              && c.allow && !Act(h, t, pc, c).shared.mgr.transitioning && !c.access.Unreadable?
  {
    hide ActManual, ActSwitch, ActLease;
    if IsManualPC(pc) {
      PastManual(h, t, pc, c);
    } else if IsSwitchPC(pc) {
      PastSwitch(h, t, pc, c);
    } else {
      PastLease(h, t, pc, c);
    }
  }

  lemma PastManual(h: Shared, t: nat, pc: PC, c: Choice)
    requires IsManualPC(pc) && Past(ActManual(h, t, pc, c).pc)
    ensures Past(pc) && ActManual(h, t, pc, c).pc.req == pc.req && ActManual(h, t, pc, c).pc.held == pc.held
  {
    hide Load, Complete, Reset, Close, BeginManual, EndManual;
  }

  lemma PastSwitch(h: Shared, t: nat, pc: PC, c: Choice)
    requires IsSwitchPC(pc)
    ensures !Past(ActSwitch(h, t, pc, c).pc)
  {
    hide Load, Save, Cancel, PassExclusive, ReleaseExclusive;
  }

  lemma PastLease(h: Shared, t: nat, pc: PC, c: Choice)
    requires IsLeasePC(pc) && Past(ActLease(h, t, pc, c).pc)
    ensures var a := ActLease(h, t, pc, c);
            && pc == SecondCheck(ForManual(a.pc.req), a.pc.held) && c.allow
            && !a.shared.mgr.transitioning && !c.access.Unreadable?
  {
    hide PassShared, Begin, EndOperation;
  }

  lemma AllowedNow(states: seq<Sys>, events: seq<Event>, i: nat, t: nat, req: Request, l: nat)
    requires IsRun(states, events) && i < |events| && events[i].Run? && events[i].t == t && t in states[i].threads
    requires states[i].threads[t] == SecondCheck(ForManual(req), l) && events[i].c.allow
    requires !states[i + 1].shared.mgr.transitioning && !events[i].c.access.Unreadable?
    ensures Did(states, events, i + 1, t, AllowedUnder(req, l))
  {
    DidNow(states, events, i, t, AllowedUnder(req, l));
  }

  lemma AllowedMoves(states: seq<Sys>, events: seq<Event>, i: nat, t: nat)
    requires IsRun(states, events) && i < |events| && WasAllowed(states, events, i, t)
    requires events[i].Run? && events[i].t == t
    ensures WasAllowed(states, events, i + 1, t)
  {
    hide Act, Did, AllowedUnder;
    RunStep(states, events, i);
    DidBefore(states, events, i, t);
    var s, c := states[i], events[i].c;
    var a := Act(s.shared, t, s.threads[t], c);
    if Past(a.pc) {
      PastMoves(s.shared, t, s.threads[t], c);
      if !Past(s.threads[t]) {
        AllowedNow(states, events, i, t, a.pc.req, a.pc.held);
      }
    }
  }

  lemma AllowedElsewhere(states: seq<Sys>, events: seq<Event>, i: nat, t: nat)
    requires IsRun(states, events) && i < |events| && WasAllowed(states, events, i, t)
    requires !(events[i].Run? && events[i].t == t)
    ensures WasAllowed(states, events, i + 1, t)
  {
    hide Act, Did, AllowedUnder;
    RunStep(states, events, i);
    DidBefore(states, events, i, t);
  }

  /** Whoever is about to activate a session was allowed to, at a second check outside any switch. */
  lemma {:induction false} AllowedOnRuns(states: seq<Sys>, events: seq<Event>, i: nat, t: nat)
    requires IsRun(states, events) && i < |states|
    ensures WasAllowed(states, events, i, t)
  {
    hide WasAllowed, Next, Enabled;
    if i == 0 {
      NobodyYet(states, events, t);
    } else {
      AllowedOnRuns(states, events, i - 1, t);
      if events[i - 1].Run? && events[i - 1].t == t {
        AllowedMoves(states, events, i - 1, t);
      } else {
        AllowedElsewhere(states, events, i - 1, t);
      }
    }
  }

  lemma NobodyYet(states: seq<Sys>, events: seq<Event>, t: nat)
    requires IsRun(states, events)
    ensures WasAllowed(states, events, 0, t)
  {
  }

  // ---------------------------------------------------------------- activation

  /** Session x becomes active in step i. */
  ghost predicate ActivatesAt(states: seq<Sys>, events: seq<Event>, i: nat, x: nat) {
    && IsRun(states, events) && i < |events| && x in states[i + 1].shared.sessions
    && states[i + 1].shared.sessions[x].active
    && (x in states[i].shared.sessions ==> !states[i].shared.sessions[x].active)
  }

  lemma ActivationStep(h: Shared, t: nat, pc: PC, c: Choice, x: nat)
    requires x in h.sessions && !h.sessions[x].active
    requires x in Act(h, t, pc, c).shared.sessions && Act(h, t, pc, c).shared.sessions[x].active
    ensures pc.Activating? && pc.req.session == x && !h.sessions[x].closed
    ensures var h', x0 := Act(h, t, pc, c).shared, h.sessions[x];
            && h'.sessions[x]
               == x0.(active := true, generation := x0.generation + 1, pending := 1, lease := Some(pc.held))
            && c.rid in h'.reservations
            && h'.reservations[c.rid] == Reservation(x, x0.generation + 1, pc.req.kind, pc.req.held,
                                                     pc.req.startCooldown, false)
  {
    hide ActManual, ActSwitch, ActLease;
    if IsManualPC(pc) {
      ActivationManual(h, t, pc, c, x);
    } else if IsSwitchPC(pc) {
      SwitchStepsAge(h, t, pc, c);
    } else {
      LeaseStepsAge(h, t, pc, c);
    }
  }

  lemma ActivationManual(h: Shared, t: nat, pc: PC, c: Choice, x: nat)
    requires IsManualPC(pc) && x in h.sessions && !h.sessions[x].active
    requires x in ActManual(h, t, pc, c).shared.sessions && ActManual(h, t, pc, c).shared.sessions[x].active
    ensures pc.Activating? && pc.req.session == x && !h.sessions[x].closed
    ensures var h', x0 := ActManual(h, t, pc, c).shared, h.sessions[x];
            && h'.sessions[x]
               == x0.(active := true, generation := x0.generation + 1, pending := 1, lease := Some(pc.held))
            && c.rid in h'.reservations
            && h'.reservations[c.rid] == Reservation(x, x0.generation + 1, pc.req.kind, pc.req.held,
                                                     pc.req.startCooldown, false)
  {
    hide Load, BeginManual, EndManual, ReleaseShared;
    if pc.Completing? || pc.Resetting? || pc.Closing? {
      EndingActivatesNothing(h, t, pc, c, x);
    }
  }

  lemma EndingActivatesNothing(h: Shared, t: nat, pc: PC, c: Choice, x: nat)
    requires pc.Completing? || pc.Resetting? || pc.Closing?
    requires x in h.sessions && !h.sessions[x].active
    ensures x in ActManual(h, t, pc, c).shared.sessions && !ActManual(h, t, pc, c).shared.sessions[x].active
  {
  }

  /** A session becomes active only by a reservation of its own that was allowed under its lease, in the
      mode that is still in force; it begins a new generation with just that reservation pending. */
  lemma SessionsAreAllowed(states: seq<Sys>, events: seq<Event>, i: nat, x: nat)
    requires ActivatesAt(states, events, i, x)
    ensures events[i].Run? && events[i].t in states[i].threads && states[i].threads[events[i].t].Activating?
    ensures var t, pc, rid := events[i].t, states[i].threads[events[i].t], events[i].c.rid;
            && pc.req.session == x && x in states[i].shared.sessions && !states[i].shared.sessions[x].closed
            && states[i + 1].shared.sessions[x].generation == states[i].shared.sessions[x].generation + 1
            && states[i + 1].shared.sessions[x].pending == 1
            && states[i + 1].shared.sessions[x].lease == Some(pc.held)
            && rid in states[i + 1].shared.reservations
            && states[i + 1].shared.reservations[rid]
               == Reservation(x, states[i + 1].shared.sessions[x].generation, pc.req.kind, pc.req.held,
                              pc.req.startCooldown, false)
            && exists k: nat :: k < i && events[k].Run? && events[k].t == t && t in states[k].threads
                 && states[k].threads[t] == SecondCheck(ForManual(pc.req), pc.held) && events[k].c.allow
                 && states[k + 1].shared.mgr.mode == states[i].shared.mgr.mode
  {
    hide Inv, Act, Did;
    RunStep(states, events, i);
    InvOnRuns(states, events, i);
    ActivatingEvent(states[i], events[i], x);
    var t := events[i].t;
    var pc := states[i].threads[t];
    ActivationStep(states[i].shared, t, pc, events[i].c, x);
    AllowedOnRuns(states, events, i, t);
    ModeIsStill(states, events, i, t);
  }

  lemma ActivatingEvent(s: Sys, e: Event, x: nat)
    requires Enabled(s, e) && x in Next(s, e).shared.sessions && Next(s, e).shared.sessions[x].active
    requires x in s.shared.sessions ==> !s.shared.sessions[x].active
    requires Inv(s)
    ensures e.Run? && x in s.shared.sessions
  {
    hide Inv, Act;
    if e.Run? {
      KeepsItsSessions(s, e.t, s.threads[e.t], e.c, x);
    }
  }

  lemma KeepsItsSessions(s: Sys, t: nat, pc: PC, c: Choice, x: nat)
    requires Inv(s) && x in Act(s.shared, t, pc, c).shared.sessions
    ensures x in s.shared.sessions
  {
    hide Inv, Load, BeginManual, EndManual, ReleaseShared, Complete, Reset, Close, ActLease, ActSwitch;
    if IsSwitchPC(pc) {
      SwitchStepsAge(s.shared, t, pc, c);
    } else if IsLeasePC(pc) {
      LeaseStepsAge(s.shared, t, pc, c);
    }
  }

  lemma ModeIsStill(states: seq<Sys>, events: seq<Event>, i: nat, t: nat)
    requires IsRun(states, events) && i < |states| && t in states[i].threads && states[i].threads[t].Activating?
    requires WasAllowed(states, events, i, t)
    ensures var pc := states[i].threads[t];
            exists k: nat :: k < i && events[k].Run? && events[k].t == t && t in states[k].threads
              && states[k].threads[t] == SecondCheck(ForManual(pc.req), pc.held) && events[k].c.allow
              && states[k + 1].shared.mgr.mode == states[i].shared.mgr.mode
  {
    hide Inv, Next, Enabled;
    var pc := states[i].threads[t];
    var k: nat :| k < i && Took(states, events, k, t, AllowedUnder(pc.req, pc.held));
    InvOnRuns(states, events, i);
    HeldIsOpen(states[i], t);
    assert states[k].threads[t] == SecondCheck(ForManual(pc.req), pc.held);
    CheckGrants(states, events, k, t);
    LeaseSeesOneMode(states, events, k + 1, i, pc.held);
  }

  lemma HeldIsOpen(s: Sys, t: nat)
    requires Inv(s) && t in s.threads && s.threads[t].Activating?
    ensures s.threads[t].held !in s.shared.spent
  {
    HeldLeaseCounts(s, Thread(t));
  }

  lemma CheckGrants(states: seq<Sys>, events: seq<Event>, k: nat, t: nat)
    requires IsRun(states, events) && k < |events| && events[k].Run? && events[k].t == t && t in states[k].threads
    requires states[k].threads[t].SecondCheck? && states[k].threads[t].goal.ForManual?
    requires events[k].c.allow && !states[k + 1].shared.mgr.transitioning && !events[k].c.access.Unreadable?
    ensures states[k].threads[t].held in states[k + 1].shared.grants
  {
    hide Inv;
    RunStep(states, events, k);
  }

  // ---------------------------------------------------------------- waiting, and giving up

  /** A reservation that waits for an operation goes on once that is over, unless its own context has
      ended; then it gives up. */
  lemma WaitingEnds(states: seq<Sys>, events: seq<Event>, i: nat, t: nat, pc: PC)
    requires StepsAt(states, events, i, t, pc) && pc.AwaitingDone?
    ensures t in states[i + 1].threads && states[i + 1].shared == states[i].shared
    ensures states[i + 1].threads[t] ==
              if events[i].c.ctxDone then Aborting(pc.held)
              else if pc.id in states[i].shared.coord.done then Activating(pc.req, pc.held)
              else pc
  {
    hide Inv;
    StepIs(states, events, i, t, pc);
  }

  // ---------------------------------------------------------------- closed sessions

  lemma ClosingStep(h: Shared, t: nat, x: nat, c: Choice)
    requires x in h.sessions
    ensures x in Act(h, t, Closing(x), c).shared.sessions && Act(h, t, Closing(x), c).shared.sessions[x].closed
  {
  }

  lemma {:induction false} ClosedStays(states: seq<Sys>, events: seq<Event>, i: nat, j: nat, x: nat)
    requires IsRun(states, events) && i <= j < |states|
    requires x in states[i].shared.sessions && states[i].shared.sessions[x].closed
    ensures x in states[j].shared.sessions && states[j].shared.sessions[x].closed
    decreases j
  {
    hide Next, Enabled;
    if i < j {
      ClosedStays(states, events, i, j - 1, x);
      RunStep(states, events, j - 1);
      StepAges(states[j - 1], events[j - 1]);
    }
  }

  /** A session that is closed is closed for the rest of the run: it is never active again, and has
      nothing pending. */
  lemma ClosedForGood(states: seq<Sys>, events: seq<Event>, i: nat, j: nat, t: nat, x: nat)
    requires StepsAt(states, events, i, t, Closing(x)) && x in states[i].shared.sessions && i < j < |states|
    ensures x in states[j].shared.sessions
    ensures var y := states[j].shared.sessions[x]; y.closed && !y.active && y.pending == 0 && y.lease == None
  {
    hide Inv, Act;
    StepIs(states, events, i, t, Closing(x));
    ClosingStep(states[i].shared, t, x, events[i].c);
    ClosedStays(states, events, i + 1, j, x);
    SessionsEndWhenIdle(states[j], states, events, j, x);
    InvOnRuns(states, events, j);
    SessionFacts(states[j], x);
  }

  // ---------------------------------------------------------------- why operations are cancelled

  /** What a step makes of the cause that the operation under way was cancelled for. */
  function CauseAfter(cause: Option<Cause>, kind: OperationKind, pc: PC, c: Choice): Option<Cause> {
    if cause.Some? then cause
    else if pc.StartingManual? && kind.HID? then Some(Preempted)
    else if pc.SwPreempt? && c.cancels then Some(ModeChanged)
    else None
  }

  ghost predicate SameOperation(a: Coordinator, b: Coordinator) {
    a.active.Some? && b.active.Some? && a.active.value.id == b.active.value.id
  }

  lemma CauseOfStep(h: Shared, t: nat, pc: PC, c: Choice)
    requires SameOperation(h.coord, Act(h, t, pc, c).shared.coord)
    requires h.coord.active.value.id <= h.coord.nextID
    ensures var was, now := h.coord.active.value, Act(h, t, pc, c).shared.coord.active.value;
            now.kind == was.kind && now.cause == CauseAfter(was.cause, was.kind, pc, c)
  {
    hide ActManual, ActSwitch, ActLease;
    if IsManualPC(pc) {
      CauseOfManual(h, t, pc, c);
    } else if IsSwitchPC(pc) {
      CauseOfSwitch(h, t, pc, c);
    } else {
      CauseOfLease(h, t, pc, c);
    }
  }

  lemma CauseOfManual(h: Shared, t: nat, pc: PC, c: Choice)
    requires IsManualPC(pc) && SameOperation(h.coord, ActManual(h, t, pc, c).shared.coord)
    ensures var was, now := h.coord.active.value, ActManual(h, t, pc, c).shared.coord.active.value;
            now.kind == was.kind && now.cause == CauseAfter(was.cause, was.kind, pc, c)
  {
    hide ReleaseShared, Load, Complete, Reset, Close;
  }

  lemma CauseOfSwitch(h: Shared, t: nat, pc: PC, c: Choice)
    requires IsSwitchPC(pc) && SameOperation(h.coord, ActSwitch(h, t, pc, c).shared.coord)
    ensures var was, now := h.coord.active.value, ActSwitch(h, t, pc, c).shared.coord.active.value;
            now.kind == was.kind && now.cause == CauseAfter(was.cause, was.kind, pc, c)
  {
    hide PassExclusive, ReleaseExclusive, Load, Save;
  }

  lemma CauseOfLease(h: Shared, t: nat, pc: PC, c: Choice)
    requires IsLeasePC(pc) && SameOperation(h.coord, ActLease(h, t, pc, c).shared.coord)
    requires h.coord.active.value.id <= h.coord.nextID
    ensures var was, now := h.coord.active.value, ActLease(h, t, pc, c).shared.coord.active.value;
            now.kind == was.kind && now.cause == CauseAfter(was.cause, was.kind, pc, c)
  {
    hide PassShared, ReleaseShared, Load;
  }

  lemma NumbersOk(s: Sys)
    requires Inv(s)
    ensures s.shared.coord.active.Some? ==> s.shared.coord.active.value.id <= s.shared.coord.nextID
  {
  }

  /** An operation is cancelled by a manual session only if it is on the HID lane, and by a mode switch
      only if the switch preempts it; whichever comes first stays the cause. */
  lemma OperationsKeepTheirCause(states: seq<Sys>, events: seq<Event>, i: nat)
    requires IsRun(states, events) && i < |events|
    requires SameOperation(states[i].shared.coord, states[i + 1].shared.coord)
    ensures var was, now := states[i].shared.coord.active.value, states[i + 1].shared.coord.active.value;
            now.kind == was.kind
            && now.cause == if events[i].Run? && events[i].t in states[i].threads
                            then CauseAfter(was.cause, was.kind, states[i].threads[events[i].t], events[i].c)
                            else was.cause
  {
    hide Act, Inv;
    RunStep(states, events, i);
    InvOnRuns(states, events, i);
    NumbersOk(states[i]);
    if events[i].Run? {
      CauseOfStep(states[i].shared, events[i].t, states[i].threads[events[i].t], events[i].c);
    }
  }

  // ---------------------------------------------------------------- nothing in the way

  /** The system after a thread has taken this many steps by itself. */
  function Alone(s: Sys, t: nat, c: Choice, n: nat): Sys
    requires t in s.threads
    ensures t in Alone(s, t, c, n).threads
  {
    if n == 0 then s
    else
      var before := Alone(s, t, c, n - 1);
      StepTo(before, t, Act(before.shared, t, before.threads[t], c))
  }

  /** The mode can be read, no switch is under way, and the caller allows the report. */
  predicate Willing(s: Sys, c: Choice) {
    !c.access.Unreadable? && c.allow && !s.shared.mgr.transitioning && !s.shared.gate.exclusive
  }

  lemma AloneNext(s: Sys, t: nat, c: Choice, n: nat)
    requires t in s.threads
    ensures Alone(s, t, c, 0) == s
    ensures var s', a := Alone(s, t, c, n + 1), Act(Alone(s, t, c, n).shared, t, Alone(s, t, c, n).threads[t], c);
            s'.shared == a.shared && s'.threads[t] == a.pc
  {
    hide Act;
  }

  predicate IdleSession(h: Shared, x: nat) {
    x in h.sessions && !h.sessions[x].closed && !h.sessions[x].active
  }

  lemma ActsUpToCheck(h: Shared, t: nat, req: Request, c: Choice)
    requires !c.access.Unreadable? && !h.mgr.transitioning && IdleSession(h, req.session)
    ensures Act(h, t, Reserving(req), c) == After(h, FirstCheck(ForManual(req)))
    ensures var a := Act(h, t, FirstCheck(ForManual(req)), c);
            && a.pc == EnterShared(ForManual(req)) && !a.shared.mgr.transitioning
            && a.shared == h.(mgr := a.shared.mgr)
  {
  }

  lemma ActEntersShared(h: Shared, t: nat, goal: Goal, c: Choice)
    requires !h.gate.exclusive
    ensures var a := Act(h, t, EnterShared(goal), c);
            && a.pc == SecondCheck(goal, h.leases) && a.shared.gate.active == h.gate.active + 1
            && a.shared.sessions == h.sessions && a.shared.coord == h.coord && a.shared.mgr == h.mgr
  {
  }

  lemma ActsFromCheck(h: Shared, t: nat, req: Request, c: Choice, l: nat)
    requires !c.access.Unreadable? && c.allow && !h.mgr.transitioning
    ensures var a := Act(h, t, SecondCheck(ForManual(req), l), c);
            && a.pc == StartingManual(req, l) && a.shared.sessions == h.sessions && a.shared.coord == h.coord
            && a.shared.gate == h.gate
  {
  }

  lemma ActStartsManual(h: Shared, t: nat, req: Request, c: Choice, l: nat)
    requires !HIDOpen(h.coord)
    ensures var a := Act(h, t, StartingManual(req, l), c);
            a.pc == Activating(req, l) && a.shared.sessions == h.sessions && a.shared.gate == h.gate
            && a.shared.coord.manualSessions == h.coord.manualSessions + 1
  {
  }

  lemma ActActivates(h: Shared, t: nat, req: Request, c: Choice, l: nat)
    requires IdleSession(h, req.session)
    ensures var a, x := Act(h, t, Activating(req, l), c), h.sessions[req.session];
            && a.pc == Exited && a.shared.gate == h.gate && a.shared.coord == h.coord && c.rid in a.shared.reservations
            && req.session in a.shared.sessions
            && a.shared.sessions[req.session]
               == x.(active := true, generation := x.generation + 1, pending := 1, lease := Some(l))
  {
  }

  lemma AloneUpToCheck(s: Sys, t: nat, req: Request, c: Choice)
    requires t in s.threads && s.threads[t] == Reserving(req) && Willing(s, c) && IdleSession(s.shared, req.session)
    ensures var s3 := Alone(s, t, c, 3);
            && s3.threads[t] == SecondCheck(ForManual(req), s.shared.leases)
            && s3.shared.sessions == s.shared.sessions && s3.shared.coord == s.shared.coord
            && !s3.shared.mgr.transitioning && s3.shared.gate.active == s.shared.gate.active + 1
  {
    hide Act, Alone;
    AloneNext(s, t, c, 0);
    AloneNext(s, t, c, 1);
    AloneNext(s, t, c, 2);
    ActsUpToCheck(s.shared, t, req, c);
    ActEntersShared(Alone(s, t, c, 2).shared, t, ForManual(req), c);
  }

  lemma AloneFromCheck(s: Sys, t: nat, req: Request, c: Choice, l: nat)
    requires t in s.threads && s.threads[t] == SecondCheck(ForManual(req), l)
    requires !c.access.Unreadable? && c.allow && !s.shared.mgr.transitioning && !HIDOpen(s.shared.coord)
    requires IdleSession(s.shared, req.session)
    ensures var s3, x := Alone(s, t, c, 3), s.shared.sessions[req.session];
            && s3.threads[t] == Exited && req.session in s3.shared.sessions
            && s3.shared.sessions[req.session]
               == x.(active := true, generation := x.generation + 1, pending := 1, lease := Some(l))
            && s3.shared.coord.manualSessions == s.shared.coord.manualSessions + 1
            && c.rid in s3.shared.reservations && s3.shared.gate == s.shared.gate
  {
    hide Act, Alone;
    AloneNext(s, t, c, 0);
    AloneNext(s, t, c, 1);
    AloneNext(s, t, c, 2);
    ActsFromCheck(s.shared, t, req, c, l);
    ActStartsManual(Alone(s, t, c, 1).shared, t, req, c, l);
    ActActivates(Alone(s, t, c, 2).shared, t, req, c, l);
  }

  lemma {:induction false} AloneTwice(s: Sys, t: nat, c: Choice, m: nat, n: nat)
    requires t in s.threads
    ensures Alone(Alone(s, t, c, m), t, c, n) == Alone(s, t, c, m + n)
  {
    hide Act, StepTo;
    if n > 0 {
      AloneTwice(s, t, c, m, n - 1);
    }
  }

  /** With nothing in its way a reservation of an idle session takes six steps to activate it: it is
      counted, takes a lease, and the session keeps that for its new generation. */
  lemma UndisturbedReservation(s: Sys, t: nat, req: Request, c: Choice)
    requires t in s.threads && s.threads[t] == Reserving(req) && Willing(s, c) && !HIDOpen(s.shared.coord)
    requires IdleSession(s.shared, req.session)
    ensures var s6, x := Alone(s, t, c, 6), s.shared.sessions[req.session];
            && s6.threads[t] == Exited && req.session in s6.shared.sessions
            && s6.shared.sessions[req.session]
               == x.(active := true, generation := x.generation + 1, pending := 1, lease := Some(s.shared.leases))
            && s6.shared.coord.manualSessions == s.shared.coord.manualSessions + 1
            && s6.shared.gate.active == s.shared.gate.active + 1 && c.rid in s6.shared.reservations
  {
    hide Alone;
    AloneUpToCheck(s, t, req, c);
    AloneFromCheck(Alone(s, t, c, 3), t, req, c, s.shared.leases);
    AloneTwice(s, t, c, 3, 3);
  }
}
