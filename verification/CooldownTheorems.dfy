/**
 When a manual session ends with a cooldown, and what that keeps out: from the completion that ends
 the session, through its uncounting, to the next operation on the HID lane.
 */
module CooldownTheorems {
  import opened Wrappers
  import opened ActivityGates
  import opened ControlMode
  import opened InputControl
  import opened Arbitration
  import opened ArbitrationInvariant
  import opened ArbitrationSteps
  import opened ArbitrationTheorems

  // ---------------------------------------------------------------- who asked for a cooldown

  predicate Asks(r: Reservation, x: nat, generation: nat) {
    r.session == x && r.generation == generation && r.once && r.startCooldown
  }

  /** A completed reservation of that activation of session x asked for a cooldown. */
  ghost predicate Asked(rs: map<nat, Reservation>, x: nat, generation: nat) {
    exists r :: r in rs && Asks(rs[r], x, generation)
  }

  /** The session remembers exactly whether one of its activation asked. */
  ghost predicate Remembers(h: Shared, x: nat)
    requires x in h.sessions
  {
    h.sessions[x].cooldownOnIdle <==> h.sessions[x].active && Asked(h.reservations, x, h.sessions[x].generation)
  }

  ghost predicate InvCooldown(h: Shared) {
    forall x :: x in h.sessions ==> Remembers(h, x)
  }

  lemma AskedUpdated(rs: map<nat, Reservation>, rid: nat, r: Reservation, x: nat, generation: nat)
    requires rid in rs ==> !rs[rid].once
    ensures Asked(rs[rid := r], x, generation) <==> Asked(rs, x, generation) || Asks(r, x, generation)
  {
    var rs' := rs[rid := r];
    if Asked(rs, x, generation) {
      var q :| q in rs && Asks(rs[q], x, generation);
      assert q in rs' && Asks(rs'[q], x, generation);
    }
    if Asks(r, x, generation) {
      assert rid in rs' && Asks(rs'[rid], x, generation);
    }
  }

  /** Nobody has asked in a generation that has not begun. */
  lemma NobodyAskedYet(s: Sys, x: nat)
    requires InvSessions(s) && x in s.shared.sessions
    ensures !Asked(s.shared.reservations, x, s.shared.sessions[x].generation + 1)
  {
  }

  lemma ReservedRemembers(s: Sys, h: Shared, x: nat, rid: nat, r: Reservation, x1: Session)
    requires InvSessions(s) && InvCooldown(s.shared) && x in s.shared.sessions && rid !in s.shared.reservations
    requires !r.once && h.sessions == s.shared.sessions[x := x1] && h.reservations == s.shared.reservations[rid := r]
    requires var x0 := s.shared.sessions[x];
             || x1 == AddPending(x0)
             || (!x0.active && x1.generation == x0.generation + 1 && x1.cooldownOnIdle == x0.cooldownOnIdle)
    ensures InvCooldown(h)
  {
    NobodyAskedYet(s, x);
    forall y | y in h.sessions
      ensures Remembers(h, y)
    {
      assert Remembers(s.shared, y);
      AskedUpdated(s.shared.reservations, rid, r, y, h.sessions[y].generation);
    }
  }

  /** What a completion makes of the memory. */
  lemma CompleteRemembers(x: Session, r: Reservation, success: bool)
    requires SessionOk(x) && (r.generation == x.generation ==> x.active && x.pending > 0)
    ensures var after := Complete(x, r.generation, r.kind, r.held, success, r.startCooldown);
            && after.0.generation == x.generation
            && (r.generation != x.generation ==> after == (x, Stays))
            && (r.generation == x.generation ==>
                  && (after.1.Stays? ==>
                        after.0.active && (after.0.cooldownOnIdle <==> x.cooldownOnIdle || r.startCooldown))
                  && (after.1.Ends? ==>
                        && !after.0.active && !after.0.cooldownOnIdle
                        && (after.1.startCooldown <==> x.cooldownOnIdle || r.startCooldown)))
  {
  }

  lemma CompletingRemembers(s: Sys, t: nat, c: Choice, rid: nat)
    requires Inv(s) && InvCooldown(s.shared) && t in s.threads && s.threads[t] == Completing(rid)
    ensures var a := ActCompleting(s.shared, t, s.threads[t], c);
            && InvCooldown(a.shared)
            && (a.pc.Finishing? ==>
                  && rid in s.shared.reservations && s.shared.reservations[rid].session in s.shared.sessions
                  && var r := s.shared.reservations[rid];
                     r.generation == s.shared.sessions[r.session].generation
                     && (a.pc.cooldown <==> Asked(a.shared.reservations, r.session, r.generation)))
  {
    hide Inv, Complete, Asked;
    if rid in s.shared.reservations && !s.shared.reservations[rid].once {
      var r := s.shared.reservations[rid];
      ReservationFacts(s, rid);
      SessionFacts(s, r.session);
      CompleteRemembers(s.shared.sessions[r.session], r, c.success);
      var h := ActCompleting(s.shared, t, s.threads[t], c).shared;
      forall y | y in h.sessions
        ensures Remembers(h, y)
      {
        assert Remembers(s.shared, y);
        AskedUpdated(s.shared.reservations, rid, r.(once := true), y, h.sessions[y].generation);
      }
      AskedUpdated(s.shared.reservations, rid, r.(once := true), r.session, r.generation);
      assert Remembers(s.shared, r.session);
    }
  }

  lemma ResetRemembers(x: Session, kind: ReportKind)
    requires SessionOk(x)
    ensures var after := Reset(x, kind);
            && after.0.generation == x.generation
            && (after.1.Stays? ==> after.0.active == x.active && after.0.cooldownOnIdle == x.cooldownOnIdle)
            && (after.1.Ends? ==> !after.0.active && !after.0.cooldownOnIdle && after.1.startCooldown)
  {
  }

  lemma CloseRemembers(x: Session)
    requires SessionOk(x)
    ensures var after := Close(x);
            && !after.0.active && !after.0.cooldownOnIdle
            && (after.1.Ends? ==> after.1.startCooldown)
  {
  }

  lemma EndingRemembers(s: Sys, t: nat, pc: PC, c: Choice)
    requires Inv(s) && InvCooldown(s.shared) && (pc.Resetting? || pc.Closing?)
    ensures var a := ActManual(s.shared, t, pc, c);
            InvCooldown(a.shared) && (a.pc.Finishing? ==> a.pc.cooldown)
  {
    hide Inv, Reset, Close, Asked;
    if pc.session in s.shared.sessions {
      SessionFacts(s, pc.session);
      if pc.Resetting? { ResetRemembers(s.shared.sessions[pc.session], pc.report); }
      CloseRemembers(s.shared.sessions[pc.session]);
      var h := ActManual(s.shared, t, pc, c).shared;
      forall y | y in h.sessions
        ensures Remembers(h, y)
      {
        assert Remembers(s.shared, y);
      }
    }
  }

  lemma ReservingRemembers(s: Sys, pc: PC, c: Choice)
    requires Inv(s) && InvCooldown(s.shared) && pc.Reserving? && c.rid !in s.shared.reservations
    ensures InvCooldown(ActReserving(s.shared, pc, c).shared)
  {
    hide InvGate, InvLedger, InvSwitch, InvGrants, InvCoord, InvCounted, InvSessions, InvCooldown;
    var h := ActReserving(s.shared, pc, c).shared;
    if h.sessions != s.shared.sessions {
      var x := s.shared.sessions[pc.req.session];
      ReservedRemembers(s, h, pc.req.session, c.rid, JoinReservation(x, pc.req), AddPending(x));
    } else {
      SameSessions(s.shared, h);
    }
  }

  lemma SameSessions(h: Shared, h': Shared)
    requires InvCooldown(h) && h'.sessions == h.sessions && h'.reservations == h.reservations
    ensures InvCooldown(h')
  {
    forall x | x in h'.sessions
      ensures Remembers(h', x)
    {
      assert Remembers(h, x);
    }
  }

  lemma ActivatingRemembers(s: Sys, pc: PC, c: Choice)
    requires Inv(s) && InvCooldown(s.shared) && pc.Activating? && c.rid !in s.shared.reservations
    ensures InvCooldown(ActActivating(s.shared, pc, c).shared)
  {
    hide InvGate, InvLedger, InvSwitch, InvGrants, InvCoord, InvCounted, InvSessions, InvCooldown;
    var h := ActActivating(s.shared, pc, c).shared;
    if pc.req.session in s.shared.sessions && !s.shared.sessions[pc.req.session].closed {
      var x := s.shared.sessions[pc.req.session];
      if x.active {
        ReservedRemembers(s, h, pc.req.session, c.rid, JoinReservation(x, pc.req), AddPending(x));
      } else {
        ReservedRemembers(s, h, pc.req.session, c.rid, NewReservation(Activate(x, pc.held), pc.req),
          Activate(x, pc.held));
      }
    }
  }

  lemma ActRemembers(s: Sys, t: nat, c: Choice)
    requires Inv(s) && InvCooldown(s.shared) && t in s.threads && c.rid !in s.shared.reservations
    ensures InvCooldown(Act(s.shared, t, s.threads[t], c).shared)
  {
    hide Inv, InvCooldown, ActSwitch, ActLease, ActReserving, ActActivating, ActCompleting, ActResetting, ActClosing;
    var pc := s.threads[t];
    var h := Act(s.shared, t, pc, c).shared;
    if IsSwitchPC(pc) {
      SwitchStepsAge(s.shared, t, pc, c);
      SameSessions(s.shared, h);
    } else if IsLeasePC(pc) {
      LeaseStepsAge(s.shared, t, pc, c);
      SameSessions(s.shared, h);
    } else if pc.Reserving? {
      ReservingRemembers(s, pc, c);
    } else if pc.Activating? {
      ActivatingRemembers(s, pc, c);
    } else if pc.Completing? {
      CompletingRemembers(s, t, c, pc.reservation);
    } else if pc.Resetting? || pc.Closing? {
      EndingRemembers(s, t, pc, c);
    } else {
      CountingAges(s.shared, t, pc, c);
      SameSessions(s.shared, h);
    }
  }

  lemma StepRemembers(s: Sys, e: Event)
    requires Inv(s) && InvCooldown(s.shared) && Enabled(s, e)
    ensures InvCooldown(Next(s, e).shared)
  {
    hide Inv, Act;
    match e {
      case Run(t, c) =>
        hide InvCooldown;
        ActRemembers(s, t, c);
      case NewSession(x) =>
        forall y | y in Next(s, e).shared.sessions
          ensures Remembers(Next(s, e).shared, y)
        {
          if y != x { assert Remembers(s.shared, y); }
        }
      case _ => SameSessions(s.shared, Next(s, e).shared);
    }
  }

  /** In every reachable state an active session is due a cooldown exactly if a reservation that was
      completed in its present activation asked for one. */
  lemma {:induction false} CooldownIsRemembered(states: seq<Sys>, events: seq<Event>, i: nat)
    requires IsRun(states, events) && i < |states|
    ensures InvCooldown(states[i].shared)
  {
    hide Next, Enabled, Inv;
    if i > 0 {
      CooldownIsRemembered(states, events, i - 1);
      InvOnRuns(states, events, i - 1);
      RunStep(states, events, i - 1);
      StepRemembers(states[i - 1], events[i - 1]);
    }
  }

  // ---------------------------------------------------------------- which endings start a cooldown

  /** Thread t ends a manual session in step i. */
  ghost predicate EndsSession(states: seq<Sys>, events: seq<Event>, i: nat, t: nat, pc: PC) {
    && IsRun(states, events) && i < |events| && events[i].Run? && events[i].t == t
    && t in states[i].threads && states[i].threads[t] == pc
    && t in states[i + 1].threads && states[i + 1].threads[t].Finishing?
  }

  /** A completion that ends a session starts a cooldown exactly if some reservation completed in
      this activation asked for one; a reset or a close that ends a session always does. */
  lemma EndingsThatCoolDown(states: seq<Sys>, events: seq<Event>, i: nat, t: nat, pc: PC)
    requires EndsSession(states, events, i, t, pc)
    requires pc.Completing? || pc.Resetting? || pc.Closing?
    ensures pc.Completing? ==>
              && pc.reservation in states[i].shared.reservations
              && var r := states[i].shared.reservations[pc.reservation];
                 r.session in states[i].shared.sessions && states[i].shared.sessions[r.session].active
                 && r.generation == states[i].shared.sessions[r.session].generation
                 && (states[i + 1].threads[t].cooldown <==>
                       Asked(states[i + 1].shared.reservations, r.session, r.generation))
    ensures pc.Resetting? || pc.Closing? ==> states[i + 1].threads[t].cooldown
  {
    hide Next, Enabled, Inv, InvCooldown, Asked;
    RunStep(states, events, i);
    InvOnRuns(states, events, i);
    CooldownIsRemembered(states, events, i);
    ManualStep(states, events, i, t);
    if pc.Completing? {
      CompletingRemembers(states[i], t, events[i].c, pc.reservation);
      EndedWasActive(states[i].shared, t, pc, events[i].c);
    } else {
      EndingRemembers(states[i], t, pc, events[i].c);
    }
  }

  lemma EndedWasActive(h: Shared, t: nat, pc: PC, c: Choice)
    requires pc.Completing? && ActCompleting(h, t, pc, c).pc.Finishing?
    ensures pc.reservation in h.reservations && h.reservations[pc.reservation].session in h.sessions
    ensures h.sessions[h.reservations[pc.reservation].session].active
  {
  }

  /** The step of a thread of the manual input. */
  lemma ManualStep(states: seq<Sys>, events: seq<Event>, i: nat, t: nat)
    requires IsRun(states, events) && i < |events| && t in states[i].threads && IsManualPC(states[i].threads[t])
    requires events[i].Run? && events[i].t == t
    ensures var a := ActManual(states[i].shared, t, states[i].threads[t], events[i].c);
            t in states[i + 1].threads && states[i + 1].threads[t] == a.pc && states[i + 1].shared == a.shared
  {
    hide ActSwitch, ActManual, ActLease;
    RunStep(states, events, i);
  }

  // ---------------------------------------------------------------- from an ending to the next tool

  /** The step in which thread t uncounts a session that ended with a cooldown. */
  ghost predicate UncountsAt(states: seq<Sys>, events: seq<Event>, k: nat, t: nat) {
    && k < |events| && k < |states| && events[k].Run? && events[k].t == t
    && t in states[k].threads && states[k].threads[t] == Uncounting(true)
  }

  predicate EndingPC(pc: PC) {
    (pc.Finishing? && pc.cooldown) || pc == Uncounting(true)
  }

  lemma EndingMoves(states: seq<Sys>, events: seq<Event>, i: nat, t: nat)
    requires IsRun(states, events) && i < |events| && t in states[i].threads && EndingPC(states[i].threads[t])
    ensures t in states[i + 1].threads
    ensures EndingPC(states[i + 1].threads[t]) || UncountsAt(states, events, i, t)
  {
    hide Next, Enabled, ReleaseShared, EndManual;
    RunStep(states, events, i);
    if events[i].Run? && events[i].t == t {
      ManualStep(states, events, i, t);
    } else {
      OthersStay(states[i], events[i], t);
    }
  }

  lemma OthersStay(s: Sys, e: Event, t: nat)
    requires Enabled(s, e) && t in s.threads && !(e.Run? && e.t == t)
    ensures t in Next(s, e).threads && Next(s, e).threads[t] == s.threads[t]
  {
    hide Act;
  }

  /** A session that is ending is counted until its thread uncounts it. */
  lemma {:induction false} EndingIsUncounted(states: seq<Sys>, events: seq<Event>, i: nat, j: nat, t: nat)
    requires IsRun(states, events) && i <= j < |states|
    requires t in states[i].threads && EndingPC(states[i].threads[t])
    ensures t in states[j].threads
    ensures EndingPC(states[j].threads[t]) || exists k: nat :: i <= k < j && UncountsAt(states, events, k, t)
    decreases j
  {
    hide Next, Enabled, UncountsAt;
    if i < j {
      EndingIsUncounted(states, events, i, j - 1, t);
      if EndingPC(states[j - 1].threads[t]) {
        EndingMoves(states, events, j - 1, t);
      } else {
        StillThere(states, events, j - 1, t);
      }
    }
  }

  lemma StillThere(states: seq<Sys>, events: seq<Event>, i: nat, t: nat)
    requires IsRun(states, events) && i < |events| && t in states[i].threads
    ensures t in states[i + 1].threads
  {
    hide Act;
    RunStep(states, events, i);
  }

  lemma {:induction false} TimeGoesOn(states: seq<Sys>, events: seq<Event>, i: nat, j: nat)
    requires IsRun(states, events) && i <= j < |states|
    ensures states[i].shared.now <= states[j].shared.now
    decreases j
  {
    hide Next, Enabled;
    if i < j {
      TimeGoesOn(states, events, i, j - 1);
      RunStep(states, events, j - 1);
      TimeStep(states[j - 1], events[j - 1]);
    }
  }

  lemma TimeStep(s: Sys, e: Event)
    requires Enabled(s, e)
    ensures s.shared.now <= Next(s, e).shared.now
  {
    hide Act;
    if e.Run? { ActKeepsTime(s.shared, e.t, s.threads[e.t], e.c); }
  }

  lemma ActKeepsTime(h: Shared, t: nat, pc: PC, c: Choice)
    ensures Act(h, t, pc, c).shared.now == h.now
  {
    hide ActManual, ActSwitch, ActLease;
    if IsManualPC(pc) {
      ManualKeepsTime(h, t, pc, c);
    } else if IsSwitchPC(pc) {
      UntilSwitch(h, t, pc, c);
    } else {
      UntilLease(h, t, pc, c);
    }
  }

  lemma ManualKeepsTime(h: Shared, t: nat, pc: PC, c: Choice)
    requires IsManualPC(pc)
    ensures ActManual(h, t, pc, c).shared.now == h.now
  {
    hide ReleaseShared, Load, Complete, Reset, Close;
  }

  /** After an ending with a cooldown no operation opens on the HID lane before the thread has
      uncounted the session, and none opens before the cooldown is over if it was the last one then. */
  lemma EndingKeepsToolsOut(states: seq<Sys>, events: seq<Event>, i: nat, j: nat, t: nat)
    requires IsRun(states, events) && states[0].shared.coord.manualUntil.None? && i <= j < |events|
    requires t in states[i].threads && EndingPC(states[i].threads[t])
    requires Enabled(states[j], events[j]) && OpensHID(states[j], events[j])
    ensures exists k: nat :: i <= k < j && UncountsAt(states, events, k, t)
              && states[k].shared.now >= states[i].shared.now
              && (states[k].shared.coord.manualSessions == 1 ==>
                    states[j].shared.now >= states[k].shared.now + Cooldown(states[k].shared.coord))
  {
    hide Next, Enabled, OpensHID, Inv, IsInit, InFlight;
    EndingIsUncounted(states, events, i, j, t);
    InvOnRuns(states, events, j);
    OpeningIsLate(states[j], events[j]);
    if EndingPC(states[j].threads[t]) {
      EndingIsCounted(states[j].threads, t);
    }
    var k: nat :| i <= k < j && UncountsAt(states, events, k, t);
    TimeGoesOn(states, events, i, k);
    if states[k].shared.coord.manualSessions == 1 {
      CooldownKeepsToolsOut(states, events, k, j, t);
    }
  }

  lemma EndingIsCounted(threads: map<nat, PC>, t: nat)
    requires t in threads && EndingPC(threads[t])
    ensures t in InFlight(threads)
  {
  }

  /** So when a completion ends a session in whose activation a completed reservation asked for a
      cooldown, such as the release of a held key, no operation opens on the HID lane at once. */
  lemma CompletionKeepsToolsOut(states: seq<Sys>, events: seq<Event>, i: nat, j: nat, t: nat, rid: nat)
    requires EndsSession(states, events, i, t, Completing(rid)) && states[0].shared.coord.manualUntil.None?
    requires rid in states[i].shared.reservations
    requires var r := states[i].shared.reservations[rid];
             Asked(states[i + 1].shared.reservations, r.session, r.generation)
    requires i < j < |events| && Enabled(states[j], events[j]) && OpensHID(states[j], events[j])
    ensures exists k: nat :: i < k < j && UncountsAt(states, events, k, t)
              && (states[k].shared.coord.manualSessions == 1 ==>
                    states[j].shared.now >= states[i + 1].shared.now + Cooldown(states[k].shared.coord))
  {
    hide Next, Enabled, OpensHID, IsRun, Asked;
    EndingsThatCoolDown(states, events, i, t, Completing(rid));
    EndingKeepsToolsOut(states, events, i + 1, j, t);
  }

  // ---------------------------------------------------------------- when tools are let in

  /** The coordinator's cooldown was set by the last manual session that ended with one. */
  ghost predicate StartedAt(states: seq<Sys>, events: seq<Event>, k: nat, until: int) {
    && k < |events| && k < |states| && events[k].Run? && UncountsAt(states, events, k, events[k].t)
    && states[k].shared.coord.manualSessions == 1
    && until == states[k].shared.now + Cooldown(states[k].shared.coord)
  }

  lemma UntilChanges(h: Shared, t: nat, pc: PC, c: Choice)
    requires pc.Uncounting? || pc.Aborting? ==> h.coord.manualSessions > 0
    ensures var until := Act(h, t, pc, c).shared.coord.manualUntil;
            until != h.coord.manualUntil ==>
              pc == Uncounting(true) && h.coord.manualSessions == 1 && until == Some(h.now + Cooldown(h.coord))
  {
    hide ActManual, ActSwitch, ActLease;
    if IsManualPC(pc) {
      UntilChangesManual(h, t, pc, c);
    } else if IsSwitchPC(pc) {
      UntilSwitch(h, t, pc, c);
    } else {
      UntilLease(h, t, pc, c);
    }
  }

  lemma UntilChangesManual(h: Shared, t: nat, pc: PC, c: Choice)
    requires IsManualPC(pc) && (pc.Uncounting? || pc.Aborting? ==> h.coord.manualSessions > 0)
    ensures var until := ActManual(h, t, pc, c).shared.coord.manualUntil;
            until != h.coord.manualUntil ==>
              pc == Uncounting(true) && h.coord.manualSessions == 1 && until == Some(h.now + Cooldown(h.coord))
  {
    hide ReleaseShared, Load, Complete, Reset, Close;
  }

  /** Every cooldown comes from the end of a last manual session that asked for it. */
  lemma {:induction false} CooldownsHaveACause(states: seq<Sys>, events: seq<Event>, i: nat)
    requires IsRun(states, events) && i < |states| && states[0].shared.coord.manualUntil.None?
    ensures states[i].shared.coord.manualUntil.Some? ==>
              exists k: nat :: k < i && StartedAt(states, events, k, states[i].shared.coord.manualUntil.value)
  {
    hide Next, Enabled, StartedAt, Inv;
    if i > 0 {
      CooldownsHaveACause(states, events, i - 1);
      InvOnRuns(states, events, i - 1);
      RunStep(states, events, i - 1);
      CauseStep(states, events, i - 1);
    }
  }

  lemma CauseStep(states: seq<Sys>, events: seq<Event>, i: nat)
    requires IsRun(states, events) && i < |events| && Inv(states[i])
    ensures var until := states[i + 1].shared.coord.manualUntil;
            until == states[i].shared.coord.manualUntil || (until.Some? && StartedAt(states, events, i, until.value))
  {
    hide Inv, Act;
    RunStep(states, events, i);
    if events[i].Run? {
      var t := events[i].t;
      if CountedPC(states[i].threads[t]) {
        CountedIsPositive(states[i], t);
      }
      UntilChanges(states[i].shared, t, states[i].threads[t], events[i].c);
    }
  }

  lemma CountedIsPositive(s: Sys, t: nat)
    requires Inv(s) && t in s.threads && CountedPC(s.threads[t])
    ensures s.shared.coord.manualSessions > 0
  {
    CountPositive(s, t);
  }

  /** What stands in the way of an operation on the HID lane. */
  ghost predicate HumanInTheWay(s: Sys) {
    || ActiveSessions(s.shared.sessions) != {} || InFlight(s.threads) != {}
    || (s.shared.coord.manualUntil.Some? && s.shared.now < s.shared.coord.manualUntil.value)
  }

  /** A tool begins exactly if no other operation runs and, when it wants the HID lane, no manual
      session is active, coming or going, and no cooldown is running. */
  lemma ToolsBeginIff(states: seq<Sys>, events: seq<Event>, i: nat, t: nat)
    requires IsRun(states, events) && i < |events| && events[i].Run? && events[i].t == t
    requires t in states[i].threads && states[i].threads[t].ToolBegin?
    ensures t in states[i + 1].threads
    ensures states[i + 1].threads[t].Operating? <==>
              && (forall u :: u in states[i].threads ==> !states[i].threads[u].Operating?)
              && !(states[i].threads[t].kind.HID? && HumanInTheWay(states[i]))
  {
    hide Inv, Act, CanBegin;
    var s := states[i];
    InvOnRuns(states, events, i);
    RunStep(states, events, i);
    BeginStep(s.shared, t, s.threads[t], events[i].c);
    LaneFacts(s, s.threads[t].kind);
  }

  lemma BeginStep(h: Shared, t: nat, pc: PC, c: Choice)
    requires pc.ToolBegin?
    ensures Act(h, t, pc, c).pc.Operating? <==> CanBegin(h.coord, pc.kind, h.now)
  {
  }

  lemma LaneFacts(s: Sys, kind: OperationKind)
    requires Inv(s)
    ensures CanBegin(s.shared.coord, kind, s.shared.now) <==>
              && (forall u :: u in s.threads ==> !s.threads[u].Operating?)
              && !(kind.HID? && HumanInTheWay(s))
  {
    hide InvGate, InvLedger, InvSwitch, InvGrants, InvSessions;
    assert s.shared.coord.active.None? <==> forall u :: u in s.threads ==> !s.threads[u].Operating? by {
      forall u | u in s.threads
        ensures OperationOk(s.shared.coord, s.threads[u])
      {
      }
    }
    if ActiveSessions(s.shared.sessions) == {} && InFlight(s.threads) == {} {
      assert s.shared.coord.manualSessions == 0;
    } else {
      NotEmpty(ActiveSessions(s.shared.sessions));
      NotEmpty(InFlight(s.threads));
    }
  }

  lemma NotEmpty(a: set<nat>)
    ensures a != {} ==> |a| > 0
  {
    if a != {} {
      assert |a| != 0;
    }
  }

  // ---------------------------------------------------------------- joining an active session

  /** The report lets go of what its endpoint, or for the mouse either endpoint, holds. */
  predicate LetsGo(x: Session, req: Request) {
    !req.held && (if req.kind.Keyboard? then x.keyboardHeld else x.relativeMouseHeld || x.absoluteMouseHeld)
  }

  /** The step in which a reservation finds its session active. */
  ghost predicate JoinsAt(states: seq<Sys>, events: seq<Event>, i: nat, t: nat, req: Request) {
    && IsRun(states, events) && i < |events| && events[i].Run? && events[i].t == t
    && t in states[i].threads && states[i].threads[t] == Reserving(req)
    && req.session in states[i].shared.sessions && states[i].shared.sessions[req.session].active
  }

  /** A report of an active session gets a reservation exactly if the mode can be read and either it
      lets go of what is held, or no switch is under way and the caller allows it. So a release gets in
      during a switch; and it always asks for the cooldown. */
  lemma ReservationJoinsIff(states: seq<Sys>, events: seq<Event>, i: nat, t: nat, req: Request)
    requires JoinsAt(states, events, i, t, req)
    ensures var x, c, m := states[i].shared.sessions[req.session], events[i].c, states[i].shared.mgr;
            && (c.rid in states[i + 1].shared.reservations <==>
                  (c.access.Unreadable? ==> m.transitioning) && (LetsGo(x, req) || (!m.transitioning && c.allow)))
            && (c.rid in states[i + 1].shared.reservations ==>
                  && states[i + 1].shared.reservations[c.rid]
                     == Reservation(req.session, x.generation, req.kind, req.held,
                                    req.startCooldown || LetsGo(x, req), false)
                  && states[i + 1].shared.sessions[req.session] == x.(pending := x.pending + 1))
            && (c.rid !in states[i + 1].shared.reservations ==>
                  states[i + 1].shared.sessions == states[i].shared.sessions
                  && states[i + 1].shared.reservations == states[i].shared.reservations)
  {
    hide Next, Enabled, Inv;
    var s := states[i];
    InvOnRuns(states, events, i);
    RunStep(states, events, i);
    ManualStep(states, events, i, t);
    FreshRid(s, events[i]);
    MarkedIsLoaded(s);
    OpenIsActive(s, req.session);
    JoiningStep(s.shared, req, events[i].c);
  }

  lemma FreshRid(s: Sys, e: Event)
    requires Enabled(s, e) && e.Run?
    ensures e.c.rid !in s.shared.reservations
  {
  }

  lemma MarkedIsLoaded(s: Sys)
    requires Inv(s)
    ensures s.shared.mgr.transitioning ==> s.shared.mgr.loaded
  {
    hide InvGate, InvLedger, InvGrants, InvCoord, InvCounted, InvSessions;
  }

  lemma OpenIsActive(s: Sys, x: nat)
    requires Inv(s) && x in s.shared.sessions && s.shared.sessions[x].active
    ensures !s.shared.sessions[x].closed
  {
    SessionFacts(s, x);
  }

  lemma JoiningStep(h: Shared, req: Request, c: Choice)
    requires req.session in h.sessions && h.sessions[req.session].active && !h.sessions[req.session].closed
    requires (h.mgr.transitioning ==> h.mgr.loaded) && c.rid !in h.reservations
    ensures var x, h' := h.sessions[req.session], ActReserving(h, Reserving(req), c).shared;
            && (c.rid in h'.reservations <==>
                  (c.access.Unreadable? ==> h.mgr.transitioning)
                  && (LetsGo(x, req) || (!h.mgr.transitioning && c.allow)))
            && (c.rid in h'.reservations ==>
                  && h'.reservations[c.rid] == Reservation(req.session, x.generation, req.kind, req.held,
                                                           req.startCooldown || LetsGo(x, req), false)
                  && h'.sessions[req.session] == x.(pending := x.pending + 1))
            && (c.rid !in h'.reservations ==> h'.sessions == h.sessions && h'.reservations == h.reservations)
  {
  }
}
