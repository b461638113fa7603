/**
 The step system that decides who may write to the HID endpoints.

 Any number of threads run tool calls, background actions, manual reservations, completions,
 resets, closes and mode switches. `PC` is where a thread stands between two critical sections;
 one step runs the next critical section of one thread. A thread that blocks (on a gate channel,
 on an operation's done channel, or on the transition mutex) makes no change while it is blocked.

 Everything the environment decides is in `Choice`: what file access finds, whether hooks fail,
 whether a timer or a context fires first, and whether the caller's `allow` check passes.

 Two history variables are never read by a step: `ledger` says who holds the release function of
 each lease that is still open, and `grants` says which mode a lease saw at its second check and which it expected.
 `spent` is the once-flag of every release function.
 */
module Arbitration {
  import opened Wrappers
  import opened ActivityGates
  import opened ControlMode
  import opened InputControl

  /** The arguments of one reservation. */
  datatype Request = Request(session: nat, kind: ReportKind, held: bool, startCooldown: bool)

  /** Who begins an operation: an MCP tool through the executor, or a background action. */
  datatype Caller = Executor | Background

  /** Why a thread acquires a lease: AcquireWrite(expected), for an MCP tool or for a caller that
      writes right under its lease, as PicoClaw does; or AcquireStable, for a background action or a
      manual reservation. */
  datatype Goal =
    | ForWrite(expected: Mode, tool: bool)
    | ForBackground
    | ForManual(req: Request)

  datatype Outcome =
    | Skipped | PreemptFailed | TimedOut | CleanupFailed(stored: bool) | SaveFailed(stored: bool) | Switched

  datatype PC =
    | Exited
      // AcquireWrite and AcquireStable
    | FirstCheck(goal: Goal)
    | EnterShared(goal: Goal)
    | ParkedShared(goal: Goal, channel: nat)
    | SecondCheck(goal: Goal, held: nat)
    | DropLease(held: nat)
      // the holder of a write lease that needs no operation, and writes as it likes
    | Writing(mode: Mode, held: nat)
      // toolExecutor.begin, BeginMCP or BeginBackground, and the running operation
    | ToolBegin(kind: OperationKind, caller: Caller, lease: Option<nat>)
    | Operating(id: nat, kind: OperationKind, caller: Caller, lease: Option<nat>)
      // ManualSession.reserve
    | Reserving(req: Request)
    | StartingManual(req: Request, held: nat)
    | AwaitingDone(req: Request, held: nat, id: nat)
    | Activating(req: Request, held: nat)
    | Aborting(held: nat)
      // Complete, Reset, Close and finish
    | Completing(reservation: nat)
    | Resetting(session: nat, report: ReportKind)
    | Closing(session: nat)
    | Finishing(lease: Option<nat>, cooldown: bool)
    | Uncounting(cooldown: bool)
      // SwitchWithCleanup (expected is None) and SwitchIfWithCleanup
    | SwLock(expected: Option<Mode>, next: Mode)
    | SwCheck(expected: Option<Mode>, next: Mode)
    | SwMark(from: Mode, next: Mode)
    | SwPreempt(from: Mode, next: Mode)
    | SwEnter(from: Mode, next: Mode)
    | SwParked(from: Mode, next: Mode, channel: nat)
    | SwCleanup(from: Mode, next: Mode)
    | SwSave(from: Mode, next: Mode)
    | SwRollback(from: Mode, next: Mode)
    | SwLeave(from: Mode, next: Mode, outcome: Outcome)
    | SwUnmark(from: Mode, next: Mode, outcome: Outcome)
    | SwUnlock(from: Mode, next: Mode, outcome: Outcome)

  /** What a lease was granted for: the mode its second check saw, and the mode it expected, if any. */
  datatype Grant = Grant(mode: Mode, expected: Option<Mode>)

  datatype Owner = Thread(t: nat) | InSession(x: nat)

  datatype Choice = Choice(
    access: FileAccess, allow: bool, ctxDone: bool, timeout: bool, fails: bool, cancels: bool,
    save: SaveResult, success: bool, rid: nat)

  /** Everything the threads share. */
  datatype Shared = Shared(
    gate: Gate, mgr: Manager, coord: Coordinator,
    sessions: map<nat, Session>, reservations: map<nat, Reservation>,
    transitionMu: Option<nat>, now: int,
    leases: nat, spent: set<nat>, ledger: map<nat, Owner>, grants: map<nat, Grant>)

  datatype Sys = Sys(shared: Shared, threads: map<nat, PC>)

  /** The result of one critical section: the shared state, and where the thread stands now. */
  datatype After = After(shared: Shared, pc: PC)

  // ---------------------------------------------------------------- leases

  /** Running a release function; the once-guard makes a second run a no-op. */
  function Release(h: Shared, l: nat): Shared {
    if l in h.spent then h
    else h.(gate := ReleaseShared(h.gate), spent := h.spent + {l}, ledger := h.ledger - {l})
  }

  function DropOrExit(l: Option<nat>): PC {
    if l.Some? then DropLease(l.value) else Exited
  }

  /** RequireWrite(expected) for a writer, "not transitioning" for everybody else. */
  predicate Admits(m: Manager, goal: Goal) {
    !m.transitioning && (goal.ForWrite? ==> m.mode == goal.expected)
  }

  function Expected(goal: Goal): Option<Mode> {
    if goal.ForWrite? then Some(goal.expected) else None
  }

  function ActFirstCheck(h: Shared, pc: PC, c: Choice): After
    requires pc.FirstCheck?
  {
    match Load(h.mgr, c.access)
    case None => After(h, Exited)
    case Some(m) => After(h.(mgr := m), if Admits(m, pc.goal) then EnterShared(pc.goal) else Exited)
  }

  function ActEnterShared(h: Shared, t: nat, pc: PC): After
    requires pc.EnterShared?
  {
    match PassShared(h.gate)
    case Entered(g) =>
      After(h.(gate := g, leases := h.leases + 1, ledger := h.ledger[h.leases := Thread(t)]),
            SecondCheck(pc.goal, h.leases))
    case Parks(g, ch) => After(h.(gate := g), ParkedShared(pc.goal, ch))
  }

  function ActParkedShared(h: Shared, pc: PC): After
    requires pc.ParkedShared?
  {
    After(h, if pc.channel in h.gate.closed then EnterShared(pc.goal) else pc)
  }

  function AfterSecondCheck(goal: Goal, l: nat, allow: bool): PC {
    match goal
    case ForWrite(expected, tool) => if tool then ToolBegin(HID, Executor, Some(l)) else Writing(expected, l)
    case ForBackground => ToolBegin(HID, Background, Some(l))
    case ForManual(req) => if allow then StartingManual(req, l) else DropLease(l)
  }

  function ActSecondCheck(h: Shared, pc: PC, c: Choice): After
    requires pc.SecondCheck?
  {
    match Load(h.mgr, c.access)
    case None => After(h, DropLease(pc.held))
    case Some(m) =>
      if Admits(m, pc.goal)
      then After(h.(mgr := m, grants := h.grants[pc.held := Grant(m.mode, Expected(pc.goal))]),
                 AfterSecondCheck(pc.goal, pc.held, c.allow))
      else After(h.(mgr := m), DropLease(pc.held))
  }

  function ActDropLease(h: Shared, pc: PC): After
    requires pc.DropLease?
  {
    After(Release(h, pc.held), Exited)
  }

  function ActWriting(h: Shared, pc: PC): After
    requires pc.Writing?
  {
    After(h, DropLease(pc.held))
  }

  // ---------------------------------------------------------------- operations

  function ActToolBegin(h: Shared, pc: PC): After
    requires pc.ToolBegin?
  {
    if CanBegin(h.coord, pc.kind, h.now)
    then After(h.(coord := Begin(h.coord, pc.kind)), Operating(h.coord.nextID + 1, pc.kind, pc.caller, pc.lease))
    else After(h, DropOrExit(pc.lease))
  }

  function ActOperating(h: Shared, pc: PC): After
    requires pc.Operating?
  {
    After(h.(coord := EndOperation(h.coord, pc.id)), DropOrExit(pc.lease))
  }

  // ---------------------------------------------------------------- manual sessions

  function NewReservation(s: Session, req: Request): Reservation {
    Reservation(req.session, s.generation, req.kind, req.held, req.startCooldown, false)
  }

  /** A reservation made by joining an active session; releasing a held key forces the cooldown. */
  function JoinReservation(s: Session, req: Request): Reservation {
    NewReservation(s, req).(startCooldown := req.startCooldown || IsReleaseReport(s, req.kind, req.held))
  }

  function Joined(h: Shared, req: Request, rid: nat): Shared
    requires req.session in h.sessions
  {
    var x := h.sessions[req.session];
    h.(sessions := h.sessions[req.session := AddPending(x)],
       reservations := h.reservations[rid := JoinReservation(x, req)])
  }

  function ActReserving(h: Shared, pc: PC, c: Choice): After
    requires pc.Reserving?
  {
    if pc.req.session !in h.sessions then After(h, Exited) else
    var x := h.sessions[pc.req.session];
    if x.closed then After(h, Exited)
    else if !x.active then After(h, FirstCheck(ForManual(pc.req)))
    else
      match Load(h.mgr, c.access)
      case None => After(h, Exited)
      case Some(m) =>
        if (m.transitioning || !c.allow) && !IsReleaseReport(x, pc.req.kind, pc.req.held)
        then After(h.(mgr := m), Exited)
        else After(Joined(h.(mgr := m), pc.req, c.rid), Exited)
  }

  function ActStartingManual(h: Shared, pc: PC): After
    requires pc.StartingManual?
  {
    After(h.(coord := BeginManual(h.coord)),
          if HIDOpen(h.coord) then AwaitingDone(pc.req, pc.held, h.coord.active.value.id)
          else Activating(pc.req, pc.held))
  }

  function ActAwaitingDone(h: Shared, pc: PC, c: Choice): After
    requires pc.AwaitingDone?
  {
    After(h, if c.ctxDone then Aborting(pc.held)
             else if pc.id in h.coord.done then Activating(pc.req, pc.held)
             else pc)
  }

  function ActActivating(h: Shared, pc: PC, c: Choice): After
    requires pc.Activating?
  {
    if pc.req.session !in h.sessions then After(h, Aborting(pc.held)) else
    var x := h.sessions[pc.req.session];
    if x.closed then After(h, Aborting(pc.held))
    else if x.active then After(Joined(h, pc.req, c.rid), Aborting(pc.held))
    else
      var x' := Activate(x, pc.held);
      After(h.(sessions := h.sessions[pc.req.session := x'],
               reservations := h.reservations[c.rid := NewReservation(x', pc.req)],
               ledger := h.ledger[pc.held := InSession(pc.req.session)]), Exited)
  }

  function ActAborting(h: Shared, pc: PC): After
    requires pc.Aborting?
  {
    After(h.(coord := EndManual(h.coord, false, h.now)), DropLease(pc.held))
  }

  /** Storing a session's new value, and moving to the finish steps when the session ended. */
  function EndSession(h: Shared, t: nat, x: nat, after: (Session, Ending)): After {
    var h' := h.(sessions := h.sessions[x := after.0]);
    match after.1
    case Stays => After(h', Exited)
    case Ends(None, cooldown) => After(h', Finishing(None, cooldown))
    case Ends(Some(l), cooldown) =>
      After(h'.(ledger := h.ledger[l := Thread(t)]), Finishing(Some(l), cooldown))
  }

  function ActCompleting(h: Shared, t: nat, pc: PC, c: Choice): After
    requires pc.Completing?
  {
    if pc.reservation !in h.reservations then After(h, Exited) else
    var r := h.reservations[pc.reservation];
    if r.once || r.session !in h.sessions then After(h, Exited)
    else
      EndSession(h.(reservations := h.reservations[pc.reservation := r.(once := true)]), t, r.session,
                 Complete(h.sessions[r.session], r.generation, r.kind, r.held, c.success, r.startCooldown))
  }

  function ActResetting(h: Shared, t: nat, pc: PC): After
    requires pc.Resetting?
  {
    if pc.session !in h.sessions then After(h, Exited)
    else EndSession(h, t, pc.session, Reset(h.sessions[pc.session], pc.report))
  }

  function ActClosing(h: Shared, t: nat, pc: PC): After
    requires pc.Closing?
  {
    if pc.session !in h.sessions then After(h, Exited)
    else EndSession(h, t, pc.session, Close(h.sessions[pc.session]))
  }

  function ActFinishing(h: Shared, pc: PC): After
    requires pc.Finishing?
  {
    After(if pc.lease.Some? then Release(h, pc.lease.value) else h, Uncounting(pc.cooldown))
  }

  function ActUncounting(h: Shared, pc: PC): After
    requires pc.Uncounting?
  {
    After(h.(coord := EndManual(h.coord, pc.cooldown, h.now)), Exited)
  }

  // ---------------------------------------------------------------- mode switches

  function ActSwLock(h: Shared, t: nat, pc: PC): After
    requires pc.SwLock?
  {
    if pc.expected.Some? && !(ValidMode(pc.expected.value) && ValidMode(pc.next)) then After(h, Exited)
    else if h.transitionMu.Some? then After(h, pc)
    else After(h.(transitionMu := Some(t)), SwCheck(pc.expected, pc.next))
  }

  function ActSwCheck(h: Shared, pc: PC, c: Choice): After
    requires pc.SwCheck?
  {
    match Load(h.mgr, c.access)
    case None => After(h, SwUnlock(pc.next, pc.next, Skipped))
    case Some(m) =>
      After(h.(mgr := m),
            if !ValidMode(pc.next) || m.mode == pc.next || (pc.expected.Some? && m.mode != pc.expected.value)
            then SwUnlock(m.mode, pc.next, Skipped)
            else SwMark(m.mode, pc.next))
  }

  function ActSwMark(h: Shared, pc: PC): After
    requires pc.SwMark?
  {
    After(h.(mgr := h.mgr.(transitioning := true)), SwPreempt(pc.from, pc.next))
  }

  function ActSwPreempt(h: Shared, pc: PC, c: Choice): After
    requires pc.SwPreempt?
  {
    After(h.(coord := if c.cancels then Cancel(h.coord, ModeChanged) else h.coord),
          if c.fails then SwUnmark(pc.from, pc.next, PreemptFailed) else SwEnter(pc.from, pc.next))
  }

  function ActSwEnter(h: Shared, pc: PC): After
    requires pc.SwEnter?
  {
    match PassExclusive(h.gate)
    case Entered(g) => After(h.(gate := g), SwCleanup(pc.from, pc.next))
    case Parks(g, ch) => After(h.(gate := g), SwParked(pc.from, pc.next, ch))
  }

  function ActSwParked(h: Shared, pc: PC, c: Choice): After
    requires pc.SwParked?
  {
    After(h, if c.timeout then SwUnmark(pc.from, pc.next, TimedOut)
             else if pc.channel in h.gate.closed then SwEnter(pc.from, pc.next)
             else pc)
  }

  function ActSwCleanup(h: Shared, pc: PC, c: Choice): After
    requires pc.SwCleanup?
  {
    After(h, if c.fails then SwRollback(pc.from, pc.next) else SwSave(pc.from, pc.next))
  }

  function ActSwRollback(h: Shared, pc: PC, c: Choice): After
    requires pc.SwRollback?
  {
    After(h.(mgr := Save(h.mgr, Off, c.save)), SwLeave(pc.from, pc.next, CleanupFailed(!c.save.FailedEarly?)))
  }

  function ActSwSave(h: Shared, pc: PC, c: Choice): After
    requires pc.SwSave?
  {
    After(h.(mgr := Save(h.mgr, pc.next, c.save)),
          SwLeave(pc.from, pc.next, if c.save.Saved? then Switched else SaveFailed(!c.save.FailedEarly?)))
  }

  function ActSwLeave(h: Shared, pc: PC): After
    requires pc.SwLeave?
  {
    After(h.(gate := ReleaseExclusive(h.gate)), SwUnmark(pc.from, pc.next, pc.outcome))
  }

  function ActSwUnmark(h: Shared, pc: PC): After
    requires pc.SwUnmark?
  {
    After(h.(mgr := h.mgr.(transitioning := false)), SwUnlock(pc.from, pc.next, pc.outcome))
  }

  function ActSwUnlock(h: Shared, pc: PC): After
    requires pc.SwUnlock?
  {
    After(h.(transitionMu := None), Exited)
  }

  // ---------------------------------------------------------------- the system

  /** Holding the transition mutex. */
  predicate SwitchingPC(pc: PC) {
    || pc.SwCheck? || pc.SwMark? || pc.SwPreempt? || pc.SwEnter? || pc.SwParked? || pc.SwCleanup?
    || pc.SwSave? || pc.SwRollback? || pc.SwLeave? || pc.SwUnmark? || pc.SwUnlock?
  }

  predicate IsSwitchPC(pc: PC) {
    pc.SwLock? || SwitchingPC(pc)
  }

  predicate IsManualPC(pc: PC) {
    || pc.Reserving? || pc.StartingManual? || pc.AwaitingDone? || pc.Activating? || pc.Aborting?
    || pc.Completing? || pc.Resetting? || pc.Closing? || pc.Finishing? || pc.Uncounting?
  }

  predicate IsLeasePC(pc: PC) {
    !IsManualPC(pc) && !IsSwitchPC(pc)
  }

  function ActLease(h: Shared, t: nat, pc: PC, c: Choice): After
    requires IsLeasePC(pc)
  {
    match pc
    case FirstCheck(_) => ActFirstCheck(h, pc, c)
    case EnterShared(_) => ActEnterShared(h, t, pc)
    case ParkedShared(_, _) => ActParkedShared(h, pc)
    case SecondCheck(_, _) => ActSecondCheck(h, pc, c)
    case DropLease(_) => ActDropLease(h, pc)
    case Writing(_, _) => ActWriting(h, pc)
    case ToolBegin(_, _, _) => ActToolBegin(h, pc)
    case Operating(_, _, _, _) => ActOperating(h, pc)
    case _ => After(h, pc)
  }

  function ActManual(h: Shared, t: nat, pc: PC, c: Choice): After
    requires IsManualPC(pc)
  {
    match pc
    case Reserving(_) => ActReserving(h, pc, c)
    case StartingManual(_, _) => ActStartingManual(h, pc)
    case AwaitingDone(_, _, _) => ActAwaitingDone(h, pc, c)
    case Activating(_, _) => ActActivating(h, pc, c)
    case Aborting(_) => ActAborting(h, pc)
    case Completing(_) => ActCompleting(h, t, pc, c)
    case Resetting(_, _) => ActResetting(h, t, pc)
    case Closing(_) => ActClosing(h, t, pc)
    case Finishing(_, _) => ActFinishing(h, pc)
    case Uncounting(_) => ActUncounting(h, pc)
  }

  function ActSwitch(h: Shared, t: nat, pc: PC, c: Choice): After
    requires IsSwitchPC(pc)
  {
    match pc
    case SwLock(_, _) => ActSwLock(h, t, pc)
    case SwCheck(_, _) => ActSwCheck(h, pc, c)
    case SwMark(_, _) => ActSwMark(h, pc)
    case SwPreempt(_, _) => ActSwPreempt(h, pc, c)
    case SwEnter(_, _) => ActSwEnter(h, pc)
    case SwParked(_, _, _) => ActSwParked(h, pc, c)
    case SwCleanup(_, _) => ActSwCleanup(h, pc, c)
    case SwSave(_, _) => ActSwSave(h, pc, c)
    case SwRollback(_, _) => ActSwRollback(h, pc, c)
    case SwLeave(_, _, _) => ActSwLeave(h, pc)
    case SwUnmark(_, _, _) => ActSwUnmark(h, pc)
    case SwUnlock(_, _, _) => ActSwUnlock(h, pc)
  }

  /** The next critical section of a thread. */
  function Act(h: Shared, t: nat, pc: PC, c: Choice): After {
    if IsManualPC(pc) then ActManual(h, t, pc, c)
    else if IsSwitchPC(pc) then ActSwitch(h, t, pc, c)
    else ActLease(h, t, pc, c)
  }

  function StepTo(s: Sys, t: nat, a: After): Sys {
    Sys(a.shared, s.threads[t := a.pc])
  }

  /** Where a new thread may start: an MCP tool that writes, which expects mode mcp, or one that only
      reads; a writer that expects any mode; the background jiggler; a reservation, a completion, a
      reset, a close, or a mode switch. */
  predicate IsStart(pc: PC) {
    match pc
    case FirstCheck(goal) =>
      (goal.ForWrite? ==> goal.tool ==> goal.expected == Mcp) && !goal.ForManual?
    case ToolBegin(kind, _, lease) => kind.ReadOnly? && lease.None?
    case Reserving(_) => true
    case Completing(_) => true
    case Resetting(_, _) => true
    case Closing(_) => true
    case SwLock(_, _) => true
    case _ => false
  }

  datatype Event =
    | Run(t: nat, c: Choice)
    | Spawn(t: nat, pc: PC)
    | NewSession(x: nat)
    | Tick(now: int)

  predicate Enabled(s: Sys, e: Event) {
    match e
    case Run(t, c) => t in s.threads && c.rid !in s.shared.reservations
    case Spawn(t, pc) => t !in s.threads && IsStart(pc)
    case NewSession(x) => x !in s.shared.sessions
    case Tick(now) => s.shared.now <= now
  }

  function Next(s: Sys, e: Event): Sys
    requires Enabled(s, e)
  {
    match e
    case Run(t, c) => StepTo(s, t, Act(s.shared, t, s.threads[t], c))
    case Spawn(t, pc) => s.(threads := s.threads[t := pc])
    case NewSession(x) => s.(shared := s.shared.(sessions := s.shared.sessions[x := FRESH_SESSION]))
    case Tick(now) => s.(shared := s.shared.(now := now))
  }

  predicate IsInit(s: Sys) {
    var h := s.shared;
    && h.gate == FRESH_GATE
    && !h.mgr.loaded && !h.mgr.transitioning && ValidMode(h.mgr.defaultMode)
    && h.coord.active.None? && h.coord.manualSessions == 0 && h.coord.done == {}
    && h.sessions == map[] && h.reservations == map[] && s.threads == map[]
    && h.transitionMu.None? && h.leases == 0 && h.spent == {} && h.ledger == map[] && h.grants == map[]
  }

  /** A run: the states and the events between them. */
  ghost predicate IsRun(states: seq<Sys>, events: seq<Event>) {
    && |states| == |events| + 1
    && IsInit(states[0])
    && (forall i :: 0 <= i < |events| ==> Enabled(states[i], events[i]) && states[i + 1] == Next(states[i], events[i]))
  }
}
