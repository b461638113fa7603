/**
 The coordinator between human input and MCP operations, and the manual session.

 As in `ActivityGates`, each function is one critical section, and the classes run the same
 sections on mutable fields. `done` holds the operations whose completion channel is closed. A
 release function is the number of the lease that it releases.
 */
module InputControl {
  import opened Wrappers

  datatype OperationKind = HID | ReadOnly

  datatype ReportKind = Keyboard | RelativeMouse | AbsoluteMouse

  datatype Cause = Preempted | ModeChanged

  datatype Operation = Operation(id: nat, kind: OperationKind, cause: Option<Cause>)

  datatype Coordinator = Coordinator(
    active: Option<Operation>, nextID: nat, manualSessions: int, manualUntil: Option<int>,
    manualCooldown: int, done: set<nat>)

  const DEFAULT_COOLDOWN := 2_000_000_000

  /** Two seconds, unless another cooldown was set. */
  function Cooldown(c: Coordinator): (r: int)
    ensures r > 0 && (c.manualCooldown > 0 ==> r == c.manualCooldown)
    ensures c.manualCooldown <= 0 ==> r == 2 * 1000 * 1000 * 1000
  {
    if c.manualCooldown <= 0 then DEFAULT_COOLDOWN else c.manualCooldown
  }

  /** Whether an MCP operation that wants the HID lane is turned away because of a human. */
  predicate ManualBlocks(c: Coordinator, now: int) {
    c.manualSessions > 0 || (c.manualUntil.Some? && now < c.manualUntil.value)
  }

  predicate CanBegin(c: Coordinator, kind: OperationKind, now: int) {
    c.active.None? && !(kind.HID? && ManualBlocks(c, now))
  }

  /** BeginMCP when it is not refused; the new operation's id is nextID + 1. */
  function Begin(c: Coordinator, kind: OperationKind): Coordinator {
    c.(nextID := c.nextID + 1, active := Some(Operation(c.nextID + 1, kind, None)))
  }

  function EndOperation(c: Coordinator, id: nat): Coordinator {
    if c.active.Some? && c.active.value.id == id then c.(active := None, done := c.done + {id}) else c
  }

  /** Cancelling keeps the first cause. */
  function Cancelled(op: Operation, cause: Cause): Operation {
    if op.cause.None? then op.(cause := Some(cause)) else op
  }

  function Cancel(c: Coordinator, cause: Cause): Coordinator {
    if c.active.Some? then c.(active := Some(Cancelled(c.active.value, cause))) else c
  }

  predicate HIDOpen(c: Coordinator) {
    c.active.Some? && c.active.value.kind.HID?
  }

  function BeginManual(c: Coordinator): Coordinator {
    var c' := c.(manualSessions := c.manualSessions + 1);
    if HIDOpen(c) then Cancel(c', Preempted) else c'
  }

  function EndManual(c: Coordinator, startCooldown: bool, now: int): Coordinator {
    var c' := if c.manualSessions > 0 then c.(manualSessions := c.manualSessions - 1) else c;
    if startCooldown && c'.manualSessions == 0 then c'.(manualUntil := Some(now + Cooldown(c'))) else c'
  }

  datatype Session = Session(
    active: bool, closed: bool, generation: nat, pending: int,
    keyboardHeld: bool, relativeMouseHeld: bool, absoluteMouseHeld: bool,
    cooldownOnIdle: bool, lease: Option<nat>)

  datatype Reservation = Reservation(
    session: nat, generation: nat, kind: ReportKind, held: bool, startCooldown: bool, once: bool)

  /** What finishIfIdleLocked hands to finish. */
  datatype Ending = Stays | Ends(lease: Option<nat>, startCooldown: bool)

  const FRESH_SESSION := Session(false, false, 0, 0, false, false, false, false, None)

  predicate Holding(s: Session) {
    s.keyboardHeld || s.relativeMouseHeld || s.absoluteMouseHeld
  }

  predicate IsReleaseReport(s: Session, kind: ReportKind, held: bool) {
    && !held
    && match kind
       case Keyboard => s.keyboardHeld
       case RelativeMouse => s.relativeMouseHeld || s.absoluteMouseHeld
       case AbsoluteMouse => s.relativeMouseHeld || s.absoluteMouseHeld
  }

  function AddPending(s: Session): Session {
    s.(pending := s.pending + 1)
  }

  function Activate(s: Session, lease: nat): Session {
    s.(active := true, generation := s.generation + 1, pending := 1, lease := Some(lease))
  }

  function SetHeld(s: Session, kind: ReportKind, held: bool): (r: Session)
    ensures r == s.(keyboardHeld := r.keyboardHeld, relativeMouseHeld := r.relativeMouseHeld,
                    absoluteMouseHeld := r.absoluteMouseHeld)
  {
    match kind
    case Keyboard => s.(keyboardHeld := held)
    case RelativeMouse => s.(relativeMouseHeld := held)
    case AbsoluteMouse => s.(absoluteMouseHeld := held)
  }

  function ClearHeld(s: Session): (r: Session)
    ensures !Holding(r)
    ensures r == s.(keyboardHeld := r.keyboardHeld, relativeMouseHeld := r.relativeMouseHeld,
                    absoluteMouseHeld := r.absoluteMouseHeld)
  {
    s.(keyboardHeld := false, relativeMouseHeld := false, absoluteMouseHeld := false)
  }

  function FinishIfIdle(s: Session): (Session, Ending) {
    if !s.active || s.pending > 0 || Holding(s) then (s, Stays)
    else (s.(active := false, lease := None, cooldownOnIdle := false), Ends(s.lease, s.cooldownOnIdle))
  }

  /** One pending report fewer, and what it says about the cooldown and about what is held. */
  function Settle(s: Session, kind: ReportKind, held: bool, success: bool, startCooldown: bool): Session {
    var s1 := if s.pending > 0 then s.(pending := s.pending - 1) else s;
    var s2 := if startCooldown then s1.(cooldownOnIdle := true) else s1;
    if success then SetHeld(s2, kind, held) else ClearHeld(s2)
  }

  function Complete(s: Session, generation: nat, kind: ReportKind, held: bool, success: bool, startCooldown: bool)
    : (Session, Ending)
  {
    if !s.active || generation != s.generation then (s, Stays)
    else FinishIfIdle(Settle(s, kind, held, success, startCooldown))
  }

  /** Reset always ends with a cooldown. */
  function Reset(s: Session, kind: ReportKind): (Session, Ending) {
    if !s.active then (s, Stays)
    else
      var (s', e) := FinishIfIdle(SetHeld(s, kind, false));
      (s', if e.Ends? then e.(startCooldown := true) else e)
  }

  function Close(s: Session): (Session, Ending) {
    if s.closed then (s, Stays)
    else
      (ClearHeld(s).(closed := true, pending := 0, cooldownOnIdle := false, active := false, lease := None,
                     generation := s.generation + 1),
       if s.active then Ends(s.lease, true) else Stays)
  }

  /** A session that is not active has nothing left over, and an active one always has a reason to be. */
  ghost predicate SessionOk(s: Session) {
    && s.pending >= 0
    && (s.closed ==> !s.active)
    && (s.active <==> s.lease.Some?)
    && (s.active <==> s.pending > 0 || Holding(s))
    && (s.cooldownOnIdle ==> s.active)
  }

  class InputCoordinator {
    var active: Option<Operation>
    var nextID: nat
    var manualSessions: int
    var manualUntil: Option<int>
    var done: set<nat>
    const manualCooldown: int

    ghost function View(): Coordinator
      reads this
    {
      Coordinator(active, nextID, manualSessions, manualUntil, manualCooldown, done)
    }

    constructor (cooldown: int)
      ensures View() == Coordinator(None, 0, 0, None, if cooldown < 0 then 0 else cooldown, {})
    {
      active, nextID, manualSessions, manualUntil, done := None, 0, 0, None, {};
      manualCooldown := if cooldown < 0 then 0 else cooldown;
    }

    method BeginMCP(kind: OperationKind, now: int) returns (id: Option<nat>)
      modifies this
      ensures id.Some? <==> CanBegin(old(View()), kind, now)
      ensures id.Some? ==> id.value == old(nextID) + 1 && View() == Begin(old(View()), kind)
      ensures id.None? ==> View() == old(View())
    {
      if active.Some? {
        return None;
      }
      if kind.HID? && (manualSessions > 0 || (manualUntil.Some? && now < manualUntil.value)) {
        return None;
      }
      nextID := nextID + 1;
      active := Some(Operation(nextID, kind, None));
      return Some(nextID);
    }

    /** The body of the release function that BeginMCP returns. */
    method ReleaseOperation(id: nat)
      modifies this
      ensures View() == EndOperation(old(View()), id)
    {
      if active.Some? && active.value.id == id {
        active := None;
        done := done + {id};
      }
    }

    method CancelMCP(cause: Cause)
      modifies this
      ensures View() == Cancel(old(View()), cause)
    {
      if active.Some? && active.value.cause.None? {
        active := Some(active.value.(cause := Some(cause)));
      }
    }

    /** The critical section of beginManual; `waitFor` is the operation the caller then waits for. */
    method StartManual() returns (waitFor: Option<nat>)
      modifies this
      ensures View() == BeginManual(old(View()))
      ensures waitFor == if HIDOpen(old(View())) then Some(old(active).value.id) else None
    {
      manualSessions := manualSessions + 1;
      if active.Some? && active.value.kind.HID? {
        waitFor := Some(active.value.id);
        CancelMCP(Preempted);
      } else {
        waitFor := None;
      }
    }

    method StopManual(startCooldown: bool, now: int)
      modifies this
      ensures View() == EndManual(old(View()), startCooldown, now)
    {
      if manualSessions > 0 {
        manualSessions := manualSessions - 1;
      }
      if startCooldown && manualSessions == 0 {
        manualUntil := Some(now + if manualCooldown <= 0 then DEFAULT_COOLDOWN else manualCooldown);
      }
    }
  }

  class ManualSession {
    var active: bool
    var closed: bool
    var generation: nat
    var pending: int
    var keyboardHeld: bool
    var relativeMouseHeld: bool
    var absoluteMouseHeld: bool
    var cooldownOnIdle: bool
    var releaseControl: Option<nat>

    ghost function View(): Session
      reads this
    {
      Session(active, closed, generation, pending, keyboardHeld, relativeMouseHeld, absoluteMouseHeld,
              cooldownOnIdle, releaseControl)
    }

    constructor ()
      ensures View() == FRESH_SESSION
    {
      active, closed, generation, pending := false, false, 0, 0;
      keyboardHeld, relativeMouseHeld, absoluteMouseHeld, cooldownOnIdle := false, false, false, false;
      releaseControl := None;
    }

    method ClearHeldFlags()
      modifies `keyboardHeld, `relativeMouseHeld, `absoluteMouseHeld
      ensures View() == ClearHeld(old(View()))
    {
      keyboardHeld, relativeMouseHeld, absoluteMouseHeld := false, false, false;
    }

    method SetHeldFlag(kind: ReportKind, held: bool)
      modifies `keyboardHeld, `relativeMouseHeld, `absoluteMouseHeld
      ensures View() == SetHeld(old(View()), kind, held)
    {
      match kind
      case Keyboard => keyboardHeld := held;
      case RelativeMouse => relativeMouseHeld := held;
      case AbsoluteMouse => absoluteMouseHeld := held;
    }

    /** The last critical section of reserve, for a session that is open: join or activate. */
    method Join(lease: nat) returns (activated: bool)
      requires !closed
      modifies this
      ensures activated <==> !old(active)
      ensures View() == if old(active) then AddPending(old(View())) else Activate(old(View()), lease)
    {
      if active {
        pending := pending + 1;
        return false;
      }
      active := true;
      generation := generation + 1;
      pending := 1;
      releaseControl := Some(lease);
      return true;
    }

    method FinishWhenIdle() returns (ending: Ending)
      modifies this
      ensures (View(), ending) == FinishIfIdle(old(View()))
    {
      if !active || pending > 0 || keyboardHeld || relativeMouseHeld || absoluteMouseHeld {
        return Stays;
      }
      ending := Ends(releaseControl, cooldownOnIdle);
      active, releaseControl, cooldownOnIdle := false, None, false;
    }

    method CompleteReport(generation: nat, kind: ReportKind, held: bool, success: bool, startCooldown: bool)
      returns (ending: Ending)
      modifies this
      ensures (View(), ending) == Complete(old(View()), generation, kind, held, success, startCooldown)
    {
      hide FinishIfIdle, SetHeld, ClearHeld;
      if !active || generation != this.generation {
        return Stays;
      }
      if pending > 0 {
        pending := pending - 1;
      }
      if startCooldown {
        cooldownOnIdle := true;
      }
      if success {
        SetHeldFlag(kind, held);
      } else {
        ClearHeldFlags();
      }
      ending := FinishWhenIdle();
    }

    method ResetKind(kind: ReportKind) returns (ending: Ending)
      modifies this
      ensures (View(), ending) == Reset(old(View()), kind)
    {
      if !active {
        return Stays;
      }
      SetHeldFlag(kind, false);
      ending := FinishWhenIdle();
      if ending.Ends? {
        ending := Ends(ending.lease, true);
      }
    }

    method CloseSession() returns (ending: Ending)
      modifies this
      ensures (View(), ending) == Close(old(View()))
    {
      if closed {
        return Stays;
      }
      closed, pending := true, 0;
      ClearHeldFlags();
      cooldownOnIdle := false;
      ending := if active then Ends(releaseControl, true) else Stays;
      active, releaseControl := false, None;
      generation := generation + 1;
    }
  }
}
