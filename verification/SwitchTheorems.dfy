/**
 What a mode switch does, told by the steps that its thread took: a conditional switch never touches
 the mode unless it finds the mode it expects, and every outcome has the one course that leads to it.
 */
module SwitchTheorems {
  import opened Wrappers
  import opened ActivityGates
  import opened ControlMode
  import opened InputControl
  import opened Arbitration
  import opened ArbitrationInvariant
  import opened ArbitrationSteps
  import opened ArbitrationTheorems

  // ---------------------------------------------------------------- the steps of one thread

  /** A kind of step: where it starts, the environment's choice, and the manager after it. */
  type Kind = (PC, Choice, Manager) -> bool

  ghost predicate Took(states: seq<Sys>, events: seq<Event>, k: nat, t: nat, kind: Kind) {
    && k < |events| && k + 1 < |states| && events[k].Run? && events[k].t == t && t in states[k].threads
    && kind(states[k].threads[t], events[k].c, states[k + 1].shared.mgr)
  }

  /** Thread t took such a step on its way to state i. */
  ghost predicate Did(states: seq<Sys>, events: seq<Event>, i: nat, t: nat, kind: Kind) {
    exists k: nat :: k < i && Took(states, events, k, t, kind)
  }

  lemma DidBefore(states: seq<Sys>, events: seq<Event>, i: nat, t: nat)
    ensures forall kind :: Did(states, events, i, t, kind) ==> Did(states, events, i + 1, t, kind)
  {
    forall kind | Did(states, events, i, t, kind)
      ensures Did(states, events, i + 1, t, kind)
    {
      var k: nat :| k < i && Took(states, events, k, t, kind);
    }
  }

  lemma DidNow(states: seq<Sys>, events: seq<Event>, i: nat, t: nat, kind: Kind)
    requires Took(states, events, i, t, kind)
    ensures Did(states, events, i + 1, t, kind)
  {
  }

  // ---------------------------------------------------------------- kinds of steps

  /** Why a switch comes to nothing at its check, once the manager has become m. */
  predicate Skips(expected: Option<Mode>, next: Mode, c: Choice, m: Manager) {
    c.access.Unreadable? || !ValidMode(next) || m.mode == next || (expected.Some? && m.mode != expected.value)
  }

  function Rejected(expected: Option<Mode>, next: Mode): Kind {
    (pc: PC, c: Choice, m: Manager) =>
      pc == SwLock(expected, next) && expected.Some? && !(ValidMode(expected.value) && ValidMode(next))
  }

  function Checked(expected: Option<Mode>, next: Mode, skips: bool): Kind {
    (pc: PC, c: Choice, m: Manager) => pc == SwCheck(expected, next) && Skips(expected, next, c, m) == skips
  }

  function CheckedAt(expected: Option<Mode>, next: Mode, from: Mode): Kind {
    (pc: PC, c: Choice, m: Manager) =>
      pc == SwCheck(expected, next) && !Skips(expected, next, c, m) && m.loaded && m.mode == from
  }

  function Preempting(fails: bool): Kind {
    (pc: PC, c: Choice, m: Manager) => pc.SwPreempt? && c.fails == fails
  }

  function GivingUp(): Kind {
    (pc: PC, c: Choice, m: Manager) => pc.SwParked? && c.timeout
  }

  function Cleaning(fails: bool): Kind {
    (pc: PC, c: Choice, m: Manager) => pc.SwCleanup? && c.fails == fails
  }

  function Saving(next: Mode, result: SaveResult): Kind {
    (pc: PC, c: Choice, m: Manager) => pc.SwSave? && pc.next == next && c.save == result
  }

  function RollingBack(result: SaveResult): Kind {
    (pc: PC, c: Choice, m: Manager) => pc.SwRollback? && c.save == result
  }

  function Unlocking(): Kind {
    (pc: PC, c: Choice, m: Manager) => pc.SwUnlock?
  }

  // ---------------------------------------------------------------- the course of a switch

  /** How thread t came to this outcome. */
  ghost predicate Course(states: seq<Sys>, events: seq<Event>, i: nat, t: nat, expected: Option<Mode>, next: Mode,
      from: Mode, o: Outcome)
  {
    if o.Skipped? then Did(states, events, i, t, Checked(expected, next, true))
    else
      && Did(states, events, i, t, CheckedAt(expected, next, from))
      && Did(states, events, i, t, Preempting(o.PreemptFailed?))
      && match o
         case Skipped => true
         case PreemptFailed => true
         case TimedOut => Did(states, events, i, t, GivingUp())
         case CleanupFailed(stored) =>
           && Did(states, events, i, t, Cleaning(true))
           && if stored
              then Did(states, events, i, t, RollingBack(Saved)) || Did(states, events, i, t, RollingBack(FailedLate))
              else Did(states, events, i, t, RollingBack(FailedEarly))
         case SaveFailed(stored) =>
           && Did(states, events, i, t, Cleaning(false))
           && Did(states, events, i, t, Saving(next, if stored then FailedLate else FailedEarly))
         case Switched => Did(states, events, i, t, Cleaning(false)) && Did(states, events, i, t, Saving(next, Saved))
  }

  /** What thread t has behind it, wherever it stands now. */
  ghost predicate Story(states: seq<Sys>, events: seq<Event>, i: nat, t: nat, expected: Option<Mode>, next: Mode)
    requires i < |states| && t in states[i].threads
  {
    match states[i].threads[t]
    case Exited =>
      Did(states, events, i, t, Rejected(expected, next)) || Did(states, events, i, t, Unlocking())
    case SwLock(e, n) => e == expected && n == next
    case SwCheck(e, n) => e == expected && n == next
    case SwMark(from, n) => n == next && Did(states, events, i, t, CheckedAt(expected, next, from))
    case SwPreempt(from, n) => n == next && Did(states, events, i, t, CheckedAt(expected, next, from))
    case SwEnter(from, n) => n == next && Entering(states, events, i, t, expected, next, from)
    case SwParked(from, n, _) => n == next && Entering(states, events, i, t, expected, next, from)
    case SwCleanup(from, n) => n == next && Entering(states, events, i, t, expected, next, from)
    case SwSave(from, n) =>
      n == next && Entering(states, events, i, t, expected, next, from) && Did(states, events, i, t, Cleaning(false))
    case SwRollback(from, n) =>
      n == next && Entering(states, events, i, t, expected, next, from) && Did(states, events, i, t, Cleaning(true))
    case SwLeave(from, n, o) => n == next && Course(states, events, i, t, expected, next, from, o)
    case SwUnmark(from, n, o) => n == next && Course(states, events, i, t, expected, next, from, o)
    case SwUnlock(from, n, o) => n == next && Course(states, events, i, t, expected, next, from, o)
    case _ => false
  }

  ghost predicate Entering(states: seq<Sys>, events: seq<Event>, i: nat, t: nat, expected: Option<Mode>, next: Mode,
      from: Mode)
  {
    && Did(states, events, i, t, CheckedAt(expected, next, from))
    && Did(states, events, i, t, Preempting(false))
  }

  /** A check at which the thread holds the mutex, so that nobody has marked a transition. */
  lemma CheckStep(s: Sys, t: nat, c: Choice)
    requires Inv(s) && t in s.threads && s.threads[t].SwCheck?
    ensures var pc, a := s.threads[t], ActSwCheck(s.shared, s.threads[t], c);
            && (Skips(pc.expected, pc.next, c, a.shared.mgr) ==>
                  a.pc.SwUnlock? && a.pc.next == pc.next && a.pc.outcome == Skipped)
            && (!Skips(pc.expected, pc.next, c, a.shared.mgr) ==>
                  a.shared.mgr.loaded && a.pc == SwMark(a.shared.mgr.mode, pc.next))
  {
    hide Inv;
    SwitchFacts(s, t);
  }

  lemma StoryLocks(states: seq<Sys>, events: seq<Event>, i: nat, t: nat, expected: Option<Mode>, next: Mode)
    requires IsRun(states, events) && i < |events| == |states| - 1 && Inv(states[i]) && t in states[i].threads
    requires events[i].Run? && events[i].t == t && (states[i].threads[t].SwLock? || states[i].threads[t].SwCheck?)
    requires Story(states, events, i, t, expected, next)
    ensures t in states[i + 1].threads && Story(states, events, i + 1, t, expected, next)
  {
    hide Inv, Did, Load, IsRun;
    var s, c := states[i], events[i].c;
    OwnStep(states, events, i, t);
    if s.threads[t].SwLock? {
      if Rejected(expected, next)(s.threads[t], c, states[i + 1].shared.mgr) {
        DidNow(states, events, i, t, Rejected(expected, next));
      }
    } else {
      CheckStep(s, t, c);
      var m := states[i + 1].shared.mgr;
      if Skips(expected, next, c, m) {
        DidNow(states, events, i, t, Checked(expected, next, true));
      } else {
        DidNow(states, events, i, t, CheckedAt(expected, next, m.mode));
      }
    }
  }

  /** The step of a switch's own thread. */
  lemma OwnStep(states: seq<Sys>, events: seq<Event>, i: nat, t: nat)
    requires IsRun(states, events) && i < |events| && t in states[i].threads && IsSwitchPC(states[i].threads[t])
    requires events[i].Run? && events[i].t == t
    ensures var a := ActSwitch(states[i].shared, t, states[i].threads[t], events[i].c);
            t in states[i + 1].threads && states[i + 1].threads[t] == a.pc && states[i + 1].shared == a.shared
  {
    hide ActSwitch, ActManual, ActLease;
    RunStep(states, events, i);
  }

  predicate EarlyPC(pc: PC) {
    pc.SwMark? || pc.SwPreempt? || pc.SwEnter? || pc.SwParked? || pc.SwCleanup?
  }

  lemma StoryEarly(states: seq<Sys>, events: seq<Event>, i: nat, t: nat, expected: Option<Mode>, next: Mode)
    requires IsRun(states, events) && i < |events| == |states| - 1 && t in states[i].threads
    requires events[i].Run? && events[i].t == t && EarlyPC(states[i].threads[t])
    requires Story(states, events, i, t, expected, next)
    ensures t in states[i + 1].threads && Story(states, events, i + 1, t, expected, next)
  {
    hide Did, CheckedAt, Cancel, PassExclusive, IsRun;
    var c := events[i].c;
    OwnStep(states, events, i, t);
    DidBefore(states, events, i, t);
    match states[i].threads[t] {
      case SwPreempt(_, _) => DidNow(states, events, i, t, Preempting(c.fails));
      case SwParked(_, _, _) => if c.timeout { DidNow(states, events, i, t, GivingUp()); }
      case SwCleanup(_, _) => DidNow(states, events, i, t, Cleaning(c.fails));
      case _ =>
    }
  }

  lemma StoryLate(states: seq<Sys>, events: seq<Event>, i: nat, t: nat, expected: Option<Mode>, next: Mode)
    requires IsRun(states, events) && i < |events| == |states| - 1 && t in states[i].threads
    requires events[i].Run? && events[i].t == t && IsSwitchPC(states[i].threads[t])
    requires !EarlyPC(states[i].threads[t]) && !states[i].threads[t].SwLock? && !states[i].threads[t].SwCheck?
    requires Story(states, events, i, t, expected, next)
    ensures t in states[i + 1].threads && Story(states, events, i + 1, t, expected, next)
  {
    hide Did, CheckedAt, Checked, Save, ReleaseExclusive, IsRun;
    var c := events[i].c;
    OwnStep(states, events, i, t);
    DidBefore(states, events, i, t);
    match states[i].threads[t] {
      case SwSave(_, _) => DidNow(states, events, i, t, Saving(next, c.save));
      case SwRollback(_, _) => DidNow(states, events, i, t, RollingBack(c.save));
      case SwUnlock(_, _, _) => DidNow(states, events, i, t, Unlocking());
      case _ =>
    }
  }

  lemma StoryElsewhere(states: seq<Sys>, events: seq<Event>, i: nat, t: nat, expected: Option<Mode>, next: Mode)
    requires IsRun(states, events) && i < |events| && t in states[i].threads
    requires !(events[i].Run? && events[i].t == t) || states[i].threads[t].Exited?
    requires Story(states, events, i, t, expected, next)
    ensures t in states[i + 1].threads && Story(states, events, i + 1, t, expected, next)
  {
    hide Did, Act;
    RunStep(states, events, i);
    DidBefore(states, events, i, t);
    StaysPut(states[i], events[i], t);
  }

  lemma StaysPut(s: Sys, e: Event, t: nat)
    requires Enabled(s, e) && t in s.threads && (!(e.Run? && e.t == t) || s.threads[t].Exited?)
    ensures t in Next(s, e).threads && Next(s, e).threads[t] == s.threads[t]
  {
    if e.Run? && e.t != t {
      hide Act;
    }
  }

  /** Wherever the thread of a switch stands, it has the steps behind it that lead there. */
  lemma {:induction false} SwitchStory(states: seq<Sys>, events: seq<Event>, start: nat, i: nat, t: nat,
      expected: Option<Mode>, next: Mode)
    requires IsRun(states, events) && start < i < |states| && events[start] == Spawn(t, SwLock(expected, next))
    ensures t in states[i].threads && Story(states, events, i, t, expected, next)
    decreases i
  {
    hide Story, Next, Enabled, Inv;
    RunStep(states, events, start);
    if i == start + 1 {
      StoryBegins(states, events, start, t, expected, next);
    } else {
      SwitchStory(states, events, start, i - 1, t, expected, next);
      InvOnRuns(states, events, i - 1);
      StoryStep(states, events, i - 1, t, expected, next);
    }
  }

  lemma StoryBegins(states: seq<Sys>, events: seq<Event>, i: nat, t: nat, expected: Option<Mode>, next: Mode)
    requires IsRun(states, events) && i < |events| && events[i] == Spawn(t, SwLock(expected, next))
    ensures t in states[i + 1].threads && Story(states, events, i + 1, t, expected, next)
  {
    RunStep(states, events, i);
  }

  lemma StoryStep(states: seq<Sys>, events: seq<Event>, i: nat, t: nat, expected: Option<Mode>, next: Mode)
    requires IsRun(states, events) && i < |events| && Inv(states[i]) && t in states[i].threads
    requires Story(states, events, i, t, expected, next)
    ensures t in states[i + 1].threads && Story(states, events, i + 1, t, expected, next)
  {
    hide Inv, Did, Course, Entering, Next, Enabled;
    var pc := states[i].threads[t];
    if !(events[i].Run? && events[i].t == t) || pc.Exited? {
      StoryElsewhere(states, events, i, t, expected, next);
    } else if pc.SwLock? || pc.SwCheck? {
      StoryLocks(states, events, i, t, expected, next);
    } else if EarlyPC(pc) {
      StoryEarly(states, events, i, t, expected, next);
    } else {
      StoryLate(states, events, i, t, expected, next);
    }
  }

  // ---------------------------------------------------------------- theorems

  /** A switch that is about to give up the mutex has just the course behind it that its outcome
      stands for: each stage was passed, and the one that failed is the one the outcome names. */
  lemma SwitchHasItsCourse(states: seq<Sys>, events: seq<Event>, start: nat, i: nat, t: nat,
      expected: Option<Mode>, next: Mode)
    requires IsRun(states, events) && start < i < |states| && events[start] == Spawn(t, SwLock(expected, next))
    ensures t in states[i].threads && (states[i].threads[t].SwUnlock? ==>
              states[i].threads[t].next == next
              && Course(states, events, i, t, expected, next, states[i].threads[t].from, states[i].threads[t].outcome))
    ensures states[i].threads[t].Exited? ==>
              Did(states, events, i, t, Rejected(expected, next)) || Did(states, events, i, t, Unlocking())
  {
    hide Did, IsRun, Course;
    SwitchStory(states, events, start, i, t, expected, next);
  }

  /** Between the check and the outcome. */
  predicate MidPC(pc: PC) {
    EarlyPC(pc) || pc.SwSave? || pc.SwRollback?
  }

  predicate HasOutcome(pc: PC) {
    pc.SwLeave? || pc.SwUnmark? || pc.SwUnlock?
  }

  /** Where a switch can be after a check that found mode `from`. */
  predicate After(pc: PC, skips: bool, from: Mode) {
    || pc.Exited?
    || (if skips then pc.SwUnlock? && pc.outcome.Skipped?
        else (MidPC(pc) || (HasOutcome(pc) && !pc.outcome.Skipped?)) && pc.from == from)
  }

  lemma AfterStep(h: Shared, t: nat, pc: PC, c: Choice, skips: bool, from: Mode)
    requires After(pc, skips, from) && IsSwitchPC(pc)
    ensures After(ActSwitch(h, t, pc, c).pc, skips, from)
    ensures HasOutcome(pc) ==> !MidPC(ActSwitch(h, t, pc, c).pc)
  {
    hide Load, Save, Cancel, PassExclusive, ReleaseExclusive;
  }

  lemma AfterNext(states: seq<Sys>, events: seq<Event>, i: nat, t: nat, skips: bool, from: Mode)
    requires IsRun(states, events) && i < |events| && t in states[i].threads
    requires After(states[i].threads[t], skips, from)
    ensures t in states[i + 1].threads && After(states[i + 1].threads[t], skips, from)
    ensures !MidPC(states[i].threads[t]) ==> !MidPC(states[i + 1].threads[t])
  {
    hide ActSwitch, Next, Enabled;
    RunStep(states, events, i);
    if !(events[i].Run? && events[i].t == t) || states[i].threads[t].Exited? {
      StaysPut(states[i], events[i], t);
    } else {
      OwnStep(states, events, i, t);
      AfterStep(states[i].shared, t, states[i].threads[t], events[i].c, skips, from);
    }
  }

  /** The step in which thread t checks the mode. */
  predicate ChecksAt(states: seq<Sys>, events: seq<Event>, k: nat, t: nat) {
    && k < |events| == |states| - 1 && events[k].Run? && events[k].t == t
    && t in states[k].threads && states[k].threads[t].SwCheck?
  }

  predicate SkipsAt(states: seq<Sys>, events: seq<Event>, k: nat, t: nat)
    requires ChecksAt(states, events, k, t)
  {
    var pc := states[k].threads[t];
    Skips(pc.expected, pc.next, events[k].c, states[k + 1].shared.mgr)
  }

  lemma {:induction false} AfterCheck(states: seq<Sys>, events: seq<Event>, k: nat, i: nat, t: nat)
    requires IsRun(states, events) && k < i < |states| && ChecksAt(states, events, k, t)
    ensures t in states[i].threads
    ensures After(states[i].threads[t], SkipsAt(states, events, k, t), states[k + 1].shared.mgr.mode)
    decreases i
  {
    hide Next, Enabled, Inv, ActSwCheck, Skips;
    if i == k + 1 {
      InvOnRuns(states, events, k);
      CheckStep(states[k], t, events[k].c);
      OwnStep(states, events, k, t);
    } else {
      AfterCheck(states, events, k, i - 1, t);
      AfterNext(states, events, i - 1, t, SkipsAt(states, events, k, t), states[k + 1].shared.mgr.mode);
    }
  }

  /** A switch comes to nothing exactly if, at its check, the mode could not be read, the target was
      not a mode, the mode was the target already, or it was not the one that the caller expected. */
  lemma SwitchSkippedIff(states: seq<Sys>, events: seq<Event>, k: nat, i: nat, t: nat)
    requires IsRun(states, events) && k < i < |states| && ChecksAt(states, events, k, t)
    requires t in states[i].threads && states[i].threads[t].SwUnlock?
    ensures states[i].threads[t].outcome.Skipped? <==> SkipsAt(states, events, k, t)
  {
    AfterCheck(states, events, k, i, t);
  }

  /** A step that marks a transition, changes the mode in force, or changes the mode file. */
  predicate Touches(m: Manager, m': Manager) {
    || (!m.transitioning && m'.transitioning)
    || (m.loaded && (!m'.loaded || m'.mode != m.mode))
    || m'.file != m.file
  }

  lemma TouchingStep(h: Shared, t: nat, pc: PC, c: Choice)
    requires IsSwitchPC(pc) && ManagerOk(h.mgr) && Touches(h.mgr, ActSwitch(h, t, pc, c).shared.mgr)
    ensures MidPC(pc)
  {
    hide Cancel, PassExclusive, ReleaseExclusive;
  }

  lemma MidFacts(s: Sys, t: nat)
    requires Inv(s) && t in s.threads && MidPC(s.threads[t])
    ensures s.shared.mgr.loaded && s.shared.mgr.mode == s.threads[t].from
  {
    hide Inv;
    SwitchFacts(s, t);
  }

  lemma MidChecked(states: seq<Sys>, events: seq<Event>, i: nat, t: nat, expected: Option<Mode>, next: Mode)
    requires i < |states| && t in states[i].threads && MidPC(states[i].threads[t])
    requires Story(states, events, i, t, expected, next)
    ensures Did(states, events, i, t, CheckedAt(expected, next, states[i].threads[t].from))
  {
    hide Did, CheckedAt, Cleaning, Preempting;
  }

  lemma {:induction false} MidAllAlong(states: seq<Sys>, events: seq<Event>, j: nat, m: nat, k: nat, t: nat)
    requires IsRun(states, events) && j < m <= k < |states| && ChecksAt(states, events, j, t)
    requires t in states[k].threads && MidPC(states[k].threads[t])
    ensures t in states[m].threads && MidPC(states[m].threads[t])
    ensures states[m].threads[t].from == states[j + 1].shared.mgr.mode
    decreases k - m
  {
    hide Next, Enabled, IsRun;
    AfterCheck(states, events, j, m, t);
    if m < k {
      MidAllAlong(states, events, j, m + 1, k, t);
      AfterNext(states, events, m, t, SkipsAt(states, events, j, t), states[j + 1].shared.mgr.mode);
    }
  }

  lemma TouchesOnSwitch(states: seq<Sys>, events: seq<Event>, i: nat, t: nat, expected: Option<Mode>, next: Mode)
    requires IsRun(states, events) && i < |events| && t in states[i].threads && events[i].Run? && events[i].t == t
    requires Story(states, events, i, t, expected, next)
    requires Touches(states[i].shared.mgr, states[i + 1].shared.mgr)
    ensures IsSwitchPC(states[i].threads[t])
    ensures states[i + 1].shared == ActSwitch(states[i].shared, t, states[i].threads[t], events[i].c).shared
  {
    hide Did, Entering, Course, ActSwitch, ActManual;
    RunStep(states, events, i);
    if !states[i].threads[t].Exited? {
      OwnStep(states, events, i, t);
    }
  }

  lemma Found(states: seq<Sys>, events: seq<Event>, j: nat, t: nat, expected: Option<Mode>, next: Mode, from: Mode)
    requires |events| == |states| - 1 && Took(states, events, j, t, CheckedAt(expected, next, from))
    ensures ChecksAt(states, events, j, t) && !SkipsAt(states, events, j, t)
    ensures states[j].threads[t] == SwCheck(expected, next) && states[j + 1].shared.mgr.mode == from
    ensures expected.Some? ==> from == expected.value
  {
  }

  /** The mode is the one this thread found, from its check at j up to state k. */
  ghost predicate Steady(states: seq<Sys>, j: nat, k: nat, mode: Mode) {
    k < |states| && forall m :: j < m <= k ==> states[m].shared.mgr.loaded && states[m].shared.mgr.mode == mode
  }

  /** A switch marks a transition, changes the mode or changes its file only if the mode that it found
      at its check is still in force; and for a conditional switch that is the mode it expects. */
  lemma SwitchIfNeedsItsMode(states: seq<Sys>, events: seq<Event>, start: nat, k: nat, t: nat,
      expected: Option<Mode>, next: Mode)
    requires IsRun(states, events) && start < k < |events| && events[start] == Spawn(t, SwLock(expected, next))
    requires events[k].Run? && events[k].t == t && Touches(states[k].shared.mgr, states[k + 1].shared.mgr)
    ensures exists j: nat :: j < k && ChecksAt(states, events, j, t) && !SkipsAt(states, events, j, t)
                       && states[j].threads[t] == SwCheck(expected, next)
                       && Steady(states, j, k, states[k].shared.mgr.mode)
    ensures expected.Some? ==> states[k].shared.mgr.mode == expected.value
  {
    hide Next, Enabled, Inv, Story, Touches, ActSwitch, Skips;
    SwitchStory(states, events, start, k, t, expected, next);
    InvOnRuns(states, events, k);
    TouchesOnSwitch(states, events, k, t, expected, next);
    SwitchFacts(states[k], t);
    TouchingStep(states[k].shared, t, states[k].threads[t], events[k].c);
    MidChecked(states, events, k, t, expected, next);
    MidFacts(states[k], t);
    var from := states[k].threads[t].from;
    var j: nat :| j < k && Took(states, events, j, t, CheckedAt(expected, next, from));
    Found(states, events, j, t, expected, next, from);
    forall m | j < m <= k
      ensures states[m].shared.mgr.loaded && states[m].shared.mgr.mode == from
    {
      MidAllAlong(states, events, j, m, k, t);
      InvOnRuns(states, events, m);
      MidFacts(states[m], t);
    }
    assert Steady(states, j, k, from);
  }
}
