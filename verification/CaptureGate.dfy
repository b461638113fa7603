/**
 captureGate keeps uses of the capture library (frame reads, control calls) apart from its teardown
 and rebuild.

 `LibAfter` says, without reference to the gate, what the library tolerates. The class makes whole
 calls on the live flag; the step system interleaves any number of calls at the read/write lock and
 at the beginning and end of every callback. A new reader may overtake a waiting writer in it, which
 the lock of the original forbids, so it has every run of the original and more.
 */
module CaptureGates {
  import opened Wrappers

  // ---------------------------------------------------------------- what the library tolerates

  datatype LibEvent = BeginUse | EndUse | BeginDeinit | EndDeinit | BeginInit | EndInit

  datatype Lib = Up(users: nat) | Deinitializing | Down | Initializing | Broken

  function LibStep(l: Lib, e: LibEvent): Lib {
    match (l, e)
    case (Up(n), BeginUse) => Up(n + 1)
    case (Up(n), EndUse) => if n > 0 then Up(n - 1) else Broken
    case (Up(n), BeginDeinit) => if n == 0 then Deinitializing else Broken
    case (Deinitializing, EndDeinit) => Down
    case (Down, BeginInit) => Initializing
    case (Initializing, EndInit) => Up(0)
    case _ => Broken
  }

  /** The library after a trace of calls, starting up and unused. */
  function LibAfter(trace: seq<LibEvent>): Lib {
    if trace == [] then Up(0) else LibStep(LibAfter(trace[..|trace| - 1]), trace[|trace| - 1])
  }

  lemma LibAfterOne(trace: seq<LibEvent>, e: LibEvent)
    ensures LibAfter(trace + [e]) == LibStep(LibAfter(trace), e)
  {
    assert (trace + [e])[..|trace|] == trace;
  }

  lemma {:induction false} LegalPrefix(trace: seq<LibEvent>, n: nat)
    requires n <= |trace| && !LibAfter(trace).Broken?
    ensures !LibAfter(trace[..n]).Broken?
  {
    if n < |trace| {
      LegalPrefix(trace[..|trace| - 1], n);
      assert trace[..|trace| - 1][..n] == trace[..n];
    } else {
      assert trace[..n] == trace;
    }
  }

  /** The teardowns and rebuilds of a trace, in order. */
  function Lifecycle(trace: seq<LibEvent>): seq<LibEvent> {
    if trace == [] then []
    else Lifecycle(trace[..|trace| - 1])
         + if trace[|trace| - 1].BeginUse? || trace[|trace| - 1].EndUse? then [] else [trace[|trace| - 1]]
  }

  const CYCLE: seq<LibEvent> := [BeginDeinit, EndDeinit, BeginInit, EndInit]

  /** Teardown and rebuild strictly alternate, teardown first, and neither overlaps the other. */
  lemma {:induction false} LegalAlternates(trace: seq<LibEvent>)
    requires !LibAfter(trace).Broken?
    ensures var life := Lifecycle(trace);
            && (forall i :: 0 <= i < |life| ==> life[i] == CYCLE[i % 4])
            && (|life| % 4 == match LibAfter(trace) case Up(_) => 0 case Deinitializing => 1 case Down => 2 case _ => 3)
  {
    if trace != [] {
      LegalAlternates(trace[..|trace| - 1]);
    }
  }

  /** Where a use begins, every teardown begun before it was followed by a finished rebuild; where a
      teardown begins, every use begun before it has ended. */
  lemma LegalExcludes(trace: seq<LibEvent>, n: nat)
    requires n < |trace| && !LibAfter(trace).Broken?
    ensures trace[n].BeginUse? ==> LibAfter(trace[..n]).Up? && |Lifecycle(trace[..n])| % 4 == 0
    ensures trace[n].BeginDeinit? ==> Uses(trace[..n]) == 0
  {
    LegalPrefix(trace, n + 1);
    LegalPrefix(trace, n);
    LegalAlternates(trace[..n]);
    LegalUses(trace[..n]);
    assert trace[..n + 1] == trace[..n] + [trace[n]];
    LibAfterOne(trace[..n], trace[n]);
  }

  /** Uses begun and not ended. */
  function Uses(trace: seq<LibEvent>): int {
    if trace == [] then 0
    else Uses(trace[..|trace| - 1])
         + match trace[|trace| - 1] case BeginUse => 1 case EndUse => -1 case _ => 0
  }

  lemma {:induction false} LegalUses(trace: seq<LibEvent>)
    requires !LibAfter(trace).Broken?
    ensures Uses(trace) == match LibAfter(trace) case Up(n) => n case _ => 0
  {
    if trace != [] {
      LegalUses(trace[..|trace| - 1]);
    }
  }

  // ---------------------------------------------------------------- the gate, call by call

  class CaptureGate {
    var live: bool
    ghost var calls: seq<LibEvent>

    ghost predicate Valid()
      reads this
    {
      LibAfter(calls) == if live then Up(0) else Down
    }

    constructor ()
      ensures Valid() && live && calls == []
    {
      live, calls := true, [];
    }

    method Call(begin: LibEvent, end: LibEvent)
      modifies `calls
      ensures calls == old(calls) + [begin, end]
      ensures LibAfter(calls) == LibStep(LibStep(LibAfter(old(calls)), begin), end)
    {
      LibAfterOne(calls, begin);
      calls := calls + [begin];
      LibAfterOne(calls, end);
      calls := calls + [end];
      assert calls == old(calls) + [begin, end];
    }

    /** A call that nothing interrupts always reads, rebuilding first if it has to. */
    method WithRead() returns (ran: bool)
      requires Valid()
      modifies this
      ensures Valid() && live && ran
      ensures calls == old(calls) + (if old(live) then [] else [BeginInit, EndInit]) + [BeginUse, EndUse]
    {
      if live {
        Call(BeginUse, EndUse);
        return true;
      }
      Resume();
      if !live {
        return false;
      }
      Call(BeginUse, EndUse);
      return true;
    }

    method Stop()
      requires Valid()
      modifies this
      ensures Valid() && !live
      ensures calls == old(calls) + if old(live) then [BeginDeinit, EndDeinit] else []
    {
      if !live {
        return;
      }
      Call(BeginDeinit, EndDeinit);
      live := false;
    }

    method Resume()
      requires Valid()
      modifies this
      ensures Valid() && live
      ensures calls == old(calls) + if old(live) then [] else [BeginInit, EndInit]
    {
      if live {
        return;
      }
      Call(BeginInit, EndInit);
      live := true;
    }

    method WithLive() returns (ran: bool)
      requires Valid()
      modifies `calls
      ensures Valid() && ran == live
      ensures calls == old(calls) + if live then [BeginUse, EndUse] else []
    {
      if !live {
        return false;
      }
      Call(BeginUse, EndUse);
      return true;
    }
  }

  // ---------------------------------------------------------------- the step system

  datatype Op = WithRead | Stop | Resume | WithLive

  /** Where a call stands. `from` is the length of the trace when its rebuild released the lock. */
  datatype PC =
    | Called(op: Op)
    | ReadLocked(op: Op)
    | Upgrading
    | WriteLocked(op: Op)
    | Initing(op: Op)
    | Inited(op: Op)
    | Deiniting
    | Deinited
    | Unlocking(op: Op)
    | Retrying(from: nat)
    | RetryLocked(from: nat)
    | Using
    | Used
    | Refused(from: nat)
    | Done(ran: bool)

  /** Who holds the lock follows from where the calls stand. */
  datatype Sys = Sys(live: bool, calls: map<nat, PC>, trace: seq<LibEvent>)

  datatype Event = Call(t: nat, op: Op) | Step(t: nat)

  const INITIAL := Sys(true, map[], [])

  predicate HoldsRead(pc: PC) {
    pc.ReadLocked? || pc.RetryLocked? || pc.Using? || pc.Used? || pc.Refused?
  }

  predicate HoldsWrite(pc: PC) {
    pc.WriteLocked? || pc.Initing? || pc.Inited? || pc.Deiniting? || pc.Deinited? || pc.Unlocking?
  }

  ghost predicate ReadFree(s: Sys) {
    forall t :: t in s.calls ==> !HoldsWrite(s.calls[t])
  }

  ghost predicate WriteFree(s: Sys) {
    forall t :: t in s.calls ==> !HoldsWrite(s.calls[t]) && !HoldsRead(s.calls[t])
  }

  ghost predicate Enabled(s: Sys, e: Event) {
    match e
    case Call(t, _) => t !in s.calls
    case Step(t) =>
      t in s.calls
      && match s.calls[t]
         case Called(op) => if op.WithRead? || op.WithLive? then ReadFree(s) else WriteFree(s)
         case Upgrading => WriteFree(s)
         case Retrying(_) => ReadFree(s)
         case Done(_) => false
         case _ => true
  }

  function Move(s: Sys, t: nat, pc: PC): Sys {
    s.(calls := s.calls[t := pc])
  }

  function Emit(s: Sys, t: nat, pc: PC, e: LibEvent): Sys {
    s.(calls := s.calls[t := pc], trace := s.trace + [e])
  }

  /** One step of a call. A check of live under the lock and the branch it takes are one step. */
  function StepCall(s: Sys, t: nat): Sys
    requires t in s.calls
  {
    match s.calls[t]
    case Called(op) => Move(s, t, if op.WithRead? || op.WithLive? then ReadLocked(op) else WriteLocked(op))
    case ReadLocked(op) =>
      if s.live then Emit(s, t, Using, BeginUse)
      else Move(s, t, if op.WithRead? then Upgrading else Done(false))
    case Upgrading => Move(s, t, WriteLocked(WithRead))
    case WriteLocked(op) =>
      if op.Stop? then (if s.live then Emit(s, t, Deiniting, BeginDeinit) else Move(s, t, Unlocking(op)))
      else if s.live then Move(s, t, Unlocking(op)) else Emit(s, t, Initing(op), BeginInit)
    case Initing(op) => Emit(s, t, Inited(op), EndInit)
    case Inited(op) => Move(s.(live := true), t, Unlocking(op))
    case Deiniting => Emit(s, t, Deinited, EndDeinit)
    case Deinited => Move(s.(live := false), t, Unlocking(Stop))
    case Unlocking(op) => Move(s, t, if op.WithRead? then Retrying(|s.trace|) else Done(true))
    case Retrying(from) => Move(s, t, RetryLocked(from))
    case RetryLocked(from) => if s.live then Emit(s, t, Using, BeginUse) else Move(s, t, Refused(from))
    case Using => Emit(s, t, Used, EndUse)
    case Used => Move(s, t, Done(true))
    case Refused(_) => Move(s, t, Done(false))
    case Done(_) => s
  }

  ghost function Next(s: Sys, e: Event): Sys
    requires Enabled(s, e)
  {
    match e
    case Call(t, op) => Move(s, t, Called(op))
    case Step(t) => StepCall(s, t)
  }

  ghost predicate IsRun(states: seq<Sys>, events: seq<Event>) {
    && |states| == |events| + 1 && states[0] == INITIAL
    && forall i :: 0 <= i < |events| ==> Enabled(states[i], events[i]) && states[i + 1] == Next(states[i], events[i])
  }

  // ---------------------------------------------------------------- the invariant

  function Users(calls: map<nat, PC>): set<nat> {
    set t | t in calls && calls[t].Using?
  }

  /** The read/write lock does its job. */
  ghost predicate InvLock(s: Sys) {
    forall t, u :: t in s.calls && u in s.calls && t != u && HoldsWrite(s.calls[t]) ==>
      !HoldsWrite(s.calls[u]) && !HoldsRead(s.calls[u])
  }

  predicate Mid(pc: PC) {
    pc.Initing? || pc.Inited? || pc.Deiniting? || pc.Deinited?
  }

  /** What a call knows about the flag while it holds the lock. */
  predicate Knows(s: Sys, pc: PC) {
    && (pc.Using? || pc.Used? || pc.Deiniting? || pc.Deinited? ==> s.live)
    && (pc.Initing? || pc.Inited? || pc.Refused? ==> !s.live)
    && (pc.Unlocking? && !pc.op.Stop? ==> s.live)
    && (pc.Initing? || pc.Inited? ==> !pc.op.Stop?)
  }

  ghost predicate InvKnows(s: Sys) {
    forall t :: t in s.calls ==> Knows(s, s.calls[t])
  }

  /** The library is where the flag and the writer, if there is one, say it is. */
  predicate LibIs(s: Sys, pc: PC) {
    match pc
    case Initing(_) => LibAfter(s.trace) == Initializing
    case Inited(_) => LibAfter(s.trace) == Up(0)
    case Deiniting => LibAfter(s.trace) == Deinitializing
    case Deinited => LibAfter(s.trace) == Down
    case _ => true
  }

  ghost predicate Settled(s: Sys) {
    forall t :: t in s.calls ==> !Mid(s.calls[t])
  }

  ghost predicate InvLib(s: Sys) {
    && !LibAfter(s.trace).Broken?
    && (forall t :: t in s.calls ==> LibIs(s, s.calls[t]))
    && (Settled(s) ==> LibAfter(s.trace) == if s.live then Up(|Users(s.calls)|) else Down)
  }

  /** Since its rebuild, a reader has either seen the library up or been overtaken by a teardown. */
  predicate Overtaken(s: Sys, pc: PC) {
    pc.Retrying? || pc.RetryLocked? || pc.Refused? ==>
      pc.from <= |s.trace| && (LibAfter(s.trace).Up? || BeginDeinit in s.trace[pc.from..])
  }

  ghost predicate InvOvertaken(s: Sys) {
    forall t :: t in s.calls ==> Overtaken(s, s.calls[t])
  }

  ghost predicate Inv(s: Sys) {
    InvLock(s) && InvKnows(s) && InvLib(s) && InvOvertaken(s)
  }

  lemma UsersMoves(calls: map<nat, PC>, t: nat, pc: PC)
    ensures |Users(calls[t := pc])|
            == |Users(calls)| + (if pc.Using? then 1 else 0) - (if t in calls && calls[t].Using? then 1 else 0)
  {
    var a, b := Users(calls), Users(calls[t := pc]);
    assert a - {t} == b - {t};
    assert |a - {t}| == |a| - if t in a then 1 else 0;
    assert |b - {t}| == |b| - if t in b then 1 else 0;
  }

  lemma LockKept(s: Sys, e: Event)
    requires InvLock(s) && Enabled(s, e)
    ensures InvLock(Next(s, e))
  {
  }

  lemma KnowsKept(s: Sys, e: Event)
    requires InvLock(s) && InvKnows(s) && Enabled(s, e)
    ensures InvKnows(Next(s, e))
  {
  }

  lemma LibMoved(s: Sys, t: nat, pc: PC)
    requires InvLib(s) && !Mid(pc) && !pc.Using?
    requires t in s.calls ==> !Mid(s.calls[t]) && !s.calls[t].Using?
    ensures InvLib(Move(s, t, pc))
  {
    UsersMoves(s.calls, t, pc);
    var s' := Move(s, t, pc);
    if Settled(s') {
      forall u | u in s.calls
        ensures !Mid(s.calls[u])
      {
        assert u in s'.calls && (u != t ==> s'.calls[u] == s.calls[u]);
      }
      assert Settled(s);
    }
  }

  /** A use begins or ends under the read lock. */
  lemma LibUsed(s: Sys, t: nat, pc: PC, e: LibEvent)
    requires InvLock(s) && InvKnows(s) && InvLib(s) && t in s.calls && HoldsRead(s.calls[t]) && s.live
    requires if s.calls[t].Using? then pc.Used? && e.EndUse? else pc.Using? && e.BeginUse?
    ensures InvLib(Emit(s, t, pc, e))
  {
    assert Settled(s) by {
      forall u | u in s.calls ensures !Mid(s.calls[u]) { assert Mid(s.calls[u]) ==> HoldsWrite(s.calls[u]) && u != t; }
    }
    UsersMoves(s.calls, t, pc);
    LibAfterOne(s.trace, e);
    if s.calls[t].Using? {
      assert t in Users(s.calls);
    }
  }

  lemma WriterAlone(s: Sys, t: nat, pc: PC)
    requires InvLock(s) && t in s.calls && HoldsWrite(s.calls[t])
    ensures Users(s.calls) == {} && (!Mid(s.calls[t]) ==> Settled(s)) && (!Mid(pc) ==> Settled(Move(s, t, pc)))
    ensures forall u :: u in s.calls && u != t ==> !Mid(s.calls[u])
  {
  }

  /** A teardown or rebuild begins or ends under the write lock. */
  lemma LibWritten(s: Sys, t: nat, pc: PC, e: LibEvent)
    requires InvLock(s) && InvKnows(s) && InvLib(s) && t in s.calls && HoldsWrite(s.calls[t]) && Mid(pc)
    requires var was := s.calls[t];
             match e
             case BeginDeinit => was.WriteLocked? && s.live && pc.Deiniting?
             case EndDeinit => was.Deiniting? && pc.Deinited?
             case BeginInit => was.WriteLocked? && !s.live && pc.Initing?
             case EndInit => was.Initing? && pc.Inited?
             case _ => false
    ensures InvLib(Emit(s, t, pc, e))
  {
    WriterAlone(s, t, pc);
    LibAfterOne(s.trace, e);
    var s' := Emit(s, t, pc, e);
    assert s'.calls[t] == pc;
    assert forall u :: u in s.calls && u != t ==> s'.calls[u] == s.calls[u];
  }

  lemma LibFlagged(s: Sys, t: nat)
    requires InvLock(s) && InvLib(s) && t in s.calls && (s.calls[t].Inited? || s.calls[t].Deinited?)
    ensures InvLib(StepCall(s, t))
  {
    var s' := StepCall(s, t);
    WriterAlone(s, t, s'.calls[t]);
    UsersMoves(s.calls, t, s'.calls[t]);
    assert forall u :: u in s.calls && u != t ==> s'.calls[u] == s.calls[u];
  }

  lemma KnowsAt(s: Sys, t: nat)
    requires InvKnows(s) && t in s.calls
    ensures Knows(s, s.calls[t])
  {
  }

  lemma LibKept(s: Sys, t: nat)
    requires InvLock(s) && InvKnows(s) && InvLib(s) && t in s.calls
    ensures InvLib(StepCall(s, t))
  {
    hide InvLock, InvKnows, InvLib;
    var pc := s.calls[t];
    KnowsAt(s, t);
    match pc
    case ReadLocked(op) =>
      if s.live { LibUsed(s, t, Using, BeginUse); }
      else { LibMoved(s, t, if op.WithRead? then Upgrading else Done(false)); }
    case WriteLocked(op) =>
      if op.Stop? && s.live { LibWritten(s, t, Deiniting, BeginDeinit); }
      else if !op.Stop? && !s.live { LibWritten(s, t, Initing(op), BeginInit); }
      else { LibMoved(s, t, Unlocking(op)); }
    case Initing(op) => LibWritten(s, t, Inited(op), EndInit);
    case Deiniting => LibWritten(s, t, Deinited, EndDeinit);
    case Inited(_) => LibFlagged(s, t);
    case Deinited => LibFlagged(s, t);
    case RetryLocked(from) =>
      if s.live { LibUsed(s, t, Using, BeginUse); } else { LibMoved(s, t, Refused(from)); }
    case Using => LibUsed(s, t, Used, EndUse);
    case Done(_) =>
    case _ => LibMoved(s, t, StepCall(s, t).calls[t]);
  }

  lemma SlidingOne(q: seq<LibEvent>, e: LibEvent, n: nat)
    requires n <= |q|
    ensures (q + [e])[n..] == q[n..] + [e]
  {
  }

  lemma UpUnlessDeinit(trace: seq<LibEvent>, e: LibEvent)
    requires LibAfter(trace).Up? && !LibAfter(trace + [e]).Broken?
    ensures LibAfter(trace + [e]).Up? || e.BeginDeinit?
  {
    LibAfterOne(trace, e);
  }

  lemma OvertakenOn(s: Sys, s': Sys, pc: PC)
    requires Overtaken(s, pc) && !LibAfter(s'.trace).Broken?
    requires s'.trace == s.trace || exists e :: s'.trace == s.trace + [e]
    ensures Overtaken(s', pc)
  {
    hide LibAfter;
    if s'.trace != s.trace && (pc.Retrying? || pc.RetryLocked? || pc.Refused?) {
      var e :| s'.trace == s.trace + [e];
      SlidingOne(s.trace, e, pc.from);
      if LibAfter(s.trace).Up? {
        UpUnlessDeinit(s.trace, e);
      }
    }
  }

  lemma LibIsSound(s: Sys)
    requires InvLib(s)
    ensures !LibAfter(s.trace).Broken?
  {
  }

  lemma LibIsUp(s: Sys, pc: PC)
    requires InvLib(s) && Settled(s) && Knows(s, pc) && pc.Unlocking? && !pc.op.Stop?
    ensures LibAfter(s.trace).Up?
  {
  }

  lemma OvertakenCalled(s: Sys, t: nat, op: Op)
    requires InvOvertaken(s) && t !in s.calls
    ensures InvOvertaken(Move(s, t, Called(op)))
  {
  }

  lemma OvertakenItself(s: Sys, t: nat)
    requires InvLock(s) && InvLib(s) && InvOvertaken(s) && t in s.calls && Knows(s, s.calls[t])
    ensures Overtaken(StepCall(s, t), StepCall(s, t).calls[t])
  {
    hide InvLock, InvLib, Knows;
    var pc := s.calls[t];
    if pc.Unlocking? && pc.op.WithRead? {
      WriterAlone(s, t, Retrying(|s.trace|));
      LibIsUp(s, pc);
    } else {
      assert Overtaken(s, pc);
    }
  }

  lemma OvertakenKept(s: Sys, t: nat)
    requires Inv(s) && t in s.calls && !LibAfter(StepCall(s, t).trace).Broken?
    ensures InvOvertaken(StepCall(s, t))
  {
    hide InvLock, InvLib, LibAfter, InvKnows, Overtaken;
    var s', pc := StepCall(s, t), s.calls[t];
    assert Overtaken(s', s'.calls[t]) by {
      KnowsAt(s, t);
      OvertakenItself(s, t);
    }
    assert s'.trace == s.trace || s'.trace == s.trace + [s'.trace[|s'.trace| - 1]];
    forall u | u in s'.calls
      ensures Overtaken(s', s'.calls[u])
    {
      if u != t {
        OvertakenOn(s, s', s.calls[u]);
      }
    }
  }

  lemma {:induction false} InvOnRuns(states: seq<Sys>, events: seq<Event>, i: nat)
    requires IsRun(states, events) && i < |states|
    ensures Inv(states[i])
  {
    if i > 0 {
      hide InvLock, InvKnows, InvLib, InvOvertaken;
      InvOnRuns(states, events, i - 1);
      var s, e := states[i - 1], events[i - 1];
      LockKept(s, e);
      KnowsKept(s, e);
      match e
      case Call(t, op) =>
        LibMoved(s, t, Called(op));
        OvertakenCalled(s, t, op);
      case Step(t) =>
        LibKept(s, t);
        LibIsSound(states[i]);
        OvertakenKept(s, t);
    }
  }

  // ---------------------------------------------------------------- theorems

  /** Whatever the interleaving, the library never sees a call it does not tolerate. */
  lemma TraceIsLegal(states: seq<Sys>, events: seq<Event>, i: nat)
    requires IsRun(states, events) && i < |states|
    ensures !LibAfter(states[i].trace).Broken?
    ensures var life := Lifecycle(states[i].trace);
            forall k :: 0 <= k < |life| ==> life[k] == CYCLE[k % 4]
  {
    InvOnRuns(states, events, i);
    LegalAlternates(states[i].trace);
  }

  /** Every use begins with the library up; every teardown begins with no use in progress. */
  lemma UsesAndTeardownsExclude(states: seq<Sys>, events: seq<Event>, i: nat, n: nat)
    requires IsRun(states, events) && i < |states| && n < |states[i].trace|
    ensures var before := states[i].trace[..n];
            && (states[i].trace[n].BeginUse? ==> LibAfter(before).Up? && |Lifecycle(before)| % 4 == 0)
            && (states[i].trace[n].BeginDeinit? ==> Uses(before) == 0)
  {
    TraceIsLegal(states, events, i);
    LegalExcludes(states[i].trace, n);
  }

  /** When no call is in progress, the flag tells the truth about the library. */
  lemma FlagIsTrueWhenIdle(states: seq<Sys>, events: seq<Event>, i: nat)
    requires IsRun(states, events) && i < |states|
    requires forall t :: t in states[i].calls ==> states[i].calls[t].Done?
    ensures LibAfter(states[i].trace) == if states[i].live then Up(0) else Down
  {
    InvOnRuns(states, events, i);
    assert Users(states[i].calls) == {};
  }

  /** withRead refuses only if a teardown began after the call had found or made the library live. */
  lemma RefusalMeansTeardown(states: seq<Sys>, events: seq<Event>, i: nat, t: nat)
    requires IsRun(states, events) && i < |states|
    requires t in states[i].calls && states[i].calls[t].Refused?
    ensures var s := states[i]; s.calls[t].from <= |s.trace| && BeginDeinit in s.trace[s.calls[t].from..]
  {
    InvOnRuns(states, events, i);
    var s := states[i];
    assert Settled(s) by {
      forall u | u in s.calls ensures !Mid(s.calls[u]) { assert Mid(s.calls[u]) ==> HoldsWrite(s.calls[u]) && u != t; }
    }
    assert Knows(s, s.calls[t]) && Overtaken(s, s.calls[t]);
  }
}
