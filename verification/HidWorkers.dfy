/**
 The keyboard and mouse worker loops of the HID service.

 `Channel` is the report channel together with everything the loop does to the outside: `reports`
 are all reports that will ever be queued, in order, `accepts(n)` says whether the n-th write
 succeeds, and `waiting(n)` how many reports are already queued when the loop drains for the n-th
 time. The loops keep their flags in local variables, as the service does.
 */
module HidWorkers {
  import opened Wrappers
  import opened HidHost
  import opened HidRules
  import opened HidOrder

  /** The endpoint that a report is for; None for a report of the wrong length. */
  function KeyboardOf(r: Report): Option<Endpoint> {
    if |r| == 8 then Some(Keyboard) else None
  }

  function MouseOf(r: Report): Option<Endpoint> {
    if |r| == 4 then Some(Relative) else if |r| == 6 then Some(Absolute) else None
  }

  const KEYBOARD_RELEASE: Report := [0, 0, 0, 0, 0, 0, 0, 0]

  const RELATIVE_RELEASE: Report := [0, 0, 0, 0]

  function AbsoluteRelease(position: Report): (r: Report)
    ensures |r| == 6 && !Presses(Absolute, r)
  {
    if |position| >= 5 then [0] + position[1..5] + [0] else [0, 0, 0, 0, 0, 0]
  }

  class Channel {
    const reports: seq<Report>
    const accepts: nat -> bool
    const waiting: nat -> nat
    const endpointOf: Report -> Option<Endpoint>
    var next: nat
    var writes: nat
    var drains: nat
    var log: Log

    constructor (reports: seq<Report>, accepts: nat -> bool, waiting: nat -> nat,
        endpointOf: Report -> Option<Endpoint>)
      ensures this.reports == reports && this.accepts == accepts && this.waiting == waiting
      ensures this.endpointOf == endpointOf
      ensures next == 0 && log == [] && Settled({}) && Good() && Exclusive(log) && Calm(0)
      ensures forall ep :: !MayHold(log, ep)
    {
      this.reports, this.accepts, this.waiting, this.endpointOf := reports, accepts, waiting, endpointOf;
      next, writes, drains, log := 0, 0, 0, [];
    }

    /** Every report received so far was completed exactly once, except the ones still open. */
    ghost predicate Settled(open: set<nat>)
      reads this
    {
      next <= |reports| && forall i: nat :: Completions(log, i) == if i < next && i !in open then 1 else 0
    }

    ghost predicate Good()
      reads this
    {
      && EffectsOk(reports, log, endpointOf) && InOrder(reports, waiting, log, endpointOf)
      && ((forall n :: accepts(n)) ==> Failures(log) == 0)
    }

    /** Nothing is being dealt with, and no report from i on was written. */
    ghost predicate Calm(i: nat)
      reads this
    {
      StandingOf(log) == Standing(false, Made(log), 0, drains, false) && forall k :: k in Made(log) ==> k < i
    }

    method Extend(e: Effect)
      modifies `log
      ensures log == old(log) + [e]
      ensures old(Exclusive(log)) && !(MayHold(log, Relative) && MayHold(log, Absolute)) ==> Exclusive(log)
    {
      if Exclusive(log) && !(MayHold(log + [e], Relative) && MayHold(log + [e], Absolute)) {
        ExclusiveAppended(log, e);
      }
      log := log + [e];
    }

    /** An attempted write, for a report or as a cleanup. */
    method Write(ep: Endpoint, report: Report, event: Option<nat>) returns (ok: bool)
      requires Good() && !ResetDue(log)
      requires match event
               case Some(i) =>
                 && i < |reports| && report == reports[i] && endpointOf(report) == Some(ep) && Completions(log, i) == 0
                 && OtherQuiet(log, ep) && IsTurn(log, i) && Calm(i)
               case None => !Presses(ep, report) && (Trouble(log) || MayRelease(reports, log, ep, endpointOf))
      modifies `log, `writes
      ensures log == old(log) + [Wrote(ep, report, ok, event)] && Good()
      ensures StandingOf(log) == Standing(old(Trouble(log)) || !ok,
                                          old(Made(log)) + if event.Some? then [event.value] else [],
                                          old(Dropped(log)), old(GivenUp(log)), ok && event.None?)
      ensures forall open :: old(Settled(open)) ==> Settled(open)
      ensures forall i: nat :: IsTurn(log, i) == old(IsTurn(log, i))
      ensures MayHold(log, ep) <==> Presses(ep, report) || (!ok && old(MayHold(log, ep)))
      ensures forall other :: other != ep ==> (MayHold(log, other) <==> old(MayHold(log, other)))
      ensures LastWrite(log, ep) == [Wrote(ep, report, ok, event)]
      ensures forall other :: other != ep ==> LastWrite(log, other) == old(LastWrite(log, other))
      ensures old(Exclusive(log)) && !(MayHold(log, Relative) && MayHold(log, Absolute)) ==> Exclusive(log)
    {
      hide Trouble, Made, Dropped, GivenUp, IsTurn, InOrder, EffectsOk, MayHold, LastWrite, Completions, NewestOk,
          Failures, MayRelease, MayFollow, OtherQuiet;
      ok := accepts(writes);
      writes := writes + 1;
      var e := Wrote(ep, report, ok, event);
      Appended(log, e);
      RulesAppended(log, e);
      StandingAfterWrite(log, ep, report, ok, event);
      WriteFollows(ep, report, ok, event);
      EffectsAppended(reports, log, e, endpointOf);
      OrderAppended(reports, waiting, log, e, endpointOf);
      Extend(e);
    }

    lemma WriteFollows(ep: Endpoint, report: Report, ok: bool, event: Option<nat>)
      requires Good() && !ResetDue(log)
      requires match event
               case Some(i) =>
                 && i < |reports| && report == reports[i] && endpointOf(report) == Some(ep) && Completions(log, i) == 0
                 && OtherQuiet(log, ep) && IsTurn(log, i) && Calm(i)
               case None => !Presses(ep, report) && (Trouble(log) || MayRelease(reports, log, ep, endpointOf))
      ensures NewestOk(reports, log + [Wrote(ep, report, ok, event)], endpointOf)
      ensures MayFollow(reports, waiting, log, Wrote(ep, report, ok, event), endpointOf)
    {
      hide Trouble, Made, Dropped, GivenUp, IsTurn, InOrder, EffectsOk, MayHold, LastWrite, Failures, Presses;
      Appended(log, Wrote(ep, report, ok, event));
    }

    method Reset(ep: Endpoint)
      requires Good() && !MayHold(log, ep) && ResetDue(log) && log[|log| - 1].ep == ep
      modifies `log
      ensures log == old(log) + [WasReset(ep)] && Good()
      ensures StandingOf(log) == old(StandingOf(log)).(due := false)
      ensures forall open :: old(Settled(open)) ==> Settled(open)
      ensures forall i: nat :: IsTurn(log, i) == old(IsTurn(log, i))
      ensures forall other :: MayHold(log, other) <==> old(MayHold(log, other))
      ensures forall other :: LastWrite(log, other) == old(LastWrite(log, other))
      ensures old(Exclusive(log)) ==> Exclusive(log)
    {
      hide Trouble, Made, Dropped, GivenUp, IsTurn, InOrder, EffectsOk;
      if Exclusive(log) { ExclusiveNow(log); }
      Appended(log, WasReset(ep));
      RulesAppended(log, WasReset(ep));
      StandingAfterReset(log, ep);
      EffectsAppended(reports, log, WasReset(ep), endpointOf);
      OrderAppended(reports, waiting, log, WasReset(ep), endpointOf);
      Extend(WasReset(ep));
    }

    /** The report in hand is settled. */
    method Complete(index: nat, success: bool)
      requires Good() && !ResetDue(log) && Settled({index}) && index < next && IsTurn(log, index)
      requires success ==>
                !Trouble(log)
                && log != [] && log[|log| - 1].Wrote? && log[|log| - 1].ok && log[|log| - 1].event == Some(index)
      requires !success ==> if Trouble(log) then MayGiveUp(reports, waiting, log, index, endpointOf)
                            else endpointOf(reports[index]).None?
      modifies `log
      ensures log == old(log) + [Completed(index, success)] && Good() && Settled({})
      ensures StandingOf(log) == Standing(false, old(Made(log)), 0,
                                          old(GivenUp(log)) + if old(Trouble(log)) then 1 else 0, false)
      ensures forall ep :: MayHold(log, ep) <==> old(MayHold(log, ep))
      ensures forall ep :: LastWrite(log, ep) == old(LastWrite(log, ep))
      ensures old(Exclusive(log)) ==> Exclusive(log)
    {
      hide Trouble, Made, Dropped, GivenUp, IsTurn, InOrder, EffectsOk, MayGiveUp;
      if Exclusive(log) { ExclusiveNow(log); }
      var e := Completed(index, success);
      if Trouble(log) { TroubleHasFailed(log); }
      Appended(log, e);
      StandingAfterTurn(log, index, success);
      EffectsAppended(reports, log, e, endpointOf);
      OrderAppended(reports, waiting, log, e, endpointOf);
      Extend(e);
    }

    method Receive() returns (index: nat)
      requires Settled({}) && next < |reports|
      modifies `next
      ensures index == old(next) && next == index + 1 && Settled({index}) && IsTurn(log, index)
    {
      index := next;
      next := next + 1;
    }

    /** A cleanup write, and the reset that is reported when it succeeds. */
    method Release(ep: Endpoint, report: Report) returns (ok: bool)
      requires Good() && !ResetDue(log) && !Presses(ep, report)
      requires Trouble(log) || MayRelease(reports, log, ep, endpointOf)
      modifies `log, `writes
      ensures Good() && StandingOf(log) == old(StandingOf(log)).(trouble := old(Trouble(log)) || !ok)
      ensures forall open :: old(Settled(open)) ==> Settled(open)
      ensures forall i: nat :: IsTurn(log, i) == old(IsTurn(log, i))
      ensures MayHold(log, ep) ==> !ok && old(MayHold(log, ep))
      ensures LastWrite(log, ep) == [Wrote(ep, report, ok, None)]
      ensures forall other :: other != ep ==> (MayHold(log, other) <==> old(MayHold(log, other)))
      ensures forall other :: other != ep ==> LastWrite(log, other) == old(LastWrite(log, other))
      ensures old(Exclusive(log)) ==> Exclusive(log)
    {
      hide EffectsOk, NewestOk, InOrder, Exclusive, Trouble, Made, Dropped, GivenUp, IsTurn, MayRelease;
      if Exclusive(log) { ExclusiveNow(log); }
      ok := Write(ep, report, None);
      if ok {
        Reset(ep);
      }
    }

    /** drainHIDQueue: what is queued right now, and nothing else, is completed without being written. */
    method Drain(index: nat)
      requires Good() && Trouble(log) && !ResetDue(log) && Dropped(log) == 0
      requires Settled({index}) && next == index + 1
      modifies `log, `next, `drains
      ensures Good() && Settled({index}) && IsTurn(log, index) && drains == old(drains) + 1
      ensures next == old(next) + Min(waiting(old(drains)), |reports| - old(next))
      ensures StandingOf(log) == old(StandingOf(log)).(dropped := next - index - 1)
      ensures forall ep :: MayHold(log, ep) <==> old(MayHold(log, ep))
      ensures forall ep :: LastWrite(log, ep) == old(LastWrite(log, ep))
      ensures old(Exclusive(log)) ==> Exclusive(log)
    {
      hide EffectsOk, InOrder, Exclusive, Trouble, Made, Dropped, GivenUp, IsTurn;
      var left := waiting(drains);
      drains := drains + 1;
      TurnOf(index);
      while left > 0 && next < |reports|
        invariant Good() && Settled({index}) && IsTurn(log, index) && index < next
        invariant left + next == old(next) + waiting(old(drains)) && left >= 0 && drains == old(drains) + 1
        invariant StandingOf(log) == old(StandingOf(log)).(dropped := next - index - 1)
        invariant forall ep :: MayHold(log, ep) <==> old(MayHold(log, ep))
        invariant forall ep :: LastWrite(log, ep) == old(LastWrite(log, ep))
        invariant old(Exclusive(log)) ==> Exclusive(log)
        decreases left
      {
        Drop(index);
        left := left - 1;
      }
    }

    lemma TurnOf(index: nat)
      requires Settled({index}) && index < next
      ensures IsTurn(log, index) && forall i :: IsTurn(log, i) ==> i == index
    {
    }

    /** One report is taken from the queue, and completed as failed. */
    method Drop(index: nat)
      requires Good() && Trouble(log) && !ResetDue(log) && Dropped(log) == next - index - 1
      requires Settled({index}) && index < next < |reports|
      modifies `log, `next
      ensures Good() && Settled({index}) && IsTurn(log, index) && next == old(next) + 1
      ensures StandingOf(log) == old(StandingOf(log)).(dropped := old(Dropped(log)) + 1)
      ensures forall ep :: MayHold(log, ep) <==> old(MayHold(log, ep))
      ensures forall ep :: LastWrite(log, ep) == old(LastWrite(log, ep))
      ensures old(Exclusive(log)) ==> Exclusive(log)
    {
      hide EffectsOk, InOrder, Trouble, Made, Dropped, GivenUp, IsTurn;
      var e := Completed(next, false);
      if Exclusive(log) { ExclusiveNow(log); }
      TurnOf(index);
      TroubleHasFailed(log);
      Appended(log, e);
      StandingAfterDrop(log, next);
      EffectsAppended(reports, log, e, endpointOf);
      OrderAppended(reports, waiting, log, e, endpointOf);
      Extend(e);
      next := next + 1;
      TurnOf(index);
    }
  }

  /** Everything is settled: every report was completed exactly once, and every reset was reported. */
  ghost predicate WellDone(reports: seq<Report>, waiting: nat -> nat, log: Log,
      endpointOf: Report -> Option<Endpoint>)
  {
    && (forall i: nat :: Completions(log, i) == if i < |reports| then 1 else 0)
    && EffectsOk(reports, log, endpointOf) && InOrder(reports, waiting, log, endpointOf) && !ResetDue(log)
  }

  lemma AllWritten(queue: Channel)
    requires queue.Settled({}) && queue.next == |queue.reports| && queue.Good()
    ensures (forall n :: queue.accepts(n)) ==> Reports(queue.log) == WellFormed(queue.reports, queue.endpointOf)
  {
    if forall n :: queue.accepts(n) {
      AllArrive(queue.reports, queue.waiting, queue.log, queue.endpointOf);
    }
  }

  /** Between two reports: the flag is set if the keyboard may be held, and only if it may need a release. */
  ghost predicate KeyboardIdle(queue: Channel, keyboardActive: bool)
    reads queue
  {
    && queue.Good() && queue.Settled({}) && queue.Calm(queue.next)
    && !MayHold(queue.log, Relative) && !MayHold(queue.log, Absolute)
    && (MayHold(queue.log, Keyboard) ==> keyboardActive)
    && (keyboardActive ==> MayHold(queue.log, Keyboard) || LastFailedOn(queue.log, Keyboard))
  }

  /** The report in hand could not be written. */
  method KeyboardFailure(queue: Channel, event: nat, data: Report, keyboardActive: bool) returns (active: bool)
    requires |data| == 8 && event < |queue.reports| && data == queue.reports[event] && queue.endpointOf == KeyboardOf
    requires queue.Good() && queue.Settled({event}) && queue.next == event + 1
    requires StandingOf(queue.log) == Standing(true, Made(queue.log), 0, queue.drains, false)
    requires forall k :: k in Made(queue.log) ==> k <= event
    requires !MayHold(queue.log, Relative) && !MayHold(queue.log, Absolute)
    requires MayHold(queue.log, Keyboard) ==> keyboardActive || Presses(Keyboard, data)
    modifies queue
    ensures KeyboardIdle(queue, active)
    ensures queue.next == old(queue.next) + Min(queue.waiting(old(queue.drains)), |queue.reports| - old(queue.next))
  {
    hide EffectsOk, NewestOk, InOrder, Trouble, Made, Dropped, GivenUp, IsTurn;
    queue.Drain(event);
    var released := queue.Release(Keyboard, KEYBOARD_RELEASE);
    if !released {
      active := keyboardActive || Presses(Keyboard, data);
      queue.Complete(event, false);
      return;
    }
    active := false;
    queue.Complete(event, false);
  }

  /** keyboardReports. */
  method KeyboardReports(reports: seq<Report>, accepts: nat -> bool, waiting: nat -> nat) returns (log: Log)
    ensures WellDone(reports, waiting, log, KeyboardOf)
    ensures (forall n :: accepts(n)) ==> Reports(log) == WellFormed(reports, KeyboardOf)
    ensures ReleasedOrFailed(log, Keyboard)
  {
    hide EffectsOk, NewestOk, InOrder, Trouble, Made, Dropped, GivenUp, IsTurn, MayGiveUp, MayHold, LastWrite,
        Completions, Failures;
    var queue := new Channel(reports, accepts, waiting, KeyboardOf);
    var keyboardActive := false;
    while queue.next < |reports|
      invariant KeyboardIdle(queue, keyboardActive)
      decreases |reports| - queue.next
    {
      var event := queue.Receive();
      var data := reports[event];
      if |data| != 8 {
        queue.Complete(event, false);
        continue;
      }
      var ok := queue.Write(Keyboard, data, Some(event));
      if !ok {
        keyboardActive := KeyboardFailure(queue, event, data, keyboardActive);
        continue;
      }
      keyboardActive := Presses(Keyboard, data);
      queue.Complete(event, true);
    }
    if keyboardActive {
      NobodysTurn(queue);
      var released := queue.Release(Keyboard, KEYBOARD_RELEASE);
    }
    AllWritten(queue);
    log := queue.log;
  }

  lemma NobodysTurn(queue: Channel)
    requires queue.Settled({}) && queue.next == |queue.reports|
    ensures forall i: nat :: i < |queue.reports| ==> !IsTurn(queue.log, i)
  {
  }

  /** Between two reports: each flag is set if its endpoint may be held, and only if it may need a release. */
  ghost predicate MouseIdle(queue: Channel, relativeActive: bool, absoluteActive: bool, absoluteRelease: Report)
    reads queue
  {
    queue.Settled({}) && queue.Calm(queue.next) && MouseFlags(queue, relativeActive, absoluteActive, absoluteRelease)
  }

  /** A report was received, and nothing was done about it yet. */
  ghost predicate InHand(queue: Channel, event: nat, relativeActive: bool, absoluteActive: bool,
      absoluteRelease: Report)
    reads queue
  {
    && queue.Settled({event}) && queue.next == event + 1 && queue.Calm(event)
    && MouseFlags(queue, relativeActive, absoluteActive, absoluteRelease)
  }

  ghost predicate MouseFlags(queue: Channel, relativeActive: bool, absoluteActive: bool, absoluteRelease: Report)
    reads queue
  {
    && queue.Good() && Exclusive(queue.log)
    && !MayHold(queue.log, Keyboard) && !Presses(Absolute, absoluteRelease)
    && (MayHold(queue.log, Relative) ==> relativeActive)
    && (MayHold(queue.log, Absolute) ==> absoluteActive)
    && (relativeActive ==> MayHold(queue.log, Relative) || LastFailedOn(queue.log, Relative))
    && (absoluteActive ==> MayHold(queue.log, Absolute) || LastFailedOn(queue.log, Absolute))
  }

  /** One of the two releases of cleanupFailure. */
  method ReleaseAfterFailure(queue: Channel, ep: Endpoint, report: Report, active: bool, own: bool)
    returns (still: bool)
    requires queue.Good() && Trouble(queue.log) && !ResetDue(queue.log) && !Presses(ep, report)
    requires (MayHold(queue.log, ep) ==> active) && Exclusive(queue.log)
    modifies queue`log, queue`writes
    ensures queue.Good() && StandingOf(queue.log) == old(StandingOf(queue.log)) && Exclusive(queue.log)
    ensures forall open :: old(queue.Settled(open)) ==> queue.Settled(open)
    ensures forall i: nat :: IsTurn(queue.log, i) == old(IsTurn(queue.log, i))
    ensures (MayHold(queue.log, ep) ==> still) && (still ==> LastFailedOn(queue.log, ep))
    ensures ReleasedOrFailed(queue.log, ep)
    ensures own ==> LastWrite(queue.log, ep) != [] && LastWrite(queue.log, ep)[0].event.None?
    ensures forall other :: other != ep ==> (MayHold(queue.log, other) <==> old(MayHold(queue.log, other)))
    ensures forall other :: other != ep ==> LastWrite(queue.log, other) == old(LastWrite(queue.log, other))
  {
    hide EffectsOk, NewestOk, Exclusive, InOrder, Trouble, Made, Dropped, GivenUp, IsTurn, MayGiveUp, MayHold,
        LastWrite, Completions;
    still := active;
    if still || own {
      var ok := queue.Release(ep, report);
      if ok {
        still := false;
      }
    }
  }

  /** The cleanupFailure closure of mouseReports: it changes the three captured variables. */
  method CleanupFailure(queue: Channel, event: nat, data: Report,
                        relativeActive: bool, absoluteActive: bool, absoluteRelease: Report)
    returns (relative: bool, absolute: bool, release: Report)
    requires (|data| == 4 || |data| == 6) && event < |queue.reports| && data == queue.reports[event]
    requires queue.endpointOf == MouseOf
    requires queue.Good() && queue.Settled({event}) && queue.next == event + 1
    requires StandingOf(queue.log) == Standing(true, Made(queue.log), 0, queue.drains, false)
    requires forall k :: k in Made(queue.log) ==> k <= event
    requires !Presses(Absolute, absoluteRelease) && Exclusive(queue.log) && !MayHold(queue.log, Keyboard)
    requires MayHold(queue.log, Relative) ==> relativeActive || (|data| == 4 && data[0] != 0)
    requires MayHold(queue.log, Absolute) ==> absoluteActive || (|data| == 6 && data[0] != 0)
    modifies queue
    ensures MouseIdle(queue, relative, absolute, release)
    ensures queue.next == old(queue.next) + Min(queue.waiting(old(queue.drains)), |queue.reports| - old(queue.next))
  {
    hide EffectsOk, NewestOk, Exclusive, InOrder, Trouble, Made, Dropped, GivenUp, IsTurn, MayGiveUp,
        MayHold, LastWrite, Completions;
    relative, absolute, release := relativeActive, absoluteActive, absoluteRelease;
    ExclusiveNow(queue.log);
    queue.Drain(event);
    if |data| == 4 && data[0] != 0 {
      relative := true;
    }
    if |data| == 6 && data[0] != 0 {
      absolute := true;
      release := AbsoluteRelease(data);
    }
    relative := ReleaseAfterFailure(queue, Relative, RELATIVE_RELEASE, relative, |data| == 4);
    absolute := ReleaseAfterFailure(queue, Absolute, if |data| == 6 then AbsoluteRelease(data) else release, absolute,
        |data| == 6);
    GivesUpWell(queue, event);
    queue.Complete(event, false);
  }

  /** Both releases were tried where they had to be. */
  lemma GivesUpWell(queue: Channel, event: nat)
    requires event < |queue.reports| && MouseOf(queue.reports[event]).Some? && queue.endpointOf == MouseOf
    requires Dropped(queue.log) == Min(queue.waiting(GivenUp(queue.log)), |queue.reports| - event - 1)
    requires !MayHold(queue.log, Keyboard)
    requires ReleasedOrFailed(queue.log, Relative) && ReleasedOrFailed(queue.log, Absolute)
    requires var last := LastWrite(queue.log, MouseOf(queue.reports[event]).value); last != [] && last[0].event.None?
    ensures MayGiveUp(queue.reports, queue.waiting, queue.log, event, queue.endpointOf)
  {
    forall ep
      ensures ReleasedOrFailed(queue.log, ep)
    {
      assert ep == Keyboard || ep == Relative || ep == Absolute;
    }
  }

  /** The case of a relative report. */
  method RelativeEvent(queue: Channel, event: nat, data: Report,
                       relativeActive: bool, absoluteActive: bool, absoluteRelease: Report)
    returns (relative: bool, absolute: bool, release: Report)
    requires |data| == 4 && event < |queue.reports| && data == queue.reports[event] && queue.endpointOf == MouseOf
    requires InHand(queue, event, relativeActive, absoluteActive, absoluteRelease)
    modifies queue
    ensures MouseIdle(queue, relative, absolute, release) && queue.next > event
  {
    hide EffectsOk, NewestOk, Exclusive, InOrder, Trouble, Made, Dropped, GivenUp, IsTurn, MayGiveUp,
        MayHold, LastWrite, Completions;
    relative, absolute, release := relativeActive, absoluteActive, absoluteRelease;
    ExclusiveNow(queue.log);
    queue.TurnOf(event);
    if absolute {
      var ok := queue.Release(Absolute, release);
      if !ok {
        relative, absolute, release := CleanupFailure(queue, event, data, relative, absolute, release);
        return;
      }
      absolute := false;
    }
    var ok := queue.Write(Relative, data, Some(event));
    if !ok {
      relative, absolute, release := CleanupFailure(queue, event, data, relative, absolute, release);
      return;
    }
    relative := data[0] != 0;
    queue.Complete(event, true);
  }

  /** The case of an absolute report. */
  method AbsoluteEvent(queue: Channel, event: nat, data: Report,
                       relativeActive: bool, absoluteActive: bool, absoluteRelease: Report)
    returns (relative: bool, absolute: bool, release: Report)
    requires |data| == 6 && event < |queue.reports| && data == queue.reports[event] && queue.endpointOf == MouseOf
    requires InHand(queue, event, relativeActive, absoluteActive, absoluteRelease)
    modifies queue
    ensures MouseIdle(queue, relative, absolute, release) && queue.next > event
  {
    hide EffectsOk, NewestOk, Exclusive, InOrder, Trouble, Made, Dropped, GivenUp, IsTurn, MayGiveUp,
        MayHold, LastWrite, Completions;
    relative, absolute, release := relativeActive, absoluteActive, absoluteRelease;
    ExclusiveNow(queue.log);
    queue.TurnOf(event);
    if relative {
      var ok := queue.Release(Relative, RELATIVE_RELEASE);
      if !ok {
        relative, absolute, release := CleanupFailure(queue, event, data, relative, absolute, release);
        return;
      }
      relative := false;
    }
    var ok := queue.Write(Absolute, data, Some(event));
    if !ok {
      relative, absolute, release := CleanupFailure(queue, event, data, relative, absolute, release);
      return;
    }
    release := AbsoluteRelease(data);
    absolute := data[0] != 0;
    queue.Complete(event, true);
  }

  /** mouseReports. */
  method MouseReports(reports: seq<Report>, accepts: nat -> bool, waiting: nat -> nat) returns (log: Log)
    ensures WellDone(reports, waiting, log, MouseOf)
    ensures (forall n :: accepts(n)) ==> Reports(log) == WellFormed(reports, MouseOf)
    ensures Exclusive(log)
    ensures ReleasedOrFailed(log, Relative) && ReleasedOrFailed(log, Absolute)
  {
    hide EffectsOk, NewestOk, Exclusive, InOrder, Trouble, Made, Dropped, GivenUp, IsTurn, MayGiveUp,
        MayHold, LastWrite, Completions;
    var queue := new Channel(reports, accepts, waiting, MouseOf);
    var relativeActive, absoluteActive := false, false;
    var absoluteRelease := AbsoluteRelease([]);
    while queue.next < |reports|
      invariant MouseIdle(queue, relativeActive, absoluteActive, absoluteRelease)
      decreases |reports| - queue.next
    {
      var event := queue.Receive();
      var data := reports[event];
      if |data| == 4 {
        relativeActive, absoluteActive, absoluteRelease :=
          RelativeEvent(queue, event, data, relativeActive, absoluteActive, absoluteRelease);
      } else if |data| == 6 {
        relativeActive, absoluteActive, absoluteRelease :=
          AbsoluteEvent(queue, event, data, relativeActive, absoluteActive, absoluteRelease);
      } else {
        queue.Complete(event, false);
      }
    }
    CloseMouse(queue, relativeActive, absoluteActive, absoluteRelease);
    AllWritten(queue);
    log := queue.log;
  }

  /** The deferred releases of mouseReports, once its queue is closed. */
  method CloseMouse(queue: Channel, relativeActive: bool, absoluteActive: bool, absoluteRelease: Report)
    requires MouseIdle(queue, relativeActive, absoluteActive, absoluteRelease) && queue.next == |queue.reports|
    modifies queue
    ensures queue.Good() && queue.Settled({}) && Exclusive(queue.log) && queue.next == old(queue.next)
    ensures !ResetDue(queue.log)
    ensures ReleasedOrFailed(queue.log, Relative) && ReleasedOrFailed(queue.log, Absolute)
  {
    hide EffectsOk, NewestOk, Exclusive, InOrder, Trouble, Made, Dropped, GivenUp, IsTurn;
    ExclusiveNow(queue.log);
    if relativeActive {
      NobodysTurn(queue);
      var ok := queue.Release(Relative, RELATIVE_RELEASE);
    }
    assert ReleasedOrFailed(queue.log, Relative);
    if absoluteActive {
      NobodysTurn(queue);
      var ok := queue.Release(Absolute, absoluteRelease);
    }
  }
}
