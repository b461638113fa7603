/**
 The order of a worker's effects: whose turn it is, what a failed write leads to, and when an
 endpoint may be released.
 */
module HidRules {
  import opened Wrappers
  import opened HidHost

  /** The report that the worker has in hand, or takes next: the first that is not completed. */
  predicate IsTurn(log: Log, i: nat) {
    Completions(log, i) == 0 && forall k: nat :: k < i ==> Completions(log, k) > 0
  }

  /** Since the last report was settled some write has failed. */
  predicate Trouble(log: Log) {
    if log == [] then false
    else
      var init, e := log[..|log| - 1], log[|log| - 1];
      match e
      case Wrote(_, _, ok, _) => !ok || Trouble(init)
      case WasReset(_) => Trouble(init)
      case Completed(i, success) => Trouble(init) && !success && !IsTurn(init, i)
  }

  /** The reports for which a write was made, in order. */
  function Made(log: Log): seq<nat> {
    if log == [] then []
    else
      var init, e := log[..|log| - 1], log[|log| - 1];
      Made(init) + if e.Wrote? && e.event.Some? then [e.event.value] else []
  }

  /** How many reports were dropped from the queue since the trouble began. */
  function Dropped(log: Log): nat {
    if log == [] then 0
    else
      var init, e := log[..|log| - 1], log[|log| - 1];
      match e
      case Completed(i, _) => if Trouble(init) && !IsTurn(init, i) then Dropped(init) + 1 else 0
      case _ => Dropped(init)
  }

  /** How often a report was given up after a failed write. */
  function GivenUp(log: Log): nat {
    if log == [] then 0
    else
      var init, e := log[..|log| - 1], log[|log| - 1];
      GivenUp(init) + if e.Completed? && Trouble(init) && IsTurn(init, e.index) then 1 else 0
  }

  predicate LastFailedOn(log: Log, ep: Endpoint) {
    LastWrite(log, ep) != [] && !LastWrite(log, ep)[0].ok
  }

  /** A cleanup got through, and its reset is due. */
  predicate ResetDue(log: Log) {
    log != [] && log[|log| - 1].Wrote? && log[|log| - 1].ok && log[|log| - 1].event.None?
  }

  /** Nothing but a failed closing write leaves an endpoint possibly held. */
  ghost predicate ReleasedOrFailed(log: Log, ep: Endpoint) {
    MayHold(log, ep) ==>
      exists r :: !Presses(ep, r) && LastWrite(log, ep) == [Wrote(ep, r, false, None)]
  }

  /** An endpoint that may need a release is released before a report for another one, and at the end. */
  ghost predicate MayRelease(queue: seq<Report>, log: Log, ep: Endpoint, endpointOf: Report -> Option<Endpoint>) {
    && (MayHold(log, ep) || LastFailedOn(log, ep))
    && forall i: nat :: i < |queue| && IsTurn(log, i) ==>
         endpointOf(queue[i]).Some? && endpointOf(queue[i]).value != ep
  }

  /** The worker gives up the report in hand: it has dropped what was waiting, and has tried to release
      the report's own endpoint, and every endpoint that may be held. */
  ghost predicate MayGiveUp(queue: seq<Report>, waiting: nat -> nat, log: Log, i: nat,
      endpointOf: Report -> Option<Endpoint>)
    requires i < |queue|
  {
    && Dropped(log) == Min(waiting(GivenUp(log)), |queue| - i - 1)
    && (forall ep :: ReleasedOrFailed(log, ep))
    && (endpointOf(queue[i]).Some? ==>
          var last := LastWrite(log, endpointOf(queue[i]).value); last != [] && last[0].event.None?)
  }

  function Min(a: int, b: int): int {
    if a < b then a else b
  }

  /** What may follow a log. Reports have their turn in order, each is written at most once, and none
      while a failure is being dealt with; then what is waiting is dropped in order, endpoints are
      released, and the report in hand is given up. An endpoint is released otherwise only when that
      is due, and every release that gets through is reported at once. */
  ghost predicate MayFollow(queue: seq<Report>, waiting: nat -> nat, log: Log, e: Effect,
      endpointOf: Report -> Option<Endpoint>)
  {
    && (ResetDue(log) ==> e == WasReset(log[|log| - 1].ep))
    && match e
       case Wrote(_, _, _, Some(i)) =>
         IsTurn(log, i) && !Trouble(log) && forall k :: k in Made(log) ==> k < i
       case Wrote(ep, _, _, None) => Trouble(log) || MayRelease(queue, log, ep, endpointOf)
       case WasReset(ep) => ResetDue(log)
       case Completed(i, true) => IsTurn(log, i) && !Trouble(log)
       case Completed(i, false) =>
         && i < |queue| && Completions(log, i) == 0
         && if Trouble(log) then
              if IsTurn(log, i) then MayGiveUp(queue, waiting, log, i, endpointOf)
              else i >= 1 + Dropped(log) && IsTurn(log, i - 1 - Dropped(log))
            else IsTurn(log, i) && endpointOf(queue[i]).None?
  }

  ghost predicate InOrder(queue: seq<Report>, waiting: nat -> nat, log: Log, endpointOf: Report -> Option<Endpoint>) {
    log == [] ||
    (InOrder(queue, waiting, log[..|log| - 1], endpointOf)
     && MayFollow(queue, waiting, log[..|log| - 1], log[|log| - 1], endpointOf))
  }

  /** Where a log stands: whether a failure is being dealt with, the reports written so far, how many
      were dropped since, how often one was given up, and whether a reset is due. */
  datatype Standing = Standing(trouble: bool, made: seq<nat>, dropped: nat, givenUp: nat, due: bool)

  function StandingOf(log: Log): Standing {
    Standing(Trouble(log), Made(log), Dropped(log), GivenUp(log), ResetDue(log))
  }

  // ---------------------------------------------------------------- one more effect

  lemma StandingAfterWrite(log: Log, ep: Endpoint, report: Report, ok: bool, event: Option<nat>)
    ensures var was, now := StandingOf(log), StandingOf(log + [Wrote(ep, report, ok, event)]);
            now == Standing(was.trouble || !ok, was.made + if event.Some? then [event.value] else [], was.dropped,
                            was.givenUp, ok && event.None?)
  {
    RulesAppended(log, Wrote(ep, report, ok, event));
  }

  lemma StandingAfterReset(log: Log, ep: Endpoint)
    ensures StandingOf(log + [WasReset(ep)]) == StandingOf(log).(due := false)
  {
    RulesAppended(log, WasReset(ep));
  }

  /** The report in hand is settled. */
  lemma StandingAfterTurn(log: Log, i: nat, success: bool)
    requires IsTurn(log, i) && (success ==> !Trouble(log))
    ensures var was := StandingOf(log);
            StandingOf(log + [Completed(i, success)])
            == Standing(false, was.made, 0, was.givenUp + if was.trouble then 1 else 0, false)
  {
    RulesAppended(log, Completed(i, success));
  }

  lemma StandingAfterDrop(log: Log, i: nat)
    requires Trouble(log) && !IsTurn(log, i)
    ensures StandingOf(log + [Completed(i, false)]) == StandingOf(log).(dropped := Dropped(log) + 1, due := false)
  {
    RulesAppended(log, Completed(i, false));
  }

  /** Trouble comes from a failed write. */
  lemma {:induction false} TroubleHasFailed(log: Log)
    requires Trouble(log)
    ensures Failures(log) > 0
  {
    var n := |log| - 1;
    if !(log[n].Wrote? && !log[n].ok) {
      TroubleHasFailed(log[..n]);
    }
  }

  lemma OrderAppended(queue: seq<Report>, waiting: nat -> nat, log: Log, e: Effect,
      endpointOf: Report -> Option<Endpoint>)
    requires InOrder(queue, waiting, log, endpointOf) && MayFollow(queue, waiting, log, e, endpointOf)
    ensures InOrder(queue, waiting, log + [e], endpointOf)
  {
    assert (log + [e])[..|log|] == log;
  }

  /** What one more effect does to the bookkeeping. */
  lemma RulesAppended(log: Log, e: Effect)
    ensures Trouble(log + [e])
            == if e.Completed? then Trouble(log) && !e.success && !IsTurn(log, e.index)
               else Trouble(log) || (e.Wrote? && !e.ok)
    ensures Made(log + [e]) == Made(log) + if e.Wrote? && e.event.Some? then [e.event.value] else []
    ensures Dropped(log + [e])
            == if !e.Completed? then Dropped(log) else if Trouble(log) && !IsTurn(log, e.index) then Dropped(log) + 1
               else 0
    ensures GivenUp(log + [e]) == GivenUp(log) + if e.Completed? && Trouble(log) && IsTurn(log, e.index) then 1 else 0
    ensures !e.Completed? ==> forall i: nat :: IsTurn(log + [e], i) == IsTurn(log, i)
  {
    assert (log + [e])[..|log|] == log;
    Appended(log, e);
  }
}
