/**
 What the target machine may believe is held down.

 A worker loop leaves a log of its effects: every attempted write with its result, every reset it
 reports to the manual session, and every reservation it completes. A write that failed may or may
 not have reached the target, so what the target holds depends on which of the failed writes were
 delivered. `MayHold` says that some choice leaves something held on an endpoint.
 */
module HidHost {
  import opened Wrappers

  type byte = b: int | 0 <= b < 256

  type Report = seq<byte>

  datatype Endpoint = Keyboard | Relative | Absolute

  /** A write names the report it was made for; a write without one is a cleanup. */
  datatype Effect =
    | Wrote(ep: Endpoint, report: Report, ok: bool, event: Option<nat>)
    | WasReset(ep: Endpoint)
    | Completed(index: nat, success: bool)

  type Log = seq<Effect>

  /** keyboardReportActive, and the button byte of a mouse report. */
  predicate Presses(ep: Endpoint, r: Report) {
    match ep
    case Keyboard => |r| == 8 && (r[0] != 0 || exists k :: 2 <= k < 8 && r[k] != 0)
    case _ => |r| > 0 && r[0] != 0
  }

  /** A choice of delivered writes: the ones that succeeded, and any of the ones that failed. */
  ghost predicate CouldDeliver(log: Log, delivered: seq<bool>) {
    |delivered| == |log| && forall i :: 0 <= i < |log| && log[i].Wrote? && log[i].ok ==> delivered[i]
  }

  /** Whether the last delivered report of an endpoint presses something. */
  ghost predicate HostHolds(log: Log, delivered: seq<bool>, ep: Endpoint)
    requires |delivered| == |log|
  {
    if log == [] then false
    else
      var n := |log| - 1;
      if log[n].Wrote? && log[n].ep == ep && delivered[n] then Presses(ep, log[n].report)
      else HostHolds(log[..n], delivered[..n], ep)
  }

  predicate MayHold(log: Log, ep: Endpoint) {
    if log == [] then false
    else
      var n := |log| - 1;
      if log[n].Wrote? && log[n].ep == ep
      then Presses(ep, log[n].report) || (!log[n].ok && MayHold(log[..n], ep))
      else MayHold(log[..n], ep)
  }

  /** MayHold is exactly "some choice of delivered writes leaves the endpoint holding". */
  lemma {:induction false} MayHoldIsExact(log: Log, ep: Endpoint)
    ensures MayHold(log, ep) <==> exists d :: CouldDeliver(log, d) && HostHolds(log, d, ep)
  {
    if log != [] {
      var n := |log| - 1;
      MayHoldIsExact(log[..n], ep);
      if MayHold(log, ep) {
        if log[n].Wrote? && log[n].ep == ep && Presses(ep, log[n].report) {
          var d := seq(|log|, i => true);
          assert CouldDeliver(log, d) && HostHolds(log, d, ep);
        } else {
          var d :| CouldDeliver(log[..n], d) && HostHolds(log[..n], d, ep);
          var d' := d + [log[n].Wrote? && log[n].ok];
          assert d'[..n] == d;
          assert CouldDeliver(log, d') && HostHolds(log, d', ep);
        }
      }
      if d :| CouldDeliver(log, d) && HostHolds(log, d, ep) {
        assert CouldDeliver(log[..n], d[..n]);
      }
    }
  }

  /** How often a reservation was completed. */
  function Completions(log: Log, index: nat): nat {
    if log == [] then 0
    else
      var n := |log| - 1;
      Completions(log[..n], index) + if log[n].Completed? && log[n].index == index then 1 else 0
  }

  /** How many writes failed. */
  function Failures(log: Log): nat {
    if log == [] then 0
    else
      var n := |log| - 1;
      Failures(log[..n]) + if log[n].Wrote? && !log[n].ok then 1 else 0
  }

  /** The last write attempted on an endpoint, if there was one. */
  function LastWrite(log: Log, ep: Endpoint): (w: seq<Effect>)
    ensures |w| <= 1 && (|w| == 1 ==> w[0].Wrote? && w[0].ep == ep)
  {
    if log == [] then []
    else
      var n := |log| - 1;
      if log[n].Wrote? && log[n].ep == ep then [log[n]] else LastWrite(log[..n], ep)
  }

  lemma Appended(log: Log, e: Effect)
    ensures forall ep ::
              MayHold(log + [e], ep)
              == if e.Wrote? && e.ep == ep then Presses(ep, e.report) || (!e.ok && MayHold(log, ep))
                  else MayHold(log, ep)
    ensures forall i ::
              Completions(log + [e], i) == Completions(log, i) + if e.Completed? && e.index == i then 1 else 0
    ensures Failures(log + [e]) == Failures(log) + if e.Wrote? && !e.ok then 1 else 0
    ensures forall ep :: LastWrite(log + [e], ep) == if e.Wrote? && e.ep == ep then [e] else LastWrite(log, ep)
  {
    assert (log + [e])[..|log|] == log;
  }

  /** Of the two mouse endpoints, the one that is not written may hold nothing. */
  predicate OtherQuiet(log: Log, ep: Endpoint) {
    (ep.Relative? ==> !MayHold(log, Absolute)) && (ep.Absolute? ==> !MayHold(log, Relative))
  }

  /** What is right about the newest effect. A write for a report writes that report to its own
      endpoint, before its reservation is completed, and while the other mouse endpoint is quiet; a
      cleanup presses nothing. A reset is reported
      only when the endpoint surely holds nothing, and a reservation succeeds only right after its
      own report was written. A report that has an endpoint fails only after some write failed. */
  ghost predicate NewestOk(queue: seq<Report>, log: Log, endpointOf: Report -> Option<Endpoint>) {
    log == [] ||
    match log[|log| - 1]
    case Wrote(ep, report, _, Some(i)) =>
      && i < |queue| && report == queue[i] && endpointOf(queue[i]) == Some(ep) && Completions(log, i) == 0
      && OtherQuiet(log, ep)
    case Wrote(ep, report, _, None) => !Presses(ep, report)
    case WasReset(ep) => !MayHold(log, ep)
    case Completed(i, true) =>
      && |log| >= 2 && log[|log| - 2].Wrote? && log[|log| - 2].ok && log[|log| - 2].event == Some(i)
    case Completed(i, false) => i < |queue| && (endpointOf(queue[i]).None? || Failures(log) > 0)
  }

  ghost predicate EffectsOk(queue: seq<Report>, log: Log, endpointOf: Report -> Option<Endpoint>) {
    forall k :: 0 <= k <= |log| ==> NewestOk(queue, log[..k], endpointOf)
  }

  lemma EffectsAppended(queue: seq<Report>, log: Log, e: Effect, endpointOf: Report -> Option<Endpoint>)
    requires EffectsOk(queue, log, endpointOf) && NewestOk(queue, log + [e], endpointOf)
    ensures EffectsOk(queue, log + [e], endpointOf)
  {
    forall k | 0 <= k <= |log| + 1
      ensures NewestOk(queue, (log + [e])[..k], endpointOf)
    {
      if k <= |log| {
        assert (log + [e])[..k] == log[..k];
      } else {
        assert (log + [e])[..k] == log + [e];
      }
    }
  }

  /** An endpoint that may still hold something when its last write pressed nothing: that write failed. */
  lemma {:induction false} HeldAfterRelease(log: Log, ep: Endpoint)
    requires MayHold(log, ep)
    ensures |LastWrite(log, ep)| == 1
    ensures !Presses(ep, LastWrite(log, ep)[0].report) ==> !LastWrite(log, ep)[0].ok
  {
    var n := |log| - 1;
    if !(log[n].Wrote? && log[n].ep == ep) {
      HeldAfterRelease(log[..n], ep);
    }
  }

  /** The relative and the absolute endpoint never both hold a button, at no point of the log. */
  ghost predicate Exclusive(log: Log) {
    forall k :: 0 <= k <= |log| ==> !(MayHold(log[..k], Relative) && MayHold(log[..k], Absolute))
  }

  lemma ExclusiveAppended(log: Log, e: Effect)
    requires Exclusive(log) && !(MayHold(log + [e], Relative) && MayHold(log + [e], Absolute))
    ensures Exclusive(log + [e])
  {
    forall k | 0 <= k <= |log| + 1
      ensures !(MayHold((log + [e])[..k], Relative) && MayHold((log + [e])[..k], Absolute))
    {
      if k <= |log| {
        assert (log + [e])[..k] == log[..k];
      } else {
        assert (log + [e])[..k] == log + [e];
      }
    }
  }

  lemma ExclusiveNow(log: Log)
    requires Exclusive(log)
    ensures !(MayHold(log, Relative) && MayHold(log, Absolute))
  {
    assert log[..|log|] == log;
  }
}
