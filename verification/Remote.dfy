/**
 The outside of the MCP remote control: the HID writer and the context of a call.

 `accepts(n)` says whether the n-th write succeeds, and `cancels(n)` whether the n-th look at the
 context finds it cancelled. `log` is every attempted write, and `acts` are the writes and the looks
 together. Waiting is a look at the context.
 */
module Remotes {
  import opened Wrappers
  import opened HidHost

  datatype Failure = Rejected | Cancelled | WriteFailed

  datatype Act = Looked(ended: bool) | Tried(ep: Endpoint, report: Report, ok: bool)

  class Remote {
    const accepts: nat -> bool
    const cancels: nat -> bool
    var writes: nat
    var looks: nat
    var log: Log
    var acts: seq<Act>

    constructor (accepts: nat -> bool, cancels: nat -> bool)
      ensures log == [] && acts == []
    {
      this.accepts, this.cancels := accepts, cancels;
      writes, looks, log, acts := 0, 0, [], [];
    }

    method Write(ep: Endpoint, report: Report) returns (ok: bool)
      modifies `writes, `log, `acts
      ensures log == old(log) + [Sent(ep, report, ok)] && acts == old(acts) + [Tried(ep, report, ok)]
    {
      ok := accepts(writes);
      writes := writes + 1;
      log, acts := log + [Sent(ep, report, ok)], acts + [Tried(ep, report, ok)];
    }

    method ContextEnded() returns (ended: bool)
      modifies `looks, `acts
      ensures acts == old(acts) + [Looked(ended)]
    {
      ended := cancels(looks);
      looks := looks + 1;
      acts := acts + [Looked(ended)];
    }
  }

  const KEY_UP: Report := [0, 0, 0, 0, 0, 0, 0, 0]

  const MOUSE_UP: Report := [0, 0, 0, 0]

  function Sent(ep: Endpoint, report: Report, ok: bool): Effect {
    Wrote(ep, report, ok, None)
  }

  // ---------------------------------------------------------------- heeding the context

  /** After this a call writes nothing but its release. */
  predicate Stops(a: Act) {
    a == Looked(true) || (a.Tried? && !a.ok)
  }

  /** The k-th act of a call is in order. After a failed write or a cancellation there is at most one
      more act, the release. Otherwise a report other than the release, or any report of a call that
      waits, is written only right after a look that found the call still wanted. */
  predicate ActOk(acts: seq<Act>, k: nat, release: Report, waits: bool)
    requires k < |acts|
  {
    if k > 0 && Stops(acts[k - 1]) then acts[k].Tried? && acts[k].report == release && k == |acts| - 1
    else acts[k].Tried? && (acts[k].report != release || waits) ==> k > 0 && acts[k - 1] == Looked(false)
  }

  /** The acts of a whole call, and what it returns: an error exactly if it was cancelled or a write
      failed, and which of them came first. */
  ghost predicate Heeds(acts: seq<Act>, release: Report, waits: bool, error: Option<Failure>) {
    && (forall k :: 0 <= k < |acts| ==> ActOk(acts, k, release, waits))
    && (error.None? <==> forall k :: 0 <= k < |acts| ==> !Stops(acts[k]))
    && (error == Some(Cancelled) <==> exists k :: 0 <= k < |acts| && acts[k] == Looked(true))
    && error != Some(Rejected)
  }

  /** The same of what a call added to the acts before it. */
  ghost predicate CallHeeds(before: seq<Act>, after: seq<Act>, release: Report, waits: bool, error: Option<Failure>) {
    before <= after && Heeds(after[|before|..], release, waits, error)
  }

  /** The acts of a call that goes on. */
  ghost predicate GoesOn(acts: seq<Act>, release: Report, waits: bool) {
    forall k :: 0 <= k < |acts| ==> ActOk(acts, k, release, waits) && !Stops(acts[k])
  }

  lemma GoesOnAtFirst(release: Report, waits: bool)
    ensures GoesOn([], release, waits)
  {
  }

  lemma GoesOnWith(acts: seq<Act>, a: Act, release: Report, waits: bool)
    requires GoesOn(acts, release, waits) && !Stops(a)
    requires a.Tried? && (a.report != release || waits) ==> acts != [] && acts[|acts| - 1] == Looked(false)
    ensures GoesOn(acts + [a], release, waits)
  {
    var more := acts + [a];
    forall k | 0 <= k < |more|
      ensures ActOk(more, k, release, waits) && !Stops(more[k])
    {
      if k < |acts| {
        assert ActOk(acts, k, release, waits);
      }
    }
  }

  lemma GoesOnToEnd(before: seq<Act>, acts: seq<Act>, after: seq<Act>, release: Report, waits: bool)
    requires GoesOn(acts, release, waits) && after == before + acts
    ensures CallHeeds(before, after, release, waits, None)
  {
    assert after[|before|..] == acts;
  }

  /** A call that stops, and then releases or not. */
  lemma StopsWith(before: seq<Act>, acts: seq<Act>, a: Act, last: seq<Act>, after: seq<Act>, release: Report,
      waits: bool)
    requires GoesOn(acts, release, waits) && Stops(a) && after == before + acts + [a] + last
    requires a.Tried? && (a.report != release || waits) ==> acts != [] && acts[|acts| - 1] == Looked(false)
    requires |last| <= 1 && (last != [] ==> last[0].Tried? && last[0].report == release)
    ensures CallHeeds(before, after, release, waits, Some(if a.Looked? then Cancelled else WriteFailed))
  {
    StopsAlone(acts, a, last, release, waits);
    assert after[|before|..] == acts + [a] + last;
  }

  lemma StopsAlone(acts: seq<Act>, a: Act, last: seq<Act>, release: Report, waits: bool)
    requires GoesOn(acts, release, waits) && Stops(a)
    requires a.Tried? && (a.report != release || waits) ==> acts != [] && acts[|acts| - 1] == Looked(false)
    requires |last| <= 1 && (last != [] ==> last[0].Tried? && last[0].report == release)
    ensures Heeds(acts + [a] + last, release, waits, Some(if a.Looked? then Cancelled else WriteFailed))
  {
    var more, n := acts + [a] + last, |acts|;
    forall k | 0 <= k < |more|
      ensures ActOk(more, k, release, waits)
    {
      if k < n {
        assert ActOk(acts, k, release, waits);
        assert k > 0 ==> !Stops(acts[k - 1]);
      }
    }
    assert more[n] == a;
    assert forall k :: 0 <= k < n ==> more[k] == acts[k] && !Stops(acts[k]);
  }

  // ---------------------------------------------------------------- what is sent, and what arrives

  /** Successful writes of these reports, in order. */
  function AllSent(ep: Endpoint, reports: seq<Report>): (w: Log)
    ensures |w| == |reports| && forall i :: 0 <= i < |w| ==> w[i] == Sent(ep, reports[i], true)
  {
    seq(|reports|, i requires 0 <= i < |reports| => Sent(ep, reports[i], true))
  }

  /** The reports of an endpoint that reach the target, for a choice of delivered writes. */
  ghost function Delivered(w: Log, d: seq<bool>, ep: Endpoint): seq<Report>
    requires |d| == |w|
  {
    if w == [] then []
    else
      var n := |w| - 1;
      Delivered(w[..n], d[..n], ep) + if w[n].Wrote? && w[n].ep == ep && d[n] then [w[n].report] else []
  }

  lemma DeliveredOne(w: Log, e: Effect, d: seq<bool>, ep: Endpoint)
    requires |d| == |w| + 1
    ensures Delivered(w + [e], d, ep)
            == Delivered(w, d[..|w|], ep) + if e.Wrote? && e.ep == ep && d[|w|] then [e.report] else []
  {
    assert (w + [e])[..|w|] == w;
  }

  /** What was written successfully arrives whatever the choice. */
  lemma {:induction false} AllSentArrives(ep: Endpoint, reports: seq<Report>, d: seq<bool>)
    requires CouldDeliver(AllSent(ep, reports), d)
    ensures Delivered(AllSent(ep, reports), d, ep) == reports
  {
    if reports != [] {
      var n := |reports| - 1;
      assert AllSent(ep, reports)[..n] == AllSent(ep, reports[..n]);
      AllSentArrives(ep, reports[..n], d[..n]);
      assert reports == reports[..n] + [reports[n]];
    }
  }

  /** How a call that plans these reports ends after k of them: at the end if all went well;
      otherwise with one attempt at the release, after a failed write if there was one, or right
      away if nothing or the release itself was written last. */
  ghost predicate StoppedAfter(ep: Endpoint, reports: seq<Report>, release: Report, k: nat, w: Log, ok: bool) {
    k <= |reports|
    && if ok then k == |reports| && w == AllSent(ep, reports)
       else
         || (w == AllSent(ep, reports[..k]) && (k == 0 || reports[k - 1] == release))
         || (exists last :: w == AllSent(ep, reports[..k]) + [Sent(ep, release, last)])
         || (k < |reports|
             && exists last :: w == AllSent(ep, reports[..k]) + [Sent(ep, reports[k], false)]
                 + [Sent(ep, release, last)])
  }

  ghost predicate Ran(ep: Endpoint, reports: seq<Report>, release: Report, w: Log, ok: bool) {
    exists k: nat :: StoppedAfter(ep, reports, release, k, w, ok)
  }

  /** Some reports of the plan, in order from the first, and perhaps a release after them. */
  ghost predicate Begun(reports: seq<Report>, release: Report, arrived: seq<Report>) {
    exists k: nat :: k <= |reports| && (arrived == reports[..k] || arrived == reports[..k] + [release])
  }

  lemma ArrivesOne(w: Log, e: Effect, d: seq<bool>, ep: Endpoint)
    requires CouldDeliver(w + [e], d)
    ensures CouldDeliver(w, d[..|w|])
    ensures Delivered(w + [e], d, ep)
            == Delivered(w, d[..|w|], ep) + if e.Wrote? && e.ep == ep && d[|w|] then [e.report] else []
  {
    DeliveredOne(w, e, d, ep);
    forall i | 0 <= i < |w| && w[i].Wrote? && w[i].ok
      ensures d[i]
    {
      assert (w + [e])[i] == w[i];
    }
  }

  lemma AllSentOfNone(ep: Endpoint, reports: seq<Report>)
    ensures AllSent(ep, reports[..0]) == []
  {
  }

  lemma SentNext(ep: Endpoint, reports: seq<Report>, k: nat)
    requires k < |reports|
    ensures AllSent(ep, reports[..k + 1]) == AllSent(ep, reports[..k]) + [Sent(ep, reports[k], true)]
  {
  }

  lemma StopsAtEnd(ep: Endpoint, reports: seq<Report>, release: Report, before: Log, log: Log)
    requires log == before + AllSent(ep, reports[..|reports|])
    ensures before <= log && Ran(ep, reports, release, log[|before|..], true)
  {
    assert reports[..|reports|] == reports;
    assert StoppedAfter(ep, reports, release, |reports|, log[|before|..], true);
  }

  lemma StopsBetween(ep: Endpoint, reports: seq<Report>, release: Report, k: nat, before: Log, log: Log)
    requires k <= |reports| && log == before + AllSent(ep, reports[..k]) && (k == 0 || reports[k - 1] == release)
    ensures before <= log && Ran(ep, reports, release, log[|before|..], false)
  {
    assert StoppedAfter(ep, reports, release, k, log[|before|..], false);
  }

  lemma StopsReleasing(ep: Endpoint, reports: seq<Report>, release: Report, k: nat, before: Log, log: Log, last: bool)
    requires k <= |reports| && log == before + AllSent(ep, reports[..k]) + [Sent(ep, release, last)]
    ensures before <= log && Ran(ep, reports, release, log[|before|..], false)
  {
    assert log[|before|..] == AllSent(ep, reports[..k]) + [Sent(ep, release, last)];
    assert StoppedAfter(ep, reports, release, k, log[|before|..], false);
  }

  lemma StopsFailing(ep: Endpoint, reports: seq<Report>, release: Report, k: nat, before: Log, log: Log, last: bool)
    requires k < |reports|
    requires log == before + AllSent(ep, reports[..k]) + [Sent(ep, reports[k], false)] + [Sent(ep, release, last)]
    ensures before <= log && Ran(ep, reports, release, log[|before|..], false)
  {
    assert log[|before|..] == AllSent(ep, reports[..k]) + [Sent(ep, reports[k], false)] + [Sent(ep, release, last)];
    assert StoppedAfter(ep, reports, release, k, log[|before|..], false);
  }

  /** What arrives of k successful writes and one more attempt. */
  lemma DeliversOneMore(ep: Endpoint, reports: seq<Report>, k: nat, r: Report, ok: bool, d: seq<bool>)
    requires k <= |reports| && CouldDeliver(AllSent(ep, reports[..k]) + [Sent(ep, r, ok)], d)
    ensures var arrived := Delivered(AllSent(ep, reports[..k]) + [Sent(ep, r, ok)], d, ep);
            arrived == reports[..k] || arrived == reports[..k] + [r]
  {
    hide AllSent, Delivered;
    var sent := AllSent(ep, reports[..k]);
    ArrivesOne(sent, Sent(ep, r, ok), d, ep);
    AllSentArrives(ep, reports[..k], d[..|sent|]);
    assert reports[..k] + [] == reports[..k];
  }

  lemma DeliversTwoMore(ep: Endpoint, reports: seq<Report>, k: nat, release: Report, last: bool, d: seq<bool>)
    requires k < |reports|
    requires CouldDeliver(AllSent(ep, reports[..k]) + [Sent(ep, reports[k], false)] + [Sent(ep, release, last)], d)
    ensures Begun(reports, release,
              Delivered(AllSent(ep, reports[..k]) + [Sent(ep, reports[k], false)] + [Sent(ep, release, last)], d, ep))
  {
    hide AllSent, Delivered;
    var tried := AllSent(ep, reports[..k]) + [Sent(ep, reports[k], false)];
    ArrivesOne(tried, Sent(ep, release, last), d, ep);
    DeliversOneMore(ep, reports, k, reports[k], false, d[..|tried|]);
    var arrived := Delivered(tried, d[..|tried|], ep);
    assert reports[..k] + [reports[k]] == reports[..k + 1];
    assert arrived + [] == arrived;
  }

  /** Whichever failed writes arrive: a call that succeeds delivers its plan, one that fails delivers
      a beginning of it. */
  lemma RanDelivers(ep: Endpoint, reports: seq<Report>, release: Report, w: Log, ok: bool, d: seq<bool>)
    requires Ran(ep, reports, release, w, ok) && CouldDeliver(w, d)
    ensures if ok then Delivered(w, d, ep) == reports else Begun(reports, release, Delivered(w, d, ep))
  {
    hide AllSent, Delivered;
    var k: nat :| StoppedAfter(ep, reports, release, k, w, ok);
    if ok {
      AllSentArrives(ep, reports, d);
    } else if w == AllSent(ep, reports[..k]) {
      AllSentArrives(ep, reports[..k], d);
    } else if last :| w == AllSent(ep, reports[..k]) + [Sent(ep, release, last)] {
      DeliversOneMore(ep, reports, k, release, last, d);
    } else {
      var last :| w == AllSent(ep, reports[..k]) + [Sent(ep, reports[k], false)] + [Sent(ep, release, last)];
      DeliversTwoMore(ep, reports, k, release, last, d);
    }
  }

  /** The last write of a call is its release. */
  lemma RanEndsWithRelease(ep: Endpoint, reports: seq<Report>, release: Report, w: Log, ok: bool)
    requires Ran(ep, reports, release, w, ok) && w != []
    requires reports != [] ==> reports[|reports| - 1] == release
    ensures w[|w| - 1] == Sent(ep, release, w[|w| - 1].ok)
  {
    var k: nat :| StoppedAfter(ep, reports, release, k, w, ok);
  }

  /** On every way out something is still held only if the last write, the release, failed. */
  lemma RanEndsReleased(ep: Endpoint, reports: seq<Report>, release: Report, before: Log, w: Log, ok: bool)
    requires Ran(ep, reports, release, w, ok) && !Presses(ep, release)
    requires reports != [] ==> reports[|reports| - 1] == release
    requires !MayHold(before, ep)
    ensures MayHold(before + w, ep) ==> w != [] && w[|w| - 1] == Sent(ep, release, false)
  {
    hide Ran, Presses;
    if w != [] {
      var n := |w| - 1;
      RanEndsWithRelease(ep, reports, release, w, ok);
      assert before + w == before + w[..n] + [w[n]];
      Appended(before + w[..n], w[n]);
    } else {
      assert before + w == before;
    }
  }

  // ---------------------------------------------------------------- one step of a plan

  /** Looks at the context and writes the next report of a plan; on a cancellation or a failed write
      it tries the release instead. */
  method LookAndWrite(remote: Remote, ep: Endpoint, report: Report, release: Report, ghost waits: bool,
                      ghost before: Log, ghost start: seq<Act>, ghost acts: seq<Act>, ghost plan: seq<Report>,
                      ghost k: nat)
    returns (error: Option<Failure>, ghost now: seq<Act>)
    requires k < |plan| && plan[k] == report && remote.log == before + AllSent(ep, plan[..k])
    requires remote.acts == start + acts && GoesOn(acts, release, waits)
    modifies remote
    ensures before <= remote.log && start <= remote.acts && error != Some(Rejected)
    ensures error.None? ==>
              remote.log == before + AllSent(ep, plan[..k + 1]) && remote.acts == start + now
              && GoesOn(now, release, waits)
    ensures error.Some? ==>
              Ran(ep, plan, release, remote.log[|before|..], false)
              && CallHeeds(start, remote.acts, release, waits, error)
  {
    hide Ran, AllSent, Sent, ActOk, GoesOn, Heeds;
    now := acts;
    var ended := remote.ContextEnded();
    if ended {
      var last := remote.Write(ep, release);
      StopsWith(start, now, Looked(true), [Tried(ep, release, last)], remote.acts, release, waits);
      StopsReleasing(ep, plan, release, k, before, remote.log, last);
      return Some(Cancelled), now;
    }
    GoesOnWith(now, Looked(false), release, waits);
    now := now + [Looked(false)];
    var ok := remote.Write(ep, report);
    if !ok {
      var last := remote.Write(ep, release);
      StopsWith(start, now, Tried(ep, report, false), [Tried(ep, release, last)], remote.acts, release, waits);
      StopsFailing(ep, plan, release, k, before, remote.log, last);
      return Some(WriteFailed), now;
    }
    GoesOnWith(now, Tried(ep, report, true), release, waits);
    now := now + [Tried(ep, report, true)];
    SentNext(ep, plan, k);
    return None, now;
  }
}
