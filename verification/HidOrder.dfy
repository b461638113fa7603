/** What the rules of a worker's effects come to: every report has its turn, once, and in order. */
module HidOrder {
  import opened Wrappers
  import opened HidHost
  import opened HidRules

  /** How many writes were made for a report. */
  function Writes(log: Log, i: nat): nat {
    if log == [] then 0
    else
      var init, e := log[..|log| - 1], log[|log| - 1];
      Writes(init, i) + if e.Wrote? && e.event == Some(i) then 1 else 0
  }

  /** The reports that were written for themselves, in order. */
  function Reports(log: Log): seq<Report> {
    if log == [] then []
    else
      var init, e := log[..|log| - 1], log[|log| - 1];
      Reports(init) + if e.Wrote? && e.event.Some? then [e.report] else []
  }

  /** The reports that have an endpoint, in order. */
  function WellFormed(queue: seq<Report>, endpointOf: Report -> Option<Endpoint>): seq<Report> {
    if queue == [] then []
    else
      var init, r := queue[..|queue| - 1], queue[|queue| - 1];
      WellFormed(init, endpointOf) + if endpointOf(r).Some? then [r] else []
  }

  // ---------------------------------------------------------------- written once, in order

  lemma {:induction false} WritesOfMade(log: Log, i: nat)
    ensures Writes(log, i) > 0 <==> i in Made(log)
  {
    if log != [] {
      WritesOfMade(log[..|log| - 1], i);
    }
  }

  /** Reports are written in the order of the queue, none twice, and none out of turn. */
  lemma {:induction false} WrittenInOrder(queue: seq<Report>, waiting: nat -> nat, log: Log,
      endpointOf: Report -> Option<Endpoint>)
    requires InOrder(queue, waiting, log, endpointOf)
    ensures forall m, n :: 0 <= m < n < |Made(log)| ==> Made(log)[m] < Made(log)[n]
    ensures forall i :: Writes(log, i) <= 1
  {
    if log != [] {
      var init, e := log[..|log| - 1], log[|log| - 1];
      WrittenInOrder(queue, waiting, init, endpointOf);
      if e.Wrote? && e.event.Some? {
        WritesOfMade(init, e.event.value);
        assert forall m :: 0 <= m < |Made(init)| ==> Made(init)[m] in Made(init);
      }
    }
  }

  /** A report that is completed with success was written, exactly once. */
  lemma SuccessWasWritten(queue: seq<Report>, waiting: nat -> nat, log: Log, endpointOf: Report -> Option<Endpoint>,
      p: nat)
    requires InOrder(queue, waiting, log, endpointOf) && EffectsOk(queue, log, endpointOf)
    requires p < |log| && log[p].Completed? && log[p].success
    ensures Writes(log, log[p].index) == 1
  {
    var i := log[p].index;
    assert NewestOk(queue, log[..p + 1], endpointOf);
    assert log[..p + 1][p] == log[p];
    assert p > 0 && log[p - 1].Wrote? && log[p - 1].event == Some(i);
    WrittenBefore(log, p - 1, i);
    WrittenInOrder(queue, waiting, log, endpointOf);
  }

  lemma {:induction false} WrittenBefore(log: Log, p: nat, i: nat)
    requires p < |log| && log[p].Wrote? && log[p].event == Some(i)
    ensures Writes(log, i) > 0
  {
    if p < |log| - 1 {
      WrittenBefore(log[..|log| - 1], p, i);
    }
  }

  // ---------------------------------------------------------------- failures

  /** A failure is being dealt with: a write has failed, and since then nothing was written for a report,
      and nothing completed but reports behind the one in hand, which are dropped. */
  ghost predicate FailedSince(log: Log, p: nat) {
    && p < |log| && log[p].Wrote? && !log[p].ok
    && forall k :: p < k < |log| ==>
         match log[k]
         case Wrote(_, _, _, event) => event.None?
         case WasReset(_) => true
         case Completed(i, success) => !success && !IsTurn(log[..k], i)
  }

  lemma {:induction false} TroubleMeans(queue: seq<Report>, waiting: nat -> nat, log: Log,
      endpointOf: Report -> Option<Endpoint>)
    requires InOrder(queue, waiting, log, endpointOf)
    ensures Trouble(log) <==> exists p: nat :: FailedSince(log, p)
  {
    if log != [] {
      var n := |log| - 1;
      var init, e := log[..n], log[n];
      TroubleMeans(queue, waiting, init, endpointOf);
      assert forall k :: 0 <= k <= n ==> init[..k] == log[..k];
      if e.Wrote? && !e.ok {
        assert FailedSince(log, n);
      } else {
        if p: nat :| FailedSince(log, p) {
          assert p < n && FailedSince(init, p);
        }
        if Trouble(log) {
          var p: nat :| FailedSince(init, p);
          assert FailedSince(log, p);
        }
      }
    }
  }

  /** A report that has an endpoint is completed as failed only while a failed write is dealt with: it
      is dropped from the queue, or it is the one in hand, and the endpoints are seen to first. */
  lemma {:induction false} FailedOnlyAfterFailure(queue: seq<Report>, waiting: nat -> nat, log: Log,
      endpointOf: Report -> Option<Endpoint>, p: nat)
    requires InOrder(queue, waiting, log, endpointOf) && p < |log| && log[p].Completed? && !log[p].success
    ensures log[p].index < |queue|
    ensures endpointOf(queue[log[p].index]).Some? ==>
              && (exists q: nat :: FailedSince(log[..p], q))
              && (IsTurn(log[..p], log[p].index) ==>
                    MayGiveUp(queue, waiting, log[..p], log[p].index, endpointOf))
    decreases |log|
  {
    var n := |log| - 1;
    if p < n {
      FailedOnlyAfterFailure(queue, waiting, log[..n], endpointOf, p);
      assert log[..n][..p] == log[..p];
    } else {
      TroubleMeans(queue, waiting, log[..n], endpointOf);
    }
  }

  // ---------------------------------------------------------------- no failures

  /** The first t reports are done with, and the next may have been written. */
  ghost predicate DoneWith(queue: seq<Report>, log: Log, endpointOf: Report -> Option<Endpoint>, t: nat) {
    && t <= |queue| && (forall i: nat :: Completions(log, i) == if i < t then 1 else 0)
    && (forall i :: i in Made(log) ==> i <= t)
    && (t in Made(log) ==> t < |queue| && endpointOf(queue[t]).Some?)
    && Reports(log) == WellFormed(queue[..t], endpointOf) + if t in Made(log) then [queue[t]] else []
  }

  lemma NewestIsOk(queue: seq<Report>, log: Log, endpointOf: Report -> Option<Endpoint>)
    requires EffectsOk(queue, log, endpointOf)
    ensures NewestOk(queue, log, endpointOf)
    ensures log != [] ==> EffectsOk(queue, log[..|log| - 1], endpointOf)
  {
    assert log[..|log|] == log;
    if log != [] {
      var init := log[..|log| - 1];
      forall k | 0 <= k <= |init|
        ensures NewestOk(queue, init[..k], endpointOf)
      {
        assert init[..k] == log[..k];
      }
    }
  }

  /** One more effect, when no write has failed. */
  lemma DoneWithNext(queue: seq<Report>, waiting: nat -> nat, log: Log, e: Effect,
      endpointOf: Report -> Option<Endpoint>, t: nat)
    requires !Trouble(log) && DoneWith(queue, log, endpointOf, t)
    requires MayFollow(queue, waiting, log, e, endpointOf) && NewestOk(queue, log + [e], endpointOf)
    requires e.Wrote? ==> e.ok
    ensures !Trouble(log + [e])
    ensures DoneWith(queue, log + [e], endpointOf, if e.Completed? then t + 1 else t)
  {
    assert (log + [e])[..|log|] == log;
    RulesAppended(log, e);
    Appended(log, e);
    hide Trouble, Completions, OtherQuiet, MayRelease, IsTurn, MayHold, LastWrite;
    if e.Completed? {
      TurnIs(log, t, e.index);
      if e.success {
        MadeLast(log);
      }
      if t < |queue| {
        assert queue[..t + 1][..t] == queue[..t];
      }
    } else if e.Wrote? && e.event.Some? {
      TurnIs(log, t, e.event.value);
    }
  }

  lemma {:induction false} SmoothSoFar(queue: seq<Report>, waiting: nat -> nat, log: Log,
      endpointOf: Report -> Option<Endpoint>) returns (t: nat)
    requires InOrder(queue, waiting, log, endpointOf) && EffectsOk(queue, log, endpointOf) && Failures(log) == 0
    ensures !Trouble(log) && DoneWith(queue, log, endpointOf, t)
    decreases |log|
  {
    hide EffectsOk, DoneWith, MayFollow, NewestOk;
    if log == [] {
      t := 0;
      NothingDone(queue, endpointOf);
    } else {
      var init, e := log[..|log| - 1], log[|log| - 1];
      assert log == init + [e];
      NewestIsOk(queue, log, endpointOf);
      t := SmoothSoFar(queue, waiting, init, endpointOf);
      DoneWithNext(queue, waiting, init, e, endpointOf, t);
      t := if e.Completed? then t + 1 else t;
    }
  }

  lemma NothingDone(queue: seq<Report>, endpointOf: Report -> Option<Endpoint>)
    ensures DoneWith(queue, [], endpointOf, 0)
  {
  }

  lemma TurnIs(log: Log, t: nat, i: nat)
    requires (forall k: nat :: Completions(log, k) == if k < t then 1 else 0) && IsTurn(log, i)
    ensures i == t
  {
    assert Completions(log, t) == 0;
  }

  lemma MadeLast(log: Log)
    requires log != [] && log[|log| - 1].Wrote? && log[|log| - 1].event.Some?
    ensures log[|log| - 1].event.value in Made(log)
  {
  }

  /** If no write fails, the reports written for themselves are exactly the well-formed ones, in order. */
  lemma AllArrive(queue: seq<Report>, waiting: nat -> nat, log: Log, endpointOf: Report -> Option<Endpoint>)
    requires InOrder(queue, waiting, log, endpointOf) && EffectsOk(queue, log, endpointOf) && Failures(log) == 0
    requires forall i: nat :: Completions(log, i) == if i < |queue| then 1 else 0
    ensures Reports(log) == WellFormed(queue, endpointOf)
  {
    var t := SmoothSoFar(queue, waiting, log, endpointOf);
    assert Completions(log, t) == 0;
    assert t == |queue| && queue[..t] == queue;
  }
}
