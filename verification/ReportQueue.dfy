/**
 The report queue between a websocket client's read loop and a HID worker.

 The first part is the step system of one queue: the single producer, the worker, and whoever
 closes the client. A report stands for the reservation it carries. The second part is sendQueue
 itself, with the worker's receives as interference.
 */
module ReportQueues {
  import opened Wrappers

  // ---------------------------------------------------------------- the step system

  /** Where the read loop stands in queueManualReport, writeQueue and sendQueue. */
  datatype Producer =
    | Reading
    | Sending(report: nat, tries: nat)
    | Evicting(report: nat, tries: nat)
    | Evicted(report: nat, tries: nat, stale: nat)
    | Refused(report: nat)

  /** Where the worker stands: it handles one report, and may drain the queue after a failed write. */
  datatype Worker =
    | Waiting
    | Handling(report: nat)
    | Draining(report: nat)
    | Dropping(report: nat, stale: nat)
    | Stopped

  datatype State = State(
    capacity: nat, items: seq<nat>, closed: bool, producer: Producer, worker: Worker,
    reserved: nat, completed: seq<nat>)

  datatype Event = Produce | Work(drain: bool) | CloseQueue

  function Initial(capacity: nat): State {
    State(capacity, [], false, Reading, Waiting, 0, [])
  }

  function StepProducer(s: State): State {
    match s.producer
    case Reading => s.(producer := Sending(s.reserved, 0), reserved := s.reserved + 1)
    case Sending(r, tries) =>
      if tries > s.capacity then s.(producer := Reading)
      else if s.closed then s.(producer := Refused(r))
      else if |s.items| < s.capacity then s.(items := s.items + [r], producer := Reading)
      else if s.capacity == 0 && s.worker.Waiting? then s.(worker := Handling(r), producer := Reading)
      else s.(producer := Evicting(r, tries))
    case Evicting(r, tries) =>
      if s.items == [] then s.(producer := Sending(r, tries + 1))
      else s.(items := s.items[1..], producer := Evicted(r, tries, s.items[0]))
    case Evicted(r, tries, stale) =>
      s.(completed := s.completed + [stale], producer := Sending(r, tries + 1))
    case Refused(r) => s.(completed := s.completed + [r], producer := Reading)
  }

  function StepWorker(s: State, drain: bool): State {
    match s.worker
    case Waiting =>
      if s.items != [] then s.(items := s.items[1..], worker := Handling(s.items[0]))
      else if s.closed then s.(worker := Stopped)
      else s
    case Handling(r) =>
      if drain then s.(worker := Draining(r))
      else s.(completed := s.completed + [r], worker := Waiting)
    case Draining(r) =>
      if s.items == [] then s.(completed := s.completed + [r], worker := Waiting)
      else s.(items := s.items[1..], worker := Dropping(r, s.items[0]))
    case Dropping(r, stale) => s.(completed := s.completed + [stale], worker := Draining(r))
    case Stopped => s
  }

  function Next(s: State, e: Event): State {
    match e
    case Produce => StepProducer(s)
    case Work(drain) => StepWorker(s, drain)
    case CloseQueue => s.(closed := true)
  }

  function Count(s: seq<nat>, r: nat): nat {
    if s == [] then 0 else (if s[0] == r then 1 else 0) + Count(s[1..], r)
  }

  lemma {:induction false} CountAppend(s: seq<nat>, x: nat, r: nat)
    ensures Count(s + [x], r) == Count(s, r) + if x == r then 1 else 0
  {
    if s != [] {
      CountAppend(s[1..], x, r);
      assert (s + [x])[1..] == s[1..] + [x];
    }
  }

  lemma CountShort(x: nat, y: nat, r: nat)
    ensures Count([x], r) == if x == r then 1 else 0
    ensures Count([x, y], r) == (if x == r then 1 else 0) + (if y == r then 1 else 0)
  {
    assert [x][1..] == [] && [x, y][1..] == [y] && [y][1..] == [];
    assert Count([y], r) == if y == r then 1 else 0;
  }

  function InHand(p: Producer): seq<nat> {
    match p
    case Reading => []
    case Sending(r, _) => [r]
    case Evicting(r, _) => [r]
    case Evicted(r, _, stale) => [r, stale]
    case Refused(r) => [r]
  }

  function AtWork(w: Worker): seq<nat> {
    match w
    case Handling(r) => [r]
    case Draining(r) => [r]
    case Dropping(r, stale) => [r, stale]
    case _ => []
  }

  /** How many places hold a reservation: the read loop, the queue, the worker, the completed ones. */
  function Places(s: State, r: nat): nat {
    Count(InHand(s.producer), r) + Count(s.items, r) + Count(AtWork(s.worker), r) + Count(s.completed, r)
  }

  /** One eviction always makes room, because nobody else produces. */
  predicate TriesOk(s: State) {
    match s.producer
    case Sending(_, tries) => tries <= 1 && (tries == 1 && !s.closed ==> |s.items| < s.capacity)
    case Evicting(_, tries) => tries == 0
    case Evicted(_, tries, _) => tries == 0 && |s.items| < s.capacity
    case _ => true
  }

  ghost predicate Inv(s: State) {
    && s.capacity > 0 && |s.items| <= s.capacity && TriesOk(s)
    && (s.worker.Stopped? ==> s.closed && s.items == [])
    && forall r: nat :: Places(s, r) == if r < s.reserved then 1 else 0
  }

  /** The producer only moves reservations around, and makes the next one. */
  lemma ProducerKeeps(s: State, r: nat)
    requires s.producer.Sending? ==> s.producer.tries <= s.capacity
    ensures Places(StepProducer(s), r) == Places(s, r) + if s.producer.Reading? && r == s.reserved then 1 else 0
  {
    match s.producer
    case Reading => CountShort(s.reserved, 0, r);
    case Sending(x, _) => CountAppend(s.items, x, r); CountShort(x, 0, r);
    case Evicting(x, _) => if s.items != [] { CountShort(x, s.items[0], r); }
    case Evicted(x, _, stale) => CountAppend(s.completed, stale, r); CountShort(x, stale, r);
    case Refused(x) => CountAppend(s.completed, x, r); CountShort(x, 0, r);
  }

  lemma WorkerKeeps(s: State, drain: bool, r: nat)
    ensures Places(StepWorker(s, drain), r) == Places(s, r)
  {
    match s.worker
    case Waiting => if s.items != [] { CountShort(s.items[0], 0, r); }
    case Handling(x) => CountAppend(s.completed, x, r); CountShort(x, 0, r);
    case Draining(x) =>
      CountAppend(s.completed, x, r);
      CountShort(x, if s.items != [] then s.items[0] else 0, r);
    case Dropping(x, stale) => CountAppend(s.completed, stale, r); CountShort(x, stale, r);
    case Stopped =>
  }

  lemma InvKept(s: State, e: Event)
    requires Inv(s)
    ensures Inv(Next(s, e)) && Next(s, e).capacity == s.capacity
  {
    forall r: nat
      ensures Places(Next(s, e), r) == Places(s, r) + if e.Produce? && s.producer.Reading? && r == s.reserved then 1
                else 0
    {
      match e
      case Produce => ProducerKeeps(s, r);
      case Work(drain) => WorkerKeeps(s, drain, r);
      case CloseQueue =>
    }
  }

  ghost predicate IsRun(capacity: nat, states: seq<State>, events: seq<Event>) {
    && |states| == |events| + 1 && states[0] == Initial(capacity)
    && forall i :: 0 <= i < |events| ==> states[i + 1] == Next(states[i], events[i])
  }

  lemma {:induction false} InvOnRuns(capacity: nat, states: seq<State>, events: seq<Event>, i: nat)
    requires IsRun(capacity, states, events) && capacity > 0 && i < |states|
    ensures Inv(states[i]) && states[i].capacity == capacity
  {
    if i > 0 {
      InvOnRuns(capacity, states, events, i - 1);
      InvKept(states[i - 1], events[i - 1]);
    }
  }

  /** No reservation is ever completed twice, and none gets lost: when the read loop is back at
      reading and the worker has stopped, every reservation was completed exactly once. */
  lemma EveryReservationCompletedOnce(capacity: nat, states: seq<State>, events: seq<Event>, i: nat, r: nat)
    requires IsRun(capacity, states, events) && capacity > 0 && i < |states|
    ensures Count(states[i].completed, r) <= (if r < states[i].reserved then 1 else 0)
    ensures states[i].producer.Reading? && states[i].worker.Stopped? && r < states[i].reserved ==>
              Count(states[i].completed, r) == 1
  {
    InvOnRuns(capacity, states, events, i);
    assert Places(states[i], r) == if r < states[i].reserved then 1 else 0;
  }

  /** With room for at least one report, the send loop ends at its second try at the latest, so it
      never runs to its bound and falls through. */
  lemma SecondTrySends(capacity: nat, states: seq<State>, events: seq<Event>, i: nat)
    requires IsRun(capacity, states, events) && capacity > 0 && i < |states|
    ensures states[i].producer.Sending? ==>
              && states[i].producer.tries <= 1 <= capacity
              && (states[i].producer.tries == 1 ==> !StepProducer(states[i]).producer.Evicting?)
  {
    InvOnRuns(capacity, states, events, i);
  }

  /** A queue without room would hand a report straight to a waiting worker; while the worker is busy
      the loop does fall through there, and the report is neither queued nor completed. So the promise
      needs the room that every queue of the server has. */
  lemma WithoutRoomAReportIsLost()
    ensures exists states: seq<State>, events: seq<Event> ::
              IsRun(0, states, events) && states[|events|].producer.Reading? && states[|events|].worker == Handling(0)
              && states[|events|].reserved == 2 && states[|events|].items == [] && states[|events|].completed == []
  {
    var s0 := Initial(0);
    var s1 := Next(s0, Produce);
    var s2 := Next(s1, Produce);
    assert s2.worker == Handling(0) && s2.producer.Reading?;
    var s3 := Next(s2, Produce);
    var s4 := Next(s3, Produce);
    var s5 := Next(s4, Produce);
    var s6 := Next(s5, Produce);
    assert IsRun(0, [s0, s1, s2, s3, s4, s5, s6], [Produce, Produce, Produce, Produce, Produce, Produce]);
  }

  // ---------------------------------------------------------------- sendQueue

  class ReportQueue {
    const capacity: nat
    var items: seq<nat>
    var closed: bool

    constructor (capacity: nat)
      requires capacity > 0
      ensures this.capacity == capacity && items == [] && !closed && Valid()
    {
      this.capacity, items, closed := capacity, [], false;
    }

    predicate Valid()
      reads this
    {
      0 < capacity && |items| <= capacity
    }

    /** What happens between two of the producer's channel operations: the worker receives, and the
        client may be closed. */
    method Interfere(n: nat, closes: bool) returns (taken: seq<nat>)
      requires Valid()
      modifies this
      ensures Valid() && old(items) == taken + items && closed == (old(closed) || closes)
    {
      var k := if n < |items| then n else |items|;
      taken, items := items[..k], items[k..];
      closed := closed || closes;
    }

    /** A non-blocking send; sending on a closed channel panics, which is None. */
    method TrySend(report: nat) returns (sent: Option<bool>)
      requires Valid()
      modifies `items
      ensures Valid() && (sent.None? <==> closed) && (sent.Some? ==> sent.value == (|old(items)| < capacity))
      ensures items == if sent == Some(true) then old(items) + [report] else old(items)
    {
      if closed {
        return None;
      }
      if |items| < capacity {
        items := items + [report];
        return Some(true);
      }
      return Some(false);
    }

    /** A non-blocking receive; a closed channel delivers what is left, and then nothing worth it. */
    method TryReceive() returns (stale: Option<nat>)
      requires Valid()
      modifies `items
      ensures Valid()
      ensures stale == if old(items) == [] then None else Some(old(items)[0])
      ensures items == if old(items) == [] then [] else old(items)[1..]
    {
      if items == [] {
        return None;
      }
      stale := Some(items[0]);
      items := items[1..];
    }
  }

  /** sendQueue: `takes(n)` is how much the worker receives before the producer's n-th channel
      operation, and `closes(n)` whether the client is closed by then. Reports leave the queue in
      order, at most one of them by eviction; the new report ends up last, unless there is no queue
      or it is closed before the report is in. */
  method SendQueue(queue: ReportQueue?, report: nat, takes: nat -> nat, closes: nat -> bool)
    returns (ok: bool, evicted: seq<nat>, ghost gone: seq<nat>)
    requires queue != null ==> queue.Valid()
    modifies queue
    ensures queue == null ==> !ok && evicted == []
    ensures queue != null ==>
              && queue.Valid() && |evicted| <= 1 && (evicted != [] ==> evicted[0] in gone)
              && (if ok then old(queue.items) + [report] else old(queue.items)) == gone + queue.items
              && (ok ==> queue.items != [] && queue.items[|queue.items| - 1] == report && !old(queue.closed))
              && (!ok ==> queue.closed)
              && (evicted != [] ==> |old(queue.items)| == queue.capacity)
  {
    evicted, gone := [], [];
    if queue == null {
      return false, evicted, gone;
    }
    ghost var before, wasClosed := queue.items, queue.closed;
    for attempt := 0 to queue.capacity + 1
      invariant queue.Valid()
      invariant before == gone + queue.items
      invariant attempt <= 1 && |evicted| <= attempt
      invariant attempt == 1 ==> |queue.items| < queue.capacity
      invariant evicted != [] ==> |before| == queue.capacity && evicted[0] in gone
      invariant wasClosed ==> queue.closed
    {
      var taken := queue.Interfere(takes(2 * attempt), closes(2 * attempt));
      Reassociate(gone, taken, queue.items);
      gone := gone + taken;
      ghost var now := queue.items;
      var sent := queue.TrySend(report);
      if sent.None? {
        return false, evicted, gone;
      }
      if sent.value {
        Reassociate(gone, now, [report]);
        return true, evicted, gone;
      }
      assert attempt == 0;
      taken := queue.Interfere(takes(1), closes(1));
      Reassociate(gone, taken, queue.items);
      gone := gone + taken;
      now := queue.items;
      var stale := queue.TryReceive();
      if stale.Some? {
        assert now == [stale.value] + queue.items;
        Reassociate(gone, [stale.value], queue.items);
        evicted := evicted + [stale.value];
        gone := gone + [stale.value];
      }
    }
    // The loop never comes to its end: its bound is at least two.
    assert false;
    ok := true;
  }

  lemma Reassociate(a: seq<nat>, b: seq<nat>, c: seq<nat>)
    ensures a + (b + c) == a + b + c
  {
  }
}
