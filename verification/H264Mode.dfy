/**
 The H.264 mode store, its runner, and the coalescing websocket mailbox behind it.

 `Store` and `Mailbox` are the fields behind the two mutexes; their functions are the critical
 sections, and the classes run the same sections on mutable fields. The step system adds the
 registrations (any number of them), the two runners, and the two one-place notify channels.
 `queued` and `broadcasts` are histories: all notifications ever queued, all statuses ever sent.
 */
module H264Mode {
  import opened Wrappers

  datatype StreamMode = Direct | WebRTC | Other(name: string)

  datatype Status = Status(revision: nat, direct: int, webrtc: int, mixed: bool)

  datatype Store = Store(direct: int, webrtc: int, status: Status, pending: seq<Status>)

  const FRESH_STORE := Store(0, 0, Status(0, 0, 0, false), [])

  function Clamp(n: int): int {
    if n < 0 then 0 else n
  }

  function StatusAfter(previous: Status, direct: int, webrtc: int): Status {
    Status(previous.revision + 1, direct, webrtc, direct > 0 && webrtc > 0)
  }

  /** update, for one of the two tracked modes. */
  function Update(s: Store, mode: StreamMode, delta: int): Store
    requires !mode.Other?
  {
    var direct := if mode.Direct? then Clamp(s.direct + delta) else s.direct;
    var webrtc := if mode.WebRTC? then Clamp(s.webrtc + delta) else s.webrtc;
    var next := StatusAfter(s.status, direct, webrtc);
    Store(direct, webrtc, next, if next.mixed == s.status.mixed then s.pending else s.pending + [next])
  }

  class H264ModeStore {
    var direct: int
    var webrtc: int
    var status: Status
    var pending: seq<Status>

    ghost function View(): Store
      reads this
    {
      Store(direct, webrtc, status, pending)
    }

    constructor ()
      ensures View() == FRESH_STORE
    {
      direct, webrtc, status, pending := 0, 0, Status(0, 0, 0, false), [];
    }

    /** The locked part of update; `notify` says whether the caller goes on to post a token. */
    method UpdateLocked(mode: StreamMode, delta: int) returns (notify: bool)
      requires !mode.Other?
      modifies this
      ensures View() == Update(old(View()), mode, delta)
      ensures notify <==> status.mixed != old(status).mixed
    {
      var previous := status;
      if mode.Direct? {
        direct := direct + delta;
        if direct < 0 { direct := 0; }
      } else {
        webrtc := webrtc + delta;
        if webrtc < 0 { webrtc := 0; }
      }
      status := Status(previous.revision + 1, direct, webrtc, direct > 0 && webrtc > 0);
      if previous.mixed == status.mixed {
        return false;
      }
      pending := pending + [status];
      return true;
    }

    method TakePending() returns (notification: Option<Status>)
      modifies this
      ensures old(pending) == [] ==> notification == None && View() == old(View())
      ensures old(pending) != [] ==>
                notification == Some(old(pending)[0]) && View() == old(View()).(pending := old(pending)[1..])
    {
      if |pending| == 0 {
        return None;
      }
      notification := Some(pending[0]);
      pending := pending[1..];
    }
  }

  class ModeBroadcaster {
    var pending: Option<Status>
    var token: bool

    constructor ()
      ensures pending == None && !token
    {
      pending, token := None, false;
    }

    /** The notify channel has one place, so posting a second token changes nothing. */
    method Enqueue(status: Status)
      modifies this
      ensures pending == Some(status) && token
    {
      pending := Some(status);
      token := true;
    }

    method TakePending() returns (status: Option<Status>)
      modifies `pending
      ensures status == old(pending) && pending == None
    {
      status := pending;
      pending := None;
    }
  }

  // ---------------------------------------------------------------- the step system

  /** One registration: its register call, its life, and its release. */
  datatype Registration =
    | Registering(mode: StreamMode)
    | Posting(mode: StreamMode, live: bool)
    | Live(mode: StreamMode)
    | Ended

  /** The store's runner; Announcing is between the mailbox's critical section and its token. */
  datatype Runner = Parked | Scanning | Delivering(status: Status) | Announcing

  datatype Sys = Sys(
    store: Store, token: bool, runner: Runner,
    mailbox: Option<Status>, mailToken: bool, mailRunner: Runner,
    registrations: map<nat, Registration>, queued: seq<Status>, broadcasts: seq<Status>)

  datatype Event =
    | NewRegistration(r: nat, mode: StreamMode)
    | Step(r: nat)
    | RunStore
    | RunMailbox

  const INITIAL := Sys(FRESH_STORE, false, Parked, None, false, Parked, map[], [], [])

  /** The locked part of update, and where the registration goes from there. */
  function Updating(s: Sys, r: nat, mode: StreamMode, delta: int, live: bool): Sys
    requires !mode.Other?
  {
    var store := Update(s.store, mode, delta);
    var changed := store.status.mixed != s.store.status.mixed;
    s.(store := store, queued := if changed then s.queued + [store.status] else s.queued,
       registrations := s.registrations[r := if changed then Posting(mode, live) else if live then Live(mode)
           else Ended])
  }

  function StepRegistration(s: Sys, r: nat): Sys
    requires r in s.registrations
  {
    match s.registrations[r]
    case Registering(mode) =>
      if mode.Other? then s.(registrations := s.registrations[r := Ended]) else Updating(s, r, mode, 1, true)
    case Posting(mode, live) =>
      s.(token := true, registrations := s.registrations[r := if live then Live(mode) else Ended])
    case Live(mode) => if mode.Other? then s else Updating(s, r, mode, -1, false)
    case Ended => s
  }

  function StepStoreRunner(s: Sys): Sys {
    match s.runner
    case Parked => if s.token then s.(token := false, runner := Scanning) else s
    case Scanning =>
      if s.store.pending == [] then s.(runner := Parked)
      else s.(store := s.store.(pending := s.store.pending[1..]), runner := Delivering(s.store.pending[0]))
    case Delivering(status) => s.(mailbox := Some(status), runner := Announcing)
    case Announcing => s.(mailToken := true, runner := Scanning)
  }

  function StepMailRunner(s: Sys): Sys {
    match s.mailRunner
    case Parked => if s.mailToken then s.(mailToken := false, mailRunner := Scanning) else s
    case Scanning =>
      if s.mailbox.None? then s.(mailRunner := Parked)
      else s.(mailbox := None, mailRunner := Delivering(s.mailbox.value))
    case Delivering(status) => s.(broadcasts := s.broadcasts + [status], mailRunner := Scanning)
    case Announcing => s.(mailRunner := Scanning)
  }

  predicate Enabled(s: Sys, e: Event) {
    match e
    case NewRegistration(r, _) => r !in s.registrations
    case Step(r) => r in s.registrations
    case _ => true
  }

  function Next(s: Sys, e: Event): Sys
    requires Enabled(s, e)
  {
    match e
    case NewRegistration(r, mode) => s.(registrations := s.registrations[r := Registering(mode)])
    case Step(r) => StepRegistration(s, r)
    case RunStore => StepStoreRunner(s)
    case RunMailbox => StepMailRunner(s)
  }

  ghost predicate IsRun(states: seq<Sys>, events: seq<Event>) {
    && |states| == |events| + 1 && states[0] == INITIAL
    && forall i :: 0 <= i < |events| ==> Enabled(states[i], events[i]) && states[i + 1] == Next(states[i], events[i])
  }

  // ---------------------------------------------------------------- the invariant

  predicate CountsAs(g: Registration, mode: StreamMode) {
    (g.Live? && g.mode == mode) || (g.Posting? && g.live && g.mode == mode)
  }

  function LiveIn(rs: map<nat, Registration>, mode: StreamMode): set<nat> {
    set r | r in rs && CountsAs(rs[r], mode)
  }

  function InHand(r: Runner): seq<Status> {
    if r.Delivering? then [r.status] else []
  }

  function InBox(m: Option<Status>): seq<Status> {
    if m.Some? then [m.value] else []
  }

  /** Every status that was queued and not overwritten, from the oldest to the newest. */
  function Flow(s: Sys): seq<Status> {
    s.broadcasts + InHand(s.mailRunner) + InBox(s.mailbox) + InHand(s.runner) + s.store.pending
  }

  ghost predicate Increasing(q: seq<Status>) {
    forall i, j :: 0 <= i < j < |q| ==> q[i].revision < q[j].revision
  }

  /** Notifications alternate, beginning with mixed. */
  ghost predicate Alternates(q: seq<Status>) {
    forall i :: 0 <= i < |q| ==> (q[i].mixed <==> i % 2 == 0)
  }

  function Newest(q: seq<Status>): Option<Status> {
    if q == [] then None else Some(q[|q| - 1])
  }

  ghost predicate InvCounts(s: Sys) {
    && s.store.direct == |LiveIn(s.registrations, Direct)| && s.store.webrtc == |LiveIn(s.registrations, WebRTC)|
    && s.store.status.direct == s.store.direct && s.store.status.webrtc == s.store.webrtc
    && (s.store.status.mixed <==> s.store.direct > 0 && s.store.webrtc > 0)
    && (forall r :: r in s.registrations && s.registrations[r].Live? ==> !s.registrations[r].mode.Other?)
    && (forall r :: r in s.registrations && s.registrations[r].Posting? ==> !s.registrations[r].mode.Other?)
  }

  ghost predicate InvQueue(s: Sys) {
    && Increasing(s.queued) && Alternates(s.queued)
    && (forall q :: q in s.queued ==> q.revision <= s.store.status.revision)
    && s.store.status.mixed == (s.queued != [] && s.queued[|s.queued| - 1].mixed)
    && EndsWith(s.queued, s.store.pending)
  }

  ghost predicate InvFlow(s: Sys) {
    && Increasing(Flow(s))
    && (forall q :: q in Flow(s) ==> q in s.queued)
    && Newest(Flow(s)) == Newest(s.queued)
    && !s.mailRunner.Announcing?
  }

  ghost predicate InvTokens(s: Sys) {
    && (s.runner.Parked? && s.store.pending != [] ==>
          s.token || exists r :: r in s.registrations && s.registrations[r].Posting?)
    && (s.mailRunner.Parked? && s.mailbox.Some? ==> s.mailToken || s.runner.Announcing?)
  }

  ghost predicate Inv(s: Sys) {
    InvCounts(s) && InvQueue(s) && InvFlow(s) && InvTokens(s)
  }

  lemma Toggle(a: set<nat>, b: set<nat>, x: nat)
    requires forall y :: y != x ==> (y in a <==> y in b)
    ensures |b| - (if x in b then 1 else 0) == |a| - (if x in a then 1 else 0)
  {
    assert a - {x} == b - {x};
    assert |a - {x}| == |a| - if x in a then 1 else 0;
    assert |b - {x}| == |b| - if x in b then 1 else 0;
  }

  lemma LiveMoves(rs: map<nat, Registration>, r: nat, g: Registration, mode: StreamMode)
    ensures |LiveIn(rs[r := g], mode)|
            == |LiveIn(rs, mode)| + (if CountsAs(g, mode) then 1 else 0)
               - (if r in rs && CountsAs(rs[r], mode) then 1 else 0)
    ensures r in rs && CountsAs(rs[r], mode) ==> |LiveIn(rs, mode)| > 0
  {
    Toggle(LiveIn(rs, mode), LiveIn(rs[r := g], mode), r);
  }

  lemma CountsMoved(s: Sys, r: nat, g: Registration)
    requires InvCounts(s)
    requires g.Registering? || g.Ended? || g.Live?
    requires g.Live? ==> !g.mode.Other? && r in s.registrations && s.registrations[r] == Posting(g.mode, true)
    requires g.Live? || r !in s.registrations
              || !(CountsAs(s.registrations[r], Direct) || CountsAs(s.registrations[r], WebRTC))
    ensures InvCounts(s.(registrations := s.registrations[r := g]))
  {
    LiveMoves(s.registrations, r, g, Direct);
    LiveMoves(s.registrations, r, g, WebRTC);
  }

  lemma CountsUpdated(s: Sys, r: nat, mode: StreamMode, live: bool)
    requires InvCounts(s) && !mode.Other? && r in s.registrations
    requires s.registrations[r] == if live then Registering(mode) else Live(mode)
    ensures InvCounts(Updating(s, r, mode, if live then 1 else -1, live))
  {
    var g := Updating(s, r, mode, if live then 1 else -1, live).registrations[r];
    LiveMoves(s.registrations, r, g, Direct);
    LiveMoves(s.registrations, r, g, WebRTC);
  }

  lemma CountsKept(s: Sys, e: Event)
    requires InvCounts(s) && Enabled(s, e)
    ensures InvCounts(Next(s, e))
  {
    match e
    case NewRegistration(r, mode) => CountsMoved(s, r, Registering(mode));
    case Step(r) => {
      match s.registrations[r]
      case Registering(mode) =>
        if mode.Other? { CountsMoved(s, r, Ended); } else { CountsUpdated(s, r, mode, true); }
      case Posting(mode, live) => CountsMoved(s, r, if live then Live(mode) else Ended);
      case Live(mode) => CountsUpdated(s, r, mode, false);
      case Ended =>
    }
    case _ =>
  }

  /** A status newer than everything in a queue may join it. */
  lemma Joined(q: seq<Status>, x: Status, bound: nat)
    requires Increasing(q) && (forall p :: p in q ==> p.revision <= bound) && bound < x.revision
    ensures Increasing(q + [x]) && forall p :: p in q + [x] ==> p.revision <= x.revision
  {
    forall i, j | 0 <= i < j < |q + [x]|
      ensures (q + [x])[i].revision < (q + [x])[j].revision
    {
      assert q[i] in q;
    }
  }

  lemma AlternatesOn(q: seq<Status>, x: Status)
    requires Alternates(q) && x.mixed != (q != [] && q[|q| - 1].mixed)
    ensures Alternates(q + [x])
  {
    if q != [] {
      assert q[|q| - 1].mixed <==> (|q| - 1) % 2 == 0;
    }
  }

  predicate EndsWith(q: seq<Status>, end: seq<Status>) {
    |end| <= |q| && q[|q| - |end|..] == end
  }

  lemma EndsWithMore(q: seq<Status>, end: seq<Status>, x: Status)
    requires EndsWith(q, end)
    ensures EndsWith(q + [x], end + [x])
  {
    assert (q + [x])[|q| - |end|..] == q[|q| - |end|..] + [x];
  }

  lemma EndsWithLess(q: seq<Status>, end: seq<Status>)
    requires EndsWith(q, end) && end != []
    ensures EndsWith(q, end[1..])
  {
    assert q[|q| - |end| + 1..] == q[|q| - |end|..][1..];
  }

  lemma QueueUpdated(s: Sys, r: nat, mode: StreamMode, delta: int, live: bool)
    requires InvQueue(s) && !mode.Other?
    ensures InvQueue(Updating(s, r, mode, delta, live))
  {
    hide Increasing, Alternates, EndsWith;
    var s' := Updating(s, r, mode, delta, live);
    var x := s'.store.status;
    if x.mixed != s.store.status.mixed {
      Joined(s.queued, x, s.store.status.revision);
      AlternatesOn(s.queued, x);
      EndsWithMore(s.queued, s.store.pending, x);
    }
  }

  lemma QueueKept(s: Sys, e: Event)
    requires InvQueue(s) && Enabled(s, e)
    ensures InvQueue(Next(s, e))
  {
    hide Increasing, Alternates, EndsWith, Updating;
    match e
    case NewRegistration(_, _) =>
    case Step(r) => {
      match s.registrations[r]
      case Registering(mode) => if !mode.Other? { QueueUpdated(s, r, mode, 1, true); }
      case Posting(_, _) =>
      case Live(mode) => if !mode.Other? { QueueUpdated(s, r, mode, -1, false); }
      case Ended =>
    }
    case RunStore => if s.runner.Scanning? && s.store.pending != [] { EndsWithLess(s.queued, s.store.pending); }
    case RunMailbox =>
  }

  lemma FlowUpdated(s: Sys, r: nat, mode: StreamMode, delta: int, live: bool)
    requires InvQueue(s) && InvFlow(s) && !mode.Other?
    ensures InvFlow(Updating(s, r, mode, delta, live))
  {
    hide Increasing, Alternates;
    var s' := Updating(s, r, mode, delta, live);
    var x := s'.store.status;
    if x.mixed != s.store.status.mixed {
      assert Flow(s') == Flow(s) + [x];
      assert Increasing(Flow(s')) by { Joined(Flow(s), x, s.store.status.revision); }
    } else {
      assert Flow(s') == Flow(s);
    }
  }

  lemma HandOf(r: Runner)
    ensures InHand(r) == if r.Delivering? then [r.status] else []
  {
  }

  lemma FlowDelivered(s: Sys)
    requires InvFlow(s) && s.runner.Delivering?
    ensures InvFlow(StepStoreRunner(s))
  {
    hide Increasing, InHand;
    var s' := StepStoreRunner(s);
    var a, b := s.broadcasts + InHand(s.mailRunner), [s.runner.status] + s.store.pending;
    HandOf(s.runner);
    HandOf(s'.runner);
    assert Flow(s') == a + b;
    if s.mailbox.Some? {
      assert Flow(s) == a + [s.mailbox.value] + b;
      Overwritten(a, s.mailbox.value, b);
    } else {
      assert Flow(s) == a + b;
    }
  }

  /** A runner that takes or sends the next status does not disturb the flow. */
  lemma FlowTaken(s: Sys)
    requires s.runner.Scanning? && s.store.pending != []
    ensures Flow(StepStoreRunner(s)) == Flow(s)
  {
    var sent := s.broadcasts + InHand(s.mailRunner) + InBox(s.mailbox);
    var x, rest := s.store.pending[0], s.store.pending[1..];
    assert Flow(s) == sent + [] + s.store.pending;
    assert Flow(StepStoreRunner(s)) == sent + [x] + rest;
    assert s.store.pending == [x] + rest;
  }

  lemma FlowStored(s: Sys)
    requires InvFlow(s)
    ensures InvFlow(StepStoreRunner(s))
  {
    hide InvFlow;
    if s.runner.Delivering? {
      FlowDelivered(s);
    } else {
      assert Flow(StepStoreRunner(s)) == Flow(s) by {
        if s.runner.Scanning? && s.store.pending != [] { FlowTaken(s); }
      }
      FlowSame(s, StepStoreRunner(s));
    }
  }

  lemma FlowMailed(s: Sys)
    requires !s.mailRunner.Announcing?
    ensures Flow(StepMailRunner(s)) == Flow(s)
  {
    var s' := StepMailRunner(s);
    var tail := InHand(s.runner) + s.store.pending;
    assert Flow(s) == s.broadcasts + InHand(s.mailRunner) + InBox(s.mailbox) + tail;
    assert Flow(s') == s'.broadcasts + InHand(s'.mailRunner) + InBox(s'.mailbox) + tail;
    assert s'.broadcasts + InHand(s'.mailRunner) + InBox(s'.mailbox)
        == s.broadcasts + InHand(s.mailRunner) + InBox(s.mailbox);
  }

  lemma FlowSame(s: Sys, s': Sys)
    requires InvFlow(s) && Flow(s') == Flow(s) && s'.queued == s.queued
              && (s'.mailRunner.Announcing? ==> s.mailRunner.Announcing?)
    ensures InvFlow(s')
  {
    hide Flow, Increasing;
  }

  lemma FlowKept(s: Sys, e: Event)
    requires InvQueue(s) && InvFlow(s) && Enabled(s, e)
    ensures InvFlow(Next(s, e))
  {
    hide InvQueue, InvFlow, Updating, StepStoreRunner, StepMailRunner;
    match e
    case NewRegistration(_, _) => FlowSame(s, Next(s, e));
    case Step(r) => {
      match s.registrations[r]
      case Registering(mode) => if mode.Other? { FlowSame(s, Next(s, e)); } else { FlowUpdated(s, r, mode, 1, true); }
      case Posting(_, _) => FlowSame(s, Next(s, e));
      case Live(mode) => if !mode.Other? { FlowUpdated(s, r, mode, -1, false); }
      case Ended =>
    }
    case RunStore => FlowStored(s);
    case RunMailbox => FlowMailedKept(s);
  }

  lemma FlowMailedKept(s: Sys)
    requires InvFlow(s)
    ensures InvFlow(StepMailRunner(s))
  {
    FlowMailed(s);
    hide Flow, Increasing;
  }

  /** Dropping one status from the middle keeps the order and the newest. */
  lemma Overwritten(a: seq<Status>, x: Status, b: seq<Status>)
    requires b != [] && Increasing(a + [x] + b)
    ensures Increasing(a + b) && Newest(a + b) == Newest(a + [x] + b)
    ensures forall q :: q in a + b ==> q in a + [x] + b
  {
    var all, rest := a + [x] + b, a + b;
    forall i, j | 0 <= i < j < |rest|
      ensures rest[i].revision < rest[j].revision
    {
      var i', j' := if i < |a| then i else i + 1, if j < |a| then j else j + 1;
      assert rest[i] == all[i'] && rest[j] == all[j'];
    }
  }

  /** A registration that still has a token to post goes on being one until it has posted it. */
  lemma PosterStays(s: Sys, s': Sys, p: nat)
    requires InvTokens(s) && p in s'.registrations && s'.registrations[p].Posting?
    requires s'.runner == s.runner && s'.mailbox == s.mailbox && s'.mailRunner == s.mailRunner
    requires s'.mailToken == s.mailToken
    ensures InvTokens(s')
  {
  }

  lemma TokensStepped(s: Sys, r: nat)
    requires InvTokens(s) && r in s.registrations
    ensures InvTokens(StepRegistration(s, r))
  {
    hide InvTokens;
    var s' := StepRegistration(s, r);
    if r in s'.registrations && s'.registrations[r].Posting? {
      PosterStays(s, s', r);
    } else if s.registrations[r].Posting? {
      TokensPosted(s, s');
    } else {
      TokensSame(s, s', r);
    }
  }

  lemma TokensPosted(s: Sys, s': Sys)
    requires InvTokens(s) && s' == s.(token := true, registrations := s'.registrations)
    ensures InvTokens(s')
  {
  }

  lemma TokensSame(s: Sys, s': Sys, r: nat)
    requires InvTokens(s) && (r in s.registrations ==> !s.registrations[r].Posting?)
    requires s'.store.pending == s.store.pending && r in s'.registrations
    requires s'.registrations == s.registrations[r := s'.registrations[r]]
    requires s' == s.(store := s'.store, registrations := s'.registrations, queued := s'.queued)
    ensures InvTokens(s')
  {
    if s.runner.Parked? && s.store.pending != [] && !s.token {
      var p :| p in s.registrations && s.registrations[p].Posting?;
      assert p in s'.registrations && s'.registrations[p].Posting?;
    }
  }

  lemma TokensOfRunners(s: Sys)
    requires InvTokens(s)
    ensures InvTokens(StepStoreRunner(s)) && InvTokens(StepMailRunner(s))
  {
  }

  lemma TokensKept(s: Sys, e: Event)
    requires InvTokens(s) && Enabled(s, e)
    ensures InvTokens(Next(s, e))
  {
    hide InvTokens, StepRegistration, StepStoreRunner, StepMailRunner;
    match e
    case NewRegistration(r, _) => TokensSame(s, Next(s, e), r);
    case Step(r) => TokensStepped(s, r);
    case _ => TokensOfRunners(s);
  }

  lemma {:induction false} InvOnRuns(states: seq<Sys>, events: seq<Event>, i: nat)
    requires IsRun(states, events) && i < |states|
    ensures Inv(states[i])
  {
    if i == 0 {
      assert LiveIn(map[], Direct) == {} && LiveIn(map[], WebRTC) == {};
    } else {
      InvOnRuns(states, events, i - 1);
      CountsKept(states[i - 1], events[i - 1]);
      QueueKept(states[i - 1], events[i - 1]);
      FlowKept(states[i - 1], events[i - 1]);
      TokensKept(states[i - 1], events[i - 1]);
    }
  }

  // ---------------------------------------------------------------- theorems

  /** The counts are the live registrations, so the guard against negative counts never fires. */
  lemma CountsAreLive(states: seq<Sys>, events: seq<Event>, i: nat)
    requires IsRun(states, events) && i < |states|
    ensures var s := states[i];
            && s.store.direct == |LiveIn(s.registrations, Direct)|
                && s.store.webrtc == |LiveIn(s.registrations, WebRTC)|
            && (s.store.status.mixed
                <==> LiveIn(s.registrations, Direct) != {} && LiveIn(s.registrations, WebRTC) != {})
            && (forall r :: r in s.registrations && s.registrations[r].Live? ==>
                  if s.registrations[r].mode.Direct? then s.store.direct > 0 else s.store.webrtc > 0)
  {
    InvOnRuns(states, events, i);
    var s := states[i];
    forall r | r in s.registrations && s.registrations[r].Live?
      ensures if s.registrations[r].mode.Direct? then s.store.direct > 0 else s.store.webrtc > 0
    {
      LiveMoves(s.registrations, r, Ended, s.registrations[r].mode);
    }
  }

  /** Queued notifications have strictly increasing revisions and alternate Mixed; broadcasts are
      queued notifications, in order, each at most once. */
  lemma NotificationsAreOrdered(states: seq<Sys>, events: seq<Event>, i: nat)
    requires IsRun(states, events) && i < |states|
    ensures var s := states[i];
            && Increasing(s.queued) && Alternates(s.queued)
            && Increasing(s.broadcasts) && forall q :: q in s.broadcasts ==> q in s.queued
  {
    InvOnRuns(states, events, i);
    var s := states[i];
    assert s.broadcasts <= Flow(s);
    forall q | q in s.broadcasts
      ensures q in Flow(s)
    {
    }
    forall k, j | 0 <= k < j < |s.broadcasts|
      ensures s.broadcasts[k].revision < s.broadcasts[j].revision
    {
      assert Flow(s)[k] == s.broadcasts[k] && Flow(s)[j] == s.broadcasts[j];
    }
  }

  /** A parked runner with work to do has a token, or somebody is about to post one. */
  lemma NoLostNotification(states: seq<Sys>, events: seq<Event>, i: nat)
    requires IsRun(states, events) && i < |states|
    ensures var s := states[i];
            && (s.runner.Parked? && s.store.pending != [] ==>
                  s.token || exists r :: r in s.registrations && s.registrations[r].Posting?)
            && (s.mailRunner.Parked? && s.mailbox.Some? ==> s.mailToken || s.runner.Announcing?)
  {
    InvOnRuns(states, events, i);
  }

  /** Once nothing is left to do, the last broadcast tells clients what the store knows. */
  lemma QuietMeansTold(states: seq<Sys>, events: seq<Event>, i: nat)
    requires IsRun(states, events) && i < |states|
    requires var s := states[i];
             && s.runner.Parked? && !s.token && s.mailRunner.Parked? && !s.mailToken
             && forall r :: r in s.registrations ==> !s.registrations[r].Posting?
    ensures var s := states[i];
            Newest(s.broadcasts) == Newest(s.queued)
                && s.store.status.mixed == (s.broadcasts != [] && Newest(s.broadcasts).value.mixed)
  {
    InvOnRuns(states, events, i);
    assert Flow(states[i]) == states[i].broadcasts;
  }
}
