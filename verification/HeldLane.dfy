/**
 One websocket client: its manual session, and what its two workers may leave held on the target.

 A run interleaves the effects of the keyboard worker and of the mouse worker, under the rules that
 the logs of their loops are proved to keep (`NewestOk`), with the reservations and evictions of the
 read loop and the close that follows the workers' end. The session is meant to be active, and so to keep MCP
 operations off the HID lane, for as long as something may be held. It is, exactly unless a
 completion, an eviction or the close loses track of something.
 */
module HeldLane {
  import opened Wrappers
  import opened HidHost
  import opened HidWorkers
  import IC = InputControl

  datatype Worker = Keys | Mouse

  /** The reports queued for a worker, the generation of each one's reservation, the reservations not
      completed yet, those that the read loop evicted and completed itself, and the worker's log. */
  datatype Side =
    Side(queue: seq<Report>, generations: seq<nat>, open: set<nat>, evicted: set<nat>, log: Log)

  datatype Lane = Lane(session: IC.Session, keys: Side, mouse: Side)

  const FRESH_SIDE := Side([], [], {}, {}, [])

  const FRESH_LANE := Lane(IC.FRESH_SESSION, FRESH_SIDE, FRESH_SIDE)

  datatype Event =
    | Reserve(w: Worker, report: Report, lease: nat)
    | Act(w: Worker, effect: Effect, cooldown: bool)
    | Evict(w: Worker, i: nat, cooldown: bool)
    | CloseSession

  // ---------------------------------------------------------------- the steps

  function Owner(ep: Endpoint): Worker {
    if ep.Keyboard? then Keys else Mouse
  }

  function SideOf(l: Lane, w: Worker): Side {
    if w.Keys? then l.keys else l.mouse
  }

  function WithSide(l: Lane, w: Worker, side: Side): Lane {
    if w.Keys? then l.(keys := side) else l.(mouse := side)
  }

  function EndpointOf(w: Worker): Report -> Option<Endpoint> {
    if w.Keys? then KeyboardOf else MouseOf
  }

  function KindOf(ep: Endpoint): IC.ReportKind {
    match ep
    case Keyboard => IC.Keyboard
    case Relative => IC.RelativeMouse
    case Absolute => IC.AbsoluteMouse
  }

  /** The kind of a reservation, and what it says is held: the read loop looks at the length. */
  function EndpointFor(w: Worker, report: Report): Endpoint {
    if w.Keys? then Keyboard else if |report| == 6 then Absolute else Relative
  }

  predicate Owns(w: Worker, effect: Effect) {
    match effect
    case Wrote(ep, _, _, _) => Owner(ep) == w
    case WasReset(ep) => Owner(ep) == w
    case Completed(_, _) => true
  }

  predicate Written(log: Log, i: nat) {
    exists k :: 0 <= k < |log| && log[k].Wrote? && log[k].event == Some(i)
  }

  /** A worker writes and completes only reports that it received, and what is evicted it never
      receives; every report that no write was tried for may still be in the queue. */
  ghost predicate Enabled(l: Lane, e: Event) {
    match e
    case Reserve(_, _, _) => !l.session.closed
    case Act(w, effect, _) =>
      && !l.session.closed && Owns(w, effect)
      && NewestOk(SideOf(l, w).queue, SideOf(l, w).log + [effect], EndpointOf(w))
      && (effect.Completed? ==> effect.index in SideOf(l, w).open && effect.index < |SideOf(l, w).generations|)
      && (effect.Wrote? && effect.event.Some? ==> effect.event.value in SideOf(l, w).open)
    case Evict(w, i, _) =>
      && !l.session.closed && i in SideOf(l, w).open && i < |SideOf(l, w).generations|
      && !Written(SideOf(l, w).log, i)
    case CloseSession => !l.session.closed && l.keys.open == {} && l.mouse.open == {}
  }

  /** A reservation joins the session or activates it. */
  function Reserved(s: IC.Session, lease: nat): IC.Session {
    if s.active then IC.AddPending(s) else IC.Activate(s, lease)
  }

  function Reserving(l: Lane, w: Worker, report: Report, lease: nat): Lane {
    var side, session := SideOf(l, w), Reserved(l.session, lease);
    WithSide(l.(session := session), w,
             side.(queue := side.queue + [report], generations := side.generations + [session.generation],
             open := side.open + {|side.queue|}))
  }

  function Completing(l: Lane, w: Worker, i: nat, success: bool, cooldown: bool): Lane
    requires i < |SideOf(l, w).generations| && i < |SideOf(l, w).queue|
  {
    var side := SideOf(l, w);
    var ep := EndpointFor(w, side.queue[i]);
    var session :=
      IC.Complete(l.session, side.generations[i], KindOf(ep), Presses(ep, side.queue[i]), success, cooldown).0;
    WithSide(l.(session := session), w, side.(open := side.open - {i}, log := side.log + [Completed(i, success)]))
  }

  /** The read loop completes a report as failed in the worker's place. */
  function Evicting(l: Lane, w: Worker, i: nat, cooldown: bool): Lane
    requires i < |SideOf(l, w).generations| && i < |SideOf(l, w).queue|
  {
    var side, done := SideOf(l, w), Completing(l, w, i, false, cooldown);
    WithSide(done, w, side.(open := side.open - {i}, evicted := side.evicted + {i}))
  }

  function Resetting(l: Lane, w: Worker, ep: Endpoint): Lane {
    var side := SideOf(l, w);
    WithSide(l.(session := IC.Reset(l.session, KindOf(ep)).0), w, side.(log := side.log + [WasReset(ep)]))
  }

  function Writing(l: Lane, w: Worker, effect: Effect): Lane {
    WithSide(l, w, SideOf(l, w).(log := SideOf(l, w).log + [effect]))
  }

  ghost function Next(l: Lane, e: Event): Lane
    requires Enabled(l, e) && LaneOk(l)
  {
    match e
    case Reserve(w, report, lease) => Reserving(l, w, report, lease)
    case Act(w, Wrote(ep, report, ok, event), _) => Writing(l, w, Wrote(ep, report, ok, event))
    case Act(w, WasReset(ep), _) => Resetting(l, w, ep)
    case Act(w, Completed(i, success), cooldown) => Completing(l, w, i, success, cooldown)
    case Evict(w, i, cooldown) => Evicting(l, w, i, cooldown)
    case CloseSession => l.(session := IC.Close(l.session).0)
  }

  // ---------------------------------------------------------------- what is kept track of

  ghost predicate SideOk(side: Side, w: Worker, generation: nat) {
    && |side.generations| == |side.queue|
    && (forall i :: i in side.open ==> i < |side.queue| && side.generations[i] == generation)
    && (forall i: nat :: i < |side.queue| ==> (i in side.open <==> Completions(side.log, i) == 0 && i !in side.evicted))
    && (forall i :: i in side.evicted ==> i < |side.queue|)
    && (forall i: nat :: |side.queue| <= i ==> Completions(side.log, i) == 0)
    && EffectsOk(side.queue, side.log, EndpointOf(w))
  }

  ghost predicate LaneOk(l: Lane) {
    && IC.SessionOk(l.session) && l.session.pending == |l.keys.open| + |l.mouse.open|
    && SideOk(l.keys, Keys, l.session.generation) && SideOk(l.mouse, Mouse, l.session.generation)
  }

  predicate MayHoldOn(l: Lane, ep: Endpoint) {
    MayHold(SideOf(l, Owner(ep)).log, ep)
  }

  predicate Flagged(s: IC.Session, ep: Endpoint) {
    match ep
    case Keyboard => s.keyboardHeld
    case Relative => s.relativeMouseHeld
    case Absolute => s.absoluteMouseHeld
  }

  /** An endpoint that may hold something is flagged, or its worker still has a report to complete. */
  predicate TrackedOn(l: Lane, ep: Endpoint) {
    MayHoldOn(l, ep) ==> Flagged(l.session, ep) || SideOf(l, Owner(ep)).open != {}
  }

  ghost predicate Tracked(l: Lane) {
    forall ep :: TrackedOn(l, ep)
  }

  /** While something may be held, the session is active. */
  ghost predicate Covered(l: Lane) {
    (exists ep :: MayHoldOn(l, ep)) ==> l.session.active
  }

  /** The event loses track: a report fails or is evicted while some endpoint may be held whose worker
      has no other report to complete, or the session is closed while something may be held. */
  ghost predicate Loses(l: Lane, e: Event) {
    match e
    case Act(w, Completed(i, false), _) =>
      exists ep :: MayHoldOn(l, ep) && SideOf(l, Owner(ep)).open - (if Owner(ep) == w then {i} else {}) == {}
    case Evict(w, i, _) =>
      exists ep :: MayHoldOn(l, ep) && SideOf(l, Owner(ep)).open - (if Owner(ep) == w then {i} else {}) == {}
    case CloseSession => exists ep :: MayHoldOn(l, ep)
    case _ => false
  }

  lemma TrackedCovers(l: Lane)
    requires LaneOk(l) && Tracked(l)
    ensures Covered(l)
  {
    hide MayHold, EffectsOk;
    if ep :| MayHoldOn(l, ep) {
      assert TrackedOn(l, ep);
      if SideOf(l, Owner(ep)).open != {} {
        OpenCounts(l, Owner(ep));
      }
    }
  }

  lemma OpenCounts(l: Lane, w: Worker)
    requires LaneOk(l) && SideOf(l, w).open != {}
    ensures l.session.pending > 0 && l.session.active
  {
    hide EffectsOk;
    assert |SideOf(l, w).open| > 0;
  }

  // ---------------------------------------------------------------- what every event keeps

  lemma {:induction false} QueueGrows(queue: seq<Report>, r: Report, log: Log, endpointOf: Report -> Option<Endpoint>)
    requires EffectsOk(queue, log, endpointOf)
    ensures EffectsOk(queue + [r], log, endpointOf)
  {
    forall k | 0 <= k <= |log|
      ensures NewestOk(queue + [r], log[..k], endpointOf)
    {
      assert NewestOk(queue, log[..k], endpointOf);
    }
  }

  lemma ReserveKeepsSide(side: Side, w: Worker, report: Report, generation: nat)
    requires SideOk(side, w, generation)
    ensures SideOk(side.(queue := side.queue + [report], generations := side.generations + [generation],
                         open := side.open + {|side.queue|}), w, generation)
  {
    hide EffectsOk, Completions;
    assert EffectsOk(side.queue, side.log, EndpointOf(w));
    QueueGrows(side.queue, report, side.log, EndpointOf(w));
  }

  /** With nothing open, any generation will do. */
  lemma IdleSide(side: Side, w: Worker, g: nat, generation: nat)
    requires SideOk(side, w, g) && side.open == {}
    ensures SideOk(side, w, generation)
  {
    hide EffectsOk, Completions;
  }

  lemma ReserveKeeps(l: Lane, w: Worker, report: Report, lease: nat)
    requires LaneOk(l) && Enabled(l, Reserve(w, report, lease))
    ensures LaneOk(Reserving(l, w, report, lease))
    ensures Tracked(l) ==> Tracked(Reserving(l, w, report, lease))
  {
    hide EffectsOk, MayHold, SideOk;
    var side, g := SideOf(l, w), Reserved(l.session, lease).generation;
    var other := SideOf(l, if w.Keys? then Mouse else Keys);
    assert side.open != {} || other.open != {} ==> g == l.session.generation by {
      if side.open != {} { OpenCounts(l, w); }
      if other.open != {} { OpenCounts(l, if w.Keys? then Mouse else Keys); }
    }
    if g != l.session.generation {
      IdleSide(side, w, l.session.generation, g);
      IdleSide(other, if w.Keys? then Mouse else Keys, l.session.generation, g);
    }
    ReserveKeepsSide(side, w, report, g);
    NewIsOpen(side, w, g);
    OpenGrows(side.open, |side.queue|);
    forall ep | Tracked(l)
      ensures TrackedOn(Reserving(l, w, report, lease), ep)
    {
      ReserveTracks(l, w, report, lease, ep);
    }
  }

  lemma NewIsOpen(side: Side, w: Worker, generation: nat)
    requires SideOk(side, w, generation)
    ensures |side.queue| !in side.open
  {
    hide EffectsOk;
  }

  lemma ReserveTracks(l: Lane, w: Worker, report: Report, lease: nat, ep: Endpoint)
    requires LaneOk(l) && TrackedOn(l, ep)
    ensures TrackedOn(Reserving(l, w, report, lease), ep)
  {
    hide EffectsOk, MayHold, SideOk;
    assert |SideOf(l, w).queue| in SideOf(Reserving(l, w, report, lease), w).open;
  }

  /** One more effect: what it does to what may be held, and to what was completed. */
  lemma OneMore(side: Side, w: Worker, effect: Effect)
    requires EffectsOk(side.queue, side.log, EndpointOf(w))
    requires NewestOk(side.queue, side.log + [effect], EndpointOf(w))
    ensures EffectsOk(side.queue, side.log + [effect], EndpointOf(w))
    ensures forall ep :: MayHold(side.log + [effect], ep)
              == if effect.Wrote? && effect.ep == ep then Presses(ep, effect.report)
                  || (!effect.ok && MayHold(side.log, ep))
                 else MayHold(side.log, ep)
    ensures forall i :: Completions(side.log + [effect], i)
              == Completions(side.log, i) + if effect.Completed? && effect.index == i then 1 else 0
  {
    hide EffectsOk, NewestOk, MayHold, Completions;
    EffectsAppended(side.queue, side.log, effect, EndpointOf(w));
    Appended(side.log, effect);
  }

  lemma OpenGrows(open: set<nat>, i: nat)
    ensures |open + {i}| == |open| + if i in open then 0 else 1
    ensures |open - {i}| == |open| - if i in open then 1 else 0
  {
    if i in open {
      assert open + {i} == open;
    } else {
      assert open - {i} == open;
    }
  }

  lemma WriteIsOpen(l: Lane, w: Worker, effect: Effect, cooldown: bool)
    requires LaneOk(l) && Enabled(l, Act(w, effect, cooldown)) && effect.Wrote?
    ensures Presses(effect.ep, effect.report) ==> SideOf(l, w).open != {}
  {
    hide EffectsOk, MayHold;
    var side := SideOf(l, w);
    if Presses(effect.ep, effect.report) {
      var i := effect.event.value;
      Appended(side.log, effect);
      assert i in side.open;
    }
  }

  lemma WriteKeeps(l: Lane, w: Worker, effect: Effect, cooldown: bool)
    requires LaneOk(l) && Enabled(l, Act(w, effect, cooldown)) && effect.Wrote?
    ensures LaneOk(Writing(l, w, effect))
    ensures Tracked(l) ==> Tracked(Writing(l, w, effect))
  {
    hide EffectsOk, MayHold, NewestOk, Presses;
    OneMore(SideOf(l, w), w, effect);
    WriteIsOpen(l, w, effect, cooldown);
    forall ep | Tracked(l)
      ensures TrackedOn(Writing(l, w, effect), ep)
    {
      assert TrackedOn(l, ep);
    }
  }

  lemma ResetFlags(s: IC.Session, ep: Endpoint)
    requires IC.SessionOk(s)
    ensures var s' := IC.Reset(s, KindOf(ep)).0;
            && IC.SessionOk(s') && s'.pending == s.pending && s'.generation == s.generation && s'.closed == s.closed
            && forall other :: Flagged(s', other) <==> Flagged(s, other) && other != ep
  {
  }

  lemma ResetKeeps(l: Lane, w: Worker, ep: Endpoint, cooldown: bool)
    requires LaneOk(l) && Enabled(l, Act(w, WasReset(ep), cooldown))
    ensures LaneOk(Resetting(l, w, ep))
    ensures Tracked(l) ==> Tracked(Resetting(l, w, ep))
  {
    hide EffectsOk, MayHold, IC.Reset, IC.SessionOk, Flagged, KindOf;
    var side := SideOf(l, w);
    OneMore(side, w, WasReset(ep));
    ResetFlags(l.session, ep);
    ResetIsQuiet(side, w, ep);
    forall other | Tracked(l)
      ensures TrackedOn(Resetting(l, w, ep), other)
    {
      assert TrackedOn(l, other);
    }
  }

  lemma ResetIsQuiet(side: Side, w: Worker, ep: Endpoint)
    requires NewestOk(side.queue, side.log + [WasReset(ep)], EndpointOf(w))
    ensures !MayHold(side.log, ep)
  {
    hide MayHold;
    Appended(side.log, WasReset(ep));
  }

  lemma CompleteFlags(s: IC.Session, ep: Endpoint, held: bool, success: bool, cooldown: bool)
    requires IC.SessionOk(s) && s.active && s.pending > 0
    ensures var s' := IC.Complete(s, s.generation, KindOf(ep), held, success, cooldown).0;
            && IC.SessionOk(s') && s'.pending == s.pending - 1 && s'.generation == s.generation && s'.closed == s.closed
            && forall other :: Flagged(s', other) <==> success && if other == ep then held else Flagged(s, other)
  {
  }

  /** The session and the open reports after a completion. */
  lemma CompleteKeeps(l: Lane, w: Worker, i: nat, success: bool, cooldown: bool)
    requires LaneOk(l) && Enabled(l, Act(w, Completed(i, success), cooldown))
    ensures var l', ep := Completing(l, w, i, success, cooldown), EndpointFor(w, SideOf(l, w).queue[i]);
            && LaneOk(l')
            && (forall other :: Flagged(l'.session, other)
                  <==> success && if other == ep then Presses(ep, SideOf(l, w).queue[i]) else Flagged(l.session, other))
            && (forall other :: MayHoldOn(l', other) == MayHoldOn(l, other))
  {
    hide EffectsOk, MayHold, IC.Complete, IC.SessionOk, Flagged, KindOf, NewestOk, Presses, EndpointFor;
    var side := SideOf(l, w);
    var ep := EndpointFor(w, side.queue[i]);
    OpenCounts(l, w);
    CompleteFlags(l.session, ep, Presses(ep, side.queue[i]), success, cooldown);
    OneMore(side, w, Completed(i, success));
    OpenGrows(side.open, i);
  }

  /** A success follows its own write, so that its flag says just what may be held. */
  lemma SuccessIsExact(side: Side, w: Worker, i: nat)
    requires EffectsOk(side.queue, side.log, EndpointOf(w)) && i < |side.queue|
    requires NewestOk(side.queue, side.log + [Completed(i, true)], EndpointOf(w))
    ensures var ep := EndpointFor(w, side.queue[i]);
            && MayHold(side.log, ep) == Presses(ep, side.queue[i])
            && OtherQuiet(side.log, ep) && Owner(ep) == w
  {
    hide MayHold, EffectsOk, Presses, Completions, NewestOk, EndpointFor, OtherQuiet;
    SuccessIsWritten(side.queue, side.log, i, EndpointOf(w));
    var n := |side.log| - 1;
    LastIsOk(side, w);
    WrittenIsRight(side.queue, side.log, i, w);
    assert side.log == side.log[..n] + [side.log[n]];
    Appended(side.log[..n], side.log[n]);
  }

  lemma SuccessIsWritten(queue: seq<Report>, log: Log, i: nat, endpointOf: Report -> Option<Endpoint>)
    requires NewestOk(queue, log + [Completed(i, true)], endpointOf)
    ensures log != [] && log[|log| - 1].Wrote? && log[|log| - 1].ok && log[|log| - 1].event == Some(i)
  {
    assert (log + [Completed(i, true)])[|log|] == Completed(i, true);
  }

  lemma WrittenIsRight(queue: seq<Report>, log: Log, i: nat, w: Worker)
    requires log != [] && log[|log| - 1].Wrote? && log[|log| - 1].event == Some(i)
    requires NewestOk(queue, log, EndpointOf(w)) && i < |queue|
    ensures var e := log[|log| - 1];
            e.report == queue[i] && e.ep == EndpointFor(w, queue[i]) && Owner(e.ep) == w && OtherQuiet(log, e.ep)
  {
    hide MayHold, Completions, OtherQuiet;
  }

  lemma LastIsOk(side: Side, w: Worker)
    requires EffectsOk(side.queue, side.log, EndpointOf(w))
    ensures NewestOk(side.queue, side.log, EndpointOf(w))
  {
    assert side.log[..|side.log|] == side.log;
  }

  lemma SuccessKeeps(l: Lane, w: Worker, i: nat, cooldown: bool)
    requires LaneOk(l) && Enabled(l, Act(w, Completed(i, true), cooldown)) && Tracked(l)
    ensures Tracked(Completing(l, w, i, true, cooldown))
  {
    hide EffectsOk, MayHold, Flagged, NewestOk, Presses, EndpointFor;
    var l' := Completing(l, w, i, true, cooldown);
    CompleteKeeps(l, w, i, true, cooldown);
    SuccessIsExact(SideOf(l, w), w, i);
    forall other
      ensures TrackedOn(l', other)
    {
      assert TrackedOn(l, other);
    }
  }

  /** A failure keeps track of everything exactly if it does not lose something. */
  lemma FailureKeepsIff(l: Lane, w: Worker, i: nat, cooldown: bool)
    requires LaneOk(l) && Enabled(l, Act(w, Completed(i, false), cooldown))
    ensures Tracked(Completing(l, w, i, false, cooldown)) <==> !Loses(l, Act(w, Completed(i, false), cooldown))
  {
    hide EffectsOk, MayHoldOn, Flagged, NewestOk, Completing, Completions;
    var l' := Completing(l, w, i, false, cooldown);
    OpenIsQueued(l, w, i);
    CompletedQuietly(l, w, i, cooldown);
    forall ep
      ensures TrackedOn(l', ep) <==>
                !(MayHoldOn(l, ep) && SideOf(l, Owner(ep)).open - (if Owner(ep) == w then {i} else {}) == {})
    {
      OpenAfter(l, w, i, false, cooldown, ep);
    }
  }

  lemma CompletedQuietly(l: Lane, w: Worker, i: nat, cooldown: bool)
    requires LaneOk(l) && Enabled(l, Act(w, Completed(i, false), cooldown))
    ensures forall ep :: !Flagged(Completing(l, w, i, false, cooldown).session, ep)
    ensures forall ep :: MayHoldOn(Completing(l, w, i, false, cooldown), ep) == MayHoldOn(l, ep)
  {
    hide LaneOk, EffectsOk, NewestOk, MayHoldOn, Flagged, Completing;
    CompleteKeeps(l, w, i, false, cooldown);
  }

  lemma EvictKeeps(l: Lane, w: Worker, i: nat, cooldown: bool)
    requires LaneOk(l) && Enabled(l, Evict(w, i, cooldown))
    ensures LaneOk(Evicting(l, w, i, cooldown))
    ensures forall ep :: !Flagged(Evicting(l, w, i, cooldown).session, ep)
  {
    hide EffectsOk, MayHold, IC.Complete, IC.SessionOk, Flagged, KindOf, Presses, EndpointFor;
    var side := SideOf(l, w);
    var ep := EndpointFor(w, side.queue[i]);
    OpenCounts(l, w);
    CompleteFlags(l.session, ep, Presses(ep, side.queue[i]), false, cooldown);
    OpenGrows(side.open, i);
  }

  lemma EvictedSide(l: Lane, w: Worker, i: nat, cooldown: bool, ep: Endpoint)
    requires i < |SideOf(l, w).generations| && i < |SideOf(l, w).queue|
    ensures var l' := Evicting(l, w, i, cooldown);
            && MayHoldOn(l', ep) == MayHoldOn(l, ep)
            && SideOf(l', Owner(ep)).open == SideOf(l, Owner(ep)).open - (if Owner(ep) == w then {i} else {})
  {
    hide MayHold, IC.Complete;
  }

  lemma EvictKeepsIff(l: Lane, w: Worker, i: nat, cooldown: bool)
    requires LaneOk(l) && Enabled(l, Evict(w, i, cooldown))
    ensures Tracked(Evicting(l, w, i, cooldown)) <==> !Loses(l, Evict(w, i, cooldown))
  {
    hide EffectsOk, MayHoldOn, Flagged, Evicting;
    EvictKeeps(l, w, i, cooldown);
    forall ep
      ensures TrackedOn(Evicting(l, w, i, cooldown), ep) <==>
                !(MayHoldOn(l, ep) && SideOf(l, Owner(ep)).open - (if Owner(ep) == w then {i} else {}) == {})
    {
      EvictedSide(l, w, i, cooldown, ep);
    }
  }

  lemma CloseKeepsIff(l: Lane)
    requires LaneOk(l) && Enabled(l, CloseSession) && !l.session.closed
    ensures var l' := l.(session := IC.Close(l.session).0);
            LaneOk(l') && (Tracked(l') <==> !Loses(l, CloseSession))
  {
    hide EffectsOk, MayHold;
    var l' := l.(session := IC.Close(l.session).0);
    forall ep
      ensures TrackedOn(l', ep) <==> !MayHoldOn(l, ep)
    {
    }
  }

  lemma FreshIsOk()
    ensures LaneOk(FRESH_LANE) && Tracked(FRESH_LANE)
  {
    assert Completions([], 0) == 0;
  }

  lemma LaneKept(l: Lane, e: Event)
    requires LaneOk(l) && Enabled(l, e)
    ensures LaneOk(Next(l, e))
  {
    hide LaneOk, EffectsOk, NewestOk, Reserving, Completing, Evicting, Resetting, Writing, Tracked;
    match e
    case Reserve(w, report, lease) => ReserveKeeps(l, w, report, lease);
    case Act(w, Wrote(ep, report, ok, event), cooldown) => WriteKeeps(l, w, Wrote(ep, report, ok, event), cooldown);
    case Act(w, WasReset(ep), cooldown) => ResetKeeps(l, w, ep, cooldown);
    case Act(w, Completed(i, success), cooldown) => CompleteKeeps(l, w, i, success, cooldown);
    case Evict(w, i, cooldown) => EvictKeeps(l, w, i, cooldown);
    case CloseSession => CloseKeepsIff(l);
  }

  /** An event keeps track of everything that may be held exactly if it does not lose something. */
  lemma TrackKeptIff(l: Lane, e: Event)
    requires LaneOk(l) && Tracked(l) && Enabled(l, e)
    ensures Tracked(Next(l, e)) <==> !Loses(l, e)
  {
    hide LaneOk, EffectsOk, NewestOk, Reserving, Completing, Evicting, Resetting, Writing, Tracked, MayHoldOn;
    match e
    case Reserve(w, report, lease) => ReserveKeeps(l, w, report, lease);
    case Act(w, Wrote(ep, report, ok, event), cooldown) => WriteKeeps(l, w, Wrote(ep, report, ok, event), cooldown);
    case Act(w, WasReset(ep), cooldown) => ResetKeeps(l, w, ep, cooldown);
    case Act(w, Completed(i, success), cooldown) =>
      if success { SuccessKeeps(l, w, i, cooldown); } else { FailureKeepsIff(l, w, i, cooldown); }
    case Evict(w, i, cooldown) => EvictKeepsIff(l, w, i, cooldown);
    case CloseSession => CloseKeepsIff(l);
  }

  ghost predicate LeadsTo(l: Lane, e: Event, l': Lane) {
    LaneOk(l) && Enabled(l, e) && l' == Next(l, e)
  }

  ghost predicate IsRun(lanes: seq<Lane>, events: seq<Event>) {
    && |lanes| == |events| + 1 && lanes[0] == FRESH_LANE
    && forall i :: 0 <= i < |events| ==> LeadsTo(lanes[i], events[i], lanes[i + 1])
  }

  // ---------------------------------------------------------------- theorems

  /** As long as no event loses something, the session is active while anything may be held. */
  lemma {:induction false} LaneCovers(lanes: seq<Lane>, events: seq<Event>, i: nat)
    requires IsRun(lanes, events) && i < |lanes|
    requires forall k :: 0 <= k < i ==> !Loses(lanes[k], events[k])
    ensures LaneOk(lanes[i]) && Tracked(lanes[i]) && Covered(lanes[i])
  {
    hide LaneOk, Tracked, Covered, Enabled, Next, Loses;
    if i == 0 {
      FreshIsOk();
    } else {
      LaneCovers(lanes, events, i - 1);
      assert LeadsTo(lanes[i - 1], events[i - 1], lanes[i]);
      LaneKept(lanes[i - 1], events[i - 1]);
      TrackKeptIff(lanes[i - 1], events[i - 1]);
    }
    TrackedCovers(lanes[i]);
  }

  /** Nothing is flagged, and some endpoint may be held whose worker has nothing left to complete. */
  ghost predicate Forgotten(l: Lane, ep: Endpoint) {
    LaneOk(l) && MayHoldOn(l, ep) && SideOf(l, Owner(ep)).open == {} && forall other :: !Flagged(l.session, other)
  }

  /** What an event of this run loses is forgotten. */
  lemma LostIsForgotten(l: Lane, e: Event)
    requires LaneOk(l) && Enabled(l, e) && Loses(l, e)
    ensures exists ep :: Forgotten(Next(l, e), ep)
  {
    hide LaneOk, EffectsOk, NewestOk, MayHoldOn, Flagged, Completing, Evicting;
    match e
    case Act(w, Completed(i, false), cooldown) =>
      var ep :| MayHoldOn(l, ep) && SideOf(l, Owner(ep)).open - (if Owner(ep) == w then {i} else {}) == {};
      CompleteKeeps(l, w, i, false, cooldown);
      OpenIsQueued(l, w, i);
      OpenAfter(l, w, i, false, cooldown, ep);
      assert Forgotten(Next(l, e), ep);
    case Evict(w, i, cooldown) =>
      var ep :| MayHoldOn(l, ep) && SideOf(l, Owner(ep)).open - (if Owner(ep) == w then {i} else {}) == {};
      OpenIsQueued(l, w, i);
      EvictKeeps(l, w, i, cooldown);
      EvictedSide(l, w, i, cooldown, ep);
      assert Forgotten(Next(l, e), ep);
    case CloseSession =>
      var ep :| MayHoldOn(l, ep);
      CloseKeepsIff(l);
      CloseForgets(l, ep);
      assert Forgotten(Next(l, e), ep);
    case _ =>
  }

  lemma OpenIsQueued(l: Lane, w: Worker, i: nat)
    requires LaneOk(l) && i in SideOf(l, w).open
    ensures i < |SideOf(l, w).generations| && i < |SideOf(l, w).queue|
  {
    hide EffectsOk;
  }

  lemma OpenAfter(l: Lane, w: Worker, i: nat, success: bool, cooldown: bool, ep: Endpoint)
    requires i < |SideOf(l, w).generations| && i < |SideOf(l, w).queue|
    ensures SideOf(Completing(l, w, i, success, cooldown), Owner(ep)).open
            == SideOf(l, Owner(ep)).open - (if Owner(ep) == w then {i} else {})
  {
  }

  lemma CloseForgets(l: Lane, ep: Endpoint)
    requires !l.session.closed
    ensures var l' := l.(session := IC.Close(l.session).0);
            MayHoldOn(l', ep) == MayHoldOn(l, ep) && SideOf(l', Owner(ep)).open == SideOf(l, Owner(ep)).open
            && forall other :: !Flagged(l'.session, other)
  {
  }

  /** A cleanup write that does not get through. */
  lemma FailCleanup(l: Lane, ep: Endpoint, w: Worker) returns (e: Event)
    requires Forgotten(l, ep) && !l.session.closed && w != Owner(ep)
    ensures Enabled(l, e) && Next(l, e).session == l.session
    ensures Forgotten(Next(l, e), ep) && Failures(SideOf(Next(l, e), w).log) > 0
    ensures SideOf(Next(l, e), w).open == SideOf(l, w).open
  {
    hide EffectsOk, MayHold, Completions, Presses, IC.SessionOk;
    var at := if w.Keys? then Keyboard else Relative;
    var release: Report := if w.Keys? then KEYBOARD_RELEASE else RELATIVE_RELEASE;
    var effect := Wrote(at, release, false, None);
    e := Act(w, effect, false);
    ReleasePresses(at, release);
    WriteKeeps(l, w, effect, false);
    Appended(SideOf(l, w).log, effect);
  }

  /** A worker fails one of its open reports. */
  lemma FailReport(l: Lane, ep: Endpoint, w: Worker, i: nat) returns (f: Event)
    requires Forgotten(l, ep) && !l.session.closed && w != Owner(ep) && i in SideOf(l, w).open
    requires Failures(SideOf(l, w).log) > 0
    ensures Enabled(l, f) && Next(l, f).session.closed == l.session.closed
    ensures Forgotten(Next(l, f), ep) && SideOf(Next(l, f), w).open == SideOf(l, w).open - {i}
  {
    hide EffectsOk, MayHoldOn, Flagged, Completing, NewestOk, Completions, Failures;
    var at := if w.Keys? then Keyboard else Relative;
    f := Act(w, Completed(i, false), false);
    OpenIsQueued(l, w, i);
    FailureMayFollow(SideOf(l, w), w, i);
    CompletedQuietly(l, w, i, false);
    CompleteKeeps(l, w, i, false, false);
    OpenAfter(l, w, i, false, false, ep);
    OpenAfter(l, w, i, false, false, at);
    ClosedAfter(l, w, i);
  }

  lemma FailOne(l: Lane, ep: Endpoint, w: Worker, i: nat) returns (e: Event, f: Event)
    requires Forgotten(l, ep) && !l.session.closed && w != Owner(ep) && i in SideOf(l, w).open
    ensures Enabled(l, e) && LaneOk(Next(l, e)) && Enabled(Next(l, e), f)
    ensures var l' := Next(Next(l, e), f);
            && Forgotten(l', ep) && l'.session.closed == l.session.closed
            && SideOf(l', w).open == SideOf(l, w).open - {i}
  {
    hide LaneOk, EffectsOk, MayHoldOn, Flagged, Enabled, Next;
    e := FailCleanup(l, ep, w);
    f := FailReport(Next(l, e), ep, w, i);
  }

  lemma ReleasePresses(ep: Endpoint, release: Report)
    requires release == if ep.Keyboard? then KEYBOARD_RELEASE else RELATIVE_RELEASE
    ensures !Presses(ep, release)
  {
  }

  lemma FailureMayFollow(side: Side, w: Worker, i: nat)
    requires Failures(side.log) > 0 && i < |side.queue|
    ensures NewestOk(side.queue, side.log + [Completed(i, false)], EndpointOf(w))
  {
    Appended(side.log, Completed(i, false));
  }

  lemma ClosedAfter(l: Lane, w: Worker, i: nat)
    requires i < |SideOf(l, w).generations| && i < |SideOf(l, w).queue|
    ensures Completing(l, w, i, false, false).session.closed == l.session.closed
  {
  }

  ghost predicate GoesOn(lanes: seq<Lane>, events: seq<Event>) {
    && |lanes| == |events| + 1
    && forall i :: 0 <= i < |events| ==> LeadsTo(lanes[i], events[i], lanes[i + 1])
  }

  /** This lane can come to be idle while something may be held. */
  ghost predicate CanUncover(l: Lane) {
    exists lanes, events :: GoesOn(lanes, events) && lanes[0] == l && !Covered(lanes[|events|])
  }

  lemma UncoversNow(l: Lane)
    requires !Covered(l)
    ensures CanUncover(l)
  {
    hide Covered, LaneOk, Enabled, Next;
    var lanes, events: seq<Event> := [l], [];
    assert GoesOn(lanes, events) && lanes[0] == l && !Covered(lanes[|events|]);
  }

  lemma UncoversLater(l: Lane, e: Event)
    requires LaneOk(l) && Enabled(l, e) && CanUncover(Next(l, e))
    ensures CanUncover(l)
  {
    hide Covered, LaneOk, Enabled, Next;
    var rest, more :| GoesOn(rest, more) && rest[0] == Next(l, e) && !Covered(rest[|more|]);
    var lanes, events := [l] + rest, [e] + more;
    forall i | 0 <= i < |events|
      ensures LeadsTo(lanes[i], events[i], lanes[i + 1])
    {
      if i > 0 {
        assert LeadsTo(rest[i - 1], more[i - 1], rest[i]);
        assert lanes[i] == rest[i - 1] && events[i] == more[i - 1] && lanes[i + 1] == rest[i];
      }
    }
    assert GoesOn(lanes, events) && lanes[0] == l && lanes[|events|] == rest[|more|];
  }

  /** What is forgotten comes to light when the other worker's reports fail as well. */
  lemma {:induction false} ForgottenUncovers(l: Lane, ep: Endpoint)
    requires Forgotten(l, ep)
    ensures CanUncover(l)
    decreases |l.keys.open| + |l.mouse.open|
  {
    hide EffectsOk, NewestOk, MayHoldOn, Next, Enabled, CanUncover;
    var w := if ep.Keyboard? then Mouse else Keys;
    if l.session.closed || SideOf(l, w).open == {} {
      NothingActive(l, ep, w);
      UncoversNow(l);
    } else {
      var i :| i in SideOf(l, w).open;
      var e, f := FailOne(l, ep, w, i);
      var l' := Next(Next(l, e), f);
      OpenGrows(SideOf(l, w).open, i);
      assert SideOf(l', Owner(ep)).open == {};
      ForgottenUncovers(l', ep);
      UncoversLater(Next(l, e), f);
      UncoversLater(l, e);
    }
  }

  lemma NothingActive(l: Lane, ep: Endpoint, w: Worker)
    requires Forgotten(l, ep) && w != Owner(ep) && (l.session.closed || SideOf(l, w).open == {})
    ensures !Covered(l)
  {
    hide EffectsOk, MayHold;
    assert !Flagged(l.session, Keyboard) && !Flagged(l.session, Relative) && !Flagged(l.session, Absolute);
  }

  /** And the condition is exact: wherever an event of a run loses something, the run can go on to a
      session that is idle while something may be held. */
  lemma EveryLossCanShow(lanes: seq<Lane>, events: seq<Event>, i: nat)
    requires IsRun(lanes, events) && i < |events| && Loses(lanes[i], events[i])
    ensures CanUncover(lanes[i + 1])
  {
    hide LaneOk, Enabled, Next, Loses, CanUncover, Forgotten;
    assert LeadsTo(lanes[i], events[i], lanes[i + 1]);
    LostIsForgotten(lanes[i], events[i]);
    var ep :| Forgotten(Next(lanes[i], events[i]), ep);
    ForgottenUncovers(lanes[i + 1], ep);
  }

  // ---------------------------------------------------------------- it happens

  const PRESS_A: Report := [0, 0, 4, 0, 0, 0, 0, 0]

  const MOVE: Report := [0, 1, 1, 0]

  /** A key goes down, and its worker is done with it. */
  const KEY_DOWN: Log := [Wrote(Keyboard, PRESS_A, true, Some(0)), Completed(0, true)]

  /** A mouse report fails; its cleanup gets through. */
  const MOUSE_FAILS: Log := [Wrote(Relative, MOVE, false, Some(0)), Wrote(Relative, RELATIVE_RELEASE, true, None),
      WasReset(Relative)]

  lemma KeyDownIsRight(k: nat)
    requires k < 2
    ensures NewestOk([PRESS_A], KEY_DOWN[..k] + [KEY_DOWN[k]], KeyboardOf)
    ensures MayHold(KEY_DOWN, Keyboard)
  {
    Appended([], KEY_DOWN[0]);
    Appended([KEY_DOWN[0]], KEY_DOWN[1]);
    assert [] + [KEY_DOWN[0]] == [KEY_DOWN[0]] && [KEY_DOWN[0]] + [KEY_DOWN[1]] == KEY_DOWN;
    assert KEY_DOWN[..k] == if k == 0 then [] else [KEY_DOWN[0]];
    assert PRESS_A[2] != 0;
  }

  lemma MoveFails()
    ensures NewestOk([MOVE], [MOUSE_FAILS[0]], MouseOf) && Failures([MOUSE_FAILS[0]]) == 1
  {
    Appended([], MOUSE_FAILS[0]);
    assert [] + [MOUSE_FAILS[0]] == [MOUSE_FAILS[0]];
  }

  lemma CleanupWorks()
    ensures var log := [MOUSE_FAILS[0], MOUSE_FAILS[1]];
            NewestOk([MOVE], log, MouseOf) && !MayHold(log, Relative) && Failures(log) == 1
  {
    hide MayHold, Failures;
    MoveFails();
    Appended([MOUSE_FAILS[0]], MOUSE_FAILS[1]);
    assert [MOUSE_FAILS[0]] + [MOUSE_FAILS[1]] == [MOUSE_FAILS[0], MOUSE_FAILS[1]];
    assert !Presses(Relative, RELATIVE_RELEASE);
  }

  lemma MouseFailsRightly(k: nat)
    requires k < 3
    ensures NewestOk([MOVE], MOUSE_FAILS[..k] + [MOUSE_FAILS[k]], MouseOf)
    ensures NewestOk([MOVE], MOUSE_FAILS + [Completed(0, false)], MouseOf)
  {
    hide MayHold, Failures;
    var a, b, c := MOUSE_FAILS[0], MOUSE_FAILS[1], MOUSE_FAILS[2];
    MoveFails();
    CleanupWorks();
    Appended([a, b], c);
    assert [a, b] + [c] == MOUSE_FAILS;
    Appended(MOUSE_FAILS, Completed(0, false));
    assert MOUSE_FAILS[..k] + [MOUSE_FAILS[k]] == if k == 0 then [a] else if k == 1 then [a, b] else MOUSE_FAILS;
  }

  /** A run in which every write of the keyboard gets through, and at whose end a key is down and the
      session is idle: the failure of a mouse report made it forget the key. */
  lemma KeyOutlivesTheLane()
    ensures exists lanes: seq<Lane>, events: seq<Event> ::
              && IsRun(lanes, events) && !Covered(lanes[|events|])
              && lanes[|events|].keys.log == KEY_DOWN && !lanes[|events|].session.active
  {
    hide LaneOk, Enabled, Next, IsRun, Covered;
    var l0, l1, l2, l3 := KeyGoesDown();
    var l4, l5, l6 := MouseTries(l3);
    var l7, l8 := MouseGivesUp(l6);
    IsARun([l0, l1, l2, l3, l4, l5, l6, l7, l8],
           [Reserve(Keys, PRESS_A, 0), Act(Keys, KEY_DOWN[0], true), Act(Keys, KEY_DOWN[1], true),
            Reserve(Mouse, MOVE, 1), Act(Mouse, MOUSE_FAILS[0], true), Act(Mouse, MOUSE_FAILS[1], true),
            Act(Mouse, MOUSE_FAILS[2], true), Act(Mouse, Completed(0, false), true)]);
  }

  lemma KeyGoesDown() returns (l0: Lane, l1: Lane, l2: Lane, l3: Lane)
    ensures l0 == FRESH_LANE && LeadsTo(l0, Reserve(Keys, PRESS_A, 0), l1)
    ensures LeadsTo(l1, Act(Keys, KEY_DOWN[0], true), l2) && LeadsTo(l2, Act(Keys, KEY_DOWN[1], true), l3)
    ensures LaneOk(l3) && l3.mouse == FRESH_SIDE && l3.keys.log == KEY_DOWN && l3.keys.open == {}
    ensures !l3.session.closed
  {
    hide LaneOk, EffectsOk, NewestOk, MayHold;
    l0 := FRESH_LANE;
    FreshIsOk();
    l1 := Advance(l0, Reserve(Keys, PRESS_A, 0));
    assert l1.keys.queue == [PRESS_A] && l1.keys.log == KEY_DOWN[..0];
    KeyDownIsRight(0);
    l2 := Advance(l1, Act(Keys, KEY_DOWN[0], true));
    assert l2.keys.log == KEY_DOWN[..1];
    KeyDownIsRight(1);
    l3 := Advance(l2, Act(Keys, KEY_DOWN[1], true));
    assert l3.keys.log == KEY_DOWN;
  }

  lemma MouseTries(l3: Lane) returns (l4: Lane, l5: Lane, l6: Lane)
    requires LaneOk(l3) && l3.mouse == FRESH_SIDE && !l3.session.closed
    ensures LeadsTo(l3, Reserve(Mouse, MOVE, 1), l4) && LeadsTo(l4, Act(Mouse, MOUSE_FAILS[0], true), l5)
    ensures LeadsTo(l5, Act(Mouse, MOUSE_FAILS[1], true), l6)
    ensures LaneOk(l6) && l6.keys == l3.keys && !l6.session.closed
    ensures l6.mouse.queue == [MOVE] && l6.mouse.log == MOUSE_FAILS[..2] && l6.mouse.open == {0}
    ensures |l6.mouse.generations| == 1
  {
    hide LaneOk, EffectsOk, NewestOk, MayHold;
    l4 := Advance(l3, Reserve(Mouse, MOVE, 1));
    assert l4.mouse.queue == [MOVE] && l4.mouse.log == MOUSE_FAILS[..0];
    MouseFailsRightly(0);
    l5 := Advance(l4, Act(Mouse, MOUSE_FAILS[0], true));
    assert l5.mouse.log == MOUSE_FAILS[..1];
    MouseFailsRightly(1);
    l6 := Advance(l5, Act(Mouse, MOUSE_FAILS[1], true));
    assert l6.mouse.log == MOUSE_FAILS[..2];
  }

  lemma MouseGivesUp(l6: Lane) returns (l7: Lane, l8: Lane)
    requires LaneOk(l6) && l6.keys.log == KEY_DOWN && l6.keys.open == {} && !l6.session.closed
    requires l6.mouse.queue == [MOVE] && l6.mouse.log == MOUSE_FAILS[..2] && l6.mouse.open == {0}
    requires |l6.mouse.generations| == 1
    ensures LeadsTo(l6, Act(Mouse, MOUSE_FAILS[2], true), l7) && LeadsTo(l7, Act(Mouse, Completed(0, false), true), l8)
    ensures !Covered(l8) && l8.keys.log == KEY_DOWN && !l8.session.active
  {
    hide LaneOk, EffectsOk, NewestOk, MayHold, IC.Complete, IC.Reset;
    MouseFailsRightly(2);
    ResetFlagsOf(l6, Relative);
    l7 := Advance(l6, Act(Mouse, MOUSE_FAILS[2], true));
    assert l7.mouse.log == MOUSE_FAILS;
    l8 := Advance(l7, Act(Mouse, Completed(0, false), true));
    FailureForgets(l7);
    KeyDownIsRight(0);
    assert MayHoldOn(l8, Keyboard);
    NothingLeft(l8);
  }

  lemma ResetFlagsOf(l: Lane, ep: Endpoint)
    requires LaneOk(l)
    ensures IC.Reset(l.session, KindOf(ep)).0.closed == l.session.closed
  {
    hide EffectsOk;
    ResetFlags(l.session, ep);
  }

  lemma FailureForgets(l: Lane)
    requires LaneOk(l) && Enabled(l, Act(Mouse, Completed(0, false), true))
    ensures !IC.Holding(Completing(l, Mouse, 0, false, true).session)
  {
    hide EffectsOk, NewestOk, MayHold, Completing;
    CompleteKeeps(l, Mouse, 0, false, true);
    var s := Completing(l, Mouse, 0, false, true).session;
    assert !Flagged(s, Keyboard) && !Flagged(s, Relative) && !Flagged(s, Absolute);
  }

  lemma NothingLeft(l: Lane)
    requires LaneOk(l) && l.keys.open == {} && l.mouse.open == {}
    requires !IC.Holding(l.session)
    ensures !l.session.active
  {
    hide EffectsOk;
  }

  lemma Advance(l: Lane, e: Event) returns (l': Lane)
    requires LaneOk(l) && Enabled(l, e)
    ensures LaneOk(l') && l' == Next(l, e) && LeadsTo(l, e, l')
  {
    LaneKept(l, e);
    l' := Next(l, e);
  }

  lemma IsARun(lanes: seq<Lane>, events: seq<Event>)
    requires |lanes| == |events| + 1 && lanes[0] == FRESH_LANE
    requires forall i :: 0 <= i < |events| ==> LeadsTo(lanes[i], events[i], lanes[i + 1])
    ensures IsRun(lanes, events)
  {
  }
}
