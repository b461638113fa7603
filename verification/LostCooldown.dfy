/**
 A run in which a released key starts no cooldown: while its session ends, a reservation of another
 client is on its way, so the session is not the last one counted, and when that reservation gives up
 it starts no cooldown either. An MCP operation opens on the HID lane at the very same time.
 */
module LostCooldown {
  import opened Wrappers
  import opened ActivityGates
  import opened ControlMode
  import opened InputControl
  import opened Arbitration
  import opened ArbitrationTheorems
  import opened CooldownTheorems

  /** What the run changes; everything else stays as it was at first. */
  datatype Scene = Scene(
    threads: map<nat, PC>, sessions: map<nat, Session>, reservations: map<nat, Reservation>,
    count: int, leases: nat)

  ghost predicate Shows(s: Sys, v: Scene) {
    && s.threads == v.threads && s.shared.sessions == v.sessions && s.shared.reservations == v.reservations
    && s.shared.coord == Coordinator(None, 0, v.count, None, 0, {}) && s.shared.leases == v.leases
    && !s.shared.gate.exclusive && !s.shared.mgr.transitioning && s.shared.mgr.file == Text(Mcp)
    && s.shared.now == 0
  }

  /** The file is read whenever the mode is asked for, and the caller allows everything. */
  function Choosing(rid: nat): Choice {
    Choice(Reread, true, false, false, false, false, Saved, true, rid)
  }

  predicate Runs(v: Scene, t: nat, pc: PC, rid: nat) {
    t in v.threads && v.threads[t] == pc && rid !in v.reservations
  }

  predicate Idle(v: Scene, x: nat) {
    x in v.sessions && !v.sessions[x].active && !v.sessions[x].closed
  }

  function Moved(v: Scene, t: nat, pc: PC): Scene {
    v.(threads := v.threads[t := pc])
  }

  lemma Reserves(s: Sys, v: Scene, t: nat, req: Request, rid: nat)
    requires Shows(s, v) && Runs(v, t, Reserving(req), rid) && Idle(v, req.session)
    ensures Enabled(s, Run(t, Choosing(rid)))
    ensures Shows(Next(s, Run(t, Choosing(rid))), Moved(v, t, FirstCheck(ForManual(req))))
  {
  }

  lemma ChecksFirst(s: Sys, v: Scene, t: nat, goal: Goal, rid: nat)
    requires Shows(s, v) && Runs(v, t, FirstCheck(goal), rid) && (goal.ForWrite? ==> goal.expected == Mcp)
    ensures Enabled(s, Run(t, Choosing(rid)))
    ensures Shows(Next(s, Run(t, Choosing(rid))), Moved(v, t, EnterShared(goal)))
  {
  }

  lemma Enters(s: Sys, v: Scene, t: nat, goal: Goal, rid: nat)
    requires Shows(s, v) && Runs(v, t, EnterShared(goal), rid)
    ensures Enabled(s, Run(t, Choosing(rid)))
    ensures Shows(Next(s, Run(t, Choosing(rid))), Moved(v, t, SecondCheck(goal, v.leases)).(leases := v.leases + 1))
  {
  }

  lemma ChecksAgain(s: Sys, v: Scene, t: nat, goal: Goal, l: nat, rid: nat)
    requires Shows(s, v) && Runs(v, t, SecondCheck(goal, l), rid) && (goal.ForWrite? ==> goal.expected == Mcp)
    ensures Enabled(s, Run(t, Choosing(rid)))
    ensures Shows(Next(s, Run(t, Choosing(rid))), Moved(v, t, AfterSecondCheck(goal, l, true)))
  {
  }

  lemma StartsManual(s: Sys, v: Scene, t: nat, req: Request, l: nat, rid: nat)
    requires Shows(s, v) && Runs(v, t, StartingManual(req, l), rid)
    ensures Enabled(s, Run(t, Choosing(rid)))
    ensures Shows(Next(s, Run(t, Choosing(rid))), Moved(v, t, Activating(req, l)).(count := v.count + 1))
  {
  }

  lemma Activates(s: Sys, v: Scene, t: nat, req: Request, l: nat, rid: nat)
    requires Shows(s, v) && Runs(v, t, Activating(req, l), rid) && Idle(v, req.session)
    ensures Enabled(s, Run(t, Choosing(rid)))
    ensures var x := Activate(v.sessions[req.session], l);
            Shows(Next(s, Run(t, Choosing(rid))),
              Moved(v, t, Exited).(sessions := v.sessions[req.session := x],
                                   reservations := v.reservations[rid := NewReservation(x, req)]))
  {
  }

  lemma GivesUp(s: Sys, v: Scene, t: nat, req: Request, l: nat, rid: nat)
    requires Shows(s, v) && Runs(v, t, Activating(req, l), rid)
    requires req.session in v.sessions && v.sessions[req.session].closed
    ensures Enabled(s, Run(t, Choosing(rid)))
    ensures Shows(Next(s, Run(t, Choosing(rid))), Moved(v, t, Aborting(l)))
  {
  }

  lemma Aborts(s: Sys, v: Scene, t: nat, l: nat, rid: nat)
    requires Shows(s, v) && Runs(v, t, Aborting(l), rid) && v.count > 0
    ensures Enabled(s, Run(t, Choosing(rid)))
    ensures Shows(Next(s, Run(t, Choosing(rid))), Moved(v, t, DropLease(l)).(count := v.count - 1))
  {
  }

  lemma Completes(s: Sys, v: Scene, t: nat, r: nat, rid: nat)
    requires Shows(s, v) && Runs(v, t, Completing(r), rid) && r in v.reservations
    requires var q := v.reservations[r]; !q.once && q.session in v.sessions
    ensures Enabled(s, Run(t, Choosing(rid)))
    ensures var q := v.reservations[r];
            var after := Complete(v.sessions[q.session], q.generation, q.kind, q.held, true, q.startCooldown);
            after.1.Ends? && after.1.lease.Some? ==>
              Shows(Next(s, Run(t, Choosing(rid))),
                Moved(v, t, Finishing(after.1.lease, after.1.startCooldown)).(
                  sessions := v.sessions[q.session := after.0],
                  reservations := v.reservations[r := q.(once := true)]))
  {
    hide Complete;
  }

  lemma Finishes(s: Sys, v: Scene, t: nat, l: nat, cooldown: bool, rid: nat)
    requires Shows(s, v) && Runs(v, t, Finishing(Some(l), cooldown), rid)
    ensures Enabled(s, Run(t, Choosing(rid)))
    ensures Shows(Next(s, Run(t, Choosing(rid))), Moved(v, t, Uncounting(cooldown)))
  {
  }

  lemma Uncounts(s: Sys, v: Scene, t: nat, cooldown: bool, rid: nat)
    requires Shows(s, v) && Runs(v, t, Uncounting(cooldown), rid) && v.count > 1
    ensures Enabled(s, Run(t, Choosing(rid)))
    ensures Shows(Next(s, Run(t, Choosing(rid))), Moved(v, t, Exited).(count := v.count - 1))
  {
  }

  lemma Closes(s: Sys, v: Scene, t: nat, x: nat, rid: nat)
    requires Shows(s, v) && Runs(v, t, Closing(x), rid) && Idle(v, x)
    ensures Enabled(s, Run(t, Choosing(rid)))
    ensures Shows(Next(s, Run(t, Choosing(rid))),
              Moved(v, t, Exited).(sessions := v.sessions[x := Close(v.sessions[x]).0]))
  {
  }

  lemma Begins(s: Sys, v: Scene, t: nat, lease: Option<nat>, rid: nat)
    requires Shows(s, v) && Runs(v, t, ToolBegin(HID, Executor, lease), rid) && v.count == 0
    ensures Enabled(s, Run(t, Choosing(rid))) && OpensHID(s, Run(t, Choosing(rid)))
  {
  }

  lemma Spawns(s: Sys, v: Scene, t: nat, pc: PC)
    requires Shows(s, v) && t !in v.threads && IsStart(pc)
    ensures Enabled(s, Spawn(t, pc)) && Shows(Next(s, Spawn(t, pc)), Moved(v, t, pc))
  {
  }

  lemma Connects(s: Sys, v: Scene, x: nat)
    requires Shows(s, v) && x !in v.sessions
    ensures Enabled(s, NewSession(x))
    ensures Shows(Next(s, NewSession(x)), v.(sessions := v.sessions[x := FRESH_SESSION]))
  {
  }

  // ---------------------------------------------------------------- the run

  datatype Tape = Tape(states: seq<Sys>, events: seq<Event>)

  ghost predicate Recorded(tape: Tape, v: Scene) {
    && |tape.states| == |tape.events| + 1 && IsRun(tape.states, tape.events)
    && Shows(tape.states[|tape.events|], v)
  }

  ghost function Last(tape: Tape): Sys
    requires |tape.states| == |tape.events| + 1
  {
    tape.states[|tape.events|]
  }

  /** This tape goes on from that one. */
  ghost predicate Continues(tape: Tape, more: Tape) {
    && |tape.states| == |tape.events| + 1 && |more.states| == |more.events| + 1
    && tape.states <= more.states && tape.events <= more.events
  }

  lemma Record(tape: Tape, v: Scene, e: Event, next: Scene) returns (more: Tape)
    requires Recorded(tape, v) && Enabled(Last(tape), e) && Shows(Next(Last(tape), e), next)
    ensures Recorded(more, next) && Continues(tape, more) && |more.events| == |tape.events| + 1
    ensures more.events[|tape.events|] == e
  {
    hide Next, Enabled, Shows, IsInit;
    var s := Next(Last(tape), e);
    more := Tape(tape.states + [s], tape.events + [e]);
    forall i | 0 <= i < |more.events|
      ensures Enabled(more.states[i], more.events[i]) && more.states[i + 1] == Next(more.states[i], more.events[i])
    {
      if i < |tape.events| {
        assert more.states[i] == tape.states[i] && more.states[i + 1] == tape.states[i + 1];
        assert more.events[i] == tape.events[i];
      }
    }
  }

  lemma MovedTwice(v: Scene, t: nat, a: PC, b: PC)
    ensures Moved(Moved(v, t, a), t, b) == Moved(v, t, b)
  {
  }

  /** A lease for this goal, up to its second check. */
  lemma Leases(tape: Tape, v: Scene, t: nat, goal: Goal, rid: nat) returns (more: Tape)
    requires Recorded(tape, v) && Runs(v, t, FirstCheck(goal), rid) && (goal.ForWrite? ==> goal.expected == Mcp)
    ensures Recorded(more, Moved(v, t, AfterSecondCheck(goal, v.leases, true)).(leases := v.leases + 1))
    ensures Continues(tape, more)
  {
    hide Next, Enabled, Shows, IsRun, AfterSecondCheck;
    var e := Run(t, Choosing(rid));
    var v1 := Moved(v, t, EnterShared(goal));
    var v2 := Moved(v1, t, SecondCheck(goal, v.leases)).(leases := v.leases + 1);
    var v3 := Moved(v2, t, AfterSecondCheck(goal, v.leases, true));
    ChecksFirst(Last(tape), v, t, goal, rid);
    more := Record(tape, v, e, v1);
    Enters(Last(more), v1, t, goal, rid);
    more := Record(more, v1, e, v2);
    ChecksAgain(Last(more), v2, t, goal, v.leases, rid);
    more := Record(more, v2, e, v3);
    MovedTwice(v, t, EnterShared(goal), SecondCheck(goal, v.leases));
    MovedTwice(v, t, SecondCheck(goal, v.leases), AfterSecondCheck(goal, v.leases, true));
  }

  /** A reservation, up to its activation. */
  lemma Comes(tape: Tape, v: Scene, t: nat, req: Request, rid: nat) returns (more: Tape)
    requires Recorded(tape, v) && Runs(v, t, Reserving(req), rid) && Idle(v, req.session)
    ensures Recorded(more, Moved(v, t, Activating(req, v.leases)).(leases := v.leases + 1, count := v.count + 1))
    ensures Continues(tape, more)
  {
    hide Next, Enabled, Shows, IsRun;
    var e, l := Run(t, Choosing(rid)), v.leases;
    var v1 := Moved(v, t, FirstCheck(ForManual(req)));
    Reserves(Last(tape), v, t, req, rid);
    more := Record(tape, v, e, v1);
    more := Leases(more, v1, t, ForManual(req), rid);
    var v2 := Moved(v1, t, StartingManual(req, l)).(leases := l + 1);
    StartsManual(Last(more), v2, t, req, l, rid);
    more := Record(more, v2, e, Moved(v2, t, Activating(req, l)).(count := v.count + 1));
    MovedTwice(v, t, FirstCheck(ForManual(req)), StartingManual(req, l));
    MovedTwice(v, t, StartingManual(req, l), Activating(req, l));
  }

  const KEY_RELEASE := Request(0, Keyboard, false, true)

  const OTHER_REPORT := Request(1, Keyboard, false, true)

  const AT_FIRST: Sys := Sys(
    Shared(FRESH_GATE, NewManager(Text(Mcp), Off), Coordinator(None, 0, 0, None, 0, {}), map[], map[], None, 0,
           0, {}, map[], map[]),
    map[])

  /** Two clients are connected. */
  const CONNECTED := Scene(map[], map[0 := FRESH_SESSION, 1 := FRESH_SESSION], map[], 0, 0)

  lemma Connect() returns (tape: Tape)
    ensures Recorded(tape, CONNECTED) && tape.states[0] == AT_FIRST
  {
    var v0 := Scene(map[], map[], map[], 0, 0);
    tape := Tape([AT_FIRST], []);
    Connects(Last(tape), v0, 0);
    var first := Record(tape, v0, NewSession(0), v0.(sessions := map[0 := FRESH_SESSION]));
    Connects(Last(first), v0.(sessions := map[0 := FRESH_SESSION]), 1);
    assert map[0 := FRESH_SESSION][1 := FRESH_SESSION] == map[0 := FRESH_SESSION, 1 := FRESH_SESSION];
    tape := Record(first, v0.(sessions := map[0 := FRESH_SESSION]), NewSession(1), CONNECTED);
    assert tape.states[0] == first.states[0];
  }

  const ACTIVE_SESSION := Activate(FRESH_SESSION, 0)

  const PENDING_RELEASE := NewReservation(ACTIVE_SESSION, KEY_RELEASE)

  /** The first client's key release has made its session active. */
  const ACTIVE := Scene(map[0 := Exited], map[0 := ACTIVE_SESSION, 1 := FRESH_SESSION], map[0 := PENDING_RELEASE], 1, 1)

  lemma Press(tape: Tape) returns (more: Tape)
    requires Recorded(tape, CONNECTED)
    ensures Recorded(more, ACTIVE) && Continues(tape, more)
  {
    hide Next, Enabled, Shows, IsRun;
    var v, pc := CONNECTED, Reserving(KEY_RELEASE);
    Spawns(Last(tape), v, 0, pc);
    more := Record(tape, v, Spawn(0, pc), Moved(v, 0, pc));
    v := Moved(v, 0, pc);
    more := Comes(more, v, 0, KEY_RELEASE, 0);
    v := Moved(v, 0, Activating(KEY_RELEASE, 0)).(leases := 1, count := 1);
    Activates(Last(more), v, 0, KEY_RELEASE, 0, 0);
    assert Moved(v, 0, Exited).(sessions := v.sessions[0 := ACTIVE_SESSION],
                                reservations := v.reservations[0 := PENDING_RELEASE]) == ACTIVE;
    more := Record(more, v, Run(0, Choosing(0)), ACTIVE);
  }

  /** The second client's reservation is counted, and on its way. */
  const COMING := Scene(map[0 := Exited, 1 := Activating(OTHER_REPORT, 1)], ACTIVE.sessions, ACTIVE.reservations, 2, 2)

  lemma OtherComes(tape: Tape) returns (more: Tape)
    requires Recorded(tape, ACTIVE)
    ensures Recorded(more, COMING) && Continues(tape, more)
  {
    hide Next, Enabled, Shows, IsRun;
    var v, pc := ACTIVE, Reserving(OTHER_REPORT);
    Spawns(Last(tape), v, 1, pc);
    more := Record(tape, v, Spawn(1, pc), Moved(v, 1, pc));
    v := Moved(v, 1, pc);
    more := Comes(more, v, 1, OTHER_REPORT, 1);
    assert Moved(v, 1, Activating(OTHER_REPORT, 1)).(leases := 2, count := 2) == COMING;
  }

  const ENDED_SESSION := ACTIVE_SESSION.(pending := 0, active := false, lease := None)

  /** The key release is written and completed; the session ends, with a cooldown. */
  const ENDING := Scene(COMING.threads[2 := Finishing(Some(0), true)], map[0 := ENDED_SESSION, 1 := FRESH_SESSION],
                        map[0 := PENDING_RELEASE.(once := true)], 2, 2)

  lemma CompleteIs()
    ensures Complete(ACTIVE_SESSION, 1, Keyboard, false, true, true) == (ENDED_SESSION, Ends(Some(0), true))
  {
  }

  lemma Release(tape: Tape) returns (more: Tape)
    requires Recorded(tape, COMING)
    ensures Recorded(more, ENDING) && Continues(tape, more) && |more.events| > 0
    ensures EndsSession(more.states, more.events, |more.events| - 1, 2, Completing(0))
    ensures more.states[|more.events| - 1].shared.now == 0
  {
    hide Next, Enabled, IsRun, Shows, EndsSession;
    var v, pc := COMING, Completing(0);
    Spawns(Last(tape), v, 2, pc);
    var first := Record(tape, v, Spawn(2, pc), Moved(v, 2, pc));
    v := Moved(v, 2, pc);
    CompleteIs();
    Completes(Last(first), v, 2, 0, 1);
    assert Moved(v, 2, Finishing(Some(0), true)).(
        sessions := v.sessions[0 := ENDED_SESSION],
        reservations := v.reservations[0 := PENDING_RELEASE.(once := true)]) == ENDING;
    more := Record(first, v, Run(2, Choosing(1)), ENDING);
    ReleaseEnds(first, more, v);
  }

  lemma ReleaseEnds(first: Tape, more: Tape, v: Scene)
    requires Recorded(first, v) && Recorded(more, ENDING) && Continues(first, more)
    requires |more.events| == |first.events| + 1 && more.events[|first.events|] == Run(2, Choosing(1))
    requires 2 in v.threads && v.threads[2] == Completing(0)
    ensures EndsSession(more.states, more.events, |more.events| - 1, 2, Completing(0))
    ensures more.states[|more.events| - 1].shared.now == 0
  {
    hide IsRun;
    assert more.states[|first.events|] == first.states[|first.events|];
  }

  /** It is uncounted, but it is not the last one. */
  const ENDED := ENDING.(threads := COMING.threads[2 := Exited], count := 1)

  lemma End(tape: Tape) returns (more: Tape)
    requires Recorded(tape, ENDING)
    ensures Recorded(more, ENDED) && Continues(tape, more)
  {
    hide Next, Enabled, Shows, IsRun;
    var v := ENDING;
    Finishes(Last(tape), v, 2, 0, true, 1);
    more := Record(tape, v, Run(2, Choosing(1)), Moved(v, 2, Uncounting(true)));
    v := Moved(v, 2, Uncounting(true));
    Uncounts(Last(more), v, 2, true, 1);
    assert Moved(v, 2, Exited).(count := 1) == ENDED;
    more := Record(more, v, Run(2, Choosing(1)), ENDED);
  }

  const CLOSED_SESSION := FRESH_SESSION.(closed := true, generation := 1)

  /** The second client is gone, and its reservation gives up. */
  const GONE := Scene(map[0 := Exited, 1 := DropLease(1), 2 := Exited, 3 := Exited],
                      map[0 := ENDED_SESSION, 1 := CLOSED_SESSION], ENDED.reservations, 0, 2)

  const LEFT :=
    GONE.(threads := map[0 := Exited, 1 := Activating(OTHER_REPORT, 1), 2 := Exited, 3 := Exited], count := 1)

  lemma CloseIs()
    ensures Close(FRESH_SESSION).0 == CLOSED_SESSION
  {
  }

  lemma OtherCloses(tape: Tape) returns (more: Tape)
    requires Recorded(tape, ENDED)
    ensures Recorded(more, LEFT) && Continues(tape, more)
  {
    hide Next, Enabled, Shows, IsRun, Close;
    var v, pc := ENDED, Closing(1);
    CloseIs();
    Spawns(Last(tape), v, 3, pc);
    more := Record(tape, v, Spawn(3, pc), Moved(v, 3, pc));
    v := Moved(v, 3, pc);
    Closes(Last(more), v, 3, 1, 1);
    assert Moved(v, 3, Exited).(sessions := v.sessions[1 := CLOSED_SESSION]) == LEFT;
    more := Record(more, v, Run(3, Choosing(1)), LEFT);
  }

  lemma OtherLeaves(tape: Tape) returns (more: Tape)
    requires Recorded(tape, LEFT)
    ensures Recorded(more, GONE) && Continues(tape, more)
  {
    hide Next, Enabled, Shows, IsRun;
    var v := LEFT;
    GivesUp(Last(tape), v, 1, OTHER_REPORT, 1, 1);
    more := Record(tape, v, Run(1, Choosing(1)), Moved(v, 1, Aborting(1)));
    v := Moved(v, 1, Aborting(1));
    Aborts(Last(more), v, 1, 1, 1);
    assert Moved(v, 1, DropLease(1)).(count := 0) == GONE;
    more := Record(more, v, Run(1, Choosing(1)), GONE);
  }

  lemma ToolComes(tape: Tape) returns (more: Tape)
    requires Recorded(tape, GONE)
    ensures Continues(tape, more) && IsRun(more.states, more.events)
    ensures Enabled(Last(more), Run(4, Choosing(1))) && OpensHID(Last(more), Run(4, Choosing(1)))
    ensures Last(more).shared.now == 0
  {
    hide Next, Enabled, IsRun, OpensHID;
    var v, pc := GONE, FirstCheck(ForWrite(Mcp, true));
    Spawns(Last(tape), v, 4, pc);
    more := Record(tape, v, Spawn(4, pc), Moved(v, 4, pc));
    v := Moved(v, 4, pc);
    more := Leases(more, v, 4, pc.goal, 1);
    v := Moved(v, 4, ToolBegin(HID, Executor, Some(2))).(leases := 3);
    Begins(Last(more), v, 4, Some(2), 1);
  }

  /** The cooldown that the end of a session asks for can be lost: there is a run in which a completion
      ends a session whose reservation asked for one, and an HID operation opens with no time between. */
  lemma CooldownCanBeLost()
    ensures exists states: seq<Sys>, events: seq<Event>, i: nat, j: nat, t: nat, e: Event ::
              && EndsSession(states, events, i, t, Completing(0)) && states[i + 1].threads[t].cooldown
              && states[0].shared.coord.manualUntil.None?
              && i < j < |states| && Enabled(states[j], e) && OpensHID(states[j], e)
              && states[j].shared.now == states[i].shared.now
  {
    hide Next, Enabled, IsRun, OpensHID, Shows, EndsSession;
    var connected := Connect();
    var active := Press(connected);
    var coming := OtherComes(active);
    var ending := Release(coming);
    var ended := End(ending);
    var left := OtherCloses(ended);
    var gone := OtherLeaves(left);
    var tape := ToolComes(gone);
    var i, j := |ending.events| - 1, |tape.events|;
    EndsOnLongerTape(ending, tape, i);
    assert EndsSession(tape.states, tape.events, i, 2, Completing(0));
  }

  lemma EndsOnLongerTape(tape: Tape, more: Tape, i: nat)
    requires Continues(tape, more) && IsRun(more.states, more.events)
    requires EndsSession(tape.states, tape.events, i, 2, Completing(0)) && Recorded(tape, ENDING)
    requires i == |tape.events| - 1 && tape.states[i].shared.now == 0
    ensures EndsSession(more.states, more.events, i, 2, Completing(0))
    ensures i + 1 < |more.states| && 2 in more.states[i + 1].threads
    ensures more.states[i + 1].threads[2] == Finishing(Some(0), true) && more.states[i].shared.now == 0
  {
    hide IsRun;
    assert more.states[i] == tape.states[i] && more.states[i + 1] == tape.states[i + 1];
    assert more.events[i] == tape.events[i];
  }
}
