/**
 Relative movement and scrolling: a delta is split into reports whose signed bytes add up to it.
 */
module Movement {
  import opened Wrappers
  import opened HidHost
  import opened Remotes

  const MAX_RELATIVE_REPORTS := 1024

  /** The platform's int and int64; every intermediate value below is checked to be one. */
  type Int = x: int | -0x8000_0000_0000_0000 <= x < 0x8000_0000_0000_0000

  function Clamp(value: Int, min: Int, max: Int): Int {
    if value < min then min else if value > max then max else value
  }

  function ToByte(value: Int): byte {
    value % 256
  }

  /** How the target reads a byte of a movement. */
  function Signed(b: byte): int {
    if b < 128 then b else b - 256
  }

  /** What is divided is never negative, so rounding towards zero is rounding down. */
  function ReportsForDelta(delta: Int): Int {
    if delta == 0 then 0
    else if delta < 0 then (var sum: Int := delta + 1; var negated: Int := -sum; negated / 127 + 1)
    else (var less: Int := delta - 1; less / 127 + 1)
  }

  function RelativeReportCount(deltaX: Int, deltaY: Int): Int {
    var x, y := ReportsForDelta(deltaX), ReportsForDelta(deltaY);
    if x > y then x else y
  }

  function RelativeReport(deltaX: Int, deltaY: Int, buttons: byte, wheel: Int): (r: Report)
    ensures |r| == 4 && r[0] == buttons
    ensures -127 <= deltaX <= 127 ==> Signed(r[1]) == deltaX
    ensures -127 <= deltaY <= 127 ==> Signed(r[2]) == deltaY
    ensures -127 <= wheel <= 127 ==> Signed(r[3]) == wheel
  {
    [buttons, ToByte(Clamp(deltaX, -127, 127)), ToByte(Clamp(deltaY, -127, 127)), ToByte(Clamp(wheel, -127, 127))]
  }

  function AbsoluteReport(x: nat, y: nat, buttons: byte, wheel: Int): (r: Report)
    ensures |r| == 6 && r[0] == buttons
    ensures x < 0x10000 && y < 0x10000 ==> r[1] as int + 256 * r[2] as int == x && r[3] as int + 256 * r[4] as int == y
    ensures -127 <= wheel <= 127 ==> Signed(r[5]) == wheel
  {
    [buttons, x % 256, x / 256 % 256, y % 256, y / 256 % 256, ToByte(Clamp(wheel, -127, 127))]
  }

  /** A screen fraction as a coordinate of the pointer, over the reals. */
  function AbsoluteCoordinate(value: real): (c: nat)
    ensures 1 <= c <= 0x8000
    ensures value <= 0.0 ==> c == 1
    ensures value >= 1.0 ==> c == 0x8000
  {
    var clipped := if value < 0.0 then 0.0 else if value > 1.0 then 1.0 else value;
    (32767.0 * clipped).Floor + 1
  }

  lemma CoordinatesAreMonotone(a: real, b: real)
    requires a <= b
    ensures AbsoluteCoordinate(a) <= AbsoluteCoordinate(b)
  {
  }

  function Abs(x: int): nat {
    if x < 0 then -x else x
  }

  /** The number of reports is the distance divided by the longest step, rounded up, and no
      intermediate value leaves the range, even for the smallest integer. */
  lemma CountIsCeiling(delta: Int)
    ensures 127 * (ReportsForDelta(delta) - 1) < Abs(delta) <= 127 * ReportsForDelta(delta)
            || (delta == 0 && ReportsForDelta(delta) == 0)
  {
  }

  /** One step brings the count down by one. */
  lemma CountAfterStep(delta: Int)
    ensures var rest: Int := delta - Clamp(delta, -127, 127);
            ReportsForDelta(rest) == if delta == 0 then 0 else ReportsForDelta(delta) - 1
  {
    CountIsCeiling(delta);
    CountIsCeiling(delta - Clamp(delta, -127, 127));
  }

  function SumX(reports: seq<Report>): int {
    if reports == [] then 0
    else SumX(reports[..|reports| - 1]) + var r := reports[|reports| - 1]; if |r| == 4 then Signed(r[1]) else 0
  }

  function SumY(reports: seq<Report>): int {
    if reports == [] then 0
    else SumY(reports[..|reports| - 1]) + var r := reports[|reports| - 1]; if |r| == 4 then Signed(r[2]) else 0
  }

  function SumWheel(reports: seq<Report>): int {
    if reports == [] then 0
    else
      var r := reports[|reports| - 1];
      SumWheel(reports[..|reports| - 1]) + if |r| == 4 then Signed(r[3]) else if |r| == 6 then Signed(r[5]) else 0
  }

  lemma SumsOfNone()
    ensures SumX([]) == 0 && SumY([]) == 0 && SumWheel([]) == 0
  {
  }

  lemma SumsOfOne(reports: seq<Report>, r: Report)
    ensures SumX(reports + [r]) == SumX(reports) + if |r| == 4 then Signed(r[1]) else 0
    ensures SumY(reports + [r]) == SumY(reports) + if |r| == 4 then Signed(r[2]) else 0
    ensures SumWheel(reports + [r]) == SumWheel(reports) + if |r| == 4 then Signed(r[3])
              else if |r| == 6 then Signed(r[5]) else 0
  {
    assert (reports + [r])[..|reports|] == reports;
  }

  /** Moves and nothing else: no button, no wheel, steps of at most 127 and never of nothing. */
  predicate IsMove(r: Report, dx: int, dy: int) {
    && |r| == 4 && r[0] == 0 && r[3] == 0 && (r[1] != 0 || r[2] != 0)
    && -127 <= Signed(r[1]) <= 127 && -127 <= Signed(r[2]) <= 127
    && Towards(Signed(r[1]), dx) && Towards(Signed(r[2]), dy)
  }

  /** Not against the direction of the whole movement. */
  predicate Towards(step: int, whole: int) {
    (whole >= 0 ==> step >= 0) && (whole <= 0 ==> step <= 0)
  }

  lemma StepIsMove(x: Int, y: Int, dx: int, dy: int)
    requires -127 <= x <= 127 && -127 <= y <= 127 && (x != 0 || y != 0) && Towards(x, dx) && Towards(y, dy)
    ensures IsMove(RelativeReport(x, y, 0, 0), dx, dy)
  {
  }

  predicate AllMoves(reports: seq<Report>, dx: int, dy: int) {
    forall r :: r in reports ==> IsMove(r, dx, dy)
  }

  method BuildRelativeMoveReports(dx: Int, dy: Int) returns (r: Result<seq<Report>, Failure>)
    ensures r.Err? ==> r == Err(Rejected)
    ensures r.Err? <==> RelativeReportCount(dx, dy) > MAX_RELATIVE_REPORTS
    ensures r.Ok? ==>
              && SumX(r.value) == dx && SumY(r.value) == dy
              && |r.value| == RelativeReportCount(dx, dy) && AllMoves(r.value, dx, dy)
  {
    hide SumX, SumY, SumWheel, IsMove, ReportsForDelta;
    if RelativeReportCount(dx, dy) > MAX_RELATIVE_REPORTS {
      return Err(Rejected);
    }
    var deltaX: Int, deltaY: Int, reports: seq<Report> := dx, dy, [];
    SumsOfNone();
    while deltaX != 0 || deltaY != 0
      invariant SumX(reports) + deltaX == dx && SumY(reports) + deltaY == dy
      invariant |reports| + RelativeReportCount(deltaX, deltaY) == RelativeReportCount(dx, dy)
      invariant AllMoves(reports, dx, dy) && Towards(deltaX, dx) && Towards(deltaY, dy)
      decreases Abs(deltaX) + Abs(deltaY)
    {
      var x := Clamp(deltaX, -127, 127);
      var y := Clamp(deltaY, -127, 127);
      CountAfterStep(deltaX);
      CountAfterStep(deltaY);
      CountIsCeiling(deltaX);
      CountIsCeiling(deltaY);
      StepIsMove(x, y, dx, dy);
      SumsOfOne(reports, RelativeReport(x, y, 0, 0));
      reports := reports + [RelativeReport(x, y, 0, 0)];
      deltaX := deltaX - x;
      deltaY := deltaY - y;
    }
    CountIsCeiling(0);
    return Ok(reports);
  }

  // ---------------------------------------------------------------- moving

  ghost predicate IsMovePlan(reports: seq<Report>, dx: int, dy: int) {
    SumX(reports) == dx && SumY(reports) == dy && AllMoves(reports, dx, dy)
  }

  ghost predicate Moved(dx: int, dy: int, w: Log, ok: bool) {
    exists reports: seq<Report> :: IsMovePlan(reports, dx, dy) && Ran(Relative, reports, MOUSE_UP, w, ok)
  }

  method MoveRelative(remote: Remote, dx: Int, dy: Int) returns (error: Option<Failure>)
    modifies remote
    ensures old(remote.log) <= remote.log
    ensures error == Some(Rejected) <==> RelativeReportCount(dx, dy) > MAX_RELATIVE_REPORTS
    ensures error == Some(Rejected) ==> remote.log == old(remote.log) && remote.acts == old(remote.acts)
    ensures error != Some(Rejected) ==> Moved(dx, dy, remote.log[|old(remote.log)|..], error.None?)
    ensures error != Some(Rejected) ==> CallHeeds(old(remote.acts), remote.acts, MOUSE_UP, false, error)
  {
    hide SumX, SumY, AllMoves, ReportsForDelta, AllSent, Ran, ActOk, GoesOn, Heeds, IsMove;
    var built := BuildRelativeMoveReports(dx, dy);
    if built.Err? {
      return Some(Rejected);
    }
    var reports := built.value;
    assert IsMovePlan(reports, dx, dy);
    ghost var before := remote.log;
    AllSentOfNone(Relative, reports);
    ghost var acts := [];
    GoesOnAtFirst(MOUSE_UP, false);
    assert RelativeReport(0, 0, 0, 0) == MOUSE_UP;
    for k := 0 to |reports|
      invariant remote.log == before + AllSent(Relative, reports[..k])
      invariant remote.acts == old(remote.acts) + acts && GoesOn(acts, MOUSE_UP, false)
    {
      error, acts := LookAndWrite(remote, Relative, reports[k], RelativeReport(0, 0, 0, 0), false, before,
                                  old(remote.acts), acts, reports, k);
      if error.Some? {
        return error;
      }
    }
    GoesOnToEnd(old(remote.acts), acts, remote.acts, MOUSE_UP, false);
    StopsAtEnd(Relative, reports, MOUSE_UP, before, remote.log);
    return None;
  }

  predicate Between(part: int, whole: int) {
    0 <= part <= whole || whole <= part <= 0
  }

  lemma {:induction false} PartialMoves(reports: seq<Report>, dx: int, dy: int, k: nat)
    requires AllMoves(reports, dx, dy) && k <= |reports|
    ensures Between(SumX(reports[..k]), SumX(reports)) && Between(SumY(reports[..k]), SumY(reports))
    ensures Towards(SumX(reports), dx) && Towards(SumY(reports), dy)
    decreases |reports|
  {
    if reports != [] {
      var n := |reports| - 1;
      var last := reports[n];
      assert last in reports;
      PartialMoves(reports[..n], dx, dy, if k <= n then k else n);
      if k <= n {
        assert reports[..n][..k] == reports[..k];
      } else {
        assert reports[..k] == reports;
      }
    }
  }

  /** Whichever failed writes arrive: a movement that succeeds moves by exactly (dx, dy), one that
      fails never overshoots and never goes the wrong way. */
  lemma MovementIsExact(dx: int, dy: int, w: Log, ok: bool, d: seq<bool>)
    requires Moved(dx, dy, w, ok) && CouldDeliver(w, d)
    ensures var arrived := Delivered(w, d, Relative);
            if ok then SumX(arrived) == dx && SumY(arrived) == dy
            else Between(SumX(arrived), dx) && Between(SumY(arrived), dy)
  {
    hide SumX, SumY, AllMoves, Ran, Delivered, Begun, Between;
    var reports :| IsMovePlan(reports, dx, dy) && Ran(Relative, reports, MOUSE_UP, w, ok);
    RanDelivers(Relative, reports, MOUSE_UP, w, ok, d);
    if !ok {
      BegunMoves(reports, dx, dy, Delivered(w, d, Relative));
    }
  }

  lemma BegunMoves(reports: seq<Report>, dx: int, dy: int, arrived: seq<Report>)
    requires IsMovePlan(reports, dx, dy) && Begun(reports, MOUSE_UP, arrived)
    ensures Between(SumX(arrived), dx) && Between(SumY(arrived), dy)
  {
    hide SumX, SumY, AllMoves;
    var k: nat :| k <= |reports| && (arrived == reports[..k] || arrived == reports[..k] + [MOUSE_UP]);
    PartialMoves(reports, dx, dy, k);
    SumsOfOne(reports[..k], MOUSE_UP);
  }

  // ---------------------------------------------------------------- scrolling

  const CENTRE: nat := 16384

  lemma CentreIsHalf()
    ensures AbsoluteCoordinate(0.5) == CENTRE
  {
  }

  const ABSOLUTE_STOP: Report := AbsoluteReport(CENTRE, CENTRE, 0, 0)

  function ScrollReports(deltaY: Int): seq<Report>
    decreases Abs(deltaY)
  {
    if deltaY == 0 then []
    else
      var wheel := Clamp(deltaY, -127, 127);
      [AbsoluteReport(CENTRE, CENTRE, 0, wheel), ABSOLUTE_STOP] + ScrollReports(deltaY - wheel)
  }

  /** One turn of the wheel and its release. */
  method ScrollTurn(remote: Remote, turn: Report, release: Report, ghost before: Log, ghost start: seq<Act>,
                    ghost acts: seq<Act>, ghost plan: seq<Report>, ghost k: nat)
    returns (error: Option<Failure>, ghost now: seq<Act>)
    requires k + 2 <= |plan| && plan[k] == turn && plan[k + 1] == release
    requires before <= remote.log && remote.log == before + AllSent(Absolute, plan[..k])
    requires start <= remote.acts && remote.acts == start + acts && GoesOn(acts, release, false)
    modifies remote
    ensures before <= remote.log && start <= remote.acts && error != Some(Rejected)
    ensures error.None? ==>
              remote.log == before + AllSent(Absolute, plan[..k + 2]) && remote.acts == start + now
              && GoesOn(now, release, false)
    ensures error.Some? ==>
              Ran(Absolute, plan, release, remote.log[|before|..], false)
              && CallHeeds(start, remote.acts, release, false, error)
  {
    hide AllSent, Ran, Sent, ActOk, GoesOn, Heeds;
    error, now := LookAndWrite(remote, Absolute, turn, release, false, before, start, acts, plan, k);
    if error.Some? {
      return error, now;
    }
    var ok := remote.Write(Absolute, release);
    if !ok {
      var last := remote.Write(Absolute, release);
      StopsWith(start, now, Tried(Absolute, release, false), [Tried(Absolute, release, last)], remote.acts, release,
        false);
      StopsFailing(Absolute, plan, release, k + 1, before, remote.log, last);
      return Some(WriteFailed), now;
    }
    GoesOnWith(now, Tried(Absolute, release, true), release, false);
    now := now + [Tried(Absolute, release, true)];
    SentNext(Absolute, plan, k + 1);
    return None, now;
  }

  method Scroll(remote: Remote, delta: Int) returns (error: Option<Failure>)
    modifies remote
    ensures old(remote.log) <= remote.log
    ensures error == Some(Rejected) <==> ReportsForDelta(delta) > MAX_RELATIVE_REPORTS
    ensures error == Some(Rejected) ==> remote.log == old(remote.log) && remote.acts == old(remote.acts)
    ensures error != Some(Rejected) ==>
              Ran(Absolute, ScrollReports(delta), ABSOLUTE_STOP, remote.log[|old(remote.log)|..], error.None?)
    ensures error != Some(Rejected) ==> CallHeeds(old(remote.acts), remote.acts, ABSOLUTE_STOP, false, error)
  {
    hide ActOk, GoesOn, Heeds, ScrollReports, AbsoluteReport, ReportsForDelta, AbsoluteCoordinate, AllSent, Ran, Abs,
        Sent;
    if ReportsForDelta(delta) > MAX_RELATIVE_REPORTS {
      return Some(Rejected);
    }
    CentreIsHalf();
    var x, y := AbsoluteCoordinate(0.5), AbsoluteCoordinate(0.5);
    var release := AbsoluteReport(x, y, 0, 0);
    var deltaY := delta;
    ghost var before, plan, k := remote.log, ScrollReports(delta), 0;
    ghost var acts := [];
    GoesOnAtFirst(release, false);
    AllSentOfNone(Absolute, plan);
    while deltaY != 0
      invariant k <= |plan| && plan[k..] == ScrollReports(deltaY)
      invariant remote.log == before + AllSent(Absolute, plan[..k])
      invariant remote.acts == old(remote.acts) + acts && GoesOn(acts, release, false)
      decreases Abs(deltaY)
    {
      var wheel := Clamp(deltaY, -127, 127);
      ScrollNext(deltaY, plan, k);
      error, acts :=
        ScrollTurn(remote, AbsoluteReport(x, y, 0, wheel), release, before, old(remote.acts), acts, plan, k);
      if error.Some? {
        return error;
      }
      k := k + 2;
      deltaY := deltaY - wheel;
    }
    ScrollEnds(plan, k);
    GoesOnToEnd(old(remote.acts), acts, remote.acts, release, false);
    StopsAtEnd(Absolute, plan, release, before, remote.log);
    return None;
  }

  lemma ScrollNext(deltaY: Int, plan: seq<Report>, k: nat)
    requires deltaY != 0 && k <= |plan| && plan[k..] == ScrollReports(deltaY)
    ensures k + 2 <= |plan| && plan[k + 1] == ABSOLUTE_STOP
    ensures plan[k] == AbsoluteReport(CENTRE, CENTRE, 0, Clamp(deltaY, -127, 127))
    ensures plan[k + 2..] == ScrollReports(deltaY - Clamp(deltaY, -127, 127))
    ensures Abs(deltaY - Clamp(deltaY, -127, 127)) < Abs(deltaY)
  {
    assert plan[k] == plan[k..][0] && plan[k + 1] == plan[k..][1];
    assert plan[k + 2..] == plan[k..][2..];
  }

  lemma ScrollEnds(plan: seq<Report>, k: nat)
    requires k <= |plan| && plan[k..] == ScrollReports(0)
    ensures k == |plan| && plan[..k] == plan
  {
  }

  /** The first turn of a scroll and its release. */
  lemma TurnSums(wheel: Int)
    requires -127 <= wheel <= 127
    ensures var first := AbsoluteReport(CENTRE, CENTRE, 0, wheel);
            SumWheel([]) == 0 && SumWheel([first]) == wheel && SumWheel([first, ABSOLUTE_STOP]) == wheel
  {
    var first := AbsoluteReport(CENTRE, CENTRE, 0, wheel);
    SumsOfOne([], first);
    SumsOfOne([first], ABSOLUTE_STOP);
    assert [] + [first] == [first] && [first] + [ABSOLUTE_STOP] == [first, ABSOLUTE_STOP];
  }

  /** The wheel values of a scroll plan add up to the delta, and a part of the plan to a part of it. */
  lemma {:induction false} ScrollPlanSums(deltaY: Int, k: nat)
    requires k <= |ScrollReports(deltaY)|
    ensures SumWheel(ScrollReports(deltaY)) == deltaY && Between(SumWheel(ScrollReports(deltaY)[..k]), deltaY)
    decreases Abs(deltaY)
  {
    hide SumWheel, AbsoluteReport;
    TurnSums(Clamp(deltaY, -127, 127));
    if deltaY != 0 {
      var wheel := Clamp(deltaY, -127, 127);
      var first, rest := AbsoluteReport(CENTRE, CENTRE, 0, wheel), ScrollReports(deltaY - wheel);
      ScrollPlanSums(deltaY - wheel, if k >= 2 then k - 2 else 0);
      SumWheelConcat([first, ABSOLUTE_STOP], rest);
      if k >= 2 {
        SumWheelConcat([first, ABSOLUTE_STOP], rest[..k - 2]);
        assert ScrollReports(deltaY)[..k] == [first, ABSOLUTE_STOP] + rest[..k - 2];
      } else {
        assert ScrollReports(deltaY)[..k] == if k == 0 then [] else [first];
      }
    }
  }

  /** Two reports a step, the last of them the release. */
  lemma {:induction false} ScrollPlanLength(deltaY: Int)
    ensures |ScrollReports(deltaY)| == 2 * ReportsForDelta(deltaY)
    ensures deltaY != 0 ==> ScrollReports(deltaY)[|ScrollReports(deltaY)| - 1] == ABSOLUTE_STOP
    decreases Abs(deltaY)
  {
    hide ReportsForDelta, AbsoluteReport;
    CountAfterStep(deltaY);
    CountIsCeiling(deltaY);
    if deltaY != 0 {
      ScrollPlanLength(deltaY - Clamp(deltaY, -127, 127));
    }
  }

  lemma {:induction false} SumWheelConcat(a: seq<Report>, b: seq<Report>)
    ensures SumWheel(a + b) == SumWheel(a) + SumWheel(b)
  {
    if b == [] {
      assert a + b == a;
    } else {
      assert (a + b)[..|a + b| - 1] == a + b[..|b| - 1];
      SumWheelConcat(a, b[..|b| - 1]);
    }
  }

  /** Whichever failed writes arrive: a scroll that succeeds turns the wheel by exactly deltaY, one
      that fails never overshoots and never goes the wrong way. */
  lemma ScrollIsExact(deltaY: Int, w: Log, ok: bool, d: seq<bool>)
    requires Ran(Absolute, ScrollReports(deltaY), ABSOLUTE_STOP, w, ok) && CouldDeliver(w, d)
    ensures var turned := SumWheel(Delivered(w, d, Absolute));
            if ok then turned == deltaY else Between(turned, deltaY)
  {
    hide SumWheel, Ran, Delivered;
    var plan := ScrollReports(deltaY);
    RanDelivers(Absolute, plan, ABSOLUTE_STOP, w, ok, d);
    ScrollPlanSums(deltaY, 0);
    if !ok {
      var k: nat :| k <= |plan|
          && (Delivered(w, d, Absolute) == plan[..k] || Delivered(w, d, Absolute) == plan[..k] + [ABSOLUTE_STOP]);
      ScrollPlanSums(deltaY, k);
      SumsOfOne(plan[..k], ABSOLUTE_STOP);
    }
  }
}
