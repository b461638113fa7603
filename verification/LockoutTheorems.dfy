/**
 When an address is locked out, counted from the events of a run: after enough failures in a row, and
 only then.
 */
module LockoutTheorems {
  import opened Wrappers
  import opened Logins
  import opened LoginTheorems

  // ---------------------------------------------------------------- failures in a row

  predicate FailsAt(events: seq<Event>, ip: string, k: nat) {
    k < |events| && events[k].Record? && events[k].ip == ip
  }

  /** A login that finds the lockout of this address over starts its count afresh. */
  predicate Forgives(s: Sys, e: Event, ip: string) {
    && e.Check? && e.ip == ip && ip in s.table
    && s.table[ip].lockoutEnd.Some? && s.table[ip].lockoutEnd.value <= e.now
  }

  /** From event i on, up to state j, the record of this address was neither cleared, evicted or
      cleaned up, nor forgiven. */
  ghost predicate Kept(states: seq<Sys>, events: seq<Event>, ip: string, i: nat, j: nat)
    requires j < |states| == |events| + 1
  {
    && (forall m :: i < m <= j ==> ip in states[m].table)
    && (forall m :: i < m < j ==> !Forgives(states[m], events[m], ip))
  }

  predicate Rising(c: Config, events: seq<Event>, ip: string, ks: seq<nat>) {
    && (forall m :: 0 <= m < |ks| ==> FailsAt(events, ip, ks[m]))
    && (forall m :: 1 <= m < |ks| ==>
          ks[m - 1] < ks[m] && events[ks[m]].now - events[ks[m - 1]].now <= c.duration)
  }

  /** The events ks are failures of this address, each at most one lockout after the one before, and
      its record was kept from the first of them up to state j. */
  ghost predicate InARow(c: Config, states: seq<Sys>, events: seq<Event>, ip: string, ks: seq<nat>, j: nat)
    requires j < |states| == |events| + 1
  {
    ks != [] && Rising(c, events, ip, ks) && ks[|ks| - 1] < j && Kept(states, events, ip, ks[0], j)
  }

  /** When the last of them happened. */
  function LastOf(events: seq<Event>, ip: string, ks: seq<nat>): int {
    if ks != [] && FailsAt(events, ip, ks[|ks| - 1]) then events[ks[|ks| - 1]].now else 0
  }

  // ---------------------------------------------------------------- enough failures lock out

  lemma {:induction false} ClockRises(c: Config, states: seq<Sys>, events: seq<Event>, i: nat, j: nat)
    requires IsRun(c, states, events) && i <= j < |states|
    ensures states[i].clock <= states[j].clock
    decreases j
  {
    hide Next, Enabled;
    if i < j {
      ClockRises(c, states, events, i, j - 1);
      ClockGoesOn(c, states, events, j - 1);
    }
  }

  lemma RecordOfOthers(c: Config, s: Sys, e: Event, ip: string)
    requires Enabled(s, e) && e.Record? && e.ip != ip && ip in Next(c, s, e).table
    ensures ip in s.table && Next(c, s, e).table[ip] == s.table[ip]
  {
    hide Frees, EvictAfter, IsListing, Failed;
    if c.duration > 0 && e.ip !in s.table && |s.table| >= MAX_RECORDS && Frees(s.table, e.evictNow, e.order) {
      EvictSmaller(s.table, e.evictNow, e.order);
    }
  }

  /** An event that is no failure of this address, and does not forgive it, keeps its record as it is
      or drops it. */
  lemma OtherEvents(c: Config, s: Sys, e: Event, ip: string)
    requires Enabled(s, e) && !(e.Record? && e.ip == ip) && !Forgives(s, e, ip) && ip in Next(c, s, e).table
    ensures ip in s.table && Next(c, s, e).table[ip] == s.table[ip]
  {
    hide IsExpired, RecordAfter, IsListing;
    if e.Record? {
      RecordOfOthers(c, s, e, ip);
    }
  }

  lemma OwnFailure(c: Config, s: Sys, e: Event, ip: string)
    requires Enabled(s, e) && e.Record? && e.ip == ip && c.duration > 0 && ip in Next(c, s, e).table
    ensures Next(c, s, e).table[ip] == Failed(c, if ip in s.table then Some(s.table[ip]) else None, e.now)
  {
    hide Frees, EvictAfter, IsListing, Failed;
  }

  /** At least n failures are counted, the last of them not before `last`. */
  predicate Counts(table: Table, ip: string, n: nat, last: int) {
    ip in table && table[ip].failures >= n && table[ip].lastFailed >= last
  }

  lemma CountStays(c: Config, s: Sys, e: Event, ip: string, n: nat, last: int)
    requires Inv(c, s) && Enabled(s, e) && c.duration > 0 && Counts(s.table, ip, n, last)
    requires ip in Next(c, s, e).table && !Forgives(s, e, ip)
    requires e.Record? && e.ip == ip ==> e.now - last <= c.duration
    ensures Counts(Next(c, s, e).table, ip, n, last)
  {
    hide Next, Enabled, Forgives;
    if e.Record? && e.ip == ip {
      OwnFailure(c, s, e, ip);
      FailureCounts(c, s, e, ip, n);
    } else {
      OtherEvents(c, s, e, ip);
    }
  }

  lemma FailureCounts(c: Config, s: Sys, e: Event, ip: string, n: nat)
    requires Inv(c, s) && Enabled(s, e) && e.Record? && e.ip == ip && ip in s.table && s.table[ip].failures >= n
    requires e.now - s.table[ip].lastFailed <= c.duration
    ensures var a := Failed(c, Some(s.table[ip]), e.now); a.failures >= n + 1 && a.lastFailed >= s.table[ip].lastFailed
  {
    assert RecordOk(c, s.clock, s.table[ip]);
  }

  lemma {:induction false} CountLasts(c: Config, states: seq<Sys>, events: seq<Event>, ip: string, i: nat, j: nat,
      n: nat, last: int, end: int)
    requires IsRun(c, states, events) && c.duration > 0 && i <= j < |states|
    requires Counts(states[i].table, ip, n, last) && states[j].clock <= end && end - last <= c.duration
    requires forall m :: i < m <= j ==> ip in states[m].table
    requires forall m :: i <= m < j ==> !Forgives(states[m], events[m], ip)
    ensures Counts(states[j].table, ip, n, last)
    decreases j
  {
    hide Next, Enabled, Inv, Counts, Forgives;
    if i < j {
      ClockGoesOn(c, states, events, j - 1);
      CountLasts(c, states, events, ip, i, j - 1, n, last, end);
      InvOnRuns(c, states, events, j - 1);
      if events[j - 1].Record? { EventTime(c, states, events, j - 1); }
      CountStays(c, states[j - 1], events[j - 1], ip, n, last);
    }
  }

  lemma EventTime(c: Config, states: seq<Sys>, events: seq<Event>, i: nat)
    requires IsRun(c, states, events) && i < |events| && events[i].Record?
    ensures states[i + 1].clock == events[i].now && states[i].clock <= events[i].now
  {
    hide RecordAfter;
    ClockGoesOn(c, states, events, i);
  }

  lemma InARowBefore(c: Config, states: seq<Sys>, events: seq<Event>, ip: string, ks: seq<nat>, j: nat)
    requires |states| == |events| + 1 && j < |states| && |ks| > 1 && InARow(c, states, events, ip, ks, j)
    ensures ks[0] < ks[|ks| - 1]
    ensures InARow(c, states, events, ip, ks[..|ks| - 1], ks[|ks| - 1])
  {
    var init := ks[..|ks| - 1];
    assert init[0] == ks[0] && init[|init| - 1] == ks[|ks| - 2];
    assert ks[|ks| - 2] < ks[|ks| - 1];
    FirstIsLeast(c, events, ip, ks, |ks| - 1);
  }

  lemma {:induction false} FirstIsLeast(c: Config, events: seq<Event>, ip: string, ks: seq<nat>, m: nat)
    requires Rising(c, events, ip, ks) && m < |ks|
    ensures ks[0] <= ks[m] && (m > 0 ==> ks[0] < ks[m])
  {
    if m > 0 {
      FirstIsLeast(c, events, ip, ks, m - 1);
      assert ks[m - 1] < ks[m];
    }
  }

  lemma InARowUpTo(c: Config, states: seq<Sys>, events: seq<Event>, ip: string, ks: seq<nat>, i: nat, j: nat)
    requires |states| == |events| + 1 && i <= j < |states| && InARow(c, states, events, ip, ks, j)
    requires ks[|ks| - 1] < i
    ensures InARow(c, states, events, ip, ks, i)
  {
  }

  lemma LastFails(c: Config, events: seq<Event>, ip: string, ks: seq<nat>)
    requires ks != [] && Rising(c, events, ip, ks)
    ensures FailsAt(events, ip, ks[|ks| - 1])
    ensures |ks| > 1 ==>
              && FailsAt(events, ip, ks[|ks| - 2]) && ks[|ks| - 2] < ks[|ks| - 1]
              && events[ks[|ks| - 1]].now - events[ks[|ks| - 2]].now <= c.duration
  {
  }

  lemma OneMoreFailure(c: Config, s: Sys, e: Event, ip: string, n: nat)
    requires Inv(c, s) && Enabled(s, e) && c.duration > 0 && e.Record? && e.ip == ip && ip in Next(c, s, e).table
    requires n > 0 ==> ip in s.table && s.table[ip].failures >= n && e.now - s.table[ip].lastFailed <= c.duration
    requires ip in s.table ==> s.table[ip].failures >= 0
    ensures Counts(Next(c, s, e).table, ip, n + 1, e.now)
    ensures n + 1 >= c.maxFailures ==> Next(c, s, e).table[ip].lockoutEnd == Some(e.now + c.duration)
  {
    hide Next, Inv, Enabled;
    OwnFailure(c, s, e, ip);
  }

  ghost predicate NoneNegative(table: Table) {
    forall ip :: ip in table ==> table[ip].failures >= 0
  }

  lemma {:induction false} FailuresNotNegative(c: Config, states: seq<Sys>, events: seq<Event>, i: nat)
    requires IsRun(c, states, events) && i < |states| && c.duration > 0
    ensures NoneNegative(states[i].table)
  {
    hide Next, Enabled, Failed;
    if i > 0 {
      FailuresNotNegative(c, states, events, i - 1);
      ClockGoesOn(c, states, events, i - 1);
      var s, e := states[i - 1], events[i - 1];
      forall ip | ip in states[i].table
        ensures states[i].table[ip].failures >= 0
      {
        if e.Record? && e.ip == ip {
          OwnFailure(c, s, e, ip);
          FailedPositive(c, if ip in s.table then Some(s.table[ip]) else None, e.now);
        } else if Forgives(s, e, ip) {
          ForgivenRecord(c, s, e, ip);
        } else {
          OtherEvents(c, s, e, ip);
        }
      }
    }
  }

  lemma FailedPositive(c: Config, a: Option<Attempt>, now: int)
    requires a.Some? ==> a.value.failures >= 0
    ensures Failed(c, a, now).failures > 0
  {
  }

  lemma ForgivenRecord(c: Config, s: Sys, e: Event, ip: string)
    requires Enabled(s, e) && Forgives(s, e, ip) && c.duration > 0
    ensures ip in Next(c, s, e).table
    ensures Next(c, s, e).table[ip].failures == 0 && Next(c, s, e).table[ip].lockoutEnd.None?
  {
  }

  /** Failures in a row are all counted by the last of them, and enough of them lock the address out. */
  lemma {:induction false} RowIsCounted(c: Config, states: seq<Sys>, events: seq<Event>, ip: string, ks: seq<nat>)
    requires IsRun(c, states, events) && c.duration > 0 && ks != [] && ks[|ks| - 1] < |events|
    requires InARow(c, states, events, ip, ks, ks[|ks| - 1] + 1)
    ensures Counts(states[ks[|ks| - 1] + 1].table, ip, |ks|, LastOf(events, ip, ks))
    ensures |ks| >= c.maxFailures ==>
              states[ks[|ks| - 1] + 1].table[ip].lockoutEnd == Some(LastOf(events, ip, ks) + c.duration)
    decreases |ks|
  {
    hide Next, Enabled, Inv, Forgives, Rising, IsRun;
    var k := ks[|ks| - 1];
    LastFails(c, events, ip, ks);
    RunFacts(c, states, events, k);
    assert ip in states[k + 1].table by { FirstIsLeast(c, events, ip, ks, |ks| - 1); }
    if |ks| > 1 {
      var init := ks[..|ks| - 1];
      var i := init[|init| - 1];
      InARowBefore(c, states, events, ip, ks, k + 1);
      InARowUpTo(c, states, events, ip, init, i + 1, k);
      RowIsCounted(c, states, events, ip, init);
      FirstIsLeast(c, events, ip, ks, |ks| - 2);
      CountLasts(c, states, events, ip, i + 1, k, |init|, events[i].now, events[k].now);
    }
    OneMoreFailure(c, states[k], events[k], ip, |ks| - 1);
  }

  lemma RunFacts(c: Config, states: seq<Sys>, events: seq<Event>, k: nat)
    requires IsRun(c, states, events) && k < |events| && c.duration > 0
    ensures |states| == |events| + 1
    ensures Inv(c, states[k]) && Enabled(states[k], events[k]) && states[k + 1] == Next(c, states[k], events[k])
    ensures NoneNegative(states[k].table)
    ensures events[k].Record? ==> states[k].clock <= events[k].now
  {
    hide Next, Enabled, Inv;
    ClockGoesOn(c, states, events, k);
    InvOnRuns(c, states, events, k);
    FailuresNotNegative(c, states, events, k);
    if events[k].Record? { EventTime(c, states, events, k); }
  }

  /** An address that fails maxFailures times in a row is locked out from the last of these failures
      on, for one lockout. */
  lemma LockoutBegins(c: Config, states: seq<Sys>, events: seq<Event>, ip: string, ks: seq<nat>)
    requires IsRun(c, states, events) && c.duration > 0 && ks != [] && ks[|ks| - 1] < |events|
    requires InARow(c, states, events, ip, ks, ks[|ks| - 1] + 1) && |ks| >= c.maxFailures
    ensures LockedUntil(states[ks[|ks| - 1] + 1].table, ip, LastOf(events, ip, ks) + c.duration)
  {
    RowIsCounted(c, states, events, ip, ks);
  }

  /** And it stays locked out for that long, unless the lockout is given up: every login is refused. */
  lemma LockedOutFor(c: Config, states: seq<Sys>, events: seq<Event>, ip: string, ks: seq<nat>, j: nat, now: int)
    requires IsRun(c, states, events) && c.duration > 0 && ks != [] && ks[|ks| - 1] < j < |states|
    requires InARow(c, states, events, ip, ks, ks[|ks| - 1] + 1) && |ks| >= c.maxFailures
    requires forall k :: ks[|ks| - 1] < k < j && ip in states[k].table ==> !GivesUp(states[k], events[k], ip)
    requires states[j].clock <= now < LastOf(events, ip, ks) + c.duration
    ensures Blocked(c, states[j].table, ip, now)
  {
    hide GivesUp, Blocked;
    LockoutBegins(c, states, events, ip, ks);
    LockoutHolds(c, states, events, ip, ks[|ks| - 1] + 1, j, LastOf(events, ip, ks) + c.duration);
  }

  // ---------------------------------------------------------------- and nothing else does

  /** The count of a record, and its lockout, come from failures in a row. */
  ghost predicate Backed(c: Config, states: seq<Sys>, events: seq<Event>, ip: string, j: nat)
    requires j < |states| == |events| + 1
  {
    ip in states[j].table ==>
      var a := states[j].table[ip];
      && (a.failures > 0 ==>
            exists ks :: InARow(c, states, events, ip, ks, j) && |ks| == a.failures
                         && LastOf(events, ip, ks) == a.lastFailed)
      && (a.lockoutEnd.Some? ==>
            exists ks :: InARow(c, states, events, ip, ks, j) && |ks| >= c.maxFailures
                         && LastOf(events, ip, ks) + c.duration == a.lockoutEnd.value)
  }

  lemma RowGoesOn(c: Config, states: seq<Sys>, events: seq<Event>, ip: string, ks: seq<nat>, j: nat)
    requires |states| == |events| + 1 && j < |events| && InARow(c, states, events, ip, ks, j)
    requires ip in states[j + 1].table && !Forgives(states[j], events[j], ip)
    ensures InARow(c, states, events, ip, ks, j + 1)
  {
  }

  lemma RowGrows(c: Config, states: seq<Sys>, events: seq<Event>, ip: string, ks: seq<nat>, j: nat)
    requires |states| == |events| + 1 && j < |events| && InARow(c, states, events, ip, ks, j)
    requires ip in states[j + 1].table && FailsAt(events, ip, j)
    requires events[j].now - LastOf(events, ip, ks) <= c.duration
    ensures InARow(c, states, events, ip, ks + [j], j + 1)
  {
    var more := ks + [j];
    assert more[0] == ks[0] && more[|more| - 1] == j;
    assert forall m :: 0 <= m < |ks| ==> more[m] == ks[m];
  }

  lemma RowBegins(c: Config, states: seq<Sys>, events: seq<Event>, ip: string, j: nat)
    requires |states| == |events| + 1 && j < |events| && FailsAt(events, ip, j) && ip in states[j + 1].table
    ensures InARow(c, states, events, ip, [j], j + 1)
  {
  }

  /** The row that a failure ends. */
  lemma RowOfFailure(c: Config, states: seq<Sys>, events: seq<Event>, ip: string, j: nat) returns (ks: seq<nat>)
    requires |states| == |events| + 1 && j < |events| && FailsAt(events, ip, j) && ip in states[j + 1].table
    requires c.duration > 0 && Enabled(states[j], events[j]) && states[j + 1] == Next(c, states[j], events[j])
    requires NoneNegative(states[j].table) && Backed(c, states, events, ip, j)
    ensures InARow(c, states, events, ip, ks, j + 1) && |ks| == states[j + 1].table[ip].failures
    ensures LastOf(events, ip, ks) == states[j + 1].table[ip].lastFailed == events[j].now
  {
    hide Next, Enabled, InARow;
    var s, e := states[j], events[j];
    OwnFailure(c, s, e, ip);
    if ip in s.table && s.table[ip].failures > 0 && e.now - s.table[ip].lastFailed <= c.duration {
      var before :| InARow(c, states, events, ip, before, j) && |before| == s.table[ip].failures
                    && LastOf(events, ip, before) == s.table[ip].lastFailed;
      ks := before + [j];
      RowGrows(c, states, events, ip, before, j);
    } else {
      ks := [j];
      RowBegins(c, states, events, ip, j);
    }
  }

  lemma BackedAfterFailure(c: Config, states: seq<Sys>, events: seq<Event>, ip: string, j: nat)
    requires |states| == |events| + 1 && j < |events| && FailsAt(events, ip, j) && ip in states[j + 1].table
    requires c.duration > 0 && Enabled(states[j], events[j]) && states[j + 1] == Next(c, states[j], events[j])
    requires NoneNegative(states[j].table) && Backed(c, states, events, ip, j)
    ensures Backed(c, states, events, ip, j + 1)
  {
    hide Next, Enabled, InARow;
    var ks := RowOfFailure(c, states, events, ip, j);
    OwnFailure(c, states[j], events[j], ip);
    var a := states[j + 1].table[ip];
    if a.lockoutEnd.Some? && a.failures < c.maxFailures {
      var before :| InARow(c, states, events, ip, before, j) && |before| >= c.maxFailures
                    && LastOf(events, ip, before) + c.duration == a.lockoutEnd.value;
      NoFailureForgives(states[j], events[j], ip);
      RowGoesOn(c, states, events, ip, before, j);
    }
  }

  lemma NoFailureForgives(s: Sys, e: Event, ip: string)
    requires e.Record?
    ensures !Forgives(s, e, ip)
  {
  }

  lemma BackedAfterOthers(c: Config, states: seq<Sys>, events: seq<Event>, ip: string, j: nat)
    requires |states| == |events| + 1 && j < |events| && !FailsAt(events, ip, j) && ip in states[j + 1].table
    requires c.duration > 0 && Enabled(states[j], events[j]) && states[j + 1] == Next(c, states[j], events[j])
    requires Backed(c, states, events, ip, j)
    ensures Backed(c, states, events, ip, j + 1)
  {
    hide Next, Enabled, InARow, Forgives;
    if Forgives(states[j], events[j], ip) {
      ForgivenRecord(c, states[j], events[j], ip);
    } else {
      OtherEvents(c, states[j], events[j], ip);
      forall ks | InARow(c, states, events, ip, ks, j)
        ensures InARow(c, states, events, ip, ks, j + 1)
      {
        RowGoesOn(c, states, events, ip, ks, j);
      }
    }
  }

  lemma {:induction false} BackedOnRuns(c: Config, states: seq<Sys>, events: seq<Event>, ip: string, j: nat)
    requires IsRun(c, states, events) && j < |states| && c.duration > 0
    ensures Backed(c, states, events, ip, j)
  {
    hide Next, Enabled, Inv, InARow, NoneNegative;
    if j > 0 {
      BackedOnRuns(c, states, events, ip, j - 1);
      RunFacts(c, states, events, j - 1);
      if ip in states[j].table {
        if FailsAt(events, ip, j - 1) {
          BackedAfterFailure(c, states, events, ip, j - 1);
        } else {
          BackedAfterOthers(c, states, events, ip, j - 1);
        }
      }
    }
  }

  /** An address is locked out only after at least maxFailures failures in a row, and its lockout ends
      one lockout after the last of them; so that is how long a login can be refused. */
  lemma LockoutNeedsFailures(c: Config, states: seq<Sys>, events: seq<Event>, ip: string, j: nat)
    requires IsRun(c, states, events) && j < |states| && c.duration > 0
    requires ip in states[j].table && states[j].table[ip].lockoutEnd.Some?
    ensures exists ks :: InARow(c, states, events, ip, ks, j) && |ks| >= c.maxFailures
              && LastOf(events, ip, ks) + c.duration == states[j].table[ip].lockoutEnd.value
              && forall now :: Blocked(c, states[j].table, ip, now) ==> now < LastOf(events, ip, ks) + c.duration
  {
    hide InARow, IsRun;
    RunLength(c, states, events);
    BackedOnRuns(c, states, events, ip, j);
    var ks :| InARow(c, states, events, ip, ks, j) && |ks| >= c.maxFailures
              && LastOf(events, ip, ks) + c.duration == states[j].table[ip].lockoutEnd.value;
    assert forall now :: Blocked(c, states[j].table, ip, now) ==> now < LastOf(events, ip, ks) + c.duration;
  }

  lemma RunLength(c: Config, states: seq<Sys>, events: seq<Event>)
    requires IsRun(c, states, events)
    ensures |states| == |events| + 1
  {
  }

  // ---------------------------------------------------------------- forgetting

  /** A successful login wipes the record of its address, and of no other: no login is refused then, and
      the next failure is the first. */
  lemma ClearingForgets(c: Config, s: Sys, ip: string, e: Event)
    requires c.duration > 0
    ensures var cleared := Next(c, s, Clear(ip));
            && cleared.table == (map other | other in s.table && other != ip :: s.table[other])
            && (forall now :: !Blocked(c, cleared.table, ip, now))
            && (Enabled(cleared, e) && e.Record? && e.ip == ip && ip in Next(c, cleared, e).table ==>
                  Next(c, cleared, e).table[ip].failures == 1)
  {
    hide RecordAfter;
    var cleared := Next(c, s, Clear(ip));
    if Enabled(cleared, e) && e.Record? && e.ip == ip && ip in Next(c, cleared, e).table {
      FirstFailure(c, cleared, e, ip);
    }
  }

  lemma FirstFailure(c: Config, s: Sys, e: Event, ip: string)
    requires Enabled(s, e) && e.Record? && e.ip == ip && c.duration > 0 && ip !in s.table && ip in Next(c, s, e).table
    ensures Next(c, s, e).table[ip].failures == 1
  {
    hide Next, Enabled;
    OwnFailure(c, s, e, ip);
  }

  const MINUTE := 60 * 1_000_000_000

  /** The background cleanup drops a record exactly if its lockout is over or, without one, if its last
      failure is more than half an hour ago; it leaves the others as they are. */
  lemma CleanupDropsIff(c: Config, s: Sys, now: int, ip: string)
    requires Enabled(s, Clean(now)) && ip in s.table
    ensures var a, after := s.table[ip], Next(c, s, Clean(now)).table;
            && (ip !in after <==>
                  if a.lockoutEnd.Some? then a.lockoutEnd.value < now else a.lastFailed + 30 * MINUTE < now)
            && (ip in after ==> after[ip] == a)
  {
  }

  /** Without a lockout duration nothing is recorded, and nobody is refused. */
  lemma {:induction false} OffMeansOff(c: Config, states: seq<Sys>, events: seq<Event>, i: nat)
    requires IsRun(c, states, events) && i < |states| && c.duration <= 0
    ensures states[i].table == map[] && forall ip, now :: !Blocked(c, states[i].table, ip, now)
  {
    if i > 0 {
      OffMeansOff(c, states, events, i - 1);
      ClockGoesOn(c, states, events, i - 1);
    }
  }
}
