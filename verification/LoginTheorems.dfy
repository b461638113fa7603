/** What holds of the login table: who gives way, and that a lockout lasts. */
module LoginTheorems {
  import opened Wrappers
  import opened Logins

  // ---------------------------------------------------------------- who gives way

  /** Without an eligible empty address the choice is the eligible address of the lowest rank. */
  lemma {:induction false} ChosenIsLowest(order: seq<string>, eligible: string -> bool, rank: string -> int)
    requires "" !in order || !eligible("")
    ensures var best := Chosen(order, eligible, rank);
            && (best == "" <==> forall ip :: ip in order ==> !eligible(ip))
            && (best != "" ==> best in order && eligible(best) && forall ip :: ip in order && eligible(ip) ==>
                rank(best) <= rank(ip))
  {
    if order != [] {
      var init, last := order[..|order| - 1], order[|order| - 1];
      assert order == init + [last];
      ChosenIsLowest(init, eligible, rank);
    }
  }

  /** An eligible address that ranks no higher than the empty one keeps the empty one out. */
  lemma {:induction false} ChosenNotEmpty(order: seq<string>, eligible: string -> bool, rank: string -> int, ip: string)
    requires ip in order && ip != "" && eligible(ip) && rank(ip) <= rank("")
    ensures Chosen(order, eligible, rank) != "" && rank(Chosen(order, eligible, rank)) <= rank(ip)
  {
    var init, last := order[..|order| - 1], order[|order| - 1];
    assert order == init + [last];
    if ip in init {
      ChosenNotEmpty(init, eligible, rank, ip);
    }
  }

  /** An empty address that is visited last and ranks lowest is chosen, which looks like no choice. */
  lemma ChosenEmpty(order: seq<string>, eligible: string -> bool, rank: string -> int)
    requires "" !in order && eligible("") && forall ip :: ip in order ==> eligible(ip) && rank("") < rank(ip)
    ensures Chosen(order + [""], eligible, rank) == ""
  {
    assert (order + [""])[..|order|] == order;
    ChosenIsLowest(order, eligible, rank);
  }

  lemma {:induction false} ChosenNone(order: seq<string>, eligible: string -> bool, rank: string -> int)
    requires forall ip :: ip in order ==> !eligible(ip)
    ensures Chosen(order, eligible, rank) == ""
  {
    if order != [] {
      ChosenNone(order[..|order| - 1], eligible, rank);
    }
  }

  predicate AnyUnlocked(table: Table, now: int) {
    exists ip :: ip in table && Unlocked(table, ip, now)
  }

  /** Why a record may be given up: it has expired; or none has, and it only counts failures and has
      done so for the longest time; or none does that either, and its lockout ends first. */
  ghost predicate MayGo(table: Table, now: int, ip: string)
    requires ip in table
  {
    if AnyExpired(table, now) then IsExpired(table[ip], now)
    else if AnyUnlocked(table, now) then
      Unlocked(table, ip, now) && forall other :: other in table && Unlocked(table, other, now) ==>
          table[ip].lastFailed <= table[other].lastFailed
    else
      Locked(table, ip, now)
      && forall other :: other in table && Locked(table, other, now) ==>
          table[ip].lockoutEnd.value <= table[other].lockoutEnd.value
  }

  /** Among non-empty addresses eviction always frees a slot; it keeps every record as it is that it
      does not give up, and gives up only what may go. */
  lemma EvictionOrder(table: Table, now: int, order: seq<string>)
    requires IsListing(order, table) && table != map[] && "" !in table
    ensures Frees(table, now, order)
    ensures EvictAfter(table, now, order).Keys < table.Keys
    ensures forall ip :: ip in EvictAfter(table, now, order) ==> EvictAfter(table, now, order)[ip] == table[ip]
    ensures forall ip :: ip in table && ip !in EvictAfter(table, now, order) ==> MayGo(table, now, ip)
    ensures !AnyExpired(table, now) ==> exists ip :: ip in table && EvictAfter(table, now, order) == table - {ip}
  {
    hide Chosen, IsExpired;
    ChosenIsLowest(order, IsUnlocked(table, now), LastFailed(table));
    ChosenIsLowest(order, IsLocked(table, now), EndOfLockout(table));
    var some :| some in table;
    assert some in order;
    if AnyExpired(table, now) {
      var stale :| stale in table && IsExpired(table[stale], now);
      assert stale !in EvictAfter(table, now, order);
    } else {
      assert IsUnlocked(table, now)(some) || IsLocked(table, now)(some);
    }
  }

  /** The empty address comes first and everything else is of its kind. */
  ghost predicate EmptyAddressFirst(table: Table, now: int) {
    && "" in table && !AnyExpired(table, now)
    && if Unlocked(table, "", now)
       then forall ip :: ip in table && ip != "" ==>
           Unlocked(table, ip, now) && table[""].lastFailed < table[ip].lastFailed
       else forall ip :: ip in table && ip != "" ==>
           Locked(table, ip, now) && EndOfLockout(table)("") < EndOfLockout(table)(ip)
  }

  ghost predicate FreesInEveryOrder(table: Table, now: int) {
    forall order :: IsListing(order, table) ==> Frees(table, now, order)
  }

  lemma {:induction false} ListingExists(keys: set<string>) returns (order: seq<string>)
    ensures (forall ip :: ip in order <==> ip in keys) && forall i, j :: 0 <= i < j < |order| ==> order[i] != order[j]
    decreases |keys|
  {
    if keys == {} {
      order := [];
    } else {
      var ip :| ip in keys;
      var rest := ListingExists(keys - {ip});
      order := rest + [ip];
    }
  }

  lemma FreesUnlessEmptyFirst(table: Table, now: int, order: seq<string>)
    requires table != map[] && IsListing(order, table) && !EmptyAddressFirst(table, now)
    ensures Frees(table, now, order)
  {
    hide Chosen, IsExpired, LastFailed, EndOfLockout, AnyExpired;
    if "" !in table {
      EvictionOrder(table, now, order);
    } else if !AnyExpired(table, now) {
      NotExpired(table, now);
      if Unlocked(table, "", now) {
        if ip :| ip in table && ip != "" && Locked(table, ip, now) {
          ChosenIsLowest(order, IsLocked(table, now), EndOfLockout(table));
        } else {
          LastFailedIs(table);
          var ip :| ip in table && ip != "" && table[ip].lastFailed <= table[""].lastFailed;
          ChosenNotEmpty(order, IsUnlocked(table, now), LastFailed(table), ip);
        }
      } else {
        if ip :| ip in table && ip != "" && Unlocked(table, ip, now) {
          ChosenIsLowest(order, IsUnlocked(table, now), LastFailed(table));
        } else {
          var ip :| ip in table && ip != "" && EndOfLockout(table)(ip) <= EndOfLockout(table)("");
          ChosenNotEmpty(order, IsLocked(table, now), EndOfLockout(table), ip);
        }
      }
    }
  }

  lemma NotExpired(table: Table, now: int)
    requires !AnyExpired(table, now)
    ensures forall ip :: ip in table ==> Unlocked(table, ip, now) || Locked(table, ip, now)
  {
  }

  lemma LastFailedIs(table: Table)
    ensures forall ip :: ip in table ==> LastFailed(table)(ip) == table[ip].lastFailed
  {
  }

  lemma EmptyFirstFails(table: Table, now: int) returns (order: seq<string>)
    requires EmptyAddressFirst(table, now)
    ensures IsListing(order, table) && !Frees(table, now, order)
  {
    hide Chosen, IsExpired, LastFailed, EndOfLockout, AnyExpired;
    var rest := ListingExists(table.Keys - {""});
    order := rest + [""];
    NotExpired(table, now);
    LastFailedIs(table);
    if Unlocked(table, "", now) {
      ChosenEmpty(rest, IsUnlocked(table, now), LastFailed(table));
      ChosenNone(order, IsLocked(table, now), EndOfLockout(table));
    } else {
      ChosenEmpty(rest, IsLocked(table, now), EndOfLockout(table));
      ChosenNone(order, IsUnlocked(table, now), LastFailed(table));
    }
  }

  /** Eviction frees a slot in whichever order it visits the table, unless the empty address has a
      record there that ranks strictly first and every other record is of the same kind. */
  lemma EvictionFreesIff(table: Table, now: int)
    requires table != map[]
    ensures FreesInEveryOrder(table, now) <==> !EmptyAddressFirst(table, now)
  {
    hide EmptyAddressFirst, Frees, IsListing;
    if EmptyAddressFirst(table, now) {
      var order := EmptyFirstFails(table, now);
    } else {
      forall order | IsListing(order, table)
        ensures Frees(table, now, order)
      {
        FreesUnlessEmptyFirst(table, now, order);
      }
    }
  }

  // ---------------------------------------------------------------- runs

  datatype Event =
    | Check(ip: string, now: int)
    | Record(ip: string, evictNow: int, now: int, order: seq<string>)
    | Clear(ip: string)
    | Clean(now: int)

  datatype Sys = Sys(table: Table, clock: int)

  /** The clock does not go back, and a visit lists the table. */
  ghost predicate Enabled(s: Sys, e: Event) {
    match e
    case Check(_, now) => s.clock <= now
    case Record(_, evictNow, now, order) => s.clock <= evictNow <= now && IsListing(order, s.table)
    case Clear(_) => true
    case Clean(now) => s.clock <= now
  }

  ghost function Next(c: Config, s: Sys, e: Event): Sys
    requires Enabled(s, e)
  {
    match e
    case Check(ip, now) => Sys(CheckAfter(c, s.table, ip, now), now)
    case Record(ip, evictNow, now, order) => Sys(RecordAfter(c, s.table, ip, evictNow, now, order), now)
    case Clear(ip) => Sys(ClearAfter(c, s.table, ip), s.clock)
    case Clean(now) => Sys(WithoutExpired(s.table, now), now)
  }

  ghost predicate IsRun(c: Config, states: seq<Sys>, events: seq<Event>) {
    && |states| == |events| + 1 && states[0].table == map[]
    && forall i :: 0 <= i < |events| ==> Enabled(states[i], events[i]) && states[i + 1] == Next(c, states[i], events[i])
  }

  /** A record failed in the past, and its lockout ends one lockout after a failure at the latest. */
  predicate RecordOk(c: Config, clock: int, a: Attempt) {
    a.lastFailed <= clock && (a.lockoutEnd.Some? ==> a.lockoutEnd.value <= a.lastFailed + c.duration)
  }

  ghost predicate Inv(c: Config, s: Sys) {
    |s.table| <= MAX_RECORDS && forall ip :: ip in s.table ==> RecordOk(c, s.clock, s.table[ip])
  }

  lemma FewerKeys(small: Table, big: Table)
    requires small.Keys <= big.Keys
    ensures |small| <= |big| && (small.Keys < big.Keys ==> |small| < |big|)
  {
    assert |big.Keys - small.Keys| == |big.Keys| - |small.Keys|;
    if small.Keys < big.Keys {
      var ip :| ip in big.Keys - small.Keys;
    }
  }

  lemma OneMore(table: Table, ip: string, a: Attempt)
    ensures |table[ip := a]| <= |table| + 1 && (ip in table ==> |table[ip := a]| == |table|)
  {
    assert table[ip := a].Keys == table.Keys + {ip};
    if ip in table {
      assert table[ip := a].Keys == table.Keys;
    } else {
      assert |table.Keys + {ip}| == |table.Keys| + 1;
    }
  }

  lemma EvictSmaller(table: Table, now: int, order: seq<string>)
    requires IsListing(order, table) && Frees(table, now, order)
    ensures |EvictAfter(table, now, order)| < |table|
    ensures forall ip :: ip in EvictAfter(table, now, order) ==>
              ip in table && EvictAfter(table, now, order)[ip] == table[ip]
  {
    hide IsExpired;
    ChosenAmong(order, IsUnlocked(table, now), LastFailed(table));
    ChosenAmong(order, IsLocked(table, now), EndOfLockout(table));
    hide Chosen;
    FewerKeys(EvictAfter(table, now, order), table);
    if AnyExpired(table, now) {
      var stale :| stale in table && IsExpired(table[stale], now);
      assert stale !in EvictAfter(table, now, order);
    }
  }

  lemma {:induction false} ChosenAmong(order: seq<string>, eligible: string -> bool, rank: string -> int)
    ensures var best := Chosen(order, eligible, rank); best != "" ==> best in order && eligible(best)
  {
    if order != [] {
      var init, last := order[..|order| - 1], order[|order| - 1];
      assert order == init + [last];
      ChosenAmong(init, eligible, rank);
    }
  }

  lemma RecordKeeps(c: Config, s: Sys, ip: string, evictNow: int, now: int, order: seq<string>)
    requires Inv(c, s) && Enabled(s, Record(ip, evictNow, now, order))
    ensures Inv(c, Next(c, s, Record(ip, evictNow, now, order)))
  {
    hide Frees, EvictAfter, IsListing;
    if c.duration > 0 {
      if ip in s.table {
        OneMore(s.table, ip, Failed(c, Some(s.table[ip]), now));
      } else if |s.table| < MAX_RECORDS {
        OneMore(s.table, ip, Failed(c, None, now));
      } else if Frees(s.table, evictNow, order) {
        EvictSmaller(s.table, evictNow, order);
        OneMore(EvictAfter(s.table, evictNow, order), ip, Failed(c, None, now));
      }
    }
  }

  lemma InvKept(c: Config, s: Sys, e: Event)
    requires Inv(c, s) && Enabled(s, e)
    ensures Inv(c, Next(c, s, e))
  {
    match e
    case Check(ip, now) =>
      if ip in s.table { OneMore(s.table, ip, s.table[ip].(failures := 0, lockoutEnd := None)); }
    case Record(ip, evictNow, now, order) => RecordKeeps(c, s, ip, evictNow, now, order);
    case Clear(ip) => FewerKeys(ClearAfter(c, s.table, ip), s.table);
    case Clean(now) => FewerKeys(WithoutExpired(s.table, now), s.table);
  }

  lemma {:induction false} InvOnRuns(c: Config, states: seq<Sys>, events: seq<Event>, i: nat)
    requires IsRun(c, states, events) && i < |states|
    ensures Inv(c, states[i])
  {
    if i > 0 {
      InvOnRuns(c, states, events, i - 1);
      InvKept(c, states[i - 1], events[i - 1]);
    }
  }

  /** The table never outgrows its limit. */
  lemma TableStaysSmall(c: Config, states: seq<Sys>, events: seq<Event>, i: nat)
    requires IsRun(c, states, events) && i < |states|
    ensures |states[i].table| <= MAX_RECORDS
  {
    InvOnRuns(c, states, events, i);
  }

  lemma RecordsTheirOwn(c: Config, s: Sys, e: Event)
    requires Enabled(s, e) && "" !in s.table && (e.Record? ==> e.ip != "")
    ensures "" !in Next(c, s, e).table
  {
    hide IsListing, Chosen, IsExpired, AnyExpired, Frees, EvictAfter, Failed, WithoutExpired;
    match e
    case Record(_, evictNow, _, order) =>
      if Frees(s.table, evictNow, order) {
        EvictSmaller(s.table, evictNow, order);
      }
    case Clean(now) => NoneAdded(s.table, now);
    case _ =>
  }

  lemma NoneAdded(table: Table, now: int)
    ensures WithoutExpired(table, now).Keys <= table.Keys
  {
  }

  lemma {:induction false} EmptyNeverRecorded(c: Config, states: seq<Sys>, events: seq<Event>, i: nat)
    requires IsRun(c, states, events) && i < |states|
    requires forall k :: 0 <= k < |events| && events[k].Record? ==> events[k].ip != ""
    ensures "" !in states[i].table
  {
    hide Next, Enabled;
    if i > 0 {
      EmptyNeverRecorded(c, states, events, i - 1);
      ClockGoesOn(c, states, events, i - 1);
      RecordsTheirOwn(c, states[i - 1], events[i - 1]);
    }
  }

  /** Every failure of every address is tracked, as long as no address is empty. */
  lemma EveryFailureIsTracked(c: Config, states: seq<Sys>, events: seq<Event>, i: nat)
    requires IsRun(c, states, events) && i < |events| && c.duration > 0 && events[i].Record?
    requires forall k :: 0 <= k < |events| && events[k].Record? ==> events[k].ip != ""
    ensures events[i].ip in states[i + 1].table && states[i + 1].table[events[i].ip].lastFailed == events[i].now
  {
    EmptyNeverRecorded(c, states, events, i);
    var s, e := states[i], events[i];
    if e.ip !in s.table && |s.table| >= MAX_RECORDS {
      EvictionOrder(s.table, e.evictNow, e.order);
    }
    assert states[i + 1] == Next(c, s, e);
  }

  // ---------------------------------------------------------------- the empty address, full table

  /** The addresses "", "a", "aa" and so on. */
  function Name(k: nat): string {
    seq(k, _ => 'a')
  }

  lemma NamesDiffer(j: nat, k: nat)
    ensures Name(j) == Name(k) <==> j == k
  {
    assert |Name(j)| == j && |Name(k)| == k;
  }

  /** The table after each of the first n names has failed once, the k-th at time k. */
  function Filled(n: nat): Table {
    if n == 0 then map[] else Filled(n - 1)[Name(n - 1) := Attempt(1, n - 1, None)]
  }

  lemma {:induction false} FilledIs(n: nat)
    ensures forall ip :: ip in Filled(n) <==> |ip| < n && ip == Name(|ip|)
    ensures forall ip :: ip in Filled(n) ==> Filled(n)[ip] == Attempt(1, |ip|, None)
  {
    if n > 0 {
      FilledIs(n - 1);
      assert |Name(n - 1)| == n - 1;
    }
  }

  lemma FilledNext(n: nat)
    ensures Filled(n + 1) == Filled(n)[Name(n) := Attempt(1, n, None)] && Name(n) !in Filled(n)
  {
    FilledIs(n);
    assert |Name(n)| == n;
  }

  lemma {:induction false} FilledSize(n: nat)
    ensures |Filled(n)| == n
  {
    if n > 0 {
      FilledSize(n - 1);
      FilledNext(n - 1);
      AddedKey(Filled(n - 1), Name(n - 1), Attempt(1, n - 1, None));
    }
  }

  lemma AddedKey(table: Table, ip: string, a: Attempt)
    requires ip !in table
    ensures |table[ip := a]| == |table| + 1
  {
    assert table[ip := a].Keys == table.Keys + {ip};
  }

  /** A visit that comes to the empty address last. */
  function EmptyLast(n: nat): seq<string> {
    if n == 0 then [] else seq(n - 1, k requires 0 <= k < n - 1 => Name(k + 1)) + [""]
  }

  lemma EmptyLastAt(n: nat, i: nat)
    requires i < n
    ensures |EmptyLast(n)| == n && EmptyLast(n)[i] == Name(if i == n - 1 then 0 else i + 1)
  {
  }

  lemma EmptyLastLists(n: nat)
    ensures |EmptyLast(n)| == n && IsListing(EmptyLast(n), Filled(n))
  {
    hide EmptyLast, Filled;
    if n == 0 {
      NoNames();
    } else {
      EmptyLastAt(n, 0);
      forall i, j | 0 <= i < j < n
        ensures EmptyLast(n)[i] != EmptyLast(n)[j]
      {
        EmptyLastAt(n, i);
        EmptyLastAt(n, j);
        NamesDiffer(if i == n - 1 then 0 else i + 1, if j == n - 1 then 0 else j + 1);
      }
      forall ip
        ensures ip in EmptyLast(n) <==> ip in Filled(n)
      {
        EmptyLastCovers(n, ip);
      }
    }
  }

  lemma NoNames()
    ensures EmptyLast(0) == [] && Filled(0) == map[]
  {
  }

  lemma EmptyLastCovers(n: nat, ip: string)
    requires n > 0
    ensures ip in EmptyLast(n) <==> ip in Filled(n)
  {
    hide EmptyLast, Filled;
    EmptyLastAt(n, 0);
    FilledIs(n);
    if ip in Filled(n) {
      EmptyLastAt(n, if |ip| == 0 then n - 1 else |ip| - 1);
    }
    if ip in EmptyLast(n) {
      var i :| 0 <= i < n && EmptyLast(n)[i] == ip;
      EmptyLastAt(n, i);
      assert |Name(if i == n - 1 then 0 else i + 1)| == if i == n - 1 then 0 else i + 1;
    }
  }

  /** Every name fails once, at its time; the last of these events finds the table full. */
  function Filling(i: nat): Event {
    Record(Name(i), i, i, EmptyLast(i))
  }

  function FillingState(i: nat): Sys {
    Sys(Filled(if i <= MAX_RECORDS then i else MAX_RECORDS), if i == 0 then 0 else i - 1)
  }

  lemma FillingStep(c: Config, i: nat)
    requires i < MAX_RECORDS && c.duration > 0 && c.maxFailures > 1
    ensures Enabled(FillingState(i), Filling(i)) && Next(c, FillingState(i), Filling(i)) == FillingState(i + 1)
  {
    hide Filled, EmptyLast, Frees;
    EmptyLastLists(i);
    FilledNext(i);
    FilledSize(i);
  }

  lemma FullStep(c: Config)
    requires c.duration > 0
    ensures Enabled(FillingState(MAX_RECORDS), Filling(MAX_RECORDS))
    ensures Next(c, FillingState(MAX_RECORDS), Filling(MAX_RECORDS)) == FillingState(MAX_RECORDS + 1)
  {
    hide Filled, EmptyLast, Frees;
    var n := MAX_RECORDS;
    EmptyLastLists(n);
    FilledNext(n);
    FilledSize(n);
    FullIsStuck(n);
  }

  lemma AllUnlocked(n: nat, now: int)
    requires n <= now <= MAX_RECORDS
    ensures forall ip :: ip in Filled(n) ==> Unlocked(Filled(n), ip, now) && LastFailed(Filled(n))(ip) == |ip|
  {
    hide Filled;
    FilledIs(n);
  }

  lemma EmptyIsLast(n: nat)
    requires n > 0
    ensures |EmptyLast(n)| == n
    ensures var order := EmptyLast(n); order == order[..n - 1] + [""] && "" !in order[..n - 1]
  {
    var order := EmptyLast(n);
    forall k | 0 <= k < n - 1
      ensures order[k] != ""
    {
      assert order[k] == Name(k + 1);
    }
  }

  lemma FullIsStuck(n: nat)
    requires 0 < n <= MAX_RECORDS
    ensures !Frees(Filled(n), n, EmptyLast(n))
  {
    hide Chosen, Filled, EmptyLast, Unlocked, LastFailed;
    var table, order := Filled(n), EmptyLast(n);
    EmptyLastLists(n);
    EmptyIsLast(n);
    AllUnlocked(n, n);
    var rest := order[..n - 1];
    assert "" in table;
    forall ip | ip in rest
      ensures Unlocked(table, ip, n) && LastFailed(table)("") < LastFailed(table)(ip)
    {
      assert ip in order;
    }
    ChosenEmpty(rest, IsUnlocked(table, n), LastFailed(table));
    NoneLocked(table, n);
    ChosenNone(order, IsLocked(table, n), EndOfLockout(table));
  }

  lemma NoneLocked(table: Table, now: int)
    requires forall ip :: ip in table ==> Unlocked(table, ip, now)
    ensures forall ip :: !Locked(table, ip, now)
    ensures !AnyExpired(table, now)
  {
  }

  /** A run from the empty table at whose end the table is full and a failure of a new address is
      not tracked: the empty address failed first, then all the others, and the visit of the table
      comes to the empty address last. */
  lemma EmptyAddressStopsTracking(c: Config)
    requires c.duration > 0 && c.maxFailures > 1
    ensures exists states: seq<Sys>, events: seq<Event> ::
              && IsRun(c, states, events) && |events| > 0
              && var s, e := states[|events| - 1], events[|events| - 1];
                 |s.table| == MAX_RECORDS && e.Record? && e.ip != "" && e.ip !in s.table
                 && states[|events|].table == s.table
  {
    hide Filled, EmptyLast, Next, Enabled, Filling, FillingState;
    var n := MAX_RECORDS;
    var states, events := seq(n + 2, i requires 0 <= i < n + 2 => FillingState(i)),
        seq(n + 1, i requires 0 <= i < n + 1 => Filling(i));
    forall i | 0 <= i < |events|
      ensures Enabled(states[i], events[i]) && states[i + 1] == Next(c, states[i], events[i])
    {
      if i < n {
        FillingStep(c, i);
      } else {
        FullStep(c);
      }
    }
    StartsEmpty();
    assert IsRun(c, states, events);
    EndsFull();
    assert states[|events| - 1] == FillingState(n) && states[|events|] == FillingState(n + 1)
        && events[|events| - 1] == Filling(n);
  }

  lemma StartsEmpty()
    ensures FillingState(0).table == map[]
  {
    FilledIs(0);
  }

  lemma EndsFull()
    ensures var s, e := FillingState(MAX_RECORDS), Filling(MAX_RECORDS);
            |s.table| == MAX_RECORDS && e.Record? && e.ip != "" && e.ip !in s.table
            && FillingState(MAX_RECORDS + 1).table == s.table
  {
    FilledSize(MAX_RECORDS);
    FilledNext(MAX_RECORDS);
    NamesDiffer(MAX_RECORDS, 0);
  }

  // ---------------------------------------------------------------- lockouts last

  function EndAt(table: Table, ip: string): int
    requires ip in table && table[ip].lockoutEnd.Some?
  {
    table[ip].lockoutEnd.value
  }

  predicate LockedUntil(table: Table, ip: string, end: int) {
    ip in table && table[ip].lockoutEnd.Some? && table[ip].lockoutEnd.value >= end
  }

  /** The only ways in which a lockout can be lost before its end. */
  ghost predicate GivesUp(s: Sys, e: Event, ip: string)
    requires ip in s.table
  {
    match e
    case Clear(cleared) => cleared == ip
    case Record(other, evictNow, _, _) =>
      other != ip && other !in s.table && |s.table| >= MAX_RECORDS && ("" !in s.table ==> MayGo(s.table, evictNow, ip))
    case _ => false
  }

  lemma LockoutKept(c: Config, s: Sys, e: Event, ip: string, end: int)
    requires Inv(c, s) && Enabled(s, e) && LockedUntil(s.table, ip, end) && Next(c, s, e).clock < end
    ensures LockedUntil(Next(c, s, e).table, ip, end) || (ip !in Next(c, s, e).table && GivesUp(s, e, ip))
  {
    hide Frees, EvictAfter, IsListing, MayGo;
    match e
    case Record(other, evictNow, now, order) =>
      if other == ip {
        assert RecordOk(c, s.clock, s.table[ip]);
      } else if c.duration > 0 && other !in s.table && |s.table| >= MAX_RECORDS && Frees(s.table, evictNow, order) {
        EvictSmaller(s.table, evictNow, order);
        if "" !in s.table {
          EvictionOrder(s.table, evictNow, order);
        }
      }
    case _ =>
  }

  /** A lockout holds until its end, in every run, unless it is given up: cleared, or evicted from a
      full table. It blocks all the while, and no later failure brings its end forward. */
  lemma {:induction false} LockoutHolds(c: Config, states: seq<Sys>, events: seq<Event>, ip: string, i: nat, j: nat,
      end: int)
    requires IsRun(c, states, events) && i <= j < |states| && c.duration > 0
    requires LockedUntil(states[i].table, ip, end) && states[j].clock < end
    requires forall k :: i <= k < j && ip in states[k].table ==> !GivesUp(states[k], events[k], ip)
    ensures LockedUntil(states[j].table, ip, end)
    ensures forall now :: now < end ==> Blocked(c, states[j].table, ip, now)
    decreases j
  {
    hide GivesUp, Inv, Next, Enabled;
    if i < j {
      ClockGoesOn(c, states, events, j - 1);
      LockoutHolds(c, states, events, ip, i, j - 1, end);
      InvOnRuns(c, states, events, j - 1);
      LockoutKept(c, states[j - 1], events[j - 1], ip, end);
    }
  }

  lemma ClockGoesOn(c: Config, states: seq<Sys>, events: seq<Event>, i: nat)
    requires IsRun(c, states, events) && i < |events|
    ensures states[i].clock <= states[i + 1].clock && Enabled(states[i], events[i])
              && states[i + 1] == Next(c, states[i], events[i])
  {
  }

  /** Among non-empty addresses a live lockout is evicted only when no record has expired and none
      merely counts failures, and then it is one of those that end first. */
  lemma LiveLockoutsGoLast(c: Config, s: Sys, e: Event, ip: string)
    requires Enabled(s, e) && e.Record? && "" !in s.table && ip in s.table && Locked(s.table, ip, e.evictNow)
    requires ip !in Next(c, s, e).table
    ensures !AnyExpired(s.table, e.evictNow) && !AnyUnlocked(s.table, e.evictNow)
    ensures forall other :: other in s.table ==>
              s.table[other].lockoutEnd.Some? && EndAt(s.table, ip) <= EndAt(s.table, other)
  {
    EvictionOrder(s.table, e.evictNow, e.order);
    NotExpired(s.table, e.evictNow);
  }
}
