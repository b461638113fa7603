/**
 The table of failed logins: who is locked out, until when, and which record gives way when the
 table is full.

 Times are numbers of one unit, and the clock of a run never goes back. A map is visited in no
 particular order, so the order of a visit is a parameter that lists the addresses, each once.
 */
module Logins {
  import opened Wrappers

  const MAX_RECORDS := 3000

  /** Thirty minutes, in nanoseconds like every time here. */
  const STALE_RECORD_WINDOW := 30 * 60 * 1_000_000_000

  /** `duration` is how long a lockout lasts; without one the protection is off. */
  datatype Config = Config(duration: int, maxFailures: int)

  datatype Attempt = Attempt(failures: int, lastFailed: int, lockoutEnd: Option<int>)

  type Table = map<string, Attempt>

  predicate IsExpired(a: Attempt, now: int) {
    match a.lockoutEnd
    case Some(end) => now > end
    case None => now - a.lastFailed > STALE_RECORD_WINDOW
  }

  ghost predicate IsListing(order: seq<string>, table: Table) {
    && (forall ip :: ip in order <==> ip in table)
    && forall i, j :: 0 <= i < j < |order| ==> order[i] != order[j]
  }

  // ---------------------------------------------------------------- specification functions

  /** A login is refused. */
  predicate Blocked(c: Config, table: Table, ip: string, now: int) {
    c.duration > 0 && ip in table && table[ip].lockoutEnd.Some? && now < table[ip].lockoutEnd.value
  }

  function CheckAfter(c: Config, table: Table, ip: string, now: int): Table {
    if c.duration <= 0 || ip !in table || table[ip].lockoutEnd.None? || Blocked(c, table, ip, now) then table
    else table[ip := table[ip].(failures := 0, lockoutEnd := None)]
  }

  /** A record after one more failure; None is an address that had no record. */
  function Failed(c: Config, a: Option<Attempt>, now: int): Attempt {
    var before := if a.None? || now - a.value.lastFailed > c.duration then 0 else a.value.failures;
    Attempt(before + 1, now,
            if before + 1 >= c.maxFailures then Some(now + c.duration) else if a.None? then None
                else a.value.lockoutEnd)
  }

  predicate Unlocked(table: Table, ip: string, now: int) {
    ip in table && !IsExpired(table[ip], now) && table[ip].lockoutEnd.None?
  }

  predicate Locked(table: Table, ip: string, now: int) {
    ip in table && !IsExpired(table[ip], now) && table[ip].lockoutEnd.Some?
  }

  predicate AnyExpired(table: Table, now: int) {
    exists ip :: ip in table && IsExpired(table[ip], now)
  }

  /** The choice of a visit: the eligible address of the lowest rank. The empty address stands for no
      choice as well, as it does in the original. */
  function Chosen(order: seq<string>, eligible: string -> bool, rank: string -> int): string {
    if order == [] then ""
    else
      var best, ip := Chosen(order[..|order| - 1], eligible, rank), order[|order| - 1];
      if eligible(ip) && (best == "" || rank(ip) < rank(best)) then ip else best
  }

  function LastFailed(table: Table): string -> int {
    ip => if ip in table then table[ip].lastFailed else 0
  }

  function EndOfLockout(table: Table): string -> int {
    ip => if ip in table && table[ip].lockoutEnd.Some? then table[ip].lockoutEnd.value else 0
  }

  function IsUnlocked(table: Table, now: int): string -> bool {
    ip => Unlocked(table, ip, now)
  }

  function IsLocked(table: Table, now: int): string -> bool {
    ip => Locked(table, ip, now)
  }

  function OldestUnlocked(table: Table, now: int, order: seq<string>): string {
    Chosen(order, IsUnlocked(table, now), LastFailed(table))
  }

  function SoonestLockout(table: Table, now: int, order: seq<string>): string {
    Chosen(order, IsLocked(table, now), EndOfLockout(table))
  }

  function WithoutExpired(table: Table, now: int): Table {
    map ip | ip in table && !IsExpired(table[ip], now) :: table[ip]
  }

  /** The table when these addresses have been visited: of them the expired ones are gone. */
  function Swept(table: Table, now: int, visited: seq<string>): Table {
    map ip | ip in table && !(ip in visited && IsExpired(table[ip], now)) :: table[ip]
  }

  predicate Frees(table: Table, now: int, order: seq<string>) {
    AnyExpired(table, now) || OldestUnlocked(table, now, order) != "" || SoonestLockout(table, now, order) != ""
  }

  function EvictAfter(table: Table, now: int, order: seq<string>): Table {
    if AnyExpired(table, now) then WithoutExpired(table, now)
    else if OldestUnlocked(table, now, order) != "" then table - {OldestUnlocked(table, now, order)}
    else if SoonestLockout(table, now, order) != "" then table - {SoonestLockout(table, now, order)}
    else table
  }

  /** A failure is noted; the clock is read once for the eviction and again for the record. */
  function RecordAfter(c: Config, table: Table, ip: string, evictNow: int, now: int, order: seq<string>): Table {
    if c.duration <= 0 then table
    else if ip in table then table[ip := Failed(c, Some(table[ip]), now)]
    else if |table| < MAX_RECORDS then table[ip := Failed(c, None, now)]
    else if !Frees(table, evictNow, order) then table
    else EvictAfter(table, evictNow, order)[ip := Failed(c, None, now)]
  }

  function ClearAfter(c: Config, table: Table, ip: string): Table {
    if c.duration <= 0 then table else table - {ip}
  }

  lemma SweptNext(table: Table, now: int, order: seq<string>, i: nat)
    requires IsListing(order, table) && i < |order|
    ensures var ip, swept := order[i], Swept(table, now, order[..i]);
            && ip in table && ip in swept && swept[ip] == table[ip]
            && Swept(table, now, order[..i + 1]) == if IsExpired(table[ip], now) then swept - {ip} else swept
  {
    assert order[..i + 1] == order[..i] + [order[i]];
    assert order[i] in order;
  }

  lemma SweptNone(table: Table, now: int)
    ensures Swept(table, now, []) == table
  {
  }

  lemma SweptAll(table: Table, now: int, order: seq<string>)
    requires IsListing(order, table)
    ensures Swept(table, now, order) == WithoutExpired(table, now)
    ensures AnyExpired(table, now) <==>
              exists k :: 0 <= k < |order| && order[k] in table && IsExpired(table[order[k]], now)
    ensures !AnyExpired(table, now) ==> WithoutExpired(table, now) == table
  {
  }

  lemma NoChoiceYet(table: Table, now: int)
    ensures OldestUnlocked(table, now, []) == "" && SoonestLockout(table, now, []) == ""
  {
  }

  /** What one more address does to the choices of a visit. */
  lemma ChoicesNext(table: Table, now: int, order: seq<string>, i: nat)
    requires i < |order| && order[i] in table
    ensures var ip, best, next := order[i], OldestUnlocked(table, now, order[..i]),
              OldestUnlocked(table, now, order[..i + 1]);
            next == if !IsExpired(table[ip], now) && table[ip].lockoutEnd.None?
                        && (best == "" || table[ip].lastFailed < LastFailed(table)(best)) then ip else best
    ensures var ip, best, next := order[i], SoonestLockout(table, now, order[..i]),
              SoonestLockout(table, now, order[..i + 1]);
            next == if !IsExpired(table[ip], now) && table[ip].lockoutEnd.Some?
                        && (best == "" || table[ip].lockoutEnd.value < EndOfLockout(table)(best)) then ip else best
  {
    assert order[..i + 1][..i] == order[..i];
  }

  // ---------------------------------------------------------------- the code

  class LoginGuard {
    const config: Config
    var attempts: Table

    constructor (config: Config)
      ensures this.config == config && attempts == map[]
    {
      this.config, attempts := config, map[];
    }

    method CheckLoginAttempt(ip: string, now: int) returns (locked: bool)
      modifies this
      ensures locked <==> Blocked(config, old(attempts), ip, now)
      ensures attempts == CheckAfter(config, old(attempts), ip, now)
    {
      if config.duration <= 0 {
        return false;
      }
      if ip in attempts {
        var attempt := attempts[ip];
        if attempt.lockoutEnd.Some? && now < attempt.lockoutEnd.value {
          return true;
        }
        if attempt.lockoutEnd.Some? {
          attempts := attempts[ip := attempt.(failures := 0, lockoutEnd := None)];
        }
      }
      return false;
    }

    method RecordLoginFailure(ip: string, evictNow: int, now: int, order: seq<string>) returns (tracked: bool)
      requires IsListing(order, attempts)
      modifies this
      ensures attempts == RecordAfter(config, old(attempts), ip, evictNow, now, order)
      ensures tracked <==>
                config.duration > 0
                && (ip in old(attempts) || |old(attempts)| < MAX_RECORDS || Frees(old(attempts), evictNow, order))
    {
      if config.duration <= 0 {
        return false;
      }
      var attempt: Option<Attempt> := None;
      if ip !in attempts {
        if |attempts| >= MAX_RECORDS {
          var freed := EvictOneRecord(evictNow, order);
          if !freed {
            return false;
          }
        }
      } else {
        attempt := Some(attempts[ip]);
      }
      var failures, lockoutEnd := 0, None;
      if attempt.Some? {
        failures, lockoutEnd := attempt.value.failures, attempt.value.lockoutEnd;
        if now - attempt.value.lastFailed > config.duration {
          failures := 0;
        }
      }
      failures := failures + 1;
      if failures >= config.maxFailures {
        lockoutEnd := Some(now + config.duration);
      }
      attempts := attempts[ip := Attempt(failures, now, lockoutEnd)];
      return true;
    }

    method EvictOneRecord(now: int, order: seq<string>) returns (freed: bool)
      requires IsListing(order, attempts)
      modifies this
      ensures attempts == EvictAfter(old(attempts), now, order)
      ensures freed <==> Frees(old(attempts), now, order)
    {
      hide Swept, OldestUnlocked, SoonestLockout, IsExpired, IsListing, AnyExpired;
      ghost var before := attempts;
      var oldestUnlockedIP, soonestLockoutIP := "", "";
      var oldestUnlocked, soonestLockout := 0, 0;
      var reclaimed := false;
      assert order[..0] == [];
      SweptNone(before, now);
      NoChoiceYet(before, now);
      for i := 0 to |order|
        invariant attempts == Swept(before, now, order[..i])
        invariant reclaimed <==> exists k :: 0 <= k < i && order[k] in before && IsExpired(before[order[k]], now)
        invariant oldestUnlockedIP == OldestUnlocked(before, now, order[..i])
        invariant soonestLockoutIP == SoonestLockout(before, now, order[..i])
        invariant oldestUnlockedIP != "" ==> LastFailed(before)(oldestUnlockedIP) == oldestUnlocked
        invariant soonestLockoutIP != "" ==> EndOfLockout(before)(soonestLockoutIP) == soonestLockout
      {
        var ip := order[i];
        SweptNext(before, now, order, i);
        ChoicesNext(before, now, order, i);
        var attempt := attempts[ip];
        if IsExpired(attempt, now) {
          attempts := attempts - {ip};
          reclaimed := true;
          continue;
        }
        if attempt.lockoutEnd.None? {
          if oldestUnlockedIP == "" || attempt.lastFailed < oldestUnlocked {
            oldestUnlockedIP := ip;
            oldestUnlocked := attempt.lastFailed;
          }
          continue;
        }
        if soonestLockoutIP == "" || attempt.lockoutEnd.value < soonestLockout {
          soonestLockoutIP := ip;
          soonestLockout := attempt.lockoutEnd.value;
        }
      }
      assert order[..|order|] == order;
      SweptAll(before, now, order);
      if reclaimed {
        return true;
      }
      if oldestUnlockedIP != "" {
        attempts := attempts - {oldestUnlockedIP};
        return true;
      }
      if soonestLockoutIP != "" {
        attempts := attempts - {soonestLockoutIP};
        return true;
      }
      return false;
    }

    /** One round of the background cleanup. */
    method Cleanup(now: int, order: seq<string>)
      requires IsListing(order, attempts)
      modifies this
      ensures attempts == WithoutExpired(old(attempts), now)
    {
      hide Swept, IsExpired, IsListing;
      ghost var before := attempts;
      assert order[..0] == [];
      SweptNone(before, now);
      for i := 0 to |order|
        invariant attempts == Swept(before, now, order[..i])
      {
        SweptNext(before, now, order, i);
        if IsExpired(attempts[order[i]], now) {
          attempts := attempts - {order[i]};
        }
      }
      assert order[..|order|] == order;
      SweptAll(before, now, order);
    }

    method ClearLoginAttempt(ip: string)
      modifies this
      ensures attempts == ClearAfter(config, old(attempts), ip)
    {
      if config.duration <= 0 {
        return;
      }
      attempts := attempts - {ip};
    }
  }
}
