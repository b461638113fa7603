/**
 The capture-status mailbox of the websocket hub: one pending status per capture mode, a one-place
 notify channel, and a runner that takes everything pending and broadcasts it in mode order.

 The class runs the critical sections on mutable fields. In the step system a status is named by
 its position in `enqueued`, the history of all statuses ever enqueued; `broadcasts` is the history
 of all statuses ever sent.
 */
module CaptureStatus {
  // ---------------------------------------------------------------- sorted modes

  predicate Before(a: string, b: string) {
    b != "" && (a == "" || a[0] < b[0] || (a[0] == b[0] && Before(a[1..], b[1..])))
  }

  lemma {:induction false} BeforeIsTotal(a: string, b: string)
    ensures a == b || Before(a, b) || Before(b, a)
    ensures !(Before(a, b) && Before(b, a)) && !Before(a, a)
  {
    if a != "" {
      BeforeIsTotal(a[1..], a[1..]);
    }
    if a != "" && b != "" && a[0] == b[0] {
      BeforeIsTotal(a[1..], b[1..]);
      assert a == [a[0]] + a[1..] && b == [b[0]] + b[1..];
    }
  }

  lemma {:induction false} BeforeIsTransitive(a: string, b: string, c: string)
    requires Before(a, b) && Before(b, c)
    ensures Before(a, c)
  {
    if a != "" && a[0] == b[0] == c[0] {
      BeforeIsTransitive(a[1..], b[1..], c[1..]);
    }
  }

  ghost predicate Sorted(modes: seq<string>) {
    forall i, j :: 0 <= i < j < |modes| ==> Before(modes[i], modes[j])
  }

  /** modes lists the keys of the mailbox, each once, in order. */
  ghost predicate IsListing(modes: seq<string>, keys: set<string>) {
    Sorted(modes) && (forall m :: m in modes <==> m in keys)
  }

  /** There is only one such list, so the order of a broadcast round is determined. */
  lemma {:induction false} ListingIsUnique(a: seq<string>, b: seq<string>, keys: set<string>)
    requires IsListing(a, keys) && IsListing(b, keys)
    ensures a == b
  {
    assert b != [] ==> b[0] in a;
    if a != [] {
      assert a[0] in b;
      var i, j :| 0 <= i < |b| && b[i] == a[0] && 0 <= j < |a| && a[j] == b[0];
      BeforeIsTotal(a[0], b[0]);
      assert a[0] == b[0];
      var rest := keys - {a[0]};
      forall k | 0 < k < |a| ensures a[k] != a[0] { BeforeIsTotal(a[k], a[0]); }
      forall k | 0 < k < |b| ensures b[k] != b[0] { BeforeIsTotal(b[k], b[0]); }
      assert a == [a[0]] + a[1..] && b == [b[0]] + b[1..];
      assert forall m :: m in a <==> m == a[0] || m in a[1..];
      assert forall m :: m in b <==> m == b[0] || m in b[1..];
      ListingIsUnique(a[1..], b[1..], rest);
    }
  }

  /** Puts a new mode at its place in a sorted list. */
  method Insert(modes: seq<string>, mode: string) returns (longer: seq<string>)
    requires Sorted(modes) && mode !in modes
    ensures Sorted(longer) && forall m :: m in longer <==> m == mode || m in modes
  {
    var i := 0;
    while i < |modes| && Before(modes[i], mode)
      invariant i <= |modes|
      invariant forall k :: 0 <= k < i ==> Before(modes[k], mode)
    {
      i := i + 1;
    }
    longer := modes[..i] + [mode] + modes[i..];
    forall k | i <= k < |modes|
      ensures Before(mode, modes[k])
    {
      BeforeIsTotal(modes[i], mode);
      if i < k {
        BeforeIsTransitive(mode, modes[i], modes[k]);
      }
    }
    assert modes == modes[..i] + modes[i..];
  }

  // ---------------------------------------------------------------- the mailbox

  datatype Status = Status(mode: string, body: string)

  ghost predicate KeyedByMode(pending: map<string, Status>) {
    forall m :: m in pending ==> pending[m].mode == m
  }

  class CaptureStatusBroadcaster {
    var pending: map<string, Status>
    var token: bool

    constructor ()
      ensures pending == map[] && !token
    {
      pending, token := map[], false;
    }

    /** The notify channel has one place, so posting a second token changes nothing. */
    method Enqueue(status: Status)
      modifies this
      ensures pending == old(pending)[status.mode := status] && token
      ensures old(KeyedByMode(pending)) ==> KeyedByMode(pending)
    {
      pending := pending[status.mode := status];
      token := true;
    }

    /** Empties the mailbox: exactly the pending statuses, in the order of their modes. */
    method TakePending() returns (statuses: seq<Status>)
      modifies `pending
      ensures pending == map[]
      ensures exists modes :: IsListing(modes, old(pending).Keys) && statuses == Listed(old(pending), modes)
    {
      if |pending| == 0 {
        assert IsListing([], pending.Keys) && Listed(pending, []) == [];
        return [];
      }
      var modes, left := [], pending.Keys;
      while left != {}
        invariant left <= pending.Keys && IsListing(modes, pending.Keys - left)
        invariant pending == old(pending)
        decreases left
      {
        var mode :| mode in left;
        modes := Insert(modes, mode);
        left := left - {mode};
      }
      ghost var before := pending;
      assert IsListing(modes, before.Keys);
      assert forall k :: 0 <= k < |modes| ==> modes[k] in modes;
      statuses := [];
      for i := 0 to |modes|
        invariant forall k :: 0 <= k < |modes| ==> modes[k] in before
        invariant forall k :: 0 <= k < |modes| ==> (modes[k] in pending <==> i <= k)
        invariant forall m :: m in pending ==> m in before && pending[m] == before[m]
        invariant statuses == Listed(before, modes[..i])
      {
        statuses := statuses + [pending[modes[i]]];
        forall k | 0 <= k < |modes| && k != i ensures modes[k] != modes[i] { BeforeIsTotal(modes[k], modes[i]); }
        pending := pending - {modes[i]};
      }
      assert modes[..|modes|] == modes;
      assert pending == map[] by { assert forall m :: m in pending ==> m in modes; }
    }
  }

  ghost function Listed<V>(pending: map<string, V>, modes: seq<string>): (r: seq<V>)
    requires forall k :: 0 <= k < |modes| ==> modes[k] in pending
    ensures |r| == |modes| && forall i :: 0 <= i < |r| ==> r[i] == pending[modes[i]]
  {
    seq(|modes|, i requires 0 <= i < |modes| => pending[modes[i]])
  }

  // ---------------------------------------------------------------- the step system

  datatype Runner = Parked | Scanning | Sending(rest: seq<nat>)

  datatype Sys = Sys(
    enqueued: seq<Status>, pending: map<string, nat>, token: bool, posters: set<nat>,
    runner: Runner, broadcasts: seq<nat>)

  datatype Event =
    | Enqueue(p: nat, status: Status)
    | Post(p: nat)
    | Wake
    | Take(modes: seq<string>)
    | Broadcast

  const INITIAL := Sys([], map[], false, {}, Parked, [])

  ghost predicate Enabled(s: Sys, e: Event) {
    match e
    case Enqueue(p, _) => p !in s.posters
    case Post(p) => p in s.posters
    case Wake => s.runner.Parked? && s.token
    case Take(modes) => s.runner.Scanning? && IsListing(modes, s.pending.Keys)
    case Broadcast => s.runner.Sending?
  }

  ghost function Next(s: Sys, e: Event): Sys
    requires Enabled(s, e)
  {
    match e
    case Enqueue(p, status) =>
      s.(enqueued := s.enqueued + [status], pending := s.pending[status.mode := |s.enqueued|],
          posters := s.posters + {p})
    case Post(p) => s.(token := true, posters := s.posters - {p})
    case Wake => s.(token := false, runner := Scanning)
    case Take(modes) =>
      if s.pending == map[] then s.(runner := Parked)
      else s.(pending := map[], runner := Sending(Listed(s.pending, modes)))
    case Broadcast =>
      if s.runner.rest == [] then s.(runner := Scanning)
      else s.(broadcasts := s.broadcasts + [s.runner.rest[0]], runner := Sending(s.runner.rest[1..]))
  }

  ghost predicate IsRun(states: seq<Sys>, events: seq<Event>) {
    && |states| == |events| + 1 && states[0] == INITIAL
    && forall i :: 0 <= i < |events| ==> Enabled(states[i], events[i]) && states[i + 1] == Next(states[i], events[i])
  }

  /** Taken out of the mailbox: broadcast already, or about to be. */
  function Taken(s: Sys): seq<nat> {
    s.broadcasts + if s.runner.Sending? then s.runner.rest else []
  }

  /** Positions in the history; those of one mode go up. */
  ghost predicate InOrder(history: seq<Status>, q: seq<nat>) {
    && (forall i :: 0 <= i < |q| ==> q[i] < |history|)
    && forall i, j :: 0 <= i < j < |q| && history[q[i]].mode == history[q[j]].mode ==> q[i] < q[j]
  }

  ghost predicate NewestOfMode(history: seq<Status>, k: nat) {
    k < |history| && forall j :: k < j < |history| ==> history[j].mode != history[k].mode
  }

  ghost predicate InvPending(s: Sys) {
    forall m :: m in s.pending ==>
      s.pending[m] < |s.enqueued| && s.enqueued[s.pending[m]].mode == m && NewestOfMode(s.enqueued, s.pending[m])
  }

  ghost predicate InvTaken(s: Sys) {
    && InOrder(s.enqueued, Taken(s))
    && forall k: nat :: NewestOfMode(s.enqueued, k) ==> k in Taken(s) || s.enqueued[k].mode in s.pending
  }

  ghost predicate InvBehind(s: Sys) {
    forall x :: x in Taken(s) && x < |s.enqueued| && s.enqueued[x].mode in s.pending ==>
        x < s.pending[s.enqueued[x].mode]
  }

  ghost predicate InvToken(s: Sys) {
    s.runner.Parked? && s.pending != map[] ==> s.token || s.posters != {}
  }

  ghost predicate Inv(s: Sys) {
    InvPending(s) && InvTaken(s) && InvBehind(s) && InvToken(s)
  }

  lemma EnqueueKeeps(s: Sys, p: nat, status: Status)
    requires Inv(s) && p !in s.posters
    ensures Inv(Next(s, Enqueue(p, status)))
  {
    var s' := Next(s, Enqueue(p, status));
    assert Taken(s') == Taken(s);
    forall k: nat | NewestOfMode(s'.enqueued, k)
      ensures k in Taken(s') || s'.enqueued[k].mode in s'.pending
    {
      if k < |s.enqueued| {
        assert s'.enqueued[|s.enqueued|].mode != s'.enqueued[k].mode;
        assert NewestOfMode(s.enqueued, k) by {
          assert forall j :: k < j < |s.enqueued| ==> s'.enqueued[j] == s.enqueued[j];
        }
      }
    }
  }

  /** What is pending, against what was taken before and against each other. */
  lemma PendingIsBehind(s: Sys, x: nat, m: string)
    requires InvPending(s) && InvBehind(s) && x in Taken(s) && x < |s.enqueued| && m in s.pending
    ensures s.pending[m] < |s.enqueued| && s.enqueued[s.pending[m]].mode == m
    ensures s.enqueued[x].mode == s.enqueued[s.pending[m]].mode ==> x < s.pending[m]
  {
  }

  lemma ModesDiffer(modes: seq<string>, i: nat, j: nat)
    requires Sorted(modes) && i < j < |modes|
    ensures modes[i] != modes[j]
  {
    BeforeIsTotal(modes[i], modes[j]);
  }

  lemma TakeKeepsOrder(s: Sys, modes: seq<string>)
    requires Inv(s) && Enabled(s, Take(modes)) && s.pending != map[]
    ensures InOrder(s.enqueued, s.broadcasts + Listed(s.pending, modes))
  {
    hide InvToken, InvBehind, InvPending, NewestOfMode, Before;
    var n, listed := |s.broadcasts|, Listed(s.pending, modes);
    var q := s.broadcasts + listed;
    assert Taken(s) == s.broadcasts;
    forall i | 0 <= i < |q|
      ensures q[i] < |s.enqueued|
      ensures n <= i ==> q[i] == s.pending[modes[i - n]] && s.enqueued[q[i]].mode == modes[i - n]
    {
      if n <= i { PendingOk(s, modes[i - n]); }
    }
    forall i, j | 0 <= i < j < |q| && s.enqueued[q[i]].mode == s.enqueued[q[j]].mode
      ensures q[i] < q[j]
    {
      if i < n <= j {
        assert q[i] in Taken(s);
        PendingIsBehind(s, q[i], modes[j - n]);
      } else if n <= i {
        ModesDiffer(modes, i - n, j - n);
      }
    }
  }

  lemma PendingOk(s: Sys, m: string)
    requires InvPending(s) && m in s.pending
    ensures s.pending[m] < |s.enqueued| && s.enqueued[s.pending[m]].mode == m
  {
  }

  lemma TakeKeepsNewest(s: Sys, modes: seq<string>, k: nat)
    requires Inv(s) && Enabled(s, Take(modes)) && NewestOfMode(s.enqueued, k)
    ensures k in s.broadcasts + Listed(s.pending, modes)
  {
    var mode := s.enqueued[k].mode;
    assert Taken(s) == s.broadcasts;
    if k !in s.broadcasts {
      assert mode in modes;
      var i :| 0 <= i < |modes| && modes[i] == mode;
      assert Listed(s.pending, modes)[i] == s.pending[mode];
      assert k == s.pending[mode];
    }
  }

  lemma AfterTake(s: Sys, modes: seq<string>)
    requires Enabled(s, Take(modes)) && s.pending != map[]
    ensures var s' := Next(s, Take(modes));
            && s'.enqueued == s.enqueued && s'.pending == map[] && s'.runner.Sending?
            && s'.broadcasts == s.broadcasts && s'.runner.rest == Listed(s.pending, modes)
  {
  }

  lemma TakeKeeps(s: Sys, modes: seq<string>)
    requires Inv(s) && Enabled(s, Take(modes)) && s.pending != map[]
    ensures Inv(Next(s, Take(modes)))
  {
    var s' := Next(s, Take(modes));
    AfterTake(s, modes);
    TakeKeepsOrder(s, modes);
    forall k: nat | NewestOfMode(s.enqueued, k)
      ensures k in Taken(s')
    {
      TakeKeepsNewest(s, modes, k);
    }
    hide InOrder, NewestOfMode, Next, Enabled, Listed;
  }

  lemma BroadcastKeeps(s: Sys)
    requires Inv(s) && s.runner.Sending?
    ensures Inv(Next(s, Broadcast))
  {
    assert Taken(Next(s, Broadcast)) == Taken(s);
  }

  lemma {:induction false} InvOnRuns(states: seq<Sys>, events: seq<Event>, i: nat)
    requires IsRun(states, events) && i < |states|
    ensures Inv(states[i])
  {
    if i > 0 {
      InvOnRuns(states, events, i - 1);
      var s, e := states[i - 1], events[i - 1];
      match e
      case Enqueue(p, status) => EnqueueKeeps(s, p, status);
      case Take(modes) =>
        if s.pending != map[] { TakeKeeps(s, modes); } else { assert Taken(states[i]) == Taken(s); }
      case Broadcast => BroadcastKeeps(s);
      case _ => assert Taken(states[i]) == Taken(s);
    }
  }

  // ---------------------------------------------------------------- theorems

  /** Broadcasts of one mode keep the order in which they were enqueued, none is repeated. */
  lemma BroadcastsKeepOrder(states: seq<Sys>, events: seq<Event>, i: nat)
    requires IsRun(states, events) && i < |states|
    ensures InOrder(states[i].enqueued, states[i].broadcasts)
  {
    InvOnRuns(states, events, i);
    var s := states[i];
    assert forall k :: 0 <= k < |s.broadcasts| ==> Taken(s)[k] == s.broadcasts[k];
  }

  /** A parked runner with a pending status has a token, or somebody is about to post one. */
  lemma NoLostStatus(states: seq<Sys>, events: seq<Event>, i: nat)
    requires IsRun(states, events) && i < |states|
    requires states[i].runner.Parked? && states[i].pending != map[]
    ensures states[i].token || states[i].posters != {}
  {
    InvOnRuns(states, events, i);
  }

  /** Once nothing is left to do, the newest status of every mode is the last one broadcast for it. */
  lemma QuietMeansBroadcast(states: seq<Sys>, events: seq<Event>, i: nat, k: nat)
    requires IsRun(states, events) && i < |states|
    requires states[i].runner.Parked? && !states[i].token && states[i].posters == {}
    requires NewestOfMode(states[i].enqueued, k)
    ensures var s := states[i];
            exists n :: 0 <= n < |s.broadcasts| && s.broadcasts[n] == k
                        && forall j :: n < j < |s.broadcasts| ==>
                             s.broadcasts[j] < |s.enqueued| && s.enqueued[s.broadcasts[j]].mode != s.enqueued[k].mode
  {
    InvOnRuns(states, events, i);
    var s := states[i];
    assert Taken(s) == s.broadcasts;
    var n :| 0 <= n < |s.broadcasts| && s.broadcasts[n] == k;
    forall j | n < j < |s.broadcasts|
      ensures s.broadcasts[j] < |s.enqueued| && s.enqueued[s.broadcasts[j]].mode != s.enqueued[k].mode
    {
      var later := s.broadcasts[j];
      assert later < |s.enqueued|;
      if s.enqueued[later].mode == s.enqueued[k].mode {
        assert false;
      }
    }
  }
}
