/**
 The shared/exclusive gate behind the control-mode leases.

 `Gate` is the value of the gate's fields. Each function below is one critical section of the
 gate's mutex; the class `ActivityGate` runs the same sections on mutable fields, and its methods
 are proved to compute exactly these functions. The step system in `Arbitration` interleaves the
 functions.

 A wake-up channel is a number. `closed` holds the channels that were closed, `made` counts the
 channels that were created, so a channel is open when it was made and not closed.
 */
module ActivityGates {
  import opened Wrappers

  datatype Gate = Gate(active: int, exclusive: bool, changed: Option<nat>, closed: set<nat>, made: nat)

  /** What one pass of an acquire loop does: take the gate, or park on a channel. */
  datatype Pass = Entered(gate: Gate) | Parks(gate: Gate, channel: nat)

  const FRESH_GATE := Gate(0, false, None, {}, 0)

  function ChangedLocked(g: Gate): Gate {
    if g.changed.None? then g.(changed := Some(g.made), made := g.made + 1) else g
  }

  function SignalLocked(g: Gate): Gate {
    if g.changed.None? then g
    else g.(closed := g.closed + {g.changed.value}, changed := Some(g.made), made := g.made + 1)
  }

  function Park(g: Gate): Pass {
    var g' := ChangedLocked(g);
    Parks(g', g'.changed.value)
  }

  function PassShared(g: Gate): Pass {
    if !g.exclusive then Entered(g.(active := g.active + 1)) else Park(g)
  }

  function PassExclusive(g: Gate): Pass {
    if !g.exclusive && g.active == 0 then Entered(g.(exclusive := true)) else Park(g)
  }

  function ReleaseShared(g: Gate): Gate {
    SignalLocked(if g.active > 0 then g.(active := g.active - 1) else g)
  }

  function ReleaseExclusive(g: Gate): Gate {
    SignalLocked(g.(exclusive := false))
  }

  ghost predicate GateOk(g: Gate) {
    && g.active >= 0
    && (g.exclusive ==> g.active == 0)
    && (g.changed.Some? ==> g.changed.value < g.made && g.changed.value !in g.closed)
    && (forall c :: c in g.closed ==> c < g.made)
    && (forall c: nat :: c < g.made && c !in g.closed ==> g.changed == Some(c))
  }

  class ActivityGate {
    var active: int
    var exclusive: bool
    var changed: Option<nat>
    var closed: set<nat>
    var made: nat

    ghost function View(): Gate
      reads this
    {
      Gate(active, exclusive, changed, closed, made)
    }

    constructor ()
      ensures View() == FRESH_GATE
    {
      active, exclusive, changed, closed, made := 0, false, None, {}, 0;
    }

    method ChangedChannel() returns (channel: nat)
      modifies this
      ensures View() == ChangedLocked(old(View()))
      ensures changed == Some(channel)
    {
      if changed.None? {
        changed, made := Some(made), made + 1;
      }
      channel := changed.value;
    }

    method Signal()
      modifies this
      ensures View() == SignalLocked(old(View()))
    {
      if changed.None? {
        return;
      }
      closed := closed + {changed.value};
      changed, made := Some(made), made + 1;
    }

    /** One pass of the acquireShared loop; `channel` is what the caller blocks on. */
    method TryAcquireShared() returns (channel: Option<nat>)
      modifies this
      ensures match PassShared(old(View()))
              case Entered(g) => channel == None && View() == g
              case Parks(g, c) => channel == Some(c) && View() == g
    {
      if !exclusive {
        active := active + 1;
        return None;
      }
      var c := ChangedChannel();
      channel := Some(c);
    }

    method TryAcquireExclusive() returns (channel: Option<nat>)
      modifies this
      ensures match PassExclusive(old(View()))
              case Entered(g) => channel == None && View() == g
              case Parks(g, c) => channel == Some(c) && View() == g
    {
      if !exclusive && active == 0 {
        exclusive := true;
        return None;
      }
      var c := ChangedChannel();
      channel := Some(c);
    }

    /** The body of the release function that acquireShared returns. */
    method DoReleaseShared()
      modifies this
      ensures View() == ReleaseShared(old(View()))
    {
      if active > 0 {
        active := active - 1;
      }
      Signal();
    }

    method DoReleaseExclusive()
      modifies this
      ensures View() == ReleaseExclusive(old(View()))
    {
      exclusive := false;
      Signal();
    }
  }
}
