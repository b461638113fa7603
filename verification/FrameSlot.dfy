/**
 FrameSlot: at most one pending frame for one client, with a count of the frames it was too slow for.

 The class runs whole calls. In the step system a receiver may run between the two channel
 operations of Replace, between a channel operation and the count that follows it, and at any time
 after Close. Frames are named by the order in which they were offered to the open slot; `taken` and
 `lost` are the histories of the frames received and given up.
 */
module FrameSlots {
  import opened Wrappers

  // ---------------------------------------------------------------- whole calls

  class FrameSlot<T(==)> {
    var frame: Option<T>
    var closed: bool
    var dropped: nat
    ghost var offered: seq<T>
    ghost var taken: seq<T>

    ghost predicate Valid()
      reads this
    {
      |offered| == |taken| + dropped + (if frame.Some? then 1 else 0)
    }

    constructor ()
      ensures Valid() && !closed && frame == None && offered == [] && taken == []
    {
      frame, closed, dropped, offered, taken := None, false, 0, [], [];
    }

    method TryPut(next: T) returns (accepted: bool)
      requires Valid()
      modifies this
      ensures Valid() && closed == old(closed) && taken == old(taken)
      ensures accepted <==> !old(closed) && old(frame).None?
      ensures frame == if accepted then Some(next) else old(frame)
      ensures offered == if closed then old(offered) else old(offered) + [next]
    {
      if closed {
        return false;
      }
      offered := offered + [next];
      if frame.None? {
        frame := Some(next);
        return true;
      }
      dropped := dropped + 1;
      return false;
    }

    method Replace(next: T) returns (accepted: bool)
      requires Valid()
      modifies this
      ensures Valid() && closed == old(closed) && taken == old(taken)
      ensures accepted <==> !old(closed)
      ensures frame == if accepted then Some(next) else old(frame)
      ensures offered == if closed then old(offered) else old(offered) + [next]
    {
      if closed {
        return false;
      }
      offered := offered + [next];
      if frame.Some? {
        frame := None;
        dropped := dropped + 1;
      }
      assert frame.None?;  // the send below cannot block
      frame := Some(next);
      return true;
    }

    /** Called only when it would not block: a frame is pending, or the slot is closed. */
    method Take() returns (got: Option<T>)
      requires Valid() && (frame.Some? || closed)
      modifies this
      ensures Valid() && closed == old(closed) && offered == old(offered) && dropped == old(dropped)
      ensures got == old(frame) && frame == None
      ensures got.None? ==> |offered| == |taken| + dropped
    {
      got := frame;
      if frame.Some? {
        taken := taken + [frame.value];
        frame := None;
      }
    }

    method Close()
      requires Valid()
      modifies this`closed
      ensures Valid() && closed
    {
      if closed {
        return;
      }
      closed := true;
    }
  }

  // ---------------------------------------------------------------- the step system

  /** The call that holds the mutex. */
  datatype Holder =
    | Free
    | Refusing               // TryPut found the slot full and has yet to count the frame
    | Replacing(next: nat)   // Replace has yet to make room
    | Counting(next: nat)    // Replace took a frame out and has yet to count it
    | Sending(next: nat)     // Replace has yet to send

  datatype Sys = Sys(
    slot: Option<nat>, closed: bool, dropped: nat, holder: Holder,
    offered: nat, taken: seq<nat>, lost: seq<nat>, ended: bool)

  datatype Event = TryPut | Replace | HolderStep | Take | Close

  const INITIAL := Sys(None, false, 0, Free, 0, [], [], false)

  predicate Enabled(s: Sys, e: Event) {
    match e
    case TryPut => s.holder.Free?
    case Replace => s.holder.Free?
    case Close => s.holder.Free?
    case HolderStep => !s.holder.Free? && (s.holder.Sending? ==> s.slot.None?)
    case Take => s.slot.Some? || s.closed
  }

  function Next(s: Sys, e: Event): Sys
    requires Enabled(s, e)
  {
    match e
    case TryPut =>
      if s.closed then s
      else if s.slot.None? then s.(slot := Some(s.offered), offered := s.offered + 1)
      else s.(holder := Refusing, lost := s.lost + [s.offered], offered := s.offered + 1)
    case Replace =>
      if s.closed then s else s.(holder := Replacing(s.offered), offered := s.offered + 1)
    case HolderStep => NextOfHolder(s)
    case Take =>
      if s.slot.Some? then s.(slot := None, taken := s.taken + [s.slot.value]) else s.(ended := true)
    case Close => s.(closed := true)
  }

  function NextOfHolder(s: Sys): Sys {
    match s.holder
    case Free => s
    case Refusing => s.(holder := Free, dropped := s.dropped + 1)
    case Replacing(f) =>
      if s.slot.Some? then s.(holder := Counting(f), slot := None, lost := s.lost + [s.slot.value])
      else s.(holder := Sending(f))
    case Counting(f) => s.(holder := Sending(f), dropped := s.dropped + 1)
    case Sending(f) => s.(holder := Free, slot := Some(f))
  }

  ghost predicate IsRun(states: seq<Sys>, events: seq<Event>) {
    && |states| == |events| + 1 && states[0] == INITIAL
    && forall i :: 0 <= i < |events| ==> Enabled(states[i], events[i]) && states[i + 1] == Next(states[i], events[i])
  }

  function Count(q: seq<nat>, f: nat): nat {
    if q == [] then 0 else Count(q[..|q| - 1], f) + if q[|q| - 1] == f then 1 else 0
  }

  lemma CountMore(q: seq<nat>, x: nat, f: nat)
    ensures Count(q + [x], f) == Count(q, f) + if x == f then 1 else 0
  {
    assert (q + [x])[..|q|] == q;
  }

  lemma {:induction false} CountIn(q: seq<nat>, f: nat)
    ensures Count(q, f) > 0 <==> f in q
  {
    if q != [] {
      CountIn(q[..|q| - 1], f);
      assert q == q[..|q| - 1] + [q[|q| - 1]];
    }
  }

  function Hand(h: Holder): Option<nat> {
    match h
    case Replacing(f) => Some(f)
    case Counting(f) => Some(f)
    case Sending(f) => Some(f)
    case _ => None
  }

  /** In how many places frame f is. */
  function Places(s: Sys, f: nat): nat {
    Count(s.taken, f) + Count(s.lost, f) + (if s.slot == Some(f) then 1 else 0)
        + (if Hand(s.holder) == Some(f) then 1 else 0)
  }

  ghost predicate InvPlaces(s: Sys) {
    forall f: nat :: Places(s, f) == if f < s.offered then 1 else 0
  }

  ghost predicate Increasing(q: seq<nat>) {
    forall i, j :: 0 <= i < j < |q| ==> q[i] < q[j]
  }

  ghost predicate InvOrder(s: Sys) {
    && Increasing(s.taken) && (forall f :: f in s.taken ==> f < s.offered)
    && (s.slot.Some? ==> s.slot.value < s.offered && forall f :: f in s.taken ==> f < s.slot.value)
    && (Hand(s.holder).Some? ==>
          Hand(s.holder).value == s.offered - 1
          && (s.slot.Some? ==> s.slot.value < s.offered - 1) && forall f :: f in s.taken ==> f < s.offered - 1)
  }

  predicate InvPhase(s: Sys) {
    && |s.lost| == s.dropped + (if s.holder.Refusing? || s.holder.Counting? then 1 else 0)
    && s.offered == |s.taken| + |s.lost| + (if s.slot.Some? then 1 else 0) + (if Hand(s.holder).Some? then 1 else 0)
    && (s.holder.Counting? || s.holder.Sending? ==> s.slot.None?)
    && (s.closed ==> s.holder.Free?)
    && (s.ended ==> s.closed && s.slot.None?)
  }

  ghost predicate Inv(s: Sys) {
    InvPlaces(s) && InvOrder(s) && InvPhase(s)
  }

  /** Every step moves one frame from one place to another, or brings a new one in. */
  lemma PlacesOf(s: Sys, e: Event, f: nat)
    requires Enabled(s, e)
    ensures Places(Next(s, e), f) == Places(s, f) + if s.offered <= f < Next(s, e).offered then 1 else 0
  {
    hide Count;
    match e
    case TryPut => if !s.closed && s.slot.Some? { CountMore(s.lost, s.offered, f); }
    case Take => if s.slot.Some? { CountMore(s.taken, s.slot.value, f); }
    case HolderStep => if s.holder.Replacing? && s.slot.Some? { CountMore(s.lost, s.slot.value, f); }
    case _ =>
  }

  lemma PlacesKept(s: Sys, e: Event)
    requires InvPlaces(s) && Enabled(s, e)
    ensures InvPlaces(Next(s, e))
  {
    hide Places;
    forall f: nat
      ensures Places(Next(s, e), f) == if f < Next(s, e).offered then 1 else 0
    {
      PlacesOf(s, e, f);
    }
  }

  lemma OrderKept(s: Sys, e: Event)
    requires InvOrder(s) && InvPhase(s) && Enabled(s, e)
    ensures InvOrder(Next(s, e)) && InvPhase(Next(s, e))
  {
    if e.Take? && s.slot.Some? {
      assert forall i :: 0 <= i < |s.taken| ==> s.taken[i] in s.taken;
    }
  }

  lemma {:induction false} InvOnRuns(states: seq<Sys>, events: seq<Event>, i: nat)
    requires IsRun(states, events) && i < |states|
    ensures Inv(states[i])
  {
    if i > 0 {
      InvOnRuns(states, events, i - 1);
      PlacesKept(states[i - 1], events[i - 1]);
      OrderKept(states[i - 1], events[i - 1]);
    }
  }

  // ---------------------------------------------------------------- theorems

  /** Every frame offered to the open slot is in exactly one place: taken, lost, pending, or in the
      hands of the Replace that holds the mutex. */
  lemma FramesAreConserved(states: seq<Sys>, events: seq<Event>, i: nat, f: nat)
    requires IsRun(states, events) && i < |states|
    ensures var s := states[i];
            && Places(s, f) == (if f < s.offered then 1 else 0)
            && (s.holder.Free? ==> s.offered == |s.taken| + s.dropped + if s.slot.Some? then 1 else 0)
  {
    InvOnRuns(states, events, i);
  }

  /** Frames are taken in the order in which they were offered. */
  lemma TakenInOrder(states: seq<Sys>, events: seq<Event>, i: nat)
    requires IsRun(states, events) && i < |states|
    ensures Increasing(states[i].taken) && forall f :: f in states[i].taken ==> f < states[i].offered
  {
    InvOnRuns(states, events, i);
  }

  /** Whoever holds the mutex can always go on: no producer blocks, and none sends on a closed slot. */
  lemma ProducersNeverBlock(states: seq<Sys>, events: seq<Event>, i: nat)
    requires IsRun(states, events) && i < |states| && !states[i].holder.Free?
    ensures Enabled(states[i], HolderStep) && !states[i].closed
  {
    InvOnRuns(states, events, i);
  }

  lemma {:induction false} ClosedStaysQuiet(states: seq<Sys>, events: seq<Event>, i: nat, j: nat)
    requires IsRun(states, events) && i <= j < |states| && states[i].closed
    ensures states[j].closed && states[j].lost == states[i].lost && states[j].offered == states[i].offered
  {
    if i < j {
      ClosedStaysQuiet(states, events, i, j - 1);
      InvOnRuns(states, events, j - 1);
    }
  }

  /** A frame still pending at Close has been delivered by the time Take reports the end, and by
      then nothing is left over. */
  lemma PendingSurvivesClose(states: seq<Sys>, events: seq<Event>, i: nat, j: nat)
    requires IsRun(states, events) && i <= j < |states| && states[i].closed && states[j].ended
    ensures states[i].slot.Some? ==> states[i].slot.value in states[j].taken
    ensures states[j].slot.None? && states[j].offered == |states[j].taken| + states[j].dropped
  {
    InvOnRuns(states, events, i);
    InvOnRuns(states, events, j);
    ClosedStaysQuiet(states, events, i, j);
    if states[i].slot.Some? {
      var f := states[i].slot.value;
      assert Places(states[i], f) == 1 && Places(states[j], f) == 1;
      CountIn(states[j].taken, f);
    }
  }
}
