// Where the publisher's promises end (src/publisher.cpp): the generation counter
// saturates, and a snapshot burst clears dirty flags it had no room to serve.

module Limits {
  import opened Wire
  import opened Messages
  import opened Publishers

  // ---- saturation ----

  /** The slot after a run of accepted values of its type. */
  function SlotAfter(p: Publisher, vs: seq<State>): Slot {
    if vs == [] then EMPTY_SLOT else UpdateSlot(p, SlotAfter(p, vs[..|vs| - 1]), vs[|vs| - 1])
  }

  lemma {:induction false} GenerationCounts(p: Publisher, vs: seq<State>)
    ensures SlotAfter(p, vs).generation == if |vs| <= MAX32 then |vs| else MAX32
    decreases |vs|
  {
    if vs != [] {
      GenerationCounts(p, vs[..|vs| - 1]);
      hide Assigned;
    }
  }

  /** Two accepted updates of a type share a generation exactly when the earlier one was
      already the 2^32 - 1st or later. */
  lemma GenerationsCollideIff(p: Publisher, vs: seq<State>, i: nat, j: nat)
    requires 1 <= i < j <= |vs|
    ensures SlotAfter(p, vs[..i]).generation == SlotAfter(p, vs[..j]).generation <==> i >= MAX32
  {
    GenerationCounts(p, vs[..i]);
    GenerationCounts(p, vs[..j]);
    hide SlotAfter;
  }

  // ---- bursts without room ----

  predicate Ready(p: Publisher, k: Kind) {
    Build(p, k, true).Some?
  }

  /** How many types a burst serves before k. */
  function Ahead(p: Publisher, k: Kind): nat {
    (if k != PositionKind && Ready(p, PositionKind) then 1 else 0) +
    (if k == BatteryKind && Ready(p, AttitudeKind) then 1 else 0)
  }

  predicate Carried(out: seq<Published>, k: Kind) {
    exists i :: 0 <= i < |out| && out[i].message.header.typ == TypeOf(k)
  }

  lemma BuiltType(p: Publisher, k: Kind, snapshot: bool)
    requires Build(p, k, snapshot).Some?
    ensures Build(p, k, snapshot).value.message.header.typ == TypeOf(k)
  {
    hide EncodeState;
  }

  lemma CarriedAppend(out: seq<Published>, b: Published, k: Kind)
    ensures Carried(out + [b], k) <==> Carried(out, k) || b.message.header.typ == TypeOf(k)
  {
    hide TypeOf;
    assert (out + [b])[|out|] == b;
    assert forall i :: 0 <= i < |out| ==> (out + [b])[i] == out[i];
  }

  /** A message of a type is sent only by the step that serves that type. */
  lemma EmitCarries(p: Publisher, j: Kind, snapshot: bool, out: seq<Published>, capacity: nat, k: Kind)
    ensures Carried(Emit(p, j, snapshot, out, capacity), k) <==>
            Carried(out, k) || (j == k && |out| < capacity && Build(p, j, snapshot).Some?)
  {
    if |out| < capacity && Build(p, j, snapshot).Some? {
      BuiltType(p, j, snapshot);
      var b := Build(p, j, snapshot).value;
      hide Build, Carried;
      CarriedAppend(out, b, k);
      TypesDiffer(j, k);
    }
  }

  lemma TypesDiffer(j: Kind, k: Kind)
    ensures TypeOf(j) == TypeOf(k) <==> j == k
  {
  }

  /** A due poll sends type k exactly when it encodes and fewer types than the capacity
      come before it. */
  lemma BurstCarriesIff(p: Publisher, now: nat, capacity: nat, k: Kind)
    ensures Carried(PollDue(p, now, capacity).out, k) <==> Ready(p, k) && Ahead(p, k) < capacity
  {
    var a := Emit(p, PositionKind, true, [], capacity);
    var b := Emit(p, AttitudeKind, true, a, capacity);
    EmitCarries(p, PositionKind, true, [], capacity, k);
    EmitCarries(p, AttitudeKind, true, a, capacity, k);
    EmitCarries(p, BatteryKind, true, b, capacity, k);
    hide Build, Carried;
    assert !Carried([], k) by { NothingCarried(k); }
  }

  lemma NothingCarried(k: Kind)
    ensures !Carried([], k)
  {
  }

  lemma SendKeepsFlag(r: Polled, j: Kind, capacity: nat, k: Kind)
    ensures var r' := SendDirty(r, j, capacity);
            && (r'.publisher.slots.Get(k).dirty ==> r.publisher.slots.Get(k).dirty)
            && (Carried(r.out, k) ==> Carried(r'.out, k))
            && (r.publisher.slots.Get(k).dirty && !r'.publisher.slots.Get(k).dirty ==> Carried(r'.out, k))
  {
    if r.publisher.slots.Get(j).dirty && |r.out| < capacity && Build(r.publisher, j, false).Some? {
      BuiltType(r.publisher, j, false);
      var b := Build(r.publisher, j, false).value;
      CarriedAppend(r.out, b, k);
      hide Build, Carried;
    }
    hide Build, Carried;
  }

  lemma DirtyIsSent(p: Publisher, capacity: nat, k: Kind)
    requires p.slots.Get(k).dirty && !PollDirty(p, capacity).publisher.slots.Get(k).dirty
    ensures Carried(PollDirty(p, capacity).out, k)
  {
    var a := SendDirty(Polled(p, []), PositionKind, capacity);
    var b := SendDirty(a, AttitudeKind, capacity);
    SendKeepsFlag(Polled(p, []), PositionKind, capacity, k);
    SendKeepsFlag(a, AttitudeKind, capacity, k);
    SendKeepsFlag(b, BatteryKind, capacity, k);
    hide SendDirty, Carried;
  }

  /** An update is lost - its flag cleared, nothing sent - exactly when a burst is due
      and the value does not encode or the types ahead of it fill the output.  With room
      for three messages every value that encodes is sent. */
  lemma UpdateLostIff(p: Publisher, now: nat, capacity: nat, k: Kind)
    requires capacity > 0 && p.slots.Get(k).dirty
    ensures var r := Poll(p, now, capacity);
            !r.publisher.slots.Get(k).dirty && !Carried(r.out, k) <==>
            Due(p, now) && (!Ready(p, k) || Ahead(p, k) >= capacity)
    ensures capacity >= 3 ==> Ahead(p, k) < capacity
  {
    if Due(p, now) {
      BurstCarriesIff(p, now, capacity, k);
      hide Carried, Build, Emit, Schedule;
    } else {
      if !PollDirty(p, capacity).publisher.slots.Get(k).dirty {
        DirtyIsSent(p, capacity, k);
      }
      hide Carried, Build, PollDirty;
    }
  }

  const HERE := State(StateMeta(10, 0, 0, 2, 0, 0), PositionReading(0, 0, 0))
  const LEVEL := State(StateMeta(11, 0, 0, 2, 0, 0), AttitudeReading(0, 0, 0))

  /** A position and an attitude are pending when a snapshot falls due, and there is room
      for one message: the attitude is neither sent nor pending afterwards. */
  lemma UpdateLostExample()
    ensures var p := Update(Update(NewPublisher(2, 1, 1000), HERE, 0), LEVEL, 0);
            var r := Poll(p, 1000, 1);
            && p.slots.attitude.dirty && Due(p, 1000) && |r.out| <= 1
            && !r.publisher.slots.attitude.dirty && !Carried(r.out, AttitudeKind)
  {
    var p0 := NewPublisher(2, 1, 1000);
    var p1 := Update(p0, HERE, 0);
    var p := Update(p1, LEVEL, 0);
    assert p1.nextSnapshot == 1000 && p1.slots.position.value == Some(Assigned(p0, EMPTY_SLOT, HERE)) && p1.slots.attitude == EMPTY_SLOT;
    assert p.nextSnapshot == 1000 && p.slots.position == p1.slots.position && p.slots.attitude.dirty;
    HereEncodes(p0);
    assert Build(p, PositionKind, true).Some? by { hide Update, NewPublisher, Encodable, Stamp, Assigned; }
    assert Ready(p, PositionKind) && Ahead(p, AttitudeKind) >= 1 && p.slots.Get(AttitudeKind).dirty && Due(p, 1000);
    hide Update, NewPublisher, Build, Carried, Poll, Ready, Ahead;
    UpdateLostIff(p, 1000, 1, AttitudeKind);
    PollFits(p, 1000);
  }

  lemma HereEncodes(p: Publisher)
    ensures Encodable(Stamp(Assigned(p, EMPTY_SLOT, HERE), true))
  {
    FirstWord();
  }

  lemma FirstWord()
    ensures Word(1) == 1
  {
  }

  lemma PollFits(p: Publisher, now: nat)
    requires Due(p, now)
    ensures |Poll(p, now, 1).out| <= 1
  {
    hide Build, Schedule;
  }
}
