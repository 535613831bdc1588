// StatePublisher (src/publisher.cpp) as an object with its three slots, and the
// timing of its periodic snapshots.

module StatePublishers {
  import opened Wire
  import opened Messages
  import opened Publishers

  class StatePublisher {
    const source: bv16
    const destination: bv16
    const period: nat
    var nextSnapshot: nat
    var position: Slot
    var attitude: Slot
    var battery: Slot

    ghost function Model(): Publisher
      reads this
    {
      Publisher(source, destination, period, nextSnapshot, PerKind(position, attitude, battery))
    }

    constructor (source: bv16, destination: bv16, period: nat)
      ensures Model() == NewPublisher(source, destination, period)
    {
      this.source, this.destination := source, destination;
      this.period := if period == 0 then SNAPSHOT_PERIOD_MS else period;
      nextSnapshot := 0;
      position, attitude, battery := EMPTY_SLOT, EMPTY_SLOT, EMPTY_SLOT;
    }

    method Update(v: State, now: nat) returns (changed: bool)
      modifies this
      ensures Model() == Publishers.Update(old(Model()), v, now)
      ensures changed == Accepts(old(Model()), v)
    {
      var kind := KindOf(v.reading);
      var slot := match kind
        case PositionKind => position
        case AttitudeKind => attitude
        case BatteryKind => battery;
      if !Changed(slot, v) {
        return false;
      }
      hide Changed;
      var previous := if slot.value.Some? then slot.generation else 0;
      var generation := NextGeneration(slot.generation);
      var meta := v.meta.(source := if v.meta.source == 0 then source else v.meta.source,
                          generation := Word(generation), base := Word(previous), snapshot := 0);
      slot := Slot(Some(State(meta, v.reading)), generation, true);
      match kind {
        case PositionKind => position := slot;
        case AttitudeKind => attitude := slot;
        case BatteryKind => battery := slot;
      }
      if nextSnapshot == 0 {
        nextSnapshot := (now + period) % (MAX64 + 1);
      }
      changed := true;
    }

    /** build_position, build_attitude and build_battery. */
    method BuildFrom(slot: Slot, kind: Kind, snapshot: bool) returns (r: Option<Published>)
      requires slot == (match kind case PositionKind => position case AttitudeKind => attitude case BatteryKind => battery)
      ensures r == Build(Model(), kind, snapshot)
    {
      hide EncodeState;
      if slot.value.None? {
        return None;
      }
      var value := slot.value.value;
      var meta := value.meta.(snapshot := if snapshot then 1 else 0, base := if snapshot then 0 else value.meta.base);
      var bytes := EncodeState(State(meta, value.reading));
      if bytes.None? {
        return None;
      }
      var header := RecordHeader(VERSION, if snapshot then FLAG_SNAPSHOT else FLAG_DELTA, TypeOf(kind), STATE_LATEST,
                                 source, destination, 0, 0, 0, 0, 0, 0);
      r := Some(Published(NativeMessage(header, bytes.value), snapshot));
    }

    method ScheduleNextSnapshot(now: nat)
      modifies this`nextSnapshot
      ensures nextSnapshot == Schedule(old(Model()), now)
    {
      nextSnapshot := if now > MAX64 - period then MAX64 else now + period;
    }

    /** The due branch of poll: a full snapshot burst. */
    method Burst(now: nat, capacity: nat) returns (out: seq<Published>)
      modifies this
      ensures PollDue(old(Model()), now, capacity) == Polled(Model(), out)
    {
      hide Build;
      out := [];
      var a := BuildFrom(position, PositionKind, true);
      if |out| < capacity && a.Some? {
        out := out + [a.value];
      }
      var b := BuildFrom(attitude, AttitudeKind, true);
      if |out| < capacity && b.Some? {
        out := out + [b.value];
      }
      var c := BuildFrom(battery, BatteryKind, true);
      if |out| < capacity && c.Some? {
        out := out + [c.value];
      }
      ScheduleNextSnapshot(now);
      position := position.(dirty := false);
      attitude := attitude.(dirty := false);
      battery := battery.(dirty := false);
    }

    method SendPosition(out: seq<Published>, capacity: nat) returns (r: seq<Published>)
      modifies this`position
      ensures SendDirty(Polled(old(Model()), out), PositionKind, capacity) == Polled(Model(), r)
    {
      hide Build;
      r := out;
      if position.dirty && |out| < capacity {
        var b := BuildFrom(position, PositionKind, false);
        if b.Some? {
          position := position.(dirty := false);
          r := out + [b.value];
        }
      }
    }

    method SendAttitude(out: seq<Published>, capacity: nat) returns (r: seq<Published>)
      modifies this`attitude
      ensures SendDirty(Polled(old(Model()), out), AttitudeKind, capacity) == Polled(Model(), r)
    {
      hide Build;
      r := out;
      if attitude.dirty && |out| < capacity {
        var b := BuildFrom(attitude, AttitudeKind, false);
        if b.Some? {
          attitude := attitude.(dirty := false);
          r := out + [b.value];
        }
      }
    }

    method SendBattery(out: seq<Published>, capacity: nat) returns (r: seq<Published>)
      modifies this`battery
      ensures SendDirty(Polled(old(Model()), out), BatteryKind, capacity) == Polled(Model(), r)
    {
      hide Build;
      r := out;
      if battery.dirty && |out| < capacity {
        var b := BuildFrom(battery, BatteryKind, false);
        if b.Some? {
          battery := battery.(dirty := false);
          r := out + [b.value];
        }
      }
    }

    method Poll(now: nat, capacity: nat) returns (out: seq<Published>)
      modifies this
      ensures Publishers.Poll(old(Model()), now, capacity) == Polled(Model(), out)
      ensures |out| <= capacity
    {
      hide SendDirty, PollDue;
      if capacity == 0 {
        return [];
      }
      if nextSnapshot != 0 && now >= nextSnapshot {
        out := Burst(now, capacity);
        BurstFits(old(Model()), now, capacity);
      } else {
        out := SendPosition([], capacity);
        out := SendAttitude(out, capacity);
        out := SendBattery(out, capacity);
        DeltasFit(old(Model()), capacity);
      }
    }
  }

  lemma BurstFits(p: Publisher, now: nat, capacity: nat)
    ensures |PollDue(p, now, capacity).out| <= capacity
  {
    hide Build;
  }

  lemma DeltasFit(p: Publisher, capacity: nat)
    ensures |PollDirty(p, capacity).out| <= capacity
  {
    hide Build;
  }
}
