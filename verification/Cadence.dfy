// When the publisher's snapshot bursts happen, over every run of updates and polls
// (src/publisher.cpp).

module Cadence {
  import opened Messages
  import opened Publishers

  datatype Tick = UpdateAt(v: State, now: nat) | PollAt(now: nat, capacity: nat)

  /** The publisher, the times of its snapshot bursts, and the times it was polled. */
  datatype Played = Played(publisher: Publisher, bursts: seq<nat>, polls: seq<nat>)

  function PlayOne(r: Played, t: Tick): Played {
    match t
    case UpdateAt(v, now) => r.(publisher := Update(r.publisher, v, now))
    case PollAt(now, capacity) =>
      Played(Poll(r.publisher, now, capacity).publisher,
             if capacity > 0 && Due(r.publisher, now) then r.bursts + [now] else r.bursts,
             r.polls + [now])
  }

  function Play(p: Publisher, ticks: seq<Tick>): Played {
    if ticks == [] then Played(p, [], []) else PlayOne(Play(p, ticks[..|ticks| - 1]), ticks[|ticks| - 1])
  }

  /** A clock that never goes back and stays a period short of its limit, and polls
      that have room for at least one message. */
  ghost predicate Steady(period: nat, ticks: seq<Tick>) {
    && (forall i :: 0 <= i < |ticks| ==> ticks[i].now + period <= MAX64)
    && (forall i, j :: 0 <= i < j < |ticks| ==> ticks[i].now <= ticks[j].now)
    && (forall i :: 0 <= i < |ticks| && ticks[i].PollAt? ==> ticks[i].capacity > 0)
  }

  ghost predicate PollsWithin(polls: seq<nat>, d: nat) {
    forall i :: 0 < i < |polls| ==> polls[i] - polls[i - 1] <= d
  }

  lemma PollKeepsPeriod(p: Publisher, now: nat, capacity: nat)
    ensures Poll(p, now, capacity).publisher.period == p.period
    ensures Poll(p, now, capacity).publisher.nextSnapshot ==
            if capacity > 0 && Due(p, now) then Schedule(p, now) else p.nextSnapshot
  {
    hide Build, Schedule;
  }

  /** What the timing of a run keeps. */
  ghost predicate OnTime(r: Played, period: nat, latest: nat) {
    && r.publisher.period == period > 0
    && (forall i :: 0 <= i < |r.polls| ==> r.polls[i] <= latest)
    && (forall i :: 0 <= i < |r.bursts| ==> r.bursts[i] in r.polls)
    && (forall i :: 0 < i < |r.bursts| ==> r.bursts[i] >= r.bursts[i - 1] + period)
    && (r.bursts != [] ==>
          && r.polls != []
          && r.publisher.nextSnapshot == r.bursts[|r.bursts| - 1] + period
          && r.bursts[|r.bursts| - 1] <= r.polls[|r.polls| - 1] < r.publisher.nextSnapshot)
  }

  lemma BurstOnTime(r: Played, r': Played, now: nat, period: nat, latest: nat)
    requires OnTime(r, period, latest) && latest <= now && now + period <= MAX64 && Due(r.publisher, now)
    requires r'.publisher.period == period && r'.publisher.nextSnapshot == Schedule(r.publisher, now)
    requires r'.bursts == r.bursts + [now] && r'.polls == r.polls + [now]
    ensures OnTime(r', period, now)
  {
    assert r'.polls[|r.polls|] == now;
    forall i | 0 <= i < |r'.bursts|
      ensures r'.bursts[i] in r'.polls
    {
      assert i < |r.bursts| ==> r'.bursts[i] == r.bursts[i];
    }
  }

  lemma QuietOnTime(r: Played, r': Played, now: nat, period: nat, latest: nat)
    requires OnTime(r, period, latest) && latest <= now && !Due(r.publisher, now)
    requires r'.publisher.period == period && r'.publisher.nextSnapshot == r.publisher.nextSnapshot
    requires r'.bursts == r.bursts && r'.polls == r.polls + [now]
    ensures OnTime(r', period, now)
  {
    assert r'.polls[|r.polls|] == now;
  }

  lemma PlayOneOnTime(r: Played, t: Tick, period: nat, latest: nat)
    requires OnTime(r, period, latest) && latest <= t.now && t.now + period <= MAX64
    requires t.PollAt? ==> t.capacity > 0
    ensures OnTime(PlayOne(r, t), period, t.now)
  {
    if t.PollAt? {
      PollKeepsPeriod(r.publisher, t.now, t.capacity);
      var r' := PlayOne(r, t);
      if Due(r.publisher, t.now) {
        BurstOnTime(r, r', t.now, period, latest);
      } else {
        QuietOnTime(r, r', t.now, period, latest);
      }
      hide Poll, OnTime;
    } else {
      hide Accepts, UpdateSlot;
    }
  }

  lemma SteadyPrefix(period: nat, ticks: seq<Tick>)
    requires Steady(period, ticks) && ticks != []
    ensures var n := |ticks| - 1;
            && Steady(period, ticks[..n]) && ticks[n].now + period <= MAX64
            && (n > 0 ==> ticks[n - 1].now <= ticks[n].now)
            && (ticks[n].PollAt? ==> ticks[n].capacity > 0)
  {
  }

  /** Bursts are never less than a period apart, and once they have begun no poll ever
      returns with the last burst a period or more in the past. */
  lemma {:induction false} BurstsOnTime(p: Publisher, ticks: seq<Tick>)
    requires p.period > 0 && Steady(p.period, ticks)
    ensures OnTime(Play(p, ticks), p.period, if ticks == [] then 0 else ticks[|ticks| - 1].now)
    decreases |ticks|
  {
    if ticks != [] {
      var n := |ticks| - 1;
      SteadyPrefix(p.period, ticks);
      hide OnTime, PlayOne, Steady;
      BurstsOnTime(p, ticks[..n]);
      PlayOneOnTime(Play(p, ticks[..n]), ticks[n], p.period, if n == 0 then 0 else ticks[n - 1].now);
    }
  }

  /** Consecutive bursts are close enough. */
  ghost predicate Prompt(r: Played, period: nat, d: nat) {
    forall i :: 0 < i < |r.bursts| ==> r.bursts[i] < r.bursts[i - 1] + period + d
  }

  lemma PlayOnePrompt(r: Played, t: Tick, period: nat, d: nat, latest: nat)
    requires OnTime(r, period, latest) && Prompt(r, period, d)
    requires PollsWithin(PlayOne(r, t).polls, d)
    ensures Prompt(PlayOne(r, t), period, d)
  {
    var polls := PlayOne(r, t).polls;
    hide Poll, Update;
    if t.PollAt? && PlayOne(r, t).bursts != r.bursts && r.bursts != [] {
      assert polls[|r.polls|] - polls[|r.polls| - 1] <= d;
    }
  }

  /** If polls are at most d apart, consecutive bursts are less than a period and d
      apart. */
  lemma {:induction false} BurstsPrompt(p: Publisher, ticks: seq<Tick>, d: nat)
    requires p.period > 0 && Steady(p.period, ticks)
    requires PollsWithin(Play(p, ticks).polls, d)
    ensures Prompt(Play(p, ticks), p.period, d)
    decreases |ticks|
  {
    if ticks != [] {
      var n := |ticks| - 1;
      var r := Play(p, ticks[..n]);
      SteadyPrefix(p.period, ticks);
      BurstsOnTime(p, ticks[..n]);
      assert Play(p, ticks) == PlayOne(r, ticks[n]) && r.polls <= Play(p, ticks).polls;
      hide Play, PlayOne, Steady, OnTime, PollsWithin, Prompt;
      WithinPrefix(r.polls, Play(p, ticks).polls, d);
      BurstsPrompt(p, ticks[..n], d);
      PlayOnePrompt(r, ticks[n], p.period, d, if n == 0 then 0 else ticks[n - 1].now);
    }
  }

  // ---- the first burst ----

  /** The time of the first accepted update, then the times of the polls after it. */
  function Timeline(p: Publisher, ticks: seq<Tick>): seq<nat> {
    if ticks == [] then []
    else
      var n := |ticks| - 1;
      TimelineStep(Timeline(p, ticks[..n]), Play(p, ticks[..n]).publisher, ticks[n])
  }

  function TimelineStep(line: seq<nat>, p: Publisher, t: Tick): seq<nat> {
    match t
    case UpdateAt(v, now) => if line == [] && Accepts(p, v) then [now] else line
    case PollAt(now, _) => if line == [] then [] else line + [now]
  }

  /** Until the first burst the clock stands a period after the first update and no poll
      has passed it; the first burst then falls in the window. */
  ghost predicate Started(r: Played, line: seq<nat>, period: nat, d: nat) {
    && r.publisher.period == period > 0
    && (line == [] ==> r.bursts == [] && r.publisher.nextSnapshot == 0)
    && (line != [] && r.bursts == [] ==>
          r.publisher.nextSnapshot == line[0] + period && line[|line| - 1] < line[0] + period)
    && (line != [] && r.bursts != [] ==> line[0] + period <= r.bursts[0] < line[0] + period + d)
  }

  lemma UpdateStarts(r: Played, line: seq<nat>, v: State, now: nat, period: nat, d: nat)
    requires Started(r, line, period, d) && now + period <= MAX64
    ensures Started(PlayOne(r, UpdateAt(v, now)), TimelineStep(line, r.publisher, UpdateAt(v, now)), period, d)
  {
    hide Accepts, UpdateSlot;
  }

  lemma PollStarts(r: Played, line: seq<nat>, now: nat, capacity: nat, period: nat, d: nat)
    requires Started(r, line, period, d) && now + period <= MAX64 && capacity > 0
    requires line != [] ==> now - line[|line| - 1] <= d
    ensures Started(PlayOne(r, PollAt(now, capacity)), TimelineStep(line, r.publisher, PollAt(now, capacity)), period, d)
  {
    PollKeepsPeriod(r.publisher, now, capacity);
    hide Poll;
  }

  lemma WithinPrefix(line: seq<nat>, line': seq<nat>, d: nat)
    requires PollsWithin(line', d) && line <= line'
    ensures PollsWithin(line, d)
  {
    forall i | 0 < i < |line|
      ensures line[i] - line[i - 1] <= d
    {
      assert line[i] == line'[i] && line[i - 1] == line'[i - 1];
    }
  }

  lemma {:induction false} StartedRun(p: Publisher, ticks: seq<Tick>, d: nat)
    requires p.period > 0 && p.nextSnapshot == 0 && Steady(p.period, ticks)
    requires PollsWithin(Timeline(p, ticks), d)
    ensures Started(Play(p, ticks), Timeline(p, ticks), p.period, d)
    decreases |ticks|
  {
    if ticks != [] {
      var n := |ticks| - 1;
      var r, line, t := Play(p, ticks[..n]), Timeline(p, ticks[..n]), ticks[n];
      assert Play(p, ticks) == PlayOne(r, t) && Timeline(p, ticks) == TimelineStep(line, r.publisher, t);
      SteadyPrefix(p.period, ticks);
      assert line <= Timeline(p, ticks);
      if t.PollAt? && line != [] {
        assert Timeline(p, ticks) == line + [t.now];
        assert (line + [t.now])[|line|] - (line + [t.now])[|line| - 1] <= d;
      }
      hide Play, PlayOne, Timeline, TimelineStep, Steady, Started;
      WithinPrefix(line, Timeline(p, ticks), d);
      StartedRun(p, ticks[..n], d);
      match t {
        case UpdateAt(v, now) => UpdateStarts(r, line, v, now, p.period, d);
        case PollAt(now, capacity) => PollStarts(r, line, now, capacity, p.period, d);
      }
    }
  }

  /** The first burst: after a first update at t, with the first poll and every later one
      at most d after what came before, it falls at t + period or later but before
      t + period + d - and no poll at t + period or later returns without it. */
  lemma FirstBurst(p: Publisher, ticks: seq<Tick>, d: nat)
    requires p.period > 0 && p.nextSnapshot == 0 && Steady(p.period, ticks)
    requires PollsWithin(Timeline(p, ticks), d) && Timeline(p, ticks) != []
    ensures var bursts, line := Play(p, ticks).bursts, Timeline(p, ticks);
            if bursts == [] then line[|line| - 1] < line[0] + p.period
            else line[0] + p.period <= bursts[0] < line[0] + p.period + d
  {
    StartedRun(p, ticks, d);
    hide Play, Timeline, Steady;
  }

  /** Near the end of the clock the next snapshot is set to its last tick, not wrapped. */
  lemma ScheduleSaturates(p: Publisher, now: nat, capacity: nat)
    requires capacity > 0 && Due(p, now) && now <= 0xFFFF_FFFF_FFFF_FFFF && p.period <= 0xFFFF_FFFF_FFFF_FFFF
    ensures Poll(p, now, capacity).publisher.nextSnapshot ==
            if now + p.period <= 0xFFFF_FFFF_FFFF_FFFF then now + p.period else 0xFFFF_FFFF_FFFF_FFFF
  {
    PollKeepsPeriod(p, now, capacity);
    hide Poll;
  }

  /** A publisher made without a period has one of ten seconds. */
  lemma DefaultPeriod(source: bv16, destination: bv16, ticks: seq<Tick>, d: nat)
    requires Steady(10000, ticks)
    requires PollsWithin(Timeline(NewPublisher(source, destination, 0), ticks), d)
    requires Timeline(NewPublisher(source, destination, 0), ticks) != []
    ensures var p := NewPublisher(source, destination, 0);
            var bursts, line := Play(p, ticks).bursts, Timeline(p, ticks);
            if bursts == [] then line[|line| - 1] < line[0] + 10000
            else line[0] + 10000 <= bursts[0] < line[0] + 10000 + d
  {
    assert NewPublisher(source, destination, 0).period == 10000 && NewPublisher(source, destination, 0).nextSnapshot == 0;
    hide NewPublisher, Steady, Timeline, Play, PollsWithin;
    FirstBurst(NewPublisher(source, destination, 0), ticks, d);
  }
}
