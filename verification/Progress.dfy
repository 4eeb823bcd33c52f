/** Deferral terminates: once the sender at the head of the queue has been silent for a
    window, a poll hands over at least one envelope. */
module Progress {
  import opened Delivery
  import opened PollLoop
  import opened Retry
  import opened TimedDelivery
  import R = RateLimit

  /** Nothing of `sender` was handed over within a window before `now`. */
  ghost predicate Silent(x: Timed, sender: string, now: int) {
    forall i :: 0 <= i < |Times(x.handed, sender)| ==> 10_000 <= now - Times(x.handed, sender)[i]
  }

  lemma {:induction false} NoneRecent(ts: seq<int>, now: int)
    requires forall i :: 0 <= i < |ts| ==> 10_000 <= now - ts[i]
    ensures R.Recent(ts, now) == []
  {
    if ts != [] {
      NoneRecent(ts[..|ts| - 1], now);
    }
  }

  lemma SilentIsAdmitted(x: Timed, sender: string, now: int)
    requires Metered(x) && x.clock <= now && Silent(x, sender, now)
    ensures R.Ask(x.rates, R.DECRYPT_RATE_MAX, sender, now).1
  {
    var all := Times(x.handed, sender);
    R.TracksLater(x.rates, all, R.DECRYPT_RATE_MAX, x.clock, now, sender);
    NoneRecent(all, now);
  }

  function Events(ticks: seq<Stamped>): seq<Event> {
    if ticks == [] then [] else [ticks[0].event] + Events(ticks[1..])
  }

  /** Forgetting the clock and the limiter leaves a run of the polling effect. */
  lemma {:induction false} TicksAreRun(x: Timed, ticks: seq<Stamped>)
    requires CanRun(x, ticks)
    ensures Valid(x.poll, Events(ticks)) && RunAll(x.poll, Events(ticks)) == RunTicks(x, ticks).poll
    decreases |ticks|
  {
    if ticks != [] {
      TicksAreRun(AfterTick(x, ticks[0]), ticks[1..]);
      assert Events(ticks)[1..] == Events(ticks[1..]);
    }
  }

  /** The live poll `p` is about to handle an envelope of ours with nothing deferred. */
  ghost predicate AtWork(s: State, p: nat) {
    && Slotted(s) && Live(s) && LivePoll(s, p) && s.polls[p].stage.Working?
    && s.polls[p].stage.rest != [] && Ours(s.polls[p].stage.rest[0], Group(s)) && s.loop.deferred == []
  }

  /** Until the live poll works, nobody asks the limiter for a hand-over. */
  lemma WaitsForWork(x: Timed, tick: Stamped, p: nat)
    requires AtWork(x.poll, p) && CanTick(x, tick) && !(tick.event.Work? && tick.event.poll == p)
    requires Live(Next(x.poll, tick.event)) && |Next(x.poll, tick.event).runs| == |x.poll.runs|
    ensures var y := AfterTick(x, tick);
      AtWork(y.poll, p) && y.poll.polls[p] == x.poll.polls[p] && y.handed == x.handed
  {
    OnlyItsWork(x.poll, tick.event, p);
    NextSlotted(x.poll, tick.event);
  }

  /** The head is handed over at the live poll's first turn. */
  lemma {:induction false} FirstTurnHandsOver(x: Timed, ticks: seq<Stamped>, p: nat)
    requires Metered(x) && AtWork(x.poll, p) && CanRun(x, ticks) && ticks != []
    requires Silent(x, x.poll.polls[p].stage.rest[0].sender, ticks[0].now)
    requires Live(RunTicks(x, ticks).poll) && |RunTicks(x, ticks).poll.runs| == |x.poll.runs|
    ensures var oks := Verdicts(Events(ticks), p); oks != [] ==> oks[0]
    decreases |ticks|
  {
    var tick, y := ticks[0], AfterTick(x, ticks[0]);
    var sender := x.poll.polls[p].stage.rest[0].sender;
    assert Events(ticks)[0] == tick.event && Events(ticks)[1..] == Events(ticks[1..]);
    if tick.event.Work? && tick.event.poll == p {
      SilentIsAdmitted(x, sender, tick.now);
    } else if ticks[1..] != [] {
      TicksAreRun(y, ticks[1..]);
      RunsOnlyGrow(y.poll, Events(ticks[1..]));
      NextGrows(x.poll, tick.event);
      WaitsForWork(x, tick, p);
      TickMetered(x, tick);
      assert tick.now <= ticks[1].now;
      FirstTurnHandsOver(y, ticks[1..], p);
    }
  }

  lemma {:induction false} HandedGrows(l: Loop, group: string, es: seq<Envelope>, oks: seq<bool>)
    requires |es| == |oks|
    ensures |l.processed| <= |HandleAll(l, group, es, oks).processed|
    decreases |es|
  {
    if es != [] {
      HandleTakes(l, group, es[0], oks[0]);
      HandedGrows(Handle(l, group, es[0], oks[0]), group, es[1..], oks[1..]);
    }
  }

  /** A poll of the live run that fetched nothing new, started when the sender at the head
      of the queue has been silent for ten seconds, and worked to its end with anything in
      between that leaves the run live: it hands over a non-empty prefix of the queue and
      leaves exactly the rest, which is shorter. */
  lemma QueueShrinks(x: Timed, p: nat, now: int, ticks: seq<Stamped>)
    requires Metered(x) && Inv(x.poll) && Live(x.poll) && LivePoll(x.poll, p) && x.poll.loop.deferred != []
    requires Silent(x, x.poll.loop.deferred[0].sender, now) && CanTick(x, Stamped(Fetched(p, []), now))
    requires CanRun(AfterTick(x, Stamped(Fetched(p, []), now)), ticks)
    requires Finished(x.poll, RunTicks(AfterTick(x, Stamped(Fetched(p, []), now)), ticks).poll, p)
    ensures var t := RunTicks(AfterTick(x, Stamped(Fetched(p, []), now)), ticks).poll;
      exists n :: 0 < n && SplitAt(Drain(x.poll.loop), x.poll.loop.deferred, t.loop, n)
  {
    var s, fetch := x.poll, Stamped(Fetched(p, []), now);
    var y := AfterTick(x, fetch);
    var t := RunTicks(y, ticks).poll;
    TicksAreRun(y, ticks);
    EmptyPollLeavesSuffix(s, p, Events(ticks));
    var n :| SplitAt(Drain(s.loop), s.loop.deferred, t.loop, n);
    HeadHandedOver(x, p, now, ticks);
    assert |t.loop.processed| == |s.loop.processed| + n;
  }

  /** The run is the same, and poll `p` has no work left. */
  predicate Finished(s: State, t: State, p: nat) {
    Live(t) && |t.runs| == |s.runs| && p < |t.polls| && t.polls[p].stage == Working([])
  }

  lemma HeadHandedOver(x: Timed, p: nat, now: int, ticks: seq<Stamped>)
    requires Metered(x) && Inv(x.poll) && Live(x.poll) && LivePoll(x.poll, p) && x.poll.loop.deferred != []
    requires Silent(x, x.poll.loop.deferred[0].sender, now) && CanTick(x, Stamped(Fetched(p, []), now))
    requires CanRun(AfterTick(x, Stamped(Fetched(p, []), now)), ticks)
    requires Finished(x.poll, RunTicks(AfterTick(x, Stamped(Fetched(p, []), now)), ticks).poll, p)
    ensures |x.poll.loop.processed| < |RunTicks(AfterTick(x, Stamped(Fetched(p, []), now)), ticks).poll.loop.processed|
  {
    var s, fetch := x.poll, Stamped(Fetched(p, []), now);
    var y := AfterTick(x, fetch);
    var d, oks := s.loop.deferred, Verdicts(Events(ticks), p);
    assert d + [] == d;
    TicksAreRun(y, ticks);
    FetchStarts(s, p, []);
    PollIsTick(s, p, [], Events(ticks));
    FetchStartsWork(x, p, now);
    assert ticks != [] ==> now <= ticks[0].now;
    FirstTurnHandsOver(y, ticks, p);
    HandedGrows(Handle(Drain(s.loop), Group(s), d[0], true), Group(s), d[1..], oks[1..]);
  }

  /** An empty page puts the live poll to work on the head of the queue. */
  lemma FetchStartsWork(x: Timed, p: nat, now: int)
    requires Metered(x) && Inv(x.poll) && Live(x.poll) && LivePoll(x.poll, p) && x.poll.loop.deferred != []
    requires CanTick(x, Stamped(Fetched(p, []), now))
    ensures var y := AfterTick(x, Stamped(Fetched(p, []), now));
      && Metered(y) && AtWork(y.poll, p) && y.handed == x.handed
      && y.poll.polls[p].stage.rest == x.poll.loop.deferred
  {
    var fetch := Stamped(Fetched(p, []), now);
    FetchStarts(x.poll, p, []);
    assert x.poll.loop.deferred + [] == x.poll.loop.deferred;
    TickMetered(x, fetch);
    NextSlotted(x.poll, fetch.event);
  }
}
