/** The polling effect with its clock and its decrypt-rate limiter: the verdict of every
    hand-over is the limiter's own. */
module TimedDelivery {
  import opened Helpers
  import opened Delivery
  import opened PollLoop
  import R = RateLimit

  datatype HandOver = HandOver(sender: string, at: int)

  /** `handed` is every hand-over of the session, across effect runs. */
  datatype Timed = Timed(poll: State, rates: R.History, clock: int, handed: seq<HandOver>)

  datatype Stamped = Stamped(event: Event, now: int)

  /** The step reaches the rate limit: the next envelope is ours and nothing is deferred. */
  predicate Asks(s: State, e: Event) {
    && e.Work? && Active(s, e.poll) && s.polls[e.poll].stage.Working?
    && s.polls[e.poll].stage.rest != [] && !RunOf(s, e.poll).cancelled
    && Ours(s.polls[e.poll].stage.rest[0], RunOf(s, e.poll).group) && s.loop.deferred == []
  }

  /** The step ends a poll's processing loop and sweeps the limiter. */
  predicate Sweeps(s: State, e: Event) {
    && e.Work? && Active(s, e.poll) && s.polls[e.poll].stage.Working?
    && (s.polls[e.poll].stage.rest == [] || RunOf(s, e.poll).cancelled)
  }

  function SenderOf(s: State, e: Event): string
    requires Asks(s, e)
  {
    s.polls[e.poll].stage.rest[0].sender
  }

  /** What the limiter is told in this step. */
  function Told(s: State, tick: Stamped): Option<R.Event> {
    if Asks(s, tick.event) then Some(R.Question(SenderOf(s, tick.event), tick.now))
    else if Sweeps(s, tick.event) then Some(R.Clean(tick.now))
    else None
  }

  ghost predicate CanTick(x: Timed, tick: Stamped) {
    && Enabled(x.poll, tick.event) && x.clock <= tick.now
    && (Asks(x.poll, tick.event) ==>
          tick.event.ok == R.Ask(x.rates, R.DECRYPT_RATE_MAX, SenderOf(x.poll, tick.event), tick.now).1)
  }

  ghost function AfterTick(x: Timed, tick: Stamped): Timed
    requires CanTick(x, tick)
  {
    var told := Told(x.poll, tick);
    Timed(
      Next(x.poll, tick.event),
      if told.Some? then R.After(x.rates, R.DECRYPT_RATE_MAX, told.value) else x.rates,
      tick.now,
      if Asks(x.poll, tick.event) && tick.event.ok
      then x.handed + [HandOver(SenderOf(x.poll, tick.event), tick.now)] else x.handed)
  }

  function Times(handed: seq<HandOver>, sender: string): seq<int> {
    if handed == [] then []
    else
      Times(handed[..|handed| - 1], sender)
      + if handed[|handed| - 1].sender == sender then [handed[|handed| - 1].at] else []
  }

  /** The live run's processed log is the end of the session's hand-overs. */
  ghost predicate Tail(processed: seq<Envelope>, handed: seq<HandOver>) {
    && |processed| <= |handed|
    && (forall i :: 0 <= i < |processed| ==> handed[|handed| - |processed| + i].sender == processed[i].sender)
  }

  ghost predicate Metered(x: Timed) {
    && (forall sender :: R.Tracks(x.rates, Times(x.handed, sender), R.DECRYPT_RATE_MAX, x.clock, sender))
    && Tail(x.poll.loop.processed, x.handed)
  }

  lemma RatesTracked(x: Timed, tick: Stamped, sender: string)
    requires CanTick(x, tick) && R.Tracks(x.rates, Times(x.handed, sender), R.DECRYPT_RATE_MAX, x.clock, sender)
    ensures var y := AfterTick(x, tick); R.Tracks(y.rates, Times(y.handed, sender), R.DECRYPT_RATE_MAX, y.clock, sender)
  {
    var all := Times(x.handed, sender);
    R.TracksLater(x.rates, all, R.DECRYPT_RATE_MAX, x.clock, tick.now, sender);
    var told := Told(x.poll, tick);
    if told.Some? {
      R.TracksEvent(x.rates, all, R.DECRYPT_RATE_MAX, told.value, sender);
    }
    TimesAfter(x, tick, sender);
  }

  lemma TimesAfter(x: Timed, tick: Stamped, sender: string)
    requires CanTick(x, tick)
    ensures var all, told := Times(x.handed, sender), Told(x.poll, tick);
      Times(AfterTick(x, tick).handed, sender)
      == if told.Some? && R.Admits(x.rates, R.DECRYPT_RATE_MAX, told.value, sender) then all + [tick.now] else all
  {
    var y := AfterTick(x, tick);
    assert y.handed != x.handed ==> y.handed[..|y.handed| - 1] == x.handed;
  }

  /** A step hands over exactly when it asks and is admitted. */
  lemma HandOverIsAdmitted(s: State, e: Event)
    requires Enabled(s, e) && !e.Start?
    ensures Next(s, e).loop.processed
      == s.loop.processed + if Asks(s, e) && e.ok then [s.polls[e.poll].stage.rest[0]] else []
  {
    if e.Work? && s.polls[e.poll].stage.rest != [] && !RunOf(s, e.poll).cancelled {
      HandleTakes(s.loop, RunOf(s, e.poll).group, s.polls[e.poll].stage.rest[0], e.ok);
    }
  }

  lemma TickMetered(x: Timed, tick: Stamped)
    requires Metered(x) && CanTick(x, tick)
    ensures Metered(AfterTick(x, tick))
  {
    var y := AfterTick(x, tick);
    forall sender ensures R.Tracks(y.rates, Times(y.handed, sender), R.DECRYPT_RATE_MAX, y.clock, sender) {
      RatesTracked(x, tick, sender);
    }
    if !tick.event.Start? {
      HandOverIsAdmitted(x.poll, tick.event);
    }
  }

  ghost predicate CanRun(x: Timed, ticks: seq<Stamped>)
    decreases |ticks|
  {
    ticks == [] || (CanTick(x, ticks[0]) && CanRun(AfterTick(x, ticks[0]), ticks[1..]))
  }

  ghost function RunTicks(x: Timed, ticks: seq<Stamped>): Timed
    requires CanRun(x, ticks)
    decreases |ticks|
  {
    if ticks == [] then x else RunTicks(AfterTick(x, ticks[0]), ticks[1..])
  }

  lemma {:induction false} RunMetered(x: Timed, ticks: seq<Stamped>)
    requires Metered(x) && CanRun(x, ticks)
    ensures Metered(RunTicks(x, ticks))
    decreases |ticks|
  {
    if ticks != [] {
      TickMetered(x, ticks[0]);
      RunMetered(AfterTick(x, ticks[0]), ticks[1..]);
    }
  }

  /** In every session, through every group switch and every deferral and retry: any 101
      envelopes of one sender handed to MLS span at least ten seconds, and the live run's
      processed log is the end of that log. */
  lemma HandOverRate(clock: int, ticks: seq<Stamped>, sender: string, i: nat)
    requires CanRun(Timed(INITIAL, map[], clock, []), ticks)
    requires var ts := Times(RunTicks(Timed(INITIAL, map[], clock, []), ticks).handed, sender);
      i + 100 < |ts|
    ensures var x := RunTicks(Timed(INITIAL, map[], clock, []), ticks); var ts := Times(x.handed, sender);
      10_000 <= ts[i + 100] - ts[i] && Tail(x.poll.loop.processed, x.handed)
  {
    RunMetered(Timed(INITIAL, map[], clock, []), ticks);
    var x := RunTicks(Timed(INITIAL, map[], clock, []), ticks);
    assert R.Tracks(x.rates, Times(x.handed, sender), R.DECRYPT_RATE_MAX, x.clock, sender);
  }

  /** In every session, the next envelope of ours, with nothing deferred, is handed over if and
      only if fewer than 100 of its sender's were handed over within the last ten seconds. */
  lemma HandedOverExactlyWhen(clock: int, ticks: seq<Stamped>, tick: Stamped)
    requires CanRun(Timed(INITIAL, map[], clock, []), ticks)
    requires var x := RunTicks(Timed(INITIAL, map[], clock, []), ticks); CanTick(x, tick) && Asks(x.poll, tick.event)
    ensures var x := RunTicks(Timed(INITIAL, map[], clock, []), ticks);
      var e := x.poll.polls[tick.event.poll].stage.rest[0];
      if R.CountRecent(Times(x.handed, e.sender), tick.now) < 100
      then Next(x.poll, tick.event).loop.processed == x.poll.loop.processed + [e]
      else Next(x.poll, tick.event).loop.processed == x.poll.loop.processed
  {
    var x := RunTicks(Timed(INITIAL, map[], clock, []), ticks);
    var sender := SenderOf(x.poll, tick.event);
    RunMetered(Timed(INITIAL, map[], clock, []), ticks);
    var all := Times(x.handed, sender);
    R.TracksLater(x.rates, all, R.DECRYPT_RATE_MAX, x.clock, tick.now, sender);
    R.RecentCounts(all, tick.now);
    HandOverIsAdmitted(x.poll, tick.event);
  }
}
