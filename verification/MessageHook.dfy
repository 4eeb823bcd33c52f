/** The message hook's refs and the synchronous sections of its polling effect.  Each
    method is one section; `View` is the state of `PollLoop`. */
module MessageHook {
  import opened Helpers
  import opened Delivery
  import opened PollLoop
  import opened TimedDelivery
  import RateLimit

  /** `counts` holds exactly the senders of `commits`, each with its number of entries. */
  ghost predicate Tallies(counts: map<string, nat>, commits: seq<Envelope>) {
    forall x: string ::
      (if x in counts then counts[x] else 0) == CountOf(commits, x) && (x in counts <==> x in Senders(commits))
  }

  lemma TallyNext(counts: map<string, nat>, before: seq<Envelope>, e: Envelope)
    requires Tallies(counts, before)
    ensures Senders(before + [e]) == if e.sender in counts then Senders(before) else Senders(before) + [e.sender]
    ensures Tallies(counts[e.sender := (if e.sender in counts then counts[e.sender] else 0) + 1], before + [e])
  {
    var after := before + [e];
    assert after[..|after| - 1] == before;
    var next := counts[e.sender := (if e.sender in counts then counts[e.sender] else 0) + 1];
    forall x: string
      ensures (if x in next then next[x] else 0) == CountOf(after, x) && (x in next <==> x in Senders(after))
    {
      CountConcat(before, [e], x);
    }
  }

  /** How many entries each sender has, and the senders in order of first appearance. */
  method PerSenderCounts(commits: seq<Envelope>) returns (order: seq<string>, counts: map<string, nat>)
    ensures order == Senders(commits) && Tallies(counts, commits)
  {
    order, counts := [], map[];
    for i := 0 to |commits|
      invariant order == Senders(commits[..i]) && Tallies(counts, commits[..i])
    {
      var sender := commits[i].sender;
      TallyNext(counts, commits[..i], commits[i]);
      assert commits[..i + 1] == commits[..i] + [commits[i]];
      if sender !in counts {
        order := order + [sender];
      }
      counts := counts[sender := (if sender in counts then counts[sender] else 0) + 1];
    }
    assert commits[..|commits|] == commits;
  }

  /** The sender to evict from, if any holds more than `me`. */
  method EvictSender(commits: seq<Envelope>, me: string) returns (victim: Option<string>)
    ensures victim == Largest(commits, Senders(commits), me)
  {
    var order, counts := PerSenderCounts(commits);
    victim := None;
    var bar := CountOf(commits, me);
    for i := 0 to |order|
      invariant victim == Largest(commits, order[..i], me)
      invariant bar == CountOf(commits, if victim.Some? then victim.value else me)
    {
      assert order[..i + 1][..i] == order[..i];
      var sender := order[i];
      if sender != me && counts[sender] > bar {
        victim, bar := Some(sender), counts[sender];
      }
    }
    assert order[..|order|] == order;
  }

  /** Position of the sender's oldest Commit, or the length. */
  method FindCommit(queue: seq<Envelope>, sender: string) returns (i: nat)
    ensures i == FirstCommit(queue, sender)
  {
    i := 0;
    while i < |queue| && !(queue[i].kind.Commit? && queue[i].sender == sender)
      invariant i <= |queue|
      invariant FirstCommit(queue, sender) == i + FirstCommit(queue[i..], sender)
    {
      assert queue[i..][1..] == queue[i + 1..];
      i := i + 1;
    }
  }

  /** The first envelope of every id, in order. */
  method MergeById(all: seq<Envelope>) returns (combined: seq<Envelope>)
    ensures combined == Dedupe(all)
  {
    var seenIds: set<nat> := {};
    combined := [];
    for i := 0 to |all|
      invariant combined == Dedupe(all[..i])
      invariant forall e :: e in combined ==> e.id in seenIds
      invariant forall x :: x in seenIds ==> exists e :: e in combined && e.id == x
    {
      assert all[..i + 1][..i] == all[..i];
      if all[i].id !in seenIds {
        seenIds := seenIds + {all[i].id};
        combined := combined + [all[i]];
        assert all[i] in combined;
      }
    }
    assert all[..|all|] == all;
  }

  class Hook {
    var runs: seq<Run>
    var polls: seq<Poll>
    var pollInFlight: Slot
    var since: Option<Cursor>
    var deferredEnvelopes: seq<Envelope>
    var processed: seq<Envelope>
    var refused: seq<Envelope>
    var evicted: seq<Envelope>
    var delivered: seq<Envelope>
    const decryptRate: RateLimit.Limiter
    const reactionRate: RateLimit.Limiter
    ghost var clock: int
    ghost var handed: seq<HandOver>

    function Queue(): Loop
      reads this
    {
      Loop(deferredEnvelopes, processed, refused, evicted)
    }

    function View(): State
      reads this
    {
      State(runs, polls, pollInFlight, since, Queue(), delivered)
    }

    /** The state with the clock, the limiter and the session's hand-overs. */
    ghost function Session(): Timed
      reads this, decryptRate
    {
      Timed(View(), decryptRate.timestamps, clock, handed)
    }

    predicate Limited()
    {
      decryptRate.max == RateLimit.DECRYPT_RATE_MAX && decryptRate != reactionRate
    }

    constructor ()
      ensures View() == INITIAL && fresh(decryptRate) && fresh(reactionRate) && decryptRate != reactionRate
      ensures decryptRate.max == 100 && decryptRate.timestamps == map[]
      ensures reactionRate.max == 20 && reactionRate.timestamps == map[]
      ensures handed == [] && Limited()
    {
      runs, polls, pollInFlight, since := [], [], Free, None;
      deferredEnvelopes, processed, refused, evicted, delivered := [], [], [], [], [];
      decryptRate := new RateLimit.Limiter(RateLimit.DECRYPT_RATE_MAX);
      reactionRate := new RateLimit.Limiter(RateLimit.REACTION_RATE_MAX);
      clock, handed := 0, [];
    }

    /** The cleanup an effect run registers. */
    method Cleanup()
      modifies this`runs
      ensures View() == Next(old(View()), Stop)
    {
      if runs != [] {
        runs := runs[|runs| - 1 := runs[|runs| - 1].(cancelled := true)];
      }
    }

    /** The effect body up to its first poll, after the previous run's cleanup. */
    method RunEffect(group: string) returns (token: nat)
      modifies this`runs, this`polls, this`pollInFlight, this`since, this`deferredEnvelopes,
        this`processed, this`refused,
        this`evicted, this`delivered
      ensures token == |old(runs)| && View() == Next(old(View()), Start(group))
    {
      Cleanup();
      token := |runs|;
      runs := runs + [Run(group, false)];
      since := None;
      deferredEnvelopes := [];
      processed, refused, evicted, delivered := [], [], [], [];
    }

    /** The head of `poll`: claim the slot unless a poll for this group is in flight. */
    method ClaimSlot(run: nat) returns (claimed: bool)
      requires run < |runs|
      modifies this`pollInFlight, this`polls
      ensures View() == Next(old(View()), Timer(run))
      ensures claimed == !old(Blocked(View(), run))
    {
      claimed := !runs[run].cancelled && !(pollInFlight.Held? && pollInFlight.group == runs[run].group);
      if claimed {
        pollInFlight := Held(runs[run].group, run);
        polls := polls + [Poll(run, Fetching(since))];
      }
    }

    /** The `finally` of `poll`. */
    method ReleaseSlot(p: nat)
      requires Active(View(), p)
      modifies this`pollInFlight, this`polls
      ensures View() == Finish(old(View()), p)
    {
      var run := polls[p].run;
      if pollInFlight == Held(runs[run].group, run) {
        pollInFlight := Free;
      }
      polls := polls[p := polls[p].(stage := Over)];
    }

    /** The page arrived: advance the cursor, drain the queue in front of the page. */
    method OnPage(p: nat, page: seq<Envelope>)
      requires Enabled(View(), Fetched(p, page))
      modifies this`runs, this`polls, this`pollInFlight, this`since, this`deferredEnvelopes,
        this`processed, this`refused,
        this`evicted, this`delivered
      ensures View() == Next(old(View()), Fetched(p, page))
      ensures !old(RunOf(View(), p).cancelled) && page != [] ==>
        since == Some(Cursor(page[|page| - 1].ts, page[|page| - 1].id))
    {
      if runs[polls[p].run].cancelled {
        ReleaseSlot(p);
        return;
      }
      if |page| > 0 {
        since := Some(Cursor(page[|page| - 1].ts, page[|page| - 1].id));
      }
      var deferred := deferredEnvelopes;
      deferredEnvelopes := [];
      var combined := MergeById(deferred + page);
      polls := polls[p := polls[p].(stage := Working(combined))];
      delivered := delivered + page;
    }

    /** The deferral of a Commit. */
    method DeferOwnCommit(env: Envelope)
      requires env.kind.Commit?
      modifies this`deferredEnvelopes, this`refused, this`evicted
      ensures Queue() == DeferCommit(old(Queue()), env)
    {
      var commits := Commits(deferredEnvelopes);
      if |commits| >= MAX_DEFERRED_COMMITS {
        if CountOf(commits, env.sender) >= MAX_DEFERRED_COMMITS_PER_SENDER {
          refused := refused + [env];
          return;
        }
        var victim := EvictSender(commits, env.sender);
        if victim.None? {
          refused := refused + [env];
          return;
        }
        var i := FindCommit(deferredEnvelopes, victim.value);
        if i == |deferredEnvelopes| {
          refused := refused + [env];
          return;
        }
        evicted := evicted + [deferredEnvelopes[i]];
        deferredEnvelopes := deferredEnvelopes[..i] + deferredEnvelopes[i + 1..];
      }
      deferredEnvelopes := deferredEnvelopes + [env];
    }

    /** `processEnvelope` up to the hand-over.  The sender's budget is only asked for, and
        only spent, when nothing is deferred. */
    method ProcessEnvelope(group: string, env: Envelope, now: int)
      modifies this`deferredEnvelopes, this`processed, this`refused, this`evicted, decryptRate
      ensures var answer := RateLimit.Ask(old(decryptRate.timestamps), decryptRate.max, env.sender, now);
        && Queue() == Handle(old(Queue()), group, env, answer.1)
        && decryptRate.timestamps ==
             if Ours(env, group) && old(deferredEnvelopes) == [] then answer.0 else old(decryptRate.timestamps)
    {
      if env.group != group || !(env.kind.Commit? || env.kind.Application?) {
        return;
      }
      var wait := |deferredEnvelopes| > 0;
      if !wait {
        var ok := decryptRate.Within(env.sender, now);
        wait := !ok;
      }
      if !wait {
        processed := processed + [env];
      } else if env.kind.Commit? {
        DeferOwnCommit(env);
      } else if Others(deferredEnvelopes) < MAX_DEFERRED_ENVELOPES {
        deferredEnvelopes := deferredEnvelopes + [env];
      } else {
        refused := refused + [env];
      }
    }

    /** One turn of the processing loop; when it ends, sweep both rate maps and give the
        slot back. */
    method ProcessNext(p: nat, now: int)
      requires Active(View(), p) && polls[p].stage.Working? && decryptRate != reactionRate
      modifies this`runs, this`polls, this`pollInFlight, this`since, this`deferredEnvelopes,
        this`processed, this`refused,
        this`evicted, this`delivered, decryptRate, reactionRate
      ensures var s, h := old(View()), old(decryptRate.timestamps);
        if s.polls[p].stage.rest == [] || RunOf(s, p).cancelled then
          && View() == Finish(s, p) && decryptRate.timestamps == RateLimit.Sweep(h, now)
          && reactionRate.timestamps == RateLimit.Sweep(old(reactionRate.timestamps), now)
        else
          var env := s.polls[p].stage.rest[0];
          var answer := RateLimit.Ask(h, decryptRate.max, env.sender, now);
          && View() == Next(s, Work(p, answer.1))
          && decryptRate.timestamps == (if Ours(env, RunOf(s, p).group) && s.loop.deferred == [] then answer.0 else h)
          && reactionRate.timestamps == old(reactionRate.timestamps)
    {
      var rest := polls[p].stage.rest;
      var run := polls[p].run;
      if rest == [] || runs[run].cancelled {
        reactionRate.SweepStale(now);
        decryptRate.SweepStale(now);
        ReleaseSlot(p);
        return;
      }
      ProcessEnvelope(runs[run].group, rest[0], now);
      polls := polls[p := polls[p].(stage := Working(rest[1..]))];
    }

    // -------------------------------------------------------------------------
    // Schedules
    // -------------------------------------------------------------------------

    /** An event other than a poll's work. */
    method PerformOther(e: Event)
      requires Enabled(View(), e) && !e.Work?
      modifies this`runs, this`polls, this`pollInFlight, this`since, this`deferredEnvelopes,
        this`processed, this`refused,
        this`evicted, this`delivered
      ensures View() == Next(old(View()), e)
    {
      if e.Start? {
        var _ := RunEffect(e.group);
      } else if e.Stop? {
        Cleanup();
      } else if e.Timer? {
        var _ := ClaimSlot(e.run);
      } else if e.Fetched? {
        OnPage(e.poll, e.page);
      } else {
        ReleaseSlot(e.poll);
      }
    }

    /** One event at one moment.  The limiter answers by itself; `tick` only names the
        answer. */
    method Perform(tick: Stamped)
      requires Limited() && CanTick(Session(), tick)
      modifies this, decryptRate, reactionRate
      ensures Session() == AfterTick(old(Session()), tick)
    {
      ghost var x := Session();
      if tick.event.Work? {
        if !Asks(x.poll, tick.event) {
          VerdictUnused(x.poll, tick.event);
        }
        ProcessNext(tick.event.poll, tick.now);
      } else {
        PerformOther(tick.event);
      }
      clock := tick.now;
      handed := AfterTick(x, tick).handed;
    }

    method PerformAll(ticks: seq<Stamped>)
      requires Limited() && CanRun(Session(), ticks)
      modifies this, decryptRate, reactionRate
      ensures Session() == RunTicks(old(Session()), ticks)
    {
      var i := 0;
      while i < |ticks|
        invariant i <= |ticks| && CanRun(Session(), ticks[i..])
        invariant RunTicks(Session(), ticks[i..]) == RunTicks(old(Session()), ticks)
      {
        assert ticks[i..][0] == ticks[i] && ticks[i..][1..] == ticks[i + 1..];
        Perform(ticks[i]);
        i := i + 1;
      }
    }

    /** A whole session of the hook: what it hands to MLS is in server order and metered. */
    method Serve(ticks: seq<Stamped>)
      requires Limited() && Session() == Timed(INITIAL, map[], clock, []) && CanRun(Session(), ticks)
      modifies this, decryptRate, reactionRate
      ensures Session() == RunTicks(old(Session()), ticks)
      ensures Live(View()) ==> Subsequence(processed, delivered) && Ascending(processed + deferredEnvelopes)
      ensures Live(View()) ==> since == CursorOf(delivered)
      ensures forall sender :: Spread(Times(handed, sender))
    {
      OrderedAndMetered(Session(), ticks);
      PerformAll(ticks);
    }
  }

  /** One more than the bound span at least a window. */
  ghost predicate Spread(ts: seq<int>) {
    forall i :: 0 <= i && i + 100 < |ts| ==> 10_000 <= ts[i + 100] - ts[i]
  }

  /** A verdict that is not asked for makes no difference. */
  lemma VerdictUnused(s: State, e: Event)
    requires Enabled(s, e) && e.Work? && !Asks(s, e)
    ensures forall ok :: Next(s, e) == Next(s, Work(e.poll, ok))
  {
  }

  lemma OrderedAndMetered(x: Timed, ticks: seq<Stamped>)
    requires x == Timed(INITIAL, map[], x.clock, []) && CanRun(x, ticks)
    ensures var y := RunTicks(x, ticks);
      && (Live(y.poll) ==>
            && Subsequence(y.poll.loop.processed, y.poll.delivered)
            && Ascending(y.poll.loop.processed + y.poll.loop.deferred)
            && y.poll.since == CursorOf(y.poll.delivered))
      && (forall sender :: Spread(Times(y.handed, sender)))
  {
    var y := RunTicks(x, ticks);
    TicksKeepInv(x, ticks);
    RunMetered(x, ticks);
    forall sender ensures Spread(Times(y.handed, sender)) {
      var ts := Times(y.handed, sender);
      forall i: nat | i + 100 < |ts| ensures 10_000 <= ts[i + 100] - ts[i] {
        HandOverRate(x.clock, ticks, sender, i);
      }
    }
    if Live(y.poll) {
      LiveIsOrdered(y.poll);
    }
  }

  lemma {:induction false} TicksKeepInv(x: Timed, ticks: seq<Stamped>)
    requires PollLoop.Inv(x.poll) && CanRun(x, ticks)
    ensures PollLoop.Inv(RunTicks(x, ticks).poll)
    decreases |ticks|
  {
    if ticks != [] {
      NextInv(x.poll, ticks[0].event);
      TicksKeepInv(AfterTick(x, ticks[0]), ticks[1..]);
    }
  }

  lemma LiveIsOrdered(s: State)
    requires PollLoop.Inv(s) && Live(s)
    ensures Subsequence(s.loop.processed, s.delivered) && Ascending(s.loop.processed + s.loop.deferred)
  {
    var rest := RemainingOf(s);
    OrderlyOf(s, rest);
    ProcessedIsSubsequence(s.loop, s.delivered, rest);
    var line, front := Line(s.loop, rest), s.loop.processed + s.loop.deferred;
    assert front == line[..|front|];
  }
}
