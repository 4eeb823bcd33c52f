/** What becomes of the deferred queue over the life of an effect run: it is retried in
    front of every page, poll after poll, with other events in between. */
module Retry {
  import opened Delivery
  import opened PollLoop

  // ---------------------------------------------------------------------------
  // A deferred Application is never lost
  // ---------------------------------------------------------------------------

  /** `x` is in a part of the work that still fits under both caps behind the queue. */
  ghost predicate InRetry(l: Loop, group: string, rest: seq<Envelope>, x: Envelope) {
    exists n: nat :: Fitting(l, group, rest, x, n)
  }

  ghost predicate Fitting(l: Loop, group: string, rest: seq<Envelope>, x: Envelope, n: nat) {
    n <= |rest| && x in rest[..n] && Fits(l.deferred + rest[..n], group)
  }

  predicate Safe(l: Loop, x: Envelope) { x in l.processed || x in l.deferred }

  lemma HandleKeepsSafe(l: Loop, group: string, e: Envelope, ok: bool, x: Envelope)
    requires x.kind.Application? && Safe(l, x)
    ensures Safe(Handle(l, group, e, ok), x)
  {
    HandleAllKeeps(l, group, [e], [ok], x);
    assert [e][1..] == [] && [ok][1..] == [];
    assert HandleAll(l, group, [e], [ok]) == Handle(l, group, e, ok);
  }

  lemma FitsTail(e: Envelope, ys: seq<Envelope>, group: string)
    requires Fits([e] + ys, group)
    ensures Ours(e, group) && Fits(ys, group)
  {
    CommitsConcat([e], ys);
    assert ([e] + ys)[0] == e;
    assert forall k :: 0 <= k < |ys| ==> ys[k] == ([e] + ys)[k + 1];
  }

  /** Behind the queue there is room for what fits. */
  lemma RoomToDefer(l: Loop, group: string, e: Envelope, ys: seq<Envelope>, ok: bool)
    requires Fits(l.deferred + ([e] + ys), group) && (l.deferred != [] || !ok)
    ensures Handle(l, group, e, ok) == l.(deferred := l.deferred + [e])
  {
    assert (l.deferred + ([e] + ys))[|l.deferred|] == e;
    CommitsConcat(l.deferred, [e] + ys);
    CommitsConcat([e], ys);
  }

  /** Handling the first of what fits leaves the others fitting. */
  lemma HandleFits(l: Loop, group: string, e: Envelope, ys: seq<Envelope>, ok: bool)
    requires Fits(l.deferred + ([e] + ys), group)
    ensures Safe(Handle(l, group, e, ok), e) && Fits(Handle(l, group, e, ok).deferred + ys, group)
  {
    var t := Handle(l, group, e, ok);
    if l.deferred == [] && ok {
      assert l.deferred + ([e] + ys) == [e] + ys && [] + ys == ys;
      FitsTail(e, ys, group);
      assert t.deferred == [] && t.processed[|l.processed|] == e;
    } else {
      RoomToDefer(l, group, e, ys, ok);
      assert t.deferred[|l.deferred|] == e;
      assert t.deferred + ys == l.deferred + ([e] + ys);
    }
  }

  lemma HandleRetries(l: Loop, group: string, rest: seq<Envelope>, ok: bool, x: Envelope, n: nat)
    requires Fitting(l, group, rest, x, n)
    ensures rest != []
    ensures Safe(Handle(l, group, rest[0], ok), x) || InRetry(Handle(l, group, rest[0], ok), group, rest[1..], x)
  {
    var e, ys := rest[0], rest[1..][..n - 1];
    assert rest[..n] == [e] + ys;
    HandleFits(l, group, e, ys, ok);
    if x != e {
      assert Fitting(Handle(l, group, e, ok), group, rest[1..], x, n - 1);
    }
  }

  /** `x` is handed over, deferred, or in the part of the live poll's work that fits. */
  ghost predicate Held(s: State, x: Envelope)
    requires Live(s)
  {
    || Safe(s.loop, x)
    || exists p: nat :: LivePoll(s, p) && InRetry(s.loop, Group(s), RestIn(s.polls[p].stage), x)
  }

  lemma HeldBy(s: State, p: nat, x: Envelope)
    requires Slotted(s) && Live(s) && LivePoll(s, p) && Held(s, x)
    ensures Safe(s.loop, x) || InRetry(s.loop, Group(s), RestIn(s.polls[p].stage), x)
  {
    forall q: nat | LivePoll(s, q) ensures q == p {
    }
  }

  lemma WorkHeld(s: State, p: nat, ok: bool, x: Envelope)
    requires Inv(s) && Live(s) && Enabled(s, Work(p, ok)) && LivePoll(s, p) && x.kind.Application? && Held(s, x)
    ensures Held(Next(s, Work(p, ok)), x)
  {
    var rest, t := s.polls[p].stage.rest, Next(s, Work(p, ok));
    HeldBy(s, p, x);
    if rest != [] {
      assert LivePoll(t, p) && t.polls[p].stage == Working(rest[1..]);
      if Safe(s.loop, x) {
        HandleKeepsSafe(s.loop, Group(s), rest[0], ok, x);
      } else {
        var n: nat :| Fitting(s.loop, Group(s), rest, x, n);
        HandleRetries(s.loop, Group(s), rest, ok, x, n);
      }
    }
  }

  /** The page arrives at a queue that fits and goes behind it unchanged. */
  lemma FetchStarts(s: State, p: nat, page: seq<Envelope>)
    requires Inv(s) && Live(s) && Enabled(s, Fetched(p, page)) && LivePoll(s, p)
    ensures Fits(s.loop.deferred, Group(s))
    ensures Dedupe(s.loop.deferred + page) == s.loop.deferred + page
  {
    FetchInOrder(s.loop, s.delivered, page);
    FetchDedupes(s.loop, s.delivered, page);
  }

  lemma FetchHeld(s: State, p: nat, page: seq<Envelope>, x: Envelope)
    requires Inv(s) && Live(s) && Enabled(s, Fetched(p, page)) && LivePoll(s, p) && Held(s, x)
    ensures Held(Next(s, Fetched(p, page)), x)
  {
    HeldBy(s, p, x);
    FetchStarts(s, p, page);
    StartsHeld(s, p, page, x);
  }

  lemma StartsHeld(s: State, p: nat, page: seq<Envelope>, x: Envelope)
    requires Live(s) && LivePoll(s, p) && Safe(s.loop, x) && Fits(s.loop.deferred, Group(s))
    requires Enabled(s, Fetched(p, page)) && Dedupe(s.loop.deferred + page) == s.loop.deferred + page
    ensures Held(Next(s, Fetched(p, page)), x)
  {
    var t, d := Next(s, Fetched(p, page)), s.loop.deferred;
    if x in d {
      assert (d + page)[..|d|] == d && [] + d == d;
      assert Fitting(t.loop, Group(s), d + page, x, |d|);
      assert LivePoll(t, p) && RestIn(t.polls[p].stage) == d + page;
    }
  }

  /** Events of other runs' polls, timers and failures leave the loop and the live poll's
      work alone. */
  lemma OthersHeld(s: State, e: Event, x: Envelope)
    requires Slotted(s) && Live(s) && Enabled(s, e) && Live(Next(s, e)) && |Next(s, e).runs| == |s.runs| && Held(s, x)
    requires (e.Work? || e.Fetched?) ==> !LivePoll(s, e.poll)
    ensures Held(Next(s, e), x)
  {
    var t := Next(s, e);
    assert t.loop == s.loop && Group(t) == Group(s);
    if !Safe(s.loop, x) {
      var q: nat :| LivePoll(s, q) && InRetry(s.loop, Group(s), RestIn(s.polls[q].stage), x);
      LivePollBlocks(s, q);
      assert LivePoll(t, q) && t.polls[q] == s.polls[q];
    }
  }

  lemma NextHeld(s: State, e: Event, x: Envelope)
    requires Inv(s) && Live(s) && Enabled(s, e) && Live(Next(s, e)) && |Next(s, e).runs| == |s.runs|
    requires x.kind.Application? && Held(s, x)
    ensures Held(Next(s, e), x)
  {
    if e.Work? && LivePoll(s, e.poll) {
      WorkHeld(s, e.poll, e.ok, x);
    } else if e.Fetched? && LivePoll(s, e.poll) {
      FetchHeld(s, e.poll, e.page, x);
    } else {
      OthersHeld(s, e, x);
    }
  }

  lemma {:induction false} RunsOnlyGrow(s: State, es: seq<Event>)
    requires Valid(s, es)
    ensures |s.runs| <= |RunAll(s, es).runs|
    ensures |RunAll(s, es).runs| == |s.runs| && Live(RunAll(s, es)) ==> Live(s)
    decreases |es|
  {
    if es != [] {
      RunsOnlyGrow(Next(s, es[0]), es[1..]);
    }
  }

  lemma {:induction false} RunHeld(s: State, es: seq<Event>, x: Envelope)
    requires Inv(s) && Live(s) && Valid(s, es) && Live(RunAll(s, es)) && |RunAll(s, es).runs| == |s.runs|
    requires x.kind.Application? && Held(s, x)
    ensures Held(RunAll(s, es), x)
    decreases |es|
  {
    if es != [] {
      RunsOnlyGrow(Next(s, es[0]), es[1..]);
      NextInv(s, es[0]);
      NextGrows(s, es[0]);
      NextHeld(s, es[0], x);
      RunHeld(Next(s, es[0]), es[1..], x);
    }
  }

  lemma NextGrows(s: State, e: Event)
    requires Enabled(s, e)
    ensures |s.runs| <= |Next(s, e).runs|
  {
  }

  /** Over the life of an effect run, whatever pages arrive and however its polls are
      interleaved with timers, failures and other runs' polls: an Application that was once
      deferred is, at every later moment, handed over, deferred or about to be handled.  It
      is never refused. */
  lemma ApplicationsAreNotLost(before: seq<Event>, after: seq<Event>, x: Envelope)
    requires Valid(INITIAL, before) && Live(RunAll(INITIAL, before)) && Valid(RunAll(INITIAL, before), after)
    requires x.kind.Application? && x in RunAll(INITIAL, before).loop.deferred
    requires var t := RunAll(RunAll(INITIAL, before), after); Live(t) && |t.runs| == |RunAll(INITIAL, before).runs|
    ensures Held(RunAll(RunAll(INITIAL, before), after), x)
  {
    RunInv(INITIAL, before);
    RunHeld(RunAll(INITIAL, before), after, x);
  }

  // ---------------------------------------------------------------------------
  // A poll is a tick
  // ---------------------------------------------------------------------------

  /** The rate limiter's answers to poll `p`'s work, in order. */
  function Verdicts(es: seq<Event>, p: nat): seq<bool> {
    if es == [] then [] else (if es[0].Work? && es[0].poll == p then [es[0].ok] else []) + Verdicts(es[1..], p)
  }

  lemma {:induction false} OverStays(s: State, es: seq<Event>, p: nat)
    requires Valid(s, es) && p < |s.polls| && s.polls[p].stage.Over?
    ensures p < |RunAll(s, es).polls| && RunAll(s, es).polls[p].stage.Over?
    decreases |es|
  {
    if es != [] {
      OverStays(Next(s, es[0]), es[1..], p);
    }
  }

  /** While the live run's poll works, nobody else touches the loop or its work. */
  lemma OnlyItsWork(s: State, e: Event, p: nat)
    requires Slotted(s) && Live(s) && LivePoll(s, p) && s.polls[p].stage.Working? && Enabled(s, e)
    requires Live(Next(s, e)) && |Next(s, e).runs| == |s.runs| && !(e.Work? && e.poll == p)
    ensures LivePoll(Next(s, e), p) && Next(s, e).polls[p] == s.polls[p]
    ensures Next(s, e).loop == s.loop && Group(Next(s, e)) == Group(s)
  {
    LivePollBlocks(s, p);
  }

  lemma OneWork(s: State, e: Event, p: nat)
    requires Slotted(s) && Live(s) && LivePoll(s, p) && e.Work?
    requires e.poll == p && Enabled(s, e) && s.polls[p].stage.rest != []
    ensures var t := Next(s, e);
      && LivePoll(t, p) && Live(t) && Group(t) == Group(s)
      && t.polls[p].stage == Working(s.polls[p].stage.rest[1..])
      && t.loop == Handle(s.loop, Group(s), s.polls[p].stage.rest[0], e.ok)
  {
  }

  /** `t` is `s` after poll `p` handled the first envelopes of its work with `oks`. */
  ghost predicate Folded(s: State, t: State, p: nat, oks: seq<bool>)
    requires Live(s) && LivePoll(s, p) && s.polls[p].stage.Working?
  {
    var rest := s.polls[p].stage.rest;
    && |oks| <= |rest| && p < |t.polls|
    && t.polls[p].stage == Working(rest[|oks|..])
    && t.loop == HandleAll(s.loop, Group(s), rest[..|oks|], oks)
  }

  lemma FoldCons(l: Loop, group: string, rest: seq<Envelope>, ok: bool, oks: seq<bool>)
    requires |oks| < |rest|
    ensures rest[1..][|oks|..] == rest[|oks| + 1..]
    ensures HandleAll(l, group, rest[..|oks| + 1], [ok] + oks) ==
      HandleAll(Handle(l, group, rest[0], ok), group, rest[1..][..|oks|], oks)
  {
    assert rest[..|oks| + 1][1..] == rest[1..][..|oks|] && ([ok] + oks)[1..] == oks;
  }

  lemma {:induction false} WorkFolds(s: State, es: seq<Event>, p: nat)
    requires Slotted(s) && Live(s) && LivePoll(s, p) && s.polls[p].stage.Working?
    requires Valid(s, es) && Live(RunAll(s, es)) && |RunAll(s, es).runs| == |s.runs|
    requires p < |RunAll(s, es).polls| && !RunAll(s, es).polls[p].stage.Over?
    ensures Folded(s, RunAll(s, es), p, Verdicts(es, p))
    decreases |es|
  {
    var rest := s.polls[p].stage.rest;
    if es == [] {
      assert rest[0..] == rest && rest[..0] == [];
    } else {
      var e, t := es[0], Next(s, es[0]);
      RunsOnlyGrow(t, es[1..]);
      NextGrows(s, e);
      NextSlotted(s, e);
      if e.Work? && e.poll == p {
        if rest == [] {
          OverStays(t, es[1..], p);
        } else {
          OneWork(s, e, p);
          WorkFolds(t, es[1..], p);
          assert Verdicts(es, p) == [e.ok] + Verdicts(es[1..], p);
          FoldCons(s.loop, Group(s), rest, e.ok, Verdicts(es[1..], p));
        }
      } else {
        OnlyItsWork(s, e, p);
        WorkFolds(t, es[1..], p);
        assert Verdicts(es, p) == Verdicts(es[1..], p);
      }
    }
  }

  /** A page fetched by the live run and all its work, interleaved with anything that
      leaves the run live, is one tick of the delivery loop. */
  lemma PollIsTick(s: State, p: nat, page: seq<Envelope>, es: seq<Event>)
    requires Slotted(s) && Live(s) && LivePoll(s, p) && Enabled(s, Fetched(p, page))
    requires Valid(Next(s, Fetched(p, page)), es)
    requires var t := RunAll(Next(s, Fetched(p, page)), es);
      Live(t) && |t.runs| == |s.runs| && p < |t.polls| && t.polls[p].stage == Working([])
    ensures |Verdicts(es, p)| == |Dedupe(s.loop.deferred + page)|
    ensures RunAll(Next(s, Fetched(p, page)), es).loop == Tick(s.loop, Group(s), page, Verdicts(es, p))
  {
    var t := Next(s, Fetched(p, page));
    NextSlotted(s, Fetched(p, page));
    WorkFolds(t, es, p);
    var rest, oks := t.polls[p].stage.rest, Verdicts(es, p);
    assert rest[..|oks|] == rest;
  }

  /** Over the life of a run, a poll that fetched nothing new hands over a prefix of the
      old queue and leaves exactly the rest of it deferred. */
  lemma EmptyPollLeavesSuffix(s: State, p: nat, es: seq<Event>)
    requires Inv(s) && Live(s) && LivePoll(s, p) && Enabled(s, Fetched(p, [])) && Valid(Next(s, Fetched(p, [])), es)
    requires var t := RunAll(Next(s, Fetched(p, [])), es);
      Live(t) && |t.runs| == |s.runs| && p < |t.polls| && t.polls[p].stage == Working([])
    ensures exists n :: SplitAt(Drain(s.loop), s.loop.deferred, RunAll(Next(s, Fetched(p, [])), es).loop, n)
  {
    PollIsTick(s, p, [], es);
    QueueIsDistinct(s, p);
    EmptyPageLeavesSuffix(s.loop, Group(s), Verdicts(es, p));
  }

  lemma QueueIsDistinct(s: State, p: nat)
    requires Inv(s) && Live(s) && LivePoll(s, p) && s.polls[p].stage.Fetching?
    ensures Capped(s.loop, Group(s)) && DistinctIds(s.loop.deferred)
  {
    assert Orderly(s.loop, s.delivered, Group(s), []);
    var line, d := Line(s.loop, []), s.loop.deferred;
    forall k | 0 <= k < |d| ensures d[k] in s.delivered {
      assert line[|s.loop.processed| + k] == d[k];
    }
    forall i, k | 0 <= i < k < |d| ensures Before(d[i], d[k]) {
      assert line[|s.loop.processed| + i] == d[i] && line[|s.loop.processed| + k] == d[k];
    }
    DistinctFrom(d, s.delivered);
  }
}
