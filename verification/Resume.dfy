/** What the polling effect fetches: from the start of a run on, the pages it receives are,
    joined together, the server's log from its first envelope, without a gap. */
module Resume {
  import opened Helpers
  import opened Delivery
  import opened PollLoop
  import opened Retry

  // ---------------------------------------------------------------------------
  // Which run is live
  // ---------------------------------------------------------------------------

  /** The group of the last `Start` that no `Stop` followed. */
  function Latest(es: seq<Event>, group: Option<string>): Option<string> {
    if es == [] then group
    else Latest(es[1..], if es[0].Start? then Some(es[0].group) else if es[0].Stop? then None else group)
  }

  function Current(s: State): Option<string> { if Live(s) then Some(Group(s)) else None }

  lemma {:induction false} RunCurrent(s: State, es: seq<Event>)
    requires Valid(s, es)
    ensures Current(RunAll(s, es)) == Latest(es, Current(s))
    decreases |es|
  {
    if es != [] {
      RunCurrent(Next(s, es[0]), es[1..]);
    }
  }

  /** The effect polls for the group it was last started for, unless it was stopped since. */
  lemma LiveExactlyWhen(es: seq<Event>)
    requires Valid(INITIAL, es)
    ensures Current(RunAll(INITIAL, es)) == Latest(es, None)
  {
    RunCurrent(INITIAL, es);
  }

  // ---------------------------------------------------------------------------
  // What a run receives
  // ---------------------------------------------------------------------------

  /** The event is a page for a run that is not cancelled. */
  predicate Arrives(s: State, e: Event) { e.Fetched? && Active(s, e.poll) && !RunOf(s, e.poll).cancelled }

  /** The pages received, joined in order. */
  ghost function Received(s: State, es: seq<Event>): seq<Envelope>
    requires Valid(s, es)
    decreases |es|
  {
    if es == [] then []
    else (if Arrives(s, es[0]) then es[0].page else []) + Received(Next(s, es[0]), es[1..])
  }

  /** No other run is started. */
  predicate SameRun(es: seq<Event>) { forall i :: 0 <= i < |es| ==> !es[i].Start? }

  lemma NextReceived(s: State, e: Event)
    requires Enabled(s, e) && !e.Start?
    ensures Next(s, e).delivered == s.delivered + if Arrives(s, e) then e.page else []
  {
    assert s.delivered + [] == s.delivered;
  }

  lemma JoinedOnce(a: seq<Envelope>, b: seq<Envelope>, c: seq<Envelope>)
    ensures (a + b) + c == a + (b + c)
  {
  }

  lemma {:induction false} RunReceived(s: State, es: seq<Event>)
    requires Valid(s, es) && SameRun(es)
    ensures RunAll(s, es).delivered == s.delivered + Received(s, es)
    decreases |es|
  {
    if es == [] {
      assert s.delivered + [] == s.delivered;
    } else {
      RunReceived(Next(s, es[0]), es[1..]);
      NextReceived(s, es[0]);
      var page := if Arrives(s, es[0]) then es[0].page else [];
      JoinedOnce(s.delivered, page, Received(Next(s, es[0]), es[1..]));
    }
  }

  // ---------------------------------------------------------------------------
  // No gap
  // ---------------------------------------------------------------------------

  /** What lies after the cursor. */
  function After(log: seq<Envelope>, c: Option<Cursor>): seq<Envelope> {
    if log == [] then [] else (if Past(c, log[0]) then [log[0]] else []) + After(log[1..], c)
  }

  lemma {:induction false} AllAfter(log: seq<Envelope>, c: Option<Cursor>)
    requires forall k :: 0 <= k < |log| ==> Past(c, log[k])
    ensures After(log, c) == log
  {
    if log != [] {
      AllAfter(log[1..], c);
    }
  }

  lemma {:induction false} NoneAfter(done: seq<Envelope>, more: seq<Envelope>, c: Option<Cursor>)
    requires forall k :: 0 <= k < |done| ==> !Past(c, done[k])
    ensures After(done + more, c) == After(more, c)
  {
    if done == [] {
      assert done + more == more;
    } else {
      assert (done + more)[1..] == done[1..] + more;
      NoneAfter(done[1..], more, c);
    }
  }

  /** After the cursor of a prefix comes exactly the rest. */
  lemma AfterPrefix(done: seq<Envelope>, more: seq<Envelope>)
    requires Ascending(done + more)
    ensures After(done + more, CursorOf(done)) == more
  {
    var c := CursorOf(done);
    forall i, k | 0 <= i < k < |done| ensures Before(done[i], done[k]) {
      assert (done + more)[i] == done[i] && (done + more)[k] == done[k];
    }
    forall k: nat | k < |done| ensures !Past(c, done[k]) {
      CursorCovers(done, k);
    }
    forall k | 0 <= k < |more| ensures Past(c, more[k]) {
      if done != [] {
        assert (done + more)[|done| - 1] == done[|done| - 1] && (done + more)[|done| + k] == more[k];
      }
    }
    NoneAfter(done, more, c);
    AllAfter(more, c);
  }

  /** Every page a live run receives is a prefix of what the log holds after the cursor its
      poll asked with. */
  ghost predicate Answers(s: State, es: seq<Event>, log: seq<Envelope>)
    requires Valid(s, es)
    decreases |es|
  {
    es != [] ==>
      && (Arrives(s, es[0]) ==> es[0].page <= After(log, s.polls[es[0].poll].stage.from))
      && Answers(Next(s, es[0]), es[1..], log)
  }

  lemma PrefixExtends(done: seq<Envelope>, page: seq<Envelope>, log: seq<Envelope>)
    requires Ascending(log) && done <= log && page <= After(log, CursorOf(done))
    ensures done + page <= log
    ensures page == After(log, CursorOf(done)) ==> done + page == log
  {
    var more := log[|done|..];
    assert log == done + more;
    AfterPrefix(done, more);
  }

  lemma PageExtends(s: State, e: Event, log: seq<Envelope>)
    requires Inv(s) && Enabled(s, e) && Arrives(s, e) && Ascending(log) && s.delivered <= log
    requires e.page <= After(log, s.polls[e.poll].stage.from)
    ensures s.delivered + e.page <= log
    ensures e.page == After(log, s.polls[e.poll].stage.from) ==> s.delivered + e.page == log
  {
    assert LivePoll(s, e.poll) && Live(s);
    PrefixExtends(s.delivered, e.page, log);
  }

  lemma {:induction false} RunExtends(s: State, es: seq<Event>, log: seq<Envelope>)
    requires Inv(s) && Valid(s, es) && SameRun(es) && Ascending(log) && s.delivered <= log && Answers(s, es, log)
    ensures RunAll(s, es).delivered <= log
    decreases |es|
  {
    if es != [] {
      if Arrives(s, es[0]) {
        PageExtends(s, es[0], log);
      }
      NextInv(s, es[0]);
      RunExtends(Next(s, es[0]), es[1..], log);
    }
  }

  /** The pages a run received are the log from its beginning, the cursor is the last of
      them, and with nothing refused or evicted what was handed over is where the group's
      own envelopes of the log begin. */
  ghost predicate Gapless(s: State, log: seq<Envelope>, group: string) {
    && s.delivered <= log && s.since == CursorOf(s.delivered)
    && (Unlossy(s.loop) ==> s.loop.processed <= OursOf(log, group))
  }

  lemma FoldsIntoLog(s: State, log: seq<Envelope>)
    requires Inv(s) && Live(s) && s.delivered <= log && Unlossy(s.loop)
    ensures s.loop.processed <= OursOf(log, Group(s))
  {
    var rest := RemainingOf(s);
    OrderlyOf(s, rest);
    var ours := OursOf(s.delivered, Group(s));
    assert s.loop.processed <= Line(s.loop, OursOf(rest, Group(s))) == ours;
    assert log == s.delivered + log[|s.delivered|..];
    OursConcat(s.delivered, log[|s.delivered|..], Group(s));
  }

  /** From the moment a run for `group` starts, whatever happened before and whichever older
      polls are still in flight, and as long as it is the live one: take any server log in
      which each page it receives is where the log goes on after the cursor it asked with.
      Then it has received exactly the joined pages, which are the log from its first
      envelope on without a gap, also what arrived while another group was open; and once a
      page is all that lies after its cursor, it has received the whole log. */
  lemma NoGap(before: seq<Event>, group: string, es: seq<Event>, log: seq<Envelope>)
    requires Valid(INITIAL, before + [Start(group)]) && SameRun(es) && Ascending(log)
    requires var s := RunAll(INITIAL, before + [Start(group)]);
      Valid(s, es) && Live(RunAll(s, es)) && Answers(s, es, log)
    ensures var s := RunAll(INITIAL, before + [Start(group)]); var t := RunAll(s, es);
      && Group(t) == group && t.delivered == Received(s, es) && Gapless(t, log, group)
      && (forall e :: Enabled(t, e) && Arrives(t, e) && e.page == After(log, t.polls[e.poll].stage.from) ==>
            Next(t, e).delivered == log)
  {
    var s := RunAll(INITIAL, before + [Start(group)]);
    var t := RunAll(s, es);
    StartedFresh(INITIAL, before, group);
    RunInv(INITIAL, before + [Start(group)]);
    RunReceived(s, es);
    RunExtends(s, es, log);
    RunInv(s, es);
    RunCurrent(s, es);
    KeepsGroup(es, group);
    if Unlossy(t.loop) {
      FoldsIntoLog(t, log);
    }
    forall e | Enabled(t, e) && Arrives(t, e) && e.page == After(log, t.polls[e.poll].stage.from)
      ensures Next(t, e).delivered == log
    {
      PageExtends(t, e, log);
    }
  }

  lemma {:induction false} KeepsGroup(es: seq<Event>, group: string)
    requires SameRun(es)
    ensures Latest(es, Some(group)) in {None, Some(group)} && Latest(es, None) == None
    decreases |es|
  {
    if es != [] {
      KeepsGroup(es[1..], group);
    }
  }

  lemma {:induction false} StartedFresh(s: State, before: seq<Event>, group: string)
    requires Valid(s, before + [Start(group)])
    ensures var t := RunAll(s, before + [Start(group)]); t.delivered == [] && Live(t) && Group(t) == group
    decreases |before|
  {
    var es := before + [Start(group)];
    if before == [] {
      assert es == [Start(group)] && es[1..] == [];
    } else {
      assert es[0] == before[0] && es[1..] == before[1..] + [Start(group)];
      StartedFresh(Next(s, es[0]), before[1..], group);
    }
  }
}
