/** The polling effect of the message hook as a step system: effect runs come and go as
    the user switches groups, their polls stay in flight across the switch, and all of
    them share one poll slot, one cursor and one deferred queue.

    Premises: the server answers with envelopes strictly after the cursor, in
    (created_at, id) order, and envelope ids are unique. */
module PollLoop {
  import opened Helpers
  import opened Delivery

  datatype Cursor = Cursor(ts: nat, id: nat)

  datatype Run = Run(group: string, cancelled: bool)

  /** `Working`: the page has arrived and `rest` is still to be handled. */
  datatype Stage = Fetching(from: Option<Cursor>) | Working(rest: seq<Envelope>) | Over

  datatype Poll = Poll(run: nat, stage: Stage)

  datatype Slot = Free | Held(group: string, run: nat)

  /** `loop` and `delivered` (what was fetched) belong to the latest run. */
  datatype State = State(
    runs: seq<Run>,
    polls: seq<Poll>,
    slot: Slot,
    since: Option<Cursor>,
    loop: Loop,
    delivered: seq<Envelope>)

  datatype Event =
    | Start(group: string)
    | Stop
    | Timer(run: nat)
    | Fetched(poll: nat, page: seq<Envelope>)
    | FetchFailed(poll: nat)
    | Work(poll: nat, ok: bool)

  predicate Past(c: Option<Cursor>, e: Envelope) {
    c.None? || c.value.ts < e.ts || (c.value.ts == e.ts && c.value.id < e.id)
  }

  predicate Active(s: State, p: nat) {
    p < |s.polls| && s.polls[p].run < |s.runs| && !s.polls[p].stage.Over?
  }

  function RunOf(s: State, p: nat): Run
    requires Active(s, p)
  {
    s.runs[s.polls[p].run]
  }

  /** The server premise for an answer to poll `p`. */
  ghost predicate Answer(s: State, p: nat, page: seq<Envelope>)
    requires Active(s, p) && s.polls[p].stage.Fetching?
  {
    && Ascending(page)
    && (forall k :: 0 <= k < |page| ==> Past(s.polls[p].stage.from, page[k]))
    && (RunOf(s, p).cancelled || DistinctIds(s.delivered + page))
  }

  ghost predicate Enabled(s: State, e: Event) {
    match e
    case Start(_) => true
    case Stop => true
    case Timer(r) => r < |s.runs|
    case Fetched(p, page) => Active(s, p) && s.polls[p].stage.Fetching? && Answer(s, p, page)
    case FetchFailed(p) => Active(s, p) && s.polls[p].stage.Fetching?
    case Work(p, _) => Active(s, p) && s.polls[p].stage.Working?
  }

  const EMPTY: Loop := Loop([], [], [], [])

  /** The effect's cleanup: the latest run is cancelled. */
  function CancelLast(runs: seq<Run>): seq<Run> {
    if runs == [] then [] else runs[|runs| - 1 := runs[|runs| - 1].(cancelled := true)]
  }

  function SetStage(s: State, p: nat, x: Stage): State
    requires p < |s.polls|
  {
    s.(polls := s.polls[p := s.polls[p].(stage := x)])
  }

  /** The `finally` block: free the slot only if this very run holds it. */
  function Finish(s: State, p: nat): State
    requires Active(s, p)
  {
    SetStage(s, p, Over).(
      slot := if s.slot == Held(RunOf(s, p).group, s.polls[p].run) then Free else s.slot)
  }

  predicate Blocked(s: State, r: nat)
    requires r < |s.runs|
  {
    s.runs[r].cancelled || (s.slot.Held? && s.slot.group == s.runs[r].group)
  }

  function FetchedStep(s: State, p: nat, page: seq<Envelope>): State
    requires Active(s, p)
  {
    if RunOf(s, p).cancelled then Finish(s, p)
    else
      SetStage(s, p, Working(Dedupe(s.loop.deferred + page))).(
        since := if page == [] then s.since else Some(Cursor(page[|page| - 1].ts, page[|page| - 1].id)),
        loop := Drain(s.loop),
        delivered := s.delivered + page)
  }

  function WorkStep(s: State, p: nat, ok: bool): State
    requires Active(s, p) && s.polls[p].stage.Working?
  {
    var rest := s.polls[p].stage.rest;
    if rest == [] || RunOf(s, p).cancelled then Finish(s, p)
    else SetStage(s, p, Working(rest[1..])).(loop := Handle(s.loop, RunOf(s, p).group, rest[0], ok))
  }

  ghost function Next(s: State, e: Event): State
    requires Enabled(s, e)
  {
    match e
    case Start(group) =>
      s.(runs := CancelLast(s.runs) + [Run(group, false)], since := None, loop := EMPTY, delivered := [])
    case Stop => s.(runs := CancelLast(s.runs))
    case Timer(r) =>
      if Blocked(s, r) then s
      else s.(slot := Held(s.runs[r].group, r), polls := s.polls + [Poll(r, Fetching(s.since))])
    case Fetched(p, page) => FetchedStep(s, p, page)
    case FetchFailed(p) => Finish(s, p)
    case Work(p, ok) => WorkStep(s, p, ok)
  }

  // ---------------------------------------------------------------------------
  // The slot
  // ---------------------------------------------------------------------------

  /** Only the latest run can be uncancelled; polls in flight belong to different runs;
      an uncancelled run with a poll in flight holds the slot. */
  ghost predicate Slotted(s: State) {
    && (forall r :: 0 <= r < |s.runs| - 1 ==> s.runs[r].cancelled)
    && (forall p :: 0 <= p < |s.polls| ==> s.polls[p].run < |s.runs|)
    && (forall p: nat, q: nat :: Active(s, p) && Active(s, q) && p != q ==> s.polls[p].run != s.polls[q].run)
    && (forall p: nat :: Active(s, p) && !RunOf(s, p).cancelled ==> s.slot == Held(RunOf(s, p).group, s.polls[p].run))
  }

  lemma RunsSlotted(s: State, e: Event)
    requires Slotted(s) && Enabled(s, e) && (e.Start? || e.Stop?)
    ensures Slotted(Next(s, e))
  {
    var t := Next(s, e);
    forall p: nat | Active(t, p) ensures Active(s, p) && RunOf(t, p).cancelled {
    }
  }

  lemma TimerSlotted(s: State, r: nat)
    requires Slotted(s) && r < |s.runs|
    ensures Slotted(Next(s, Timer(r)))
  {
    var t := Next(s, Timer(r));
    forall p: nat | Active(t, p) && p < |s.polls| ensures Active(s, p) {
    }
  }

  lemma FinishSlotted(s: State, p: nat)
    requires Slotted(s) && Active(s, p)
    ensures Slotted(Finish(s, p))
  {
    var t := Finish(s, p);
    forall q: nat | Active(t, q) ensures Active(s, q) && q != p {
    }
  }

  /** Only the stage of a poll in flight changes, and the shared queue and cursor. */
  lemma StageSlotted(s: State, p: nat, t: State)
    requires Slotted(s) && Active(s, p)
    requires t.runs == s.runs && t.slot == s.slot && |t.polls| == |s.polls|
    requires forall q :: 0 <= q < |s.polls| ==> t.polls[q].run == s.polls[q].run
    requires forall q :: 0 <= q < |s.polls| && q != p ==> t.polls[q] == s.polls[q]
    ensures Slotted(t)
  {
    forall q: nat | Active(t, q) ensures Active(s, q) {
    }
  }

  lemma NextSlotted(s: State, e: Event)
    requires Slotted(s) && Enabled(s, e)
    ensures Slotted(Next(s, e))
  {
    match e
    case Start(_) => RunsSlotted(s, e);
    case Stop => RunsSlotted(s, e);
    case Timer(r) => TimerSlotted(s, r);
    case FetchFailed(p) => FinishSlotted(s, p);
    case Fetched(p, _) =>
      if RunOf(s, p).cancelled {
        FinishSlotted(s, p);
      } else {
        StageSlotted(s, p, Next(s, e));
      }
    case Work(p, _) =>
      if s.polls[p].stage.rest == [] || RunOf(s, p).cancelled {
        FinishSlotted(s, p);
      } else {
        StageSlotted(s, p, Next(s, e));
      }
  }

  /** A held slot is held by a poll in flight: it is never leaked. */
  ghost predicate SlotOwned(s: State) {
    s.slot.Held? ==> exists p: nat :: Holds(s, p)
  }

  /** Poll `p` is in flight and its run holds the slot. */
  predicate Holds(s: State, p: nat) { Active(s, p) && s.slot == Held(RunOf(s, p).group, s.polls[p].run) }

  lemma NextOwned(s: State, e: Event)
    requires Slotted(s) && SlotOwned(s) && Enabled(s, e)
    ensures SlotOwned(Next(s, e))
  {
    var t := Next(s, e);
    if s.slot.Held? {
      var p: nat :| Holds(s, p);
      if t.slot == s.slot {
        StaysInFlight(s, e, p);
      } else if t.slot.Held? {
        assert Holds(t, |s.polls|);
      }
    } else if t.slot.Held? {
      assert Holds(t, |s.polls|);
    }
  }

  /** A poll whose run keeps the slot is still in flight. */
  lemma StaysInFlight(s: State, e: Event, p: nat)
    requires Slotted(s) && Enabled(s, e) && Holds(s, p) && Next(s, e).slot == s.slot
    ensures Holds(Next(s, e), p)
  {
  }

  /** The event is a poll's. */
  predicate InFlight(e: Event) { e.Fetched? || e.FetchFailed? || e.Work? }

  // ---------------------------------------------------------------------------
  // Delivery
  // ---------------------------------------------------------------------------

  predicate Live(s: State) { s.runs != [] && !s.runs[|s.runs| - 1].cancelled }

  function Group(s: State): string
    requires Live(s)
  {
    s.runs[|s.runs| - 1].group
  }

  /** Handed over, deferred and still to be handled: in delivery order, each delivered. */
  ghost predicate InOrder(loop: Loop, delivered: seq<Envelope>, rest: seq<Envelope>) {
    && Ascending(Line(loop, rest)) && Ascending(delivered) && DistinctIds(delivered)
    && (forall k :: 0 <= k < |Line(loop, rest)| ==> Line(loop, rest)[k] in delivered)
  }

  /** Every delivered in-group envelope has exactly one fate; with nothing refused or
      evicted, the line is the delivered stream itself. */
  ghost predicate Accounted(loop: Loop, delivered: seq<Envelope>, group: string, rest: seq<Envelope>) {
    && Capped(loop, group)
    && Fates(loop, rest, group) == multiset(OursOf(delivered, group))
    && (Unlossy(loop) ==> Line(loop, OursOf(rest, group)) == OursOf(delivered, group))
  }

  ghost predicate Orderly(loop: Loop, delivered: seq<Envelope>, group: string, rest: seq<Envelope>) {
    InOrder(loop, delivered, rest) && Accounted(loop, delivered, group, rest)
  }

  /** The cursor of the last delivered envelope. */
  function CursorOf(delivered: seq<Envelope>): Option<Cursor> {
    if delivered == [] then None
    else Some(Cursor(delivered[|delivered| - 1].ts, delivered[|delivered| - 1].id))
  }

  /** Nothing delivered is past its cursor. */
  lemma CursorCovers(delivered: seq<Envelope>, k: nat)
    requires Ascending(delivered) && k < |delivered|
    ensures !Past(CursorOf(delivered), delivered[k])
  {
    var n := |delivered| - 1;
    assert k < n ==> Before(delivered[k], delivered[n]);
  }

  function RestIn(x: Stage): seq<Envelope> { if x.Working? then x.rest else [] }

  predicate LivePoll(s: State, p: nat) { Active(s, p) && s.polls[p].run == |s.runs| - 1 }

  ghost predicate Delivering(s: State) {
    Live(s) ==>
      && s.since == CursorOf(s.delivered)
      && (forall p: nat :: LivePoll(s, p) ==>
            && Orderly(s.loop, s.delivered, Group(s), RestIn(s.polls[p].stage))
            && (s.polls[p].stage.Fetching? ==> s.polls[p].stage.from == s.since))
      && ((forall p: nat :: !LivePoll(s, p)) ==> Orderly(s.loop, s.delivered, Group(s), []))
  }

  /** Handling one envelope keeps the run orderly. */
  lemma HandleOrderly(loop: Loop, delivered: seq<Envelope>, group: string, rest: seq<Envelope>, ok: bool)
    requires rest != [] && Orderly(loop, delivered, group, rest)
    ensures Orderly(Handle(loop, group, rest[0], ok), delivered, group, rest[1..])
  {
    assert rest == [rest[0]] + rest[1..];
    HandleInOrder(loop, delivered, group, rest[0], rest[1..], ok);
    HandleAccounted(loop, delivered, group, rest[0], rest[1..], ok);
  }

  lemma HandleInOrder(loop: Loop, delivered: seq<Envelope>, group: string, e: Envelope, more: seq<Envelope>, ok: bool)
    requires InOrder(loop, delivered, [e] + more)
    ensures InOrder(Handle(loop, group, e, ok), delivered, more)
  {
    HandleKeepsOrder(loop, group, e, more, ok);
    HandleStaysInLine(loop, group, e, more, ok);
  }

  lemma HandleAccounted(loop: Loop, delivered: seq<Envelope>, group: string, e: Envelope, more: seq<Envelope>, ok: bool)
    requires Accounted(loop, delivered, group, [e] + more)
    ensures Accounted(Handle(loop, group, e, ok), delivered, group, more)
  {
    HandleCapped(loop, group, e, ok);
    HandleConserves(loop, group, e, more, ok);
  }

  lemma HandleStaysInLine(loop: Loop, group: string, e: Envelope, more: seq<Envelope>, ok: bool)
    ensures var t := Handle(loop, group, e, ok);
      forall k :: 0 <= k < |Line(t, more)| ==> Line(t, more)[k] in Line(loop, [e] + more)
  {
    var t, f := Handle(loop, group, e, ok), FateOf(loop, group, e, ok);
    HandleTakes(loop, group, e, ok);
    forall k | 0 <= k < |Line(t, more)| ensures Line(t, more)[k] in Line(loop, [e] + more) {
      var x := Line(t, more)[k];
      assert x in t.processed || x in t.deferred || x in more;
      assert e in [e] + more;
      if f.Replaced? && x in t.deferred && x != e {
        assert x in Remove(loop.deferred, f.at);
        assert x in loop.deferred;
      }
    }
  }

  lemma DistinctFrom(s: seq<Envelope>, all: seq<Envelope>)
    requires Ascending(s) && DistinctIds(all) && forall k :: 0 <= k < |s| ==> s[k] in all
    ensures DistinctIds(s)
  {
    forall i, k | 0 <= i < k < |s| ensures s[i].id != s[k].id {
      assert Before(s[i], s[k]);
      var a :| 0 <= a < |all| && all[a] == s[i];
      var b :| 0 <= b < |all| && all[b] == s[k];
    }
  }

  /** A page strictly after the cursor continues the line. */
  lemma PageContinues(delivered: seq<Envelope>, s: seq<Envelope>, page: seq<Envelope>)
    requires Ascending(s) && Ascending(page) && Ascending(delivered)
    requires forall k :: 0 <= k < |s| ==> s[k] in delivered
    requires forall k :: 0 <= k < |page| ==> Past(CursorOf(delivered), page[k])
    ensures Ascending(s + page)
  {
    forall i, k | 0 <= i < |s| && 0 <= k < |page| ensures Before(s[i], page[k]) {
      var d :| 0 <= d < |delivered| && delivered[d] == s[i];
      CursorCovers(delivered, d);
    }
  }

  lemma LineDrained(loop: Loop, page: seq<Envelope>)
    ensures Line(Drain(loop), loop.deferred + page) == Line(loop, []) + page
    ensures loop.deferred + page == (Line(loop, []) + page)[|loop.processed|..]
  {
  }

  lemma FetchInOrder(loop: Loop, delivered: seq<Envelope>, page: seq<Envelope>)
    requires InOrder(loop, delivered, []) && Ascending(page) && DistinctIds(delivered + page)
    requires forall k :: 0 <= k < |page| ==> Past(CursorOf(delivered), page[k])
    ensures InOrder(Drain(loop), delivered + page, loop.deferred + page)
  {
    var line := Line(loop, []);
    PageContinues(delivered, line, page);
    PageContinues(delivered, delivered, page);
    LineDrained(loop, page);
    forall k | 0 <= k < |line + page| ensures (line + page)[k] in delivered + page {
      assert k < |line| ==> line[k] in delivered;
    }
  }

  lemma FetchDedupes(loop: Loop, delivered: seq<Envelope>, page: seq<Envelope>)
    requires InOrder(Drain(loop), delivered + page, loop.deferred + page)
    ensures Dedupe(loop.deferred + page) == loop.deferred + page
  {
    var tail, next := loop.deferred + page, Line(Drain(loop), loop.deferred + page);
    assert tail == next[|loop.processed|..];
    DistinctFrom(tail, delivered + page);
    DedupeDistinct(tail);
  }

  lemma FetchAccounted(loop: Loop, delivered: seq<Envelope>, group: string, page: seq<Envelope>)
    requires Accounted(loop, delivered, group, [])
    ensures Accounted(Drain(loop), delivered + page, group, loop.deferred + page)
  {
    var earlier, incoming := OursOf(delivered, group), OursOf(page, group);
    OursConcat(delivered, page, group);
    assert OursOf(loop.deferred + page, group) == loop.deferred + incoming by {
      OursConcat(loop.deferred, page, group);
      OursAll(loop.deferred, group);
    }
    assert OursOf([], group) == [];
    LineDrained(loop, incoming);
    FatesShift(loop, incoming, earlier);
  }

  lemma FatesShift(loop: Loop, incoming: seq<Envelope>, earlier: seq<Envelope>)
    requires multiset(loop.processed) + multiset(loop.deferred) + multiset(loop.refused) + multiset(loop.evicted)
      + multiset([]) == multiset(earlier)
    ensures multiset(loop.processed) + multiset([]) + multiset(loop.refused) + multiset(loop.evicted)
      + multiset(loop.deferred + incoming) == multiset(earlier + incoming)
  {
  }

  // ---------------------------------------------------------------------------
  // Every interleaving
  // ---------------------------------------------------------------------------

  ghost predicate Inv(s: State) { Slotted(s) && Delivering(s) }

  lemma StartInv(s: State, group: string)
    requires Inv(s)
    ensures Inv(Next(s, Start(group)))
  {
    NextSlotted(s, Start(group));
    assert OursOf([], group) == [] && Commits([]) == [];
  }

  lemma LivePollBlocks(s: State, p: nat)
    requires Slotted(s) && LivePoll(s, p)
    ensures Blocked(s, |s.runs| - 1)
  {
  }

  lemma ClaimedByLatest(s: State, r: nat)
    requires Slotted(s) && r < |s.runs| && !Blocked(s, r)
    ensures r == |s.runs| - 1 && forall p: nat :: !LivePoll(s, p)
  {
    forall p: nat ensures !LivePoll(s, p) {
      if LivePoll(s, p) {
        LivePollBlocks(s, p);
      }
    }
  }

  lemma TimerInv(s: State, r: nat)
    requires Inv(s) && r < |s.runs|
    ensures Inv(Next(s, Timer(r)))
  {
    NextSlotted(s, Timer(r));
    if !Blocked(s, r) {
      ClaimedByLatest(s, r);
      var t := Next(s, Timer(r));
      assert Orderly(t.loop, t.delivered, Group(t), []);
      assert LivePoll(t, |s.polls|);
      forall p: nat | LivePoll(t, p) ensures p == |s.polls| {
        assert p < |s.polls| ==> LivePoll(s, p);
      }
    }
  }

  lemma FinishInv(s: State, p: nat)
    requires Inv(s) && Active(s, p)
    requires LivePoll(s, p) && Live(s) ==> RestIn(s.polls[p].stage) == []
    ensures Inv(Finish(s, p))
  {
    FinishSlotted(s, p);
    var t := Finish(s, p);
    forall q: nat | q != p ensures LivePoll(t, q) == LivePoll(s, q) {
    }
    if Live(s) && (forall q: nat :: !LivePoll(t, q)) {
      if !LivePoll(s, p) {
        assert forall q: nat :: !LivePoll(s, q);
      }
    }
  }

  lemma FetchedInv(s: State, p: nat, page: seq<Envelope>)
    requires Inv(s) && Enabled(s, Fetched(p, page)) && !RunOf(s, p).cancelled
    ensures Inv(Next(s, Fetched(p, page)))
  {
    NextSlotted(s, Fetched(p, page));
    assert LivePoll(s, p) && Live(s);
    FetchInOrder(s.loop, s.delivered, page);
    FetchDedupes(s.loop, s.delivered, page);
    FetchAccounted(s.loop, s.delivered, Group(s), page);
    assert page == [] ==> s.delivered + page == s.delivered;
    DeliveringBy(Next(s, Fetched(p, page)), p);
  }

  /** The live poll is the only one, so what it leaves is what the run has left. */
  lemma DeliveringBy(t: State, p: nat)
    requires Slotted(t) && Live(t) && LivePoll(t, p) && t.since == CursorOf(t.delivered)
    requires Orderly(t.loop, t.delivered, Group(t), RestIn(t.polls[p].stage))
    requires t.polls[p].stage.Fetching? ==> t.polls[p].stage.from == t.since
    ensures Delivering(t)
  {
    forall q: nat | LivePoll(t, q) ensures q == p {
    }
  }

  /** A turn of the processing loop changes the queue and the poll's work only. */
  lemma WorkTurn(s: State, p: nat, ok: bool)
    requires Enabled(s, Work(p, ok)) && !RunOf(s, p).cancelled && s.polls[p].stage.rest != []
    ensures var t := Next(s, Work(p, ok)); var rest := s.polls[p].stage.rest;
      && t.runs == s.runs && t.since == s.since && t.delivered == s.delivered && |t.polls| == |s.polls|
      && t.polls[p] == Poll(s.polls[p].run, Working(rest[1..]))
      && t.loop == Handle(s.loop, RunOf(s, p).group, rest[0], ok)
  {
  }

  /** A poll in flight of a run that is not cancelled is the live one. */
  lemma LiveOne(s: State, p: nat)
    requires Slotted(s) && Active(s, p) && !RunOf(s, p).cancelled
    ensures LivePoll(s, p) && Live(s) && Group(s) == RunOf(s, p).group
  {
  }

  lemma WorkInv(s: State, p: nat, ok: bool)
    requires Inv(s) && Enabled(s, Work(p, ok)) && !RunOf(s, p).cancelled && s.polls[p].stage.rest != []
    ensures Inv(Next(s, Work(p, ok)))
  {
    var t, rest := Next(s, Work(p, ok)), s.polls[p].stage.rest;
    NextSlotted(s, Work(p, ok));
    LiveOne(s, p);
    WorkTurn(s, p, ok);
    assert Orderly(s.loop, s.delivered, Group(s), rest);
    HandleOrderly(s.loop, s.delivered, Group(s), rest, ok);
    assert RestIn(t.polls[p].stage) == rest[1..];
    DeliveringBy(t, p);
  }

  lemma NextInv(s: State, e: Event)
    requires Inv(s) && Enabled(s, e)
    ensures Inv(Next(s, e))
  {
    match e
    case Start(group) => StartInv(s, group);
    case Stop => NextSlotted(s, e);
    case Timer(r) => TimerInv(s, r);
    case Fetched(p, page) =>
      if RunOf(s, p).cancelled {
        FinishInv(s, p);
      } else {
        FetchedInv(s, p, page);
      }
    case FetchFailed(p) => FinishInv(s, p);
    case Work(p, ok) =>
      if s.polls[p].stage.rest == [] || RunOf(s, p).cancelled {
        FinishInv(s, p);
      } else {
        WorkInv(s, p, ok);
      }
  }

  ghost predicate Valid(s: State, es: seq<Event>)
    decreases |es|
  {
    es == [] || (Enabled(s, es[0]) && Valid(Next(s, es[0]), es[1..]))
  }

  ghost function RunAll(s: State, es: seq<Event>): State
    requires Valid(s, es)
    decreases |es|
  {
    if es == [] then s else RunAll(Next(s, es[0]), es[1..])
  }

  lemma {:induction false} RunInv(s: State, es: seq<Event>)
    requires Inv(s) && Valid(s, es)
    ensures Inv(RunAll(s, es))
    decreases |es|
  {
    if es != [] {
      NextInv(s, es[0]);
      RunInv(Next(s, es[0]), es[1..]);
    }
  }

  lemma {:induction false} CancelledStays(s: State, es: seq<Event>, r: nat)
    requires Valid(s, es) && r < |s.runs| && s.runs[r].cancelled
    ensures r < |RunAll(s, es).runs| && RunAll(s, es).runs[r].cancelled
    decreases |es|
  {
    if es != [] {
      CancelledStays(Next(s, es[0]), es[1..], r);
    }
  }

  /** The slot was held by run `r` and is free. */
  predicate FreedBy(before: Slot, after: Slot, r: nat) { before.Held? && before.run == r && after.Free? }

  /** A cancelled run never again writes the cursor or the deferred queue, nor claims the
      slot: whatever happens after its cancellation, its polls and timers leave them alone,
      and a poll of it that was in flight is over as soon as it gets anywhere. */
  lemma CancelledNeverWrites(s: State, r: nat, es: seq<Event>, e: Event)
    requires r < |s.runs| && s.runs[r].cancelled && Valid(s, es) && Enabled(RunAll(s, es), e)
    requires e == Timer(r) || (InFlight(e) && RunAll(s, es).polls[e.poll].run == r)
    ensures var t := RunAll(s, es); var u := Next(t, e);
      && u.since == t.since && u.loop == t.loop && u.delivered == t.delivered
      && (u.slot == t.slot || FreedBy(t.slot, u.slot, r))
      && (InFlight(e) ==> u.polls[e.poll].stage.Over?)
  {
    CancelledStays(s, es, r);
  }

  lemma {:induction false} RunOwned(s: State, es: seq<Event>)
    requires Slotted(s) && SlotOwned(s) && Valid(s, es)
    ensures Slotted(RunAll(s, es)) && SlotOwned(RunAll(s, es))
    decreases |es|
  {
    if es != [] {
      NextSlotted(s, es[0]);
      NextOwned(s, es[0]);
      RunOwned(Next(s, es[0]), es[1..]);
    }
  }

  const INITIAL: State := State([], [], Free, None, EMPTY, [])

  /** Over every sequence of group switches, A to B and back to A included: the polls in
      flight belong to different runs, at most one of them is of an uncancelled run, and
      that run holds the slot; and a held slot is freed only by a poll of its own run. */
  lemma PollsDoNotOverlap(es: seq<Event>, p: nat, q: nat)
    requires Valid(INITIAL, es)
    ensures var s := RunAll(INITIAL, es);
      && (Active(s, p) && Active(s, q) && s.polls[p].run == s.polls[q].run ==> p == q)
      && (Active(s, p) && Active(s, q) && !RunOf(s, p).cancelled && !RunOf(s, q).cancelled ==> p == q)
      && (Active(s, p) && !RunOf(s, p).cancelled ==> s.slot == Held(RunOf(s, p).group, s.polls[p].run))
      && (forall e :: Enabled(s, e) && s.slot.Held? && Next(s, e).slot.Free? ==>
            InFlight(e) && s.polls[e.poll].run == s.slot.run)
  {
    RunInv(INITIAL, es);
  }

  /** Over every sequence of group switches, a run's timer starts a poll, fetching from the
      cursor and holding the slot, if and only if the run is not cancelled and no poll in
      flight holds the slot for its group; otherwise it changes nothing. */
  lemma PollStartsExactlyWhen(es: seq<Event>, r: nat)
    requires Valid(INITIAL, es) && r < |RunAll(INITIAL, es).runs|
    ensures var s := RunAll(INITIAL, es); var t := Next(s, Timer(r)); var run := s.runs[r];
      if !run.cancelled && (forall p: nat :: Holds(s, p) ==> RunOf(s, p).group != run.group)
      then t == s.(slot := Held(run.group, r), polls := s.polls + [Poll(r, Fetching(s.since))])
      else t == s
  {
    RunOwned(INITIAL, es);
  }

  /** What the live run still has to handle. */
  ghost predicate Remaining(s: State, rest: seq<Envelope>) {
    if exists p: nat :: LivePoll(s, p) then exists p: nat :: LivePoll(s, p) && rest == RestIn(s.polls[p].stage)
    else rest == []
  }

  lemma RemainingOf(s: State) returns (rest: seq<Envelope>)
    ensures Remaining(s, rest)
  {
    rest := [];
    if exists p: nat :: LivePoll(s, p) {
      var p: nat :| LivePoll(s, p);
      rest := RestIn(s.polls[p].stage);
    }
  }

  lemma OrderlyOf(s: State, rest: seq<Envelope>)
    requires Inv(s) && Live(s) && Remaining(s, rest)
    ensures Orderly(s.loop, s.delivered, Group(s), rest)
  {
    if exists p: nat :: LivePoll(s, p) {
      var p: nat :| LivePoll(s, p) && rest == RestIn(s.polls[p].stage);
    }
  }

  lemma ProcessedIsSubsequence(loop: Loop, delivered: seq<Envelope>, rest: seq<Envelope>)
    requires InOrder(loop, delivered, rest)
    ensures Subsequence(loop.processed, delivered)
  {
    var line, done := Line(loop, rest), loop.processed;
    assert done == line[..|done|];
    AscendingSubset(done, delivered);
  }

  /** Over every interleaving, for the live run: what was handed to the worker is a
      subsequence of the delivery order and precedes everything deferred, which precedes
      everything still to be handled; the caps hold; each delivered Application and Commit of
      the group has exactly one fate, and nothing else has any; and the cursor is that of the
      last delivered envelope. */
  lemma DeliveryIsOrdered(es: seq<Event>, rest: seq<Envelope>)
    requires Valid(INITIAL, es) && Live(RunAll(INITIAL, es)) && Remaining(RunAll(INITIAL, es), rest)
    ensures var s := RunAll(INITIAL, es);
      && Subsequence(s.loop.processed, s.delivered)
      && Ascending(s.loop.processed + s.loop.deferred + rest)
      && |Commits(s.loop.deferred)| <= 16 && Others(s.loop.deferred) <= 500
      && multiset(OursOf(s.delivered, Group(s))) == Fates(s.loop, rest, Group(s)) && DistinctIds(s.delivered)
      && (forall x :: x in s.delivered && ForGroup(x, Group(s)) <==> HasFate(s.loop, rest, Group(s), x))
      && s.since == (if s.delivered == [] then None
                     else Some(Cursor(s.delivered[|s.delivered| - 1].ts, s.delivered[|s.delivered| - 1].id)))
  {
    RunInv(INITIAL, es);
    var s := RunAll(INITIAL, es);
    OrderlyOf(s, rest);
    ProcessedIsSubsequence(s.loop, s.delivered, rest);
    forall x ensures x in s.delivered && ForGroup(x, Group(s)) <==> HasFate(s.loop, rest, Group(s), x) {
      FateOfEach(s.loop, s.delivered, rest, Group(s), x);
    }
  }

  /** The envelope is an Application or a Commit of the group. */
  predicate ForGroup(x: Envelope, group: string) { x.group == group && x.kind != Welcome && x.kind != Proposal }

  /** The envelope was handed over, is deferred, was refused or evicted, or is still to be
      handled. */
  predicate HasFate(loop: Loop, rest: seq<Envelope>, group: string, x: Envelope) {
    || x in loop.processed || x in loop.deferred || x in loop.refused || x in loop.evicted
    || (x in rest && ForGroup(x, group))
  }

  lemma {:induction false} OursMembers(s: seq<Envelope>, group: string, x: Envelope)
    ensures x in OursOf(s, group) <==> x in s && ForGroup(x, group)
  {
    if s != [] {
      OursMembers(s[..|s| - 1], group, x);
      assert s == s[..|s| - 1] + [s[|s| - 1]];
    }
  }

  lemma FateOfEach(loop: Loop, delivered: seq<Envelope>, rest: seq<Envelope>, group: string, x: Envelope)
    requires Fates(loop, rest, group) == multiset(OursOf(delivered, group))
    ensures x in delivered && ForGroup(x, group) <==> HasFate(loop, rest, group, x)
  {
    OursMembers(delivered, group, x);
    OursMembers(rest, group, x);
    assert x in OursOf(delivered, group) <==> x in multiset(OursOf(delivered, group));
    assert x in Fates(loop, rest, group) <==>
      || x in loop.processed || x in loop.deferred || x in loop.refused || x in loop.evicted
      || x in OursOf(rest, group);
  }

  /** What was handed over is a prefix of `stream`, and if that was well sent, a receiver
      without past epochs takes all of it. */
  ghost predicate PlainFold(processed: seq<Envelope>, stream: seq<Envelope>, start: nat) {
    && processed <= stream
    && (WellSent(start, stream) ==> Receive(start, processed) == Some(start + |Commits(processed)|))
  }

  lemma PrefixFolds(processed: seq<Envelope>, more: seq<Envelope>, start: nat)
    ensures PlainFold(processed, processed + more, start)
  {
    var stream, n := processed + more, |processed|;
    assert stream[..n] == processed;
    if WellSent(start, stream) {
      PrefixIsReceived(start, stream, n);
    }
  }

  lemma AccountedFolds(loop: Loop, delivered: seq<Envelope>, group: string, rest: seq<Envelope>, start: nat)
    requires Accounted(loop, delivered, group, rest) && Unlossy(loop)
    ensures PlainFold(loop.processed, OursOf(delivered, group), start)
  {
    LineFolds(loop.processed, loop.deferred, OursOf(rest, group), OursOf(delivered, group), start);
  }

  lemma LineFolds(processed: seq<Envelope>, deferred: seq<Envelope>, rest: seq<Envelope>, stream: seq<Envelope>,
      start: nat)
    requires processed + deferred + rest == stream
    ensures PlainFold(processed, stream, start)
  {
    assert processed + deferred + rest == processed + (deferred + rest);
    PrefixFolds(processed, deferred + rest, start);
  }

  /** With nothing refused or evicted the loop is the plain fold over the delivered
      stream, however the rate limit spread the work over polls: every envelope meets the
      receiver in exactly the epoch it was sent in. */
  lemma RefinesPlainFold(es: seq<Event>, rest: seq<Envelope>, start: nat)
    requires Valid(INITIAL, es) && Live(RunAll(INITIAL, es)) && Remaining(RunAll(INITIAL, es), rest)
    requires Unlossy(RunAll(INITIAL, es).loop)
    ensures var s := RunAll(INITIAL, es); PlainFold(s.loop.processed, OursOf(s.delivered, Group(s)), start)
  {
    RunInv(INITIAL, es);
    var s := RunAll(INITIAL, es);
    OrderlyOf(s, rest);
    AccountedFolds(s.loop, s.delivered, Group(s), rest, start);
  }
}
