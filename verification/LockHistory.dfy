/** What the history of the commit lock decides: which sections enter, in which order, which
    never do, and which group's entry is forgotten. */
module LockHistory {
  import opened Helpers
  import L = Limiter
  import opened CommitLock

  // ---------------------------------------------------------------------------
  // One step, seen from one entry's limiter
  // ---------------------------------------------------------------------------

  /** What the step tells entry `x`'s limiter. */
  ghost function Told(s: State, e: Event, x: nat): Option<L.Event>
    requires Inv(s) && Enabled(s, e)
  {
    match e
    case Acquire(group, now, aborted) => if EntryFor(s, group, now).1 == x then Some(L.Call(aborted)) else None
    case Settle(t) => if s.tasks[t].entry == x then Some(L.Settle(s.tasks[t].call)) else None
    case Abort(t) => if s.tasks[t].entry == x then Some(L.Abort(s.tasks[t].call)) else None
    case Finalize(_, _) => None
  }

  lemma StepTells(s: State, e: Event, x: nat)
    requires Inv(s) && Enabled(s, e) && x < |s.entries|
    ensures var t, told := Step(s, e), Told(s, e, x);
      && x < |t.entries| && t.entries[x].group == s.entries[x].group
      && (if told.None? then t.entries[x].limiter == s.entries[x].limiter
          else L.Enabled(s.entries[x].limiter, told.value)
               && t.entries[x].limiter == L.Step(s.entries[x].limiter, told.value))
  {
    assert Sound(s, x);
    if e.Abort? {
      assert Owned(s, e.task);
    }
  }

  // ---------------------------------------------------------------------------
  // One task
  // ---------------------------------------------------------------------------

  /** The section has been let in at some time. */
  predicate Entered(s: State, t: nat) { Known(s, t) && s.tasks[t].call in LimiterOf(s, t).entered }

  /** The acquisition was rejected. */
  predicate Dropped(s: State, t: nat) { Known(s, t) && s.tasks[t].call in LimiterOf(s, t).aborted }

  predicate Gone(s: State, t: nat) { t < |s.tasks| && s.tasks[t].gone }

  /** Task `t` is begun with its signal aborted, or its signal aborts while it waits. */
  predicate AbortsAt(s: State, e: Event, t: nat) {
    (e.Acquire? && e.signalAborted && t == |s.tasks|) || (e == Abort(t) && Waiting(s, t))
  }

  ghost predicate AbortsIn(s: State, es: seq<Event>, t: nat)
    requires Inv(s) && Valid(s, es)
    decreases |es|
  {
    es != [] && (AbortsAt(s, es[0], t) || (StepInv(s, es[0]); AbortsIn(Step(s, es[0]), es[1..], t)))
  }

  lemma OldTask(s: State, e: Event, t: nat)
    requires Inv(s) && Enabled(s, e) && t < |s.tasks|
    ensures var r := Step(s, e);
      && t < |r.tasks| && r.tasks[t].entry == s.tasks[t].entry && r.tasks[t].call == s.tasks[t].call
      && (r.tasks[t].gone <==> s.tasks[t].gone || (e.Finalize? && e.task == t))
  {
  }

  lemma NewTask(s: State, e: Event)
    requires Inv(s) && e.Acquire?
    ensures var r, t := Step(s, e), |s.tasks|;
      && |r.tasks| == t + 1 && Known(r, t) && GroupOf(r, t) == e.group && !r.tasks[t].gone
      && (Dropped(r, t) <==> e.signalAborted) && (Inside(r, t) <==> Entered(r, t))
  {
    EntryForInv(s, e.group, e.now);
    var (q, x) := EntryFor(s, e.group, e.now);
    assert Sound(q, x);
    L.SurvivorsBelow(q.entries[x].limiter);
  }

  /** Two tasks with the same entry and call are one. */
  lemma OneCaller(s: State, t: nat, u: nat)
    requires Inv(s) && t < |s.tasks| && u < |s.tasks|
    requires s.tasks[t].entry == s.tasks[u].entry && s.tasks[t].call == s.tasks[u].call
    ensures t == u
  {
    assert Owned(s, t) && Owned(s, u);
  }

  lemma OldPlace(s: State, e: Event, t: nat)
    requires Inv(s) && Enabled(s, e) && t < |s.tasks|
    ensures var r := Step(s, e);
      && (Dropped(r, t) <==> Dropped(s, t) || AbortsAt(s, e, t))
      && (Entered(s, t) ==> Entered(r, t))
      && (Inside(r, t) <==> (Inside(s, t) || (Entered(r, t) && !Entered(s, t))) && e != Settle(t))
  {
    OldTask(s, e, t);
    assert Owned(s, t);
    var x, c := s.tasks[t].entry, s.tasks[t].call;
    assert Sound(s, x);
    StepTells(s, e, x);
    var told := Told(s, e, x);
    if told.Some? {
      L.StepHistory(s.entries[x].limiter, told.value, c);
      if (e.Settle? || e.Abort?) && told.value.id == c {
        OneCaller(s, t, e.task);
      }
    }
  }

  lemma InsideEntered(s: State, t: nat)
    requires Inv(s) && Inside(s, t)
    ensures Entered(s, t)
  {
    assert Owned(s, t) && Sound(s, s.tasks[t].entry);
  }

  lemma StepPlace(s: State, e: Event, t: nat)
    requires Inv(s) && Enabled(s, e)
    ensures var r := Step(s, e);
      && (t < |s.tasks| ==> t < |r.tasks|) && |r.tasks| == |s.tasks| + (if e.Acquire? then 1 else 0)
      && (Gone(r, t) <==> Gone(s, t) || (e.Finalize? && e.task == t))
      && (Dropped(r, t) <==> Dropped(s, t) || AbortsAt(s, e, t))
      && (Entered(s, t) ==> Entered(r, t))
      && (Inside(r, t) <==> (Inside(s, t) || (Entered(r, t) && !Entered(s, t))) && e != Settle(t))
  {
    if t < |s.tasks| {
      OldTask(s, e, t);
      OldPlace(s, e, t);
    } else if e.Acquire? {
      NewTask(s, e);
    }
  }

  /** The groups of the acquisitions, in order. */
  function Groups(es: seq<Event>): seq<string> {
    if es == [] then [] else (if es[0].Acquire? then [es[0].group] else []) + Groups(es[1..])
  }

  predicate Finalizes(e: Event, t: nat) { e.Finalize? && e.task == t }

  predicate FinalizedIn(es: seq<Event>, t: nat) {
    es != [] && (Finalizes(es[0], t) || FinalizedIn(es[1..], t))
  }

  /** Where the events put task `t`. */
  lemma {:induction false} RunPlace(s: State, es: seq<Event>, t: nat)
    requires Inv(s) && Valid(s, es)
    ensures var r := Run(s, es);
      && (Gone(r, t) <==> Gone(s, t) || FinalizedIn(es, t))
      && (Dropped(r, t) <==> Dropped(s, t) || AbortsIn(s, es, t))
      && (Entered(s, t) ==> Entered(r, t))
      && (Inside(r, t) <==> (Inside(s, t) || (Entered(r, t) && !Entered(s, t))) && Settle(t) !in es)
    decreases |es|
  {
    if es != [] {
      StepInv(s, es[0]);
      StepPlace(s, es[0], t);
      RunPlace(Step(s, es[0]), es[1..], t);
      assert Settle(t) in es <==> es[0] == Settle(t) || Settle(t) in es[1..] by {
        assert es == [es[0]] + es[1..];
      }
      if Inside(s, t) {
        InsideEntered(s, t);
      }
    }
  }

  lemma GroupStays(s: State, e: Event, t: nat)
    requires Inv(s) && Enabled(s, e) && t < |s.tasks|
    ensures t < |Step(s, e).tasks| && Known(s, t) && Known(Step(s, e), t) && GroupOf(Step(s, e), t) == GroupOf(s, t)
  {
    OldTask(s, e, t);
    assert Owned(s, t);
    StepTells(s, e, s.tasks[t].entry);
  }

  lemma {:induction false} RunGroups(s: State, es: seq<Event>, t: nat)
    requires Inv(s) && Valid(s, es) && t < |s.tasks| + |Groups(es)|
    ensures var r := Run(s, es);
      && |r.tasks| == |s.tasks| + |Groups(es)| && Known(r, t)
      && (t < |s.tasks| ==> Known(s, t) && GroupOf(r, t) == GroupOf(s, t))
      && (|s.tasks| <= t ==> GroupOf(r, t) == Groups(es)[t - |s.tasks|])
    decreases |es|
  {
    if es == [] {
      assert Owned(s, t);
    } else {
      var e := es[0];
      StepInv(s, e);
      StepPlace(s, e, t);
      if t < |s.tasks| {
        GroupStays(s, e, t);
      } else if e.Acquire? {
        NewTask(s, e);
      }
      RunGroups(Step(s, e), es[1..], t);
    }
  }

  /** Over every run, from the events alone: there is one section per acquisition, on its own
      group; it is rejected if and only if it was begun with an aborted signal or its signal
      aborted while it waited, and then it never waits, enters or is inside again; it is
      inside if and only if it entered and has not settled; and its count is given back if and
      only if its finalizer ran. */
  lemma HistoryDecides(es: seq<Event>, t: nat)
    requires Valid(Empty(), es) && t < |Groups(es)|
    ensures var s := Run(Empty(), es);
      && |s.tasks| == |Groups(es)| && Known(s, t) && GroupOf(s, t) == Groups(es)[t]
      && (Dropped(s, t) <==> AbortsIn(Empty(), es, t))
      && (Dropped(s, t) ==> !Waiting(s, t) && !Entered(s, t) && !Inside(s, t))
      && (!Dropped(s, t) ==> Waiting(s, t) || Entered(s, t))
      && (Inside(s, t) <==> Entered(s, t) && Settle(t) !in es)
      && (Gone(s, t) <==> FinalizedIn(es, t))
  {
    RunPlace(Empty(), es, t);
    RunGroups(Empty(), es, t);
    InOnePlace(Run(Empty(), es), t);
  }

  lemma {:induction false} SurvivorsAll(n: nat, aborted: set<nat>, id: nat)
    requires id < n && id !in aborted
    ensures id in L.Survivors(n, aborted)
  {
    if id < n - 1 {
      SurvivorsAll(n - 1, aborted, id);
    }
  }

  /** A call was rejected, waits or has entered. */
  lemma InOnePlace(s: State, t: nat)
    requires Inv(s) && t < |s.tasks|
    ensures Dropped(s, t) ==> !Waiting(s, t) && !Entered(s, t) && !Inside(s, t)
    ensures !Dropped(s, t) ==> Waiting(s, t) || Entered(s, t)
  {
    assert Owned(s, t);
    assert Sound(s, s.tasks[t].entry);
    var l := LimiterOf(s, t);
    L.SurvivorsBelow(l);
    if !Dropped(s, t) {
      SurvivorsAll(l.next, l.aborted, s.tasks[t].call);
    }
  }

  // ---------------------------------------------------------------------------
  // First come, first served per group
  // ---------------------------------------------------------------------------

  ghost predicate InLine(s: State, t: nat, u: nat)
    requires t < |s.tasks| && u < |s.tasks|
  {
    t < u && Known(s, t) && Known(s, u) && GroupOf(s, t) == GroupOf(s, u) ==> s.tasks[t].entry <= s.tasks[u].entry
  }

  /** The tracked entry of a group is its latest. */
  ghost predicate LatestTracked(s: State) {
    forall x: nat, y: nat ::
      x < |s.entries| && y < |s.entries| && y in s.table && s.entries[x].group == s.entries[y].group ==> x <= y
  }

  /** Later sections of a group sit on later entries, and an entry's calls are numbered in the
      order of their sections. */
  ghost predicate Lines(s: State) {
    && LatestTracked(s)
    && (forall t: nat, u: nat :: t < |s.tasks| && u < |s.tasks| ==> InLine(s, t, u))
    && (forall x: nat, i, k :: x < |s.entries| && 0 <= i < k < |s.entries[x].owner| ==>
          s.entries[x].owner[i] < s.entries[x].owner[k])
  }

  lemma EvictLines(s: State)
    requires Inv(s) && Lines(s)
    ensures Lines(Evict(s))
  {
    EvictInv(s);
    var r := Evict(s);
    forall t: nat, u: nat | t < |r.tasks| && u < |r.tasks| ensures InLine(r, t, u) {
      assert InLine(s, t, u);
    }
  }

  lemma AddEntryLines(s: State, group: string, now: int)
    requires Inv(s) && Lines(s) && forall k :: 0 <= k < |s.table| ==> s.entries[s.table[k]].group != group
    ensures Lines(s.(entries := s.entries + [FreshEntry(group, now)], table := s.table + [|s.entries|]))
  {
    var r := s.(entries := s.entries + [FreshEntry(group, now)], table := s.table + [|s.entries|]);
    forall t: nat, u: nat | t < |r.tasks| && u < |r.tasks| ensures InLine(r, t, u) {
      assert InLine(s, t, u) && Owned(s, t) && Owned(s, u);
    }
  }

  lemma NewEntryLines(s: State, group: string, now: int)
    requires Inv(s) && Lines(s)
    ensures Lines(EntryFor(s, group, now).0)
  {
    if Find(s.entries, s.table, group) == |s.table| {
      EvictInv(s);
      EvictLines(s);
      AddEntryLines(Evict(s), group, now);
    }
  }

  lemma JoinLines(s: State, x: nat, now: int, aborted: bool)
    requires Inv(s) && Lines(s) && x < |s.entries| && x in s.table
    ensures Lines(Join(s, x, now, aborted))
  {
    var r, n := Join(s, x, now, aborted), |s.tasks|;
    forall t: nat, u: nat | t < |r.tasks| && u < |r.tasks| ensures InLine(r, t, u) {
      if t < n {
        assert Owned(s, t);
        if u < n {
          assert InLine(s, t, u);
        }
      }
    }
    assert Sound(s, x);
  }

  lemma SameLines(s: State, r: State)
    requires Inv(s) && Lines(s) && r.table == s.table && |r.entries| == |s.entries| && |r.tasks| == |s.tasks|
    requires forall x :: 0 <= x < |s.entries| ==>
      r.entries[x].group == s.entries[x].group && r.entries[x].owner == s.entries[x].owner
    requires forall t :: 0 <= t < |s.tasks| ==> r.tasks[t].entry == s.tasks[t].entry
    ensures Lines(r)
  {
    forall t: nat, u: nat | t < |r.tasks| && u < |r.tasks| ensures InLine(r, t, u) {
      assert InLine(s, t, u);
    }
  }

  lemma StepLines(s: State, e: Event)
    requires Inv(s) && Lines(s) && Enabled(s, e)
    ensures Lines(Step(s, e))
  {
    if e.Acquire? {
      EntryForInv(s, e.group, e.now);
      NewEntryLines(s, e.group, e.now);
      var (r, x) := EntryFor(s, e.group, e.now);
      JoinLines(r, x, e.now, e.signalAborted);
    } else {
      SameLines(s, Step(s, e));
    }
  }

  lemma {:induction false} RunLines(s: State, es: seq<Event>)
    requires Inv(s) && Lines(s) && Valid(s, es)
    ensures Lines(Run(s, es))
    decreases |es|
  {
    if es != [] {
      StepInv(s, es[0]);
      StepLines(s, es[0]);
      RunLines(Step(s, es[0]), es[1..]);
    }
  }

  /** In a limiter, a call that was not rejected entered before any later call did. */
  lemma EntersInOrder(l: L.State, c: nat, d: nat)
    requires L.Inv(l) && c < d && c < l.next && c !in l.aborted && d in l.entered
    ensures c in l.entered
  {
    var all := l.entered + l.queue;
    SurvivorsAll(l.next, l.aborted, c);
    var i :| 0 <= i < |l.entered| && l.entered[i] == d;
    var k :| 0 <= k < |all| && all[k] == c;
    assert all[i] == d;
    if |l.entered| <= k {
      L.SurvivorsAt(l.next, l.aborted, i);
    }
  }

  lemma SameEntryInOrder(s: State, t: nat, u: nat)
    requires Inv(s) && Lines(s) && t < u < |s.tasks| && s.tasks[t].entry == s.tasks[u].entry
    requires Entered(s, u) && !Dropped(s, t)
    ensures Entered(s, t)
  {
    var x := s.tasks[t].entry;
    assert Owned(s, t) && Owned(s, u) && Sound(s, x);
    EntersInOrder(s.entries[x].limiter, s.tasks[t].call, s.tasks[u].call);
  }

  /** Sections of a group enter in the order they were asked for, across eviction and
      recreation of the group's entry: if a later one has entered, every earlier one has
      entered or was rejected. */
  lemma GroupFifo(es: seq<Event>, t: nat, u: nat)
    requires Valid(Empty(), es) && t < u < |Groups(es)| && Groups(es)[t] == Groups(es)[u]
    requires Entered(Run(Empty(), es), u)
    ensures var s := Run(Empty(), es); Entered(s, t) || AbortsIn(Empty(), es, t)
  {
    var s := Run(Empty(), es);
    HistoryDecides(es, t);
    HistoryDecides(es, u);
    RunLines(Empty(), es);
    if !Dropped(s, t) {
      assert InLine(s, t, u);
      if s.tasks[t].entry == s.tasks[u].entry {
        SameEntryInOrder(s, t, u);
      } else {
        OlderEntryIsIdle(s, s.tasks[t].entry, s.tasks[u].entry);
      }
    }
  }

  /** An entry with a successor for its group is no longer tracked, hence idle. */
  lemma OlderEntryIsIdle(s: State, x: nat, y: nat)
    requires Inv(s) && Lines(s) && x < y < |s.entries| && s.entries[x].group == s.entries[y].group
    ensures s.entries[x].limiter.queue == []
  {
    IdleEntryHasIdleLimiter(s, x);
  }

  // ---------------------------------------------------------------------------
  // Least recently used
  // ---------------------------------------------------------------------------

  /** The event is an acquisition of the group or the finalizer of one of its sections. */
  predicate Touches(s: State, e: Event, group: string) {
    || (e.Acquire? && e.group == group)
    || (e.Finalize? && Known(s, e.task) && GroupOf(s, e.task) == group)
  }

  /** When the group was last used in the run. */
  ghost function LastUse(s: State, es: seq<Event>, group: string): Option<int>
    requires Inv(s) && Valid(s, es)
    decreases |es|
  {
    if es == [] then None
    else
      StepInv(s, es[0]);
      var later := LastUse(Step(s, es[0]), es[1..], group);
      if later.Some? then later else if Touches(s, es[0], group) then Some(es[0].now) else None
  }

  predicate TrackedAs(s: State, x: nat, group: string) {
    x in s.table && x < |s.entries| && s.entries[x].group == group
  }

  lemma OneTracked(s: State, x: nat, y: nat, group: string)
    requires Inv(s) && TrackedAs(s, x, group) && TrackedAs(s, y, group)
    ensures x == y
  {
    var i :| 0 <= i < |s.table| && s.table[i] == x;
    var k :| 0 <= k < |s.table| && s.table[k] == y;
  }

  lemma AcquireUse(s: State, e: Event, x: nat)
    requires Inv(s) && e.Acquire? && Enabled(s, e) && Inv(Step(s, e)) && TrackedAs(Step(s, e), x, e.group)
    ensures Step(s, e).entries[x].lastUsed == e.now
  {
    EntryForInv(s, e.group, e.now);
    OneTracked(Step(s, e), x, EntryFor(s, e.group, e.now).1, e.group);
  }

  lemma FinalizeUse(s: State, e: Event, x: nat)
    requires Inv(s) && e.Finalize? && Enabled(s, e) && TrackedAs(s, x, GroupOf(s, e.task))
    ensures Step(s, e).entries[x].lastUsed == e.now
  {
    assert s.tasks[e.task].entry in s.table;
    OneTracked(s, x, s.tasks[e.task].entry, GroupOf(s, e.task));
  }

  lemma Untouched(s: State, e: Event, x: nat, group: string)
    requires Inv(s) && Enabled(s, e) && TrackedAs(Step(s, e), x, group) && !Touches(s, e, group)
    ensures TrackedAs(s, x, group) && Step(s, e).entries[x].lastUsed == s.entries[x].lastUsed
  {
    if e.Acquire? {
      EntryForInv(s, e.group, e.now);
      EvictInv(s);
    }
  }

  lemma {:induction false} RunUse(s: State, es: seq<Event>, x: nat, group: string)
    requires Inv(s) && Valid(s, es) && TrackedAs(Run(s, es), x, group)
    ensures var last := LastUse(s, es, group);
      if last.Some? then Run(s, es).entries[x].lastUsed == last.value
      else TrackedAs(s, x, group) && Run(s, es).entries[x].lastUsed == s.entries[x].lastUsed
    decreases |es|
  {
    if es != [] {
      var e, r := es[0], Step(s, es[0]);
      StepInv(s, e);
      RunUse(r, es[1..], x, group);
      if LastUse(r, es[1..], group).None? {
        if !Touches(s, e, group) {
          Untouched(s, e, x, group);
        } else if e.Acquire? {
          AcquireUse(s, e, x);
        } else {
          FinalizeUse(s, e, x);
        }
      }
    }
  }

  predicate Idle(s: State, x: nat) { x in s.table && x < |s.entries| && s.entries[x].active == 0 }

  /** Over every run: an entry is forgotten only by an acquisition of an untracked group with
      128 groups or more tracked; it is then the only one, it is idle, and no idle group was
      used less recently. */
  lemma EvictionIsLru(es: seq<Event>, e: Event, x: nat)
    requires Valid(Empty(), es) && Enabled(Run(Empty(), es), e)
    requires x in Run(Empty(), es).table && x !in Step(Run(Empty(), es), e).table
    ensures var s := Run(Empty(), es);
      && e.Acquire? && 128 <= |s.table| == |Step(s, e).table| && Idle(s, x)
      && (forall y: nat :: Idle(s, y) && y != x ==> y in Step(s, e).table)
      && (forall y: nat :: !TrackedAs(s, y, e.group))
      && LastUse(Empty(), es, s.entries[x].group).Some?
      && (forall y: nat :: Idle(s, y) ==>
            && LastUse(Empty(), es, s.entries[y].group).Some?
            && LastUse(Empty(), es, s.entries[x].group).value <= LastUse(Empty(), es, s.entries[y].group).value)
  {
    var s := Run(Empty(), es);
    EvictedEntry(s, e, x);
    forall y: nat | Idle(s, y)
      ensures LastUse(Empty(), es, s.entries[y].group) == Some(s.entries[y].lastUsed)
    {
      RunUse(Empty(), es, y, s.entries[y].group);
    }
  }

  lemma EvictedEntry(s: State, e: Event, x: nat)
    requires Inv(s) && Enabled(s, e) && x in s.table && x !in Step(s, e).table
    ensures e.Acquire? && 128 <= |s.table| == |Step(s, e).table| && Idle(s, x)
    ensures forall y: nat :: !TrackedAs(s, y, e.group)
    ensures forall y: nat :: Idle(s, y) ==>
      s.entries[x].lastUsed <= s.entries[y].lastUsed && (y != x ==> y in Step(s, e).table)
  {
    var p := Find(s.entries, s.table, e.group);
    var oldest := Oldest(s.entries, s.table, |s.table|);
    if s.table[oldest] != x {
      RemoveKeeps(s.table, oldest, x);
    }
    forall y: nat | y in s.table && y != x ensures y in Step(s, e).table {
      RemoveKeeps(s.table, oldest, y);
    }
  }

  /** With room made only where it must be: an untracked group's acquisition grows the table
      exactly when fewer than 128 groups are tracked or none of them is idle. */
  lemma GrowsExactlyWhen(s: State, e: Event)
    requires Inv(s) && e.Acquire? && forall y: nat :: !TrackedAs(s, y, e.group)
    ensures |Step(s, e).table| == |s.table| + 1 <==> |s.table| < 128 || forall y: nat :: !Idle(s, y)
  {
    var p := Find(s.entries, s.table, e.group);
    assert p < |s.table| ==> TrackedAs(s, s.table[p], e.group);
    var oldest := Oldest(s.entries, s.table, |s.table|);
    assert oldest != -1 ==> Idle(s, s.table[oldest]);
  }
}
