/** The per-group MLS commit lock: one capacity-1 limiter per tracked group, with
    idle entries evicted least recently used first once the table is at capacity and
    recreated with a fresh limiter on the next use.

    Entries are numbered in creation order; a call keeps the number of the entry it
    was given, so it still refers to that entry after the table forgot it. */
module CommitLock {
  import opened Helpers
  import L = Limiter

  const MAX_TRACKED_GROUPS: nat := 128

  /** `owner[k]` is the locked section behind the limiter's call number `k`. */
  datatype Entry = Entry(group: string, limiter: L.State, active: nat, lastUsed: int, owner: seq<nat>)

  /** `gone`: the `finally` that gives the entry's count back has run. */
  datatype Task = Task(entry: nat, call: nat, gone: bool)

  /** `table` is the Map, as the entry numbers it holds in insertion order. */
  datatype State = State(entries: seq<Entry>, table: seq<nat>, tasks: seq<Task>)

  datatype Event =
    | Acquire(group: string, now: int, signalAborted: bool)
    | Settle(task: nat)
    | Abort(task: nat)
    | Finalize(task: nat, now: int)

  // ---------------------------------------------------------------------------
  // Eviction
  // ---------------------------------------------------------------------------

  /** Position in `table[..i]` of the first idle entry with the least `lastUsed`, or
      -1 if none is idle. */
  function Oldest(entries: seq<Entry>, table: seq<nat>, i: nat): (p: int)
    requires i <= |table| && forall k :: 0 <= k < |table| ==> table[k] < |entries|
    ensures -1 <= p < i
    ensures p == -1 ==> forall k :: 0 <= k < i ==> entries[table[k]].active != 0
    ensures p != -1 ==>
      && entries[table[p]].active == 0
      && (forall k :: 0 <= k < i && entries[table[k]].active == 0 ==>
            entries[table[p]].lastUsed < entries[table[k]].lastUsed
            || (entries[table[p]].lastUsed == entries[table[k]].lastUsed && p <= k))
  {
    if i == 0 then -1
    else
      var p := Oldest(entries, table, i - 1);
      var x := entries[table[i - 1]];
      if x.active == 0 && (p == -1 || x.lastUsed < entries[table[p]].lastUsed) then i - 1 else p
  }

  ghost predicate InRange(s: State) {
    forall k :: 0 <= k < |s.table| ==> s.table[k] < |s.entries|
  }

  function Evict(s: State): State
    requires InRange(s)
  {
    if |s.table| < MAX_TRACKED_GROUPS then s
    else
      var p := Oldest(s.entries, s.table, |s.table|);
      if p == -1 then s else s.(table := Remove(s.table, p))
  }

  /** Position of `group` in the table, or its length. */
  function Find(entries: seq<Entry>, table: seq<nat>, group: string): (p: nat)
    requires forall k :: 0 <= k < |table| ==> table[k] < |entries|
    ensures p <= |table|
    ensures p < |table| ==> entries[table[p]].group == group
    ensures forall k :: 0 <= k < p ==> entries[table[k]].group != group
  {
    if table == [] || entries[table[0]].group == group then 0 else 1 + Find(entries, table[1..], group)
  }

  function FreshEntry(group: string, now: int): Entry {
    Entry(group, L.State(1, 0, [], 0, {}, [], {}), 0, now, [])
  }

  /** `entryFor`: the tracked entry, or a new one after making room. */
  function EntryFor(s: State, group: string, now: int): (State, nat)
    requires InRange(s)
  {
    var p := Find(s.entries, s.table, group);
    if p < |s.table| then (s, s.table[p])
    else
      var e := Evict(s);
      (e.(entries := e.entries + [FreshEntry(group, now)], table := e.table + [|e.entries|]), |e.entries|)
  }

  // ---------------------------------------------------------------------------
  // Steps
  // ---------------------------------------------------------------------------

  function Busy(entries: seq<Entry>, table: seq<nat>): nat
    requires forall k :: 0 <= k < |table| ==> table[k] < |entries|
  {
    if table == [] then 0
    else (if entries[table[0]].active != 0 then 1 else 0) + Busy(entries, table[1..])
  }

  function Join(s: State, e: nat, now: int, signalAborted: bool): State
    requires e < |s.entries|
  {
    var x := s.entries[e];
    var joined := Entry(x.group, L.CallStep(x.limiter, signalAborted), x.active + 1, now, x.owner + [|s.tasks|]);
    s.(entries := s.entries[e := joined],
       tasks := s.tasks + [Task(e, x.limiter.next, false)])
  }

  predicate Known(s: State, t: nat) { t < |s.tasks| && s.tasks[t].entry < |s.entries| }

  function LimiterOf(s: State, t: nat): L.State
    requires Known(s, t)
  {
    s.entries[s.tasks[t].entry].limiter
  }

  function SetLimiter(s: State, e: nat, l: L.State): State
    requires e < |s.entries|
  {
    s.(entries := s.entries[e := s.entries[e].(limiter := l)])
  }

  function GroupOf(s: State, t: nat): string
    requires Known(s, t)
  {
    s.entries[s.tasks[t].entry].group
  }

  /** The locked section holds its group's slot. */
  predicate Inside(s: State, t: nat) {
    Known(s, t) && s.tasks[t].call in LimiterOf(s, t).held
  }

  predicate Waiting(s: State, t: nat) {
    Known(s, t) && s.tasks[t].call in LimiterOf(s, t).queue
  }

  predicate Enabled(s: State, e: Event) {
    match e
    case Acquire(_, _, _) => true
    case Settle(t) => Known(s, t) && L.Enabled(LimiterOf(s, t), L.Settle(s.tasks[t].call))
    case Abort(t) => Known(s, t)
    case Finalize(t, _) =>
      Known(s, t) && !s.tasks[t].gone && !Inside(s, t) && !Waiting(s, t) && 0 < s.entries[s.tasks[t].entry].active
  }

  function FinalizeStep(s: State, t: nat, now: int): State
    requires Enabled(s, Finalize(t, now))
  {
    var e := s.tasks[t].entry;
    s.(entries := s.entries[e := s.entries[e].(active := s.entries[e].active - 1, lastUsed := now)],
       tasks := s.tasks[t := s.tasks[t].(gone := true)])
  }

  function Step(s: State, e: Event): State
    requires InRange(s) && Enabled(s, e)
  {
    match e
    case Acquire(group, now, aborted) =>
      var (r, x) := EntryFor(s, group, now);
      Join(r, x, now, aborted)
    case Settle(t) => SetLimiter(s, s.tasks[t].entry, L.SettleStep(LimiterOf(s, t), s.tasks[t].call))
    case Abort(t) => SetLimiter(s, s.tasks[t].entry, L.AbortStep(LimiterOf(s, t), s.tasks[t].call))
    case Finalize(t, now) => FinalizeStep(s, t, now)
  }

  // ---------------------------------------------------------------------------
  // Invariant
  // ---------------------------------------------------------------------------

  /** Tasks of entry `e` whose count has not been given back. */
  function Outstanding(tasks: seq<Task>, e: nat): nat {
    if tasks == [] then 0
    else Outstanding(tasks[..|tasks| - 1], e)
         + if tasks[|tasks| - 1].entry == e && !tasks[|tasks| - 1].gone then 1 else 0
  }

  ghost predicate Tracked(s: State) {
    && InRange(s)
    && (forall i, j :: 0 <= i < j < |s.table| ==> s.entries[s.table[i]].group != s.entries[s.table[j]].group)
    && (forall e :: 0 <= e < |s.entries| && s.entries[e].active != 0 ==> e in s.table)
  }

  /** An entry's limiter is sound, its calls and tasks name each other, and a task that
      gave its count back neither holds nor waits for the slot. */
  ghost predicate Sound(s: State, e: nat)
    requires e < |s.entries|
  {
    var x := s.entries[e];
    && L.Inv(x.limiter) && x.limiter.max == 1
    && |x.owner| == x.limiter.next
    && x.active == Outstanding(s.tasks, e)
    && (forall k :: 0 <= k < |x.owner| ==>
          x.owner[k] < |s.tasks| && s.tasks[x.owner[k]].entry == e && s.tasks[x.owner[k]].call == k)
  }

  ghost predicate Owned(s: State, t: nat)
    requires t < |s.tasks|
  {
    && s.tasks[t].entry < |s.entries|
    && s.tasks[t].call < |s.entries[s.tasks[t].entry].owner|
    && s.entries[s.tasks[t].entry].owner[s.tasks[t].call] == t
    && (s.tasks[t].gone ==> !Inside(s, t) && !Waiting(s, t))
  }

  ghost predicate Inv(s: State) {
    && Tracked(s)
    && (forall e: nat :: e < |s.entries| ==> Sound(s, e))
    && (forall t: nat :: t < |s.tasks| ==> Owned(s, t))
  }

  lemma {:induction false} OutstandingSet(tasks: seq<Task>, t: nat, x: Task, e: nat)
    requires t < |tasks| && x.entry == tasks[t].entry && x.gone && !tasks[t].gone
    ensures Outstanding(tasks[t := x], e) == Outstanding(tasks, e) - if tasks[t].entry == e then 1 else 0
  {
    var n := |tasks| - 1;
    if t == n {
      assert tasks[t := x][..n] == tasks[..n];
    } else {
      assert tasks[t := x][..n] == tasks[..n][t := x];
      OutstandingSet(tasks[..n], t, x, e);
    }
  }

  lemma {:induction false} OutstandingNone(tasks: seq<Task>, e: nat)
    requires forall t :: 0 <= t < |tasks| ==> tasks[t].entry != e
    ensures Outstanding(tasks, e) == 0
  {
    if tasks != [] {
      OutstandingNone(tasks[..|tasks| - 1], e);
    }
  }

  lemma {:induction false} OutstandingSome(tasks: seq<Task>, t: nat)
    requires t < |tasks| && !tasks[t].gone
    ensures 0 < Outstanding(tasks, tasks[t].entry)
  {
    if t < |tasks| - 1 {
      OutstandingSome(tasks[..|tasks| - 1], t);
    }
  }

  lemma StepInv(s: State, e: Event)
    requires Inv(s) && Enabled(s, e)
    ensures Inv(Step(s, e))
  {
    match e
    case Acquire(group, now, aborted) =>
      EntryForInv(s, group, now);
      var (r, x) := EntryFor(s, group, now);
      JoinInv(r, x, now, aborted);
    case Settle(t) => SettleInv(s, t);
    case Abort(t) => AbortInv(s, t);
    case Finalize(t, now) => FinalizeInv(s, t, now);
  }

  /** Soundness of the entries and tasks does not depend on the table. */
  lemma SoundElsewhere(s: State, t: State)
    requires Inv(s) && t.entries == s.entries && t.tasks == s.tasks
    ensures forall e: nat :: e < |t.entries| ==> Sound(t, e)
    ensures forall k: nat :: k < |t.tasks| ==> Owned(t, k)
  {
    forall e: nat | e < |t.entries| ensures Sound(t, e) {
      assert Sound(s, e);
    }
    forall k: nat | k < |t.tasks| ensures Owned(t, k) {
      assert Owned(s, k);
    }
  }

  lemma RemoveKeeps(s: seq<nat>, i: nat, x: nat)
    requires i < |s| && x in s && x != s[i]
    ensures x in Remove(s, i)
  {
    var k :| 0 <= k < |s| && s[k] == x;
    assert k < i ==> Remove(s, i)[k] == x;
    assert i < k ==> Remove(s, i)[k - 1] == x;
  }

  lemma RemoveFrom(s: seq<nat>, i: nat, k: nat)
    requires i < |s| && k < |Remove(s, i)|
    ensures Remove(s, i)[k] == s[if k < i then k else k + 1]
  {
  }

  lemma RemoveRowInv(s: State, p: nat)
    requires Inv(s) && p < |s.table| && s.entries[s.table[p]].active == 0
    ensures Inv(s.(table := Remove(s.table, p)))
    ensures forall k :: 0 <= k < |Remove(s.table, p)| ==> Remove(s.table, p)[k] in s.table
  {
    var t := s.(table := Remove(s.table, p));
    SoundElsewhere(s, t);
    forall k: nat | k < |t.table| ensures t.table[k] == s.table[if k < p then k else k + 1] {
      RemoveFrom(s.table, p, k);
    }
    forall e | 0 <= e < |t.entries| && t.entries[e].active != 0 ensures e in t.table {
      RemoveKeeps(s.table, p, e);
    }
  }

  lemma EvictInv(s: State)
    requires Inv(s)
    ensures Inv(Evict(s))
    ensures forall k :: 0 <= k < |Evict(s).table| ==> Evict(s).table[k] in s.table
  {
    if MAX_TRACKED_GROUPS <= |s.table| {
      var p := Oldest(s.entries, s.table, |s.table|);
      if p != -1 {
        RemoveRowInv(s, p);
      }
    }
  }

  lemma EntryForInv(s: State, group: string, now: int)
    requires Inv(s)
    ensures var (r, x) := EntryFor(s, group, now);
      Inv(r) && x < |r.entries| && r.entries[x].group == group && x in r.table
  {
    var p := Find(s.entries, s.table, group);
    if p == |s.table| {
      EvictInv(s);
      AddEntryInv(Evict(s), group, now);
    }
  }

  lemma AddEntryInv(s: State, group: string, now: int)
    requires Inv(s)
    requires forall k :: 0 <= k < |s.table| ==> s.entries[s.table[k]].group != group
    ensures Inv(s.(entries := s.entries + [FreshEntry(group, now)], table := s.table + [|s.entries|]))
  {
    var n := |s.entries|;
    var t := s.(entries := s.entries + [FreshEntry(group, now)], table := s.table + [n]);
    forall k: nat | k < |t.tasks| ensures Owned(t, k) && t.tasks[k].entry != n {
      assert Owned(s, k);
    }
    OutstandingNone(s.tasks, n);
    forall e: nat | e < |t.entries| ensures Sound(t, e) {
      if e < n {
        assert Sound(s, e);
      }
    }
    forall e | 0 <= e < |t.entries| && t.entries[e].active != 0 ensures e in t.table {
      assert e in s.table;
    }
  }

  lemma JoinInv(s: State, e: nat, now: int, aborted: bool)
    requires Inv(s) && e < |s.entries| && e in s.table
    ensures Inv(Join(s, e, now, aborted))
  {
    var t := Join(s, e, now, aborted);
    var n := |s.tasks|;
    assert Sound(s, e);
    L.CallInv(s.entries[e].limiter, aborted);
    assert t.tasks[..n] == s.tasks;
    forall x: nat | x < |t.entries| ensures Sound(t, x) {
      assert Sound(s, x);
    }
    forall k: nat | k < |t.tasks| ensures Owned(t, k) {
      if k < n {
        assert Owned(s, k);
      }
    }
  }

  /** Task `t`'s limiter moves to `l`: nothing newly waits, and the only call that may
      newly hold the slot was waiting. */
  lemma SetLimiterInv(s: State, t: nat, l: L.State)
    requires Inv(s) && Known(s, t)
    requires L.Inv(l) && l.max == 1 && l.next == LimiterOf(s, t).next
    requires forall c :: c in l.queue || c in l.held ==> c in LimiterOf(s, t).queue || c in LimiterOf(s, t).held
    ensures Inv(SetLimiter(s, s.tasks[t].entry, l))
  {
    var r := SetLimiter(s, s.tasks[t].entry, l);
    forall x: nat | x < |r.entries| ensures Sound(r, x) {
      assert Sound(s, x);
    }
    forall k: nat | k < |r.tasks| ensures Owned(r, k) {
      assert Owned(s, k);
    }
  }

  lemma SettleInv(s: State, t: nat)
    requires Inv(s) && Enabled(s, Settle(t))
    ensures Inv(Step(s, Settle(t)))
  {
    assert Sound(s, s.tasks[t].entry);
    L.SettleInv(LimiterOf(s, t), s.tasks[t].call);
    SetLimiterInv(s, t, L.SettleStep(LimiterOf(s, t), s.tasks[t].call));
  }

  lemma AbortInv(s: State, t: nat)
    requires Inv(s) && Enabled(s, Abort(t))
    ensures Inv(Step(s, Abort(t)))
  {
    assert Sound(s, s.tasks[t].entry);
    L.AbortInv(LimiterOf(s, t), s.tasks[t].call);
    SetLimiterInv(s, t, L.AbortStep(LimiterOf(s, t), s.tasks[t].call));
  }

  lemma FinalizeInv(s: State, t: nat, now: int)
    requires Inv(s) && Enabled(s, Finalize(t, now))
    ensures Inv(FinalizeStep(s, t, now))
  {
    var r := FinalizeStep(s, t, now);
    forall x: nat | x < |r.entries| ensures Sound(r, x) {
      assert Sound(s, x);
      OutstandingSet(s.tasks, t, s.tasks[t].(gone := true), x);
    }
    forall k: nat | k < |r.tasks| ensures Owned(r, k) {
      assert Owned(s, k);
    }
  }

  // ---------------------------------------------------------------------------
  // Exclusion and the table's size
  // ---------------------------------------------------------------------------

  lemma HolderOrWaiterCounts(s: State, e: nat, c: nat)
    requires Inv(s) && e < |s.entries|
    requires c in s.entries[e].limiter.held || c in s.entries[e].limiter.queue
    ensures s.entries[e].active != 0
  {
    assert Sound(s, e);
    var x := s.entries[e];
    L.SurvivorsBelow(x.limiter);
    assert Owned(s, x.owner[c]);
    OutstandingSome(s.tasks, x.owner[c]);
  }

  /** An entry whose count is zero has an idle limiter, so forgetting it is safe. */
  lemma IdleEntryHasIdleLimiter(s: State, e: nat)
    requires Inv(s) && e < |s.entries| && s.entries[e].active == 0
    ensures s.entries[e].limiter.held == {} && s.entries[e].limiter.queue == []
  {
    var x := s.entries[e].limiter;
    assert x.queue != [] ==> x.queue[0] in x.queue;
    forall c ensures c !in x.held && c !in x.queue {
      if c in x.held || c in x.queue {
        HolderOrWaiterCounts(s, e, c);
      }
    }
  }

  /** A task holding its slot sits on the entry the table has for its group. */
  lemma InsideIsTracked(s: State, t: nat)
    requires Inv(s) && Inside(s, t)
    ensures s.tasks[t].entry in s.table
  {
    assert Owned(s, t) && Sound(s, s.tasks[t].entry);
    OutstandingSome(s.tasks, t);
  }

  lemma SingleHolder(x: L.State, c: nat, d: nat)
    requires L.Inv(x) && x.max == 1 && c in x.held && d in x.held
    ensures c == d
  {
    if c != d {
      assert {c, d} <= x.held;
      CardinalityOfSubset({c, d}, x.held);
    }
  }

  lemma CardinalityOfSubset(a: set<nat>, b: set<nat>)
    requires a <= b
    ensures |a| <= |b|
  {
    assert b == a + (b - a);
  }

  /** Mutual exclusion per group, across eviction and recreation of entries. */
  lemma Exclusion(s: State, t: nat, u: nat)
    requires Inv(s) && Inside(s, t) && Inside(s, u)
    requires GroupOf(s, t) == GroupOf(s, u)
    ensures t == u
  {
    InsideIsTracked(s, t);
    InsideIsTracked(s, u);
    var e, f := s.tasks[t].entry, s.tasks[u].entry;
    var i :| 0 <= i < |s.table| && s.table[i] == e;
    var j :| 0 <= j < |s.table| && s.table[j] == f;
    assert i == j;
    assert Sound(s, e) && Owned(s, t) && Owned(s, u);
    SingleHolder(s.entries[e].limiter, s.tasks[t].call, s.tasks[u].call);
  }

  ghost predicate Bounded(s: State, n: nat) { |s.table| <= Max(128, n) }

  lemma {:induction false} AllBusy(entries: seq<Entry>, table: seq<nat>)
    requires forall k :: 0 <= k < |table| ==> table[k] < |entries| && entries[table[k]].active != 0
    ensures Busy(entries, table) == |table|
  {
    if table != [] {
      AllBusy(entries, table[1..]);
    }
  }

  /** The table only grows past its capacity when every tracked group is busy. */
  lemma EntryForSize(s: State, group: string, now: int)
    requires Inv(s)
    ensures var (r, x) := EntryFor(s, group, now);
      || |r.table| <= |s.table|
      || |r.table| <= 128
      || (r.table == s.table + [|s.entries|] && forall k :: 0 <= k < |s.table| ==> s.entries[s.table[k]].active != 0)
  {
  }

  /** The table stays within the larger of its capacity and the number of busy groups. */
  lemma StepBounded(s: State, e: Event, n: nat)
    requires Inv(s) && Enabled(s, e) && Bounded(s, n)
    requires Inv(Step(s, e)) && Busy(Step(s, e).entries, Step(s, e).table) <= n
    ensures Bounded(Step(s, e), n)
  {
    var t := Step(s, e);
    if e.Acquire? {
      EntryForSize(s, e.group, e.now);
      if |s.table| < |t.table| && 128 < |t.table| {
        AllBusy(t.entries, t.table);
      }
    } else {
      assert t.table == s.table;
    }
  }

  /** A tracked entry with outstanding work stays tracked. */
  lemma BusyEntryStays(s: State, e: Event, x: nat)
    requires Inv(s) && Enabled(s, e) && x in s.table && x < |s.entries| && s.entries[x].active != 0
    ensures x in Step(s, e).table
  {
    if e.Acquire? && Evict(s) != s {
      RemoveKeeps(s.table, Oldest(s.entries, s.table, |s.table|), x);
    }
  }

  function Empty(): State { State([], [], []) }

  ghost predicate Valid(s: State, es: seq<Event>)
    requires Inv(s)
    decreases |es|
  {
    es == [] || (Enabled(s, es[0]) && (StepInv(s, es[0]); Valid(Step(s, es[0]), es[1..])))
  }

  ghost function Run(s: State, es: seq<Event>): (t: State)
    requires Inv(s) && Valid(s, es)
    ensures Inv(t)
    decreases |es|
  {
    if es == [] then s
    else
      StepInv(s, es[0]);
      Run(Step(s, es[0]), es[1..])
  }

  /** At every moment of the run at most `n` groups are busy. */
  ghost predicate BusyAtMost(s: State, es: seq<Event>, n: nat)
    requires Inv(s) && Valid(s, es)
    decreases |es|
  {
    && Busy(s.entries, s.table) <= n
    && (es == [] || (StepInv(s, es[0]); BusyAtMost(Step(s, es[0]), es[1..], n)))
  }

  lemma {:induction false} RunBounded(s: State, es: seq<Event>, n: nat)
    requires Inv(s) && Bounded(s, n) && Valid(s, es) && BusyAtMost(s, es, n)
    ensures Bounded(Run(s, es), n)
    decreases |es|
  {
    if es != [] {
      StepInv(s, es[0]);
      StepBounded(s, es[0], n);
      RunBounded(Step(s, es[0]), es[1..], n);
    }
  }

  /** Every run of acquisitions, completions, aborts and finalizers: at most one task per
      group is inside, and the table is no larger than the larger of its capacity and the
      most groups that were ever busy at once. */
  lemma LockIsExclusiveAndBounded(es: seq<Event>, n: nat)
    requires Valid(Empty(), es) && BusyAtMost(Empty(), es, n)
    ensures var s := Run(Empty(), es);
      && (forall t: nat, u: nat :: Inside(s, t) && Inside(s, u) && GroupOf(s, t) == GroupOf(s, u) ==> t == u)
      && |s.table| <= Max(128, n)
  {
    RunBounded(Empty(), es, n);
    var s := Run(Empty(), es);
    forall t: nat, u: nat | Inside(s, t) && Inside(s, u) && GroupOf(s, t) == GroupOf(s, u)
      ensures t == u
    {
      Exclusion(s, t, u);
    }
  }

  // ---------------------------------------------------------------------------
  // The module
  // ---------------------------------------------------------------------------

  class LockTable {
    var entries: seq<Entry>
    var locks: seq<nat>
    var tasks: seq<Task>

    function View(): State
      reads this
    {
      State(entries, locks, tasks)
    }

    constructor ()
      ensures View() == Empty() && Inv(View())
    {
      entries, locks, tasks := [], [], [];
    }

    /** The search for the least recently used idle entry. */
    method FindOldest() returns (oldest: int)
      requires InRange(View())
      ensures oldest == Oldest(entries, locks, |locks|)
    {
      oldest := -1;
      for i := 0 to |locks|
        invariant oldest == Oldest(entries, locks, i)
      {
        var entry := entries[locks[i]];
        if entry.active == 0 && (oldest == -1 || entry.lastUsed < entries[locks[oldest]].lastUsed) {
          oldest := i;
        }
      }
    }

    method EvictIdleLruIfAtCapacity()
      requires InRange(View())
      modifies this`locks
      ensures View() == Evict(old(View()))
    {
      if |locks| < MAX_TRACKED_GROUPS {
        return;
      }
      var oldest := FindOldest();
      if oldest != -1 {
        locks := locks[..oldest] + locks[oldest + 1..];
      }
    }

    method EntryNumberFor(group: string, now: int) returns (e: nat)
      requires Inv(View())
      modifies this`locks, this`entries
      ensures (View(), e) == EntryFor(old(View()), group, now)
    {
      var p := 0;
      while p < |locks| && entries[locks[p]].group != group
        invariant p <= |locks|
        invariant Find(entries, locks, group) == p + Find(entries, locks[p..], group)
      {
        assert locks[p..][1..] == locks[p + 1..];
        p := p + 1;
      }
      if p < |locks| {
        return locks[p];
      }
      EvictIdleLruIfAtCapacity();
      e := |entries|;
      entries := entries + [FreshEntry(group, now)];
      locks := locks + [e];
    }

    method WithMlsCommitLock(group: string, now: int, signalAborted: bool) returns (task: nat)
      requires Inv(View())
      modifies this
      ensures task == |old(tasks)|
      ensures View() == Step(old(View()), Acquire(group, now, signalAborted)) && Inv(View())
    {
      StepInv(View(), Acquire(group, now, signalAborted));
      EntryForInv(View(), group, now);
      var e := EntryNumberFor(group, now);
      task := |tasks|;
      var entry := entries[e];
      tasks := tasks + [Task(e, entry.limiter.next, false)];
      entries := entries[e :=
        Entry(group, L.CallStep(entry.limiter, signalAborted), entry.active + 1, now, entry.owner + [task])];
    }

    /** The `finally` of a settled or aborted acquisition. */
    method GiveBack(task: nat, now: int)
      requires Inv(View()) && Enabled(View(), Finalize(task, now))
      modifies this
      ensures View() == Step(old(View()), Finalize(task, now)) && Inv(View())
    {
      StepInv(View(), Finalize(task, now));
      var e := tasks[task].entry;
      entries := entries[e := entries[e].(active := entries[e].active - 1, lastUsed := now)];
      tasks := tasks[task := tasks[task].(gone := true)];
    }

    /** The section settled: the limiter passes its slot on. */
    method Release(task: nat)
      requires Inv(View()) && Enabled(View(), Settle(task))
      modifies this
      ensures View() == Step(old(View()), Settle(task)) && Inv(View())
    {
      StepInv(View(), Settle(task));
      var e := tasks[task].entry;
      entries := entries[e := entries[e].(limiter := L.SettleStep(entries[e].limiter, tasks[task].call))];
    }

    /** The section's signal aborts. */
    method OnAbort(task: nat)
      requires Inv(View()) && Enabled(View(), Abort(task))
      modifies this
      ensures View() == Step(old(View()), Abort(task)) && Inv(View())
    {
      StepInv(View(), Abort(task));
      var e := tasks[task].entry;
      entries := entries[e := entries[e].(limiter := L.AbortStep(entries[e].limiter, tasks[task].call))];
    }

    method Perform(e: Event)
      requires Inv(View()) && Enabled(View(), e)
      modifies this
      ensures View() == Step(old(View()), e) && Inv(View())
    {
      match e
      case Acquire(group, now, aborted) => var _ := WithMlsCommitLock(group, now, aborted);
      case Settle(task) => Release(task);
      case Abort(task) => OnAbort(task);
      case Finalize(task, now) => GiveBack(task, now);
    }

    /** Any schedule. */
    method PerformAll(es: seq<Event>)
      requires Inv(View()) && Valid(View(), es)
      modifies this
      ensures Inv(View()) && View() == Run(old(View()), es)
    {
      var i := 0;
      while i < |es|
        invariant i <= |es| && Inv(View()) && Valid(View(), es[i..])
        invariant Run(View(), es[i..]) == Run(old(View()), es)
      {
        assert es[i..][0] == es[i] && es[i..][1..] == es[i + 1..];
        Perform(es[i]);
        i := i + 1;
      }
    }
  }
}
