/** The FIFO concurrency limiter: at most `max` tasks hold a slot, waiting tasks
    enter in call order, and a waiting task whose signal aborts leaves the queue
    without ever running.

    Premise: every task returns a promise, so its slot is released when it settles. */
module Limiter {
  import opened Helpers

  /** `active` and `queue` are the closure's variables; the other fields record the
      promises it handed out.  Calls are numbered 0, 1, 2, ... */
  datatype State = State(
    max: nat,
    active: nat,
    queue: seq<nat>,
    next: nat,
    held: set<nat>,
    entered: seq<nat>,
    aborted: set<nat>)

  datatype Event = Call(alreadyAborted: bool) | Settle(id: nat) | Abort(id: nat)

  /** `createLimiter` refuses a bound below one. */
  function Create(max: int): (r: Option<State>)
    ensures r.Some? <==> 1 <= max
    ensures r.Some? ==> Inv(r.value) && r.value.next == 0
  {
    if max < 1 then None else Some(State(max, 0, [], 0, {}, [], {}))
  }

  function IndexOf(q: seq<nat>, id: nat): (i: nat)
    ensures i <= |q|
    ensures i < |q| ==> q[i] == id
    ensures id !in q[..i]
  {
    if q == [] || q[0] == id then 0 else 1 + IndexOf(q[1..], id)
  }

  function CallStep(s: State, alreadyAborted: bool): State {
    var id := s.next;
    if alreadyAborted then s.(next := id + 1, aborted := s.aborted + {id})
    else if s.active < s.max then
      s.(next := id + 1, active := s.active + 1, held := s.held + {id}, entered := s.entered + [id])
    else s.(next := id + 1, queue := s.queue + [id])
  }

  /** `release`, run when task `id` settles. */
  function SettleStep(s: State, id: nat): State
    requires 0 < s.active
  {
    if s.queue == [] then s.(active := s.active - 1, held := s.held - {id})
    else s.(queue := s.queue[1..], held := s.held - {id} + {s.queue[0]}, entered := s.entered + [s.queue[0]])
  }

  /** `onAbort`: only a task still in the queue is affected. */
  function AbortStep(s: State, id: nat): State {
    var i := IndexOf(s.queue, id);
    if i < |s.queue| then s.(queue := Remove(s.queue, i), aborted := s.aborted + {id}) else s
  }

  predicate Enabled(s: State, e: Event) {
    match e
    case Call(_) => true
    case Settle(id) => id in s.held && 0 < s.active
    case Abort(id) => id < s.next
  }

  function Step(s: State, e: Event): State
    requires Enabled(s, e)
  {
    match e
    case Call(aborted) => CallStep(s, aborted)
    case Settle(id) => SettleStep(s, id)
    case Abort(id) => AbortStep(s, id)
  }

  /** The calls made so far, in call order, without the aborted ones. */
  function Survivors(n: nat, aborted: set<nat>): seq<nat> {
    if n == 0 then []
    else Survivors(n - 1, aborted) + if n - 1 in aborted then [] else [n - 1]
  }

  /** Slots held never exceed the bound; a task waits only while every slot is held;
      what entered followed by what waits is every surviving call in call order. */
  ghost predicate Inv(s: State) {
    && s.active == |s.held| <= s.max
    && (s.queue != [] ==> s.active == s.max)
    && s.entered + s.queue == Survivors(s.next, s.aborted)
    && (forall id :: id in s.held ==> id in s.entered)
    && (forall id :: id in s.aborted ==> id < s.next)
  }

  lemma {:induction false} SurvivorsAt(n: nat, aborted: set<nat>, i: nat)
    requires i < |Survivors(n, aborted)|
    ensures Survivors(n, aborted)[i] < n && Survivors(n, aborted)[i] !in aborted
    ensures forall j :: i < j < |Survivors(n, aborted)| ==> Survivors(n, aborted)[i] < Survivors(n, aborted)[j]
  {
    var s := Survivors(n - 1, aborted);
    if i < |s| {
      SurvivorsAt(n - 1, aborted, i);
    }
  }

  lemma {:induction false} SurvivorsIgnore(n: nat, aborted: set<nat>, id: nat)
    requires n <= id
    ensures Survivors(n, aborted + {id}) == Survivors(n, aborted)
  {
    if 0 < n {
      SurvivorsIgnore(n - 1, aborted, id);
    }
  }

  lemma {:induction false} SurvivorsAbort(n: nat, aborted: set<nat>, i: nat)
    requires i < |Survivors(n, aborted)|
    ensures Survivors(n, aborted + {Survivors(n, aborted)[i]}) == Remove(Survivors(n, aborted), i)
  {
    var s := Survivors(n - 1, aborted);
    if i < |s| {
      SurvivorsAbort(n - 1, aborted, i);
      SurvivorsAt(n - 1, aborted, i);
    } else {
      SurvivorsIgnore(n - 1, aborted, n - 1);
    }
  }

  lemma CallInv(s: State, aborted: bool)
    requires Inv(s)
    ensures Inv(CallStep(s, aborted))
  {
    if aborted {
      SurvivorsIgnore(s.next, s.aborted, s.next);
    } else {
      SurvivorsBelow(s);
      assert s.entered + (s.queue + [s.next]) == (s.entered + s.queue) + [s.next];
      assert s.queue == [] ==> (s.entered + [s.next]) + s.queue == (s.entered + s.queue) + [s.next];
    }
  }

  lemma SurvivorsBelow(s: State)
    requires Inv(s)
    ensures forall id :: id in s.entered || id in s.queue || id in s.held ==> id < s.next && id !in s.aborted
  {
    var all := s.entered + s.queue;
    forall i | 0 <= i < |all| ensures all[i] < s.next && all[i] !in s.aborted {
      SurvivorsAt(s.next, s.aborted, i);
    }
    forall id | id in s.entered || id in s.queue || id in s.held ensures id in all {
    }
  }

  /** A waiting task has not entered, so it holds no slot. */
  lemma WaitingNotEntered(s: State, i: nat)
    requires Inv(s) && i < |s.queue|
    ensures s.queue[i] !in s.entered && s.queue[i] !in s.held
    ensures forall j :: 0 <= j < |s.queue| && j != i ==> s.queue[j] != s.queue[i]
  {
    var all := s.entered + s.queue;
    var k := |s.entered| + i;
    forall j | 0 <= j < |all| && j != k ensures all[j] != all[k] {
      if j < k {
        SurvivorsAt(s.next, s.aborted, j);
      } else {
        SurvivorsAt(s.next, s.aborted, k);
      }
    }
    forall j | 0 <= j < |s.entered| ensures s.entered[j] != s.queue[i] {
      assert all[j] == s.entered[j];
    }
    forall j | 0 <= j < |s.queue| && j != i ensures s.queue[j] != s.queue[i] {
      assert all[|s.entered| + j] == s.queue[j];
    }
  }

  lemma SettleInv(s: State, id: nat)
    requires Inv(s) && Enabled(s, Settle(id))
    ensures Inv(SettleStep(s, id))
  {
    if s.queue != [] {
      WaitingNotEntered(s, 0);
      assert s.entered + [s.queue[0]] + s.queue[1..] == s.entered + s.queue;
    }
  }

  lemma RemoveFromTail(a: seq<nat>, b: seq<nat>, i: nat)
    requires i < |b|
    ensures (a + b)[|a| + i] == b[i] && a + Remove(b, i) == Remove(a + b, |a| + i)
  {
  }

  lemma AbortInv(s: State, id: nat)
    requires Inv(s)
    ensures Inv(AbortStep(s, id))
  {
    var i := IndexOf(s.queue, id);
    if i < |s.queue| {
      RemoveFromTail(s.entered, s.queue, i);
      SurvivorsAbort(s.next, s.aborted, |s.entered| + i);
      SurvivorsAt(s.next, s.aborted, |s.entered| + i);
    }
  }

  lemma OnlyWaiterLeaves(s: State, id: nat)
    requires Inv(s)
    ensures forall x :: x in AbortStep(s, id).queue <==> x in s.queue && x != id
  {
    var i := IndexOf(s.queue, id);
    if i < |s.queue| {
      WaitingNotEntered(s, i);
      forall x | x in s.queue && x != id ensures x in Remove(s.queue, i) {
        var k :| 0 <= k < |s.queue| && s.queue[k] == x;
        assert Remove(s.queue, i)[if k < i then k else k - 1] == x;
      }
    }
  }

  lemma StepInv(s: State, e: Event)
    requires Inv(s) && Enabled(s, e)
    ensures Inv(Step(s, e))
  {
    match e
    case Call(aborted) => CallInv(s, aborted);
    case Settle(id) => SettleInv(s, id);
    case Abort(id) => AbortInv(s, id);
  }

  predicate Valid(s: State, es: seq<Event>)
    decreases |es|
  {
    es == [] || (Enabled(s, es[0]) && Valid(Step(s, es[0]), es[1..]))
  }

  function Run(s: State, es: seq<Event>): State
    requires Valid(s, es)
    decreases |es|
  {
    if es == [] then s else Run(Step(s, es[0]), es[1..])
  }

  lemma {:induction false} RunInv(s: State, es: seq<Event>)
    requires Inv(s) && Valid(s, es)
    ensures Inv(Run(s, es))
    decreases |es|
  {
    if es != [] {
      StepInv(s, es[0]);
      RunInv(Step(s, es[0]), es[1..]);
    }
  }

  // ---------------------------------------------------------------------------
  // What the history decides
  // ---------------------------------------------------------------------------

  function Calls(es: seq<Event>): nat {
    if es == [] then 0 else (if es[0].Call? then 1 else 0) + Calls(es[1..])
  }

  /** Call `id` is made with its signal aborted, or its signal aborts while it waits. */
  predicate AbortsAt(s: State, e: Event, id: nat) {
    (e == Call(true) && s.next == id) || (e == Abort(id) && id in s.queue)
  }

  predicate AbortsIn(s: State, es: seq<Event>, id: nat)
    requires Valid(s, es)
    decreases |es|
  {
    es != [] && (AbortsAt(s, es[0], id) || AbortsIn(Step(s, es[0]), es[1..], id))
  }

  lemma StepHistory(s: State, e: Event, id: nat)
    requires Inv(s) && Enabled(s, e)
    ensures var t := Step(s, e);
      && t.next == s.next + (if e.Call? then 1 else 0)
      && (id in t.aborted <==> id in s.aborted || AbortsAt(s, e, id))
      && (id in s.entered ==> id in t.entered)
      && (id in t.held <==> (id in s.held || (id in t.entered && id !in s.entered)) && e != Settle(id))
  {
    SurvivorsBelow(s);
    if s.queue != [] {
      WaitingNotEntered(s, 0);
    }
  }

  lemma {:induction false} RunHistory(s: State, es: seq<Event>, id: nat)
    requires Inv(s) && Valid(s, es)
    ensures var t := Run(s, es);
      && t.next == s.next + Calls(es)
      && (id in t.aborted <==> id in s.aborted || AbortsIn(s, es, id))
      && (id in s.entered ==> id in t.entered)
      && (id in t.held <==> (id in s.held || (id in t.entered && id !in s.entered)) && Settle(id) !in es)
    decreases |es|
  {
    if es != [] {
      StepInv(s, es[0]);
      StepHistory(s, es[0], id);
      RunHistory(Step(s, es[0]), es[1..], id);
      assert es == [es[0]] + es[1..];
    }
  }

  /** For every bound and every interleaving of calls, completions and aborts, from the
      events alone: the bound holds; a call waits only while every slot is held; what entered,
      followed by what waits, is every call in call order except exactly those made with an
      aborted signal or aborted while they waited; and a slot is held by exactly the calls
      that entered and have not settled. */
  lemma Fifo(max: nat, es: seq<Event>)
    requires 1 <= max && Valid(Create(max).value, es)
    ensures var s := Run(Create(max).value, es);
      && |s.held| <= max
      && (s.queue != [] ==> |s.held| == max)
      && s.entered + s.queue == Survivors(Calls(es), s.aborted)
      && (forall id :: id in s.aborted <==> AbortsIn(Create(max).value, es, id))
      && (forall id :: id in s.held <==> id in s.entered && Settle(id) !in es)
  {
    var start := Create(max).value;
    RunInv(start, es);
    MaxStays(start, es);
    RunHistory(start, es, 0);
    forall id: nat
      ensures id in Run(start, es).aborted <==> AbortsIn(start, es, id)
      ensures id in Run(start, es).held <==> id in Run(start, es).entered && Settle(id) !in es
    {
      RunHistory(start, es, id);
    }
  }

  /** Once a call was made with an aborted signal, or its signal aborted while it waited, it
      is never again waiting, entered or holding a slot, whatever happens later. */
  lemma AbortedNeverEnters(max: nat, es: seq<Event>, later: seq<Event>, id: nat)
    requires 1 <= max && Valid(Create(max).value, es) && Valid(Run(Create(max).value, es), later)
    requires AbortsIn(Create(max).value, es, id)
    ensures var t := Run(Run(Create(max).value, es), later); id !in t.queue && id !in t.entered && id !in t.held
  {
    var start := Create(max).value;
    var s := Run(start, es);
    RunInv(start, es);
    RunHistory(start, es, id);
    RunInv(s, later);
    RunHistory(s, later, id);
    SurvivorsBelow(Run(s, later));
  }

  lemma {:induction false} MaxStays(s: State, es: seq<Event>)
    requires Valid(s, es)
    ensures Run(s, es).max == s.max
    decreases |es|
  {
    if es != [] {
      MaxStays(Step(s, es[0]), es[1..]);
    }
  }

  /** The limiter's closure. */
  class Slots {
    const max: nat
    var active: nat
    var queue: seq<nat>
    var next: nat
    var held: set<nat>
    var entered: seq<nat>
    var aborted: set<nat>

    function View(): State
      reads this
    {
      State(max, active, queue, next, held, entered, aborted)
    }

    constructor (maxConcurrent: nat)
      requires 1 <= maxConcurrent
      ensures Some(View()) == Create(maxConcurrent)
    {
      max := maxConcurrent;
      active, next := 0, 0;
      queue, entered := [], [];
      held, aborted := {}, {};
    }

    method Limit(signalAborted: bool) returns (id: nat)
      requires Inv(View())
      modifies this
      ensures id == old(next) && View() == Step(old(View()), Call(signalAborted)) && Inv(View())
    {
      CallInv(View(), signalAborted);
      id := next;
      next := next + 1;
      if signalAborted {
        aborted := aborted + {id};
        return;
      }
      if active < max {
        active := active + 1;
        held, entered := held + {id}, entered + [id];
        return;
      }
      queue := queue + [id];
    }

    method Release(id: nat)
      requires Inv(View()) && Enabled(View(), Settle(id))
      modifies this
      ensures View() == Step(old(View()), Settle(id)) && Inv(View())
    {
      SettleInv(View(), id);
      active := active - 1;
      held := held - {id};
      if queue != [] {
        var front := queue[0];
        queue := queue[1..];
        active := active + 1;
        held, entered := held + {front}, entered + [front];
      }
    }

    method OnAbort(id: nat)
      requires Inv(View())
      modifies this
      ensures View() == AbortStep(old(View()), id) && Inv(View())
      ensures id !in queue && entered == old(entered) && held == old(held)
      ensures forall x :: x != id ==> (x in queue <==> x in old(queue))
    {
      AbortInv(View(), id);
      OnlyWaiterLeaves(View(), id);
      var i := 0;
      while i < |queue| && queue[i] != id
        invariant i <= |queue| && IndexOf(queue, id) == i + IndexOf(queue[i..], id)
      {
        assert queue[i..][1..] == queue[i + 1..];
        i := i + 1;
      }
      if i < |queue| {
        queue := queue[..i] + queue[i + 1..];
        aborted := aborted + {id};
      }
    }
  }
}
