/** The per-sender sliding-window rate limit, with the pruning done at every question
    and the sweep of stale senders done at every poll.

    Premise: the clock does not go backwards. */
module RateLimit {

  const RATE_WINDOW_MS: nat := 10_000
  const DECRYPT_RATE_MAX: nat := 100
  const REACTION_RATE_MAX: nat := 20

  type History = map<string, seq<int>>

  function Of(h: History, sender: string): seq<int> { if sender in h then h[sender] else [] }

  /** The admissions still inside the window. */
  function Recent(ts: seq<int>, now: int): seq<int> {
    if ts == [] then []
    else Recent(ts[..|ts| - 1], now) + if now - ts[|ts| - 1] < RATE_WINDOW_MS then [ts[|ts| - 1]] else []
  }

  /** One question: prune, decide, and record an admission. */
  function Ask(h: History, max: nat, sender: string, now: int): (History, bool) {
    var recent := Recent(Of(h, sender), now);
    if max <= |recent| then (h[sender := recent], false) else (h[sender := recent + [now]], true)
  }

  function Sweep(h: History, now: int): History {
    map sender | sender in h && Recent(h[sender], now) != [] :: h[sender]
  }

  datatype Event = Question(sender: string, now: int) | Clean(now: int)

  /** The reference limiter never forgets an admission. */
  function Reference(h: History, max: nat, sender: string, now: int): (History, bool) {
    if max <= |Recent(Of(h, sender), now)| then (h, false) else (h[sender := Of(h, sender) + [now]], true)
  }

  predicate Timed(clock: int, es: seq<Event>)
    decreases |es|
  {
    es == [] || (clock <= es[0].now && Timed(es[0].now, es[1..]))
  }

  function Answers(h: History, max: nat, es: seq<Event>): seq<bool>
    decreases |es|
  {
    if es == [] then []
    else
      match es[0]
      case Question(sender, now) =>
        var (h', ok) := Ask(h, max, sender, now);
        [ok] + Answers(h', max, es[1..])
      case Clean(now) => Answers(Sweep(h, now), max, es[1..])
  }

  function ReferenceAnswers(h: History, max: nat, es: seq<Event>): seq<bool>
    decreases |es|
  {
    if es == [] then []
    else
      match es[0]
      case Question(sender, now) =>
        var (h', ok) := Reference(h, max, sender, now);
        [ok] + ReferenceAnswers(h', max, es[1..])
      case Clean(now) => ReferenceAnswers(h, max, es[1..])
  }

  // ---------------------------------------------------------------------------
  // Forgetting changes no answer
  // ---------------------------------------------------------------------------

  lemma {:induction false} RecentTwice(ts: seq<int>, a: int, b: int)
    requires a <= b
    ensures Recent(Recent(ts, a), b) == Recent(ts, b)
  {
    if ts != [] {
      RecentTwice(ts[..|ts| - 1], a, b);
      var r := Recent(ts[..|ts| - 1], a);
      var last := ts[|ts| - 1];
      if a - last < RATE_WINDOW_MS {
        assert (r + [last])[..|r|] == r;
      } else {
        assert Recent(ts, a) == r;
      }
    }
  }

  lemma RecentPush(ts: seq<int>, now: int)
    ensures Recent(ts + [now], now) == Recent(ts, now) + [now]
  {
    assert (ts + [now])[..|ts|] == ts;
  }

  /** The two limiters agree on every sender's admissions inside the window. */
  ghost predicate Same(h: History, g: History, clock: int) {
    forall sender :: Recent(Of(h, sender), clock) == Recent(Of(g, sender), clock)
  }

  lemma SameLater(h: History, g: History, a: int, b: int)
    requires Same(h, g, a) && a <= b
    ensures Same(h, g, b)
  {
    forall sender ensures Recent(Of(h, sender), b) == Recent(Of(g, sender), b) {
      RecentTwice(Of(h, sender), a, b);
      RecentTwice(Of(g, sender), a, b);
    }
  }

  lemma AskSame(h: History, g: History, max: nat, sender: string, now: int)
    requires Same(h, g, now)
    ensures Ask(h, max, sender, now).1 == Reference(g, max, sender, now).1
    ensures Same(Ask(h, max, sender, now).0, Reference(g, max, sender, now).0, now)
  {
    var ts := Of(h, sender);
    RecentTwice(ts, now, now);
    RecentPush(Recent(ts, now), now);
    RecentPush(Of(g, sender), now);
    var h', g' := Ask(h, max, sender, now).0, Reference(g, max, sender, now).0;
    forall x ensures Recent(Of(h', x), now) == Recent(Of(g', x), now) {
      assert Recent(Of(h, x), now) == Recent(Of(g, x), now);
    }
  }

  lemma SweepSame(h: History, g: History, now: int)
    requires Same(h, g, now)
    ensures Same(Sweep(h, now), g, now)
  {
    forall x ensures Recent(Of(Sweep(h, now), x), now) == Recent(Of(g, x), now) {
      assert Recent(Of(h, x), now) == Recent(Of(g, x), now);
    }
  }

  /** The pruned and swept limiter answers every sequence of questions exactly as the
      one that keeps all history. */
  lemma {:induction false} ForgettingIsInvisible(h: History, g: History, max: nat, clock: int, es: seq<Event>)
    requires Same(h, g, clock) && Timed(clock, es)
    ensures Answers(h, max, es) == ReferenceAnswers(g, max, es)
    decreases |es|
  {
    if es != [] {
      SameLater(h, g, clock, es[0].now);
      match es[0]
      case Question(sender, now) =>
        AskSame(h, g, max, sender, now);
        ForgettingIsInvisible(Ask(h, max, sender, now).0, Reference(g, max, sender, now).0, max, now, es[1..]);
      case Clean(now) =>
        SweepSame(h, g, now);
        ForgettingIsInvisible(Sweep(h, now), g, max, now, es[1..]);
    }
  }

  // ---------------------------------------------------------------------------
  // What the answers guarantee
  // ---------------------------------------------------------------------------

  function After(h: History, max: nat, e: Event): History {
    match e
    case Question(x, now) => Ask(h, max, x, now).0
    case Clean(now) => Sweep(h, now)
  }

  /** The event admits `sender`. */
  predicate Admits(h: History, max: nat, e: Event, sender: string) {
    e.Question? && e.sender == sender && Ask(h, max, e.sender, e.now).1
  }

  /** The times at which one sender was admitted, after those in `all`. */
  function Admitted(h: History, all: seq<int>, max: nat, es: seq<Event>, sender: string): seq<int>
    decreases |es|
  {
    if es == [] then all
    else
      var more := if Admits(h, max, es[0], sender) then all + [es[0].now] else all;
      Admitted(After(h, max, es[0]), more, max, es[1..], sender)
  }

  /** Non-decreasing up to `clock`, and any `max + 1` consecutive ones span a window. */
  ghost predicate Spaced(ts: seq<int>, max: nat, clock: int) {
    && (forall i, k :: 0 <= i <= k < |ts| ==> ts[i] <= ts[k] <= clock)
    && (forall i :: 0 <= i && i + max < |ts| ==> RATE_WINDOW_MS <= ts[i + max] - ts[i])
  }

  lemma {:induction false} RecentAtLeast(ts: seq<int>, i: nat, now: int)
    requires i <= |ts| && forall k :: i <= k < |ts| ==> now - ts[k] < RATE_WINDOW_MS
    ensures |ts| - i <= |Recent(ts, now)|
  {
    if i < |ts| {
      RecentAtLeast(ts[..|ts| - 1], i, now);
    }
  }

  lemma AdmitSpaced(ts: seq<int>, max: nat, clock: int, now: int)
    requires Spaced(ts, max, clock) && clock <= now && |Recent(ts, now)| < max
    ensures Spaced(ts + [now], max, now)
  {
    var us := ts + [now];
    if max <= |ts| && now - ts[|ts| - max] < RATE_WINDOW_MS {
      RecentAtLeast(ts, |ts| - max, now);
    }
  }

  /** `all` are the sender's admissions so far; `h` agrees with them inside the window. */
  ghost predicate Tracks(h: History, all: seq<int>, max: nat, clock: int, sender: string) {
    Spaced(all, max, clock) && Recent(Of(h, sender), clock) == Recent(all, clock)
  }

  lemma TracksLater(h: History, all: seq<int>, max: nat, clock: int, now: int, sender: string)
    requires Tracks(h, all, max, clock, sender) && clock <= now
    ensures Tracks(h, all, max, now, sender)
  {
    RecentTwice(Of(h, sender), clock, now);
    RecentTwice(all, clock, now);
  }

  lemma TracksEvent(h: History, all: seq<int>, max: nat, e: Event, sender: string)
    requires Tracks(h, all, max, e.now, sender)
    ensures Tracks(After(h, max, e), if Admits(h, max, e, sender) then all + [e.now] else all, max, e.now, sender)
  {
    if e.Question? && e.sender == sender {
      RecentTwice(Of(h, sender), e.now, e.now);
      RecentPush(Recent(Of(h, sender), e.now), e.now);
      RecentPush(all, e.now);
      if Admits(h, max, e, sender) {
        AdmitSpaced(all, max, e.now, e.now);
      }
    }
  }

  function AfterAll(h: History, max: nat, es: seq<Event>): History
    decreases |es|
  {
    if es == [] then h else AfterAll(After(h, max, es[0]), max, es[1..])
  }

  function End(clock: int, es: seq<Event>): int
    decreases |es|
  {
    if es == [] then clock else End(es[0].now, es[1..])
  }

  lemma {:induction false} AdmissionsTracked(h: History, all: seq<int>, max: nat, clock: int, es: seq<Event>,
      sender: string)
    requires Tracks(h, all, max, clock, sender) && Timed(clock, es)
    ensures Tracks(AfterAll(h, max, es), Admitted(h, all, max, es, sender), max, End(clock, es), sender)
    decreases |es|
  {
    if es != [] {
      var e := es[0];
      TracksLater(h, all, max, clock, e.now, sender);
      TracksEvent(h, all, max, e, sender);
      var more := if Admits(h, max, e, sender) then all + [e.now] else all;
      AdmissionsTracked(After(h, max, e), more, max, e.now, es[1..], sender);
    }
  }

  /** Any `max + 1` admissions of one sender, 101 decrypts or 21 reactions, span at least
      ten seconds, whatever was asked and swept in between. */
  lemma AdmissionRate(max: nat, clock: int, es: seq<Event>, sender: string, i: nat)
    requires Timed(clock, es) && i + max < |Admitted(map[], [], max, es, sender)|
    ensures var ts := Admitted(map[], [], max, es, sender); 10_000 <= ts[i + max] - ts[i]
  {
    AdmissionsTracked(map[], [], max, clock, es, sender);
  }

  /** How many of the times lie less than ten seconds before `now`. */
  function CountRecent(ts: seq<int>, now: int): nat {
    if ts == [] then 0
    else CountRecent(ts[..|ts| - 1], now) + if now - ts[|ts| - 1] < 10_000 then 1 else 0
  }

  lemma {:induction false} RecentCounts(ts: seq<int>, now: int)
    ensures |Recent(ts, now)| == CountRecent(ts, now)
    ensures Recent(ts, now) != [] <==> exists i :: 0 <= i < |ts| && now - ts[i] < 10_000
  {
    if ts != [] {
      RecentCounts(ts[..|ts| - 1], now);
    }
  }

  /** After every sequence of questions and sweeps, a sender is admitted if and only if fewer
      than `max` of its admissions lie within the last ten seconds. */
  lemma AdmittedExactlyWhen(max: nat, clock: int, es: seq<Event>, sender: string, now: int)
    requires Timed(clock, es) && End(clock, es) <= now
    ensures Admits(AfterAll(map[], max, es), max, Question(sender, now), sender) <==>
      CountRecent(Admitted(map[], [], max, es, sender), now) < max
  {
    var h, all := AfterAll(map[], max, es), Admitted(map[], [], max, es, sender);
    AdmissionsTracked(map[], [], max, clock, es, sender);
    TracksLater(h, all, max, End(clock, es), now, sender);
    RecentCounts(all, now);
  }

  // ---------------------------------------------------------------------------
  // The maps held by the hook
  // ---------------------------------------------------------------------------

  class Limiter {
    const max: nat
    var timestamps: History

    constructor (max: nat)
      ensures this.max == max && timestamps == map[]
    {
      this.max, timestamps := max, map[];
    }

    method Within(sender: string, now: int) returns (ok: bool)
      modifies this
      ensures (timestamps, ok) == Ask(old(timestamps), max, sender, now)
      ensures ok <==> CountRecent(Of(old(timestamps), sender), now) < max
    {
      var all := Of(timestamps, sender);
      var recent: seq<int> := [];
      for i := 0 to |all|
        invariant recent == Recent(all[..i], now)
      {
        assert all[..i + 1][..i] == all[..i];
        if now - all[i] < RATE_WINDOW_MS {
          recent := recent + [all[i]];
        }
      }
      assert all[..|all|] == all;
      RecentCounts(all, now);
      if |recent| >= max {
        timestamps := timestamps[sender := recent];
        return false;
      }
      recent := recent + [now];
      timestamps := timestamps[sender := recent];
      return true;
    }

    method SweepStale(now: int)
      modifies this
      ensures timestamps == Sweep(old(timestamps), now)
      ensures forall x :: x in old(timestamps) ==>
        (x in timestamps <==> exists i :: 0 <= i < |old(timestamps)[x]| && now - old(timestamps)[x][i] < 10_000)
      ensures forall x :: x in timestamps ==> x in old(timestamps) && timestamps[x] == old(timestamps)[x]
    {
      var todo := timestamps.Keys;
      while todo != {}
        invariant todo <= timestamps.Keys
        invariant forall x :: x in timestamps ==> x in old(timestamps) && timestamps[x] == old(timestamps)[x]
        invariant forall x ::
          x in old(timestamps) && (x in todo || Recent(old(timestamps)[x], now) != []) ==> x in timestamps
        invariant forall x :: x in timestamps && x !in todo ==> Recent(timestamps[x], now) != []
        decreases todo
      {
        var sender :| sender in todo;
        todo := todo - {sender};
        if Recent(timestamps[sender], now) == [] {
          timestamps := timestamps - {sender};
        }
      }
      forall x | x in old(timestamps)
        ensures x in timestamps <==> exists i :: 0 <= i < |old(timestamps)[x]| && now - old(timestamps)[x][i] < 10_000
      {
        RecentCounts(old(timestamps)[x], now);
      }
    }
  }
}
