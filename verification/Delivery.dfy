/** Ordered delivery of one group's Commit and Application envelopes: the deferred
    queue with its two caps, eviction between senders, and what one poll does with a
    page.  Sections 12.4 and 14 of RFC 9420 need Commits and Application messages
    handled in sequence. */
module Delivery {
  import opened Helpers

  const MAX_DEFERRED_ENVELOPES: nat := 500
  const MAX_DEFERRED_COMMITS: nat := 16
  const MAX_DEFERRED_COMMITS_PER_SENDER: nat := 4

  datatype Kind = Application | Welcome | Commit | Proposal

  /** `ts` and `id` are the server's (created_at, id) cursor; `epoch` is the group epoch
      the sender was in. */
  datatype Envelope = Envelope(ts: nat, id: nat, group: string, sender: string, kind: Kind, epoch: nat)

  /** The queue, and the fate of every envelope handled so far: handed to the worker,
      refused at a cap, or evicted. */
  datatype Loop = Loop(
    deferred: seq<Envelope>,
    processed: seq<Envelope>,
    refused: seq<Envelope>,
    evicted: seq<Envelope>)

  predicate Ours(e: Envelope, group: string) { e.group == group && (e.kind.Commit? || e.kind.Application?) }

  function Commits(q: seq<Envelope>): seq<Envelope> {
    if q == [] then [] else (if q[0].kind.Commit? then [q[0]] else []) + Commits(q[1..])
  }

  /** Entries that are not Commits. */
  function Others(q: seq<Envelope>): nat {
    if q == [] then 0 else (if q[0].kind.Commit? then 0 else 1) + Others(q[1..])
  }

  /** How many of `c` are from `sender`. */
  function CountOf(c: seq<Envelope>, sender: string): nat {
    if c == [] then 0 else (if c[0].sender == sender then 1 else 0) + CountOf(c[1..], sender)
  }

  function Add(s: seq<string>, x: string): seq<string> { if x in s then s else s + [x] }

  /** The senders of `c` in order of first appearance: the key order of the counting Map. */
  function Senders(c: seq<Envelope>): seq<string> {
    if c == [] then [] else Add(Senders(c[..|c| - 1]), c[|c| - 1].sender)
  }

  /** The first sender other than `me`, among `s`, holding the most entries, provided that
      is more than `me` holds. */
  function Largest(c: seq<Envelope>, s: seq<string>, me: string): Option<string> {
    if s == [] then None
    else
      var best := Largest(c, s[..|s| - 1], me);
      var x := s[|s| - 1];
      var bar := if best.Some? then CountOf(c, best.value) else CountOf(c, me);
      if x != me && bar < CountOf(c, x) then Some(x) else best
  }

  /** Position of the first Commit of `sender`, or the length. */
  function FirstCommit(q: seq<Envelope>, sender: string): (i: nat)
    ensures i <= |q|
    ensures i < |q| ==> q[i].kind.Commit? && q[i].sender == sender
    ensures forall k :: 0 <= k < i ==> !(q[k].kind.Commit? && q[k].sender == sender)
  {
    if q == [] || (q[0].kind.Commit? && q[0].sender == sender) then 0 else 1 + FirstCommit(q[1..], sender)
  }

  /** Deferring a Commit, with eviction once the Commit pool is full. */
  function DeferCommit(l: Loop, e: Envelope): Loop {
    var commits := Commits(l.deferred);
    if |commits| < MAX_DEFERRED_COMMITS then l.(deferred := l.deferred + [e])
    else if MAX_DEFERRED_COMMITS_PER_SENDER <= CountOf(commits, e.sender) then l.(refused := l.refused + [e])
    else
      match Largest(commits, Senders(commits), e.sender)
      case None => l.(refused := l.refused + [e])
      case Some(victim) =>
        var i := FirstCommit(l.deferred, victim);
        if i == |l.deferred| then l.(refused := l.refused + [e])
        else l.(deferred := Remove(l.deferred, i) + [e], evicted := l.evicted + [l.deferred[i]])
  }

  function Defer(l: Loop, e: Envelope): Loop {
    if e.kind.Commit? then DeferCommit(l, e)
    else if Others(l.deferred) < MAX_DEFERRED_ENVELOPES then l.(deferred := l.deferred + [e])
    else l.(refused := l.refused + [e])
  }

  /** `processEnvelope` up to its hand-over to the worker; `ok` is the rate limiter's
      verdict, which is only asked for when nothing is deferred. */
  function Handle(l: Loop, group: string, e: Envelope, ok: bool): Loop {
    if !Ours(e, group) then l
    else if l.deferred != [] || !ok then Defer(l, e)
    else l.(processed := l.processed + [e])
  }

  function HandleAll(l: Loop, group: string, es: seq<Envelope>, oks: seq<bool>): Loop
    requires |es| == |oks|
    decreases |es|
  {
    if es == [] then l else HandleAll(Handle(l, group, es[0], oks[0]), group, es[1..], oks[1..])
  }

  /** The id-dedupe of a poll. */
  function Dedupe(es: seq<Envelope>): seq<Envelope> {
    if es == [] then []
    else
      var init := Dedupe(es[..|es| - 1]);
      if exists e :: e in init && e.id == es[|es| - 1].id then init else init + [es[|es| - 1]]
  }

  function Drain(l: Loop): Loop { l.(deferred := []) }

  /** What one uninterrupted poll does with a page. */
  function Tick(l: Loop, group: string, page: seq<Envelope>, oks: seq<bool>): Loop
    requires |oks| == |Dedupe(l.deferred + page)|
  {
    HandleAll(Drain(l), group, Dedupe(l.deferred + page), oks)
  }

  // ---------------------------------------------------------------------------
  // Caps
  // ---------------------------------------------------------------------------

  /** The queue is in-group and within both caps. */
  ghost predicate Fits(q: seq<Envelope>, group: string) {
    && |Commits(q)| <= MAX_DEFERRED_COMMITS
    && Others(q) <= MAX_DEFERRED_ENVELOPES
    && (forall k :: 0 <= k < |q| ==> Ours(q[k], group))
  }

  ghost predicate Capped(l: Loop, group: string) { Fits(l.deferred, group) }

  lemma {:induction false} OthersConcat(a: seq<Envelope>, b: seq<Envelope>)
    ensures Others(a + b) == Others(a) + Others(b)
  {
    if a == [] {
      assert a + b == b;
    } else {
      OthersConcat(a[1..], b);
      assert (a + b)[1..] == a[1..] + b;
    }
  }

  lemma CommitsCons(a: seq<Envelope>, b: seq<Envelope>)
    requires a != []
    ensures Commits(a + b) == (if a[0].kind.Commit? then [a[0]] else []) + Commits(a[1..] + b)
  {
    assert (a + b)[1..] == a[1..] + b;
  }

  lemma {:induction false} CommitsConcat(a: seq<Envelope>, b: seq<Envelope>)
    ensures Commits(a + b) == Commits(a) + Commits(b)
    ensures Others(a + b) == Others(a) + Others(b)
  {
    OthersConcat(a, b);
    if a == [] {
      assert a + b == b;
    } else {
      CommitsConcat(a[1..], b);
      CommitsCons(a, b);
    }
  }

  lemma CommitsPush(q: seq<Envelope>, e: Envelope)
    ensures Commits(q + [e]) == Commits(q) + if e.kind.Commit? then [e] else []
    ensures Others(q + [e]) == Others(q) + if e.kind.Commit? then 0 else 1
  {
    CommitsConcat(q, [e]);
    assert Commits([e]) == if e.kind.Commit? then [e] else [];
  }

  lemma CommitsAround(a: seq<Envelope>, x: Envelope, b: seq<Envelope>)
    requires x.kind.Commit?
    ensures Commits(a + b) == Commits(a) + Commits(b) && Others(a + b) == Others(a) + Others(b)
    ensures Commits((a + [x]) + b) == (Commits(a) + [x]) + Commits(b) && Others((a + [x]) + b) == Others(a) + Others(b)
  {
    CommitsConcat(a, b);
    CommitsConcat(a + [x], b);
    CommitsPush(a, x);
  }

  lemma SplitAround(q: seq<Envelope>, i: nat)
    requires i < |q|
    ensures q == (q[..i] + [q[i]]) + q[i + 1..]
  {
  }

  lemma CommitsRemove(q: seq<Envelope>, i: nat)
    requires i < |q| && q[i].kind.Commit?
    ensures Commits(Remove(q, i)) == Commits(q[..i]) + Commits(q[i + 1..])
    ensures Commits(q) == (Commits(q[..i]) + [q[i]]) + Commits(q[i + 1..])
    ensures Others(Remove(q, i)) == Others(q)
  {
    SplitAround(q, i);
    CommitsAround(q[..i], q[i], q[i + 1..]);
  }

  lemma HandleCapped(l: Loop, group: string, e: Envelope, ok: bool)
    requires Capped(l, group)
    ensures Capped(Handle(l, group, e, ok), group)
  {
    if Ours(e, group) {
      CommitsPush(l.deferred, e);
      if EvictedAt(l, e) < |l.deferred| {
        ReplaceFits(l.deferred, group, e, EvictedAt(l, e));
      }
    }
  }

  /** A Commit in place of another Commit changes neither count. */
  lemma ReplaceFits(q: seq<Envelope>, group: string, e: Envelope, i: nat)
    requires Fits(q, group) && i < |q| && q[i].kind.Commit? && Ours(e, group) && e.kind.Commit?
    ensures Fits(Remove(q, i) + [e], group)
  {
    CommitsRemove(q, i);
    CommitsPush(Remove(q, i), e);
  }

  /** Which entry deferring `e` evicts, or the length if none. */
  function EvictedAt(l: Loop, e: Envelope): (i: nat)
    ensures i <= |l.deferred|
    ensures i < |l.deferred| ==> l.deferred[i].kind.Commit?
  {
    var commits := Commits(l.deferred);
    var victim := Largest(commits, Senders(commits), e.sender);
    if !e.kind.Commit? || |commits| < MAX_DEFERRED_COMMITS
       || MAX_DEFERRED_COMMITS_PER_SENDER <= CountOf(commits, e.sender) || victim.None?
    then |l.deferred|
    else FirstCommit(l.deferred, victim.value)
  }

  // ---------------------------------------------------------------------------
  // Eviction between senders
  // ---------------------------------------------------------------------------

  lemma {:induction false} CountConcat(a: seq<Envelope>, b: seq<Envelope>, sender: string)
    ensures CountOf(a + b, sender) == CountOf(a, sender) + CountOf(b, sender)
  {
    if a == [] {
      assert a + b == b;
    } else {
      CountConcat(a[1..], b, sender);
      assert (a + b)[1..] == a[1..] + b;
    }
  }

  lemma {:induction false} CountPositive(c: seq<Envelope>, i: nat)
    requires i < |c|
    ensures 0 < CountOf(c, c[i].sender)
  {
    if 0 < i {
      CountPositive(c[1..], i - 1);
    }
  }

  lemma {:induction false} SendersComplete(c: seq<Envelope>, i: nat)
    requires i < |c|
    ensures c[i].sender in Senders(c)
  {
    if i < |c| - 1 {
      SendersComplete(c[..|c| - 1], i);
    }
  }

  /** Sender `k` of `s` holds more than `me` and than any other before it. */
  predicate FirstLargest(c: seq<Envelope>, s: seq<string>, me: string, k: nat) {
    && k < |s| && s[k] != me && CountOf(c, me) < CountOf(c, s[k])
    && (forall i :: 0 <= i < k && s[i] != me ==> CountOf(c, s[i]) < CountOf(c, s[k]))
  }

  lemma {:induction false} LargestIsLargest(c: seq<Envelope>, s: seq<string>, me: string)
    ensures var v := Largest(c, s, me);
      && (v.Some? ==> exists k: nat :: FirstLargest(c, s, me, k) && s[k] == v.value)
      && (forall x :: x in s && x != me ==> CountOf(c, x) <= CountOf(c, if v.Some? then v.value else me))
  {
    if s != [] {
      var n := |s| - 1;
      LargestIsLargest(c, s[..n], me);
      assert s == s[..n] + [s[n]];
      var best, v := Largest(c, s[..n], me), Largest(c, s, me);
      if v != best {
        assert FirstLargest(c, s, me, n);
      } else if v.Some? {
        var k: nat :| FirstLargest(c, s[..n], me, k) && s[..n][k] == v.value;
        assert FirstLargest(c, s, me, k);
      }
    }
  }

  lemma {:induction false} SendersPrefix(a: seq<Envelope>, b: seq<Envelope>)
    ensures Senders(a) <= Senders(a + b)
  {
    if b == [] {
      assert a + b == a;
    } else {
      var n := |b| - 1;
      SendersPrefix(a, b[..n]);
      assert (a + b)[..|a + b| - 1] == a + b[..n];
    }
  }

  lemma {:induction false} SendersAreEntries(c: seq<Envelope>, x: string)
    requires x in Senders(c)
    ensures exists k :: 0 <= k < |c| && c[k].sender == x
  {
    if c != [] {
      var n := |c| - 1;
      if x == c[n].sender {
      } else {
        SendersAreEntries(c[..n], x);
        var k :| 0 <= k < n && c[..n][k].sender == x;
        assert c[k].sender == x;
      }
    }
  }

  lemma {:induction false} CommitIsListed(q: seq<Envelope>, k: nat)
    requires k < |q| && q[k].kind.Commit?
    ensures q[k].sender in Senders(Commits(q))
  {
    var head := q[..k + 1];
    assert head == q[..k] + [q[k]] && q == head + q[k + 1..];
    CommitsPush(q[..k], q[k]);
    CommitsConcat(head, q[k + 1..]);
    SendersComplete(Commits(head), |Commits(q[..k])|);
    SendersPrefix(Commits(head), Commits(q[k + 1..]));
  }

  /** `x` is at position `m`, and `y` not up to there. */
  predicate Precedes(s: seq<string>, m: nat, x: string, y: string) { m < |s| && s[m] == x && y !in s[..m + 1] }

  lemma PrefixPrecedes(early: seq<string>, all: seq<string>, x: string, y: string)
    requires early <= all && x in early && y !in early
    ensures exists m: nat :: Precedes(all, m, x, y)
  {
    var m :| 0 <= m < |early| && early[m] == x;
    assert all[..m + 1] == early[..m + 1];
    assert Precedes(all, m, x, y);
  }

  lemma NotListedYet(q: seq<Envelope>, x: string)
    requires forall n :: 0 <= n < |q| ==> !(q[n].kind.Commit? && q[n].sender == x)
    ensures x !in Senders(Commits(q))
  {
    if x in Senders(Commits(q)) {
      SendersAreEntries(Commits(q), x);
      var c :| 0 <= c < |Commits(q)| && Commits(q)[c].sender == x;
      CommitsAreEntries(q, c);
    }
  }

  /** A sender with a Commit before the first one of another precedes it in the count. */
  lemma EarlierSender(q: seq<Envelope>, i: nat, k: nat)
    requires k < i < |q| && q[k].kind.Commit?
    requires forall n :: 0 <= n < i ==> !(q[n].kind.Commit? && q[n].sender == q[i].sender)
    ensures exists m: nat :: Precedes(Senders(Commits(q)), m, q[k].sender, q[i].sender)
  {
    var head := q[..i];
    assert q == head + q[i..] && head[k] == q[k];
    CommitsConcat(head, q[i..]);
    SendersPrefix(Commits(head), Commits(q[i..]));
    CommitIsListed(head, k);
    NotListedYet(head, q[i].sender);
    PrefixPrecedes(Senders(Commits(head)), Senders(Commits(q)), q[k].sender, q[i].sender);
  }

  lemma {:induction false} CountZero(c: seq<Envelope>, sender: string)
    requires forall k :: 0 <= k < |c| ==> c[k].sender != sender
    ensures CountOf(c, sender) == 0
  {
    if c != [] {
      CountZero(c[1..], sender);
    }
  }

  lemma {:induction false} CommitsAreEntries(q: seq<Envelope>, i: nat)
    requires i < |Commits(q)|
    ensures Commits(q)[i] in q && Commits(q)[i].kind.Commit?
  {
    if q[0].kind.Commit? {
      if 0 < i {
        CommitsAreEntries(q[1..], i - 1);
      }
    } else {
      CommitsAreEntries(q[1..], i);
    }
  }

  /** A sender holding some Commit has a first Commit in the queue. */
  lemma HolderHasCommit(q: seq<Envelope>, sender: string)
    requires 0 < CountOf(Commits(q), sender)
    ensures FirstCommit(q, sender) < |q|
  {
    var c := Commits(q);
    if forall k :: 0 <= k < |c| ==> c[k].sender != sender {
      CountZero(c, sender);
    } else {
      var k :| 0 <= k < |c| && c[k].sender == sender;
      CommitsAreEntries(q, k);
    }
  }

  predicate PoolFull(l: Loop) { 16 <= |Commits(l.deferred)| }

  /** The arrival has used up its sender's share, or no sender holds more than its own. */
  ghost predicate NoClaim(c: seq<Envelope>, e: Envelope) {
    || 4 <= CountOf(c, e.sender)
    || (forall k :: 0 <= k < |c| ==> CountOf(c, c[k].sender) <= CountOf(c, e.sender))
  }

  /** Entry `i` is a Commit of a largest holder other than the arrival's sender, one that holds
      strictly more, and the oldest such Commit: every older one is of the arrival's sender or
      of one that holds fewer. */
  ghost predicate Victim(q: seq<Envelope>, e: Envelope, i: nat)
    requires i < |q|
  {
    var c, v := Commits(q), q[i].sender;
    && q[i].kind.Commit? && v != e.sender && CountOf(c, e.sender) < CountOf(c, v)
    && (forall k :: 0 <= k < |c| && c[k].sender != e.sender ==> CountOf(c, c[k].sender) <= CountOf(c, v))
    && (forall k :: 0 <= k < i && q[k].kind.Commit? && q[k].sender != e.sender ==>
          CountOf(c, q[k].sender) < CountOf(c, v))
  }

  lemma OldestOfLargest(q: seq<Envelope>, me: string, v: string, i: nat)
    requires Largest(Commits(q), Senders(Commits(q)), me) == Some(v) && i == FirstCommit(q, v) < |q|
    ensures forall k :: 0 <= k < i && q[k].kind.Commit? && q[k].sender != me ==>
      CountOf(Commits(q), q[k].sender) < CountOf(Commits(q), v)
  {
    var c, s := Commits(q), Senders(Commits(q));
    LargestIsLargest(c, s, me);
    var f: nat :| FirstLargest(c, s, me, f) && s[f] == v;
    forall k: nat | k < i && q[k].kind.Commit? && q[k].sender != me ensures CountOf(c, q[k].sender) < CountOf(c, v) {
      EarlierSender(q, i, k);
      var m: nat :| Precedes(s, m, q[k].sender, v);
    }
  }

  /** Deferring a Commit, every case.  With room it is appended.  With the pool full it is
      refused if and only if its sender's share is used up or no sender holds more than its
      own; otherwise it replaces exactly the victim, and the rest keep their order. */
  lemma EvictionChoice(l: Loop, e: Envelope)
    requires e.kind.Commit?
    ensures var i := EvictedAt(l, e); var t := DeferCommit(l, e);
      if !PoolFull(l) then t == l.(deferred := l.deferred + [e])
      else if NoClaim(Commits(l.deferred), e) then i == |l.deferred| && t == l.(refused := l.refused + [e])
      else
        && i < |l.deferred| && Victim(l.deferred, e, i)
        && t == l.(deferred := Remove(l.deferred, i) + [e], evicted := l.evicted + [l.deferred[i]])
  {
    var c := Commits(l.deferred);
    LargestIsLargest(c, Senders(c), e.sender);
    forall k | 0 <= k < |c| ensures c[k].sender in Senders(c) {
      SendersComplete(c, k);
    }
    var v := Largest(c, Senders(c), e.sender);
    if v.Some? {
      HolderHasCommit(l.deferred, v.value);
      HolderIsEntry(c, v.value);
      OldestOfLargest(l.deferred, e.sender, v.value, FirstCommit(l.deferred, v.value));
    }
  }

  /** A sender with a positive count has an entry. */
  lemma HolderIsEntry(c: seq<Envelope>, sender: string)
    requires 0 < CountOf(c, sender)
    ensures exists k :: 0 <= k < |c| && c[k].sender == sender
  {
    if forall k :: 0 <= k < |c| ==> c[k].sender != sender {
      CountZero(c, sender);
    }
  }

  /** An envelope of the group is refused if and only if it cannot be handed over at once and,
      if it is an Application, 500 others are deferred already, or, if it is a Commit, 16 are
      deferred and its sender has no claim to a place among them. */
  lemma RefusedExactlyWhen(l: Loop, group: string, e: Envelope, ok: bool)
    requires e.group == group && (e.kind.Application? || e.kind.Commit?)
    ensures var t := Handle(l, group, e, ok);
      && (t.refused == l.refused || t.refused == l.refused + [e])
      && (t.refused != l.refused <==>
            && (l.deferred != [] || !ok)
            && if e.kind.Application? then 500 <= Others(l.deferred)
               else PoolFull(l) && NoClaim(Commits(l.deferred), e))
  {
    assert l.refused + [e] != l.refused;
    if e.kind.Commit? {
      EvictionChoice(l, e);
    }
  }

  /** A sender with nothing in the full Commit pool is always admitted. */
  lemma NewcomerAdmitted(l: Loop, e: Envelope)
    requires e.kind.Commit? && CountOf(Commits(l.deferred), e.sender) == 0
    ensures var t := DeferCommit(l, e); t.refused == l.refused && t.deferred != [] && t.deferred[|t.deferred| - 1] == e
  {
    var c := Commits(l.deferred);
    if MAX_DEFERRED_COMMITS <= |c| {
      EvictionChoice(l, e);
      CountPositive(c, 0);
    }
  }

  /** Pairs of an entry of `a` and one of `c` with the same sender. */
  function Pairs(a: seq<Envelope>, c: seq<Envelope>): nat {
    if a == [] then 0 else CountOf(c, a[0].sender) + Pairs(a[1..], c)
  }

  function SumOfSquares(c: seq<Envelope>): nat { Pairs(c, c) }

  lemma {:induction false} PairsLeft(a: seq<Envelope>, b: seq<Envelope>, c: seq<Envelope>)
    ensures Pairs(a + b, c) == Pairs(a, c) + Pairs(b, c)
  {
    if a == [] {
      assert a + b == b;
    } else {
      PairsLeft(a[1..], b, c);
      assert (a + b)[1..] == a[1..] + b;
    }
  }

  /** Over the senders in `s`, how many pairs of an entry of `a` and one of `c` share them. */
  function Products(a: seq<Envelope>, c: seq<Envelope>, s: seq<string>): nat {
    if s == [] then 0
    else Products(a, c, s[..|s| - 1]) + CountOf(a, s[|s| - 1]) * CountOf(c, s[|s| - 1])
  }

  predicate Distinct(s: seq<string>) { forall i, k :: 0 <= i < k < |s| ==> s[i] != s[k] }

  lemma {:induction false} SendersDistinct(c: seq<Envelope>)
    ensures Distinct(Senders(c))
  {
    if c != [] {
      SendersDistinct(c[..|c| - 1]);
    }
  }

  lemma {:induction false} SendersOnly(c: seq<Envelope>, x: string)
    requires 0 < CountOf(c, x)
    ensures x in Senders(c)
  {
    if c != [] {
      var n := |c| - 1;
      assert c == c[..n] + [c[n]];
      CountConcat(c[..n], [c[n]], x);
      if x != c[n].sender {
        SendersOnly(c[..n], x);
      }
    }
  }

  lemma {:induction false} ProductsPush(a: seq<Envelope>, e: Envelope, c: seq<Envelope>, s: seq<string>)
    requires Distinct(s)
    ensures Products(a + [e], c, s) == Products(a, c, s) + if e.sender in s then CountOf(c, e.sender) else 0
  {
    if s != [] {
      var n := |s| - 1;
      ProductsPush(a, e, c, s[..n]);
      CountConcat(a, [e], s[n]);
      var k, m := CountOf(a, s[n]), CountOf(c, s[n]);
      assert (k + 1) * m == k * m + m;
      assert s == s[..n] + [s[n]];
    }
  }

  /** Pairs of entries with one sender, summed sender by sender. */
  lemma {:induction false} PairsBySender(a: seq<Envelope>, c: seq<Envelope>)
    ensures Pairs(a, c) == Products(a, c, Senders(a))
  {
    if a != [] {
      var n := |a| - 1;
      var b, e := a[..n], a[n];
      assert a == b + [e];
      PairsBySender(b, c);
      PairsLeft(b, [e], c);
      assert Pairs([e], c) == CountOf(c, e.sender) by {
        assert [e][1..] == [];
      }
      SendersDistinct(b);
      ProductsPush(b, e, c, Senders(b));
      if e.sender !in Senders(b) {
        NewSender(b, e, c);
      }
    }
  }

  lemma ProductsAdd(a: seq<Envelope>, c: seq<Envelope>, s: seq<string>, x: string)
    ensures Products(a, c, s + [x]) == Products(a, c, s) + CountOf(a, x) * CountOf(c, x)
  {
    assert (s + [x])[..|s|] == s;
  }

  lemma FirstOfSender(b: seq<Envelope>, e: Envelope)
    requires e.sender !in Senders(b)
    ensures CountOf(b + [e], e.sender) == 1
  {
    CountConcat(b, [e], e.sender);
    if 0 < CountOf(b, e.sender) {
      SendersOnly(b, e.sender);
    }
  }

  lemma NewSender(b: seq<Envelope>, e: Envelope, c: seq<Envelope>)
    requires e.sender !in Senders(b)
    ensures Products(b + [e], c, Senders(b) + [e.sender]) == Products(b + [e], c, Senders(b)) + CountOf(c, e.sender)
  {
    ProductsAdd(b + [e], c, Senders(b), e.sender);
    FirstOfSender(b, e);
  }

  /** The sum over the senders of the square of how many entries each holds. */
  lemma SquaresBySender(c: seq<Envelope>)
    ensures SumOfSquares(c) == Products(c, c, Senders(c))
  {
    PairsBySender(c, c);
  }

  lemma {:induction false} PairsInsert(a: seq<Envelope>, c: seq<Envelope>, x: Envelope, d: seq<Envelope>)
    ensures Pairs(a, (c + [x]) + d) == Pairs(a, c + d) + CountOf(a, x.sender)
  {
    if a != [] {
      PairsInsert(a[1..], c, x, d);
      CountInsert(c, x, d, a[0].sender);
    }
  }

  lemma CountInsert(c: seq<Envelope>, x: Envelope, d: seq<Envelope>, sender: string)
    ensures CountOf((c + [x]) + d, sender) == CountOf(c + d, sender) + if x.sender == sender then 1 else 0
  {
    CountConcat(c + [x], d, sender);
    CountConcat(c, [x], sender);
    CountConcat(c, d, sender);
  }

  /** Inserting an entry adds twice what its sender held, plus one. */
  lemma SquaresInsert(c: seq<Envelope>, x: Envelope, d: seq<Envelope>)
    ensures SumOfSquares((c + [x]) + d) == SumOfSquares(c + d) + 2 * CountOf(c + d, x.sender) + 1
  {
    var all := (c + [x]) + d;
    PairsLeft(c + [x], d, all);
    PairsLeft(c, [x], all);
    PairsLeft(c, d, all);
    assert Pairs([x], all) == CountOf(all, x.sender);
    CountInsert(c, x, d, x.sender);
    PairsInsert(c + d, c, x, d);
  }

  /** No eviction makes the pool less evenly shared. */
  lemma EvictionEvens(l: Loop, e: Envelope)
    requires e.kind.Commit? && PoolFull(l)
    ensures var c, d := Commits(l.deferred), Commits(DeferCommit(l, e).deferred);
      Products(d, d, Senders(d)) <= Products(c, c, Senders(c))
  {
    SquaresBySender(Commits(l.deferred));
    SquaresBySender(Commits(DeferCommit(l, e).deferred));
    FewerPairs(l, e);
  }

  lemma FewerPairs(l: Loop, e: Envelope)
    requires e.kind.Commit? && PoolFull(l)
    ensures SumOfSquares(Commits(DeferCommit(l, e).deferred)) <= SumOfSquares(Commits(l.deferred))
  {
    var c, i := Commits(l.deferred), EvictedAt(l, e);
    if CountOf(c, e.sender) < MAX_DEFERRED_COMMITS_PER_SENDER {
      EvictionChoice(l, e);
      if i < |l.deferred| {
        var x := l.deferred[i];
        CommitsRemove(l.deferred, i);
        CommitsPush(Remove(l.deferred, i), e);
        var a, b := Commits(l.deferred[..i]), Commits(l.deferred[i + 1..]);
        SquaresInsert(a, x, b);
        CountInsert(a, x, b, x.sender);
        CountInsert(a, x, b, e.sender);
        assert (a + b) + [e] == ((a + b) + [e]) + [];
        assert (a + b) + [] == a + b;
        SquaresInsert(a + b, e, []);
      }
    }
  }

  // ---------------------------------------------------------------------------
  // Order
  // ---------------------------------------------------------------------------

  /** The server's delivery order. */
  predicate Before(x: Envelope, y: Envelope) { x.ts < y.ts || (x.ts == y.ts && x.id < y.id) }

  ghost predicate Ascending(s: seq<Envelope>) {
    forall i, k :: 0 <= i < k < |s| ==> Before(s[i], s[k])
  }

  /** What was handed over, then what is deferred, then what is still to be handled. */
  function Line(l: Loop, rest: seq<Envelope>): seq<Envelope> { l.processed + l.deferred + rest }

  lemma RemoveAscending(s: seq<Envelope>, i: nat)
    requires Ascending(s) && i < |s|
    ensures Ascending(Remove(s, i))
  {
  }

  /** What handling an envelope does with it. */
  datatype Fate = Ignored | HandedOver | Queued | Refused | Replaced(at: nat)

  function FateOf(l: Loop, group: string, e: Envelope, ok: bool): Fate {
    if !Ours(e, group) then Ignored
    else if l.deferred == [] && ok then HandedOver
    else if EvictedAt(l, e) < |l.deferred| then Replaced(EvictedAt(l, e))
    else if |Defer(l, e).deferred| == |l.deferred| + 1 then Queued
    else Refused
  }

  predicate Possible(l: Loop, group: string, e: Envelope, f: Fate) {
    && (f.Ignored? <==> !Ours(e, group))
    && (f.HandedOver? ==> l.deferred == [])
    && (f.Replaced? ==> f.at < |l.deferred| && l.deferred[f.at].kind.Commit?)
  }

  function Take(l: Loop, group: string, e: Envelope, f: Fate): Loop
    requires Possible(l, group, e, f)
  {
    match f
    case Ignored => l
    case HandedOver => l.(processed := l.processed + [e])
    case Queued => l.(deferred := l.deferred + [e])
    case Refused => l.(refused := l.refused + [e])
    case Replaced(i) => l.(deferred := Remove(l.deferred, i) + [e], evicted := l.evicted + [l.deferred[i]])
  }

  lemma HandleTakes(l: Loop, group: string, e: Envelope, ok: bool)
    ensures var f := FateOf(l, group, e, ok);
      Possible(l, group, e, f) && Handle(l, group, e, ok) == Take(l, group, e, f)
  {
  }

  lemma TakeKeepsOrder(l: Loop, group: string, e: Envelope, rest: seq<Envelope>, f: Fate)
    requires Possible(l, group, e, f) && Ascending(Line(l, [e] + rest))
    ensures Ascending(Line(Take(l, group, e, f), rest))
  {
    var t, s := Take(l, group, e, f), Line(l, [e] + rest);
    var k := |l.processed| + |l.deferred|;
    match f
    case Replaced(i) =>
      RemoveAscending(s, |l.processed| + i);
      assert Line(t, rest) == Remove(s, |l.processed| + i);
    case HandedOver => assert Line(t, rest) == s;
    case Queued => assert Line(t, rest) == s;
    case _ =>
      RemoveAscending(s, k);
      assert Line(t, rest) == Remove(s, k);
  }

  /** Handling the next envelope keeps the line ascending, and an envelope is handed over
      only while nothing is deferred. */
  lemma HandleKeepsOrder(l: Loop, group: string, e: Envelope, rest: seq<Envelope>, ok: bool)
    requires Ascending(Line(l, [e] + rest))
    ensures Ascending(Line(Handle(l, group, e, ok), rest))
    ensures Handle(l, group, e, ok).processed != l.processed ==> l.deferred == []
  {
    HandleTakes(l, group, e, ok);
    TakeKeepsOrder(l, group, e, rest, FateOf(l, group, e, ok));
  }

  predicate Subsequence(a: seq<Envelope>, b: seq<Envelope>)
    decreases |b|
  {
    a == [] || (b != [] && if a[0] == b[0] then Subsequence(a[1..], b[1..]) else Subsequence(a, b[1..]))
  }

  lemma {:induction false} AscendingSubset(a: seq<Envelope>, b: seq<Envelope>)
    requires Ascending(a) && Ascending(b) && forall i :: 0 <= i < |a| ==> a[i] in b
    ensures Subsequence(a, b)
    decreases |b|
  {
    if a != [] {
      assert a[0] in b;
      if a[0] == b[0] {
        forall i | 1 <= i < |a| ensures a[i] in b[1..] {
          assert Before(a[0], a[i]);
          var k :| 0 <= k < |b| && b[k] == a[i];
          assert b[1..][k - 1] == a[i];
        }
        AscendingSubset(a[1..], b[1..]);
      } else {
        var k :| 0 <= k < |b| && b[k] == a[0];
        forall i | 0 <= i < |a| ensures a[i] in b[1..] {
          var n :| 0 <= n < |b| && b[n] == a[i];
          assert Before(b[0], a[0]);
          assert n != 0;
          assert b[1..][n - 1] == a[i];
        }
        AscendingSubset(a, b[1..]);
      }
    }
  }

  // ---------------------------------------------------------------------------
  // Nothing disappears
  // ---------------------------------------------------------------------------

  function OursOf(s: seq<Envelope>, group: string): seq<Envelope> {
    if s == [] then [] else OursOf(s[..|s| - 1], group) + if Ours(s[|s| - 1], group) then [s[|s| - 1]] else []
  }

  lemma OursPush(a: seq<Envelope>, e: Envelope, group: string)
    ensures OursOf(a + [e], group) == OursOf(a, group) + if Ours(e, group) then [e] else []
  {
    assert (a + [e])[..|a|] == a;
  }

  lemma {:induction false} OursConcat(a: seq<Envelope>, b: seq<Envelope>, group: string)
    ensures OursOf(a + b, group) == OursOf(a, group) + OursOf(b, group)
  {
    if b == [] {
      assert a + b == a;
    } else {
      var c, e := b[..|b| - 1], b[|b| - 1];
      assert b == c + [e] && a + b == (a + c) + [e];
      OursConcat(a, c, group);
      OursPush(a + c, e, group);
    }
  }

  lemma {:induction false} OursAll(s: seq<Envelope>, group: string)
    requires forall k :: 0 <= k < |s| ==> Ours(s[k], group)
    ensures OursOf(s, group) == s
  {
    if s != [] {
      OursAll(s[..|s| - 1], group);
    }
  }

  lemma OursHead(e: Envelope, rest: seq<Envelope>, group: string)
    ensures OursOf([e] + rest, group) == (if Ours(e, group) then [e] else []) + OursOf(rest, group)
  {
    OursConcat([e], rest, group);
    assert [e][..0] == [];
  }

  /** Every in-group envelope of a line, by fate. */
  function Fates(l: Loop, rest: seq<Envelope>, group: string): multiset<Envelope> {
    multiset(l.processed) + multiset(l.deferred) + multiset(l.refused) + multiset(l.evicted)
    + multiset(OursOf(rest, group))
  }

  lemma RemoveMultiset(q: seq<Envelope>, i: nat)
    requires i < |q|
    ensures multiset(q) == multiset(Remove(q, i)) + multiset{q[i]}
  {
    assert q == q[..i] + [q[i]] + q[i + 1..];
  }

  lemma TakeConserves(l: Loop, group: string, e: Envelope, rest: seq<Envelope>, f: Fate)
    requires Possible(l, group, e, f)
    ensures Fates(Take(l, group, e, f), rest, group) == Fates(l, [e] + rest, group)
  {
    OursHead(e, rest, group);
    if f.Replaced? {
      RemoveMultiset(l.deferred, f.at);
    }
  }

  predicate Unlossy(l: Loop) { l.refused == [] && l.evicted == [] }

  lemma TakeKeepsLine(l: Loop, group: string, e: Envelope, rest: seq<Envelope>, f: Fate)
    requires Possible(l, group, e, f) && Unlossy(Take(l, group, e, f))
    ensures Unlossy(l)
    ensures Line(Take(l, group, e, f), OursOf(rest, group)) == Line(l, OursOf([e] + rest, group))
  {
    OursHead(e, rest, group);
  }

  lemma HandleConserves(l: Loop, group: string, e: Envelope, rest: seq<Envelope>, ok: bool)
    ensures var t := Handle(l, group, e, ok);
      && Fates(t, rest, group) == Fates(l, [e] + rest, group)
      && (Unlossy(t) ==> Unlossy(l) && Line(t, OursOf(rest, group)) == Line(l, OursOf([e] + rest, group)))
  {
    var f := FateOf(l, group, e, ok);
    HandleTakes(l, group, e, ok);
    TakeConserves(l, group, e, rest, f);
    if Unlossy(Take(l, group, e, f)) {
      TakeKeepsLine(l, group, e, rest, f);
    }
  }

  // ---------------------------------------------------------------------------
  // Retrying the queue
  // ---------------------------------------------------------------------------

  /** Behind a non-empty queue, entries that fit under the caps are just queued again. */
  lemma {:induction false} Requeue(l: Loop, group: string, es: seq<Envelope>, oks: seq<bool>)
    requires |es| == |oks| && l.deferred != []
    requires Capped(l.(deferred := l.deferred + es), group)
    ensures HandleAll(l, group, es, oks) == l.(deferred := l.deferred + es)
    decreases |es|
  {
    if es == [] {
      assert l.deferred + es == l.deferred;
    } else {
      var e := es[0];
      assert (l.deferred + es)[|l.deferred|] == e;
      assert l.deferred + es == (l.deferred + [e]) + es[1..];
      CommitsConcat(l.deferred, es);
      assert Handle(l, group, e, oks[0]) == l.(deferred := l.deferred + [e]);
      Requeue(l.(deferred := l.deferred + [e]), group, es[1..], oks[1..]);
    }
  }

  /** `t` is `l` after the first `n` of `es` were handed over and the rest queued. */
  predicate SplitAt(l: Loop, es: seq<Envelope>, t: Loop, n: int) {
    0 <= n <= |es| && t == l.(processed := l.processed + es[..n], deferred := es[n..])
  }

  /** Retrying a queue hands over a prefix of it and leaves the rest, in order; nothing is
      refused or evicted. */
  lemma {:induction false} RetryLeavesSuffix(l: Loop, group: string, es: seq<Envelope>, oks: seq<bool>)
    requires |es| == |oks| && l.deferred == [] && Capped(l.(deferred := es), group)
    ensures exists n :: SplitAt(l, es, HandleAll(l, group, es, oks), n)
    decreases |es|
  {
    var t := HandleAll(l, group, es, oks);
    if es == [] {
      assert SplitAt(l, es, t, 0);
    } else if oks[0] {
      var m := l.(processed := l.processed + [es[0]]);
      RetryLeavesSuffix(m, group, es[1..], oks[1..]);
      var n :| SplitAt(m, es[1..], HandleAll(m, group, es[1..], oks[1..]), n);
      assert m.processed + es[1..][..n] == l.processed + es[..n + 1];
      assert es[1..][n..] == es[n + 1..];
      assert SplitAt(l, es, t, n + 1);
    } else {
      var m := l.(deferred := [es[0]]);
      assert [es[0]] + es[1..] == es;
      CommitsConcat([es[0]], es[1..]);
      assert Handle(l, group, es[0], oks[0]) == m;
      Requeue(m, group, es[1..], oks[1..]);
      assert SplitAt(l, es, t, 0);
    }
  }

  ghost predicate DistinctIds(s: seq<Envelope>) {
    forall i, k :: 0 <= i < k < |s| ==> s[i].id != s[k].id
  }

  lemma {:induction false} DedupeDistinct(s: seq<Envelope>)
    requires DistinctIds(s)
    ensures Dedupe(s) == s
  {
    if s != [] {
      DedupeDistinct(s[..|s| - 1]);
    }
  }

  /** Entry `i` is the first with its id. */
  predicate FirstOfId(es: seq<Envelope>, i: nat) {
    i < |es| && forall k :: 0 <= k < i ==> es[k].id != es[i].id
  }

  /** `r` has exactly the first envelope of each id. */
  ghost predicate Firsts(es: seq<Envelope>, r: seq<Envelope>) {
    && DistinctIds(r)
    && (forall i: nat :: FirstOfId(es, i) ==> es[i] in r)
    && (forall x :: x in r ==> exists i: nat :: FirstOfId(es, i) && es[i] == x)
  }

  /** What is left after the dedupe: exactly the first envelope of each id, in their order. */
  lemma {:induction false} DedupeKeepsFirst(es: seq<Envelope>)
    ensures Firsts(es, Dedupe(es)) && Subsequence(Dedupe(es), es)
  {
    if es != [] {
      var n := |es| - 1;
      DedupeKeepsFirst(es[..n]);
      SubsequenceGrows(Dedupe(es[..n]), es[..n], es[n]);
      assert es == es[..n] + [es[n]];
      DedupeLast(es[..n], es[n], Dedupe(es[..n]));
    }
  }

  lemma {:induction false} SubsequenceGrows(a: seq<Envelope>, b: seq<Envelope>, x: Envelope)
    requires Subsequence(a, b)
    ensures Subsequence(a, b + [x]) && Subsequence(a + [x], b + [x])
    decreases |b|
  {
    if b == [] {
      assert a == [] && a + [x] == [x] && b + [x] == [x] && [x][1..] == [];
    } else {
      assert (b + [x])[1..] == b[1..] + [x];
      if a == [] {
        SubsequenceGrows(a, b[1..], x);
        assert a + [x] == [x];
        if x == b[0] {
          assert [x][1..] == [];
        }
      } else {
        assert (a + [x])[1..] == a[1..] + [x];
        SubsequenceGrows(if a[0] == b[0] then a[1..] else a, b[1..], x);
      }
    }
  }

  lemma FirstsStay(init: seq<Envelope>, last: Envelope, i: nat)
    requires i < |init|
    ensures FirstOfId(init + [last], i) <==> FirstOfId(init, i)
  {
    assert forall k :: 0 <= k <= i ==> (init + [last])[k] == init[k];
  }

  /** An id that is kept is not new. */
  lemma KeptIdIsOld(init: seq<Envelope>, last: Envelope, r: seq<Envelope>)
    requires Firsts(init, r)
    ensures FirstOfId(init + [last], |init|) <==> forall x :: x in r ==> x.id != last.id
  {
    var es, n := init + [last], |init|;
    if x :| x in r && x.id == last.id {
      var i: nat :| FirstOfId(init, i) && init[i] == x;
      assert es[i].id == es[n].id;
    } else {
      forall k: nat | k < n ensures es[k].id != es[n].id {
        FirstExists(init, k);
        var i: nat :| FirstOfId(init, i) && init[i].id == init[k].id;
        assert init[i] in r;
      }
    }
  }

  lemma FirstsKept(init: seq<Envelope>, last: Envelope, r: seq<Envelope>)
    requires Firsts(init, r) && !FirstOfId(init + [last], |init|)
    ensures Firsts(init + [last], r)
  {
    var es := init + [last];
    forall i: nat | FirstOfId(es, i) ensures es[i] in r {
      FirstsStay(init, last, i);
    }
    forall x | x in r ensures exists i: nat :: FirstOfId(es, i) && es[i] == x {
      var i: nat :| FirstOfId(init, i) && init[i] == x;
      FirstsStay(init, last, i);
    }
  }

  lemma FirstsAdded(init: seq<Envelope>, last: Envelope, r: seq<Envelope>)
    requires Firsts(init, r) && FirstOfId(init + [last], |init|) && forall x :: x in r ==> x.id != last.id
    ensures Firsts(init + [last], r + [last])
  {
    var es, all := init + [last], r + [last];
    forall i: nat | FirstOfId(es, i) ensures es[i] in all {
      if i < |init| {
        FirstsStay(init, last, i);
      }
    }
    forall x | x in all ensures exists i: nat :: FirstOfId(es, i) && es[i] == x {
      if x in r {
        var i: nat :| FirstOfId(init, i) && init[i] == x;
        FirstsStay(init, last, i);
      } else {
        assert es[|init|] == x;
      }
    }
  }

  lemma DedupeLast(init: seq<Envelope>, last: Envelope, r: seq<Envelope>)
    requires Firsts(init, r)
    ensures Firsts(init + [last], if exists e :: e in r && e.id == last.id then r else r + [last])
  {
    KeptIdIsOld(init, last, r);
    if exists e :: e in r && e.id == last.id {
      FirstsKept(init, last, r);
    } else {
      FirstsAdded(init, last, r);
    }
  }

  lemma {:induction false} FirstExists(es: seq<Envelope>, k: nat)
    requires k < |es|
    ensures exists i: nat :: FirstOfId(es, i) && es[i].id == es[k].id
    decreases k
  {
    if !FirstOfId(es, k) {
      var j :| 0 <= j < k && es[j].id == es[k].id;
      FirstExists(es, j);
    }
  }

  lemma RetrySplits(l: Loop, group: string, oks: seq<bool>)
    requires Capped(l, group) && |oks| == |l.deferred|
    ensures exists n :: SplitAt(Drain(l), l.deferred, HandleAll(Drain(l), group, l.deferred, oks), n)
  {
    assert Drain(l).(deferred := l.deferred) == l;
    RetryLeavesSuffix(Drain(l), group, l.deferred, oks);
  }

  /** A poll that fetched nothing new leaves a suffix of the old queue. */
  lemma EmptyPageLeavesSuffix(l: Loop, group: string, oks: seq<bool>)
    requires Capped(l, group) && DistinctIds(l.deferred) && |oks| == |Dedupe(l.deferred + [])|
    ensures exists n :: SplitAt(Drain(l), l.deferred, Tick(l, group, [], oks), n)
  {
    assert l.deferred + [] == l.deferred;
    DedupeDistinct(l.deferred);
    assert Tick(l, group, [], oks) == HandleAll(Drain(l), group, l.deferred, oks);
    RetrySplits(l, group, oks);
  }

  lemma RetryKeepsAll(l: Loop, group: string, oks: seq<bool>, x: Envelope)
    requires Capped(l, group) && |oks| == |l.deferred| && x in l.deferred
    ensures var t := HandleAll(Drain(l), group, l.deferred, oks); x in t.processed || x in t.deferred
  {
    var d := l.deferred;
    RetrySplits(l, group, oks);
    var k :| SplitAt(Drain(l), d, HandleAll(Drain(l), group, d, oks), k);
    assert d == d[..k] + d[k..];
  }

  lemma {:induction false} HandleAllConcat(l: Loop, group: string, a: seq<Envelope>, b: seq<Envelope>,
      x: seq<bool>, y: seq<bool>)
    requires |a| == |x| && |b| == |y|
    ensures HandleAll(l, group, a + b, x + y) == HandleAll(HandleAll(l, group, a, x), group, b, y)
    decreases |a|
  {
    if a == [] {
      assert a + b == b && x + y == y;
    } else {
      assert (a + b)[1..] == a[1..] + b && (x + y)[1..] == x[1..] + y;
      HandleAllConcat(Handle(l, group, a[0], x[0]), group, a[1..], b, x[1..], y);
    }
  }

  lemma {:induction false} HandleAllKeeps(l: Loop, group: string, es: seq<Envelope>, oks: seq<bool>, x: Envelope)
    requires |es| == |oks| && x.kind.Application? && (x in l.processed || x in l.deferred)
    ensures var t := HandleAll(l, group, es, oks); x in t.processed || x in t.deferred
    decreases |es|
  {
    if es != [] {
      var f := FateOf(l, group, es[0], oks[0]);
      HandleTakes(l, group, es[0], oks[0]);
      if f.Replaced? && x in l.deferred {
        var k :| 0 <= k < |l.deferred| && l.deferred[k] == x;
        assert (Remove(l.deferred, f.at) + [es[0]])[if k < f.at then k else k - 1] == x;
      }
      HandleAllKeeps(Handle(l, group, es[0], oks[0]), group, es[1..], oks[1..], x);
    }
  }

  /** A deferred Application is never lost: after any poll it is still deferred or has
      been handed over, whatever page arrived. */
  lemma DeferredApplicationSurvives(l: Loop, group: string, page: seq<Envelope>, oks: seq<bool>, x: Envelope)
    requires Capped(l, group) && DistinctIds(l.deferred + page) && |oks| == |Dedupe(l.deferred + page)|
    requires x in l.deferred && x.kind.Application?
    ensures var t := Tick(l, group, page, oks); x in t.processed || x in t.deferred
  {
    DedupeDistinct(l.deferred + page);
    var d, n := l.deferred, |l.deferred|;
    assert oks == oks[..n] + oks[n..];
    HandleAllConcat(Drain(l), group, d, page, oks[..n], oks[n..]);
    RetryKeepsAll(l, group, oks[..n], x);
    HandleAllKeeps(HandleAll(Drain(l), group, d, oks[..n]), group, page, oks[n..], x);
  }

  // ---------------------------------------------------------------------------
  // Epochs
  // ---------------------------------------------------------------------------

  /** A receiver that keeps no past epoch: it fails on any envelope of another epoch, and
      a Commit moves it to the next. */
  function Receive(start: nat, log: seq<Envelope>): Option<nat> {
    if log == [] then Some(start)
    else
      match Receive(start, log[..|log| - 1])
      case None => None
      case Some(epoch) =>
        var e := log[|log| - 1];
        if e.epoch != epoch then None else Some(if e.kind.Commit? then epoch + 1 else epoch)
  }

  /** Each envelope was sent in the epoch reached by the valid Commits before it. */
  ghost predicate WellSent(start: nat, stream: seq<Envelope>) {
    forall i :: 0 <= i < |stream| ==> stream[i].epoch == start + |Commits(stream[..i])|
  }

  /** A prefix of a well-sent stream is received without a failure. */
  lemma {:induction false} PrefixIsReceived(start: nat, stream: seq<Envelope>, n: nat)
    requires WellSent(start, stream) && n <= |stream|
    ensures Receive(start, stream[..n]) == Some(start + |Commits(stream[..n])|)
  {
    if 0 < n {
      PrefixIsReceived(start, stream, n - 1);
      assert stream[..n][..n - 1] == stream[..n - 1];
      assert stream[..n] == stream[..n - 1] + [stream[n - 1]];
      CommitsPush(stream[..n - 1], stream[n - 1]);
    } else {
      assert stream[..n] == [];
    }
  }
}