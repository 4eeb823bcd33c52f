/** Which pending attempts can still become durable.  An abandoned flush is not cancelled:
    it lands whenever nothing supersedes it first. */
module LateLanding {
  import opened Persistence
  import opened Identities
  import opened Release

  /** The write chain holds each exported attempt once; all but its front wait. */
  ghost predicate Shaped(b: Book) {
    && (forall k :: 0 <= k < |b.writeChain| && b.writeChain[k].WriteOf? ==>
          b.writeChain[k].attempt < |b.attempts| && InChain(b.attempts[b.writeChain[k].attempt].phase))
    && (forall k :: 0 < k < |b.writeChain| && b.writeChain[k].WriteOf? ==>
          b.attempts[b.writeChain[k].attempt].phase.InLine?)
    && (forall i, k :: 0 <= i < k < |b.writeChain| && b.writeChain[i].WriteOf? ==> b.writeChain[i] != b.writeChain[k])
    && (forall a: nat :: a < |b.attempts| && InChain(b.attempts[a].phase) ==> WriteOf(a) in b.writeChain)
  }

  predicate InChain(p: Phase) { p.InLine? || p.Writing? || p.Landed? }

  lemma SetPhaseShaped(b: Book, a: nat, p: Phase)
    requires Shaped(b) && a < |b.attempts| && !InChain(b.attempts[a].phase) && !InChain(p)
    ensures Shaped(SetPhase(b, a, p))
  {
  }

  lemma QueueWriteShaped(b: Book, a: nat)
    requires Shaped(b) && a < |b.attempts| && b.attempts[a].phase.ReadOut?
    ensures Shaped(QueueWrite(b, a))
  {
    var x := QueueWrite(b, a);
    forall y: nat | y < |x.attempts| && InChain(x.attempts[y].phase) ensures WriteOf(y) in x.writeChain {
      assert x.writeChain[|b.writeChain|] == WriteOf(a);
      assert y != a ==> WriteOf(y) in b.writeChain;
    }
  }

  /** The front attempt moves on within the chain. */
  lemma FrontShaped(b: Book, p: Phase)
    requires Shaped(b) && HeadWrite(b) && InChain(p)
    ensures Shaped(SetPhase(b, b.writeChain[0].attempt, p))
  {
    var a := b.writeChain[0].attempt;
    forall k | 0 < k < |b.writeChain| && b.writeChain[k].WriteOf? ensures b.writeChain[k].attempt != a {
      assert b.writeChain[0] != b.writeChain[k];
    }
    assert WriteOf(a) in b.writeChain;
  }

  /** The front leaves the chain. */
  lemma PopShaped(b: Book, p: Phase)
    requires Shaped(b) && HeadWrite(b) && !InChain(p)
    ensures Shaped(SetPhase(b, b.writeChain[0].attempt, p).(writeChain := b.writeChain[1..]))
  {
    var a := b.writeChain[0].attempt;
    var x := SetPhase(b, a, p).(writeChain := b.writeChain[1..]);
    forall k | 0 <= k < |x.writeChain| && x.writeChain[k].WriteOf? ensures x.writeChain[k].attempt != a {
      assert b.writeChain[0] != b.writeChain[k + 1];
    }
    forall y: nat | y < |x.attempts| && InChain(x.attempts[y].phase) ensures WriteOf(y) in x.writeChain {
      TailHas(b.writeChain, WriteOf(y));
    }
  }

  lemma TailHas(s: seq<WriteTask>, w: WriteTask)
    requires w in s && s[0] != w
    ensures w in s[1..]
  {
    var k :| 0 <= k < |s| && s[k] == w;
    assert s[1..][k - 1] == w;
  }

  lemma FlipShaped(b: Book)
    requires Shaped(b) && HeadFlip(b)
    ensures Shaped(Flip(b))
  {
    forall y: nat | y < |b.attempts| && InChain(b.attempts[y].phase) ensures WriteOf(y) in b.writeChain[1..] {
      TailHas(b.writeChain, WriteOf(y));
    }
  }

  lemma AppendFlipShaped(b: Book, c: nat)
    requires Shaped(b)
    ensures Shaped(QueueFlip(b, c))
  {
  }

  /** What `Shaped` looks at is unchanged. */
  lemma SameShaped(b: Book, x: Book)
    requires Shaped(b) && x.writeChain == b.writeChain && |b.attempts| <= |x.attempts|
    requires forall a :: 0 <= a < |b.attempts| ==> x.attempts[a].phase == b.attempts[a].phase
    requires forall a :: |b.attempts| <= a < |x.attempts| ==> !InChain(x.attempts[a].phase)
    ensures Shaped(x)
  {
  }

  lemma StepShaped(s: State, e: Event)
    requires Shaped(s.book) && Enabled(s, e)
    ensures Shaped(Step(s, e).book)
  {
    var b, x := s.book, Step(s, e).book;
    if e.ChainStart? {
      AppendFlipShaped(b, s.flushChain[0]);
      SameShaped(b, IssueFor(s, s.flushChain[0]));
    } else if e.ExportRead? || e.ExportFail? {
      SetPhaseShaped(b, e.attempt, x.attempts[e.attempt].phase);
    } else if e.ExportReturn? {
      QueueWriteShaped(b, e.attempt);
    } else if e.ResetRun? {
      FlipShaped(b);
    } else if e.WriteCheck? || e.WriteLand? || e.WriteFail? || e.WriteFinish? {
      WriteShaped(s, e);
    } else {
      SameShaped(b, x);
    }
  }

  lemma WriteShaped(s: State, e: Event)
    requires Shaped(s.book) && Enabled(s, e) && (e.WriteCheck? || e.WriteLand? || e.WriteFail? || e.WriteFinish?)
    ensures Shaped(Step(s, e).book)
  {
    var b, x := s.book, Step(s, e).book;
    var p := x.attempts[b.writeChain[0].attempt].phase;
    if InChain(p) {
      FrontShaped(b, p);
      SameShaped(SetPhase(b, b.writeChain[0].attempt, p), x);
    } else {
      PopShaped(b, p);
      SameShaped(SetPhase(b, b.writeChain[0].attempt, p).(writeChain := b.writeChain[1..]), x);
    }
  }

  lemma {:induction false} RunShaped(s: State, es: seq<Event>)
    requires Shaped(s.book) && Valid(s, es)
    ensures Shaped(Run(s, es).book)
    decreases |es|
  {
    if es != [] {
      StepShaped(s, es[0]);
      RunShaped(Step(s, es[0]), es[1..]);
    }
  }

  // ---------------------------------------------------------------------------
  // The condition
  // ---------------------------------------------------------------------------

  predicate FlipBefore(chain: seq<WriteTask>, w: WriteTask) {
    exists k :: 0 <= k < |chain| && chain[k].FlipOf? && w !in chain[..k]
  }

  predicate Unwritten(p: Phase) { p.Requested? || p.ReadOut? || p.InLine? }

  /** A write that has landed but not yet raised the mark will raise it past `x`. */
  predicate AboutToBePassed(b: Book, x: Attempt) {
    HeadWrite(b) && HeadPhase(b).Landed? && x.gen <= b.attempts[b.writeChain[0].attempt].gen
  }

  /** Nothing ahead of the unwritten attempt stops it: it is not superseded, no queued
      reset is ahead of it, and no durable write is about to pass it. */
  predicate Clear(b: Book, a: nat)
    requires a < |b.attempts|
  {
    && Unwritten(b.attempts[a].phase)
    && !Superseded(b, b.attempts[a])
    && !FlipBefore(b.writeChain, WriteOf(a))
    && !AboutToBePassed(b, b.attempts[a])
  }

  /** An export that is still to be read has its context. */
  predicate Readable(s: State, a: nat)
    requires a < |s.book.attempts|
  {
    s.book.attempts[a].phase.Requested? ==> s.book.attempts[a].identity in s.worker
  }

  predicate CanLand(s: State, a: nat) {
    a < |s.book.attempts| && (s.book.attempts[a].phase.Writing? || (Clear(s.book, a) && Readable(s, a)))
  }

  predicate Lands(s: State, t: State, a: nat) {
    exists i :: |s.book.landed| <= i < |t.book.landed| && t.book.landed[i].attempt == a
  }

  // ---------------------------------------------------------------------------
  // Otherwise it never lands
  // ---------------------------------------------------------------------------

  lemma OverStays(s: State, e: Event, a: nat)
    requires Enabled(s, e) && a < |s.book.attempts|
    requires (s.book.attempts[a].phase.Landed? || s.book.attempts[a].phase.Done?)
    ensures a < |Step(s, e).book.attempts|
    ensures Step(s, e).book.attempts[a].phase.Landed? || Step(s, e).book.attempts[a].phase.Done?
  {
    if !TouchesBook(e) {
      OthersKeepBook(s, e);
    }
  }

  /** An unwritten attempt is not written in this step unless it is the unsuperseded front. */
  lemma UnwrittenStep(s: State, e: Event, a: nat)
    requires Enabled(s, e) && a < |s.book.attempts| && Unwritten(s.book.attempts[a].phase)
    requires e.WriteCheck? && AtHead(s.book, a) ==> Superseded(s.book, s.book.attempts[a])
    ensures a < |Step(s, e).book.attempts|
    ensures Unwritten(Step(s, e).book.attempts[a].phase) || Step(s, e).book.attempts[a].phase.Done?
  {
    if !TouchesBook(e) {
      OthersKeepBook(s, e);
    }
  }

  /** The write chain gains at its end or loses its front. */
  lemma ChainStep(s: State, e: Event)
    requires Enabled(s, e)
    ensures var q, r := s.book.writeChain, Step(s, e).book.writeChain;
      q <= r || (q != [] && r == q[1..] && (q[0].FlipOf? ==> e.ResetRun?))
  {
    if !TouchesBook(e) {
      OthersKeepBook(s, e);
    }
  }

  lemma FlipBeforeGrows(q: seq<WriteTask>, r: seq<WriteTask>, w: WriteTask)
    requires FlipBefore(q, w) && q <= r
    ensures FlipBefore(r, w)
  {
    var k :| 0 <= k < |q| && q[k].FlipOf? && w !in q[..k];
    assert r[..k] == q[..k] && r[k] == q[k];
  }

  lemma FlipBeforePops(q: seq<WriteTask>, w: WriteTask)
    requires FlipBefore(q, w) && !q[0].FlipOf?
    ensures FlipBefore(q[1..], w)
  {
    var k :| 0 <= k < |q| && q[k].FlipOf? && w !in q[..k];
    assert q[1..][..k - 1] == q[..k][1..] && q[1..][k - 1] == q[k];
  }

  lemma FlipStays(s: State, e: Event, a: nat)
    requires Enabled(s, e) && a < |s.book.attempts| && s.book.attempts[a].epoch <= s.book.epoch
    requires FlipBefore(s.book.writeChain, WriteOf(a))
    ensures a < |Step(s, e).book.attempts|
    ensures FlipBefore(Step(s, e).book.writeChain, WriteOf(a))
      || Superseded(Step(s, e).book, Step(s, e).book.attempts[a])
  {
    ChainStep(s, e);
    StepKeepsNumber(s, e, a);
    var q, r := s.book.writeChain, Step(s, e).book.writeChain;
    if q <= r {
      FlipBeforeGrows(q, r, WriteOf(a));
    } else if q[0].FlipOf? {
      StepSuperseded(s, e, s.book.attempts[a]);
    } else {
      FlipBeforePops(q, WriteOf(a));
    }
  }

  lemma PassingStays(s: State, e: Event, a: nat)
    requires Enabled(s, e) && a < |s.book.attempts| && s.book.attempts[a].epoch <= s.book.epoch
    requires AboutToBePassed(s.book, s.book.attempts[a])
    ensures a < |Step(s, e).book.attempts|
    ensures AboutToBePassed(Step(s, e).book, Step(s, e).book.attempts[a])
      || Superseded(Step(s, e).book, Step(s, e).book.attempts[a])
  {
    StepKeepsNumber(s, e, a);
    if e.WriteFinish? {
      StepSuperseded(s, e, s.book.attempts[a]);
    } else {
      FrontStays(s, e);
    }
  }

  lemma FrontStays(s: State, e: Event)
    requires Enabled(s, e) && !e.WriteFinish? && HeadWrite(s.book) && HeadPhase(s.book).Landed?
    ensures HeadWrite(Step(s, e).book) && Step(s, e).book.writeChain[0] == s.book.writeChain[0]
    ensures HeadPhase(Step(s, e).book).Landed?
    ensures Step(s, e).book.attempts[s.book.writeChain[0].attempt].gen ==
      s.book.attempts[s.book.writeChain[0].attempt].gen
  {
    if !TouchesBook(e) {
      OthersKeepBook(s, e);
    }
  }

  lemma StepCannotLand(s: State, e: Event, a: nat)
    requires Inv(s.book) && Minting(s) && Enabled(s, e) && a < |s.book.attempts| && !CanLand(s, a)
    ensures a < |Step(s, e).book.attempts| && !CanLand(Step(s, e), a)
  {
    var b, x := s.book, Step(s, e).book;
    if !Unwritten(b.attempts[a].phase) {
      OverStays(s, e, a);
    } else {
      UnwrittenStep(s, e, a);
      if Superseded(b, b.attempts[a]) {
        StepKeepsNumber(s, e, a);
        StepSuperseded(s, e, b.attempts[a]);
      } else if FlipBefore(b.writeChain, WriteOf(a)) {
        FlipStays(s, e, a);
      } else if AboutToBePassed(b, b.attempts[a]) {
        PassingStays(s, e, a);
      } else if Unwritten(x.attempts[a].phase) && Readable(Step(s, e), a) {
        ReadableBefore(s, e, a);
      }
    }
  }

  /** A context that a session clear dropped does not come back for the export. */
  lemma ReadableBefore(s: State, e: Event, a: nat)
    requires Minting(s) && Enabled(s, e) && a < |s.book.attempts| && a < |Step(s, e).book.attempts|
    requires Unwritten(Step(s, e).book.attempts[a].phase) && Readable(Step(s, e), a)
    ensures Readable(s, a)
  {
    var id := s.book.attempts[a].identity;
    AttemptsStep(s, e);
    if s.book.attempts[a].phase.Requested? && id !in s.worker {
      StaysRequested(s, e, a);
      GoneStaysGone(s, e, id);
    }
  }

  lemma StaysRequested(s: State, e: Event, a: nat)
    requires Enabled(s, e) && a < |s.book.attempts| && a < |Step(s, e).book.attempts|
    requires s.book.attempts[a].phase.Requested? && s.book.attempts[a].identity !in s.worker
    requires Unwritten(Step(s, e).book.attempts[a].phase)
    ensures Step(s, e).book.attempts[a].phase.Requested?
  {
    if !TouchesBook(e) {
      OthersKeepBook(s, e);
    }
  }

  lemma LandingIsWritten(s: State, e: Event)
    requires Enabled(s, e) && Step(s, e).book.landed != s.book.landed
    ensures e.WriteLand? && |Step(s, e).book.landed| == |s.book.landed| + 1
    ensures Step(s, e).book.landed[|s.book.landed|].attempt == s.book.writeChain[0].attempt
    ensures s.book.landed <= Step(s, e).book.landed
  {
    if !TouchesBook(e) {
      OthersKeepBook(s, e);
    }
  }

  lemma {:induction false} NeverLands(s: State, es: seq<Event>, a: nat)
    requires Inv(s.book) && Minting(s) && Valid(s, es) && a < |s.book.attempts| && !CanLand(s, a)
    ensures !Lands(s, Run(s, es), a)
    decreases |es|
  {
    if es != [] {
      var t := Step(s, es[0]);
      StepInv(s, es[0]);
      StepMinting(s, es[0]);
      StepCannotLand(s, es[0], a);
      NeverLands(t, es[1..], a);
      LandedGrows(t, es[1..]);
      if t.book.landed != s.book.landed {
        LandingIsWritten(s, es[0]);
      }
    }
  }

  // ---------------------------------------------------------------------------
  // Then some continuation lands it
  // ---------------------------------------------------------------------------

  /** Attempt `a` waits at position `k` with nothing in its way. */
  ghost predicate InLineAt(s: State, a: nat, k: nat) {
    && Inv(s.book) && Shaped(s.book)
    && k < |s.book.writeChain| && s.book.writeChain[k] == WriteOf(a)
    && a < |s.book.attempts| && s.book.attempts[a].phase.InLine? && Clear(s.book, a)
  }

  /** The front write, which is not `a`, leaves the chain by failing, by its bump or by
      being skipped, or gets past its check. */
  function NextEvent(b: Book): Event
    requires HeadWrite(b)
  {
    match HeadPhase(b)
    case Landed(_) => WriteFinish
    case Writing(_) => WriteFail
    case _ => WriteCheck
  }

  lemma FrontMoves(s: State, a: nat, k: nat)
    requires InLineAt(s, a, k) && 0 < k
    ensures HeadWrite(s.book) && s.book.writeChain[0].attempt != a && Enabled(s, NextEvent(s.book))
  {
    var q := s.book.writeChain;
    assert q[..0] == [];
    assert q[0].WriteOf? && q[0] != q[k];
  }

  lemma FlipBeforeShrinks(q: seq<WriteTask>, w: WriteTask)
    requires q != [] && q[0] != w && FlipBefore(q[1..], w)
    ensures FlipBefore(q, w)
  {
    var k :| 0 <= k < |q[1..]| && q[1..][k].FlipOf? && w !in q[1..][..k];
    assert q[..k + 1] == [q[0]] + q[1..][..k] && q[k + 1] == q[1..][k];
  }

  lemma MarkStaysBelow(s: State, a: nat, k: nat)
    requires InLineAt(s, a, k) && 0 < k && Enabled(s, NextEvent(s.book))
    ensures var x := Step(s, NextEvent(s.book)).book;
      && a < |x.attempts| && SameNumber(x.attempts[a], s.book.attempts[a])
      && x.attempts[a].phase == s.book.attempts[a].phase
      && !Superseded(x, x.attempts[a])
  {
    FrontMoves(s, a, k);
    StepKeepsNumber(s, NextEvent(s.book), a);
    StepSuperseded(s, NextEvent(s.book), s.book.attempts[a]);
  }

  /** After the front's move the chain is shorter, or its front is being written. */
  lemma FrontGone(s: State, a: nat, k: nat)
    requires InLineAt(s, a, k) && 0 < k && Enabled(s, NextEvent(s.book))
    ensures var x := Step(s, NextEvent(s.book)).book;
      || (x.writeChain == s.book.writeChain[1..] && (HeadWrite(x) ==> HeadPhase(x).InLine?))
      || (x.writeChain == s.book.writeChain && HeadPhase(s.book).InLine? && HeadWrite(x) && HeadPhase(x).Writing?)
  {
    FrontMoves(s, a, k);
    var q := s.book.writeChain;
    assert q[1].WriteOf? ==> q[0] != q[1];
  }

  lemma ClearAfterPop(b: Book, x: Book, a: nat, k: nat)
    requires 0 < k < |b.writeChain| && b.writeChain[k] == WriteOf(a) && b.writeChain[0] != WriteOf(a)
    requires a < |b.attempts| && Clear(b, a)
    requires Shaped(x) && a < |x.attempts| && Unwritten(x.attempts[a].phase) && !Superseded(x, x.attempts[a])
    requires x.writeChain == b.writeChain[1..] && (HeadWrite(x) ==> HeadPhase(x).InLine?)
    ensures Clear(x, a) && x.writeChain[k - 1] == WriteOf(a)
  {
    if FlipBefore(x.writeChain, WriteOf(a)) {
      FlipBeforeShrinks(b.writeChain, WriteOf(a));
    }
  }

  lemma ClearAfterMove(s: State, a: nat, k: nat)
    requires InLineAt(s, a, k) && 0 < k && Enabled(s, NextEvent(s.book))
    ensures var t := Step(s, NextEvent(s.book));
      InLineAt(t, a, if t.book.writeChain == s.book.writeChain then k else k - 1)
  {
    var e := NextEvent(s.book);
    var t := Step(s, e);
    FrontMoves(s, a, k);
    StepInv(s, e);
    StepShaped(s, e);
    MarkStaysBelow(s, a, k);
    FrontGone(s, a, k);
    if t.book.writeChain != s.book.writeChain {
      ClearAfterPop(s.book, t.book, a, k);
    }
  }

  lemma RunCons(s: State, e: Event, es: seq<Event>)
    requires Enabled(s, e) && Valid(Step(s, e), es)
    ensures Valid(s, [e] + es) && Run(s, [e] + es) == Run(Step(s, e), es)
  {
    assert ([e] + es)[1..] == es;
  }

  /** The log only grows, so what lands after a step lands. */
  lemma LandsLater(s: State, e: Event, t: State, a: nat)
    requires Enabled(s, e) && Lands(Step(s, e), t, a)
    ensures Lands(s, t, a)
  {
    LandedGrows(s, [e]);
    OneStep(s, e);
  }

  /** The row, if there is one, holds the export of attempt `a`, the last to land. */
  predicate Holds(s: State, a: nat) { s.book.row ==> s.book.disk.Stored? && s.book.disk.src == a }

  lemma LandAtFront(s: State, a: nat) returns (es: seq<Event>)
    requires InLineAt(s, a, 0)
    ensures Valid(s, es) && Lands(s, Run(s, es), a) && Holds(Run(s, es), a)
  {
    var t := Step(s, WriteCheck);
    es := Then(s, [], s, WriteCheck);
    assert HeadWrite(t.book) && HeadPhase(t.book).Writing?;
    es := Then(s, es, t, WriteLand);
    assert Run(s, es).book.landed[|s.book.landed|].attempt == a;
  }

  lemma {:induction false} LandFrom(s: State, a: nat, k: nat) returns (es: seq<Event>)
    requires InLineAt(s, a, k)
    ensures Valid(s, es) && Lands(s, Run(s, es), a) && Holds(Run(s, es), a)
    decreases k, if HeadWrite(s.book) && HeadPhase(s.book).InLine? then 1 else 0
  {
    if k == 0 {
      es := LandAtFront(s, a);
    } else {
      FrontMoves(s, a, k);
      FrontGone(s, a, k);
      ClearAfterMove(s, a, k);
      var e := NextEvent(s.book);
      var t := Step(s, e);
      es := LandFrom(t, a, if t.book.writeChain == s.book.writeChain then k else k - 1);
      RunCons(s, e, es);
      LandsLater(s, e, Run(t, es), a);
      es := [e] + es;
    }
  }

  lemma FlipBeforeJoins(q: seq<WriteTask>, a: nat)
    requires FlipBefore(q + [WriteOf(a)], WriteOf(a))
    ensures FlipBefore(q, WriteOf(a))
  {
    var r := q + [WriteOf(a)];
    var k :| 0 <= k < |r| && r[k].FlipOf? && WriteOf(a) !in r[..k];
    assert r[..k] == q[..k] && r[k] == q[k];
  }

  /** An export that was read replies and joins the line. */
  lemma JoinsLine(s: State, a: nat)
    requires Inv(s.book) && Shaped(s.book) && a < |s.book.attempts|
    requires s.book.attempts[a].phase.ReadOut? && Clear(s.book, a)
    ensures InLineAt(Step(s, ExportReturn(a)), a, |s.book.writeChain|)
  {
    StepInv(s, ExportReturn(a));
    StepShaped(s, ExportReturn(a));
    JoinsClear(s.book, a);
  }

  lemma JoinsClear(b: Book, a: nat)
    requires Shaped(b) && a < |b.attempts| && b.attempts[a].phase.ReadOut? && Clear(b, a)
    ensures Clear(QueueWrite(b, a), a)
  {
    if FlipBefore(b.writeChain + [WriteOf(a)], WriteOf(a)) {
      FlipBeforeJoins(b.writeChain, a);
    }
  }

  lemma LandRead(s: State, a: nat) returns (es: seq<Event>)
    requires Inv(s.book) && Shaped(s.book) && a < |s.book.attempts|
    requires s.book.attempts[a].phase.ReadOut? && Clear(s.book, a)
    ensures Valid(s, es) && Lands(s, Run(s, es), a) && Holds(Run(s, es), a)
  {
    JoinsLine(s, a);
    var t := Step(s, ExportReturn(a));
    es := LandFrom(t, a, |s.book.writeChain|);
    RunCons(s, ExportReturn(a), es);
    LandsLater(s, ExportReturn(a), Run(t, es), a);
    es := [ExportReturn(a)] + es;
  }

  lemma LandRequested(s: State, a: nat) returns (es: seq<Event>)
    requires Inv(s.book) && Shaped(s.book) && a < |s.book.attempts| && Clear(s.book, a)
    requires s.book.attempts[a].phase.Requested? && Readable(s, a)
    ensures Valid(s, es) && Lands(s, Run(s, es), a) && Holds(Run(s, es), a)
  {
    var t := Step(s, ExportRead(a));
    StepInv(s, ExportRead(a));
    StepShaped(s, ExportRead(a));
    es := LandRead(t, a);
    RunCons(s, ExportRead(a), es);
    LandsLater(s, ExportRead(a), Run(t, es), a);
    es := [ExportRead(a)] + es;
  }

  lemma LandWriting(s: State, a: nat) returns (es: seq<Event>)
    requires Inv(s.book) && a < |s.book.attempts| && s.book.attempts[a].phase.Writing?
    ensures Valid(s, es) && Lands(s, Run(s, es), a) && Holds(Run(s, es), a)
  {
    assert AtHead(s.book, a);
    es := [WriteLand];
    OneStep(s, WriteLand);
    assert Step(s, WriteLand).book.landed[|s.book.landed|].attempt == a;
  }

  lemma Land(s: State, a: nat) returns (es: seq<Event>)
    requires Inv(s.book) && Shaped(s.book) && CanLand(s, a)
    ensures Valid(s, es) && Lands(s, Run(s, es), a) && Holds(Run(s, es), a)
  {
    var p := s.book.attempts[a].phase;
    if p.Writing? {
      es := LandWriting(s, a);
    } else if p.Requested? {
      es := LandRequested(s, a);
    } else if p.ReadOut? {
      es := LandRead(s, a);
    } else {
      var k :| 0 <= k < |s.book.writeChain| && s.book.writeChain[k] == WriteOf(a);
      es := LandFrom(s, a, k);
    }
  }

  lemma ReachableShaped(s: State)
    requires Reachable(s)
    ensures Shaped(s.book)
  {
    var start, es :| Initial(start) && Valid(start, es) && Run(start, es) == s;
    RunShaped(start, es);
  }

  ghost predicate MayLand(s: State, a: nat) {
    exists es :: Valid(s, es) && Lands(s, Run(s, es), a) && Holds(Run(s, es), a)
  }

  /** In every reachable state and for every attempt, abandoned or not: some continuation
      makes it durable, and leaves it in the row if there is one, if and only if `CanLand`;
      otherwise none makes it durable at all. */
  lemma LandsExactlyWhen(s: State, a: nat)
    requires Reachable(s) && a < |s.book.attempts|
    ensures MayLand(s, a) <==> CanLand(s, a)
    ensures !CanLand(s, a) ==> forall es :: Valid(s, es) ==> !Lands(s, Run(s, es), a)
  {
    ReachableSound(s);
    ReachableShaped(s);
    if CanLand(s, a) {
      var es := Land(s, a);
    } else {
      forall es | Valid(s, es) ensures !Lands(s, Run(s, es), a) {
        NeverLands(s, es, a);
      }
    }
  }

  // ---------------------------------------------------------------------------
  // The compensating abort whose own flush failed
  // ---------------------------------------------------------------------------

  predicate Names(b: Body, first: nat) {
    match b
    case Flushing(a) => a == first
    case Aborting(f) => f == first
    case AbortApplied(f) => f == first
    case AbortQueued(f) => f == first
    case AbortFlushing(f, _) => f == first
    case Undone(f, _, _) => f == first
    case _ => false
  }

  ghost predicate FirstsExist(s: State) {
    forall c: nat, f: nat :: c < |s.calls| && Names(s.calls[c].body, f) ==> f < |s.book.attempts|
  }

  lemma NamedBefore(s: State, e: Event, c: nat, f: nat)
    requires Enabled(s, e) && Linked(Step(s, e)) && c < |Step(s, e).calls| && Names(Step(s, e).calls[c].body, f)
    ensures (c < |s.calls| && Names(s.calls[c].body, f)) || f < |Step(s, e).book.attempts|
  {
    if c < |s.calls| {
      StepMoves(s, e, c);
      assert LinkedCall(Step(s, e), c);
      assert Step(s, e).calls[c].body == Flushing(f) ==> Uses(Step(s, e).calls[c].body, f);
    } else {
      NewCalls(s, e);
    }
  }

  lemma {:induction false} RunFirstsExist(s: State, es: seq<Event>)
    requires FirstsExist(s) && Linked(s) && Valid(s, es)
    ensures FirstsExist(Run(s, es))
    decreases |es|
  {
    if es != [] {
      var t := Step(s, es[0]);
      AttemptsStep(s, es[0]);
      StepLinked(s, es[0]);
      forall c: nat, f: nat | c < |t.calls| && Names(t.calls[c].body, f) ensures f < |t.book.attempts| {
        NamedBefore(s, es[0], c, f);
      }
      RunFirstsExist(t, es[1..]);
    }
  }

  /** Exactly when a failed second flush leaves the abort open: in every reachable state in
      which a staged removal was undone without its second flush succeeding, the abandoned
      first export can still reach the row if and only if it can land.  A later number
      having been issued makes no difference. */
  lemma OpenAbortExactlyWhen(s: State, c: nat)
    requires Reachable(s) && c < |s.calls| && s.calls[c].body.Undone? && !s.calls[c].body.durable
    ensures MayLand(s, s.calls[c].body.first) <==> CanLand(s, s.calls[c].body.first)
    ensures !CanLand(s, s.calls[c].body.first) ==>
      forall es :: Valid(s, es) ==> !Lands(s, Run(s, es), s.calls[c].body.first)
  {
    var start, es :| Initial(start) && Valid(start, es) && Run(start, es) == s;
    RunFirstsExist(start, es);
    assert Names(s.calls[c].body, s.calls[c].body.first);
    LandsExactlyWhen(s, s.calls[c].body.first);
  }
}
