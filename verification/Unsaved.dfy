/** Exactly when a caller can be released although its flush, and every later one, was
    never saved. */
module Unsaved {
  import opened Helpers
  import opened Persistence
  import opened Identities
  import opened FlushOrder
  import opened Release
  import opened LateLanding

  /** Queued resets are distinct and still to run. */
  ghost predicate FlipsWait(s: State) {
    var q := s.book.writeChain;
    && (forall k :: 0 <= k < |q| && q[k].FlipOf? ==> BodyIs(s, q[k].call, Flipping))
    && (forall i, k :: 0 <= i < k < |q| && q[i].FlipOf? ==> q[i] != q[k])
  }

  lemma FlippingStays(s: State, e: Event, c: nat)
    requires Lined(s) && Enabled(s, e) && BodyIs(s, c, Flipping)
    requires !(e.ResetRun? && s.book.writeChain[0].call == c)
    ensures BodyIs(Step(s, e), c, Flipping)
  {
    assert Fits(s.calls[c].kind, s.calls[c].body);
  }

  lemma FlipAppended(s: State, e: Event, k: nat)
    requires Enabled(s, e) && s.book.writeChain <= Step(s, e).book.writeChain
    requires |s.book.writeChain| <= k < |Step(s, e).book.writeChain| && Step(s, e).book.writeChain[k].FlipOf?
    ensures e.ChainStart? && k == |s.book.writeChain| && |Step(s, e).book.writeChain| == k + 1
    ensures Step(s, e).book.writeChain[k].call == s.flushChain[0]
    ensures BodyIs(s, s.flushChain[0], Persistence.Queued) && BodyIs(Step(s, e), s.flushChain[0], Flipping)
  {
    if !TouchesBook(e) {
      OthersKeepBook(s, e);
    }
  }

  lemma GrowFlipsWait(s: State, e: Event)
    requires Lined(s) && FlipsWait(s) && Enabled(s, e)
    requires s.book.writeChain <= Step(s, e).book.writeChain && !e.ResetRun?
    ensures FlipsWait(Step(s, e))
  {
    var q, r := s.book.writeChain, Step(s, e).book.writeChain;
    forall k | 0 <= k < |r| && r[k].FlipOf? ensures BodyIs(Step(s, e), r[k].call, Flipping) {
      if k < |q| {
        assert q[k] == r[k];
        FlippingStays(s, e, r[k].call);
      } else {
        FlipAppended(s, e, k);
      }
    }
    forall i, k | 0 <= i < k < |r| && r[i].FlipOf? ensures r[i] != r[k] {
      if |q| <= k && r[k].FlipOf? {
        FlipAppended(s, e, k);
        assert q[i] == r[i];
      } else if k < |q| {
        assert q[i] == r[i] && q[k] == r[k];
      }
    }
  }

  lemma PopFlipsWait(s: State, e: Event)
    requires Lined(s) && FlipsWait(s) && Enabled(s, e) && s.book.writeChain != []
    requires Step(s, e).book.writeChain == s.book.writeChain[1..] && (e.ResetRun? <==> s.book.writeChain[0].FlipOf?)
    ensures FlipsWait(Step(s, e))
  {
    var q, r := s.book.writeChain, Step(s, e).book.writeChain;
    forall k | 0 <= k < |r| && r[k].FlipOf? ensures BodyIs(Step(s, e), r[k].call, Flipping) {
      assert r[k] == q[k + 1];
      FlippingStays(s, e, r[k].call);
    }
  }

  lemma StepFlipsWait(s: State, e: Event)
    requires Lined(s) && FlipsWait(s) && Enabled(s, e)
    ensures FlipsWait(Step(s, e))
  {
    ChainStep(s, e);
    if s.book.writeChain <= Step(s, e).book.writeChain {
      GrowFlipsWait(s, e);
    } else {
      PopFlipsWait(s, e);
    }
  }

  lemma {:induction false} RunFlipsWait(s: State, es: seq<Event>)
    requires Lined(s) && FlipsWait(s) && Valid(s, es)
    ensures FlipsWait(Run(s, es))
    decreases |es|
  {
    if es != [] {
      StepFlipsWait(s, es[0]);
      StepLined(s, es[0]);
      RunFlipsWait(Step(s, es[0]), es[1..]);
    }
  }

  ghost predicate Steady(s: State) { Sound(s) && Shaped(s.book) && FlipsWait(s) }

  lemma StepSteady(s: State, e: Event)
    requires Steady(s) && Enabled(s, e)
    ensures Steady(Step(s, e))
  {
    StepSound(s, e);
    StepShaped(s, e);
    StepFlipsWait(s, e);
  }

  // ---------------------------------------------------------------------------
  // The condition
  // ---------------------------------------------------------------------------

  /** An abandoned import that can still raise the mark to the number `gen`. */
  predicate Passes(x: Call, gen: nat) {
    !x.live && (x.body.Importing? || (x.body.Imported? && gen <= x.body.gen))
  }

  predicate LateImport(s: State, gen: nat) { exists c :: 0 <= c < |s.calls| && Passes(s.calls[c], gen) }

  /** Neither attempt `a` nor a later one is durable, and it was skipped; or it is
      unwritten, still has its context if it is to be read, and is superseded, has an
      abandoned reset queued ahead of it, or an abandoned import can still pass it. */
  predicate AtRisk(s: State, a: nat) {
    && a < |s.book.attempts| && !Covered(s.book, a)
    && (s.book.attempts[a].phase == Done(Skipped)
        || (Unwritten(s.book.attempts[a].phase) && Readable(s, a) && Overtakable(s, a)))
  }

  predicate Overtakable(s: State, a: nat)
    requires a < |s.book.attempts|
  {
    || Superseded(s.book, s.book.attempts[a])
    || FlipBefore(s.book.writeChain, WriteOf(a))
    || LateImport(s, s.book.attempts[a].gen)
  }

  /** Call `c` was answered well by attempt `a`, and neither it nor a later one is durable. */
  predicate ReleasedUnsaved(s: State, c: nat, a: nat) {
    c < |s.calls| && Positive(s.calls[c].body) && Uses(s.calls[c].body, a) && !Covered(s.book, a)
  }

  // ---------------------------------------------------------------------------
  // Otherwise it is saved
  // ---------------------------------------------------------------------------

  lemma NoNewLateImport(s: State, e: Event, c: nat, a: nat, gen: nat)
    requires Lined(s) && Enabled(s, e) && Awaits(s, c, a) && Awaits(Step(s, e), c, a) && LateImport(Step(s, e), gen)
    ensures LateImport(s, gen)
  {
    var d :| 0 <= d < |Step(s, e).calls| && Passes(Step(s, e).calls[d], gen);
    PassesBefore(s, e, c, a, d, gen);
  }

  lemma PassesBefore(s: State, e: Event, c: nat, a: nat, d: nat, gen: nat)
    requires Lined(s) && Enabled(s, e) && Awaits(s, c, a) && Awaits(Step(s, e), c, a)
    requires d < |Step(s, e).calls| && Passes(Step(s, e).calls[d], gen)
    ensures d < |s.calls| && Passes(s.calls[d], gen)
  {
    assert AtFront(s, c);
    AbandonedBefore(s, e, d);
  }

  /** Only the timeout of the front gives up on an import. */
  lemma GivenUpNow(s: State, e: Event, d: nat)
    requires Enabled(s, e) && d < |s.calls| && d < |Step(s, e).calls| && s.calls[d].live && !Step(s, e).calls[d].live
    requires s.calls[d].body.Importing? || s.calls[d].body.Imported? || Waiting(s.calls[d].body)
    ensures e == ChainTimeout && AtFront(s, d)
  {
  }

  lemma AbandonedBefore(s: State, e: Event, d: nat)
    requires Lined(s) && Enabled(s, e) && d < |Step(s, e).calls|
    requires !Step(s, e).calls[d].live && (Step(s, e).calls[d].body.Importing? || Step(s, e).calls[d].body.Imported?)
    ensures d < |s.calls|
    ensures (e == ChainTimeout && AtFront(s, d)) || !s.calls[d].live
    ensures !s.calls[d].live ==> s.calls[d].body.Importing? || s.calls[d].body == Step(s, e).calls[d].body
  {
    NewCalls(s, e);
    StepMoves(s, e, d);
    if s.calls[d].live {
      GivenUpNow(s, e, d);
    } else {
      AbandonedNotWaiting(s, e, d);
    }
  }

  /** An abandoned call does not start to import. */
  lemma AbandonedNotWaiting(s: State, e: Event, d: nat)
    requires Lined(s) && Enabled(s, e) && d < |s.calls| && d < |Step(s, e).calls| && !s.calls[d].live
    ensures s.calls[d].body.Queued? ==> Step(s, e).calls[d].body.Queued?
  {
  }

  lemma NoNewFlip(s: State, e: Event, c: nat, a: nat)
    requires Lined(s) && Enabled(s, e) && Awaits(s, c, a) && !AtHead(s.book, a)
    requires FlipBefore(Step(s, e).book.writeChain, WriteOf(a))
    ensures FlipBefore(s.book.writeChain, WriteOf(a))
  {
    assert AtFront(s, c);
    ChainStep(s, e);
    var q, r := s.book.writeChain, Step(s, e).book.writeChain;
    if q <= r {
      var k :| 0 <= k < |r| && r[k].FlipOf? && WriteOf(a) !in r[..k];
      if |q| <= k {
        FlipAppended(s, e, k);
      } else {
        assert q[..k] == r[..k] && q[k] == r[k];
      }
    } else {
      FlipBeforeShrinks(q, WriteOf(a));
    }
  }

  lemma OvertakableBefore(s: State, e: Event, c: nat, a: nat)
    requires Sound(s) && Shaped(s.book) && Enabled(s, e) && Awaits(s, c, a) && Awaits(Step(s, e), c, a)
    requires a < |s.book.attempts| && Unwritten(s.book.attempts[a].phase) && !Covered(s.book, a)
    requires a < |Step(s, e).book.attempts|
    requires Unwritten(Step(s, e).book.attempts[a].phase) && Overtakable(Step(s, e), a)
    ensures Overtakable(s, a)
  {
    var x := s.book.attempts[a];
    StepKeepsNumber(s, e, a);
    StepSuperseded(s, e, x);
    if Superseded(Step(s, e).book, x) && !Superseded(s.book, x) {
      SupersedingBefore(s, e, c, a);
    } else if FlipBefore(Step(s, e).book.writeChain, WriteOf(a)) {
      if AtHead(s.book, a) {
        HeadMovesOn(s, e, a);
      } else {
        NoNewFlip(s, e, c, a);
      }
    } else if !Superseded(s.book, x) {
      NoNewLateImport(s, e, c, a, x.gen);
    }
  }

  lemma SupersedingBefore(s: State, e: Event, c: nat, a: nat)
    requires Sound(s) && Enabled(s, e) && Awaits(s, c, a) && a < |s.book.attempts| && !Covered(s.book, a)
    requires !Superseded(s.book, s.book.attempts[a]) && Superseded(Step(s, e).book, s.book.attempts[a])
    ensures Overtakable(s, a)
  {
    var x := s.book.attempts[a];
    StepSuperseded(s, e, x);
    if e.WriteFinish? {
      BumpCovers(s, a);
    } else {
      LifecycleExcluded(s, e, c, a);
      if e.ResetRun? {
        assert s.book.writeChain[..0] == [] && s.book.writeChain[0].FlipOf?;
      } else {
        assert Passes(s.calls[e.call], x.gen);
      }
    }
  }

  lemma PhaseBefore(s: State, e: Event, a: nat)
    requires Sound(s) && Enabled(s, e) && a < |s.book.attempts| && a < |Step(s, e).book.attempts|
    ensures Unwritten(Step(s, e).book.attempts[a].phase) ==> Unwritten(s.book.attempts[a].phase)
    ensures Step(s, e).book.attempts[a].phase == Done(Skipped) ==>
      || s.book.attempts[a].phase == Done(Skipped)
      || (s.book.attempts[a].phase.InLine? && Superseded(s.book, s.book.attempts[a]))
  {
    if !TouchesBook(e) {
      OthersKeepBook(s, e);
    }
  }

  lemma HeadMovesOn(s: State, e: Event, a: nat)
    requires Enabled(s, e) && AtHead(s.book, a) && a < |s.book.attempts| && s.book.attempts[a].phase.InLine?
    requires a < |Step(s, e).book.attempts| && Unwritten(Step(s, e).book.attempts[a].phase)
    ensures Step(s, e).book.writeChain == [] || Step(s, e).book.writeChain[0] == WriteOf(a)
    ensures !FlipBefore(Step(s, e).book.writeChain, WriteOf(a))
  {
    ChainStep(s, e);
    var r := Step(s, e).book.writeChain;
    if s.book.writeChain <= r {
      forall k | 0 < k < |r| ensures WriteOf(a) in r[..k] {
        assert r[..k][0] == WriteOf(a);
      }
    }
  }

  lemma RiskBefore(s: State, e: Event, c: nat, a: nat)
    requires Sound(s) && Shaped(s.book) && Enabled(s, e) && a < |s.book.attempts|
    requires Awaits(Step(s, e), c, a) && AtRisk(Step(s, e), a)
    ensures Awaits(s, c, a) && AtRisk(s, a)
  {
    AwaitsBefore(s, e, c, a);
    PhaseBefore(s, e, a);
    if Covered(s.book, a) {
      StepCovered(s, e, a);
    } else if Unwritten(Step(s, e).book.attempts[a].phase) {
      ReadableBefore(s, e, a);
      OvertakableBefore(s, e, c, a);
    }
  }

  lemma UnsavedBefore(s: State, e: Event, c: nat, a: nat)
    requires Sound(s) && Enabled(s, e) && ReleasedUnsaved(Step(s, e), c, a)
    ensures ReleasedUnsaved(s, c, a) || (Awaits(s, c, a) && AtRisk(s, a))
  {
    PositiveBefore(s, e, c, a);
    if Covered(s.book, a) {
      StepCovered(s, e, a);
    }
  }

  /** What ends unsaved was unsaved or at risk all along. */
  lemma {:induction false} RunUnsavedBefore(s: State, es: seq<Event>, c: nat, a: nat)
    requires Sound(s) && Shaped(s.book) && Valid(s, es) && a < |s.book.attempts|
    requires var t := Run(s, es); ReleasedUnsaved(t, c, a) || (Awaits(t, c, a) && AtRisk(t, a))
    ensures ReleasedUnsaved(s, c, a) || (Awaits(s, c, a) && AtRisk(s, a))
    decreases |es|
  {
    if es != [] {
      var t := Step(s, es[0]);
      StepSound(s, es[0]);
      StepShaped(s, es[0]);
      AttemptsStep(s, es[0]);
      RunUnsavedBefore(t, es[1..], c, a);
      if ReleasedUnsaved(t, c, a) {
        UnsavedBefore(s, es[0], c, a);
      } else {
        RiskBefore(s, es[0], c, a);
      }
    }
  }

  // ---------------------------------------------------------------------------
  // Then some continuation releases it unsaved
  // ---------------------------------------------------------------------------

  /** Call `c` waits for attempt `a`, which is exported and `k` places from its check, and
      will be superseded there. */
  ghost predicate Doomed(s: State, c: nat, a: nat, k: nat) {
    && Steady(s)
    && Awaits(s, c, a) && a < |s.book.attempts| && !Covered(s.book, a)
    && s.book.attempts[a].phase.InLine?
    && k < |s.book.writeChain| && s.book.writeChain[k] == WriteOf(a)
    && (Superseded(s.book, s.book.attempts[a]) || FlipBefore(s.book.writeChain, WriteOf(a)))
  }

  /** The front of the write chain, which is not `a`, moves without landing. */
  function FrontEvent(b: Book): Event
    requires HeadWrite(b) || HeadFlip(b)
  {
    if HeadFlip(b) then ResetRun else NextEvent(b)
  }

  lemma FrontEnabled(s: State, c: nat, a: nat, k: nat)
    requires Doomed(s, c, a, k) && 0 < k
    ensures HeadWrite(s.book) || HeadFlip(s.book)
    ensures Enabled(s, FrontEvent(s.book)) && !AtHead(s.book, a)
  {
    var q := s.book.writeChain;
    assert q[0].WriteOf? ==> q[0] != q[k];
  }

  lemma FrontLeavesCall(s: State, c: nat, a: nat, k: nat)
    requires Doomed(s, c, a, k) && 0 < k && Enabled(s, FrontEvent(s.book))
    ensures var t := Step(s, FrontEvent(s.book));
      && Awaits(t, c, a) && t.book.landed == s.book.landed
      && a < |t.book.attempts| && t.book.attempts[a].phase.InLine?
  {
    FrontEnabled(s, c, a, k);
  }

  lemma FrontShortens(s: State, c: nat, a: nat, k: nat)
    requires Doomed(s, c, a, k) && 0 < k && Enabled(s, FrontEvent(s.book))
    ensures var q, x := s.book.writeChain, Step(s, FrontEvent(s.book)).book;
      || x.writeChain == q[1..]
      || (x.writeChain == q && HeadWrite(s.book) && HeadPhase(s.book).InLine? && HeadWrite(x) && HeadPhase(x).Writing?)
  {
    FrontEnabled(s, c, a, k);
  }

  lemma DoomStays(s: State, c: nat, a: nat, k: nat)
    requires Doomed(s, c, a, k) && 0 < k && Enabled(s, FrontEvent(s.book))
    ensures var t := Step(s, FrontEvent(s.book));
      Doomed(t, c, a, if t.book.writeChain == s.book.writeChain then k else k - 1)
  {
    var e := FrontEvent(s.book);
    FrontEnabled(s, c, a, k);
    FrontLeavesCall(s, c, a, k);
    FrontShortens(s, c, a, k);
    StepSteady(s, e);
    StepKeepsNumber(s, e, a);
    StepSuperseded(s, e, s.book.attempts[a]);
    if FlipBefore(s.book.writeChain, WriteOf(a)) {
      FlipStays(s, e, a);
    }
  }

  lemma NoFlipBeforeFront(q: seq<WriteTask>, a: nat)
    requires q != [] && q[0] == WriteOf(a)
    ensures !FlipBefore(q, WriteOf(a))
  {
    forall k | 0 < k < |q| ensures WriteOf(a) in q[..k] {
      assert q[..k][0] == WriteOf(a);
    }
  }

  /** The skipped flush settles and its caller is released. */
  lemma SettleSkipped(s: State, c: nat, a: nat)
    requires Lined(s) && Awaits(s, c, a) && a < |s.book.attempts|
    requires s.book.attempts[a].phase == Done(Skipped) && !Covered(s.book, a)
    ensures Enabled(s, ChainSettle) && ReleasedUnsaved(Step(s, ChainSettle), c, a)
  {
    assert AtFront(s, c);
  }

  lemma SkipAndSettle(s: State, c: nat, a: nat) returns (es: seq<Event>)
    requires Doomed(s, c, a, 0)
    ensures Valid(s, es) && ReleasedUnsaved(Run(s, es), c, a)
  {
    NoFlipBeforeFront(s.book.writeChain, a);
    var t := Step(s, WriteCheck);
    StepLined(s, WriteCheck);
    SettleSkipped(t, c, a);
    OneStep(t, ChainSettle);
    RunCons(s, WriteCheck, [ChainSettle]);
    es := [WriteCheck] + [ChainSettle];
  }

  lemma {:induction false} ReleaseFrom(s: State, c: nat, a: nat, k: nat) returns (es: seq<Event>)
    requires Doomed(s, c, a, k)
    ensures Valid(s, es) && ReleasedUnsaved(Run(s, es), c, a)
    decreases k, if HeadWrite(s.book) && HeadPhase(s.book).InLine? then 1 else 0
  {
    if k == 0 {
      es := SkipAndSettle(s, c, a);
    } else {
      FrontEnabled(s, c, a, k);
      FrontShortens(s, c, a, k);
      DoomStays(s, c, a, k);
      var e := FrontEvent(s.book);
      var t := Step(s, e);
      es := ReleaseFrom(t, c, a, if t.book.writeChain == s.book.writeChain then k else k - 1);
      RunCons(s, e, es);
      es := [e] + es;
    }
  }

  /** As `Doomed`, before the attempt is queued. */
  ghost predicate Failing(s: State, c: nat, a: nat) {
    && Steady(s)
    && Awaits(s, c, a) && a < |s.book.attempts| && !Covered(s.book, a)
    && Unwritten(s.book.attempts[a].phase) && Readable(s, a)
    && (Superseded(s.book, s.book.attempts[a]) || FlipBefore(s.book.writeChain, WriteOf(a)))
  }

  lemma FailingStays(s: State, e: Event, c: nat, a: nat)
    requires Failing(s, c, a) && Enabled(s, e) && (e == ExportRead(a) || e == ExportReturn(a))
    ensures Failing(Step(s, e), c, a)
  {
    StepSteady(s, e);
    StepKeepsNumber(s, e, a);
    StepSuperseded(s, e, s.book.attempts[a]);
    if FlipBefore(s.book.writeChain, WriteOf(a)) {
      FlipStays(s, e, a);
    }
  }

  lemma ReleaseFailing(s: State, c: nat, a: nat) returns (es: seq<Event>)
    requires Failing(s, c, a)
    ensures Valid(s, es) && ReleasedUnsaved(Run(s, es), c, a)
    decreases if s.book.attempts[a].phase.Requested? then 2 else if s.book.attempts[a].phase.ReadOut? then 1 else 0
  {
    if s.book.attempts[a].phase.InLine? {
      var k :| 0 <= k < |s.book.writeChain| && s.book.writeChain[k] == WriteOf(a);
      es := ReleaseFrom(s, c, a, k);
    } else {
      var e := if s.book.attempts[a].phase.Requested? then ExportRead(a) else ExportReturn(a);
      FailingStays(s, e, c, a);
      es := ReleaseFailing(Step(s, e), c, a);
      RunCons(s, e, es);
      es := [e] + es;
    }
  }

  lemma ImportKeepsWaiting(s: State, e: Event, c: nat, a: nat)
    requires Enabled(s, e) && (e.ImportApply? || e.ImportReturn?) && Awaits(s, c, a)
    ensures Awaits(Step(s, e), c, a)
    ensures Step(s, e).book.attempts == s.book.attempts && Step(s, e).book.landed == s.book.landed
    ensures s.worker.Keys <= Step(s, e).worker.Keys
  {
  }

  /** The abandoned import of call `d` returns and raises the mark past attempt `a`. */
  lemma ImportPasses(s: State, c: nat, a: nat, d: nat)
    requires Steady(s) && Awaits(s, c, a)
    requires a < |s.book.attempts| && !Covered(s.book, a) && Unwritten(s.book.attempts[a].phase) && Readable(s, a)
    requires d < |s.calls| && s.calls[d].body.Imported? && s.book.attempts[a].gen <= s.calls[d].body.gen
    ensures Enabled(s, ImportReturn(d)) && Failing(Step(s, ImportReturn(d)), c, a)
  {
    var e := ImportReturn(d);
    StepSteady(s, e);
    ImportKeepsWaiting(s, e, c, a);
    StepSuperseded(s, e, s.book.attempts[a]);
  }

  lemma ReleaseAfterReturn(s: State, c: nat, a: nat, d: nat) returns (es: seq<Event>)
    requires Steady(s) && Awaits(s, c, a)
    requires a < |s.book.attempts| && !Covered(s.book, a) && Unwritten(s.book.attempts[a].phase) && Readable(s, a)
    requires d < |s.calls| && s.calls[d].body.Imported? && s.book.attempts[a].gen <= s.calls[d].body.gen
    ensures Valid(s, es) && ReleasedUnsaved(Run(s, es), c, a)
  {
    ImportPasses(s, c, a, d);
    es := ReleaseFailing(Step(s, ImportReturn(d)), c, a);
    RunCons(s, ImportReturn(d), es);
    es := [ImportReturn(d)] + es;
  }

  lemma ReleaseAfterImport(s: State, c: nat, a: nat, d: nat) returns (es: seq<Event>)
    requires Steady(s) && Awaits(s, c, a)
    requires a < |s.book.attempts| && !Covered(s.book, a) && Unwritten(s.book.attempts[a].phase) && Readable(s, a)
    requires d < |s.calls| && s.calls[d].body.Importing?
    ensures Valid(s, es) && ReleasedUnsaved(Run(s, es), c, a)
  {
    var e := ImportApply(d, Max(s.calls[d].body.floor, s.book.attempts[a].gen), {});
    StepSteady(s, e);
    ImportKeepsWaiting(s, e, c, a);
    es := ReleaseAfterReturn(Step(s, e), c, a, d);
    RunCons(s, e, es);
    es := [e] + es;
  }

  lemma ReleaseAtRisk(s: State, c: nat, a: nat) returns (es: seq<Event>)
    requires Steady(s) && Awaits(s, c, a) && AtRisk(s, a)
    ensures Valid(s, es) && ReleasedUnsaved(Run(s, es), c, a)
  {
    if s.book.attempts[a].phase == Done(Skipped) {
      SettleSkipped(s, c, a);
      OneStep(s, ChainSettle);
      es := [ChainSettle];
    } else if Failing(s, c, a) {
      es := ReleaseFailing(s, c, a);
    } else {
      var d :| 0 <= d < |s.calls| && Passes(s.calls[d], s.book.attempts[a].gen);
      if s.calls[d].body.Importing? {
        es := ReleaseAfterImport(s, c, a, d);
      } else {
        es := ReleaseAfterReturn(s, c, a, d);
      }
    }
  }

  ghost predicate MayBeReleasedUnsaved(s: State, c: nat, a: nat) {
    exists es :: Valid(s, es) && ReleasedUnsaved(Run(s, es), c, a)
  }

  /** The exact condition of persist-before-release.  In every reachable state, a call that
      waits for its flush can be released with neither that flush nor a later one durable if
      and only if the flush is at risk: only an abandoned import or reset puts it there. */
  lemma UnsavedExactlyWhen(s: State, c: nat, a: nat)
    requires Reachable(s) && Awaits(s, c, a)
    ensures MayBeReleasedUnsaved(s, c, a) <==> AtRisk(s, a)
  {
    ReachableSound(s);
    ReachableShaped(s);
    ReachableFlipsWait(s);
    AwaitedExists(s, c, a);
    if AtRisk(s, a) {
      var es := ReleaseAtRisk(s, c, a);
    } else {
      forall es | Valid(s, es) ensures !ReleasedUnsaved(Run(s, es), c, a) {
        if ReleasedUnsaved(Run(s, es), c, a) {
          RunUnsavedBefore(s, es, c, a);
        }
      }
    }
  }

  lemma AwaitedExists(s: State, c: nat, a: nat)
    requires Linked(s) && Awaits(s, c, a)
    ensures a < |s.book.attempts|
  {
    assert LinkedCall(s, c) && Uses(s.calls[c].body, a);
  }

  lemma ReachableFlipsWait(s: State)
    requires Reachable(s)
    ensures FlipsWait(s)
  {
    var start, es :| Initial(start) && Valid(start, es) && Run(start, es) == s;
    RunFlipsWait(start, es);
  }
}
