/** Persist before release: what it means for the row that a caller got its result. */
module Release {
  import opened Persistence
  import opened Identities
  import opened FlushOrder

  // ---------------------------------------------------------------------------
  // The log of durable writes
  // ---------------------------------------------------------------------------

  /** Attempt `a` or a later one has become durable. */
  predicate Covered(b: Book, a: nat) { b.landed != [] && a <= b.landed[|b.landed| - 1].attempt }

  predicate WroteOrLanded(p: Phase) { p.Landed? || p == Done(Wrote) }

  /** A write between its landing and its bump is the last of the log, the log names only
      attempts that wrote, and it has reached all of them. */
  ghost predicate Logged(b: Book) {
    && (forall a: nat :: a < |b.attempts| && b.attempts[a].phase.Landed? ==>
          b.landed != [] && b.landed[|b.landed| - 1].attempt == a)
    && (forall i :: 0 <= i < |b.landed| ==>
          b.landed[i].attempt < |b.attempts| && WroteOrLanded(b.attempts[b.landed[i].attempt].phase))
    && (forall a: nat :: a < |b.attempts| && WroteOrLanded(b.attempts[a].phase) ==> Covered(b, a))
  }

  lemma SetPhaseLogged(b: Book, a: nat, p: Phase)
    requires Logged(b) && a < |b.attempts| && !WroteOrLanded(b.attempts[a].phase) && !WroteOrLanded(p)
    ensures Logged(SetPhase(b, a, p))
  {
  }

  lemma LandLogged(b: Book)
    requires Inv(b) && Logged(b) && HeadWrite(b) && HeadPhase(b).Writing?
    ensures Logged(Land(b))
  {
    LandInv(b);
    var a := b.writeChain[0].attempt;
    forall x: nat | x < |b.attempts| && b.attempts[x].phase.Landed? ensures x == a {
      assert AtHead(b, x);
    }
  }

  lemma FinishLogged(b: Book)
    requires Logged(b) && HeadWrite(b) && HeadPhase(b).Landed?
    ensures Logged(FinishWrite(b))
  {
  }

  lemma SameLogged(b: Book, x: Book)
    requires Logged(b) && x.landed == b.landed && |b.attempts| <= |x.attempts|
    requires forall a :: 0 <= a < |b.attempts| ==> x.attempts[a].phase == b.attempts[a].phase
    requires forall a :: |b.attempts| <= a < |x.attempts| ==> !WroteOrLanded(x.attempts[a].phase)
    ensures Logged(x)
  {
  }

  lemma PhaseLogged(s: State, e: Event)
    requires Logged(s.book) && Enabled(s, e)
    requires e.ExportRead? || e.ExportFail? || e.ExportReturn? || e.WriteCheck? || e.WriteFail?
    ensures Logged(Step(s, e).book)
  {
    var b, x := s.book, Step(s, e).book;
    var a := if e.WriteCheck? || e.WriteFail? then b.writeChain[0].attempt else e.attempt;
    SetPhaseLogged(b, a, x.attempts[a].phase);
    SameLogged(SetPhase(b, a, x.attempts[a].phase), x);
  }

  lemma StepLogged(s: State, e: Event)
    requires Inv(s.book) && Logged(s.book) && Enabled(s, e)
    ensures Logged(Step(s, e).book)
  {
    if e.ExportRead? || e.ExportFail? || e.ExportReturn? || e.WriteCheck? || e.WriteFail? {
      PhaseLogged(s, e);
    } else if e.WriteLand? {
      LandLogged(s.book);
    } else if e.WriteFinish? {
      FinishLogged(s.book);
    } else {
      SameLogged(s.book, Step(s, e).book);
    }
  }

  /** Coverage is never lost: durable writes happen in issue order. */
  lemma StepCovered(s: State, e: Event, a: nat)
    requires Inv(s.book) && Enabled(s, e) && Covered(s.book, a)
    ensures Covered(Step(s, e).book, a)
  {
    StepInv(s, e);
    if !TouchesBook(e) {
      OthersKeepBook(s, e);
    }
  }

  lemma {:induction false} RunCovered(s: State, es: seq<Event>, a: nat)
    requires Inv(s.book) && Valid(s, es) && Covered(s.book, a)
    ensures Covered(Run(s, es).book, a)
    decreases |es|
  {
    if es != [] {
      StepInv(s, es[0]);
      StepCovered(s, es[0], a);
      RunCovered(Step(s, es[0]), es[1..], a);
    }
  }

  // ---------------------------------------------------------------------------
  // A flush someone waits for
  // ---------------------------------------------------------------------------

  predicate Flushes(b: Body, a: nat) { b == Flushing(a) || (b.AbortFlushing? && b.second == a) }

  /** Call `c` waits for attempt `a`. */
  predicate Awaits(s: State, c: nat, a: nat) { c < |s.calls| && s.calls[c].live && Flushes(s.calls[c].body, a) }

  /** The import's bump or the reset's flip of an abandoned body. */
  predicate LateEffect(s: State, e: Event)
    requires Enabled(s, e)
  {
    match e
    case ImportReturn(c) => !s.calls[c].live
    case ResetRun => !s.calls[s.book.writeChain[0].call].live
    case _ => false
  }

  /** While a call waits for its flush, only an abandoned import or reset can take
      effect: one still waited for would be the front of the chain itself. */
  lemma LifecycleExcluded(s: State, e: Event, c: nat, a: nat)
    requires Lined(s) && Enabled(s, e) && (e.ImportReturn? || e.ResetRun?) && Awaits(s, c, a)
    ensures LateEffect(s, e)
  {
    assert AtFront(s, c);
  }

  /** A waited-for attempt belongs to the epoch, and is above the mark unless it or a
      later one is durable; answered well, it or a later one is durable. */
  predicate Pending(b: Book, a: nat) {
    && a < |b.attempts|
    && b.attempts[a].epoch == b.epoch
    && (b.current < b.attempts[a].gen || Covered(b, a))
    && (Good(b, a) ==> Covered(b, a))
  }

  lemma IssuePending(b: Book, id: Identity, content: Content)
    requires Inv(b)
    ensures Pending(Issue(b, id, content), |b.attempts|)
  {
  }

  lemma CheckPending(b: Book, a: nat)
    requires Inv(b) && HeadWrite(b) && HeadPhase(b).InLine? && Pending(b, a)
    ensures Pending(CheckWrite(b), a)
  {
  }

  lemma FinishPending(b: Book, a: nat)
    requires Inv(b) && Logged(b) && HeadWrite(b) && HeadPhase(b).Landed? && Pending(b, a)
    ensures Pending(FinishWrite(b), a)
  {
    var x := b.writeChain[0].attempt;
    if b.attempts[a].gen <= b.attempts[x].gen {
      LaterIfHigher(b, a, x);
    }
  }

  /** Moves that neither raise the mark nor settle `a` well. */
  lemma SamePending(b: Book, x: Book, a: nat)
    requires Pending(b, a) && a < |x.attempts| && SameNumber(x.attempts[a], b.attempts[a])
    requires x.epoch == b.epoch && x.current == b.current
    requires Covered(b, a) ==> Covered(x, a)
    requires Good(x, a) ==> Good(b, a)
    ensures Pending(x, a)
  {
  }

  lemma StepPending(s: State, e: Event, a: nat)
    requires Inv(s.book) && Logged(s.book) && Enabled(s, e) && !e.ImportReturn? && !e.ResetRun? && Pending(s.book, a)
    ensures Pending(Step(s, e).book, a)
  {
    if e.WriteCheck? {
      CheckPending(s.book, a);
    } else if e.WriteFinish? {
      FinishPending(s.book, a);
    } else {
      if Covered(s.book, a) {
        StepCovered(s, e, a);
      }
      StepKeepsNumber(s, e, a);
      SamePending(s.book, Step(s, e).book, a);
    }
  }

  /** A call waits for an attempt because it waited before, or it has just issued it. */
  lemma AwaitsBefore(s: State, e: Event, c: nat, a: nat)
    requires Enabled(s, e) && Awaits(Step(s, e), c, a)
    ensures c < |s.calls|
    ensures Awaits(s, c, a) || (a == |s.book.attempts| && Step(s, e).book == IssueFor(s, c))
  {
  }

  lemma OnlySettlingAnswers(s: State, e: Event, c: nat)
    requires Enabled(s, e) && !e.ChainSettle? && c < |Step(s, e).calls| && Positive(Step(s, e).calls[c].body)
    ensures c < |s.calls| && Step(s, e).calls[c].body == s.calls[c].body
  {
  }

  /** A call is answered well because it was before, or because the attempt it waited for
      has settled well. */
  lemma PositiveBefore(s: State, e: Event, c: nat, a: nat)
    requires Lined(s) && Enabled(s, e) && c < |Step(s, e).calls|
    requires Positive(Step(s, e).calls[c].body) && Uses(Step(s, e).calls[c].body, a)
    ensures c < |s.calls|
    ensures (Positive(s.calls[c].body) && Uses(s.calls[c].body, a))
      || (Awaits(s, c, a) && Good(s.book, a) && Step(s, e).book == s.book)
  {
    if !e.ChainSettle? {
      OnlySettlingAnswers(s, e, c);
    }
  }

  /** Calls that wait for, or were answered by, attempts numbered `n` and up. */
  ghost predicate Backed(s: State, n: nat) {
    && (forall c: nat, a: nat :: Awaits(s, c, a) && n <= a ==> Pending(s.book, a))
    && (forall c: nat, a: nat :: c < |s.calls| && Positive(s.calls[c].body) && Uses(s.calls[c].body, a) && n <= a ==>
          Covered(s.book, a))
  }

  ghost predicate Sound(s: State) { Inv(s.book) && Logged(s.book) && Lined(s) && Linked(s) && Minting(s) }

  lemma StepSound(s: State, e: Event)
    requires Sound(s) && Enabled(s, e)
    ensures Sound(Step(s, e))
  {
    StepInv(s, e);
    StepLogged(s, e);
    StepLined(s, e);
    StepLinked(s, e);
    StepMinting(s, e);
  }

  lemma {:induction false} RunSound(s: State, es: seq<Event>)
    requires Sound(s) && Valid(s, es)
    ensures Sound(Run(s, es))
    decreases |es|
  {
    if es != [] {
      StepSound(s, es[0]);
      RunSound(Step(s, es[0]), es[1..]);
    }
  }

  lemma StepBacked(s: State, n: nat, e: Event)
    requires Sound(s) && Backed(s, n) && Enabled(s, e) && !LateEffect(s, e)
    ensures Backed(Step(s, e), n)
  {
    var t := Step(s, e);
    forall c: nat, a: nat | Awaits(t, c, a) && n <= a ensures Pending(t.book, a) {
      AwaitsBefore(s, e, c, a);
      if Awaits(s, c, a) {
        if e.ImportReturn? || e.ResetRun? {
          LifecycleExcluded(s, e, c, a);
        } else {
          StepPending(s, e, a);
        }
      } else {
        IssuePending(s.book, s.calls[c].identity, ContentOf(s.worker, s.calls[c].identity));
      }
    }
    forall c: nat, a: nat | c < |t.calls| && Positive(t.calls[c].body) && Uses(t.calls[c].body, a) && n <= a
      ensures Covered(t.book, a)
    {
      PositiveBefore(s, e, c, a);
      if Positive(s.calls[c].body) && Uses(s.calls[c].body, a) {
        StepCovered(s, e, a);
      }
    }
  }

  /** No abandoned import or reset takes effect. */
  predicate NoLateEffect(s: State, es: seq<Event>)
    requires Valid(s, es)
    decreases |es|
  {
    es == [] || (!LateEffect(s, es[0]) && NoLateEffect(Step(s, es[0]), es[1..]))
  }

  lemma {:induction false} RunBacked(s: State, n: nat, es: seq<Event>)
    requires Sound(s) && Backed(s, n) && Valid(s, es) && NoLateEffect(s, es)
    ensures Backed(Run(s, es), n)
    decreases |es|
  {
    if es != [] {
      StepBacked(s, n, es[0]);
      StepSound(s, es[0]);
      RunBacked(Step(s, es[0]), n, es[1..]);
    }
  }

  lemma BackedAtOnce(s: State)
    requires Linked(s)
    ensures Backed(s, |s.book.attempts|)
  {
    forall c: nat, a: nat | c < |s.calls| && (Uses(s.calls[c].body, a) || Awaits(s, c, a))
      ensures a < |s.book.attempts|
    {
      assert LinkedCall(s, c) && (Awaits(s, c, a) ==> Uses(s.calls[c].body, a));
    }
  }

  lemma InitialSound(s: State)
    requires Initial(s)
    ensures Sound(s) && Backed(s, 0)
  {
  }

  ghost predicate Reachable(s: State) {
    exists start, es :: Initial(start) && Valid(start, es) && Run(start, es) == s
  }

  lemma ReachableOnward(s: State, es: seq<Event>)
    requires Reachable(s) && Valid(s, es)
    ensures Reachable(Run(s, es))
  {
    var start, fs :| Initial(start) && Valid(start, fs) && Run(start, fs) == s;
    RunConcat(start, fs, es);
  }

  lemma ReachableSound(s: State)
    requires Reachable(s)
    ensures Sound(s)
  {
    var start, es :| Initial(start) && Valid(start, es) && Run(start, es) == s;
    InitialSound(start);
    RunSound(start, es);
  }

  // ---------------------------------------------------------------------------
  // Exactly when a waited-for flush is overtaken unsaved
  // ---------------------------------------------------------------------------

  /** An abandoned import raises the mark to `x`'s number, or an abandoned reset flips. */
  predicate OvertakesLate(s: State, e: Event, x: Attempt)
    requires Enabled(s, e)
  {
    LateEffect(s, e) && (e.ImportReturn? ==> x.gen <= s.calls[e.call].body.gen)
  }

  predicate OvertakenLate(s: State, es: seq<Event>, x: Attempt)
    requires Valid(s, es)
    decreases |es|
  {
    es != [] && (OvertakesLate(s, es[0], x) || OvertakenLate(Step(s, es[0]), es[1..], x))
  }

  /** An attempt that is not superseded becomes so by a reset, by an import with such a
      number, or by the bump of a write with such a number. */
  lemma StepSuperseded(s: State, e: Event, x: Attempt)
    requires Enabled(s, e) && x.epoch <= s.book.epoch
    ensures x.epoch <= Step(s, e).book.epoch
    ensures Superseded(Step(s, e).book, x) <==>
      || Superseded(s.book, x)
      || e.ResetRun?
      || (e.ImportReturn? && x.gen <= s.calls[e.call].body.gen)
      || (e.WriteFinish? && x.gen <= s.book.attempts[s.book.writeChain[0].attempt].gen)
  {
    if !TouchesBook(e) {
      OthersKeepBook(s, e);
    }
  }

  lemma StepKeepsNumber(s: State, e: Event, a: nat)
    requires Enabled(s, e) && a < |s.book.attempts|
    ensures a < |Step(s, e).book.attempts|
    ensures Step(s, e).book.attempts[a].epoch == s.book.attempts[a].epoch
    ensures Step(s, e).book.attempts[a].gen == s.book.attempts[a].gen
  {
    if !TouchesBook(e) {
      OthersKeepBook(s, e);
    }
  }

  /** A call that waits for an old attempt at the end waited for it all along. */
  lemma {:induction false} AwaitedThroughout(s: State, es: seq<Event>, c: nat, a: nat)
    requires Valid(s, es) && a < |s.book.attempts| && Awaits(Run(s, es), c, a)
    ensures Awaits(s, c, a)
    decreases |es|
  {
    if es != [] {
      AttemptsStep(s, es[0]);
      AwaitedThroughout(Step(s, es[0]), es[1..], c, a);
      AwaitsBefore(s, es[0], c, a);
    }
  }

  lemma BumpCovers(s: State, a: nat)
    requires Sound(s) && Enabled(s, WriteFinish) && a < |s.book.attempts|
    requires s.book.attempts[a].epoch == s.book.epoch
    requires s.book.attempts[a].gen <= s.book.attempts[s.book.writeChain[0].attempt].gen
    ensures Covered(s.book, a)
  {
    LaterIfHigher(s.book, a, s.book.writeChain[0].attempt);
  }

  lemma {:induction false} StaysSuperseded(s: State, es: seq<Event>, x: Attempt)
    requires Valid(s, es) && x.epoch <= s.book.epoch && Superseded(s.book, x)
    ensures Superseded(Run(s, es).book, x)
    decreases |es|
  {
    if es != [] {
      StepSuperseded(s, es[0], x);
      StaysSuperseded(Step(s, es[0]), es[1..], x);
    }
  }

  predicate SameNumber(x: Attempt, y: Attempt) { x.epoch == y.epoch && x.gen == y.gen }

  /** The exact condition of the write-time check for a flush that a call waits for, over
      every run: unless it or a later export is already durable, it is superseded if and
      only if an abandoned import or an abandoned reset overtook it. */
  lemma {:induction false} SupersededExactlyWhen(s: State, es: seq<Event>, c: nat, a: nat, x: Attempt)
    requires Sound(s) && Valid(s, es) && Awaits(Run(s, es), c, a)
    requires a < |s.book.attempts| && SameNumber(x, s.book.attempts[a]) && !Superseded(s.book, x)
    ensures Covered(Run(s, es).book, a) || (Superseded(Run(s, es).book, x) <==> OvertakenLate(s, es, x))
    decreases |es|
  {
    if es != [] {
      var e, t := es[0], Step(s, es[0]);
      AwaitedThroughout(s, es, c, a);
      StepSound(s, e);
      StepKeepsNumber(s, e, a);
      StepSuperseded(s, e, x);
      if !Superseded(t.book, x) {
        SupersededExactlyWhen(t, es[1..], c, a, x);
      } else if e.WriteFinish? {
        BumpCovers(s, a);
        RunCovered(s, es, a);
      } else {
        LifecycleExcluded(s, e, c, a);
        StaysSuperseded(t, es[1..], x);
      }
    }
  }

  // ---------------------------------------------------------------------------
  // Runs in which no import or reset is abandoned
  // ---------------------------------------------------------------------------

  /** The step is not the timeout of an import or of a reset. */
  predicate Patient(s: State, e: Event)
    requires Enabled(s, e)
  {
    e.ChainTimeout? ==> !Lifecycle(s.calls[s.flushChain[0]].body)
  }

  predicate PatientRun(s: State, es: seq<Event>)
    requires Valid(s, es)
    decreases |es|
  {
    es == [] || (Patient(s, es[0]) && PatientRun(Step(s, es[0]), es[1..]))
  }

  /** Every import and reset under way has a waiting caller, a waited-for attempt is the
      last one, and a well answered call's own attempt wrote. */
  ghost predicate Attended(s: State) {
    && (forall c :: 0 <= c < |s.calls| && Lifecycle(s.calls[c].body) ==> s.calls[c].live)
    && (forall c: nat, a: nat :: Awaits(s, c, a) ==> a == |s.book.attempts| - 1)
    && (forall c: nat, a: nat :: c < |s.calls| && Positive(s.calls[c].body) && Uses(s.calls[c].body, a) ==>
          HasWritten(s.book, a))
  }

  predicate HasWritten(b: Book, a: nat) { a < |b.attempts| && b.attempts[a].phase == Done(Wrote) }

  lemma LifecycleBefore(s: State, e: Event)
    requires Enabled(s, e) && Patient(s, e)
    requires forall c :: 0 <= c < |s.calls| && Lifecycle(s.calls[c].body) ==> s.calls[c].live
    requires Lined(s)
    ensures var t := Step(s, e); forall c :: 0 <= c < |t.calls| && Lifecycle(t.calls[c].body) ==> t.calls[c].live
  {
  }

  lemma AttendedIsPrompt(s: State, e: Event)
    requires Attended(s) && Enabled(s, e)
    ensures !LateEffect(s, e)
  {
  }

  /** While a call waits for its attempt, no other is issued. */
  lemma NoneIssued(s: State, e: Event, c: nat, a: nat)
    requires Lined(s) && Attended(s) && Enabled(s, e) && Awaits(s, c, a)
    ensures |Step(s, e).book.attempts| == |s.book.attempts|
  {
    assert AtFront(s, c);
    if !TouchesBook(e) {
      OthersKeepBook(s, e);
    }
  }

  lemma WroteStays(s: State, e: Event, a: nat)
    requires Enabled(s, e) && HasWritten(s.book, a)
    ensures HasWritten(Step(s, e).book, a)
  {
    if !TouchesBook(e) {
      OthersKeepBook(s, e);
    }
  }

  lemma LastGoodWrote(s: State, c: nat, a: nat)
    requires Sound(s) && Backed(s, 0) && Attended(s) && Awaits(s, c, a) && Good(s.book, a)
    ensures HasWritten(s.book, a)
  {
    assert Pending(s.book, a);
    var last := s.book.landed[|s.book.landed| - 1];
    assert last.attempt < |s.book.attempts| && last.attempt == a;
  }

  lemma StepAttended(s: State, e: Event)
    requires Sound(s) && Backed(s, 0) && Attended(s) && Enabled(s, e) && Patient(s, e)
    ensures Attended(Step(s, e))
  {
    var t := Step(s, e);
    LifecycleBefore(s, e);
    forall c: nat, a: nat | Awaits(t, c, a) ensures a == |t.book.attempts| - 1 {
      AwaitsBefore(s, e, c, a);
      if Awaits(s, c, a) {
        NoneIssued(s, e, c, a);
      }
    }
    forall c: nat, a: nat | c < |t.calls| && Positive(t.calls[c].body) && Uses(t.calls[c].body, a)
      ensures HasWritten(t.book, a)
    {
      PositiveBefore(s, e, c, a);
      if Positive(s.calls[c].body) && Uses(s.calls[c].body, a) {
        WroteStays(s, e, a);
      } else {
        LastGoodWrote(s, c, a);
      }
    }
  }

  lemma {:induction false} RunAttended(s: State, es: seq<Event>)
    requires Sound(s) && Backed(s, 0) && Attended(s) && Valid(s, es) && PatientRun(s, es)
    ensures Sound(Run(s, es)) && Backed(Run(s, es), 0) && Attended(Run(s, es)) && NoLateEffect(s, es)
    decreases |es|
  {
    if es != [] {
      AttendedIsPrompt(s, es[0]);
      StepBacked(s, 0, es[0]);
      StepSound(s, es[0]);
      StepAttended(s, es[0]);
      RunAttended(Step(s, es[0]), es[1..]);
    }
  }

  /** Over every run with any number of epochs, imports and resets, none of them abandoned
      by its timeout: no flush that a caller is released on was skipped.  Its own attempt
      wrote, and the log of durable writes has reached it. */
  lemma ReleasedWrote(s: State, es: seq<Event>, c: nat)
    requires Initial(s) && Valid(s, es) && PatientRun(s, es)
    requires c < |Run(s, es).calls| && Positive(Run(s, es).calls[c].body)
    ensures var t := Run(s, es);
      forall a: nat :: Uses(t.calls[c].body, a) ==> HasWritten(t.book, a) && Covered(t.book, a)
    ensures NoLateEffect(s, es)
  {
    InitialSound(s);
    RunAttended(s, es);
  }

  lemma AllReleasedWrote(s: State, es: seq<Event>)
    requires Initial(s) && Valid(s, es) && PatientRun(s, es)
    ensures ReleasesWrote(Run(s, es))
  {
    InitialSound(s);
    RunAttended(s, es);
    AttendedWrote(Run(s, es));
  }

  /** Every released caller was released on a flush that wrote. */
  ghost predicate ReleasesWrote(s: State) {
    forall c :: 0 <= c < |s.calls| && s.calls[c].body.Released? ==> HasWritten(s.book, s.calls[c].body.via)
  }

  lemma AttendedWrote(s: State)
    requires Attended(s)
    ensures ReleasesWrote(s)
  {
    forall c: nat | c < |s.calls| && s.calls[c].body.Released? ensures HasWritten(s.book, s.calls[c].body.via) {
      assert Uses(s.calls[c].body, s.calls[c].body.via);
    }
  }

  /** The same for runs in which imports and resets may have been abandoned, as long as
      none of the abandoned ones takes effect from before the flush was issued until now: the
      flush, or a later one, is durable. */
  lemma ReleasedIsCovered(s: State, es: seq<Event>, c: nat, a: nat)
    requires Sound(s) && Valid(s, es) && NoLateEffect(s, es)
    requires c < |Run(s, es).calls| && Positive(Run(s, es).calls[c].body) && Uses(Run(s, es).calls[c].body, a)
    requires |s.book.attempts| <= a
    ensures Covered(Run(s, es).book, a)
  {
    BackedAtOnce(s);
    RunBacked(s, |s.book.attempts|, es);
  }

  // ---------------------------------------------------------------------------
  // What the row holds
  // ---------------------------------------------------------------------------

  /** The session is not cleared and the identity row not rewritten. */
  predicate Keeps(s: State, e: Event) {
    && !e.RowPut?
    && (e.WorkerApply? ==> e.call < |s.calls| && !s.calls[e.call].kind.Clear?)
  }

  predicate KeepsRun(s: State, es: seq<Event>)
    requires Valid(s, es)
    decreases |es|
  {
    es == [] || (Keeps(s, es[0]) && KeepsRun(Step(s, es[0]), es[1..]))
  }

  predicate Snapped(p: Phase) { p.ReadOut? || p.InLine? || p.Writing? || p.Landed? }

  /** The attempt exports at least what its identity's context held when it was issued. */
  predicate Faithful(x: Attempt, w: Worker) {
    x.base <= ContentOf(w, x.identity) && (Snapped(x.phase) ==> x.base <= x.phase.snap)
  }

  /** Attempts numbered `n` and up are faithful, and those of one identity never export less
      than an earlier one of it. */
  ghost predicate Grown(b: Book, n: nat, w: Worker) {
    && n <= |b.attempts|
    && (forall i :: n <= i < |b.attempts| ==> Faithful(b.attempts[i], w))
    && (forall i, k :: n <= i < k < |b.attempts| && b.attempts[i].identity == b.attempts[k].identity ==>
          b.attempts[i].base <= b.attempts[k].base)
  }

  /** Once an attempt numbered `n` or up is durable, the row holds the latest one. */
  ghost predicate RowHolds(b: Book, n: nat) {
    && b.row
    && (Covered(b, n) ==>
          && b.disk.Stored? && b.disk.src == b.landed[|b.landed| - 1].attempt < |b.attempts|
          && b.attempts[b.disk.src].base <= b.disk.snap)
  }

  lemma IssueGrown(b: Book, n: nat, w: Worker, id: Identity)
    requires Grown(b, n, w)
    ensures Grown(Issue(b, id, ContentOf(w, id)), n, w)
  {
  }

  lemma SameGrown(b: Book, x: Book, n: nat, w: Worker, v: Worker)
    requires Grown(b, n, w) && |x.attempts| == |b.attempts|
    requires forall i :: n <= i < |b.attempts| ==>
      && x.attempts[i].base == b.attempts[i].base && x.attempts[i].identity == b.attempts[i].identity
      && Faithful(x.attempts[i], v)
    ensures Grown(x, n, v)
  {
  }

  /** A step that does not clear the session keeps an attempt faithful. */
  lemma StepFaithful(s: State, e: Event, a: nat)
    requires Minting(s) && Enabled(s, e) && Keeps(s, e)
    requires a < |s.book.attempts| && Faithful(s.book.attempts[a], s.worker)
    ensures a < |Step(s, e).book.attempts| && Faithful(Step(s, e).book.attempts[a], Step(s, e).worker)
  {
    AttemptsStep(s, e);
    ContextGrows(s, e, s.book.attempts[a].identity);
    PhaseStep(s, e, a);
  }

  lemma PhaseStep(s: State, e: Event, a: nat)
    requires Enabled(s, e) && a < |s.book.attempts| && a < |Step(s, e).book.attempts|
    ensures var p, q := s.book.attempts[a].phase, Step(s, e).book.attempts[a].phase;
      Snapped(q) ==> q.snap == if Snapped(p) then p.snap else ContentOf(s.worker, s.book.attempts[a].identity)
  {
    if !TouchesBook(e) {
      OthersKeepBook(s, e);
    }
  }

  lemma AttemptsIssued(s: State, e: Event)
    requires Enabled(s, e) && |Step(s, e).book.attempts| != |s.book.attempts|
    ensures Step(s, e).worker == s.worker
    ensures exists c :: 0 <= c < |s.calls| && Step(s, e).book.attempts == IssueFor(s, c).attempts
  {
    if !TouchesBook(e) {
      OthersKeepBook(s, e);
    }
  }

  lemma StepGrown(s: State, n: nat, e: Event)
    requires Minting(s) && Grown(s.book, n, s.worker) && Enabled(s, e) && Keeps(s, e)
    ensures Grown(Step(s, e).book, n, Step(s, e).worker)
  {
    var t := Step(s, e);
    AttemptsStep(s, e);
    if |t.book.attempts| == |s.book.attempts| {
      forall a: nat | n <= a < |s.book.attempts| ensures Faithful(t.book.attempts[a], t.worker) {
        StepFaithful(s, e, a);
      }
      SameGrown(s.book, t.book, n, s.worker, t.worker);
    } else {
      AttemptsIssued(s, e);
      var c :| 0 <= c < |s.calls| && t.book.attempts == IssueFor(s, c).attempts;
      IssueGrown(s.book, n, s.worker, s.calls[c].identity);
    }
  }

  lemma StepRowHolds(s: State, n: nat, e: Event)
    requires Inv(s.book) && Grown(s.book, n, s.worker) && RowHolds(s.book, n) && Enabled(s, e) && Keeps(s, e)
    ensures RowHolds(Step(s, e).book, n)
  {
    if !TouchesBook(e) {
      OthersKeepBook(s, e);
    }
  }

  /** The context of the call's identity holds the token. */
  predicate InContext(s: State, c: nat, token: Token)
    requires c < |s.calls|
  {
    token in ContentOf(s.worker, s.calls[c].identity)
  }

  /** A call served by an attempt numbered `n` or up had its token in its context when that
      attempt was issued. */
  ghost predicate Served(s: State, n: nat, c: nat)
    requires c < |s.calls|
  {
    var token := Carries(s.calls[c].body, c);
    forall a: nat :: Uses(s.calls[c].body, a) && n <= a < |s.book.attempts| && InContext(s, c, token) ==>
      token in s.book.attempts[a].base
  }

  /** A context gains only the token of a call that is still in its worker call, or of an
      abort that is still outstanding. */
  lemma ContextGains(s: State, e: Event, c: nat, a: nat)
    requires Sound(s) && Enabled(s, e) && c < |s.calls| && c < |Step(s, e).calls| && Uses(s.calls[c].body, a)
    requires InContext(Step(s, e), c, Carries(s.calls[c].body, c))
    ensures InContext(s, c, Carries(s.calls[c].body, c))
  {
    assert LinkedCall(s, c) && Known(s, s.calls[c].identity);
    StepMoves(s, e, c);
    if !InContext(s, c, Carries(s.calls[c].body, c)) {
      OnlyOwnGain(s, e, s.calls[c].identity, Carries(s.calls[c].body, c));
    }
  }

  lemma OnlyOwnGain(s: State, e: Event, id: Identity, token: Token)
    requires Minting(s) && Enabled(s, e) && Known(s, id)
    requires token in ContentOf(Step(s, e).worker, id) && token !in ContentOf(s.worker, id)
    ensures (e.WorkerApply? && token == Mutation(e.call)) || (e.AbortApply? && token == Undo(e.call))
  {
    assert e.ImportApply? ==> BeforeMint(s.calls[e.call]);
  }

  lemma StepServed(s: State, n: nat, e: Event, c: nat)
    requires Sound(s) && Enabled(s, e) && c < |s.calls| && Served(s, n, c)
    ensures c < |Step(s, e).calls| && Served(Step(s, e), n, c)
  {
    UsesStep(s, e, c);
    AttemptsStep(s, e);
    StepMoves(s, e, c);
    assert LinkedCall(s, c);
    var t := Step(s, e);
    var token := Carries(t.calls[c].body, c);
    forall a: nat | Uses(t.calls[c].body, a) && n <= a < |t.book.attempts| && InContext(t, c, token)
      ensures token in t.book.attempts[a].base
    {
      if SameService(s, e, c, a) {
        ContextGains(s, e, c, a);
      }
    }
  }

  /** A call that went past its worker call is in its context. */
  predicate Counted(s: State, c: nat)
    requires c < |s.calls|
  {
    s.calls[c].body.Calling? || s.calls[c].body.Rejected? || s.calls[c].kind.Import? || s.calls[c].kind.Clear?
    || InContext(s, c, Mutation(c))
  }

  lemma AppliedIsCounted(s: State, e: Event, c: nat)
    requires Enabled(s, e) && BodyIs(s, c, Calling) && !s.calls[c].kind.Clear? && c < |Step(s, e).calls|
    requires Step(s, e).calls[c].body.Applied?
    ensures InContext(Step(s, e), c, Mutation(c))
  {
  }

  lemma StepCounted(s: State, e: Event, c: nat)
    requires Sound(s) && Enabled(s, e) && Keeps(s, e) && c < |s.calls| && Counted(s, c)
    ensures c < |Step(s, e).calls| && Counted(Step(s, e), c)
  {
    StepMoves(s, e, c);
    var x, y := s.calls[c], Step(s, e).calls[c];
    if x.body.Calling? && y.body.Applied? && !x.kind.Clear? {
      AppliedIsCounted(s, e, c);
    } else if !x.body.Calling? && !y.body.Rejected? && FlushKind(x.kind) {
      assert Known(s, x.identity);
      ContextGrows(s, e, x.identity);
    }
  }

  /** Since a moment with `n` attempts and `calls` calls. */
  ghost predicate Stretch(s: State, n: nat, calls: nat) {
    && Grown(s.book, n, s.worker) && RowHolds(s.book, n)
    && (forall c: nat :: c < |s.calls| ==> Served(s, n, c))
    && (forall c: nat :: calls <= c < |s.calls| ==> Counted(s, c) && Late(s, n, c))
  }

  lemma StepStretch(s: State, n: nat, calls: nat, e: Event)
    requires Sound(s) && Stretch(s, n, calls) && Enabled(s, e) && Keeps(s, e)
    ensures Stretch(Step(s, e), n, calls)
  {
    StepGrown(s, n, e);
    StepRowHolds(s, n, e);
    NewCalls(s, e);
    var t := Step(s, e);
    forall c: nat | c < |t.calls| ensures Served(t, n, c) {
      if c < |s.calls| {
        StepServed(s, n, e, c);
      }
    }
    forall c: nat | calls <= c < |t.calls| ensures Counted(t, c) && Late(t, n, c) {
      if c < |s.calls| {
        StepCounted(s, e, c);
      }
      StepLate(s, n, e, c);
    }
  }

  lemma {:induction false} RunStretch(s: State, n: nat, calls: nat, es: seq<Event>)
    requires Sound(s) && Stretch(s, n, calls) && Valid(s, es) && KeepsRun(s, es)
    ensures Stretch(Run(s, es), n, calls)
    decreases |es|
  {
    if es != [] {
      StepStretch(s, n, calls, es[0]);
      StepSound(s, es[0]);
      RunStretch(Step(s, es[0]), n, calls, es[1..]);
    }
  }

  lemma StretchBegins(s: State)
    requires Sound(s) && s.book.row
    ensures Stretch(s, |s.book.attempts|, |s.calls|)
  {
  }

  /** The row holds an export of the call's identity. */
  predicate RowNames(s: State, c: nat)
    requires c < |s.calls|
  {
    && s.book.disk.Stored? && s.book.disk.src < |s.book.attempts|
    && s.book.attempts[s.book.disk.src].identity == s.calls[c].identity
  }

  /** The row holds an export of the call's identity that includes the token. */
  predicate Saved(s: State, c: nat, token: Token)
    requires c < |s.calls|
  {
    RowNames(s, c) && token in s.book.disk.snap
  }

  /** A durable attempt is the row's or older, and its token is saved exactly if the row is
      its identity's. */
  lemma CoveredIsSaved(s: State, n: nat, calls: nat, c: nat, a: nat)
    requires Sound(s) && Stretch(s, n, calls) && c < |s.calls|
    requires Uses(s.calls[c].body, a) && n <= a && Covered(s.book, a)
    ensures s.book.disk.Stored? && a <= s.book.disk.src < |s.book.attempts|
    ensures InContext(s, c, Carries(s.calls[c].body, c)) ==>
      (Saved(s, c, Carries(s.calls[c].body, c)) <==> RowNames(s, c))
  {
    assert LinkedCall(s, c) && Served(s, n, c);
    var b := s.book;
    assert RowNames(s, c) && a < b.disk.src ==> b.attempts[a].base <= b.attempts[b.disk.src].base;
  }

  /** Call `c` was released by attempt `n` or a later one. */
  predicate ReleasedBy(s: State, c: nat, n: nat)
    requires c < |s.calls|
  {
    s.calls[c].body.Released? && n <= s.calls[c].body.via
  }

  /** Every call released by attempts `n` and up: the row holds its flush or a later one, and
      its mutation is saved exactly if that one is of its identity, that is, unless a flush
      of another identity became durable since. */
  ghost predicate Safe(s: State, n: nat, calls: nat) {
    && (forall c: nat :: c < |s.calls| && ReleasedBy(s, c, n) ==>
          && s.book.disk.Stored? && s.calls[c].body.via <= s.book.disk.src
          && (InContext(s, c, Mutation(c)) ==> (Saved(s, c, Mutation(c)) <==> RowNames(s, c))))
    && (forall c: nat :: calls <= c < |s.calls| && s.calls[c].body.Released? ==>
          ReleasedBy(s, c, n) && InContext(s, c, Mutation(c)))
  }

  lemma StretchIsSafe(s: State, n: nat, calls: nat)
    requires Sound(s) && Backed(s, n) && Stretch(s, n, calls)
    ensures Safe(s, n, calls)
  {
    forall c: nat | c < |s.calls| && ReleasedBy(s, c, n)
      ensures s.book.disk.Stored? && s.calls[c].body.via <= s.book.disk.src
      ensures InContext(s, c, Mutation(c)) ==> (Saved(s, c, Mutation(c)) <==> RowNames(s, c))
    {
      CoveredIsSaved(s, n, calls, c, s.calls[c].body.via);
    }
    forall c: nat | calls <= c < |s.calls| && s.calls[c].body.Released?
      ensures ReleasedBy(s, c, n) && InContext(s, c, Mutation(c))
    {
      assert Late(s, n, c) && Counted(s, c) && LinkedCall(s, c);
      assert Uses(s.calls[c].body, s.calls[c].body.via);
    }
  }

  /** Crash safety.  Take any reachable state whose identity row exists and any run from it
      that does not clear the session or rewrite the row, with flushes, inits, imports and
      resets of any number of identities and epochs, everything timing out and finishing
      late in any order, except that no abandoned import or reset takes effect.  At its end
      every call begun in it and released, and every older one released by a flush of the
      run whose mutation its context still holds, is in the row if and only if the row's
      export is of its identity; and that export is no older than the call's own flush. */
  lemma CrashSafety(s: State, es: seq<Event>)
    requires Reachable(s) && s.book.row && Valid(s, es) && KeepsRun(s, es) && NoLateEffect(s, es)
    ensures Safe(Run(s, es), |s.book.attempts|, |s.calls|)
  {
    ReachableSound(s);
    StretchBegins(s);
    BackedAtOnce(s);
    RunStretch(s, |s.book.attempts|, |s.calls|, es);
    RunBacked(s, |s.book.attempts|, es);
    RunSound(s, es);
    StretchIsSafe(Run(s, es), |s.book.attempts|, |s.calls|);
  }

  /** All attempts numbered `n` and up are of one identity. */
  ghost predicate OneIdentity(b: Book, n: nat) {
    forall i, k :: n <= i < |b.attempts| && n <= k < |b.attempts| ==> b.attempts[i].identity == b.attempts[k].identity
  }

  ghost predicate AllSaved(s: State, calls: nat) {
    forall c: nat :: calls <= c < |s.calls| && s.calls[c].body.Released? ==> Saved(s, c, Mutation(c))
  }

  lemma SafeIsSaved(s: State, n: nat, calls: nat)
    requires Sound(s) && Safe(s, n, calls) && OneIdentity(s.book, n) && s.book.disk.Stored?
    ensures AllSaved(s, calls)
  {
    forall c: nat | calls <= c < |s.calls| && s.calls[c].body.Released? ensures RowNames(s, c) {
      assert LinkedCall(s, c) && Uses(s.calls[c].body, s.calls[c].body.via);
    }
  }

  /** Where all flushes of the run are of one identity, every call begun in it and released
      is in the row. */
  lemma OneIdentityIsSaved(s: State, es: seq<Event>)
    requires Reachable(s) && s.book.row && Valid(s, es) && KeepsRun(s, es) && NoLateEffect(s, es)
    requires OneIdentity(Run(s, es).book, |s.book.attempts|)
    ensures AllSaved(Run(s, es), |s.calls|)
  {
    CrashSafety(s, es);
    ReachableSound(s);
    RunSound(s, es);
    if Run(s, es).book.disk.Stored? {
      SafeIsSaved(Run(s, es), |s.book.attempts|, |s.calls|);
    }
  }

  // ---------------------------------------------------------------------------
  // The compensating abort
  // ---------------------------------------------------------------------------

  /** A staged removal's abort has taken effect in the worker, and in a run in which no
      abandoned import or reset takes effect its second flush answered well.  Then
      whatever happens later, abandoned imports and resets and the abandoned first flush
      included, nothing requested before the abort becomes durable any more, and the row
      never again holds such an export. */
  lemma AbortIsFinal(s: State, c: nat, mending: seq<Event>, later: seq<Event>)
    requires Reachable(s) && c < |s.calls| && s.calls[c].body.AbortApplied?
    requires Valid(s, mending) && NoLateEffect(s, mending) && Mended(Run(s, mending), c)
    requires Valid(Run(s, mending), later)
    ensures NothingBefore(Run(Run(s, mending), later).book, |Run(s, mending).book.landed|, |s.book.attempts|)
  {
    ReachableSound(s);
    RunSound(s, mending);
    MendedIsCovered(s, c, mending);
    FinalOnceCovered(Run(s, mending), later, Run(s, mending).calls[c].body.second, |s.book.attempts|);
  }

  /** The second flush of the compensating abort answered well. */
  predicate Mended(s: State, c: nat) { c < |s.calls| && s.calls[c].body.Undone? && s.calls[c].body.durable }

  /** Durable writes from the log's position `from` on, and the row, stem from attempts
      numbered `n` and up. */
  ghost predicate NothingBefore(b: Book, from: nat, n: nat) {
    && (b.disk.Stored? ==> n <= b.disk.src)
    && (forall i :: from <= i < |b.landed| ==> n <= b.landed[i].attempt)
  }

  lemma MendedIsCovered(s: State, c: nat, mending: seq<Event>)
    requires Sound(s) && c < |s.calls| && s.calls[c].body.AbortApplied?
    requires Valid(s, mending) && NoLateEffect(s, mending) && Mended(Run(s, mending), c)
    ensures var t := Run(s, mending);
      |s.book.attempts| <= t.calls[c].body.second && Covered(t.book, t.calls[c].body.second)
  {
    RunLate(s, |s.book.attempts|, mending, c);
    var t := Run(s, mending);
    assert Uses(t.calls[c].body, t.calls[c].body.second);
    ReleasedIsCovered(s, mending, c, t.calls[c].body.second);
  }

  lemma FinalOnceCovered(s: State, later: seq<Event>, a: nat, n: nat)
    requires Sound(s) && Valid(s, later) && Covered(s.book, a) && n <= a
    ensures NothingBefore(Run(s, later).book, |s.book.landed|, n)
  {
    RunSound(s, later);
    LandedGrows(s, later);
    LaterLandings(s.book, Run(s, later).book, a, n);
  }

  /** Durable writes happen in issue order, so what follows a covering one is later. */
  lemma LaterLandings(b: Book, x: Book, a: nat, n: nat)
    requires Inv(x) && b.landed <= x.landed && Covered(b, a) && n <= a
    ensures NothingBefore(x, |b.landed|, n)
  {
    assert x.landed[|b.landed| - 1] == b.landed[|b.landed| - 1];
  }

  /** Where the row exists and the session is not cleared meanwhile, the row then holds the
      second flush or a later one, and the abort is saved exactly if that is of the
      removal's identity. */
  lemma AbortIsSaved(s: State, c: nat, mending: seq<Event>)
    requires Reachable(s) && s.book.row && c < |s.calls| && s.calls[c].body.AbortApplied?
    requires Valid(s, mending) && NoLateEffect(s, mending) && KeepsRun(s, mending) && Mended(Run(s, mending), c)
    ensures var t := Run(s, mending);
      && t.book.disk.Stored? && t.calls[c].body.second <= t.book.disk.src
      && (InContext(t, c, Undo(c)) ==> (Saved(t, c, Undo(c)) <==> RowNames(t, c)))
  {
    ReachableSound(s);
    StretchBegins(s);
    RunStretch(s, |s.book.attempts|, |s.calls|, mending);
    RunSound(s, mending);
    MendedIsCovered(s, c, mending);
    CoveredIsSaved(Run(s, mending), |s.book.attempts|, |s.calls|, c, Run(s, mending).calls[c].body.second);
  }

  lemma {:induction false} LandedGrows(s: State, es: seq<Event>)
    requires Valid(s, es)
    ensures s.book.landed <= Run(s, es).book.landed
    decreases |es|
  {
    if es != [] {
      LandedGrows(Step(s, es[0]), es[1..]);
    }
  }
}
