/** Runs that show what the persistence theorems' premises are for. */
module Abandonment {
  import opened Persistence
  import opened Release

  // ---------------------------------------------------------------------------
  // The premises of crash safety cannot be dropped
  // ---------------------------------------------------------------------------

  const ME: Identity := Given(0)

  /** A session that starts with the empty context of one identity. */
  function Fresh0(row: bool): State {
    State(Book(0, 0, 0, [], [], row, NoState, []), [], [], map[ME := {}])
  }

  /** A released result its context still holds is missing from the row. */
  predicate Lost(s: State, c: nat) {
    && c < |s.calls| && s.calls[c].body.Released?
    && Mutation(c) in ContentOf(s.worker, s.calls[c].identity) && !OnDisk(s, Mutation(c))
  }

  ghost predicate CanLose(s: State, c: nat) {
    exists es :: Valid(s, es) && Lost(Run(s, es), c)
  }

  /** The state in which the flush of call `c`, alone on the flush chain, has been
      exported and waits on the write chain. */
  function Exported(s: State, c: nat): State
    requires c < |s.calls|
  {
    var id := s.calls[c].identity;
    var w := ContentOf(s.worker, id) + {Mutation(c)};
    var a := |s.book.attempts|;
    State(
      s.book.(issued := s.book.issued + 1,
              writeChain := s.book.writeChain + [WriteOf(a)],
              attempts := s.book.attempts + [Attempt(s.book.epoch, s.book.issued + 1, id, w, InLine(w))]),
      [c], s.calls[c := Call(Advance, id, Flushing(a), true)], s.worker[id := w])
  }

  /** Call `c` is about to change its context, alone with its flush. */
  predicate Ready(s: State, c: nat) {
    && BodyIs(s, c, Calling) && s.calls[c].kind == Advance && s.calls[c].live && s.flushChain == []
    && s.calls[c].identity in s.worker
  }

  lemma FlushUpToIssue(s: State, c: nat) returns (es: seq<Event>)
    requires Ready(s, c)
    ensures var id := s.calls[c].identity; var w := ContentOf(s.worker, id) + {Mutation(c)};
      && Valid(s, es)
      && Run(s, es) == State(
           Issue(s.book, id, w), [c],
           s.calls[c := Call(Advance, id, Flushing(|s.book.attempts|), true)], s.worker[id := w])
  {
    var s1 := Step(s, WorkerApply(c));
    var s2 := Step(s1, RpcReturn(c));
    es := Then(s, [], s, WorkerApply(c));
    es := Then(s, es, s1, RpcReturn(c));
    es := Then(s, es, s2, ChainStart);
  }

  lemma FlushUpToCheck(s: State, c: nat) returns (es: seq<Event>)
    requires Ready(s, c)
    ensures Valid(s, es) && Run(s, es) == Exported(s, c)
  {
    var a := |s.book.attempts|;
    es := FlushUpToIssue(s, c);
    var s1 := Run(s, es);
    var s2 := Step(s1, ExportRead(a));
    es := Then(s, es, s1, ExportRead(a));
    es := Then(s, es, s2, ExportReturn(a));
  }

  /** From `s`, a flush by call `c` followed by `tail` loses the call. */
  lemma LoseAfter(s0: State, pre: seq<Event>, s: State, c: nat, tail: seq<Event>)
    requires Valid(s0, pre) && Run(s0, pre) == s
    requires Ready(s, c)
    requires Valid(Exported(s, c), tail) && Lost(Run(Exported(s, c), tail), c)
    ensures CanLose(s0, c)
  {
    var es := FlushUpToCheck(s, c);
    RunConcat(s, es, tail);
    RunConcat(s0, pre, es + tail);
  }

  function ImportAbandoned(): State {
    Fresh0(true).(
      calls := [Call(Import, Minted(0), Imported(5), false), Call(Advance, ME, Calling, true)],
      worker := map[ME := {}, Minted(0) := {}])
  }

  lemma AbandonImport() returns (es: seq<Event>)
    ensures Valid(Fresh0(true), es) && Run(Fresh0(true), es) == ImportAbandoned()
  {
    var s0 := Fresh0(true);
    var s1 := Step(s0, Begin(Import, ME));
    var s2 := Step(s1, ChainStart);
    var s3 := Step(s2, ChainTimeout);
    var s4 := Step(s3, ImportApply(0, 5, {}));
    es := Then(s0, [], s0, Begin(Import, ME));
    es := Then(s0, es, s1, ChainStart);
    es := Then(s0, es, s2, ChainTimeout);
    es := Then(s0, es, s3, ImportApply(0, 5, {}));
    es := Then(s0, es, s4, Begin(Advance, ME));
  }

  lemma LateBump() returns (es: seq<Event>)
    ensures var s := Exported(ImportAbandoned(), 1); Valid(s, es) && Lost(Run(s, es), 1)
  {
    var s := Exported(ImportAbandoned(), 1);
    var s1 := Step(s, ImportReturn(0));
    var s2 := Step(s1, WriteCheck);
    es := Then(s, [], s, ImportReturn(0));
    es := Then(s, es, s1, WriteCheck);
    es := Then(s, es, s2, ChainSettle);
  }

  /** A timed-out import whose late bump overtakes a live flush: the flush is skipped
      as superseded and the caller is released with nothing saved. */
  lemma AbandonedImportLoses()
    ensures CanLose(Fresh0(true), 1)
  {
    var pre := AbandonImport();
    var tail := LateBump();
    LoseAfter(Fresh0(true), pre, ImportAbandoned(), 1, tail);
  }

  function ResetAbandoned(): State {
    Fresh0(true).(
      calls := [Call(Init, Minted(0), Flipping, false), Call(Advance, ME, Calling, true)],
      book := Fresh0(true).book.(writeChain := [FlipOf(0)]),
      worker := map[ME := {}, Minted(0) := {Mutation(0)}])
  }

  function InitInLine(): State {
    Fresh0(true).(
      flushChain := [0],
      calls := [Call(Init, Minted(0), Queued, true)],
      worker := map[ME := {}, Minted(0) := {Mutation(0)}])
  }

  lemma QueueInit() returns (es: seq<Event>)
    ensures Valid(Fresh0(true), es) && Run(Fresh0(true), es) == InitInLine()
  {
    var s0 := Fresh0(true);
    var s1 := Step(s0, Begin(Init, ME));
    var s2 := Step(s1, WorkerApply(0));
    es := Then(s0, [], s0, Begin(Init, ME));
    es := Then(s0, es, s1, WorkerApply(0));
    es := Then(s0, es, s2, RpcReturn(0));
    assert s2.worker[Minted(0)] == {Mutation(0)};
  }

  lemma AbandonReset() returns (es: seq<Event>)
    ensures Valid(Fresh0(true), es) && Run(Fresh0(true), es) == ResetAbandoned()
  {
    var s0, s1 := Fresh0(true), InitInLine();
    var s2 := Step(s1, ChainStart);
    var s3 := Step(s2, ChainTimeout);
    es := QueueInit();
    es := Then(s0, es, s1, ChainStart);
    es := Then(s0, es, s2, ChainTimeout);
    es := Then(s0, es, s3, Begin(Advance, ME));
  }

  function FlippedLate(): State {
    var s := Exported(ResetAbandoned(), 1);
    s.(calls := s.calls[0 := Call(Init, Minted(0), Flipped, false)], book := Flip(s.book))
  }

  lemma SkipAfterFlip() returns (es: seq<Event>)
    ensures Valid(FlippedLate(), es) && Lost(Run(FlippedLate(), es), 1)
  {
    var s := FlippedLate();
    var s1 := Step(s, WriteCheck);
    es := Then(s, [], s, WriteCheck);
    es := Then(s, es, s1, ChainSettle);
  }

  lemma LateFlip() returns (es: seq<Event>)
    ensures var s := Exported(ResetAbandoned(), 1); Valid(s, es) && Lost(Run(s, es), 1)
  {
    var s := Exported(ResetAbandoned(), 1);
    OneStep(s, ResetRun);
    assert Step(s, ResetRun) == FlippedLate();
    var fs := SkipAfterFlip();
    RunConcat(s, [ResetRun], fs);
    es := [ResetRun] + fs;
  }

  /** A timed-out reset whose late epoch flip makes a live flush look like one from
      before the reset. */
  lemma AbandonedResetLoses()
    ensures CanLose(Fresh0(true), 1)
  {
    var pre := AbandonReset();
    var tail := LateFlip();
    LoseAfter(Fresh0(true), pre, ResetAbandoned(), 1, tail);
  }

  function Begun(): State { Fresh0(false).(calls := [Call(Advance, ME, Calling, true)]) }

  lemma LandWithoutRow() returns (es: seq<Event>)
    ensures var s := Exported(Begun(), 0);
      && Valid(s, es)
      && Run(s, es) == s.(book := s.book.(
           attempts := [s.book.attempts[0].(phase := Landed(s.book.attempts[0].base))], landed := [Landing(0, 0)]))
  {
    var s := Exported(Begun(), 0);
    var s1 := Step(s, WriteCheck);
    es := Then(s, [], s, WriteCheck);
    es := Then(s, es, s1, WriteLand);
  }

  lemma WriteWithoutRow() returns (es: seq<Event>)
    ensures Valid(Exported(Begun(), 0), es) && Lost(Run(Exported(Begun(), 0), es), 0)
  {
    var s := Exported(Begun(), 0);
    es := LandWithoutRow();
    var s1 := Run(s, es);
    var s2 := Step(s1, WriteFinish);
    es := Then(s, es, s1, WriteFinish);
    es := Then(s, es, s2, ChainSettle);
  }

  /** Without an identity row the write resolves without storing anything. */
  lemma MissingRowLoses()
    ensures CanLose(Fresh0(false), 0)
  {
    OneStep(Fresh0(false), Begin(Advance, ME));
    var tail := WriteWithoutRow();
    LoseAfter(Fresh0(false), [Begin(Advance, ME)], Begun(), 0, tail);
  }

  // ---------------------------------------------------------------------------
  // A compensating abort whose own flush fails is not final
  // ---------------------------------------------------------------------------

  /** The removal is staged and exported, its persist timed out, the abort is on its way. */
  function StagedAndTimedOut(): State {
    var w := {Mutation(0)};
    State(
      Book(0, 1, 0, [], [Attempt(0, 1, ME, w, ReadOut(w))], true, NoState, []),
      [], [Call(Stage, ME, Aborting(0), true)], map[ME := w])
  }

  /** The abort took effect, its second flush failed, and the caller has been told. */
  function SecondFlushFailed(): State {
    var w, v := {Mutation(0)}, {Mutation(0), Undo(0)};
    State(
      Book(0, 2, 0, [], [Attempt(0, 1, ME, w, ReadOut(w)), Attempt(0, 2, ME, v, Done(Failed))], true, NoState, []),
      [], [Call(Stage, ME, Undone(0, 1, false), true)], map[ME := v])
  }

  function StageQueued(): State {
    State(Fresh0(true).book, [0], [Call(Stage, ME, Queued, true)], map[ME := {Mutation(0)}])
  }

  lemma QueueStage() returns (es: seq<Event>)
    ensures Valid(Fresh0(true), es) && Run(Fresh0(true), es) == StageQueued()
  {
    var s0 := Fresh0(true);
    var s1 := Step(s0, Begin(Stage, ME));
    var s2 := Step(s1, WorkerApply(0));
    es := Then(s0, [], s0, Begin(Stage, ME));
    es := Then(s0, es, s1, WorkerApply(0));
    es := Then(s0, es, s2, RpcReturn(0));
    assert s2.worker[ME] == {Mutation(0)};
  }

  lemma ExportAndTimeOut() returns (es: seq<Event>)
    ensures Valid(StageQueued(), es) && Run(StageQueued(), es) == StagedAndTimedOut()
  {
    var s0 := StageQueued();
    var s1 := Step(s0, ChainStart);
    var s2 := Step(s1, ExportRead(0));
    es := Then(s0, [], s0, ChainStart);
    es := Then(s0, es, s1, ExportRead(0));
    es := Then(s0, es, s2, ChainTimeout);
    assert s2.book == StagedAndTimedOut().book;
  }

  function AbortInLine(): State {
    StagedAndTimedOut().(
      flushChain := [0],
      calls := [Call(Stage, ME, AbortQueued(0), true)],
      worker := map[ME := {Mutation(0), Undo(0)}])
  }

  lemma QueueAbort() returns (es: seq<Event>)
    ensures Valid(StagedAndTimedOut(), es) && Run(StagedAndTimedOut(), es) == AbortInLine()
  {
    var s0 := StagedAndTimedOut();
    var s1 := Step(s0, AbortApply(0));
    es := Then(s0, [], s0, AbortApply(0));
    es := Then(s0, es, s1, AbortReturn(0));
    assert s1.worker[ME] == {Mutation(0), Undo(0)};
  }

  lemma FailSecondFlush() returns (es: seq<Event>)
    ensures Valid(AbortInLine(), es) && Run(AbortInLine(), es) == SecondFlushFailed()
  {
    var s0 := AbortInLine();
    var s1 := Step(s0, ChainStart);
    var s2 := Step(s1, ExportFail(1));
    es := Then(s0, [], s0, ChainStart);
    es := Then(s0, es, s1, ExportFail(1));
    es := Then(s0, es, s2, ChainSettle);
    assert s2.book == SecondFlushFailed().book;
  }

  function FirstFlushChecked(): State {
    var s := SecondFlushFailed();
    s.(book := s.book.(
      attempts := [Attempt(0, 1, ME, {Mutation(0)}, Writing({Mutation(0)})), s.book.attempts[1]],
      writeChain := [WriteOf(0)]))
  }

  lemma FirstFlushPassesCheck() returns (es: seq<Event>)
    ensures Valid(SecondFlushFailed(), es) && Run(SecondFlushFailed(), es) == FirstFlushChecked()
  {
    var s0 := SecondFlushFailed();
    var s1 := Step(s0, ExportReturn(0));
    es := Then(s0, [], s0, ExportReturn(0));
    es := Then(s0, es, s1, WriteCheck);
    assert Step(s1, WriteCheck).book == FirstFlushChecked().book;
  }

  /** The worker has the abort, the row holds the staged removal without it. */
  predicate StagedStateSaved(s: State) {
    && 0 < |s.calls| && s.calls[0].body.Undone?
    && Undo(0) in ContentOf(s.worker, ME)
    && OnDisk(s, Mutation(0)) && !OnDisk(s, Undo(0))
  }

  /** Issuing a later number is not enough: when the second flush fails, the abandoned
      first flush can still land and the staged removal is what a reload finds. */
  lemma FailedSecondFlushIsNotFinal()
    ensures exists es :: Valid(Fresh0(true), es) && StagedStateSaved(Run(Fresh0(true), es))
  {
    var s0 := Fresh0(true);
    var es := QueueStage();
    var fs := ExportAndTimeOut();
    RunConcat(s0, es, fs);
    var gs := QueueAbort();
    RunConcat(s0, es + fs, gs);
    var hs := FailSecondFlush();
    RunConcat(s0, es + fs + gs, hs);
    var ks := FirstFlushPassesCheck();
    RunConcat(s0, es + fs + gs + hs, ks);
    var all := Then(s0, es + fs + gs + hs + ks, FirstFlushChecked(), WriteLand);
    assert StagedStateSaved(Run(s0, all));
  }

  // ---------------------------------------------------------------------------
  // A flush of another identity takes the row
  // ---------------------------------------------------------------------------

  /** A run within the premises of crash safety from `s` to `t`. */
  ghost predicate Calm(s: State, es: seq<Event>, t: State) {
    Valid(s, es) && Run(s, es) == t && KeepsRun(s, es) && NoLateEffect(s, es)
  }

  lemma {:induction false} CalmConcat(s: State, es: seq<Event>, t: State, fs: seq<Event>, u: State)
    requires Calm(s, es, t) && Calm(t, fs, u)
    ensures Calm(s, es + fs, u)
    decreases |es|
  {
    if es == [] {
      assert es + fs == fs;
    } else {
      CalmConcat(Step(s, es[0]), es[1..], t, fs, u);
      assert (es + fs)[1..] == es[1..] + fs;
    }
  }

  lemma CalmStep(s: State, es: seq<Event>, t: State, e: Event) returns (fs: seq<Event>)
    requires Calm(s, es, t) && Enabled(t, e) && Keeps(t, e) && !LateEffect(t, e)
    ensures Calm(s, fs, Step(t, e))
  {
    OneStep(t, e);
    assert [e][1..] == [];
    CalmConcat(s, es, t, [e], Step(t, e));
    fs := es + [e];
  }

  const FIRST: Content := {Mutation(0)}

  /** Call 0 changed its context; its flush `p`, the row and the chains are as given. */
  function FirstFlush(current: nat, chain: seq<WriteTask>, p: Phase, disk: Disk, landed: seq<Landing>,
      flushes: seq<nat>, b: Body): State
  {
    State(
      Book(current, 1, 0, chain, [Attempt(0, 1, ME, FIRST, p)], true, disk, landed),
      flushes, [Call(Advance, ME, b, true)], map[ME := FIRST])
  }

  function FirstInLine(): State { FirstFlush(0, [WriteOf(0)], InLine(FIRST), NoState, [], [0], Flushing(0)) }

  function FirstReleased(): State {
    FirstFlush(1, [], Done(Outcome.Wrote), Stored(0, FIRST), [Landing(0, 0)], [], Released(0))
  }

  lemma FirstChanges() returns (es: seq<Event>)
    ensures Calm(Fresh0(true), es, State(Fresh0(true).book, [0], [Call(Advance, ME, Queued, true)], map[ME := FIRST]))
  {
    var s0 := Fresh0(true);
    var s1 := Step(s0, Begin(Advance, ME));
    var s2 := Step(s1, WorkerApply(0));
    es := CalmStep(s0, [], s0, Begin(Advance, ME));
    es := CalmStep(s0, es, s1, WorkerApply(0));
    es := CalmStep(s0, es, s2, RpcReturn(0));
    assert s2.worker[ME] == FIRST;
  }

  lemma FirstExports() returns (es: seq<Event>)
    ensures Calm(State(Fresh0(true).book, [0], [Call(Advance, ME, Queued, true)], map[ME := FIRST]), es, FirstInLine())
  {
    var s0 := State(Fresh0(true).book, [0], [Call(Advance, ME, Queued, true)], map[ME := FIRST]);
    var s1 := Step(s0, ChainStart);
    var s2 := Step(s1, ExportRead(0));
    es := CalmStep(s0, [], s0, ChainStart);
    es := CalmStep(s0, es, s1, ExportRead(0));
    es := CalmStep(s0, es, s2, ExportReturn(0));
    assert Step(s2, ExportReturn(0)).book == FirstInLine().book;
  }

  function FirstDurable(): State {
    FirstFlush(0, [WriteOf(0)], Landed(FIRST), Stored(0, FIRST), [Landing(0, 0)], [0], Flushing(0))
  }

  lemma FirstLands() returns (es: seq<Event>)
    ensures Calm(FirstInLine(), es, FirstDurable())
  {
    var s0 := FirstInLine();
    var s1 := FirstFlush(0, [WriteOf(0)], Writing(FIRST), NoState, [], [0], Flushing(0));
    assert Step(s0, WriteCheck) == s1;
    es := CalmStep(s0, [], s0, WriteCheck);
    es := CalmStep(s0, es, s1, WriteLand);
    assert Step(s1, WriteLand).book == FirstDurable().book;
  }

  lemma FirstReturns() returns (es: seq<Event>)
    ensures Calm(FirstDurable(), es, FirstReleased())
  {
    var s0 := FirstDurable();
    var s1 := FirstFlush(1, [], Done(Outcome.Wrote), Stored(0, FIRST), [Landing(0, 0)], [0], Flushing(0));
    assert Step(s0, WriteFinish).book == s1.book;
    es := CalmStep(s0, [], s0, WriteFinish);
    es := CalmStep(s0, es, s1, ChainSettle);
  }

  /** Call 1 mints an identity; the epoch, its flush and its body are as given. */
  function SecondCall(epoch: nat, current: nat, issued: nat, chain: seq<WriteTask>, more: seq<Attempt>, disk: Disk,
      b: Body): State
  {
    var s := FirstReleased();
    State(
      s.book.(epoch := epoch, current := current, issued := issued, writeChain := chain,
              attempts := s.book.attempts + more, disk := disk,
              landed := if disk.Stored? && disk.src == 1 then s.book.landed + [Landing(1, 1)] else s.book.landed),
      [1], s.calls + [Call(Init, Minted(1), b, true)], map[ME := FIRST, Minted(1) := {Mutation(1)}])
  }

  function Minting1(p: Phase): seq<Attempt> { [Attempt(1, 1, Minted(1), {Mutation(1)}, p)] }

  lemma SecondMints() returns (es: seq<Event>)
    ensures Calm(FirstReleased(), es, SecondCall(0, 1, 1, [], [], Stored(0, FIRST), Queued))
  {
    var s0 := FirstReleased();
    var s1 := Step(s0, Begin(Init, ME));
    var s2 := Step(s1, WorkerApply(1));
    es := CalmStep(s0, [], s0, Begin(Init, ME));
    es := CalmStep(s0, es, s1, WorkerApply(1));
    es := CalmStep(s0, es, s2, RpcReturn(1));
    assert s2.worker[Minted(1)] == {Mutation(1)};
    assert s0.book.attempts + [] == s0.book.attempts;
  }

  lemma SecondResets() returns (es: seq<Event>)
    ensures Calm(SecondCall(0, 1, 1, [], [], Stored(0, FIRST), Queued), es,
                 SecondCall(1, 0, 1, [], Minting1(Requested), Stored(0, FIRST), Flushing(1)))
  {
    var s0 := SecondCall(0, 1, 1, [], [], Stored(0, FIRST), Queued);
    var s1 := SecondCall(0, 1, 1, [FlipOf(1)], [], Stored(0, FIRST), Flipping);
    var s2 := SecondCall(1, 0, 0, [], [], Stored(0, FIRST), Flipped);
    assert Step(s0, ChainStart) == s1 && Step(s1, ResetRun) == s2;
    es := CalmStep(s0, [], s0, ChainStart);
    es := CalmStep(s0, es, s1, ResetRun);
    es := CalmStep(s0, es, s2, InitFlush(1));
    assert Step(s2, InitFlush(1)).book.attempts == FirstReleased().book.attempts + Minting1(Requested);
  }

  function Second(chain: seq<WriteTask>, p: Phase, disk: Disk): State {
    SecondCall(1, 0, 1, chain, Minting1(p), disk, Flushing(1))
  }

  lemma SecondExports() returns (es: seq<Event>)
    ensures Calm(Second([], Requested, Stored(0, FIRST)), es,
                 Second([WriteOf(1)], InLine({Mutation(1)}), Stored(0, FIRST)))
  {
    var s0 := Second([], Requested, Stored(0, FIRST));
    var s1 := Second([], ReadOut({Mutation(1)}), Stored(0, FIRST));
    assert Step(s0, ExportRead(1)).book.attempts == s1.book.attempts;
    es := CalmStep(s0, [], s0, ExportRead(1));
    es := CalmStep(s0, es, s1, ExportReturn(1));
    assert Step(s1, ExportReturn(1)).book == Second([WriteOf(1)], InLine({Mutation(1)}), Stored(0, FIRST)).book;
  }

  lemma SecondLands() returns (es: seq<Event>)
    ensures Calm(Second([WriteOf(1)], InLine({Mutation(1)}), Stored(0, FIRST)), es,
                 Second([WriteOf(1)], Landed({Mutation(1)}), Stored(1, {Mutation(1)})))
  {
    var s0 := Second([WriteOf(1)], InLine({Mutation(1)}), Stored(0, FIRST));
    var s1 := Second([WriteOf(1)], Writing({Mutation(1)}), Stored(0, FIRST));
    assert Step(s0, WriteCheck).book.attempts == s1.book.attempts;
    es := CalmStep(s0, [], s0, WriteCheck);
    es := CalmStep(s0, es, s1, WriteLand);
    assert Step(s1, WriteLand).book == Second([WriteOf(1)], Landed({Mutation(1)}), Stored(1, {Mutation(1)})).book;
  }

  /** An export covers one identity.  Within the premises of crash safety, the first flush
      of a newly minted identity replaces the row, and a released call of the old identity,
      still in its context, is no longer in it. */
  lemma InitDisplaces()
    ensures exists es, t :: Calm(Fresh0(true), es, t) && Lost(t, 0)
  {
    var s0 := Fresh0(true);
    var es := FirstChanges();
    var fs := FirstExports();
    CalmConcat(s0, es, State(s0.book, [0], [Call(Advance, ME, Queued, true)], map[ME := FIRST]), fs, FirstInLine());
    var gs := FirstLands();
    CalmConcat(s0, es + fs, FirstInLine(), gs, FirstDurable());
    var rs := FirstReturns();
    CalmConcat(s0, es + fs + gs, FirstDurable(), rs, FirstReleased());
    var hs := DisplaceFrom();
    var t := Second([WriteOf(1)], Landed({Mutation(1)}), Stored(1, {Mutation(1)}));
    CalmConcat(s0, es + fs + gs + rs, FirstReleased(), hs, t);
    assert Lost(t, 0);
  }

  lemma DisplaceFrom() returns (es: seq<Event>)
    ensures Calm(FirstReleased(), es, Second([WriteOf(1)], Landed({Mutation(1)}), Stored(1, {Mutation(1)})))
  {
    var a := FirstReleased();
    var b := SecondCall(0, 1, 1, [], [], Stored(0, FIRST), Queued);
    var c := Second([], Requested, Stored(0, FIRST));
    var d := Second([WriteOf(1)], InLine({Mutation(1)}), Stored(0, FIRST));
    es := SecondMints();
    var fs := SecondResets();
    CalmConcat(a, es, b, fs, c);
    var gs := SecondExports();
    CalmConcat(a, es + fs, c, gs, d);
    var hs := SecondLands();
    CalmConcat(a, es + fs + gs, d, hs, Second([WriteOf(1)], Landed({Mutation(1)}), Stored(1, {Mutation(1)})));
    es := es + fs + gs + hs;
  }
}
