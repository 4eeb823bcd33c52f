/** What the callers of the wrapper are told: each of them exactly one thing, decided by what
    happened to its own flush, and never nothing at all. */
module Answers {
  import opened Helpers
  import opened Persistence
  import opened FlushOrder
  import opened Release

  // ---------------------------------------------------------------------------
  // Outcomes
  // ---------------------------------------------------------------------------

  /** The event is about the write at the front of the chain, and that is attempt `a`'s. */
  predicate OfFront(s: State, a: nat) { HeadWrite(s.book) && s.book.writeChain[0].attempt == a }

  /** What the step makes of attempt `a`: an export or write that fails, a write that resolves,
      or a check that finds it superseded. */
  predicate FailsAt(s: State, e: Event, a: nat) { e == ExportFail(a) || (e == WriteFail && OfFront(s, a)) }

  predicate WritesAt(s: State, e: Event, a: nat) { e == WriteFinish && OfFront(s, a) }

  predicate SkipsAt(s: State, e: Event, a: nat)
    requires a < |s.book.attempts|
  {
    && e == WriteCheck && OfFront(s, a)
    && (s.book.attempts[a].epoch != s.book.epoch || s.book.attempts[a].gen <= s.book.current)
  }

  function OutcomeAt(s: State, e: Event, a: nat): Option<Outcome>
    requires a < |s.book.attempts|
  {
    if FailsAt(s, e, a) then Some(Failed)
    else if WritesAt(s, e, a) then Some(Wrote)
    else if SkipsAt(s, e, a) then Some(Skipped)
    else None
  }

  function OutcomeOf(p: Phase): Option<Outcome> { if p.Done? then Some(p.outcome) else None }

  /** The write-chain's moves. */
  lemma FrontOutcome(s: State, e: Event, a: nat)
    requires Enabled(s, e) && a < |s.book.attempts|
    requires e.WriteCheck? || e.WriteLand? || e.WriteFail? || e.WriteFinish?
    ensures a < |Step(s, e).book.attempts|
    ensures var before, after := OutcomeOf(s.book.attempts[a].phase), OutcomeOf(Step(s, e).book.attempts[a].phase);
      if OutcomeAt(s, e, a).Some? then before.None? && after == OutcomeAt(s, e, a) else after == before
  {
  }

  lemma ExportOutcome(s: State, e: Event, a: nat)
    requires Enabled(s, e) && a < |s.book.attempts| && (e.ExportRead? || e.ExportFail? || e.ExportReturn?)
    ensures a < |Step(s, e).book.attempts|
    ensures var before, after := OutcomeOf(s.book.attempts[a].phase), OutcomeOf(Step(s, e).book.attempts[a].phase);
      if OutcomeAt(s, e, a).Some? then before.None? && after == OutcomeAt(s, e, a) else after == before
  {
  }

  /** No other move touches an attempt. */
  lemma OtherOutcome(s: State, e: Event, a: nat)
    requires Enabled(s, e) && a < |s.book.attempts| && !e.ExportRead? && !e.ExportFail? && !e.ExportReturn?
    requires !e.WriteCheck? && !e.WriteLand? && !e.WriteFail? && !e.WriteFinish?
    ensures a < |Step(s, e).book.attempts| && Step(s, e).book.attempts[a] == s.book.attempts[a]
  {
    if !TouchesBook(e) {
      OthersKeepBook(s, e);
    }
  }

  lemma StepOutcome(s: State, e: Event, a: nat)
    requires Enabled(s, e) && a < |s.book.attempts|
    ensures a < |Step(s, e).book.attempts|
    ensures var before, after := OutcomeOf(s.book.attempts[a].phase), OutcomeOf(Step(s, e).book.attempts[a].phase);
      if OutcomeAt(s, e, a).Some? then before.None? && after == OutcomeAt(s, e, a) else after == before
  {
    if e.WriteCheck? || e.WriteLand? || e.WriteFail? || e.WriteFinish? {
      FrontOutcome(s, e, a);
    } else if e.ExportRead? || e.ExportFail? || e.ExportReturn? {
      ExportOutcome(s, e, a);
    } else {
      OtherOutcome(s, e, a);
    }
  }

  /** The outcomes attempt `a` gets in the run. */
  function Outcomes(s: State, es: seq<Event>, a: nat): seq<Outcome>
    requires Valid(s, es)
    decreases |es|
  {
    if es == [] then []
    else
      (if a < |s.book.attempts| && OutcomeAt(s, es[0], a).Some? then [OutcomeAt(s, es[0], a).value] else [])
      + Outcomes(Step(s, es[0]), es[1..], a)
  }

  function Listed<T>(x: Option<T>): seq<T> { if x.Some? then [x.value] else [] }

  lemma NewAttemptOpen(s: State, e: Event, a: nat)
    requires Enabled(s, e) && |s.book.attempts| <= a < |Step(s, e).book.attempts|
    ensures Step(s, e).book.attempts[a].phase == Requested
  {
    if !TouchesBook(e) {
      OthersKeepBook(s, e);
    }
  }

  /** A flush has failed, was skipped or has written exactly if that happened to it, and only
      one of these ever happens. */
  lemma {:induction false} OutcomeExactlyWhen(s: State, es: seq<Event>, a: nat)
    requires Valid(s, es) && a < |Run(s, es).book.attempts|
    ensures var before := if a < |s.book.attempts| then OutcomeOf(s.book.attempts[a].phase) else None;
      Listed(OutcomeOf(Run(s, es).book.attempts[a].phase)) == Listed(before) + Outcomes(s, es, a)
    decreases |es|
  {
    if es != [] {
      var e := es[0];
      AttemptsStep(s, e);
      if a < |s.book.attempts| {
        StepOutcome(s, e, a);
      } else if a < |Step(s, e).book.attempts| {
        NewAttemptOpen(s, e, a);
      }
      OutcomeExactlyWhen(Step(s, e), es[1..], a);
    }
  }

  // ---------------------------------------------------------------------------
  // Answers
  // ---------------------------------------------------------------------------

  /** The result, the end of a method that flushes nothing, or an error. */
  datatype Answer = Result(via: nat) | Ended | Error

  /** The call is at the front of the flush chain. */
  predicate Front(s: State, c: nat) { HeadCall(s) && s.flushChain[0] == c }

  /** What the caller is told when its body settles: the result exactly if its flush did not
      fail, and an error if it did, except that a staged removal is then undone first. */
  function Settling(s: State, x: Call): Option<Answer> {
    match x.body
    case Flushing(a) =>
      if a < |s.book.attempts| && s.book.attempts[a].phase != Done(Failed) then Some(Result(a))
      else if x.kind.Stage? then None
      else Some(Error)
    case Finished => Some(Ended)
    case _ => Some(Error)
  }

  /** What the step tells the caller of `c`, if it is still waiting. */
  function Telling(s: State, e: Event, c: nat): Option<Answer>
    requires c < |s.calls|
  {
    var x := s.calls[c];
    if !x.live then None
    else if e == RpcReject(c) || e == RpcTimeout(c) || e == AbortReject(c) then Some(Error)
    else if e == ChainSettle && Front(s, c) then Settling(s, x)
    else if e == ChainTimeout && Front(s, c) && !(x.kind.Stage? && x.body.Flushing?) then Some(Error)
    else None
  }

  /** What the caller has been told. */
  function AnswerOf(x: Call): Option<Answer> {
    if !x.live then Some(Error)
    else
      match x.body
      case Released(a) => Some(Result(a))
      case Completed => Some(Ended)
      case Rejected => Some(Error)
      case Undone(_, _, _) => Some(Error)
      case _ => None
  }

  /** Only removals are undone. */
  predicate Staged(x: Call) {
    x.body.Aborting? || x.body.AbortApplied? || x.body.AbortQueued? || x.body.AbortFlushing? || x.body.Undone? ==>
      x.kind.Stage?
  }

  ghost predicate AllStaged(s: State) { forall c :: 0 <= c < |s.calls| ==> Staged(s.calls[c]) }

  lemma MovesStaged(x: Call, y: Call)
    requires Moves(x, y) && Staged(x)
    ensures Staged(y)
  {
  }

  lemma StepStaged(s: State, e: Event)
    requires AllStaged(s) && Enabled(s, e)
    ensures AllStaged(Step(s, e))
  {
    CallsGrow(s, e);
    forall c | 0 <= c < |s.calls| ensures Staged(Step(s, e).calls[c]) {
      MovesStaged(s.calls[c], Step(s, e).calls[c]);
    }
  }

  lemma ChainTells(s: State, e: Event, c: nat)
    requires Lined(s) && AllStaged(s) && Enabled(s, e) && Front(s, c) && (e.ChainSettle? || e.ChainTimeout?)
    ensures AnswerOf(s.calls[c]).None?
    ensures AnswerOf(Step(s, e).calls[c]) == Telling(s, e, c)
  {
    assert Staged(s.calls[c]);
  }

  /** Events that leave the call's body and its caller alone. */
  lemma OthersTell(s: State, e: Event, c: nat)
    requires Lined(s) && Enabled(s, e) && c < |s.calls| && !(Front(s, c) && (e.ChainSettle? || e.ChainTimeout?))
    requires e != RpcReject(c) && e != RpcTimeout(c) && e != AbortReject(c)
    ensures c < |Step(s, e).calls| && AnswerOf(Step(s, e).calls[c]) == AnswerOf(s.calls[c])
  {
    StepMoves(s, e, c);
  }

  lemma RpcTells(s: State, e: Event, c: nat)
    requires Enabled(s, e) && (e == RpcReject(c) || e == RpcTimeout(c) || e == AbortReject(c))
    ensures c < |s.calls| && c < |Step(s, e).calls| && AnswerOf(Step(s, e).calls[c]) == Some(Error)
    ensures s.calls[c].live ==> AnswerOf(s.calls[c]).None?
  {
  }

  lemma StepTells(s: State, e: Event, c: nat)
    requires Lined(s) && AllStaged(s) && Enabled(s, e) && c < |s.calls|
    ensures c < |Step(s, e).calls|
    ensures var before, after := AnswerOf(s.calls[c]), AnswerOf(Step(s, e).calls[c]);
      if Telling(s, e, c).Some? then before.None? && after == Telling(s, e, c) else after == before
  {
    if Front(s, c) && (e.ChainSettle? || e.ChainTimeout?) {
      StepMoves(s, e, c);
      ChainTells(s, e, c);
    } else if e == RpcReject(c) || e == RpcTimeout(c) || e == AbortReject(c) {
      RpcTells(s, e, c);
    } else {
      OthersTell(s, e, c);
    }
  }

  /** Everything the caller of `c` is told in the run. */
  function Told(s: State, es: seq<Event>, c: nat): seq<Answer>
    requires Valid(s, es)
    decreases |es|
  {
    if es == [] then []
    else
      (if c < |s.calls| && Telling(s, es[0], c).Some? then [Telling(s, es[0], c).value] else [])
      + Told(Step(s, es[0]), es[1..], c)
  }

  lemma NewCallOpen(s: State, e: Event, c: nat)
    requires Enabled(s, e) && |s.calls| <= c < |Step(s, e).calls|
    ensures AnswerOf(Step(s, e).calls[c]).None?
  {
  }

  lemma {:induction false} RunTells(s: State, es: seq<Event>, c: nat)
    requires Lined(s) && AllStaged(s) && Valid(s, es) && c < |Run(s, es).calls|
    ensures var before := if c < |s.calls| then AnswerOf(s.calls[c]) else None;
      Listed(AnswerOf(Run(s, es).calls[c])) == Listed(before) + Told(s, es, c)
    decreases |es|
  {
    if es != [] {
      var e := es[0];
      StepLined(s, e);
      StepStaged(s, e);
      if c < |s.calls| {
        StepTells(s, e, c);
      } else if c < |Step(s, e).calls| {
        NewCallOpen(s, e, c);
      }
      RunTells(Step(s, e), es[1..], c);
    }
  }

  /** Over every run of a session, everything finishing and timing out in any order: a caller
      is told at most one thing.  It has the result exactly if its body settled, before any
      timeout of its, with its own flush not failed. */
  lemma AnsweredOnce(s: State, es: seq<Event>, c: nat)
    requires Initial(s) && Valid(s, es) && c < |Run(s, es).calls|
    ensures var x := Run(s, es).calls[c];
      && Told(s, es, c) == Listed(AnswerOf(x))
      && (forall a: nat :: x.body == Released(a) && x.live <==> Told(s, es, c) == [Result(a)])
      && (Told(s, es, c) == [Ended] ==> (x.kind == Import || x.kind == Clear) && EndsIn(s, es, c))
      && (Told(s, es, c) != [] && Told(s, es, c)[0].Result? ==> x.kind != Import && x.kind != Clear)
  {
    RunTells(s, es, c);
    RunEnds(s, es, c);
    RunLinked(s, es);
    assert LinkedCall(Run(s, es), c);
  }

  /** An import's result is taken over, or a clear's reset runs. */
  predicate EndsAt(s: State, e: Event, c: nat) {
    && c < |s.calls|
    && (e == ImportReturn(c)
        || (e == ResetRun && HeadFlip(s.book) && s.book.writeChain[0].call == c && s.calls[c].kind == Clear))
  }

  predicate EndsIn(s: State, es: seq<Event>, c: nat)
    requires Valid(s, es)
    decreases |es|
  {
    es != [] && (EndsAt(s, es[0], c) || EndsIn(Step(s, es[0]), es[1..], c))
  }

  /** Over, or about to be. */
  predicate Ending(x: Call) { x.body.Finished? || x.body.Completed? }

  lemma EndsNow(s: State, e: Event, c: nat)
    requires Lined(s) && Enabled(s, e) && EndsAt(s, e, c)
    ensures c < |Step(s, e).calls| && Step(s, e).calls[c].body == Finished && !FlushKind(s.calls[c].kind)
  {
  }

  lemma StepEnds(s: State, e: Event, c: nat)
    requires Lined(s) && Enabled(s, e) && c < |s.calls| && (Ending(s.calls[c]) ==> !FlushKind(s.calls[c].kind))
    ensures c < |Step(s, e).calls| && (Ending(Step(s, e).calls[c]) ==> !FlushKind(Step(s, e).calls[c].kind))
    ensures Ending(Step(s, e).calls[c]) <==> Ending(s.calls[c]) || EndsAt(s, e, c)
  {
    StepMoves(s, e, c);
    if EndsAt(s, e, c) {
      EndsNow(s, e, c);
    } else if !Ending(s.calls[c]) {
      NotEndedBy(s, e, c);
    }
  }

  lemma NotEndedBy(s: State, e: Event, c: nat)
    requires Lined(s) && Enabled(s, e) && c < |s.calls| && !Ending(s.calls[c]) && !EndsAt(s, e, c)
    ensures c < |Step(s, e).calls| && !Ending(Step(s, e).calls[c])
  {
  }

  /** A method that flushes nothing ends exactly if its own work was done. */
  lemma {:induction false} RunEnds(s: State, es: seq<Event>, c: nat)
    requires Lined(s) && Valid(s, es) && c < |Run(s, es).calls|
    requires c < |s.calls| ==> (Ending(s.calls[c]) ==> !FlushKind(s.calls[c].kind))
    ensures Ending(Run(s, es).calls[c]) ==> !FlushKind(Run(s, es).calls[c].kind)
    ensures Ending(Run(s, es).calls[c]) <==> (c < |s.calls| && Ending(s.calls[c])) || EndsIn(s, es, c)
    decreases |es|
  {
    if es != [] {
      var e := es[0];
      StepLined(s, e);
      if c < |s.calls| {
        StepEnds(s, e, c);
      } else if c < |Step(s, e).calls| {
        NewCalls(s, e);
      }
      RunEnds(Step(s, e), es[1..], c);
    }
  }

  /** The settling of a flush, every case: the caller at the front gets its result if and only
      if the flush did not fail; if it failed, a staged removal goes on to its compensating
      abort, and every other caller is rejected.  Either way the chain moves on. */
  lemma SettlesExactly(s: State, c: nat, a: nat)
    requires Enabled(s, ChainSettle) && Front(s, c) && s.calls[c].body == Flushing(a)
    ensures var t := Step(s, ChainSettle); var y := t.calls[c].body;
      var failed := s.book.attempts[a].phase == Done(Failed);
      && (y == Released(a) <==> !failed)
      && (y == Aborting(a) <==> failed && s.calls[c].kind == Stage)
      && (y == Rejected <==> failed && s.calls[c].kind != Stage)
      && t.flushChain == s.flushChain[1..] && t.book == s.book
  {
  }

  /** The second flush of a compensating abort: the removal is undone for good exactly if that
      flush did not fail. */
  lemma UndoneExactly(s: State, c: nat, f: nat, a: nat)
    requires Enabled(s, ChainSettle) && Front(s, c) && s.calls[c].body == AbortFlushing(f, a)
    ensures Step(s, ChainSettle).calls[c].body == Undone(f, a, s.book.attempts[a].phase != Done(Failed))
  {
  }

  /** The timeout of the front body, every case: a removal whose persist is given up on goes on
      to its compensating abort, every other caller is told an error, what the body has under
      way is left alone, and the chain moves on. */
  lemma TimesOutExactly(s: State, c: nat)
    requires Lined(s) && AllStaged(s) && Enabled(s, ChainTimeout) && Front(s, c)
    ensures var t := Step(s, ChainTimeout); var x, y := s.calls[c], t.calls[c];
      && t.flushChain == s.flushChain[1..] && t.book == s.book && t.worker == s.worker
      && (if x.kind == Stage && x.body.Flushing? then AnswerOf(y) == None && y.body == Aborting(x.body.via)
          else AnswerOf(y) == Some(Error))
      && (x.kind == Stage && x.body.AbortFlushing? ==> y.body == Undone(x.body.first, x.body.second, false))
      && (x.kind == Advance ==> y.body == Rejected)
      && (x.kind == Init || x.kind == Import || x.kind == Clear ==> y.body == x.body)
  {
    assert Staged(s.calls[c]);
  }

  /** The front body of `c` is given up on. */
  predicate TimesOut(s: State, e: Event, c: nat) { e == ChainTimeout && Front(s, c) }

  predicate TimedOutIn(s: State, es: seq<Event>, c: nat)
    requires Valid(s, es)
    decreases |es|
  {
    es != [] && (TimesOut(s, es[0], c) || TimedOutIn(Step(s, es[0]), es[1..], c))
  }

  /** The removal whose persist by attempt `a` failed is being undone, or was. */
  predicate Undoing(b: Body, a: nat) {
    (b.Aborting? || b.AbortApplied? || b.AbortQueued? || b.AbortFlushing? || b.Undone?) && b.first == a
  }

  /** What became of a call that waited for attempt `a`. */
  predicate Decided(s: State, c: nat, a: nat)
    requires c < |s.calls|
  {
    && a < |s.book.attempts| && s.book.attempts[a].phase.Done?
    && var x := s.calls[c];
       if s.book.attempts[a].phase.outcome != Failed then x.body == Released(a)
       else if x.kind.Stage? then Undoing(x.body, a)
       else x.body == Rejected
  }

  lemma LeavesDecided(s: State, e: Event, c: nat, a: nat)
    requires Lined(s) && Enabled(s, e) && c < |s.calls| && s.calls[c].body == Flushing(a) && !TimesOut(s, e, c)
    ensures c < |Step(s, e).calls| && (Step(s, e).calls[c].body == Flushing(a) || Decided(Step(s, e), c, a))
  {
    StepMoves(s, e, c);
  }

  lemma DecidedStays(s: State, e: Event, c: nat, a: nat)
    requires AllStaged(s) && Enabled(s, e) && c < |s.calls| && Decided(s, c, a)
    ensures c < |Step(s, e).calls| && Decided(Step(s, e), c, a)
  {
    StepMoves(s, e, c);
    StepOutcome(s, e, a);
    StepStaged(s, e);
    assert Staged(s.calls[c]);
  }

  /** Over every run: a call that waits for its flush, and is not given up on by the timeout
      of its body, goes on waiting until the flush has settled, and then it is released if the
      flush wrote or was skipped, undone if it was a removal whose flush failed, and rejected
      otherwise. */
  lemma {:induction false} ReleasedExactlyWhen(s: State, es: seq<Event>, c: nat, a: nat)
    requires Lined(s) && AllStaged(s) && Valid(s, es) && c < |s.calls| && !TimedOutIn(s, es, c)
    requires s.calls[c].body == Flushing(a) || Decided(s, c, a)
    ensures c < |Run(s, es).calls| && (Run(s, es).calls[c].body == Flushing(a) || Decided(Run(s, es), c, a))
    decreases |es|
  {
    if es != [] {
      StepLined(s, es[0]);
      StepStaged(s, es[0]);
      if s.calls[c].body == Flushing(a) {
        LeavesDecided(s, es[0], c, a);
      } else {
        DecidedStays(s, es[0], c, a);
      }
      ReleasedExactlyWhen(Step(s, es[0]), es[1..], c, a);
    }
  }

  // ---------------------------------------------------------------------------
  // Nobody waits for ever
  // ---------------------------------------------------------------------------

  /** Every body that waits on the chain or runs for a waiting caller is in it. */
  ghost predicate Chained(s: State) {
    forall c: nat :: c < |s.calls| && s.calls[c].live && OnChain(s.calls[c].body) ==> c in s.flushChain
  }

  /** The front leaves with its caller told, or about to undo its removal. */
  lemma FrontLeaves(s: State, e: Event)
    requires Lined(s) && Enabled(s, e) && (e.ChainSettle? || e.ChainTimeout?)
    ensures var t := Step(s, e); var c := s.flushChain[0];
      t.flushChain == s.flushChain[1..] && c < |t.calls| && !(t.calls[c].live && OnChain(t.calls[c].body))
    ensures var t := Step(s, e);
      |t.calls| == |s.calls| && forall d :: 0 <= d < |s.calls| && d != s.flushChain[0] ==> t.calls[d] == s.calls[d]
  {
  }

  lemma Joins(s: State, e: Event, c: nat)
    requires Enabled(s, e) && !e.ChainSettle? && !e.ChainTimeout? && c < |Step(s, e).calls|
    requires OnChain(Step(s, e).calls[c].body) && !(c < |s.calls| && OnChain(s.calls[c].body))
    ensures c in Step(s, e).flushChain
  {
    if c < |s.calls| {
      StepMoves(s, e, c);
    }
  }

  lemma OnlyGrows(s: State, e: Event)
    requires Enabled(s, e) && !e.ChainSettle? && !e.ChainTimeout?
    ensures s.flushChain <= Step(s, e).flushChain
  {
  }

  lemma StepChained(s: State, e: Event)
    requires Lined(s) && Chained(s) && Enabled(s, e)
    ensures Chained(Step(s, e))
  {
    var t := Step(s, e);
    CallsGrow(s, e);
    forall c: nat | c < |t.calls| && t.calls[c].live && OnChain(t.calls[c].body) ensures c in t.flushChain {
      if e.ChainSettle? || e.ChainTimeout? {
        FrontLeaves(s, e);
        assert c in s.flushChain && c != s.flushChain[0];
      } else if c < |s.calls| && OnChain(s.calls[c].body) {
        OnlyGrows(s, e);
        assert c in s.flushChain;
      } else {
        Joins(s, e, c);
      }
    }
  }

  lemma {:induction false} RunChained(s: State, es: seq<Event>)
    requires Lined(s) && AllStaged(s) && Chained(s) && Valid(s, es)
    ensures AllStaged(Run(s, es)) && Chained(Run(s, es))
    decreases |es|
  {
    if es != [] {
      StepLined(s, es[0]);
      StepStaged(s, es[0]);
      StepChained(s, es[0]);
      RunChained(Step(s, es[0]), es[1..]);
    }
  }

  /** A step the client takes by itself: its timers and its chain. */
  predicate Own(e: Event) { e.RpcTimeout? || e.AbortReject? || e.ChainStart? || e.ChainTimeout? || e.ChainSettle? }

  /** The caller is told something after some more of the client's own steps. */
  ghost predicate WillBeTold(s: State, c: nat) {
    exists es :: Valid(s, es) && (forall i :: 0 <= i < |es| ==> Own(es[i])) && c < |Run(s, es).calls|
      && AnswerOf(Run(s, es).calls[c]).Some?
  }

  lemma IsTold(s: State, c: nat)
    requires c < |s.calls| && AnswerOf(s.calls[c]).Some?
    ensures WillBeTold(s, c)
  {
    assert Valid(s, []) && AnswerOf(Run(s, []).calls[c]).Some?;
  }

  lemma ToldAfter(s: State, e: Event, c: nat)
    requires Enabled(s, e) && Own(e) && WillBeTold(Step(s, e), c)
    ensures WillBeTold(s, c)
  {
    var es :| Valid(Step(s, e), es) && (forall i :: 0 <= i < |es| ==> Own(es[i])) && c < |Run(Step(s, e), es).calls|
      && AnswerOf(Run(Step(s, e), es).calls[c]).Some?;
    OneStep(s, e);
    RunConcat(s, [e], es);
  }

  lemma CallingTold(s: State, c: nat)
    requires c < |s.calls| && s.calls[c].live && (s.calls[c].body.Calling? || s.calls[c].body.Applied?)
    ensures WillBeTold(s, c)
  {
    IsTold(Step(s, RpcTimeout(c)), c);
    ToldAfter(s, RpcTimeout(c), c);
  }

  lemma AbortingTold(s: State, c: nat)
    requires c < |s.calls| && s.calls[c].live && (s.calls[c].body.Aborting? || s.calls[c].body.AbortApplied?)
    ensures WillBeTold(s, c)
  {
    IsTold(Step(s, AbortReject(c)), c);
    ToldAfter(s, AbortReject(c), c);
  }

  lemma RunningTold(s: State, c: nat)
    requires Lined(s) && AllStaged(s) && Front(s, c) && Running(s.calls[c].body)
    ensures WillBeTold(s, c)
  {
    var t := Step(s, ChainTimeout);
    ChainTells(s, ChainTimeout, c);
    if Telling(s, ChainTimeout, c).Some? {
      IsTold(t, c);
    } else {
      AbortingTold(t, c);
    }
    ToldAfter(s, ChainTimeout, c);
  }

  lemma EndedTold(s: State, c: nat)
    requires Lined(s) && AllStaged(s) && Front(s, c) && (s.calls[c].body.Finished? || s.calls[c].body.Broken?)
    ensures WillBeTold(s, c)
  {
    ChainTells(s, ChainSettle, c);
    IsTold(Step(s, ChainSettle), c);
    ToldAfter(s, ChainSettle, c);
  }

  lemma Starts(s: State)
    requires Enabled(s, ChainStart)
    ensures var t := Step(s, ChainStart);
      t.flushChain == s.flushChain && HeadCall(t) && Running(t.calls[s.flushChain[0]].body)
  {
  }

  /** However long the chain ahead of it, the caller at position `k` is told. */
  lemma {:induction false} QueuedTold(s: State, k: nat, c: nat)
    requires Lined(s) && AllStaged(s) && k < |s.flushChain| && s.flushChain[k] == c
    ensures WillBeTold(s, c)
    decreases k, if Waiting(s.calls[s.flushChain[0]].body) then 1 else 0
  {
    var f := s.flushChain[0];
    if Waiting(s.calls[f].body) {
      Starts(s);
      StepLined(s, ChainStart);
      StepStaged(s, ChainStart);
      QueuedTold(Step(s, ChainStart), k, c);
      ToldAfter(s, ChainStart, c);
    } else if k == 0 {
      if Running(s.calls[c].body) {
        RunningTold(s, c);
      } else {
        EndedTold(s, c);
      }
    } else {
      var e := if Running(s.calls[f].body) then ChainTimeout else ChainSettle;
      FrontLeaves(s, e);
      StepLined(s, e);
      StepStaged(s, e);
      QueuedTold(Step(s, e), k - 1, c);
      ToldAfter(s, e, c);
    }
  }

  /** In every state of every session, a caller that has not been told anything is told
      something after some of the client's own steps, even if the worker and the database
      never answer again. */
  lemma NeverHangs(s: State, es: seq<Event>, c: nat)
    requires Initial(s) && Valid(s, es) && c < |Run(s, es).calls|
    ensures WillBeTold(Run(s, es), c)
  {
    RunLined(s, es);
    RunChained(s, es);
    var t := Run(s, es);
    if AnswerOf(t.calls[c]).Some? {
      IsTold(t, c);
    } else if OnChain(t.calls[c].body) {
      var k :| 0 <= k < |t.flushChain| && t.flushChain[k] == c;
      QueuedTold(t, k, c);
    } else if t.calls[c].body.Calling? || t.calls[c].body.Applied? {
      CallingTold(t, c);
    } else {
      AbortingTold(t, c);
    }
  }

  // ---------------------------------------------------------------------------
  // Which calls there are
  // ---------------------------------------------------------------------------

  /** The calls begun in the run, in order. */
  function Begun(es: seq<Event>): seq<Event> {
    if es == [] then [] else (if es[0].Begin? then [es[0]] else []) + Begun(es[1..])
  }

  /** There is one call per invocation, of its kind, and on the identity it names if it names
      one. */
  lemma {:induction false} CallsAreBegun(s: State, es: seq<Event>, c: nat)
    requires Valid(s, es) && c < |s.calls| + |Begun(es)|
    ensures var t := Run(s, es);
      && |t.calls| == |s.calls| + |Begun(es)|
      && (c < |s.calls| ==> t.calls[c].kind == s.calls[c].kind && t.calls[c].identity == s.calls[c].identity)
      && (|s.calls| <= c ==>
            var e := Begun(es)[c - |s.calls|];
            && e.Begin? && t.calls[c].kind == e.kind
            && t.calls[c].identity == if Mutates(e.kind) then e.identity else Minted(c))
    decreases |es|
  {
    if es != [] {
      var e := es[0];
      OneMoreCall(s, e);
      if c < |s.calls| {
        StepMoves(s, e, c);
      }
      CallsAreBegun(Step(s, e), es[1..], c);
    }
  }

  lemma OneMoreCall(s: State, e: Event)
    requires Enabled(s, e)
    ensures |Step(s, e).calls| == |s.calls| + (if e.Begin? then 1 else 0)
    ensures e.Begin? ==>
      && Step(s, e).calls[|s.calls|].kind == e.kind
      && Step(s, e).calls[|s.calls|].identity == if Mutates(e.kind) then e.identity else Minted(|s.calls|)
  {
  }
}
