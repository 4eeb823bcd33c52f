/** The module-level variables of the crypto-worker wrapper and the synchronous
    sections that update them, with the worker, the Dexie row and the timers around
    them.  Each method is one event of `Persistence`; `Serve` performs any schedule. */
module CryptoModule {
  import opened Helpers
  import opened Persistence
  import opened Release
  import A = Answers

  /** The worker acts, fails or is given up on. */
  predicate OfWorker(e: Event) {
    || e.WorkerApply? || e.AbortApply? || e.ImportApply?
    || e.RpcReject? || e.RpcTimeout? || e.AbortReject? || e.ImportReject?
    || e.ExportRead? || e.ExportFail?
  }

  /** The write chain or the row moves. */
  predicate OfWriteChain(e: Event) {
    || e.ExportReturn? || e.ResetRun? || e.RowPut?
    || e.WriteCheck? || e.WriteLand? || e.WriteFail? || e.WriteFinish?
  }

  class Wrapper {
    var currentGeneration: nat
    var issuedGeneration: nat
    var generationEpoch: nat
    var flushChain: seq<nat>
    var writeChain: seq<WriteTask>
    var calls: seq<Call>
    var attempts: seq<Attempt>
    var worker: Worker
    var row: bool
    var disk: Disk
    var landed: seq<Landing>

    function Ledger(): Book
      reads this
    {
      Book(currentGeneration, issuedGeneration, generationEpoch, writeChain, attempts, row, disk, landed)
    }

    function View(): State
      reads this
    {
      State(Ledger(), flushChain, calls, worker)
    }

    constructor (worker: Worker, row: bool, disk: Disk)
      requires !disk.Stored? && forall id :: id in worker ==> id.Given?
      ensures Initial(View()) && Inv(Ledger())
      ensures this.worker == worker && this.row == row && this.disk == disk
    {
      currentGeneration, issuedGeneration, generationEpoch := 0, 0, 0;
      flushChain, writeChain, calls, attempts, landed := [], [], [], [], [];
      this.worker, this.row, this.disk := worker, row, disk;
    }

    method BumpCurrentGeneration(generation: nat)
      requires Inv(Ledger())
      modifies this`currentGeneration, this`issuedGeneration
      ensures Ledger() == Bump(old(Ledger()), generation) && Inv(Ledger())
    {
      BumpInv(Ledger(), generation);
      currentGeneration := Max(currentGeneration, generation);
      issuedGeneration := Max(issuedGeneration, currentGeneration);
    }

    /** The part of `doFlush` that runs before its first await. */
    method IssueFlush(id: Identity) returns (attempt: nat)
      requires Inv(Ledger())
      modifies this`issuedGeneration, this`attempts
      ensures attempt == |old(attempts)|
      ensures Ledger() == Issue(old(Ledger()), id, ContentOf(worker, id)) && Inv(Ledger())
    {
      IssueInv(Ledger(), id, ContentOf(worker, id));
      attempt := |attempts|;
      issuedGeneration := issuedGeneration + 1;
      attempts := attempts + [Attempt(generationEpoch, issuedGeneration, id, ContentOf(worker, id), Requested)];
    }

    method SetCallBody(c: nat, b: Body)
      requires c < |calls|
      modifies this`calls
      ensures View() == SetBody(old(View()), c, b)
    {
      calls := calls[c := calls[c].(body := b)];
    }

    /** A wrapped method is invoked; only an import goes straight to the chain. */
    method Invoke(kind: Kind, id: Identity) returns (c: nat)
      modifies this`calls, this`flushChain
      ensures c == |old(calls)|
      ensures View() == Step(old(View()), Begin(kind, id))
    {
      c := |calls|;
      var named := if Mutates(kind) then id else Minted(c);
      if kind.Import? {
        calls := calls + [Call(kind, named, Queued, true)];
        flushChain := flushChain + [c];
      } else {
        calls := calls + [Call(kind, named, Calling, true)];
      }
    }

    /** `runOnChain` after the worker call resolved. */
    method RunOnChain(c: nat)
      requires Enabled(View(), RpcReturn(c))
      modifies this`calls, this`flushChain
      ensures View() == Step(old(View()), RpcReturn(c))
    {
      SetCallBody(c, Queued);
      flushChain := flushChain + [c];
    }

    /** The chain's previous link settled, so the front body starts. */
    method StartFront()
      requires Inv(Ledger()) && Enabled(View(), ChainStart)
      modifies this`calls, this`issuedGeneration, this`attempts, this`writeChain
      ensures View() == Step(old(View()), ChainStart) && Inv(Ledger())
    {
      var c := flushChain[0];
      if calls[c].body.AbortQueued? {
        var a := IssueFlush(calls[c].identity);
        SetCallBody(c, AbortFlushing(calls[c].body.first, a));
      } else if calls[c].kind.Import? {
        SetCallBody(c, Importing(currentGeneration));
      } else if calls[c].kind.Init? || calls[c].kind.Clear? {
        AppendTaskInv(Ledger(), FlipOf(c));
        writeChain := writeChain + [FlipOf(c)];
        SetCallBody(c, Flipping);
      } else {
        var a := IssueFlush(calls[c].identity);
        SetCallBody(c, Flushing(a));
      }
    }

    /** `withTimeout` fires on the front body. */
    method TimeOutFront()
      requires Enabled(View(), ChainTimeout)
      modifies this`calls, this`flushChain
      ensures View() == Step(old(View()), ChainTimeout)
    {
      var c := flushChain[0];
      flushChain := flushChain[1..];
      if calls[c].kind.Advance? {
        SetCallBody(c, Rejected);
      } else if calls[c].kind.Stage? {
        if calls[c].body.Flushing? {
          SetCallBody(c, Aborting(calls[c].body.via));
        } else if calls[c].body.AbortFlushing? {
          SetCallBody(c, Undone(calls[c].body.first, calls[c].body.second, false));
        }
      } else {
        calls := calls[c := calls[c].(live := false)];
      }
    }

    /** The front body settled before its timeout. */
    method SettleFront()
      requires Enabled(View(), ChainSettle)
      modifies this`calls, this`flushChain
      ensures View() == Step(old(View()), ChainSettle)
      ensures old(calls[flushChain[0]].body.Flushing?) ==>
        var c, a := old(flushChain[0]), old(calls[flushChain[0]].body.via);
        && (calls[c].body == Released(a) <==> old(attempts)[a].phase != Done(Failed))
        && (calls[c].body == Aborting(a) <==> old(attempts)[a].phase == Done(Failed) && calls[c].kind == Stage)
    {
      var c := flushChain[0];
      flushChain := flushChain[1..];
      var body := calls[c].body;
      if body.Flushing? {
        if attempts[body.via].phase.outcome != Failed {
          SetCallBody(c, Released(body.via));
        } else if calls[c].kind.Stage? {
          SetCallBody(c, Aborting(body.via));
        } else {
          SetCallBody(c, Rejected);
        }
      } else if body.AbortFlushing? {
        SetCallBody(c, Undone(body.first, body.second, attempts[body.second].phase.outcome != Failed));
      } else if body.Finished? {
        SetCallBody(c, Completed);
      } else {
        SetCallBody(c, Rejected);
      }
    }

    /** The compensating abort resolved: queue the flush of the undone state. */
    method RunOnChainAfterAbort(c: nat)
      requires Enabled(View(), AbortReturn(c))
      modifies this`calls, this`flushChain
      ensures View() == Step(old(View()), AbortReturn(c))
    {
      SetCallBody(c, AbortQueued(calls[c].body.first));
      flushChain := flushChain + [c];
    }

    /** An identity was minted and the reset ran: its first persist is issued. */
    method FlushAfterReset(c: nat)
      requires Inv(Ledger()) && Enabled(View(), InitFlush(c))
      modifies this`calls, this`issuedGeneration, this`attempts
      ensures View() == Step(old(View()), InitFlush(c)) && Inv(Ledger())
    {
      var a := IssueFlush(calls[c].identity);
      SetCallBody(c, Flushing(a));
    }

    /** The worker accepted an import at or above the floor. */
    method FinishImport(c: nat)
      requires Inv(Ledger()) && Enabled(View(), ImportReturn(c))
      modifies this`calls, this`currentGeneration, this`issuedGeneration
      ensures View() == Step(old(View()), ImportReturn(c)) && Inv(Ledger())
    {
      BumpCurrentGeneration(calls[c].body.gen);
      SetCallBody(c, Finished);
    }

    /** `resetGeneration`, at the front of the write chain. */
    method ResetGeneration()
      requires Inv(Ledger()) && Enabled(View(), ResetRun)
      modifies this`calls, this`currentGeneration, this`issuedGeneration, this`generationEpoch, this`writeChain
      ensures View() == Step(old(View()), ResetRun) && Inv(Ledger())
    {
      FlipInv(Ledger());
      var c := writeChain[0].call;
      currentGeneration := 0;
      issuedGeneration := 0;
      generationEpoch := generationEpoch + 1;
      writeChain := writeChain[1..];
      SetCallBody(c, if calls[c].kind.Init? then Flipped else Finished);
    }

    /** The export replied: `doFlush` queues its write. */
    method RunOnWriteChain(a: nat)
      requires Inv(Ledger()) && Enabled(View(), ExportReturn(a))
      modifies this`attempts, this`writeChain
      ensures View() == Step(old(View()), ExportReturn(a)) && Inv(Ledger())
    {
      StepInv(View(), ExportReturn(a));
      attempts := attempts[a := attempts[a].(phase := InLine(attempts[a].phase.snap))];
      writeChain := writeChain + [WriteOf(a)];
    }

    /** The write-time check. */
    method CheckSuperseded() returns (skipped: bool)
      requires Inv(Ledger()) && Enabled(View(), WriteCheck)
      modifies this`attempts, this`writeChain
      ensures View() == Step(old(View()), WriteCheck) && Inv(Ledger())
      ensures skipped == Superseded(old(Ledger()), old(attempts[writeChain[0].attempt]))
    {
      CheckWriteInv(Ledger());
      var a := writeChain[0].attempt;
      skipped := attempts[a].epoch != generationEpoch || attempts[a].gen <= currentGeneration;
      if skipped {
        attempts := attempts[a := attempts[a].(phase := Done(Skipped))];
        writeChain := writeChain[1..];
      } else {
        attempts := attempts[a := attempts[a].(phase := Writing(attempts[a].phase.snap))];
      }
    }

    /** The Dexie write resolved: advance the high-water mark to match. */
    method FinishFrontWrite()
      requires Inv(Ledger()) && Enabled(View(), WriteFinish)
      modifies this`attempts, this`writeChain, this`currentGeneration, this`issuedGeneration
      ensures View() == Step(old(View()), WriteFinish) && Inv(Ledger())
    {
      var a := writeChain[0].attempt;
      ghost var before := Ledger();
      currentGeneration := Max(currentGeneration, attempts[a].gen);
      issuedGeneration := Max(issuedGeneration, currentGeneration);
      attempts := attempts[a := attempts[a].(phase := Done(Wrote))];
      writeChain := writeChain[1..];
      assert Ledger() == FinishWrite(before);
      FinishWriteInv(before);
    }

    // -------------------------------------------------------------------------
    // The worker, the Dexie row and the timers
    // -------------------------------------------------------------------------

    /** The worker performs a wrapped call, a compensating abort or an import. */
    method WorkerActs(e: Event)
      requires Enabled(View(), e) && (e.WorkerApply? || e.AbortApply? || e.ImportApply?)
      modifies this`calls, this`worker
      ensures View() == Step(old(View()), e)
    {
      if e.WorkerApply? {
        var id := calls[e.call].identity;
        worker := if calls[e.call].kind.Clear? then map[] else worker[id := ContentOf(worker, id) + {Mutation(e.call)}];
        SetCallBody(e.call, Applied);
      } else if e.AbortApply? {
        var id := calls[e.call].identity;
        worker := worker[id := ContentOf(worker, id) + {Undo(e.call)}];
        SetCallBody(e.call, AbortApplied(calls[e.call].body.first));
      } else {
        worker := worker[Minted(e.call) := e.content];
        SetCallBody(e.call, Imported(e.gen));
      }
    }

    /** A worker call rejects or its caller's timeout fires. */
    method WorkerFails(e: Event)
      requires Enabled(View(), e) && (e.RpcReject? || e.RpcTimeout? || e.AbortReject? || e.ImportReject?)
      modifies this`calls
      ensures View() == Step(old(View()), e)
    {
      if e.RpcReject? {
        SetCallBody(e.call, Rejected);
      } else if e.ImportReject? {
        SetCallBody(e.call, Broken);
      } else {
        calls := calls[e.call := calls[e.call].(live := false)];
      }
    }

    /** The worker reads its state for an export, or fails it. */
    method WorkerExports(e: Event)
      requires Inv(Ledger()) && Enabled(View(), e) && (e.ExportRead? || e.ExportFail?)
      modifies this`attempts
      ensures View() == Step(old(View()), e) && Inv(Ledger())
    {
      StepInv(View(), e);
      var x := attempts[e.attempt];
      var p := if e.ExportRead? then ReadOut(worker[x.identity]) else Done(Failed);
      attempts := attempts[e.attempt := x.(phase := p)];
    }

    /** The front write becomes durable, in the row if there is one. */
    method LandFrontWrite()
      requires Inv(Ledger()) && Enabled(View(), WriteLand)
      modifies this`attempts, this`disk, this`landed
      ensures View() == Step(old(View()), WriteLand) && Inv(Ledger())
    {
      LandInv(Ledger());
      var a := writeChain[0].attempt;
      var snap := attempts[a].phase.snap;
      attempts := attempts[a := attempts[a].(phase := Landed(snap))];
      if row {
        disk := Stored(a, snap);
      }
      landed := landed + [Landing(a, generationEpoch)];
    }

    method FailFrontWrite()
      requires Inv(Ledger()) && Enabled(View(), WriteFail)
      modifies this`attempts, this`writeChain
      ensures View() == Step(old(View()), WriteFail) && Inv(Ledger())
    {
      FailWriteInv(Ledger());
      var a := writeChain[0].attempt;
      attempts := attempts[a := attempts[a].(phase := Done(Failed))];
      writeChain := writeChain[1..];
    }

    /** Registration puts the identity row. */
    method PutIdentity()
      requires Inv(Ledger())
      modifies this`disk, this`row
      ensures View() == Step(old(View()), RowPut) && Inv(Ledger())
    {
      row, disk := true, NoState;
    }

    // -------------------------------------------------------------------------
    // Schedules
    // -------------------------------------------------------------------------

    method PerformWorker(e: Event)
      requires Inv(Ledger()) && Enabled(View(), e) && OfWorker(e)
      modifies this
      ensures View() == Step(old(View()), e)
    {
      if e.ExportRead? || e.ExportFail? {
        WorkerExports(e);
      } else if e.WorkerApply? || e.AbortApply? || e.ImportApply? {
        WorkerActs(e);
      } else {
        WorkerFails(e);
      }
    }

    method PerformWrite(e: Event)
      requires Inv(Ledger()) && Enabled(View(), e) && OfWriteChain(e)
      modifies this
      ensures View() == Step(old(View()), e)
    {
      if e.ExportReturn? {
        RunOnWriteChain(e.attempt);
      } else if e.ResetRun? {
        ResetGeneration();
      } else if e.WriteCheck? {
        var _ := CheckSuperseded();
      } else if e.WriteLand? {
        LandFrontWrite();
      } else if e.WriteFail? {
        FailFrontWrite();
      } else if e.WriteFinish? {
        FinishFrontWrite();
      } else {
        PutIdentity();
      }
    }

    method PerformCall(e: Event)
      requires Inv(Ledger()) && Enabled(View(), e) && !OfWorker(e) && !OfWriteChain(e)
      modifies this
      ensures View() == Step(old(View()), e)
    {
      if e.Begin? {
        var _ := Invoke(e.kind, e.identity);
      } else if e.RpcReturn? {
        RunOnChain(e.call);
      } else if e.ChainStart? {
        StartFront();
      } else if e.ChainTimeout? {
        TimeOutFront();
      } else if e.ChainSettle? {
        SettleFront();
      } else if e.AbortReturn? {
        RunOnChainAfterAbort(e.call);
      } else if e.ImportReturn? {
        FinishImport(e.call);
      } else {
        FlushAfterReset(e.call);
      }
    }

    method Perform(e: Event)
      requires Inv(Ledger()) && Enabled(View(), e)
      modifies this
      ensures View() == Step(old(View()), e) && Inv(Ledger())
    {
      StepInv(View(), e);
      if OfWorker(e) {
        PerformWorker(e);
      } else if OfWriteChain(e) {
        PerformWrite(e);
      } else {
        PerformCall(e);
      }
    }

    method PerformAll(es: seq<Event>)
      requires Inv(Ledger()) && Valid(View(), es)
      modifies this
      ensures View() == Run(old(View()), es) && Inv(Ledger())
    {
      var i := 0;
      while i < |es|
        invariant i <= |es| && Inv(Ledger()) && Valid(View(), es[i..])
        invariant Run(View(), es[i..]) == Run(old(View()), es)
      {
        assert es[i..][0] == es[i] && es[i..][1..] == es[i + 1..];
        Perform(es[i]);
        i := i + 1;
      }
    }

    /** Any schedule, from any state a session can reach: stale writes never land, and
        where the row exists, the session is not cleared and no abandoned import or reset
        takes effect, whatever was released in it is in the row exactly if the row's export
        is of its identity. */
    method Serve(es: seq<Event>)
      requires Reachable(View()) && Valid(View(), es)
      modifies this
      ensures View() == Run(old(View()), es) && Reachable(View())
      ensures NoStaleWrites(Ledger())
      ensures old(row && KeepsRun(View(), es) && NoLateEffect(View(), es)) ==>
        Safe(View(), |old(attempts)|, |old(calls)|)
    {
      ReachableSound(View());
      ReachableOnward(View(), es);
      if row && KeepsRun(View(), es) && NoLateEffect(View(), es) {
        CrashSafety(View(), es);
      }
      PerformAll(es);
      InvHasNoStaleWrites(Ledger());
    }

    /** A whole session: every caller is told at most one thing, and where no import or reset
        was abandoned, every caller that was released was released on a flush that wrote. */
    method ServeSession(es: seq<Event>)
      requires Initial(View()) && Inv(Ledger()) && Valid(View(), es)
      modifies this
      ensures View() == Run(old(View()), es)
      ensures forall c: nat :: c < |calls| ==> A.Told(old(View()), es, c) == A.Listed(A.AnswerOf(calls[c]))
      ensures old(PatientRun(View(), es)) ==> ReleasesWrote(View())
    {
      if PatientRun(View(), es) {
        AllReleasedWrote(View(), es);
      }
      forall c: nat | c < |Run(View(), es).calls|
        ensures A.Told(View(), es, c) == A.Listed(A.AnswerOf(Run(View(), es).calls[c]))
      {
        A.AnsweredOnce(View(), es, c);
      }
      PerformAll(es);
    }
  }
}
