/** What clearing the session, importing a state, resetting the numbers and registering do,
    over everything that happens afterwards. */
module Lifecycle {
  import opened Helpers
  import opened Persistence
  import opened Identities
  import opened FlushOrder
  import opened Release

  // ---------------------------------------------------------------------------
  // Clearing
  // ---------------------------------------------------------------------------

  lemma {:induction false} RunGone(s: State, es: seq<Event>, id: Identity)
    requires Minting(s) && Valid(s, es) && Known(s, id) && id !in s.worker
    ensures id !in Run(s, es).worker
    decreases |es|
  {
    if es != [] {
      GoneStaysGone(s, es[0], id);
      KnownStays(s, es[0], id);
      StepMinting(s, es[0]);
      RunGone(Step(s, es[0]), es[1..], id);
    }
  }

  /** Once a session clear took effect, no context that existed or was minted before is ever in
      the worker again. */
  lemma ClearedForGood(s: State, c: nat, es: seq<Event>, id: Identity)
    requires Reachable(s) && Enabled(s, WorkerApply(c)) && s.calls[c].kind == Clear && Known(s, id)
    requires Valid(Step(s, WorkerApply(c)), es)
    ensures id !in Run(Step(s, WorkerApply(c)), es).worker
  {
    ReachableSound(s);
    StepMinting(s, WorkerApply(c));
    KnownStays(s, WorkerApply(c), id);
    RunGone(Step(s, WorkerApply(c)), es, id);
  }

  // ---------------------------------------------------------------------------
  // Contexts
  // ---------------------------------------------------------------------------

  lemma {:induction false} RunGrows(s: State, es: seq<Event>, id: Identity)
    requires Minting(s) && Valid(s, es) && KeepsRun(s, es) && Known(s, id)
    ensures ContentOf(s.worker, id) <= ContentOf(Run(s, es).worker, id)
    decreases |es|
  {
    if es != [] {
      ContextGrows(s, es[0], id);
      KnownStays(s, es[0], id);
      StepMinting(s, es[0]);
      RunGrows(Step(s, es[0]), es[1..], id);
    }
  }

  /** What the worker did for a call is in the context of its identity until the session is
      cleared. */
  lemma MutationStays(s: State, c: nat, es: seq<Event>)
    requires Reachable(s) && Enabled(s, WorkerApply(c)) && s.calls[c].kind != Clear
    requires Valid(Step(s, WorkerApply(c)), es) && KeepsRun(Step(s, WorkerApply(c)), es)
    ensures Mutation(c) in ContentOf(Run(Step(s, WorkerApply(c)), es).worker, s.calls[c].identity)
  {
    ReachableSound(s);
    var t := Step(s, WorkerApply(c));
    StepMinting(s, WorkerApply(c));
    assert s.calls[c].identity in t.worker;
    RunGrows(t, es, s.calls[c].identity);
  }

  /** An import makes exactly the imported content the new identity's context, and it stays
      part of that until the session is cleared. */
  lemma ImportedStays(s: State, c: nat, g: nat, content: Content, es: seq<Event>)
    requires Reachable(s) && Enabled(s, ImportApply(c, g, content))
    requires Valid(Step(s, ImportApply(c, g, content)), es) && KeepsRun(Step(s, ImportApply(c, g, content)), es)
    ensures var t := Step(s, ImportApply(c, g, content));
      && t.worker == s.worker[s.calls[c].identity := content]
      && content <= ContentOf(Run(t, es).worker, s.calls[c].identity)
  {
    ReachableSound(s);
    var e := ImportApply(c, g, content);
    StepMinting(s, e);
    assert s.calls[c].identity == Minted(c);
    RunGrows(Step(s, e), es, Minted(c));
  }

  /** A compensating abort that took effect, and whose second flush answered well with the
      session not cleared and no abandoned import or reset taking effect meanwhile, is in the
      row if and only if the row's export is of the removal's identity. */
  lemma AbortReachesRow(s: State, c: nat, mending: seq<Event>)
    requires Reachable(s) && s.book.row && Enabled(s, AbortApply(c))
    requires var t := Step(s, AbortApply(c));
      Valid(t, mending) && NoLateEffect(t, mending) && KeepsRun(t, mending) && Mended(Run(t, mending), c)
    ensures var u := Run(Step(s, AbortApply(c)), mending);
      && u.book.disk.Stored? && u.calls[c].body.second <= u.book.disk.src
      && (Saved(u, c, Undo(c)) <==> RowNames(u, c))
  {
    var t := Step(s, AbortApply(c));
    OneStep(s, AbortApply(c));
    ReachableOnward(s, [AbortApply(c)]);
    AbortIsSaved(t, c, mending);
    ReachableSound(t);
    assert s.calls[c].identity in t.worker;
    RunGrows(t, mending, s.calls[c].identity);
    IdentityStays(t, mending, c);
  }

  lemma {:induction false} IdentityStays(s: State, es: seq<Event>, c: nat)
    requires Valid(s, es) && c < |s.calls|
    ensures c < |Run(s, es).calls| && Run(s, es).calls[c].identity == s.calls[c].identity
    decreases |es|
  {
    if es != [] {
      StepMoves(s, es[0], c);
      IdentityStays(Step(s, es[0]), es[1..], c);
    }
  }

  // ---------------------------------------------------------------------------
  // Importing
  // ---------------------------------------------------------------------------

  /** An import that is over. */
  predicate PastImport(b: Body) { b.Imported? || b.Broken? || b.Finished? || b.Completed? || b.Rejected? }

  lemma {:induction false} FloorStays(s: State, es: seq<Event>, c: nat, floor: nat)
    requires Valid(s, es) && c < |s.calls| && s.calls[c].kind.Import?
    requires s.calls[c].body == Importing(floor) || PastImport(s.calls[c].body)
    ensures var t := Run(s, es);
      c < |t.calls| && t.calls[c].kind.Import? && (t.calls[c].body == Importing(floor) || PastImport(t.calls[c].body))
    decreases |es|
  {
    if es != [] {
      StepMoves(s, es[0], c);
      FloorKept(s, es[0], c);
      FloorStays(Step(s, es[0]), es[1..], c, floor);
    }
  }

  lemma FloorKept(s: State, e: Event, c: nat)
    requires Enabled(s, e) && c < |s.calls| && (s.calls[c].body.Importing? || PastImport(s.calls[c].body))
    ensures c < |Step(s, e).calls|
    ensures Step(s, e).calls[c].body.Importing? ==> Step(s, e).calls[c].body == s.calls[c].body
  {
    StepMoves(s, e, c);
  }

  /** Every write of the epoch that has resolved is of generation `g` or older. */
  ghost predicate DurableUpTo(b: Book, g: nat) {
    forall i :: 0 <= i < |b.landed| ==>
      var a := b.landed[i].attempt;
      a < |b.attempts| && b.landed[i].epoch == b.epoch && b.attempts[a].phase.Done? ==> b.attempts[a].gen <= g
  }

  /** An import that starts when the durable mark is at some number, however long it runs and
      whatever happens meanwhile, is accepted if and only if its generation is not below that
      mark; so it is never older than any state made durable in the epoch before it started. */
  lemma ImportNeverRollsBack(s: State, es: seq<Event>, c: nat, g: nat, content: Content)
    requires Reachable(s) && Enabled(s, ChainStart) && s.flushChain[0] == c
    requires s.calls[c].kind == Import && s.calls[c].body == Queued
    requires Valid(Step(s, ChainStart), es)
    requires var t := Run(Step(s, ChainStart), es); c < |t.calls| && t.calls[c].body.Importing?
    ensures var t := Run(Step(s, ChainStart), es);
      && (Enabled(t, ImportApply(c, g, content)) <==> s.book.current <= g)
      && (Enabled(t, ImportApply(c, g, content)) ==> DurableUpTo(s.book, g))
  {
    ReachableSound(s);
    FloorStays(Step(s, ChainStart), es, c, s.book.current);
  }

  // ---------------------------------------------------------------------------
  // Resetting
  // ---------------------------------------------------------------------------

  /** Neither a reset nor an import takes effect. */
  predicate Steady(es: seq<Event>) { forall i :: 0 <= i < |es| ==> !es[i].ResetRun? && !es[i].ImportReturn? }

  /** Since there were `n` attempts, those issued are numbered one, two, three, ... in `epoch`,
      and no number is beyond them. */
  ghost predicate Consecutive(b: Book, n: nat, epoch: nat) {
    && n <= |b.attempts| && b.epoch == epoch && b.current <= b.issued == |b.attempts| - n
    && (forall k :: n <= k < |b.attempts| ==> b.attempts[k].gen == k - n + 1 && b.attempts[k].epoch == epoch)
  }

  lemma SameConsecutive(b: Book, x: Book, n: nat, epoch: nat)
    requires Consecutive(b, n, epoch) && |x.attempts| == |b.attempts| && x.epoch == b.epoch
    requires x.issued == b.issued && x.current <= x.issued
    requires forall k :: 0 <= k < |b.attempts| ==> x.attempts[k].gen == b.attempts[k].gen
    requires forall k :: 0 <= k < |b.attempts| ==> x.attempts[k].epoch == b.attempts[k].epoch
    ensures Consecutive(x, n, epoch)
  {
  }

  lemma StepConsecutive(s: State, e: Event, n: nat, epoch: nat)
    requires Inv(s.book) && Consecutive(s.book, n, epoch) && Enabled(s, e) && Steady([e])
    ensures Consecutive(Step(s, e).book, n, epoch)
  {
    assert ![e][0].ResetRun? && ![e][0].ImportReturn?;
    AttemptsStep(s, e);
    if |Step(s, e).book.attempts| == |s.book.attempts| {
      forall a: nat | a < |s.book.attempts|
        ensures Step(s, e).book.attempts[a].gen == s.book.attempts[a].gen
        ensures Step(s, e).book.attempts[a].epoch == s.book.attempts[a].epoch
      {
        StepKeepsNumber(s, e, a);
      }
      CountersKept(s, e);
      SameConsecutive(s.book, Step(s, e).book, n, epoch);
    }
  }

  /** Only a reset, an import or a new flush changes the issue counter, and a write moves the
      mark up to a number that was issued. */
  lemma CountersKept(s: State, e: Event)
    requires Inv(s.book) && Enabled(s, e) && !e.ResetRun? && !e.ImportReturn?
    requires |Step(s, e).book.attempts| == |s.book.attempts|
    ensures Step(s, e).book.issued == s.book.issued && Step(s, e).book.epoch == s.book.epoch
    ensures Step(s, e).book.current <= s.book.issued
  {
    if !TouchesBook(e) {
      OthersKeepBook(s, e);
    }
  }

  lemma {:induction false} RunConsecutive(s: State, es: seq<Event>, n: nat, epoch: nat)
    requires Inv(s.book) && Consecutive(s.book, n, epoch) && Valid(s, es) && Steady(es)
    ensures Consecutive(Run(s, es).book, n, epoch)
    decreases |es|
  {
    if es != [] {
      assert Steady([es[0]]);
      StepInv(s, es[0]);
      StepConsecutive(s, es[0], n, epoch);
      RunConsecutive(Step(s, es[0]), es[1..], n, epoch);
    }
  }

  /** After a reset, until the next one or an import, the flushes of the new epoch are numbered
      one, two, three, ... in the order they were issued. */
  lemma NumbersFromOne(s: State, es: seq<Event>)
    requires Reachable(s) && Enabled(s, ResetRun) && Valid(Step(s, ResetRun), es) && Steady(es)
    ensures Consecutive(Run(Step(s, ResetRun), es).book, |s.book.attempts|, s.book.epoch + 1)
  {
    ReachableSound(s);
    StepInv(s, ResetRun);
    RunConsecutive(Step(s, ResetRun), es, |s.book.attempts|, s.book.epoch + 1);
  }

  /** The same from the start of a session. */
  lemma NumbersFromStart(s: State, es: seq<Event>)
    requires Initial(s) && Valid(s, es) && Steady(es)
    ensures Consecutive(Run(s, es).book, 0, 0)
  {
    RunConsecutive(s, es, 0, 0);
  }

  // ---------------------------------------------------------------------------
  // Registering
  // ---------------------------------------------------------------------------

  lemma StepDisk(s: State, e: Event)
    requires Enabled(s, e)
    ensures s.book.row ==> Step(s, e).book.row
    ensures Step(s, e).book.landed == s.book.landed ==>
      Step(s, e).book.disk == s.book.disk || (e.RowPut? && Step(s, e).book.disk.NoState?)
  {
    if !TouchesBook(e) {
      OthersKeepBook(s, e);
    }
  }

  lemma {:induction false} RunDisk(s: State, es: seq<Event>)
    requires Valid(s, es) && s.book.row && s.book.disk.NoState?
    ensures Run(s, es).book.row && s.book.landed <= Run(s, es).book.landed
    ensures Run(s, es).book.landed == s.book.landed ==> Run(s, es).book.disk.NoState?
    decreases |es|
  {
    LandedGrows(s, es);
    if es != [] {
      StepDisk(s, es[0]);
      LandedGrows(Step(s, es[0]), es[1..]);
      OneStep(s, es[0]);
      LandedGrows(s, [es[0]]);
      if Run(s, es).book.landed == s.book.landed {
        RunDisk(Step(s, es[0]), es[1..]);
      } else {
        RunRow(Step(s, es[0]), es[1..]);
      }
    }
  }

  lemma {:induction false} RunRow(s: State, es: seq<Event>)
    requires Valid(s, es) && s.book.row
    ensures Run(s, es).book.row
    decreases |es|
  {
    if es != [] {
      StepDisk(s, es[0]);
      RunRow(Step(s, es[0]), es[1..]);
    }
  }

  /** Registration leaves a row without a provider state, and it has none until the next write
      becomes durable. */
  lemma RegistersEmpty(s: State, es: seq<Event>)
    requires Valid(Step(s, RowPut), es)
    ensures var t := Run(Step(s, RowPut), es);
      t.book.row && (|t.book.landed| == |s.book.landed| ==> t.book.disk == NoState)
  {
    RunDisk(Step(s, RowPut), es);
  }
}
