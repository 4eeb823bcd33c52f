/** Which identities the worker can hold: a handle is minted once, so a context that a
    session clear dropped never comes back, and a new context never replaces another. */
module Identities {
  import opened Persistence

  /** The call's context has not been minted yet. */
  predicate BeforeMint(x: Call) {
    (x.kind.Init? && x.body.Calling?) || (x.kind.Import? && (x.body.Queued? || x.body.Importing?))
  }

  predicate Known(s: State, id: Identity) {
    id.Minted? ==> id.call < |s.calls| && !BeforeMint(s.calls[id.call])
  }

  /** The worker took the call, so it knew the identity. */
  predicate Taken(x: Call) { Mutates(x.kind) && !x.body.Calling? && !x.body.Rejected? }

  /** Imports go straight to the chain, and only imports import. */
  predicate Imports(x: Call) {
    && (x.kind.Import? ==> !x.body.Calling? && !x.body.Applied?)
    && (x.body.Importing? || x.body.Imported? ==> x.kind.Import?)
  }

  ghost predicate Minting(s: State) {
    && (forall c :: 0 <= c < |s.calls| ==> Imports(s.calls[c]))
    && (forall id :: id in s.worker ==> Known(s, id))
    && (forall c :: 0 <= c < |s.calls| && Taken(s.calls[c]) ==> Known(s, s.calls[c].identity))
    && (forall c :: 0 <= c < |s.calls| && !Mutates(s.calls[c].kind) ==> s.calls[c].identity == Minted(c))
    && (forall a :: 0 <= a < |s.book.attempts| ==> Known(s, s.book.attempts[a].identity))
  }

  lemma MintedOnce(s: State, e: Event, c: nat)
    requires Enabled(s, e) && c < |s.calls| && Imports(s.calls[c]) && !BeforeMint(s.calls[c])
    ensures c < |Step(s, e).calls| && !BeforeMint(Step(s, e).calls[c])
  {
    StepMoves(s, e, c);
  }

  lemma KnownStays(s: State, e: Event, id: Identity)
    requires Minting(s) && Enabled(s, e) && Known(s, id)
    ensures Known(Step(s, e), id)
  {
    if id.Minted? {
      MintedOnce(s, e, id.call);
    }
  }

  /** A context the worker did not hold is the one minted in this step. */
  lemma NewContext(s: State, e: Event, id: Identity)
    requires Minting(s) && Enabled(s, e) && id in Step(s, e).worker && id !in s.worker
    ensures id.Minted? && id.call < |s.calls| && BeforeMint(s.calls[id.call]) && Known(Step(s, e), id)
  {
  }

  lemma TakenBefore(s: State, e: Event, c: nat)
    requires Enabled(s, e) && c < |s.calls| && Taken(Step(s, e).calls[c])
    ensures Taken(s.calls[c]) || s.calls[c].identity in s.worker
    ensures Step(s, e).calls[c].identity == s.calls[c].identity
  {
    StepMoves(s, e, c);
    if s.calls[c].body.Calling? {
      AppliedWasHeld(s, e, c);
    }
  }

  lemma AppliedWasHeld(s: State, e: Event, c: nat)
    requires Enabled(s, e) && BodyIs(s, c, Calling) && Mutates(s.calls[c].kind)
    requires c < |Step(s, e).calls| && Step(s, e).calls[c].body.Applied?
    ensures s.calls[c].identity in s.worker
  {
  }

  lemma CallsMinting(s: State, e: Event, c: nat)
    requires Minting(s) && Enabled(s, e) && c < |Step(s, e).calls|
    ensures Imports(Step(s, e).calls[c])
    ensures !Mutates(Step(s, e).calls[c].kind) ==> Step(s, e).calls[c].identity == Minted(c)
    ensures Taken(Step(s, e).calls[c]) ==> Known(s, Step(s, e).calls[c].identity)
  {
    if c < |s.calls| {
      StepMoves(s, e, c);
      if Taken(Step(s, e).calls[c]) {
        TakenBefore(s, e, c);
      }
    } else {
      NewCalls(s, e);
    }
  }

  /** A new attempt is of a call the worker took, or whose context is minted. */
  lemma NewAttempt(s: State, e: Event, a: nat)
    requires Minting(s) && Enabled(s, e) && a < |Step(s, e).book.attempts|
    ensures Known(s, Step(s, e).book.attempts[a].identity)
  {
    if !TouchesBook(e) {
      OthersKeepBook(s, e);
    }
  }

  lemma StepMinting(s: State, e: Event)
    requires Minting(s) && Enabled(s, e)
    ensures Minting(Step(s, e))
  {
    var t := Step(s, e);
    forall id | id in t.worker ensures Known(t, id) {
      if id in s.worker {
        KnownStays(s, e, id);
      } else {
        NewContext(s, e, id);
      }
    }
    forall c: nat | c < |t.calls|
      ensures Imports(t.calls[c]) && (!Mutates(t.calls[c].kind) ==> t.calls[c].identity == Minted(c))
      ensures Taken(t.calls[c]) ==> Known(t, t.calls[c].identity)
    {
      CallsMinting(s, e, c);
      if Taken(t.calls[c]) {
        KnownStays(s, e, t.calls[c].identity);
      }
    }
    forall a: nat | a < |t.book.attempts| ensures Known(t, t.book.attempts[a].identity) {
      NewAttempt(s, e, a);
      KnownStays(s, e, t.book.attempts[a].identity);
    }
  }

  /** A context that is gone does not come back. */
  lemma GoneStaysGone(s: State, e: Event, id: Identity)
    requires Minting(s) && Enabled(s, e) && Known(s, id) && id !in s.worker
    ensures id !in Step(s, e).worker
  {
    if id in Step(s, e).worker {
      NewContext(s, e, id);
    }
  }

  /** Unless the session is cleared, a context that exists only grows. */
  lemma ContextGrows(s: State, e: Event, id: Identity)
    requires Minting(s) && Enabled(s, e) && Known(s, id)
    requires e.WorkerApply? ==> !s.calls[e.call].kind.Clear?
    ensures ContentOf(s.worker, id) <= ContentOf(Step(s, e).worker, id)
  {
    assert e.ImportApply? ==> BeforeMint(s.calls[e.call]);
  }
}
