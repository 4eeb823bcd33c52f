/** The flush chain's order: only its front runs, and a body whose caller still waits
    for it is the front.  This is what keeps an import or a reset from taking effect
    while a flush that someone waits for is under way. */
module FlushOrder {
  import opened Persistence

  predicate Waiting(b: Body) { b.Queued? || b.AbortQueued? }

  predicate OnChain(b: Body) { Waiting(b) || Running(b) || b.Finished? || b.Broken? }

  /** An import, or a reset before its first persist. */
  predicate Lifecycle(b: Body) { b.Importing? || b.Imported? || b.Flipping? || b.Flipped? }

  predicate AtFront(s: State, c: nat) { 0 < |s.flushChain| && s.flushChain[0] == c }

  predicate Fits(k: Kind, b: Body) {
    && (b.Importing? || b.Imported? ==> k.Import?)
    && (b.Flipping? || b.Flipped? ==> k.Init? || k.Clear?)
  }

  ghost predicate Lined(s: State) {
    && (forall k :: 0 <= k < |s.flushChain| ==>
          s.flushChain[k] < |s.calls| && s.calls[s.flushChain[k]].live && OnChain(s.calls[s.flushChain[k]].body))
    && (forall k :: 0 < k < |s.flushChain| ==> Waiting(s.calls[s.flushChain[k]].body))
    && (forall i, k :: 0 <= i < k < |s.flushChain| ==> s.flushChain[i] != s.flushChain[k])
    && (forall c: nat :: c < |s.calls| && s.calls[c].live && Running(s.calls[c].body) ==> AtFront(s, c))
    && (forall c :: 0 <= c < |s.calls| ==> Fits(s.calls[c].kind, s.calls[c].body))
  }

  /** A body moves on in place: a waiting one cannot, and none starts to run. */
  lemma MoveLined(s: State, c: nat, b: Body)
    requires Lined(s) && c < |s.calls|
    requires !Waiting(s.calls[c].body) && Fits(s.calls[c].kind, b)
    requires OnChain(s.calls[c].body) ==> OnChain(b)
    requires Running(b) ==> Running(s.calls[c].body)
    ensures Lined(SetBody(s, c, b))
  {
  }

  lemma GiveUpLined(s: State, c: nat)
    requires Lined(s) && c < |s.calls| && !OnChain(s.calls[c].body)
    ensures Lined(GiveUp(s, c))
  {
  }

  lemma QueueLined(s: State, c: nat, b: Body)
    requires Lined(s) && c < |s.calls| && s.calls[c].live && !OnChain(s.calls[c].body) && Waiting(b)
    ensures Lined(SetBody(s, c, b).(flushChain := s.flushChain + [c]))
  {
  }

  lemma BeginLined(s: State, kind: Kind, id: Identity)
    requires Lined(s)
    ensures Lined(BeginStep(s, kind, id))
  {
  }

  /** The front starts. */
  lemma StartLined(s: State, b: Body)
    requires Lined(s) && HeadCall(s) && Waiting(s.calls[s.flushChain[0]].body)
    requires Running(b) && Fits(s.calls[s.flushChain[0]].kind, b)
    ensures Lined(SetBody(s, s.flushChain[0], b))
  {
  }

  /** The front leaves, its body no longer running for a waiting caller. */
  lemma LeaveLined(s: State, x: Call)
    requires Lined(s) && HeadCall(s) && x.kind == s.calls[s.flushChain[0]].kind
    requires Fits(x.kind, x.body) && !(x.live && Running(x.body))
    ensures Lined(s.(flushChain := s.flushChain[1..], calls := s.calls[s.flushChain[0] := x]))
  {
    var c := s.flushChain[0];
    var t := s.(flushChain := s.flushChain[1..], calls := s.calls[c := x]);
    forall k | 0 <= k < |t.flushChain|
      ensures t.flushChain[k] == s.flushChain[k + 1] && t.calls[t.flushChain[k]] == s.calls[s.flushChain[k + 1]]
    {
      assert s.flushChain[0] != s.flushChain[k + 1];
    }
    forall d: nat | d < |t.calls| && t.calls[d].live ensures !Running(t.calls[d].body) {
      assert d != c ==> !AtFront(s, d);
    }
  }

  lemma CallLined(s: State, t: State)
    requires Lined(s) && t.flushChain == s.flushChain && t.calls == s.calls
    ensures Lined(t)
  {
  }

  lemma ChainLined(s: State, e: Event)
    requires Lined(s) && Enabled(s, e) && (e.ChainTimeout? || e.ChainSettle?)
    ensures Lined(Step(s, e))
  {
    LeaveLined(s, Step(s, e).calls[s.flushChain[0]]);
  }

  lemma StartStepLined(s: State)
    requires Lined(s) && Enabled(s, ChainStart)
    ensures Lined(Step(s, ChainStart))
  {
    var t := Step(s, ChainStart);
    StartLined(s, t.calls[s.flushChain[0]].body);
    CallLined(SetBody(s, s.flushChain[0], t.calls[s.flushChain[0]].body), t);
  }

  lemma AbortLined(s: State, e: Event)
    requires Lined(s) && Enabled(s, e) && (e.AbortApply? || e.AbortReject? || e.AbortReturn?)
    ensures Lined(Step(s, e))
  {
    var x := s.calls[e.call].body;
    if e.AbortApply? {
      MoveLined(s, e.call, AbortApplied(x.first));
      CallLined(SetBody(s, e.call, AbortApplied(x.first)), Step(s, e));
    } else if e.AbortReject? {
      GiveUpLined(s, e.call);
    } else {
      QueueLined(s, e.call, AbortQueued(x.first));
    }
  }

  lemma RpcLined(s: State, e: Event)
    requires Lined(s) && Enabled(s, e) && (e.WorkerApply? || e.RpcReject? || e.RpcTimeout? || e.RpcReturn?)
    ensures Lined(Step(s, e))
  {
    if e.RpcTimeout? {
      GiveUpLined(s, e.call);
    } else if e.RpcReturn? {
      QueueLined(s, e.call, Queued);
    } else {
      var b := if e.WorkerApply? then Applied else Rejected;
      MoveLined(s, e.call, b);
      CallLined(SetBody(s, e.call, b), Step(s, e));
    }
  }

  lemma LifecycleLined(s: State, e: Event)
    requires Lined(s) && Enabled(s, e)
    requires e.ImportApply? || e.ImportReject? || e.ImportReturn? || e.InitFlush? || e.ResetRun?
    ensures Lined(Step(s, e))
  {
    var c := if e.ResetRun? then s.book.writeChain[0].call else e.call;
    var b := Step(s, e).calls[c].body;
    MoveLined(s, c, b);
    CallLined(SetBody(s, c, b), Step(s, e));
  }

  lemma StepLined(s: State, e: Event)
    requires Lined(s) && Enabled(s, e)
    ensures Lined(Step(s, e))
  {
    match e
    case Begin(kind, id) => BeginLined(s, kind, id);
    case WorkerApply(_) => RpcLined(s, e);
    case RpcReject(_) => RpcLined(s, e);
    case RpcTimeout(_) => RpcLined(s, e);
    case RpcReturn(_) => RpcLined(s, e);
    case ChainStart => StartStepLined(s);
    case ChainTimeout => ChainLined(s, e);
    case ChainSettle => ChainLined(s, e);
    case AbortApply(_) => AbortLined(s, e);
    case AbortReject(_) => AbortLined(s, e);
    case AbortReturn(_) => AbortLined(s, e);
    case ImportApply(_, _, _) => LifecycleLined(s, e);
    case ImportReject(_) => LifecycleLined(s, e);
    case ImportReturn(_) => LifecycleLined(s, e);
    case InitFlush(_) => LifecycleLined(s, e);
    case ResetRun => LifecycleLined(s, e);
    case _ => CallLined(s, Step(s, e));
  }

  /** In every run, a body whose caller waits for it is the front of the chain. */
  lemma {:induction false} RunLined(s: State, es: seq<Event>)
    requires Lined(s) && Valid(s, es)
    ensures Lined(Run(s, es))
    decreases |es|
  {
    if es != [] {
      StepLined(s, es[0]);
      RunLined(Step(s, es[0]), es[1..]);
    }
  }
}
