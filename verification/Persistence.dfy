/** The MLS provider-state persistence protocol of the crypto-worker wrapper.

    Every synchronous section of the wrapper between two awaits is one step, so a
    run of this system is one interleaving of wrapped calls, worker replies,
    Dexie writes and timeouts.  A timeout lets a caller walk away from a body that
    keeps running; the system keeps such bodies and lets them take effect at any
    later moment.

    Premises: an export reads its identity's context at some moment after it was
    requested and echoes the requested generation; a rejected write changes nothing. */
module Persistence {
  import opened Helpers

  /** What the worker's state records: that a wrapped call took effect, or that
      the compensating abort of a staged removal did. */
  datatype Token = Mutation(call: nat) | Undo(call: nat)

  type Content = set<Token>

  /** A worker handle of an identity: one the session started with, or the one minted by
      an init or import call, which no other call's repeats. */
  datatype Identity = Given(number: nat) | Minted(call: nat)

  /** The worker keeps one context per identity; an export covers a single one. */
  type Worker = map<Identity, Content>

  function ContentOf(w: Worker, id: Identity): Content { if id in w then w[id] else {} }

  datatype Outcome = Wrote | Skipped | Failed

  /** Where one `doFlush` is.  `ReadOut`: the worker has been read, the reply is
      under way; `InLine`: queued on the write chain; `Landed`: the Dexie write is
      durable, the generation bump has not run yet. */
  datatype Phase =
    | Requested
    | ReadOut(snap: Content)
    | InLine(snap: Content)
    | Writing(snap: Content)
    | Landed(snap: Content)
    | Done(outcome: Outcome)

  /** One `doFlush` of one identity; `base` remembers the identity's content when it was
      issued. */
  datatype Attempt = Attempt(epoch: nat, gen: nat, identity: Identity, base: Content, phase: Phase)

  /** The five classes of wrapped methods. */
  datatype Kind = Advance | Stage | Init | Import | Clear

  datatype Body =
    | Calling                                    // raw worker call outstanding
    | Applied                                    // the worker did it, reply under way
    | Queued                                     // waiting on the flush chain
    | Flushing(via: nat)                         // its doFlush is running
    | Aborting(first: nat)                       // compensating abort outstanding
    | AbortApplied(first: nat)
    | AbortQueued(first: nat)
    | AbortFlushing(first: nat, second: nat)
    | Importing(floor: nat)
    | Imported(gen: nat)
    | Flipping                                   // reset queued on the write chain
    | Flipped                                    // reset done, first persist to come
    | Finished                                   // chain body done, caller not told yet
    | Broken                                     // chain body failed, caller not told yet
    | Released(via: nat)                         // result handed to the caller
    | Completed
    | Undone(first: nat, second: nat, durable: bool)
    | Rejected

  /** `identity` is the one the call names or mints; `live` is false once a timeout made the
      caller give up on a running body. */
  datatype Call = Call(kind: Kind, identity: Identity, body: Body, live: bool)

  datatype WriteTask = WriteOf(attempt: nat) | FlipOf(call: nat)

  /** The provider state in the identity row: none, one from before this session,
      or the snapshot of attempt `src`. */
  datatype Disk = NoState | Earlier(snap: Content) | Stored(src: nat, snap: Content)

  /** A durable write and the reset epoch in which it became durable. */
  datatype Landing = Landing(attempt: nat, epoch: nat)

  /** The generation bookkeeping: the three counters, the write chain, the flush
      attempts and what they made durable. */
  datatype Book = Book(
    current: nat,
    issued: nat,
    epoch: nat,
    writeChain: seq<WriteTask>,
    attempts: seq<Attempt>,
    row: bool,
    disk: Disk,
    landed: seq<Landing>)

  datatype State = State(book: Book, flushChain: seq<nat>, calls: seq<Call>, worker: Worker)

  datatype Event =
    | Begin(kind: Kind, identity: Identity)
    | WorkerApply(call: nat)
    | RpcReject(call: nat)
    | RpcTimeout(call: nat)
    | RpcReturn(call: nat)
    | ChainStart
    | ChainTimeout
    | ChainSettle
    | AbortApply(call: nat)
    | AbortReject(call: nat)
    | AbortReturn(call: nat)
    | ImportApply(call: nat, gen: nat, content: Content)
    | ImportReject(call: nat)
    | ImportReturn(call: nat)
    | InitFlush(call: nat)
    | ExportRead(attempt: nat)
    | ExportFail(attempt: nat)
    | ExportReturn(attempt: nat)
    | ResetRun
    | WriteCheck
    | WriteLand
    | WriteFail
    | WriteFinish
    | RowPut

  // ---------------------------------------------------------------------------
  // Moves of the bookkeeping
  // ---------------------------------------------------------------------------

  function SetPhase(b: Book, a: nat, p: Phase): Book
    requires a < |b.attempts|
  {
    b.(attempts := b.attempts[a := b.attempts[a].(phase := p)])
  }

  function Bump(b: Book, g: nat): Book {
    b.(current := Max(b.current, g), issued := Max(b.issued, Max(b.current, g)))
  }

  /** The synchronous head of `doFlush`: number the attempt and request the export. */
  function Issue(b: Book, id: Identity, content: Content): Book {
    b.(issued := b.issued + 1,
       attempts := b.attempts + [Attempt(b.epoch, b.issued + 1, id, content, Requested)])
  }

  function QueueFlip(b: Book, c: nat): Book { b.(writeChain := b.writeChain + [FlipOf(c)]) }

  function QueueWrite(b: Book, a: nat): Book
    requires a < |b.attempts| && b.attempts[a].phase.ReadOut?
  {
    SetPhase(b, a, InLine(b.attempts[a].phase.snap)).(writeChain := b.writeChain + [WriteOf(a)])
  }

  predicate HeadFlip(b: Book) { 0 < |b.writeChain| && b.writeChain[0].FlipOf? }

  predicate HeadWrite(b: Book) {
    && 0 < |b.writeChain|
    && b.writeChain[0].WriteOf?
    && b.writeChain[0].attempt < |b.attempts|
  }

  function HeadPhase(b: Book): Phase
    requires HeadWrite(b)
  {
    b.attempts[b.writeChain[0].attempt].phase
  }

  /** The queued body of `resetGeneration`. */
  function Flip(b: Book): Book
    requires HeadFlip(b)
  {
    b.(current := 0, issued := 0, epoch := b.epoch + 1, writeChain := b.writeChain[1..])
  }

  predicate Superseded(b: Book, a: Attempt) { a.epoch != b.epoch || a.gen <= b.current }

  /** A write reaches the front of the chain and checks that it is not superseded. */
  function CheckWrite(b: Book): Book
    requires HeadWrite(b) && HeadPhase(b).InLine?
  {
    var a := b.writeChain[0].attempt;
    if Superseded(b, b.attempts[a])
    then SetPhase(b, a, Done(Skipped)).(writeChain := b.writeChain[1..])
    else SetPhase(b, a, Writing(b.attempts[a].phase.snap))
  }

  /** The write is a partial update of the identity row: without a row it resolves
      and changes nothing. */
  function Land(b: Book): Book
    requires HeadWrite(b) && HeadPhase(b).Writing?
  {
    var a := b.writeChain[0].attempt;
    SetPhase(b, a, Landed(HeadPhase(b).snap)).(
      disk := if b.row then Stored(a, HeadPhase(b).snap) else b.disk,
      landed := b.landed + [Landing(a, b.epoch)])
  }

  function FailWrite(b: Book): Book
    requires HeadWrite(b) && HeadPhase(b).Writing?
  {
    SetPhase(b, b.writeChain[0].attempt, Done(Failed)).(writeChain := b.writeChain[1..])
  }

  function FinishWrite(b: Book): Book
    requires HeadWrite(b) && HeadPhase(b).Landed?
  {
    var a := b.writeChain[0].attempt;
    SetPhase(Bump(b, b.attempts[a].gen), a, Done(Wrote)).(writeChain := b.writeChain[1..])
  }

  /** Registration puts the whole identity row, which carries no provider state. */
  function PutRow(b: Book): Book { b.(row := true, disk := NoState) }

  // ---------------------------------------------------------------------------
  // Steps
  // ---------------------------------------------------------------------------

  function SetBody(s: State, c: nat, b: Body): State
    requires c < |s.calls|
  {
    s.(calls := s.calls[c := s.calls[c].(body := b)])
  }

  function GiveUp(s: State, c: nat): State
    requires c < |s.calls|
  {
    s.(calls := s.calls[c := s.calls[c].(live := false)])
  }

  predicate BodyIs(s: State, c: nat, b: Body) { c < |s.calls| && s.calls[c].body == b }

  predicate HeadCall(s: State) { 0 < |s.flushChain| && s.flushChain[0] < |s.calls| }

  predicate AttemptDone(s: State, a: nat) { a < |s.book.attempts| && s.book.attempts[a].phase.Done? }

  predicate Settled(s: State, b: Body) {
    match b
    case Flushing(a) => AttemptDone(s, a)
    case AbortFlushing(_, a) => AttemptDone(s, a)
    case Finished => true
    case Broken => true
    case _ => false
  }

  /** The bodies a persist or import timeout can strike. */
  predicate Running(b: Body) {
    b.Flushing? || b.AbortFlushing? || b.Importing? || b.Imported? || b.Flipping? || b.Flipped?
  }

  /** Methods that change the context of an identity they name. */
  predicate Mutates(k: Kind) { k.Advance? || k.Stage? }

  /** The worker refuses a call, an abort or an export of an identity it does not hold. */
  predicate Enabled(s: State, e: Event) {
    match e
    case Begin(_, _) => true
    case WorkerApply(c) => BodyIs(s, c, Calling) && (Mutates(s.calls[c].kind) ==> s.calls[c].identity in s.worker)
    case RpcReject(c) => BodyIs(s, c, Calling)
    case RpcTimeout(c) => (BodyIs(s, c, Calling) || BodyIs(s, c, Applied)) && s.calls[c].live
    case RpcReturn(c) => BodyIs(s, c, Applied) && s.calls[c].live
    case ChainStart =>
      HeadCall(s) && (s.calls[s.flushChain[0]].body.Queued? || s.calls[s.flushChain[0]].body.AbortQueued?)
    case ChainTimeout => HeadCall(s) && Running(s.calls[s.flushChain[0]].body)
    case ChainSettle => HeadCall(s) && Settled(s, s.calls[s.flushChain[0]].body)
    case AbortApply(c) => c < |s.calls| && s.calls[c].body.Aborting? && s.calls[c].identity in s.worker
    case AbortReject(c) =>
      c < |s.calls| && (s.calls[c].body.Aborting? || s.calls[c].body.AbortApplied?) && s.calls[c].live
    case AbortReturn(c) => c < |s.calls| && s.calls[c].body.AbortApplied? && s.calls[c].live
    case ImportApply(c, g, _) => c < |s.calls| && s.calls[c].body.Importing? && s.calls[c].body.floor <= g
    case ImportReject(c) => c < |s.calls| && s.calls[c].body.Importing?
    case ImportReturn(c) => c < |s.calls| && s.calls[c].body.Imported?
    case InitFlush(c) => BodyIs(s, c, Flipped)
    case ExportRead(a) =>
      a < |s.book.attempts| && s.book.attempts[a].phase.Requested? && s.book.attempts[a].identity in s.worker
    case ExportFail(a) =>
      a < |s.book.attempts| && (s.book.attempts[a].phase.Requested? || s.book.attempts[a].phase.ReadOut?)
    case ExportReturn(a) => a < |s.book.attempts| && s.book.attempts[a].phase.ReadOut?
    case ResetRun => HeadFlip(s.book) && BodyIs(s, s.book.writeChain[0].call, Flipping)
    case WriteCheck => HeadWrite(s.book) && HeadPhase(s.book).InLine?
    case WriteLand => HeadWrite(s.book) && HeadPhase(s.book).Writing?
    case WriteFail => HeadWrite(s.book) && HeadPhase(s.book).Writing?
    case WriteFinish => HeadWrite(s.book) && HeadPhase(s.book).Landed?
    case RowPut => true
  }

  function BeginStep(s: State, kind: Kind, id: Identity): State {
    var named := if Mutates(kind) then id else Minted(|s.calls|);
    if kind.Import?
    then s.(calls := s.calls + [Call(kind, named, Queued, true)], flushChain := s.flushChain + [|s.calls|])
    else s.(calls := s.calls + [Call(kind, named, Calling, true)])
  }

  /** A mutation changes its identity's context, an init adds a new one beside the others,
      a session clear drops them all. */
  function WorkerStep(s: State, c: nat): State
    requires c < |s.calls|
  {
    SetBody(s.(worker := if s.calls[c].kind.Clear? then map[] else Gain(s, c, Mutation(c))), c, Applied)
  }

  /** The context of `c`'s identity with one more token. */
  function Gain(s: State, c: nat, token: Token): Worker
    requires c < |s.calls|
  {
    s.worker[s.calls[c].identity := ContentOf(s.worker, s.calls[c].identity) + {token}]
  }

  /** `c`'s `doFlush` is issued for its identity. */
  function IssueFor(s: State, c: nat): Book
    requires c < |s.calls|
  {
    Issue(s.book, s.calls[c].identity, ContentOf(s.worker, s.calls[c].identity))
  }

  /** `c` runs its `doFlush`. */
  function IssueStep(s: State, c: nat, b: Body): State
    requires c < |s.calls|
  {
    SetBody(s.(book := IssueFor(s, c)), c, b)
  }

  /** The front of the flush chain starts its body. */
  function StartStep(s: State): State
    requires Enabled(s, ChainStart)
  {
    var c := s.flushChain[0];
    if s.calls[c].body.AbortQueued? then
      IssueStep(s, c, AbortFlushing(s.calls[c].body.first, |s.book.attempts|))
    else
      match s.calls[c].kind
      case Import => SetBody(s, c, Importing(s.book.current))
      case Init => SetBody(s.(book := QueueFlip(s.book, c)), c, Flipping)
      case Clear => SetBody(s.(book := QueueFlip(s.book, c)), c, Flipping)
      case _ => IssueStep(s, c, Flushing(|s.book.attempts|))
  }

  /** The front body's timeout fires: its slot is freed, the body itself runs on. */
  function TimeoutStep(s: State): State
    requires Enabled(s, ChainTimeout)
  {
    var c := s.flushChain[0];
    var freed := s.(flushChain := s.flushChain[1..]);
    match s.calls[c].kind
    case Advance => SetBody(freed, c, Rejected)
    case Stage =>
      (match s.calls[c].body
       case Flushing(a) => SetBody(freed, c, Aborting(a))
       case AbortFlushing(f, a) => SetBody(freed, c, Undone(f, a, false))
       case _ => freed)
    case _ => GiveUp(freed, c)
  }

  /** The front body has settled: free its slot and answer its caller. */
  function SettleStep(s: State): State
    requires Enabled(s, ChainSettle)
  {
    var c := s.flushChain[0];
    var freed := s.(flushChain := s.flushChain[1..]);
    match s.calls[c].body
    case Flushing(a) =>
      if s.book.attempts[a].phase.outcome != Failed then SetBody(freed, c, Released(a))
      else if s.calls[c].kind.Stage? then SetBody(freed, c, Aborting(a))
      else SetBody(freed, c, Rejected)
    case AbortFlushing(f, a) => SetBody(freed, c, Undone(f, a, s.book.attempts[a].phase.outcome != Failed))
    case Finished => SetBody(freed, c, Completed)
    case _ => SetBody(freed, c, Rejected)
  }

  function ResetStep(s: State): State
    requires Enabled(s, ResetRun)
  {
    var c := s.book.writeChain[0].call;
    SetBody(s.(book := Flip(s.book)), c, if s.calls[c].kind.Init? then Flipped else Finished)
  }

  function Step(s: State, e: Event): State
    requires Enabled(s, e)
  {
    match e
    case Begin(kind, id) => BeginStep(s, kind, id)
    case WorkerApply(c) => WorkerStep(s, c)
    case RpcReject(c) => SetBody(s, c, Rejected)
    case RpcTimeout(c) => GiveUp(s, c)
    case RpcReturn(c) => SetBody(s, c, Queued).(flushChain := s.flushChain + [c])
    case ChainStart => StartStep(s)
    case ChainTimeout => TimeoutStep(s)
    case ChainSettle => SettleStep(s)
    case AbortApply(c) => SetBody(s.(worker := Gain(s, c, Undo(c))), c, AbortApplied(s.calls[c].body.first))
    case AbortReject(c) => GiveUp(s, c)
    case AbortReturn(c) => SetBody(s, c, AbortQueued(s.calls[c].body.first)).(flushChain := s.flushChain + [c])
    case ImportApply(c, g, content) => SetBody(s.(worker := s.worker[Minted(c) := content]), c, Imported(g))
    case ImportReject(c) => SetBody(s, c, Broken)
    case ImportReturn(c) => SetBody(s.(book := Bump(s.book, s.calls[c].body.gen)), c, Finished)
    case InitFlush(c) => IssueStep(s, c, Flushing(|s.book.attempts|))
    case ExportRead(a) => s.(book := SetPhase(s.book, a, ReadOut(s.worker[s.book.attempts[a].identity])))
    case ExportFail(a) => s.(book := SetPhase(s.book, a, Done(Failed)))
    case ExportReturn(a) => s.(book := QueueWrite(s.book, a))
    case ResetRun => ResetStep(s)
    case WriteCheck => s.(book := CheckWrite(s.book))
    case WriteLand => s.(book := Land(s.book))
    case WriteFail => s.(book := FailWrite(s.book))
    case WriteFinish => s.(book := FinishWrite(s.book))
    case RowPut => s.(book := PutRow(s.book))
  }

  // ---------------------------------------------------------------------------
  // Runs
  // ---------------------------------------------------------------------------

  ghost predicate Initial(s: State) {
    && s.flushChain == [] && s.calls == []
    && s.book.current == s.book.issued == s.book.epoch == 0
    && s.book.writeChain == [] && s.book.attempts == [] && s.book.landed == []
    && !s.book.disk.Stored?
    && (forall id :: id in s.worker ==> id.Given?)
  }

  predicate Valid(s: State, es: seq<Event>)
    decreases |es|
  {
    es == [] || (Enabled(s, es[0]) && Valid(Step(s, es[0]), es[1..]))
  }

  function Run(s: State, es: seq<Event>): State
    requires Valid(s, es)
    decreases |es|
  {
    if es == [] then s else Run(Step(s, es[0]), es[1..])
  }

  // ---------------------------------------------------------------------------
  // What every interleaving keeps
  // ---------------------------------------------------------------------------

  /** Attempt `x` was issued before attempt `y`. */
  predicate IssuedBefore(x: Attempt, y: Attempt) {
    x.epoch < y.epoch || (x.epoch == y.epoch && x.gen < y.gen)
  }

  ghost predicate Numbered(b: Book) {
    && b.current <= b.issued
    && (forall i :: 0 <= i < |b.attempts| ==>
          b.attempts[i].epoch < b.epoch || (b.attempts[i].epoch == b.epoch && b.attempts[i].gen <= b.issued))
    && (forall i, j :: 0 <= i < j < |b.attempts| ==> IssuedBefore(b.attempts[i], b.attempts[j]))
  }

  predicate AtHead(b: Book, a: nat) { 0 < |b.writeChain| && b.writeChain[0] == WriteOf(a) }

  /** Only the front of the write chain writes, and never across an epoch flip. */
  ghost predicate Serialized(b: Book) {
    forall a :: 0 <= a < |b.attempts| && (b.attempts[a].phase.Writing? || b.attempts[a].phase.Landed?) ==>
      AtHead(b, a) && b.attempts[a].epoch == b.epoch
  }

  /** Durable writes happen in the epoch their attempt was issued in, and the row
      holds the latest of them. */
  ghost predicate Recorded(b: Book) {
    && (forall i :: 0 <= i < |b.landed| ==>
          && b.landed[i].attempt < |b.attempts|
          && b.attempts[b.landed[i].attempt].epoch == b.landed[i].epoch)
    && (b.disk.Stored? ==> b.row && b.landed != [] && b.landed[|b.landed| - 1].attempt == b.disk.src)
  }

  /** Durable writes happen in issue order.  Within the current epoch the
      high-water mark is at least every durable generation whose bump has run, and
      the write in progress is above them all. */
  ghost predicate Ordered(b: Book)
    requires Recorded(b)
  {
    && (forall i, j :: 0 <= i < j < |b.landed| ==> b.landed[i].attempt < b.landed[j].attempt)
    && (forall i :: 0 <= i < |b.landed| && b.landed[i].epoch == b.epoch ==>
          && (!b.attempts[b.landed[i].attempt].phase.Landed? ==> b.attempts[b.landed[i].attempt].gen <= b.current)
          && (forall a :: 0 <= a < |b.attempts| && b.attempts[a].phase.Writing? ==>
                b.attempts[b.landed[i].attempt].gen < b.attempts[a].gen))
  }

  ghost predicate Inv(b: Book) {
    Numbered(b) && Serialized(b) && Recorded(b) && Ordered(b)
  }

  lemma BumpInv(b: Book, g: nat)
    requires Inv(b)
    ensures Inv(Bump(b, g))
  {
  }

  lemma IssueInv(b: Book, id: Identity, content: Content)
    requires Inv(b)
    ensures Inv(Issue(b, id, content))
  {
  }

  predicate Idle(p: Phase) { !p.Writing? && !p.Landed? }

  lemma SetPhaseInv(b: Book, a: nat, p: Phase)
    requires Inv(b) && a < |b.attempts| && Idle(b.attempts[a].phase) && Idle(p)
    ensures Inv(SetPhase(b, a, p))
  {
  }

  lemma AppendTaskInv(b: Book, w: WriteTask)
    requires Inv(b)
    ensures Inv(b.(writeChain := b.writeChain + [w]))
  {
  }

  lemma FlipInv(b: Book)
    requires Inv(b) && HeadFlip(b)
    ensures Inv(Flip(b))
  {
  }

  lemma CheckWriteInv(b: Book)
    requires Inv(b) && HeadWrite(b) && HeadPhase(b).InLine?
    ensures Inv(CheckWrite(b))
  {
  }

  lemma LandInv(b: Book)
    requires Inv(b) && HeadWrite(b) && HeadPhase(b).Writing?
    ensures Inv(Land(b))
  {
  }

  lemma FailWriteInv(b: Book)
    requires Inv(b) && HeadWrite(b) && HeadPhase(b).Writing?
    ensures Inv(FailWrite(b))
  {
  }

  lemma FinishWriteInv(b: Book)
    requires Inv(b) && HeadWrite(b) && HeadPhase(b).Landed?
    ensures Inv(FinishWrite(b))
  {
  }

  lemma StepInv(s: State, e: Event)
    requires Inv(s.book) && Enabled(s, e)
    ensures Inv(Step(s, e).book)
  {
    var b := s.book;
    match e
    case ChainStart =>
      var id := s.calls[s.flushChain[0]].identity;
      IssueInv(b, id, ContentOf(s.worker, id));
      AppendTaskInv(b, FlipOf(s.flushChain[0]));
    case ImportReturn(c) => BumpInv(b, s.calls[c].body.gen);
    case InitFlush(c) => IssueInv(b, s.calls[c].identity, ContentOf(s.worker, s.calls[c].identity));
    case ExportRead(a) => SetPhaseInv(b, a, ReadOut(s.worker[b.attempts[a].identity]));
    case ExportFail(a) => SetPhaseInv(b, a, Done(Failed));
    case ExportReturn(a) =>
      SetPhaseInv(b, a, InLine(b.attempts[a].phase.snap));
      AppendTaskInv(SetPhase(b, a, InLine(b.attempts[a].phase.snap)), WriteOf(a));
    case ResetRun => FlipInv(b);
    case WriteCheck => CheckWriteInv(b);
    case WriteLand => LandInv(b);
    case WriteFail => FailWriteInv(b);
    case WriteFinish => FinishWriteInv(b);
    case _ =>
  }

  lemma {:induction false} RunInv(s: State, es: seq<Event>)
    requires Inv(s.book) && Valid(s, es)
    ensures Inv(Run(s, es).book)
    decreases |es|
  {
    if es != [] {
      StepInv(s, es[0]);
      RunInv(Step(s, es[0]), es[1..]);
    }
  }

  /** The issue counter is never behind the high-water mark, no two attempts of an
      epoch share a number, durable generations strictly increase within an epoch, and
      nothing issued before a reset became durable after it. */
  ghost predicate NoStaleWrites(b: Book) {
    && b.current <= b.issued
    && (forall i, j :: 0 <= i < j < |b.attempts| && b.attempts[i].epoch == b.attempts[j].epoch ==>
          b.attempts[i].gen < b.attempts[j].gen)
    && (forall i :: 0 <= i < |b.landed| ==>
          b.landed[i].attempt < |b.attempts| && b.attempts[b.landed[i].attempt].epoch == b.landed[i].epoch)
    && (forall i, j :: 0 <= i < j < |b.landed| && b.landed[i].epoch == b.landed[j].epoch ==>
          b.attempts[b.landed[i].attempt].gen < b.attempts[b.landed[j].attempt].gen)
  }

  lemma InvHasNoStaleWrites(b: Book)
    requires Inv(b)
    ensures NoStaleWrites(b)
  {
  }

  /** Stale-write safety, over every interleaving of flushes, timeouts, imports and
      resets. */
  lemma StaleWritesNeverLand(s: State, es: seq<Event>)
    requires Initial(s) && Valid(s, es)
    ensures NoStaleWrites(Run(s, es).book)
  {
    RunInv(s, es);
    InvHasNoStaleWrites(Run(s, es).book);
  }

  // ---------------------------------------------------------------------------
  // Calls and the attempts that serve them
  // ---------------------------------------------------------------------------

  predicate TouchesBook(e: Event) {
    match e
    case ChainStart => true
    case InitFlush(_) => true
    case ImportReturn(_) => true
    case ExportRead(_) => true
    case ExportFail(_) => true
    case ExportReturn(_) => true
    case ResetRun => true
    case WriteCheck => true
    case WriteLand => true
    case WriteFail => true
    case WriteFinish => true
    case RowPut => true
    case _ => false
  }

  lemma OthersKeepBook(s: State, e: Event)
    requires Enabled(s, e) && !TouchesBook(e)
    ensures Step(s, e).book == s.book
    ensures !e.WorkerApply? && !e.AbortApply? && !e.ImportApply? ==> Step(s, e).worker == s.worker
  {
  }

  /** The attempt a body is waiting for or was answered by. */
  predicate Uses(body: Body, a: nat) {
    match body
    case Flushing(x) => x == a
    case Released(x) => x == a
    case AbortFlushing(_, x) => x == a
    case Undone(_, x, _) => x == a
    case _ => false
  }

  predicate Positive(body: Body) { body.Released? || (body.Undone? && body.durable) }

  /** The worker token a body's flush is meant to make durable. */
  function Carries(body: Body, c: nat): Token {
    if body.AbortFlushing? || body.Undone? then Undo(c) else Mutation(c)
  }

  predicate FlushKind(k: Kind) { !k.Import? && !k.Clear? }

  /** Bodies only name attempts that exist and are of their identity; only methods that
      flush reach a release. */
  ghost predicate LinkedCall(s: State, c: nat)
    requires c < |s.calls|
  {
    && (forall a: nat :: Uses(s.calls[c].body, a) ==>
          a < |s.book.attempts| && s.book.attempts[a].identity == s.calls[c].identity)
    && (s.calls[c].body.Flushing? || s.calls[c].body.Released? ==> FlushKind(s.calls[c].kind))
    && (s.calls[c].body.Flipped? ==> s.calls[c].kind.Init?)
  }

  ghost predicate Linked(s: State) {
    forall c: nat :: c < |s.calls| ==> LinkedCall(s, c)
  }

  /** How one step can move a call on. */
  predicate Moves(x: Call, y: Call) {
    && y.kind == x.kind && y.identity == x.identity && (y.live ==> x.live)
    && (y.body == x.body || BodyMoves(x.kind, x.body, y.body))
  }

  predicate BodyMoves(k: Kind, b: Body, d: Body) {
    match b
    case Calling => d.Applied? || d.Rejected?
    case Applied => d.Queued?
    case Queued => if k.Import? then d.Importing? else if Mutates(k) then d.Flushing? else d.Flipping?
    case Flushing(a) => d == Released(a) || (d == Aborting(a) && k.Stage?) || d.Rejected?
    case Aborting(f) => d == AbortApplied(f)
    case AbortApplied(f) => d == AbortQueued(f)
    case AbortQueued(f) => d.AbortFlushing? && d.first == f
    case AbortFlushing(f, a) => (d.Undone? && d.first == f && d.second == a) || (d.Rejected? && k.Advance?)
    case Importing(_) => d.Imported? || d.Broken? || d.Rejected?
    case Imported(_) => d.Finished? || d.Rejected?
    case Flipping => (if k.Init? then d.Flipped? else d.Finished?) || d.Rejected?
    case Flipped => d.Flushing? || d.Rejected?
    case Finished => d.Completed?
    case Broken => d.Rejected?
    case _ => false
  }

  lemma ChainMoves(s: State, e: Event, c: nat)
    requires Enabled(s, e) && c < |s.calls| && (e.ChainStart? || e.ChainTimeout? || e.ChainSettle?)
    ensures c < |Step(s, e).calls| && Moves(s.calls[c], Step(s, e).calls[c])
  {
  }

  lemma StepMoves(s: State, e: Event, c: nat)
    requires Enabled(s, e) && c < |s.calls|
    ensures c < |Step(s, e).calls| && Moves(s.calls[c], Step(s, e).calls[c])
  {
    if e.ChainStart? || e.ChainTimeout? || e.ChainSettle? {
      ChainMoves(s, e, c);
    }
  }

  lemma StepKinds(s: State, e: Event, c: nat)
    requires Enabled(s, e) && c < |s.calls| && LinkedCall(s, c)
    ensures c < |Step(s, e).calls|
    ensures var x := Step(s, e).calls[c];
      && (x.body.Flushing? || x.body.Released? ==> FlushKind(x.kind))
      && (x.body.Flipped? ==> x.kind.Init?)
  {
    StepMoves(s, e, c);
  }

  /** Call `c` is served by no attempt numbered below `n`. */
  predicate Late(s: State, n: nat, c: nat)
    requires c < |s.calls|
  {
    forall a: nat :: a < n ==> !Uses(s.calls[c].body, a)
  }

  predicate Good(b: Book, a: nat) {
    a < |b.attempts| && b.attempts[a].phase.Done? && b.attempts[a].phase.outcome != Failed
  }

  /** How a step can change which attempt serves call `c`: not at all, except that a
      settled attempt may now have answered; or `c` issues the next attempt. */
  ghost predicate SameService(s: State, e: Event, c: nat, a: nat)
    requires Enabled(s, e) && c < |s.calls| && c < |Step(s, e).calls|
  {
    var before, after := s.calls[c].body, Step(s, e).calls[c].body;
    && Uses(before, a)
    && Carries(after, c) == Carries(before, c)
    && (Positive(after) ==> Positive(before) || Good(s.book, a))
  }

  ghost predicate NewService(s: State, e: Event, c: nat, a: nat)
    requires Enabled(s, e) && c < |Step(s, e).calls|
  {
    var t := Step(s, e);
    && a == |s.book.attempts| < |t.book.attempts|
    && c < |s.calls| && t.book.attempts == IssueFor(s, c).attempts && t.worker == s.worker
    && !Positive(t.calls[c].body)
  }

  lemma NewCalls(s: State, e: Event)
    requires Enabled(s, e)
    ensures |s.calls| <= |Step(s, e).calls|
    ensures forall c :: |s.calls| <= c < |Step(s, e).calls| ==>
      && e.Begin? && c == |s.calls|
      && Step(s, e).calls[c].body == (if Step(s, e).calls[c].kind.Import? then Queued else Calling)
      && (!Mutates(Step(s, e).calls[c].kind) ==> Step(s, e).calls[c].identity == Minted(c))
  {
  }

  lemma CallsGrow(s: State, e: Event)
    requires Enabled(s, e)
    ensures |s.calls| <= |Step(s, e).calls|
    ensures forall c :: 0 <= c < |s.calls| ==> Moves(s.calls[c], Step(s, e).calls[c])
    ensures forall c :: |s.calls| <= c < |Step(s, e).calls| ==>
      Step(s, e).calls[c].body.Calling? || Step(s, e).calls[c].body.Queued?
  {
    NewCalls(s, e);
    forall c: nat | c < |s.calls| ensures Moves(s.calls[c], Step(s, e).calls[c]) {
      StepMoves(s, e, c);
    }
  }

  lemma UsesStep(s: State, e: Event, c: nat)
    requires Enabled(s, e) && c < |s.calls|
    ensures c < |Step(s, e).calls|
    ensures forall a: nat :: Uses(Step(s, e).calls[c].body, a) ==> SameService(s, e, c, a) || NewService(s, e, c, a)
  {
    CallsGrow(s, e);
  }

  lemma AttemptsStep(s: State, e: Event)
    requires Enabled(s, e)
    ensures |s.book.attempts| <= |Step(s, e).book.attempts|
    ensures forall a: nat :: a < |s.book.attempts| ==>
      && Step(s, e).book.attempts[a].base == s.book.attempts[a].base
      && Step(s, e).book.attempts[a].identity == s.book.attempts[a].identity
      && (Good(s.book, a) ==> Good(Step(s, e).book, a))
  {
    if !TouchesBook(e) {
      OthersKeepBook(s, e);
    }
  }

  lemma StepLate(s: State, n: nat, e: Event, c: nat)
    requires Enabled(s, e) && n <= |s.book.attempts|
    requires c < |s.calls| ==> Late(s, n, c)
    ensures c < |Step(s, e).calls| ==> Late(Step(s, e), n, c)
  {
    CallsGrow(s, e);
    if c < |s.calls| {
      UsesStep(s, e, c);
    }
  }

  lemma StepLinked(s: State, e: Event)
    requires Linked(s) && Enabled(s, e)
    ensures Linked(Step(s, e))
  {
    CallsGrow(s, e);
    AttemptsStep(s, e);
    var t := Step(s, e);
    forall c: nat | c < |t.calls| ensures LinkedCall(t, c) {
      if c < |s.calls| {
        assert LinkedCall(s, c);
        UsesStep(s, e, c);
        StepKinds(s, e, c);
      }
    }
  }

  lemma {:induction false} RunLinked(s: State, es: seq<Event>)
    requires Linked(s) && Valid(s, es)
    ensures Linked(Run(s, es))
    decreases |es|
  {
    if es != [] {
      StepLinked(s, es[0]);
      RunLinked(Step(s, es[0]), es[1..]);
    }
  }

  lemma {:induction false} RunLate(s: State, n: nat, es: seq<Event>, c: nat)
    requires Valid(s, es) && n <= |s.book.attempts| && c < |s.calls| && Late(s, n, c)
    ensures c < |Run(s, es).calls| && Late(Run(s, es), n, c)
    decreases |es|
  {
    if es != [] {
      StepLate(s, n, es[0], c);
      RunLate(Step(s, es[0]), n, es[1..], c);
    }
  }

  lemma LaterIfHigher(b: Book, i: nat, j: nat)
    requires Numbered(b) && i < |b.attempts| && j < |b.attempts|
    requires b.attempts[i].epoch == b.attempts[j].epoch && b.attempts[i].gen <= b.attempts[j].gen
    ensures i <= j
  {
  }

  predicate OnDisk(s: State, token: Token) { !s.book.disk.NoState? && token in s.book.disk.snap }

  lemma {:induction false} RunConcat(s: State, es: seq<Event>, fs: seq<Event>)
    requires Valid(s, es) && Valid(Run(s, es), fs)
    ensures Valid(s, es + fs) && Run(s, es + fs) == Run(Run(s, es), fs)
    decreases |es|
  {
    if es == [] {
      assert es + fs == fs;
    } else {
      RunConcat(Step(s, es[0]), es[1..], fs);
      assert (es + fs)[1..] == es[1..] + fs;
    }
  }

  lemma OneStep(s: State, e: Event)
    requires Enabled(s, e)
    ensures Valid(s, [e]) && Run(s, [e]) == Step(s, e)
  {
    assert [e][1..] == [];
    assert Valid(Step(s, e), [e][1..]);
  }

  lemma Then(s: State, es: seq<Event>, t: State, e: Event) returns (fs: seq<Event>)
    requires Valid(s, es) && Run(s, es) == t && Enabled(t, e)
    ensures Valid(s, fs) && Run(s, fs) == Step(t, e)
  {
    OneStep(t, e);
    RunConcat(s, es, [e]);
    fs := es + [e];
  }
}
