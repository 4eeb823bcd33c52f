/** The messages table as the application sees it: plain rows, and the operations that
    create, replay, mark, claim and purge them.  A row holds a value for each property
    that is not `undefined`. */
module MessageTable {
  import opened Helpers

  datatype Field =
    | GroupId | CiphertextB64 | SenderDeviceId | EpochSeq | ReceivedAt | PlaintextB64
    | ExpiresAt | EditedText | DeletedAt | ReactionsJson | Delivered | Read | ReadByJson
    | Starred | PollJson | ReplyToJson | ScheduledFor | MediaJson

  datatype Value = Str(s: string) | Num(n: int) | Flag(b: bool)

  type Row = map<Field, Value>
  type Table = map<string, Row>
  type Reactions = map<string, seq<string>>

  /** The properties a replayed `putMessage` keeps from the stored row. */
  const PRESERVED: set<Field> := {
    ReactionsJson, ReadByJson, Read, Delivered, Starred, EditedText, DeletedAt, ScheduledFor, ExpiresAt, PollJson
  }

  /** JSON parsing and printing of the two structured properties. */
  datatype Json = Json(
    parseReactions: string -> Option<Reactions>,
    showReactions: Reactions -> string,
    parseReaders: string -> Option<seq<string>>,
    showReaders: seq<string> -> string)

  ghost predicate Sane(j: Json) {
    && j.parseReactions("").None?
    && (forall r :: j.parseReactions(j.showReactions(r)) == Some(r) && j.showReactions(r) != "")
    && (forall r :: j.parseReaders(j.showReaders(r)) == Some(r) && j.showReaders(r) != "")
  }

  datatype Op =
    | Put(id: string, row: Row)
    | Edit(id: string, text: string)
    | Tombstone(id: string, now: int)
    | React(id: string, emoji: string, sender: string, add: bool)
    | Poll(id: string, json: string)
    | Deliver(id: string)
    | MarkRead(id: string, readers: seq<string>)
    | Star(id: string, starred: bool)
    | ClearScheduled(id: string)
    | Cancel(id: string)
    | Claim(id: string)
    | Purge(now: int)

  function Text(row: Row, f: Field): string {
    if f in row && row[f].Str? then row[f].s else ""
  }

  // ---------------------------------------------------------------------------
  // Operations
  // ---------------------------------------------------------------------------

  /** `{...incoming, preserved properties of existing}`. */
  function Merge(incoming: Row, existing: Row): Row {
    (map f | f in incoming && f !in PRESERVED :: incoming[f]) + (map f | f in existing && f in PRESERVED :: existing[f])
  }

  /** Dexie's `update`: no effect on a missing row. */
  function Update(t: Table, id: string, f: Field, v: Value): Table {
    if id in t then t[id := t[id][f := v]] else t
  }

  function ReactionsOf(j: Json, row: Row): Reactions {
    var text := Text(row, ReactionsJson);
    if text == "" then map[]
    else
      match j.parseReactions(text)
      case None => map[]
      case Some(r) => r
  }

  function Without(s: seq<string>, x: string): seq<string> {
    if s == [] then [] else (if s[0] == x then [] else [s[0]]) + Without(s[1..], x)
  }

  function SendersOf(r: Reactions, emoji: string): seq<string> { if emoji in r then r[emoji] else [] }

  /** The reaction map after one delta, or None when the delta changes nothing. */
  function Delta(r: Reactions, emoji: string, sender: string, add: bool): Option<Reactions> {
    var senders := SendersOf(r, emoji);
    if add == (sender in senders) then None
    else
      var next := if add then senders + [sender] else Without(senders, sender);
      Some(if next == [] then r - {emoji} else r[emoji := next])
  }

  function ReactRow(j: Json, row: Row, emoji: string, sender: string, add: bool): Row {
    match Delta(ReactionsOf(j, row), emoji, sender, add)
    case None => row
    case Some(r) => row[ReactionsJson := Str(j.showReactions(r))]
  }

  function Dedup(s: seq<string>): seq<string> {
    if s == [] then []
    else
      var rest := Dedup(s[..|s| - 1]);
      if s[|s| - 1] in rest then rest else rest + [s[|s| - 1]]
  }

  function ReadersOf(j: Json, row: Row): seq<string> {
    var text := Text(row, ReadByJson);
    if text == "" then []
    else
      match j.parseReaders(text)
      case None => []
      case Some(r) => r
  }

  function ReadRow(j: Json, row: Row, readers: seq<string>): Row {
    row[Read := Flag(true)][ReadByJson := Str(j.showReaders(Dedup(ReadersOf(j, row) + readers)))]
  }

  predicate Expired(row: Row, now: int) { ExpiresAt in row && row[ExpiresAt].Num? && row[ExpiresAt].n <= now }

  predicate Scheduled(t: Table, id: string) { id in t && ScheduledFor in t[id] }

  function Step(j: Json, t: Table, op: Op): Table {
    match op
    case Put(id, row) => t[id := if id in t then Merge(row, t[id]) else row]
    case Edit(id, text) => Update(t, id, EditedText, Str(text))
    case Tombstone(id, now) => Update(t, id, DeletedAt, Num(now))
    case React(id, emoji, sender, add) => if id in t then t[id := ReactRow(j, t[id], emoji, sender, add)] else t
    case Poll(id, json) => Update(t, id, PollJson, Str(json))
    case Deliver(id) => Update(t, id, Delivered, Flag(true))
    case MarkRead(id, readers) => if id in t then t[id := ReadRow(j, t[id], readers)] else t
    case Star(id, starred) => Update(t, id, Starred, Flag(starred))
    case ClearScheduled(id) => if id in t then t[id := t[id] - {ScheduledFor}] else t
    case Cancel(id) => if Scheduled(t, id) then t - {id} else t
    case Claim(id) => if Scheduled(t, id) then t - {id} else t
    case Purge(now) => map id | id in t && !Expired(t[id], now) :: t[id]
  }

  function Run(j: Json, t: Table, ops: seq<Op>): Table
    decreases |ops|
  {
    if ops == [] then t else Run(j, Step(j, t, ops[0]), ops[1..])
  }

  // ---------------------------------------------------------------------------
  // Replay transparency
  // ---------------------------------------------------------------------------

  predicate SameAt(r: Row, q: Row, f: Field) {
    (f in r <==> f in q) && (f in r ==> r[f] == q[f])
  }

  ghost predicate AgreeRow(r: Row, q: Row) {
    forall f :: f in PRESERVED ==> SameAt(r, q, f)
  }

  /** Two tables with the same rows, agreeing on the preserved properties. */
  ghost predicate Agree(t: Table, u: Table) {
    && t.Keys == u.Keys
    && (forall id :: id in t ==> AgreeRow(t[id], u[id]))
  }

  lemma MergeAgrees(incoming: Row, existing: Row)
    ensures AgreeRow(existing, Merge(incoming, existing))
  {
  }

  lemma SetRowAgrees(t: Table, u: Table, id: string, r: Row, q: Row)
    requires Agree(t, u) && AgreeRow(r, q)
    ensures Agree(t[id := r], u[id := q])
  {
  }

  lemma UpdateAgrees(t: Table, u: Table, id: string, f: Field, v: Value)
    requires Agree(t, u)
    ensures Agree(Update(t, id, f, v), Update(u, id, f, v))
  {
    if id in t {
      SetRowAgrees(t, u, id, t[id][f := v], u[id][f := v]);
    }
  }

  /** A replayed create of a stored row changes none of its preserved properties. */
  lemma ReplayAgrees(j: Json, t: Table, id: string, row: Row)
    requires id in t
    ensures Agree(t, Step(j, t, Put(id, row)))
  {
    MergeAgrees(row, t[id]);
    SetRowAgrees(t, t, id, t[id], Merge(row, t[id]));
    assert t[id := t[id]] == t;
  }

  lemma PutAgrees(t: Table, u: Table, id: string, row: Row)
    requires Agree(t, u) && id in t
    ensures Agree(t[id := Merge(row, t[id])], u[id := Merge(row, u[id])])
  {
    MergeAgrees(row, t[id]);
    MergeAgrees(row, u[id]);
    forall f | f in PRESERVED ensures SameAt(Merge(row, t[id]), Merge(row, u[id]), f) {
      assert SameAt(t[id], u[id], f);
    }
    SetRowAgrees(t, u, id, Merge(row, t[id]), Merge(row, u[id]));
  }

  lemma PurgeAgrees(j: Json, t: Table, u: Table, now: int)
    requires Agree(t, u)
    ensures Agree(Step(j, t, Purge(now)), Step(j, u, Purge(now)))
  {
    forall id | id in t ensures Expired(t[id], now) == Expired(u[id], now) {
      assert SameAt(t[id], u[id], ExpiresAt);
    }
  }

  lemma ReactRowsAgree(j: Json, r: Row, q: Row, emoji: string, sender: string, add: bool)
    requires AgreeRow(r, q)
    ensures AgreeRow(ReactRow(j, r, emoji, sender, add), ReactRow(j, q, emoji, sender, add))
  {
    assert SameAt(r, q, ReactionsJson);
  }

  lemma ReadRowsAgree(j: Json, r: Row, q: Row, readers: seq<string>)
    requires AgreeRow(r, q)
    ensures AgreeRow(ReadRow(j, r, readers), ReadRow(j, q, readers))
  {
    assert SameAt(r, q, ReadByJson);
  }

  lemma RowEditsAgree(j: Json, t: Table, u: Table, op: Op)
    requires Agree(t, u) && (op.React? || op.MarkRead? || op.ClearScheduled?) && op.id in t
    ensures Agree(Step(j, t, op), Step(j, u, op))
  {
    var r, q := t[op.id], u[op.id];
    match op
    case React(id, emoji, sender, add) =>
      ReactRowsAgree(j, r, q, emoji, sender, add);
      SetRowAgrees(t, u, id, ReactRow(j, r, emoji, sender, add), ReactRow(j, q, emoji, sender, add));
    case MarkRead(id, readers) =>
      ReadRowsAgree(j, r, q, readers);
      SetRowAgrees(t, u, id, ReadRow(j, r, readers), ReadRow(j, q, readers));
    case ClearScheduled(id) => SetRowAgrees(t, u, id, r - {ScheduledFor}, q - {ScheduledFor});
  }

  /** Every operation reads only preserved properties, so it keeps agreement. */
  lemma StepAgrees(j: Json, t: Table, u: Table, op: Op)
    requires Agree(t, u)
    ensures Agree(Step(j, t, op), Step(j, u, op))
  {
    match op
    case Put(id, row) =>
      if id in t {
        PutAgrees(t, u, id, row);
      } else {
        SetRowAgrees(t, u, id, row, row);
      }
    case Edit(id, text) => UpdateAgrees(t, u, id, EditedText, Str(text));
    case Tombstone(id, now) => UpdateAgrees(t, u, id, DeletedAt, Num(now));
    case Poll(id, json) => UpdateAgrees(t, u, id, PollJson, Str(json));
    case Deliver(id) => UpdateAgrees(t, u, id, Delivered, Flag(true));
    case Star(id, starred) => UpdateAgrees(t, u, id, Starred, Flag(starred));
    case Cancel(id) => assert id in t ==> SameAt(t[id], u[id], ScheduledFor);
    case Claim(id) => assert id in t ==> SameAt(t[id], u[id], ScheduledFor);
    case Purge(now) => PurgeAgrees(j, t, u, now);
    case _ =>
      if op.id in t {
        RowEditsAgree(j, t, u, op);
      }
  }

  /** `more` is `ops` with creates inserted, each for a row stored at that moment. */
  ghost predicate Replayed(j: Json, t: Table, ops: seq<Op>, more: seq<Op>)
    decreases |more|
  {
    if more == [] then ops == []
    else
      || (more[0].Put? && more[0].id in t && Replayed(j, Step(j, t, more[0]), ops, more[1..]))
      || (ops != [] && ops[0] == more[0] && Replayed(j, Step(j, t, more[0]), ops[1..], more[1..]))
  }

  lemma AgreeTrans(t: Table, u: Table, v: Table)
    requires Agree(t, u) && Agree(u, v)
    ensures Agree(t, v)
  {
    forall id, f | id in t && f in PRESERVED ensures SameAt(t[id], v[id], f) {
      assert SameAt(t[id], u[id], f) && SameAt(u[id], v[id], f);
    }
  }

  /** Inserting any number of redelivered creates anywhere in any sequence of
      operations leaves the same rows with the same preserved properties. */
  lemma {:induction false} ReplayIsTransparent(j: Json, t: Table, u: Table, ops: seq<Op>, more: seq<Op>)
    requires Agree(t, u) && Replayed(j, u, ops, more)
    ensures Agree(Run(j, t, ops), Run(j, u, more))
    decreases |more|
  {
    if more != [] {
      var u' := Step(j, u, more[0]);
      if more[0].Put? && more[0].id in u && Replayed(j, u', ops, more[1..]) {
        ReplayAgrees(j, u, more[0].id, more[0].row);
        AgreeTrans(t, u, u');
        ReplayIsTransparent(j, t, u', ops, more[1..]);
      } else {
        StepAgrees(j, t, u, more[0]);
        ReplayIsTransparent(j, Step(j, t, more[0]), u', ops[1..], more[1..]);
      }
    }
  }

  // ---------------------------------------------------------------------------
  // Delta merges lose nothing
  // ---------------------------------------------------------------------------

  /** The row stays stored at every point of the run. */
  predicate Stays(j: Json, t: Table, ops: seq<Op>, id: string)
    decreases |ops|
  {
    id in t && (ops == [] || Stays(j, Step(j, t, ops[0]), ops[1..], id))
  }

  lemma {:induction false} StaysToTheEnd(j: Json, t: Table, ops: seq<Op>, id: string)
    requires Stays(j, t, ops, id)
    ensures id in Run(j, t, ops)
    decreases |ops|
  {
    if ops != [] {
      StaysToTheEnd(j, Step(j, t, ops[0]), ops[1..], id);
    }
  }

  predicate Reacted(j: Json, row: Row, emoji: string, sender: string) {
    sender in SendersOf(ReactionsOf(j, row), emoji)
  }

  /** The last delta for (id, emoji, sender) decides, else the initial state. */
  function LastDelta(ops: seq<Op>, id: string, emoji: string, sender: string, initially: bool): bool
    decreases |ops|
  {
    if ops == [] then initially
    else
      var op := ops[0];
      LastDelta(ops[1..], id, emoji, sender,
                if op.React? && op.id == id && op.emoji == emoji && op.sender == sender then op.add else initially)
  }

  lemma {:induction false} WithoutMember(s: seq<string>, x: string, y: string)
    ensures y in Without(s, x) <==> y in s && y != x
  {
    if s != [] {
      WithoutMember(s[1..], x, y);
    }
  }

  lemma DeltaMember(r: Reactions, emoji: string, sender: string, add: bool, e: string, x: string)
    ensures var q := Delta(r, emoji, sender, add);
      (x in SendersOf(if q.Some? then q.value else r, e))
      == if e == emoji && x == sender then add else x in SendersOf(r, e)
  {
    var senders := SendersOf(r, emoji);
    WithoutMember(senders, sender, x);
    if add != (sender in senders) {
      var next := if add then senders + [sender] else Without(senders, sender);
      assert x in next <==> if x == sender then add else x in senders;
    }
  }

  lemma ReactRowMember(j: Json, row: Row, emoji: string, sender: string, add: bool, e: string, x: string)
    requires Sane(j)
    ensures Reacted(j, ReactRow(j, row, emoji, sender, add), e, x)
      == if e == emoji && x == sender then add else Reacted(j, row, e, x)
  {
    DeltaMember(ReactionsOf(j, row), emoji, sender, add, e, x);
  }

  lemma StepReacted(j: Json, t: Table, op: Op, id: string, emoji: string, sender: string)
    requires Sane(j) && id in t && id in Step(j, t, op)
    ensures Reacted(j, Step(j, t, op)[id], emoji, sender)
      == LastDelta([op], id, emoji, sender, Reacted(j, t[id], emoji, sender))
  {
    if op.React? && op.id == id {
      ReactRowMember(j, t[id], op.emoji, op.sender, op.add, emoji, sender);
    } else {
      ReactionsKept(j, t, op, id);
    }
    assert [op][1..] == [];
  }

  lemma ReactionsKept(j: Json, t: Table, op: Op, id: string)
    requires id in t && id in Step(j, t, op) && !(op.React? && op.id == id)
    ensures SameAt(t[id], Step(j, t, op)[id], ReactionsJson)
  {
    if op.Put? && op.id == id {
      MergeAgrees(op.row, t[id]);
    }
  }

  /** Over any interleaving of operations that keeps the row, redelivered creates
      included, whether a sender's reaction is shown is decided by that sender's own
      last delta: no other write clobbers it. */
  lemma {:induction false} ReactionsAreNotLost(j: Json, t: Table, ops: seq<Op>, id: string, emoji: string,
      sender: string)
    requires Sane(j) && Stays(j, t, ops, id)
    ensures id in Run(j, t, ops)
    ensures Reacted(j, Run(j, t, ops)[id], emoji, sender)
      == LastDelta(ops, id, emoji, sender, Reacted(j, t[id], emoji, sender))
    decreases |ops|
  {
    StaysToTheEnd(j, t, ops, id);
    if ops != [] {
      StepReacted(j, t, ops[0], id, emoji, sender);
      assert LastDelta([ops[0]][1..], id, emoji, sender, true) && !LastDelta([ops[0]][1..], id, emoji, sender, false);
      ReactionsAreNotLost(j, Step(j, t, ops[0]), ops[1..], id, emoji, sender);
    }
  }

  function Reported(ops: seq<Op>, id: string): set<string>
    decreases |ops|
  {
    if ops == [] then {}
    else (if ops[0].MarkRead? && ops[0].id == id then set x | x in ops[0].readers else {}) + Reported(ops[1..], id)
  }

  lemma {:induction false} DedupMembers(s: seq<string>)
    ensures forall x :: x in Dedup(s) <==> x in s
    ensures forall i, k :: 0 <= i < k < |Dedup(s)| ==> Dedup(s)[i] != Dedup(s)[k]
  {
    if s != [] {
      DedupMembers(s[..|s| - 1]);
      assert s == s[..|s| - 1] + [s[|s| - 1]];
    }
  }

  function ReaderSet(j: Json, row: Row): set<string> { set x | x in ReadersOf(j, row) }

  /** What a row shows is what its stored text says; a missing, empty or unparsable one says
      nothing. */
  lemma ShowsWhatIsStored(j: Json, row: Row, emoji: string, sender: string)
    requires Sane(j)
    ensures Reacted(j, row, emoji, sender) <==>
      var text := Text(row, ReactionsJson); var r := j.parseReactions(text);
      text != "" && r.Some? && emoji in r.value && sender in r.value[emoji]
    ensures sender in ReaderSet(j, row) <==>
      var text := Text(row, ReadByJson); var r := j.parseReaders(text);
      text != "" && r.Some? && sender in r.value
  {
  }

  lemma {:induction false} DedupKeepsPrefix(a: seq<string>, b: seq<string>)
    ensures Dedup(a) <= Dedup(a + b)
  {
    if b == [] {
      assert a + b == a;
    } else {
      var n := |b| - 1;
      DedupKeepsPrefix(a, b[..n]);
      assert (a + b)[..|a + b| - 1] == a + b[..n];
    }
  }

  lemma {:induction false} DedupOfDistinct(s: seq<string>)
    requires forall i, k :: 0 <= i < k < |s| ==> s[i] != s[k]
    ensures Dedup(s) == s
  {
    if s != [] {
      DedupOfDistinct(s[..|s| - 1]);
    }
  }

  /** A read receipt appends: the readers stored so far, none of them twice, stay where they
      are, and new ones follow. */
  lemma ReadersAppend(j: Json, row: Row, readers: seq<string>)
    requires Sane(j)
    requires var r := ReadersOf(j, row); forall i, k :: 0 <= i < k < |r| ==> r[i] != r[k]
    ensures var r, q := ReadersOf(j, row), ReadersOf(j, ReadRow(j, row, readers));
      r <= q && forall i, k :: 0 <= i < k < |q| ==> q[i] != q[k]
  {
    var r := ReadersOf(j, row);
    DedupOfDistinct(r);
    DedupKeepsPrefix(r, readers);
    DedupMembers(r + readers);
    assert ReadersOf(j, ReadRow(j, row, readers)) == Dedup(r + readers);
  }

  lemma ReadRowReaders(j: Json, row: Row, readers: seq<string>)
    requires Sane(j)
    ensures ReaderSet(j, ReadRow(j, row, readers)) == ReaderSet(j, row) + set x | x in readers
  {
    var all := ReadersOf(j, row) + readers;
    DedupMembers(all);
    assert ReadersOf(j, ReadRow(j, row, readers)) == Dedup(all);
  }

  /** Only a read receipt for the row touches its readers. */
  lemma ReadersKept(j: Json, t: Table, op: Op, id: string)
    requires id in t && id in Step(j, t, op) && !(op.MarkRead? && op.id == id)
    ensures SameAt(t[id], Step(j, t, op)[id], ReadByJson)
  {
    if op.Put? && op.id == id {
      MergeAgrees(op.row, t[id]);
    }
  }

  lemma StepReaders(j: Json, t: Table, op: Op, id: string)
    requires Sane(j) && id in t && id in Step(j, t, op)
    ensures ReaderSet(j, Step(j, t, op)[id]) ==
      ReaderSet(j, t[id]) + if op.MarkRead? && op.id == id then set x | x in op.readers else {}
  {
    if op.MarkRead? && op.id == id {
      ReadRowReaders(j, t[id], op.readers);
    } else {
      ReadersKept(j, t, op, id);
    }
  }

  /** Read receipts accumulate: the stored readers are the initial ones together with
      every reader ever reported, whatever else happened to the row. */
  lemma {:induction false} ReadersAccumulate(j: Json, t: Table, ops: seq<Op>, id: string)
    requires Sane(j) && Stays(j, t, ops, id)
    ensures id in Run(j, t, ops)
    ensures ReaderSet(j, Run(j, t, ops)[id]) == ReaderSet(j, t[id]) + Reported(ops, id)
    decreases |ops|
  {
    StaysToTheEnd(j, t, ops, id);
    if ops != [] {
      StepReaders(j, t, ops[0], id);
      ReadersAccumulate(j, Step(j, t, ops[0]), ops[1..], id);
    }
  }

  // ---------------------------------------------------------------------------
  // Reading back
  // ---------------------------------------------------------------------------

  function At(row: Row, f: Field): Option<Value> { if f in row then Some(row[f]) else None }

  /** When the row expires, if ever. */
  function Deadline(row: Row): Option<int> {
    if ExpiresAt in row && row[ExpiresAt].Num? then Some(row[ExpiresAt].n) else None
  }

  /** The stored reactions and readers accumulate; every other property is simply set. */
  predicate Simple(f: Field) { f != ReactionsJson && f != ReadByJson }

  /** What the operation sets the property of row `id` to, if it is one that sets it. */
  function Sets(op: Op, id: string, f: Field): Option<Option<Value>> {
    if op.Purge? || op.id != id then None
    else
      match f
      case EditedText => if op.Edit? then Some(Some(Str(op.text))) else None
      case DeletedAt => if op.Tombstone? then Some(Some(Num(op.now))) else None
      case PollJson => if op.Poll? then Some(Some(Str(op.json))) else None
      case Delivered => if op.Deliver? then Some(Some(Flag(true))) else None
      case Read => if op.MarkRead? then Some(Some(Flag(true))) else None
      case Starred => if op.Star? then Some(Some(Flag(op.starred))) else None
      case ScheduledFor => if op.ClearScheduled? then Some(None) else None
      case ExpiresAt => None
      case _ => if op.Put? then Some(At(op.row, f)) else None
  }

  /** The property as the last operation that sets it left it, else as it was. */
  function LastSet(ops: seq<Op>, id: string, f: Field, initially: Option<Value>): Option<Value>
    decreases |ops|
  {
    if ops == [] then initially
    else
      var x := Sets(ops[0], id, f);
      LastSet(ops[1..], id, f, if x.Some? then x.value else initially)
  }

  lemma PutSets(j: Json, t: Table, op: Op, id: string, f: Field)
    requires id in t && op.Put? && op.id == id && Simple(f)
    ensures var x := Sets(op, id, f); At(Step(j, t, op)[id], f) == if x.Some? then x.value else At(t[id], f)
  {
  }

  /** An operation on another row, or a purge, leaves a row that stays as it is. */
  lemma OthersKeepRow(j: Json, t: Table, op: Op, id: string)
    requires id in t && id in Step(j, t, op) && (op.Purge? || op.id != id)
    ensures Step(j, t, op)[id] == t[id]
  {
  }

  lemma MarkSets(j: Json, t: Table, op: Op, id: string, f: Field)
    requires id in t && id in Step(j, t, op) && Simple(f) && !op.Purge? && !op.Put? && op.id == id
    ensures var x := Sets(op, id, f); At(Step(j, t, op)[id], f) == if x.Some? then x.value else At(t[id], f)
  {
  }

  lemma StepSets(j: Json, t: Table, op: Op, id: string, f: Field)
    requires id in t && id in Step(j, t, op) && Simple(f)
    ensures var x := Sets(op, id, f); At(Step(j, t, op)[id], f) == if x.Some? then x.value else At(t[id], f)
  {
    if op.Purge? || op.id != id {
      OthersKeepRow(j, t, op, id);
    } else if op.Put? {
      PutSets(j, t, op, id, f);
    } else {
      MarkSets(j, t, op, id, f);
    }
  }

  /** Over any operations that keep the row, each property is what the last operation that
      sets it set it to: a create for the content, and for the ten properties a replay
      preserves, only the operation made for them. */
  lemma {:induction false} LastSetDecides(j: Json, t: Table, ops: seq<Op>, id: string, f: Field)
    requires Stays(j, t, ops, id) && Simple(f)
    ensures id in Run(j, t, ops) && At(Run(j, t, ops)[id], f) == LastSet(ops, id, f, At(t[id], f))
    decreases |ops|
  {
    if ops != [] {
      StepSets(j, t, ops[0], id, f);
      LastSetDecides(j, Step(j, t, ops[0]), ops[1..], id, f);
    }
  }

  /** The row outlives the operations: no purge comes at or after its deadline, and no claim
      or cancel while it is scheduled. */
  predicate Survives(ops: seq<Op>, id: string, scheduled: bool, deadline: Option<int>)
    decreases |ops|
  {
    ops != [] ==>
      && !(ops[0].Purge? && deadline.Some? && deadline.value <= ops[0].now)
      && !((ops[0].Cancel? || ops[0].Claim?) && ops[0].id == id && scheduled)
      && Survives(ops[1..], id, scheduled && ops[0] != ClearScheduled(id), deadline)
  }

  lemma StepSurvives(j: Json, t: Table, op: Op, id: string)
    requires id in t
    ensures id in Step(j, t, op) <==>
      && !(op.Purge? && Deadline(t[id]).Some? && Deadline(t[id]).value <= op.now)
      && !((op.Cancel? || op.Claim?) && op.id == id && ScheduledFor in t[id])
    ensures id in Step(j, t, op) ==>
      && Deadline(Step(j, t, op)[id]) == Deadline(t[id])
      && (ScheduledFor in Step(j, t, op)[id] <==> ScheduledFor in t[id] && op != ClearScheduled(id))
  {
  }

  /** A stored row stays through any operations if and only if it outlives them, which its
      deadline, its being scheduled and the operations decide. */
  lemma {:induction false} StaysExactlyWhen(j: Json, t: Table, ops: seq<Op>, id: string)
    requires id in t
    ensures Stays(j, t, ops, id) <==> Survives(ops, id, ScheduledFor in t[id], Deadline(t[id]))
    decreases |ops|
  {
    if ops != [] {
      StepSurvives(j, t, ops[0], id);
      if id in Step(j, t, ops[0]) {
        StaysExactlyWhen(j, Step(j, t, ops[0]), ops[1..], id);
      }
    }
  }

  /** Only a create stores a row that was not there, and it stores all of it. */
  lemma CreatedExactlyWhen(j: Json, t: Table, op: Op, id: string)
    requires id !in t
    ensures id in Step(j, t, op) <==> op.Put? && op.id == id
    ensures id in Step(j, t, op) ==> Step(j, t, op)[id] == op.row
  {
  }

  /** A created message, read back after any operations it outlives: every property is the one
      last set, its reactions are each sender's last, and its readers are all reported. */
  lemma ReadBack(j: Json, t: Table, id: string, row: Row, ops: seq<Op>)
    requires Sane(j) && id !in t && Survives(ops, id, ScheduledFor in row, Deadline(row))
    ensures var u := Run(j, t, [Put(id, row)] + ops);
      && id in u
      && (forall f :: Simple(f) ==> At(u[id], f) == LastSet(ops, id, f, At(row, f)))
      && (forall emoji, sender ::
            Reacted(j, u[id], emoji, sender) == LastDelta(ops, id, emoji, sender, Reacted(j, row, emoji, sender)))
      && ReaderSet(j, u[id]) == ReaderSet(j, row) + Reported(ops, id)
  {
    var create := Put(id, row);
    var s := Step(j, t, create);
    assert ([create] + ops)[1..] == ops;
    StaysExactlyWhen(j, s, ops, id);
    var u := Run(j, s, ops);
    ReadersAccumulate(j, s, ops, id);
    forall f | Simple(f) ensures At(u[id], f) == LastSet(ops, id, f, At(row, f)) {
      LastSetDecides(j, s, ops, id, f);
    }
    forall emoji, sender
      ensures Reacted(j, u[id], emoji, sender) == LastDelta(ops, id, emoji, sender, Reacted(j, row, emoji, sender))
    {
      ReactionsAreNotLost(j, s, ops, id, emoji, sender);
    }
  }

  // ---------------------------------------------------------------------------
  // The reaction map stays tidy
  // ---------------------------------------------------------------------------

  predicate NoRepeats(s: seq<string>) { forall i, k :: 0 <= i < k < |s| ==> s[i] != s[k] }

  /** Every emoji shown has a sender, and none of them twice. */
  predicate Tidy(r: Reactions) { forall e :: e in r ==> r[e] != [] && NoRepeats(r[e]) }

  lemma {:induction false} WithoutNoRepeats(s: seq<string>, x: string)
    requires NoRepeats(s)
    ensures NoRepeats(Without(s, x))
  {
    if s != [] {
      WithoutNoRepeats(s[1..], x);
      WithoutMember(s[1..], x, s[0]);
    }
  }

  lemma {:induction false} WithoutTwice(s: seq<string>, x: string)
    ensures Without(Without(s, x), x) == Without(s, x) && Without(s + [x], x) == Without(s, x)
  {
    if s == [] {
      assert s + [x] == [x] && [x][1..] == [];
    } else {
      WithoutTwice(s[1..], x);
      assert (s + [x])[1..] == s[1..] + [x];
      var rest := Without(s[1..], x);
      if s[0] == x {
        assert [] + rest == rest;
      } else {
        assert ([s[0]] + rest)[1..] == rest;
      }
    }
  }

  /** A delta leaves every other emoji as it was and the emoji's other senders in their order;
      a new sender comes last. */
  lemma DeltaKeepsRest(r: Reactions, emoji: string, sender: string, add: bool, q: Reactions)
    requires Delta(r, emoji, sender, add) == Some(q)
    ensures forall e :: e != emoji ==> (e in q <==> e in r) && SendersOf(q, e) == SendersOf(r, e)
    ensures Without(SendersOf(q, emoji), sender) == Without(SendersOf(r, emoji), sender)
    ensures add ==> SendersOf(q, emoji) != [] && SendersOf(q, emoji)[|SendersOf(q, emoji)| - 1] == sender
  {
    WithoutTwice(SendersOf(r, emoji), sender);
  }

  lemma AppendNoRepeats(s: seq<string>, x: string)
    requires NoRepeats(s) && x !in s
    ensures NoRepeats(s + [x])
  {
  }

  lemma DeltaTidy(r: Reactions, emoji: string, sender: string, add: bool, q: Reactions)
    requires Delta(r, emoji, sender, add) == Some(q) && Tidy(r)
    ensures Tidy(q)
  {
    var senders := SendersOf(r, emoji);
    assert NoRepeats(senders);
    if add {
      AppendNoRepeats(senders, sender);
    } else {
      WithoutNoRepeats(senders, sender);
    }
  }

  lemma StepTidy(j: Json, t: Table, op: Op, id: string)
    requires Sane(j) && id in t && id in Step(j, t, op) && Tidy(ReactionsOf(j, t[id]))
    ensures Tidy(ReactionsOf(j, Step(j, t, op)[id]))
  {
    if op.React? && op.id == id {
      var r := ReactionsOf(j, t[id]);
      var q := Delta(r, op.emoji, op.sender, op.add);
      if q.Some? {
        DeltaTidy(r, op.emoji, op.sender, op.add, q.value);
      }
    } else {
      ReactionsKept(j, t, op, id);
    }
  }

  /** Over any operations that keep the row, no sender is counted twice under an emoji and no
      emoji without a sender is left. */
  lemma {:induction false} ReactionsStayTidy(j: Json, t: Table, ops: seq<Op>, id: string)
    requires Sane(j) && Stays(j, t, ops, id) && Tidy(ReactionsOf(j, t[id]))
    ensures id in Run(j, t, ops) && Tidy(ReactionsOf(j, Run(j, t, ops)[id]))
    decreases |ops|
  {
    if ops != [] {
      StepTidy(j, t, ops[0], id);
      ReactionsStayTidy(j, Step(j, t, ops[0]), ops[1..], id);
    }
  }
}
