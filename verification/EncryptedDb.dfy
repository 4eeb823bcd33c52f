/** The encrypted wrapper over the messages table.  Its rows hold ciphertext in the
    sensitive properties; every operation, whatever ciphertext each encryption
    returned, does to the decrypted table what `MessageTable.Step` does. */
module EncryptedDb {
  import opened Helpers
  import opened MessageTable

  const SENSITIVE: seq<Field> :=
    [CiphertextB64, PlaintextB64, EditedText, ReactionsJson, PollJson, ReplyToJson, MediaJson]

  /** Field encryption under a fixed key: each call may return a different ciphertext,
      and decryption undoes every one of them.  A ciphertext is never empty. */
  class FieldEncryptor {
    const enc: (string, nat) -> string
    const dec: string -> string
    var calls: nat

    ghost predicate Faithful() {
      forall v, n :: dec(enc(v, n)) == v && enc(v, n) != ""
    }

    constructor (enc: (string, nat) -> string, dec: string -> string)
      requires forall v, n :: dec(enc(v, n)) == v && enc(v, n) != ""
      ensures this.enc == enc && this.dec == dec && Faithful()
    {
      this.enc, this.dec, calls := enc, dec, 0;
    }

    method EncryptDbField(value: string) returns (c: string)
      requires Faithful()
      modifies this`calls
      ensures dec(c) == value && c != "" && Ciphertext(enc, c)
    {
      c := enc(value, calls);
      calls := calls + 1;
    }
  }

  /** The text came out of the encryption. */
  ghost predicate Ciphertext(enc: (string, nat) -> string, c: string) { exists v, n :: enc(v, n) == c }

  /** The properties that are never stored in the clear. */
  predicate Secret(f: Field) {
    f in {CiphertextB64, PlaintextB64, EditedText, ReactionsJson, PollJson, ReplyToJson, MediaJson}
  }

  function DecValue(dec: string -> string, f: Field, v: Value): Value {
    if f in SENSITIVE && v.Str? then Str(dec(v.s)) else v
  }

  function DecryptRow(dec: string -> string, row: Row): Row { map f | f in row :: DecValue(dec, f, row[f]) }

  function DecryptAll(dec: string -> string, rows: Table): Table { map id | id in rows :: DecryptRow(dec, rows[id]) }

  /** Secret text is stored as a ciphertext. */
  ghost predicate Sealed(enc: (string, nat) -> string, row: Row) {
    forall f :: f in row && Secret(f) && row[f].Str? ==> row[f].s != "" && Ciphertext(enc, row[f].s)
  }

  ghost predicate AllSealed(enc: (string, nat) -> string, rows: Table) {
    forall id :: id in rows ==> Sealed(enc, rows[id])
  }

  // ---------------------------------------------------------------------------
  // Decryption commutes with the row operations
  // ---------------------------------------------------------------------------

  lemma DecryptSet(dec: string -> string, row: Row, f: Field, v: Value)
    ensures DecryptRow(dec, row[f := v]) == DecryptRow(dec, row)[f := DecValue(dec, f, v)]
  {
  }

  lemma DecryptMerge(dec: string -> string, r: Row, q: Row)
    ensures DecryptRow(dec, Merge(r, q)) == Merge(DecryptRow(dec, r), DecryptRow(dec, q))
  {
  }

  lemma DecryptRemove(dec: string -> string, row: Row, f: Field)
    ensures DecryptRow(dec, row - {f}) == DecryptRow(dec, row) - {f}
  {
  }

  lemma DecryptStore(dec: string -> string, rows: Table, id: string, row: Row)
    ensures DecryptAll(dec, rows[id := row]) == DecryptAll(dec, rows)[id := DecryptRow(dec, row)]
  {
  }

  lemma DecryptDrop(dec: string -> string, rows: Table, id: string)
    ensures DecryptAll(dec, rows - {id}) == DecryptAll(dec, rows) - {id}
  {
  }

  lemma DecryptPurge(dec: string -> string, j: Json, rows: Table, now: int)
    ensures DecryptAll(dec, Step(j, rows, Purge(now))) == Step(j, DecryptAll(dec, rows), Purge(now))
  {
    forall id | id in rows ensures Expired(rows[id], now) == Expired(DecryptRow(dec, rows[id]), now) {
    }
  }

  lemma DropCount(rows: Table, gone: set<string>)
    requires gone <= rows.Keys
    ensures |rows - gone| == |rows| - |gone|
  {
    assert (rows - gone).Keys == rows.Keys - gone;
  }

  lemma DropExpired(j: Json, rows: Table, expired: set<string>, now: int)
    requires forall id :: id in expired <==> id in rows && Expired(rows[id], now)
    ensures rows - expired == Step(j, rows, Purge(now))
  {
  }

  lemma SealedDrop(enc: (string, nat) -> string, rows: Table, gone: set<string>)
    requires AllSealed(enc, rows)
    ensures AllSealed(enc, rows - gone)
  {
  }

  lemma MarkReadIsTwoUpdates(j: Json, t: Table, id: string, readers: seq<string>)
    requires id in t
    ensures Step(j, t, MarkRead(id, readers)) ==
      Update(Update(t, id, Read, Flag(true)), id, ReadByJson, Str(j.showReaders(Dedup(ReadersOf(j, t[id]) + readers))))
  {
  }

  lemma SealedStore(enc: (string, nat) -> string, rows: Table, id: string, row: Row)
    requires AllSealed(enc, rows) && Sealed(enc, row)
    ensures AllSealed(enc, rows[id := row])
  {
  }

  lemma SealedSet(enc: (string, nat) -> string, row: Row, f: Field, v: Value)
    requires Sealed(enc, row) && (Secret(f) && v.Str? ==> v.s != "" && Ciphertext(enc, v.s))
    ensures Sealed(enc, row[f := v])
  {
  }

  // ---------------------------------------------------------------------------
  // The wrapper
  // ---------------------------------------------------------------------------

  /** The properties that change after a message is created. */
  predicate Mutable(f: Field) {
    f in {ReactionsJson, ReadByJson, Read, Delivered, Starred, EditedText, DeletedAt, ScheduledFor, ExpiresAt, PollJson}
  }

  /** The mutable properties are the stored row's, all others the new row's. */
  ghost predicate Replaces(merged: Row, stored: Row, row: Row) {
    forall f :: SameAt(merged, if Mutable(f) then stored else row, f)
  }

  lemma MergeReplaces(row: Row, stored: Row)
    ensures Replaces(Merge(row, stored), stored, row)
  {
    forall f ensures SameAt(Merge(row, stored), if Mutable(f) then stored else row, f) {
      assert Mutable(f) <==> f in PRESERVED;
    }
  }

  /** `encRow`: encrypt every sensitive text property in place. */
  method EncRow(encryptor: FieldEncryptor, row: Row) returns (result: Row)
    requires encryptor.Faithful()
    modifies encryptor`calls
    ensures DecryptRow(encryptor.dec, result) == row && Sealed(encryptor.enc, result)
  {
    result := row;
    for i := 0 to |SENSITIVE|
      invariant result.Keys == row.Keys
      invariant forall f :: f in row && f !in SENSITIVE[..i] ==> result[f] == row[f]
      invariant forall f :: f in row && f in SENSITIVE[..i] ==>
        if row[f].Str?
        then result[f].Str? && encryptor.dec(result[f].s) == row[f].s && result[f].s != ""
             && Ciphertext(encryptor.enc, result[f].s)
        else result[f] == row[f]
    {
      var field := SENSITIVE[i];
      assert field !in SENSITIVE[..i] && SENSITIVE[..i + 1] == SENSITIVE[..i] + [field];
      if field in result && result[field].Str? {
        var c := encryptor.EncryptDbField(result[field].s);
        result := result[field := Str(c)];
      }
    }
    assert SENSITIVE[..|SENSITIVE|] == SENSITIVE;
  }

  /** `decRow`. */
  method DecRow(encryptor: FieldEncryptor, row: Row) returns (result: Row)
    ensures result == DecryptRow(encryptor.dec, row)
  {
    result := row;
    for i := 0 to |SENSITIVE|
      invariant result.Keys == row.Keys
      invariant forall f :: f in row ==>
        result[f] == if f in SENSITIVE[..i] then DecValue(encryptor.dec, f, row[f]) else row[f]
    {
      var field := SENSITIVE[i];
      assert field !in SENSITIVE[..i] && SENSITIVE[..i + 1] == SENSITIVE[..i] + [field];
      if field in result && result[field].Str? {
        result := result[field := Str(encryptor.dec(result[field].s))];
      }
    }
    assert SENSITIVE[..|SENSITIVE|] == SENSITIVE;
  }

  predicate Outlives(row: Row, ops: seq<Op>, id: string) {
    Survives(ops, id, ScheduledFor in row, Deadline(row))
  }

  lemma ReadBackAll(j: Json, t: Table, ops: seq<Op>)
    ensures forall id, f :: Simple(f) && id in t && Outlives(t[id], ops, id) ==>
      id in Run(j, t, ops) && At(Run(j, t, ops)[id], f) == LastSet(ops, id, f, At(t[id], f))
  {
    forall id, f | Simple(f) && id in t && Outlives(t[id], ops, id)
      ensures id in Run(j, t, ops) && At(Run(j, t, ops)[id], f) == LastSet(ops, id, f, At(t[id], f))
    {
      StaysExactlyWhen(j, t, ops, id);
      LastSetDecides(j, t, ops, id, f);
    }
  }

  class EncryptedPowehiDb {
    const encryptor: FieldEncryptor
    const json: Json
    var rows: Table

    ghost predicate Valid()
      reads this
    {
      encryptor.Faithful() && Sane(json) && AllSealed(encryptor.enc, rows)
    }

    /** The decrypted table. */
    function Plain(): Table
      reads this
    {
      DecryptAll(encryptor.dec, rows)
    }

    constructor (encryptor: FieldEncryptor, json: Json)
      requires encryptor.Faithful() && Sane(json)
      ensures Valid() && Plain() == map[] && this.encryptor == encryptor && this.json == json
    {
      this.encryptor, this.json, rows := encryptor, json, map[];
    }

    method PutMessage(id: string, row: Row)
      requires Valid()
      modifies this`rows, encryptor`calls
      ensures Valid() && Plain() == Step(json, old(Plain()), Put(id, row))
      ensures id !in old(Plain()) ==> Plain() == old(Plain())[id := row]
      ensures id in old(Plain()) ==> id in Plain() && Replaces(Plain()[id], old(Plain())[id], row)
      ensures forall k :: k != id && k in old(Plain()) ==> k in Plain() && Plain()[k] == old(Plain())[k]
    {
      var enc := EncRow(encryptor, row);
      var stored := enc;
      if id in rows {
        stored := Merge(enc, rows[id]);
        DecryptMerge(encryptor.dec, enc, rows[id]);
        MergeReplaces(row, Plain()[id]);
      }
      DecryptStore(encryptor.dec, rows, id, stored);
      SealedStore(encryptor.enc, rows, id, stored);
      rows := rows[id := stored];
    }

    method GetMessage(id: string) returns (r: Option<Row>)
      requires Valid()
      ensures r == if id in Plain() then Some(Plain()[id]) else None
    {
      if id !in rows {
        return None;
      }
      var row := DecRow(encryptor, rows[id]);
      r := Some(row);
    }

    /** A partial update whose value is stored as is. */
    method UpdatePlain(id: string, f: Field, v: Value)
      requires Valid() && f !in SENSITIVE
      modifies this`rows
      ensures Valid() && Plain() == Update(old(Plain()), id, f, v)
    {
      if id in rows {
        var row := rows[id][f := v];
        DecryptSet(encryptor.dec, rows[id], f, v);
        DecryptStore(encryptor.dec, rows, id, row);
        SealedSet(encryptor.enc, rows[id], f, v);
        SealedStore(encryptor.enc, rows, id, row);
        rows := rows[id := row];
      }
    }

    /** A partial update whose value is encrypted first. */
    method UpdateSealed(id: string, f: Field, text: string)
      requires Valid() && f in SENSITIVE
      modifies this`rows, encryptor`calls
      ensures Valid() && Plain() == Update(old(Plain()), id, f, Str(text))
    {
      var enc := encryptor.EncryptDbField(text);
      if id in rows {
        var row := rows[id][f := Str(enc)];
        DecryptSet(encryptor.dec, rows[id], f, Str(enc));
        DecryptStore(encryptor.dec, rows, id, row);
        SealedSet(encryptor.enc, rows[id], f, Str(enc));
        SealedStore(encryptor.enc, rows, id, row);
        rows := rows[id := row];
      }
    }

    method MarkMessageEdited(id: string, newTextB64: string)
      requires Valid()
      modifies this`rows, encryptor`calls
      ensures Valid() && Plain() == Step(json, old(Plain()), Edit(id, newTextB64))
      ensures id in old(Plain()) ==> id in Plain() && At(Plain()[id], EditedText) == Some(Str(newTextB64))
    {
      UpdateSealed(id, EditedText, newTextB64);
    }

    method MarkMessageDeleted(id: string, now: int)
      requires Valid()
      modifies this`rows
      ensures Valid() && Plain() == Step(json, old(Plain()), Tombstone(id, now))
      ensures id in old(Plain()) ==> id in Plain() && At(Plain()[id], DeletedAt) == Some(Num(now))
    {
      UpdatePlain(id, DeletedAt, Num(now));
    }

    /** The reaction map of a stored row, read through decryption. */
    method ReadReactions(id: string) returns (r: Reactions)
      requires Valid() && id in rows
      ensures r == ReactionsOf(json, Plain()[id])
    {
      var stored := Text(rows[id], ReactionsJson);
      r := map[];
      if stored != "" {
        var parsed := json.parseReactions(encryptor.dec(stored));
        if parsed.Some? {
          r := parsed.value;
        }
      }
    }

    method MarkMessageReactionDelta(id: string, emoji: string, sender: string, add: bool)
      requires Valid()
      modifies this`rows, encryptor`calls
      ensures Valid() && Plain() == Step(json, old(Plain()), React(id, emoji, sender, add))
      ensures id !in old(Plain()) || Reacted(json, old(Plain())[id], emoji, sender) == add ==> rows == old(rows)
    {
      if id !in rows {
        return;
      }
      var reactions := ReadReactions(id);
      var next := Delta(reactions, emoji, sender, add);
      if next.None? {
        assert Plain()[id := Plain()[id]] == Plain();
        return;
      }
      UpdateSealed(id, ReactionsJson, json.showReactions(next.value));
    }

    method MarkMessagePoll(id: string, pollJson: string)
      requires Valid()
      modifies this`rows, encryptor`calls
      ensures Valid() && Plain() == Step(json, old(Plain()), Poll(id, pollJson))
      ensures id in old(Plain()) ==> id in Plain() && At(Plain()[id], PollJson) == Some(Str(pollJson))
    {
      UpdateSealed(id, PollJson, pollJson);
    }

    method MarkMessageDelivered(id: string)
      requires Valid()
      modifies this`rows
      ensures Valid() && Plain() == Step(json, old(Plain()), Deliver(id))
      ensures id in old(Plain()) ==> id in Plain() && At(Plain()[id], Delivered) == Some(Flag(true))
    {
      UpdatePlain(id, Delivered, Flag(true));
    }

    /** The readers of a stored row; they are not encrypted. */
    method ReadReaders(id: string) returns (r: seq<string>)
      requires Valid() && id in rows
      ensures r == ReadersOf(json, Plain()[id])
    {
      var stored := Text(rows[id], ReadByJson);
      r := [];
      if stored != "" {
        var parsed := json.parseReaders(stored);
        if parsed.Some? {
          r := parsed.value;
        }
      }
    }

    method MarkMessageRead(id: string, readBy: seq<string>)
      requires Valid()
      modifies this`rows
      ensures Valid() && Plain() == Step(json, old(Plain()), MarkRead(id, readBy))
    {
      if id !in rows {
        return;
      }
      MarkReadIsTwoUpdates(json, Plain(), id, readBy);
      var existing := ReadReaders(id);
      var merged := Dedup(existing + readBy);
      UpdatePlain(id, Read, Flag(true));
      UpdatePlain(id, ReadByJson, Str(json.showReaders(merged)));
    }

    method MarkMessageStarred(id: string, starred: bool)
      requires Valid()
      modifies this`rows
      ensures Valid() && Plain() == Step(json, old(Plain()), Star(id, starred))
      ensures id in old(Plain()) ==> id in Plain() && At(Plain()[id], Starred) == Some(Flag(starred))
    {
      UpdatePlain(id, Starred, Flag(starred));
    }

    method ClearMessageScheduled(id: string)
      requires Valid()
      modifies this`rows
      ensures Valid() && Plain() == Step(json, old(Plain()), ClearScheduled(id))
    {
      if id in rows {
        var row := rows[id] - {ScheduledFor};
        DecryptRemove(encryptor.dec, rows[id], ScheduledFor);
        DecryptStore(encryptor.dec, rows, id, row);
        rows := rows[id := row];
      }
    }

    method DeleteMessage(id: string)
      requires Valid()
      modifies this`rows
      ensures Valid() && Plain() == Step(json, old(Plain()), Cancel(id))
      ensures id in old(Plain()) ==> (id in Plain() <==> ScheduledFor !in old(Plain())[id])
    {
      if id in rows && ScheduledFor in rows[id] {
        DecryptDrop(encryptor.dec, rows, id);
        rows := rows - {id};
      }
    }

    /** The claim: at most one caller gets the row, and it gets the decrypted content. */
    method ClaimScheduledFire(id: string) returns (r: Option<Row>)
      requires Valid()
      modifies this`rows
      ensures Valid() && Plain() == Step(json, old(Plain()), Claim(id))
      ensures r == if Scheduled(old(Plain()), id) then Some(old(Plain())[id]) else None
      ensures !Scheduled(Plain(), id)
    {
      if id !in rows || ScheduledFor !in rows[id] {
        return None;
      }
      var claimed := rows[id];
      DecryptDrop(encryptor.dec, rows, id);
      rows := rows - {id};
      var row := DecRow(encryptor, claimed);
      r := Some(row);
    }

    method PurgeExpiredMessages(now: int) returns (count: nat)
      requires Valid()
      modifies this`rows
      ensures Valid() && Plain() == Step(json, old(Plain()), Purge(now))
      ensures count == |old(rows)| - |rows|
      ensures forall id :: id in old(Plain()) ==>
        (id in Plain() <==> Deadline(old(Plain())[id]).None? || now < Deadline(old(Plain())[id]).value)
    {
      var expired := set id | id in rows && Expired(rows[id], now);
      count := |expired|;
      DecryptPurge(encryptor.dec, json, rows, now);
      DropExpired(json, rows, expired, now);
      DropCount(rows, expired);
      SealedDrop(encryptor.enc, rows, expired);
      rows := rows - expired;
    }

    method Apply(op: Op)
      requires Valid()
      modifies this`rows, encryptor`calls
      ensures Valid() && Plain() == Step(json, old(Plain()), op)
    {
      match op
      case Put(id, row) => PutMessage(id, row);
      case Edit(id, text) => MarkMessageEdited(id, text);
      case Tombstone(id, now) => MarkMessageDeleted(id, now);
      case React(id, emoji, sender, add) => MarkMessageReactionDelta(id, emoji, sender, add);
      case Poll(id, pollJson) => MarkMessagePoll(id, pollJson);
      case Deliver(id) => MarkMessageDelivered(id);
      case MarkRead(id, readers) => MarkMessageRead(id, readers);
      case Star(id, starred) => MarkMessageStarred(id, starred);
      case ClearScheduled(id) => ClearMessageScheduled(id);
      case Cancel(id) => DeleteMessage(id);
      case Claim(id) => var _ := ClaimScheduledFire(id);
      case Purge(now) => var _ := PurgeExpiredMessages(now);
    }

    /** Refinement over every sequence of operations: decrypting the stored rows gives
        the table the same operations build without encryption. */
    method ApplyAll(ops: seq<Op>)
      requires Valid()
      modifies this`rows, encryptor`calls
      ensures Valid() && Plain() == Run(json, old(Plain()), ops)
      ensures forall id, f :: Simple(f) && id in old(Plain()) && Outlives(old(Plain())[id], ops, id) ==>
        id in Plain() && At(Plain()[id], f) == LastSet(ops, id, f, At(old(Plain())[id], f))
    {
      ReadBackAll(json, Plain(), ops);
      var i := 0;
      while i < |ops|
        invariant i <= |ops| && Valid()
        invariant Run(json, Plain(), ops[i..]) == Run(json, old(Plain()), ops)
      {
        assert ops[i..][0] == ops[i] && ops[i..][1..] == ops[i + 1..];
        Apply(ops[i]);
        i := i + 1;
      }
    }

    /** A message is created, any operations it outlives follow, and it is read back: every
        property is the one last set, its reactions are each sender's last, and its readers
        are all reported. */
    method CreateAndRead(id: string, row: Row, ops: seq<Op>) returns (r: Option<Row>)
      requires Valid() && id !in Plain() && Outlives(row, ops, id)
      modifies this`rows, encryptor`calls
      ensures Valid() && r.Some?
      ensures forall f :: Simple(f) ==> At(r.value, f) == LastSet(ops, id, f, At(row, f))
      ensures forall emoji, sender ::
        Reacted(json, r.value, emoji, sender) == LastDelta(ops, id, emoji, sender, Reacted(json, row, emoji, sender))
      ensures ReaderSet(json, r.value) == ReaderSet(json, row) + Reported(ops, id)
    {
      ReadBack(json, Plain(), id, row, ops);
      assert ([Put(id, row)] + ops)[1..] == ops;
      PutMessage(id, row);
      ApplyAll(ops);
      r := GetMessage(id);
    }
  }
}
