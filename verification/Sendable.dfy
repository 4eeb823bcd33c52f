/** Exactly which scheduled messages can still be sent, and what is then sent. */
module Sendable {
  import opened Helpers
  import opened MessageTable
  import opened ScheduledSend
  import S = ScheduledSend

  /** The first moment from now on at which the message is due. */
  function DueFrom(s: State, id: string): int
    requires id in s.composed
  {
    if s.now < s.composed[id].due then s.composed[id].due else s.now
  }

  /** Stored, scheduled and still alive once it is due. */
  predicate StoredAlive(s: State, id: string) {
    Scheduled(s.rows, id) && id in s.composed && !Expired(s.rows[id], DueFrom(s, id))
  }

  /** Claimed for the row's own group and not expired. */
  predicate ClaimedAlive(s: State, p: nat, id: string) {
    && ProcAt(s, p) && s.procs[p].Claimed? && s.procs[p].id == id
    && GroupIs(s.procs[p].row, s.procs[p].group) && !Expired(s.procs[p].row, s.now)
  }

  predicate AboutToSend(s: State, p: nat, id: string) { ProcAt(s, p) && s.procs[p].Ready? && s.procs[p].id == id }

  /** The message is stored, scheduled and alive when due, or claimed for its group and alive,
      or has passed its checks. */
  ghost predicate CanGo(s: State, id: string) {
    || StoredAlive(s, id)
    || (exists p: nat :: ClaimedAlive(s, p, id))
    || (exists p: nat :: AboutToSend(s, p, id))
  }

  ghost predicate CanBeSent(j: Json, s: State, id: string) {
    exists es :: Valid(j, s, es) && WasSent(S.Run(j, s, es), id)
  }

  // ---------------------------------------------------------------------------
  // What cannot go never does
  // ---------------------------------------------------------------------------

  lemma ProcsCannotGo(j: Json, s: State, e: Event, id: string, p: nat)
    requires Enabled(s, e) && id in s.composed && !CanGo(s, id)
    ensures !ClaimedAlive(Next(j, s, e), p, id) && !AboutToSend(Next(j, s, e), p, id)
  {
    assert !ClaimedAlive(s, p, id) && !AboutToSend(s, p, id);
  }

  lemma RowCannotGo(j: Json, s: State, e: Event, id: string)
    requires Enabled(s, e) && id in s.composed && !StoredAlive(s, id)
    ensures !StoredAlive(Next(j, s, e), id)
  {
    if e.Store? {
      StoreKeeps(j, s, e.op, id);
    }
  }

  lemma OnlyReadyIsSent(j: Json, s: State, e: Event, id: string)
    requires Enabled(s, e) && WasSent(Next(j, s, e), id) && !WasSent(s, id)
    ensures exists p: nat :: AboutToSend(s, p, id)
  {
    var t := Next(j, s, e);
    var i :| 0 <= i < |t.sent| && t.sent[i].carried.id == id;
    assert e.Send? && AboutToSend(s, e.proc, id);
  }

  lemma {:induction false} NeverSent(j: Json, s: State, es: seq<Event>, id: string)
    requires Valid(j, s, es) && id in s.composed && !CanGo(s, id) && !WasSent(s, id)
    ensures !WasSent(S.Run(j, s, es), id)
    decreases |es|
  {
    if es != [] {
      var t := Next(j, s, es[0]);
      RowCannotGo(j, s, es[0], id);
      forall p: nat ensures !ClaimedAlive(t, p, id) && !AboutToSend(t, p, id) {
        ProcsCannotGo(j, s, es[0], id, p);
      }
      if WasSent(t, id) {
        OnlyReadyIsSent(j, s, es[0], id);
      }
      NeverSent(j, t, es[1..], id);
    }
  }

  // ---------------------------------------------------------------------------
  // What can go has a way
  // ---------------------------------------------------------------------------

  lemma OneMore(j: Json, s: State, e: Event, id: string)
    requires Enabled(s, e) && CanBeSent(j, Next(j, s, e), id)
    ensures CanBeSent(j, s, id)
  {
    var es :| Valid(j, Next(j, s, e), es) && WasSent(S.Run(j, Next(j, s, e), es), id);
    RunCons(j, s, e, es);
  }

  lemma ReadyIsSent(j: Json, s: State, p: nat, id: string)
    requires AboutToSend(s, p, id)
    ensures CanBeSent(j, s, id)
  {
    var t := Next(j, s, Send(p));
    assert t.sent[|s.sent|].carried.id == id;
    assert Valid(j, t, []) && WasSent(S.Run(j, t, []), id);
    OneMore(j, s, Send(p), id);
  }

  lemma ClaimedIsSent(j: Json, s: State, p: nat, id: string)
    requires ClaimedAlive(s, p, id)
    ensures CanBeSent(j, s, id)
  {
    ReadyIsSent(j, Next(j, s, Decide(p)), p, id);
    OneMore(j, s, Decide(p), id);
  }

  lemma DueIsSent(j: Json, s: State, id: string, group: string)
    requires StoredAlive(s, id) && GroupIs(s.rows[id], group) && Enabled(s, Fire(id, group))
    ensures CanBeSent(j, s, id)
  {
    ClaimedIsSent(j, Next(j, s, Fire(id, group)), |s.procs|, id);
    OneMore(j, s, Fire(id, group), id);
  }

  /** A row without a group gets one from a replayed create. */
  lemma NowDueIsSent(j: Json, s: State, id: string)
    requires StoredAlive(s, id) && s.composed[id].due <= s.now
    ensures CanBeSent(j, s, id)
  {
    var row := s.rows[id];
    if GroupId in row && row[GroupId].Str? {
      DueIsSent(j, s, id, row[GroupId].s);
    } else {
      var replay := Store(Put(id, row[GroupId := Str("")]));
      MergeAgrees(row[GroupId := Str("")], row);
      var merged := Merge(row[GroupId := Str("")], row);
      assert SameAt(row, merged, ScheduledFor) && SameAt(row, merged, ExpiresAt);
      assert merged[GroupId] == Str("");
      DueIsSent(j, Next(j, s, replay), id, "");
      OneMore(j, s, replay, id);
    }
  }

  lemma StoredIsSent(j: Json, s: State, id: string)
    requires StoredAlive(s, id)
    ensures CanBeSent(j, s, id)
  {
    var wait := Wait(DueFrom(s, id));
    NowDueIsSent(j, Next(j, s, wait), id);
    OneMore(j, s, wait, id);
  }

  /** In every reachable state, for every composed message that was not sent yet: some
      continuation sends it if and only if it is stored, scheduled and will be alive when it is
      due, or some tab has claimed it for its own group and it is alive, or has passed its
      checks.  So a claim for another group, an expiry before or after it is due, a cancel or
      a failed send is final. */
  lemma SendableExactlyWhen(j: Json, now: int, es: seq<Event>, id: string)
    requires Valid(j, Start(now), es) && id in S.Run(j, Start(now), es).composed
    requires !WasSent(S.Run(j, Start(now), es), id)
    ensures CanBeSent(j, S.Run(j, Start(now), es), id) <==> CanGo(S.Run(j, Start(now), es), id)
  {
    var s := S.Run(j, Start(now), es);
    if StoredAlive(s, id) {
      StoredIsSent(j, s, id);
    } else if exists p: nat :: ClaimedAlive(s, p, id) {
      var p: nat :| ClaimedAlive(s, p, id);
      ClaimedIsSent(j, s, p, id);
    } else if exists p: nat :: AboutToSend(s, p, id) {
      var p: nat :| AboutToSend(s, p, id);
      ReadyIsSent(j, s, p, id);
    } else {
      forall fs | Valid(j, s, fs) ensures !WasSent(S.Run(j, s, fs), id) {
        NeverSent(j, s, fs, id);
      }
    }
  }

  /** A failed encryption or send is final: there is no retry. */
  lemma FailedIsFinal(j: Json, now: int, es: seq<Event>, p: nat, id: string, later: seq<Event>)
    requires Valid(j, Start(now), es) && ProcAt(S.Run(j, Start(now), es), p)
    requires Holds(S.Run(j, Start(now), es).procs[p], id)
    requires Valid(j, Next(j, S.Run(j, Start(now), es), Drop(p)), later)
    ensures !WasSent(S.Run(j, Next(j, S.Run(j, Start(now), es), Drop(p)), later), id)
  {
    var s := S.Run(j, Start(now), es);
    var t := Next(j, s, Drop(p));
    RunInv(j, Start(now), es);
    assert s.procs[p].Claimed? ==> Dated(s, id, s.procs[p].row);
    forall q: nat ensures !ClaimedAlive(t, q, id) && !AboutToSend(t, q, id) {
      assert ProcAt(t, q) && q != p ==> !Holds(s.procs[q], id);
    }
    NeverSent(j, t, later, id);
  }

  // ---------------------------------------------------------------------------
  // What is sent is what was stored at the claim
  // ---------------------------------------------------------------------------

  /** Whoever holds or sent the message has this row, for this group. */
  ghost predicate Took(s: State, id: string, group: string, row: Row) {
    && id in s.composed && id !in s.rows
    && (forall p :: 0 <= p < |s.procs| && Holds(s.procs[p], id) ==> s.procs[p].row == row && s.procs[p].group == group)
    && (forall i :: 0 <= i < |s.sent| && s.sent[i].carried.id == id ==>
          s.sent[i].row == row && s.sent[i].carried.group == group)
  }

  lemma NextTook(j: Json, s: State, e: Event, id: string, group: string, row: Row)
    requires Enabled(s, e) && Took(s, id, group, row)
    ensures Took(Next(j, s, e), id, group, row)
  {
    if e.Store? {
      StoreKeeps(j, s, e.op, id);
    }
  }

  lemma {:induction false} RunTook(j: Json, s: State, es: seq<Event>, id: string, group: string, row: Row)
    requires Valid(j, s, es) && Took(s, id, group, row)
    ensures Took(S.Run(j, s, es), id, group, row)
    decreases |es|
  {
    if es != [] {
      NextTook(j, s, es[0], id, group, row);
      RunTook(j, Next(j, s, es[0]), es[1..], id, group, row);
    }
  }

  /** A claim of a scheduled message takes it out of the table, and whatever is sent of it
      afterwards, by whichever tab and however late, is the row stored at the claim, to the
      group it was claimed for. */
  lemma SentAsClaimed(j: Json, now: int, es: seq<Event>, id: string, group: string, later: seq<Event>)
    requires Valid(j, Start(now), es) && Scheduled(S.Run(j, Start(now), es).rows, id)
    requires Enabled(S.Run(j, Start(now), es), Fire(id, group))
    requires Valid(j, Next(j, S.Run(j, Start(now), es), Fire(id, group)), later)
    ensures var s := S.Run(j, Start(now), es); var t := S.Run(j, Next(j, s, Fire(id, group)), later);
      && id !in t.rows
      && (forall i :: 0 <= i < |t.sent| && t.sent[i].carried.id == id ==>
            t.sent[i].row == s.rows[id] && t.sent[i].carried.group == group)
  {
    var s := S.Run(j, Start(now), es);
    RunInv(j, Start(now), es);
    assert Dated(s, id, s.rows[id]);
    RunTook(j, Next(j, s, Fire(id, group)), later, id, group, s.rows[id]);
  }

  // ---------------------------------------------------------------------------
  // What is sent is what was composed
  // ---------------------------------------------------------------------------

  lemma ScheduledRowIs(row: Row, at: int, ttl: Option<nat>, due: int, f: Field)
    ensures var r := ScheduledRow(row, at, ttl, due);
      && Deadline(r) == (if ttl.Some? then Some(at + 1000 * ttl.value) else None)
      && At(r, ScheduledFor) == Some(Num(due))
      && (f != ExpiresAt && f != ScheduledFor ==> At(r, f) == At(row, f))
  {
  }

  /** The row is stored as it was composed: due when it was, expiring when it was, everything
      else as given. */
  lemma ComposeStores(j: Json, s: State, e: Event, f: Field)
    requires e.Compose? && Enabled(s, e)
    ensures var t := Next(j, s, e);
      && e.id in t.rows && At(t.rows[e.id], ScheduledFor) == Some(Num(e.due))
      && Deadline(t.rows[e.id]) == (if e.ttl.Some? then Some(e.at + 1000 * e.ttl.value) else None)
      && (f != ExpiresAt && f != ScheduledFor ==> At(t.rows[e.id], f) == At(e.row, f))
  {
    ScheduledRowIs(e.row, e.at, e.ttl, e.due, f);
  }

  /** No operation but a purge touches the row. */
  predicate Untouched(es: seq<Event>, id: string) {
    forall i :: 0 <= i < |es| && es[i].Store? ==> es[i].op.Purge? || es[i].op.id != id
  }

  /** Wherever the message is, its row is this one. */
  ghost predicate IsRow(s: State, id: string, row: Row) {
    && id in s.composed && (id in s.rows ==> s.rows[id] == row)
    && (forall p :: 0 <= p < |s.procs| && Holds(s.procs[p], id) ==> s.procs[p].row == row)
    && (forall i :: 0 <= i < |s.sent| && s.sent[i].carried.id == id ==> s.sent[i].row == row)
  }

  lemma NextIsRow(j: Json, s: State, e: Event, id: string, row: Row)
    requires Enabled(s, e) && IsRow(s, id, row) && Untouched([e], id)
    ensures IsRow(Next(j, s, e), id, row)
  {
    assert e.Store? ==> [e][0].op.Purge? || [e][0].op.id != id;
    if e.Store? && id in Step(j, s.rows, e.op) {
      StoreKeeps(j, s, e.op, id);
      OthersKeepRow(j, s.rows, e.op, id);
    }
  }

  lemma {:induction false} RunIsRow(j: Json, s: State, es: seq<Event>, id: string, row: Row)
    requires Valid(j, s, es) && IsRow(s, id, row) && Untouched(es, id)
    ensures IsRow(S.Run(j, s, es), id, row)
    decreases |es|
  {
    if es != [] {
      assert Untouched([es[0]], id);
      NextIsRow(j, s, es[0], id, row);
      RunIsRow(j, Next(j, s, es[0]), es[1..], id, row);
    }
  }

  /** The text and the remaining time of a message as it was composed. */
  ghost predicate CarriesComposed(x: Sent, e: Event)
    requires e.Compose?
  {
    && x.carried.text == (if EditedText in e.row then Text(e.row, EditedText) else Text(e.row, PlaintextB64))
    && (x.carried.ttl.Some? <==> e.ttl.Some?)
    && (e.ttl.Some? ==> Rounded(x.carried.ttl.value, e.at + 1000 * e.ttl.value - x.decidedAt))
    && e.due <= x.decidedAt
  }

  lemma RowIsComposed(t: State, i: nat, e: Event, row: Row)
    requires Inv(t) && Faithful(t) && i < |t.sent| && t.sent[i].row == row && e.Compose?
    requires t.sent[i].carried.id == e.id
    requires e.id in t.composed && t.composed[e.id] == Composition(e.at, e.ttl, e.due)
    requires Deadline(row) == (if e.ttl.Some? then Some(e.at + 1000 * e.ttl.value) else None)
    requires At(row, EditedText) == At(e.row, EditedText) && At(row, PlaintextB64) == At(e.row, PlaintextB64)
    ensures CarriesComposed(t.sent[i], e)
  {
    SentIsWell(t, i);
    SameText(row, e.row);
  }

  /** The run goes on from a composition. */
  lemma ComposedRun(j: Json, s: State, e: Event, es: seq<Event>)
    requires Inv(s) && Faithful(s) && e.Compose? && Enabled(s, e) && Valid(j, Next(j, s, e), es) && Untouched(es, e.id)
    ensures var c := Next(j, s, e); var t := S.Run(j, c, es);
      && Inv(t) && Faithful(t) && e.id in c.rows && IsRow(t, e.id, c.rows[e.id])
      && t.composed[e.id] == Composition(e.at, e.ttl, e.due)
  {
    var c := Next(j, s, e);
    NextInv(j, s, e);
    NextFaithful(j, s, e);
    RunInv(j, c, es);
    RunFaithful(j, c, es);
    FreshIsRow(j, s, e);
    RunIsRow(j, c, es, e.id, c.rows[e.id]);
    CompositionStays(j, c, es, e.id);
  }

  /** A message that no operation touches between its composition and its sending leaves, if at
      all, with the text it was composed with and the time that remains of its own. */
  lemma SentAsComposed(j: Json, now: int, before: seq<Event>, e: Event, es: seq<Event>, i: nat)
    requires Valid(j, Start(now), before) && e.Compose? && Enabled(S.Run(j, Start(now), before), e)
    requires Valid(j, Next(j, S.Run(j, Start(now), before), e), es) && Untouched(es, e.id)
    requires var t := S.Run(j, Next(j, S.Run(j, Start(now), before), e), es);
      i < |t.sent| && t.sent[i].carried.id == e.id
    ensures CarriesComposed(S.Run(j, Next(j, S.Run(j, Start(now), before), e), es).sent[i], e)
  {
    var s := S.Run(j, Start(now), before);
    RunInv(j, Start(now), before);
    RunFaithful(j, Start(now), before);
    ComposedRun(j, s, e, es);
    ComposeStores(j, s, e, EditedText);
    ComposeStores(j, s, e, PlaintextB64);
    RowIsComposed(S.Run(j, Next(j, s, e), es), i, e, Next(j, s, e).rows[e.id]);
  }

  lemma SameText(r: Row, q: Row)
    requires At(r, EditedText) == At(q, EditedText) && At(r, PlaintextB64) == At(q, PlaintextB64)
    ensures TextOf(r) == TextOf(q)
  {
  }

  lemma FreshIsRow(j: Json, s: State, e: Event)
    requires Inv(s) && e.Compose? && Enabled(s, e)
    ensures e.id in Next(j, s, e).rows && IsRow(Next(j, s, e), e.id, Next(j, s, e).rows[e.id])
  {
  }

  lemma {:induction false} CompositionStays(j: Json, s: State, es: seq<Event>, id: string)
    requires Valid(j, s, es) && id in s.composed
    ensures id in S.Run(j, s, es).composed && S.Run(j, s, es).composed[id] == s.composed[id]
    decreases |es|
  {
    if es != [] {
      CompositionStays(j, Next(j, s, es[0]), es[1..], id);
    }
  }

  // ---------------------------------------------------------------------------
  // What can be cancelled
  // ---------------------------------------------------------------------------

  ghost predicate CanBeCancelled(j: Json, s: State, id: string) {
    exists es :: Valid(j, s, es) && CancelsIn(j, s, es, id)
  }

  lemma {:induction false} NeverCancelled(j: Json, s: State, es: seq<Event>, id: string)
    requires Valid(j, s, es) && id in s.composed && !Scheduled(s.rows, id)
    ensures !CancelsIn(j, s, es, id)
    decreases |es|
  {
    if es != [] {
      if es[0].Store? {
        StoreKeeps(j, s, es[0].op, id);
      }
      NeverCancelled(j, Next(j, s, es[0]), es[1..], id);
    }
  }

  /** In every state a composed message can still be cancelled if and only if it is stored and
      scheduled: a claim wins over every later cancel, and until then a cancel can win. */
  lemma CancellableExactlyWhen(j: Json, s: State, id: string)
    requires id in s.composed
    ensures CanBeCancelled(j, s, id) <==> Scheduled(s.rows, id)
  {
    if Scheduled(s.rows, id) {
      var t := Next(j, s, CancelRead(id));
      var remove := CancelDelete(|s.procs|);
      RunCons(j, t, remove, []);
      RunCons(j, s, CancelRead(id), [remove] + []);
      var es := [CancelRead(id)] + ([remove] + []);
      assert es[1..] == [remove] + [] && CancelsAt(t, ([remove] + [])[0], id);
      assert CancelsIn(j, t, [remove] + [], id);
      assert CancelsIn(j, s, es, id);
    } else {
      forall es | Valid(j, s, es) ensures !CancelsIn(j, s, es, id) {
        NeverCancelled(j, s, es, id);
      }
    }
  }
}
