/** Firing scheduled messages from several tabs over one table.  A claim is one
    transaction; cancelling reads the row and deletes it in two steps; everything
    between a claim and the send is interleaved with the other tabs.

    Premises: the clock does not go backwards, and a scheduled row's id, a fresh UUID, is
    new when the message is composed and never stored by any other writer after its row
    is gone. */
module ScheduledSend {
  import opened Helpers
  import opened MessageTable

  // ---------------------------------------------------------------------------
  // Remaining time to live
  // ---------------------------------------------------------------------------

  const TTL_OPTIONS: seq<nat> := [300, 3600, 86400, 604800]

  /** `Math.round(ms / 1000)` for a positive number of milliseconds. */
  function RoundSeconds(ms: int): int { (ms + 500) / 1000 }

  function TtlSeconds(expiresAt: int, now: int): int {
    if RoundSeconds(expiresAt - now) < 1 then 1 else RoundSeconds(expiresAt - now)
  }

  /** The first option that is at least `ttl`, else the last one. */
  function ServerTtl(options: seq<nat>, ttl: int): (r: nat)
    requires options != []
    ensures r in options
  {
    if options[0] >= ttl || |options| == 1 then options[0] else ServerTtl(options[1..], ttl)
  }

  function ExpiryOf(composedAt: int, ttl: nat): int { composedAt + ttl * 1000 }

  // ---------------------------------------------------------------------------
  // What a transmission carries
  // ---------------------------------------------------------------------------

  /** What leaves the device: the text and the remaining seconds go into the encrypted payload,
      the server is told how long to keep it. */
  datatype Transmission = Transmission(
    id: string,
    group: string,
    text: string,
    ttl: Option<int>,
    serverTtl: Option<nat>)

  /** The edited text if there is one, else the original. */
  function TextOf(row: Row): string { if EditedText in row then Text(row, EditedText) else Text(row, PlaintextB64) }

  function Transmit(id: string, group: string, row: Row, now: int): Transmission {
    var left := Deadline(row);
    if left.Some? then
      var ttl := TtlSeconds(left.value, now);
      Transmission(id, group, TextOf(row), Some(ttl), Some(ServerTtl(TTL_OPTIONS, ttl)))
    else Transmission(id, group, TextOf(row), None, None)
  }

  predicate GroupIs(row: Row, group: string) { GroupId in row && row[GroupId] == Str(group) }

  predicate IsOption(o: nat) { o == 300 || o == 3600 || o == 86400 || o == 604800 }

  /** The least option that covers `ttl`, or the greatest if none does. */
  ghost predicate Covering(o: nat, ttl: int) {
    && IsOption(o)
    && (forall p: nat :: IsOption(p) && ttl <= p ==> ttl <= o <= p)
    && (604800 < ttl ==> o == 604800)
  }

  /** `ttl` is the remaining time in seconds, rounded to the nearest and at least one. */
  predicate Rounded(ttl: int, left: int) {
    1 <= ttl && (-500 <= 1000 * ttl - left <= 500 || (ttl == 1 && left < 500))
  }

  /** The transmission carries this row of this group as it is at `now`: the row is alive, the
      text is its current one, and there are times to live, both of them, exactly if the row
      has a deadline. */
  ghost predicate Carries(x: Transmission, id: string, group: string, row: Row, now: int) {
    && x.id == id && x.group == group && row.Keys >= {GroupId} && row[GroupId] == Str(group)
    && x.text == (if EditedText in row then Text(row, EditedText) else Text(row, PlaintextB64))
    && (x.ttl.Some? <==> Deadline(row).Some?) && (x.serverTtl.Some? <==> Deadline(row).Some?)
    && (Deadline(row).Some? ==>
          && now < Deadline(row).value
          && Rounded(x.ttl.value, Deadline(row).value - now) && Covering(x.serverTtl.value, x.ttl.value))
  }

  lemma TtlIsRounded(deadline: int, now: int)
    requires now < deadline
    ensures Rounded(TtlSeconds(deadline, now), deadline - now)
  {
  }

  lemma ServerTtlCovers(ttl: int)
    ensures Covering(ServerTtl(TTL_OPTIONS, ttl), ttl)
  {
    assert TTL_OPTIONS[1..] == [3600, 86400, 604800] && TTL_OPTIONS[1..][1..] == [86400, 604800]
      && TTL_OPTIONS[1..][1..][1..] == [604800];
    assert ServerTtl([604800], ttl) == 604800;
    assert ServerTtl([86400, 604800], ttl) == if 86400 >= ttl then 86400 else 604800;
    assert ServerTtl([3600, 86400, 604800], ttl) == if 3600 >= ttl then 3600 else ServerTtl([86400, 604800], ttl);
  }

  /** For a message composed with option `ttl` and decided before it expires, the payload
      carries at least one second and the server is told the least option covering it,
      never more than the option it was composed with. */
  lemma TtlBounds(composedAt: int, ttl: nat, now: int)
    requires IsOption(ttl) && composedAt <= now < ExpiryOf(composedAt, ttl)
    ensures var exact := TtlSeconds(ExpiryOf(composedAt, ttl), now); var server := ServerTtl(TTL_OPTIONS, exact);
      1 <= exact <= server <= ttl && Covering(server, exact)
  {
    var exact := TtlSeconds(ExpiryOf(composedAt, ttl), now);
    ServerTtlCovers(exact);
    assert exact <= ttl;
  }

  lemma TransmitCarries(id: string, group: string, row: Row, now: int)
    requires GroupIs(row, group) && !Expired(row, now)
    ensures Carries(Transmit(id, group, row, now), id, group, row, now)
  {
    if Deadline(row).Some? {
      TtlIsRounded(Deadline(row).value, now);
      ServerTtlCovers(TtlSeconds(Deadline(row).value, now));
    }
  }

  // ---------------------------------------------------------------------------
  // Steps
  // ---------------------------------------------------------------------------

  datatype Composition = Composition(at: int, ttl: Option<nat>, due: int)

  datatype Proc =
    | Cancelling(id: string)                                  // read a scheduled row, about to delete
    | Claimed(id: string, group: string, row: Row)
    | Ready(id: string, group: string, row: Row, decidedAt: int) // passed its checks, encrypting and sending
    | Over

  datatype Sent = Sent(carried: Transmission, row: Row, decidedAt: int, sentAt: int)

  datatype State = State(
    now: int,
    rows: Table,
    composed: map<string, Composition>,
    procs: seq<Proc>,
    cancelled: set<string>,
    sent: seq<Sent>)

  datatype Event =
    | Wait(until: int)
    | Compose(id: string, at: int, ttl: Option<nat>, due: int, row: Row)
    | Store(op: Op)
    | CancelRead(id: string)
    | CancelDelete(proc: nat)
    | Fire(id: string, group: string)
    | Decide(proc: nat)
    | Send(proc: nat)
    | Drop(proc: nat)

  /** The row `persistScheduledCreate` stores. */
  function ScheduledRow(row: Row, at: int, ttl: Option<nat>, due: int): Row {
    var r := row[ScheduledFor := Num(due)];
    if ttl.Some? then r[ExpiresAt := Num(ExpiryOf(at, ttl.value))] else r - {ExpiresAt}
  }

  predicate ProcAt(s: State, p: nat) { p < |s.procs| }

  predicate Enabled(s: State, e: Event) {
    match e
    case Wait(until) => s.now <= until
    case Compose(id, at, ttl, _, _) =>
      id !in s.composed && id !in s.rows && at <= s.now && (ttl.Some? ==> ttl.value in TTL_OPTIONS)
    case Store(op) =>
      && !op.Claim? && !op.Cancel?
      && (op.Put? ==> op.id in s.rows || (op.id !in s.composed && ScheduledFor !in op.row))
    case CancelRead(_) => true
    case CancelDelete(p) => ProcAt(s, p) && s.procs[p].Cancelling?
    case Fire(id, _) => id in s.composed ==> s.composed[id].due <= s.now
    case Decide(p) => ProcAt(s, p) && s.procs[p].Claimed?
    case Send(p) => ProcAt(s, p) && s.procs[p].Ready?
    case Drop(p) => ProcAt(s, p)
  }

  function SetProc(s: State, p: nat, x: Proc): State
    requires p < |s.procs|
  {
    s.(procs := s.procs[p := x])
  }

  function FireStep(s: State, id: string, group: string): State {
    if Scheduled(s.rows, id)
    then s.(rows := s.rows - {id}, procs := s.procs + [Claimed(id, group, s.rows[id])])
    else s
  }

  /** The checks between the claim and the encryption. */
  function DecideStep(s: State, p: nat): State
    requires Enabled(s, Decide(p))
  {
    var x := s.procs[p];
    if !GroupIs(x.row, x.group) || Expired(x.row, s.now) then SetProc(s, p, Over)
    else SetProc(s, p, Ready(x.id, x.group, x.row, s.now))
  }

  function CancelStep(s: State, p: nat): State
    requires Enabled(s, CancelDelete(p))
  {
    var id := s.procs[p].id;
    SetProc(s, p, Over).(
      rows := s.rows - {id},
      cancelled := if Scheduled(s.rows, id) then s.cancelled + {id} else s.cancelled)
  }

  function Next(j: Json, s: State, e: Event): State
    requires Enabled(s, e)
  {
    match e
    case Wait(until) => s.(now := until)
    case Compose(id, at, ttl, due, row) =>
      s.(rows := s.rows[id := ScheduledRow(row, at, ttl, due)], composed := s.composed[id := Composition(at, ttl, due)])
    case Store(op) => s.(rows := Step(j, s.rows, op))
    case CancelRead(id) => if Scheduled(s.rows, id) then s.(procs := s.procs + [Cancelling(id)]) else s
    case CancelDelete(p) => CancelStep(s, p)
    case Fire(id, group) => FireStep(s, id, group)
    case Decide(p) => DecideStep(s, p)
    case Send(p) =>
      var x := s.procs[p];
      SetProc(s, p, Over).(
        sent := s.sent + [Sent(Transmit(x.id, x.group, x.row, x.decidedAt), x.row, x.decidedAt, s.now)])
    case Drop(p) => SetProc(s, p, Over)
  }

  // ---------------------------------------------------------------------------
  // At most once
  // ---------------------------------------------------------------------------

  predicate Holds(x: Proc, id: string) { (x.Claimed? || x.Ready?) && x.id == id }

  predicate WasSent(s: State, id: string) { exists i :: 0 <= i < |s.sent| && s.sent[i].carried.id == id }

  /** The row is scheduled and expires as it was composed. */
  predicate Dated(s: State, id: string, row: Row) {
    && id in s.composed
    && s.composed[id].at <= s.now
    && ScheduledFor in row && row[ScheduledFor] == Num(s.composed[id].due)
    && (s.composed[id].ttl.Some? ==> s.composed[id].ttl.value in TTL_OPTIONS)
    && (ExpiresAt in row <==> s.composed[id].ttl.Some?)
    && (ExpiresAt in row ==> row[ExpiresAt] == Num(ExpiryOf(s.composed[id].at, s.composed[id].ttl.value)))
  }

  /** A scheduled message is in one place: stored and scheduled, held by one process, or
      sent; a cancelled one is nowhere. */
  ghost predicate Exclusive(s: State) {
    && (forall p, q, id :: 0 <= p < q < |s.procs| && Holds(s.procs[p], id) ==> !Holds(s.procs[q], id))
    && (forall p, id :: 0 <= p < |s.procs| && Holds(s.procs[p], id) ==>
          !Scheduled(s.rows, id) && !WasSent(s, id) && id !in s.cancelled && id !in s.rows)
    && (forall i, k :: 0 <= i < k < |s.sent| ==> s.sent[i].carried.id != s.sent[k].carried.id)
    && (forall i :: 0 <= i < |s.sent| ==>
          s.sent[i].carried.id !in s.rows && s.sent[i].carried.id !in s.cancelled && s.sent[i].carried.id in s.composed)
    && (forall id :: id in s.cancelled ==> id !in s.rows && id in s.composed)
  }

  /** Every copy of a scheduled row carries its composition's expiry, and a decision to
      send was taken while the row had not expired. */
  ghost predicate Timely(s: State) {
    && (forall id :: Scheduled(s.rows, id) ==> Dated(s, id, s.rows[id]))
    && (forall p :: 0 <= p < |s.procs| && s.procs[p].Claimed? ==>
          Dated(s, s.procs[p].id, s.procs[p].row) && s.composed[s.procs[p].id].due <= s.now)
    && (forall p :: 0 <= p < |s.procs| && s.procs[p].Ready? ==>
          Decided(s, s.procs[p].id, s.procs[p].row, s.procs[p].decidedAt)
          && GroupIs(s.procs[p].row, s.procs[p].group))
    && (forall i :: 0 <= i < |s.sent| ==> Decided(s, s.sent[i].carried.id, s.sent[i].row, s.sent[i].decidedAt))
  }

  predicate Decided(s: State, id: string, row: Row, at: int) {
    Dated(s, id, row) && s.composed[id].at <= at <= s.now && s.composed[id].due <= at && !Expired(row, at)
  }

  ghost predicate Inv(s: State) { Exclusive(s) && Timely(s) }

  predicate SameDates(r: Row, q: Row) { SameAt(r, q, ExpiresAt) && SameAt(r, q, ScheduledFor) }

  /** What an ordinary table operation can do to a scheduled row: keep it scheduled with
      its dates, unschedule it or remove it; it never schedules one. */
  lemma StoreKeeps(j: Json, s: State, op: Op, id: string)
    requires Enabled(s, Store(op))
    ensures Scheduled(Step(j, s.rows, op), id) ==>
      && Scheduled(s.rows, id) && SameAt(s.rows[id], Step(j, s.rows, op)[id], ExpiresAt)
      && SameAt(s.rows[id], Step(j, s.rows, op)[id], ScheduledFor)
    ensures id in Step(j, s.rows, op) ==> id in s.rows || id !in s.composed
  {
    match op
    case Put(k, row) =>
      if k == id && id in s.rows {
        MergeAgrees(row, s.rows[id]);
        assert SameAt(s.rows[id], Merge(row, s.rows[id]), ScheduledFor);
        assert SameAt(s.rows[id], Merge(row, s.rows[id]), ExpiresAt);
      }
    case _ =>
  }

  lemma StoreInv(j: Json, s: State, op: Op)
    requires Inv(s) && Enabled(s, Store(op))
    ensures Inv(Next(j, s, Store(op)))
  {
    var t := Next(j, s, Store(op));
    forall id
      ensures Scheduled(t.rows, id) ==> Scheduled(s.rows, id) && SameDates(s.rows[id], t.rows[id])
      ensures id in t.rows ==> id in s.rows || id !in s.composed
    {
      StoreKeeps(j, s, op, id);
    }
    RowsTimely(s, t);
    RowsExclusive(s, t);
  }

  /** Only rows changed, none was scheduled or redated. */
  lemma RowsTimely(s: State, t: State)
    requires Timely(s) && t == s.(rows := t.rows)
    requires forall id :: Scheduled(t.rows, id) ==> Scheduled(s.rows, id) && SameDates(s.rows[id], t.rows[id])
    ensures Timely(t)
  {
  }

  /** Only rows changed, none of them revived. */
  lemma RowsExclusive(s: State, t: State)
    requires Exclusive(s) && Timely(s) && t == s.(rows := t.rows)
    requires forall id :: Scheduled(t.rows, id) ==> Scheduled(s.rows, id)
    requires forall id :: id in t.rows ==> id in s.rows || id !in s.composed
    ensures Exclusive(t)
  {
  }

  lemma ComposeExclusive(j: Json, s: State, e: Event)
    requires Inv(s) && e.Compose? && Enabled(s, e)
    ensures Exclusive(Next(j, s, e))
  {
  }

  lemma ComposeTimely(j: Json, s: State, e: Event)
    requires Timely(s) && e.Compose? && Enabled(s, e)
    ensures Timely(Next(j, s, e))
  {
  }

  lemma CancelExclusive(j: Json, s: State, e: Event)
    requires Inv(s) && (e.CancelRead? || e.CancelDelete?) && Enabled(s, e)
    ensures Exclusive(Next(j, s, e))
  {
  }

  lemma CancelTimely(j: Json, s: State, e: Event)
    requires Timely(s) && (e.CancelRead? || e.CancelDelete?) && Enabled(s, e)
    ensures Timely(Next(j, s, e))
  {
  }

  lemma FireExclusive(j: Json, s: State, e: Event)
    requires Inv(s) && e.Fire? && Enabled(s, e)
    ensures Exclusive(Next(j, s, e))
  {
  }

  lemma FireTimely(j: Json, s: State, e: Event)
    requires Timely(s) && e.Fire? && Enabled(s, e)
    ensures Timely(Next(j, s, e))
  {
  }

  lemma DecideExclusive(j: Json, s: State, e: Event)
    requires Inv(s) && (e.Decide? || e.Drop?) && Enabled(s, e)
    ensures Exclusive(Next(j, s, e))
  {
  }

  lemma DecideTimely(j: Json, s: State, e: Event)
    requires Timely(s) && (e.Decide? || e.Drop?) && Enabled(s, e)
    ensures Timely(Next(j, s, e))
  {
  }

  lemma SendExclusive(j: Json, s: State, e: Event)
    requires Inv(s) && e.Send? && Enabled(s, e)
    ensures Exclusive(Next(j, s, e))
  {
    var t, x := Next(j, s, e), s.procs[e.proc];
    forall id ensures WasSent(t, id) <==> WasSent(s, id) || id == x.id {
      if WasSent(s, id) {
        var i :| 0 <= i < |s.sent| && s.sent[i].carried.id == id;
        assert t.sent[i] == s.sent[i];
      } else if id == x.id {
        assert t.sent[|s.sent|].carried.id == id;
      }
    }
  }

  lemma SendTimely(j: Json, s: State, e: Event)
    requires Timely(s) && e.Send? && Enabled(s, e)
    ensures Timely(Next(j, s, e))
  {
  }

  lemma WaitExclusive(j: Json, s: State, e: Event)
    requires Inv(s) && e.Wait? && Enabled(s, e)
    ensures Exclusive(Next(j, s, e))
  {
  }

  lemma WaitTimely(j: Json, s: State, e: Event)
    requires Timely(s) && e.Wait? && Enabled(s, e)
    ensures Timely(Next(j, s, e))
  {
  }

  lemma NextInv(j: Json, s: State, e: Event)
    requires Inv(s) && Enabled(s, e)
    ensures Inv(Next(j, s, e))
  {
    match e
    case Wait(_) => WaitExclusive(j, s, e); WaitTimely(j, s, e);
    case Compose(_, _, _, _, _) => ComposeExclusive(j, s, e); ComposeTimely(j, s, e);
    case Store(op) => StoreInv(j, s, op);
    case CancelRead(_) => CancelExclusive(j, s, e); CancelTimely(j, s, e);
    case CancelDelete(_) => CancelExclusive(j, s, e); CancelTimely(j, s, e);
    case Fire(_, _) => FireExclusive(j, s, e); FireTimely(j, s, e);
    case Decide(_) => DecideExclusive(j, s, e); DecideTimely(j, s, e);
    case Drop(_) => DecideExclusive(j, s, e); DecideTimely(j, s, e);
    case Send(_) => SendExclusive(j, s, e); SendTimely(j, s, e);
  }

  predicate Valid(j: Json, s: State, es: seq<Event>)
    decreases |es|
  {
    es == [] || (Enabled(s, es[0]) && Valid(j, Next(j, s, es[0]), es[1..]))
  }

  function Run(j: Json, s: State, es: seq<Event>): State
    requires Valid(j, s, es)
    decreases |es|
  {
    if es == [] then s else Run(j, Next(j, s, es[0]), es[1..])
  }

  lemma {:induction false} RunInv(j: Json, s: State, es: seq<Event>)
    requires Inv(s) && Valid(j, s, es)
    ensures Inv(Run(j, s, es))
    decreases |es|
  {
    if es != [] {
      NextInv(j, s, es[0]);
      RunInv(j, Next(j, s, es[0]), es[1..]);
    }
  }

  function Start(now: int): State { State(now, map[], map[], [], {}, []) }

  /** The message was composed, was due and alive when it was decided, and carries its group, text and
      remaining time; the server's time to live covers that and is no longer than the one it
      was composed with. */
  ghost predicate SentWell(s: State, x: Sent) {
    && x.carried.id in s.composed && s.composed[x.carried.id].due <= x.decidedAt <= x.sentAt
    && Carries(x.carried, x.carried.id, x.carried.group, x.row, x.decidedAt)
    && (x.carried.ttl.Some? <==> s.composed[x.carried.id].ttl.Some?)
    && (x.carried.ttl.Some? ==>
          x.carried.ttl.value <= x.carried.serverTtl.value <= s.composed[x.carried.id].ttl.value)
  }

  /** Everything sent carries its row as decided. */
  ghost predicate Faithful(s: State) {
    forall i :: 0 <= i < |s.sent| ==>
      var x := s.sent[i];
      Carries(x.carried, x.carried.id, x.carried.group, x.row, x.decidedAt) && x.decidedAt <= x.sentAt
  }

  lemma NextFaithful(j: Json, s: State, e: Event)
    requires Timely(s) && Faithful(s) && Enabled(s, e)
    ensures Faithful(Next(j, s, e))
  {
    if e.Send? {
      var x := s.procs[e.proc];
      TransmitCarries(x.id, x.group, x.row, x.decidedAt);
    }
  }

  lemma {:induction false} RunFaithful(j: Json, s: State, es: seq<Event>)
    requires Inv(s) && Faithful(s) && Valid(j, s, es)
    ensures Faithful(Run(j, s, es))
    decreases |es|
  {
    if es != [] {
      NextInv(j, s, es[0]);
      NextFaithful(j, s, es[0]);
      RunFaithful(j, Next(j, s, es[0]), es[1..]);
    }
  }

  lemma SentIsWell(s: State, i: nat)
    requires Inv(s) && Faithful(s) && i < |s.sent|
    ensures SentWell(s, s.sent[i])
  {
    var x := s.sent[i];
    assert Decided(s, x.carried.id, x.row, x.decidedAt);
    var c := s.composed[x.carried.id];
    if c.ttl.Some? {
      assert c.ttl.value in TTL_OPTIONS && IsOption(c.ttl.value);
      assert Rounded(x.carried.ttl.value, ExpiryOf(c.at, c.ttl.value) - x.decidedAt);
      assert x.carried.ttl.value <= c.ttl.value;
    }
  }

  /** Across any number of tabs and any interleaving: a scheduled message is sent at most
      once, never if a cancel removed it, only when it was due and after a check that it had not
      expired, with its own group and text, and with a payload time to live, exactly if it was composed with
      one, of the remaining time that the server's covers without exceeding the option it was
      composed with. */
  lemma SentAtMostOnce(j: Json, now: int, es: seq<Event>)
    requires Valid(j, Start(now), es)
    ensures var s := Run(j, Start(now), es);
      && (forall i, k :: 0 <= i < k < |s.sent| ==> s.sent[i].carried.id != s.sent[k].carried.id)
      && (forall i :: 0 <= i < |s.sent| ==> !CancelsIn(j, Start(now), es, s.sent[i].carried.id))
      && (forall i :: 0 <= i < |s.sent| ==> SentWell(s, s.sent[i]))
  {
    RunInv(j, Start(now), es);
    RunFaithful(j, Start(now), es);
    var s := Run(j, Start(now), es);
    forall i: nat | i < |s.sent|
      ensures SentWell(s, s.sent[i]) && !CancelsIn(j, Start(now), es, s.sent[i].carried.id)
    {
      SentIsWell(s, i);
      CancelledExactlyWhen(j, Start(now), es, s.sent[i].carried.id);
    }
  }

  // ---------------------------------------------------------------------------
  // Cancelling
  // ---------------------------------------------------------------------------

  /** The step is the delete of a cancel that finds the message still scheduled. */
  predicate CancelsAt(s: State, e: Event, id: string) {
    e.CancelDelete? && ProcAt(s, e.proc) && s.procs[e.proc] == Cancelling(id) && Scheduled(s.rows, id)
  }

  predicate CancelsIn(j: Json, s: State, es: seq<Event>, id: string)
    requires Valid(j, s, es)
    decreases |es|
  {
    es != [] && (CancelsAt(s, es[0], id) || CancelsIn(j, Next(j, s, es[0]), es[1..], id))
  }

  lemma {:induction false} CancelledExactlyWhen(j: Json, s: State, es: seq<Event>, id: string)
    requires Valid(j, s, es)
    ensures id in Run(j, s, es).cancelled <==> id in s.cancelled || CancelsIn(j, s, es, id)
    decreases |es|
  {
    if es != [] {
      CancelledExactlyWhen(j, Next(j, s, es[0]), es[1..], id);
    }
  }

  /** Once a cancel's delete has found the message scheduled, it is nowhere: not stored, not in
      any tab's hands, not sent, whatever happens later. */
  lemma CancelledNeverSent(j: Json, now: int, es: seq<Event>, later: seq<Event>, id: string)
    requires Valid(j, Start(now), es) && CancelsIn(j, Start(now), es, id) && Valid(j, Run(j, Start(now), es), later)
    ensures var t := Run(j, Run(j, Start(now), es), later);
      id !in t.rows && !WasSent(t, id) && forall p :: 0 <= p < |t.procs| ==> !Holds(t.procs[p], id)
  {
    var s := Run(j, Start(now), es);
    RunInv(j, Start(now), es);
    CancelledExactlyWhen(j, Start(now), es, id);
    RunInv(j, s, later);
    CancelledExactlyWhen(j, s, later, id);
  }

  // ---------------------------------------------------------------------------
  // The check is not the transmission
  // ---------------------------------------------------------------------------

  predicate LeftLate(s: State) { |s.sent| == 1 && Expired(s.sent[0].row, s.sent[0].sentAt) }

  lemma RunCons(j: Json, s: State, e: Event, es: seq<Event>)
    requires Enabled(s, e) && Valid(j, Next(j, s, e), es)
    ensures Valid(j, s, [e] + es) && Run(j, s, [e] + es) == Run(j, Next(j, s, e), es)
  {
    assert ([e] + es)[1..] == es;
  }

  /** Composed with five minutes to live, claimed and decided at once. */
  function DecidedAtOnce(row: Row): State {
    State(0, map[], map["m" := Composition(0, Some(300), 0)], [Ready("m", "g", row, 0)], {}, [])
  }

  lemma DecideAtOnce(j: Json, row: Row)
    requires row == map[GroupId := Str("g"), ScheduledFor := Num(0), ExpiresAt := Num(300_000)]
    ensures var s1 := Next(j, Start(0), Compose("m", 0, Some(300), 0, map[GroupId := Str("g")]));
      && Enabled(Start(0), Compose("m", 0, Some(300), 0, map[GroupId := Str("g")]))
      && Enabled(s1, Fire("m", "g"))
      && var s2 := Next(j, s1, Fire("m", "g"));
      Enabled(s2, Decide(0)) && Next(j, s2, Decide(0)) == DecidedAtOnce(row)
  {
    var s1 := Next(j, Start(0), Compose("m", 0, Some(300), 0, map[GroupId := Str("g")]));
    assert s1.rows == map["m" := row];
    var s2 := Next(j, s1, Fire("m", "g"));
    assert s2.rows == map[] && s2.procs == [Claimed("m", "g", row)];
  }

  ghost predicate CanEndLate(j: Json, s: State) {
    exists es :: Valid(j, s, es) && LeftLate(Run(j, s, es))
  }

  lemma LateAfter(j: Json, s: State, e: Event)
    requires Enabled(s, e) && CanEndLate(j, Next(j, s, e))
    ensures CanEndLate(j, s)
  {
    var es :| Valid(j, Next(j, s, e), es) && LeftLate(Run(j, Next(j, s, e), es));
    RunCons(j, s, e, es);
  }

  lemma DecidedLeavesLate(j: Json, row: Row)
    requires row == map[GroupId := Str("g"), ScheduledFor := Num(0), ExpiresAt := Num(300_000)]
    ensures CanEndLate(j, DecidedAtOnce(row))
  {
    var s := DecidedAtOnce(row);
    var t := Next(j, s, Wait(300_000));
    var u := Next(j, t, Send(0));
    assert Valid(j, u, []) && LeftLate(Run(j, u, []));
    LateAfter(j, t, Send(0));
    LateAfter(j, s, Wait(300_000));
  }

  /** The expiry check precedes encryption and the request, so a message decided in time
      can still leave after its expiry. */
  lemma CanLeaveLate(j: Json)
    ensures exists es :: Valid(j, Start(0), es) && LeftLate(Run(j, Start(0), es))
  {
    var row: Row := map[GroupId := Str("g"), ScheduledFor := Num(0), ExpiresAt := Num(300_000)];
    var compose := Compose("m", 0, Some(300), 0, map[GroupId := Str("g")]);
    DecideAtOnce(j, row);
    DecidedLeavesLate(j, row);
    var s1 := Next(j, Start(0), compose);
    var s2 := Next(j, s1, Fire("m", "g"));
    LateAfter(j, s2, Decide(0));
    LateAfter(j, s1, Fire("m", "g"));
    LateAfter(j, Start(0), compose);
  }

  /** In this run process `p` sends, no later than `deadline`, a row that has expired. */
  predicate SendsLate(j: Json, s: State, es: seq<Event>, p: nat, deadline: int)
    requires Valid(j, s, es)
    decreases |es|
  {
    es != [] && (LateSend(s, es[0], p, deadline) || SendsLate(j, Next(j, s, es[0]), es[1..], p, deadline))
  }

  predicate LateSend(s: State, e: Event, p: nat, deadline: int)
    requires Enabled(s, e)
  {
    e == Send(p) && Expired(s.procs[p].row, s.now) && s.now <= deadline
  }

  ghost predicate CanSendLate(j: Json, s: State, p: nat, deadline: int) {
    exists es :: Valid(j, s, es) && SendsLate(j, s, es, p, deadline)
  }

  lemma DecidedStays(j: Json, s: State, e: Event, p: nat)
    requires Enabled(s, e) && ProcAt(s, p) && (s.procs[p].Ready? || s.procs[p].Over?)
    ensures ProcAt(Next(j, s, e), p) && (Next(j, s, e).procs[p] == s.procs[p] || Next(j, s, e).procs[p].Over?)
  {
  }

  lemma {:induction false} LateNeedsExpiry(j: Json, s: State, es: seq<Event>, p: nat, deadline: int)
    requires Valid(j, s, es) && ProcAt(s, p) && (s.procs[p].Ready? || s.procs[p].Over?)
    requires SendsLate(j, s, es, p, deadline)
    ensures s.procs[p].Ready? && Expired(s.procs[p].row, deadline)
    decreases |es|
  {
    if !LateSend(s, es[0], p, deadline) {
      DecidedStays(j, s, es[0], p);
      LateNeedsExpiry(j, Next(j, s, es[0]), es[1..], p, deadline);
    }
  }

  lemma WaitThenSend(j: Json, s: State, p: nat, deadline: int)
    requires ProcAt(s, p) && s.procs[p].Ready? && Expired(s.procs[p].row, deadline) && s.now <= deadline
    ensures CanSendLate(j, s, p, deadline)
  {
    var t := Next(j, s, Wait(deadline));
    RunCons(j, t, Send(p), []);
    RunCons(j, s, Wait(deadline), [Send(p)] + []);
    var es := [Wait(deadline)] + ([Send(p)] + []);
    assert es[1..] == [Send(p)] + [];
    assert LateSend(t, ([Send(p)] + [])[0], p, deadline);
    assert SendsLate(j, t, [Send(p)] + [], p, deadline);
    assert SendsLate(j, s, es, p, deadline);
  }

  /** The exact condition, at the decision.  In every state and for every process
      that passed its checks: it can send an expired row within a given time if and only if
      the row expires within that time.  So the check makes a late send impossible exactly
      for requests that leave before the remaining time to live is over. */
  lemma LateExactlyWhen(j: Json, s: State, p: nat, deadline: int)
    requires ProcAt(s, p) && s.procs[p].Ready? && s.now <= deadline
    ensures CanSendLate(j, s, p, deadline) <==> Expired(s.procs[p].row, deadline)
  {
    if Expired(s.procs[p].row, deadline) {
      WaitThenSend(j, s, p, deadline);
    } else {
      forall es | Valid(j, s, es) ensures !SendsLate(j, s, es, p, deadline) {
        if SendsLate(j, s, es, p, deadline) {
          LateNeedsExpiry(j, s, es, p, deadline);
        }
      }
    }
  }

  ghost predicate CanSendLateEver(j: Json, s: State, p: nat) {
    exists deadline :: s.now <= deadline && CanSendLate(j, s, p, deadline)
  }

  /** With no bound on the request's delay the check protects no message that has a time to
      live, and every message that has none. */
  lemma LateExactlyWhenDated(j: Json, now: int, es: seq<Event>, p: nat)
    requires Valid(j, Start(now), es) && ProcAt(Run(j, Start(now), es), p) && Run(j, Start(now), es).procs[p].Ready?
    ensures var s := Run(j, Start(now), es);
      && s.procs[p].id in s.composed
      && (CanSendLateEver(j, s, p) <==> s.composed[s.procs[p].id].ttl.Some?)
  {
    RunInv(j, Start(now), es);
    var s := Run(j, Start(now), es);
    var x := s.procs[p];
    assert Decided(s, x.id, x.row, x.decidedAt);
    if s.composed[x.id].ttl.Some? {
      var n := x.row[ExpiresAt].n;
      var deadline := if n < s.now then s.now else n;
      LateExactlyWhen(j, s, p, deadline);
      assert CanSendLate(j, s, p, deadline);
    } else {
      forall deadline | s.now <= deadline ensures !CanSendLate(j, s, p, deadline) {
        LateExactlyWhen(j, s, p, deadline);
      }
    }
  }

  // ---------------------------------------------------------------------------
  // One tab's sweep, with nothing interleaved
  // ---------------------------------------------------------------------------

  /** A candidate, the clock when it is decided, and whether encrypting and sending it
      succeed. */
  datatype Item = Item(id: string, group: string, now: nat, sends: bool)

  predicate Listed(items: seq<Item>, id: string) { exists i :: 0 <= i < |items| && items[i].id == id }

  /** The item is the first to name its row, the row is scheduled, in its group and alive,
      and the send succeeds. */
  predicate Goes(rows: Table, before: seq<Item>, item: Item) {
    && !Listed(before, item.id)
    && Scheduled(rows, item.id)
    && GroupIs(rows[item.id], item.group)
    && (Deadline(rows[item.id]).Some? ==> item.now < Deadline(rows[item.id]).value)
    && item.sends
  }

  /** The positions of the items that go. */
  function Going(rows: Table, items: seq<Item>): (r: seq<nat>)
    ensures forall k :: 0 <= k < |r| ==> r[k] < |items|
  {
    if items == [] then []
    else
      var n := |items| - 1;
      Going(rows, items[..n]) + if Goes(rows, items[..n], items[n]) then [n] else []
  }

  /** Exactly the items that go, each once and in list order. */
  lemma {:induction false} GoingExactly(rows: Table, items: seq<Item>)
    ensures forall i: nat :: i in Going(rows, items) <==> i < |items| && Goes(rows, items[..i], items[i])
    ensures forall k, m :: 0 <= k < m < |Going(rows, items)| ==> Going(rows, items)[k] < Going(rows, items)[m]
  {
    if items != [] {
      var n := |items| - 1;
      GoingExactly(rows, items[..n]);
      forall i: nat | i < n ensures items[..n][..i] == items[..i] {
      }
    }
  }

  /** No row goes twice. */
  lemma GoesOnce(rows: Table, items: seq<Item>, k: nat, m: nat)
    requires k < m < |Going(rows, items)|
    ensures items[Going(rows, items)[k]].id != items[Going(rows, items)[m]].id
  {
    GoingExactly(rows, items);
    var i, n := Going(rows, items)[k], Going(rows, items)[m];
    assert n in Going(rows, items) && Goes(rows, items[..n], items[n]);
    assert items[..n][i] == items[i];
  }

  /** Transmission `k` carries the row of the `k`-th item that goes. */
  ghost predicate Delivers(rows: Table, items: seq<Item>, out: seq<Transmission>) {
    && |out| == |Going(rows, items)|
    && (forall k :: 0 <= k < |out| ==> CarriesItem(rows, items[Going(rows, items)[k]], out[k]))
  }

  ghost predicate CarriesItem(rows: Table, item: Item, x: Transmission) {
    item.id in rows && Carries(x, item.id, item.group, rows[item.id], item.now)
  }

  /** The rows a sweep leaves: every scheduled row it lists is gone, whether it was sent,
      expired, in another group or failed. */
  function Kept(rows: Table, items: seq<Item>): Table {
    map id | id in rows && !(Scheduled(rows, id) && Listed(items, id)) :: rows[id]
  }

  /** The retention the server is told: the first option at or above, else the last. */
  method FindOption(ttl: nat) returns (o: nat)
    ensures Covering(o, ttl)
  {
    var i := 0;
    while i < |TTL_OPTIONS| && TTL_OPTIONS[i] < ttl
      invariant i <= |TTL_OPTIONS| && forall k :: 0 <= k < i ==> TTL_OPTIONS[k] < ttl
    {
      i := i + 1;
    }
    o := if i < |TTL_OPTIONS| then TTL_OPTIONS[i] else TTL_OPTIONS[|TTL_OPTIONS| - 1];
    assert TTL_OPTIONS[0] == 300 && TTL_OPTIONS[1] == 3600 && TTL_OPTIONS[2] == 86400 && TTL_OPTIONS[3] == 604800;
  }

  /** The payload and the request for a claimed row. */
  method Assemble(item: Item, row: Row) returns (x: Transmission)
    requires GroupIs(row, item.group) && !Expired(row, item.now)
    ensures Carries(x, item.id, item.group, row, item.now)
  {
    var text := if EditedText in row then Text(row, EditedText) else Text(row, PlaintextB64);
    if ExpiresAt in row && row[ExpiresAt].Num? && row[ExpiresAt].n != 0 {
      var ttl := RoundSeconds(row[ExpiresAt].n - item.now);
      if ttl < 1 {
        ttl := 1;
      }
      var serverTtl := FindOption(ttl);
      x := Transmission(item.id, item.group, text, Some(ttl), Some(serverTtl));
    } else {
      x := Transmission(item.id, item.group, text, None, None);
    }
  }

  /** One sweep: the transmissions are exactly those of the listed rows that are scheduled, in
      their group and alive, each once and in list order, and each carries its own row. */
  method FireScheduled(rows: Table, items: seq<Item>) returns (left: Table, out: seq<Transmission>)
    ensures left == Kept(rows, items) && Delivers(rows, items, out)
  {
    left, out := rows, [];
    for i := 0 to |items|
      invariant left == Kept(rows, items[..i]) && Delivers(rows, items[..i], out)
    {
      var item := items[i];
      ListedNext(rows, items, i);
      DeliversNext(rows, items, i, out);
      if Scheduled(left, item.id) {
        var row := left[item.id];
        left := left - {item.id};
        if GroupIs(row, item.group) && !Expired(row, item.now) && item.sends {
          var x := Assemble(item, row);
          out := out + [x];
        }
      }
    }
    assert items[..|items|] == items;
  }

  lemma DeliversNext(rows: Table, items: seq<Item>, i: nat, out: seq<Transmission>)
    requires i < |items| && Delivers(rows, items[..i], out)
    ensures !Goes(rows, items[..i], items[i]) ==> Delivers(rows, items[..i + 1], out)
    ensures forall x :: Goes(rows, items[..i], items[i]) && CarriesItem(rows, items[i], x) ==>
      Delivers(rows, items[..i + 1], out + [x])
  {
    var before, after := items[..i], items[..i + 1];
    assert after[..i] == before && after[i] == items[i];
    forall k | 0 <= k < |out| ensures after[Going(rows, before)[k]] == before[Going(rows, before)[k]] {
    }
  }

  lemma ListedNext(rows: Table, items: seq<Item>, i: nat)
    requires i < |items|
    ensures var left := Kept(rows, items[..i]);
      && items[..i + 1][..i] == items[..i]
      && (Scheduled(left, items[i].id) <==> Scheduled(rows, items[i].id) && !Listed(items[..i], items[i].id))
      && Kept(rows, items[..i + 1]) == if Scheduled(left, items[i].id) then left - {items[i].id} else left
  {
    var before, after := items[..i], items[..i + 1];
    forall id ensures Listed(after, id) <==> Listed(before, id) || id == items[i].id {
      if Listed(before, id) {
        var k :| 0 <= k < i && before[k].id == id;
        assert after[k].id == id;
      }
      if id == items[i].id {
        assert after[i].id == id;
      }
    }
  }
}
