/** The ingestion service's own objects and loops: EventStream, IngestionDB, the
    API's publish loop, and the worker's `_handle` and `run`, each proved to be a
    run of WorkerProtocol. How every await ends is given by the environment. */
module Ingestion {
  import opened Wrappers
  import opened Regex
  import opened Events
  import opened Bus
  import opened WorkerProtocol

  type Message = (nat, Raw)

  /** `_decode` of the entries with the given ids. */
  function DecodeAll(log: seq<Entry>, ids: seq<nat>): (r: seq<Message>)
    requires forall k | 0 <= k < |ids| :: ids[k] < |log|
    ensures |r| == |ids| && forall k | 0 <= k < |ids| :: r[k] == (ids[k], Decode(log[ids[k]]))
  {
    if ids == [] then []
    else
      DecodeAll(log, ids[..|ids| - 1]) + [(ids[|ids| - 1], Decode(log[ids[|ids| - 1]]))]
  }

  /** The pending entries idle for long enough, oldest first, at most count. */
  function Stale(pending: map<nat, nat>, idle: nat -> bool, upTo: nat, count: nat): (ids: seq<nat>)
    ensures |ids| <= count && forall i, j | 0 <= i < j < |ids| :: ids[i] < ids[j]
    ensures forall k | 0 <= k < |ids| :: ids[k] in pending && ids[k] < upTo && idle(ids[k])
    ensures forall id | id < upTo && id in pending && idle(id) && id !in ids ::
      |ids| == count && forall k | 0 <= k < |ids| :: ids[k] < id
  {
    if upTo == 0 then []
    else
      var ids := Stale(pending, idle, upTo - 1, count);
      if |ids| < count && upTo - 1 in pending && idle(upTo - 1) then ids + [upTo - 1] else ids
  }

  class EventStream {
    var log: seq<Entry>
    var cursor: nat
    var pending: map<nat, nat>
    var dlq: seq<Parked>
    ghost var acked: set<nat>

    ghost function Value(): Stream
      reads this
    {
      Stream(log, cursor, pending, acked, dlq)
    }

    method Publish(e: Entry, fault: Fault)
      modifies this
      ensures Value() == if fault.Before? then old(Value()) else XAdd(old(Value()), e)
    {
      if !fault.Before? { log := log + [e]; }
    }

    /** `read`: the next entries, at most count; none if nothing came in time. */
    method Read(w: nat, count: nat, fault: Fault) returns (messages: seq<Message>, ghost n: nat)
      requires cursor <= |log|
      modifies this
      ensures n == if old(cursor) + count <= |old(log)| then count else |old(log)| - old(cursor)
      ensures Value() == if fault.Before? then old(Value()) else XReadGroup(old(Value()), w, n)
      ensures messages == if fault.Fine? then DecodeAll(old(log), Ids(old(cursor), n)) else []
    {
      messages := [];
      var k := if cursor + count <= |log| then count else |log| - cursor;
      n := k;
      if !fault.Before? {
        var ids := Ids(cursor, k);
        if fault.Fine? { messages := DecodeAll(log, ids); }
        cursor, pending := cursor + k, pending + (map i | i in ids :: w);
      }
    }

    /** `claim_stale`. */
    method ClaimStale(w: nat, idle: nat -> bool, count: nat, fault: Fault) returns (messages: seq<Message>)
      requires forall id | id in pending :: id < |log|
      modifies this
      ensures var ids := Stale(old(pending), idle, |old(log)|, count);
        && Value() == (if fault.Before? then old(Value()) else XAutoClaim(old(Value()), w, ids))
        && messages == (if fault.Fine? then DecodeAll(old(log), ids) else [])
    {
      messages := [];
      if !fault.Before? {
        var ids := Stale(pending, idle, |log|, count);
        if fault.Fine? { messages := DecodeAll(log, ids); }
        pending := pending + (map i | i in ids :: w);
      }
    }

    method Ack(id: nat, fault: Fault)
      modifies this
      ensures Value() == if fault.Before? then old(Value()) else XAck(old(Value()), id)
    {
      if !fault.Before? && id in pending {
        pending := pending - {id};
        acked := acked + {id};
      }
    }

    method ToDlq(raw: Raw, reason: Reason, fault: Fault)
      modifies this
      ensures Value() == if fault.Before? then old(Value()) else Bus.Park(old(Value()), Parked(raw, reason))
    {
      if !fault.Before? { dlq := dlq + [Parked(raw, reason)]; }
    }
  }

  class IngestionDB {
    var rows: seq<Row>
    ghost var offers: seq<Row>

    ghost function Value(): Table
      reads this
    {
      Table(rows, offers)
    }

    /** `upsert_log`: inserts the row unless its request_id is there already. */
    method UpsertLog(row: Row, fault: Fault) returns (inserted: bool)
      modifies this
      ensures Value() == if fault.Before? then old(Value()) else Insert(old(Value()), row)
      ensures fault.Fine? ==> (inserted <==> !HasRow(old(rows), row.requestId))
    {
      inserted := false;
      if !fault.Before? {
        inserted := !HasRow(rows, row.requestId);
        if inserted { rows := rows + [row]; }
        offers := offers + [row];
      }
    }
  }

  // ---- the API's publish loop -----------------------------------------------------

  /** The first k entries a batch makes. */
  function PublishedUpTo(batch: seq<Raw>, now: int, k: nat): (r: seq<Entry>)
    requires Admissible(batch) && k <= |batch|
    ensures |r| == k
  {
    if k == 0 then [] else PublishedUpTo(batch, now, k - 1) + [Published(batch[k - 1], now)]
  }

  /** Entry j is event j of the batch, under the request's stamp. */
  lemma {:induction false} PublishedAt(batch: seq<Raw>, now: int, k: nat, j: nat)
    requires Admissible(batch) && j < k <= |batch|
    ensures Decode(PublishedUpTo(batch, now, k)[j]) ==
      Typed(Validate(batch[j]).value.(receivedAt := Some(now)))
  {
    if j < k - 1 { PublishedAt(batch, now, k - 1, j); }
  }

  /** `ingest` after validation. It accepts exactly when no publish raises; the first
      one that does leaves the events before it on the stream, and its own if it took
      effect. */
  method Ingest(stream: EventStream, batch: seq<Raw>, now: int, faults: nat -> Fault)
    returns (accepted: Option<nat>, ghost tried: nat)
    requires Admissible(batch)
    modifies stream
    ensures accepted == if tried == |batch| then Some(|batch|) else None
    ensures tried <= |batch| && (forall k: nat | k < tried :: faults(k).Fine?)
    ensures tried < |batch| ==> !faults(tried).Fine?
    ensures var reached := if tried < |batch| && faults(tried).After? then tried + 1 else tried;
      stream.Value() == old(stream.Value()).(log := old(stream.log) + PublishedUpTo(batch, now, reached))
  {
    tried := 0;
    for k := 0 to |batch|
      invariant tried == k && forall j: nat | j < k :: faults(j).Fine?
      invariant stream.Value() == old(stream.Value()).(log := old(stream.log) + PublishedUpTo(batch, now, k))
    {
      stream.Publish(Published(batch[k], now), faults(k));
      assert old(stream.log) + PublishedUpTo(batch, now, k) + [Published(batch[k], now)]
          == old(stream.log) + PublishedUpTo(batch, now, k + 1);
      if !faults(k).Fine? { return None, tried; }
      tried := k + 1;
    }
    accepted := Some(|batch|);
  }

  // ---- runs of one worker ---------------------------------------------------------

  predicate CanRun(second: Option<Engine>, w: nat, v: View, acts: seq<Action>)
    decreases |acts|
  {
    acts == [] || (Can(v, acts[0]) && CanRun(second, w, Act(second, w, v, acts[0]), acts[1..]))
  }

  function Run(second: Option<Engine>, w: nat, v: View, acts: seq<Action>): View
    requires CanRun(second, w, v, acts)
    decreases |acts|
  {
    if acts == [] then v else Run(second, w, Act(second, w, v, acts[0]), acts[1..])
  }

  lemma {:induction false} RunAppend(second: Option<Engine>, w: nat, v: View, a: seq<Action>, b: seq<Action>)
    requires CanRun(second, w, v, a) && CanRun(second, w, Run(second, w, v, a), b)
    ensures CanRun(second, w, v, a + b) && Run(second, w, v, a + b) == Run(second, w, Run(second, w, v, a), b)
    decreases |a|
  {
    if a == [] {
      assert a + b == b;
    } else {
      RunAppend(second, w, Act(second, w, v, a[0]), a[1..], b);
      assert (a + b)[1..] == a[1..] + b;
    }
  }

  /** acts is a run from v to v'. */
  ghost predicate Leads(second: Option<Engine>, w: nat, v: View, acts: seq<Action>, v': View) {
    CanRun(second, w, v, acts) && Run(second, w, v, acts) == v'
  }

  lemma LeadsStep(second: Option<Engine>, w: nat, v: View, acts: seq<Action>, v': View, a: Action)
    requires Leads(second, w, v, acts, v') && Can(v', a)
    ensures Leads(second, w, v, acts + [a], Act(second, w, v', a))
  {
    RunAppend(second, w, v, acts, [a]);
  }

  lemma LeadsOn(second: Option<Engine>, w: nat, v: View, a: seq<Action>, v1: View, b: seq<Action>, v2: View)
    requires Leads(second, w, v, a, v1) && Leads(second, w, v1, b, v2)
    ensures Leads(second, w, v, a + b, v2)
  {
    RunAppend(second, w, v, a, b);
  }

  /** A run keeps everything the protocol keeps. */
  lemma {:induction false} RunInv(second: Option<Engine>, w: nat, v: View, acts: seq<Action>)
    requires CanRun(second, w, v, acts)
    requires SharedInv(second, v.bus, v.table) && LocalInv(v.bus, v.table, v.me)
    ensures var v' := Run(second, w, v, acts);
      && SharedInv(second, v'.bus, v'.table) && LocalInv(v'.bus, v'.table, v'.me)
      && Grows(v.bus, v'.bus) && v.table.rows <= v'.table.rows && v'.bus.log == v.bus.log
    decreases |acts|
  {
    if acts != [] {
      ActKeeps(second, w, v, acts[0]);
      ActGrows(second, w, v, acts[0]);
      RunInv(second, w, Act(second, w, v, acts[0]), acts[1..]);
    }
  }

  // ---- `_handle` -------------------------------------------------------------------

  /** How the awaits for one message end, should they be reached. */
  datatype Faults = Faults(insert: Fault, ack: Fault, park: Fault, parkAck: Fault)

  const CALM: Faults := Faults(Fine, Fine, Fine, Fine)

  /** The dead-letter branch: park, then ack; a failure of either escapes. */
  method ParkAndAck(stream: EventStream, ghost table: Table, second: Option<Engine>, w: nat,
                    id: nat, raw: Raw, reason: Reason, f: Faults, ghost batch: seq<nat>)
    returns (escaped: bool, ghost acts: seq<Action>)
    requires batch != [] && batch[0] == id < |stream.log| && raw == Decode(stream.log[id])
    modifies stream
    ensures Leads(second, w, View(old(stream.Value()), table, Worker(batch, Parking(reason))), acts,
                  View(stream.Value(), table, if escaped then IDLE else Take(batch[1..])))
    ensures stream.log == old(stream.log) && stream.cursor == old(stream.cursor)
    ensures escaped <==> !(f.park.Fine? && f.parkAck.Fine?)
    ensures stream.dlq == old(stream.dlq) + if f.park.Before? then [] else [Parked(raw, reason)]
    ensures stream.pending ==
      if f.park.Fine? && !f.parkAck.Before? then old(stream.pending) - {id} else old(stream.pending)
  {
    ghost var v := View(stream.Value(), table, Worker(batch, Parking(reason)));
    acts := [];
    stream.ToDlq(raw, reason, f.park);
    LeadsStep(second, w, v, acts, v, Action.Park(f.park));
    acts := acts + [Action.Park(f.park)];
    if !f.park.Fine? { return true, acts; }
    ghost var v1 := View(stream.Value(), table, Worker(batch, AckingParked));
    stream.Ack(id, f.parkAck);
    LeadsStep(second, w, v, acts, v1, AckParked(f.parkAck));
    acts := acts + [AckParked(f.parkAck)];
    escaped := !f.parkAck.Fine?;
  }

  /** The try block and its handler: the event is inserted and acknowledged; if either
      raises, the message goes to the dead-letter queue whether or not its row is in. */
  method Store(stream: EventStream, db: IngestionDB, second: Option<Engine>, w: nat, now: int,
               message: Message, f: Faults, ghost batch: seq<nat>)
    returns (escaped: bool, ghost acts: seq<Action>)
    requires batch != [] && batch[0] == message.0 < |stream.log| && message.1 == Decode(stream.log[message.0])
    requires Validate(message.1).Some?
    modifies stream, db
    ensures Leads(second, w, View(old(stream.Value()), old(db.Value()), Worker(batch, Upserting)), acts,
                  View(stream.Value(), db.Value(), if escaped then IDLE else Take(batch[1..])))
    ensures stream.log == old(stream.log) && stream.cursor == old(stream.cursor)
    ensures var fine := f.insert.Fine? && f.ack.Fine?;
      && (escaped <==> !fine && !(f.park.Fine? && f.parkAck.Fine?))
      && stream.dlq == old(stream.dlq) + (if fine || f.park.Before? then [] else [Parked(message.1, Processing)])
      && stream.pending ==
           if (f.insert.Fine? && !f.ack.Before?) || (!fine && f.park.Fine? && !f.parkAck.Before?)
           then old(stream.pending) - {message.0} else old(stream.pending)
    ensures db.rows ==
      if f.insert.Before? then old(db.rows)
      else AddRow(old(db.rows), ProcessEvent(Validate(message.1).value, now, second))
  {
    var (id, raw) := message;
    ghost var v := View(stream.Value(), db.Value(), Worker(batch, Upserting));
    var record := ProcessEvent(Validate(raw).value, now, second);
    var inserted := db.UpsertLog(record, f.insert);
    LeadsStep(second, w, v, [], v, Upsert(now, f.insert));
    acts := [Upsert(now, f.insert)];
    if f.insert.Fine? {
      ghost var v1 := View(stream.Value(), db.Value(), Worker(batch, AckingStored));
      stream.Ack(id, f.ack);
      LeadsStep(second, w, v, acts, v1, AckStored(f.ack));
      acts := acts + [AckStored(f.ack)];
      if f.ack.Fine? { return false, acts; }
    }
    ghost var v2 := View(stream.Value(), db.Value(), Worker(batch, Parking(Processing)));
    ghost var more: seq<Action>;
    escaped, more := ParkAndAck(stream, db.Value(), second, w, id, raw, Processing, f, batch);
    LeadsOn(second, w, v, acts, v2, more,
            View(stream.Value(), db.Value(), if escaped then IDLE else Take(batch[1..])));
    acts := acts + more;
  }

  /** The message reaches the dead-letter branch. */
  predicate Parks(raw: Raw, f: Faults) { Validate(raw).None? || !f.insert.Fine? || !f.ack.Fine? }

  /** An exception escapes `_handle` at this message. */
  predicate Escapes(raw: Raw, f: Faults) { Parks(raw, f) && !(f.park.Fine? && f.parkAck.Fine?) }

  /** The dead letter one message leaves. */
  function Letter(raw: Raw, f: Faults): seq<Parked> {
    if !Parks(raw, f) || f.park.Before? then []
    else [Parked(raw, if Validate(raw).None? then Invalid else Processing)]
  }

  /** The rows after one message. */
  function RowsWith(rows: seq<Row>, raw: Raw, f: Faults, now: int, second: Option<Engine>): seq<Row> {
    if Validate(raw).None? || f.insert.Before? then rows
    else AddRow(rows, ProcessEvent(Validate(raw).value, now, second))
  }

  predicate Acks(raw: Raw, f: Faults) {
    || (Validate(raw).Some? && f.insert.Fine? && !f.ack.Before?)
    || (Parks(raw, f) && f.park.Fine? && !f.parkAck.Before?)
  }

  function AckedId(message: Message, f: Faults): set<nat> { if Acks(message.1, f) then {message.0} else {} }

  /** One turn of `_handle`: validate; upsert and ack; or the dead-letter queue. */
  method HandleOne(stream: EventStream, db: IngestionDB, second: Option<Engine>, w: nat, now: int,
                   message: Message, f: Faults, ghost batch: seq<nat>)
    returns (escaped: bool, ghost acts: seq<Action>)
    requires batch != [] && batch[0] == message.0 < |stream.log| && message.1 == Decode(stream.log[message.0])
    modifies stream, db
    ensures Leads(second, w, View(old(stream.Value()), old(db.Value()), Worker(batch, Judging)), acts,
                  View(stream.Value(), db.Value(), if escaped then IDLE else Take(batch[1..])))
    ensures stream.log == old(stream.log) && stream.cursor == old(stream.cursor)
    ensures escaped <==> Escapes(message.1, f)
    ensures stream.dlq == old(stream.dlq) + Letter(message.1, f)
    ensures db.rows == RowsWith(old(db.rows), message.1, f, now, second)
    ensures stream.pending == if Acks(message.1, f) then old(stream.pending) - {message.0} else old(stream.pending)
    ensures stream.pending.Keys == old(stream.pending.Keys) - AckedId(message, f)
  {
    var (id, raw) := message;
    ghost var v := View(stream.Value(), db.Value(), Worker(batch, Judging));
    ghost var more: seq<Action>;
    LeadsStep(second, w, v, [], v, Judge);
    acts := [Judge];
    var event := Validate(raw);
    if event.None? {
      ghost var v1 := Act(second, w, v, Judge);
      escaped, more := ParkAndAck(stream, db.Value(), second, w, id, raw, Invalid, f, batch);
      LeadsOn(second, w, v, acts, v1, more,
              View(stream.Value(), db.Value(), if escaped then IDLE else Take(batch[1..])));
      return escaped, acts + more;
    }
    escaped, more := Store(stream, db, second, w, now, message, f, batch);
    LeadsOn(second, w, v, acts, Act(second, w, v, Judge), more,
            View(stream.Value(), db.Value(), if escaped then IDLE else Take(batch[1..])));
    acts := acts + more;
  }

  // ---- what `_handle` does to a list of messages --------------------------------------

  /** The dead letters of a list of messages, in order. */
  function Letters(messages: seq<Message>, faults: nat -> Faults): seq<Parked> {
    if messages == [] then []
    else
      var n := |messages| - 1;
      Letters(messages[..n], faults) + Letter(messages[n].1, faults(n))
  }

  function RowsAfter(rows: seq<Row>, messages: seq<Message>, faults: nat -> Faults, now: nat -> int,
                     second: Option<Engine>): seq<Row>
  {
    if messages == [] then rows
    else
      var n := |messages| - 1;
      RowsWith(RowsAfter(rows, messages[..n], faults, now, second), messages[n].1, faults(n), now(n), second)
  }

  /** The invalid messages, as the dead letters they make. */
  function InvalidOnes(messages: seq<Message>): seq<Parked> {
    if messages == [] then []
    else
      var raw := messages[|messages| - 1].1;
      InvalidOnes(messages[..|messages| - 1]) + (if Validate(raw).None? then [Parked(raw, Invalid)] else [])
  }

  ghost predicate Calm(faults: nat -> Faults) { forall k: nat :: faults(k) == CALM }

  lemma {:induction false} CalmLetters(messages: seq<Message>, faults: nat -> Faults)
    requires Calm(faults)
    ensures Letters(messages, faults) == InvalidOnes(messages)
  {
    if messages != [] { CalmLetters(messages[..|messages| - 1], faults); }
  }

  /** Row k of what was added is `process_event` of one of the messages. */
  ghost predicate Made(row: Row, messages: seq<Message>, now: nat -> int, second: Option<Engine>) {
    exists k: nat :: MadeAt(row, messages, now, second, k)
  }

  predicate MadeAt(row: Row, messages: seq<Message>, now: nat -> int, second: Option<Engine>, k: nat) {
    k < |messages| && Validate(messages[k].1).Some?
    && row == ProcessEvent(Validate(messages[k].1).value, now(k), second)
  }

  lemma AddRowMeaning(rows: seq<Row>, row: Row)
    ensures rows <= AddRow(rows, row) && HasRow(AddRow(rows, row), row.requestId)
    ensures forall id :: HasRow(rows, id) ==> HasRow(AddRow(rows, row), id)
    ensures forall r | r in AddRow(rows, row) :: r in rows || r == row
  {
    HasRowAppend(rows, row);
  }

  lemma {:induction false} RowsGrow(rows: seq<Row>, messages: seq<Message>, faults: nat -> Faults,
                                    now: nat -> int, second: Option<Engine>)
    ensures rows <= RowsAfter(rows, messages, faults, now, second)
  {
    if messages != [] { RowsGrow(rows, messages[..|messages| - 1], faults, now, second); }
  }

  /** New rows are made from the messages. */
  lemma {:induction false} RowsAreMade(rows: seq<Row>, messages: seq<Message>, faults: nat -> Faults,
                                       now: nat -> int, second: Option<Engine>, row: Row)
    requires row in RowsAfter(rows, messages, faults, now, second)
    ensures row in rows || Made(row, messages, now, second)
  {
    if messages != [] {
      var n := |messages| - 1;
      if row in RowsAfter(rows, messages[..n], faults, now, second) {
        RowsAreMade(rows, messages[..n], faults, now, second, row);
        MadeLater(messages, now, second);
      } else {
        assert MadeAt(row, messages, now, second, n);
      }
    }
  }

  /** A valid message whose insert took effect has a row. */
  lemma {:induction false} RowIsThere(rows: seq<Row>, messages: seq<Message>, faults: nat -> Faults,
                                      now: nat -> int, second: Option<Engine>, k: nat)
    requires k < |messages| && Validate(messages[k].1).Some? && !faults(k).insert.Before?
    ensures HasRow(RowsAfter(rows, messages, faults, now, second), Validate(messages[k].1).value.requestId)
  {
    var n := |messages| - 1;
    var before := RowsAfter(rows, messages[..n], faults, now, second);
    if k < n { RowIsThere(rows, messages[..n], faults, now, second, k); }
    if Validate(messages[n].1).Some? {
      AddRowMeaning(before, ProcessEvent(Validate(messages[n].1).value, now(n), second));
    }
  }

  lemma MadeLater(messages: seq<Message>, now: nat -> int, second: Option<Engine>)
    requires messages != []
    ensures forall row :: Made(row, messages[..|messages| - 1], now, second) ==> Made(row, messages, now, second)
  {
    forall row | Made(row, messages[..|messages| - 1], now, second) ensures Made(row, messages, now, second) {
      var k: nat :| MadeAt(row, messages[..|messages| - 1], now, second, k);
      assert MadeAt(row, messages, now, second, k);
    }
  }

  /** The messages whose acknowledgement took effect. */
  function AckedIds(messages: seq<Message>, faults: nat -> Faults): set<nat> {
    if messages == [] then {}
    else
      var n := |messages| - 1;
      AckedIds(messages[..n], faults) + AckedId(messages[n], faults(n))
  }

  /** Unless an exception escapes at it, a message's acknowledgement takes effect. */
  lemma {:induction false} AckedUnlessEscaped(messages: seq<Message>, faults: nat -> Faults)
    requires forall k: nat | k < |messages| :: !Escapes(messages[k].1, faults(k))
    ensures forall id :: id in AckedIds(messages, faults) <==> exists k :: 0 <= k < |messages| && messages[k].0 == id
  {
    if messages != [] {
      var n := |messages| - 1;
      AckedUnlessEscaped(messages[..n], faults);
      assert messages == messages[..n] + [messages[n]];
    }
  }

  /** If none of the awaits raises: nothing escapes, every valid message has a row, new
      rows are made from the messages, the invalid messages and no others are parked,
      in order, and no message is pending. */
  lemma CalmHandling(log: seq<Entry>, messages: seq<Message>, ids: seq<nat>, faults: nat -> Faults,
                     rows: seq<Row>, now: nat -> int, second: Option<Engine>)
    requires Calm(faults) && Matches(log, messages, ids)
    ensures forall k: nat | k < |messages| :: !Escapes(messages[k].1, faults(k))
    ensures Letters(messages, faults) == InvalidOnes(messages)
    ensures forall id :: id in AckedIds(messages, faults) <==> id in ids
    ensures var after := RowsAfter(rows, messages, faults, now, second);
      && rows <= after
      && (forall row | row in after :: row in rows || Made(row, messages, now, second))
      && (forall k: nat | k < |messages| && Validate(messages[k].1).Some? ::
            HasRow(after, Validate(messages[k].1).value.requestId))
  {
    CalmLetters(messages, faults);
    AckedUnlessEscaped(messages, faults);
    RowsGrow(rows, messages, faults, now, second);
    var after := RowsAfter(rows, messages, faults, now, second);
    forall row | row in after ensures row in rows || Made(row, messages, now, second) {
      RowsAreMade(rows, messages, faults, now, second, row);
    }
    forall k: nat | k < |messages| && Validate(messages[k].1).Some?
      ensures HasRow(after, Validate(messages[k].1).value.requestId)
    {
      RowIsThere(rows, messages, faults, now, second, k);
    }
  }

  /** What handling the messages did to the stream and the rows. */
  ghost predicate Did(bus: Stream, rows: seq<Row>, messages: seq<Message>, faults: nat -> Faults, now: nat -> int,
                      second: Option<Engine>, bus': Stream, rows': seq<Row>)
  {
    && bus'.log == bus.log && bus'.cursor == bus.cursor
    && bus'.dlq == bus.dlq + Letters(messages, faults)
    && rows' == RowsAfter(rows, messages, faults, now, second)
    && bus'.pending.Keys == bus.pending.Keys - AckedIds(messages, faults)
  }

  lemma DidMore(bus: Stream, rows: seq<Row>, messages: seq<Message>, k: nat, faults: nat -> Faults, now: nat -> int,
                second: Option<Engine>, bus1: Stream, rows1: seq<Row>, bus2: Stream, rows2: seq<Row>)
    requires k < |messages| && Did(bus, rows, messages[..k], faults, now, second, bus1, rows1)
    requires bus2.log == bus1.log && bus2.cursor == bus1.cursor
    requires bus2.dlq == bus1.dlq + Letter(messages[k].1, faults(k))
    requires rows2 == RowsWith(rows1, messages[k].1, faults(k), now(k), second)
    requires bus2.pending.Keys == bus1.pending.Keys - AckedId(messages[k], faults(k))
    ensures Did(bus, rows, messages[..k + 1], faults, now, second, bus2, rows2)
  {
    assert messages[..k + 1][..k] == messages[..k];
    var letters, more := Letters(messages[..k], faults), Letter(messages[k].1, faults(k));
    assert bus.dlq + letters + more == bus.dlq + (letters + more);
  }

  /** `_handle`: every message in turn, up to one at which an exception escapes. Its effect
      is a run of the protocol, and the outcomes of the awaits decide what it is. If none
      raises: every valid message has a row, new rows are made from the messages, and
      exactly the invalid ones are parked, in order. */
  method Handle(stream: EventStream, db: IngestionDB, second: Option<Engine>, w: nat, now: nat -> int,
                messages: seq<Message>, faults: nat -> Faults, ghost ids: seq<nat>)
    returns (escaped: bool, ghost reached: nat, ghost acts: seq<Action>)
    requires Matches(stream.log, messages, ids)
    modifies stream, db
    ensures Leads(second, w, View(old(stream.Value()), old(db.Value()), Take(ids)), acts,
                  View(stream.Value(), db.Value(), IDLE))
    ensures reached <= |messages| && (!escaped ==> reached == |messages|)
    ensures escaped ==> reached > 0 && Escapes(messages[reached - 1].1, faults(reached - 1))
    ensures forall k: nat | k < reached && Escapes(messages[k].1, faults(k)) :: escaped && k == reached - 1
    ensures Did(old(stream.Value()), old(db.rows), messages[..reached], faults, now, second, stream.Value(), db.rows)
    ensures Calm(faults) ==>
      && !escaped && stream.dlq == old(stream.dlq) + InvalidOnes(messages)
      && (forall k: nat | k < |messages| && Validate(messages[k].1).Some? ::
            HasRow(db.rows, Validate(messages[k].1).value.requestId))
      && old(db.rows) <= db.rows
      && (forall row | row in db.rows :: row in old(db.rows) || Made(row, messages, now, second))
      && (forall k | 0 <= k < |ids| :: ids[k] !in stream.pending)
  {
    escaped, reached, acts := HandleInTurn(stream, db, second, w, now, messages, faults, ids);
    assert messages[..|messages|] == messages;
    if Calm(faults) {
      CalmHandling(old(stream.log), messages, ids, faults, old(db.rows), now, second);
      assert forall k | 0 <= k < |ids| :: ids[k] in ids;
    }
  }

  /** The loop of `_handle`. */
  method HandleInTurn(stream: EventStream, db: IngestionDB, second: Option<Engine>, w: nat, now: nat -> int,
                      messages: seq<Message>, faults: nat -> Faults, ghost ids: seq<nat>)
    returns (escaped: bool, ghost reached: nat, ghost acts: seq<Action>)
    requires Matches(stream.log, messages, ids)
    modifies stream, db
    ensures Leads(second, w, View(old(stream.Value()), old(db.Value()), Take(ids)), acts,
                  View(stream.Value(), db.Value(), IDLE))
    ensures reached <= |messages| && (!escaped ==> reached == |messages|)
    ensures escaped ==> reached > 0 && Escapes(messages[reached - 1].1, faults(reached - 1))
    ensures forall k: nat | k < reached && Escapes(messages[k].1, faults(k)) :: escaped && k == reached - 1
    ensures Did(old(stream.Value()), old(db.rows), messages[..reached], faults, now, second, stream.Value(), db.rows)
  {
    ghost var v := View(stream.Value(), db.Value(), Take(ids));
    acts, escaped, reached := [], false, 0;
    assert messages[..0] == [];
    for k := 0 to |messages|
      invariant reached == k && !escaped && stream.log == v.bus.log
      invariant Leads(second, w, v, acts, View(stream.Value(), db.Value(), Take(ids[k..])))
      invariant forall j: nat | j < k :: !Escapes(messages[j].1, faults(j))
      invariant Did(v.bus, v.table.rows, messages[..k], faults, now, second, stream.Value(), db.rows)
    {
      ghost var at := View(stream.Value(), db.Value(), Take(ids[k..]));
      ghost var more: seq<Action>;
      escaped, more := HandleOne(stream, db, second, w, now(k), messages[k], faults(k), ids[k..]);
      assert ids[k..][1..] == ids[k + 1..];
      LeadsOn(second, w, v, acts, at, more,
              View(stream.Value(), db.Value(), if escaped then IDLE else Take(ids[k + 1..])));
      DidMore(v.bus, v.table.rows, messages, k, faults, now, second, at.bus, at.table.rows, stream.Value(), db.rows);
      acts := acts + more;
      reached := k + 1;
      if escaped { return; }
    }
    assert ids[|ids|..] == [] && messages[..|messages|] == messages;
  }

  // ---- `run` ------------------------------------------------------------------------

  ghost predicate Matches(log: seq<Entry>, messages: seq<Message>, ids: seq<nat>) {
    |ids| == |messages| && forall k | 0 <= k < |ids| ::
      messages[k].0 == ids[k] < |log| && messages[k].1 == Decode(log[ids[k]])
  }

  /** `read` as a step of the protocol; with nothing new it is no step at all. */
  method TakeNew(stream: EventStream, ghost table: Table, second: Option<Engine>, w: nat, count: nat, fault: Fault)
    returns (messages: seq<Message>, ghost ids: seq<nat>, ghost acts: seq<Action>)
    requires stream.cursor <= |stream.log|
    modifies stream
    ensures stream.log == old(stream.log) && stream.dlq == old(stream.dlq) && Matches(stream.log, messages, ids)
    ensures Leads(second, w, View(old(stream.Value()), table, IDLE), acts, View(stream.Value(), table, Take(ids)))
    ensures if fault.Fine? then stream.cursor == old(stream.cursor) + |ids| else ids == []
    ensures fault.Fine? ==>
      && (forall id: nat :: id in ids <==> id in Between(old(stream.cursor), |ids|))
      && stream.pending.Keys == old(stream.pending.Keys) + Between(old(stream.cursor), |ids|)
    ensures fault.Fine? && ids == [] && count >= 1 ==> stream.cursor == |stream.log|
  {
    ghost var v := View(stream.Value(), table, IDLE);
    ghost var n;
    messages, n := stream.Read(w, count, fault);
    ids := if fault.Fine? then Ids(v.bus.cursor, n) else [];
    acts := ReadLeads(second, w, v, n, fault);
    ReadKeys(v.bus, w, n);
  }

  lemma ReadKeys(s: Stream, w: nat, n: nat)
    requires s.cursor + n <= |s.log|
    ensures XReadGroup(s, w, n).pending.Keys == s.pending.Keys + Between(s.cursor, n)
    ensures forall id: nat :: id in Ids(s.cursor, n) <==> id in Between(s.cursor, n)
    ensures |Ids(s.cursor, n)| == n && (n == 0 <==> Ids(s.cursor, n) == [])
  {
  }

  /** The ids a read hands out. */
  function Between(from: nat, n: nat): set<nat> { set id | id in Ids(from, n) }

  lemma ReadLeads(second: Option<Engine>, w: nat, v: View, n: nat, fault: Fault) returns (acts: seq<Action>)
    requires v.me == IDLE && v.bus.cursor + n <= |v.bus.log|
    ensures Leads(second, w, v, acts,
      View(if fault.Before? then v.bus else XReadGroup(v.bus, w, n), v.table,
           Take(if fault.Fine? then Ids(v.bus.cursor, n) else [])))
  {
    if n == 0 {
      acts := [];
      ReadNothing(v.bus, w);
    } else {
      acts := [Action.Read(n, fault)];
      LeadsStep(second, w, v, [], v, Action.Read(n, fault));
    }
  }

  lemma ReadNothing(s: Stream, w: nat)
    requires s.cursor <= |s.log|
    ensures XReadGroup(s, w, 0) == s
  {
    assert s.pending + (map i | i in Ids(s.cursor, 0) :: w) == s.pending;
  }

  /** `claim_stale` as a step of the protocol. */
  method TakeStale(stream: EventStream, ghost table: Table, second: Option<Engine>, w: nat, count: nat,
                   idle: nat -> bool, fault: Fault)
    returns (messages: seq<Message>, ghost ids: seq<nat>, ghost acts: seq<Action>)
    requires forall id | id in stream.pending :: id < |stream.log|
    modifies stream
    ensures stream.log == old(stream.log) && stream.dlq == old(stream.dlq) && Matches(stream.log, messages, ids)
    ensures Leads(second, w, View(old(stream.Value()), table, IDLE), acts, View(stream.Value(), table, Take(ids)))
    ensures stream.cursor == old(stream.cursor) && stream.pending.Keys == old(stream.pending.Keys)
    ensures forall id :: id in ids ==> id in stream.pending
    ensures !fault.Fine? ==> ids == []
    ensures fault.Fine? && ids == [] && count >= 1 ==> forall id | id in stream.pending :: !idle(id)
  {
    ghost var v := View(stream.Value(), table, IDLE);
    ghost var claimed := Stale(stream.pending, idle, |stream.log|, count);
    messages := stream.ClaimStale(w, idle, count, fault);
    ids := if fault.Fine? then claimed else [];
    acts := ClaimLeads(second, w, v, claimed, fault);
    ClaimKeys(v.bus, w, claimed);
  }

  lemma ClaimKeys(s: Stream, w: nat, ids: seq<nat>)
    requires forall k | 0 <= k < |ids| :: ids[k] in s.pending
    ensures XAutoClaim(s, w, ids).pending.Keys == s.pending.Keys
    ensures forall id :: id in ids ==> id in s.pending
  {
  }

  lemma ClaimLeads(second: Option<Engine>, w: nat, v: View, claimed: seq<nat>, fault: Fault)
    returns (acts: seq<Action>)
    requires v.me == IDLE && NoDuplicates(claimed)
    requires forall k | 0 <= k < |claimed| :: claimed[k] in v.bus.pending
    ensures Leads(second, w, v, acts,
      View(if fault.Before? then v.bus else XAutoClaim(v.bus, w, claimed), v.table,
           Take(if fault.Fine? then claimed else [])))
  {
    if claimed == [] {
      acts := [];
      assert v.bus.pending + (map i | i in claimed :: w) == v.bus.pending;
    } else {
      acts := [Action.Claim(claimed, fault)];
      LeadsStep(second, w, v, [], v, Action.Claim(claimed, fault));
    }
  }

  ghost predicate AllIdle(idle: nat -> bool) { forall id: nat :: idle(id) }

  /** How everything a round awaits ends, should it be reached. */
  datatype Outcomes = Outcomes(
    read: Fault, reading: nat -> Faults, claim: Fault, claiming: nat -> Faults)

  ghost predicate AllFine(o: Outcomes) { o.read.Fine? && Calm(o.reading) && o.claim.Fine? && Calm(o.claiming) }

  /** A row carries the entry's request_id, if it is valid. */
  predicate RowIfValid(entry: Entry, rows: seq<Row>) {
    var e := Validate(Decode(entry));
    e.Some? ==> HasRow(rows, e.value.requestId)
  }

  /** What was unsettled before still is, or has its row if it is valid. */
  ghost predicate Handed(log: seq<Entry>, cursor: nat, pending: set<nat>, cursor': nat, pending': set<nat>,
                         rows: seq<Row>)
  {
    forall id: nat | id < |log| && (id in pending || cursor <= id) ::
      id in pending' || cursor' <= id || RowIfValid(log[id], rows)
  }

  /** The new dead letters are all of invalid messages. */
  predicate OnlyInvalid(dlq: seq<Parked>, dlq': seq<Parked>) {
    dlq <= dlq' && forall k | |dlq| <= k < |dlq'| :: dlq'[k].reason.Invalid? && Validate(dlq'[k].raw).None?
  }

  lemma RowStays(rows: seq<Row>, rows': seq<Row>, id: string)
    requires rows <= rows' && HasRow(rows, id)
    ensures HasRow(rows', id)
  {
    var k :| 0 <= k < |rows| && rows[k].requestId == id;
    assert rows'[k] == rows[k];
  }

  lemma HandedOn(log: seq<Entry>, c0: nat, p0: set<nat>, c1: nat, p1: set<nat>, rows1: seq<Row>,
                 c2: nat, p2: set<nat>, rows2: seq<Row>)
    requires Handed(log, c0, p0, c1, p1, rows1) && Handed(log, c1, p1, c2, p2, rows2) && rows1 <= rows2
    ensures Handed(log, c0, p0, c2, p2, rows2)
  {
    forall id: nat | id < |log| && (id in p0 || c0 <= id)
      ensures id in p2 || c2 <= id || RowIfValid(log[id], rows2)
    {
      if !(id in p1 || c1 <= id) && Validate(Decode(log[id])).Some? {
        RowStays(rows1, rows2, Validate(Decode(log[id])).value.requestId);
      }
    }
  }

  lemma {:induction false} InvalidOnesMeaning(messages: seq<Message>)
    ensures forall p | p in InvalidOnes(messages) :: p.reason.Invalid? && Validate(p.raw).None?
  {
    if messages != [] { InvalidOnesMeaning(messages[..|messages| - 1]); }
  }

  /** Handling the messages with the given ids calmly hands them all over. */
  lemma CalmHands(log: seq<Entry>, messages: seq<Message>, ids: seq<nat>, faults: nat -> Faults,
                  rows: seq<Row>, now: nat -> int, second: Option<Engine>,
                  cursor: nat, pending: set<nat>, cursor': nat, taken: set<nat>)
    requires Calm(faults) && Matches(log, messages, ids)
    requires forall id: nat | id < |log| && (id in pending || cursor <= id) :: id in taken || cursor' <= id
    ensures Handed(log, cursor, pending, cursor', taken - AckedIds(messages, faults),
                   RowsAfter(rows, messages, faults, now, second))
  {
    CalmHandling(log, messages, ids, faults, rows, now, second);
    var after := RowsAfter(rows, messages, faults, now, second);
    forall id: nat | id in ids ensures id < |log| && RowIfValid(log[id], after) {
      var k: nat :| k < |ids| && ids[k] == id;
      assert messages[k].1 == Decode(log[id]);
    }
  }

  lemma CalmInvalid(dlq: seq<Parked>, messages: seq<Message>, faults: nat -> Faults)
    requires Calm(faults)
    ensures OnlyInvalid(dlq, dlq + Letters(messages, faults))
  {
    CalmLetters(messages, faults);
    InvalidOnesMeaning(messages);
    var all := dlq + InvalidOnes(messages);
    forall k | |dlq| <= k < |all| ensures all[k] in InvalidOnes(messages) {
      assert all[k] == InvalidOnes(messages)[k - |dlq|];
    }
  }

  /** A calm round: the messages were taken, then handled. */
  lemma RoundHands(bus: Stream, taken: Stream, rows: seq<Row>, messages: seq<Message>, ids: seq<nat>,
                   faults: nat -> Faults, now: nat -> int, second: Option<Engine>, bus': Stream, rows': seq<Row>)
    requires Calm(faults) && Matches(bus.log, messages, ids) && taken.log == bus.log && taken.dlq == bus.dlq
    requires Did(taken, rows, messages, faults, now, second, bus', rows')
    requires forall id: nat | id < |bus.log| && (id in bus.pending || bus.cursor <= id) ::
      id in taken.pending || taken.cursor <= id
    ensures OnlyInvalid(bus.dlq, bus'.dlq)
    ensures Handed(bus.log, bus.cursor, bus.pending.Keys, bus'.cursor, bus'.pending.Keys, rows')
  {
    CalmInvalid(bus.dlq, messages, faults);
    CalmHands(bus.log, messages, ids, faults, rows, now, second,
              bus.cursor, bus.pending.Keys, taken.cursor, taken.pending.Keys);
  }

  /** Read, then handle what came. */
  method ReadRound(stream: EventStream, db: IngestionDB, second: Option<Engine>, w: nat, count: nat, now: nat -> int,
                   fault: Fault, faults: nat -> Faults)
    returns (escaped: bool, got: bool, ghost acts: seq<Action>)
    requires Tidy(stream.Value())
    modifies stream, db
    ensures Leads(second, w, View(old(stream.Value()), old(db.Value()), IDLE), acts,
                  View(stream.Value(), db.Value(), IDLE))
    ensures stream.log == old(stream.log)
    ensures !escaped ==> stream.pending.Keys <= old(stream.pending.Keys) && stream.cursor >= old(stream.cursor)
    ensures !escaped && got ==> stream.cursor > old(stream.cursor)
    ensures !escaped && !got && count >= 1 ==> stream.cursor == |stream.log|
    ensures fault.Fine? && Calm(faults) ==>
      && !escaped && OnlyInvalid(old(stream.dlq), stream.dlq)
      && Handed(stream.log, old(stream.cursor), old(stream.pending.Keys), stream.cursor, stream.pending.Keys, db.rows)
  {
    ghost var v := View(stream.Value(), db.Value(), IDLE);
    ghost var ids;
    var messages;
    messages, ids, acts := TakeNew(stream, db.Value(), second, w, count, fault);
    got, escaped := messages != [], !fault.Fine?;
    if !escaped {
      ghost var v1 := View(stream.Value(), db.Value(), Take(ids));
      ghost var more: seq<Action>;
      ghost var reached;
      escaped, reached, more := Handle(stream, db, second, w, now, messages, faults, ids);
      LeadsOn(second, w, v, acts, v1, more, View(stream.Value(), db.Value(), IDLE));
      acts := acts + more;
      AckedAll(v.bus.log, messages, ids, faults, reached, escaped);
      if Calm(faults) {
        assert messages[..|messages|] == messages;
        RoundHands(v.bus, v1.bus, v.table.rows, messages, ids, faults, now, second, stream.Value(), db.rows);
      }
    }
  }

  /** Without an escape every message of the list is acknowledged. */
  lemma AckedAll(log: seq<Entry>, messages: seq<Message>, ids: seq<nat>, faults: nat -> Faults,
                 reached: nat, escaped: bool)
    requires Matches(log, messages, ids) && reached <= |messages| && (!escaped ==> reached == |messages|)
    requires forall k: nat | k < reached && Escapes(messages[k].1, faults(k)) :: escaped && k == reached - 1
    ensures !escaped ==> forall id :: id in AckedIds(messages[..reached], faults) <==> id in ids
  {
    if !escaped {
      assert messages[..reached] == messages;
      AckedUnlessEscaped(messages, faults);
    }
  }

  /** Claim what is stale, then handle it. */
  method ReclaimRound(stream: EventStream, db: IngestionDB, second: Option<Engine>, w: nat, count: nat,
                      idle: nat -> bool, now: nat -> int, fault: Fault, faults: nat -> Faults)
    returns (escaped: bool, ghost acts: seq<Action>)
    requires Tidy(stream.Value())
    modifies stream, db
    ensures Leads(second, w, View(old(stream.Value()), old(db.Value()), IDLE), acts,
                  View(stream.Value(), db.Value(), IDLE))
    ensures stream.log == old(stream.log)
    ensures !escaped ==> stream.pending.Keys <= old(stream.pending.Keys) && stream.cursor == old(stream.cursor)
    ensures !escaped && count >= 1 && AllIdle(idle) && old(stream.pending.Keys) != {} ==>
      stream.pending.Keys < old(stream.pending.Keys)
    ensures fault.Fine? && Calm(faults) ==>
      && !escaped && OnlyInvalid(old(stream.dlq), stream.dlq)
      && Handed(stream.log, old(stream.cursor), old(stream.pending.Keys), stream.cursor, stream.pending.Keys, db.rows)
  {
    ghost var v := View(stream.Value(), db.Value(), IDLE);
    ghost var ids;
    var messages;
    messages, ids, acts := TakeStale(stream, db.Value(), second, w, count, idle, fault);
    escaped := !fault.Fine?;
    if !escaped {
      ghost var v1 := View(stream.Value(), db.Value(), Take(ids));
      ghost var more: seq<Action>;
      ghost var reached;
      escaped, reached, more := Handle(stream, db, second, w, now, messages, faults, ids);
      LeadsOn(second, w, v, acts, v1, more, View(stream.Value(), db.Value(), IDLE));
      acts := acts + more;
      AckedAll(v.bus.log, messages, ids, faults, reached, escaped);
      if ids != [] { assert ids[0] in ids; }
      if Calm(faults) {
        assert messages[..|messages|] == messages;
        RoundHands(v.bus, v1.bus, v.table.rows, messages, ids, faults, now, second, stream.Value(), db.rows);
      }
    }
  }

  /** What a worker still has to settle. */
  function Unsettled(bus: Stream): int { |bus.log| - bus.cursor + |bus.pending.Keys| }

  lemma LeftShrinks(bus: Stream, bus': Stream)
    requires bus'.log == bus.log && bus.cursor <= bus'.cursor <= |bus.log| && bus'.pending.Keys <= bus.pending.Keys
    ensures Unsettled(bus') <= Unsettled(bus)
    ensures bus.cursor < bus'.cursor || bus'.pending.Keys < bus.pending.Keys ==> Unsettled(bus') < Unsettled(bus)
  {
    SubsetSize(bus'.pending.Keys, bus.pending.Keys);
  }

  /** What n turns of a worker achieve. If no exception escaped and everything pending was
      stale (keen), they settled at least n entries, or all. If no await raised (calm),
      no exception escaped, only invalid messages were parked, and every valid entry
      that is no longer unsettled has its row. */
  ghost predicate WorkDone(n: nat, keen: bool, calm: bool, escaped: bool, v: View, v': View) {
    && v'.bus.log == v.bus.log && v.table.rows <= v'.table.rows
    && (!escaped && keen ==> Unsettled(v'.bus) <= Unsettled(v.bus) - n || Unsettled(v'.bus) == 0)
    && (calm ==>
         && !escaped && OnlyInvalid(v.bus.dlq, v'.bus.dlq)
         && Handed(v.bus.log, v.bus.cursor, v.bus.pending.Keys, v'.bus.cursor, v'.bus.pending.Keys, v'.table.rows))
  }

  lemma WorkMore(n: nat, m: nat, keen: bool, calm: bool, escaped: bool, v: View, v1: View, v2: View)
    requires WorkDone(n, keen, calm, false, v, v1) && WorkDone(m, keen, calm, escaped, v1, v2)
    requires v2.bus.cursor <= |v2.bus.log| && v1.bus.cursor <= |v1.bus.log|
    ensures WorkDone(n + m, keen, calm, escaped, v, v2)
  {
    if calm {
      HandedOn(v.bus.log, v.bus.cursor, v.bus.pending.Keys, v1.bus.cursor, v1.bus.pending.Keys, v1.table.rows,
               v2.bus.cursor, v2.bus.pending.Keys, v2.table.rows);
    }
  }

  /** One turn of the loop: read, or reclaim when nothing came. */
  method Turn(stream: EventStream, db: IngestionDB, second: Option<Engine>, w: nat, count: nat,
              idle: nat -> bool, now: nat -> int, o: Outcomes)
    returns (escaped: bool, ghost acts: seq<Action>)
    requires SharedInv(second, stream.Value(), db.Value())
    modifies stream, db
    ensures Leads(second, w, View(old(stream.Value()), old(db.Value()), IDLE), acts,
                  View(stream.Value(), db.Value(), IDLE))
    ensures SharedInv(second, stream.Value(), db.Value())
    ensures WorkDone(1, count >= 1 && AllIdle(idle), AllFine(o), escaped,
                     View(old(stream.Value()), old(db.Value()), IDLE), View(stream.Value(), db.Value(), IDLE))
  {
    ghost var v := View(stream.Value(), db.Value(), IDLE);
    var got;
    escaped, got, acts := ReadRound(stream, db, second, w, count, now, o.read, o.reading);
    RunInv(second, w, v, acts);
    if !escaped { LeftShrinks(v.bus, stream.Value()); }
    if !escaped && !got {
      ghost var at := View(stream.Value(), db.Value(), IDLE);
      ghost var keen := count >= 1 && AllIdle(idle);
      ghost var more: seq<Action>;
      escaped, more := Reclaim(stream, db, second, w, count, idle, now, o.claim, o.claiming);
      LeadsOn(second, w, v, acts, at, more, View(stream.Value(), db.Value(), IDLE));
      acts := acts + more;
      if AllFine(o) {
        HandedOn(v.bus.log, v.bus.cursor, v.bus.pending.Keys, at.bus.cursor, at.bus.pending.Keys, at.table.rows,
                 stream.cursor, stream.pending.Keys, db.rows);
      }
    }
  }

  /** Reclaiming keeps the invariant too, and settles something if anything is pending. */
  method Reclaim(stream: EventStream, db: IngestionDB, second: Option<Engine>, w: nat, count: nat,
                 idle: nat -> bool, now: nat -> int, fault: Fault, faults: nat -> Faults)
    returns (escaped: bool, ghost acts: seq<Action>)
    requires SharedInv(second, stream.Value(), db.Value())
    modifies stream, db
    ensures Leads(second, w, View(old(stream.Value()), old(db.Value()), IDLE), acts,
                  View(stream.Value(), db.Value(), IDLE))
    ensures SharedInv(second, stream.Value(), db.Value())
    ensures WorkDone(0, count >= 1 && AllIdle(idle), fault.Fine? && Calm(faults), escaped,
                     View(old(stream.Value()), old(db.Value()), IDLE), View(stream.Value(), db.Value(), IDLE))
    ensures !escaped && count >= 1 && AllIdle(idle) && old(stream.pending) != map[] ==>
      Unsettled(stream.Value()) < old(Unsettled(stream.Value()))
    ensures !escaped ==>
      Unsettled(stream.Value()) <= old(Unsettled(stream.Value())) && stream.cursor == old(stream.cursor)
    ensures !escaped && old(stream.pending) == map[] ==> stream.pending.Keys == {}
  {
    ghost var v := View(stream.Value(), db.Value(), IDLE);
    escaped, acts := ReclaimRound(stream, db, second, w, count, idle, now, fault, faults);
    RunInv(second, w, v, acts);
    if !escaped { LeftShrinks(v.bus, stream.Value()); }
  }

  /** `run`: reclaim once, then read or reclaim until told to stop after the given
      number of rounds, or until an exception ends the process. Whatever happens,
      the shared invariant holds afterwards and nothing stored is taken back. Unless
      an exception escapes, as many rounds as there are entries undelivered or pending
      settle all of them, if the pending ones are stale. If no await raises, none
      escapes, every valid entry so settled has a row, and only invalid messages are
      parked. */
  method RunWorker(stream: EventStream, db: IngestionDB, second: Option<Engine>, w: nat, count: nat,
                   idle: nat -> nat -> bool, now: nat -> nat -> int, outcomes: nat -> Outcomes, rounds: nat)
    returns (escaped: bool, ghost acts: seq<Action>)
    requires SharedInv(second, stream.Value(), db.Value())
    modifies stream, db
    ensures Leads(second, w, View(old(stream.Value()), old(db.Value()), IDLE), acts,
                  View(stream.Value(), db.Value(), IDLE))
    ensures SharedInv(second, stream.Value(), db.Value())
    ensures Grows(old(stream.Value()), stream.Value()) && old(db.rows) <= db.rows && stream.log == old(stream.log)
    ensures var enough := rounds >= old(Unsettled(stream.Value()));
      !escaped && count >= 1 && (forall k: nat :: AllIdle(idle(k))) && enough ==>
        stream.cursor == |stream.log| && stream.pending.Keys == {}
    ensures (forall k: nat :: AllFine(outcomes(k))) ==>
      && !escaped && OnlyInvalid(old(stream.dlq), stream.dlq)
      && forall id: nat | id < |stream.log| && (id in old(stream.pending) || old(stream.cursor) <= id) ::
           id in stream.pending || stream.cursor <= id || RowIfValid(stream.log[id], db.rows)
  {
    ghost var v := View(stream.Value(), db.Value(), IDLE);
    ghost var calm, keen := forall k: nat :: AllFine(outcomes(k)), count >= 1 && forall k: nat :: AllIdle(idle(k));
    escaped, acts := RunRounds(stream, db, second, w, count, idle, now, outcomes, rounds, calm, keen);
    RunInv(second, w, v, acts);
  }

  method RunRounds(stream: EventStream, db: IngestionDB, second: Option<Engine>, w: nat, count: nat,
                   idle: nat -> nat -> bool, now: nat -> nat -> int, outcomes: nat -> Outcomes, rounds: nat,
                   ghost calm: bool, ghost keen: bool)
    returns (escaped: bool, ghost acts: seq<Action>)
    requires SharedInv(second, stream.Value(), db.Value())
    requires calm ==> forall k: nat :: AllFine(outcomes(k))
    requires keen ==> count >= 1 && forall k: nat :: AllIdle(idle(k))
    modifies stream, db
    ensures Leads(second, w, View(old(stream.Value()), old(db.Value()), IDLE), acts,
                  View(stream.Value(), db.Value(), IDLE))
    ensures SharedInv(second, stream.Value(), db.Value())
    ensures WorkDone(rounds, keen, calm, escaped,
                     View(old(stream.Value()), old(db.Value()), IDLE), View(stream.Value(), db.Value(), IDLE))
  {
    ghost var v := View(stream.Value(), db.Value(), IDLE);
    escaped, acts := Reclaim(stream, db, second, w, count, idle(0), now(0), outcomes(0).claim, outcomes(0).claiming);
    var k := 0;
    while k < rounds && !escaped
      invariant k <= rounds || escaped
      invariant Leads(second, w, v, acts, View(stream.Value(), db.Value(), IDLE))
      invariant SharedInv(second, stream.Value(), db.Value())
      invariant WorkDone(k, keen, calm, escaped, v, View(stream.Value(), db.Value(), IDLE))
    {
      ghost var at := View(stream.Value(), db.Value(), IDLE);
      ghost var more: seq<Action>;
      escaped, more := Turn(stream, db, second, w, count, idle(k + 1), now(k + 1), outcomes(k + 1));
      LeadsOn(second, w, v, acts, at, more, View(stream.Value(), db.Value(), IDLE));
      WorkMore(k, 1, keen, calm, escaped, v, at, View(stream.Value(), db.Value(), IDLE));
      acts := acts + more;
      k := k + 1;
    }
  }
}
