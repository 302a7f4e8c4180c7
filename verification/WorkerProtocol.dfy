/** One worker's steps over the shared stream and table. Every await may fail
    before its effect, or after it with the effect in place, and the process may
    die anywhere. */
module WorkerProtocol {
  import opened Wrappers
  import opened Regex
  import opened Events
  import opened Bus

  /** How an await ends: it returned, or it raised before or after its effect. */
  datatype Fault = Fine | Before | After

  datatype Pc =
    | Ready                     // nothing in hand: about to read or claim
    | Judging                   // model_validate on the batch's first message
    | Upserting                 // await db.upsert_log
    | AckingStored              // await stream.ack after the upsert
    | Parking(reason: Reason)   // await stream.to_dlq
    | AckingParked              // await stream.ack after to_dlq

  /** The messages a worker still has to handle, the current one first. */
  datatype Worker = Worker(batch: seq<nat>, pc: Pc)

  const IDLE: Worker := Worker([], Ready)

  function Take(ids: seq<nat>): (me: Worker)
    ensures me.batch == ids && (me.pc.Ready? <==> ids == []) && (me.pc.Ready? || me.pc.Judging?)
  {
    if ids == [] then IDLE else Worker(ids, Judging)
  }

  function Next(me: Worker): Worker
    requires me.batch != []
  {
    Take(me.batch[1..])
  }

  datatype View = View(bus: Stream, table: Table, me: Worker)

  datatype Action =
    | Read(n: nat, fault: Fault)           // xreadgroup
    | Claim(ids: seq<nat>, fault: Fault)   // xautoclaim
    | Judge
    | Upsert(now: int, fault: Fault)
    | AckStored(fault: Fault)
    | Park(fault: Fault)
    | AckParked(fault: Fault)
    | Crash

  predicate NoDuplicates(ids: seq<nat>) { forall i, j | 0 <= i < j < |ids| :: ids[i] != ids[j] }

  predicate Can(v: View, a: Action) {
    match a
    case Read(n, _) => v.me.pc.Ready? && 1 <= n && v.bus.cursor + n <= |v.bus.log|
    case Claim(ids, _) =>
      v.me.pc.Ready? && ids != [] && NoDuplicates(ids) && forall k | 0 <= k < |ids| :: ids[k] in v.bus.pending
    case Judge => v.me.pc.Judging? && Held(v)
    case Upsert(_, _) => v.me.pc.Upserting? && Held(v) && Validate(Decode(v.bus.log[v.me.batch[0]])).Some?
    case AckStored(_) => v.me.pc.AckingStored? && Held(v)
    case Park(_) => v.me.pc.Parking? && Held(v)
    case AckParked(_) => v.me.pc.AckingParked? && Held(v)
    case Crash => true
  }

  predicate Held(v: View) { v.me.batch != [] && v.me.batch[0] < |v.bus.log| }

  /** One step of worker w. An exception outside the try block escapes `_handle`
      and `run`: the process dies and restarts with nothing in hand. */
  function Act(second: Option<Engine>, w: nat, v: View, a: Action): View
    requires Can(v, a)
  {
    match a
    case Read(n, fault) =>
      if fault.Before? then v
      else View(XReadGroup(v.bus, w, n), v.table, if fault.Fine? then Take(Ids(v.bus.cursor, n)) else IDLE)
    case Claim(ids, fault) =>
      if fault.Before? then v
      else View(XAutoClaim(v.bus, w, ids), v.table, if fault.Fine? then Take(ids) else IDLE)
    case Judge =>
      v.(me := v.me.(pc := if Validate(Message(v)).Some? then Upserting else Parking(Invalid)))
    case Upsert(now, fault) =>
      var row := ProcessEvent(Validate(Message(v)).value, now, second);
      View(v.bus, if fault.Before? then v.table else Insert(v.table, row),
           v.me.(pc := if fault.Fine? then AckingStored else Parking(Processing)))
    case AckStored(fault) =>
      View(if fault.Before? then v.bus else XAck(v.bus, v.me.batch[0]), v.table,
           if fault.Fine? then Next(v.me) else v.me.(pc := Parking(Processing)))
    case Park(fault) =>
      View(if fault.Before? then v.bus else Bus.Park(v.bus, Parked(Message(v), v.me.pc.reason)), v.table,
           if fault.Fine? then v.me.(pc := AckingParked) else IDLE)
    case AckParked(fault) =>
      View(if fault.Before? then v.bus else XAck(v.bus, v.me.batch[0]), v.table,
           if fault.Fine? then Next(v.me) else IDLE)
    case Crash => v.(me := IDLE)
  }

  function Message(v: View): Raw
    requires Held(v)
  {
    Decode(v.bus.log[v.me.batch[0]])
  }

  // ---- what holds at every point ---------------------------------------------------

  /** Some row carries the entry's request_id. */
  predicate Stored(bus: Stream, table: Table, id: nat)
    requires id < |bus.log|
  {
    var e := Validate(Decode(bus.log[id]));
    e.Some? && HasRow(table.rows, e.value.requestId)
  }

  /** Some dead letter holds the entry's payload. */
  predicate InDlq(bus: Stream, id: nat)
    requires id < |bus.log|
  {
    var raw := Decode(bus.log[id]);
    Parked(raw, Invalid) in bus.dlq || Parked(raw, Processing) in bus.dlq
  }

  /** The row is what `process_event` makes of a valid entry of the log. */
  ghost predicate FromLog(second: Option<Engine>, bus: Stream, row: Row) {
    exists id :: 0 <= id < |bus.log| && MakesRow(second, bus.log[id], row)
  }

  predicate MakesRow(second: Option<Engine>, entry: Entry, row: Row) {
    var e := Validate(Decode(entry));
    e.Some? && row == ProcessEvent(e.value, row.receivedAt, second)
  }

  ghost predicate Accounted(bus: Stream, table: Table) {
    forall id: nat :: id in bus.acked ==> id < |bus.log| && (Stored(bus, table, id) || InDlq(bus, id))
  }

  ghost predicate Reasons(bus: Stream) {
    forall p :: p in bus.dlq ==> (p.reason.Invalid? <==> Validate(p.raw).None?)
  }

  ghost predicate TableInv(second: Option<Engine>, bus: Stream, table: Table) {
    table.rows == FirstWrites(table.offers) && forall row :: row in table.offers ==> FromLog(second, bus, row)
  }

  ghost predicate SharedInv(second: Option<Engine>, bus: Stream, table: Table) {
    Tidy(bus) && Accounted(bus, table) && Reasons(bus) && TableInv(second, bus, table)
  }

  ghost predicate LocalInv(bus: Stream, table: Table, me: Worker) {
    && (me.pc.Ready? <==> me.batch == [])
    && (forall id :: id in me.batch ==> id < bus.cursor)
    && bus.cursor <= |bus.log|
    && (me.batch != [] ==> AtPc(bus, table, me.pc, me.batch[0]))
  }

  predicate AtPc(bus: Stream, table: Table, pc: Pc, id: nat) {
    id < |bus.log| &&
    match pc
    case Upserting => Validate(Decode(bus.log[id])).Some?
    case AckingStored => Stored(bus, table, id)
    case Parking(reason) => reason.Invalid? <==> Validate(Decode(bus.log[id])).None?
    case AckingParked => InDlq(bus, id)
    case _ => true
  }

  /** Rows, log entries and dead letters stay, so what a worker knows about its
      message survives the others' steps. */
  lemma LocalStable(bus: Stream, table: Table, bus': Stream, table': Table, me: Worker)
    requires LocalInv(bus, table, me)
    requires Grows(bus, bus') && bus'.cursor <= |bus'.log| && table.rows <= table'.rows
    ensures LocalInv(bus', table', me)
  {
    if me.batch != [] { KnownStable(bus, table, bus', table', me.batch[0]); }
  }

  lemma KnownStable(bus: Stream, table: Table, bus': Stream, table': Table, id: nat)
    requires id < |bus.log| && Grows(bus, bus') && table.rows <= table'.rows
    ensures id < |bus'.log| && bus'.log[id] == bus.log[id]
    ensures Stored(bus, table, id) ==> Stored(bus', table', id)
    ensures InDlq(bus, id) ==> InDlq(bus', id)
  {
    assert bus'.log[..|bus.log|] == bus.log;
    if Stored(bus, table, id) {
      var rid := Validate(Decode(bus.log[id])).value.requestId;
      var k :| 0 <= k < |table.rows| && table.rows[k].requestId == rid;
      assert table'.rows[k] == table.rows[k];
    }
    assert forall p :: p in bus.dlq ==> p in bus'.dlq;
  }

  /** A longer log, more dead letters and more rows keep the shared facts that do
      not mention acknowledgements. */
  lemma AccountedStable(bus: Stream, table: Table, bus': Stream, table': Table)
    requires Accounted(bus, table) && Grows(bus, bus') && table.rows <= table'.rows
    requires bus'.acked == bus.acked
    ensures Accounted(bus', table')
  {
    forall id: nat | id in bus.acked ensures id < |bus'.log| && (Stored(bus', table', id) || InDlq(bus', id)) {
      KnownStable(bus, table, bus', table', id);
    }
  }

  lemma TableStable(second: Option<Engine>, bus: Stream, bus': Stream, table: Table)
    requires TableInv(second, bus, table) && bus.log <= bus'.log
    ensures TableInv(second, bus', table)
  {
    forall row | row in table.offers ensures FromLog(second, bus', row) {
      assert FromLog(second, bus, row);
      var id :| 0 <= id < |bus.log| && MakesRow(second, bus.log[id], row);
      assert bus'.log[id] == bus.log[id];
    }
  }

  /** What a step does to the stream: nothing is taken back. */
  lemma ActGrows(second: Option<Engine>, w: nat, v: View, a: Action)
    requires Can(v, a)
    ensures Grows(v.bus, Act(second, w, v, a).bus)
    ensures v.table.rows <= Act(second, w, v, a).table.rows
    ensures v.table.offers <= Act(second, w, v, a).table.offers
    ensures Act(second, w, v, a).bus.log == v.bus.log
  {
  }

  lemma ActTidy(second: Option<Engine>, w: nat, v: View, a: Action)
    requires Can(v, a) && Tidy(v.bus) && LocalInv(v.bus, v.table, v.me)
    ensures Tidy(Act(second, w, v, a).bus)
  {
  }

  lemma ActAccounted(second: Option<Engine>, w: nat, v: View, a: Action)
    requires Can(v, a) && Accounted(v.bus, v.table) && LocalInv(v.bus, v.table, v.me)
    ensures Accounted(Act(second, w, v, a).bus, Act(second, w, v, a).table)
  {
    var v' := Act(second, w, v, a);
    ActGrows(second, w, v, a);
    forall id: nat | id in v'.bus.acked
      ensures id < |v'.bus.log| && (Stored(v'.bus, v'.table, id) || InDlq(v'.bus, id))
    {
      if id !in v.bus.acked { assert id == v.me.batch[0]; }
      KnownStable(v.bus, v.table, v'.bus, v'.table, id);
    }
  }

  lemma ActReasons(second: Option<Engine>, w: nat, v: View, a: Action)
    requires Can(v, a) && Reasons(v.bus) && LocalInv(v.bus, v.table, v.me)
    ensures Reasons(Act(second, w, v, a).bus)
  {
  }

  lemma ActTable(second: Option<Engine>, w: nat, v: View, a: Action)
    requires Can(v, a) && TableInv(second, v.bus, v.table)
    ensures TableInv(second, Act(second, w, v, a).bus, Act(second, w, v, a).table)
  {
    ActGrows(second, w, v, a);
    TableStable(second, v.bus, Act(second, w, v, a).bus, v.table);
    if a.Upsert? && !a.fault.Before? {
      var row := ProcessEvent(Validate(Message(v)).value, a.now, second);
      assert MakesRow(second, v.bus.log[v.me.batch[0]], row);
      InsertKeepsFirst(v.table, row);
    }
  }

  lemma ActLocal(second: Option<Engine>, w: nat, v: View, a: Action)
    requires Can(v, a) && Tidy(v.bus) && LocalInv(v.bus, v.table, v.me)
    requires v.table.rows == FirstWrites(v.table.offers)
    ensures var v' := Act(second, w, v, a); LocalInv(v'.bus, v'.table, v'.me)
  {
    var v' := Act(second, w, v, a);
    ActGrows(second, w, v, a);
    ActTidy(second, w, v, a);
    if a.Upsert? && a.fault.Fine? {
      InsertKeepsFirst(v.table, ProcessEvent(Validate(Message(v)).value, a.now, second));
    }
    forall id | id in v'.me.batch ensures id < v'.bus.cursor {
      if a.Claim? && a.fault.Fine? {
        assert id in a.ids && id in v.bus.pending;
      } else if !a.Read? {
        assert id in v.me.batch;
      }
    }
    assert v'.me.batch != [] ==> v'.me.batch[0] in v'.me.batch;
  }

  /** Every step of a worker keeps all of it. */
  lemma ActKeeps(second: Option<Engine>, w: nat, v: View, a: Action)
    requires Can(v, a) && SharedInv(second, v.bus, v.table) && LocalInv(v.bus, v.table, v.me)
    ensures var v' := Act(second, w, v, a);
      SharedInv(second, v'.bus, v'.table) && LocalInv(v'.bus, v'.table, v'.me)
  {
    ActTidy(second, w, v, a);
    ActAccounted(second, w, v, a);
    ActReasons(second, w, v, a);
    ActTable(second, w, v, a);
    ActLocal(second, w, v, a);
  }
}
