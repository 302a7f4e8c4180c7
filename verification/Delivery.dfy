/** The whole path of an event as one transition system: an SDK dispatcher, the
    ingestion API's publish loops, the stream, and any number of workers, under
    every interleaving. */
module Delivery {
  import opened Wrappers
  import opened Regex
  import opened Events
  import opened Bus
  import opened WorkerProtocol
  import D = Dispatching

  /** One POST /v1/ingest the API took: sent of its events are on the stream. */
  datatype Request = Request(batch: seq<Raw>, now: int, sent: nat, failed: bool)

  /** The sending side: requests in the API, the dispatcher and its open request,
      and a receipt (the event as the API read it, its stamp) for every payload counted
      as delivered. */
  datatype Front = Front(
    sdk: D.State<Payload>, open: Option<nat>, requests: seq<Request>, receipts: seq<(Raw, int)>)

  datatype Setup = Setup(sdk: D.Config, reader: Reader, second: Option<Engine>)

  datatype State = State(front: Front, bus: Stream, table: Table, workers: seq<Worker>)

  datatype Step =
    | Sdk(step: D.Step<Payload>)        // any dispatcher step but a successful send
    | Post(now: int)                    // the API admits the batch being sent
    | Publish(r: nat, fault: Fault)     // one turn of the publish loop
    | Delivered                         // the dispatcher sees the 202
    | Foreign(entry: Entry)             // any other producer
    | Work(w: nat, action: Action)      // a step of worker w

  function Init(workers: nat): State {
    State(Front(D.Init(), None, [], []), EMPTY, Table([], []), seq(workers, _ => IDLE))
  }

  function At(s: State, w: nat): View
    requires w < |s.workers|
  {
    View(s.bus, s.table, s.workers[w])
  }

  predicate Enabled(c: Setup, s: State, step: Step) {
    var f := s.front;
    match step
    case Sdk(d) => !d.SendOk? && D.Enabled(c.sdk, f.sdk, d)
    case Post(_) => f.sdk.flight.Sending? && f.open.None? && Admissible(ReceiveAll(c.reader, f.sdk.flight.batch))
    case Publish(r, _) =>
      && r < |f.requests| && !f.requests[r].failed
      && f.requests[r].sent < |f.requests[r].batch|
      && Validate(f.requests[r].batch[f.requests[r].sent]).Some?
    case Delivered =>
      && f.sdk.flight.Sending? && f.open.Some? && f.open.value < |f.requests|
      && !f.requests[f.open.value].failed
      && f.requests[f.open.value].sent == |f.requests[f.open.value].batch|
    case Foreign(_) => true
    case Work(w, a) => w < |s.workers| && Can(At(s, w), a)
  }

  function Apply(c: Setup, s: State, step: Step): State
    requires Enabled(c, s, step)
  {
    var f := s.front;
    match step
    case Sdk(d) =>
      // Giving up on a send, or being cancelled, forgets its request; the API does not.
      var open := if d.SendFail? || d.Timeout? then None else f.open;
      s.(front := f.(sdk := D.Apply(c.sdk, f.sdk, d), open := open))
    case Post(now) =>
      s.(front := f.(open := Some(|f.requests|),
                     requests := f.requests + [Request(ReceiveAll(c.reader, f.sdk.flight.batch), now, 0, false)]))
    case Publish(r, fault) =>
      var q := f.requests[r];
      var q' := if fault.Fine? then q.(sent := q.sent + 1) else q.(failed := true);
      State(f.(requests := f.requests[r := q']),
            if fault.Before? then s.bus else XAdd(s.bus, Published(q.batch[q.sent], q.now)),
            s.table, s.workers)
    case Delivered =>
      var q := f.requests[f.open.value];
      s.(front := f.(sdk := D.Apply(c.sdk, f.sdk, D.SendOk), open := None,
                     receipts := f.receipts + Receipts(q.batch, q.now)))
    case Foreign(entry) => s.(bus := XAdd(s.bus, entry))
    case Work(w, a) =>
      var v := Act(c.second, w, At(s, w), a);
      s.(bus := v.bus, table := v.table, workers := s.workers[w := v.me])
  }

  function Receipts(batch: seq<Raw>, now: int): (r: seq<(Raw, int)>)
    ensures |r| == |batch| && forall k | 0 <= k < |batch| :: r[k] == (batch[k], now)
  {
    if batch == [] then [] else Receipts(batch[..|batch| - 1], now) + [(batch[|batch| - 1], now)]
  }

  predicate Legal(c: Setup, s: State, steps: seq<Step>)
    decreases |steps|
  {
    steps == [] || (Enabled(c, s, steps[0]) && Legal(c, Apply(c, s, steps[0]), steps[1..]))
  }

  function Exec(c: Setup, s: State, steps: seq<Step>): State
    requires Legal(c, s, steps)
    decreases |steps|
  {
    if steps == [] then s else Exec(c, Apply(c, s, steps[0]), steps[1..])
  }

  // ---- the sending side ----------------------------------------------------------------

  /** The published part of a request is on the stream, with its stamp. */
  predicate OnStream(log: seq<Entry>, q: Request) {
    && Admissible(q.batch) && q.sent <= |q.batch|
    && forall k | 0 <= k < q.sent :: Published(q.batch[k], q.now) in log
  }

  predicate ReceiptGood(log: seq<Entry>, r: (Raw, int)) {
    Validate(r.0).Some? && Published(r.0, r.1) in log
  }

  predicate RequestsInv(log: seq<Entry>, f: Front) {
    forall r | 0 <= r < |f.requests| :: OnStream(log, f.requests[r])
  }

  predicate OpenInv(r: Reader, f: Front) {
    f.open.Some? ==>
      && f.sdk.flight.Sending? && f.open.value < |f.requests|
      && f.requests[f.open.value].batch == ReceiveAll(r, f.sdk.flight.batch)
  }

  /** Receipts are exactly the payloads counted as delivered, in order. */
  predicate ReceiptsInv(reader: Reader, log: seq<Entry>, f: Front) {
    && |f.receipts| == |f.sdk.ledger.delivered| == f.sdk.delivered
    && (forall k | 0 <= k < |f.receipts| :: f.receipts[k].0 == Receive(reader, f.sdk.ledger.delivered[k]))
    && (forall k | 0 <= k < |f.receipts| :: ReceiptGood(log, f.receipts[k]))
  }

  predicate FrontInv(r: Reader, log: seq<Entry>, f: Front) {
    RequestsInv(log, f) && OpenInv(r, f) && ReceiptsInv(r, log, f)
  }

  lemma FrontGrows(r: Reader, log: seq<Entry>, log': seq<Entry>, f: Front)
    requires FrontInv(r, log, f) && log <= log'
    ensures FrontInv(r, log', f)
  {
    assert forall e | e in log :: e in log';
    forall q | 0 <= q < |f.requests| ensures OnStream(log', f.requests[q]) {
      assert OnStream(log, f.requests[q]);
    }
    forall k | 0 <= k < |f.receipts| ensures ReceiptGood(log', f.receipts[k]) {
      assert ReceiptGood(log, f.receipts[k]);
    }
  }

  lemma SdkKeeps(c: Setup, s: State, step: Step)
    requires (step.Sdk? || step.Post?) && Enabled(c, s, step) && FrontInv(c.reader, s.bus.log, s.front)
    ensures FrontInv(c.reader, s.bus.log, Apply(c, s, step).front)
  {
    var f := s.front;
    match step
    case Post(now) =>
      var f' := Apply(c, s, step).front;
      forall r | 0 <= r < |f'.requests| ensures OnStream(s.bus.log, f'.requests[r]) {
        if r < |f.requests| { assert OnStream(s.bus.log, f.requests[r]); }
      }
    case _ =>
  }

  lemma PublishKeeps(c: Setup, s: State, step: Step)
    requires step.Publish? && Enabled(c, s, step) && FrontInv(c.reader, s.bus.log, s.front)
    ensures FrontInv(c.reader, Apply(c, s, step).bus.log, Apply(c, s, step).front)
  {
    var s' := Apply(c, s, step);
    assert s.bus.log <= s'.bus.log;
    FrontGrows(c.reader, s.bus.log, s'.bus.log, s.front);
    var q := s.front.requests[step.r];
    assert OnStream(s'.bus.log, q);
    if !step.fault.Before? { assert s'.bus.log[|s.bus.log|] == Published(q.batch[q.sent], q.now); }
    forall r | 0 <= r < |s'.front.requests| ensures OnStream(s'.bus.log, s'.front.requests[r]) {
      assert OnStream(s'.bus.log, s.front.requests[r]);
    }
  }

  lemma DeliveredKeeps(c: Setup, s: State)
    requires Enabled(c, s, Delivered) && FrontInv(c.reader, s.bus.log, s.front)
    ensures FrontInv(c.reader, s.bus.log, Apply(c, s, Delivered).front)
  {
    var f := s.front;
    var f' := Apply(c, s, Delivered).front;
    var q := f.requests[f.open.value];
    assert OnStream(s.bus.log, q);
    forall k | 0 <= k < |f'.receipts|
      ensures f'.receipts[k].0 == Receive(c.reader, f'.sdk.ledger.delivered[k])
      ensures ReceiptGood(s.bus.log, f'.receipts[k])
    {
      if k < |f.receipts| {
        assert ReceiptGood(s.bus.log, f.receipts[k]);
      } else {
        assert f'.receipts[k] == (q.batch[k - |f.receipts|], q.now);
      }
    }
  }

  // ---- the invariant of the whole system ----------------------------------------------

  ghost predicate WorkersInv(bus: Stream, table: Table, workers: seq<Worker>) {
    forall w | 0 <= w < |workers| :: LocalInv(bus, table, workers[w])
  }

  ghost predicate Inv(c: Setup, s: State) {
    && SharedInv(c.second, s.bus, s.table)
    && WorkersInv(s.bus, s.table, s.workers)
    && FrontInv(c.reader, s.bus.log, s.front)
    && D.Inv(c.sdk, s.front.sdk)
  }

  lemma InitInv(c: Setup, n: nat)
    ensures Inv(c, Init(n))
  {
  }

  lemma WorkersStable(bus: Stream, table: Table, bus': Stream, table': Table, workers: seq<Worker>)
    requires WorkersInv(bus, table, workers)
    requires Grows(bus, bus') && bus'.cursor <= |bus'.log| && table.rows <= table'.rows
    ensures WorkersInv(bus', table', workers)
  {
    forall w | 0 <= w < |workers| ensures LocalInv(bus', table', workers[w]) {
      assert LocalInv(bus, table, workers[w]);
      LocalStable(bus, table, bus', table', workers[w]);
    }
  }

  lemma AppendKeeps(second: Option<Engine>, bus: Stream, table: Table, workers: seq<Worker>, e: Entry)
    requires SharedInv(second, bus, table) && WorkersInv(bus, table, workers)
    ensures SharedInv(second, XAdd(bus, e), table) && WorkersInv(XAdd(bus, e), table, workers)
  {
    AccountedStable(bus, table, XAdd(bus, e), table);
    TableStable(second, bus, XAdd(bus, e), table);
    WorkersStable(bus, table, XAdd(bus, e), table, workers);
  }

  lemma WorkKeeps(c: Setup, s: State, step: Step)
    requires step.Work? && Enabled(c, s, step) && Inv(c, s)
    ensures Inv(c, Apply(c, s, step))
  {
    var v := At(s, step.w);
    var v' := Act(c.second, step.w, v, step.action);
    assert LocalInv(s.bus, s.table, s.workers[step.w]);
    ActKeeps(c.second, step.w, v, step.action);
    ActGrows(c.second, step.w, v, step.action);
    WorkersStable(s.bus, s.table, v'.bus, v'.table, s.workers);
  }

  lemma StepKeeps(c: Setup, s: State, step: Step)
    requires Enabled(c, s, step) && Inv(c, s)
    ensures Inv(c, Apply(c, s, step))
  {
    match step
    case Sdk(d) =>
      SdkKeeps(c, s, step);
      D.InvStep(c.sdk, s.front.sdk, d);
    case Post(_) => SdkKeeps(c, s, step);
    case Publish(r, fault) =>
      PublishKeeps(c, s, step);
      var q := s.front.requests[r];
      AppendKeeps(c.second, s.bus, s.table, s.workers, Published(q.batch[q.sent], q.now));
    case Delivered =>
      DeliveredKeeps(c, s);
      D.InvStep(c.sdk, s.front.sdk, D.SendOk);
    case Foreign(e) =>
      AppendKeeps(c.second, s.bus, s.table, s.workers, e);
      FrontGrows(c.reader, s.bus.log, s.bus.log + [e], s.front);
    case Work(_, _) => WorkKeeps(c, s, step);
  }

  lemma {:induction false} RunKeeps(c: Setup, s: State, steps: seq<Step>)
    requires Inv(c, s) && Legal(c, s, steps)
    ensures Inv(c, Exec(c, s, steps))
    decreases |steps|
  {
    if steps != [] {
      StepKeeps(c, s, steps[0]);
      RunKeeps(c, Apply(c, s, steps[0]), steps[1..]);
    }
  }

  // ---- nothing is lost -------------------------------------------------------------------

  /** Every entry is still beyond the cursor, or pending, or accounted for. */
  predicate EntrySafe(s: State, id: nat)
    requires id < |s.bus.log|
  {
    id >= s.bus.cursor || id in s.bus.pending
    || (id in s.bus.acked && (Stored(s.bus, s.table, id) || InDlq(s.bus, id)))
  }

  /** In every reachable state no entry is lost, and the stream's length is the
      sum of what is undelivered, pending and acknowledged. */
  lemma NothingLost(c: Setup, n: nat, steps: seq<Step>)
    requires Legal(c, Init(n), steps)
    ensures var s := Exec(c, Init(n), steps);
      && (forall id: nat | id < |s.bus.log| :: EntrySafe(s, id))
      && Depth(s.bus) == Undelivered(s.bus) + |s.bus.pending| + |s.bus.acked|
  {
    InitInv(c, n);
    RunKeeps(c, Init(n), steps);
    DepthSplits(Exec(c, Init(n), steps).bus);
  }

  // ---- exactly once -----------------------------------------------------------------------

  predicate Settled(s: State) { s.bus.cursor == |s.bus.log| && s.bus.pending == map[] }

  function RowsFor(rows: seq<Row>, id: string): nat {
    if rows == [] then 0
    else RowsFor(rows[..|rows| - 1], id) + (if rows[|rows| - 1].requestId == id then 1 else 0)
  }

  lemma {:induction false} RowsForUnique(rows: seq<Row>, id: string)
    requires UniqueIds(rows)
    ensures RowsFor(rows, id) == if HasRow(rows, id) then 1 else 0
  {
    if rows != [] {
      var n := |rows| - 1;
      RowsForUnique(rows[..n], id);
      HasRowAppend(rows[..n], rows[n]);
      assert rows == rows[..n] + [rows[n]];
    }
  }

  /** Over every run each request_id has at most one row; once nothing is
      undelivered or pending, every event counted as delivered has exactly one
      row, or its stamped payload is in the dead-letter stream. */
  lemma ExactlyOnce(c: Setup, n: nat, steps: seq<Step>)
    requires Legal(c, Init(n), steps)
    ensures var s := Exec(c, Init(n), steps);
      && (forall id :: RowsFor(s.table.rows, id) <= 1)
      && |s.front.receipts| == |s.front.sdk.ledger.delivered| == s.front.sdk.delivered
      && (Settled(s) ==>
           forall k | 0 <= k < |s.front.receipts| ::
             var (raw, now) := s.front.receipts[k];
             && raw == Receive(c.reader, s.front.sdk.ledger.delivered[k]) && Validate(raw).Some?
             && (RowsFor(s.table.rows, raw.event.requestId) == 1
                 || Parked(Stamp(raw.event, now), Processing) in s.bus.dlq))
  {
    InitInv(c, n);
    RunKeeps(c, Init(n), steps);
    var s := Exec(c, Init(n), steps);
    FirstWritesMeaning(s.table.offers);
    forall id ensures RowsFor(s.table.rows, id) == if HasRow(s.table.rows, id) then 1 else 0 {
      RowsForUnique(s.table.rows, id);
    }
    if Settled(s) {
      forall k | 0 <= k < |s.front.receipts|
        ensures var (raw, now) := s.front.receipts[k];
          && raw == Receive(c.reader, s.front.sdk.ledger.delivered[k]) && Validate(raw).Some?
          && (HasRow(s.table.rows, raw.event.requestId) || Parked(Stamp(raw.event, now), Processing) in s.bus.dlq)
      {
        DeliveredIsSettled(c, s, k);
      }
    }
  }

  lemma DeliveredIsSettled(c: Setup, s: State, k: nat)
    requires Inv(c, s) && Settled(s) && k < |s.front.receipts|
    ensures var (raw, now) := s.front.receipts[k];
      && raw == Receive(c.reader, s.front.sdk.ledger.delivered[k]) && Validate(raw).Some?
      && (HasRow(s.table.rows, raw.event.requestId) || Parked(Stamp(raw.event, now), Processing) in s.bus.dlq)
  {
    var (raw, now) := s.front.receipts[k];
    assert ReceiptGood(s.bus.log, s.front.receipts[k]);
    var id :| 0 <= id < |s.bus.log| && s.bus.log[id] == Published(raw, now);
    PublishedIsValid(raw, now, 0, c.second);
    assert id in s.bus.pending || id in s.bus.acked;
    assert Decode(s.bus.log[id]) == Stamp(raw.event, now);
    if !Stored(s.bus, s.table, id) {
      assert InDlq(s.bus, id);
      assert Parked(Stamp(raw.event, now), Invalid) !in s.bus.dlq;
    }
  }

  // ---- first write wins ----------------------------------------------------------------------

  lemma StepGrows(c: Setup, s: State, step: Step)
    requires Enabled(c, s, step)
    ensures Grows(s.bus, Apply(c, s, step).bus)
    ensures s.table.rows <= Apply(c, s, step).table.rows && s.table.offers <= Apply(c, s, step).table.offers
    ensures s.front.receipts <= Apply(c, s, step).front.receipts
  {
    if step.Work? { ActGrows(c.second, step.w, At(s, step.w), step.action); }
  }

  /** Rows, dead letters, entries and acknowledgements are never taken back. */
  lemma {:induction false} RunGrows(c: Setup, s: State, steps: seq<Step>)
    requires Legal(c, s, steps)
    ensures Grows(s.bus, Exec(c, s, steps).bus)
    ensures s.table.rows <= Exec(c, s, steps).table.rows && s.table.offers <= Exec(c, s, steps).table.offers
    decreases |steps|
  {
    if steps != [] {
      StepGrows(c, s, steps[0]);
      RunGrows(c, Apply(c, s, steps[0]), steps[1..]);
    }
  }

  /** The table holds, for each request_id, the row of the first committed insert
      with that id, and each row is `process_event` of a valid entry. */
  lemma FirstWriteWins(c: Setup, n: nat, steps: seq<Step>)
    requires Legal(c, Init(n), steps)
    ensures var s := Exec(c, Init(n), steps);
      && (forall row :: row in s.table.rows <==>
            exists k: nat :: FirstOffer(s.table.offers, k) && s.table.offers[k] == row)
      && (forall row | row in s.table.offers :: FromLog(c.second, s.bus, row))
  {
    InitInv(c, n);
    RunKeeps(c, Init(n), steps);
    FirstWritesMeaning(Exec(c, Init(n), steps).table.offers);
  }

  // ---- a refused batch ------------------------------------------------------------------

  /** What became of the batch in flight since the front was f0: it is still there and
      neither published nor delivered, or all of it was dropped after retries, or
      abandoned. In no case is it the batch of a request. */
  predicate Unsent(r: Reader, f0: Front, batch: seq<Payload>, f: Front) {
    && (forall q | 0 <= q < |f.requests| :: f.requests[q].batch != ReceiveAll(r, batch))
    && (|| (f.sdk.flight.Batch() == batch && |f.requests| == |f0.requests| && SameFates(f0.sdk.ledger, f.sdk.ledger))
        || f0.sdk.ledger.lost + batch <= f.sdk.ledger.lost
        || f0.sdk.ledger.abandoned + batch <= f.sdk.ledger.abandoned)
  }

  /** No payload was collected, delivered, lost or abandoned in between. */
  predicate SameFates(l: D.Ledger<Payload>, l': D.Ledger<Payload>) {
    && l'.collected == l.collected && l'.delivered == l.delivered && l'.lost == l.lost
    && l'.abandoned == l.abandoned && l'.vanished == l.vanished
  }

  lemma LedgerGrows(c: Setup, s: State, step: Step)
    requires Enabled(c, s, step)
    ensures s.front.sdk.ledger.lost <= Apply(c, s, step).front.sdk.ledger.lost
    ensures s.front.sdk.ledger.abandoned <= Apply(c, s, step).front.sdk.ledger.abandoned
  {
  }

  lemma OpenAdmissible(r: Reader, log: seq<Entry>, f: Front)
    requires FrontInv(r, log, f)
    ensures f.open.Some? ==> f.sdk.flight.Sending? && Admissible(ReceiveAll(r, f.sdk.flight.batch))
    ensures forall q | 0 <= q < |f.requests| :: Admissible(f.requests[q].batch)
  {
    forall q | 0 <= q < |f.requests| ensures Admissible(f.requests[q].batch) {
      assert OnStream(log, f.requests[q]);
    }
  }

  /** A batch the API does not admit is never posted and never seen as delivered. */
  lemma RefusedStep(c: Setup, s: State, step: Step)
    requires Inv(c, s) && Enabled(c, s, step)
    requires s.front.sdk.flight.Batch() != [] && !Admissible(ReceiveAll(c.reader, s.front.sdk.flight.Batch()))
    ensures var f, f', batch := s.front, Apply(c, s, step).front, s.front.sdk.flight.Batch();
      || (f'.sdk.flight.Batch() == batch && |f'.requests| == |f.requests| && SameFates(f.sdk.ledger, f'.sdk.ledger))
      || f.sdk.ledger.lost + batch <= f'.sdk.ledger.lost
      || f.sdk.ledger.abandoned + batch <= f'.sdk.ledger.abandoned
  {
    OpenAdmissible(c.reader, s.bus.log, s.front);
  }

  /** Once a batch with one refused event is in flight, in every continuation of the run
      none of its events is published or delivered from it: the batch stays in flight,
      or it is dropped or abandoned as a whole. */
  lemma {:induction false} RefusedBatch(c: Setup, s: State, steps: seq<Step>, f0: Front, batch: seq<Payload>)
    requires Inv(c, s) && Legal(c, s, steps)
    requires batch != [] && !Admissible(ReceiveAll(c.reader, batch)) && Unsent(c.reader, f0, batch, s.front)
    ensures Unsent(c.reader, f0, batch, Exec(c, s, steps).front)
    decreases |steps|
  {
    if steps != [] {
      var s' := Apply(c, s, steps[0]);
      StepKeeps(c, s, steps[0]);
      LedgerGrows(c, s, steps[0]);
      OpenAdmissible(c.reader, s'.bus.log, s'.front);
      if s.front.sdk.flight.Batch() == batch { RefusedStep(c, s, steps[0]); }
      RefusedBatch(c, s', steps[1..], f0, batch);
    }
  }

  lemma {:induction false} ExecSnoc(c: Setup, s: State, steps: seq<Step>, step: Step)
    requires Legal(c, s, steps) && Enabled(c, Exec(c, s, steps), step)
    ensures Legal(c, s, steps + [step]) && Exec(c, s, steps + [step]) == Apply(c, Exec(c, s, steps), step)
    decreases |steps|
  {
    if steps == [] {
      assert (steps + [step])[1..] == [];
    } else {
      ExecSnoc(c, Apply(c, s, steps[0]), steps[1..], step);
      assert (steps + [step])[1..] == steps[1..] + [step];
    }
  }

  /** A dispatcher that collects two payloads at once and can send. */
  predicate TakesTwo(c: D.Config) {
    c.batchSize >= 2 && c.maxRetries >= 1 && (c.maxQueue <= 0 || c.maxQueue >= 2)
  }

  /** The run that starts the dispatcher, submits two payloads and collects them. */
  lemma CollectTwo(c: Setup, n: nat, p: Payload, q: Payload) returns (steps: seq<Step>)
    requires TakesTwo(c.sdk)
    ensures Legal(c, Init(n), steps)
    ensures var f := Exec(c, Init(n), steps).front;
      f.sdk.flight == D.Sending([p, q], 1) && f.requests == [] && f.sdk.ledger.delivered == []
  {
    steps := [];
    ExecSnoc(c, Init(n), steps, Sdk(D.Start));
    steps := steps + [Sdk(D.Start)];
    ExecSnoc(c, Init(n), steps, Sdk(D.Submit(p)));
    steps := steps + [Sdk(D.Submit(p))];
    ExecSnoc(c, Init(n), steps, Sdk(D.Submit(q)));
    steps := steps + [Sdk(D.Submit(q))];
    var s := Exec(c, Init(n), steps);
    assert s.front.sdk.queue == [p, q] && [p, q][..2] == [p, q];
    ExecSnoc(c, Init(n), steps, Sdk(D.Collect));
    steps := steps + [Sdk(D.Collect)];
  }

  lemma OneSpoilsBoth(r: Reader, p: Payload, q: Payload)
    requires Validate(Receive(r, p)).Some? && Validate(Receive(r, q)).None?
    ensures Admissible(ReceiveAll(r, [p])) && !Admissible(ReceiveAll(r, [p, q]))
  {
    assert ReceiveAll(r, [p, q])[1] == Receive(r, q);
  }

  /** A host that tags one of two good events with a conversation id that is no UUID
      loses both: the API admits the first alone but not the batch, and whatever
      happens next, neither event is published or delivered from it. */
  lemma ForeignIdLosesBatch(c: Setup, n: nat, p: Payload, id: string, more: seq<Step>)
    returns (q: Payload, steps: seq<Step>)
    requires Validate(Receive(c.reader, p)).Some? && c.reader.uuid(id).None? && TakesTwo(c.sdk)
    ensures q == p.(cols := p.cols.(conversationId := Some(id)))
    ensures Legal(c, Init(n), steps)
    ensures var s := Exec(c, Init(n), steps);
      && s.front.sdk.flight == D.Sending([p, q], 1)
      && Admissible(ReceiveAll(c.reader, [p])) && !Admissible(ReceiveAll(c.reader, [p, q]))
      && (Legal(c, s, more) ==> Unsent(c.reader, s.front, [p, q], Exec(c, s, more).front))
  {
    q := p.(cols := p.cols.(conversationId := Some(id)));
    steps := CollectTwo(c, n, p, q);
    var s := Exec(c, Init(n), steps);
    OneSpoilsBoth(c.reader, p, q);
    InitInv(c, n);
    RunKeeps(c, Init(n), steps);
    if Legal(c, s, more) { RefusedBatch(c, s, more, s.front, [p, q]); }
  }

  /** In particular the id "conv-xyz", on payloads the SDK does send. */
  lemma ConvXyzLosesBatch(c: Setup, e: Engine, n: nat, good: string, more: seq<Step>)
    returns (p: Payload, q: Payload, steps: seq<Step>)
    requires c.reader.uuid(good).Some? && c.reader.uuid("conv-xyz").None? && TakesTwo(c.sdk)
    ensures FromSdk(e, p.cols) && FromSdk(e, q.cols) && q.cols.conversationId == Some("conv-xyz")
    ensures Legal(c, Init(n), steps)
    ensures var s := Exec(c, Init(n), steps);
      && s.front.sdk.flight == D.Sending([p, q], 1)
      && Admissible(ReceiveAll(c.reader, [p])) && !Admissible(ReceiveAll(c.reader, [p, q]))
      && (Legal(c, s, more) ==> Unsent(c.reader, s.front, [p, q], Exec(c, s, more).front))
  {
    p := SomeSdkPayload(e, c.reader, good);
    RetaggedFromSdk(e, p.cols, Some("conv-xyz"));
    q, steps := ForeignIdLosesBatch(c, n, p, "conv-xyz", more);
  }
}
