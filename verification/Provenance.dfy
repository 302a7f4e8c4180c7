/** Where the rows come from: every row carries what some host submitted, or what
    another producer wrote to the stream. */
module Provenance {
  import opened Wrappers
  import opened Regex
  import opened Events
  import opened Bus
  import opened WorkerProtocol
  import opened Delivery
  import D = Dispatching

  /** The entry is the published form of the payload, under some stamp. */
  predicate PublishedFrom(r: Reader, p: Payload, now: int, entry: Entry) {
    Validate(Receive(r, p)).Some? && entry == Published(Receive(r, p), now)
  }

  ghost predicate FromPayload(r: Reader, ps: seq<Payload>, entry: Entry) {
    exists k: nat, now: int :: k < |ps| && PublishedFrom(r, ps[k], now, entry)
  }

  ghost predicate ReadFrom(r: Reader, ps: seq<Payload>, raw: Raw) {
    exists k: nat :: k < |ps| && raw == Receive(r, ps[k])
  }

  /** The entries other producers wrote. */
  function Written(steps: seq<Step>): seq<Entry> {
    if steps == [] then []
    else Written(steps[..|steps| - 1]) + (if steps[|steps| - 1].Foreign? then [steps[|steps| - 1].entry] else [])
  }

  ghost predicate Sourced(r: Reader, others: seq<Entry>, s: State) {
    var ps := s.front.sdk.ledger.collected;
    && (forall p | p in s.front.sdk.flight.Batch() :: p in ps)
    && (forall q, raw | q in s.front.requests && raw in q.batch :: ReadFrom(r, ps, raw))
    && (forall entry | entry in s.bus.log :: entry in others || FromPayload(r, ps, entry))
  }

  lemma StillFrom(r: Reader, ps: seq<Payload>, more: seq<Payload>)
    requires ps <= more
    ensures forall raw :: ReadFrom(r, ps, raw) ==> ReadFrom(r, more, raw)
    ensures forall entry :: FromPayload(r, ps, entry) ==> FromPayload(r, more, entry)
    ensures forall p | p in ps :: p in more
  {
    forall raw | ReadFrom(r, ps, raw) ensures ReadFrom(r, more, raw) {
      var k: nat :| k < |ps| && raw == Receive(r, ps[k]);
      assert more[k] == ps[k];
    }
    forall entry | FromPayload(r, ps, entry) ensures FromPayload(r, more, entry) {
      var k: nat, now: int :| k < |ps| && PublishedFrom(r, ps[k], now, entry);
      assert more[k] == ps[k];
    }
    forall p | p in ps ensures p in more {
      var k :| 0 <= k < |ps| && ps[k] == p;
      assert more[k] == p;
    }
  }

  lemma BatchCollected(c: D.Config, s: D.State<Payload>, step: D.Step<Payload>)
    requires D.Enabled(c, s, step) && forall p | p in s.flight.Batch() :: p in s.ledger.collected
    ensures s.ledger.collected <= D.Apply(c, s, step).ledger.collected
    ensures forall p | p in D.Apply(c, s, step).flight.Batch() :: p in D.Apply(c, s, step).ledger.collected
  {
  }

  lemma ReadBatch(r: Reader, ps: seq<Payload>, batch: seq<Payload>)
    requires forall p | p in batch :: p in ps
    ensures forall raw | raw in ReceiveAll(r, batch) :: ReadFrom(r, ps, raw)
  {
    forall raw | raw in ReceiveAll(r, batch) ensures ReadFrom(r, ps, raw) {
      var j :| 0 <= j < |batch| && raw == Receive(r, batch[j]);
      assert batch[j] in batch;
      var k :| 0 <= k < |ps| && ps[k] == batch[j];
    }
  }

  /** The requests after a step: old ones, with their batches, or the batch in flight. */
  lemma RequestsAfter(c: Setup, s: State, step: Step, q: Request)
    requires Enabled(c, s, step) && q in Apply(c, s, step).front.requests
    ensures (exists q0 :: q0 in s.front.requests && q0.batch == q.batch)
      || (step.Post? && q.batch == ReceiveAll(c.reader, s.front.sdk.flight.batch))
  {
    var rs := s.front.requests;
    match step
    case Publish(r, _) => assert rs[r] in rs;
    case _ => assert q in rs ==> q.batch == q.batch;
  }

  lemma SourcedStep(c: Setup, others: seq<Entry>, s: State, step: Step)
    requires Enabled(c, s, step) && Sourced(c.reader, others, s)
    ensures Sourced(c.reader, if step.Foreign? then others + [step.entry] else others, Apply(c, s, step))
  {
    var s' := Apply(c, s, step);
    var ps, ps' := s.front.sdk.ledger.collected, s'.front.sdk.ledger.collected;
    match step {
      case Sdk(d) => BatchCollected(c.sdk, s.front.sdk, d);
      case Delivered => BatchCollected(c.sdk, s.front.sdk, D.SendOk);
      case _ =>
    }
    StillFrom(c.reader, ps, ps');
    if step.Post? { ReadBatch(c.reader, ps, s.front.sdk.flight.batch); }
    forall q, raw | q in s'.front.requests && raw in q.batch ensures ReadFrom(c.reader, ps', raw) {
      RequestsAfter(c, s, step, q);
    }
    EntriesAfter(c, others, s, step);
  }

  lemma EntriesAfter(c: Setup, others: seq<Entry>, s: State, step: Step)
    requires Enabled(c, s, step) && Sourced(c.reader, others, s)
    ensures forall entry | entry in Apply(c, s, step).bus.log ::
      entry in others || (step.Foreign? && entry == step.entry)
      || FromPayload(c.reader, s.front.sdk.ledger.collected, entry)
  {
    if step.Publish? {
      var q := s.front.requests[step.r];
      assert q in s.front.requests && q.batch[q.sent] in q.batch;
      var ps := s.front.sdk.ledger.collected;
      assert ReadFrom(c.reader, ps, q.batch[q.sent]);
      var k: nat :| k < |ps| && q.batch[q.sent] == Receive(c.reader, ps[k]);
      assert PublishedFrom(c.reader, ps[k], q.now, Published(q.batch[q.sent], q.now));
    }
  }

  lemma {:induction false} SourcedRun(c: Setup, n: nat, steps: seq<Step>)
    requires Legal(c, Init(n), steps)
    ensures Sourced(c.reader, Written(steps), Exec(c, Init(n), steps))
  {
    if steps != [] {
      var m := |steps| - 1;
      LegalInit(c, Init(n), steps);
      SourcedRun(c, n, steps[..m]);
      SourcedStep(c, Written(steps[..m]), Exec(c, Init(n), steps[..m]), steps[m]);
      assert Written(steps[..m]) + [] == Written(steps[..m]);
    }
  }

  lemma {:induction false} LegalInit(c: Setup, s: State, steps: seq<Step>)
    requires steps != [] && Legal(c, s, steps)
    ensures Legal(c, s, steps[..|steps| - 1])
    ensures Enabled(c, Exec(c, s, steps[..|steps| - 1]), steps[|steps| - 1])
    ensures Exec(c, s, steps) == Apply(c, Exec(c, s, steps[..|steps| - 1]), steps[|steps| - 1])
    decreases |steps|
  {
    var init := steps[..|steps| - 1];
    if |steps| > 1 {
      LegalInit(c, Apply(c, s, steps[0]), steps[1..]);
      assert init[1..] == steps[1..][..|steps| - 2];
    } else {
      assert init == [] && steps[1..] == [];
    }
  }

  // ---- rows ---------------------------------------------------------------------------------

  /** The row carries the payload: canonical ids, the counts as read, and every column
      that no enrichment touches as it was sent. */
  predicate RowCarries(r: Reader, p: Payload, row: Row) {
    var c, d := p.cols, row.cols;
    && r.uuid(p.requestId) == Some(row.requestId)
    && (if c.conversationId.None? then d.conversationId.None?
        else d.conversationId.Some? && r.uuid(c.conversationId.value) == d.conversationId)
    && c.service == d.service && c.provider == d.provider && c.model == d.model
    && c.status == d.status && c.streamed == d.streamed
    && c.startedAt == d.startedAt && c.completedAt == d.completedAt
    && c.latencyMs == d.latencyMs && c.ttftMs == d.ttftMs && c.errorType == d.errorType
    && ReadAs(r, c.promptTokens, d.promptTokens) && ReadAs(r, c.completionTokens, d.completionTokens)
    && (!c.totalTokens.Null? ==> ReadAs(r, c.totalTokens, d.totalTokens))
    && c.sdkVersion == d.sdkVersion && c.schemaVersion == d.schemaVersion
  }

  /** Another producer's entry makes the row. */
  ghost predicate WrittenByOthers(second: Option<Engine>, others: seq<Entry>, row: Row) {
    exists entry :: entry in others && MakesRow(second, entry, row)
  }

  /** A collected payload is carried by the row. */
  ghost predicate Submitted(r: Reader, ps: seq<Payload>, row: Row) {
    exists k: nat :: k < |ps| && RowCarries(r, ps[k], row)
  }

  /** No other payload has its request id. */
  ghost predicate OnlyOne(r: Reader, ps: seq<Payload>, p: Payload) {
    forall q | q in ps && r.uuid(q.requestId) == r.uuid(p.requestId) :: q == p
  }

  lemma EntryRow(c: Setup, p: Payload, now: int, entry: Entry, row: Row)
    requires PublishedFrom(c.reader, p, now, entry) && MakesRow(c.second, entry, row)
    ensures RowCarries(c.reader, p, row)
  {
    ReceiveMeaning(c.reader, p);
    RowCarriesEvent(Receive(c.reader, p).event.cols, c.second);
  }

  /** In every reachable state every row of the table carries a payload some host submitted
      and the dispatcher collected, or comes from another producer's entry. */
  lemma RowsCarryPayloads(c: Setup, n: nat, steps: seq<Step>)
    requires Legal(c, Init(n), steps)
    ensures var s := Exec(c, Init(n), steps);
      && s.front.sdk.ledger.collected <= s.front.sdk.ledger.accepted
      && forall row | row in s.table.rows ::
           WrittenByOthers(c.second, Written(steps), row) || Submitted(c.reader, s.front.sdk.ledger.collected, row)
  {
    var s := Exec(c, Init(n), steps);
    InitInv(c, n);
    RunKeeps(c, Init(n), steps);
    SourcedRun(c, n, steps);
    FirstWritesMeaning(s.table.offers);
    forall row | row in s.table.rows
      ensures WrittenByOthers(c.second, Written(steps), row) || Submitted(c.reader, s.front.sdk.ledger.collected, row)
    {
      RowOrigin(c, s, Written(steps), row);
    }
  }

  lemma RowOrigin(c: Setup, s: State, others: seq<Entry>, row: Row)
    requires Sourced(c.reader, others, s) && FromLog(c.second, s.bus, row)
    ensures WrittenByOthers(c.second, others, row) || Submitted(c.reader, s.front.sdk.ledger.collected, row)
  {
    var ps := s.front.sdk.ledger.collected;
    var id :| 0 <= id < |s.bus.log| && MakesRow(c.second, s.bus.log[id], row);
    var entry := s.bus.log[id];
    assert entry in s.bus.log;
    if entry !in others {
      var k: nat, now: int :| k < |ps| && PublishedFrom(c.reader, ps[k], now, entry);
      EntryRow(c, ps[k], now, entry, row);
    }
  }

  /** Once everything is settled, each delivered payload whose stamped event was not parked
      has a row under its canonical id, with a known origin; if no other payload and no
      other producer used that id, the row carries this payload. */
  lemma DeliveredRow(c: Setup, n: nat, steps: seq<Step>, k: nat) returns (row: Row)
    requires Legal(c, Init(n), steps) && Settled(Exec(c, Init(n), steps))
    requires k < |Exec(c, Init(n), steps).front.receipts|
    requires var s := Exec(c, Init(n), steps); var (raw, now) := s.front.receipts[k];
      raw.Typed? ==> Parked(Stamp(raw.event, now), Processing) !in s.bus.dlq
    ensures k < |Exec(c, Init(n), steps).front.sdk.ledger.delivered|
    ensures var s := Exec(c, Init(n), steps); var p := s.front.sdk.ledger.delivered[k];
      var ps, others := s.front.sdk.ledger.collected, Written(steps);
      && row in s.table.rows && c.reader.uuid(p.requestId) == Some(row.requestId)
      && (WrittenByOthers(c.second, others, row) || Submitted(c.reader, ps, row))
      && (!WrittenByOthers(c.second, others, row) && OnlyOne(c.reader, ps, p) ==> RowCarries(c.reader, p, row))
  {
    var s := Exec(c, Init(n), steps);
    InitInv(c, n);
    RunKeeps(c, Init(n), steps);
    DeliveredIsSettled(c, s, k);
    RowsCarryPayloads(c, n, steps);
    var p, raw := s.front.sdk.ledger.delivered[k], s.front.receipts[k].0;
    assert raw == Receive(c.reader, p);
    ReceiveMeaning(c.reader, p);
    var j :| 0 <= j < |s.table.rows| && s.table.rows[j].requestId == raw.event.requestId;
    row := s.table.rows[j];
    assert row in s.table.rows;
  }
}
