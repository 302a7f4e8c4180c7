/** Redaction and delivery together: in a system fed by SDKs only, nothing at rest
    holds a match of a default pattern, in any run. */
module Privacy {
  import opened Wrappers
  import opened Regex
  import opened Redaction
  import opened Events
  import opened Bus
  import opened WorkerProtocol
  import opened Delivery
  import D = Dispatching

  /** No text of the columns holds a match. */
  ghost predicate TextsClean<N>(u: Tables, c: Cols<N>) {
    && (c.inputPreview.Some? ==> Clean(u, c.inputPreview.value))
    && (c.outputPreview.Some? ==> Clean(u, c.outputPreview.value))
    && (c.errorMessage.Some? ==> Clean(u, c.errorMessage.value))
  }

  lemma SdkTextsClean<N>(u: Tables, e: Engine, c: Cols<N>)
    requires u.Valid() && Faithful(u, e) && FromSdk(e, c)
    ensures TextsClean(u, c)
  {
    SdkTextsPass(u, e, c);
    CutTextSettled(u, e, e, SDK_PREVIEW_CHARS, c.inputPreview);
    CutTextSettled(u, e, e, SDK_PREVIEW_CHARS, c.outputPreview);
    CutTextSettled(u, e, e, SDK_ERROR_CHARS, c.errorMessage);
    IdentityIffClean(u, e, c.inputPreview);
    IdentityIffClean(u, e, c.outputPreview);
    IdentityIffClean(u, e, c.errorMessage);
  }

  // ---- where the events come from ---------------------------------------------------------

  /** If it is an event at all, an SDK made it. */
  ghost predicate SdkEvent(e: Engine, raw: Raw) { raw.Typed? ==> FromSdk(e, raw.event.cols) }

  ghost predicate SdkPayloads(e: Engine, ps: seq<Payload>) { forall p | p in ps :: FromSdk(e, p.cols) }

  ghost predicate SdkRequest(e: Engine, q: Request) { forall raw | raw in q.batch :: SdkEvent(e, raw) }

  ghost predicate SdkFront(e: Engine, f: Front) {
    && SdkPayloads(e, f.sdk.queue) && SdkPayloads(e, f.sdk.flight.Batch())
    && forall q | q in f.requests :: SdkRequest(e, q)
  }

  ghost predicate SdkStream(e: Engine, bus: Stream) {
    && (forall entry | entry in bus.log :: SdkEvent(e, Decode(entry)))
    && (forall p | p in bus.dlq :: SdkEvent(e, p.raw))
  }

  /** Only SDK payloads are submitted, and nobody else writes to the stream. */
  ghost predicate SdkStep(e: Engine, step: Step) {
    match step
    case Sdk(Submit(p)) => FromSdk(e, p.cols)
    case Foreign(_) => false
    case _ => true
  }

  lemma PartOf<T>(s: seq<T>, k: nat)
    requires k <= |s|
    ensures forall x | x in s[..k] :: x in s
    ensures forall x | x in s[k..] :: x in s
  {
  }

  lemma DispatcherStep(e: Engine, c: D.Config, s: D.State<Payload>, step: D.Step<Payload>)
    requires D.Enabled(c, s, step) && (step.Submit? ==> FromSdk(e, step.p.cols))
    requires SdkPayloads(e, s.queue) && SdkPayloads(e, s.flight.Batch())
    ensures SdkPayloads(e, D.Apply(c, s, step).queue) && SdkPayloads(e, D.Apply(c, s, step).flight.Batch())
  {
    if step.Collect? { PartOf(s.queue, D.Take(c, s)); }
  }

  lemma ReceivedFromSdk(e: Engine, r: Reader, batch: seq<Payload>)
    requires SdkPayloads(e, batch)
    ensures forall raw | raw in ReceiveAll(r, batch) :: SdkEvent(e, raw)
  {
    forall raw | raw in ReceiveAll(r, batch) ensures SdkEvent(e, raw) {
      var k :| 0 <= k < |batch| && raw == Receive(r, batch[k]);
      assert batch[k] in batch;
      if raw.Typed? { ReadKeepsTexts(e, r, batch[k]); }
    }
  }

  /** A stamp changes no text. */
  lemma StampedFromSdk(e: Engine, raw: Raw, now: int)
    requires Validate(raw).Some? && SdkEvent(e, raw)
    ensures SdkEvent(e, Decode(Published(raw, now)))
  {
  }

  lemma FrontStep(e: Engine, c: Setup, s: State, step: Step)
    requires Enabled(c, s, step) && SdkStep(e, step) && SdkFront(e, s.front)
    ensures SdkFront(e, Apply(c, s, step).front)
  {
    var f, f' := s.front, Apply(c, s, step).front;
    match step
    case Sdk(d) => DispatcherStep(e, c.sdk, f.sdk, d);
    case Post(now) =>
      ReceivedFromSdk(e, c.reader, f.sdk.flight.batch);
      forall q | q in f'.requests ensures SdkRequest(e, q) {
        assert q in f.requests || q == f'.requests[|f.requests|];
      }
    case Publish(r, _) =>
      forall q | q in f'.requests ensures SdkRequest(e, q) {
        assert q in f.requests || q == f'.requests[r];
        assert SdkRequest(e, f.requests[r]);
      }
    case Delivered => DispatcherStep(e, c.sdk, f.sdk, D.SendOk);
    case _ =>
  }

  lemma StreamStep(e: Engine, c: Setup, s: State, step: Step)
    requires Enabled(c, s, step) && SdkStep(e, step) && SdkFront(e, s.front) && SdkStream(e, s.bus)
    ensures SdkStream(e, Apply(c, s, step).bus)
  {
    var bus' := Apply(c, s, step).bus;
    match step
    case Publish(r, fault) =>
      var q := s.front.requests[r];
      assert q in s.front.requests && q.batch[q.sent] in q.batch;
      StampedFromSdk(e, q.batch[q.sent], q.now);
    case Work(w, a) =>
      assert bus'.log == s.bus.log;
      if a.Park? {
        var id := s.workers[w].batch[0];
        assert s.bus.log[id] in s.bus.log;
      }
    case _ =>
  }

  lemma {:induction false} FedRun(e: Engine, c: Setup, s: State, steps: seq<Step>)
    requires Legal(c, s, steps) && forall step | step in steps :: SdkStep(e, step)
    requires SdkFront(e, s.front) && SdkStream(e, s.bus)
    ensures SdkFront(e, Exec(c, s, steps).front) && SdkStream(e, Exec(c, s, steps).bus)
    decreases |steps|
  {
    if steps != [] {
      FrontStep(e, c, s, steps[0]);
      StreamStep(e, c, s, steps[0]);
      FedRun(e, c, Apply(c, s, steps[0]), steps[1..]);
    }
  }

  // ---- nothing at rest holds a match --------------------------------------------------------

  /** If every valid entry of the stream is an SDK event, no text of any row holds a
      match, with or without the second pass. */
  lemma TableClean(u: Tables, e: Engine, c: Setup, s: State)
    requires u.Valid() && Faithful(u, e) && (c.second.Some? ==> Faithful(u, c.second.value))
    requires Inv(c, s)
    requires forall entry | entry in s.bus.log && Validate(Decode(entry)).Some? :: SdkEvent(e, Decode(entry))
    ensures forall row | row in s.table.rows :: TextsClean(u, row.cols)
  {
    FirstWritesMeaning(s.table.offers);
    forall row | row in s.table.rows ensures TextsClean(u, row.cols) {
      assert FromLog(c.second, s.bus, row);
      var id :| 0 <= id < |s.bus.log| && MakesRow(c.second, s.bus.log[id], row);
      assert s.bus.log[id] in s.bus.log;
      DerivedClean(u, e, Decode(s.bus.log[id]).event.cols, c.second);
    }
  }

  lemma DerivedClean(u: Tables, e: Engine, c: Columns, second: Option<Engine>)
    requires u.Valid() && Faithful(u, e) && (second.Some? ==> Faithful(u, second.value)) && FromSdk(e, c)
    ensures TextsClean(u, Derive(c, second))
  {
    if second.Some? { SecondPassOnSdkEvents(u, e, second.value, c); }
    SdkTextsClean(u, e, c);
    RowCarriesEvent(c, None);
  }

  /** In every run of a system fed by SDKs only, no text of any row, stream entry or
      dead letter holds a match of a default pattern. */
  lemma NothingAtRest(u: Tables, e: Engine, c: Setup, n: nat, steps: seq<Step>)
    requires u.Valid() && Faithful(u, e) && (c.second.Some? ==> Faithful(u, c.second.value))
    requires Legal(c, Init(n), steps) && forall step | step in steps :: SdkStep(e, step)
    ensures var s := Exec(c, Init(n), steps);
      && (forall row | row in s.table.rows :: TextsClean(u, row.cols))
      && (forall entry | entry in s.bus.log && Decode(entry).Typed? :: TextsClean(u, Decode(entry).event.cols))
      && (forall p | p in s.bus.dlq && p.raw.Typed? :: TextsClean(u, p.raw.event.cols))
  {
    var s := Exec(c, Init(n), steps);
    InitInv(c, n);
    RunKeeps(c, Init(n), steps);
    FedRun(e, c, Init(n), steps);
    TableClean(u, e, c, s);
    forall entry | entry in s.bus.log && Decode(entry).Typed? ensures TextsClean(u, Decode(entry).event.cols) {
      SdkTextsClean(u, e, Decode(entry).event.cols);
    }
    forall p | p in s.bus.dlq && p.raw.Typed? ensures TextsClean(u, p.raw.event.cols) {
      SdkTextsClean(u, e, p.raw.event.cols);
    }
  }
}
