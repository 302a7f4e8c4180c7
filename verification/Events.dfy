/** The inference event on the server side: the API's and the worker's
    validation, the stamp, and the row derived from an event. */
module Events {
  import opened Wrappers
  import opened Caps
  import opened PyJson
  import opened Regex
  import opened Redaction

  const MAX_PREVIEW_CHARS: nat := 4000
  const MAX_SERVER_ERROR_CHARS: nat := 2000
  const MAX_ERROR_TYPE_CHARS: nat := 64
  const MAX_NAME_CHARS: nat := 128
  const MAX_BATCH: nat := 500

  datatype Status = Success | Error | Cancelled

  /** The columns an event carries besides its identity; N is what stands for a token
      count. */
  datatype Cols<N> = Cols(
    conversationId: Option<string>,
    service: string, provider: string, model: string,
    status: Status, streamed: bool, startedAt: int, completedAt: int,
    latencyMs: int, ttftMs: Option<int>,
    promptTokens: N, completionTokens: N, totalTokens: N,
    inputPreview: Option<string>, outputPreview: Option<string>,
    errorType: Option<string>, errorMessage: Option<string>,
    redactions: int, tags: Items, metadata: Items,
    sdkVersion: Option<string>, schemaVersion: int)

  type Columns = Cols<Option<int>>

  datatype Event = Event(requestId: string, receivedAt: Option<int>, cols: Columns)

  /** What a stream entry or a request body decodes to: fields of the right
      types, or anything else (wrong types, missing fields, text that is no JSON). */
  datatype Raw = Typed(event: Event) | Malformed(text: string)

  /** The payload the SDK sends: ids are any text, and the counts are whatever the
      provider's JSON held, Null for none. */
  datatype Payload = Payload(requestId: string, cols: Cols<Json>)

  /** How the server's model reads a text as a UUID, in canonical form, and a JSON value
      other than null as an integer; None is a validation error. */
  datatype Reader = Reader(uuid: string -> Option<string>, whole: Json -> Option<int>)

  /** An optional UUID. */
  predicate IdFits(r: Reader, id: Option<string>) { id.Some? ==> r.uuid(id.value).Some? }

  function ReadId(r: Reader, id: Option<string>): Option<string>
    requires IdFits(r, id)
  {
    if id.None? then None else r.uuid(id.value)
  }

  /** An optional integer. */
  predicate CountReads(r: Reader, n: Json) { n.Null? || r.whole(n).Some? }

  function ReadCount(r: Reader, n: Json): Option<int>
    requires CountReads(r, n)
  {
    if n.Null? then None else r.whole(n)
  }

  /** The server's reading of a payload's types. */
  function Receive(r: Reader, p: Payload): Raw {
    var c := p.cols;
    if r.uuid(p.requestId).Some? && IdFits(r, c.conversationId) && CountReads(r, c.promptTokens)
       && CountReads(r, c.completionTokens) && CountReads(r, c.totalTokens)
    then
      Typed(Event(r.uuid(p.requestId).value, None,
        Cols(ReadId(r, c.conversationId), c.service, c.provider, c.model, c.status, c.streamed,
             c.startedAt, c.completedAt, c.latencyMs, c.ttftMs,
             ReadCount(r, c.promptTokens), ReadCount(r, c.completionTokens), ReadCount(r, c.totalTokens),
             c.inputPreview, c.outputPreview, c.errorType, c.errorMessage, c.redactions,
             c.tags, c.metadata, c.sdkVersion, c.schemaVersion)))
    else Malformed(p.requestId)
  }

  function ReceiveAll(r: Reader, batch: seq<Payload>): (raws: seq<Raw>)
    ensures |raws| == |batch| && forall k | 0 <= k < |batch| :: raws[k] == Receive(r, batch[k])
  {
    seq(|batch|, k requires 0 <= k < |batch| => Receive(r, batch[k]))
  }

  predicate Short(s: Option<string>, limit: nat) { s.Some? ==> |s.value| <= limit }
  predicate NonNegative(n: Option<int>) { n.Some? ==> n.value >= 0 }

  /** The field constraints of IngestEvent. */
  predicate WithinCaps(c: Columns) {
    && |c.service| <= MAX_NAME_CHARS && |c.provider| <= MAX_NAME_CHARS && |c.model| <= MAX_NAME_CHARS
    && c.latencyMs >= 0 && NonNegative(c.ttftMs)
    && NonNegative(c.promptTokens) && NonNegative(c.completionTokens) && NonNegative(c.totalTokens)
    && Short(c.inputPreview, MAX_PREVIEW_CHARS) && Short(c.outputPreview, MAX_PREVIEW_CHARS)
    && Short(c.errorType, MAX_ERROR_TYPE_CHARS) && Short(c.errorMessage, MAX_SERVER_ERROR_CHARS)
    && c.redactions >= 0
    && BoundedDict(Some(c.tags)).Some? && BoundedDict(Some(c.metadata)).Some?
    && Short(c.sdkVersion, MAX_NAME_CHARS)
  }

  /** `IngestEvent.model_validate`; None is its ValidationError. */
  function Validate(raw: Raw): Option<Event> {
    if raw.Typed? && WithinCaps(raw.event.cols) then Some(raw.event) else None
  }

  /** The API's payload for the stream: the event with its own `received_at`,
      whatever the client sent in that field. */
  function Stamp(e: Event, now: int): Raw { Typed(e.(receivedAt := Some(now))) }

  /** Whether POST /v1/ingest takes a batch: one bad event refuses all of it. */
  predicate Admissible(batch: seq<Raw>) {
    1 <= |batch| <= MAX_BATCH && forall k | 0 <= k < |batch| :: Validate(batch[k]).Some?
  }

  /** `enrich.total_tokens`. */
  function TotalTokens(prompt: Option<int>, completion: Option<int>, reported: Option<int>): Option<int> {
    if reported.Some? then reported
    else if prompt.Some? && completion.Some? then Some(prompt.value + completion.value)
    else None
  }

  /** `{**metadata, **tags}`. */
  function Merge(metadata: Items, tags: Items): Items {
    if tags == [] then metadata
    else Put(Merge(metadata, tags[..|tags| - 1]), tags[|tags| - 1].0, tags[|tags| - 1].1)
  }

  datatype Row = Row(requestId: string, receivedAt: int, cols: Columns)

  /** The columns `process_event` derives; the second pass over the texts runs
      only behind its flag. Cost and throughput (floats) are left out. */
  function Derive(c: Columns, second: Option<Engine>): Columns {
    var c := c.(
      totalTokens := TotalTokens(c.promptTokens, c.completionTokens, c.totalTokens),
      metadata := Merge(c.metadata, c.tags), tags := []);
    if second.None? then c
    else
      var (i, n1) := Redact(second.value, c.inputPreview);
      var (o, n2) := Redact(second.value, c.outputPreview);
      var (m, n3) := Redact(second.value, c.errorMessage);
      c.(inputPreview := i, outputPreview := o, errorMessage := m, redactions := c.redactions + (n1 + n2 + n3))
  }

  /** `process_event`; now is the worker's clock, used only without a stamp. */
  function ProcessEvent(e: Event, now: int, second: Option<Engine>): Row {
    Row(e.requestId, e.receivedAt.GetOr(now), Derive(e.cols, second))
  }

  // ---- properties --------------------------------------------------------------

  /** What the API publishes passes the worker's validation, and the row keeps
      the API's clock whatever the worker's says. */
  lemma PublishedIsValid(raw: Raw, now: int, worker: int, second: Option<Engine>)
    requires Validate(raw).Some?
    ensures Validate(Stamp(raw.event, now)) == Some(raw.event.(receivedAt := Some(now)))
    ensures var row := ProcessEvent(Validate(Stamp(raw.event, now)).value, worker, second);
      row.receivedAt == now && row.requestId == raw.event.requestId
      && row.cols == Derive(raw.event.cols, second)
  {
  }

  /** A row changes nothing of its event but the total, the merged dicts and, under
      the second pass, the three texts and their count. A reported total is kept; a
      missing one is the sum of the counts if both are there. The second pass replaces
      each text by its redaction and counts exactly the replacements. */
  lemma RowCarriesEvent(c: Columns, second: Option<Engine>)
    ensures var d := Derive(c, second);
      && d.(totalTokens := c.totalTokens, metadata := c.metadata, tags := c.tags, inputPreview := c.inputPreview,
            outputPreview := c.outputPreview, errorMessage := c.errorMessage, redactions := c.redactions) == c
      && d.metadata == Merge(c.metadata, c.tags) && d.tags == []
    ensures var total := Derive(c, second).totalTokens;
      && (c.totalTokens.Some? ==> total == c.totalTokens)
      && (c.totalTokens.None? ==>
           if c.promptTokens.Some? && c.completionTokens.Some?
           then total.Some? && total.value - c.promptTokens.value == c.completionTokens.value else total.None?)
    ensures second.None? ==> var d := Derive(c, second);
      && d.inputPreview == c.inputPreview && d.outputPreview == c.outputPreview
      && d.errorMessage == c.errorMessage && d.redactions == c.redactions
    ensures second.Some? ==> var d, e := Derive(c, second), second.value;
      && d.inputPreview == Redact(e, c.inputPreview).0 && d.outputPreview == Redact(e, c.outputPreview).0
      && d.errorMessage == Redact(e, c.errorMessage).0
      && d.redactions - c.redactions
           == Redact(e, c.inputPreview).1 + Redact(e, c.outputPreview).1 + Redact(e, c.errorMessage).1
  {
  }

  const SDK_PREVIEW_CHARS: nat := 280
  const SDK_ERROR_CHARS: nat := 500

  function CapError(s: Option<string>): Option<string> {
    if s.None? then None else Some(CapStr(s.value, MAX_ERROR_CHARS))
  }

  /** The text was cut to limit characters and then redacted. */
  ghost predicate CutThenRedacted(e: Engine, limit: nat, s: Option<string>) {
    exists t: Option<string> :: Short(t, limit) && s == Redact(e, t).0
  }

  /** An SDK event: texts cut, then redacted; an error message capped after that;
      dicts capped. */
  ghost predicate FromSdk<N>(e: Engine, c: Cols<N>) {
    && CutThenRedacted(e, SDK_PREVIEW_CHARS, c.inputPreview)
    && CutThenRedacted(e, SDK_PREVIEW_CHARS, c.outputPreview)
    && (exists s: Option<string> :: CutThenRedacted(e, SDK_ERROR_CHARS, s) && c.errorMessage == CapError(s))
    && (exists d: Option<Items> :: c.tags == CapDict(d))
    && (exists d: Option<Items> :: c.metadata == CapDict(d))
  }

  /** A cut and redacted text is short, and no engine finds anything in it. */
  lemma CutTextSettled(u: Tables, sdk: Engine, server: Engine, limit: nat, s: Option<string>)
    requires u.Valid() && Faithful(u, sdk) && Faithful(u, server) && CutThenRedacted(sdk, limit, s)
    ensures s.Some? ==> 6 * |s.value| <= 16 * limit
    ensures Redact(server, s) == (s, 0)
  {
    var t: Option<string> :| Short(t, limit) && s == Redact(sdk, t).0;
    SecondPassIdle(u, sdk, server, t);
    if t.Some? { RedactedSize(u, sdk, t.value); }
  }

  /** No free-form field of an SDK event can make the server refuse it, and the
      cap on the error message, which could cut a marker, never takes effect. */
  lemma SdkTextsPass<N>(u: Tables, e: Engine, c: Cols<N>)
    requires u.Valid() && Faithful(u, e) && FromSdk(e, c)
    ensures Short(c.inputPreview, MAX_PREVIEW_CHARS) && Short(c.outputPreview, MAX_PREVIEW_CHARS)
    ensures Short(c.errorMessage, MAX_SERVER_ERROR_CHARS)
    ensures CutThenRedacted(e, SDK_ERROR_CHARS, c.errorMessage)
    ensures BoundedDict(Some(c.tags)) == Some(c.tags) && BoundedDict(Some(c.metadata)) == Some(c.metadata)
  {
    CutTextSettled(u, e, e, SDK_PREVIEW_CHARS, c.inputPreview);
    CutTextSettled(u, e, e, SDK_PREVIEW_CHARS, c.outputPreview);
    var s: Option<string> :| CutThenRedacted(e, SDK_ERROR_CHARS, s) && c.errorMessage == CapError(s);
    CutTextSettled(u, e, e, SDK_ERROR_CHARS, s);
    var dt: Option<Items> :| c.tags == CapDict(dt);
    var dm: Option<Items> :| c.metadata == CapDict(dm);
    CappedPassesServer(dt);
    CappedPassesServer(dm);
  }

  /** Null, or read as a non-negative integer. */
  predicate CountFits(r: Reader, n: Json) { n.Null? || (r.whole(n).Some? && r.whole(n).value >= 0) }

  /** The server's constraints on the fields the SDK neither cuts nor caps: the ids and
      counts it takes over from the host and the provider, names, labels, durations. */
  predicate UncappedFieldsFit(r: Reader, p: Payload) {
    var c := p.cols;
    && r.uuid(p.requestId).Some? && IdFits(r, c.conversationId)
    && |c.service| <= MAX_NAME_CHARS && |c.provider| <= MAX_NAME_CHARS && |c.model| <= MAX_NAME_CHARS
    && c.latencyMs >= 0 && NonNegative(c.ttftMs)
    && CountFits(r, c.promptTokens) && CountFits(r, c.completionTokens) && CountFits(r, c.totalTokens)
    && Short(c.errorType, MAX_ERROR_TYPE_CHARS) && c.redactions >= 0 && Short(c.sdkVersion, MAX_NAME_CHARS)
  }

  /** The columns the server neither reads as a UUID nor as a count. */
  predicate SameColumns<M, N>(c: Cols<M>, d: Cols<N>) {
    && c.service == d.service && c.provider == d.provider && c.model == d.model
    && c.status == d.status && c.streamed == d.streamed
    && c.startedAt == d.startedAt && c.completedAt == d.completedAt
    && c.latencyMs == d.latencyMs && c.ttftMs == d.ttftMs
    && c.inputPreview == d.inputPreview && c.outputPreview == d.outputPreview
    && c.errorType == d.errorType && c.errorMessage == d.errorMessage
    && c.redactions == d.redactions && c.tags == d.tags && c.metadata == d.metadata
    && c.sdkVersion == d.sdkVersion && c.schemaVersion == d.schemaVersion
  }

  /** The count a JSON value is read as: null as none. */
  predicate ReadAs(r: Reader, v: Json, n: Option<int>) { if v.Null? then n.None? else n.Some? && r.whole(v) == n }

  /** The event carries the payload: canonical ids, the counts it was read with, and
      every other column as it was. */
  predicate Carries(r: Reader, p: Payload, e: Event) {
    var c, d := p.cols, e.cols;
    && r.uuid(p.requestId) == Some(e.requestId)
    && (if c.conversationId.None? then d.conversationId.None?
        else d.conversationId.Some? && r.uuid(c.conversationId.value) == d.conversationId)
    && ReadAs(r, c.promptTokens, d.promptTokens) && ReadAs(r, c.completionTokens, d.completionTokens)
    && ReadAs(r, c.totalTokens, d.totalTokens)
    && SameColumns(c, d)
  }

  /** A payload is read exactly when an event can carry it, and that event is what it is
      read as. */
  lemma ReceiveMeaning(r: Reader, p: Payload)
    ensures Receive(r, p).Typed? <==> exists e :: Carries(r, p, e)
    ensures Receive(r, p).Typed? ==> Carries(r, p, Receive(r, p).event) && Receive(r, p).event.receivedAt.None?
    ensures forall e, f :: Carries(r, p, e) && Carries(r, p, f) ==> e.requestId == f.requestId && e.cols == f.cols
  {
    if Receive(r, p).Typed? { assert Carries(r, p, Receive(r, p).event); }
  }

  /** What is dumped says the same as the event. */
  lemma DumpMeaning(e: Event)
    ensures Dump(e).requestId == e.requestId && Dump(e).cols.conversationId == e.cols.conversationId
    ensures SameColumns(Dump(e).cols, e.cols)
    ensures Dump(e).cols.promptTokens == AsJson(e.cols.promptTokens)
    ensures Dump(e).cols.completionTokens == AsJson(e.cols.completionTokens)
    ensures Dump(e).cols.totalTokens == AsJson(e.cols.totalTokens)
  {
  }

  /** Reading touches no text the SDK cut, redacted or capped. */
  lemma ReadKeepsTexts(e: Engine, r: Reader, p: Payload)
    requires Receive(r, p).Typed?
    ensures FromSdk(e, p.cols) <==> FromSdk(e, Receive(r, p).event.cols)
  {
    var c, d := p.cols, Receive(r, p).event.cols;
    assert c.inputPreview == d.inputPreview && c.outputPreview == d.outputPreview;
    assert c.errorMessage == d.errorMessage && c.tags == d.tags && c.metadata == d.metadata;
  }

  /** The server takes an SDK payload exactly when those fields fit. */
  lemma SdkPayloadValidIff(u: Tables, e: Engine, r: Reader, p: Payload)
    requires u.Valid() && Faithful(u, e) && FromSdk(e, p.cols)
    ensures Validate(Receive(r, p)).Some? <==> UncappedFieldsFit(r, p)
  {
    SdkTextsPass(u, e, p.cols);
  }

  /** The API takes a batch of SDK payloads exactly when its size is within bounds and,
      in every one of them, the ids are UUIDs, names and labels are short, and counts
      and durations are non-negative integers. */
  lemma SdkBatchAdmissibleIff(u: Tables, e: Engine, r: Reader, batch: seq<Payload>)
    requires u.Valid() && Faithful(u, e)
    requires forall k | 0 <= k < |batch| :: FromSdk(e, batch[k].cols)
    ensures Admissible(ReceiveAll(r, batch)) <==>
      1 <= |batch| <= MAX_BATCH && forall k | 0 <= k < |batch| :: UncappedFieldsFit(r, batch[k])
  {
    forall k | 0 <= k < |batch| ensures Validate(ReceiveAll(r, batch)[k]).Some? <==> UncappedFieldsFit(r, batch[k]) {
      SdkPayloadValidIff(u, e, r, batch[k]);
    }
  }

  /** Every cap is enforced on every event, whoever sent it: one field over its limit, or one
      negative number, and it is refused. */
  lemma CapsAreEnforced(e: Event)
    requires var c := e.cols;
      || |c.service| > 128 || |c.provider| > 128 || |c.model| > 128
      || (c.inputPreview.Some? && |c.inputPreview.value| > 4000)
      || (c.outputPreview.Some? && |c.outputPreview.value| > 4000)
      || (c.errorType.Some? && |c.errorType.value| > 64) || (c.errorMessage.Some? && |c.errorMessage.value| > 2000)
      || (c.sdkVersion.Some? && |c.sdkVersion.value| > 128)
      || |Printed(c.tags)| > 8192 || |Printed(c.metadata)| > 8192
      || c.latencyMs < 0 || c.redactions < 0 || (c.ttftMs.Some? && c.ttftMs.value < 0)
      || (c.promptTokens.Some? && c.promptTokens.value < 0)
      || (c.completionTokens.Some? && c.completionTokens.value < 0)
      || (c.totalTokens.Some? && c.totalTokens.value < 0)
    ensures Validate(Typed(e)) == None
    ensures forall batch: seq<Raw> | Typed(e) in batch :: !Admissible(batch)
  {
    SizeIsPrinted(e.cols.tags);
    SizeIsPrinted(e.cols.metadata);
    assert Printed([]) == [123, 125];
  }

  /** `event.model_dump(mode="json")`. */
  function Dump(e: Event): Payload {
    var c := e.cols;
    Payload(e.requestId,
      Cols(c.conversationId, c.service, c.provider, c.model, c.status, c.streamed,
           c.startedAt, c.completedAt, c.latencyMs, c.ttftMs,
           AsJson(c.promptTokens), AsJson(c.completionTokens), AsJson(c.totalTokens),
           c.inputPreview, c.outputPreview, c.errorType, c.errorMessage, c.redactions,
           c.tags, c.metadata, c.sdkVersion, c.schemaVersion))
  }

  function AsJson(n: Option<int>): Json { if n.None? then Null else Num(n.value as real) }

  /** A canonical UUID is read as itself, an integer as itself. */
  ghost predicate Settles(r: Reader) {
    && (forall t :: r.uuid(t).Some? ==> r.uuid(r.uuid(t).value) == r.uuid(t))
    && (forall n: int :: r.whole(Num(n as real)) == Some(n))
  }

  /** What the API writes of an event it took is read back by the worker as that event;
      the stamp is beside it. */
  lemma DumpReadsBack(r: Reader, p: Payload)
    requires Settles(r) && Receive(r, p).Typed?
    ensures Receive(r, Dump(Receive(r, p).event)) == Receive(r, p)
  {
    var c := p.cols;
    assert IdFits(r, ReadId(r, c.conversationId));
  }

  /** The SDK passes any conversation id on. */
  lemma RetaggedFromSdk<N>(e: Engine, c: Cols<N>, id: Option<string>)
    requires FromSdk(e, c)
    ensures FromSdk(e, c.(conversationId := id))
  {
    var d := c.(conversationId := id);
    assert d.inputPreview == c.inputPreview && d.outputPreview == c.outputPreview;
    assert d.errorMessage == c.errorMessage && d.tags == c.tags && d.metadata == c.metadata;
  }

  /** A payload of an SDK that satisfies everything, for any request id that is a UUID. */
  lemma SomeSdkPayload(e: Engine, r: Reader, id: string) returns (p: Payload)
    requires r.uuid(id).Some?
    ensures p.requestId == id && FromSdk(e, p.cols) && Validate(Receive(r, p)).Some?
  {
    p := Payload(id,
      Cols(None, "chat", "openai", "gpt", Success, false, 0, 0, 0, None, Null, Null, Null, None, None, None, None, 0,
           [], [], None, 1));
    var none: Option<string> := None;
    assert Redact(e, none).0 == None && CapError(none) == None;
    assert CutThenRedacted(e, SDK_PREVIEW_CHARS, none) && CutThenRedacted(e, SDK_ERROR_CHARS, none);
    assert CapDict(None) == [];
  }

  predicate Idle(server: Engine, s: Option<string>) { Redact(server, s) == (s, 0) }

  predicate HasKey(d: Items, k: string) { exists e :: e in d && e.0 == k }

  /** The stored metadata: every tag, and the metadata under all other keys. */
  lemma {:induction false} MergeMeaning(metadata: Items, tags: Items)
    requires Distinct(metadata) && Distinct(tags)
    ensures Distinct(Merge(metadata, tags))
    ensures forall k, v :: Holds(Merge(metadata, tags), k, v) <==>
      if HasKey(tags, k) then Holds(tags, k, v) else Holds(metadata, k, v)
  {
    if tags != [] {
      var n := |tags| - 1;
      var init, last := tags[..n], tags[n];
      MergeMeaning(metadata, init);
      PutMeaning(Merge(metadata, init), last.0, last.1);
      forall k, v ensures Holds(Merge(metadata, tags), k, v) <==>
        if HasKey(tags, k) then Holds(tags, k, v) else Holds(metadata, k, v)
      {
        LastTag(tags, k, v);
      }
    }
  }

  lemma LastTag(tags: Items, k: string, v: Value)
    requires tags != [] && Distinct(tags)
    ensures var n := |tags| - 1;
      && (HasKey(tags, k) <==> k == tags[n].0 || HasKey(tags[..n], k))
      && (Holds(tags, k, v) <==> if k == tags[n].0 then v == tags[n].1 else Holds(tags[..n], k, v))
  {
    var n := |tags| - 1;
    assert tags == tags[..n] + [tags[n]];
    assert forall e :: e in tags <==> e in tags[..n] || e == tags[n];
    assert tags[n] in tags;
    assert forall e | e in tags[..n] :: e.0 != tags[n].0;
  }

  /** With the second pass on, no text of any stored row holds a match, whoever
      sent the event. */
  lemma StoredTextsClean(u: Tables, server: Engine, c: Columns)
    requires u.Valid() && Faithful(u, server)
    ensures var row := Derive(c, Some(server));
      && (row.inputPreview.Some? ==> Clean(u, row.inputPreview.value))
      && (row.outputPreview.Some? ==> Clean(u, row.outputPreview.value))
      && (row.errorMessage.Some? ==> Clean(u, row.errorMessage.value))
  {
    RedactedClean(u, server, c.inputPreview);
    RedactedClean(u, server, c.outputPreview);
    RedactedClean(u, server, c.errorMessage);
  }

  lemma RedactedClean(u: Tables, e: Engine, t: Option<string>)
    requires u.Valid() && Faithful(u, e)
    ensures Redact(e, t).0.Some? <==> t.Some?
    ensures t.Some? ==> Clean(u, Redact(e, t).0.value)
  {
    SecondPassIdle(u, e, e, t);
    IdentityIffClean(u, e, Redact(e, t).0);
  }

  /** For any event, the second pass changes the row exactly when one of the three
      texts holds a match. */
  lemma SecondPassChanges(u: Tables, server: Engine, c: Columns)
    requires u.Valid() && Faithful(u, server)
    ensures Derive(c, Some(server)) == Derive(c, None) <==>
      && (c.inputPreview.Some? ==> Clean(u, c.inputPreview.value))
      && (c.outputPreview.Some? ==> Clean(u, c.outputPreview.value))
      && (c.errorMessage.Some? ==> Clean(u, c.errorMessage.value))
  {
    IdentityIffClean(u, server, c.inputPreview);
    IdentityIffClean(u, server, c.outputPreview);
    IdentityIffClean(u, server, c.errorMessage);
    DeriveTwice(c, server);
  }

  /** On an SDK event it changes nothing, and counts nothing. */
  lemma SecondPassOnSdkEvents(u: Tables, sdk: Engine, server: Engine, c: Columns)
    requires u.Valid() && Faithful(u, sdk) && Faithful(u, server) && FromSdk(sdk, c)
    ensures Derive(c, Some(server)) == Derive(c, None)
  {
    SdkTextsPass(u, sdk, c);
    CutTextSettled(u, sdk, server, SDK_PREVIEW_CHARS, c.inputPreview);
    CutTextSettled(u, sdk, server, SDK_PREVIEW_CHARS, c.outputPreview);
    CutTextSettled(u, sdk, server, SDK_ERROR_CHARS, c.errorMessage);
    DeriveTwice(c, server);
  }

  lemma DeriveTwice(c: Columns, server: Engine)
    ensures Derive(c, Some(server)) == Derive(c, None) <==>
      Idle(server, c.inputPreview) && Idle(server, c.outputPreview) && Idle(server, c.errorMessage)
  {
    var first, both := Derive(c, None), Derive(c, Some(server));
    assert first.inputPreview == c.inputPreview && first.outputPreview == c.outputPreview;
    assert first.errorMessage == c.errorMessage && first.redactions == c.redactions;
    assert both.inputPreview == Redact(server, c.inputPreview).0;
    assert both.outputPreview == Redact(server, c.outputPreview).0;
    assert both.errorMessage == Redact(server, c.errorMessage).0;
    assert both.redactions == c.redactions
      + (Redact(server, c.inputPreview).1 + Redact(server, c.outputPreview).1 + Redact(server, c.errorMessage).1);
  }
}
