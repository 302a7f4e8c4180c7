/** One chat turn: the gateway's stream generator, what it sends and what it
    persists, under every way the model stream and the client can end it. */
module Chat {
  import opened Wrappers
  import opened JsonText
  import opened Sse
  import opened LineFeed
  import Framing

  /** A model chunk; usage is the token counts it reports. */
  datatype Chunk = Chunk(text: Text, usage: Option<V>)

  /** How the model stream ends after its chunks; reason is the message text the
      gateway builds from the exception. */
  datatype ModelEnd = Exhausted | Fails(reason: Text)

  /** Where the client's disconnect interrupts the generator. */
  datatype Interrupt =
    | Nowhere
    | AtStart                // the yield of the start frame
    | Awaiting(k: nat)       // the wait for chunk k (or for the end)
    | AtToken(k: nat)        // the yield of chunk k's token frame
    | AtPersist              // the await of the normal persist
    | AtDone                 // the yield of the done frame
    | AtError                // the yield of the error frame

  datatype Outcome = Complete | Failed | Cancelled

  /** A call of `_persist_assistant_turn`. */
  datatype Persist = Persist(text: Text, usage: Option<V>, outcome: Outcome)

  /** How many chunks are taken from the model, if the turn gets past the start. */
  function Taken(chunks: seq<Chunk>, i: Interrupt): nat {
    match i
    case Awaiting(k) => if k <= |chunks| then k else |chunks|
    case AtToken(k) => if k < |chunks| && chunks[k].text != [] then k + 1 else |chunks|
    case _ => |chunks|
  }

  /** The interrupt falls inside the token loop. */
  predicate InLoop(chunks: seq<Chunk>, i: Interrupt) {
    (i.Awaiting? && i.k <= |chunks|) || (i.AtToken? && i.k < |chunks| && chunks[i.k].text != [])
  }

  /** The interrupt comes after the loop finished normally. */
  predicate Late(chunks: seq<Chunk>, end: ModelEnd, i: Interrupt) {
    end.Exhausted? && (i.AtPersist? || i.AtDone?)
  }

  function Tokens(chunks: seq<Chunk>): seq<Event> {
    if chunks == [] then []
    else
      var last := chunks[|chunks| - 1];
      Tokens(chunks[..|chunks| - 1]) + (if last.text == [] then [] else [Token(last.text)])
  }

  function Collected(chunks: seq<Chunk>): Text {
    if chunks == [] then [] else Collected(chunks[..|chunks| - 1]) + chunks[|chunks| - 1].text
  }

  function LastUsage(chunks: seq<Chunk>): Option<V> {
    if chunks == [] then None
    else if chunks[|chunks| - 1].usage.Some? then chunks[|chunks| - 1].usage
    else LastUsage(chunks[..|chunks| - 1])
  }

  /** The last usage noted; an interrupt at a token's yield comes before its chunk's
      usage is. */
  function UsageSeen(chunks: seq<Chunk>, i: Interrupt): Option<V> {
    if InLoop(chunks, i) then LastUsage(chunks[..i.k]) else LastUsage(chunks)
  }

  /** `async for`: token frames out, texts and usage collected, up to an interrupt. */
  method TokenLoop(chunks: seq<Chunk>, i: Interrupt)
    returns (frames: seq<Event>, collected: Text, usage: Option<V>, stopped: bool)
    ensures var seen := chunks[..Taken(chunks, i)];
      frames == Tokens(seen) && collected == Collected(seen)
    ensures stopped <==> InLoop(chunks, i)
    ensures usage == UsageSeen(chunks, i)
  {
    frames, collected, usage, stopped := [], [], None, false;
    var k := 0;
    while k < |chunks|
      invariant k <= |chunks| && k <= Taken(chunks, i)
      invariant frames == Tokens(chunks[..k]) && collected == Collected(chunks[..k]) && usage == LastUsage(chunks[..k])
      invariant !(i.Awaiting? && i.k < k) && !(i.AtToken? && i.k < k && chunks[i.k].text != [])
    {
      if i == Awaiting(k) {
        return frames, collected, usage, true;
      }
      assert chunks[..k + 1][..k] == chunks[..k];
      var chunk := chunks[k];
      if chunk.text != [] {
        collected := collected + chunk.text;
        frames := frames + [Token(chunk.text)];
        if i == AtToken(k) {
          return frames, collected, usage, true;
        }
      }
      if chunk.usage.Some? { usage := chunk.usage; }
      k := k + 1;
    }
    assert chunks[..k] == chunks;
    stopped := i == Awaiting(|chunks|);
  }

  /** The frame after the tokens, if any. */
  function LastFrame(requestId: Text, chunks: seq<Chunk>, end: ModelEnd, i: Interrupt): seq<Event> {
    if InLoop(chunks, i) then []
    else if end.Fails? then [Error(end.reason)]
    else if i.AtPersist? then []
    else [Done(requestId, LastUsage(chunks).GetOr(V.Null))]
  }

  function TurnFrames(requestId: Text, chunks: seq<Chunk>, end: ModelEnd, i: Interrupt): seq<Event> {
    if i.AtStart? then [Start(requestId)]
    else [Start(requestId)] + Tokens(chunks[..Taken(chunks, i)]) + LastFrame(requestId, chunks, end, i)
  }

  function TurnPersists(chunks: seq<Chunk>, end: ModelEnd, i: Interrupt): seq<Persist> {
    var text, usage := Collected(chunks[..Taken(chunks, i)]), UsageSeen(chunks, i);
    if i.AtStart? then []
    else if InLoop(chunks, i) then [Persist(text, usage, Cancelled)]
    else if end.Fails? then [Persist(text, usage, Failed)]
    else [Persist(text, usage, Complete)] + (if Late(chunks, end, i) then [Persist(text, usage, Cancelled)] else [])
  }

  /** The generator: the frames it yields and the persist calls it makes. An
      interrupt of the error frame's yield is no longer inside the try block. */
  method Turn(requestId: Text, chunks: seq<Chunk>, end: ModelEnd, i: Interrupt)
    returns (frames: seq<Event>, persists: seq<Persist>)
    ensures frames == TurnFrames(requestId, chunks, end, i)
    ensures persists == TurnPersists(chunks, end, i)
  {
    frames, persists := [Start(requestId)], [];
    if i.AtStart? {
      return;
    }
    var tokens, collected, usage, stopped := TokenLoop(chunks, i);
    frames := frames + tokens;
    if stopped {
      persists := [Persist(collected, usage, Cancelled)];
      return;
    }
    if end.Fails? {
      persists := [Persist(collected, usage, Failed)];
      frames := frames + [Error(end.reason)];
      return;
    }
    persists := [Persist(collected, usage, Complete)];
    if i.AtPersist? {
      persists := persists + [Persist(collected, usage, Cancelled)];
      return;
    }
    frames := frames + [Done(requestId, usage.GetOr(V.Null))];
    if i.AtDone? {
      persists := persists + [Persist(collected, usage, Cancelled)];
    }
  }

  // ---- honesty ----------------------------------------------------------------------------

  /** The text of the token frames. */
  function Shown(frames: seq<Event>): Text {
    if frames == [] then []
    else (if frames[0].Token? then frames[0].text else []) + Shown(frames[1..])
  }

  lemma {:induction false} ShownAppend(a: seq<Event>, b: seq<Event>)
    ensures Shown(a + b) == Shown(a) + Shown(b)
  {
    if a == [] {
      assert a + b == b;
    } else {
      assert (a + b)[1..] == a[1..] + b;
      ShownAppend(a[1..], b);
    }
  }

  /** What was collected is what the token frames show. */
  lemma {:induction false} ShownIsCollected(chunks: seq<Chunk>)
    ensures Shown(Tokens(chunks)) == Collected(chunks)
  {
    if chunks != [] {
      var n := |chunks| - 1;
      ShownIsCollected(chunks[..n]);
      var tail := if chunks[n].text == [] then [] else [Token(chunks[n].text)];
      ShownAppend(Tokens(chunks[..n]), tail);
      assert Shown([Token(chunks[n].text)]) == chunks[n].text + [];
    }
  }

  /** A turn persists exactly once unless it is stopped at the start frame (never)
      or interrupted after its loop finished normally (twice). */
  lemma PersistsOnce(chunks: seq<Chunk>, end: ModelEnd, i: Interrupt)
    ensures |TurnPersists(chunks, end, i)| == 1 <==> !i.AtStart? && !Late(chunks, end, i)
    ensures |TurnPersists(chunks, end, i)| == 2 <==> Late(chunks, end, i)
  {
    assert Late(chunks, end, i) ==> !InLoop(chunks, i);
  }

  lemma ShownBetween(first: Event, tokens: seq<Event>, last: seq<Event>)
    requires !first.Token? && (last == [] || (|last| == 1 && !last[0].Token?))
    ensures Shown([first] + tokens + last) == Shown(tokens)
  {
    var all := [first] + tokens + last;
    assert all[1..] == tokens + last;
    ShownAppend(tokens, last);
    if last != [] { assert last[1..] == []; }
  }

  /** Every persisted text is the text of the token frames yielded. */
  lemma PersistedIsShown(requestId: Text, chunks: seq<Chunk>, end: ModelEnd, i: Interrupt)
    ensures forall p <- TurnPersists(chunks, end, i) :: p.text == Shown(TurnFrames(requestId, chunks, end, i))
  {
    if !i.AtStart? {
      var seen := chunks[..Taken(chunks, i)];
      ShownIsCollected(seen);
      ShownBetween(Start(requestId), Tokens(seen), LastFrame(requestId, chunks, end, i));
      assert forall p <- TurnPersists(chunks, end, i) :: p.text == Collected(seen);
    }
  }

  lemma {:induction false} TokensOnly(chunks: seq<Chunk>)
    ensures forall e <- Tokens(chunks) :: e.Token? && e.text != []
  {
    if chunks != [] { TokensOnly(chunks[..|chunks| - 1]); }
  }

  /** Frames are the start frame, tokens with text, then done, error or nothing. */
  lemma FrameShape(requestId: Text, chunks: seq<Chunk>, end: ModelEnd, i: Interrupt)
    returns (tokens: seq<Event>, last: seq<Event>)
    ensures TurnFrames(requestId, chunks, end, i) == [Start(requestId)] + tokens + last
    ensures forall e <- tokens :: e.Token? && e.text != []
    ensures |last| <= 1 && forall e <- last :: e.Done? || e.Error?
  {
    if i.AtStart? {
      tokens, last := [], [];
    } else {
      tokens, last := Tokens(chunks[..Taken(chunks, i)]), LastFrame(requestId, chunks, end, i);
      TokensOnly(chunks[..Taken(chunks, i)]);
    }
  }

  /** When there is one persist, its outcome agrees with the last frame yielded:
      done for complete, error for failed, neither for cancelled. */
  lemma OutcomeIsLastFrame(requestId: Text, chunks: seq<Chunk>, end: ModelEnd, i: Interrupt)
    requires |TurnPersists(chunks, end, i)| == 1
    ensures var frames, outcome := TurnFrames(requestId, chunks, end, i), TurnPersists(chunks, end, i)[0].outcome;
      var last := frames[|frames| - 1];
      && (outcome.Complete? <==> last.Done?)
      && (outcome.Failed? <==> last.Error?)
      && (outcome.Cancelled? <==> last.Start? || last.Token?)
  {
    TokensOnly(chunks[..Taken(chunks, i)]);
    PersistsOnce(chunks, end, i);
    var tokens := Tokens(chunks[..Taken(chunks, i)]);
    if InLoop(chunks, i) && tokens != [] {
      assert tokens[|tokens| - 1] in tokens;
    }
  }

  /** The usage of the last chunk that reports one. */
  ghost predicate UsageIs(chunks: seq<Chunk>, usage: Option<V>) {
    if usage.None? then forall k | 0 <= k < |chunks| :: chunks[k].usage.None?
    else exists k: nat :: LastUsageAt(chunks, k, usage)
  }

  predicate LastUsageAt(chunks: seq<Chunk>, k: nat, usage: Option<V>) {
    k < |chunks| && chunks[k].usage == usage && forall j | k < j < |chunks| :: chunks[j].usage.None?
  }

  lemma {:induction false} LastUsageMeaning(chunks: seq<Chunk>)
    ensures UsageIs(chunks, LastUsage(chunks))
  {
    if chunks != [] {
      var n := |chunks| - 1;
      if chunks[n].usage.Some? {
        assert LastUsageAt(chunks, n, chunks[n].usage);
      } else {
        LastUsageMeaning(chunks[..n]);
        var usage := LastUsage(chunks);
        if usage.Some? {
          var k: nat :| LastUsageAt(chunks[..n], k, usage);
          assert LastUsageAt(chunks, k, usage);
        }
        assert forall k | 0 <= k < n :: chunks[..n][k] == chunks[k];
      }
    }
  }

  /** Every persist call is given the usage of the last reporting chunk before the
      interrupt, if any; the done frame shows the same, null for none, under the turn's
      request id, and the error frame shows the reason. */
  lemma UsageAndReason(requestId: Text, chunks: seq<Chunk>, end: ModelEnd, i: Interrupt)
    ensures forall p <- TurnPersists(chunks, end, i) :: UsageIs(UsageSpan(chunks, i), p.usage)
    ensures forall e <- LastFrame(requestId, chunks, end, i) ::
      && (e.Error? ==> end == Fails(e.message))
      && (e.Done? ==> e.requestId == requestId)
    ensures forall e <- LastFrame(requestId, chunks, end, i) ::
      e.Done? && !i.AtStart? ==> TurnPersists(chunks, end, i)[0].usage.GetOr(V.Null) == e.usage
  {
    LastUsageMeaning(UsageSpan(chunks, i));
    assert chunks[..|chunks|] == chunks;
  }

  /** The chunks whose usage was noted. */
  function UsageSpan(chunks: seq<Chunk>, i: Interrupt): seq<Chunk> {
    chunks[..if InLoop(chunks, i) then i.k else |chunks|]
  }

  /** The assistant message `_persist_assistant_turn` stores, if it stores one. */
  function Stored(p: Persist): Option<(Text, Outcome)> {
    if p.text == [] && !p.outcome.Complete? then None else Some((p.text, p.outcome))
  }

  // ---- what the page shows and what the database keeps -----------------------------------

  /** The text the page has put together from its onToken calls. */
  function PageText(calls: seq<Call<V>>): Text {
    if calls == [] then []
    else PageText(calls[..|calls| - 1]) + CallText(calls[|calls| - 1])
  }

  function CallText(c: Call<V>): Text {
    match c
    case OnToken(Some(Str(t))) => t
    case _ => []
  }

  lemma InitOfSum<T>(a: seq<T>, b: seq<T>)
    requires b != []
    ensures (a + b)[..|a + b| - 1] == a + b[..|b| - 1] && (a + b)[|a + b| - 1] == b[|b| - 1]
  {
  }

  lemma {:induction false} PageTextAppend(a: seq<Call<V>>, b: seq<Call<V>>)
    ensures PageText(a + b) == PageText(a) + PageText(b)
  {
    if b == [] {
      assert a + b == a;
    } else {
      InitOfSum(a, b);
      PageTextAppend(a, b[..|b| - 1]);
    }
  }

  lemma PageTextOne(c: Call<V>)
    ensures PageText([c]) == CallText(c)
  {
    assert [c][..0] == [];
  }

  lemma {:induction false} ExpectedText(es: seq<Event>)
    ensures PageText(Expected(es)) == Shown(es)
  {
    if es != [] {
      ExpectedFirst(es);
      PageTextAppend(Expected([es[0]]), Expected(es[1..]));
      ExpectedText(es[1..]);
      assert [es[0]][1..] == [];
      match es[0]
      case Token(t) => PageTextOne(OnToken(Some(Str(t))));
      case Error(m) => PageTextOne(OnError(Some(Str(m))));
      case _ =>
    }
  }

  /** Reading on never takes a call back. */
  lemma {:induction false} CallsGrow(calls: seq<Call<V>>, buffer: Text)
    ensures calls <= Drain(Dispatcher(BROWSER), BLANK_LINE, calls, buffer).0
    decreases |buffer|
  {
    match Framing.Cut(BLANK_LINE, buffer)
    case None =>
    case Some((frame, rest)) =>
      var r := Dispatcher(BROWSER)(calls, frame);
      assert r == Dispatch(BROWSER, calls, frame);
      if !r.1 { CallsGrow(r.0, rest); }
  }

  lemma CallsExtend(a: seq<Call<V>>, b: seq<Call<V>>)
    requires a <= b
    ensures PageText(a) <= PageText(b)
  {
    assert b == a + b[|a|..];
    PageTextAppend(a, b[|a|..]);
  }

  /** However the connection cuts what it delivers of a printed list, and wherever it
      breaks off: the page's text is a prefix of the text of the token frames. */
  lemma PageShowsPrefix(es: seq<Event>, received: seq<Text>, lost: Text, ending: Sse.Ending)
    requires Framing.Concat(received) + lost == PrintedAll(es)
    ensures PageText(Streamed(BROWSER, true, 200, received, ending).0) <= Shown(es)
    ensures lost == [] ==> PageText(Streamed(BROWSER, true, 200, received, ending).0) == Shown(es)
  {
    var got := Framing.Concat(received);
    var r := ReadAll(Dispatcher(BROWSER), BLANK_LINE, [], received);
    var part := Drain(Dispatcher(BROWSER), BLANK_LINE, [], got);
    CutsDoNotMatter(Dispatcher(BROWSER), BLANK_LINE, [], received);
    DrainAppend(Dispatcher(BROWSER), BLANK_LINE, [], got, lost);
    DrainPrinted([], es);
    assert [] + Expected(es) == Expected(es);
    CallsGrow(r.0, part.1 + lost);
    CallsExtend(r.0, Expected(es));
    ExpectedText(es);
    PageTextAppend(r.0, [OnDone]);
    PageTextOne(OnDone);
    if lost == [] { assert got + lost == got; }
  }

  /** Gateway, network and page together: in every run, what the page shows at any
      time is a prefix of the text each persist call is given, and all of it once
      everything sent has arrived. */
  lemma PageAgreesWithStore(
    requestId: Text, chunks: seq<Chunk>, end: ModelEnd, i: Interrupt,
    received: seq<Text>, lost: Text, ending: Sse.Ending)
    ensures Framing.Concat(received) + lost == PrintedAll(TurnFrames(requestId, chunks, end, i)) ==>
      var page := PageText(Streamed(BROWSER, true, 200, received, ending).0);
      && (forall p <- TurnPersists(chunks, end, i) ::
            page <= p.text && (lost == [] ==> page == p.text) && (Stored(p).None? ==> page == []))
      && (TurnPersists(chunks, end, i) == [] ==> page == [])
  {
    if Framing.Concat(received) + lost == PrintedAll(TurnFrames(requestId, chunks, end, i)) {
      PageShowsPrefix(TurnFrames(requestId, chunks, end, i), received, lost, ending);
    }
    PersistedIsShown(requestId, chunks, end, i);
  }
}
