/** The event-stream link: the gateway's `_sse` printer and the browser's reader.
    The wire format is the `event:`/`data:` subset of sections 9.2.5 and 9.2.6 of
    the WHATWG HTML Living Standard. */
module Sse {
  import opened Wrappers
  import opened Framing
  import opened LineFeed
  import opened JsonText

  const LF: Unit := 10
  const NL: Text := [10]
  const BLANK_LINE: Text := [10, 10]
  const EVENT: Text := [101, 118, 101, 110, 116, 58]               // "event:"
  const DATA: Text := [100, 97, 116, 97, 58]                       // "data:"
  const NAME_START: Text := [115, 116, 97, 114, 116]               // "start"
  const NAME_TOKEN: Text := [116, 111, 107, 101, 110]              // "token"
  const NAME_DONE: Text := [100, 111, 110, 101]                    // "done"
  const NAME_ERROR: Text := [101, 114, 114, 111, 114]              // "error"
  const NAME_DEFAULT: Text := [109, 101, 115, 115, 97, 103, 101]   // "message"
  const KEY_TEXT: Text := [116, 101, 120, 116]                     // "text"
  const KEY_MESSAGE: Text := NAME_DEFAULT                          // "message"
  const KEY_REQUEST_ID: Text := [114, 101, 113, 117, 101, 115, 116, 95, 105, 100]
  const KEY_USAGE: Text := [117, 115, 97, 103, 101]                // "usage"

  /** The frames the chat endpoint yields; usage is any JSON value. */
  datatype Event = Start(requestId: Text) | Token(text: Text) | Done(requestId: Text, usage: V) | Error(message: Text)

  function Name(e: Event): Text {
    match e
    case Start(_) => NAME_START
    case Token(_) => NAME_TOKEN
    case Done(_, _) => NAME_DONE
    case Error(_) => NAME_ERROR
  }

  function Payload(e: Event): V {
    match e
    case Start(id) => Obj(Member(KEY_REQUEST_ID, Str(id), End))
    case Token(t) => Obj(Member(KEY_TEXT, Str(t), End))
    case Done(id, usage) => Obj(Member(KEY_REQUEST_ID, Str(id), Member(KEY_USAGE, usage, End)))
    case Error(m) => Obj(Member(KEY_MESSAGE, Str(m), End))
  }

  /** `_sse`. */
  function Frame(e: Event): Text {
    (EVENT + [BLANK] + Name(e)) + NL + (DATA + [BLANK] + Print(Payload(e)))
  }

  function Printed(e: Event): Text { Frame(e) + BLANK_LINE }

  function PrintedAll(es: seq<Event>): Text {
    if es == [] then [] else Printed(es[0]) + PrintedAll(es[1..])
  }

  // ---- the browser ---------------------------------------------------------------------

  /** JSON.parse (None where it throws) with what the page asks of its values: whether
      one is null, and a property, None for `undefined`. */
  datatype Decoder<!J> = Decoder(parse: Text -> Option<J>, isNull: J -> bool, property: (J, Text) -> Option<J>)

  /** Calls of the page's handlers. */
  datatype Call<J> = OnToken(text: Option<J>) | OnError(message: Option<J>) | OnFailed(status: int) | OnDone

  /** White space and line ends that `trim` removes. */
  predicate Space(u: Unit) {
    9 <= u <= 13 || u == 32 || u == 0xA0 || u == 0x1680 || 0x2000 <= u <= 0x200A
    || u == 0x2028 || u == 0x2029 || u == 0x202F || u == 0x205F || u == 0x3000 || u == 0xFEFF
  }

  function TrimLeft(s: Text): Text { if s != [] && Space(s[0]) then TrimLeft(s[1..]) else s }

  function TrimRight(s: Text): Text {
    if s != [] && Space(s[|s| - 1]) then TrimRight(s[..|s| - 1]) else s
  }

  function Trim(s: Text): Text { TrimRight(TrimLeft(s)) }

  /** `frame.split("\n")`. */
  function SplitLines(frame: Text): (r: seq<Text>)
    ensures r != []
  {
    Frames(NL, frame) + [Rest(NL, frame)]
  }

  /** The event name and data after one line of a frame. */
  function TakeLine(event: Text, data: Text, line: Text): (Text, Text) {
    if EVENT <= line then (Trim(line[6..]), data)
    else if DATA <= line then (event, Trim(line[5..]))
    else (event, data)
  }

  function TakeLines(lines: seq<Text>): (Text, Text) {
    if lines == [] then (NAME_DEFAULT, [])
    else
      var before := TakeLines(lines[..|lines| - 1]);
      TakeLine(before.0, before.1, lines[|lines| - 1])
  }

  /** `payload[key]`: the last member with that key; null has no properties. */
  function Property(m: Members, key: Text): Option<V> {
    match m
    case End => None
    case Member(k, v, rest) =>
      var later := Property(rest, key);
      if later.Some? then later else if k == key then Some(v) else None
  }

  function PropertyOf(v: V, key: Text): Option<V> { if v.Obj? then Property(v.members, key) else None }

  /** The decoder on the values the gateway prints. */
  const BROWSER: Decoder<V> :=
    Decoder((t: Text) => Parse(t), (v: V) => v.Null?, (v: V, key: Text) => PropertyOf(v, key))

  /** `dispatchFrame`: the calls so far and whether it threw. */
  function Dispatch<J>(dec: Decoder<J>, calls: seq<Call<J>>, frame: Text): (seq<Call<J>>, bool) {
    var (event, data) := TakeLines(SplitLines(frame));
    if data == [] then (calls, false)
    else
      match dec.parse(data)
      case None => (calls, true)
      case Some(payload) =>
        if event == NAME_TOKEN then
          if dec.isNull(payload) then (calls, true)
          else (calls + [OnToken(dec.property(payload, KEY_TEXT))], false)
        else if event == NAME_ERROR then
          if dec.isNull(payload) then (calls, true)
          else (calls + [OnError(dec.property(payload, KEY_MESSAGE))], false)
        else (calls, false)
  }

  /** `dispatchFrame` with its loop. */
  method DispatchFrame<J>(dec: Decoder<J>, calls: seq<Call<J>>, frame: Text)
    returns (after: seq<Call<J>>, threw: bool)
    ensures (after, threw) == Dispatch(dec, calls, frame)
  {
    var lines := SplitLines(frame);
    var event, data: Text := NAME_DEFAULT, [];
    for k := 0 to |lines|
      invariant (event, data) == TakeLines(lines[..k])
    {
      assert lines[..k + 1][..k] == lines[..k];
      var line := lines[k];
      if EVENT <= line {
        event := Trim(line[6..]);
      } else if DATA <= line {
        data := Trim(line[5..]);
      }
    }
    assert lines[..|lines|] == lines;
    if data == [] {
      return calls, false;
    }
    var payload := dec.parse(data);
    if payload.None? {
      return calls, true;
    }
    if event == NAME_TOKEN {
      if dec.isNull(payload.value) {
        return calls, true;
      }
      return calls + [OnToken(dec.property(payload.value, KEY_TEXT))], false;
    }
    if event == NAME_ERROR {
      if dec.isNull(payload.value) {
        return calls, true;
      }
      return calls + [OnError(dec.property(payload.value, KEY_MESSAGE))], false;
    }
    return calls, false;
  }

  function Dispatcher<J>(dec: Decoder<J>): (seq<Call<J>>, Text) -> (seq<Call<J>>, bool) {
    (calls: seq<Call<J>>, frame: Text) => Dispatch(dec, calls, frame)
  }

  /** How the reader ended: the body was exhausted, or reading it rejected. */
  datatype Ending = Exhausted | Rejected

  /** `streamMessage` after the response arrived, on the decoded reads. */
  function Streamed<J>(dec: Decoder<J>, ok: bool, status: int, chunks: seq<Text>, ending: Ending)
    : (seq<Call<J>>, bool)
  {
    if !ok then ([OnFailed(status)], false)
    else
      var r := ReadAll(Dispatcher(dec), BLANK_LINE, [], chunks);
      if r.2 || ending.Rejected? then (r.0, true) else (r.0 + [OnDone], false)
  }

  /** `streamMessage` with its two loops. */
  method StreamMessage<J>(dec: Decoder<J>, ok: bool, status: int, chunks: seq<Text>, ending: Ending)
    returns (calls: seq<Call<J>>, threw: bool)
    ensures (calls, threw) == Streamed(dec, ok, status, chunks, ending)
  {
    if !ok {
      return [OnFailed(status)], false;
    }
    calls, threw := [], false;
    var buffer: Text := [];
    assert chunks[..0] == [];
    for k := 0 to |chunks|
      invariant !threw && (calls, buffer, false) == ReadAll(Dispatcher(dec), BLANK_LINE, [], chunks[..k])
    {
      assert chunks[..k + 1][..k] == chunks[..k];
      buffer := buffer + chunks[k];
      ghost var whole, before := buffer, calls;
      var split := Cut(BLANK_LINE, buffer);
      while split.Some?
        invariant !threw && split == Cut(BLANK_LINE, buffer)
        invariant Drain(Dispatcher(dec), BLANK_LINE, calls, buffer) == Drain(Dispatcher(dec), BLANK_LINE, before, whole)
        decreases |buffer|
      {
        var (frame, rest) := split.value;
        ghost var callsBefore := calls;
        calls, threw := DispatchFrame(dec, calls, frame);
        assert Dispatcher(dec)(callsBefore, frame) == (calls, threw);
        buffer := rest;
        if threw {
          ReadThrown(Dispatcher(dec), BLANK_LINE, [], chunks, k + 1);
          return;
        }
        split := Cut(BLANK_LINE, buffer);
      }
    }
    assert chunks[..|chunks|] == chunks;
    if ending.Rejected? {
      return calls, true;
    }
    calls := calls + [OnDone];
  }

  /** A reader that was ended stays ended. */
  lemma {:induction false} ReadThrown<F, T>(h: LineFeed.Handler<F, T>, d: seq<T>, start: F, chunks: seq<seq<T>>, k: nat)
    requires d != [] && k <= |chunks| && ReadAll(h, d, start, chunks[..k]).2
    ensures ReadAll(h, d, start, chunks) == ReadAll(h, d, start, chunks[..k])
    decreases |chunks|
  {
    if k == |chunks| {
      assert chunks[..k] == chunks;
    } else {
      var init := chunks[..|chunks| - 1];
      assert init[..k] == chunks[..k];
      ReadThrown(h, d, start, init, k);
    }
  }

  /** On arbitrary input, how the network cut the text does not matter. */
  lemma BrowserCutIndependent<J>(dec: Decoder<J>, ok: bool, status: int, chunks: seq<Text>, ending: Ending)
    ensures Streamed(dec, ok, status, chunks, ending) == Streamed(dec, ok, status, [Concat(chunks)], ending)
  {
    CutsDoNotMatter(Dispatcher(dec), BLANK_LINE, [], chunks);
    CutsDoNotMatter(Dispatcher(dec), BLANK_LINE, [], [Concat(chunks)]);
    assert [Concat(chunks)][..0] == [];
    assert Concat([Concat(chunks)]) == Concat(chunks);
  }

  // ---- what the reader makes of any frame ---------------------------------------------------

  /** The lines, joined by LF, are the frame, and hold no LF. */
  lemma SplitLinesMeaning(frame: Text)
    ensures var lines := SplitLines(frame); var n := |lines| - 1;
      Join(NL, lines[..n]) + lines[n] == frame && forall line | line in lines :: LF !in line
  {
    var k := |Frames(NL, frame)|;
    Rejoin(NL, frame, k);
    assert Frames(NL, frame)[..k] == Frames(NL, frame);
    FramesAreWhole(NL, frame);
    forall line | line in Frames(NL, frame) ensures LF !in line { WholeLine(line); }
    AfterStep(NL, frame, k);
    RestHasNoLf(Rest(NL, frame));
  }

  lemma WholeLine(line: Text)
    requires Whole(NL, line)
    ensures LF !in line
  {
    IndexOfMeaning(NL, line + NL);
    if i :| 0 <= i < |line| && line[i] == LF {
      OccursNl(line + NL, i);
      assert false;
    }
  }

  lemma RestHasNoLf(s: Text)
    requires Cut(NL, s).None?
    ensures LF !in s
  {
    IndexOfMeaning(NL, s);
    if i :| 0 <= i < |s| && s[i] == LF {
      OccursNl(s, i);
      assert false;
    }
  }

  /** Line k is the last one with this prefix. */
  predicate LastWith(lines: seq<Text>, prefix: Text, k: nat) {
    k < |lines| && prefix <= lines[k] && forall j | k < j < |lines| :: !(prefix <= lines[j])
  }

  /** A frame's event is what its last `event:` line says, "message" without one; its
      data is what its last `data:` line says, nothing without one; both trimmed. */
  lemma {:induction false} TakeLinesMeaning(lines: seq<Text>)
    ensures forall k: nat | LastWith(lines, EVENT, k) :: TakeLines(lines).0 == Trim(lines[k][6..])
    ensures forall k: nat | LastWith(lines, DATA, k) :: TakeLines(lines).1 == Trim(lines[k][5..])
    ensures (forall k | 0 <= k < |lines| :: !(EVENT <= lines[k])) ==> TakeLines(lines).0 == NAME_DEFAULT
    ensures (forall k | 0 <= k < |lines| :: !(DATA <= lines[k])) ==> TakeLines(lines).1 == []
  {
    if lines != [] {
      var n := |lines| - 1;
      TakeLinesMeaning(lines[..n]);
      assert forall k | 0 <= k < n :: lines[..n][k] == lines[k];
      NotBoth(lines[n]);
      forall k: nat | LastWith(lines, EVENT, k) && k < n ensures LastWith(lines[..n], EVENT, k) {}
      forall k: nat | LastWith(lines, DATA, k) && k < n ensures LastWith(lines[..n], DATA, k) {}
    }
  }

  lemma NotBoth(line: Text)
    ensures !(EVENT <= line && DATA <= line)
  {
    assert EVENT[0] != DATA[0];
  }

  /** `trim` takes off white space at both ends, all of it, and nothing else. */
  lemma TrimMeaning(s: Text) returns (a: Text, b: Text)
    ensures s == a + Trim(s) + b && (forall x | x in a + b :: Space(x))
    ensures Trim(s) != [] ==> !Space(Trim(s)[0]) && !Space(Trim(s)[|Trim(s)| - 1])
  {
    a := TrimLeftMeaning(s);
    b := TrimRightMeaning(TrimLeft(s));
    assert s == a + (Trim(s) + b) == a + Trim(s) + b;
    if Trim(s) != [] { assert Trim(s)[0] == TrimLeft(s)[0]; }
  }

  lemma {:induction false} TrimLeftMeaning(s: Text) returns (a: Text)
    ensures s == a + TrimLeft(s) && (forall x | x in a :: Space(x))
    ensures TrimLeft(s) != [] ==> !Space(TrimLeft(s)[0])
  {
    if s != [] && Space(s[0]) {
      a := TrimLeftMeaning(s[1..]);
      a := [s[0]] + a;
      assert s == [s[0]] + s[1..];
    } else {
      a := [];
    }
  }

  lemma {:induction false} TrimRightMeaning(s: Text) returns (b: Text)
    ensures s == TrimRight(s) + b && (forall x | x in b :: Space(x))
    ensures TrimRight(s) != [] ==> !Space(TrimRight(s)[|TrimRight(s)| - 1])
  {
    if s != [] && Space(s[|s| - 1]) {
      b := TrimRightMeaning(s[..|s| - 1]);
      b := b + [s[|s| - 1]];
      assert s == s[..|s| - 1] + [s[|s| - 1]];
    } else {
      b := [];
    }
  }

  /** Any frame makes at most one call. It throws iff its data is there and is no JSON, or
      is null in a token or error frame; otherwise a token frame calls onToken and an
      error frame onError, with the property of that name, and every other frame or one
      without data makes no call. */
  lemma DispatchMeaning<J>(dec: Decoder<J>, calls: seq<Call<J>>, frame: Text)
    ensures var (event, data) := TakeLines(SplitLines(frame)); var (after, threw) := Dispatch(dec, calls, frame);
      var payload := dec.parse(data);
      var wanted := event == NAME_TOKEN || event == NAME_ERROR;
      && (threw <==> data != [] && (payload.None? || (wanted && dec.isNull(payload.value))))
      && (threw || data == [] || !wanted ==> after == calls)
      && (!threw && data != [] && event == NAME_TOKEN ==>
           after == calls + [OnToken(dec.property(payload.value, KEY_TEXT))])
      && (!threw && data != [] && event == NAME_ERROR ==>
           after == calls + [OnError(dec.property(payload.value, KEY_MESSAGE))])
  {
    assert NAME_TOKEN[0] != NAME_ERROR[0];
  }

  // ---- printer and reader undo each other --------------------------------------------------

  /** The calls the page should see. */
  function Expected(es: seq<Event>): seq<Call<V>> {
    if es == [] then []
    else
      (match es[0]
       case Token(t) => [OnToken(Some(Str(t)))]
       case Error(m) => [OnError(Some(Str(m)))]
       case _ => []) + Expected(es[1..])
  }

  predicate NoLf(s: Text) { LF !in s }

  lemma PrintableNoLf(s: Text)
    requires Printable(s)
    ensures NoLf(s)
  {
  }

  lemma TrimBlank(s: Text)
    requires s != [] && !Space(s[0]) && !Space(s[|s| - 1])
    ensures Trim([BLANK] + s) == s
  {
    assert ([BLANK] + s)[1..] == s;
    assert TrimLeft([BLANK] + s) == TrimLeft(s) == s;
  }

  lemma NamePlain(e: Event)
    ensures NoLf(Name(e)) && Trim([BLANK] + Name(e)) == Name(e)
    ensures Name(e) == NAME_TOKEN <==> e.Token?
    ensures Name(e) == NAME_ERROR <==> e.Error?
  {
    TrimBlank(Name(e));
    assert NAME_TOKEN[0] == 116 && NAME_START[0] == 115 && NAME_DONE[0] == 100 && NAME_ERROR[0] == 101;
  }

  /** A printed object is one trimmed line that parses back. */
  lemma ObjectPlain(m: Members)
    requires m.Member?
    ensures var p := Print(Obj(m));
      p != [] && NoLf(p) && Trim([BLANK] + p) == p && Parse(p) == Some(Obj(m))
  {
    var p := Print(Obj(m));
    PrintPrintable(Obj(m));
    PrintableNoLf(p);
    ParsePrint(Obj(m));
    RestEndsClosed(m.rest);
    var inner := PrintMember(m.key, Print(m.value));
    assert p == [OPEN] + (inner + PrintRest(m.rest));
    assert p[|p| - 1] == PrintRest(m.rest)[|PrintRest(m.rest)| - 1];
    TrimBlank(p);
  }

  lemma {:induction false} RestEndsClosed(m: Members)
    ensures PrintRest(m) != [] && PrintRest(m)[|PrintRest(m)| - 1] == CLOSE
  {
    match m
    case End =>
    case Member(_, _, rest) => RestEndsClosed(rest);
  }

  lemma OccursNl(s: Text, j: nat)
    ensures OccursAt(NL, s, j) <==> j < |s| && s[j] == LF
  {
    if j < |s| { assert s[j..j + 1] == [s[j]]; }
  }

  /** A text without LF is one line. */
  lemma OneLine(s: Text)
    requires NoLf(s)
    ensures Cut(NL, s) == None
  {
    IndexOfMeaning(NL, s);
    forall j: nat { OccursNl(s, j); }
    assert forall j | 0 <= j < |s| :: s[j] in s;
  }

  lemma TwoLines(a: Text, b: Text)
    requires NoLf(a) && NoLf(b)
    ensures SplitLines(a + NL + b) == [a, b]
  {
    var s := a + NL + b;
    forall j: nat | j < |a| ensures !OccursAt(NL, s, j) {
      OccursNl(s, j);
      assert s[j] == a[j];
    }
    CutWhole(NL, a, b);
    OneLine(b);
    assert Frames(NL, b) == [] && Frames(NL, s) == [a] + Frames(NL, b);
    assert After(NL, s, 1) == After(NL, b, 0);
  }

  /** The event name and the data of a two-line frame. */
  lemma LinesOfFrame(a: Text, b: Text)
    requires EVENT <= a && DATA <= b
    ensures TakeLines([a, b]) == (Trim(a[6..]), Trim(b[5..]))
  {
    assert [a, b][..1] == [a] && [a][..0] == [];
    assert b[0] == DATA[0] && EVENT[0] != DATA[0];
  }

  /** A printed frame splits into its name and its data. */
  lemma NameAndData(name: Text, data: Text)
    requires NoLf(name) && Trim([BLANK] + name) == name
    requires NoLf(data) && Trim([BLANK] + data) == data
    ensures TakeLines(SplitLines((EVENT + [BLANK] + name) + NL + (DATA + [BLANK] + data))) == (name, data)
  {
    var a, b := EVENT + [BLANK] + name, DATA + [BLANK] + data;
    TwoLines(a, b);
    assert a[6..] == [BLANK] + name;
    assert b[5..] == [BLANK] + data;
    LinesOfFrame(a, b);
  }

  lemma OneProperty(key: Text, v: V)
    ensures PropertyOf(Obj(Member(key, v, End)), key) == Some(v)
  {
    assert Property(End, key) == None;
  }

  /** What one event's payload makes of the calls. */
  lemma PayloadCalls(calls: seq<Call<V>>, e: Event, frame: Text, data: Text)
    requires TakeLines(SplitLines(frame)) == (Name(e), data)
    requires data != [] && Parse(data) == Some(Payload(e))
    ensures Dispatch(BROWSER, calls, frame) == (calls + Expected([e]), false)
  {
    NamePlain(e);
    assert [e][1..] == [];
    match e
    case Token(t) =>
      OneProperty(KEY_TEXT, Str(t));
      assert Expected([e]) == [OnToken(Some(Str(t)))];
    case Error(m) =>
      OneProperty(KEY_MESSAGE, Str(m));
      assert Expected([e]) == [OnError(Some(Str(m)))];
    case _ => assert Expected([e]) == [] && calls + [] == calls;
  }

  /** The browser reads a printed frame back as its event. */
  lemma FrameRoundTrip(calls: seq<Call<V>>, e: Event)
    ensures Dispatch(BROWSER, calls, Frame(e)) == (calls + Expected([e]), false)
  {
    NamePlain(e);
    ObjectPlain(Payload(e).members);
    NameAndData(Name(e), Print(Payload(e)));
    PayloadCalls(calls, e, Frame(e), Print(Payload(e)));
  }

  /** The blank line ends a two-line frame and nothing before it does: the only LF
      inside is followed by data. */
  lemma CutTwoLines(a: Text, b: Text, tail: Text)
    requires NoLf(a) && NoLf(b) && b != []
    ensures Cut(BLANK_LINE, (a + NL + b) + BLANK_LINE + tail) == Some((a + NL + b, tail))
  {
    var f := a + NL + b;
    var s := f + BLANK_LINE + tail;
    forall j: nat | j < |f| ensures !OccursAt(BLANK_LINE, s, j) {
      assert s[j] == f[j];
      if j < |a| {
        assert s[j] == a[j];
      } else if j == |a| {
        assert s[j + 1] == b[0];
      } else {
        assert s[j] == b[j - |a| - 1];
      }
      TwoUnits(s, j);
    }
    CutWhole(BLANK_LINE, f, tail);
  }

  lemma TwoUnits(s: Text, j: nat)
    ensures OccursAt(BLANK_LINE, s, j) ==> j + 1 < |s| && s[j] == LF && s[j + 1] == LF
  {
    if j + 2 <= |s| { assert s[j..j + 2] == [s[j], s[j + 1]]; }
  }

  lemma PrefixesNoLf(name: Text, data: Text)
    requires NoLf(name) && NoLf(data)
    ensures NoLf(EVENT + [BLANK] + name) && NoLf(DATA + [BLANK] + data)
  {
    assert NoLf(EVENT) && NoLf(DATA) && NoLf([BLANK]);
  }

  lemma FrameIsCut(e: Event, tail: Text)
    ensures Cut(BLANK_LINE, Printed(e) + tail) == Some((Frame(e), tail))
  {
    NamePlain(e);
    ObjectPlain(Payload(e).members);
    PrefixesNoLf(Name(e), Print(Payload(e)));
    CutTwoLines(EVENT + [BLANK] + Name(e), DATA + [BLANK] + Print(Payload(e)), tail);
  }

  lemma DrainFirst(calls: seq<Call<V>>, e: Event, tail: Text)
    ensures Drain(Dispatcher(BROWSER), BLANK_LINE, calls, Printed(e) + tail)
         == Drain(Dispatcher(BROWSER), BLANK_LINE, calls + Expected([e]), tail)
  {
    FrameIsCut(e, tail);
    FrameRoundTrip(calls, e);
    assert Dispatcher(BROWSER)(calls, Frame(e)) == (calls + Expected([e]), false);
  }

  lemma {:induction false} DrainPrinted(calls: seq<Call<V>>, es: seq<Event>)
    ensures Drain(Dispatcher(BROWSER), BLANK_LINE, calls, PrintedAll(es)) == (calls + Expected(es), [], false)
    decreases |es|
  {
    if es == [] {
      OneBlank();
      assert calls + Expected(es) == calls;
    } else {
      DrainFirst(calls, es[0], PrintedAll(es[1..]));
      DrainPrinted(calls + Expected([es[0]]), es[1..]);
      ExpectedFirst(es);
      assert calls + Expected([es[0]]) + Expected(es[1..]) == calls + Expected(es);
    }
  }

  lemma OneBlank()
    ensures Cut(BLANK_LINE, []) == None
  {
  }

  lemma ExpectedFirst(es: seq<Event>)
    requires es != []
    ensures Expected(es) == Expected([es[0]]) + Expected(es[1..])
  {
    assert [es[0]][1..] == [];
  }

  /** For every list of printed events and every cut into reads, also inside a
      blank line: exactly the token and error payloads, in order, then the end. */
  lemma SseRoundTrip(es: seq<Event>, chunks: seq<Text>)
    ensures Concat(chunks) == PrintedAll(es) ==>
      Streamed(BROWSER, true, 200, chunks, Exhausted) == (Expected(es) + [OnDone], false)
  {
    CutsDoNotMatter(Dispatcher(BROWSER), BLANK_LINE, [], chunks);
    DrainPrinted([], es);
    assert [] + Expected(es) == Expected(es);
  }
}
