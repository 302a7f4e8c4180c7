/** The incremental parsers of streamed responses: OpenAI and Anthropic events
    and Ollama's newline-delimited JSON. */
module StreamParsers {
  import opened Wrappers
  import opened Framing
  import opened LineFeed
  import opened PyJson
  import Events

  newtype Byte = n: int | 0 <= n < 256
  type Bytes = seq<Byte>

  /** json.loads (None where it raises) and str() of values that are no text. */
  datatype Env = Env(loads: Bytes -> Option<Json>, show: Json -> string)

  datatype Kind = OpenAI | Anthropic | Ollama

  /** The fields a parser accumulates; None of Python is Null. */
  datatype Fields = Fields(output: string, prompt: Json, completion: Json, total: Json, completed: bool)

  const START: Fields := Fields("", Null, Null, Null, false)

  const LF: Bytes := [10]
  const DATA: Bytes := [100, 97, 116, 97, 58]        // "data:"
  const DONE: Bytes := [91, 68, 79, 78, 69, 93]      // "[DONE]"

  /** bytes.strip(): ASCII white space at both ends. */
  predicate Space(b: Byte) { b == 32 || 9 <= b <= 13 }

  function StripLeft(s: Bytes): Bytes { if s != [] && Space(s[0]) then StripLeft(s[1..]) else s }

  function StripRight(s: Bytes): Bytes {
    if s != [] && Space(s[|s| - 1]) then StripRight(s[..|s| - 1]) else s
  }

  function Strip(s: Bytes): Bytes { StripRight(StripLeft(s)) }

  /** `_safe_json`. */
  function SafeJson(env: Env, content: Bytes): Option<Json> {
    if content == [] then None
    else
      match env.loads(content)
      case Some(Null) => None
      case r => r
  }

  function ToStr(env: Env, v: Json): string { if v.Str? then v.s else env.show(v) }

  /** A line handler's outcome: the fields it left behind, and whether it raised. */
  type Outcome = (Fields, bool)

  function Ok(f: Fields): Outcome { (f, false) }
  function Raised(f: Fields): Outcome { (f, true) }

  // ---- one line ---------------------------------------------------------------------

  /** One turn of `for choice in ...`. */
  function Choice(f: Fields, choice: Json): Outcome {
    match Get(choice, "delta")
    case None => Raised(f)
    case Some(d) =>
      match Get(Or(d, EMPTY), "content")
      case None => Raised(f)
      case Some(content) =>
        if !Truthy(content) then Ok(f)
        else if content.Str? then Ok(f.(output := f.output + content.s))
        else Raised(f)
  }

  function Choices(f: Fields, choices: seq<Json>): Outcome
    decreases |choices|
  {
    if choices == [] then Ok(f)
    else
      var r := Choice(f, choices[0]);
      if r.1 then r else Choices(r.0, choices[1..])
  }

  function OpenAIObject(f: Fields, obj: Json): Outcome {
    match GetOr(obj, "choices", Arr([]))
    case None => Raised(f)
    case Some(c) =>
      var choices := Or(c, Arr([]));
      // Iterating anything but a list fails, at once or at the first item.
      if !choices.Arr? then Raised(f)
      else
        var r := Choices(f, choices.items);
        if r.1 then r
        else
          match Get(obj, "usage")
          case None => Raised(r.0)
          case Some(usage) =>
            if !Truthy(usage) then r
            else if !usage.Obj? then Raised(r.0)
            else Ok(r.0.(prompt := Get(usage, "prompt_tokens").value,
                         completion := Get(usage, "completion_tokens").value,
                         total := Get(usage, "total_tokens").value))
  }

  /** A number an Anthropic event carries: input of a message_start, output of a
      message_delta. */
  datatype Usage = Input(v: Json) | Output(v: Json) | Neither

  /** `obj.get(a) or {}` followed by `.get(b)`. */
  function Nested(obj: Json, a: string, b: string): Option<Json> {
    match Get(obj, a)
    case None => None
    case Some(v) => Get(Or(v, EMPTY), b)
  }

  function InputTokens(obj: Json): Option<Json> {
    match Get(obj, "message")
    case None => None
    case Some(m) => Nested(Or(m, EMPTY), "usage", "input_tokens")
  }

  function AnthropicObject(env: Env, f: Fields, obj: Json): Outcome {
    match Get(obj, "type")
    case None => Raised(f)
    case Some(etype) =>
      if etype == Str("message_start") then
        match InputTokens(obj)
        case None => Raised(f)
        case Some(n) => Ok(if n.Null? then f else f.(prompt := n))
      else if etype == Str("content_block_delta") then
        match Nested(obj, "delta", "type")
        case None => Raised(f)
        case Some(t) =>
          if t != Str("text_delta") then Ok(f)
          else Ok(f.(output := f.output + ToStr(env, GetOr(Or(Get(obj, "delta").value, EMPTY), "text", Str("")).value)))
      else if etype == Str("message_delta") then
        match Nested(obj, "usage", "output_tokens")
        case None => Raised(f)
        case Some(n) => if n.Null? then Ok(f) else Totalled(f.(completion := n))
      else if etype == Str("message_stop") then Ok(f.(completed := true))
      else Ok(f)
  }

  /** total = prompt + completion, when the prompt is known. */
  function Totalled(f: Fields): Outcome {
    if f.prompt.Null? then Ok(f)
    else
      match Add(f.prompt, f.completion)
      case None => Raised(f)
      case Some(t) => Ok(f.(total := t))
  }

  function OllamaObject(env: Env, f: Fields, obj: Json): Outcome {
    match Nested(obj, "message", "content")
    case None => Raised(f)
    case Some(m) =>
      var content := Or(m, GetOr(obj, "response", Str("")).value);
      var f := if Truthy(content) then f.(output := f.output + ToStr(env, content)) else f;
      if !Truthy(Get(obj, "done").value) then Ok(f)
      else
        var p, e := Get(obj, "prompt_eval_count").value, Get(obj, "eval_count").value;
        var f := f.(completed := true,
                    prompt := if p.Null? then f.prompt else p,
                    completion := if e.Null? then f.completion else e);
        if f.completion.Null? then Ok(f) else Totalled(f)
  }

  /** The body of the while loop in each `feed`, for the line just cut off. */
  function HandleLine(env: Env, kind: Kind, f: Fields, raw: Bytes): Outcome {
    var line := Strip(raw);
    if kind.Ollama? then
      match SafeJson(env, line)
      case None => Ok(f)
      case Some(obj) => OllamaObject(env, f, obj)
    else if !(DATA <= line) then Ok(f)
    else
      var data := Strip(line[5..]);
      if kind.OpenAI? && data == DONE then Ok(f.(completed := true))
      else
        match SafeJson(env, data)
        case None => Ok(f)
        case Some(obj) => if kind.OpenAI? then OpenAIObject(f, obj) else AnthropicObject(env, f, obj)
  }

  /** The handler as a value. */
  function LineOf(env: Env, kind: Kind): (Fields, Bytes) -> Outcome {
    (f: Fields, line: Bytes) => HandleLine(env, kind, f, line)
  }

  class StreamParser {
    const env: Env
    const kind: Kind
    var fields: Fields
    var buffer: Bytes

    constructor (env: Env, kind: Kind)
      ensures this.env == env && this.kind == kind && fields == START && buffer == []
    {
      this.env, this.kind, fields, buffer := env, kind, START, [];
    }

    /** `feed`. The line is off the buffer before its handler runs. */
    method Feed(chunk: Bytes) returns (raised: bool)
      modifies this
      ensures (fields, buffer, raised) == Drain(LineOf(env, kind), LF, old(fields), old(buffer) + chunk)
    {
      buffer := buffer + chunk;
      ghost var whole := buffer;
      var cut := Cut(LF, buffer);
      while cut.Some?
        invariant cut == Cut(LF, buffer)
        invariant Drain(LineOf(env, kind), LF, fields, buffer) == Drain(LineOf(env, kind), LF, old(fields), whole)
        decreases |buffer|
      {
        var (line, rest) := cut.value;
        ghost var before := fields;
        var r := HandleLine(env, kind, fields, line);
        assert LineOf(env, kind)(before, line) == r;
        buffer := rest;
        fields := r.0;
        if r.1 {
          return true;
        }
        cut := Cut(LF, buffer);
      }
      raised := false;
    }
  }

  /** All lines in order, keeping what a raising handler left behind. */
  function Lines(env: Env, kind: Kind, lines: seq<Bytes>): Fields {
    Fold(LineOf(env, kind), START, lines)
  }

  ghost predicate NoneRaises(env: Env, kind: Kind, lines: seq<Bytes>) {
    Quiet(LineOf(env, kind), START, lines)
  }

  /** If no line before the last complete one raises, a parser's text, counts,
      completion and residual buffer depend only on the concatenated bytes: the
      left-to-right fold over their LF-terminated lines, and what follows the last LF. */
  lemma ParserChunkIndependent(env: Env, kind: Kind, chunks: seq<Bytes>)
    requires QuietButLast(LineOf(env, kind), START, Frames(LF, Concat(chunks)))
    ensures FeedAll(LineOf(env, kind), LF, START, chunks)
         == (Lines(env, kind, Frames(LF, Concat(chunks))), Rest(LF, Concat(chunks)))
  {
    ChunkIndependent(LineOf(env, kind), LF, START, chunks);
  }

  /** And only then: if an earlier line raises, some cut into non-empty reads ends
      differently from the same bytes in one read. */
  lemma ParserCutsMatterIff(env: Env, kind: Kind, input: Bytes)
    ensures QuietButLast(LineOf(env, kind), START, Frames(LF, input)) <==>
      (forall chunks | Concat(chunks) == input && [] !in chunks ::
         FeedAll(LineOf(env, kind), LF, START, chunks) == FeedAll(LineOf(env, kind), LF, START, [input]))
  {
    ChunkIndependentIff(LineOf(env, kind), LF, START, input);
  }

  // ---- token totals ---------------------------------------------------------------------------

  /** The total is set exactly when both counts are, and is their sum. */
  predicate TotalIsSum(f: Fields) {
    if f.prompt.Null? || f.completion.Null? then f.total.Null?
    else Add(f.prompt, f.completion) == Some(f.total)
  }

  /** For every Ollama stream whose line handlers do not raise. */
  lemma {:induction false} OllamaTotals(env: Env, lines: seq<Bytes>)
    requires NoneRaises(env, Ollama, lines)
    ensures TotalIsSum(Lines(env, Ollama, lines))
  {
    if lines != [] {
      LastLine(env, Ollama, lines);
      OllamaTotals(env, lines[..|lines| - 1]);
      OllamaLine(env, Lines(env, Ollama, lines[..|lines| - 1]), lines[|lines| - 1]);
    }
  }

  lemma OllamaLine(env: Env, f: Fields, raw: Bytes)
    requires TotalIsSum(f) && !HandleLine(env, Ollama, f, raw).1
    ensures TotalIsSum(HandleLine(env, Ollama, f, raw).0)
  {
  }

  lemma LastLine(env: Env, kind: Kind, lines: seq<Bytes>)
    requires lines != [] && NoneRaises(env, kind, lines)
    ensures NoneRaises(env, kind, lines[..|lines| - 1])
    ensures Lines(env, kind, lines)
         == HandleLine(env, kind, Lines(env, kind, lines[..|lines| - 1]), lines[|lines| - 1]).0
    ensures !HandleLine(env, kind, Lines(env, kind, lines[..|lines| - 1]), lines[|lines| - 1]).1
  {
    var init := lines[..|lines| - 1];
    assert !RaisesAt(LineOf(env, kind), START, lines, |lines| - 1);
    forall k: nat | k < |init| ensures !RaisesAt(LineOf(env, kind), START, init, k) {
      assert init[..k] == lines[..k];
      assert !RaisesAt(LineOf(env, kind), START, lines, k);
    }
  }

  /** The token count an Anthropic line carries. */
  function UsageOf(env: Env, raw: Bytes): Usage {
    var line := Strip(raw);
    if !(DATA <= line) then Neither
    else
      match SafeJson(env, Strip(line[5..]))
      case None => Neither
      case Some(obj) =>
        if !obj.Obj? then Neither
        else if Get(obj, "type") == Some(Str("message_start")) then
          var n := InputTokens(obj);
          if n.Some? && !n.value.Null? then Input(n.value) else Neither
        else if Get(obj, "type") == Some(Str("message_delta")) then
          var n := Nested(obj, "usage", "output_tokens");
          if n.Some? && !n.value.Null? then Output(n.value) else Neither
        else Neither
  }

  /** The last input count among the lines, and the last output count. */
  function LastInput(env: Env, lines: seq<Bytes>): Json {
    if lines == [] then Null
    else
      match UsageOf(env, lines[|lines| - 1])
      case Input(v) => v
      case _ => LastInput(env, lines[..|lines| - 1])
  }

  function LastOutput(env: Env, lines: seq<Bytes>): Json {
    if lines == [] then Null
    else
      match UsageOf(env, lines[|lines| - 1])
      case Output(v) => v
      case _ => LastOutput(env, lines[..|lines| - 1])
  }

  /** The input count known when the last output count arrived. */
  function InputAtOutput(env: Env, lines: seq<Bytes>): Json {
    if lines == [] then Null
    else if UsageOf(env, lines[|lines| - 1]).Output? then LastInput(env, lines[..|lines| - 1])
    else InputAtOutput(env, lines[..|lines| - 1])
  }

  lemma {:induction false} AnthropicCounts(env: Env, lines: seq<Bytes>)
    requires NoneRaises(env, Anthropic, lines)
    ensures var f := Lines(env, Anthropic, lines);
      && f.prompt == LastInput(env, lines)
      && f.completion == LastOutput(env, lines)
      && (if InputAtOutput(env, lines).Null? then f.total.Null?
          else Add(InputAtOutput(env, lines), f.completion) == Some(f.total))
  {
    if lines != [] {
      var n := |lines| - 1;
      LastLine(env, Anthropic, lines);
      AnthropicCounts(env, lines[..n]);
      AnthropicLine(env, Lines(env, Anthropic, lines[..n]), lines[n]);
      OutputKeepsInput(env, lines[..n]);
    }
  }

  /** What a quiet Anthropic line does to the counts. */
  lemma AnthropicLine(env: Env, f: Fields, raw: Bytes)
    requires !HandleLine(env, Anthropic, f, raw).1
    ensures var g := HandleLine(env, Anthropic, f, raw).0;
      match UsageOf(env, raw)
      case Input(v) => !v.Null? && g.prompt == v && g.completion == f.completion && g.total == f.total
      case Output(v) => !v.Null? && g.completion == v && g.prompt == f.prompt
          && (if f.prompt.Null? then g.total == f.total else Add(f.prompt, v) == Some(g.total))
      case Neither => g.prompt == f.prompt && g.completion == f.completion && g.total == f.total
  {
  }

  /** An input count, once known, stays known. */
  lemma {:induction false} OutputKeepsInput(env: Env, lines: seq<Bytes>)
    ensures LastInput(env, lines).Null? ==> InputAtOutput(env, lines).Null?
  {
    if lines != [] { OutputKeepsInput(env, lines[..|lines| - 1]); }
  }

  /** Python's `==` as far as adding the same count can tell: equal values, or a
      number and a bool of equal value. */
  predicate SameCount(a: Json, b: Json) {
    a == b || (AsNumber(a).Some? && AsNumber(a) == AsNumber(b))
  }

  lemma AddTells(a: Json, b: Json, c: Json)
    requires Add(a, c).Some?
    ensures Add(b, c) == Add(a, c) <==> SameCount(a, b)
  {
    if a.Str? && b.Str? && c.Str? { SuffixTells(a.s, b.s, c.s); }
    if a.Arr? && b.Arr? && c.Arr? { SuffixTells(a.items, b.items, c.items); }
  }

  lemma SuffixTells<T>(a: seq<T>, b: seq<T>, c: seq<T>)
    ensures a + c == b + c <==> a == b
  {
    if a + c == b + c {
      assert |a| == |b|;
      assert (a + c)[..|a|] == a && (b + c)[..|b|] == b;
    }
  }

  /** A set Anthropic total equals the sum of the two counts exactly when no
      message_start changed the input count after the last message_delta that reported
      output, whatever the counts are. */
  lemma AnthropicTotals(env: Env, lines: seq<Bytes>)
    requires NoneRaises(env, Anthropic, lines)
    ensures var f := Lines(env, Anthropic, lines);
      !f.total.Null? ==> (TotalIsSum(f) <==> SameCount(InputAtOutput(env, lines), LastInput(env, lines)))
  {
    AnthropicCounts(env, lines);
    OutputKeepsInput(env, lines);
    var f := Lines(env, Anthropic, lines);
    if !f.total.Null? { AddTells(InputAtOutput(env, lines), f.prompt, f.completion); }
  }

  /** In particular when no input-bearing message_start follows an output-bearing
      message_delta. */
  lemma {:induction false} NoLateInput(env: Env, lines: seq<Bytes>)
    requires forall i, j | 0 <= i < j < |lines| :: UsageOf(env, lines[i]).Output? ==> !UsageOf(env, lines[j]).Input?
    ensures InputAtOutput(env, lines).Null? || LastInput(env, lines) == InputAtOutput(env, lines)
    ensures (forall i | 0 <= i < |lines| :: !UsageOf(env, lines[i]).Output?) ==> InputAtOutput(env, lines).Null?
  {
    if lines != [] {
      var n := |lines| - 1;
      assert forall i | 0 <= i < n :: lines[..n][i] == lines[i];
      NoLateInput(env, lines[..n]);
      OutputKeepsInput(env, lines[..n]);
    }
  }

  /** A late input count does break the total: with counts 5, then output 3, then
      input 10, the total stays 8 while the counts add up to 13. */
  lemma LateInputBreaksTotal(env: Env, lines: seq<Bytes>)
    requires |lines| == 3
    requires UsageOf(env, lines[0]) == Input(Num(5.0))
    requires UsageOf(env, lines[1]) == Output(Num(3.0))
    requires UsageOf(env, lines[2]) == Input(Num(10.0))
    ensures NoneRaises(env, Anthropic, lines)
    ensures Lines(env, Anthropic, lines).total == Num(8.0) && !TotalIsSum(Lines(env, Anthropic, lines))
  {
    var f1 := LineStep(env, START, lines[0]);
    var f2 := LineStep(env, f1, lines[1]);
    var f3 := LineStep(env, f2, lines[2]);
    ThreeLines(LineOf(env, Anthropic), START, lines, f1, f2, f3);
  }

  lemma ThreeLines(
    h: LineFeed.Handler<Fields, Byte>, start: Fields, lines: seq<Bytes>, f1: Fields, f2: Fields, f3: Fields)
    requires |lines| == 3
    requires h(start, lines[0]) == (f1, false) && h(f1, lines[1]) == (f2, false) && h(f2, lines[2]) == (f3, false)
    ensures Quiet(h, start, lines) && Fold(h, start, lines) == f3
  {
    assert lines[..0] == [] && lines[..1][..0] == [] && lines[..2][..1] == lines[..1] && lines[..3] == lines;
    assert Fold(h, start, lines[..0]) == start;
    assert Fold(h, start, lines[..1]) == f1;
    assert Fold(h, start, lines[..2]) == f2;
  }

  /** A line that carries a count does not raise while the counts are numbers. */
  lemma LineStep(env: Env, f: Fields, raw: Bytes) returns (g: Fields)
    requires !UsageOf(env, raw).Neither? && UsageOf(env, raw).v.Num? && (f.prompt.Null? || f.prompt.Num?)
    ensures HandleLine(env, Anthropic, f, raw) == (g, false)
    ensures UsageOf(env, raw).Input? ==> g == f.(prompt := UsageOf(env, raw).v)
    ensures UsageOf(env, raw).Output? ==> g.prompt == f.prompt && g.completion == UsageOf(env, raw).v
    ensures UsageOf(env, raw).Output? && f.prompt.Num? ==> g.total == Num(f.prompt.n + g.completion.n)
  {
    g := HandleLine(env, Anthropic, f, raw).0;
  }

  /** ASCII text as bytes. */
  function Ascii(s: string): (b: Bytes)
    ensures |b| == |s| && forall k | 0 <= k < |s| :: s[k] < '\U{80}' ==> b[k] as int == s[k] as int
  {
    seq(|s|, k requires 0 <= k < |s| => (s[k] as int % 256) as Byte)
  }

  const START_5: string := "{" + ("\"type\":\"message_start\",\"message\":{\"usage\":{\"input_tokens\":5}}" + "}")
  const DELTA_3: string := "{" + ("\"type\":\"message_delta\",\"usage\":{\"output_tokens\":3}" + "}")
  const START_10: string := "{" + ("\"type\":\"message_start\",\"message\":{\"usage\":{\"input_tokens\":10}}" + "}")

  function StartObject(n: real): Json {
    Obj(map["type" := Str("message_start"),
            "message" := Obj(map["usage" := Obj(map["input_tokens" := Num(n)])])])
  }

  function DeltaObject(n: real): Json {
    Obj(map["type" := Str("message_delta"), "usage" := Obj(map["output_tokens" := Num(n)])])
  }

  /** A decoder that reads the three texts as the JSON they are. */
  function Reader(): Env {
    Env((b: Bytes) =>
          if b == Ascii(START_5) then Some(StartObject(5.0))
          else if b == Ascii(DELTA_3) then Some(DeltaObject(3.0))
          else if b == Ascii(START_10) then Some(StartObject(10.0))
          else None,
        (v: Json) => "")
  }

  lemma StripIdle(b: Bytes)
    requires b != [] && !Space(b[0]) && !Space(b[|b| - 1])
    ensures Strip(b) == b
  {
  }

  /** The payload of a `data:` line without white space. */
  lemma DataLine(b: Bytes)
    requires b != [] && !Space(b[0]) && !Space(b[|b| - 1])
    ensures Strip(DATA + b) == DATA + b && Strip((DATA + b)[5..]) == b
  {
    StripIdle(b);
    StripIdle(DATA + b);
    assert (DATA + b)[5..] == b;
  }

  lemma UsageOfData(env: Env, b: Bytes, obj: Json)
    requires b != [] && !Space(b[0]) && !Space(b[|b| - 1]) && env.loads(b) == Some(obj) && obj.Obj?
    ensures forall n :: obj == StartObject(n) ==> UsageOf(env, DATA + b) == Input(Num(n))
    ensures forall n :: obj == DeltaObject(n) ==> UsageOf(env, DATA + b) == Output(Num(n))
  {
    DataLine(b);
    forall n | obj == StartObject(n) ensures UsageOf(env, DATA + b) == Input(Num(n)) {
      assert obj.fields["type"] == Str("message_start");
    }
    forall n | obj == DeltaObject(n) ensures UsageOf(env, DATA + b) == Output(Num(n)) {
      assert obj.fields["type"] == Str("message_delta");
    }
  }

  lemma Braced(s: string)
    requires Braces(s)
    ensures Ascii(s) != [] && !Space(Ascii(s)[0]) && !Space(Ascii(s)[|s| - 1])
  {
  }

  lemma ReaderReads()
    ensures Reader().loads(Ascii(START_5)) == Some(StartObject(5.0))
    ensures Reader().loads(Ascii(DELTA_3)) == Some(DeltaObject(3.0))
    ensures Reader().loads(Ascii(START_10)) == Some(StartObject(10.0))
  {
    assert |DELTA_3| < |START_5| < |START_10|;
  }

  lemma ThreeBraced()
    ensures Braces(START_5) && Braces(DELTA_3) && Braces(START_10)
  {
  }

  predicate Braces(s: string) { |s| > 1 && s[0] == '{' && s[|s| - 1] == '}' }

  /** Such a stream, as bytes. */
  lemma LateInputStream() returns (lines: seq<Bytes>)
    ensures lines == [DATA + Ascii(START_5), DATA + Ascii(DELTA_3), DATA + Ascii(START_10)]
    ensures NoneRaises(Reader(), Anthropic, lines)
    ensures Lines(Reader(), Anthropic, lines).total == Num(8.0)
    ensures !TotalIsSum(Lines(Reader(), Anthropic, lines))
  {
    lines := [DATA + Ascii(START_5), DATA + Ascii(DELTA_3), DATA + Ascii(START_10)];
    ReaderReads();
    ReadStart(START_5, 5.0);
    ReadDelta();
    ReadStart(START_10, 10.0);
    LateInputBreaksTotal(Reader(), lines);
  }

  lemma ReadStart(s: string, n: real)
    requires s == START_5 || s == START_10
    requires Reader().loads(Ascii(s)) == Some(StartObject(n))
    ensures UsageOf(Reader(), DATA + Ascii(s)) == Input(Num(n))
  {
    ThreeBraced();
    Braced(s);
    UsageOfData(Reader(), Ascii(s), StartObject(n));
  }

  lemma ReadDelta()
    requires Reader().loads(Ascii(DELTA_3)) == Some(DeltaObject(3.0))
    ensures UsageOf(Reader(), DATA + Ascii(DELTA_3)) == Output(Num(3.0))
  {
    ThreeBraced();
    Braced(DELTA_3);
    UsageOfData(Reader(), Ascii(DELTA_3), DeltaObject(3.0));
  }

  /** The totals of whole streams, however the network cut them. */
  lemma OllamaStreamTotals(env: Env, chunks: seq<Bytes>)
    requires NoneRaises(env, Ollama, Frames(LF, Concat(chunks)))
    ensures TotalIsSum(FeedAll(LineOf(env, Ollama), LF, START, chunks).0)
  {
    ParserChunkIndependent(env, Ollama, chunks);
    OllamaTotals(env, Frames(LF, Concat(chunks)));
  }

  lemma AnthropicStreamTotals(env: Env, chunks: seq<Bytes>)
    requires NoneRaises(env, Anthropic, Frames(LF, Concat(chunks)))
    ensures var lines := Frames(LF, Concat(chunks)); var f := FeedAll(LineOf(env, Anthropic), LF, START, chunks).0;
      && f.prompt == LastInput(env, lines) && f.completion == LastOutput(env, lines)
      && (f.total.Null? <==> InputAtOutput(env, lines).Null?)
      && (!f.total.Null? ==> (TotalIsSum(f) <==> SameCount(InputAtOutput(env, lines), LastInput(env, lines))))
  {
    ParserChunkIndependent(env, Anthropic, chunks);
    AnthropicCounts(env, Frames(LF, Concat(chunks)));
    AnthropicTotals(env, Frames(LF, Concat(chunks)));
  }

  /** The count as the event carries it. */
  function AsCount(v: Json): Option<int> { if v.Num? then Some(v.n.Floor) else None }

  predicate WholeOrNull(v: Json) { v.Null? || (v.Num? && v.n == v.n.Floor as real) }

  /** The worker's enrichment leaves a total that agrees with its counts as it is,
      and invents none where a count is missing. */
  lemma EnrichKeepsTotal(f: Fields)
    requires WholeOrNull(f.prompt) && WholeOrNull(f.completion) && WholeOrNull(f.total)
    requires TotalIsSum(f)
    ensures Events.TotalTokens(AsCount(f.prompt), AsCount(f.completion), AsCount(f.total)) == AsCount(f.total)
    ensures AsCount(f.total).Some? <==> AsCount(f.prompt).Some? && AsCount(f.completion).Some?
    ensures AsCount(f.total).Some? ==>
      AsCount(f.total).value == AsCount(f.prompt).value + AsCount(f.completion).value
  {
  }
}
