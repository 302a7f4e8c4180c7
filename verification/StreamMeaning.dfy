/** What the three stream parsers extract, said by looking at the lines alone. */
module StreamMeaning {
  import opened Wrappers
  import opened Framing
  import opened LineFeed
  import opened PyJson
  import opened StreamParsers

  /** A member of an object; Null for a missing one and for anything but an object. */
  function At(v: Json, key: string): Json { if v.Obj? && key in v.fields then v.fields[key] else Null }

  /** The JSON after `data:`. */
  function DataOf(env: Env, raw: Bytes): Json {
    var line := Strip(raw);
    if DATA <= line then SafeJson(env, Strip(line[5..])).GetOr(Null) else Null
  }

  /** The line says `[DONE]`. */
  predicate SaysDone(raw: Bytes) {
    var line := Strip(raw);
    DATA <= line && Strip(line[5..]) == DONE
  }

  function Done(): Bytes -> bool { (raw: Bytes) => SaysDone(raw) }

  lemma NoText(s: string)
    ensures s + "" == s
  {
  }

  /** The texts of the lines, one after the other. */
  function TextOf(text: Bytes -> string, lines: seq<Bytes>): string {
    if lines == [] then "" else TextOf(text, lines[..|lines| - 1]) + text(lines[|lines| - 1])
  }

  /** The last line that reports something; Null if none does. */
  function LastOf(report: Bytes -> Json, lines: seq<Bytes>): Json {
    if lines == [] then Null
    else
      var last := report(lines[|lines| - 1]);
      if last.Null? then LastOf(report, lines[..|lines| - 1]) else last
  }

  lemma {:induction false} LastOfMeaning(report: Bytes -> Json, lines: seq<Bytes>)
    ensures LastOf(report, lines).Null? ==> forall k | 0 <= k < |lines| :: report(lines[k]).Null?
    ensures !LastOf(report, lines).Null? ==> exists k: nat :: LastReport(report, lines, k)
  {
    if lines != [] {
      var n := |lines| - 1;
      LastOfMeaning(report, lines[..n]);
      if report(lines[n]).Null? {
        if k: nat :| LastReport(report, lines[..n], k) {
          assert LastReport(report, lines, k);
        }
      } else {
        assert LastReport(report, lines, n);
      }
      assert forall k | 0 <= k < n :: lines[..n][k] == lines[k];
    }
  }

  /** Line k is the last one to report anything, and reports the last value. */
  ghost predicate LastReport(report: Bytes -> Json, lines: seq<Bytes>, k: nat) {
    && k < |lines| && !report(lines[k]).Null? && LastOf(report, lines) == report(lines[k])
    && forall j | k < j < |lines| :: report(lines[j]).Null?
  }

  /** Some line is one of those. */
  predicate Any(p: Bytes -> bool, lines: seq<Bytes>) { exists k :: 0 <= k < |lines| && p(lines[k]) }

  lemma AnyAppend(p: Bytes -> bool, lines: seq<Bytes>)
    requires lines != []
    ensures Any(p, lines) <==> Any(p, lines[..|lines| - 1]) || p(lines[|lines| - 1])
  {
    var n := |lines| - 1;
    assert forall k | 0 <= k < n :: lines[..n][k] == lines[k];
  }

  // ---- OpenAI --------------------------------------------------------------------------

  function ChoiceText(choice: Json): string {
    var content := At(At(choice, "delta"), "content");
    if content.Str? then content.s else ""
  }

  function ChoicesText(choices: seq<Json>): string {
    if choices == [] then "" else ChoiceText(choices[0]) + ChoicesText(choices[1..])
  }

  /** The content texts of a line, in choice order. */
  function OpenAILineText(env: Env, raw: Bytes): string {
    var choices := At(DataOf(env, raw), "choices");
    if !SaysDone(raw) && choices.Arr? then ChoicesText(choices.items) else ""
  }

  /** A non-empty `usage`, Null if the line has none. */
  function OpenAILineUsage(env: Env, raw: Bytes): Json {
    var usage := At(DataOf(env, raw), "usage");
    if !SaysDone(raw) && Truthy(usage) then usage else Null
  }

  function OpenAIText(env: Env): Bytes -> string { (raw: Bytes) => OpenAILineText(env, raw) }
  function OpenAIUsage(env: Env): Bytes -> Json { (raw: Bytes) => OpenAILineUsage(env, raw) }

  lemma {:induction false} ChoicesMeaning(f: Fields, choices: seq<Json>)
    requires !Choices(f, choices).1
    ensures Choices(f, choices).0 == f.(output := f.output + ChoicesText(choices))
    decreases |choices|
  {
    if choices != [] {
      ChoiceMeaning(f, choices[0]);
      var g := Choice(f, choices[0]).0;
      ChoicesMeaning(g, choices[1..]);
      assert f.output + ChoiceText(choices[0]) + ChoicesText(choices[1..])
          == f.output + (ChoiceText(choices[0]) + ChoicesText(choices[1..]));
    } else {
      assert f.output + "" == f.output;
    }
  }

  lemma ChoiceMeaning(f: Fields, choice: Json)
    requires !Choice(f, choice).1
    ensures Choice(f, choice).0 == f.(output := f.output + ChoiceText(choice))
  {
    assert f.output + "" == f.output;
  }

  lemma OpenAIObjectMeaning(f: Fields, obj: Json)
    requires !OpenAIObject(f, obj).1
    ensures var g, choices, usage := OpenAIObject(f, obj).0, At(obj, "choices"), At(obj, "usage");
      && g.output == f.output + (if choices.Arr? then ChoicesText(choices.items) else "")
      && g.completed == f.completed
      && g.prompt == (if Truthy(usage) then At(usage, "prompt_tokens") else f.prompt)
      && g.completion == (if Truthy(usage) then At(usage, "completion_tokens") else f.completion)
      && g.total == (if Truthy(usage) then At(usage, "total_tokens") else f.total)
  {
    NoText(f.output);
    var choices := Or(GetOr(obj, "choices", Arr([])).value, Arr([]));
    ChoicesMeaning(f, choices.items);
  }

  /** Which lines reach the object, and what the others do. */
  lemma OpenAIShape(env: Env, f: Fields, raw: Bytes)
    ensures HandleLine(env, OpenAI, f, raw) ==
      if SaysDone(raw) then (f.(completed := true), false)
      else if DataOf(env, raw).Null? then (f, false)
      else OpenAIObject(f, DataOf(env, raw))
  {
  }

  /** What a quiet OpenAI line does to the text and the mark, and to the counts. */
  lemma OpenAILine(env: Env, f: Fields, raw: Bytes, g: Fields)
    requires HandleLine(env, OpenAI, f, raw) == (g, false)
    ensures g.output == f.output + OpenAILineText(env, raw)
    ensures g.completed == (f.completed || SaysDone(raw))
    ensures var usage := OpenAILineUsage(env, raw);
      && g.prompt == (if usage.Null? then f.prompt else At(usage, "prompt_tokens"))
      && g.completion == (if usage.Null? then f.completion else At(usage, "completion_tokens"))
      && g.total == (if usage.Null? then f.total else At(usage, "total_tokens"))
  {
    OpenAIShape(env, f, raw);
    NoText(f.output);
    if !SaysDone(raw) && !DataOf(env, raw).Null? { OpenAIObjectMeaning(f, DataOf(env, raw)); }
  }

  /** For every list of lines none of which raises: the output is the content texts in
      line and choice order, the parser is completed iff some line says [DONE], and the
      three counts are those members of the last non-empty usage. */
  lemma {:induction false} OpenAIMeaning(env: Env, lines: seq<Bytes>)
    requires NoneRaises(env, OpenAI, lines)
    ensures var f, usage := Lines(env, OpenAI, lines), LastOf(OpenAIUsage(env), lines);
      && f.output == TextOf(OpenAIText(env), lines)
      && f.completed == Any(Done(), lines)
      && f.prompt == At(usage, "prompt_tokens")
      && f.completion == At(usage, "completion_tokens")
      && f.total == At(usage, "total_tokens")
  {
    if lines != [] {
      var n := |lines| - 1;
      LastLine(env, OpenAI, lines);
      OpenAIMeaning(env, lines[..n]);
      OpenAILine(env, Lines(env, OpenAI, lines[..n]), lines[n], Lines(env, OpenAI, lines));
      AnyAppend(Done(), lines);
    }
  }

  // ---- Anthropic -----------------------------------------------------------------------

  /** The text of a `text_delta`. */
  function AnthropicText(env: Env): Bytes -> string {
    (raw: Bytes) =>
      var obj := DataOf(env, raw);
      var delta := At(obj, "delta");
      if At(obj, "type") == Str("content_block_delta") && At(delta, "type") == Str("text_delta")
         && "text" in delta.fields
      then ToStr(env, delta.fields["text"]) else ""
  }

  /** The line is a `message_stop`. */
  predicate SaysStop(env: Env, raw: Bytes) { At(DataOf(env, raw), "type") == Str("message_stop") }

  function Stop(env: Env): Bytes -> bool { (raw: Bytes) => SaysStop(env, raw) }

  lemma AnthropicObjectText(env: Env, f: Fields, obj: Json)
    requires !AnthropicObject(env, f, obj).1
    ensures var g, delta := AnthropicObject(env, f, obj).0, At(obj, "delta");
      && g.output == f.output +
           (if At(obj, "type") == Str("content_block_delta") && At(delta, "type") == Str("text_delta")
               && "text" in delta.fields
            then ToStr(env, delta.fields["text"]) else "")
      && g.completed == (f.completed || At(obj, "type") == Str("message_stop"))
  {
    NoText(f.output);
  }

  lemma AnthropicTextLine(env: Env, f: Fields, raw: Bytes)
    requires !HandleLine(env, Anthropic, f, raw).1
    ensures var g := HandleLine(env, Anthropic, f, raw).0;
      && g.output == f.output + AnthropicText(env)(raw)
      && g.completed == (f.completed || SaysStop(env, raw))
  {
    NoText(f.output);
    var line := Strip(raw);
    if DATA <= line {
      match SafeJson(env, Strip(line[5..]))
      case None =>
      case Some(obj) => AnthropicObjectText(env, f, obj);
    }
  }

  /** For every list of lines none of which raises: the output is the texts of the text
      deltas in order, and the parser is completed iff some line is a message_stop. */
  lemma {:induction false} AnthropicTextMeaning(env: Env, lines: seq<Bytes>)
    requires NoneRaises(env, Anthropic, lines)
    ensures var f := Lines(env, Anthropic, lines);
      && f.output == TextOf(AnthropicText(env), lines)
      && f.completed == Any(Stop(env), lines)
  {
    if lines != [] {
      var n := |lines| - 1;
      LastLine(env, Anthropic, lines);
      AnthropicTextMeaning(env, lines[..n]);
      AnthropicTextLine(env, Lines(env, Anthropic, lines[..n]), lines[n]);
      AnyAppend(Stop(env), lines);
    }
  }

  // ---- Ollama --------------------------------------------------------------------------

  /** The JSON of a line. */
  function LineJson(env: Env, raw: Bytes): Json { SafeJson(env, Strip(raw)).GetOr(Null) }

  /** The chat content of a line, or else its generated text. */
  function OllamaLineText(env: Env, raw: Bytes): string { ContentOf(env, LineJson(env, raw)) }
  function OllamaText(env: Env): Bytes -> string { (raw: Bytes) => OllamaLineText(env, raw) }

  predicate SaysFinished(env: Env, raw: Bytes) { Truthy(At(LineJson(env, raw), "done")) }

  /** The counts a finishing line carries. */
  function OllamaLinePrompt(env: Env, raw: Bytes): Json {
    if SaysFinished(env, raw) then At(LineJson(env, raw), "prompt_eval_count") else Null
  }

  function OllamaLineEval(env: Env, raw: Bytes): Json {
    if SaysFinished(env, raw) then At(LineJson(env, raw), "eval_count") else Null
  }

  function OllamaPrompt(env: Env): Bytes -> Json { (raw: Bytes) => OllamaLinePrompt(env, raw) }
  function OllamaEval(env: Env): Bytes -> Json { (raw: Bytes) => OllamaLineEval(env, raw) }

  function Finished(env: Env): Bytes -> bool { (raw: Bytes) => SaysFinished(env, raw) }

  /** The text of an Ollama object. */
  function ContentOf(env: Env, obj: Json): string {
    var content := At(At(obj, "message"), "content");
    var text := if Truthy(content) then content else At(obj, "response");
    if Truthy(text) then ToStr(env, text) else ""
  }

  lemma OllamaObjectMeaning(env: Env, f: Fields, obj: Json)
    requires !OllamaObject(env, f, obj).1
    ensures var g := OllamaObject(env, f, obj).0;
      var done, p, e := Truthy(At(obj, "done")), At(obj, "prompt_eval_count"), At(obj, "eval_count");
      && g.output == f.output + ContentOf(env, obj)
      && g.completed == (f.completed || done)
      && g.prompt == (if done && !p.Null? then p else f.prompt)
      && g.completion == (if done && !e.Null? then e else f.completion)
  {
    NoText(f.output);
  }

  lemma OllamaShape(env: Env, f: Fields, raw: Bytes)
    ensures HandleLine(env, Ollama, f, raw) ==
      if LineJson(env, raw).Null? then (f, false) else OllamaObject(env, f, LineJson(env, raw))
  {
  }

  lemma OllamaTextLine(env: Env, f: Fields, raw: Bytes, g: Fields)
    requires HandleLine(env, Ollama, f, raw) == (g, false)
    ensures g.output == f.output + OllamaLineText(env, raw)
    ensures g.completed == (f.completed || SaysFinished(env, raw))
    ensures var p := OllamaLinePrompt(env, raw); g.prompt == if p.Null? then f.prompt else p
    ensures var e := OllamaLineEval(env, raw); g.completion == if e.Null? then f.completion else e
  {
    OllamaShape(env, f, raw);
    NoText(f.output);
    if !LineJson(env, raw).Null? { OllamaObjectMeaning(env, f, LineJson(env, raw)); }
  }

  /** For every list of lines none of which raises: the output is the texts in order, and
      the parser is completed iff some line is done. */
  lemma {:induction false} OllamaTextMeaning(env: Env, lines: seq<Bytes>)
    requires NoneRaises(env, Ollama, lines)
    ensures var f := Lines(env, Ollama, lines);
      f.output == TextOf(OllamaText(env), lines) && f.completed == Any(Finished(env), lines)
  {
    if lines != [] {
      var n := |lines| - 1;
      LastLine(env, Ollama, lines);
      OllamaTextMeaning(env, lines[..n]);
      OllamaTextLine(env, Lines(env, Ollama, lines[..n]), lines[n], Lines(env, Ollama, lines));
      AnyAppend(Finished(env), lines);
    }
  }

  /** Each count is the last one that a done line carries. */
  lemma {:induction false} OllamaCounts(env: Env, lines: seq<Bytes>)
    requires NoneRaises(env, Ollama, lines)
    ensures Lines(env, Ollama, lines).prompt == LastOf(OllamaPrompt(env), lines)
    ensures Lines(env, Ollama, lines).completion == LastOf(OllamaEval(env), lines)
  {
    if lines != [] {
      var n := |lines| - 1;
      LastLine(env, Ollama, lines);
      OllamaCounts(env, lines[..n]);
      OllamaTextLine(env, Lines(env, Ollama, lines[..n]), lines[n], Lines(env, Ollama, lines));
    }
  }

  // ---- white space -----------------------------------------------------------------------

  /** `strip` takes off white space at both ends, all of it, and nothing else. */
  lemma {:induction false} StripMeaning(s: Bytes) returns (a: Bytes, b: Bytes)
    ensures s == a + Strip(s) + b && (forall x | x in a + b :: Space(x))
    ensures Strip(s) != [] ==> !Space(Strip(s)[0]) && !Space(Strip(s)[|Strip(s)| - 1])
  {
    a := StripLeftMeaning(s);
    b := StripRightMeaning(StripLeft(s));
    assert s == a + (Strip(s) + b) == a + Strip(s) + b;
    if Strip(s) != [] { assert Strip(s)[0] == StripLeft(s)[0]; }
  }

  lemma {:induction false} StripLeftMeaning(s: Bytes) returns (a: Bytes)
    ensures s == a + StripLeft(s) && (forall x | x in a :: Space(x))
    ensures StripLeft(s) != [] ==> !Space(StripLeft(s)[0])
  {
    if s != [] && Space(s[0]) {
      a := StripLeftMeaning(s[1..]);
      a := [s[0]] + a;
      assert s == [s[0]] + s[1..];
    } else {
      a := [];
    }
  }

  lemma {:induction false} StripRightMeaning(s: Bytes) returns (b: Bytes)
    ensures s == StripRight(s) + b && (forall x | x in b :: Space(x))
    ensures StripRight(s) != [] ==> !Space(StripRight(s)[|StripRight(s)| - 1])
  {
    if s != [] && Space(s[|s| - 1]) {
      b := StripRightMeaning(s[..|s| - 1]);
      b := b + [s[|s| - 1]];
      assert s == s[..|s| - 1] + [s[|s| - 1]];
    } else {
      b := [];
    }
  }

  // ---- whole streams ---------------------------------------------------------------------

  /** All of it for streams, however the network cut them. */
  lemma OpenAIStream(env: Env, chunks: seq<Bytes>)
    requires NoneRaises(env, OpenAI, Frames(LF, Concat(chunks)))
    ensures var f, lines := FeedAll(LineOf(env, OpenAI), LF, START, chunks).0, Frames(LF, Concat(chunks));
      var usage := LastOf(OpenAIUsage(env), lines);
      && f.output == TextOf(OpenAIText(env), lines)
      && f.completed == Any(Done(), lines)
      && f.prompt == At(usage, "prompt_tokens")
      && f.completion == At(usage, "completion_tokens")
      && f.total == At(usage, "total_tokens")
  {
    ParserChunkIndependent(env, OpenAI, chunks);
    OpenAIMeaning(env, Frames(LF, Concat(chunks)));
  }

  lemma AnthropicStream(env: Env, chunks: seq<Bytes>)
    requires NoneRaises(env, Anthropic, Frames(LF, Concat(chunks)))
    ensures var f, lines := FeedAll(LineOf(env, Anthropic), LF, START, chunks).0, Frames(LF, Concat(chunks));
      f.output == TextOf(AnthropicText(env), lines) && f.completed == Any(Stop(env), lines)
  {
    ParserChunkIndependent(env, Anthropic, chunks);
    AnthropicTextMeaning(env, Frames(LF, Concat(chunks)));
  }

  lemma OllamaStream(env: Env, chunks: seq<Bytes>)
    requires NoneRaises(env, Ollama, Frames(LF, Concat(chunks)))
    ensures var f, lines := FeedAll(LineOf(env, Ollama), LF, START, chunks).0, Frames(LF, Concat(chunks));
      && f.output == TextOf(OllamaText(env), lines)
      && f.completed == Any(Finished(env), lines)
      && f.prompt == LastOf(OllamaPrompt(env), lines)
      && f.completion == LastOf(OllamaEval(env), lines)
  {
    ParserChunkIndependent(env, Ollama, chunks);
    OllamaTextMeaning(env, Frames(LF, Concat(chunks)));
    OllamaCounts(env, Frames(LF, Concat(chunks)));
  }
}
