/** Stream capture: the wrapped response iterator, and the explicit client's
    stream. The host sees the inner stream; one log emission is attempted. */
module Capture {
  import opened Wrappers
  import opened Framing
  import opened LineFeed
  import opened StreamParsers

  datatype Status = Success | Error | Cancelled

  /** One attempt to emit an event, with what the parser had accumulated. */
  datatype Emission = Emission(status: Status, latencyMs: int, ttftMs: Option<int>, fields: Fields)

  /** `_elapsed_ms` for two readings of a non-decreasing clock, in seconds. */
  function ElapsedMs(start: real, now: real): int { ((now - start) * 1000.0).Floor }

  lemma ElapsedOrder(start: real, a: real, b: real)
    requires start <= a <= b
    ensures 0 <= ElapsedMs(start, a) <= ElapsedMs(start, b)
  {
  }

  /** The reads the parser is given: empty ones are skipped. */
  function NonEmpty(chunks: seq<Bytes>): seq<Bytes> {
    if chunks == [] then []
    else
      NonEmpty(chunks[..|chunks| - 1]) + (if chunks[|chunks| - 1] == [] then [] else [chunks[|chunks| - 1]])
  }

  lemma NonEmptyAppend(chunks: seq<Bytes>, chunk: Bytes)
    ensures NonEmpty(chunks + [chunk]) == if chunk == [] then NonEmpty(chunks) else NonEmpty(chunks) + [chunk]
  {
    assert (chunks + [chunk])[..|chunks|] == chunks;
    assert NonEmpty(chunks) + [] == NonEmpty(chunks);
  }

  /** What one more read makes of the parser, and whether it raises; an empty read is
      not passed on. */
  function Given(env: Env, kind: Kind, f: Fields, buffer: Bytes, chunk: Bytes): (Fields, Bytes, bool) {
    if chunk == [] then (f, buffer, false) else Drain(LineOf(env, kind), LF, f, buffer + chunk)
  }

  lemma FedMore(env: Env, kind: Kind, seen: seq<Bytes>, chunk: Bytes)
    ensures var before := FeedAll(LineOf(env, kind), LF, START, NonEmpty(seen));
      var r := Given(env, kind, before.0, before.1, chunk);
      FeedAll(LineOf(env, kind), LF, START, NonEmpty(seen + [chunk])) == (r.0, r.1)
  {
    NonEmptyAppend(seen, chunk);
    FeedAppend(LineOf(env, kind), LF, START, NonEmpty(seen), chunk);
  }

  /** A non-decreasing clock, read at successive points. */
  ghost predicate Monotone(clock: nat -> real) { forall j: nat, k: nat | j <= k :: clock(j) <= clock(k) }

  class StreamState {
    const start: real
    const parser: StreamParser
    var ttftMs: Option<int>
    var emitted: bool
    var emissions: seq<Emission>
    ghost var seen: seq<Bytes>
    ghost var last: real

    /** The parser has been given exactly the chunks seen so far. */
    ghost predicate Fed()
      reads this`seen, parser
    {
      (parser.fields, parser.buffer) == FeedAll(LineOf(parser.env, parser.kind), LF, START, NonEmpty(seen))
    }

    /** A recorded time to first token lies between the start and the last clock
        reading; there is at most one emission. */
    ghost predicate Valid()
      reads this, parser
    {
      && Fed() && start <= last
      && (ttftMs.Some? ==> 0 <= ttftMs.value <= ElapsedMs(start, last))
      && (emitted <==> |emissions| == 1) && |emissions| <= 1
    }

    constructor (env: Env, kind: Kind, start: real)
      ensures Valid() && fresh(parser) && emissions == [] && seen == [] && last == this.start == start
      ensures parser.env == env && parser.kind == kind
    {
      this.start := start;
      parser := new StreamParser(env, kind);
      ttftMs, emitted, emissions := None, false, [];
      seen, last := [], start;
    }

    /** The parser is given the chunk, unless it is empty. */
    method Give(chunk: Bytes) returns (raised: bool, first: bool)
      requires Fed()
      modifies this`seen, parser
      ensures Fed() && seen == old(seen) + [chunk]
      ensures raised == Given(parser.env, parser.kind, old(parser.fields), old(parser.buffer), chunk).2
      ensures first <==> !raised && old(parser.fields.output) == "" && parser.fields.output != ""
    {
      FedMore(parser.env, parser.kind, seen, chunk);
      seen := seen + [chunk];
      raised, first := false, false;
      if chunk != [] {
        var hadOutput := parser.fields.output != "";
        raised := parser.Feed(chunk);
        first := !raised && !hadOutput && parser.fields.output != "";
      }
    }

    /** `feed`: whatever the parser raises stays here. The time to first token is taken when
        the first text appears without a raise. */
    method Feed(chunk: Bytes, now: real) returns (raised: bool, first: bool)
      requires Valid() && last <= now
      modifies this, parser
      ensures Valid() && seen == old(seen) + [chunk] && last == now
      ensures emissions == old(emissions) && emitted == old(emitted)
      ensures raised == Given(parser.env, parser.kind, old(parser.fields), old(parser.buffer), chunk).2
      ensures first <==> !raised && old(parser.fields.output) == "" && parser.fields.output != ""
      ensures ttftMs == if old(ttftMs).None? && first then Some(ElapsedMs(start, now)) else old(ttftMs)
    {
      ElapsedOrder(start, last, now);
      last := now;
      raised, first := Give(chunk);
      if first && ttftMs.None? { ttftMs := Some(ElapsedMs(start, now)); }
    }

    /** `emit`: at most once. */
    method Emit(status: Status, now: real)
      requires Valid() && last <= now
      modifies this
      ensures Valid() && seen == old(seen)
      ensures old(emitted) ==> emissions == old(emissions)
      ensures !old(emitted) ==>
        emissions == [Emission(status, ElapsedMs(start, now), ttftMs, parser.fields)]
      ensures emitted && ttftMs == old(ttftMs) && last == now
    {
      ElapsedOrder(start, last, now);
      last := now;
      if emitted {
        return;
      }
      emitted := true;
      emissions := [Emission(status, ElapsedMs(start, now), ttftMs, parser.fields)];
    }
  }

  /** How the inner stream ends after its chunks. */
  datatype InnerEnd = Exhausted | Cancels | Raises

  /** What the consumer does at the yield of chunk k, if it gets there. */
  datatype Stop = Never | At(k: nat, how: How)
  datatype How = Close | Cancel | Throw

  datatype Exit = Finished | Interrupted | Failed

  /** Whether the consumer's interruption is reached. */
  predicate Hits(n: nat, stop: Stop) { stop.At? && stop.k < n }

  function Delivered(n: nat, stop: Stop): nat { if Hits(n, stop) then stop.k + 1 else n }

  function ExitOf(n: nat, end: InnerEnd, stop: Stop): Exit {
    if Hits(n, stop) then (if stop.how.Throw? then Failed else Interrupted)
    else match end
      case Exhausted => Finished
      case Cancels => Interrupted
      case Raises => Failed
  }

  /** The status logged for a way of ending. */
  function StatusFor(exit: Exit, completed: bool): Status {
    match exit
    case Finished => Success
    case Interrupted => if completed then Success else Cancelled
    case Failed => Error
  }

  /** The wrappers' loop: feed, yield, until the inner stream ends or the consumer
      interrupts at a yield. */
  method Forward(state: StreamState, inner: seq<Bytes>, stop: Stop, clock: nat -> real) returns (out: seq<Bytes>)
    requires state.Valid() && state.last <= clock(0) && Monotone(clock)
    modifies state, state.parser
    ensures state.Valid() && state.last <= clock(|out|)
    ensures out == inner[..Delivered(|inner|, stop)] && state.seen == old(state.seen) + out
    ensures state.emissions == old(state.emissions) && state.emitted == old(state.emitted)
  {
    out := [];
    for k := 0 to |inner|
      invariant state.Valid() && state.last <= clock(k)
      invariant !Hits(k, stop) && out == inner[..k]
      invariant state.seen == old(state.seen) + inner[..k]
      invariant state.emissions == old(state.emissions) && state.emitted == old(state.emitted)
    {
      OneMoreRead(old(state.seen), inner, k);
      InOrder(clock, k);
      var raised, first := state.Feed(inner[k], clock(k));
      out := out + [inner[k]];
      if stop.At? && stop.k == k {
        return;
      }
    }
  }

  lemma OneMoreRead(seen: seq<Bytes>, inner: seq<Bytes>, k: nat)
    requires k < |inner|
    ensures inner[..k] + [inner[k]] == inner[..k + 1]
    ensures seen + inner[..k] + [inner[k]] == seen + inner[..k + 1]
  {
  }

  lemma InOrder(clock: nat -> real, k: nat)
    requires Monotone(clock)
    ensures clock(k) <= clock(k + 1)
  {
  }

  /** The body of both stream wrappers. For every chunk sequence, every end of the
      inner stream and every interruption at a yield: the consumer gets exactly
      the inner chunks, and the first iteration emits once, with the parser's
      fields (state.Valid() ties those to the chunks seen). */
  method Iterate(state: StreamState, inner: seq<Bytes>, end: InnerEnd, stop: Stop, clock: nat -> real)
    returns (out: seq<Bytes>, exit: Exit)
    requires state.Valid() && state.last <= clock(0) && Monotone(clock)
    modifies state, state.parser
    ensures state.Valid()
    ensures out == inner[..Delivered(|inner|, stop)] && exit == ExitOf(|inner|, end, stop)
    ensures state.seen == old(state.seen) + out
    ensures old(state.emitted) ==> state.emissions == old(state.emissions)
    ensures !old(state.emitted) ==>
      && |state.emissions| == 1
      && var e := state.emissions[0];
         && (e.status.Success? <==> exit.Finished? || (exit.Interrupted? && state.parser.fields.completed))
         && (e.status.Error? <==> exit.Failed?)
         && e.fields == state.parser.fields
         && (e.ttftMs.Some? ==> 0 <= e.ttftMs.value <= e.latencyMs)
  {
    out := Forward(state, inner, stop, clock);
    exit := ExitOf(|inner|, end, stop);
    state.Emit(StatusFor(exit, state.parser.fields.completed), clock(|out|));
  }

  // ---- the explicit client's stream ----------------------------------------------------

  /** A chunk of an in-process provider; usage is any token count record. */
  datatype Chunk<U> = Chunk(text: string, usage: Option<U>)

  predicate Carries<U>(c: Chunk<U>) { c.text != "" || c.usage.Some? }

  /** The chunks that carry text or usage. */
  function Forwarded<U>(chunks: seq<Chunk<U>>): seq<Chunk<U>> {
    if chunks == [] then []
    else
      var last := chunks[|chunks| - 1];
      Forwarded(chunks[..|chunks| - 1]) + (if Carries(last) then [last] else [])
  }

  function TextOf<U>(chunks: seq<Chunk<U>>): string {
    if chunks == [] then "" else TextOf(chunks[..|chunks| - 1]) + chunks[|chunks| - 1].text
  }

  function LastUsage<U>(chunks: seq<Chunk<U>>): Option<U> {
    if chunks == [] then None
    else
      var last := chunks[|chunks| - 1];
      if last.usage.Some? then last.usage else LastUsage(chunks[..|chunks| - 1])
  }

  datatype ClientEvent<U> = ClientEvent(
    status: Status, text: string, usage: Option<U>, ttftMs: Option<int>, latencyMs: int)

  /** The consumer interrupts at the yield of a chunk that is forwarded at all. */
  predicate Interrupts<U>(chunks: seq<Chunk<U>>, stop: Stop) {
    stop.At? && stop.k < |chunks| && Carries(chunks[stop.k])
  }

  /** Chunk k is the first with text. */
  predicate FirstText<U>(chunks: seq<Chunk<U>>, k: nat) {
    k < |chunks| && chunks[k].text != "" && forall j | 0 <= j < k :: chunks[j].text == ""
  }

  /** The time of the first chunk with text. */
  function FirstTokenMs<U>(chunks: seq<Chunk<U>>, start: real, clock: nat -> real): Option<int> {
    if chunks == [] then None
    else
      var before := FirstTokenMs(chunks[..|chunks| - 1], start, clock);
      if before.Some? || chunks[|chunks| - 1].text == "" then before
      else Some(ElapsedMs(start, clock(|chunks| - 1)))
  }

  lemma {:induction false} FirstTokenMeaning<U>(chunks: seq<Chunk<U>>, start: real, clock: nat -> real)
    ensures FirstTokenMs(chunks, start, clock).None? ==> forall k | 0 <= k < |chunks| :: chunks[k].text == ""
    ensures forall k: nat | FirstText(chunks, k) ::
      FirstTokenMs(chunks, start, clock) == Some(ElapsedMs(start, clock(k)))
  {
    if chunks != [] {
      var n := |chunks| - 1;
      FirstTokenMeaning(chunks[..n], start, clock);
      assert forall k | 0 <= k < n :: chunks[..n][k] == chunks[k];
      forall k: nat | FirstText(chunks, k)
        ensures FirstTokenMs(chunks, start, clock) == Some(ElapsedMs(start, clock(k)))
      {
        if k < n { assert FirstText(chunks[..n], k); } else { NoneYet(chunks[..n], start, clock); }
      }
    }
  }

  lemma {:induction false} NoneYet<U>(chunks: seq<Chunk<U>>, start: real, clock: nat -> real)
    requires forall k | 0 <= k < |chunks| :: chunks[k].text == ""
    ensures FirstTokenMs(chunks, start, clock).None?
  {
    if chunks != [] { NoneYet(chunks[..|chunks| - 1], start, clock); }
  }

  /** How many chunks are taken from the provider. */
  function Consumed<U>(chunks: seq<Chunk<U>>, stop: Stop): nat {
    if Interrupts(chunks, stop) then stop.k + 1 else |chunks|
  }

  /** The loop of `LoggedLLMClient.stream`: forward, and note text, usage and first token. */
  method ForwardChunks<U>(chunks: seq<Chunk<U>>, stop: Stop, start: real, clock: nat -> real)
    returns (out: seq<Chunk<U>>, text: string, usage: Option<U>, ttft: Option<int>)
    ensures var seen := chunks[..Consumed(chunks, stop)];
      && out == Forwarded(seen) && text == TextOf(out) && usage == LastUsage(out)
      && ttft == FirstTokenMs(seen, start, clock)
  {
    out, text, usage, ttft := [], "", None, None;
    for k := 0 to |chunks|
      invariant !(stop.At? && stop.k < k && Carries(chunks[stop.k]))
      invariant out == Forwarded(chunks[..k])
      invariant text == TextOf(out)
      invariant usage == LastUsage(out)
      invariant ttft == FirstTokenMs(chunks[..k], start, clock)
    {
      var chunk := chunks[k];
      OneMore(chunks, k, start, clock);
      if chunk.text != "" {
        if ttft.None? { ttft := Some(ElapsedMs(start, clock(k))); }
        text := text + chunk.text;
      }
      assert text == TextOf(out + [chunk]);
      if chunk.usage.Some? { usage := chunk.usage; }
      if Carries(chunk) {
        out := out + [chunk];
        if stop.At? && stop.k == k { return; }
      }
    }
    assert chunks[..|chunks|] == chunks;
  }

  /** `LoggedLLMClient.stream`: one event in its `finally`, whatever the ending;
      there is no completion marker here, so an early close counts as cancelled. */
  method ClientStream<U>(chunks: seq<Chunk<U>>, end: InnerEnd, stop: Stop, start: real, clock: nat -> real)
    returns (out: seq<Chunk<U>>, exit: Exit, event: ClientEvent<U>)
    requires start <= clock(0) && Monotone(clock)
    ensures out == Forwarded(chunks[..Consumed(chunks, stop)])
    ensures event.text == TextOf(out) && event.usage == LastUsage(out)
    ensures exit == if Interrupts(chunks, stop) then (if stop.how.Throw? then Failed else Interrupted)
                    else ExitOf(0, end, Never)
    ensures event.status == StatusFor(exit, false)
    ensures event.ttftMs == FirstTokenMs(chunks[..Consumed(chunks, stop)], start, clock)
    ensures event.ttftMs.Some? <==> event.text != ""
    ensures event.latencyMs == ElapsedMs(start, clock(Consumed(chunks, stop)))
    ensures event.ttftMs.Some? ==> 0 <= event.ttftMs.value <= event.latencyMs
  {
    var text, usage, ttft;
    out, text, usage, ttft := ForwardChunks(chunks, stop, start, clock);
    exit := if Interrupts(chunks, stop) then (if stop.how.Throw? then Failed else Interrupted)
            else ExitOf(0, end, Never);
    FirstTokenOrder(chunks[..Consumed(chunks, stop)], start, clock);
    event := ClientEvent(StatusFor(exit, false), text, usage, ttft, ElapsedMs(start, clock(Consumed(chunks, stop))));
  }

  lemma OneMore<U>(chunks: seq<Chunk<U>>, k: nat, start: real, clock: nat -> real)
    requires k < |chunks|
    ensures var out, chunk := Forwarded(chunks[..k]), chunks[k];
      && Forwarded(chunks[..k + 1]) == (if Carries(chunk) then out + [chunk] else out)
      && TextOf(out + [chunk]) == TextOf(out) + chunk.text
      && LastUsage(out + [chunk]) == (if chunk.usage.Some? then chunk.usage else LastUsage(out))
    ensures var before := FirstTokenMs(chunks[..k], start, clock);
      FirstTokenMs(chunks[..k + 1], start, clock) ==
        if before.Some? || chunks[k].text == "" then before else Some(ElapsedMs(start, clock(k)))
  {
    assert chunks[..k + 1][..k] == chunks[..k];
    var out := Forwarded(chunks[..k]);
    assert (out + [chunks[k]])[..|out|] == out && out + [] == out;
  }

  /** Forwarding loses no text. */
  lemma ForwardedText<U>(chunks: seq<Chunk<U>>)
    requires chunks != []
    ensures TextOf(Forwarded(chunks)) == TextOf(Forwarded(chunks[..|chunks| - 1])) + chunks[|chunks| - 1].text
  {
    var n := |chunks| - 1;
    var out := Forwarded(chunks[..n]);
    if Carries(chunks[n]) {
      assert (out + [chunks[n]])[..|out|] == out;
    } else {
      assert out + [] == out && TextOf(out) + "" == TextOf(out);
    }
  }

  /** There is a time to first token iff there is text, and it is within the latency. */
  lemma {:induction false} FirstTokenOrder<U>(chunks: seq<Chunk<U>>, start: real, clock: nat -> real)
    requires start <= clock(0) && Monotone(clock)
    ensures start <= clock(|chunks|)
    ensures FirstTokenMs(chunks, start, clock).Some? <==> TextOf(Forwarded(chunks)) != ""
    ensures var ms := FirstTokenMs(chunks, start, clock);
      ms.Some? ==> 0 <= ms.value <= ElapsedMs(start, clock(|chunks|))
  {
    if chunks != [] {
      var n := |chunks| - 1;
      FirstTokenOrder(chunks[..n], start, clock);
      ForwardedText(chunks);
      assert clock(n) <= clock(n + 1);
      ElapsedOrder(start, clock(n), clock(n + 1));
    }
  }
}
