/** Feeding a line handler from reads that may cut lines anywhere. The handler is
    any function from the state and a line to the new state and whether it
    raised; a raising handler ends the read, and the caller carries on. */
module LineFeed {
  import opened Wrappers
  import opened Framing

  type Handler<!F, !T> = (F, seq<T>) -> (F, bool)

  /** Handle the complete lines of the buffer, up to one that raises. */
  function Drain<F, T(==)>(h: Handler<F, T>, d: seq<T>, f: F, buffer: seq<T>): (F, seq<T>, bool)
    requires d != []
    decreases |buffer|
  {
    match Cut(d, buffer)
    case None => (f, buffer, false)
    case Some((line, rest)) =>
      var r := h(f, line);
      if r.1 then (r.0, rest, true) else Drain(h, d, r.0, rest)
  }

  /** The state and buffer after a list of reads. */
  function FeedAll<F, T(==)>(h: Handler<F, T>, d: seq<T>, start: F, chunks: seq<seq<T>>): (F, seq<T>)
    requires d != []
  {
    if chunks == [] then (start, [])
    else
      var before := FeedAll(h, d, start, chunks[..|chunks| - 1]);
      var r := Drain(h, d, before.0, before.1 + chunks[|chunks| - 1]);
      (r.0, r.1)
  }

  lemma FeedAppend<F, T>(h: Handler<F, T>, d: seq<T>, start: F, chunks: seq<seq<T>>, chunk: seq<T>)
    requires d != []
    ensures var before := FeedAll(h, d, start, chunks); var r := Drain(h, d, before.0, before.1 + chunk);
      FeedAll(h, d, start, chunks + [chunk]) == (r.0, r.1)
  {
    assert (chunks + [chunk])[..|chunks|] == chunks;
  }

  /** The reference: all lines in order, keeping what a raising handler left. */
  function Fold<F, T>(h: Handler<F, T>, start: F, lines: seq<seq<T>>): F {
    if lines == [] then start
    else h(Fold(h, start, lines[..|lines| - 1]), lines[|lines| - 1]).0
  }

  /** The handler raises on line k of the fold. */
  predicate RaisesAt<F, T>(h: Handler<F, T>, start: F, lines: seq<seq<T>>, k: nat)
    requires k < |lines|
  {
    h(Fold(h, start, lines[..k]), lines[k]).1
  }

  /** No handler raises along the fold. */
  ghost predicate Quiet<F, T>(h: Handler<F, T>, start: F, lines: seq<seq<T>>) {
    forall k: nat | k < |lines| :: !RaisesAt(h, start, lines, k)
  }

  /** Exactly the first k lines of the input have been handled. */
  ghost predicate Reached<F, T>(h: Handler<F, T>, d: seq<T>, start: F, input: seq<T>, k: nat, f: F, buffer: seq<T>)
    requires d != []
  {
    && k <= |Frames(d, input)|
    && f == Fold(h, start, Frames(d, input)[..k])
    && buffer == After(d, input, k)
  }

  /** One step of draining: the next line is line k, or there is none. */
  lemma ReachedStep<F, T>(h: Handler<F, T>, d: seq<T>, start: F, input: seq<T>, k: nat, f: F, buffer: seq<T>)
    requires d != [] && Reached(h, d, start, input, k, f, buffer)
    ensures match Cut(d, buffer)
      case None => k == |Frames(d, input)|
      case Some((line, rest)) =>
        && Reached(h, d, start, input, k + 1, h(f, line).0, rest)
        && (h(f, line).1 <==> RaisesAt(h, start, Frames(d, input), k))
  {
    AfterStep(d, input, k);
    var lines := Frames(d, input);
    if Cut(d, buffer).Some? { assert lines[..k + 1][..k] == lines[..k]; }
  }

  /** Draining moves on by whole lines and stops early only where a handler raises. */
  lemma {:induction false} DrainReaches<F, T>(
    h: Handler<F, T>, d: seq<T>, start: F, input: seq<T>, k: nat, f: F, buffer: seq<T>)
    returns (m: nat)
    requires d != [] && Reached(h, d, start, input, k, f, buffer)
    ensures k <= m <= |Frames(d, input)|
    ensures var r := Drain(h, d, f, buffer);
      && Reached(h, d, start, input, m, r.0, r.1)
      && (if r.2 then m > k && RaisesAt(h, start, Frames(d, input), m - 1) else m == |Frames(d, input)|)
    ensures forall j: nat | k <= j < m - 1 :: !RaisesAt(h, start, Frames(d, input), j)
    decreases |buffer|
  {
    ReachedStep(h, d, start, input, k, f, buffer);
    match Cut(d, buffer)
    case None => m := k;
    case Some((line, rest)) =>
      var r := h(f, line);
      if r.1 { m := k + 1; } else { m := DrainReaches(h, d, start, input, k + 1, r.0, rest); }
  }

  /** However the input was cut, and whatever raised: the handled lines are the
      first m lines of the bytes fed, the state is their fold, and these lines
      followed by the buffer are exactly the bytes fed. */
  lemma {:induction false} FeedConsumesLines<F, T>(h: Handler<F, T>, d: seq<T>, start: F, chunks: seq<seq<T>>)
    returns (m: nat)
    requires d != []
    ensures m <= |Frames(d, Concat(chunks))|
    ensures var r := FeedAll(h, d, start, chunks); var input := Concat(chunks);
      && Reached(h, d, start, input, m, r.0, r.1)
      && Join(d, Frames(d, input)[..m]) + r.1 == input
    ensures m == |Frames(d, Concat(chunks))| || (m > 0 && RaisesAt(h, start, Frames(d, Concat(chunks)), m - 1))
  {
    if chunks == [] {
      m := 0;
    } else {
      var n := |chunks| - 1;
      var input, more := Concat(chunks[..n]), chunks[n];
      var k := FeedConsumesLines(h, d, start, chunks[..n]);
      var before := FeedAll(h, d, start, chunks[..n]);
      AfterAppend(d, input, more, k);
      m := DrainReaches(h, d, start, input + more, k, before.0, before.1 + more);
    }
    Rejoin(d, Concat(chunks), m);
  }

  /** No line before the last complete one raises. */
  ghost predicate QuietButLast<F, T>(h: Handler<F, T>, start: F, lines: seq<seq<T>>) {
    forall k: nat | k + 1 < |lines| :: !RaisesAt(h, start, lines, k)
  }

  /** Then the cuts do not matter: the state is the fold over all complete lines, and
      the buffer is what follows them. */
  lemma ChunkIndependent<F, T>(h: Handler<F, T>, d: seq<T>, start: F, chunks: seq<seq<T>>)
    requires d != [] && QuietButLast(h, start, Frames(d, Concat(chunks)))
    ensures FeedAll(h, d, start, chunks) == (Fold(h, start, Frames(d, Concat(chunks))), Rest(d, Concat(chunks)))
  {
    var m := FeedConsumesLines(h, d, start, chunks);
    var lines := Frames(d, Concat(chunks));
    assert lines[..|lines|] == lines;
  }

  /** Line k is the first to raise. */
  ghost predicate RaisesFirst<F, T>(h: Handler<F, T>, start: F, lines: seq<seq<T>>, k: nat) {
    k < |lines| && RaisesAt(h, start, lines, k) && forall j: nat | j < k :: !RaisesAt(h, start, lines, j)
  }

  lemma {:induction false} FirstRaise<F, T>(h: Handler<F, T>, start: F, lines: seq<seq<T>>, n: nat) returns (k: nat)
    requires n < |lines| && RaisesAt(h, start, lines, n)
    ensures k <= n && RaisesFirst(h, start, lines, k)
    decreases n
  {
    if j: nat :| j < n && RaisesAt(h, start, lines, j) { k := FirstRaise(h, start, lines, j); } else { k := n; }
  }

  lemma WholeStops<F, T>(h: Handler<F, T>, d: seq<T>, start: F, input: seq<T>, k: nat)
    requires d != [] && RaisesFirst(h, start, Frames(d, input), k)
    ensures FeedAll(h, d, start, [input]).1 == After(d, input, k + 1)
  {
    var m := DrainReaches(h, d, start, input, 0, start, input);
    assert m == k + 1;
    assert [input][..0] == [] && [] + input == input;
  }

  /** A raise before the last complete line shows in the cuts: the whole input in one
      read leaves complete lines in the buffer, a read that ends with the raising line
      and a second one do not leave as much. */
  lemma CutsShow<F, T>(h: Handler<F, T>, d: seq<T>, start: F, input: seq<T>, k: nat) returns (chunks: seq<seq<T>>)
    requires d != [] && k + 1 < |Frames(d, input)| && RaisesFirst(h, start, Frames(d, input), k)
    ensures Concat(chunks) == input && [] !in chunks
    ensures |FeedAll(h, d, start, chunks).1| < |FeedAll(h, d, start, [input]).1|
  {
    var x, y := Join(d, Frames(d, input)[..k + 1]), After(d, input, k + 1);
    Rejoin(d, input, k + 1);
    AfterStep(d, input, k + 1);
    FirstPart(h, d, start, input, k);
    chunks := [x] + [y];
    ConcatTwo(x, y);
    WholeStops(h, d, start, input, k);
    FeedAppend(h, d, start, [x], y);
    SecondRead(h, d, start, input, k, FeedAll(h, d, start, [x]).0);
    AfterSome(d, y);
  }

  lemma ConcatTwo<T>(x: seq<T>, y: seq<T>)
    ensures Concat([x] + [y]) == x + y
  {
    assert ([x] + [y])[..1] == [x] && [x][..0] == [];
    assert Concat([x]) == x;
  }

  lemma AfterSome<T>(d: seq<T>, y: seq<T>)
    requires d != [] && Cut(d, y).Some?
    ensures y != []
  {
  }

  /** Fed alone, the input up to the raising line is used up. */
  lemma FirstPart<F, T>(h: Handler<F, T>, d: seq<T>, start: F, input: seq<T>, k: nat)
    requires d != [] && RaisesFirst(h, start, Frames(d, input), k)
    ensures var part := Join(d, Frames(d, input)[..k + 1]); part != [] && FeedAll(h, d, start, [part]).1 == []
  {
    var lines := Frames(d, input);
    FramesAreWhole(d, input);
    FramesOfJoin(d, lines[..k + 1]);
    PrefixRaises(h, start, lines, k);
    WholeStops(h, d, start, Join(d, Frames(d, input)[..k + 1]), k);
    JoinSome(d, lines[..k + 1]);
  }

  lemma JoinSome<T>(d: seq<T>, frames: seq<seq<T>>)
    requires d != [] && frames != []
    ensures Join(d, frames) != []
  {
  }

  lemma PrefixRaises<F, T>(h: Handler<F, T>, start: F, lines: seq<seq<T>>, k: nat)
    requires RaisesFirst(h, start, lines, k)
    ensures RaisesFirst(h, start, lines[..k + 1], k)
  {
    var part := lines[..k + 1];
    forall j: nat | j < k ensures !RaisesAt(h, start, part, j) {
      assert part[..j] == lines[..j] && part[j] == lines[j];
      assert !RaisesAt(h, start, lines, j);
    }
    assert part[..k] == lines[..k] && part[k] == lines[k];
  }

  /** Draining a buffer that holds a complete line shortens it. */
  lemma SecondRead<F, T>(h: Handler<F, T>, d: seq<T>, start: F, input: seq<T>, k: nat, f: F)
    requires d != [] && k + 1 < |Frames(d, input)|
    ensures |Drain(h, d, f, [] + After(d, input, k + 1)).1| < |After(d, input, k + 1)|
  {
    AfterStep(d, input, k + 1);
    var y := After(d, input, k + 1);
    assert [] + y == y;
    var (line, rest) := Cut(d, y).value;
    DrainShrinks(h, d, h(f, line).0, rest);
  }

  lemma {:induction false} DrainShrinks<F, T>(h: Handler<F, T>, d: seq<T>, f: F, buffer: seq<T>)
    requires d != []
    ensures |Drain(h, d, f, buffer).1| <= |buffer|
    decreases |buffer|
  {
    match Cut(d, buffer)
    case None =>
    case Some((line, rest)) => if !h(f, line).1 { DrainShrinks(h, d, h(f, line).0, rest); }
  }

  /** Every cut of an input into non-empty reads ends as the whole input in one read
      does exactly when no line before the last complete one raises. */
  lemma ChunkIndependentIff<F, T>(h: Handler<F, T>, d: seq<T>, start: F, input: seq<T>)
    requires d != []
    ensures QuietButLast(h, start, Frames(d, input)) <==>
      (forall chunks | Concat(chunks) == input && [] !in chunks ::
         FeedAll(h, d, start, chunks) == FeedAll(h, d, start, [input]))
  {
    assert [input][..0] == [] && [] + input == input;
    assert Concat([input]) == input;
    if QuietButLast(h, start, Frames(d, input)) {
      ChunkIndependent(h, d, start, [input]);
      forall chunks | Concat(chunks) == input && [] !in chunks
        ensures FeedAll(h, d, start, chunks) == FeedAll(h, d, start, [input])
      {
        ChunkIndependent(h, d, start, chunks);
      }
    } else {
      var n: nat :| n + 1 < |Frames(d, input)| && RaisesAt(h, start, Frames(d, input), n);
      var k := FirstRaise(h, start, Frames(d, input), n);
      var chunks := CutsShow(h, d, start, input, k);
    }
  }

  // ---- a reader that stops at the first failure -------------------------------------

  /** The state and buffer after a list of reads, and whether a handler ended it. */
  function ReadAll<F, T(==)>(h: Handler<F, T>, d: seq<T>, start: F, chunks: seq<seq<T>>): (F, seq<T>, bool)
    requires d != []
  {
    if chunks == [] then (start, [], false)
    else
      var r := ReadAll(h, d, start, chunks[..|chunks| - 1]);
      if r.2 then r else Drain(h, d, r.0, r.1 + chunks[|chunks| - 1])
  }

  /** Draining, then draining with more input, is draining it all. */
  lemma {:induction false} DrainAppend<F, T>(h: Handler<F, T>, d: seq<T>, f: F, x: seq<T>, y: seq<T>)
    requires d != []
    ensures var r := Drain(h, d, f, x);
      Drain(h, d, f, x + y) == if r.2 then (r.0, r.1 + y, true) else Drain(h, d, r.0, r.1 + y)
    decreases |x|
  {
    match Cut(d, x)
    case None =>
    case Some((line, rest)) =>
      CutAppend(d, x, y);
      if !h(f, line).1 { DrainAppend(h, d, h(f, line).0, rest, y); }
  }

  /** On any input at all, cutting it differently changes nothing. */
  lemma {:induction false} CutsDoNotMatter<F, T>(h: Handler<F, T>, d: seq<T>, start: F, chunks: seq<seq<T>>)
    requires d != []
    ensures var r, whole := ReadAll(h, d, start, chunks), Drain(h, d, start, Concat(chunks));
      r.0 == whole.0 && r.2 == whole.2 && (!r.2 ==> r.1 == whole.1)
  {
    if chunks != [] {
      var n := |chunks| - 1;
      CutsDoNotMatter(h, d, start, chunks[..n]);
      DrainAppend(h, d, start, Concat(chunks[..n]), chunks[n]);
    }
  }
}
