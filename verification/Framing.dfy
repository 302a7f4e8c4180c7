/** Splitting a growing buffer at a delimiter: `split(b"\n", 1)` in the stream
    parsers and `indexOf("\n\n")` in the browser. */
module Framing {
  import opened Wrappers

  /** The first position of d in s. */
  function IndexOf<T(==)>(d: seq<T>, s: seq<T>): (r: Option<nat>)
    requires d != []
    ensures r.Some? ==> r.value + |d| <= |s|
  {
    if |s| < |d| then None
    else if s[..|d|] == d then Some(0)
    else
      var r := IndexOf(d, s[1..]);
      if r.Some? then Some(r.value + 1) else None
  }

  predicate OccursAt<T(==)>(d: seq<T>, s: seq<T>, i: nat) {
    i + |d| <= |s| && s[i..i + |d|] == d
  }

  lemma {:induction false} IndexOfMeaning<T>(d: seq<T>, s: seq<T>)
    requires d != []
    ensures match IndexOf(d, s)
      case Some(i) => OccursAt(d, s, i) && forall j: nat | j < i :: !OccursAt(d, s, j)
      case None => forall j: nat :: !OccursAt(d, s, j)
  {
    if |s| >= |d| {
      assert s[0..|d|] == s[..|d|];
      IndexOfMeaning(d, s[1..]);
      forall j: nat | j > 0 ensures OccursAt(d, s, j) <==> OccursAt(d, s[1..], j - 1) {
        if j + |d| <= |s| { SliceTail(s, j, |d|); }
      }
    }
  }

  lemma SliceTail<T>(s: seq<T>, j: nat, n: nat)
    requires 0 < j && j + n <= |s|
    ensures s[1..][j - 1..j - 1 + n] == s[j..j + n]
  {
  }

  lemma IndexOfUnique<T>(d: seq<T>, s: seq<T>, i: nat)
    requires d != [] && OccursAt(d, s, i) && forall j: nat | j < i :: !OccursAt(d, s, j)
    ensures IndexOf(d, s) == Some(i)
  {
    IndexOfMeaning(d, s);
  }

  /** A first occurrence stays the first when more input arrives. */
  lemma IndexOfAppend<T>(d: seq<T>, x: seq<T>, y: seq<T>)
    requires d != [] && IndexOf(d, x).Some?
    ensures IndexOf(d, x + y) == IndexOf(d, x)
  {
    var i := IndexOf(d, x).value;
    IndexOfMeaning(d, x);
    forall j: nat | j + |d| <= |x| ensures OccursAt(d, x + y, j) <==> OccursAt(d, x, j) {
      assert (x + y)[j..j + |d|] == x[j..j + |d|];
    }
    IndexOfUnique(d, x + y, i);
  }

  /** `split(d, 1)`: the text before the first delimiter and the text behind it. */
  function Cut<T(==)>(d: seq<T>, s: seq<T>): (r: Option<(seq<T>, seq<T>)>)
    requires d != []
    ensures r.Some? ==> |r.value.1| < |s|
  {
    match IndexOf(d, s)
    case None => None
    case Some(i) => Some((s[..i], s[i + |d|..]))
  }

  lemma CutAppend<T>(d: seq<T>, x: seq<T>, y: seq<T>)
    requires d != [] && Cut(d, x).Some?
    ensures Cut(d, x + y) == Some((Cut(d, x).value.0, Cut(d, x).value.1 + y))
  {
    IndexOfAppend(d, x, y);
    var i := IndexOf(d, x).value;
    assert (x + y)[..i] == x[..i];
    assert (x + y)[i + |d|..] == x[i + |d|..] + y;
  }

  lemma CutRejoin<T>(d: seq<T>, s: seq<T>)
    requires d != [] && Cut(d, s).Some?
    ensures Cut(d, s).value.0 + d + Cut(d, s).value.1 == s
  {
    IndexOfMeaning(d, s);
  }

  /** The complete frames of s, without their delimiters. */
  function Frames<T(==)>(d: seq<T>, s: seq<T>): seq<seq<T>>
    requires d != []
    decreases |s|
  {
    match Cut(d, s)
    case None => []
    case Some((f, tail)) => [f] + Frames(d, tail)
  }

  /** s after its first k frames. */
  function After<T(==)>(d: seq<T>, s: seq<T>, k: nat): (r: seq<T>)
    requires d != []
    decreases k
  {
    if k == 0 then s
    else
      match Cut(d, s)
      case None => s
      case Some((_, tail)) => After(d, tail, k - 1)
  }

  /** What is left once all complete frames are taken. */
  function Rest<T(==)>(d: seq<T>, s: seq<T>): seq<T>
    requires d != []
  {
    After(d, s, |Frames(d, s)|)
  }

  /** The frames still to come after k of them. */
  lemma {:induction false} FramesAfter<T>(d: seq<T>, s: seq<T>, k: nat)
    requires d != [] && k <= |Frames(d, s)|
    ensures Frames(d, After(d, s, k)) == Frames(d, s)[k..]
    decreases k
  {
    if k > 0 {
      var (f, tail) := Cut(d, s).value;
      FramesAfter(d, tail, k - 1);
      assert ([f] + Frames(d, tail))[k..] == Frames(d, tail)[k - 1..];
    }
  }

  /** The k-th frame is what the k-th cut takes off. */
  lemma {:induction false} AfterStep<T>(d: seq<T>, s: seq<T>, k: nat)
    requires d != []
    ensures k < |Frames(d, s)| <==> k <= |Frames(d, s)| && Cut(d, After(d, s, k)).Some?
    ensures k < |Frames(d, s)| ==> Cut(d, After(d, s, k)) == Some((Frames(d, s)[k], After(d, s, k + 1)))
    decreases k
  {
    if k > 0 && Cut(d, s).Some? {
      var (f, tail) := Cut(d, s).value;
      AfterStep(d, tail, k - 1);
    }
  }

  /** More input leaves the frames already complete as they are. */
  lemma {:induction false} AfterAppend<T>(d: seq<T>, x: seq<T>, y: seq<T>, k: nat)
    requires d != [] && k <= |Frames(d, x)|
    ensures k <= |Frames(d, x + y)|
    ensures After(d, x + y, k) == After(d, x, k) + y
    ensures Frames(d, x + y)[..k] == Frames(d, x)[..k]
    decreases k
  {
    if k > 0 {
      var (f, tail) := Cut(d, x).value;
      CutAppend(d, x, y);
      AfterAppend(d, tail, y, k - 1);
      FirstOf(f, Frames(d, tail), k);
      FirstOf(f, Frames(d, tail + y), k);
    }
  }

  lemma FirstOf<T>(f: T, fs: seq<T>, k: nat)
    requires 0 < k <= |fs| + 1
    ensures ([f] + fs)[..k] == [f] + fs[..k - 1]
  {
  }

  lemma {:induction false} AfterAfter<T>(d: seq<T>, s: seq<T>, k: nat, m: nat)
    requires d != []
    ensures After(d, After(d, s, k), m) == After(d, s, k + m)
    decreases k
  {
    if k > 0 {
      match Cut(d, s)
      case Some((_, tail)) => AfterAfter(d, tail, k - 1, m);
      case None =>
    }
  }

  /** Splitting in two steps is splitting at once. */
  lemma FramesAppend<T>(d: seq<T>, x: seq<T>, y: seq<T>)
    requires d != []
    ensures Frames(d, x + y) == Frames(d, x) + Frames(d, Rest(d, x) + y)
    ensures Rest(d, x + y) == Rest(d, Rest(d, x) + y)
  {
    var k := |Frames(d, x)|;
    AfterAppend(d, x, y, k);
    FramesAfter(d, x + y, k);
    var fs := Frames(d, x + y);
    assert fs == fs[..k] + fs[k..];
    AfterAfter(d, x + y, k, |fs| - k);
  }

  /** Frames written back, each with its delimiter. */
  function Join<T>(d: seq<T>, frames: seq<seq<T>>): seq<T> {
    if frames == [] then [] else frames[0] + d + Join(d, frames[1..])
  }

  /** Nothing is dropped or reordered: the first k frames and what follows them
      are the input. */
  lemma {:induction false} Rejoin<T>(d: seq<T>, s: seq<T>, k: nat)
    requires d != [] && k <= |Frames(d, s)|
    ensures Join(d, Frames(d, s)[..k]) + After(d, s, k) == s
    decreases k
  {
    if k > 0 {
      var (f, tail) := Cut(d, s).value;
      CutRejoin(d, s);
      Rejoin(d, tail, k - 1);
      JoinFront(d, f, Frames(d, tail), k, After(d, tail, k - 1));
    }
  }

  lemma JoinFront<T>(d: seq<T>, f: seq<T>, fs: seq<seq<T>>, k: nat, rest: seq<T>)
    requires 0 < k <= |fs| + 1
    ensures Join(d, ([f] + fs)[..k]) + rest == f + d + (Join(d, fs[..k - 1]) + rest)
  {
    FirstOf(f, fs, k);
    assert ([f] + fs[..k - 1])[1..] == fs[..k - 1];
    assert f + d + Join(d, fs[..k - 1]) + rest == f + d + (Join(d, fs[..k - 1]) + rest);
  }

  /** A frame that holds no delimiter, not even across its end, is cut off whole. */
  lemma CutWhole<T>(d: seq<T>, f: seq<T>, tail: seq<T>)
    requires d != [] && forall j: nat | j < |f| :: !OccursAt(d, f + d + tail, j)
    ensures Cut(d, f + d + tail) == Some((f, tail))
  {
    var s := f + d + tail;
    assert s[|f|..|f| + |d|] == d;
    IndexOfUnique(d, s, |f|);
    assert s[..|f|] == f;
    assert s[|f| + |d|..] == tail;
  }

  /** With its delimiter behind it the frame is cut off whole. */
  predicate Whole<T(==)>(d: seq<T>, f: seq<T>)
    requires d != []
  {
    Cut(d, f + d) == Some((f, []))
  }

  lemma WholeCut<T>(d: seq<T>, f: seq<T>, rest: seq<T>)
    requires d != [] && Whole(d, f)
    ensures Cut(d, f + d + rest) == Some((f, rest))
  {
    CutAppend(d, f + d, rest);
    assert [] + rest == rest;
  }

  lemma {:induction false} FramesAreWhole<T>(d: seq<T>, s: seq<T>)
    requires d != []
    ensures forall f | f in Frames(d, s) :: Whole(d, f)
    decreases |s|
  {
    if Cut(d, s).Some? {
      var (f, tail) := Cut(d, s).value;
      CutShorter(d, s, []);
      assert f + d + [] == f + d;
      FramesAreWhole(d, tail);
    }
  }

  /** Frames written back are read as the same frames. */
  lemma {:induction false} FramesOfJoin<T>(d: seq<T>, frames: seq<seq<T>>)
    requires d != [] && forall f | f in frames :: Whole(d, f)
    ensures Frames(d, Join(d, frames)) == frames && Rest(d, Join(d, frames)) == []
  {
    if frames == [] {
      NothingToCut(d);
    } else {
      var rest := Join(d, frames[1..]);
      FramesOfJoin(d, frames[1..]);
      WholeCut(d, frames[0], rest);
      FramesOnce(d, Join(d, frames), frames[0], rest);
    }
  }

  lemma NothingToCut<T>(d: seq<T>)
    requires d != []
    ensures Frames(d, []) == [] && Rest(d, []) == []
  {
    IndexOfMeaning(d, []);
  }

  lemma FramesOnce<T>(d: seq<T>, s: seq<T>, f: seq<T>, tail: seq<T>)
    requires d != [] && Cut(d, s) == Some((f, tail))
    ensures Frames(d, s) == [f] + Frames(d, tail) && Rest(d, s) == Rest(d, tail)
  {
  }

  /** What follows the first delimiter does not matter to the cut. */
  lemma CutShorter<T>(d: seq<T>, s: seq<T>, rest: seq<T>)
    requires d != [] && Cut(d, s).Some?
    ensures Cut(d, Cut(d, s).value.0 + d + rest) == Some((Cut(d, s).value.0, rest))
  {
    var f := Cut(d, s).value.0;
    CutRejoin(d, s);
    IndexOfMeaning(d, s);
    var t := f + d + rest;
    forall j: nat | j < |f| ensures !OccursAt(d, t, j) {
      assert j + |d| <= |t| && t[j..j + |d|] == (f + d)[j..j + |d|] == s[j..j + |d|];
      assert !OccursAt(d, s, j);
    }
    CutWhole(d, f, rest);
  }

  /** All of a list of reads. */
  function Concat<T>(chunks: seq<seq<T>>): seq<T> {
    if chunks == [] then [] else Concat(chunks[..|chunks| - 1]) + chunks[|chunks| - 1]
  }
}
