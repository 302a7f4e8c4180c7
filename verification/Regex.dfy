/** The fragment of Python's `re` that the redaction patterns use: character
    classes, concatenation, alternation, optional parts and bounded repetition.
    A word's membership is defined by the usual language semantics; how the
    backtracking engine picks among several matches is left open (see Engine). */
module Regex {
  import opened Wrappers

  /** `\w` and `\d` on `str` patterns follow the Unicode tables; only their
      ASCII part is fixed here, the rest is arbitrary. */
  datatype Tables = Tables(word: char -> bool, digit: char -> bool) {
    ghost predicate Valid() {
      && (forall c :: digit(c) ==> word(c))
      && (forall c: char | c < '\U{80}' :: word(c) == AsciiWord(c))
      && (forall c: char | c < '\U{80}' :: digit(c) == ('0' <= c <= '9'))
    }
  }

  predicate AsciiWord(c: char) {
    'a' <= c <= 'z' || 'A' <= c <= 'Z' || '0' <= c <= '9' || c == '_'
  }

  datatype Class =
    | Lit(c: char)
    | Range(lo: char, hi: char)
    | Digit
    | Either(a: Class, b: Class)

  datatype Re =
    | Chr(cls: Class)
    | Cat(left: Re, right: Re)
    | Alt(left: Re, right: Re)
    | Opt(body: Re)
    | Rep(body: Re, lo: nat, hi: Option<nat>)

  predicate Member(u: Tables, cls: Class, c: char) {
    match cls
    case Lit(d) => c == d
    case Range(lo, hi) => lo <= c <= hi
    case Digit => u.digit(c)
    case Either(a, b) => Member(u, a, c) || Member(u, b, c)
  }

  /** w belongs to the language of re. */
  ghost predicate In(u: Tables, re: Re, w: string)
    decreases re, 0
  {
    match re
    case Chr(cls) => |w| == 1 && Member(u, cls, w[0])
    case Cat(l, r) => exists k :: 0 <= k <= |w| && In(u, l, w[..k]) && In(u, r, w[k..])
    case Alt(l, r) => In(u, l, w) || In(u, r, w)
    case Opt(r) => w == [] || In(u, r, w)
    case Rep(r, lo, hi) => exists n: nat :: lo <= n <= hi.GetOr(n) && Times(u, r, n, w)
  }

  /** w is a concatenation of n words of re. */
  ghost predicate Times(u: Tables, re: Re, n: nat, w: string)
    decreases re, n + 1
  {
    if n == 0 then w == []
    else exists k :: 0 <= k <= |w| && In(u, re, w[..k]) && Times(u, re, n - 1, w[k..])
  }

  /** The shortest word of re has at least this many characters. */
  function MinLen(re: Re): nat {
    match re
    case Chr(_) => 1
    case Cat(l, r) => MinLen(l) + MinLen(r)
    case Alt(l, r) => if MinLen(l) <= MinLen(r) then MinLen(l) else MinLen(r)
    case Opt(_) => 0
    case Rep(r, lo, _) => lo * MinLen(r)
  }

  /** No class of re admits the ASCII character c. */
  predicate Never(re: Re, c: char) {
    match re
    case Chr(cls) => Off(cls, c)
    case Cat(l, r) => Never(l, c) && Never(r, c)
    case Alt(l, r) => Never(l, c) && Never(r, c)
    case Opt(r) => Never(r, c)
    case Rep(r, _, _) => Never(r, c)
  }

  predicate Off(cls: Class, c: char) {
    match cls
    case Lit(d) => c != d
    case Range(lo, hi) => c < lo || hi < c
    case Digit => c < '0' || '9' < c
    case Either(a, b) => Off(a, c) && Off(b, c)
  }

  /** The characters between the brackets of a replacement. */
  predicate LabelChar(c: char) { 'A' <= c <= 'Z' || c == '_' }

  predicate OffLabel(cls: Class) {
    match cls
    case Lit(c) => !LabelChar(c)
    case Range(lo, hi) => false
    case Digit => true
    case Either(a, b) => OffLabel(a) && OffLabel(b)
  }

  /** Every word of re is forced to hold a character no label holds. */
  predicate MustLeaveLabel(re: Re) {
    match re
    case Chr(cls) => OffLabel(cls)
    case Cat(l, r) => MustLeaveLabel(l) || MustLeaveLabel(r)
    case Alt(l, r) => MustLeaveLabel(l) && MustLeaveLabel(r)
    case Opt(_) => false
    case Rep(r, lo, _) => lo >= 1 && MustLeaveLabel(r)
  }

  lemma {:induction false} MinLenSound(u: Tables, re: Re, w: string)
    requires In(u, re, w)
    ensures |w| >= MinLen(re)
    decreases re, 0
  {
    match re
    case Chr(_) =>
    case Cat(l, r) =>
      var k :| 0 <= k <= |w| && In(u, l, w[..k]) && In(u, r, w[k..]);
      MinLenSound(u, l, w[..k]);
      MinLenSound(u, r, w[k..]);
    case Alt(l, r) =>
      if In(u, l, w) { MinLenSound(u, l, w); } else { MinLenSound(u, r, w); }
    case Opt(_) =>
    case Rep(r, lo, hi) =>
      var n: nat :| lo <= n <= hi.GetOr(n) && Times(u, r, n, w);
      TimesMinLen(u, r, n, w);
      MulOrder(n, lo, MinLen(r));
  }

  lemma MulOrder(a: nat, b: nat, m: nat)
    ensures a >= b ==> a * m >= b * m
  {
    if a >= b { assert a * m == b * m + (a - b) * m; }
  }

  lemma {:induction false} TimesMinLen(u: Tables, re: Re, n: nat, w: string)
    requires Times(u, re, n, w)
    ensures |w| >= n * MinLen(re)
    decreases re, n + 1
  {
    if n > 0 {
      var k :| 0 <= k <= |w| && In(u, re, w[..k]) && Times(u, re, n - 1, w[k..]);
      MinLenSound(u, re, w[..k]);
      TimesMinLen(u, re, n - 1, w[k..]);
      assert n * MinLen(re) == (n - 1) * MinLen(re) + MinLen(re);
    }
  }

  lemma {:induction false} OffSound(u: Tables, cls: Class, c: char)
    requires u.Valid() && Off(cls, c) && c < '\U{80}'
    ensures !Member(u, cls, c)
  {
    match cls
    case Either(a, b) =>
      OffSound(u, a, c);
      OffSound(u, b, c);
    case _ =>
  }

  lemma {:induction false} NeverSound(u: Tables, re: Re, c: char, w: string)
    requires u.Valid() && In(u, re, w) && Never(re, c) && c < '\U{80}'
    ensures c !in w
    decreases re, 0
  {
    match re
    case Chr(cls) => OffSound(u, cls, c);
    case Cat(l, r) =>
      var k :| 0 <= k <= |w| && In(u, l, w[..k]) && In(u, r, w[k..]);
      NeverSound(u, l, c, w[..k]);
      NeverSound(u, r, c, w[k..]);
      assert w == w[..k] + w[k..];
    case Alt(l, r) =>
      if In(u, l, w) { NeverSound(u, l, c, w); } else { NeverSound(u, r, c, w); }
    case Opt(r) =>
      if w != [] { NeverSound(u, r, c, w); }
    case Rep(r, lo, hi) =>
      var n: nat :| lo <= n <= hi.GetOr(n) && Times(u, r, n, w);
      TimesNever(u, r, c, n, w);
  }

  lemma {:induction false} TimesNever(u: Tables, re: Re, c: char, n: nat, w: string)
    requires u.Valid() && Times(u, re, n, w) && Never(re, c) && c < '\U{80}'
    ensures c !in w
    decreases re, n + 1
  {
    if n > 0 {
      var k :| 0 <= k <= |w| && In(u, re, w[..k]) && Times(u, re, n - 1, w[k..]);
      NeverSound(u, re, c, w[..k]);
      TimesNever(u, re, c, n - 1, w[k..]);
      assert w == w[..k] + w[k..];
    }
  }

  lemma {:induction false} OffLabelSound(u: Tables, cls: Class, c: char)
    requires u.Valid() && OffLabel(cls) && Member(u, cls, c)
    ensures !LabelChar(c)
  {
    match cls
    case Lit(_) =>
    case Range(_, _) =>
    case Digit =>
      assert c < '\U{80}' ==> u.digit(c) == ('0' <= c <= '9');
    case Either(a, b) =>
      if Member(u, a, c) { OffLabelSound(u, a, c); } else { OffLabelSound(u, b, c); }
  }

  /** The position of a character that no replacement label holds. */
  lemma {:induction false} LeavesLabel(u: Tables, re: Re, w: string) returns (i: nat)
    requires u.Valid() && In(u, re, w) && MustLeaveLabel(re)
    ensures i < |w| && !LabelChar(w[i])
  {
    match re
    case Chr(cls) =>
      OffLabelSound(u, cls, w[0]);
      i := 0;
    case Cat(l, r) =>
      var k :| 0 <= k <= |w| && In(u, l, w[..k]) && In(u, r, w[k..]);
      if MustLeaveLabel(l) {
        i := LeavesLabel(u, l, w[..k]);
      } else {
        i := LeavesLabel(u, r, w[k..]);
        i := i + k;
      }
    case Alt(l, r) =>
      if In(u, l, w) { i := LeavesLabel(u, l, w); } else { i := LeavesLabel(u, r, w); }
    case Rep(r, lo, hi) =>
      var n: nat :| lo <= n <= hi.GetOr(n) && Times(u, r, n, w);
      var k :| 0 <= k <= |w| && In(u, r, w[..k]) && Times(u, r, n - 1, w[k..]);
      i := LeavesLabel(u, r, w[..k]);
  }

  /** `\b`: exactly one side is a word character. */
  predicate Boundary(u: Tables, t: string, i: nat) {
    (0 < i <= |t| && u.word(t[i - 1])) != (i < |t| && u.word(t[i]))
  }

  /** t[i..j] is matched by the pattern `\b re \b`. */
  ghost predicate Match(u: Tables, re: Re, t: string, i: nat, j: nat) {
    i <= j <= |t| && Boundary(u, t, i) && Boundary(u, t, j) && In(u, re, t[i..j])
  }

  ghost predicate NoMatch(u: Tables, re: Re, t: string) {
    forall i: nat, j: nat :: !Match(u, re, t, i, j)
  }

  /** The matcher tried at one start position: the end of the match it picks. */
  type Engine = (Re, string, nat) -> Option<nat>

  /** Backtracking finds a match from a start exactly when there is one;
      greediness decides which, and nothing here depends on that choice. */
  ghost predicate Faithful(u: Tables, e: Engine) {
    forall re, t, i: nat ::
      match e(re, t, i)
      case Some(j) => Match(u, re, t, i, j)
      case None => forall j: nat :: !Match(u, re, t, i, j)
  }

  /** One faithful choice of ends, so the requirement is not empty. */
  ghost function SomeEnd(u: Tables): (e: Engine)
    ensures Faithful(u, e)
  {
    (re: Re, t: string, i: nat) =>
      if exists j: nat :: Match(u, re, t, i, j)
      then var j: nat :| Match(u, re, t, i, j); Some(j)
      else None
  }
}
