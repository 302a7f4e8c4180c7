/** PII redaction: an ordered list of rewriting passes. The SDK and the
    ingestion service carry the same list, so one model serves both. */
module Redaction {
  import opened Wrappers
  import opened Regex

  datatype Pattern = Pattern(name: string, re: Re)

  /** `\b` stands on both sides of every pattern, so re is what lies between. */
  function Marker(name: string): string { "[REDACTED_" + name + "]" }

  function Word(s: string): Re
    requires s != []
  {
    if |s| == 1 then Chr(Lit(s[0])) else Cat(Chr(Lit(s[0])), Word(s[1..]))
  }

  function Plus(r: Re): Re { Rep(r, 1, None) }
  function Exactly(r: Re, n: nat): Re { Rep(r, n, Some(n)) }
  function Between(r: Re, lo: nat, hi: nat): Re { Rep(r, lo, Some(hi)) }
  function OneOf(a: char, b: char): Class { Either(Lit(a), Lit(b)) }

  const LETTER: Class := Either(Range('A', 'Z'), Range('a', 'z'))
  const ALNUM: Class := Either(LETTER, Range('0', '9'))
  const DOT_DASH: Class := OneOf('.', '-')
  const LOCAL: Class := Either(Either(ALNUM, DOT_DASH), Either(OneOf('_', '%'), Lit('+')))
  const DOMAIN: Class := Either(ALNUM, DOT_DASH)
  const TOKEN: Class := Either(ALNUM, OneOf('_', '-'))
  const GAP2: Re := Opt(Chr(OneOf(' ', '-')))
  const GAP3: Re := Opt(Chr(Either(Lit(' '), DOT_DASH)))
  const D: Re := Chr(Digit)

  const EMAIL: Re :=
    Cat(Plus(Chr(LOCAL)), Cat(Chr(Lit('@')),
    Cat(Plus(Chr(DOMAIN)), Cat(Chr(Lit('.')), Rep(Chr(LETTER), 2, None)))))
  const API_KEY: Re :=
    Cat(Alt(Word("sk"), Alt(Word("pk"), Word("rk"))), Cat(Chr(Lit('-')), Rep(Chr(TOKEN), 16, None)))
  const SSN: Re :=
    Cat(Exactly(D, 3), Cat(Chr(Lit('-')), Cat(Exactly(D, 2), Cat(Chr(Lit('-')), Exactly(D, 4)))))
  const CARD: Re :=
    Cat(Exactly(D, 4), Cat(GAP2, Cat(Exactly(D, 4), Cat(GAP2,
    Cat(Exactly(D, 4), Cat(GAP2, Between(D, 1, 4)))))))
  const COUNTRY: Re := Opt(Cat(Opt(Chr(Lit('+'))), Cat(Between(D, 1, 2), GAP3)))
  const PHONE: Re :=
    Cat(COUNTRY, Cat(Opt(Chr(Lit('('))), Cat(Exactly(D, 3), Cat(Opt(Chr(Lit(')'))),
    Cat(GAP3, Cat(Exactly(D, 3), Cat(GAP3, Exactly(D, 4))))))))
  const IP: Re :=
    Cat(Exactly(Cat(Between(D, 1, 3), Chr(Lit('.'))), 3), Between(D, 1, 3))

  const DEFAULTS: seq<Pattern> := [
    Pattern("EMAIL", EMAIL), Pattern("API_KEY", API_KEY), Pattern("SSN", SSN),
    Pattern("CARD", CARD), Pattern("PHONE", PHONE), Pattern("IP", IP)
  ]

  /** `pattern.subn(marker, t)` from position pos on: leftmost, non-overlapping. */
  function Subn(e: Engine, p: Pattern, t: string, pos: nat): (r: (string, nat))
    requires pos <= |t|
    decreases |t| - pos
  {
    if pos == |t| then ([], 0)
    else match e(p.re, t, pos)
      case Some(j) =>
        if pos < j <= |t| then
          var rest := Subn(e, p, t, j);
          (Marker(p.name) + rest.0, rest.1 + 1)
        else Keep(e, p, t, pos)
      case None => Keep(e, p, t, pos)
  }

  function Keep(e: Engine, p: Pattern, t: string, pos: nat): (string, nat)
    requires pos < |t|
    decreases |t| - pos, 0
  {
    var rest := Subn(e, p, t, pos + 1);
    ([t[pos]] + rest.0, rest.1)
  }

  /** The pattern shape all the default patterns share. */
  predicate Plain(p: Pattern) {
    && MinLen(p.re) >= 1
    && Never(p.re, '[') && Never(p.re, ']')
    && MustLeaveLabel(p.re)
    && (forall c | c in p.name :: LabelChar(c))
  }

  // ---- one pass ----------------------------------------------------------

  /** Position pos starts a match: it is cut. Otherwise its character is kept. */
  lemma SubnUnfold(u: Tables, e: Engine, p: Pattern, t: string, pos: nat)
    requires Faithful(u, e) && Plain(p) && pos < |t|
    ensures e(p.re, t, pos).Some? ==>
      var j := e(p.re, t, pos).value;
      && pos + MinLen(p.re) <= j <= |t| && Match(u, p.re, t, pos, j)
      && Subn(e, p, t, pos) == (Marker(p.name) + Subn(e, p, t, j).0, Subn(e, p, t, j).1 + 1)
    ensures e(p.re, t, pos).None? ==> Subn(e, p, t, pos) == Keep(e, p, t, pos)
  {
    if e(p.re, t, pos).Some? {
      var j := e(p.re, t, pos).value;
      assert Match(u, p.re, t, pos, j);
      MinLenSound(u, p.re, t[pos..j]);
    }
  }

  /** An output prefix without '[' was copied; the pass resumes behind it. */
  lemma {:induction false} CopiedPrefix(u: Tables, e: Engine, p: Pattern, t: string, pos: nat, b: nat)
    requires Faithful(u, e) && Plain(p) && pos <= |t|
    requires b <= |Subn(e, p, t, pos).0| && forall k | 0 <= k < b :: Subn(e, p, t, pos).0[k] != '['
    ensures pos + b <= |t|
    ensures Subn(e, p, t, pos).0 == t[pos..pos + b] + Subn(e, p, t, pos + b).0
    decreases b
  {
    var o := Subn(e, p, t, pos).0;
    if b > 0 {
      assert o[0] != '[';
      SubnUnfold(u, e, p, t, pos);
      if e(p.re, t, pos).Some? {
        assert false;
      } else {
        var o' := Subn(e, p, t, pos + 1).0;
        assert o == [t[pos]] + o';
        forall k | 0 <= k < b - 1 ensures o'[k] != '[' { assert o'[k] == o[k + 1]; }
        CopiedPrefix(u, e, p, t, pos + 1, b - 1);
        assert t[pos..pos + b] == [t[pos]] + t[pos + 1..pos + b];
      }
    }
  }

  /** What a pass writes next to a kept character shows a boundary only where
      the text has one: it is the same next character, or a match begins. */
  lemma NextChar(u: Tables, e: Engine, p: Pattern, t: string, pos: nat, o: string, b: nat)
    requires u.Valid() && Faithful(u, e) && Plain(p) && 0 < pos <= |t|
    requires 0 < b <= |o| && o[b - 1] == t[pos - 1] && o[b..] == Subn(e, p, t, pos).0
    ensures Boundary(u, o, b) ==> Boundary(u, t, pos)
  {
    if pos < |t| {
      SubnUnfold(u, e, p, t, pos);
      assert b < |o| && o[b] == o[b..][0];
    }
  }

  /** Like Match, when the text is preceded by a character whose being a word
      character is lw. */
  ghost predicate MatchAfter(u: Tables, re: Re, lw: bool, t: string, i: nat, j: nat) {
    && i <= j <= |t|
    && (if i == 0 then lw != (0 < |t| && u.word(t[0])) else Boundary(u, t, i))
    && Boundary(u, t, j)
    && In(u, re, t[i..j])
  }

  /** If every start of a q-match in the text is cut by the pass for p, the
      output from pos on has no q-match. lw describes the output character
      before pos: the text's own, or the ']' of a marker. */
  lemma {:induction false} PassClears(u: Tables, e: Engine, p: Pattern, q: Pattern, t: string, pos: nat, lw: bool)
    requires u.Valid() && Faithful(u, e) && Plain(p) && Plain(q) && pos <= |t|
    requires forall i: nat, j: nat :: Match(u, q.re, t, i, j) ==> e(p.re, t, i).Some?
    requires lw == (0 < pos && u.word(t[pos - 1])) || (!lw && Boundary(u, t, pos))
    ensures forall a: nat, b: nat :: !MatchAfter(u, q.re, lw, Subn(e, p, t, pos).0, a, b)
    decreases |t| - pos
  {
    var o := Subn(e, p, t, pos).0;
    forall a: nat, b: nat ensures !MatchAfter(u, q.re, lw, o, a, b) {
      if MatchAfter(u, q.re, lw, o, a, b) {
        MatchHasNoBracket(u, q, o, a, b);
        if pos < |t| {
          SubnUnfold(u, e, p, t, pos);
          if e(p.re, t, pos).Some? {
            MatchBehindMarker(u, e, p, q, t, pos, lw, a, b);
          } else if a == 0 {
            MatchAtCopy(u, e, p, q, t, pos, lw, b);
          } else {
            PassClears(u, e, p, q, t, pos + 1, u.word(t[pos]));
            ShiftMatch(u, q.re, lw, [t[pos]], Subn(e, p, t, pos + 1).0, a, b);
          }
        }
        assert false;
      }
    }
  }

  lemma MatchHasNoBracket(u: Tables, q: Pattern, o: string, a: nat, b: nat)
    requires u.Valid() && Plain(q) && a <= b <= |o| && In(u, q.re, o[a..b])
    ensures a < b
    ensures forall k | a <= k < b :: o[k] != '[' && o[k] != ']'
  {
    var w := o[a..b];
    MinLenSound(u, q.re, w);
    NeverSound(u, q.re, '[', w);
    NeverSound(u, q.re, ']', w);
    assert forall k | a <= k < b :: o[k] == w[k - a];
  }

  /** A match starting behind a prefix is a match of the rest, seen after the
      prefix's last character. */
  lemma ShiftMatch(u: Tables, re: Re, lw: bool, pre: string, rest: string, a: nat, b: nat)
    requires 0 < |pre| <= a < b && MatchAfter(u, re, lw, pre + rest, a, b)
    ensures MatchAfter(u, re, u.word(pre[|pre| - 1]), rest, a - |pre|, b - |pre|)
  {
    assert (pre + rest)[a..b] == rest[a - |pre|..b - |pre|];
  }

  /** A kept start would be a match of the text that the pass did not cut. */
  lemma MatchAtCopy(u: Tables, e: Engine, p: Pattern, q: Pattern, t: string, pos: nat, lw: bool, b: nat)
    requires u.Valid() && Faithful(u, e) && Plain(p) && Plain(q) && pos < |t|
    requires forall i: nat, j: nat :: Match(u, q.re, t, i, j) ==> e(p.re, t, i).Some?
    requires lw == (0 < pos && u.word(t[pos - 1])) || (!lw && Boundary(u, t, pos))
    requires e(p.re, t, pos).None?
    ensures !MatchAfter(u, q.re, lw, Subn(e, p, t, pos).0, 0, b)
  {
    var o := Subn(e, p, t, pos).0;
    if MatchAfter(u, q.re, lw, o, 0, b) {
      MatchHasNoBracket(u, q, o, 0, b);
      assert o[0..b] == o[..b];
      SubnUnfold(u, e, p, t, pos);
      CopiedPrefix(u, e, p, t, pos, b);
      NextChar(u, e, p, t, pos + b, o, b);
      assert Match(u, q.re, t, pos, pos + b);
      assert false;
    }
  }

  /** A match cannot touch a marker's brackets, and its label holds no match. */
  lemma MatchBehindMarker(u: Tables, e: Engine, p: Pattern, q: Pattern, t: string, pos: nat, lw: bool, a: nat, b: nat)
    requires u.Valid() && Faithful(u, e) && Plain(p) && Plain(q) && pos < |t|
    requires forall i: nat, j: nat :: Match(u, q.re, t, i, j) ==> e(p.re, t, i).Some?
    requires e(p.re, t, pos).Some?
    ensures !MatchAfter(u, q.re, lw, Subn(e, p, t, pos).0, a, b)
    decreases |t| - pos, 0
  {
    var o := Subn(e, p, t, pos).0;
    if MatchAfter(u, q.re, lw, o, a, b) {
      SubnUnfold(u, e, p, t, pos);
      MatchHasNoBracket(u, q, o, a, b);
      var m := Marker(p.name);
      var j := e(p.re, t, pos).value;
      var rest := Subn(e, p, t, j).0;
      assert o[0] == '[' && o[|m| - 1] == ']';
      if a < |m| {
        assert 0 < a && b < |m|;
        var k := LeavesLabel(u, q.re, o[a..b]);
        MarkerLabel(p.name, a + k);
        assert false;
      } else {
        PassClears(u, e, p, q, t, j, false);
        ShiftMatch(u, q.re, lw, m, rest, a, b);
        assert false;
      }
    }
  }

  lemma MarkerLabel(name: string, k: nat)
    requires forall c | c in name :: LabelChar(c)
    requires 0 < k < |Marker(name)| - 1
    ensures LabelChar(Marker(name)[k])
  {
    if k >= 10 { assert Marker(name)[k] == name[k - 10]; }
  }

  /** A pass leaves no match of its own pattern, and no match of a pattern that
      had none before: markers do not enable anything. */
  lemma PassNoMatch(u: Tables, e: Engine, p: Pattern, q: Pattern, t: string)
    requires u.Valid() && Faithful(u, e) && Plain(p) && Plain(q)
    requires p == q || NoMatch(u, q.re, t)
    ensures NoMatch(u, q.re, Subn(e, p, t, 0).0)
  {
    PassClears(u, e, p, q, t, 0, false);
    var o := Subn(e, p, t, 0).0;
    forall i: nat, j: nat ensures !Match(u, q.re, o, i, j) {
      assert !MatchAfter(u, q.re, false, o, i, j);
    }
  }

  // ---- what a pass is: leftmost, non-overlapping replacement ---------------

  /** No match starts in t[from..to]. */
  ghost predicate NoStart(u: Tables, re: Re, t: string, from: nat, to: nat) {
    forall i: nat, j: nat | from <= i < to :: !Match(u, re, t, i, j)
  }

  /** The cuts are matches, in order and disjoint from pos on, and no match
      starts in the text between them. */
  ghost predicate Leftmost(u: Tables, re: Re, t: string, pos: nat, cuts: seq<(nat, nat)>)
    decreases |cuts|
  {
    if cuts == [] then NoStart(u, re, t, pos, |t| + 1)
    else
      var (a, b) := cuts[0];
      && pos <= a < b && Match(u, re, t, a, b)
      && NoStart(u, re, t, pos, a) && Leftmost(u, re, t, b, cuts[1..])
  }

  /** t[pos..] with a marker in place of every cut. */
  ghost function Splice(u: Tables, re: Re, t: string, pos: nat, cuts: seq<(nat, nat)>, marker: string): string
    requires pos <= |t| && Leftmost(u, re, t, pos, cuts)
    decreases |cuts|
  {
    if cuts == [] then t[pos..]
    else
      var (a, b) := cuts[0];
      t[pos..a] + marker + Splice(u, re, t, b, cuts[1..], marker)
  }

  /** A pass replaces exactly the leftmost, non-overlapping matches, copies all
      other text, and counts the replacements. */
  lemma {:induction false} SubnSplices(u: Tables, e: Engine, p: Pattern, t: string, pos: nat)
    returns (cuts: seq<(nat, nat)>)
    requires Faithful(u, e) && Plain(p) && pos <= |t|
    ensures Leftmost(u, p.re, t, pos, cuts)
    ensures Subn(e, p, t, pos) == (Splice(u, p.re, t, pos, cuts, Marker(p.name)), |cuts|)
    decreases |t| - pos
  {
    if pos == |t| {
      cuts := [];
      forall i: nat, j: nat | pos <= i < |t| + 1 ensures !Match(u, p.re, t, i, j) {
        if Match(u, p.re, t, i, j) { MinLenSound(u, p.re, t[i..j]); }
      }
      assert t[pos..] == [];
    } else {
      SubnUnfold(u, e, p, t, pos);
      if e(p.re, t, pos).Some? {
        var j := e(p.re, t, pos).value;
        var rest := SubnSplices(u, e, p, t, j);
        cuts := [(pos, j)] + rest;
        var m := Marker(p.name);
        assert cuts[1..] == rest;
        assert t[pos..pos] + m + Splice(u, p.re, t, j, rest, m) == m + Splice(u, p.re, t, j, rest, m);
      } else {
        cuts := SubnSplices(u, e, p, t, pos + 1);
        WidenLeft(u, p.re, t, pos, cuts, Marker(p.name));
      }
    }
  }

  /** A position where no match starts joins the gap behind it. */
  lemma WidenLeft(u: Tables, re: Re, t: string, pos: nat, cuts: seq<(nat, nat)>, marker: string)
    requires pos < |t| && Leftmost(u, re, t, pos + 1, cuts)
    requires forall j: nat :: !Match(u, re, t, pos, j)
    ensures Leftmost(u, re, t, pos, cuts)
    ensures Splice(u, re, t, pos, cuts, marker) == [t[pos]] + Splice(u, re, t, pos + 1, cuts, marker)
  {
    if cuts == [] {
      assert t[pos..] == [t[pos]] + t[pos + 1..];
    } else {
      var (a, b) := cuts[0];
      var rest := marker + Splice(u, re, t, b, cuts[1..], marker);
      assert t[pos..a] == [t[pos]] + t[pos + 1..a];
      assert t[pos..a] + rest == [t[pos]] + (t[pos + 1..a] + rest);
    }
  }

  // ---- the whole redactor ------------------------------------------------

  /** The passes in list order, with the number of replacements. */
  function RedactWith(e: Engine, ps: seq<Pattern>, t: string): (r: (string, nat)) {
    if ps == [] then (t, 0)
    else
      var first := RedactWith(e, ps[..|ps| - 1], t);
      var last := Subn(e, ps[|ps| - 1], first.0, 0);
      (last.0, first.1 + last.1)
  }

  /** `redact`: `None` and the empty text pass through. */
  function Redact(e: Engine, text: Option<string>): (Option<string>, nat) {
    if text.None? || text.value == [] then (text, 0)
    else var r := RedactWith(e, DEFAULTS, text.value); (Some(r.0), r.1)
  }

  /** The loop of `redact`, in both services. */
  method RunRedact(e: Engine, text: Option<string>) returns (out: Option<string>, total: nat)
    ensures (out, total) == Redact(e, text)
  {
    if text.None? || text.value == [] {
      return text, 0;
    }
    var t := text.value;
    total := 0;
    for k := 0 to |DEFAULTS|
      invariant (t, total) == RedactWith(e, DEFAULTS[..k], text.value)
    {
      assert DEFAULTS[..k + 1][..k] == DEFAULTS[..k];
      var r := Subn(e, DEFAULTS[k], t, 0);
      t := r.0;
      total := total + r.1;
    }
    assert DEFAULTS[..|DEFAULTS|] == DEFAULTS;
    out := Some(t);
  }

  /** t has no match of any default pattern. */
  ghost predicate Clean(u: Tables, t: string) {
    forall k | 0 <= k < |DEFAULTS| :: NoMatch(u, DEFAULTS[k].re, t)
  }

  lemma {:induction false} PassesNoMatch(u: Tables, e: Engine, ps: seq<Pattern>, t: string)
    requires u.Valid() && Faithful(u, e)
    requires forall k | 0 <= k < |ps| :: Plain(ps[k])
    ensures forall k | 0 <= k < |ps| :: NoMatch(u, ps[k].re, RedactWith(e, ps, t).0)
  {
    if ps != [] {
      var n := |ps| - 1;
      PassesNoMatch(u, e, ps[..n], t);
      var before := RedactWith(e, ps[..n], t).0;
      forall k | 0 <= k < |ps| ensures NoMatch(u, ps[k].re, RedactWith(e, ps, t).0) {
        if k < n { assert ps[..n][k] == ps[k]; }
        PassNoMatch(u, e, ps[n], ps[k], before);
      }
    }
  }

  lemma EmailPlain() ensures Plain(DEFAULTS[0]) {}

  lemma ApiKeyPlain()
    ensures Plain(DEFAULTS[1])
  {
    WordPlain("sk");
    WordPlain("pk");
    WordPlain("rk");
  }

  lemma SsnPlain() ensures Plain(DEFAULTS[2]) {}

  lemma CardPlain() ensures Plain(DEFAULTS[3]) {}

  lemma PhonePlain() ensures Plain(DEFAULTS[4]) {}

  lemma IpPlain() ensures Plain(DEFAULTS[5]) {}

  /** The six default patterns have the shape the argument needs. */
  lemma DefaultsPlain()
    ensures forall k | 0 <= k < |DEFAULTS| :: Plain(DEFAULTS[k])
  {
    EmailPlain();
    ApiKeyPlain();
    SsnPlain();
    CardPlain();
    PhonePlain();
    IpPlain();
  }

  lemma WordPlain(s: string)
    requires |s| == 2
    ensures Word(s) == Cat(Chr(Lit(s[0])), Chr(Lit(s[1])))
  {
    assert s[1..] == [s[1]];
  }

  /** One call reaches a fixpoint: the output has no match of any pattern. */
  lemma RedactLeavesNoMatch(u: Tables, e: Engine, t: string)
    requires u.Valid() && Faithful(u, e)
    ensures Clean(u, RedactWith(e, DEFAULTS, t).0)
  {
    DefaultsPlain();
    PassesNoMatch(u, e, DEFAULTS, t);
  }

  lemma {:induction false} IdlePass(u: Tables, e: Engine, p: Pattern, t: string, pos: nat)
    requires Faithful(u, e) && Plain(p) && NoMatch(u, p.re, t) && pos <= |t|
    ensures Subn(e, p, t, pos) == (t[pos..], 0)
    decreases |t| - pos
  {
    if pos < |t| {
      IdlePass(u, e, p, t, pos + 1);
      SubnUnfold(u, e, p, t, pos);
      assert e(p.re, t, pos).None?;
      assert t[pos..] == [t[pos]] + t[pos + 1..];
    }
  }

  lemma {:induction false} IdlePasses(u: Tables, e: Engine, ps: seq<Pattern>, t: string)
    requires Faithful(u, e)
    requires forall k | 0 <= k < |ps| :: Plain(ps[k]) && NoMatch(u, ps[k].re, t)
    ensures RedactWith(e, ps, t) == (t, 0)
  {
    if ps != [] {
      var n := |ps| - 1;
      assert forall k | 0 <= k < n :: ps[..n][k] == ps[k];
      IdlePasses(u, e, ps[..n], t);
      IdlePass(u, e, ps[n], t, 0);
      assert t[0..] == t;
    }
  }

  lemma EmptyHasNoMatch(u: Tables, re: Re)
    requires MinLen(re) >= 1
    ensures NoMatch(u, re, [])
  {
    if In(u, re, []) { MinLenSound(u, re, []); }
  }

  /** The redactor changes nothing exactly on texts without a match. */
  lemma IdentityIffClean(u: Tables, e: Engine, text: Option<string>)
    requires u.Valid() && Faithful(u, e)
    ensures Redact(e, text) == (text, 0) <==> (text.Some? ==> Clean(u, text.value))
  {
    if text.Some? {
      var t := text.value;
      DefaultsPlain();
      if t == [] {
        forall k | 0 <= k < |DEFAULTS| { EmptyHasNoMatch(u, DEFAULTS[k].re); }
      } else {
        RedactLeavesNoMatch(u, e, t);
        if Clean(u, t) { IdlePasses(u, e, DEFAULTS, t); }
      }
    }
  }

  /** The server's second pass over an SDK-redacted preview is the identity with
      count 0, even if the two engines pick different match ends. */
  lemma SecondPassIdle(u: Tables, sdk: Engine, server: Engine, text: Option<string>)
    requires u.Valid() && Faithful(u, sdk) && Faithful(u, server)
    ensures Redact(server, Redact(sdk, text).0) == (Redact(sdk, text).0, 0)
  {
    if text.Some? { RedactLeavesNoMatch(u, sdk, text.value); }
    IdentityIffClean(u, server, Redact(sdk, text).0);
  }

  // ---- output size -------------------------------------------------------

  /** A text between two passes: what is left of the input, and markers. */
  datatype Piece = Kept(c: char) | Mark(name: string)

  ghost predicate Labels(ps: seq<Piece>) {
    forall k | 0 <= k < |ps| && ps[k].Mark? :: forall c | c in ps[k].name :: LabelChar(c)
  }

  function Spelled(p: Piece): string {
    match p
    case Kept(c) => [c]
    case Mark(n) => Marker(n)
  }

  function Render(ps: seq<Piece>): string {
    if ps == [] then [] else Spelled(ps[0]) + Render(ps[1..])
  }

  /** The size budget: 16 for an input character, 6 for one of a marker. */
  function Weight(ps: seq<Piece>): nat {
    if ps == [] then 0 else (if ps[0].Kept? then 16 else 6 * |Spelled(ps[0])|) + Weight(ps[1..])
  }

  lemma Cons(p: Piece, ps: seq<Piece>)
    requires Labels([p]) && Labels(ps)
    ensures Render([p] + ps) == Spelled(p) + Render(ps)
    ensures Weight([p] + ps) == (if p.Kept? then 16 else 6 * |Spelled(p)|) + Weight(ps)
    ensures Labels([p] + ps)
  {
    assert ([p] + ps)[1..] == ps;
    assert p.Mark? ==> [p][0] == p;
  }

  lemma {:induction false} WeightBoundsSize(ps: seq<Piece>)
    ensures 6 * |Render(ps)| <= Weight(ps)
  {
    if ps != [] { WeightBoundsSize(ps[1..]); }
  }

  function Fresh(t: string): seq<Piece> {
    if t == [] then [] else [Kept(t[0])] + Fresh(t[1..])
  }

  lemma {:induction false} FreshMeaning(t: string)
    ensures Render(Fresh(t)) == t && Weight(Fresh(t)) == 16 * |t| && Labels(Fresh(t))
  {
    if t != [] {
      FreshMeaning(t[1..]);
      assert Fresh(t)[1..] == Fresh(t[1..]);
      forall k | 0 <= k < |Fresh(t)| ensures Fresh(t)[k].Kept? {
        if k > 0 { FreshKept(t[1..], k - 1); }
      }
    }
  }

  lemma {:induction false} FreshKept(t: string, k: nat)
    requires k < |Fresh(t)|
    ensures Fresh(t)[k].Kept?
  {
    if k > 0 { FreshKept(t[1..], k - 1); }
  }

  /** No match begins on a marker. */
  lemma NoMatchOnMarker(u: Tables, p: Pattern, t: string, a: nat, name: string, i: nat, j: nat)
    requires u.Valid() && Plain(p)
    requires forall c | c in name :: LabelChar(c)
    requires a + |Marker(name)| <= |t| && t[a..a + |Marker(name)|] == Marker(name)
    requires a <= i < a + |Marker(name)|
    ensures !Match(u, p.re, t, i, j)
  {
    if Match(u, p.re, t, i, j) {
      var m := Marker(name);
      assert forall k | 0 <= k < |m| :: t[a + k] == m[k];
      assert m[0] == '[' && m[|m| - 1] == ']';
      MatchHasNoBracket(u, p, t, i, j);
      var k := LeavesLabel(u, p.re, t[i..j]);
      assert t[i] == t[i..j][0];
      assert t[i..j][k] == t[a + (i + k - a)];
      MarkerLabel(name, i + k - a);
      assert false;
    }
  }

  /** A pass copies a run where no match starts. */
  lemma {:induction false} RunCopied(u: Tables, e: Engine, p: Pattern, t: string, pos: nat, n: nat)
    requires Faithful(u, e) && Plain(p) && pos + n <= |t|
    requires forall i: nat, j: nat | pos <= i < pos + n :: !Match(u, p.re, t, i, j)
    ensures Subn(e, p, t, pos).0 == t[pos..pos + n] + Subn(e, p, t, pos + n).0
    decreases n
  {
    if n > 0 {
      SubnUnfold(u, e, p, t, pos);
      RunCopied(u, e, p, t, pos + 1, n - 1);
      assert t[pos..pos + n] == [t[pos]] + t[pos + 1..pos + n];
    }
  }

  /** Text without '[' is rendered from kept characters only. */
  lemma {:induction false} KeptPrefix(ps: seq<Piece>, n: nat)
    requires n <= |Render(ps)| && '[' !in Render(ps)[..n]
    ensures n <= |ps| && Render(ps)[n..] == Render(ps[n..]) && Weight(ps) == 16 * n + Weight(ps[n..])
    decreases n
  {
    if n > 0 {
      var rest := Render(ps[1..]);
      FirstKept(ps, n);
      NoBracketBehind(ps[0].c, rest, n);
      KeptPrefix(ps[1..], n - 1);
      assert ps[1..][n - 1..] == ps[n..];
      assert Render(ps)[n..] == rest[n - 1..];
    }
  }

  lemma FirstKept(ps: seq<Piece>, n: nat)
    requires 0 < n <= |Render(ps)| && '[' !in Render(ps)[..n]
    ensures ps[0].Kept? && Render(ps) == [ps[0].c] + Render(ps[1..])
  {
    assert Render(ps)[0] in Render(ps)[..n];
  }

  lemma NoBracketBehind(c: char, rest: string, n: nat)
    requires 0 < n <= |rest| + 1 && '[' !in ([c] + rest)[..n]
    ensures '[' !in rest[..n - 1]
  {
    assert ([c] + rest)[..n] == [c] + rest[..n - 1];
  }

  /** Markers no heavier than the shortest match they stand for. */
  predicate Light(p: Pattern) { 6 * |Marker(p.name)| <= 16 * MinLen(p.re) }

  lemma SplitTail(t: string, pos: nat, m: string, rest: string)
    requires pos <= |t| && t[pos..] == m + rest
    ensures pos + |m| <= |t| && t[pos..pos + |m|] == m && t[pos + |m|..] == rest
  {
    assert t[pos..][..|m|] == m && t[pos..][|m|..] == rest;
  }

  /** A pass leaves earlier markers whole, so the budget never grows. */
  lemma {:induction false} PassWeight(u: Tables, e: Engine, p: Pattern, t: string, pos: nat, ps: seq<Piece>)
    returns (qs: seq<Piece>)
    requires u.Valid() && Faithful(u, e) && Plain(p) && Light(p)
    requires pos <= |t| && t[pos..] == Render(ps) && Labels(ps)
    ensures Subn(e, p, t, pos).0 == Render(qs) && Weight(qs) <= Weight(ps) && Labels(qs)
    decreases |t| - pos, 1
  {
    if ps == [] {
      qs := [];
    } else if ps[0].Kept? && e(p.re, t, pos).Some? {
      qs := MatchWeight(u, e, p, t, pos, ps);
    } else {
      qs := PieceWeight(u, e, p, t, pos, ps);
    }
  }

  lemma NoMatchOnPiece(u: Tables, e: Engine, p: Pattern, t: string, pos: nat, piece: Piece)
    requires u.Valid() && Faithful(u, e) && Plain(p) && Labels([piece])
    requires pos + |Spelled(piece)| <= |t| && t[pos..pos + |Spelled(piece)|] == Spelled(piece)
    requires piece.Mark? || e(p.re, t, pos).None?
    ensures forall i: nat, j: nat | pos <= i < pos + |Spelled(piece)| :: !Match(u, p.re, t, i, j)
  {
    if piece.Mark? {
      assert [piece][0] == piece;
      forall i: nat, j: nat | pos <= i < pos + |Spelled(piece)| ensures !Match(u, p.re, t, i, j) {
        NoMatchOnMarker(u, p, t, pos, piece.name, i, j);
      }
    }
  }

  /** A marker or a kept character where no match starts is copied. */
  lemma PieceCopied(u: Tables, e: Engine, p: Pattern, t: string, pos: nat, piece: Piece, rest: string)
    requires u.Valid() && Faithful(u, e) && Plain(p) && Labels([piece])
    requires pos <= |t| && t[pos..] == Spelled(piece) + rest
    requires piece.Mark? || e(p.re, t, pos).None?
    ensures var next := pos + |Spelled(piece)|;
      && next <= |t| && t[next..] == rest
      && Subn(e, p, t, pos).0 == Spelled(piece) + Subn(e, p, t, next).0
  {
    SplitTail(t, pos, Spelled(piece), rest);
    NoMatchOnPiece(u, e, p, t, pos, piece);
    RunCopied(u, e, p, t, pos, |Spelled(piece)|);
  }

  lemma PieceWeight(u: Tables, e: Engine, p: Pattern, t: string, pos: nat, ps: seq<Piece>)
    returns (qs: seq<Piece>)
    requires u.Valid() && Faithful(u, e) && Plain(p) && Light(p)
    requires pos <= |t| && t[pos..] == Render(ps) && Labels(ps)
    requires ps != [] && (ps[0].Mark? || e(p.re, t, pos).None?)
    ensures Subn(e, p, t, pos).0 == Render(qs) && Weight(qs) <= Weight(ps) && Labels(qs)
    decreases |t| - pos, 0
  {
    var piece, more := ps[0], ps[1..];
    assert Labels([piece]) && Labels(more);
    PieceCopied(u, e, p, t, pos, piece, Render(more));
    var rest := PassWeight(u, e, p, t, pos + |Spelled(piece)|, more);
    qs := [piece] + rest;
    Cons(piece, rest);
  }

  lemma MatchWeight(u: Tables, e: Engine, p: Pattern, t: string, pos: nat, ps: seq<Piece>)
    returns (qs: seq<Piece>)
    requires u.Valid() && Faithful(u, e) && Plain(p) && Light(p)
    requires pos < |t| && t[pos..] == Render(ps) && Labels(ps) && e(p.re, t, pos).Some?
    ensures Subn(e, p, t, pos).0 == Render(qs) && Weight(qs) <= Weight(ps) && Labels(qs)
    decreases |t| - pos, 0
  {
    SubnUnfold(u, e, p, t, pos);
    var j := e(p.re, t, pos).value;
    MatchHasNoBracket(u, p, t, pos, j);
    var n := j - pos;
    assert Render(ps)[..n] == t[pos..j];
    KeptPrefix(ps, n);
    assert t[j..] == t[pos..][n..];
    var rest := PassWeight(u, e, p, t, j, ps[n..]);
    qs := [Mark(p.name)] + rest;
    Cons(Mark(p.name), rest);
  }

  lemma {:induction false} PassesWeight(u: Tables, e: Engine, ps: seq<Pattern>, t: string)
    returns (qs: seq<Piece>)
    requires u.Valid() && Faithful(u, e)
    requires forall k | 0 <= k < |ps| :: Plain(ps[k]) && Light(ps[k])
    ensures RedactWith(e, ps, t).0 == Render(qs) && Weight(qs) <= 16 * |t| && Labels(qs)
  {
    if ps == [] {
      qs := Fresh(t);
      FreshMeaning(t);
    } else {
      var n := |ps| - 1;
      assert forall k | 0 <= k < n :: ps[..n][k] == ps[k];
      qs := PassesWeight(u, e, ps[..n], t);
      var before := RedactWith(e, ps[..n], t).0;
      assert before[0..] == before;
      qs := PassWeight(u, e, ps[n], before, 0, qs);
    }
  }

  lemma ShortestWords()
    ensures MinLen(EMAIL) == 6 && MinLen(API_KEY) == 19 && MinLen(SSN) == 11
    ensures MinLen(CARD) == 13 && MinLen(PHONE) == 10 && MinLen(IP) == 7
  {
    WordPlain("sk");
    WordPlain("pk");
    WordPlain("rk");
  }

  lemma MarkerSizes()
    ensures |Marker("EMAIL")| == 16 && |Marker("API_KEY")| == 18 && |Marker("SSN")| == 14
    ensures |Marker("CARD")| == 15 && |Marker("PHONE")| == 16 && |Marker("IP")| == 13
  {
  }

  lemma DefaultsLight()
    ensures forall k | 0 <= k < |DEFAULTS| :: Light(DEFAULTS[k])
  {
    ShortestWords();
    MarkerSizes();
  }

  /** Six passes never make a text longer than 16/6 of it, the growth of the
      shortest e-mail address: no marker is rewritten by a later pass. */
  lemma RedactedSize(u: Tables, e: Engine, t: string)
    requires u.Valid() && Faithful(u, e)
    ensures 6 * |RedactWith(e, DEFAULTS, t).0| <= 16 * |t|
  {
    DefaultsPlain();
    DefaultsLight();
    var qs := PassesWeight(u, e, DEFAULTS, t);
    WeightBoundsSize(qs);
  }
}
