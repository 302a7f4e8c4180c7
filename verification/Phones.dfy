/** What the phone pattern matches. */
module Phones {
  import opened Wrappers
  import opened Regex
  import opened Redaction
  import opened Languages

  ghost predicate OptAt(u: Tables, cls: Class, w: string, g: nat) {
    g <= 1 && g <= |w| && (g == 1 ==> Member(u, cls, w[0]))
  }

  lemma OptThen(u: Tables, cls: Class, r: Re, w: string)
    ensures In(u, Cat(Opt(Chr(cls)), r), w) <==> exists g: nat :: OptAt(u, cls, w, g) && In(u, r, w[g..])
  {
    if In(u, Cat(Opt(Chr(cls)), r), w) {
      var k :| 0 <= k <= |w| && In(u, Opt(Chr(cls)), w[..k]) && In(u, r, w[k..]);
      OptChr(u, cls, w[..k]);
      assert k == 1 ==> w[..k][0] == w[0];
      assert OptAt(u, cls, w, k);
    }
    if g: nat :| OptAt(u, cls, w, g) && In(u, r, w[g..]) {
      OptChr(u, cls, w[..g]);
      assert g == 1 ==> w[..g][0] == w[0];
      assert In(u, Opt(Chr(cls)), w[..g]);
    }
  }

  lemma OptJoins(u: Tables, cls: Class, r: Re, w: string, g: nat)
    requires OptAt(u, cls, w, g) && In(u, r, w[g..])
    ensures In(u, Cat(Opt(Chr(cls)), r), w)
  {
    OptThen(u, cls, r, w);
  }

  lemma OptSplits(u: Tables, cls: Class, r: Re, w: string) returns (g: nat)
    requires In(u, Cat(Opt(Chr(cls)), r), w)
    ensures OptAt(u, cls, w, g) && In(u, r, w[g..])
  {
    OptThen(u, cls, r, w);
    g :| OptAt(u, cls, w, g) && In(u, r, w[g..]);
  }

  lemma GapJoins(u: Tables, d: Class, n: nat, gap: Class, r: Re, w: string, g: nat)
    requires GapAt(u, d, n, gap, w, g) && In(u, r, w[n + g..])
    ensures In(u, Cat(Rep(Chr(d), n, Some(n)), Cat(Opt(Chr(gap)), r)), w)
  {
    GapThen(u, d, n, gap, r, w);
  }

  // ---- the country prefix ------------------------------------------------------------------

  /** One or two digits, and a gap or none. */
  ghost predicate CodeAt(u: Tables, d: Class, gap: Class, v: string, n: nat) {
    1 <= n <= 2 && n <= |v| <= n + 1 && All(u, d, v[..n]) && (|v| == n + 1 ==> Member(u, gap, v[n]))
  }

  lemma CodeShape(u: Tables, d: Class, gap: Class, v: string)
    ensures In(u, Cat(Rep(Chr(d), 1, Some(2)), Opt(Chr(gap))), v) <==> exists n: nat :: CodeAt(u, d, gap, v, n)
  {
    if In(u, Cat(Rep(Chr(d), 1, Some(2)), Opt(Chr(gap))), v) { var n := CodeSplits(u, d, gap, v); }
    if n: nat :| CodeAt(u, d, gap, v, n) {
      OptChr(u, gap, v[n..]);
      RepChr(u, d, 1, Some(2), v[..n]);
    }
  }

  lemma CodeSplits(u: Tables, d: Class, gap: Class, v: string) returns (n: nat)
    requires In(u, Cat(Rep(Chr(d), 1, Some(2)), Opt(Chr(gap))), v)
    ensures CodeAt(u, d, gap, v, n)
  {
    n :| 0 <= n <= |v| && In(u, Rep(Chr(d), 1, Some(2)), v[..n]) && In(u, Opt(Chr(gap)), v[n..]);
    RepChr(u, d, 1, Some(2), v[..n]);
    OptChr(u, gap, v[n..]);
  }

  /** Nothing, or a plus or none before a code. */
  ghost predicate PrefixText(u: Tables, plus: Class, d: Class, gap: Class, w: string) {
    w == [] || exists p: nat, n: nat :: OptAt(u, plus, w, p) && CodeAt(u, d, gap, w[p..], n)
  }

  function Prefix(plus: Class, d: Class, gap: Class): Re {
    Opt(Cat(Opt(Chr(plus)), Cat(Rep(Chr(d), 1, Some(2)), Opt(Chr(gap)))))
  }

  function Code(d: Class, gap: Class): Re { Cat(Rep(Chr(d), 1, Some(2)), Opt(Chr(gap))) }

  lemma PrefixSplits(u: Tables, plus: Class, d: Class, gap: Class, w: string)
    requires In(u, Cat(Opt(Chr(plus)), Code(d, gap)), w)
    ensures PrefixText(u, plus, d, gap, w)
  {
    var p := OptSplits(u, plus, Code(d, gap), w);
    var n := CodeSplits(u, d, gap, w[p..]);
  }

  lemma PrefixJoins(u: Tables, plus: Class, d: Class, gap: Class, w: string, p: nat, n: nat)
    requires OptAt(u, plus, w, p) && CodeAt(u, d, gap, w[p..], n)
    ensures In(u, Cat(Opt(Chr(plus)), Code(d, gap)), w)
  {
    CodeShape(u, d, gap, w[p..]);
    OptJoins(u, plus, Code(d, gap), w, p);
  }

  lemma PrefixShape(u: Tables, plus: Class, d: Class, gap: Class, w: string)
    ensures In(u, Prefix(plus, d, gap), w) <==> PrefixText(u, plus, d, gap, w)
  {
    if In(u, Cat(Opt(Chr(plus)), Code(d, gap)), w) { PrefixSplits(u, plus, d, gap, w); }
    if p: nat, n: nat :| OptAt(u, plus, w, p) && CodeAt(u, d, gap, w[p..], n) {
      PrefixJoins(u, plus, d, gap, w, p, n);
    }
  }

  // ---- the number --------------------------------------------------------------------------

  /** Three digits, h gaps, none or one, and four digits. */
  ghost predicate LineAt(u: Tables, d: Class, gap: Class, z: string, h: nat) {
    |z| == 7 + h && GapAt(u, d, 3, gap, z, h) && All(u, d, z[3 + h..])
  }

  function Line(d: Class, gap: Class): Re {
    Cat(Rep(Chr(d), 3, Some(3)), Cat(Opt(Chr(gap)), Rep(Chr(d), 4, Some(4))))
  }

  lemma LineShape(u: Tables, d: Class, gap: Class, z: string)
    ensures In(u, Line(d, gap), z) <==> exists h: nat :: LineAt(u, d, gap, z, h)
  {
    var r := Rep(Chr(d), 4, Some(4));
    GapThen(u, d, 3, gap, r, z);
    if In(u, Line(d, gap), z) {
      var h: nat :| GapAt(u, d, 3, gap, z, h) && In(u, r, z[3 + h..]);
      RepChr(u, d, 4, Some(4), z[3 + h..]);
      assert LineAt(u, d, gap, z, h);
    }
    if h: nat :| LineAt(u, d, gap, z, h) { RepChr(u, d, 4, Some(4), z[3 + h..]); }
  }

  /** A gap or none, and the line number. */
  ghost predicate BehindAt(u: Tables, d: Class, gap: Class, y: string, g: nat, h: nat) {
    OptAt(u, gap, y, g) && LineAt(u, d, gap, y[g..], h)
  }

  /** An opening parenthesis or none, three digits, a closing one or none, a gap or none,
      and the line number. */
  ghost predicate NumberAt(u: Tables, open: Class, close: Class, d: Class, gap: Class, w: string,
                           o: nat, c: nat, g: nat, h: nat)
  {
    && OptAt(u, open, w, o) && GapAt(u, d, 3, close, w[o..], c)
    && BehindAt(u, d, gap, w[o..][3 + c..], g, h)
  }

  ghost predicate NumberText(u: Tables, open: Class, close: Class, d: Class, gap: Class, w: string) {
    exists o: nat, c: nat, g: nat, h: nat :: NumberAt(u, open, close, d, gap, w, o, c, g, h)
  }

  function Behind(d: Class, gap: Class): Re { Cat(Opt(Chr(gap)), Line(d, gap)) }

  function Area(close: Class, d: Class, gap: Class): Re {
    Cat(Rep(Chr(d), 3, Some(3)), Cat(Opt(Chr(close)), Behind(d, gap)))
  }

  function Number(open: Class, close: Class, d: Class, gap: Class): Re { Cat(Opt(Chr(open)), Area(close, d, gap)) }

  lemma BehindSplits(u: Tables, d: Class, gap: Class, y: string) returns (g: nat, h: nat)
    requires In(u, Behind(d, gap), y)
    ensures BehindAt(u, d, gap, y, g, h)
  {
    g := OptSplits(u, gap, Line(d, gap), y);
    LineShape(u, d, gap, y[g..]);
    h :| LineAt(u, d, gap, y[g..], h);
  }

  lemma AreaSplits(u: Tables, close: Class, d: Class, gap: Class, x: string) returns (c: nat)
    requires In(u, Area(close, d, gap), x)
    ensures GapAt(u, d, 3, close, x, c) && In(u, Behind(d, gap), x[3 + c..])
  {
    GapThen(u, d, 3, close, Behind(d, gap), x);
    c :| GapAt(u, d, 3, close, x, c) && In(u, Behind(d, gap), x[3 + c..]);
  }

  lemma NumberSplits(u: Tables, open: Class, close: Class, d: Class, gap: Class, w: string)
    requires In(u, Number(open, close, d, gap), w)
    ensures NumberText(u, open, close, d, gap, w)
  {
    var o := OptSplits(u, open, Area(close, d, gap), w);
    var c := AreaSplits(u, close, d, gap, w[o..]);
    var g, h := BehindSplits(u, d, gap, w[o..][3 + c..]);
    assert NumberAt(u, open, close, d, gap, w, o, c, g, h);
  }

  lemma BehindJoins(u: Tables, d: Class, gap: Class, y: string, g: nat, h: nat)
    requires BehindAt(u, d, gap, y, g, h)
    ensures In(u, Behind(d, gap), y)
  {
    LineShape(u, d, gap, y[g..]);
    OptJoins(u, gap, Line(d, gap), y, g);
  }

  lemma NumberJoins(u: Tables, open: Class, close: Class, d: Class, gap: Class, w: string)
    requires NumberText(u, open, close, d, gap, w)
    ensures In(u, Number(open, close, d, gap), w)
  {
    var o: nat, c: nat, g: nat, h: nat :| NumberAt(u, open, close, d, gap, w, o, c, g, h);
    BehindJoins(u, d, gap, w[o..][3 + c..], g, h);
    GapJoins(u, d, 3, close, Behind(d, gap), w[o..], c);
    OptJoins(u, open, Area(close, d, gap), w, o);
  }

  /** A prefix of k characters and a number. */
  ghost predicate PhoneAt(u: Tables, plus: Class, open: Class, close: Class, d: Class, gap: Class, w: string, k: nat) {
    k <= |w| && PrefixText(u, plus, d, gap, w[..k]) && NumberText(u, open, close, d, gap, w[k..])
  }

  lemma PhoneShape(u: Tables, plus: Class, open: Class, close: Class, d: Class, gap: Class, w: string)
    ensures In(u, Cat(Prefix(plus, d, gap), Number(open, close, d, gap)), w) <==>
      exists k: nat :: PhoneAt(u, plus, open, close, d, gap, w, k)
  {
    var prefix, number := Prefix(plus, d, gap), Number(open, close, d, gap);
    if In(u, Cat(prefix, number), w) {
      var k :| 0 <= k <= |w| && In(u, prefix, w[..k]) && In(u, number, w[k..]);
      PrefixShape(u, plus, d, gap, w[..k]);
      NumberSplits(u, open, close, d, gap, w[k..]);
      assert PhoneAt(u, plus, open, close, d, gap, w, k);
    }
    if k: nat :| PhoneAt(u, plus, open, close, d, gap, w, k) {
      PrefixShape(u, plus, d, gap, w[..k]);
      NumberJoins(u, open, close, d, gap, w[k..]);
    }
  }

  const SPACE_DOT_DASH: Class := Either(Lit(' '), DOT_DASH)

  /** The phone pattern, with its own characters. */
  lemma PhoneLanguage(u: Tables, w: string)
    ensures In(u, PHONE, w) <==>
      exists k: nat :: PhoneAt(u, Lit('+'), Lit('('), Lit(')'), Digit, SPACE_DOT_DASH, w, k)
  {
    PhoneShape(u, Lit('+'), Lit('('), Lit(')'), Digit, SPACE_DOT_DASH, w);
  }
}
