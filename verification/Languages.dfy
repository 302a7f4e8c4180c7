/** What the default patterns match, said in positions and characters. */
module Languages {
  import opened Wrappers
  import opened Regex
  import opened Redaction

  // ---- building blocks ------------------------------------------------------------------

  ghost predicate All(u: Tables, cls: Class, w: string) { forall k | 0 <= k < |w| :: Member(u, cls, w[k]) }

  lemma {:induction false} TimesChr(u: Tables, cls: Class, n: nat, w: string)
    ensures Times(u, Chr(cls), n, w) <==> |w| == n && All(u, cls, w)
    decreases n
  {
    if n > 0 {
      if Times(u, Chr(cls), n, w) {
        var k :| 0 <= k <= |w| && In(u, Chr(cls), w[..k]) && Times(u, Chr(cls), n - 1, w[k..]);
        TimesChr(u, cls, n - 1, w[k..]);
        assert k == 1 && w[..1][0] == w[0];
        assert forall j | 1 <= j < |w| :: w[j] == w[1..][j - 1];
      }
      if |w| == n && All(u, cls, w) {
        TimesChr(u, cls, n - 1, w[1..]);
        assert w[..1] == [w[0]] && In(u, Chr(cls), w[..1]);
      }
    }
  }

  lemma RepChr(u: Tables, cls: Class, lo: nat, hi: Option<nat>, w: string)
    ensures In(u, Rep(Chr(cls), lo, hi), w) <==> lo <= |w| <= hi.GetOr(|w|) && All(u, cls, w)
  {
    forall n: nat ensures Times(u, Chr(cls), n, w) <==> |w| == n && All(u, cls, w) { TimesChr(u, cls, n, w); }
    if lo <= |w| <= hi.GetOr(|w|) && All(u, cls, w) { assert Times(u, Chr(cls), |w|, w); }
  }

  lemma CatChr(u: Tables, cls: Class, r: Re, w: string)
    ensures In(u, Cat(Chr(cls), r), w) <==> w != [] && Member(u, cls, w[0]) && In(u, r, w[1..])
  {
    if w != [] && Member(u, cls, w[0]) && In(u, r, w[1..]) {
      assert w[..1] == [w[0]] && In(u, Chr(cls), w[..1]);
    }
  }

  lemma CatExactly(u: Tables, cls: Class, n: nat, r: Re, w: string)
    ensures In(u, Cat(Rep(Chr(cls), n, Some(n)), r), w) <==> n <= |w| && All(u, cls, w[..n]) && In(u, r, w[n..])
  {
    forall k | 0 <= k <= |w| { RepChr(u, cls, n, Some(n), w[..k]); }
  }

  lemma CatRep(u: Tables, cls: Class, lo: nat, hi: Option<nat>, r: Re, w: string)
    ensures In(u, Cat(Rep(Chr(cls), lo, hi), r), w) <==>
      exists k :: 0 <= k <= |w| && lo <= k <= hi.GetOr(k) && All(u, cls, w[..k]) && In(u, r, w[k..])
  {
    forall k | 0 <= k <= |w|
      ensures In(u, Rep(Chr(cls), lo, hi), w[..k]) <==> lo <= k <= hi.GetOr(k) && All(u, cls, w[..k])
    {
      RepChr(u, cls, lo, hi, w[..k]);
    }
  }

  lemma {:induction false} WordIs(u: Tables, s: string, w: string)
    requires s != []
    ensures In(u, Word(s), w) <==> w == s
  {
    if |s| > 1 {
      CatChr(u, Lit(s[0]), Word(s[1..]), w);
      if w != [] { WordIs(u, s[1..], w[1..]); }
      assert w != [] ==> (w == s <==> w[0] == s[0] && w[1..] == s[1..]);
    }
  }

  // ---- shapes ------------------------------------------------------------------------------

  /** n of one class, a separator, and the rest. */
  lemma GroupThen(u: Tables, d: Class, n: nat, dash: Class, r: Re, w: string)
    ensures In(u, Cat(Rep(Chr(d), n, Some(n)), Cat(Chr(dash), r)), w) <==>
      |w| > n && All(u, d, w[..n]) && Member(u, dash, w[n]) && In(u, r, w[n + 1..])
  {
    CatExactly(u, d, n, Cat(Chr(dash), r), w);
    if |w| >= n { CatChr(u, dash, r, w[n..]); }
    if |w| > n { assert w[n..][1..] == w[n + 1..]; }
  }

  lemma SsnShape(u: Tables, d: Class, dash: Class, w: string)
    ensures In(u, Cat(Rep(Chr(d), 3, Some(3)), Cat(Chr(dash),
                  Cat(Rep(Chr(d), 2, Some(2)), Cat(Chr(dash), Rep(Chr(d), 4, Some(4)))))), w) <==>
      && |w| == 11 && All(u, d, w[..3]) && Member(u, dash, w[3])
      && All(u, d, w[4..6]) && Member(u, dash, w[6]) && All(u, d, w[7..])
  {
    var r4 := Rep(Chr(d), 4, Some(4));
    var r2 := Cat(Rep(Chr(d), 2, Some(2)), Cat(Chr(dash), r4));
    GroupThen(u, d, 3, dash, r2, w);
    if |w| > 3 {
      GroupThen(u, d, 2, dash, r4, w[4..]);
      if |w| > 6 {
        assert w[4..][..2] == w[4..6] && w[4..][2] == w[6] && w[4..][3..] == w[7..];
        RepChr(u, d, 4, Some(4), w[7..]);
      }
    }
  }

  /** One of some words of length two, a separator, at least n of a class. */
  lemma KeyShape(u: Tables, heads: Re, words: seq<string>, dash: Class, token: Class, n: nat, w: string)
    requires forall v :: In(u, heads, v) <==> v in words
    requires forall v | v in words :: |v| == 2
    ensures In(u, Cat(heads, Cat(Chr(dash), Rep(Chr(token), n, None))), w) <==>
      |w| >= n + 3 && w[..2] in words && Member(u, dash, w[2]) && All(u, token, w[3..])
  {
    var tail := Cat(Chr(dash), Rep(Chr(token), n, None));
    assert In(u, Cat(heads, tail), w) <==> |w| >= 2 && w[..2] in words && In(u, tail, w[2..]);
    if |w| >= 2 { CatChr(u, dash, Rep(Chr(token), n, None), w[2..]); }
    if |w| >= 3 {
      assert w[2..][1..] == w[3..];
      RepChr(u, token, n, None, w[3..]);
    }
  }

  /** Some of a class, a separator at k, and the rest. */
  lemma SomeThen(u: Tables, d: Class, dot: Class, r: Re, w: string)
    ensures In(u, Cat(Rep(Chr(d), 1, None), Cat(Chr(dot), r)), w) <==>
      exists k :: 1 <= k < |w| && SplitAt(u, d, dot, r, w, k)
  {
    CatRep(u, d, 1, None, Cat(Chr(dot), r), w);
    forall k | 0 <= k <= |w| { CatChr(u, dot, r, w[k..]); }
    if In(u, Cat(Rep(Chr(d), 1, None), Cat(Chr(dot), r)), w) {
      var k :| 0 <= k <= |w| && 1 <= k && All(u, d, w[..k]) && In(u, Cat(Chr(dot), r), w[k..]);
      assert w[k..][1..] == w[k + 1..];
      assert SplitAt(u, d, dot, r, w, k);
    }
    if k :| 1 <= k < |w| && SplitAt(u, d, dot, r, w, k) {
      assert w[k..][1..] == w[k + 1..];
    }
  }

  ghost predicate SplitAt(u: Tables, d: Class, dot: Class, r: Re, w: string, k: int)
    requires 0 <= k < |w|
  {
    All(u, d, w[..k]) && Member(u, dot, w[k]) && In(u, r, w[k + 1..])
  }

  /** Local part, at sign, host, dot, top-level domain. */
  ghost predicate MailAt(u: Tables, local: Class, sign: Class, host: Class, dot: Class, top: Class,
                         w: string, a: nat, d: nat)
  {
    && 1 <= a && a + 2 <= d && d + 3 <= |w| && Member(u, sign, w[a]) && Member(u, dot, w[d])
    && All(u, local, w[..a]) && All(u, host, w[a + 1..d]) && All(u, top, w[d + 1..])
  }

  lemma MailSplits(u: Tables, local: Class, sign: Class, host: Class, dot: Class, top: Class, w: string)
    returns (a: nat, d: nat)
    requires In(u, Cat(Rep(Chr(local), 1, None), Cat(Chr(sign),
                   Cat(Rep(Chr(host), 1, None), Cat(Chr(dot), Rep(Chr(top), 2, None))))), w)
    ensures MailAt(u, local, sign, host, dot, top, w, a, d)
  {
    a := Split(u, local, sign, Cat(Rep(Chr(host), 1, None), Cat(Chr(dot), Rep(Chr(top), 2, None))), w);
    var rest := w[a + 1..];
    var m := HostSplits(u, host, dot, top, rest);
    d := a + 1 + m;
    assert rest[..m] == w[a + 1..d] && rest[m] == w[d] && rest[m + 1..] == w[d + 1..];
  }

  lemma Split(u: Tables, d: Class, dot: Class, r: Re, w: string) returns (k: nat)
    requires In(u, Cat(Rep(Chr(d), 1, None), Cat(Chr(dot), r)), w)
    ensures 1 <= k < |w| && All(u, d, w[..k]) && Member(u, dot, w[k]) && In(u, r, w[k + 1..])
  {
    SomeThen(u, d, dot, r, w);
    k :| 1 <= k < |w| && SplitAt(u, d, dot, r, w, k);
  }

  lemma HostSplits(u: Tables, host: Class, dot: Class, top: Class, w: string) returns (m: nat)
    requires In(u, Cat(Rep(Chr(host), 1, None), Cat(Chr(dot), Rep(Chr(top), 2, None))), w)
    ensures 1 <= m && m + 3 <= |w| && All(u, host, w[..m]) && Member(u, dot, w[m]) && All(u, top, w[m + 1..])
  {
    m := Split(u, host, dot, Rep(Chr(top), 2, None), w);
    RepChr(u, top, 2, None, w[m + 1..]);
  }

  lemma MailJoins(u: Tables, local: Class, sign: Class, host: Class, dot: Class, top: Class, w: string, a: nat, d: nat)
    requires MailAt(u, local, sign, host, dot, top, w, a, d)
    ensures In(u, Cat(Rep(Chr(local), 1, None), Cat(Chr(sign),
                  Cat(Rep(Chr(host), 1, None), Cat(Chr(dot), Rep(Chr(top), 2, None))))), w)
  {
    var tld := Rep(Chr(top), 2, None);
    var domain := Cat(Rep(Chr(host), 1, None), Cat(Chr(dot), tld));
    var rest, m := w[a + 1..], d - a - 1;
    assert rest[..m] == w[a + 1..d] && rest[m] == w[d] && rest[m + 1..] == w[d + 1..];
    RepChr(u, top, 2, None, rest[m + 1..]);
    assert SplitAt(u, host, dot, tld, rest, m);
    SomeThen(u, host, dot, tld, rest);
    assert SplitAt(u, local, sign, domain, w, a);
    SomeThen(u, local, sign, domain, w);
  }

  // ---- classes -----------------------------------------------------------------------------

  predicate LetterChar(c: char) { 'A' <= c <= 'Z' || 'a' <= c <= 'z' }
  predicate AlnumChar(c: char) { LetterChar(c) || '0' <= c <= '9' }
  predicate LocalChar(c: char) { AlnumChar(c) || c == '.' || c == '_' || c == '%' || c == '+' || c == '-' }
  predicate DomainChar(c: char) { AlnumChar(c) || c == '.' || c == '-' }
  predicate TokenChar(c: char) { AlnumChar(c) || c == '_' || c == '-' }

  lemma EitherIs(u: Tables, a: Class, b: Class, c: char)
    ensures Member(u, Either(a, b), c) <==> Member(u, a, c) || Member(u, b, c)
  {
  }

  lemma Classes(u: Tables)
    ensures forall c :: Member(u, LETTER, c) <==> LetterChar(c)
    ensures forall c :: Member(u, LOCAL, c) <==> LocalChar(c)
    ensures forall c :: Member(u, DOMAIN, c) <==> DomainChar(c)
    ensures forall c :: Member(u, TOKEN, c) <==> TokenChar(c)
  {
    forall c
      ensures Member(u, LETTER, c) <==> LetterChar(c)
      ensures Member(u, LOCAL, c) <==> LocalChar(c)
      ensures Member(u, DOMAIN, c) <==> DomainChar(c)
      ensures Member(u, TOKEN, c) <==> TokenChar(c)
    {
      EitherIs(u, Range('A', 'Z'), Range('a', 'z'), c);
      EitherIs(u, LETTER, Range('0', '9'), c);
      EitherIs(u, ALNUM, DOT_DASH, c);
      EitherIs(u, OneOf('_', '%'), Lit('+'), c);
      EitherIs(u, Either(ALNUM, DOT_DASH), Either(OneOf('_', '%'), Lit('+')), c);
      assert Member(u, ALNUM, c) <==> AlnumChar(c);
      assert Member(u, DOT_DASH, c) <==> c == '.' || c == '-';
      assert Member(u, OneOf('_', '%'), c) <==> c == '_' || c == '%';
      assert Member(u, OneOf('_', '-'), c) <==> c == '_' || c == '-';
    }
  }

  ghost predicate Digits(u: Tables, w: string) { forall k | 0 <= k < |w| :: u.digit(w[k]) }

  // ---- the languages -----------------------------------------------------------------------

  /** Three digits, two, four, with dashes between. */
  lemma SsnLanguage(u: Tables, w: string)
    ensures In(u, SSN, w) <==>
      |w| == 11 && Digits(u, w[..3]) && w[3] == '-' && Digits(u, w[4..6]) && w[6] == '-' && Digits(u, w[7..])
  {
    SsnShape(u, Digit, Lit('-'), w);
  }

  lemma HeadsAre(u: Tables, a: string, b: string, c: string)
    requires a != [] && b != [] && c != []
    ensures forall v :: In(u, Alt(Word(a), Alt(Word(b), Word(c))), v) <==> v in [a, b, c]
  {
    forall v ensures In(u, Alt(Word(a), Alt(Word(b), Word(c))), v) <==> v in [a, b, c] {
      WordIs(u, a, v);
      WordIs(u, b, v);
      WordIs(u, c, v);
    }
  }

  /** `sk-`, `pk-` or `rk-` and at least 16 token characters. */
  lemma ApiKeyLanguage(u: Tables, w: string)
    ensures In(u, API_KEY, w) <==>
      |w| >= 19 && w[..2] in ["sk", "pk", "rk"] && w[2] == '-' && forall k | 3 <= k < |w| :: TokenChar(w[k])
  {
    var heads := Alt(Word("sk"), Alt(Word("pk"), Word("rk")));
    HeadsAre(u, "sk", "pk", "rk");
    KeyShape(u, heads, ["sk", "pk", "rk"], Lit('-'), TOKEN, 16, w);
    Classes(u);
    if |w| >= 3 { assert forall k | 3 <= k < |w| :: w[k] == w[3..][k - 3]; }
  }

  /** An at sign at a and a dot at d, behind it, split the text into a local part, a domain
      and a top-level domain of at least two letters. */
  predicate EmailAt(w: string, a: nat, d: nat) {
    && 1 <= a && a + 2 <= d && d + 3 <= |w| && w[a] == '@' && w[d] == '.'
    && (forall k | 0 <= k < a :: LocalChar(w[k]))
    && (forall k | a < k < d :: DomainChar(w[k]))
    && (forall k | d < k < |w| :: LetterChar(w[k]))
  }

  lemma EmailLanguage(u: Tables, w: string)
    ensures In(u, EMAIL, w) <==> exists a: nat, d: nat :: EmailAt(w, a, d)
  {
    if In(u, EMAIL, w) {
      var a, d := MailSplits(u, LOCAL, Lit('@'), DOMAIN, Lit('.'), LETTER, w);
      MailChars(u, w, a, d);
    }
    if a: nat, d: nat :| EmailAt(w, a, d) {
      MailChars(u, w, a, d);
      MailJoins(u, LOCAL, Lit('@'), DOMAIN, Lit('.'), LETTER, w, a, d);
    }
  }

  lemma MailChars(u: Tables, w: string, a: nat, d: nat)
    ensures MailAt(u, LOCAL, Lit('@'), DOMAIN, Lit('.'), LETTER, w, a, d) <==> EmailAt(w, a, d)
  {
    Classes(u);
    if a < d < |w| {
      assert forall k | 0 <= k < a :: w[k] == w[..a][k];
      assert forall k | a < k < d :: w[k] == w[a + 1..d][k - a - 1];
      assert forall k | d < k < |w| :: w[k] == w[d + 1..][k - d - 1];
    }
  }

  /** Four groups of one to three digits, with dots between them at a, b and c. */
  ghost predicate IpAt(u: Tables, w: string, a: nat, b: nat, c: nat) {
    && 1 <= a <= 3 && a + 2 <= b <= a + 4 && b + 2 <= c <= b + 4 && c + 2 <= |w| <= c + 4
    && w[a] == '.' && w[b] == '.' && w[c] == '.'
    && Digits(u, w[..a]) && Digits(u, w[a + 1..b]) && Digits(u, w[b + 1..c]) && Digits(u, w[c + 1..])
  }

  ghost predicate GroupForm(u: Tables, d: Class, dot: Class, w: string) {
    2 <= |w| <= 4 && All(u, d, w[..|w| - 1]) && Member(u, dot, w[|w| - 1])
  }

  lemma GroupDot(u: Tables, d: Class, dot: Class, w: string)
    ensures In(u, Cat(Rep(Chr(d), 1, Some(3)), Chr(dot)), w) <==> GroupForm(u, d, dot, w)
  {
    CatRep(u, d, 1, Some(3), Chr(dot), w);
    if In(u, Cat(Rep(Chr(d), 1, Some(3)), Chr(dot)), w) {
      var k :| 0 <= k <= |w| && 1 <= k <= 3 && All(u, d, w[..k]) && In(u, Chr(dot), w[k..]);
      assert k == |w| - 1 && w[k] == w[k..][0];
    }
    if 2 <= |w| <= 4 && All(u, d, w[..|w| - 1]) && Member(u, dot, w[|w| - 1]) {
      var k := |w| - 1;
      assert w[k..] == [w[k]] && All(u, d, w[..k]) && In(u, Chr(dot), w[k..]);
    }
  }

  /** Peeling one copy off a repetition. */
  lemma Peel(u: Tables, re: Re, n: nat, w: string) returns (k: nat)
    requires n > 0 && Times(u, re, n, w)
    ensures k <= |w| && In(u, re, w[..k]) && Times(u, re, n - 1, w[k..])
  {
    k :| 0 <= k <= |w| && In(u, re, w[..k]) && Times(u, re, n - 1, w[k..]);
  }

  lemma Two(u: Tables, re: Re, w: string) returns (k: nat)
    requires Times(u, re, 2, w)
    ensures k <= |w| && In(u, re, w[..k]) && In(u, re, w[k..])
  {
    k := Peel(u, re, 2, w);
    var y := w[k..];
    var m := Peel(u, re, 1, y);
    assert y[m..] == [] && y[..m] == y;
  }

  lemma Three(u: Tables, re: Re, w: string) returns (i: nat, j: nat)
    requires Times(u, re, 3, w)
    ensures i <= j <= |w| && In(u, re, w[..i]) && In(u, re, w[i..j]) && In(u, re, w[j..])
  {
    i := Peel(u, re, 3, w);
    var x := w[i..];
    var k := Two(u, re, x);
    j := i + k;
    assert x[..k] == w[i..j] && x[k..] == w[j..];
  }

  lemma MakeThree(u: Tables, re: Re, w: string, i: nat, j: nat)
    requires i <= j <= |w| && In(u, re, w[..i]) && In(u, re, w[i..j]) && In(u, re, w[j..])
    ensures Times(u, re, 3, w)
  {
    var x := w[i..];
    var y := x[j - i..];
    assert x[..j - i] == w[i..j] && y == w[j..] && y[..|y|] == y && y[|y|..] == [];
    assert Times(u, re, 0, y[|y|..]);
    assert Times(u, re, 1, y);
    assert Times(u, re, 2, x);
  }

  /** Three groups with a dot each, and a last one. */
  ghost predicate DottedAt(u: Tables, d: Class, dot: Class, w: string, a: nat, b: nat, c: nat) {
    && 1 <= a <= 3 && a + 2 <= b <= a + 4 && b + 2 <= c <= b + 4 && c + 2 <= |w| <= c + 4
    && Member(u, dot, w[a]) && Member(u, dot, w[b]) && Member(u, dot, w[c])
    && All(u, d, w[..a]) && All(u, d, w[a + 1..b]) && All(u, d, w[b + 1..c]) && All(u, d, w[c + 1..])
  }

  lemma DottedSplits(u: Tables, d: Class, dot: Class, w: string) returns (a: nat, b: nat, c: nat)
    requires In(u, Cat(Rep(Cat(Rep(Chr(d), 1, Some(3)), Chr(dot)), 3, Some(3)), Rep(Chr(d), 1, Some(3))), w)
    ensures DottedAt(u, d, dot, w, a, b, c)
  {
    var group, last := Cat(Rep(Chr(d), 1, Some(3)), Chr(dot)), Rep(Chr(d), 1, Some(3));
    var m, i, j := DottedCuts(u, group, last, w);
    GroupDot(u, d, dot, w[..m][..i]);
    GroupDot(u, d, dot, w[..m][i..j]);
    GroupDot(u, d, dot, w[..m][j..]);
    RepChr(u, d, 1, Some(3), w[m..]);
    a, b, c := i - 1, j - 1, m - 1;
    DottedFrom(u, d, dot, w, m, i, j);
  }

  lemma DottedFrom(u: Tables, d: Class, dot: Class, w: string, m: nat, i: nat, j: nat)
    requires i <= j <= m <= |w| && 1 <= |w| - m <= 3 && All(u, d, w[m..])
    requires GroupForm(u, d, dot, w[..m][..i]) && GroupForm(u, d, dot, w[..m][i..j])
    requires GroupForm(u, d, dot, w[..m][j..])
    ensures i >= 1 && j >= 1 && m >= 1 && DottedAt(u, d, dot, w, i - 1, j - 1, m - 1)
  {
    DottedSlices(w, m, i, j);
  }

  lemma DottedCuts(u: Tables, group: Re, last: Re, w: string) returns (m: nat, i: nat, j: nat)
    requires In(u, Cat(Rep(group, 3, Some(3)), last), w)
    ensures i <= j <= m <= |w| && In(u, last, w[m..])
    ensures In(u, group, w[..m][..i]) && In(u, group, w[..m][i..j]) && In(u, group, w[..m][j..])
  {
    m :| 0 <= m <= |w| && In(u, Rep(group, 3, Some(3)), w[..m]) && In(u, last, w[m..]);
    i, j := Three(u, group, w[..m]);
  }

  lemma DottedSlices(w: string, m: nat, i: nat, j: nat)
    requires 0 < i < j < m <= |w|
    ensures var v := w[..m];
      && v[..i][..i - 1] == w[..i - 1] && v[..i][i - 1] == w[i - 1]
      && v[i..j][..j - i - 1] == w[i..j - 1] && v[i..j][j - i - 1] == w[j - 1]
      && v[j..][..m - j - 1] == w[j..m - 1] && v[j..][m - j - 1] == w[m - 1]
  {
    var v := w[..m];
    assert v[i..j] == w[i..j] && v[j..] == w[j..m];
    LastOff(w, 0, i);
    LastOff(w, i, j);
    LastOff(w, j, m);
  }

  lemma LastOff(w: string, i: nat, j: nat)
    requires i < j <= |w|
    ensures w[i..j][..j - i - 1] == w[i..j - 1] && w[i..j][j - i - 1] == w[j - 1]
  {
  }

  lemma DottedJoins(u: Tables, d: Class, dot: Class, w: string, a: nat, b: nat, c: nat)
    requires DottedAt(u, d, dot, w, a, b, c)
    ensures In(u, Cat(Rep(Cat(Rep(Chr(d), 1, Some(3)), Chr(dot)), 3, Some(3)), Rep(Chr(d), 1, Some(3))), w)
  {
    var group, last := Cat(Rep(Chr(d), 1, Some(3)), Chr(dot)), Rep(Chr(d), 1, Some(3));
    var m, i, j := c + 1, a + 1, b + 1;
    DottedTo(u, d, dot, w, a, b, c);
    GroupDot(u, d, dot, w[..m][..i]);
    GroupDot(u, d, dot, w[..m][i..j]);
    GroupDot(u, d, dot, w[..m][j..]);
    RepChr(u, d, 1, Some(3), w[m..]);
    DottedMakes(u, group, last, w, m, i, j);
  }

  lemma DottedTo(u: Tables, d: Class, dot: Class, w: string, a: nat, b: nat, c: nat)
    requires DottedAt(u, d, dot, w, a, b, c)
    ensures GroupForm(u, d, dot, w[..c + 1][..a + 1]) && GroupForm(u, d, dot, w[..c + 1][a + 1..b + 1])
    ensures GroupForm(u, d, dot, w[..c + 1][b + 1..])
  {
    DottedSlices(w, c + 1, a + 1, b + 1);
  }

  lemma DottedMakes(u: Tables, group: Re, last: Re, w: string, m: nat, i: nat, j: nat)
    requires i <= j <= m <= |w| && In(u, last, w[m..])
    requires In(u, group, w[..m][..i]) && In(u, group, w[..m][i..j]) && In(u, group, w[..m][j..])
    ensures In(u, Cat(Rep(group, 3, Some(3)), last), w)
  {
    MakeThree(u, group, w[..m], i, j);
    assert In(u, Rep(group, 3, Some(3)), w[..m]);
  }

  lemma IpLanguage(u: Tables, w: string)
    ensures In(u, IP, w) <==> exists a: nat, b: nat, c: nat :: IpAt(u, w, a, b, c)
  {
    if In(u, IP, w) {
      var a, b, c := DottedSplits(u, Digit, Lit('.'), w);
      assert IpAt(u, w, a, b, c);
    }
    if a: nat, b: nat, c: nat :| IpAt(u, w, a, b, c) { DottedJoins(u, Digit, Lit('.'), w, a, b, c); }
  }

  // ---- cards -------------------------------------------------------------------------------

  lemma OptChr(u: Tables, cls: Class, w: string)
    ensures In(u, Opt(Chr(cls)), w) <==> w == [] || (|w| == 1 && Member(u, cls, w[0]))
  {
  }

  /** n of one class, an optional gap, and the rest. */
  lemma GapThen(u: Tables, d: Class, n: nat, gap: Class, r: Re, w: string)
    ensures In(u, Cat(Rep(Chr(d), n, Some(n)), Cat(Opt(Chr(gap)), r)), w) <==>
      exists g: nat :: GapAt(u, d, n, gap, w, g) && In(u, r, w[n + g..])
  {
    CatExactly(u, d, n, Cat(Opt(Chr(gap)), r), w);
    if n <= |w| {
      var v := w[n..];
      assert forall k | 0 <= k <= |v| :: v[k..] == w[n + k..];
      if In(u, Cat(Opt(Chr(gap)), r), v) && All(u, d, w[..n]) {
        var k :| 0 <= k <= |v| && In(u, Opt(Chr(gap)), v[..k]) && In(u, r, v[k..]);
        OptChr(u, gap, v[..k]);
        assert k == 1 ==> v[..k][0] == w[n];
        assert GapAt(u, d, n, gap, w, k);
      }
      if g: nat :| GapAt(u, d, n, gap, w, g) && In(u, r, w[n + g..]) {
        OptChr(u, gap, v[..g]);
        assert g == 1 ==> v[..g][0] == w[n];
        assert In(u, Opt(Chr(gap)), v[..g]) && In(u, r, v[g..]);
      }
    }
  }

  /** n of the class, followed by g gap characters, none or one. */
  ghost predicate GapAt(u: Tables, d: Class, n: nat, gap: Class, w: string, g: nat) {
    g <= 1 && n + g <= |w| && All(u, d, w[..n]) && (g == 1 ==> Member(u, gap, w[n]))
  }

  /** Three groups of four with optional gaps f, g and h behind them, then one to four. */
  ghost predicate CardAt(u: Tables, w: string, f: nat, g: nat, h: nat) {
    && f <= 1 && g <= 1 && h <= 1 && 13 + f + g + h <= |w| <= 16 + f + g + h
    && Digits(u, w[..4]) && (f == 1 ==> w[4] == ' ' || w[4] == '-')
    && Digits(u, w[4 + f..8 + f]) && (g == 1 ==> w[8 + f] == ' ' || w[8 + f] == '-')
    && Digits(u, w[8 + f + g..12 + f + g]) && (h == 1 ==> w[12 + f + g] == ' ' || w[12 + f + g] == '-')
    && Digits(u, w[12 + f + g + h..])
  }

  ghost predicate GroupsAt(u: Tables, d: Class, gap: Class, w: string, f: nat, g: nat, h: nat) {
    && f <= 1 && g <= 1 && h <= 1 && 13 + f + g + h <= |w| <= 16 + f + g + h
    && All(u, d, w[..4]) && (f == 1 ==> Member(u, gap, w[4]))
    && All(u, d, w[4 + f..8 + f]) && (g == 1 ==> Member(u, gap, w[8 + f]))
    && All(u, d, w[8 + f + g..12 + f + g]) && (h == 1 ==> Member(u, gap, w[12 + f + g]))
    && All(u, d, w[12 + f + g + h..])
  }

  function Groups(d: Class, gap: Class, n: nat): Re {
    if n == 0 then Rep(Chr(d), 1, Some(4))
    else Cat(Rep(Chr(d), 4, Some(4)), Cat(Opt(Chr(gap)), Groups(d, gap, n - 1)))
  }

  lemma GroupsSplit(u: Tables, d: Class, gap: Class, w: string) returns (f: nat, g: nat, h: nat)
    requires In(u, Groups(d, gap, 3), w)
    ensures GroupsAt(u, d, gap, w, f, g, h)
  {
    f := GroupSplits(u, d, gap, 2, w);
    var x := w[4 + f..];
    g := GroupSplits(u, d, gap, 1, x);
    var y := x[4 + g..];
    h := GroupSplits(u, d, gap, 0, y);
    RepChr(u, d, 1, Some(4), y[4 + h..]);
    GroupSlices(w, f, g, h);
  }

  lemma GroupSplits(u: Tables, d: Class, gap: Class, n: nat, w: string) returns (g: nat)
    requires In(u, Groups(d, gap, n + 1), w)
    ensures GapAt(u, d, 4, gap, w, g) && In(u, Groups(d, gap, n), w[4 + g..])
  {
    GapThen(u, d, 4, gap, Groups(d, gap, n), w);
    g :| GapAt(u, d, 4, gap, w, g) && In(u, Groups(d, gap, n), w[4 + g..]);
  }

  lemma GroupSlices(w: string, f: nat, g: nat, h: nat)
    requires 12 + f + g + h <= |w|
    ensures var x := w[4 + f..]; var y := x[4 + g..];
      && x[..4] == w[4 + f..8 + f] && y[..4] == w[8 + f + g..12 + f + g] && y[4 + h..] == w[12 + f + g + h..]
      && (g > 0 ==> x[4] == w[8 + f]) && (h > 0 ==> y[4] == w[12 + f + g])
  {
  }

  lemma GroupsJoin(u: Tables, d: Class, gap: Class, w: string, f: nat, g: nat, h: nat)
    requires GroupsAt(u, d, gap, w, f, g, h)
    ensures In(u, Groups(d, gap, 3), w)
  {
    var x := w[4 + f..];
    var y := x[4 + g..];
    GroupSlices(w, f, g, h);
    RepChr(u, d, 1, Some(4), y[4 + h..]);
    GroupJoins(u, d, gap, 0, y, h);
    GroupJoins(u, d, gap, 1, x, g);
    GroupJoins(u, d, gap, 2, w, f);
  }

  lemma GroupJoins(u: Tables, d: Class, gap: Class, n: nat, w: string, g: nat)
    requires GapAt(u, d, 4, gap, w, g) && In(u, Groups(d, gap, n), w[4 + g..])
    ensures In(u, Groups(d, gap, n + 1), w)
  {
    GapThen(u, d, 4, gap, Groups(d, gap, n), w);
  }

  lemma CardIsGroups()
    ensures CARD == Groups(Digit, OneOf(' ', '-'), 3)
  {
    assert Groups(Digit, OneOf(' ', '-'), 0) == Between(D, 1, 4);
  }

  lemma CardLanguage(u: Tables, w: string)
    ensures In(u, CARD, w) <==> exists f: nat, g: nat, h: nat :: CardAt(u, w, f, g, h)
  {
    CardIsGroups();
    var gap := OneOf(' ', '-');
    assert forall c :: Member(u, gap, c) <==> c == ' ' || c == '-';
    if In(u, CARD, w) {
      var f, g, h := GroupsSplit(u, Digit, gap, w);
      assert CardAt(u, w, f, g, h);
    }
    if f: nat, g: nat, h: nat :| CardAt(u, w, f, g, h) { GroupsJoin(u, Digit, gap, w, f, g, h); }
  }
}
