/** The order of the redactor's passes: what `redact` does said without its loop. */
module RedactionOrder {
  import opened Wrappers
  import opened Regex
  import opened Redaction

  /** texts[k + 1] is texts[k] with the leftmost matches of pattern k replaced, for
      every pattern in list order. */
  ghost predicate Chain(u: Tables, ps: seq<Pattern>, texts: seq<string>, cuts: seq<seq<(nat, nat)>>) {
    && |texts| == |ps| + 1 && |cuts| == |ps|
    && forall k | 0 <= k < |ps| :: Replaced(u, ps[k], texts[k], cuts[k], texts[k + 1])
  }

  /** t' is t with the marker in place of the cuts, which are its leftmost matches. */
  ghost predicate Replaced(u: Tables, p: Pattern, t: string, cuts: seq<(nat, nat)>, t': string) {
    Leftmost(u, p.re, t, 0, cuts) && t' == Splice(u, p.re, t, 0, cuts, Marker(p.name))
  }

  function Cuts(cuts: seq<seq<(nat, nat)>>): nat {
    if cuts == [] then 0 else Cuts(cuts[..|cuts| - 1]) + |cuts[|cuts| - 1]|
  }

  lemma ChainMore(u: Tables, ps: seq<Pattern>, texts: seq<string>, cuts: seq<seq<(nat, nat)>>,
                  p: Pattern, text: string, cut: seq<(nat, nat)>)
    requires Chain(u, ps, texts, cuts) && Replaced(u, p, texts[|ps|], cut, text)
    ensures Chain(u, ps + [p], texts + [text], cuts + [cut])
    ensures Cuts(cuts + [cut]) == Cuts(cuts) + |cut|
  {
    assert (cuts + [cut])[..|cuts|] == cuts;
    var all, ts, cs := ps + [p], texts + [text], cuts + [cut];
    forall k | 0 <= k < |all| ensures Replaced(u, all[k], ts[k], cs[k], ts[k + 1]) {
      if k < |ps| {
        assert Replaced(u, ps[k], texts[k], cuts[k], texts[k + 1]);
      } else {
        assert all[k] == p && ts[k] == texts[|ps|] && cs[k] == cut && ts[k + 1] == text;
      }
    }
  }

  lemma OnePass(u: Tables, e: Engine, p: Pattern, t: string) returns (cut: seq<(nat, nat)>)
    requires Faithful(u, e) && Plain(p)
    ensures Replaced(u, p, t, cut, Subn(e, p, t, 0).0) && Subn(e, p, t, 0).1 == |cut|
  {
    cut := SubnSplices(u, e, p, t, 0);
  }

  lemma {:induction false} PassesChain(u: Tables, e: Engine, ps: seq<Pattern>, t: string)
    returns (texts: seq<string>, cuts: seq<seq<(nat, nat)>>)
    requires Faithful(u, e) && forall k | 0 <= k < |ps| :: Plain(ps[k])
    ensures Chain(u, ps, texts, cuts) && texts[0] == t
    ensures RedactWith(e, ps, t) == (texts[|ps|], Cuts(cuts))
  {
    if ps == [] {
      texts, cuts := [t], [];
    } else {
      var n := |ps| - 1;
      assert forall k | 0 <= k < n :: ps[..n][k] == ps[k];
      texts, cuts := PassesChain(u, e, ps[..n], t);
      var cut := OnePass(u, e, ps[n], texts[n]);
      var text := Subn(e, ps[n], texts[n], 0).0;
      ChainMore(u, ps[..n], texts, cuts, ps[n], text, cut);
      assert ps[..n] + [ps[n]] == ps;
      texts, cuts := texts + [text], cuts + [cut];
    }
  }

  /** What `redact` does, pattern by pattern in list order: each of the six replaces the
      leftmost, non-overlapping matches of what the earlier ones left, and the count is
      the number of replacements. */
  lemma RedactInOrder(u: Tables, e: Engine, t: string)
    returns (texts: seq<string>, cuts: seq<seq<(nat, nat)>>)
    requires Faithful(u, e)
    ensures Chain(u, DEFAULTS, texts, cuts) && texts[0] == t
    ensures Redact(e, Some(t)) == (Some(texts[6]), Cuts(cuts))
  {
    DefaultsPlain();
    texts, cuts := PassesChain(u, e, DEFAULTS, t);
    if t == [] { EmptyStays(e, DEFAULTS); }
  }

  lemma {:induction false} EmptyStays(e: Engine, ps: seq<Pattern>)
    ensures RedactWith(e, ps, []) == ([], 0)
  {
    if ps != [] { EmptyStays(e, ps[..|ps| - 1]); }
  }

  lemma {:induction false} FirstPass(e: Engine, ps: seq<Pattern>, t: string)
    requires ps != []
    ensures var first := Subn(e, ps[0], t, 0); var rest := RedactWith(e, ps[1..], first.0);
      RedactWith(e, ps, t) == (rest.0, first.1 + rest.1)
  {
    var n := |ps| - 1;
    if n > 0 {
      FirstPass(e, ps[..n], t);
      assert ps[..n][1..] == ps[1..][..n - 1];
    } else {
      assert ps[..0] == [] && ps[1..] == [];
    }
  }

  /** A marker holds no match. */
  lemma MarkerNoMatch(u: Tables, p: Pattern, name: string)
    requires u.Valid() && Plain(p) && forall c | c in name :: LabelChar(c)
    ensures NoMatch(u, p.re, Marker(name))
  {
    var m := Marker(name);
    assert m[0..0 + |m|] == m;
    forall i: nat, j: nat ensures !Match(u, p.re, m, i, j) {
      if i < |m| {
        NoMatchOnMarker(u, p, m, 0, name, i, j);
      } else if Match(u, p.re, m, i, j) {
        MatchHasNoBracket(u, p, m, i, j);
      }
    }
  }

  lemma WholeMatch(u: Tables, e: Engine, p: Pattern, t: string)
    requires Faithful(u, e) && Plain(p) && t != [] && e(p.re, t, 0) == Some(|t|)
    ensures Subn(e, p, t, 0) == (Marker(p.name), 1)
  {
    SubnUnfold(u, e, p, t, 0);
    assert Marker(p.name) + [] == Marker(p.name);
  }

  /** Passes of other patterns leave a marker alone. */
  lemma MarkerStays(u: Tables, e: Engine, ps: seq<Pattern>, name: string)
    requires u.Valid() && Faithful(u, e) && forall c | c in name :: LabelChar(c)
    requires forall k | 0 <= k < |ps| :: Plain(ps[k])
    ensures RedactWith(e, ps, Marker(name)) == (Marker(name), 0)
  {
    forall k | 0 <= k < |ps| ensures NoMatch(u, ps[k].re, Marker(name)) { MarkerNoMatch(u, ps[k], name); }
    IdlePasses(u, e, ps, Marker(name));
  }

  /** The first pattern wins: a text it matches as a whole, as far as the engine reads it,
      becomes exactly its marker, whatever later patterns match in it. */
  lemma FirstWins(u: Tables, e: Engine, ps: seq<Pattern>, t: string)
    requires u.Valid() && Faithful(u, e) && ps != [] && forall p | p in ps :: Plain(p)
    requires t != [] && e(ps[0].re, t, 0) == Some(|t|)
    ensures RedactWith(e, ps, t) == (Marker(ps[0].name), 1)
  {
    assert ps[0] in ps;
    WholeMatch(u, e, ps[0], t);
    forall k | 0 <= k < |ps[1..]| ensures Plain(ps[1..][k]) { assert ps[1..][k] in ps; }
    MarkerStays(u, e, ps[1..], ps[0].name);
    FirstPass(e, ps, t);
  }

  /** E-mail addresses go first, whatever their local part looks like. */
  lemma EmailFirst(u: Tables, e: Engine, t: string)
    requires u.Valid() && Faithful(u, e) && t != [] && e(EMAIL, t, 0) == Some(|t|)
    ensures Redact(e, Some(t)) == (Some(Marker("EMAIL")), 1)
  {
    var ps := DEFAULTS;
    DefaultsPlain();
    assert ps[0] == Pattern("EMAIL", EMAIL);
    forall p | p in ps ensures Plain(p) {
      var k :| 0 <= k < |ps| && ps[k] == p;
    }
    FirstWins(u, e, ps, t);
  }
}
