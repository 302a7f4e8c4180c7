/** Size caps on free-form fields: the SDK's `_cap_str`, `_cap_value` and
    `_cap_dict`, and the server's `_bounded_dict`. */
module Caps {
  import opened Wrappers
  import J = JsonText

  const MAX_ERROR_CHARS: nat := 2000
  const MAX_TAG_KEYS: nat := 32
  const MAX_VALUE_CHARS: nat := 256
  const MAX_DICT_BYTES: nat := 4096
  const SERVER_DICT_BYTES: nat := 8192

  /** A dict value: text, a JSON-native scalar with its JSON text, or any other
      object with its `str`. */
  datatype Value = Text(s: string) | Scalar(json: string) | Object(str: string)

  /** A dict in insertion order. As an input each key stands for its `str`, and
      two keys may then coincide. */
  type Items = seq<(string, Value)>

  ghost predicate Distinct(d: Items) {
    forall i, j | 0 <= i < j < |d| :: d[i].0 != d[j].0
  }

  // ---- JSON size -----------------------------------------------------------

  /** Bytes `json.dumps` writes for a text, without the quotes (ASCII output). */
  function TextSize(s: string): nat { |J.EscapeAll(J.Utf16(s))| }

  function ValueSize(v: Value): nat {
    match v
    case Text(s) => 2 + TextSize(s)
    case Scalar(json) => |J.Utf16(json)|
    case Object(str) => 2 + TextSize(str)
  }

  /** `"key": value` without the comma. */
  function EntrySize(e: (string, Value)): nat { 2 + TextSize(e.0) + 2 + ValueSize(e.1) }

  /** The sizes of the entries, with two between any two of them. */
  function Separated<E>(size: E -> nat, d: seq<E>): nat {
    if d == [] then 0
    else Separated(size, d[..|d| - 1]) + (if |d| == 1 then 0 else 2) + size(d[|d| - 1])
  }

  function Entries(): ((string, Value)) -> nat { (e: (string, Value)) => EntrySize(e) }

  function BodySize(d: Items): nat { Separated(Entries(), d) }

  /** `len(json.dumps(d))`. */
  function JsonSize(d: Items): nat { 2 + BodySize(d) }

  /** `json.dumps(v, default=str)`. */
  function ValueText(v: Value): J.Text {
    match v
    case Text(s) => J.PrintStr(J.Utf16(s))
    case Scalar(json) => J.Utf16(json)
    case Object(str) => J.PrintStr(J.Utf16(str))
  }

  function EntryText(e: (string, Value)): J.Text { J.PrintMember(J.Utf16(e.0), ValueText(e.1)) }

  /** The entries after the first, and the closing brace. */
  function PrintedRest(d: Items): J.Text {
    if d == [] then [J.CLOSE] else [J.COMMA, J.BLANK] + (EntryText(d[0]) + PrintedRest(d[1..]))
  }

  /** `json.dumps(d, default=str)`. */
  function Printed(d: Items): J.Text {
    if d == [] then [J.OPEN, J.CLOSE] else [J.OPEN] + (EntryText(d[0]) + PrintedRest(d[1..]))
  }

  lemma {:induction false} SeparatedFront<E>(size: E -> nat, d: seq<E>)
    requires d != []
    ensures Separated(size, d) == size(d[0]) + (if |d| == 1 then 0 else 2 + Separated(size, d[1..]))
  {
    if |d| > 1 {
      var n := |d| - 1;
      SeparatedFront(size, d[..n]);
      assert d[..n][1..] == d[1..n] && d[1..][..n - 1] == d[1..n];
    }
  }

  lemma BodyFront(d: Items)
    requires d != []
    ensures BodySize(d) == EntrySize(d[0]) + (if |d| == 1 then 0 else 2 + BodySize(d[1..]))
  {
    SeparatedFront(Entries(), d);
  }

  lemma {:induction false} RestSize(d: Items)
    ensures |PrintedRest(d)| == 1 + (if d == [] then 0 else 2 + BodySize(d))
  {
    if d != [] {
      BodyFront(d);
      RestSize(d[1..]);
    }
  }

  /** The size of any dict is the length of its printed text. */
  lemma SizeIsPrinted(d: Items)
    ensures JsonSize(d) == |Printed(d)|
  {
    if d != [] {
      BodyFront(d);
      RestSize(d[1..]);
    }
  }

  /** A dict without scalars as a JSON value. */
  function AsMembers(d: Items): J.Members
    requires forall e | e in d :: !e.1.Scalar?
  {
    if d == [] then J.End
    else J.Member(J.Utf16(d[0].0), J.Str(J.Utf16(if d[0].1.Text? then d[0].1.s else d[0].1.str)), AsMembers(d[1..]))
  }

  lemma {:induction false} RestIsJson(d: Items)
    requires forall e | e in d :: !e.1.Scalar?
    ensures PrintedRest(d) == J.PrintRest(AsMembers(d))
  {
    if d != [] { RestIsJson(d[1..]); }
  }

  /** The printed text is JSON: for a dict without scalars, parsing it gives the dict. */
  lemma PrintedIsJson(d: Items)
    requires forall e | e in d :: !e.1.Scalar?
    ensures J.Parse(Printed(d)) == Some(J.Obj(AsMembers(d)))
  {
    if d != [] { RestIsJson(d[1..]); }
    J.ParsePrint(J.Obj(AsMembers(d)));
  }

  lemma {:induction false} PrefixSize(d: Items, n: nat)
    requires n <= |d|
    ensures JsonSize(d[..n]) <= JsonSize(d)
  {
    if n < |d| {
      PrefixSize(d[..|d| - 1], n);
      assert d[..|d| - 1][..n] == d[..n];
    } else {
      assert d[..n] == d;
    }
  }

  // ---- capping -------------------------------------------------------------

  function CapStr(s: string, limit: nat): (r: string)
    requires limit >= 1
    ensures |r| <= limit
    ensures |s| <= limit <==> r == s
    ensures |s| > limit ==> |r| == limit && r[..limit - 1] == s[..limit - 1] && r[limit - 1] == '…'
  {
    if |s| <= limit then s else s[..limit - 1] + "…"
  }

  function CapValue(v: Value): (r: Value)
    ensures r.Scalar? <==> v.Scalar?
    ensures v.Scalar? || (v.Text? && |v.s| <= MAX_VALUE_CHARS) ==> r == v
    ensures v.Object? && |v.str| <= MAX_VALUE_CHARS ==> r == Text(v.str)
    ensures !v.Scalar? ==>
      var full := if v.Text? then v.s else v.str;
      r.Text? && (|full| > MAX_VALUE_CHARS ==> r.s == full[..MAX_VALUE_CHARS - 1] + "…")
  {
    match v
    case Text(s) => Text(CapStr(s, MAX_VALUE_CHARS))
    case Scalar(_) => v
    case Object(str) => Text(CapStr(str, MAX_VALUE_CHARS))
  }

  /** Assignment into a dict: an existing key keeps its place. */
  function Put(d: Items, k: string, v: Value): Items {
    if d == [] then [(k, v)]
    else if d[0].0 == k then [(k, v)] + d[1..]
    else [d[0]] + Put(d[1..], k, v)
  }

  /** The dict comprehension: keys stringified, values capped, later items win. */
  function Build(items: Items): Items {
    if items == [] then []
    else
      var last := items[|items| - 1];
      Put(Build(items[..|items| - 1]), last.0, CapValue(last.1))
  }

  function FirstItems(d: Items): Items {
    if |d| <= MAX_TAG_KEYS then d else d[..MAX_TAG_KEYS]
  }

  /** Pop the last key until the encoding fits. */
  function Shrink(d: Items): Items {
    if d != [] && JsonSize(d) > MAX_DICT_BYTES then Shrink(d[..|d| - 1]) else d
  }

  function CapDict(d: Option<Items>): Items {
    if d.None? then [] else Shrink(Build(FirstItems(d.value)))
  }

  /** `_cap_dict` with its two loops. */
  method RunCapDict(d: Option<Items>) returns (capped: Items)
    ensures capped == CapDict(d)
  {
    if d.None? || d.value == [] {
      return [];
    }
    var items := FirstItems(d.value);
    capped := [];
    for k := 0 to |items|
      invariant capped == Build(items[..k])
    {
      assert items[..k + 1][..k] == items[..k];
      capped := Put(capped, items[k].0, CapValue(items[k].1));
    }
    assert items[..|items|] == items;
    while capped != [] && JsonSize(capped) > MAX_DICT_BYTES
      invariant Shrink(capped) == CapDict(d)
      decreases |capped|
    {
      capped := capped[..|capped| - 1];
    }
  }

  /** `_bounded_dict`: the server's check; None is its ValueError. */
  function BoundedDict(d: Option<Items>): Option<Items> {
    if d.None? || d.value == [] then Some([])
    else if JsonSize(d.value) > SERVER_DICT_BYTES then None
    else d
  }

  // ---- what the capped dict is ----------------------------------------------

  /** d holds k with value v. */
  ghost predicate Holds(d: Items, k: string, v: Value) { (k, v) in d }

  lemma {:induction false} PutMeaning(d: Items, k: string, v: Value)
    requires Distinct(d)
    ensures Distinct(Put(d, k, v)) && |d| <= |Put(d, k, v)| <= |d| + 1
    ensures forall k', v' :: Holds(Put(d, k, v), k', v') <==> if k' == k then v' == v else Holds(d, k', v')
  {
    if d != [] {
      if d[0].0 == k {
        assert forall e :: e in d[1..] ==> e.0 != k;
        assert d == [d[0]] + d[1..];
      } else {
        PutMeaning(d[1..], k, v);
        var r := Put(d[1..], k, v);
        assert d == [d[0]] + d[1..];
        forall i | 0 <= i < |r| ensures r[i].0 != d[0].0 {
          assert Holds(r, r[i].0, r[i].1);
          if r[i].0 != k { assert Holds(d[1..], r[i].0, r[i].1); }
        }
        assert Put(d, k, v) == [d[0]] + r;
        forall k', v' ensures Holds([d[0]] + r, k', v') <==> (k', v') == d[0] || Holds(r, k', v') {}
        forall k', v' ensures Holds(d, k', v') <==> (k', v') == d[0] || Holds(d[1..], k', v') {}
      }
    }
  }

  /** Item i is the last one with key k. */
  ghost predicate LastAt(items: Items, k: string, i: nat) {
    i < |items| && items[i].0 == k && forall j | i < j < |items| :: items[j].0 != k
  }

  /** The value of k comes from its last item. */
  ghost predicate LastValue(items: Items, k: string, v: Value) {
    exists i: nat :: LastAt(items, k, i) && v == CapValue(items[i].1)
  }

  lemma {:induction false} BuildMeaning(items: Items)
    ensures Distinct(Build(items)) && |Build(items)| <= |items|
    ensures forall k, v :: Holds(Build(items), k, v) <==> LastValue(items, k, v)
  {
    if items != [] {
      var n := |items| - 1;
      var last := items[n];
      BuildMeaning(items[..n]);
      PutMeaning(Build(items[..n]), last.0, CapValue(last.1));
      forall k, v ensures Holds(Build(items), k, v) <==> LastValue(items, k, v) {
        LastValueStep(items, k, v);
      }
    }
  }

  lemma LastAtStep(items: Items, k: string, i: nat)
    requires items != []
    ensures var n := |items| - 1;
      LastAt(items, k, i) <==> if k == items[n].0 then i == n else LastAt(items[..n], k, i)
  {
    var n := |items| - 1;
    if i < n {
      assert items[..n][i] == items[i];
      assert forall j | i < j < n :: items[..n][j] == items[j];
    }
  }

  lemma LastValueStep(items: Items, k: string, v: Value)
    requires items != []
    ensures var n := |items| - 1;
      LastValue(items, k, v) <==>
      if k == items[n].0 then v == CapValue(items[n].1) else LastValue(items[..n], k, v)
  {
    forall i: nat { LastAtStep(items, k, i); }
    assert k == items[|items| - 1].0 ==> LastAt(items, k, |items| - 1);
  }

  /** Shrink keeps the longest prefix whose encoding fits. */
  lemma {:induction false} ShrinkIsLongestPrefix(d: Items)
    ensures |Shrink(d)| <= |d| && Shrink(d) == d[..|Shrink(d)|]
    ensures JsonSize(Shrink(d)) <= MAX_DICT_BYTES
    ensures forall n | |Shrink(d)| < n <= |d| :: JsonSize(d[..n]) > MAX_DICT_BYTES
  {
    if d != [] && JsonSize(d) > MAX_DICT_BYTES {
      var m := |d| - 1;
      ShrinkIsLongestPrefix(d[..m]);
      forall n | |Shrink(d)| < n <= |d| ensures JsonSize(d[..n]) > MAX_DICT_BYTES {
        if n <= m { assert d[..m][..n] == d[..n]; } else { assert d[..n] == d; }
      }
    } else {
      assert d[..|d|] == d;
    }
  }

  /** The keys of the items, each at its first occurrence. */
  function FirstKeys(items: Items): seq<string> {
    if items == [] then []
    else
      var before, k := FirstKeys(items[..|items| - 1]), items[|items| - 1].0;
      if k in before then before else before + [k]
  }

  function KeysOf(d: Items): seq<string> {
    if d == [] then [] else [d[0].0] + KeysOf(d[1..])
  }

  lemma {:induction false} PutKeys(d: Items, k: string, v: Value)
    ensures KeysOf(Put(d, k, v)) == if k in KeysOf(d) then KeysOf(d) else KeysOf(d) + [k]
  {
    if d != [] {
      if d[0].0 == k {
        assert Put(d, k, v)[1..] == d[1..];
      } else {
        PutKeys(d[1..], k, v);
        assert Put(d, k, v)[1..] == Put(d[1..], k, v);
        assert [d[0].0] + (KeysOf(d[1..]) + [k]) == [d[0].0] + KeysOf(d[1..]) + [k];
      }
    } else {
      assert [(k, v)][1..] == [];
    }
  }

  /** The dict keeps its keys in the order in which they first came. */
  lemma {:induction false} BuildOrder(items: Items)
    ensures KeysOf(Build(items)) == FirstKeys(items)
  {
    if items != [] {
      var n := |items| - 1;
      BuildOrder(items[..n]);
      PutKeys(Build(items[..n]), items[n].0, CapValue(items[n].1));
    }
  }

  /** The whole contract of `_cap_dict`: of the first 32 items, the longest fitting
      prefix of the capped dict, at most 32 keys in order of first occurrence, each with
      the capped value of its last item, and text values of at most 256 characters. */
  lemma CapDictMeaning(d: Items)
    ensures var items := d[..if |d| <= 32 then |d| else 32];
      var full, r := Build(items), CapDict(Some(d));
      && Distinct(r) && |r| <= 32 && |r| <= |full| && r == full[..|r|] && KeysOf(full) == FirstKeys(items)
      && JsonSize(r) <= 4096
      && (forall n | |r| < n <= |full| :: JsonSize(full[..n]) > 4096)
      && (forall e | e in r :: LastValue(items, e.0, e.1))
      && (forall e | e in r :: !e.1.Object? && (e.1.Text? ==> |e.1.s| <= 256))
  {
    var items := d[..if |d| <= 32 then |d| else 32];
    assert FirstItems(d) == items;
    var full := Build(items);
    var r := CapDict(Some(d));
    BuildMeaning(items);
    BuildOrder(items);
    ShrinkIsLongestPrefix(full);
    forall e | e in r ensures LastValue(items, e.0, e.1) {
      assert Holds(full, e.0, e.1);
    }
  }

  /** Rebuilding a dict whose keys are distinct and values capped changes nothing. */
  lemma {:induction false} BuildIdle(d: Items)
    requires Distinct(d) && forall e | e in d :: CapValue(e.1) == e.1
    ensures Build(d) == d
  {
    if d != [] {
      var n := |d| - 1;
      BuildIdle(d[..n]);
      PutFresh(d[..n], d[n].0, d[n].1);
      assert d == d[..n] + [d[n]];
    }
  }

  lemma {:induction false} PutFresh(d: Items, k: string, v: Value)
    requires forall e | e in d :: e.0 != k
    ensures Put(d, k, v) == d + [(k, v)]
  {
    if d != [] { PutFresh(d[1..], k, v); }
  }

  /** Capping twice is capping once. */
  lemma CapDictIdempotent(d: Option<Items>)
    ensures CapDict(Some(CapDict(d))) == CapDict(d)
  {
    if d.Some? {
      var r := CapDict(d);
      CapDictMeaning(d.value);
      BuildIdle(r);
    }
  }

  /** What the SDK capped always passes the server's bound, unchanged. */
  lemma CappedPassesServer(d: Option<Items>)
    ensures BoundedDict(Some(CapDict(d))) == Some(CapDict(d))
  {
    if d.Some? { CapDictMeaning(d.value); }
  }
}
