/** JSON text as the gateway prints it (`json.dumps`, ASCII output) and as the
    browser parses it, over UTF-16 code units; section 7 of RFC 8259 for strings.
    The values are those the gateway sends: objects, texts, integers, null. */
module JsonText {
  import opened Wrappers

  newtype Unit = n: int | 0 <= n < 0x10000
  type Text = seq<Unit>

  datatype V = Null | Int(n: int) | Str(t: Text) | Obj(members: Members)
  datatype Members = End | Member(key: Text, value: V, rest: Members)

  const QUOTE: Unit := 34
  const BACKSLASH: Unit := 92
  const COMMA: Unit := 44
  const COLON: Unit := 58
  const BLANK: Unit := 32
  const OPEN: Unit := 123
  const CLOSE: Unit := 125
  const MINUS: Unit := 45
  const NULL_TEXT: Text := [110, 117, 108, 108]

  // ---- printing ------------------------------------------------------------------

  /** Lower-case hexadecimal. */
  function HexDigit(d: int): Unit
    requires 0 <= d < 16
  {
    if d < 10 then (48 + d) as Unit else (87 + d) as Unit
  }

  /** A quote, a backslash and the usual control characters get a short escape;
      everything outside ' '..'~' a \uXXXX. */
  function Escape(u: Unit): Text {
    if u == QUOTE || u == BACKSLASH then [BACKSLASH, u]
    else if u == 10 then [BACKSLASH, 110]
    else if u == 13 then [BACKSLASH, 114]
    else if u == 9 then [BACKSLASH, 116]
    else if u == 12 then [BACKSLASH, 102]
    else if u == 8 then [BACKSLASH, 98]
    else if 32 <= u <= 126 then [u]
    else
      var n := u as int;
      [BACKSLASH, 117, HexDigit(n / 4096), HexDigit(n / 256 % 16), HexDigit(n / 16 % 16), HexDigit(n % 16)]
  }

  function EscapeAll(t: Text): Text {
    if t == [] then [] else Escape(t[0]) + EscapeAll(t[1..])
  }

  /** A text of Unicode characters in UTF-16 code units. */
  function Utf16(s: string): Text {
    if s == [] then []
    else
      var n := s[0] as int;
      (if n < 0x10000 then [n as Unit]
       else [(0xD800 + (n - 0x10000) / 0x400) as Unit, (0xDC00 + (n - 0x10000) % 0x400) as Unit]) + Utf16(s[1..])
  }

  function PrintStr(t: Text): Text { [QUOTE] + EscapeAll(t) + [QUOTE] }

  function PrintNat(n: nat): Text {
    if n < 10 then [(48 + n) as Unit] else PrintNat(n / 10) + [(48 + n % 10) as Unit]
  }

  function PrintInt(n: int): Text { if n < 0 then [MINUS] + PrintNat(-n) else PrintNat(n) }

  /** `json.dumps(v)`. */
  function Print(v: V): Text {
    match v
    case Null => NULL_TEXT
    case Int(n) => PrintInt(n)
    case Str(t) => PrintStr(t)
    case Obj(End) => [OPEN, CLOSE]
    case Obj(Member(key, value, rest)) => [OPEN] + (PrintMember(key, Print(value)) + PrintRest(rest))
  }

  function PrintMember(key: Text, value: Text): Text { PrintStr(key) + ([COLON, BLANK] + value) }

  /** The members after the first, and the closing brace. */
  function PrintRest(m: Members): Text {
    match m
    case End => [CLOSE]
    case Member(key, value, rest) => [COMMA, BLANK] + (PrintMember(key, Print(value)) + PrintRest(rest))
  }

  /** The size of an escaped unit: 2 for a quote, a backslash and the five control
      characters with a short form, 1 for other printable ASCII, 6 for the rest. */
  lemma EscapeSize(u: Unit)
    ensures |Escape(u)| == if u in {8, 9, 10, 12, 13, 34, 92} then 2 else if 32 <= u <= 126 then 1 else 6
  {
  }

  /** What is printed is ASCII without control characters: no raw LF. */
  predicate Printable(t: Text) { forall u | u in t :: 32 <= u <= 126 }

  lemma {:induction false} EscapePrintable(t: Text)
    ensures Printable(EscapeAll(t))
  {
    if t != [] { EscapePrintable(t[1..]); }
  }

  lemma {:induction false} NatPrintable(n: nat)
    ensures Printable(PrintNat(n)) && PrintNat(n) != []
    ensures forall u | u in PrintNat(n) :: 48 <= u <= 57
  {
    if n >= 10 { NatPrintable(n / 10); }
  }

  lemma {:induction false} PrintPrintable(v: V)
    ensures Printable(Print(v)) && Print(v) != []
  {
    match v
    case Int(n) => NatPrintable(if n < 0 then -n else n);
    case Str(t) => EscapePrintable(t);
    case Obj(Member(key, value, rest)) =>
      EscapePrintable(key);
      PrintPrintable(value);
      RestPrintable(rest);
    case _ =>
  }

  lemma {:induction false} RestPrintable(m: Members)
    ensures Printable(PrintRest(m))
  {
    match m
    case End =>
    case Member(key, value, rest) =>
      EscapePrintable(key);
      PrintPrintable(value);
      RestPrintable(rest);
  }

  // ---- parsing ----------------------------------------------------------------------

  /** JSON white space. */
  predicate White(u: Unit) { u == 32 || u == 9 || u == 10 || u == 13 }

  function Skip(s: Text): (r: Text)
    ensures |r| <= |s|
  {
    if s != [] && White(s[0]) then Skip(s[1..]) else s
  }

  function HexValue(u: Unit): (r: Option<int>)
    ensures r.Some? ==> 0 <= r.value < 16
  {
    if 48 <= u <= 57 then Some(u as int - 48)
    else if 97 <= u <= 102 then Some(u as int - 87)
    else if 65 <= u <= 70 then Some(u as int - 55)
    else None
  }

  /** The four digits after \u. */
  function Hex4(s: Text): (r: Option<Unit>)
    requires |s| >= 4
  {
    var a, b, c, d := HexValue(s[0]), HexValue(s[1]), HexValue(s[2]), HexValue(s[3]);
    if a.Some? && b.Some? && c.Some? && d.Some? then Some(HexUnit(a.value, b.value, c.value, d.value)) else None
  }

  function HexUnit(a: int, b: int, c: int, d: int): Unit
    requires 0 <= a < 16 && 0 <= b < 16 && 0 <= c < 16 && 0 <= d < 16
  {
    (a * 4096 + b * 256 + c * 16 + d) as Unit
  }

  function ShortEscape(u: Unit): Option<Unit> {
    if u == QUOTE || u == BACKSLASH || u == 47 then Some(u)
    else if u == 98 then Some(8)
    else if u == 102 then Some(12)
    else if u == 110 then Some(10)
    else if u == 114 then Some(13)
    else if u == 116 then Some(9)
    else None
  }

  /** One string element and what follows it; None at a malformed one. */
  function ParseUnit(s: Text): (r: Option<(Unit, Text)>)
    ensures r.Some? ==> |r.value.1| < |s|
  {
    if s == [] then None
    else if s[0] == BACKSLASH then
      if |s| >= 6 && s[1] == 117 then
        match Hex4(s[2..])
        case None => None
        case Some(u) => Some((u, s[6..]))
      else if |s| >= 2 then
        match ShortEscape(s[1])
        case None => None
        case Some(u) => Some((u, s[2..]))
      else None
    else if s[0] < 32 then None
    else Some((s[0], s[1..]))
  }

  /** String contents up to the closing quote. */
  function ParseChars(s: Text): (r: Option<(Text, Text)>)
    ensures r.Some? ==> |r.value.1| < |s|
    decreases |s|
  {
    if s != [] && s[0] == QUOTE then Some(([], s[1..]))
    else
      match ParseUnit(s)
      case None => None
      case Some((u, rest)) =>
        match ParseChars(rest)
        case None => None
        case Some((t, rest')) => Some(([u] + t, rest'))
  }

  function ParseStr(s: Text): (r: Option<(Text, Text)>)
    ensures r.Some? ==> |r.value.1| < |s|
  {
    if s != [] && s[0] == QUOTE then ParseChars(s[1..]) else None
  }

  predicate Digit(u: Unit) { 48 <= u <= 57 }

  function DigitCount(s: Text): (n: nat)
    ensures n <= |s| && forall k | 0 <= k < n :: Digit(s[k])
    ensures n < |s| ==> !Digit(s[n])
  {
    if s != [] && Digit(s[0]) then 1 + DigitCount(s[1..]) else 0
  }

  function NatValue(s: Text): (n: nat)
    requires forall k | 0 <= k < |s| :: Digit(s[k])
  {
    if s == [] then 0
    else
      assert Digit(s[|s| - 1]);
      NatValue(s[..|s| - 1]) * 10 + (s[|s| - 1] as int - 48)
  }

  /** An integer; a leading zero stands alone, as in section 6 of RFC 8259. */
  function ParseNat(s: Text): (r: Option<(nat, Text)>)
    ensures r.Some? ==> |r.value.1| < |s|
  {
    var n := DigitCount(s);
    if n == 0 || (n > 1 && s[0] == 48) then None else Some((NatValue(s[..n]), s[n..]))
  }

  /** A value, leading white space skipped, and what follows it. */
  function ParseValue(s0: Text): (r: Option<(V, Text)>)
    ensures r.Some? ==> |r.value.1| < |s0|
    decreases |s0|, 2
  {
    var s := Skip(s0);
    if s == [] then None
    else if s[0] == QUOTE then
      match ParseStr(s)
      case None => None
      case Some((t, rest)) => Some((Str(t), rest))
    else if s[0] == OPEN then
      var inner := Skip(s[1..]);
      if inner != [] && inner[0] == CLOSE then Some((Obj(End), inner[1..]))
      else
        match ParseFields(inner)
        case None => None
        case Some((fields, rest)) => Some((Obj(fields), rest))
    else if NULL_TEXT <= s then Some((Null, s[4..]))
    else if s[0] == MINUS then
      match ParseNat(s[1..])
      case None => None
      case Some((n, rest)) => Some((Int(0 - n), rest))
    else
      match ParseNat(s)
      case None => None
      case Some((n, rest)) => Some((Int(n), rest))
  }

  /** A key, a colon and a value. */
  function ParseMember(s: Text): (r: Option<(Text, V, Text)>)
    ensures r.Some? ==> |r.value.2| < |s|
    decreases |s|, 0
  {
    match ParseStr(Skip(s))
    case None => None
    case Some((key, s1)) =>
      var s2 := Skip(s1);
      if s2 == [] || s2[0] != COLON then None
      else
        match ParseValue(s2[1..])
        case None => None
        case Some((v, s3)) => Some((key, v, s3))
  }

  /** The members of an object up to and including its closing brace. */
  function ParseFields(s: Text): (r: Option<(Members, Text)>)
    ensures r.Some? ==> |r.value.1| < |s|
    decreases |s|, 1
  {
    match ParseMember(s)
    case None => None
    case Some((key, v, s3)) =>
      var s4 := Skip(s3);
      if s4 != [] && s4[0] == CLOSE then Some((Member(key, v, End), s4[1..]))
      else if s4 != [] && s4[0] == COMMA then
        match ParseFields(s4[1..])
        case None => None
        case Some((more, rest)) => Some((Member(key, v, more), rest))
      else None
  }

  /** `JSON.parse`; None where it throws. */
  function Parse(s: Text): Option<V> {
    match ParseValue(s)
    case None => None
    case Some((v, rest)) => if Skip(rest) == [] then Some(v) else None
  }

  // ---- round trip ---------------------------------------------------------------------

  lemma HexRoundTrip(n: int)
    requires 0 <= n < 0x10000
    ensures Hex4([HexDigit(n / 4096), HexDigit(n / 256 % 16), HexDigit(n / 16 % 16), HexDigit(n % 16)])
         == Some(n as Unit)
  {
    HexSum(n);
    HexDigitValue(n / 4096);
    HexDigitValue(n / 256 % 16);
    HexDigitValue(n / 16 % 16);
    HexDigitValue(n % 16);
  }

  lemma HexSum(n: int)
    requires 0 <= n < 0x10000
    ensures 0 <= n / 4096 < 16
    ensures n / 4096 * 4096 + n / 256 % 16 * 256 + n / 16 % 16 * 16 + n % 16 == n
  {
    assert n / 256 == n / 4096 * 16 + n / 256 % 16 by { assert n / 256 / 16 == n / 4096; }
    assert n / 16 == n / 256 * 16 + n / 16 % 16 by { assert n / 16 / 16 == n / 256; }
  }

  lemma HexDigitValue(d: int)
    requires 0 <= d < 16
    ensures HexValue(HexDigit(d)) == Some(d)
  {
  }

  lemma UnitRoundTrip(u: Unit, rest: Text)
    ensures ParseUnit(Escape(u) + rest) == Some((u, rest))
    ensures Escape(u) != [] && Escape(u)[0] != QUOTE
  {
    var s := Escape(u) + rest;
    if |Escape(u)| == 6 {
      var n := u as int;
      HexRoundTrip(n);
      assert s[6..] == rest;
      Hex4Prefix(s[2..], Escape(u)[2..]);
    } else if |Escape(u)| == 2 {
      assert s[2..] == rest;
    } else {
      assert s[1..] == rest;
    }
  }

  lemma Hex4Prefix(s: Text, p: Text)
    requires |p| == 4 && p <= s
    ensures Hex4(s) == Hex4(p)
  {
  }

  lemma {:induction false} CharsRoundTrip(t: Text, rest: Text)
    ensures ParseChars(EscapeAll(t) + [QUOTE] + rest) == Some((t, rest))
  {
    if t == [] {
      assert EscapeAll(t) + [QUOTE] + rest == [QUOTE] + rest;
      assert ([QUOTE] + rest)[1..] == rest;
    } else {
      var tail := EscapeAll(t[1..]) + [QUOTE] + rest;
      assert EscapeAll(t) + [QUOTE] + rest == Escape(t[0]) + tail;
      UnitRoundTrip(t[0], tail);
      CharsRoundTrip(t[1..], rest);
      assert [t[0]] + t[1..] == t;
    }
  }

  lemma StrRoundTrip(t: Text, rest: Text)
    ensures ParseStr(PrintStr(t) + rest) == Some((t, rest))
    ensures (PrintStr(t) + rest)[0] == QUOTE
  {
    CharsRoundTrip(t, rest);
    assert (PrintStr(t) + rest)[1..] == EscapeAll(t) + [QUOTE] + rest;
  }

  /** A number's text ends where the digits end. */
  predicate Ends(rest: Text) { rest == [] || !Digit(rest[0]) }

  lemma {:induction false} NatText(n: nat)
    ensures PrintNat(n) != [] && forall k | 0 <= k < |PrintNat(n)| :: Digit(PrintNat(n)[k])
    ensures NatValue(PrintNat(n)) == n
    ensures PrintNat(n)[0] == 48 <==> n == 0
  {
    if n >= 10 {
      NatText(n / 10);
      var p := PrintNat(n / 10);
      assert PrintNat(n)[..|p|] == p;
    }
  }

  lemma {:induction false} DigitCountAppend(s: Text, rest: Text)
    requires Ends(rest) && forall k | 0 <= k < |s| :: Digit(s[k])
    ensures DigitCount(s + rest) == |s|
  {
    if s == [] {
      assert s + rest == rest;
    } else {
      assert (s + rest)[1..] == s[1..] + rest;
      DigitCountAppend(s[1..], rest);
    }
  }

  lemma NatRoundTrip(n: nat, rest: Text)
    requires Ends(rest)
    ensures ParseNat(PrintNat(n) + rest) == Some((n, rest))
    ensures Digit((PrintNat(n) + rest)[0])
  {
    NatText(n);
    var p := PrintNat(n);
    DigitCountAppend(p, rest);
    assert (p + rest)[..|p|] == p && (p + rest)[|p|..] == rest;
    if n < 10 { assert |p| == 1; }
  }

  /** Parsing a printed value gives it back, whatever follows (a number must not
      be followed by a digit). */
  lemma {:induction false} ValueRoundTrip(v: V, rest: Text)
    requires Ends(rest)
    ensures ParseValue(Print(v) + rest) == Some((v, rest))
    decreases v, 1
  {
    var s := Print(v) + rest;
    match v
    case Null =>
      assert s[4..] == rest && NULL_TEXT <= s;
    case Int(n) => IntRoundTrip(n, rest);
    case Str(t) => StrRoundTrip(t, rest);
    case Obj(End) =>
      assert s == [OPEN, CLOSE] + rest;
      assert s[1..] == [CLOSE] + rest && s[1..][1..] == rest;
    case Obj(Member(key, value, more)) =>
      var inner := PrintMember(key, Print(value)) + PrintRest(more) + rest;
      assert s == [OPEN] + inner && s[1..] == inner;
      FieldsRoundTrip(key, value, more, rest);
  }

  lemma IntRoundTrip(n: int, rest: Text)
    requires Ends(rest)
    ensures ParseValue(PrintInt(n) + rest) == Some((Int(n), rest))
  {
    if n < 0 {
      NegativeRoundTrip(n, rest);
    } else {
      NatRoundTrip(n, rest);
      PlainNumber(PrintNat(n) + rest);
    }
  }

  lemma NegativeRoundTrip(n: int, rest: Text)
    requires Ends(rest) && n < 0
    ensures ParseValue(PrintInt(n) + rest) == Some((Int(n), rest))
  {
    NatRoundTrip(-n, rest);
    MinusNumber(PrintNat(-n) + rest);
    assert PrintInt(n) + rest == [MINUS] + (PrintNat(-n) + rest);
  }

  lemma PlainNumber(s: Text)
    requires s != [] && Digit(s[0])
    ensures ParseValue(s) == match ParseNat(s) case None => None case Some((n, rest)) => Some((Int(n), rest))
  {
  }

  lemma MinusNumber(s: Text)
    ensures ParseValue([MINUS] + s)
         == match ParseNat(s) case None => None case Some((n, rest)) => Some((Int(0 - n), rest))
  {
    assert ([MINUS] + s)[1..] == s;
  }

  lemma {:induction false} AfterColon(value: V, tail: Text)
    requires Ends(tail)
    ensures ParseValue([BLANK] + (Print(value) + tail)) == Some((value, tail))
    decreases value, 2
  {
    SkipBlank(value, tail);
    ValueRoundTrip(value, tail);
  }

  lemma ColonNext(key: Text, s2: Text)
    ensures var s := PrintStr(key) + ([COLON] + s2);
      && s[0] == QUOTE
      && ParseMember(s) == match ParseValue(s2) case None => None case Some((v, s3)) => Some((key, v, s3))
  {
    StrRoundTrip(key, [COLON] + s2);
    assert ([COLON] + s2)[1..] == s2;
  }

  lemma MemberText(key: Text, value: Text, tail: Text)
    ensures PrintMember(key, value) + tail == PrintStr(key) + ([COLON] + ([BLANK] + (value + tail)))
  {
  }

  lemma {:induction false} MemberRoundTrip(key: Text, value: V, tail: Text)
    requires Ends(tail)
    ensures ParseMember(PrintMember(key, Print(value)) + tail) == Some((key, value, tail))
    ensures (PrintMember(key, Print(value)) + tail)[0] == QUOTE
    decreases value, 3
  {
    var s2 := [BLANK] + (Print(value) + tail);
    MemberText(key, Print(value), tail);
    ColonNext(key, s2);
    AfterColon(value, tail);
  }

  lemma {:induction false} FieldsRoundTrip(key: Text, value: V, more: Members, rest: Text)
    ensures var s := PrintMember(key, Print(value)) + PrintRest(more) + rest;
      ParseFields(s) == Some((Member(key, value, more), rest)) && s[0] == QUOTE
    decreases Member(key, value, more), 4
  {
    var tail := PrintRest(more) + rest;
    var s := PrintMember(key, Print(value)) + PrintRest(more) + rest;
    assert s == PrintMember(key, Print(value)) + tail;
    MemberRoundTrip(key, value, tail);
    match more
    case End => FieldsEnd(s, key, value, rest);
    case Member(key', value', more') =>
      var next := PrintMember(key', Print(value')) + PrintRest(more') + rest;
      RestAsFields(key', value', more', rest);
      FieldsRoundTrip(key', value', more', rest);
      FieldsMore(s, key, value, next, more, rest);
  }

  lemma RestAsFields(key: Text, value: V, more: Members, rest: Text)
    ensures PrintRest(Member(key, value, more)) + rest
         == [COMMA] + ([BLANK] + (PrintMember(key, Print(value)) + PrintRest(more) + rest))
  {
  }

  lemma FieldsEnd(s: Text, key: Text, value: V, rest: Text)
    requires ParseMember(s) == Some((key, value, [CLOSE] + rest))
    ensures ParseFields(s) == Some((Member(key, value, End), rest))
  {
    assert ([CLOSE] + rest)[1..] == rest;
  }

  lemma FieldsMore(s: Text, key: Text, value: V, next: Text, more: Members, rest: Text)
    requires ParseMember(s) == Some((key, value, [COMMA] + ([BLANK] + next)))
    requires next != [] && next[0] == QUOTE && ParseFields(next) == Some((more, rest))
    ensures ParseFields(s) == Some((Member(key, value, more), rest))
  {
    assert ([COMMA] + ([BLANK] + next))[1..] == [BLANK] + next;
    assert ([BLANK] + next)[1..] == next;
    assert ParseMember([BLANK] + next) == ParseMember(next);
  }

  /** Printed values do not start with white space. */
  lemma SkipBlank(v: V, tail: Text)
    ensures ParseValue([BLANK] + (Print(v) + tail)) == ParseValue(Print(v) + tail)
  {
    FirstPrinted(v);
    var s := Print(v) + tail;
    assert ([BLANK] + s)[1..] == s;
    assert s[0] == Print(v)[0];
  }

  lemma FirstPrinted(v: V)
    ensures Print(v) != [] && !White(Print(v)[0])
  {
    match v
    case Int(n) => NatText(if n < 0 then -n else n);
    case _ =>
  }

  lemma ParsePrint(v: V)
    ensures Parse(Print(v)) == Some(v)
  {
    ValueRoundTrip(v, []);
    assert Print(v) + [] == Print(v);
  }
}
