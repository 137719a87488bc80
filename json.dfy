/**
 * The part of JSON the event stream uses: `JSON.stringify` on a flat object
 * whose values are `null`, integers or strings, and a `JSON.parse` that reads
 * such an object back or fails.  `Stringify` writes the members in the
 * order of the sequence; `JSON.stringify` does so too when no key is an
 * array index ("0", "1", ...), which it would write first, in ascending
 * order.  No object the relay builds has such a key.
 */
module Json {
  import opened Wrappers

  datatype Value = Null | Int(i: int) | Str(s: string)

  type Object = seq<(string, Value)>

  /** `o[key]`: the last member with that key wins, as with `JSON.parse`; `None` is `undefined`. */
  function Lookup(o: Object, key: string): Option<Value>
  {
    if o == [] then None
    else if o[|o| - 1].0 == key then Some(o[|o| - 1].1)
    else Lookup(o[..|o| - 1], key)
  }

  /** A key no member carries is `undefined`. */
  lemma {:induction false} LookupAbsent(o: Object, key: string)
    requires forall k :: 0 <= k < |o| ==> o[k].0 != key
    ensures Lookup(o, key) == None
    decreases |o|
  {
    if o != [] {
      LookupAbsent(o[..|o| - 1], key);
    }
  }

  /** The member at `k` is found when no later member has the same key. */
  lemma {:induction false} LookupFind(o: Object, key: string, k: nat)
    requires k < |o| && o[k].0 == key
    requires forall j :: k < j < |o| ==> o[j].0 != key
    ensures Lookup(o, key) == Some(o[k].1)
    decreases |o|
  {
    if k < |o| - 1 {
      LookupFind(o[..|o| - 1], key, k);
    }
  }

  // ---------------------------------------------------------------- writing

  function HexDigit(d: nat): char
    requires d < 16
  {
    if d < 10 then ('0' as int + d) as char else ('a' as int + d - 10) as char
  }

  /** How `JSON.stringify` writes one character inside a string literal. */
  function EscapeChar(c: char): string
  {
    if c == '"' then "\\\""
    else if c == '\\' then "\\\\"
    else if c == '\U{0008}' then "\\b"
    else if c == '\U{000C}' then "\\f"
    else if c == '\n' then "\\n"
    else if c == '\r' then "\\r"
    else if c == '\t' then "\\t"
    else if c < ' ' then "\\u00" + [HexDigit(c as int / 16), HexDigit(c as int % 16)]
    else [c]
  }

  function Escape(s: string): string
  {
    if s == [] then [] else EscapeChar(s[0]) + Escape(s[1..])
  }

  function Quote(s: string): string
  {
    "\"" + Escape(s) + "\""
  }

  function Digit(d: nat): char
    requires d < 10
  {
    ('0' as int + d) as char
  }

  /** Decimal digits of `n`, without leading zeros. */
  function NatText(n: nat): string
  {
    if n < 10 then [Digit(n)] else NatText(n / 10) + [Digit(n % 10)]
  }

  function IntText(i: int): string
  {
    if i < 0 then "-" + NatText(-i) else NatText(i)
  }

  function ValueText(v: Value): string
  {
    match v
    case Null => "null"
    case Int(i) => IntText(i)
    case Str(s) => Quote(s)
  }

  function MemberText(m: (string, Value)): string
  {
    Quote(m.0) + ":" + ValueText(m.1)
  }

  function MembersText(o: Object): string
  {
    if o == [] then []
    else if |o| == 1 then MemberText(o[0])
    else MemberText(o[0]) + "," + MembersText(o[1..])
  }

  /** `JSON.stringify(o)`: compact, no whitespace. */
  function Stringify(o: Object): string
  {
    "{" + MembersText(o) + "}"
  }

  // ---------------------------------------------------------------- reading

  predicate IsDigit(c: char)
  {
    '0' <= c <= '9'
  }

  /** JSON's insignificant whitespace between tokens. */
  predicate IsJsonSpace(c: char)
  {
    c == ' ' || c == '\t' || c == '\n' || c == '\r'
  }

  function SkipSpace(t: string): (r: string)
    ensures |r| <= |t|
  {
    if t != [] && IsJsonSpace(t[0]) then SkipSpace(t[1..]) else t
  }

  function HexValue(c: char): Option<nat>
  {
    if '0' <= c <= '9' then Some(c as int - '0' as int)
    else if 'a' <= c <= 'f' then Some(c as int - 'a' as int + 10)
    else if 'A' <= c <= 'F' then Some(c as int - 'A' as int + 10)
    else None
  }

  /** The four hex digits of a `\uXXXX` escape, as a character; surrogate halves are refused. */
  function CodeUnit(t: string): Option<char>
    requires |t| == 4
  {
    match (HexValue(t[0]), HexValue(t[1]), HexValue(t[2]), HexValue(t[3]))
    case (Some(a), Some(b), Some(c), Some(d)) =>
      var n := ((a * 16 + b) * 16 + c) * 16 + d;
      if n < 0xD800 || 0xE000 <= n < 0x11_0000 then Some(n as char) else None
    case _ => None
  }

  /** The character an escape sequence stands for (`t` follows the backslash), and what follows it. */
  function Unescape(t: string): (r: Option<(char, string)>)
    ensures r.Some? ==> |r.value.1| < |t|
  {
    if t == [] then None
    else if t[0] == '"' then Some(('"', t[1..]))
    else if t[0] == '\\' then Some(('\\', t[1..]))
    else if t[0] == '/' then Some(('/', t[1..]))
    else if t[0] == 'b' then Some(('\U{0008}', t[1..]))
    else if t[0] == 'f' then Some(('\U{000C}', t[1..]))
    else if t[0] == 'n' then Some(('\n', t[1..]))
    else if t[0] == 'r' then Some(('\r', t[1..]))
    else if t[0] == 't' then Some(('\t', t[1..]))
    else if t[0] == 'u' && |t| >= 5 then
      match CodeUnit(t[1..5])
      case Some(c) => Some((c, t[5..]))
      case None => None
    else None
  }

  /** The body of a string literal (`t` follows the opening quote): its characters and what follows the closing quote. */
  function ParseStringBody(t: string): (r: Option<(string, string)>)
    ensures r.Some? ==> |r.value.1| < |t|
    decreases |t|
  {
    if t == [] then None
    else if t[0] == '"' then Some(([], t[1..]))
    else if t[0] == '\\' then
      match Unescape(t[1..])
      case None => None
      case Some((c, rest)) =>
        match ParseStringBody(rest)
        case None => None
        case Some((s, after)) => Some(([c] + s, after))
    else if t[0] < ' ' then None
    else
      match ParseStringBody(t[1..])
      case None => None
      case Some((s, after)) => Some(([t[0]] + s, after))
  }

  function SpanDigits(t: string): (k: nat)
    ensures k <= |t|
  {
    if t != [] && IsDigit(t[0]) then 1 + SpanDigits(t[1..]) else 0
  }

  function DigitsValue(w: string): nat
  {
    if w == [] then 0 else DigitsValue(w[..|w| - 1]) * 10 + (w[|w| - 1] as int - '0' as int) % 10
  }

  /** An unsigned integer without leading zeros; fractions and exponents are not read. */
  function ParseNat(t: string): (r: Option<(nat, string)>)
    ensures r.Some? ==> |r.value.1| < |t|
  {
    var k := SpanDigits(t);
    if k == 0 || (t[0] == '0' && k > 1) then None
    else Some((DigitsValue(t[..k]), t[k..]))
  }

  function ParseInt(t: string): (r: Option<(int, string)>)
    ensures r.Some? ==> |r.value.1| < |t|
  {
    if t != [] && t[0] == '-' then
      match ParseNat(t[1..])
      case Some((n, rest)) => Some((-(n as int), rest))
      case None => None
    else
      match ParseNat(t)
      case Some((n, rest)) => Some((n as int, rest))
      case None => None
  }

  function ParseValue(t: string): (r: Option<(Value, string)>)
    ensures r.Some? ==> |r.value.1| < |t|
  {
    if |t| >= 4 && t[..4] == "null" then Some((Null, t[4..]))
    else if t != [] && t[0] == '"' then
      match ParseStringBody(t[1..])
      case Some((s, rest)) => Some((Str(s), rest))
      case None => None
    else
      match ParseInt(t)
      case Some((i, rest)) => Some((Int(i), rest))
      case None => None
  }

  /** A key and its colon; returns what follows the colon. */
  function ParseKey(t: string): (r: Option<(string, string)>)
    ensures r.Some? ==> |r.value.1| < |t|
  {
    var t1 := SkipSpace(t);
    if t1 == [] || t1[0] != '"' then None
    else
      match ParseStringBody(t1[1..])
      case None => None
      case Some((key, r1)) =>
        var r2 := SkipSpace(r1);
        if r2 == [] || r2[0] != ':' then None else Some((key, r2[1..]))
  }

  /** One `"key":value` member; returns what follows the value. */
  function ParseMember(t: string): (r: Option<((string, Value), string)>)
    ensures r.Some? ==> |r.value.1| < |t|
  {
    match ParseKey(t)
    case None => None
    case Some((key, r2)) =>
      match ParseValue(SkipSpace(r2))
      case None => None
      case Some((v, r3)) => Some(((key, v), r3))
  }

  /** Members up to and including the closing brace; returns what follows it. */
  function ParseMembers(t: string): (r: Option<(Object, string)>)
    ensures r.Some? ==> |r.value.1| < |t|
    decreases |t|
  {
    match ParseMember(t)
    case None => None
    case Some((m, r3)) =>
      var r4 := SkipSpace(r3);
      if r4 == [] then None
      else if r4[0] == '}' then Some(([m], r4[1..]))
      else if r4[0] != ',' then None
      else
        match ParseMembers(r4[1..])
        case None => None
        case Some((more, r5)) => Some(([m] + more, r5))
  }

  /** What follows the opening brace of an object, up to the end of the text. */
  function ParseBody(t: string): Option<Object>
  {
    if t != [] && t[0] == '}' then
      (if SkipSpace(t[1..]) == [] then Some([]) else None)
    else
      match ParseMembers(t)
      case Some((o, rest)) => if SkipSpace(rest) == [] then Some(o) else None
      case None => None
  }

  /** `JSON.parse(s)` for a flat object; `None` where `JSON.parse` throws or the text is not such an object. */
  function Parse(s: string): Option<Object>
  {
    var t := SkipSpace(s);
    if t == [] || t[0] != '{' then None else ParseBody(SkipSpace(t[1..]))
  }

  // ---------------------------------------------------------------- round trip

  lemma HexRoundTrip(d: nat)
    requires d < 16
    ensures HexValue(HexDigit(d)) == Some(d)
  {
  }

  lemma EscapeCharRoundTrip(c: char, t: string)
    ensures ParseStringBody(EscapeChar(c) + t) ==
      match ParseStringBody(t)
      case None => None
      case Some((s, after)) => Some(([c] + s, after))
  {
    var e := EscapeChar(c) + t;
    if c < ' ' && c != '\U{0008}' && c != '\U{000C}' && c != '\n' && c != '\r' && c != '\t' {
      var hi, lo := c as int / 16, c as int % 16;
      HexRoundTrip(hi);
      HexRoundTrip(lo);
      assert e[0] == '\\' && e[1..] == "u00" + [HexDigit(hi), HexDigit(lo)] + t;
      var u := e[1..];
      assert u[1..5] == "00" + [HexDigit(hi), HexDigit(lo)];
      assert HexValue('0') == Some(0);
      assert CodeUnit(u[1..5]) == Some(c);
      assert u[5..] == t;
    } else if c == '"' || c == '\\' || c == '\U{0008}' || c == '\U{000C}' || c == '\n' || c == '\r' || c == '\t' {
      assert e[0] == '\\' && e[1..] == [EscapeChar(c)[1]] + t;
    } else {
      assert e[0] == c && e[1..] == t;
    }
  }

  lemma {:induction false} EscapeRoundTrip(s: string, rest: string)
    ensures ParseStringBody(Escape(s) + "\"" + rest) == Some((s, rest))
    decreases |s|
  {
    if s == [] {
      assert Escape(s) + "\"" + rest == "\"" + rest;
    } else {
      assert Escape(s) + "\"" + rest == EscapeChar(s[0]) + (Escape(s[1..]) + "\"" + rest);
      EscapeRoundTrip(s[1..], rest);
      EscapeCharRoundTrip(s[0], Escape(s[1..]) + "\"" + rest);
      assert [s[0]] + s[1..] == s;
    }
  }

  lemma {:induction false} NatTextShape(n: nat)
    ensures NatText(n) != []
    ensures forall k :: 0 <= k < |NatText(n)| ==> IsDigit(NatText(n)[k])
    ensures NatText(n)[0] == '0' ==> n == 0 && NatText(n) == "0"
    ensures DigitsValue(NatText(n)) == n
    decreases n
  {
    if n >= 10 {
      NatTextShape(n / 10);
      var w := NatText(n);
      assert w[..|w| - 1] == NatText(n / 10);
    }
  }

  lemma {:induction false} SpanDigitsOf(w: string, rest: string)
    requires forall k :: 0 <= k < |w| ==> IsDigit(w[k])
    requires rest == [] || !IsDigit(rest[0])
    ensures SpanDigits(w + rest) == |w|
    decreases |w|
  {
    if w == [] {
      assert w + rest == rest;
    } else {
      assert (w + rest)[1..] == w[1..] + rest;
      SpanDigitsOf(w[1..], rest);
    }
  }

  lemma NatRoundTrip(n: nat, rest: string)
    requires rest == [] || !IsDigit(rest[0])
    ensures ParseNat(NatText(n) + rest) == Some((n, rest))
  {
    var w := NatText(n);
    NatTextShape(n);
    SpanDigitsOf(w, rest);
    assert (w + rest)[..|w|] == w && (w + rest)[|w|..] == rest;
  }

  lemma IntRoundTrip(i: int, rest: string)
    requires rest == [] || !IsDigit(rest[0])
    ensures ParseInt(IntText(i) + rest) == Some((i, rest))
  {
    if i < 0 {
      NegativeRoundTrip(-i, rest);
    } else {
      NonNegativeRoundTrip(i, rest);
    }
  }

  lemma NegativeRoundTrip(n: nat, rest: string)
    requires n > 0 && (rest == [] || !IsDigit(rest[0]))
    ensures ParseInt("-" + NatText(n) + rest) == Some((-(n as int), rest))
  {
    var w := NatText(n);
    var t := "-" + w + rest;
    assert ParseNat(w + rest) == Some((n, rest)) by { NatRoundTrip(n, rest); }
    assert t[0] == '-' && t[1..] == w + rest;
  }

  lemma NonNegativeRoundTrip(n: nat, rest: string)
    requires rest == [] || !IsDigit(rest[0])
    ensures ParseInt(NatText(n) + rest) == Some((n as int, rest))
  {
    var w := NatText(n);
    var t := w + rest;
    assert ParseNat(t) == Some((n, rest)) by { NatRoundTrip(n, rest); }
    assert w != [] && IsDigit(w[0]) by { NatTextShape(n); }
    assert t[0] == w[0];
  }

  /** The first character of a written value: `n`, `"`, `-` or a digit. */
  lemma ValueTextStart(v: Value)
    ensures ValueText(v) != []
    ensures v.Null? ==> |ValueText(v)| == 4 && ValueText(v) == "null"
    ensures v.Str? ==> ValueText(v)[0] == '"'
    ensures v.Int? ==> ValueText(v)[0] == '-' || IsDigit(ValueText(v)[0])
  {
    if v.Int? {
      NatTextShape(if v.i < 0 then -v.i else v.i);
    }
  }

  lemma NotNullLiteral(t: string)
    requires t != [] && t[0] != 'n'
    ensures !(|t| >= 4 && t[..4] == "null")
  {
  }

  lemma IntValueRoundTrip(i: int, rest: string)
    requires rest == [] || !IsDigit(rest[0])
    ensures ParseValue(IntText(i) + rest) == Some((Int(i), rest))
  {
    var t := IntText(i) + rest;
    ValueTextStart(Int(i));
    IntRoundTrip(i, rest);
    assert t[0] == IntText(i)[0];
    NotNullLiteral(t);
  }

  lemma StrValueRoundTrip(s: string, rest: string)
    ensures ParseValue(Quote(s) + rest) == Some((Str(s), rest))
  {
    var t := Quote(s) + rest;
    EscapeRoundTrip(s, rest);
    assert t[0] == '"' && t[1..] == Escape(s) + "\"" + rest;
    NotNullLiteral(t);
  }

  lemma ValueRoundTrip(v: Value, rest: string)
    requires rest == [] || !IsDigit(rest[0])
    ensures ParseValue(ValueText(v) + rest) == Some((v, rest))
  {
    match v
    case Null =>
      var t := ValueText(v) + rest;
      assert t[..4] == "null" && t[4..] == rest;
    case Int(i) => IntValueRoundTrip(i, rest);
    case Str(s) => StrValueRoundTrip(s, rest);
  }

  lemma NoLeadingSpace(t: string)
    requires t != [] && !IsJsonSpace(t[0])
    ensures SkipSpace(t) == t
  {
  }

  lemma KeyRoundTrip(key: string, after: string)
    ensures ParseKey(Quote(key) + ":" + after) == Some((key, after))
  {
    var r1 := ":" + after;
    var t := Quote(key) + r1;
    assert Quote(key) + ":" + after == t;
    assert t == "\"" + (Escape(key) + "\"" + r1);
    assert t[1..] == Escape(key) + "\"" + r1;
    EscapeRoundTrip(key, r1);
    NoLeadingSpace(t);
    NoLeadingSpace(r1);
  }

  lemma MemberRoundTrip(m: (string, Value), tail: string)
    requires tail == [] || !IsDigit(tail[0])
    ensures ParseMember(MemberText(m) + tail) == Some((m, tail))
  {
    var vt := ValueText(m.1);
    assert MemberText(m) + tail == Quote(m.0) + ":" + (vt + tail);
    KeyRoundTrip(m.0, vt + tail);
    ValueTextStart(m.1);
    assert (vt + tail)[0] == vt[0];
    NoLeadingSpace(vt + tail);
    ValueRoundTrip(m.1, tail);
  }

  lemma MemberThenClose(m: (string, Value), rest: string)
    ensures ParseMembers(MemberText(m) + ("}" + rest)) == Some(([m], rest))
  {
    MemberRoundTrip(m, "}" + rest);
    NoLeadingSpace("}" + rest);
  }

  lemma MemberThenComma(m: (string, Value), more: string)
    ensures ParseMembers(MemberText(m) + ("," + more)) ==
      match ParseMembers(more)
      case None => None
      case Some((o, r5)) => Some(([m] + o, r5))
  {
    MemberRoundTrip(m, "," + more);
    NoLeadingSpace("," + more);
    assert ("," + more)[1..] == more;
  }

  lemma {:induction false} MembersRoundTrip(o: Object, rest: string)
    requires o != []
    ensures ParseMembers(MembersText(o) + "}" + rest) == Some((o, rest))
    decreases |o|
  {
    if |o| == 1 {
      assert MembersText(o) + "}" + rest == MemberText(o[0]) + ("}" + rest);
      MemberThenClose(o[0], rest);
      assert [o[0]] == o;
    } else {
      var more := MembersText(o[1..]) + "}" + rest;
      assert MembersText(o) + "}" + rest == MemberText(o[0]) + ("," + more);
      MembersRoundTrip(o[1..], rest);
      MemberThenComma(o[0], more);
      assert [o[0]] + o[1..] == o;
    }
  }

  lemma MembersTextStart(o: Object)
    requires o != []
    ensures MembersText(o) != [] && MembersText(o)[0] == '"'
  {
  }

  /** Reading back what `JSON.stringify` wrote gives the same object. */
  lemma BodyRoundTrip(o: Object)
    ensures ParseBody(MembersText(o) + "}") == Some(o)
  {
    var t := MembersText(o) + "}";
    if o == [] {
      assert t == "}";
    } else {
      MembersTextStart(o);
      MembersRoundTrip(o, []);
      assert t == MembersText(o) + "}" + [];
    }
  }

  /** Reading back what `JSON.stringify` wrote gives the same object. */
  lemma ParseStringify(o: Object)
    ensures Parse(Stringify(o)) == Some(o)
  {
    var s := Stringify(o);
    var t := MembersText(o) + "}";
    NoLeadingSpace(s);
    assert s[0] == '{' && s[1..] == t;
    if o != [] {
      MembersTextStart(o);
    }
    NoLeadingSpace(t);
    BodyRoundTrip(o);
  }

  // ---------------------------------------------------------------- shape

  lemma {:induction false} EscapeSingleLine(s: string)
    ensures '\n' !in Escape(s)
    decreases |s|
  {
    if s != [] {
      EscapeSingleLine(s[1..]);
      var c := s[0];
      if c < ' ' && c != '\U{0008}' && c != '\U{000C}' && c != '\n' && c != '\r' && c != '\t' {
        assert HexDigit(c as int / 16) != '\n' && HexDigit(c as int % 16) != '\n';
      }
      assert '\n' !in EscapeChar(c);
    }
  }

  lemma ValueSingleLine(v: Value)
    ensures '\n' !in ValueText(v)
  {
    match v
    case Null =>
    case Int(i) => NatTextShape(if i < 0 then -i else i);
    case Str(s) => EscapeSingleLine(s);
  }

  lemma {:induction false} MembersSingleLine(o: Object)
    ensures '\n' !in MembersText(o)
    decreases |o|
  {
    if o != [] {
      EscapeSingleLine(o[0].0);
      ValueSingleLine(o[0].1);
      if |o| > 1 {
        MembersSingleLine(o[1..]);
      }
    }
  }

  /**
   * What `JSON.stringify` writes never contains a line feed, and it is
   * delimited by braces, so trimming leaves it as it is.
   */
  lemma StringifyShape(o: Object)
    ensures var s := Stringify(o);
      '\n' !in s && |s| >= 2 && s[0] == '{' && s[|s| - 1] == '}'
  {
    MembersSingleLine(o);
  }
}
