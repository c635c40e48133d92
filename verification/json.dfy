/**
 The part of JSON the CLI reads and writes: `null`, booleans, integers, strings, arrays
 and objects.  `Print` follows `JSON.stringify(value, null, gap)` (compact when the gap
 is empty, one property per line otherwise) and `Parse` follows `JSON.parse`, which
 rejects anything that is not a complete JSON text.  Parsing an object assigns its
 members in order, so a repeated name keeps its first position and its last value.
 */
module Json {

  import opened Wrappers
  import opened Strings
  import Objects

  datatype Json =
    | JNull
    | JBool(b: bool)
    | JNumber(n: int)
    | JString(s: string)
    | JArray(items: seq<Json>)
    | JObject(fields: seq<(string, Json)>)

  /** Every object has distinct member names, as every value JavaScript can build does. */
  predicate WellFormed(v: Json)
  {
    match v
    case JArray(items) => forall i :: 0 <= i < |items| ==> WellFormed(items[i])
    case JObject(fs) =>
      && Objects.DistinctKeys(fs)
      && forall i :: 0 <= i < |fs| ==> fs[i] in fs && WellFormed(fs[i].1)
    case _ => true
  }

  /** JavaScript truthiness of a value. */
  predicate Truthy(v: Json)
  {
    match v
    case JNull => false
    case JBool(b) => b
    case JNumber(n) => n != 0
    case JString(s) => s != ""
    case _ => true
  }

  /** Truthiness of a property read that may be `undefined`. */
  predicate TruthyOpt(o: Option<Json>)
  {
    o.Some? && Truthy(o.value)
  }

  function Width(v: Json): nat
  {
    match v
    case JArray(items) => |items|
    case JObject(fs) => |fs|
    case _ => 0
  }

  // ---------------------------------------------------------------- numbers

  predicate IsDigit(c: char)
  {
    '0' <= c <= '9'
  }

  predicate AllDigits(s: string)
  {
    forall i :: 0 <= i < |s| ==> IsDigit(s[i])
  }

  function DigitChar(d: nat): (c: char)
    requires d < 10
    ensures IsDigit(c) && c as int - '0' as int == d
  {
    ('0' as int + d) as char
  }

  /** Decimal value of a run of digits. */
  function DigitsValue(ds: string): nat
    requires AllDigits(ds)
  {
    if |ds| == 0 then 0
    else DigitsValue(ds[..|ds| - 1]) * 10 + (ds[|ds| - 1] as int - '0' as int)
  }

  /** Decimal text of a natural number: digits only, without a leading zero. */
  function NatToString(n: nat): (r: string)
    ensures |r| >= 1 && AllDigits(r)
    ensures r[0] == '0' <==> n == 0
    ensures n == 0 ==> r == "0"
    decreases n
  {
    if n < 10 then [DigitChar(n)]
    else NatToString(n / 10) + [DigitChar(n % 10)]
  }

  /** The decimal text reads back as the number it was printed from. */
  lemma {:induction false} NatToStringValue(n: nat)
    ensures DigitsValue(NatToString(n)) == n
    decreases n
  {
    if n >= 10 {
      var s := NatToString(n);
      assert s[..|s| - 1] == NatToString(n / 10);
      NatToStringValue(n / 10);
    }
  }

  /** `String(n)` for an integer. */
  function IntToString(n: int): (r: string)
    ensures |r| >= 1
    ensures n < 0 ==> r[0] == '-' && r[1..] == NatToString(-n)
    ensures n >= 0 ==> r == NatToString(n)
  {
    if n < 0 then "-" + NatToString(-n) else NatToString(n)
  }

  /** Length of the run of digits that starts `t`. */
  function DigitRun(t: string): (k: nat)
    ensures k <= |t| && AllDigits(t[..k])
    ensures k == |t| || !IsDigit(t[k])
  {
    if |t| == 0 || !IsDigit(t[0]) then 0
    else
      var k := 1 + DigitRun(t[1..]);
      assert t[..k] == [t[0]] + t[1..][..k - 1];
      k
  }

  /** The digits of a JSON number: `0` alone, or a run of digits not starting with `0`. */
  function ParseUnsigned(u: string): (r: Option<(nat, string)>)
    ensures r.Some? ==> |r.value.1| < |u|
  {
    if |u| == 0 || !IsDigit(u[0]) then None
    else if u[0] == '0' then Some((0, u[1..]))
    else
      var k := DigitRun(u);
      Some((DigitsValue(u[..k]), u[k..]))
  }

  /** A JSON number without fraction or exponent: `-?(0|[1-9][0-9]*)`. */
  function ParseNumber(t: string): (r: Option<(Json, string)>)
    ensures r.Some? ==> |r.value.1| < |t|
  {
    if |t| > 0 && t[0] == '-' then
      match ParseUnsigned(t[1..])
      case None => None
      case Some((m, rest)) => Some((JNumber(-(m as int)), rest))
    else
      match ParseUnsigned(t)
      case None => None
      case Some((m, rest)) => Some((JNumber(m), rest))
  }

  lemma {:induction false} DigitRunOf(ds: string, rest: string)
    requires AllDigits(ds)
    requires rest == "" || !IsDigit(rest[0])
    ensures DigitRun(ds + rest) == |ds|
    decreases |ds|
  {
    if |ds| > 0 {
      assert (ds + rest)[1..] == ds[1..] + rest;
      DigitRunOf(ds[1..], rest);
    } else {
      assert ds + rest == rest;
    }
  }

  lemma {:induction false} ParseUnsignedOf(m: nat, rest: string)
    requires rest == "" || !IsDigit(rest[0])
    ensures ParseUnsigned(NatToString(m) + rest) == Some((m, rest))
  {
    var ds := NatToString(m);
    var u := ds + rest;
    assert u[0] == ds[0];
    if m == 0 {
      assert u[1..] == rest;
    } else {
      DigitRunOf(ds, rest);
      assert u[..|ds|] == ds;
      assert u[|ds|..] == rest;
      NatToStringValue(m);
    }
  }

  /** An integer printed by `IntToString` parses back, whatever non-digit text follows. */
  lemma ParseNumberOf(n: int, rest: string)
    requires rest == "" || !IsDigit(rest[0])
    ensures ParseNumber(IntToString(n) + rest) == Some((JNumber(n), rest))
  {
    if n < 0 { ParseNegativeOf(n, rest); } else { ParseNonNegativeOf(n, rest); }
  }

  lemma ParseNegativeOf(n: int, rest: string)
    requires n < 0
    requires rest == "" || !IsDigit(rest[0])
    ensures ParseNumber(IntToString(n) + rest) == Some((JNumber(n), rest))
  {
    var u := NatToString(-n) + rest;
    assert IntToString(n) + rest == "-" + u by {
      assert IntToString(n) == "-" + NatToString(-n);
    }
    ParseUnsignedOf(-n, rest);
    ParseMinus(u, -n, rest);
  }

  lemma ParseMinus(u: string, m: nat, rest: string)
    requires ParseUnsigned(u) == Some((m, rest))
    ensures ParseNumber("-" + u) == Some((JNumber(-(m as int)), rest))
  {
    assert ("-" + u)[0] == '-' && ("-" + u)[1..] == u;
  }

  lemma ParseNonNegativeOf(n: int, rest: string)
    requires n >= 0
    requires rest == "" || !IsDigit(rest[0])
    ensures ParseNumber(IntToString(n) + rest) == Some((JNumber(n), rest))
  {
    var t := IntToString(n) + rest;
    assert t == NatToString(n) + rest;
    assert t[0] == NatToString(n)[0];
    assert ParseUnsigned(t) == Some((n, rest)) by { ParseUnsignedOf(n, rest); }
  }

  // ---------------------------------------------------------------- strings

  function HexDigit(d: nat): (c: char)
    requires d < 16
  {
    if d < 10 then ('0' as int + d) as char else ('a' as int + d - 10) as char
  }

  function HexValue(c: char): Option<nat>
  {
    if '0' <= c <= '9' then Some(c as int - '0' as int)
    else if 'a' <= c <= 'f' then Some(c as int - 'a' as int + 10)
    else if 'A' <= c <= 'F' then Some(c as int - 'A' as int + 10)
    else None
  }

  /** How `JSON.stringify` writes one character inside a string literal. */
  function EscapeChar(c: char): (r: string)
    ensures |r| >= 1
  {
    var n := c as int;
    if c == '"' then ['\\', '"']
    else if c == '\\' then ['\\', '\\']
    else if n == 8 then ['\\', 'b']
    else if n == 9 then ['\\', 't']
    else if n == 10 then ['\\', 'n']
    else if n == 12 then ['\\', 'f']
    else if n == 13 then ['\\', 'r']
    else if n < 0x20 then ['\\', 'u', '0', '0', HexDigit(n / 16), HexDigit(n % 16)]
    else [c]
  }

  function Escape(s: string): string
  {
    if |s| == 0 then "" else EscapeChar(s[0]) + Escape(s[1..])
  }

  /** `JSON.stringify` of a string. */
  function Quote(s: string): (r: string)
    ensures |r| >= 2 && r[0] == '"'
  {
    "\"" + Escape(s) + "\""
  }

  /** The escape sequences `JSON.parse` accepts after a backslash.  A `\u` escape that
      names a surrogate code unit has no counterpart among Unicode scalar values. */
  function ParseEscape(t: string): (r: Option<(char, string)>)
    ensures r.Some? ==> |r.value.1| < |t|
  {
    if |t| == 0 then None
    else if t[0] == '"' || t[0] == '\\' || t[0] == '/' then Some((t[0], t[1..]))
    else if t[0] == 'b' then Some((8 as char, t[1..]))
    else if t[0] == 'f' then Some((12 as char, t[1..]))
    else if t[0] == 'n' then Some((10 as char, t[1..]))
    else if t[0] == 'r' then Some((13 as char, t[1..]))
    else if t[0] == 't' then Some((9 as char, t[1..]))
    else if t[0] == 'u' && |t| >= 5 then
      match (HexValue(t[1]), HexValue(t[2]), HexValue(t[3]), HexValue(t[4]))
      case (Some(a), Some(b), Some(c), Some(d)) =>
        var code := a * 4096 + b * 256 + c * 16 + d;
        if 0xD800 <= code < 0xE000 || code >= 0x11_0000 then None
        else Some((code as char, t[5..]))
      case _ => None
    else None
  }

  /** The characters of a string literal after its opening quote, up to and
      including the closing quote; yields the decoded text and what follows. */
  function ParseStringBody(t: string): (r: Option<(string, string)>)
    ensures r.Some? ==> |r.value.1| < |t|
    decreases |t|
  {
    if |t| == 0 then None
    else if t[0] == '"' then Some(("", t[1..]))
    else if t[0] == '\\' then
      match ParseEscape(t[1..])
      case None => None
      case Some((c, after)) =>
        match ParseStringBody(after)
        case None => None
        case Some((s, rest)) => Some(([c] + s, rest))
    else if (t[0] as int) < 0x20 then None
    else
      match ParseStringBody(t[1..])
      case None => None
      case Some((s, rest)) => Some(([t[0]] + s, rest))
  }

  lemma EscapeCharBody(c: char, tail: string)
    ensures ParseStringBody(EscapeChar(c) + tail) ==
      match ParseStringBody(tail)
      case None => None
      case Some((s, rest)) => Some(([c] + s, rest))
  {
    var n := c as int;
    var e := EscapeChar(c);
    var t := e + tail;
    if n < 0x20 && n != 8 && n != 9 && n != 10 && n != 12 && n != 13 {
      assert t[1..] == ['u', '0', '0', HexDigit(n / 16), HexDigit(n % 16)] + tail;
      assert t[1..][5..] == tail;
      assert HexValue(HexDigit(n / 16)) == Some(n / 16);
      assert HexValue(HexDigit(n % 16)) == Some(n % 16);
    } else if |e| == 2 {
      assert t[1..] == [e[1]] + tail;
    } else {
      assert t[1..] == tail;
    }
  }

  /** A string written by `Escape` and closed by a quote decodes back to itself. */
  lemma {:induction false} EscapeBody(s: string, rest: string)
    ensures ParseStringBody(Escape(s) + "\"" + rest) == Some((s, rest))
    decreases |s|
  {
    if |s| == 0 {
      assert Escape(s) + "\"" + rest == "\"" + rest;
    } else {
      assert Escape(s) + "\"" + rest == EscapeChar(s[0]) + (Escape(s[1..]) + "\"" + rest);
      EscapeCharBody(s[0], Escape(s[1..]) + "\"" + rest);
      EscapeBody(s[1..], rest);
      assert [s[0]] + s[1..] == s;
    }
  }

  // ---------------------------------------------------------------- printing

  /** `JSON.stringify(v, null, gap)` for a value nested at indentation `indent`. */
  function Print(v: Json, gap: string, indent: string): (r: string)
    ensures |r| >= 1
    decreases v, Width(v) + 1
  {
    match v
    case JNull => "null"
    case JBool(b) => if b then "true" else "false"
    case JNumber(n) => IntToString(n)
    case JString(s) => Quote(s)
    case JArray(items) =>
      if |items| == 0 then "[]"
      else "[" + Open(gap, indent) + PrintItems(v, 0, gap, indent) + Close(gap, indent) + "]"
    case JObject(fs) =>
      if |fs| == 0 then "{}"
      else "{" + Open(gap, indent) + PrintMembers(v, 0, gap, indent) + Close(gap, indent) + "}"
  }

  /** What follows an opening bracket: a line break and the next indentation, when indenting. */
  function Open(gap: string, indent: string): string
  {
    if gap == "" then "" else "\n" + indent + gap
  }

  /** What precedes a closing bracket: a line break and the current indentation, when indenting. */
  function Close(gap: string, indent: string): string
  {
    if gap == "" then "" else "\n" + indent
  }

  /** Separator between the elements of an array or object nested at `indent`. */
  function Separator(gap: string, indent: string): string
  {
    "," + Open(gap, indent)
  }

  lemma LayoutSpaces(gap: string, indent: string)
    requires AllJsonSpaces(gap) && AllJsonSpaces(indent)
    ensures AllJsonSpaces(Open(gap, indent)) && AllJsonSpaces(Close(gap, indent))
    ensures AllJsonSpaces(indent + gap)
  {
    if gap != "" {
      assert Open(gap, indent) == "\n" + (indent + gap);
    }
  }

  /** Elements `k..` of an array, each at the next indentation level. */
  function PrintItems(v: Json, k: nat, gap: string, indent: string): string
    requires v.JArray? && k < |v.items|
    decreases v, |v.items| - k
  {
    Print(v.items[k], gap, indent + gap)
    + if k + 1 == |v.items| then "" else Separator(gap, indent) + PrintItems(v, k + 1, gap, indent)
  }

  /** Members `k..` of an object as `"name":value` (`"name": value` when indenting). */
  function PrintMembers(v: Json, k: nat, gap: string, indent: string): string
    requires v.JObject? && k < |v.fields|
    decreases v, |v.fields| - k
  {
    assert v.fields[k] in v.fields;
    MemberText(v.fields[k], gap, indent)
    + if k + 1 == |v.fields| then "" else Separator(gap, indent) + PrintMembers(v, k + 1, gap, indent)
  }

  /** One member `"name":value`, with a space after the colon when indenting. */
  function MemberText(f: (string, Json), gap: string, indent: string): string
    decreases f.1, Width(f.1) + 2
  {
    Quote(f.0) + ":" + ((if gap == "" then "" else " ") + Print(f.1, gap, indent + gap))
  }

  /** `JSON.stringify(v)`. */
  function Stringify(v: Json): string
  {
    Print(v, "", "")
  }

  /** `JSON.stringify(v, null, 2)`. */
  function Pretty(v: Json): string
  {
    Print(v, "  ", "")
  }

  // ---------------------------------------------------------------- parsing

  predicate IsJsonSpace(c: char)
  {
    c == ' ' || c == '\t' || c == '\n' || c == '\r'
  }

  predicate AllJsonSpaces(s: string)
  {
    forall i :: 0 <= i < |s| ==> IsJsonSpace(s[i])
  }

  function SkipSpaces(t: string): (r: string)
    ensures |r| <= |t|
  {
    if |t| > 0 && IsJsonSpace(t[0]) then SkipSpaces(t[1..]) else t
  }

  function ParseValue(t: string): (r: Option<(Json, string)>)
    ensures r.Some? ==> |r.value.1| < |t|
    ensures r.Some? ==> WellFormed(r.value.0)
    decreases |t|, 1
  {
    if |t| == 0 then None
    else if t[0] == 'n' then (if |t| >= 4 && t[..4] == "null" then Some((JNull, t[4..])) else None)
    else if t[0] == 't' then (if |t| >= 4 && t[..4] == "true" then Some((JBool(true), t[4..])) else None)
    else if t[0] == 'f' then (if |t| >= 5 && t[..5] == "false" then Some((JBool(false), t[5..])) else None)
    else if t[0] == '"' then
      match ParseStringBody(t[1..])
      case None => None
      case Some((s, rest)) => Some((JString(s), rest))
    else if t[0] == '[' then ParseArray(t[1..])
    else if t[0] == '{' then ParseObject(t[1..])
    else if t[0] == '-' || IsDigit(t[0]) then ParseNumber(t)
    else None
  }

  /** A value with the white space around it. */
  function ParseElement(t: string): (r: Option<(Json, string)>)
    ensures r.Some? ==> |r.value.1| < |t|
    ensures r.Some? ==> WellFormed(r.value.0)
    decreases |t|, 2
  {
    match ParseValue(SkipSpaces(t))
    case None => None
    case Some((v, rest)) => Some((v, SkipSpaces(rest)))
  }

  /** The rest of an array after its `[`. */
  function ParseArray(t: string): (r: Option<(Json, string)>)
    ensures r.Some? ==> |r.value.1| < |t|
    ensures r.Some? ==> WellFormed(r.value.0)
    decreases |t|, 4
  {
    var s := SkipSpaces(t);
    if |s| > 0 && s[0] == ']' then Some((JArray([]), s[1..]))
    else
      match ParseItems(s)
      case None => None
      case Some((xs, rest)) => Some((JArray(xs), rest))
  }

  /** Elements separated by `,` up to and including the closing `]`. */
  function ParseItems(t: string): (r: Option<(seq<Json>, string)>)
    ensures r.Some? ==> |r.value.1| < |t|
    ensures r.Some? ==> forall i :: 0 <= i < |r.value.0| ==> WellFormed(r.value.0[i])
    decreases |t|, 3
  {
    match ParseElement(t)
    case None => None
    case Some((v, rest)) =>
      if |rest| > 0 && rest[0] == ']' then Some(([v], rest[1..]))
      else if |rest| > 0 && rest[0] == ',' then
        match ParseItems(rest[1..])
        case None => None
        case Some((vs, after)) => Some(([v] + vs, after))
      else None
  }

  /** The rest of an object after its `{`; members are assigned in order. */
  function ParseObject(t: string): (r: Option<(Json, string)>)
    ensures r.Some? ==> |r.value.1| < |t|
    ensures r.Some? ==> WellFormed(r.value.0)
    decreases |t|, 4
  {
    var s := SkipSpaces(t);
    if |s| > 0 && s[0] == '}' then Some((JObject([]), s[1..]))
    else
      match ParseMembers(s)
      case None => None
      case Some((ps, rest)) => Some((JObject(Objects.FromPairs(ps)), rest))
  }

  /** `"name": value` members separated by `,` up to and including the closing `}`. */
  function ParseMembers(t: string): (r: Option<(seq<(string, Json)>, string)>)
    ensures r.Some? ==> |r.value.1| < |t|
    ensures r.Some? ==> forall i :: 0 <= i < |r.value.0| ==> WellFormed(r.value.0[i].1)
    decreases |t|, 3
  {
    var s := SkipSpaces(t);
    if |s| == 0 || s[0] != '"' then None
    else
      match ParseStringBody(s[1..])
      case None => None
      case Some((name, afterName)) =>
        var c := SkipSpaces(afterName);
        if |c| == 0 || c[0] != ':' then None
        else
          match ParseElement(c[1..])
          case None => None
          case Some((v, rest)) =>
            if |rest| > 0 && rest[0] == '}' then Some(([(name, v)], rest[1..]))
            else if |rest| > 0 && rest[0] == ',' then
              match ParseMembers(rest[1..])
              case None => None
              case Some((ps, after)) => Some(([(name, v)] + ps, after))
            else None
  }

  /** `JSON.parse`: one value, optionally surrounded by white space, and nothing else. */
  function Parse(text: string): (r: Option<Json>)
    ensures r.Some? ==> WellFormed(r.value)
  {
    match ParseElement(text)
    case Some((v, rest)) => if rest == "" then Some(v) else None
    case None => None
  }

  // ---------------------------------------------------------------- round trip

  lemma {:induction false} SkipSpacesOf(w: string, t: string)
    requires AllJsonSpaces(w)
    requires t == "" || !IsJsonSpace(t[0])
    ensures SkipSpaces(w + t) == t
    decreases |w|
  {
    if |w| > 0 {
      assert (w + t)[1..] == w[1..] + t;
      SkipSpacesOf(w[1..], t);
    } else {
      assert w + t == t;
    }
  }

  /** The first character of a printed value starts a value: never white space, a
      digit only for a number, never a closing bracket. */
  predicate StartsValue(c: char)
  {
    c == 'n' || c == 't' || c == 'f' || c == '"' || c == '[' || c == '{' || c == '-' || IsDigit(c)
  }

  lemma PrintStart(v: Json, gap: string, indent: string)
    ensures StartsValue(Print(v, gap, indent)[0])
  {
    match v
    case JNumber(n) =>
    case _ =>
  }

  /** What may follow a printed value without changing how it parses. */
  predicate Follows(rest: string)
  {
    rest == "" || !IsDigit(rest[0])
  }

  /** A printed well-formed value parses back to itself and leaves what follows it. */
  lemma {:induction false} PrintParse(v: Json, gap: string, indent: string, rest: string)
    requires WellFormed(v) && AllJsonSpaces(gap) && AllJsonSpaces(indent) && Follows(rest)
    ensures ParseValue(Print(v, gap, indent) + rest) == Some((v, rest))
    decreases v, Width(v) + 2
  {
    match v
    case JArray(_) => ArrayParse(v, gap, indent, rest);
    case JObject(_) => ObjectParse(v, gap, indent, rest);
    case _ => ScalarParse(v, gap, indent, rest);
  }

  lemma ScalarParse(v: Json, gap: string, indent: string, rest: string)
    requires !v.JArray? && !v.JObject? && Follows(rest)
    ensures ParseValue(Print(v, gap, indent) + rest) == Some((v, rest))
  {
    var t := Print(v, gap, indent) + rest;
    match v
    case JNull => assert t[..4] == "null"; assert t[4..] == rest;
    case JBool(b) =>
      if b { assert t[..4] == "true"; assert t[4..] == rest; }
      else { assert t[..5] == "false"; assert t[5..] == rest; }
    case JNumber(n) =>
      assert t[0] == IntToString(n)[0];
      assert ParseNumber(t) == Some((v, rest)) by { ParseNumberOf(n, rest); }
    case JString(s) =>
      assert t[1..] == Escape(s) + "\"" + rest;
      assert ParseStringBody(t[1..]) == Some((s, rest)) by { EscapeBody(s, rest); }
  }

  /** A printed value followed by `after` is one element; the parser stops at the next
      character after it that is not white space. */
  lemma {:induction false} ElementParse(v: Json, gap: string, indent: string, after: string)
    requires WellFormed(v) && AllJsonSpaces(gap) && AllJsonSpaces(indent) && Follows(after)
    ensures ParseElement(Print(v, gap, indent) + after) == Some((v, SkipSpaces(after)))
    decreases v, Width(v) + 3
  {
    var t := Print(v, gap, indent) + after;
    assert SkipSpaces(t) == t by {
      PrintStart(v, gap, indent);
      assert t[0] == Print(v, gap, indent)[0];
      SkipSpacesOf("", t);
      assert "" + t == t;
    }
    PrintParse(v, gap, indent, after);
  }

  /** White space in front of the elements of an array changes nothing. */
  lemma ItemsAfterSpaces(w: string, t: string)
    requires AllJsonSpaces(w) && t != "" && !IsJsonSpace(t[0])
    ensures ParseItems(w + t) == ParseItems(t)
  {
    SkipSpacesOf(w, t);
    SkipSpacesOf("", t);
    assert "" + t == t;
  }

  /** White space in front of the members of an object changes nothing. */
  lemma MembersAfterSpaces(w: string, t: string)
    requires AllJsonSpaces(w) && t != "" && !IsJsonSpace(t[0])
    ensures ParseMembers(w + t) == ParseMembers(t)
  {
    SkipSpacesOf(w, t);
    SkipSpacesOf("", t);
    assert "" + t == t;
  }

  lemma ParseAtBracket(body: string)
    ensures ParseValue("[" + body) == ParseArray(body)
    ensures ParseValue("{" + body) == ParseObject(body)
  {
    assert ("[" + body)[1..] == body;
    assert ("{" + body)[1..] == body;
  }

  lemma ParseArrayNonEmpty(w: string, tail: string)
    requires AllJsonSpaces(w) && tail != "" && !IsJsonSpace(tail[0]) && tail[0] != ']'
    ensures ParseArray(w + tail) ==
      match ParseItems(tail)
      case None => None
      case Some((xs, r)) => Some((JArray(xs), r))
  {
    SkipSpacesOf(w, tail);
  }

  lemma ParseObjectNonEmpty(w: string, tail: string)
    requires AllJsonSpaces(w) && tail != "" && !IsJsonSpace(tail[0]) && tail[0] != '}'
    ensures ParseObject(w + tail) ==
      match ParseMembers(tail)
      case None => None
      case Some((ps, r)) => Some((JObject(Objects.FromPairs(ps)), r))
  {
    SkipSpacesOf(w, tail);
  }

  /** The printed elements `k..` of an array followed by its closing bracket. */
  function ItemsText(v: Json, k: nat, gap: string, indent: string, rest: string): string
    requires v.JArray? && k < |v.items|
  {
    PrintItems(v, k, gap, indent) + (Close(gap, indent) + "]" + rest)
  }

  /** The printed members `k..` of an object followed by its closing brace. */
  function MembersText(v: Json, k: nat, gap: string, indent: string, rest: string): string
    requires v.JObject? && k < |v.fields|
  {
    PrintMembers(v, k, gap, indent) + (Close(gap, indent) + "}" + rest)
  }

  lemma {:induction false} ArrayParse(v: Json, gap: string, indent: string, rest: string)
    requires v.JArray? && WellFormed(v) && AllJsonSpaces(gap) && AllJsonSpaces(indent) && Follows(rest)
    ensures ParseValue(Print(v, gap, indent) + rest) == Some((v, rest))
    decreases v, Width(v) + 1
  {
    if |v.items| == 0 {
      EmptyParse(v, gap, indent, rest);
    } else {
      var tail := ItemsText(v, 0, gap, indent, rest);
      assert ParseItems(tail) == Some((v.items, rest)) by {
        ItemsParse(v, 0, gap, indent, rest);
        assert v.items[0..] == v.items;
      }
      assert Print(v, gap, indent) + rest == "[" + (Open(gap, indent) + tail) by {
        BracketedShape("[", Open(gap, indent), PrintItems(v, 0, gap, indent), Close(gap, indent), "]", rest);
      }
      ParseAtBracket(Open(gap, indent) + tail);
      LayoutSpaces(gap, indent);
      ItemsTextStart(v, 0, gap, indent, rest);
      ParseArrayNonEmpty(Open(gap, indent), tail);
    }
  }

  /** `[]` and `{}`. */
  lemma EmptyParse(v: Json, gap: string, indent: string, rest: string)
    requires (v.JArray? && v.items == []) || (v.JObject? && v.fields == [])
    ensures ParseValue(Print(v, gap, indent) + rest) == Some((v, rest))
  {
    var c := if v.JArray? then ']' else '}';
    assert SkipSpaces([c] + rest) == [c] + rest;
    assert ([c] + rest)[1..] == rest;
    assert Objects.FromPairs<Json>([]) == [];
    ParseAtBracket([c] + rest);
    if v.JArray? {
      assert Print(v, gap, indent) + rest == "[" + ([c] + rest);
    } else {
      assert Print(v, gap, indent) + rest == "{" + ([c] + rest);
    }
  }

  /** Regrouping the text of a non-empty array or object followed by `rest`. */
  lemma BracketedShape(o: string, open: string, body: string, close: string, c: string, rest: string)
    ensures o + open + body + close + c + rest == o + (open + (body + (close + c + rest)))
  {
  }

  lemma {:induction false} ObjectParse(v: Json, gap: string, indent: string, rest: string)
    requires v.JObject? && WellFormed(v) && AllJsonSpaces(gap) && AllJsonSpaces(indent) && Follows(rest)
    ensures ParseValue(Print(v, gap, indent) + rest) == Some((v, rest))
    decreases v, Width(v) + 1
  {
    if |v.fields| == 0 {
      EmptyParse(v, gap, indent, rest);
    } else {
      var tail := MembersText(v, 0, gap, indent, rest);
      assert ParseMembers(tail) == Some((v.fields, rest)) by {
        MembersParse(v, 0, gap, indent, rest);
        assert v.fields[0..] == v.fields;
      }
      assert Print(v, gap, indent) + rest == "{" + (Open(gap, indent) + tail) by {
        BracketedShape("{", Open(gap, indent), PrintMembers(v, 0, gap, indent), Close(gap, indent), "}", rest);
      }
      ParseAtBracket(Open(gap, indent) + tail);
      LayoutSpaces(gap, indent);
      MembersTextStart(v, 0, gap, indent, rest);
      ParseObjectNonEmpty(Open(gap, indent), tail);
      assert Objects.FromPairs(v.fields) == v.fields by { Objects.FromDistinctPairs(v.fields); }
    }
  }

  lemma ItemsStepLast(t: string, x: Json, rest: string)
    requires ParseElement(t) == Some((x, "]" + rest))
    ensures ParseItems(t) == Some(([x], rest))
  {
    assert ("]" + rest)[1..] == rest;
  }

  lemma ItemsStepMore(t: string, x: Json, after: string, xs: seq<Json>, rest: string)
    requires ParseElement(t) == Some((x, "," + after))
    requires ParseItems(after) == Some((xs, rest))
    ensures ParseItems(t) == Some(([x] + xs, rest))
  {
    assert ("," + after)[1..] == after;
  }

  /** The closing white space and bracket after the last element are skipped up to the bracket. */
  lemma CloseSkip(gap: string, indent: string, c: char, rest: string)
    requires AllJsonSpaces(gap) && AllJsonSpaces(indent) && !IsJsonSpace(c) && !IsDigit(c)
    ensures SkipSpaces(Close(gap, indent) + [c] + rest) == [c] + rest
    ensures Follows(Close(gap, indent) + [c] + rest)
  {
    LayoutSpaces(gap, indent);
    assert Close(gap, indent) + [c] + rest == Close(gap, indent) + ([c] + rest);
    SkipSpacesOf(Close(gap, indent), [c] + rest);
  }

  /** The text of elements `k..` is the `k`-th element and then either the closing text or a
      separator and the text of elements `k + 1..`. */
  lemma ItemsTextSplit(v: Json, k: nat, gap: string, indent: string, rest: string)
    requires v.JArray? && k < |v.items|
    ensures k + 1 == |v.items| ==>
      ItemsText(v, k, gap, indent, rest) == Print(v.items[k], gap, indent + gap) + (Close(gap, indent) + "]" + rest)
    ensures k + 1 < |v.items| ==>
      ItemsText(v, k, gap, indent, rest) ==
        Print(v.items[k], gap, indent + gap) + ("," + (Open(gap, indent) + ItemsText(v, k + 1, gap, indent, rest)))
  {
    var p := Print(v.items[k], gap, indent + gap);
    var c := Close(gap, indent) + "]" + rest;
    if k + 1 == |v.items| {
      assert PrintItems(v, k, gap, indent) == p + "";
      assert p + "" == p;
    } else {
      var m := PrintItems(v, k + 1, gap, indent);
      assert PrintItems(v, k, gap, indent) == p + ("," + Open(gap, indent) + m);
      SeqAssoc4(p, "," , Open(gap, indent), m, c);
    }
  }

  lemma SliceCons<T>(s: seq<T>, k: nat)
    requires k < |s|
    ensures s[k..] == [s[k]] + s[k + 1..]
  {
  }

  /** Regrouping a concatenation of five pieces. */
  lemma SeqAssoc4<T>(a: seq<T>, b: seq<T>, c: seq<T>, d: seq<T>, e: seq<T>)
    ensures (a + (b + c + d)) + e == a + (b + (c + (d + e)))
  {
  }

  lemma ItemsTextStart(v: Json, k: nat, gap: string, indent: string, rest: string)
    requires v.JArray? && k < |v.items|
    ensures ItemsText(v, k, gap, indent, rest) != ""
    ensures StartsValue(ItemsText(v, k, gap, indent, rest)[0])
  {
    var p := Print(v.items[k], gap, indent + gap);
    PrintStart(v.items[k], gap, indent + gap);
    ItemsTextSplit(v, k, gap, indent, rest);
    if k + 1 == |v.items| {
      assert ItemsText(v, k, gap, indent, rest)[0] == p[0];
    } else {
      assert ItemsText(v, k, gap, indent, rest)[0] == p[0];
    }
  }

  /** The text of members `k..` is the `k`-th member and then either the closing text or a
      separator and the text of members `k + 1..`. */
  lemma MembersTextSplit(v: Json, k: nat, gap: string, indent: string, rest: string)
    requires v.JObject? && k < |v.fields|
    ensures k + 1 == |v.fields| ==>
      MembersText(v, k, gap, indent, rest) == MemberText(v.fields[k], gap, indent) + (Close(gap, indent) + "}" + rest)
    ensures k + 1 < |v.fields| ==>
      MembersText(v, k, gap, indent, rest) ==
        MemberText(v.fields[k], gap, indent) + ("," + (Open(gap, indent) + MembersText(v, k + 1, gap, indent, rest)))
  {
    var first := MemberText(v.fields[k], gap, indent);
    var c := Close(gap, indent) + "}" + rest;
    assert v.fields[k] in v.fields;
    if k + 1 == |v.fields| {
      assert PrintMembers(v, k, gap, indent) == first + "";
      assert first + "" == first;
    } else {
      var m := PrintMembers(v, k + 1, gap, indent);
      assert PrintMembers(v, k, gap, indent) == first + ("," + Open(gap, indent) + m);
      SeqAssoc4(first, ",", Open(gap, indent), m, c);
    }
  }

  lemma MemberTextThen(f: (string, Json), gap: string, indent: string, after: string)
    ensures MemberText(f, gap, indent) + after ==
      Quote(f.0) + ":" + ((if gap == "" then "" else " ") + (Print(f.1, gap, indent + gap) + after))
  {
  }

  lemma MembersTextStart(v: Json, k: nat, gap: string, indent: string, rest: string)
    requires v.JObject? && k < |v.fields|
    ensures MembersText(v, k, gap, indent, rest) != ""
    ensures MembersText(v, k, gap, indent, rest)[0] == '"'
  {
    MembersTextSplit(v, k, gap, indent, rest);
    var q := Quote(v.fields[k].0);
    assert q[0] == '"';
    assert MemberText(v.fields[k], gap, indent)[0] == q[0];
    assert MembersText(v, k, gap, indent, rest)[0] == q[0];
  }

  /** The last element of an array, then its closing bracket. */
  lemma {:induction false} ItemsLastParse(v: Json, k: nat, gap: string, indent: string, rest: string)
    requires v.JArray? && k + 1 == |v.items| && WellFormed(v)
    requires AllJsonSpaces(gap) && AllJsonSpaces(indent) && Follows(rest)
    ensures ParseItems(ItemsText(v, k, gap, indent, rest)) == Some((v.items[k..], rest))
    decreases v, 0
  {
    var x := v.items[k];
    var close := Close(gap, indent) + "]" + rest;
    LayoutSpaces(gap, indent);
    assert ItemsText(v, k, gap, indent, rest) == Print(x, gap, indent + gap) + close by {
      ItemsTextSplit(v, k, gap, indent, rest);
    }
    assert ParseElement(Print(x, gap, indent + gap) + close) == Some((x, "]" + rest)) by {
      CloseSkip(gap, indent, ']', rest);
      ElementParse(x, gap, indent + gap, close);
    }
    ItemsStepLast(Print(x, gap, indent + gap) + close, x, rest);
    assert v.items[k..] == [x];
  }

  /** An element of an array, then a comma and the elements after it. */
  lemma {:induction false} ItemsNextParse(v: Json, k: nat, gap: string, indent: string, rest: string)
    requires v.JArray? && k + 1 < |v.items| && WellFormed(v)
    requires AllJsonSpaces(gap) && AllJsonSpaces(indent) && Follows(rest)
    requires ParseItems(ItemsText(v, k + 1, gap, indent, rest)) == Some((v.items[k + 1..], rest))
    ensures ParseItems(ItemsText(v, k, gap, indent, rest)) == Some((v.items[k..], rest))
    decreases v, 0
  {
    var x := v.items[k];
    var inner := indent + gap;
    var more := ItemsText(v, k + 1, gap, indent, rest);
    var after := Open(gap, indent) + more;
    LayoutSpaces(gap, indent);
    assert ItemsText(v, k, gap, indent, rest) == Print(x, gap, inner) + ("," + after) by {
      ItemsTextSplit(v, k, gap, indent, rest);
    }
    assert ParseElement(Print(x, gap, inner) + ("," + after)) == Some((x, "," + after)) by {
      assert SkipSpaces("," + after) == "," + after;
      ElementParse(x, gap, inner, "," + after);
    }
    assert ParseItems(after) == Some((v.items[k + 1..], rest)) by {
      ItemsTextStart(v, k + 1, gap, indent, rest);
      ItemsAfterSpaces(Open(gap, indent), more);
    }
    ItemsStepMore(Print(x, gap, inner) + ("," + after), x, after, v.items[k + 1..], rest);
    assert v.items[k..] == [x] + v.items[k + 1..] by { SliceCons(v.items, k); }
  }

  /** The printed elements `k..` of an array, then its closing bracket, parse back to those elements. */
  lemma {:induction false} ItemsParse(v: Json, k: nat, gap: string, indent: string, rest: string)
    requires v.JArray? && k < |v.items| && WellFormed(v)
    requires AllJsonSpaces(gap) && AllJsonSpaces(indent) && Follows(rest)
    ensures ParseItems(ItemsText(v, k, gap, indent, rest)) == Some((v.items[k..], rest))
    decreases v, |v.items| - k
  {
    if k + 1 == |v.items| {
      ItemsLastParse(v, k, gap, indent, rest);
    } else {
      ItemsParse(v, k + 1, gap, indent, rest);
      ItemsNextParse(v, k, gap, indent, rest);
    }
  }

  lemma MembersStepLast(t: string, name: string, valueText: string, x: Json, rest: string)
    requires t == Quote(name) + ":" + valueText
    requires ParseElement(valueText) == Some((x, "}" + rest))
    ensures ParseMembers(t) == Some(([(name, x)], rest))
  {
    MemberHead(name, valueText);
    assert ("}" + rest)[1..] == rest;
  }

  lemma MembersStepMore(t: string, name: string, valueText: string, x: Json, after: string,
                        ps: seq<(string, Json)>, rest: string)
    requires t == Quote(name) + ":" + valueText
    requires ParseElement(valueText) == Some((x, "," + after))
    requires ParseMembers(after) == Some((ps, rest))
    ensures ParseMembers(t) == Some(([(name, x)] + ps, rest))
  {
    MemberHead(name, valueText);
    assert ("," + after)[1..] == after;
  }

  /** A member's quoted name and colon are read off, leaving the text of its value. */
  lemma MemberHead(name: string, valueText: string)
    ensures
      var t := Quote(name) + ":" + valueText;
      && SkipSpaces(t) == t
      && ParseStringBody(t[1..]) == Some((name, ":" + valueText))
      && SkipSpaces(":" + valueText) == ":" + valueText
      && (":" + valueText)[1..] == valueText
  {
    var t := Quote(name) + ":" + valueText;
    assert t[1..] == Escape(name) + "\"" + (":" + valueText);
    EscapeBody(name, ":" + valueText);
  }

  /** The value of a member, after the optional space that follows its colon. */
  lemma {:induction false} MemberValueParse(x: Json, gap: string, inner: string, after: string)
    requires WellFormed(x) && AllJsonSpaces(gap) && AllJsonSpaces(inner) && Follows(after)
    ensures
      var ws := if gap == "" then "" else " ";
      ParseElement(ws + (Print(x, gap, inner) + after)) == Some((x, SkipSpaces(after)))
    decreases x, Width(x) + 4
  {
    var ws := if gap == "" then "" else " ";
    ElementParse(x, gap, inner, after);
    ElementAfterSpaces(x, gap, inner, ws, after);
  }

  /** The last member of an object, then its closing brace. */
  lemma {:induction false} MembersLastParse(v: Json, k: nat, gap: string, indent: string, rest: string)
    requires v.JObject? && k + 1 == |v.fields| && WellFormed(v)
    requires AllJsonSpaces(gap) && AllJsonSpaces(indent) && Follows(rest)
    ensures ParseMembers(MembersText(v, k, gap, indent, rest)) == Some((v.fields[k..], rest))
    decreases v, 0
  {
    var f := v.fields[k];
    assert f in v.fields;
    var ws := if gap == "" then "" else " ";
    var close := Close(gap, indent) + "}" + rest;
    var valueText := ws + (Print(f.1, gap, indent + gap) + close);
    LayoutSpaces(gap, indent);
    assert MembersText(v, k, gap, indent, rest) == Quote(f.0) + ":" + valueText by {
      MembersTextSplit(v, k, gap, indent, rest);
      MemberTextThen(f, gap, indent, close);
    }
    assert ParseElement(valueText) == Some((f.1, "}" + rest)) by {
      CloseSkip(gap, indent, '}', rest);
      MemberValueParse(f.1, gap, indent + gap, close);
    }
    MembersStepLast(Quote(f.0) + ":" + valueText, f.0, valueText, f.1, rest);
    assert v.fields[k..] == [f];
  }

  /** A member of an object, then a comma and the members after it. */
  lemma {:induction false} MembersNextParse(v: Json, k: nat, gap: string, indent: string, rest: string)
    requires v.JObject? && k + 1 < |v.fields| && WellFormed(v)
    requires AllJsonSpaces(gap) && AllJsonSpaces(indent) && Follows(rest)
    requires ParseMembers(MembersText(v, k + 1, gap, indent, rest)) == Some((v.fields[k + 1..], rest))
    ensures ParseMembers(MembersText(v, k, gap, indent, rest)) == Some((v.fields[k..], rest))
    decreases v, 0
  {
    var f := v.fields[k];
    assert f in v.fields;
    var ws := if gap == "" then "" else " ";
    var more := MembersText(v, k + 1, gap, indent, rest);
    var after := Open(gap, indent) + more;
    var valueText := ws + (Print(f.1, gap, indent + gap) + ("," + after));
    LayoutSpaces(gap, indent);
    assert MembersText(v, k, gap, indent, rest) == Quote(f.0) + ":" + valueText by {
      MembersTextSplit(v, k, gap, indent, rest);
      MemberTextThen(f, gap, indent, "," + after);
    }
    assert ParseElement(valueText) == Some((f.1, "," + after)) by {
      assert SkipSpaces("," + after) == "," + after;
      MemberValueParse(f.1, gap, indent + gap, "," + after);
    }
    assert ParseMembers(after) == Some((v.fields[k + 1..], rest)) by {
      MembersTextStart(v, k + 1, gap, indent, rest);
      MembersAfterSpaces(Open(gap, indent), more);
    }
    MembersStepMore(Quote(f.0) + ":" + valueText, f.0, valueText, f.1, after, v.fields[k + 1..], rest);
    assert v.fields[k..] == [f] + v.fields[k + 1..] by { SliceCons(v.fields, k); }
  }

  /** The printed members `k..` of an object, then its closing brace, parse back to those members. */
  lemma {:induction false} MembersParse(v: Json, k: nat, gap: string, indent: string, rest: string)
    requires v.JObject? && k < |v.fields| && WellFormed(v)
    requires AllJsonSpaces(gap) && AllJsonSpaces(indent) && Follows(rest)
    ensures ParseMembers(MembersText(v, k, gap, indent, rest)) == Some((v.fields[k..], rest))
    decreases v, |v.fields| - k
  {
    if k + 1 == |v.fields| {
      MembersLastParse(v, k, gap, indent, rest);
    } else {
      MembersParse(v, k + 1, gap, indent, rest);
      MembersNextParse(v, k, gap, indent, rest);
    }
  }

  lemma ElementAfterSpaces(v: Json, gap: string, indent: string, w: string, after: string)
    requires AllJsonSpaces(w)
    ensures ParseElement(w + (Print(v, gap, indent) + after)) == ParseElement(Print(v, gap, indent) + after)
  {
    var valueText := Print(v, gap, indent) + after;
    PrintStart(v, gap, indent);
    assert valueText[0] == Print(v, gap, indent)[0];
    SkipSpacesOf(w, valueText);
    SkipSpacesOf("", valueText);
    assert "" + valueText == valueText;
  }

  /** `JSON.parse(JSON.stringify(v, null, gap)) == v` for a gap of spaces. */
  lemma PrintRoundTrip(v: Json, gap: string)
    requires WellFormed(v) && AllJsonSpaces(gap)
    ensures Parse(Print(v, gap, "")) == Some(v)
  {
    var p := Print(v, gap, "");
    assert SkipSpaces(p) == p by {
      PrintStart(v, gap, "");
      SkipSpacesOf("", p);
      assert "" + p == p;
    }
    assert ParseValue(p) == Some((v, "")) by {
      PrintParse(v, gap, "", "");
      assert p + "" == p;
    }
    assert SkipSpaces("") == "";
    assert ParseElement(p) == Some((v, ""));
  }

  /** `JSON.parse(JSON.stringify(v)) == v`. */
  lemma StringifyRoundTrip(v: Json)
    requires WellFormed(v)
    ensures Parse(Stringify(v)) == Some(v)
  {
    PrintRoundTrip(v, "");
  }

  /** `JSON.parse(JSON.stringify(v, null, 2)) == v`. */
  lemma PrettyRoundTrip(v: Json)
    requires WellFormed(v)
    ensures Parse(Pretty(v)) == Some(v)
  {
    PrintRoundTrip(v, "  ");
  }

  // ---------------------------------------------------------------- shape of the output

  /** Printed JSON neither starts nor ends with white space, so `trim` leaves it alone. */
  lemma PrintBounded(v: Json, gap: string, indent: string)
    ensures Bounded(Print(v, gap, indent))
  {
    var t := Print(v, gap, indent);
    PrintStart(v, gap, indent);
    match v
    case JNumber(n) =>
      var d := NatToString(if n < 0 then -n else n);
      assert t[|t| - 1] == d[|d| - 1];
    case JString(s) =>
      assert t[|t| - 1] == '"';
    case JArray(items) =>
      assert t[|t| - 1] == ']';
    case JObject(fs) =>
      assert t[|t| - 1] == '}';
    case _ =>
  }

  lemma {:induction false} EscapeOneLine(s: string)
    ensures '\n' !in Escape(s)
    decreases |s|
  {
    if |s| > 0 {
      EscapeOneLine(s[1..]);
      var n := s[0] as int;
      if 0x20 > n && n != 8 && n != 9 && n != 10 && n != 12 && n != 13 {
        assert EscapeChar(s[0]) == ['\\', 'u', '0', '0', HexDigit(n / 16), HexDigit(n % 16)];
      }
    }
  }

  /** `JSON.stringify` without a gap writes a single line: line breaks inside strings
      are escaped. */
  lemma {:induction false} CompactOneLine(v: Json, indent: string)
    ensures '\n' !in Print(v, "", indent)
    decreases v, Width(v) + 1
  {
    match v
    case JString(s) => EscapeOneLine(s);
    case JNumber(n) =>
      var t := IntToString(n);
      if n < 0 {
        assert forall i :: 1 <= i < |t| ==> t[i] == t[1..][i - 1];
      }
    case JArray(items) =>
      if |items| > 0 { ItemsOneLine(v, 0, indent); }
    case JObject(fs) =>
      if |fs| > 0 { MembersOneLine(v, 0, indent); }
    case _ =>
  }

  lemma {:induction false} ItemsOneLine(v: Json, k: nat, indent: string)
    requires v.JArray? && k < |v.items|
    ensures '\n' !in PrintItems(v, k, "", indent)
    decreases v, |v.items| - k
  {
    CompactOneLine(v.items[k], indent + "");
    assert Separator("", indent) == ",";
    if k + 1 < |v.items| { ItemsOneLine(v, k + 1, indent); }
  }

  lemma {:induction false} MembersOneLine(v: Json, k: nat, indent: string)
    requires v.JObject? && k < |v.fields|
    ensures '\n' !in PrintMembers(v, k, "", indent)
    decreases v, |v.fields| - k
  {
    assert v.fields[k] in v.fields;
    EscapeOneLine(v.fields[k].0);
    CompactOneLine(v.fields[k].1, indent + "");
    assert MemberText(v.fields[k], "", indent) == Quote(v.fields[k].0) + ":" + ("" + Print(v.fields[k].1, "", indent + ""));
    assert Separator("", indent) == ",";
    if k + 1 < |v.fields| { MembersOneLine(v, k + 1, indent); }
  }

  // ---------------------------------------------------------------- template literals

  /** `${v}` in a template literal: `String(v)`. */
  function TemplateText(v: Json): string
  {
    match v
    case JNull => "null"
    case JBool(b) => if b then "true" else "false"
    case JNumber(n) => IntToString(n)
    case JString(s) => s
    case JArray(items) =>
      // `String(array)` joins the elements with commas, writing `null` as the empty string
      Join(seq(|items|, i requires 0 <= i < |items| => if items[i].JNull? then "" else TemplateText(items[i])), ",")
    case JObject(_) => "[object Object]"
  }

  /** `${x}` for a property read that may be `undefined`. */
  function TemplateOpt(o: Option<Json>): string
  {
    match o
    case None => "undefined"
    case Some(v) => TemplateText(v)
  }
}
