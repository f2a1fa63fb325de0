/**
 A reader for JSON, and the proof that it undoes the writer. It takes everything
 that sections 2 to 7 of RFC 8259 allow, except that surrogate pairs are read as
 two code units; like the library the program uses it is more lenient about
 numbers (leading zeros) and strings (raw control bytes).
 */
module JsonReader {
  import opened Octets
  import opened JsonText

  /** A value read off the front of a text, with what follows it. */
  datatype Parsed<+T> = NoParse | Parsed(value: T, rest: Bytes)

  // ---------- lexical elements ----------

  predicate IsSpace(b: Byte) {
    b == ' ' || b == '\t' || b == '\n' || b == '\r'
  }

  function SkipSpace(s: Bytes): (r: Bytes)
    ensures |r| <= |s|
    ensures r != [] ==> !IsSpace(r[0])
  {
    if s != [] && IsSpace(s[0]) then SkipSpace(s[1..]) else s
  }

  function DigitsValue(t: Bytes): nat
    requires AllDigits(t)
  {
    if t == [] then 0
    else DigitsValue(t[..|t| - 1]) * 10 + (t[|t| - 1] as int - '0' as int)
  }

  function TokenValue(t: Bytes): int
    requires IsIntToken(t)
  {
    if t[0] == '-' then -(DigitsValue(t[1..]) as int) else DigitsValue(t)
  }

  /** How many bytes at the front of `s` can belong to a number. */
  function NumberRun(s: Bytes): (k: nat)
    ensures k <= |s|
  {
    if s != [] && IsNumberByte(s[0]) then 1 + NumberRun(s[1..]) else 0
  }

  function ParseNumber(s: Bytes): (r: Parsed<Json>)
    ensures r.Parsed? ==> |r.rest| < |s|
  {
    var k := NumberRun(s);
    var token := s[..k];
    if IsIntToken(token) then Parsed(Int(TokenValue(token)), s[k..])
    else if IsRealToken(token) then Parsed(Real(token), s[k..])
    else NoParse
  }

  function HexValue(b: Byte): Option<nat> {
    if '0' <= b <= '9' then Some(b as int - '0' as int)
    else if 'A' <= b <= 'F' then Some(b as int - 'A' as int + 10)
    else if 'a' <= b <= 'f' then Some(b as int - 'a' as int + 10)
    else None
  }

  /** The code unit written by four hexadecimal digits. */
  function HexQuad(s: Bytes): (r: Option<nat>)
    requires |s| == 4
  {
    var a, b, c, d := HexValue(s[0]), HexValue(s[1]), HexValue(s[2]), HexValue(s[3]);
    if a.Some? && b.Some? && c.Some? && d.Some?
    then Some(a.value * 4096 + b.value * 256 + c.value * 16 + d.value)
    else None
  }

  /** UTF-8 form of one code unit. */
  function Utf8(code: nat): Bytes {
    if code < 0x80 then [ByteOf(code)]
    else if code < 0x800 then [ByteOf(0xC0 + code / 64), ByteOf(0x80 + code % 64)]
    else [ByteOf(0xE0 + code / 4096 % 16), ByteOf(0x80 + code / 64 % 64), ByteOf(0x80 + code % 64)]
  }

  /** The code unit that one, two or three bytes of UTF-8 stand for. */
  function FromUtf8(s: Bytes): int
    requires 1 <= |s| <= 3
  {
    if |s| == 1 then s[0] as int
    else if |s| == 2 then (s[0] as int - 0xC0) * 64 + (s[1] as int - 0x80)
    else (s[0] as int - 0xE0) * 4096 + (s[1] as int - 0x80) * 64 + (s[2] as int - 0x80)
  }

  lemma Utf8Inverse(code: nat)
    requires code < 0x1_0000
    ensures 1 <= |Utf8(code)| <= 3 && FromUtf8(Utf8(code)) == code
  {
    assert code / 64 == code / 4096 * 64 + code / 64 % 64 by { assert code / 4096 == code / 64 / 64; }
    assert code == code / 64 * 64 + code % 64;
  }

  function SimpleEscape(b: Byte): Option<Byte> {
    if b == '"' || b == '\\' || b == '/' then Some(b)
    else if b == 'b' then Some(8 as char)
    else if b == 'f' then Some(12 as char)
    else if b == 'n' then Some('\n')
    else if b == 'r' then Some('\r')
    else if b == 't' then Some('\t')
    else None
  }

  function Prepend(head: Bytes, tail: Parsed<Bytes>): (r: Parsed<Bytes>)
    ensures r.Parsed? <==> tail.Parsed?
    ensures r.Parsed? ==> r.rest == tail.rest
  {
    match tail
    case NoParse => NoParse
    case Parsed(t, rest) => Parsed(head + t, rest)
  }

  /** The rest of a string, after its opening quotation mark. */
  function ParseChars(s: Bytes): (r: Parsed<Bytes>)
    ensures r.Parsed? ==> |r.rest| < |s|
  {
    if s == [] then NoParse
    else if s[0] == '"' then Parsed([], s[1..])
    else if s[0] != '\\' then Prepend([s[0]], ParseChars(s[1..]))
    else if |s| < 2 then NoParse
    else if s[1] == 'u' then
      if |s| < 6 || HexQuad(s[2..6]).None? then NoParse
      else Prepend(Utf8(HexQuad(s[2..6]).value), ParseChars(s[6..]))
    else if SimpleEscape(s[1]).None? then NoParse
    else Prepend([SimpleEscape(s[1]).value], ParseChars(s[2..]))
  }

  predicate StartsWith(s: Bytes, word: Bytes) {
    word <= s
  }

  // ---------- values ----------

  function ParseValue(s: Bytes): (r: Parsed<Json>)
    ensures r.Parsed? ==> |r.rest| < |s|
    decreases |s|, 0
  {
    var t := SkipSpace(s);
    if t == [] then NoParse
    else if t[0] == '"' then
      (match ParseChars(t[1..])
       case NoParse => NoParse
       case Parsed(text, rest) => Parsed(Str(text), rest))
    else if t[0] == '[' then
      (match ParseItems(t[1..], true)
       case NoParse => NoParse
       case Parsed(items, rest) => Parsed(Arr(items), rest))
    else if t[0] == '{' then
      (match ParseMembers(t[1..], true)
       case NoParse => NoParse
       case Parsed(members, rest) => Parsed(Obj(members), rest))
    else if StartsWith(t, "null") then Parsed(Null, t[4..])
    else if StartsWith(t, "true") then Parsed(Bool(true), t[4..])
    else if StartsWith(t, "false") then Parsed(Bool(false), t[5..])
    else ParseNumber(t)
  }

  /** The rest of an array; `first` says that nothing has been read after its bracket. */
  function ParseItems(s: Bytes, first: bool): (r: Parsed<seq<Json>>)
    ensures r.Parsed? ==> |r.rest| < |s|
    decreases |s|, 1
  {
    var t := SkipSpace(s);
    if t == [] then NoParse
    else if t[0] == ']' then Parsed([], t[1..])
    else if !first && t[0] != ',' then NoParse
    else
      match ParseValue(if first then t else t[1..])
      case NoParse => NoParse
      case Parsed(v, u) =>
        match ParseItems(u, false)
        case NoParse => NoParse
        case Parsed(vs, rest) => Parsed([v] + vs, rest)
  }

  /** One `"name" : value` pair. */
  function ParseMember(s: Bytes): (r: Parsed<Member>)
    ensures r.Parsed? ==> |r.rest| < |s|
    decreases |s|, 1
  {
    var t := SkipSpace(s);
    if t == [] || t[0] != '"' then NoParse
    else
      match ParseChars(t[1..])
      case NoParse => NoParse
      case Parsed(name, u) =>
        var w := SkipSpace(u);
        if w == [] || w[0] != ':' then NoParse
        else
          match ParseValue(w[1..])
          case NoParse => NoParse
          case Parsed(v, rest) => Parsed(Member(name, v), rest)
  }

  function ParseMembers(s: Bytes, first: bool): (r: Parsed<seq<Member>>)
    ensures r.Parsed? ==> |r.rest| < |s|
    decreases |s|, 2
  {
    var t := SkipSpace(s);
    if t == [] then NoParse
    else if t[0] == '}' then Parsed([], t[1..])
    else if !first && t[0] != ',' then NoParse
    else
      match ParseMember(if first then t else t[1..])
      case NoParse => NoParse
      case Parsed(m, u) =>
        match ParseMembers(u, false)
        case NoParse => NoParse
        case Parsed(ms, rest) => Parsed([m] + ms, rest)
  }

  /** A whole text: one value; what follows the value is not looked at. */
  function ReadText(s: Bytes): Option<Json> {
    match ParseValue(s)
    case NoParse => None
    case Parsed(v, _) => Some(v)
  }

  // ---------- numbers round trip ----------

  /** What may follow a value: nothing, or a byte that cannot extend a number. */
  predicate Delimited(rest: Bytes) {
    rest == [] || !IsNumberByte(rest[0])
  }

  lemma {:induction false} DigitsRoundTrip(n: nat)
    ensures Digits(n) != [] && AllDigits(Digits(n)) && DigitsValue(Digits(n)) == n
    decreases n
  {
    if n < 10 {
      assert Digits(n)[..0] == [];
    } else {
      DigitsRoundTrip(n / 10);
      var d := Digits(n);
      assert d[..|d| - 1] == Digits(n / 10);
    }
  }

  lemma DecimalRoundTrip(n: int)
    ensures IsIntToken(Decimal(n)) && TokenValue(Decimal(n)) == n
    ensures forall i :: 0 <= i < |Decimal(n)| ==> IsNumberByte(Decimal(n)[i])
    ensures IsDigit(Decimal(n)[0]) || Decimal(n)[0] == '-'
  {
    if n < 0 {
      DigitsRoundTrip(-n);
      assert Decimal(n)[1..] == Digits(-n);
    } else {
      DigitsRoundTrip(n);
    }
  }

  lemma {:induction false} NumberRunExact(t: Bytes, rest: Bytes)
    requires forall i :: 0 <= i < |t| ==> IsNumberByte(t[i])
    requires Delimited(rest)
    ensures NumberRun(t + rest) == |t|
  {
    if t == [] {
      assert t + rest == rest;
    } else {
      NumberRunExact(t[1..], rest);
      assert (t + rest)[1..] == t[1..] + rest;
    }
  }

  lemma ParseNumberToken(t: Bytes, rest: Bytes)
    requires IsIntToken(t) || IsRealToken(t)
    requires forall i :: 0 <= i < |t| ==> IsNumberByte(t[i])
    requires IsDigit(t[0]) || t[0] == '-'
    requires Delimited(rest)
    ensures ParseValue(t + rest) == Parsed(if IsIntToken(t) then Int(TokenValue(t)) else Real(t), rest)
  {
    NumberRunExact(t, rest);
    var s := t + rest;
    assert s[0] == t[0];
    assert SkipSpace(s) == s;
    assert s[..|t|] == t && s[|t|..] == rest;
    assert !StartsWith(s, "null") && !StartsWith(s, "true") && !StartsWith(s, "false") by {
      assert "null"[0] == 'n' && "true"[0] == 't' && "false"[0] == 'f';
    }
  }

  lemma ParseDecimal(n: int, rest: Bytes)
    requires Delimited(rest)
    ensures ParseValue(Decimal(n) + rest) == Parsed(Int(n), rest)
  {
    DecimalRoundTrip(n);
    ParseNumberToken(Decimal(n), rest);
  }

  // ---------- strings round trip ----------

  lemma HexQuadBack(code: nat)
    requires code < 0x1_0000
    ensures HexQuad(Hex4(code)) == Some(code)
  {
    var a, b, c := code / 16, code / 256, code / 4096;
    assert b == a / 16 && c == b / 16;
    assert code == a * 16 + code % 16 && a == b * 16 + a % 16 && b == c * 16 + b % 16;
  }

  /** Every escaped code unit is read as the UTF-8 bytes that stand for it. */
  lemma UnicodeEscape(code: nat, s: Bytes)
    requires code < 0x1_0000
    ensures ParseChars("\\u" + Hex4(code) + s) == Prepend(Utf8(code), ParseChars(s))
    ensures 1 <= |Utf8(code)| <= 3 && FromUtf8(Utf8(code)) == code
  {
    var t := "\\u" + Hex4(code) + s;
    assert t[0] == '\\' && t[1] == 'u' && t[2..6] == Hex4(code) && t[6..] == s;
    HexQuadBack(code);
    Utf8Inverse(code);
  }

  lemma EscapedPlain(b: Byte, s: Bytes)
    requires b != '"' && b != '\\'
    ensures ParseChars([b] + s) == Prepend([b], ParseChars(s))
  {
    assert ([b] + s)[1..] == s;
  }

  lemma EscapedPair(b: Byte, e: Byte, s: Bytes)
    requires SimpleEscape(e) == Some(b)
    ensures ParseChars(['\\', e] + s) == Prepend([b], ParseChars(s))
  {
    var t := ['\\', e] + s;
    assert t[0] == '\\' && t[1] == e && t[2..] == s;
  }

  lemma EscapedByte(b: Byte, s: Bytes)
    ensures ParseChars(EscapeByte(b) + s) == Prepend([b], ParseChars(s))
  {
    var e := EscapeByte(b);
    if |e| == 1 {
      EscapedPlain(b, s);
    } else if |e| == 2 {
      EscapedPair(b, e[1], s);
      assert e == ['\\', e[1]];
    } else {
      UnicodeEscape(b as int, s);
      assert Utf8(b as int) == [b];
    }
  }

  lemma {:induction false} EscapeRoundTrip(t: Bytes, rest: Bytes)
    ensures ParseChars(Escape(t) + ("\"" + rest)) == Parsed(t, rest)
  {
    if t == [] {
      assert Escape(t) + ("\"" + rest) == "\"" + rest;
    } else {
      EscapeRoundTrip(t[1..], rest);
      var q := "\"" + rest;
      EscapedByte(t[0], Escape(t[1..]) + q);
      Assoc(EscapeByte(t[0]), Escape(t[1..]), q);
      assert t == [t[0]] + t[1..];
    }
  }

  lemma QuoteShape(s: Bytes, rest: Bytes)
    ensures Quote(s) + rest == "\"" + (Escape(CString(s)) + ("\"" + rest))
  {
    var e := Escape(CString(s));
    Assoc("\"" + e, "\"", rest);
    Assoc("\"", e, "\"" + rest);
  }

  lemma ParseQuoted(s: Bytes, rest: Bytes)
    ensures (Quote(s) + rest)[0] == '"'
    ensures ParseChars((Quote(s) + rest)[1..]) == Parsed(CString(s), rest)
  {
    QuoteShape(s, rest);
    EscapeRoundTrip(CString(s), rest);
    Behind("\"", Escape(CString(s)) + ("\"" + rest));
  }

  /** Dropping a known prefix. */
  lemma Behind(a: Bytes, b: Bytes)
    ensures (a + b)[|a|..] == b && (a + b)[..|a|] == a
  {
  }

  // ---------- trees round trip ----------

  /** The first byte of a printed value tells it from white space and from closing brackets. */
  lemma PrintHead(v: Json, yaml: bool)
    requires Valid(v)
    ensures Print(v, yaml) != []
    ensures !IsSpace(Print(v, yaml)[0]) && Print(v, yaml)[0] != ']' && Print(v, yaml)[0] != '}'
  {
    match v
    case Int(n) => DecimalRoundTrip(n);
    case _ =>
  }

  lemma ParseWord(word: Bytes, rest: Bytes)
    requires word in ["null", "true", "false"]
    ensures ParseValue(word + rest)
      == Parsed(if word == "null" then Null else Bool(word == "true"), rest)
  {
    Behind(word, rest);
    var s := word + rest;
    assert s[0] == word[0] && SkipSpace(s) == s;
    assert "null"[0] == 'n' && "true"[0] == 't' && "false"[0] == 'f';
    assert StartsWith(s, word);
  }

  lemma {:induction false} ParsePrint(v: Json, yaml: bool, rest: Bytes)
    requires Valid(v) && Delimited(rest)
    ensures ParseValue(Print(v, yaml) + rest) == Parsed(Clip(v), rest)
    decreases v, 0
  {
    match v
    case Null => ParseWord("null", rest);
    case Bool(b) => ParseWord(if b then "true" else "false", rest);
    case Int(n) => ParseDecimal(n, rest);
    case Real(lexeme) => ParseNumberToken(lexeme, rest);
    case Str(text) =>
      ParseQuoted(text, rest);
      ValueStep(Quote(text) + rest);
    case Arr(items) =>
      ParsePrintItems(items, true, yaml, rest);
      Bracketed("[", PrintItems(items, true, yaml), "]", rest);
      ValueStep("[" + PrintItems(items, true, yaml) + "]" + rest);
    case Obj(members) =>
      ParsePrintMembers(members, true, yaml, rest);
      Bracketed("{", PrintMembers(members, true, yaml), "}", rest);
      ValueStep("{" + PrintMembers(members, true, yaml) + "}" + rest);
  }

  lemma ValueStep(s: Bytes)
    requires s != []
    ensures s[0] == '"' && ParseChars(s[1..]).Parsed? ==>
      ParseValue(s) == Parsed(Str(ParseChars(s[1..]).value), ParseChars(s[1..]).rest)
    ensures s[0] == '[' && ParseItems(s[1..], true).Parsed? ==>
      ParseValue(s) == Parsed(Arr(ParseItems(s[1..], true).value), ParseItems(s[1..], true).rest)
    ensures s[0] == '{' && ParseMembers(s[1..], true).Parsed? ==>
      ParseValue(s) == Parsed(Obj(ParseMembers(s[1..], true).value), ParseMembers(s[1..], true).rest)
  {
    if s[0] == '"' || s[0] == '[' || s[0] == '{' {
      assert SkipSpace(s) == s;
    }
  }

  lemma Bracketed(open: Bytes, inside: Bytes, close: Bytes, rest: Bytes)
    requires |open| == 1
    ensures open + inside + close + rest == open + (inside + (close + rest))
    ensures (open + inside + close + rest)[0] == open[0]
    ensures (open + inside + close + rest)[1..] == inside + (close + rest)
  {
    Assoc(open + inside, close, rest);
    Assoc(open, inside, close + rest);
    Behind(open, inside + (close + rest));
  }

  lemma Listed(first: bool, head: Bytes, tail: Bytes, end: Bytes)
    ensures Comma(first) + head + tail + end == Comma(first) + (head + (tail + end))
    ensures first ==> Comma(first) + (head + (tail + end)) == head + (tail + end)
    ensures !first ==> (Comma(first) + (head + (tail + end)))[0] == ','
    ensures !first ==> (Comma(first) + (head + (tail + end)))[1..] == head + (tail + end)
  {
    Assoc(Comma(first) + head, tail, end);
    Assoc(Comma(first), head, tail + end);
    Behind(Comma(first), head + (tail + end));
  }

  lemma {:induction false} ParsePrintItems(items: seq<Json>, first: bool, yaml: bool, rest: Bytes)
    requires forall i :: 0 <= i < |items| ==> Valid(items[i])
    ensures ParseItems(PrintItems(items, first, yaml) + ("]" + rest), first) == Parsed(ClipItems(items), rest)
    decreases items, 1
  {
    if items == [] {
      assert PrintItems(items, first, yaml) + ("]" + rest) == "]" + rest;
      Behind("]", rest);
    } else {
      var head, tail := Print(items[0], yaml), PrintItems(items[1..], false, yaml);
      Listed(first, head, tail, "]" + rest);
      ItemsDelimited(items[1..], yaml, rest);
      PrintHead(items[0], yaml);
      ParsePrint(items[0], yaml, tail + ("]" + rest));
      ParsePrintItems(items[1..], false, yaml, rest);
      assert (head + (tail + ("]" + rest)))[0] == head[0];
    }
  }

  lemma ItemsDelimited(items: seq<Json>, yaml: bool, rest: Bytes)
    ensures Delimited(PrintItems(items, false, yaml) + ("]" + rest))
  {
    if items != [] {
      Listed(false, Print(items[0], yaml), PrintItems(items[1..], false, yaml), "]" + rest);
    }
  }

  lemma MembersDelimited(members: seq<Member>, yaml: bool, rest: Bytes)
    ensures Delimited(PrintMembers(members, false, yaml) + ("}" + rest))
  {
    if members != [] {
      Listed(false, PrintMember(members[0], yaml), PrintMembers(members[1..], false, yaml), "}" + rest);
    }
  }

  lemma {:induction false} ParsePrintMember(m: Member, yaml: bool, rest: Bytes)
    requires Valid(m.value) && Delimited(rest)
    ensures ParseMember(PrintMember(m, yaml) + rest) == Parsed(Member(CString(m.name), Clip(m.value)), rest)
    ensures (PrintMember(m, yaml) + rest)[0] == '"'
    decreases m, 1
  {
    var value := Print(m.value, yaml) + rest;
    Assoc(Quote(m.name), Colon(yaml) + Print(m.value, yaml), rest);
    Assoc(Colon(yaml), Print(m.value, yaml), rest);
    ParseQuoted(m.name, Colon(yaml) + value);
    ParsePrint(m.value, yaml, rest);
    ColonShape(yaml, value);
  }

  lemma ColonShape(yaml: bool, value: Bytes)
    ensures (Colon(yaml) + value)[0] == ':'
    ensures ParseValue((Colon(yaml) + value)[1..]) == ParseValue(value)
  {
    LeadingSpace(value);
    assert (Colon(yaml) + value)[1..] == if yaml then " " + value else value;
  }

  lemma {:induction false} ParsePrintMembers(members: seq<Member>, first: bool, yaml: bool, rest: Bytes)
    requires forall i :: 0 <= i < |members| ==> Valid(members[i].value)
    ensures ParseMembers(PrintMembers(members, first, yaml) + ("}" + rest), first) == Parsed(ClipMembers(members), rest)
    decreases members, 2
  {
    if members == [] {
      assert PrintMembers(members, first, yaml) + ("}" + rest) == "}" + rest;
      Behind("}", rest);
    } else {
      var tail := PrintMembers(members[1..], false, yaml);
      Listed(first, PrintMember(members[0], yaml), tail, "}" + rest);
      MembersDelimited(members[1..], yaml, rest);
      ParsePrintMember(members[0], yaml, tail + ("}" + rest));
      ParsePrintMembers(members[1..], false, yaml, rest);
      MembersStep(PrintMember(members[0], yaml) + (tail + ("}" + rest)), first);
    }
  }

  lemma MembersStep(s: Bytes, first: bool)
    requires s != [] && s[0] == '"'
    requires ParseMember(s).Parsed? && ParseMembers(ParseMember(s).rest, false).Parsed?
    ensures var m := ParseMember(s);
      var ms := ParseMembers(m.rest, false);
      ParseMembers(Comma(first) + s, first) == Parsed([m.value] + ms.value, ms.rest)
  {
    Behind(Comma(first), s);
    var t := Comma(first) + s;
    if first {
      assert t == s;
      assert SkipSpace(s) == s;
    } else {
      assert t[0] == ',' && t[1..] == s;
      assert SkipSpace(t) == t;
    }
  }

  /** White space before a value changes nothing. */
  lemma LeadingSpace(s: Bytes)
    ensures ParseValue(" " + s) == ParseValue(s)
    ensures SkipSpace("\n" + s) == SkipSpace(s)
  {
    assert (" " + s)[1..] == s && ("\n" + s)[1..] == s;
    assert SkipSpace(" " + s) == SkipSpace(s);
  }

  // ---------- main results ----------

  /** The reader undoes the writer on every printable tree: what it returns is the
      tree with its strings cut at NUL, and that is the tree itself exactly when
      the tree holds no NUL. */
  lemma PrintThenParse(v: Json, yaml: bool, rest: Bytes)
    requires Valid(v) && Delimited(rest)
    ensures ParseValue(Print(v, yaml) + rest) == Parsed(Clip(v), rest)
    ensures ParseValue(Print(v, yaml) + rest) == Parsed(v, rest) <==> NulFree(v)
  {
    ParsePrint(v, yaml, rest);
    ClipFixed(v);
  }

  /** Two trees with the same text are the same tree up to clipping: the writer loses nothing else. */
  lemma PrintInjective(v: Json, w: Json, yaml: bool)
    requires Valid(v) && Valid(w)
    ensures Print(v, yaml) == Print(w, yaml) ==> Clip(v) == Clip(w)
  {
    ParsePrint(v, yaml, []);
    ParsePrint(w, yaml, []);
  }
}
