/** The writer's escapes one by one, and the spaces and letters in which the reader is lenient. */
module JsonLaws {
  import opened Octets
  import opened JsonText
  import opened JsonReader
  import opened JsonDoubles

  // ---------- escapes ----------

  /** The seven bytes with an escape of two bytes. */
  predicate HasShort(b: Byte) {
    b == '"' || b == '\\' || b as int == 8 || b as int == 12 || b == '\n' || b == '\r' || b == '\t'
  }

  /** A byte is written as it is, behind a backslash, or as the escape of its number: the first exactly
      when it is plain, the second exactly when it has a short escape. */
  lemma EscapeForms(b: Byte)
    ensures |EscapeByte(b)| == 2 <==> HasShort(b)
    ensures |EscapeByte(b)| == 1 <==> !HasShort(b) && (b as int == 0 || b as int >= 32)
    ensures |EscapeByte(b)| == 6 <==> !HasShort(b) && 0 < b as int < 32
    ensures |EscapeByte(b)| == 1 ==> EscapeByte(b) == [b]
    ensures |EscapeByte(b)| == 6 ==> EscapeByte(b)[..2] == "\\u" && HexQuad(EscapeByte(b)[2..]) == Some(b as int)
  {
    if 0 < b as int < 32 && !HasShort(b) {
      HexQuadBack(b as int);
      assert EscapeByte(b)[2..] == Hex4(b as int);
    }
  }

  /** The short escapes the reader takes are those the writer makes, and the slash. */
  lemma ShortEscapes(e: Byte, b: Byte)
    ensures SimpleEscape(e) == Some(b) <==> (e == '/' && b == '/') || EscapeByte(b) == ['\\', e]
  {
  }

  /** The writer's hexadecimal digits are upper-case; the reader takes both cases alike. */
  lemma HexCases(code: nat, k: nat)
    requires code < 0x1_0000 && k < 6
    ensures forall i :: 0 <= i < 4 ==> IsDigit(Hex4(code)[i]) || 'A' <= Hex4(code)[i] <= 'F'
    ensures HexValue(('a' as int + k) as char) == HexValue(('A' as int + k) as char) == Some(10 + k)
  {
  }

  // ---------- what is never printed ----------

  predicate Plain(s: Bytes) {
    forall i :: 0 <= i < |s| ==> s[i] as int >= 32
  }

  lemma PlainJoin(a: Bytes, b: Bytes)
    requires Plain(a) && Plain(b)
    ensures Plain(a + b)
  {
  }

  lemma EscapeBytePlain(b: Byte)
    requires b != NUL
    ensures Plain(EscapeByte(b))
  {
  }

  lemma {:induction false} EscapePlain(s: Bytes)
    requires NulFreeText(s)
    ensures Plain(Escape(s))
  {
    if s != [] {
      EscapeBytePlain(s[0]);
      EscapePlain(s[1..]);
      PlainJoin(EscapeByte(s[0]), Escape(s[1..]));
    }
  }

  lemma QuotePlain(s: Bytes)
    ensures Plain(Quote(s))
  {
    CStringFixed(s);
    EscapePlain(CString(s));
    PlainJoin("\"", Escape(CString(s)));
    PlainJoin("\"" + Escape(CString(s)), "\"");
  }

  /** No control byte is ever printed: neither a line break nor a NUL splits a printed text. */
  lemma {:induction false} PrintedPlain(v: Json, yaml: bool)
    requires Doubles(v)
    ensures Plain(Print(v, yaml))
    decreases v, 0
  {
    match v
    case Int(n) => DecimalPlain(n);
    case Str(s) => QuotePlain(s);
    case Arr(items) =>
      ItemsPlain(items, true, yaml);
      PlainJoin("[", PrintItems(items, true, yaml));
      PlainJoin("[" + PrintItems(items, true, yaml), "]");
    case Obj(members) =>
      MembersPlain(members, true, yaml);
      PlainJoin("{", PrintMembers(members, true, yaml));
      PlainJoin("{" + PrintMembers(members, true, yaml), "}");
    case _ =>
  }

  lemma DecimalPlain(n: int)
    ensures Plain(Decimal(n))
  {
    DecimalRoundTrip(n);
  }

  lemma {:induction false} ItemsPlain(items: seq<Json>, first: bool, yaml: bool)
    requires forall i :: 0 <= i < |items| ==> Doubles(items[i])
    ensures Plain(PrintItems(items, first, yaml))
    decreases items, 1
  {
    if items != [] {
      PrintedPlain(items[0], yaml);
      ItemsPlain(items[1..], false, yaml);
      PlainJoin(Comma(first), Print(items[0], yaml));
      PlainJoin(Comma(first) + Print(items[0], yaml), PrintItems(items[1..], false, yaml));
    }
  }

  lemma {:induction false} MembersPlain(members: seq<Member>, first: bool, yaml: bool)
    requires forall i :: 0 <= i < |members| ==> Doubles(members[i].value)
    ensures Plain(PrintMembers(members, first, yaml))
    decreases members, 2
  {
    if members != [] {
      var m := members[0];
      PrintedPlain(m.value, yaml);
      QuotePlain(m.name);
      PlainJoin(Colon(yaml), Print(m.value, yaml));
      PlainJoin(Quote(m.name), Colon(yaml) + Print(m.value, yaml));
      MembersPlain(members[1..], false, yaml);
      PlainJoin(Comma(first), PrintMember(m, yaml));
      PlainJoin(Comma(first) + PrintMember(m, yaml), PrintMembers(members[1..], false, yaml));
    }
  }

  // ---------- spaces ----------

  /** The reader skips any number of spaces, tabs and line breaks in front of whatever it reads. */
  lemma SpaceBefore(b: Byte, s: Bytes, first: bool)
    requires b == ' ' || b == '\t' || b == '\n' || b == '\r'
    ensures ParseValue([b] + s) == ParseValue(s)
    ensures ParseItems([b] + s, first) == ParseItems(s, first)
    ensures ParseMember([b] + s) == ParseMember(s)
    ensures ParseMembers([b] + s, first) == ParseMembers(s, first)
  {
    assert ([b] + s)[1..] == s;
    assert SkipSpace([b] + s) == SkipSpace(s);
  }

  // ---------- what is refused ----------

  /** A backslash before any other letter ends the reading, and so does a string without its end. */
  lemma BadEscape(e: Byte, s: Bytes)
    requires e != 'u' && e != '/' && forall b :: EscapeByte(b) != ['\\', e]
    ensures ParseChars(['\\', e] + s) == NoParse && ParseChars([]) == NoParse
  {
    if SimpleEscape(e).Some? { ShortEscapes(e, SimpleEscape(e).value); }
    var t := ['\\', e] + s;
    assert t[0] == '\\' && t[1] == e;
  }

  /** Elements must be separated by commas, and no comma may stand in front of the end. */
  lemma CommasNeeded(b: Byte, s: Bytes)
    requires !IsSpace(b)
    ensures b != ',' && b != ']' ==> ParseItems([b] + s, false) == NoParse
    ensures b != ',' && b != '}' ==> ParseMembers([b] + s, false) == NoParse
    ensures ParseItems(",]" + s, false) == NoParse && ParseMembers(",}" + s, false) == NoParse
  {
    assert SkipSpace([b] + s) == [b] + s;
    TrailingComma(s);
  }

  lemma TrailingComma(s: Bytes)
    ensures ParseItems(",]" + s, false) == NoParse && ParseMembers(",}" + s, false) == NoParse
  {
    assert SkipSpace(",]" + s) == ",]" + s && (",]" + s)[1..] == "]" + s;
    assert SkipSpace(",}" + s) == ",}" + s && (",}" + s)[1..] == "}" + s;
    NoValue(s);
  }

  lemma NoValue(s: Bytes)
    ensures ParseValue("]" + s) == NoParse && ParseMember("}" + s) == NoParse
  {
    var t := "]" + s;
    assert SkipSpace(t) == t && SkipSpace("}" + s) == "}" + s;
    assert "null"[0] == 'n' && "true"[0] == 't' && "false"[0] == 'f';
    assert NumberRun(t) == 0 && t[..0] == [];
  }

  /** A member needs a name in quotation marks and a colon behind it. */
  lemma MemberParts(b: Byte, name: Bytes, s: Bytes)
    requires !IsSpace(b)
    ensures b != '"' ==> ParseMember([b] + s) == NoParse
    ensures b != ':' ==> ParseMember(Quote(name) + ([b] + s)) == NoParse
  {
    assert SkipSpace([b] + s) == [b] + s;
    ParseQuoted(name, [b] + s);
    var t := Quote(name) + ([b] + s);
    assert SkipSpace(t) == t;
  }
}
