/** A printed array, object or string that is cut short is never read: its closing byte is missing. */
module JsonPrefixes {
  import opened Octets
  import opened JsonText
  import opened JsonReader
  import opened JsonDoubles

  lemma TakeJoined(a: Bytes, b: Bytes, k: nat)
    requires k <= |a| + |b|
    ensures k <= |a| ==> (a + b)[..k] == a[..k]
    ensures k >= |a| ==> (a + b)[..k] == a + b[..k - |a|]
  {
  }

  lemma TakeDelimited(s: Bytes, k: nat)
    requires Delimited(s) && k <= |s|
    ensures Delimited(s[..k])
  {
  }

  // ---------- strings ----------

  lemma CutEscape(b: Byte, k: nat)
    requires k < |EscapeByte(b)|
    ensures ParseChars(EscapeByte(b)[..k]) == NoParse
  {
    var e := EscapeByte(b);
    if k > 0 {
      assert e[..k][0] == e[0];
      if k > 1 { assert e[..k][1] == e[1]; }
    }
  }

  lemma {:induction false} CutChars(t: Bytes, k: nat)
    requires k < |Escape(t)| + 1
    ensures ParseChars((Escape(t) + "\"")[..k]) == NoParse
  {
    if t == [] {
      assert (Escape(t) + "\"")[..k] == [];
    } else {
      var head, tail := EscapeByte(t[0]), Escape(t[1..]) + "\"";
      Assoc(head, Escape(t[1..]), "\"");
      TakeJoined(head, tail, k);
      if k < |head| {
        CutEscape(t[0], k);
      } else {
        EscapedByte(t[0], tail[..k - |head|]);
        CutChars(t[1..], k - |head|);
      }
    }
  }

  /** A quoted string cut short: nothing is left, or its characters do not end. */
  lemma CutQuote(s: Bytes, k: nat)
    requires k < |Quote(s)|
    ensures k == 0 || (Quote(s)[0] == '"' && Quote(s)[..k][0] == '"' && ParseChars(Quote(s)[..k][1..]) == NoParse)
  {
    if k > 0 {
      QuoteShape(s, "");
      var inside := Escape(CString(s)) + "\"";
      assert Quote(s) == "\"" + inside by {
        assert Quote(s) + "" == Quote(s) && "\"" + "" == "\"";
      }
      TakeJoined("\"", inside, k);
      Behind("\"", inside[..k - 1]);
      CutChars(CString(s), k - 1);
    }
  }

  // ---------- values ----------

  /** Nothing was read, or a number that reaches to the end of the text. */
  predicate OnlyNumber(r: Parsed<Json>) {
    r.Parsed? ==> r.rest == []
  }

  lemma {:induction false} AllNumberBytes(t: Bytes)
    requires forall i :: 0 <= i < |t| ==> IsNumberByte(t[i])
    ensures NumberRun(t) == |t|
  {
    if t != [] { AllNumberBytes(t[1..]); }
  }

  lemma NumberFirst(t: Bytes)
    requires t != [] && IsNumberByte(t[0])
    ensures ParseValue(t) == ParseNumber(t)
  {
    assert SkipSpace(t) == t;
    assert "null"[0] == 'n' && "true"[0] == 't' && "false"[0] == 'f';
  }

  lemma WholeNumber(t: Bytes)
    requires NumberRun(t) == |t|
    ensures OnlyNumber(ParseNumber(t))
  {
    assert t[|t|..] == [];
  }

  lemma CutNumber(t: Bytes)
    requires forall i :: 0 <= i < |t| ==> IsNumberByte(t[i])
    ensures OnlyNumber(ParseValue(t))
  {
    if t == [] {
      assert SkipSpace(t) == [];
    } else {
      AllNumberBytes(t);
      NumberFirst(t);
      WholeNumber(t);
    }
  }

  lemma CutWord(word: Bytes, k: nat)
    requires word == "null" || word == "true" || word == "false" || word == "nan" || word == "inf"
    requires k < |word|
    ensures ParseValue(word[..k]) == NoParse
  {
    var p := word[..k];
    if k > 0 {
      assert p[0] == word[0] && SkipSpace(p) == p;
      assert NumberRun(p) == 0 && p[..0] == [];
    }
  }

  /** A minus sign alone, or with letters behind it. */
  lemma CutNegative(word: Bytes, k: nat)
    requires word == "-nan" || word == "-inf"
    requires k < |word|
    ensures ParseValue(word[..k]) == NoParse
  {
    var p := word[..k];
    if k > 0 {
      assert p[0] == '-' && SkipSpace(p) == p;
      assert "null"[0] == 'n' && "true"[0] == 't' && "false"[0] == 'f';
      if k > 1 { assert p[1..][0] == word[1]; }
      assert NumberRun(p) == 1 by { assert NumberRun(p[1..]) == 0; }
      assert p[..1] == ['-'];
      assert !IsIntToken(['-']) by { assert ['-'][1..] == []; }
    }
  }

  lemma CutScalar(v: Json, yaml: bool, k: nat)
    requires Doubles(v) && !v.Arr? && !v.Obj? && k < |Print(v, yaml)|
    ensures OnlyNumber(ParseValue(Print(v, yaml)[..k]))
  {
    var p := Print(v, yaml)[..k];
    match v
    case Null => CutWord("null", k);
    case Bool(b) => CutWord(if b then "true" else "false", k);
    case Int(n) =>
      DecimalRoundTrip(n);
      CutNumber(p);
    case Real(lexeme) =>
      if IsRealToken(lexeme) { CutNumber(p); }
      else if lexeme[0] == '-' { CutNegative(lexeme, k); }
      else { CutWord(lexeme, k); }
    case Str(s) => CutText(s, k);
  }

  lemma CutText(s: Bytes, k: nat)
    requires k < |Quote(s)|
    ensures ParseValue(Quote(s)[..k]) == NoParse
  {
    CutQuote(s, k);
    var p := Quote(s)[..k];
    assert SkipSpace(p) == p;
  }

  lemma {:induction false} CutValue(v: Json, yaml: bool, k: nat)
    requires Doubles(v) && k < |Print(v, yaml)|
    ensures OnlyNumber(ParseValue(Print(v, yaml)[..k]))
    ensures v.Arr? || v.Obj? ==> ParseValue(Print(v, yaml)[..k]) == NoParse
    decreases v, 0
  {
    match v
    case Arr(items) =>
      CutItems(items, true, yaml, if k == 0 then 0 else k - 1);
      CutBracket('[', PrintItems(items, true, yaml), "]", k);
    case Obj(members) =>
      CutMembers(members, true, yaml, if k == 0 then 0 else k - 1);
      CutBracket('{', PrintMembers(members, true, yaml), "}", k);
    case _ => CutScalar(v, yaml, k);
  }

  lemma CutBracket(open: Byte, inside: Bytes, close: Bytes, k: nat)
    requires |close| == 1 && k < |inside| + 2
    requires var p := (inside + close)[..if k == 0 then 0 else k - 1];
      (open == '[' && ParseItems(p, true) == NoParse) || (open == '{' && ParseMembers(p, true) == NoParse)
    ensures ParseValue(([open] + inside + close)[..k]) == NoParse
  {
    Assoc([open], inside, close);
    TakeJoined([open], inside + close, k);
    if k > 0 {
      var p := [open] + (inside + close)[..k - 1];
      Behind([open], (inside + close)[..k - 1]);
      assert SkipSpace(p) == p;
    }
  }

  lemma {:induction false} CutItems(items: seq<Json>, first: bool, yaml: bool, k: nat)
    requires (forall i :: 0 <= i < |items| ==> Doubles(items[i])) && k < |PrintItems(items, first, yaml)| + 1
    ensures ParseItems((PrintItems(items, first, yaml) + "]")[..k], first) == NoParse
    decreases items, 1
  {
    if items == [] || k == 0 {
      assert (PrintItems(items, first, yaml) + "]")[..0] == [];
    } else {
      var rest, c := Print(items[0], yaml) + (PrintItems(items[1..], false, yaml) + "]"), |Comma(first)|;
      Listed(first, Print(items[0], yaml), PrintItems(items[1..], false, yaml), "]");
      TakeJoined(Comma(first), rest, k);
      if k <= c {
        CommaOnly(first, k);
      } else {
        CutItem(items, yaml, k - c);
        ItemFails(rest[..k - c], first);
      }
    }
  }

  lemma CommaOnly(first: bool, k: nat)
    requires 0 < k <= |Comma(first)|
    ensures ParseItems(Comma(first)[..k], first) == NoParse && ParseMembers(Comma(first)[..k], first) == NoParse
  {
    assert !first && Comma(first)[..k] == ",";
    var t: Bytes := ",";
    assert t[1..] == [] && SkipSpace(t) == t;
    assert SkipSpace([]) == [];
    assert ParseValue([]) == NoParse && ParseMember([]) == NoParse;
  }

  /** The cut falls into the first of the items, or behind it. */
  lemma {:induction false} CutItem(items: seq<Json>, yaml: bool, k: nat)
    requires items != [] && (forall i :: 0 <= i < |items| ==> Doubles(items[i]))
    requires 0 < k < |Print(items[0], yaml) + (PrintItems(items[1..], false, yaml) + "]")|
    ensures var p := (Print(items[0], yaml) + (PrintItems(items[1..], false, yaml) + "]"))[..k];
      && !IsSpace(p[0]) && p[0] != ']'
      && (ParseValue(p) == NoParse || ParseItems(ParseValue(p).rest, false) == NoParse)
    decreases items, 0
  {
    var head, tail := Print(items[0], yaml), PrintItems(items[1..], false, yaml) + "]";
    TakeJoined(head, tail, k);
    HeadOf(items[0], yaml);
    if k < |head| {
      CutValue(items[0], yaml, k);
    } else {
      var after := tail[..k - |head|];
      ItemsDelimited(items[1..], yaml, "");
      assert "]" + "" == "]";
      TakeDelimited(tail, k - |head|);
      if Valid(items[0]) {
        ParsePrint(items[0], yaml, after);
        CutItems(items[1..], false, yaml, k - |head|);
      } else {
        InvalidFails(items[0], yaml, after);
      }
    }
  }

  lemma {:induction false} CutMembers(members: seq<Member>, first: bool, yaml: bool, k: nat)
    requires (forall i :: 0 <= i < |members| ==> Doubles(members[i].value))
    requires k < |PrintMembers(members, first, yaml)| + 1
    ensures ParseMembers((PrintMembers(members, first, yaml) + "}")[..k], first) == NoParse
    decreases members, 3
  {
    if members == [] || k == 0 {
      assert (PrintMembers(members, first, yaml) + "}")[..0] == [];
    } else {
      var head, tail, c := PrintMember(members[0], yaml), PrintMembers(members[1..], false, yaml) + "}", |Comma(first)|;
      Listed(first, head, PrintMembers(members[1..], false, yaml), "}");
      TakeJoined(Comma(first), head + tail, k);
      if k <= c {
        CommaOnly(first, k);
      } else {
        CutFirstMember(members, yaml, k - c);
        assert (head + tail)[..k - c][0] == head[0] == '"';
        MemberFails((head + tail)[..k - c], first);
      }
    }
  }

  lemma {:induction false} CutFirstMember(members: seq<Member>, yaml: bool, k: nat)
    requires members != [] && (forall i :: 0 <= i < |members| ==> Doubles(members[i].value))
    requires 0 < k < |PrintMember(members[0], yaml) + (PrintMembers(members[1..], false, yaml) + "}")|
    ensures PrintMember(members[0], yaml)[0] == '"'
    ensures var p := (PrintMember(members[0], yaml) + (PrintMembers(members[1..], false, yaml) + "}"))[..k];
      ParseMember(p) == NoParse || ParseMembers(ParseMember(p).rest, false) == NoParse
    decreases members, 2
  {
    var head, tail := PrintMember(members[0], yaml), PrintMembers(members[1..], false, yaml) + "}";
    TakeJoined(head, tail, k);
    if k < |head| {
      CutMember(members[0], yaml, k);
    } else {
      var after := tail[..k - |head|];
      MembersDelimited(members[1..], yaml, "");
      assert "}" + "" == "}";
      TakeDelimited(tail, k - |head|);
      if Valid(members[0].value) {
        ParsePrintMember(members[0], yaml, after);
        CutMembers(members[1..], false, yaml, k - |head|);
      } else {
        InvalidMemberFails(members[0], yaml, after);
      }
    }
  }

  /** A member cut in its name, in its colon, or in its value. */
  lemma {:induction false} CutMember(m: Member, yaml: bool, k: nat)
    requires Doubles(m.value) && k < |PrintMember(m, yaml)|
    ensures var r := ParseMember(PrintMember(m, yaml)[..k]); r.Parsed? ==> r.rest == []
    decreases m, 1
  {
    var name, value := Quote(m.name), Print(m.value, yaml);
    TakeJoined(name, Colon(yaml) + value, k);
    if k < |name| {
      CutQuote(m.name, k);
    } else {
      var after := (Colon(yaml) + value)[..k - |name|];
      ParseQuoted(m.name, after);
      TakeJoined(Colon(yaml), value, k - |name|);
      if k - |name| < |Colon(yaml)| {
        CutColon(yaml, k - |name|);
      } else {
        ColonShape(yaml, value[..k - |name| - |Colon(yaml)|]);
        CutValue(m.value, yaml, k - |name| - |Colon(yaml)|);
      }
    }
  }

  lemma CutColon(yaml: bool, k: nat)
    requires k < |Colon(yaml)|
    ensures var p := Colon(yaml)[..k]; p == [] || (p == ":" && ParseValue(p[1..]) == NoParse)
  {
    if k > 0 {
      assert ":"[1..] == [] && Colon(yaml)[..k] == ":";
    }
  }
}
