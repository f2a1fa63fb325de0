/** Doubles that have no JSON text: what the writer prints for them, the reader refuses. */
module JsonDoubles {
  import opened Octets
  import opened JsonText
  import opened JsonReader

  /** What the writer prints for an infinity or for a value that is not a number. */
  predicate IsNonFinite(t: Bytes) {
    t == "inf" || t == "-inf" || t == "nan" || t == "-nan"
  }

  /** Every text the writer can print for a double. */
  predicate IsDoubleText(t: Bytes) {
    IsRealToken(t) || IsNonFinite(t)
  }

  /** Every double in the tree has a text the writer can print. */
  predicate Doubles(v: Json)
    decreases v, 0
  {
    match v
    case Real(lexeme) => IsDoubleText(lexeme)
    case Arr(items) => forall i :: 0 <= i < |items| ==> Doubles(items[i])
    case Obj(members) => forall i :: 0 <= i < |members| ==> Doubles(members[i].value)
    case _ => true
  }

  lemma {:induction false} ValidDoubles(v: Json)
    requires Valid(v)
    ensures Doubles(v)
    decreases v, 0
  {
    match v
    case Arr(items) =>
      forall i | 0 <= i < |items| ensures Doubles(items[i]) { ValidDoubles(items[i]); }
    case Obj(members) =>
      forall i | 0 <= i < |members| ensures Doubles(members[i].value) { ValidDoubles(members[i].value); }
    case _ =>
  }

  predicate AllValid(items: seq<Json>) {
    forall i :: 0 <= i < |items| ==> Valid(items[i])
  }

  predicate AllMembersValid(members: seq<Member>) {
    forall i :: 0 <= i < |members| ==> Valid(members[i].value)
  }

  lemma LaterItem(items: seq<Json>)
    requires !AllValid(items) && Valid(items[0])
    ensures !AllValid(items[1..])
  {
    var i :| 0 <= i < |items| && !Valid(items[i]);
    assert items[1..][i - 1] == items[i];
  }

  lemma LaterMember(members: seq<Member>)
    requires !AllMembersValid(members) && Valid(members[0].value)
    ensures !AllMembersValid(members[1..])
  {
    var i :| 0 <= i < |members| && !Valid(members[i].value);
    assert members[1..][i - 1] == members[i];
  }

  lemma HeadOf(v: Json, yaml: bool)
    requires Doubles(v)
    ensures Print(v, yaml) != []
    ensures !IsSpace(Print(v, yaml)[0]) && Print(v, yaml)[0] != ']'
  {
    match v
    case Int(n) => DecimalRoundTrip(n);
    case _ =>
  }

  /** Neither a sign nor a letter alone starts a number. */
  lemma NonFiniteFails(t: Bytes, rest: Bytes)
    requires IsNonFinite(t)
    ensures ParseValue(t + rest) == NoParse
  {
    var s := t + rest;
    assert s[0] == t[0] && s[1] == t[1] && SkipSpace(s) == s;
    assert "null"[1] == 'u' && "true"[0] == 't' && "false"[0] == 'f';
    if t[0] == '-' {
      assert s[1..][0] == t[1];
      assert NumberRun(s) == 1 by { assert NumberRun(s[1..]) == 0; }
      assert s[..1] == ['-'];
      assert !IsIntToken(['-']) by { assert ['-'][1..] == []; }
    } else {
      assert NumberRun(s) == 0 && s[..0] == [];
    }
  }

  lemma {:induction false} InvalidFails(v: Json, yaml: bool, rest: Bytes)
    requires Doubles(v) && !Valid(v) && Delimited(rest)
    ensures ParseValue(Print(v, yaml) + rest) == NoParse
    decreases v, 0
  {
    match v
    case Real(lexeme) => NonFiniteFails(lexeme, rest);
    case Arr(items) =>
      InvalidItemsFail(items, true, yaml, rest);
      Bracketed("[", PrintItems(items, true, yaml), "]", rest);
      BracketFails("[" + PrintItems(items, true, yaml) + "]" + rest);
    case Obj(members) =>
      InvalidMembersFail(members, true, yaml, rest);
      Bracketed("{", PrintMembers(members, true, yaml), "}", rest);
      BracketFails("{" + PrintMembers(members, true, yaml) + "}" + rest);
  }

  lemma BracketFails(s: Bytes)
    requires s != []
    requires
      || (s[0] == '[' && ParseItems(s[1..], true) == NoParse)
      || (s[0] == '{' && ParseMembers(s[1..], true) == NoParse)
    ensures ParseValue(s) == NoParse
  {
    assert SkipSpace(s) == s;
  }

  lemma {:induction false} InvalidItemsFail(items: seq<Json>, first: bool, yaml: bool, rest: Bytes)
    requires (forall i :: 0 <= i < |items| ==> Doubles(items[i])) && !AllValid(items)
    ensures ParseItems(PrintItems(items, first, yaml) + ("]" + rest), first) == NoParse
    decreases items, 1
  {
    var head, tail := Print(items[0], yaml), PrintItems(items[1..], false, yaml);
    var after := tail + ("]" + rest);
    Listed(first, head, tail, "]" + rest);
    ItemsDelimited(items[1..], yaml, rest);
    HeadOf(items[0], yaml);
    assert (head + after)[0] == head[0];
    if Valid(items[0]) {
      ParsePrint(items[0], yaml, after);
      LaterItem(items);
      InvalidItemsFail(items[1..], false, yaml, rest);
    } else {
      InvalidFails(items[0], yaml, after);
    }
    ItemFails(head + after, first);
  }

  lemma ItemFails(s: Bytes, first: bool)
    requires s != [] && !IsSpace(s[0]) && s[0] != ']'
    requires ParseValue(s) == NoParse || ParseItems(ParseValue(s).rest, false) == NoParse
    ensures ParseItems(Comma(first) + s, first) == NoParse
  {
    Behind(Comma(first), s);
    var t := Comma(first) + s;
    if first {
      assert t == s && SkipSpace(s) == s;
    } else {
      assert t[0] == ',' && t[1..] == s && SkipSpace(t) == t;
    }
  }

  lemma {:induction false} InvalidMemberFails(m: Member, yaml: bool, rest: Bytes)
    requires Doubles(m.value) && !Valid(m.value) && Delimited(rest)
    ensures ParseMember(PrintMember(m, yaml) + rest) == NoParse
    ensures (PrintMember(m, yaml) + rest)[0] == '"'
    decreases m, 1
  {
    var value := Print(m.value, yaml) + rest;
    Assoc(Quote(m.name), Colon(yaml) + Print(m.value, yaml), rest);
    Assoc(Colon(yaml), Print(m.value, yaml), rest);
    ParseQuoted(m.name, Colon(yaml) + value);
    InvalidFails(m.value, yaml, rest);
    ColonShape(yaml, value);
  }

  lemma {:induction false} InvalidMembersFail(members: seq<Member>, first: bool, yaml: bool, rest: Bytes)
    requires (forall i :: 0 <= i < |members| ==> Doubles(members[i].value)) && !AllMembersValid(members)
    ensures ParseMembers(PrintMembers(members, first, yaml) + ("}" + rest), first) == NoParse
    decreases members, 2
  {
    var tail := PrintMembers(members[1..], false, yaml);
    var after := tail + ("}" + rest);
    var head := PrintMember(members[0], yaml);
    Listed(first, head, tail, "}" + rest);
    MembersDelimited(members[1..], yaml, rest);
    if Valid(members[0].value) {
      ParsePrintMember(members[0], yaml, after);
      LaterMember(members);
      InvalidMembersFail(members[1..], false, yaml, rest);
    } else {
      InvalidMemberFails(members[0], yaml, after);
    }
    MemberFails(head + after, first);
  }

  lemma MemberFails(s: Bytes, first: bool)
    requires s != [] && s[0] == '"'
    requires ParseMember(s) == NoParse || ParseMembers(ParseMember(s).rest, false) == NoParse
    ensures ParseMembers(Comma(first) + s, first) == NoParse
  {
    Behind(Comma(first), s);
    var t := Comma(first) + s;
    if first {
      assert t == s && SkipSpace(s) == s;
    } else {
      assert t[0] == ',' && t[1..] == s && SkipSpace(t) == t;
    }
  }

  /** What the writer prints for any tree it can be given is read back exactly when every double
      in the tree is finite; the value is then the tree cut at NUL. */
  lemma PrintedIsReadIffFinite(v: Json, yaml: bool, rest: Bytes)
    requires Doubles(v) && Delimited(rest)
    ensures ParseValue(Print(v, yaml) + rest) == if Valid(v) then Parsed(Clip(v), rest) else NoParse
  {
    if Valid(v) {
      ParsePrint(v, yaml, rest);
    } else {
      InvalidFails(v, yaml, rest);
    }
  }
}
