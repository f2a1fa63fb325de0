/**
 JSON trees and their single-line text, as the writer prints it.

 A double is represented by the decimal text the writer prints for it (its
 lexeme), so no rounding takes part in the model.
 */
module JsonText {
  import opened Octets

  datatype Json =
    | Null
    | Bool(flag: bool)
    | Int(n: int)
    | Real(lexeme: Bytes)
    | Str(text: Bytes)
    | Arr(items: seq<Json>)
    | Obj(members: seq<Member>)

  datatype Member = Member(name: Bytes, value: Json)

  // ---------- numbers ----------

  function Digit(d: nat): (b: Byte)
    requires d < 10
    ensures IsDigit(b) && b as int - '0' as int == d
  {
    ('0' as int + d) as char
  }

  predicate IsDigit(b: Byte) {
    '0' <= b <= '9'
  }

  function Digits(n: nat): Bytes {
    if n < 10 then [Digit(n)] else Digits(n / 10) + [Digit(n % 10)]
  }

  function Decimal(n: int): Bytes {
    if n < 0 then "-" + Digits(-n) else Digits(n)
  }

  predicate AllDigits(t: Bytes) {
    forall i :: 0 <= i < |t| ==> IsDigit(t[i])
  }

  predicate IsIntToken(t: Bytes) {
    if t != [] && t[0] == '-' then t[1..] != [] && AllDigits(t[1..])
    else t != [] && AllDigits(t)
  }

  predicate IsNumberByte(b: Byte) {
    IsDigit(b) || b == '.' || b == 'e' || b == 'E' || b == '+' || b == '-'
  }

  /** A number with a fraction or an exponent. */
  predicate IsRealToken(t: Bytes) {
    && |t| > 1
    && (IsDigit(t[0]) || t[0] == '-')
    && (forall i :: 0 <= i < |t| ==> IsNumberByte(t[i]))
    && !IsIntToken(t)
  }

  // ---------- strings ----------

  const NUL: Byte := 0 as char

  /** What C string functions see of a byte string: everything before its first NUL. */
  function CString(s: Bytes): (r: Bytes)
    ensures |r| <= |s|
  {
    if s == [] || s[0] == NUL then [] else [s[0]] + CString(s[1..])
  }

  predicate NulFreeText(s: Bytes) {
    NUL !in s
  }

  function HexDigit(d: nat): (b: Byte)
    requires d < 16
  {
    if d < 10 then ('0' as int + d) as char else ('A' as int + (d - 10)) as char
  }

  /** A code unit as four hexadecimal digits. */
  function Hex4(code: nat): (s: Bytes)
    requires code < 0x1_0000
    ensures |s| == 4
  {
    [HexDigit(code / 4096), HexDigit(code / 256 % 16), HexDigit(code / 16 % 16), HexDigit(code % 16)]
  }

  function EscapeByte(b: Byte): (r: Bytes)
    ensures r != []
  {
    if b == '"' then "\\\""
    else if b == '\\' then "\\\\"
    else if b as int == 8 then "\\b"
    else if b as int == 12 then "\\f"
    else if b == '\n' then "\\n"
    else if b == '\r' then "\\r"
    else if b == '\t' then "\\t"
    else if 0 < b as int < 32 then "\\u" + Hex4(b as int)
    else [b]
  }

  function Escape(s: Bytes): Bytes {
    if s == [] then [] else EscapeByte(s[0]) + Escape(s[1..])
  }

  function Quote(s: Bytes): Bytes {
    "\"" + Escape(CString(s)) + "\""
  }

  // ---------- trees ----------

  function Colon(yaml: bool): Bytes {
    if yaml then ": " else ":"
  }

  function Print(v: Json, yaml: bool): Bytes
    decreases v, 0
  {
    match v
    case Null => "null"
    case Bool(b) => if b then "true" else "false"
    case Int(n) => Decimal(n)
    case Real(lexeme) => lexeme
    case Str(s) => Quote(s)
    case Arr(items) => "[" + PrintItems(items, true, yaml) + "]"
    case Obj(members) => "{" + PrintMembers(members, true, yaml) + "}"
  }

  function Comma(first: bool): Bytes {
    if first then "" else ","
  }

  function PrintItems(items: seq<Json>, first: bool, yaml: bool): Bytes
    decreases items, 1
  {
    if items == [] then []
    else Comma(first) + Print(items[0], yaml) + PrintItems(items[1..], false, yaml)
  }

  function PrintMembers(members: seq<Member>, first: bool, yaml: bool): Bytes
    decreases members, 1
  {
    if members == [] then []
    else Comma(first) + PrintMember(members[0], yaml) + PrintMembers(members[1..], false, yaml)
  }

  function PrintMember(m: Member, yaml: bool): Bytes
    decreases m, 1
  {
    Quote(m.name) + (Colon(yaml) + Print(m.value, yaml))
  }

  /** Every double in the tree has a printable lexeme. */
  predicate Valid(v: Json)
    decreases v, 0
  {
    match v
    case Real(lexeme) => IsRealToken(lexeme)
    case Arr(items) => forall i :: 0 <= i < |items| ==> Valid(items[i])
    case Obj(members) => forall i :: 0 <= i < |members| ==> Valid(members[i].value)
    case _ => true
  }

  /** The tree with every string and member name cut at its first NUL. */
  function Clip(v: Json): Json
    decreases v, 0
  {
    match v
    case Str(s) => Str(CString(s))
    case Arr(items) => Arr(ClipItems(items))
    case Obj(members) => Obj(ClipMembers(members))
    case _ => v
  }

  function ClipItems(items: seq<Json>): (r: seq<Json>)
    ensures |r| == |items|
    decreases items, 1
  {
    if items == [] then [] else [Clip(items[0])] + ClipItems(items[1..])
  }

  function ClipMembers(members: seq<Member>): (r: seq<Member>)
    ensures |r| == |members|
    decreases members, 1
  {
    if members == [] then []
    else [Member(CString(members[0].name), Clip(members[0].value))] + ClipMembers(members[1..])
  }

  predicate NulFree(v: Json)
    decreases v, 0
  {
    match v
    case Str(s) => NulFreeText(s)
    case Arr(items) => forall i :: 0 <= i < |items| ==> NulFree(items[i])
    case Obj(members) =>
      forall i :: 0 <= i < |members| ==> NulFreeText(members[i].name) && NulFree(members[i].value)
    case _ => true
  }

  lemma {:induction false} CStringFixed(s: Bytes)
    ensures CString(s) == s <==> NulFreeText(s)
    ensures NulFreeText(CString(s))
  {
    if s == [] {
    } else {
      CStringFixed(s[1..]);
      assert s == [s[0]] + s[1..];
      if s[0] != NUL {
        assert NUL in s <==> NUL in s[1..];
        assert CString(s)[1..] == CString(s[1..]);
      }
    }
  }

  /** It is the part in front of the first NUL: all of the text, or up to a NUL. */
  lemma {:induction false} CStringPrefix(s: Bytes)
    ensures CString(s) <= s && (|CString(s)| < |s| ==> s[|CString(s)|] == NUL)
  {
    if s != [] && s[0] != NUL { CStringPrefix(s[1..]); }
  }

  /** Clipping leaves a tree unchanged exactly when it holds no NUL. */
  lemma {:induction false} ClipFixed(v: Json)
    ensures Clip(v) == v <==> NulFree(v)
    decreases v, 0
  {
    match v
    case Str(s) => CStringFixed(s);
    case Arr(items) => ClipItemsFixed(items);
    case Obj(members) => ClipMembersFixed(members);
    case _ =>
  }

  lemma {:induction false} ClipItemsFixed(items: seq<Json>)
    ensures ClipItems(items) == items <==> forall i :: 0 <= i < |items| ==> NulFree(items[i])
    decreases items, 1
  {
    if items != [] {
      var head, tail := items[0], items[1..];
      ClipFixed(head);
      ClipItemsFixed(tail);
      assert items == [head] + tail;
      assert ClipItems(items)[0] == Clip(head) && ClipItems(items)[1..] == ClipItems(tail);
      assert (forall i :: 0 <= i < |items| ==> NulFree(items[i])) <==>
        (NulFree(head) && forall i :: 0 <= i < |tail| ==> NulFree(tail[i])) by {
        assert forall i :: 0 <= i < |tail| ==> tail[i] == items[i + 1];
        assert forall i :: 1 <= i < |items| ==> items[i] == tail[i - 1];
      }
    }
  }

  lemma {:induction false} ClipMembersFixed(members: seq<Member>)
    ensures ClipMembers(members) == members <==>
      forall i :: 0 <= i < |members| ==> NulFreeText(members[i].name) && NulFree(members[i].value)
    decreases members, 1
  {
    if members != [] {
      var head, tail := members[0], members[1..];
      ClipFixed(head.value);
      CStringFixed(head.name);
      ClipMembersFixed(tail);
      MembersSplit(members);
      var c := ClipMembers(members);
      assert c[0] == Member(CString(head.name), Clip(head.value)) && c[1..] == ClipMembers(tail);
      assert c == [c[0]] + c[1..] && members == [head] + tail;
    }
  }

  lemma MembersSplit(members: seq<Member>)
    requires members != []
    ensures NulFree(Obj(members)) <==>
      NulFreeText(members[0].name) && NulFree(members[0].value) && NulFree(Obj(members[1..]))
  {
    var tail := members[1..];
    assert forall i :: 0 <= i < |tail| ==> tail[i] == members[i + 1];
    assert forall i :: 1 <= i < |members| ==> members[i] == tail[i - 1];
  }

  lemma {:induction false} ClipNulFree(v: Json)
    ensures NulFree(Clip(v)) && (Valid(v) ==> Valid(Clip(v)))
    decreases v, 0
  {
    match v
    case Str(s) => CStringFixed(s);
    case Arr(items) =>
      forall i | 0 <= i < |items|
        ensures NulFree(ClipItems(items)[i]) && (Valid(items[i]) ==> Valid(ClipItems(items)[i]))
      {
        ClipItemsAt(items, i);
        ClipNulFree(items[i]);
      }
    case Obj(members) =>
      forall i | 0 <= i < |members|
        ensures NulFreeText(ClipMembers(members)[i].name) && NulFree(ClipMembers(members)[i].value)
        ensures Valid(members[i].value) ==> Valid(ClipMembers(members)[i].value)
      {
        ClipMembersAt(members, i);
        CStringFixed(members[i].name);
        ClipNulFree(members[i].value);
      }
    case _ =>
  }

  lemma {:induction false} ClipItemsAt(items: seq<Json>, i: nat)
    requires i < |items|
    ensures ClipItems(items)[i] == Clip(items[i])
  {
    if i > 0 { ClipItemsAt(items[1..], i - 1); }
  }

  lemma {:induction false} ClipMembersAt(members: seq<Member>, i: nat)
    requires i < |members|
    ensures ClipMembers(members)[i] == Member(CString(members[i].name), Clip(members[i].value))
  {
    if i > 0 { ClipMembersAt(members[1..], i - 1); }
  }

  /** A member whose name holds no NUL, cut. */
  function ClipValue(m: Member): Member {
    Member(m.name, Clip(m.value))
  }

  function ClipValues(ms: seq<Member>): (r: seq<Member>)
    ensures |r| == |ms|
  {
    seq(|ms|, i requires 0 <= i < |ms| => ClipValue(ms[i]))
  }

  /** Cutting an object whose names hold no NUL cuts its values. */
  lemma ClipObject(ms: seq<Member>)
    requires forall i :: 0 <= i < |ms| ==> NulFreeText(ms[i].name)
    ensures Clip(Obj(ms)) == Obj(ClipValues(ms))
  {
    forall i | 0 <= i < |ms| ensures ClipMembers(ms)[i] == ClipValues(ms)[i] {
      ClipMembersAt(ms, i);
      CStringFixed(ms[i].name);
    }
    assert ClipMembers(ms) == ClipValues(ms);
  }

  lemma ClipTwo(a: Member, b: Member)
    requires NulFreeText(a.name) && NulFreeText(b.name)
    ensures Clip(Obj([a, b])) == Obj([ClipValue(a), ClipValue(b)])
  {
    ClipObject([a, b]);
  }

  lemma KeptText(s: Bytes)
    requires NulFreeText(s)
    ensures Clip(Str(s)) == Str(s)
  {
    CStringFixed(s);
  }
}
