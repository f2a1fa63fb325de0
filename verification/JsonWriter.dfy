/** The single-line writer: a document buffer that a recursive walk appends to. */
module JsonWriter {
  import opened Octets
  import opened JsonText
  import JsonReader

  class SingleLineWriter {
    var document: Bytes
    const appendNewline: bool
    const yaml: bool

    constructor (appendNewline: bool, yaml: bool)
      ensures this.appendNewline == appendNewline && this.yaml == yaml && document == []
    {
      this.appendNewline := appendNewline;
      this.yaml := yaml;
      document := [];
    }

    /** What was in the buffer before is dropped; reading the text gives the tree back. */
    method Write(root: Json) returns (text: Bytes)
      modifies this
      ensures text == document == Print(root, yaml) + (if appendNewline then "\n" else "")
      ensures Valid(root) ==> JsonReader.ReadText(text) == Some(Clip(root))
    {
      document := [];
      WriteValue(root);
      if appendNewline {
        document := document + "\n";
      }
      text := document;
      if Valid(root) {
        JsonReader.ParsePrint(root, yaml, if appendNewline then "\n" else "");
      }
    }

    method WriteValue(value: Json)
      modifies this
      ensures document == old(document) + Print(value, yaml)
      decreases value, 0
    {
      match value
      case Null => document := document + "null";
      case Int(n) => document := document + Decimal(n);
      case Real(lexeme) => document := document + lexeme;
      case Str(s) => document := document + Quote(s);
      case Bool(b) => document := document + (if b then "true" else "false");
      case Arr(items) =>
        document := document + "[";
        WriteItems(items);
        document := document + "]";
      case Obj(members) =>
        document := document + "{";
        WriteMembers(members);
        document := document + "}";
    }

    method WriteItems(items: seq<Json>)
      modifies this
      ensures document == old(document) + PrintItems(items, true, yaml)
      decreases items, 1
    {
      var index := 0;
      while index < |items|
        invariant 0 <= index <= |items|
        invariant document == old(document) + PrintItems(items[..index], true, yaml)
      {
        PrintItemsExtend(items[..index], items[index], true, yaml);
        assert items[..index + 1] == items[..index] + [items[index]];
        ghost var before, printed := old(document), PrintItems(items[..index], true, yaml);
        if index > 0 {
          document := document + ",";
        }
        assert document == before + printed + Comma(index == 0);
        WriteValue(items[index]);
        Assoc(before + printed, Comma(index == 0), Print(items[index], yaml));
        Assoc(before, printed, Comma(index == 0) + Print(items[index], yaml));
        index := index + 1;
      }
      assert items[..index] == items;
    }

    method WriteMembers(members: seq<Member>)
      modifies this
      ensures document == old(document) + PrintMembers(members, true, yaml)
      decreases members, 1
    {
      var index := 0;
      while index < |members|
        invariant 0 <= index <= |members|
        invariant document == old(document) + PrintMembers(members[..index], true, yaml)
      {
        PrintMembersExtend(members[..index], members[index], true, yaml);
        assert members[..index + 1] == members[..index] + [members[index]];
        ghost var before, printed := old(document), PrintMembers(members[..index], true, yaml);
        if index > 0 {
          document := document + ",";
        }
        assert document == before + printed + Comma(index == 0);
        WriteMember(members[index]);
        Assoc(before + printed, Comma(index == 0), PrintMember(members[index], yaml));
        Assoc(before, printed, Comma(index == 0) + PrintMember(members[index], yaml));
        index := index + 1;
      }
      assert members[..index] == members;
    }

    method WriteMember(m: Member)
      modifies this
      ensures document == old(document) + PrintMember(m, yaml)
      decreases m, 1
    {
      document := document + Quote(m.name);
      document := document + Colon(yaml);
      WriteValue(m.value);
      Assoc(old(document) + Quote(m.name), Colon(yaml), Print(m.value, yaml));
      Assoc(old(document), Quote(m.name), Colon(yaml) + Print(m.value, yaml));
    }
  }

  lemma {:induction false} PrintItemsExtend(items: seq<Json>, last: Json, first: bool, yaml: bool)
    ensures PrintItems(items + [last], first, yaml)
      == PrintItems(items, first, yaml) + (Comma(first && items == []) + Print(last, yaml))
  {
    if items == [] {
      assert [last][1..] == [];
    } else {
      var head := Comma(first) + Print(items[0], yaml);
      assert (items + [last])[1..] == items[1..] + [last];
      PrintItemsExtend(items[1..], last, false, yaml);
      Assoc(head, PrintItems(items[1..], false, yaml), Comma(false) + Print(last, yaml));
    }
  }

  lemma {:induction false} PrintMembersExtend(members: seq<Member>, last: Member, first: bool, yaml: bool)
    ensures PrintMembers(members + [last], first, yaml)
      == PrintMembers(members, first, yaml)
         + (Comma(first && members == []) + PrintMember(last, yaml))
  {
    if members == [] {
      assert [last][1..] == [];
    } else {
      var head := Comma(first) + PrintMember(members[0], yaml);
      assert (members + [last])[1..] == members[1..] + [last];
      PrintMembersExtend(members[1..], last, false, yaml);
      Assoc(head, PrintMembers(members[1..], false, yaml), Comma(false) + PrintMember(last, yaml));
    }
  }
}
