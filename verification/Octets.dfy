/**
 Byte strings, and the two result types the whole model shares.

 A C++ `std::string` is a sequence of bytes. A byte is written here as a
 character below 256, so that message keys can be given as string literals.
 */
module Octets {

  type Byte = c: char | c as int < 256

  type Bytes = seq<Byte>

  datatype Option<+T> = None | Some(value: T)

  /** Why an operation did not return: an exception of the source, or a read the
      language leaves undefined (`OutOfBounds`). */
  datatype Failure =
    | BadVersion
    | MissingText
    | TextAlreadySet
    | RangeTooLong
    | BinaryMessage
    | BadJson
    | UnknownFormat
    | NoMessageType
    | BadField
    | BroadcastWithRecipients
    | UnknownHandler
    | ObsoleteMessage
    | NullAgent
    | OutOfBounds
    | BadCast
    | EmptyRegistry
    | ServerUnresolved
    | UnknownProtocol

  datatype Result<+T> = Ok(value: T) | Raised(why: Failure) {
    predicate IsFailure() {
      Raised?
    }

    function PropagateFailure<U>(): Result<U>
      requires Raised?
    {
      Raised(why)
    }

    function Extract(): T
      requires Ok?
    {
      value
    }
  }

  function ByteOf(n: nat): (b: Byte)
    requires n < 256
    ensures b as int == n
  {
    n as char
  }

  /** All the elements of a list of byte strings, one after another. */
  function Join(parts: seq<Bytes>): Bytes {
    if parts == [] then [] else parts[0] + Join(parts[1..])
  }

  function Lengths(parts: seq<Bytes>): seq<nat> {
    if parts == [] then [] else [|parts[0]|] + Lengths(parts[1..])
  }

  function Sum(ns: seq<nat>): nat {
    if ns == [] then 0 else ns[0] + Sum(ns[1..])
  }

  /** Consecutive pieces of `text` with the given lengths, from its start. */
  function Cut(text: Bytes, lengths: seq<nat>): (parts: seq<Bytes>)
    requires Sum(lengths) <= |text|
    ensures |parts| == |lengths|
  {
    if lengths == [] then []
    else [text[..lengths[0]]] + Cut(text[lengths[0]..], lengths[1..])
  }

  lemma {:induction false} LengthsOfJoin(parts: seq<Bytes>)
    ensures |Lengths(parts)| == |parts|
    ensures Sum(Lengths(parts)) == |Join(parts)|
  {
    if parts == [] {
    } else {
      LengthsOfJoin(parts[1..]);
      assert Lengths(parts)[1..] == Lengths(parts[1..]);
    }
  }

  /** Cutting a joined text at the lengths of its parts gives the parts back, whatever follows. */
  lemma {:induction false} CutJoin(parts: seq<Bytes>, tail: Bytes)
    ensures Sum(Lengths(parts)) <= |Join(parts) + tail|
    ensures Cut(Join(parts) + tail, Lengths(parts)) == parts
  {
    LengthsOfJoin(parts);
    if parts == [] {
    } else {
      CutJoin(parts[1..], tail);
      assert Lengths(parts)[1..] == Lengths(parts[1..]);
      assert (Join(parts) + tail)[..|parts[0]|] == parts[0];
      assert (Join(parts) + tail)[|parts[0]|..] == Join(parts[1..]) + tail;
    }
  }

  /** The pieces cut from a text, joined again, are the part of the text they cover. */
  lemma {:induction false} JoinCut(text: Bytes, lengths: seq<nat>)
    requires Sum(lengths) <= |text|
    ensures Join(Cut(text, lengths)) == text[..Sum(lengths)]
  {
    if lengths == [] {
    } else {
      var n := lengths[0];
      JoinCut(text[n..], lengths[1..]);
      assert Cut(text, lengths)[1..] == Cut(text[n..], lengths[1..]);
      assert text[..n] + text[n..][..Sum(lengths[1..])] == text[..Sum(lengths)];
    }
  }

  lemma JoinOne(part: Bytes)
    ensures Join([part]) == part && Lengths([part]) == [|part|]
  {
    assert Join([part][1..]) == [] && Lengths([part][1..]) == [];
    assert part + [] == part;
  }

  lemma Assoc<T>(a: seq<T>, b: seq<T>, c: seq<T>)
    ensures (a + b) + c == a + (b + c)
  {
  }

  lemma {:induction false} JoinAppend(a: seq<Bytes>, b: seq<Bytes>)
    ensures Join(a + b) == Join(a) + Join(b)
  {
    if a == [] {
      assert a + b == b;
    } else {
      JoinAppend(a[1..], b);
      assert (a + b)[1..] == a[1..] + b;
      Assoc(a[0], Join(a[1..]), Join(b));
    }
  }

  lemma {:induction false} LengthsAppend(a: seq<Bytes>, b: seq<Bytes>)
    ensures Lengths(a + b) == Lengths(a) + Lengths(b)
  {
    if a == [] {
      assert a + b == b;
    } else {
      LengthsAppend(a[1..], b);
      assert (a + b)[1..] == a[1..] + b;
      Assoc([|a[0]|], Lengths(a[1..]), Lengths(b));
    }
  }
}
