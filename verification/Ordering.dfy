/** The order in which an ordered map is walked: its keys, ascending. */
module Ordering {
  import opened Octets

  ghost predicate StrictTotal<T(!new)>(lt: (T, T) -> bool) {
    && (forall a :: !lt(a, a))
    && (forall a, b, c :: lt(a, b) && lt(b, c) ==> lt(a, c))
    && (forall a, b :: a == b || lt(a, b) || lt(b, a))
  }

  ghost predicate Ascending<T>(s: seq<T>, lt: (T, T) -> bool) {
    forall i, j :: 0 <= i < j < |s| ==> lt(s[i], s[j])
  }

  /** `order` walks exactly the keys in `keys`, each once, in ascending order. */
  ghost predicate Walks<T(!new)>(order: seq<T>, keys: set<T>, lt: (T, T) -> bool) {
    Ascending(order, lt) && (forall k :: k in order <==> k in keys)
  }

  /** There is only one such walk. */
  lemma {:induction false} WalkUnique<T(!new)>(a: seq<T>, b: seq<T>, keys: set<T>, lt: (T, T) -> bool)
    requires StrictTotal(lt) && Walks(a, keys, lt) && Walks(b, keys, lt)
    ensures a == b
    decreases |a|
  {
    assert a == [] || a[0] in a;
    assert b == [] || b[0] in b;
    if a != [] {
      WalkHead(a, keys, lt);
      WalkHead(b, keys, lt);
      assert a[0] == b[0];
      WalkTail(a, keys, lt);
      WalkTail(b, keys, lt);
      WalkUnique(a[1..], b[1..], keys - {a[0]}, lt);
      assert a == [a[0]] + a[1..] && b == [b[0]] + b[1..];
    }
  }

  lemma WalkTail<T(!new)>(a: seq<T>, keys: set<T>, lt: (T, T) -> bool)
    requires StrictTotal(lt) && Walks(a, keys, lt) && a != []
    ensures Walks(a[1..], keys - {a[0]}, lt)
  {
    forall k ensures k in a[1..] <==> k in keys - {a[0]} {
      if k in a[1..] {
        var i :| 0 <= i < |a| - 1 && a[1..][i] == k;
        assert lt(a[0], a[i + 1]);
        assert k in a;
      }
      if k in keys - {a[0]} {
        assert k in a;
        var i :| 0 <= i < |a| && a[i] == k;
        assert a[1..][i - 1] == k;
      }
    }
  }

  /** The first key of a walk is the least one. */
  lemma WalkHead<T(!new)>(a: seq<T>, keys: set<T>, lt: (T, T) -> bool)
    requires StrictTotal(lt) && Walks(a, keys, lt) && a != []
    ensures a[0] in keys && forall k :: k in keys && k != a[0] ==> lt(a[0], k)
  {
    forall k | k in keys && k != a[0] ensures lt(a[0], k) {
      assert k in a;
      var i :| 0 <= i < |a| && a[i] == k;
    }
    assert a[0] in a;
  }

  lemma {:induction false} WalkLength<T(!new)>(a: seq<T>, keys: set<T>, lt: (T, T) -> bool)
    requires StrictTotal(lt) && Walks(a, keys, lt)
    ensures |a| == |keys|
    decreases |a|
  {
    if a == [] {
      assert keys == {};
    } else {
      assert a[0] in a;
      WalkTail(a, keys, lt);
      WalkLength(a[1..], keys - {a[0]}, lt);
    }
  }

  lemma {:induction false} LeastExists<T(!new)>(keys: set<T>, lt: (T, T) -> bool)
    requires StrictTotal(lt) && keys != {}
    ensures exists m :: m in keys && forall k :: k in keys && k != m ==> lt(m, k)
    decreases |keys|
  {
    var x :| x in keys;
    var rest := keys - {x};
    if rest == {} {
      assert keys == {x};
    } else {
      LeastExists(rest, lt);
      var m :| m in rest && forall k :: k in rest && k != m ==> lt(m, k);
      var least := if lt(m, x) then m else x;
      forall k | k in keys && k != least ensures lt(least, k) {
        if k != x { assert k in rest; }
      }
    }
  }

  /** The keys of an ordered map in the order it is walked. */
  method WalkOf<T(!new, ==)>(keys: set<T>, lt: (T, T) -> bool) returns (order: seq<T>)
    requires StrictTotal(lt)
    ensures Walks(order, keys, lt)
  {
    order := [];
    var rest := keys;
    while rest != {}
      invariant rest <= keys
      invariant Walks(order, keys - rest, lt)
      invariant forall a, b :: a in order && b in rest ==> lt(a, b)
      decreases |rest|
    {
      LeastExists(rest, lt);
      var m :| m in rest && forall k :: k in rest && k != m ==> lt(m, k);
      var next := order + [m];
      forall i, j | 0 <= i < j < |next| ensures lt(next[i], next[j]) {
        if j == |order| { assert next[i] in order; }
      }
      rest := rest - {m};
      order := next;
    }
  }

  // ---------- byte strings ----------

  /** Byte-wise lexicographic order, as of `std::string`. */
  predicate LexLess(a: Bytes, b: Bytes)
    decreases |a|
  {
    if b == [] then false
    else if a == [] then true
    else if a[0] == b[0] then LexLess(a[1..], b[1..])
    else a[0] < b[0]
  }

  lemma PrefixFirst(a: Bytes, b: Bytes, k: nat)
    requires k <= |a| && k <= |b| && a[..k] == b[..k]
    ensures k > 0 ==> a[0] == b[0]
  {
    if k > 0 { assert a[..k][0] == a[0] && b[..k][0] == b[0]; }
  }

  /** One string is less than another when it is a proper prefix of it, or has the lesser byte where
      they first differ. */
  lemma {:induction false} LexMeans(a: Bytes, b: Bytes)
    ensures LexLess(a, b) <==>
      exists k :: 0 <= k < |b| && k <= |a| && a[..k] == b[..k] && (k == |a| || a[k] as int < b[k] as int)
    decreases |a|
  {
    if b != [] && a != [] && a[0] == b[0] {
      LexMeans(a[1..], b[1..]);
      if LexLess(a, b) {
        var k :| 0 <= k < |b[1..]| && k <= |a[1..]| && a[1..][..k] == b[1..][..k]
          && (k == |a[1..]| || a[1..][k] as int < b[1..][k] as int);
        assert a[..k + 1] == [a[0]] + a[1..][..k] && b[..k + 1] == [b[0]] + b[1..][..k];
      }
      if k :| 0 <= k < |b| && k <= |a| && a[..k] == b[..k] && (k == |a| || a[k] as int < b[k] as int) {
        assert k > 0;
        assert a[1..][..k - 1] == a[..k][1..] && b[1..][..k - 1] == b[..k][1..];
      }
    } else if b != [] {
      assert a[..0] == b[..0];
      if k :| 0 <= k < |b| && k <= |a| && a[..k] == b[..k] && (k == |a| || a[k] as int < b[k] as int) {
        PrefixFirst(a, b, k);
      }
    }
  }

  lemma {:induction false} LexIrreflexive(a: Bytes)
    ensures !LexLess(a, a)
  {
    if a != [] { LexIrreflexive(a[1..]); }
  }

  lemma {:induction false} LexTransitive(a: Bytes, b: Bytes, c: Bytes)
    requires LexLess(a, b) && LexLess(b, c)
    ensures LexLess(a, c)
    decreases |a|
  {
    if a != [] && a[0] == b[0] && b[0] == c[0] { LexTransitive(a[1..], b[1..], c[1..]); }
  }

  lemma {:induction false} LexConnected(a: Bytes, b: Bytes)
    ensures a == b || LexLess(a, b) || LexLess(b, a)
    decreases |a|
  {
    if a != [] && b != [] && a[0] == b[0] {
      LexConnected(a[1..], b[1..]);
      assert a == [a[0]] + a[1..] && b == [b[0]] + b[1..];
    }
  }

  lemma LexStrictTotal()
    ensures StrictTotal(LexLess)
  {
    forall a ensures !LexLess(a, a) { LexIrreflexive(a); }
    forall a, b, c | LexLess(a, b) && LexLess(b, c) ensures LexLess(a, c) { LexTransitive(a, b, c); }
    forall a, b ensures a == b || LexLess(a, b) || LexLess(b, a) { LexConnected(a, b); }
  }

  /** The ids of an ordered map in the order it is walked. */
  method WalkIds(ids: set<Bytes>) returns (order: seq<Bytes>)
    ensures Walks(order, ids, LexLess)
  {
    LexStrictTotal();
    order := WalkOf(ids, LexLess);
  }
}
