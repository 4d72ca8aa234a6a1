/**
  `orderKeys`: the order in which an object's keys are written. Keys named in
  the field order come first, by the position of their last occurrence there;
  the other keys follow in ascending string order. The comparator is a strict
  total order on distinct keys, so the sorted result does not depend on the
  order in which the map's keys were collected.
*/
module KeyOrder {
  import opened GoStrings

  /**
    The position map built from the field order: each listed name is mapped
    to the index of its last occurrence, since a later entry overwrites an
    earlier one.
  */
  function Positions(fieldOrder: seq<string>): (pos: map<string, nat>)
    ensures forall f :: f in pos <==> f in fieldOrder
    ensures forall f :: f in pos ==> pos[f] < |fieldOrder| && fieldOrder[pos[f]] == f
  {
    if |fieldOrder| == 0 then map[]
    else
      var n := |fieldOrder| - 1;
      Positions(fieldOrder[..n])[fieldOrder[n] := n]
  }

  /** The position recorded for a listed name is its last occurrence. */
  lemma {:induction false} PositionsLast(fieldOrder: seq<string>, f: string)
    requires f in fieldOrder
    ensures f !in fieldOrder[Positions(fieldOrder)[f] + 1..]
  {
    var n := |fieldOrder| - 1;
    var init := fieldOrder[..n];
    assert Positions(fieldOrder) == Positions(init)[fieldOrder[n] := n];
    if fieldOrder[n] != f {
      assert f in init by {
        assert fieldOrder == init + [fieldOrder[n]];
      }
      PositionsLast(init, f);
      var p := Positions(init)[f];
      assert Positions(fieldOrder)[f] == p;
      assert fieldOrder[p + 1..] == init[p + 1..] + [fieldOrder[n]];
    }
  }

  /** No two names share a position. */
  predicate Injective(pos: map<string, nat>)
  {
    forall a, b :: a in pos && b in pos && pos[a] == pos[b] ==> a == b
  }

  /** The position map of a field order never gives two names the same position. */
  lemma PositionsInjective(fieldOrder: seq<string>)
    ensures Injective(Positions(fieldOrder))
  {
    var pos := Positions(fieldOrder);
    forall a, b | a in pos && b in pos && pos[a] == pos[b] ensures a == b {
      assert a == fieldOrder[pos[a]];
    }
  }

  /** The comparator: must `a` be written before `b`? */
  predicate Before(pos: map<string, nat>, a: string, b: string)
  {
    if a in pos && b in pos then pos[a] < pos[b]
    else if a in pos then true
    else if b in pos then false
    else Less(a, b)
  }

  lemma BeforeIrreflexive(pos: map<string, nat>, a: string)
    ensures !Before(pos, a, a)
  {
    LessIrreflexive(a);
  }

  lemma BeforeAsymmetric(pos: map<string, nat>, a: string, b: string)
    requires Before(pos, a, b)
    ensures !Before(pos, b, a)
  {
    if a !in pos && b !in pos {
      LessAsymmetric(a, b);
    }
  }

  lemma BeforeTransitive(pos: map<string, nat>, a: string, b: string, c: string)
    requires Before(pos, a, b) && Before(pos, b, c)
    ensures Before(pos, a, c)
  {
    if a !in pos && b !in pos && c !in pos {
      LessTransitive(a, b, c);
    }
  }

  /** Two distinct keys are always ordered one way or the other. */
  lemma BeforeConnected(pos: map<string, nat>, a: string, b: string)
    requires Injective(pos)
    requires a != b
    ensures Before(pos, a, b) || Before(pos, b, a)
  {
    if a !in pos && b !in pos {
      LessConnected(a, b);
    }
  }

  /** Every key comes before every later one. */
  predicate Sorted(keys: seq<string>, pos: map<string, nat>)
  {
    forall i, j :: 0 <= i < j < |keys| ==> Before(pos, keys[i], keys[j])
  }

  predicate Distinct(keys: seq<string>)
  {
    forall i, j :: 0 <= i < j < |keys| ==> keys[i] != keys[j]
  }

  /** The first of a sorted sequence comes before everything else in it. */
  lemma SortedFirst(keys: seq<string>, pos: map<string, nat>, k: string)
    requires Sorted(keys, pos) && |keys| > 0
    requires k in keys[1..]
    ensures Before(pos, keys[0], k)
  {
    var j :| 0 <= j < |keys[1..]| && keys[1..][j] == k;
    assert keys[j + 1] == k;
  }

  /** Two sorted arrangements of the same keys start with the same key. */
  lemma SortedHeads(a: seq<string>, b: seq<string>, pos: map<string, nat>)
    requires Sorted(a, pos) && Sorted(b, pos)
    requires multiset(a) == multiset(b) && |a| > 0
    ensures |b| > 0 && a[0] == b[0]
  {
    assert a[0] in multiset(b);
    assert a == [a[0]] + a[1..] && b == [b[0]] + b[1..];
    if a[0] != b[0] {
      assert a[0] in b[1..] by {
        assert a[0] in multiset([b[0]] + b[1..]);
      }
      assert b[0] in a[1..] by {
        assert b[0] in multiset(b);
        assert b[0] in multiset([a[0]] + a[1..]);
      }
      SortedFirst(a, pos, b[0]);
      SortedFirst(b, pos, a[0]);
      BeforeAsymmetric(pos, a[0], b[0]);
    }
  }

  /** Removing the same first element leaves the same multiset. */
  lemma MultisetTail(a: seq<string>, b: seq<string>)
    requires multiset(a) == multiset(b) && |a| > 0 && |b| > 0 && a[0] == b[0]
    ensures multiset(a[1..]) == multiset(b[1..])
  {
    assert a == [a[0]] + a[1..];
    assert b == [b[0]] + b[1..];
    assert multiset(a) == multiset{a[0]} + multiset(a[1..]);
    assert multiset(b) == multiset{a[0]} + multiset(b[1..]);
    assert multiset(a[1..]) == multiset(a) - multiset{a[0]};
    assert multiset(b[1..]) == multiset(b) - multiset{a[0]};
  }

  /**
    Sorting is deterministic: two sorted arrangements of the same keys are
    the same sequence.
  */
  lemma {:induction false} SortedUnique(a: seq<string>, b: seq<string>, pos: map<string, nat>)
    requires Sorted(a, pos) && Sorted(b, pos)
    requires multiset(a) == multiset(b)
    ensures a == b
  {
    if |a| == 0 {
      assert |b| == |multiset(b)| == 0;
    } else {
      SortedHeads(a, b, pos);
      MultisetTail(a, b);
      assert Sorted(a[1..], pos) && Sorted(b[1..], pos);
      SortedUnique(a[1..], b[1..], pos);
      assert a == [a[0]] + a[1..] && b == [b[0]] + b[1..];
    }
  }

  /** A sequence without repetitions holds each element at most once. */
  lemma {:induction false} DistinctCount(s: seq<string>, x: string)
    requires Distinct(s)
    ensures multiset(s)[x] <= 1
  {
    if |s| > 0 {
      assert s == [s[0]] + s[1..];
      assert Distinct(s[1..]);
      DistinctCount(s[1..], x);
      if s[0] == x {
        assert x !in s[1..];
      }
    }
  }

  /** An element at two positions is counted at least twice. */
  lemma RepeatCount(s: seq<string>, i: nat, j: nat)
    requires i < j < |s| && s[i] == s[j]
    ensures multiset(s)[s[i]] >= 2
  {
    assert s == s[..i] + [s[i]] + s[i + 1..j] + [s[j]] + s[j + 1..];
  }

  /** A rearrangement of a sequence without repetitions has none either. */
  lemma DistinctPermutation(s: seq<string>, t: seq<string>)
    requires Distinct(s) && multiset(s) == multiset(t)
    ensures Distinct(t)
  {
    forall i, j | 0 <= i < j < |t| ensures t[i] != t[j] {
      if t[i] == t[j] {
        RepeatCount(t, i, j);
        DistinctCount(s, t[i]);
      }
    }
  }

  /**
    Sorts the keys in place by the comparator: insertion sort by adjacent
    swaps. The keys of a map are distinct, which is what makes the
    comparator total on them.
  */
  method SortKeys(a: array<string>, pos: map<string, nat>)
    requires Injective(pos)
    requires Distinct(a[..])
    modifies a
    ensures Sorted(a[..], pos)
    ensures multiset(a[..]) == multiset(old(a[..]))
  {
    for i := 0 to a.Length
      invariant forall p, q :: 0 <= p < q < i ==> Before(pos, a[p], a[q])
      invariant multiset(a[..]) == multiset(old(a[..]))
    {
      DistinctPermutation(old(a[..]), a[..]);
      Insert(a, i, pos);
    }
  }

  /** Moves `a[i]` down into the sorted prefix `a[..i]`. */
  method Insert(a: array<string>, i: nat, pos: map<string, nat>)
    requires i < a.Length
    requires Injective(pos)
    requires Distinct(a[..])
    requires forall p, q :: 0 <= p < q < i ==> Before(pos, a[p], a[q])
    modifies a
    ensures forall p, q :: 0 <= p < q <= i ==> Before(pos, a[p], a[q])
    ensures multiset(a[..]) == multiset(old(a[..]))
  {
    var j := i;
    while j > 0 && Before(pos, a[j], a[j - 1])
      invariant 0 <= j <= i
      invariant forall p, q :: 0 <= p < q <= i && p != j && q != j ==> Before(pos, a[p], a[q])
      invariant forall q :: j < q <= i ==> Before(pos, a[j], a[q])
      invariant multiset(a[..]) == multiset(old(a[..]))
    {
      a[j - 1], a[j] := a[j], a[j - 1];
      j := j - 1;
    }
    if j > 0 {
      DistinctPermutation(old(a[..]), a[..]);
      assert a[j - 1] != a[j] by {
        assert a[..][j - 1] == a[j - 1] && a[..][j] == a[j];
      }
      BeforeConnected(pos, a[j - 1], a[j]);
      forall p | 0 <= p < j ensures Before(pos, a[p], a[j]) {
        if p < j - 1 {
          BeforeTransitive(pos, a[p], a[j - 1], a[j]);
        }
      }
    }
  }

  /** `k` is in `ks` and comes before every other key of `ks`. */
  predicate IsLeast(k: string, ks: set<string>, pos: map<string, nat>)
  {
    k in ks && forall other :: other in ks && other != k ==> Before(pos, k, other)
  }

  /** A non-empty finite set of keys has a least key under the comparator. */
  lemma {:induction false} LeastExists(ks: set<string>, pos: map<string, nat>)
    requires Injective(pos) && ks != {}
    ensures exists k :: IsLeast(k, ks, pos)
    decreases |ks|
  {
    var x :| x in ks;
    var rest := ks - {x};
    if rest == {} {
      assert ks == {x};
      assert IsLeast(x, {x}, pos);
    } else {
      LeastExists(rest, pos);
      var y :| IsLeast(y, rest, pos);
      BeforeConnected(pos, x, y);
      if Before(pos, x, y) {
        forall other | other in ks && other != x ensures Before(pos, x, other) {
          if other != y {
            BeforeTransitive(pos, x, y, other);
          }
        }
        assert IsLeast(x, ks, pos);
      } else {
        assert IsLeast(y, ks, pos);
      }
    }
  }

  /** Reference arrangement of a set of keys: least key first, then the rest arranged alike. */
  ghost function SortedSet(ks: set<string>, pos: map<string, nat>): seq<string>
    requires Injective(pos)
    decreases |ks|
  {
    if ks == {} then []
    else
      LeastExists(ks, pos);
      var k :| IsLeast(k, ks, pos);
      [k] + SortedSet(ks - {k}, pos)
  }

  /** The reference arrangement holds each key of the set once, sorted by the comparator. */
  lemma {:induction false} SortedSetFacts(ks: set<string>, pos: map<string, nat>)
    requires Injective(pos)
    ensures multiset(SortedSet(ks, pos)) == multiset(ks)
    ensures Sorted(SortedSet(ks, pos), pos)
    decreases |ks|
  {
    if ks != {} {
      LeastExists(ks, pos);
      var r := SortedSet(ks, pos);
      var k := r[0];
      assert IsLeast(k, ks, pos) && r[1..] == SortedSet(ks - {k}, pos);
      SortedSetFacts(ks - {k}, pos);
      ConsLeast(k, ks, r[1..], pos);
      assert r == [k] + r[1..];
    }
  }

  /** The least key followed by an arrangement of the others is an arrangement of all. */
  lemma ConsLeast(k: string, ks: set<string>, rest: seq<string>, pos: map<string, nat>)
    requires IsLeast(k, ks, pos)
    requires multiset(rest) == multiset(ks - {k}) && Sorted(rest, pos)
    ensures multiset([k] + rest) == multiset(ks)
    ensures Sorted([k] + rest, pos)
  {
    assert multiset(ks) == multiset(ks - {k}) + multiset{k};
    var r := [k] + rest;
    forall i, j | 0 <= i < j < |r| ensures Before(pos, r[i], r[j]) {
      assert r[j] == rest[j - 1];
      assert rest[j - 1] in multiset(ks - {k});
      if i > 0 {
        assert r[i] == rest[i - 1];
      }
    }
  }

  /** The key order `orderKeys` must produce for the key set `ks`. */
  ghost function OrderedKeys(ks: set<string>, fieldOrder: seq<string>): seq<string>
  {
    PositionsInjective(fieldOrder);
    SortedSet(ks, Positions(fieldOrder))
  }

  /** The required key order holds each key of the set exactly once, and nothing else. */
  lemma OrderedKeysCount(ks: set<string>, fieldOrder: seq<string>)
    ensures multiset(OrderedKeys(ks, fieldOrder)) == multiset(ks)
  {
    PositionsInjective(fieldOrder);
    SortedSetFacts(ks, Positions(fieldOrder));
  }

  /** The keys in the required key order are exactly the keys of the set. */
  lemma OrderedKeysMembers(ks: set<string>, fieldOrder: seq<string>)
    ensures forall k :: k in OrderedKeys(ks, fieldOrder) <==> k in ks
  {
    var keys := OrderedKeys(ks, fieldOrder);
    OrderedKeysCount(ks, fieldOrder);
    assert forall k :: k in keys <==> k in multiset(keys);
  }

  /**
    In the required key order every listed key comes before every unlisted
    one, listed keys by their last position in the field order and unlisted
    keys ascending.
  */
  lemma OrderedKeysOrder(ks: set<string>, fieldOrder: seq<string>)
    ensures var keys := OrderedKeys(ks, fieldOrder);
      Sorted(keys, Positions(fieldOrder)) &&
      ListedFirst(keys, fieldOrder) && ListedByPosition(keys, fieldOrder) && UnlistedAscending(keys, fieldOrder)
  {
    PositionsInjective(fieldOrder);
    SortedSetFacts(ks, Positions(fieldOrder));
    SortedOrderFacts(OrderedKeys(ks, fieldOrder), fieldOrder);
  }

  /**
    `orderKeys(m, fieldOrder)`: the keys of `m`, each exactly once, listed
    keys first by their last position in `fieldOrder`, the rest ascending.
  */
  method OrderKeys<V>(m: map<string, V>, fieldOrder: seq<string>) returns (keys: seq<string>)
    ensures keys == OrderedKeys(m.Keys, fieldOrder)
  {
    var orderMap: map<string, nat> := map[];
    for i := 0 to |fieldOrder|
      invariant orderMap == Positions(fieldOrder[..i])
    {
      assert fieldOrder[..i + 1][..i] == fieldOrder[..i];
      orderMap := orderMap[fieldOrder[i] := i];
    }
    assert fieldOrder[..|fieldOrder|] == fieldOrder;
    PositionsInjective(fieldOrder);

    var collected := CollectKeys(m);
    var a := new string[|collected|](k requires 0 <= k < |collected| => collected[k]);
    assert a[..] == collected;
    SortKeys(a, orderMap);
    keys := a[..];
    OrderedKeysCount(m.Keys, fieldOrder);
    OrderedKeysOrder(m.Keys, fieldOrder);
    SortedUnique(keys, OrderedKeys(m.Keys, fieldOrder), orderMap);
  }

  /** Every key listed in the field order comes before every unlisted key. */
  predicate ListedFirst(keys: seq<string>, fieldOrder: seq<string>)
  {
    forall i, j :: 0 <= i < |keys| && 0 <= j < |keys| && keys[i] in fieldOrder && keys[j] !in fieldOrder ==> i < j
  }

  /** Listed keys are in the order of their last positions in the field order. */
  predicate ListedByPosition(keys: seq<string>, fieldOrder: seq<string>)
  {
    forall i, j :: 0 <= i < j < |keys| && keys[i] in fieldOrder && keys[j] in fieldOrder ==>
      Positions(fieldOrder)[keys[i]] < Positions(fieldOrder)[keys[j]]
  }

  /** Unlisted keys are in ascending string order. */
  predicate UnlistedAscending(keys: seq<string>, fieldOrder: seq<string>)
  {
    forall i, j :: 0 <= i < j < |keys| && keys[i] !in fieldOrder && keys[j] !in fieldOrder ==>
      Less(keys[i], keys[j])
  }

  /** What sortedness by the comparator means for listed and unlisted keys. */
  lemma SortedOrderFacts(keys: seq<string>, fieldOrder: seq<string>)
    requires Sorted(keys, Positions(fieldOrder))
    ensures ListedFirst(keys, fieldOrder)
    ensures ListedByPosition(keys, fieldOrder)
    ensures UnlistedAscending(keys, fieldOrder)
  {
  }

  /** The key collection loop: every key of `m` once, in some order of the map's choosing. */
  method CollectKeys<V>(m: map<string, V>) returns (keys: seq<string>)
    ensures multiset(keys) == multiset(m.Keys)
    ensures Distinct(keys)
  {
    keys := [];
    var rest := m.Keys;
    while rest != {}
      invariant multiset(keys) + multiset(rest) == multiset(m.Keys)
      invariant Distinct(keys)
      invariant forall i :: 0 <= i < |keys| ==> keys[i] !in rest
      decreases |rest|
    {
      var k :| k in rest;
      assert multiset(rest) == multiset(rest - {k}) + multiset{k};
      keys := keys + [k];
      rest := rest - {k};
    }
  }
}
