/**
 The multimap that remembers insertion order: pairs in one sequence, an equivalence on keys, and an
 insertion that places a pair behind the run of its key.
 */
module Multimap {

  import opened Common

  // ---------------------------------------------------------------- classes, runs and groups

  /** The pairs of one key class, in order. */
  function Class<K, V>(eq: (K, K) -> bool, d: seq<(K, V)>, key: K): seq<(K, V)> {
    if d == [] then [] else (if eq(d[0].0, key) then [d[0]] else []) + Class(eq, d[1..], key)
  }

  /** The pairs outside a key class, in order. */
  function Others<K, V>(eq: (K, K) -> bool, d: seq<(K, V)>, key: K): (r: seq<(K, V)>)
    ensures |r| <= |d|
  {
    if d == [] then [] else (if eq(d[0].0, key) then [] else [d[0]]) + Others(eq, d[1..], key)
  }

  /** A history grouped by key: classes by first appearance, each in order of insertion. */
  function Group<K(!new), V>(eq: (K, K) -> bool, h: seq<(K, V)>): seq<(K, V)>
    requires Equivalence(eq)
    decreases |h|
  {
    if h == [] then []
    else
      assert eq(h[0].0, h[0].0);
      Class(eq, h, h[0].0) + Group(eq, Others(eq, h[1..], h[0].0))
  }

  /** No key class is interrupted. */
  ghost predicate Contiguous<K, V>(eq: (K, K) -> bool, d: seq<(K, V)>) {
    forall i, j, k :: 0 <= i < j < k < |d| && eq(d[i].0, d[k].0) ==> eq(d[i].0, d[j].0)
  }

  /** Along each key class the stamps increase. */
  ghost predicate Ascending<K, V>(eq: (K, K) -> bool, stamp: V -> int, d: seq<(K, V)>) {
    forall i, j :: 0 <= i < j < |d| && eq(d[i].0, d[j].0) ==> stamp(d[i].1) < stamp(d[j].1)
  }

  // ---------------------------------------------------------------- what the operations do

  /** `find`: the index of the first pair with the key, or the length. */
  function First<K, V>(eq: (K, K) -> bool, d: seq<(K, V)>, key: K): (f: nat)
    ensures f <= |d| && (f < |d| ==> eq(d[f].0, key))
    ensures forall i :: 0 <= i < f ==> !eq(d[i].0, key)
  {
    if d == [] || eq(d[0].0, key) then 0 else 1 + First(eq, d[1..], key)
  }

  /** `advance_to_next_key`: the first index after `f` whose key differs from the one at `f`, or the length. */
  function Next<K, V>(eq: (K, K) -> bool, d: seq<(K, V)>, f: nat, i: nat): (p: nat)
    requires f < i <= |d|
    ensures i <= p <= |d| && (p < |d| ==> !eq(d[f].0, d[p].0))
    ensures forall j :: i <= j < p ==> eq(d[f].0, d[j].0)
    decreases |d| - i
  {
    if i < |d| && eq(d[f].0, d[i].0) then Next(eq, d, f, i + 1) else i
  }

  function Slot<K, V>(eq: (K, K) -> bool, d: seq<(K, V)>, key: K): (p: nat)
    ensures p <= |d|
  {
    var f := First(eq, d, key);
    if f < |d| then Next(eq, d, f, f + 1) else |d|
  }

  function Inserted<K, V>(eq: (K, K) -> bool, d: seq<(K, V)>, x: (K, V)): (r: seq<(K, V)>) {
    var p := Slot(eq, d, x.0);
    d[..p] + [x] + d[p..]
  }

  function InsertAll<K, V>(eq: (K, K) -> bool, d: seq<(K, V)>, h: seq<(K, V)>): seq<(K, V)> {
    if h == [] then d else Inserted(eq, InsertAll(eq, d, h[..|h| - 1]), h[|h| - 1])
  }

  // ---------------------------------------------------------------- an uninterrupted class is a run

  /** In a contiguous sequence the class of a key is exactly the run between `find` and the slot. */
  lemma {:induction false} SlotRun<K(!new), V>(eq: (K, K) -> bool, d: seq<(K, V)>, key: K)
    requires Equivalence(eq) && Contiguous(eq, d)
    ensures First(eq, d, key) <= Slot(eq, d, key)
    ensures First(eq, d, key) == Slot(eq, d, key) ==> Slot(eq, d, key) == |d|
    ensures forall i :: 0 <= i < |d| ==> (eq(d[i].0, key) <==> First(eq, d, key) <= i < Slot(eq, d, key))
    ensures forall i :: Slot(eq, d, key) <= i < |d| ==> !eq(key, d[i].0)
  {
    var f, p := First(eq, d, key), Slot(eq, d, key);
    forall i | 0 <= i < |d|
      ensures eq(d[i].0, key) <==> f <= i < p
    {
      if f < i < p {
        assert eq(d[f].0, d[i].0);
      } else if f < p <= i {
        var at, behind, here := d[f].0, d[p].0, d[i].0;
        assert eq(at, here) ==> eq(at, behind);
        assert eq(here, key) ==> eq(key, here);
      }
    }
  }

  lemma {:induction false} ClassConcat<K, V>(eq: (K, K) -> bool, d: seq<(K, V)>, e: seq<(K, V)>, key: K)
    ensures Class(eq, d + e, key) == Class(eq, d, key) + Class(eq, e, key)
  {
    if d == [] {
      assert d + e == e;
    } else {
      ClassConcat(eq, d[1..], e, key);
      assert (d + e)[0] == d[0] && (d + e)[1..] == d[1..] + e;
      Assoc(if eq(d[0].0, key) then [d[0]] else [], Class(eq, d[1..], key), Class(eq, e, key));
    }
  }

  lemma {:induction false} OthersConcat<K, V>(eq: (K, K) -> bool, d: seq<(K, V)>, e: seq<(K, V)>, key: K)
    ensures Others(eq, d + e, key) == Others(eq, d, key) + Others(eq, e, key)
  {
    if d == [] {
      assert d + e == e;
    } else {
      OthersConcat(eq, d[1..], e, key);
      assert (d + e)[0] == d[0] && (d + e)[1..] == d[1..] + e;
      Assoc(if eq(d[0].0, key) then [] else [d[0]], Others(eq, d[1..], key), Others(eq, e, key));
    }
  }

  lemma {:induction false} ClassAll<K, V>(eq: (K, K) -> bool, d: seq<(K, V)>, key: K)
    requires forall i :: 0 <= i < |d| ==> eq(d[i].0, key)
    ensures Class(eq, d, key) == d
  {
    if d != [] { ClassAll(eq, d[1..], key); }
  }

  lemma {:induction false} ClassNone<K, V>(eq: (K, K) -> bool, d: seq<(K, V)>, key: K)
    requires forall i :: 0 <= i < |d| ==> !eq(d[i].0, key)
    ensures Class(eq, d, key) == []
  {
    if d != [] { ClassNone(eq, d[1..], key); }
  }

  /** The run from `find` to the slot holds exactly the class. */
  lemma {:induction false} RunIsClass<K(!new), V>(eq: (K, K) -> bool, d: seq<(K, V)>, key: K)
    requires Equivalence(eq) && Contiguous(eq, d)
    ensures First(eq, d, key) <= Slot(eq, d, key)
    ensures d[First(eq, d, key)..Slot(eq, d, key)] == Class(eq, d, key)
  {
    SlotRun(eq, d, key);
    RunAt(eq, d, First(eq, d, key), Slot(eq, d, key), key);
  }

  lemma {:induction false} RunAt<K, V>(eq: (K, K) -> bool, d: seq<(K, V)>, f: nat, p: nat, key: K)
    requires f <= p <= |d| && forall i :: 0 <= i < |d| ==> (eq(d[i].0, key) <==> f <= i < p)
    ensures d[f..p] == Class(eq, d, key)
  {
    var a, b, c := d[..f], d[f..p], d[p..];
    ClassMiddle(eq, a, b, c, key);
    assert d == a + (b + c);
  }

  lemma {:induction false} ClassMiddle<K, V>(eq: (K, K) -> bool, a: seq<(K, V)>, b: seq<(K, V)>, c: seq<(K, V)>, key: K)
    requires forall i :: 0 <= i < |a| ==> !eq(a[i].0, key)
    requires forall i :: 0 <= i < |b| ==> eq(b[i].0, key)
    requires forall i :: 0 <= i < |c| ==> !eq(c[i].0, key)
    ensures Class(eq, a + (b + c), key) == b
  {
    ClassConcat(eq, a, b + c, key);
    ClassConcat(eq, b, c, key);
    ClassNone(eq, a, key);
    ClassAll(eq, b, key);
    ClassNone(eq, c, key);
  }

  // ---------------------------------------------------------------- inserting

  lemma {:induction false} ClassSplit<K, V>(eq: (K, K) -> bool, a: seq<(K, V)>, x: (K, V), b: seq<(K, V)>, key: K)
    requires eq(x.0, key) ==> Class(eq, b, key) == []
    ensures Class(eq, a + [x] + b, key) == Class(eq, a + b, key) + if eq(x.0, key) then [x] else []
  {
    ClassConcat(eq, a, b, key);
    ClassConcat(eq, a + [x], b, key);
    ClassConcat(eq, a, [x], key);
    assert [x][1..] == [];
  }

  /** An insertion appends to the class of its key and touches no other class. */
  lemma {:induction false} InsertedClass<K(!new), V>(eq: (K, K) -> bool, d: seq<(K, V)>, x: (K, V), key: K)
    requires Equivalence(eq) && Contiguous(eq, d)
    ensures Class(eq, Inserted(eq, d, x), key) == Class(eq, d, key) + if eq(x.0, key) then [x] else []
  {
    SlotRun(eq, d, x.0);
    var p := Slot(eq, d, x.0);
    var b := d[p..];
    assert d == d[..p] + b;
    if eq(x.0, key) {
      assert eq(key, x.0);
      forall i | 0 <= i < |b|
        ensures !eq(b[i].0, key)
      {
        assert b[i] == d[p + i] && !eq(d[p + i].0, x.0);
      }
      ClassNone(eq, b, key);
    }
    ClassSplit(eq, d[..p], x, b, key);
  }

  /** The pairs outside the key class of an insertion keep their order. */
  lemma {:induction false} InsertedOthers<K(!new), V>(eq: (K, K) -> bool, d: seq<(K, V)>, x: (K, V))
    requires Equivalence(eq)
    ensures Others(eq, Inserted(eq, d, x), x.0) == Others(eq, d, x.0)
  {
    var p := Slot(eq, d, x.0);
    assert d == d[..p] + d[p..];
    assert d[..p] + [x] + d[p..] == d[..p] + ([x] + d[p..]);
    OthersConcat(eq, d[..p], d[p..], x.0);
    OthersConcat(eq, d[..p], [x] + d[p..], x.0);
    OthersConcat(eq, [x], d[p..], x.0);
  }

  /** Where the pairs stand after an insertion. */
  lemma {:induction false} InsertedAt<K, V>(eq: (K, K) -> bool, d: seq<(K, V)>, x: (K, V), i: nat)
    requires i <= |d|
    ensures var r, p := Inserted(eq, d, x), Slot(eq, d, x.0);
            |r| == |d| + 1 && r[i] == if i < p then d[i] else if i == p then x else d[i - 1]
  {
  }

  /** Behind the slot no pair has the key. */
  lemma {:induction false} NoneBehind<K(!new), V>(eq: (K, K) -> bool, d: seq<(K, V)>, key: K, j: nat)
    requires Equivalence(eq) && Contiguous(eq, d) && Slot(eq, d, key) <= j < |d|
    ensures !eq(key, d[j].0)
  {
    SlotRun(eq, d, key);
  }

  /** Between a member of its class and the slot every pair has the key. */
  lemma {:induction false} AllBefore<K(!new), V>(eq: (K, K) -> bool, d: seq<(K, V)>, key: K, i: nat, j: nat)
    requires Equivalence(eq) && Contiguous(eq, d) && i < j < Slot(eq, d, key) && eq(d[i].0, key)
    ensures eq(d[i].0, d[j].0)
  {
    SlotRun(eq, d, key);
    var a, b := d[i].0, d[j].0;
    assert eq(b, key) && eq(key, b);
  }

  lemma {:induction false} ContiguousAt<K(!new), V>(
    eq: (K, K) -> bool, d: seq<(K, V)>, x: (K, V), r: seq<(K, V)>, i: nat, j: nat, k: nat)
    requires Equivalence(eq) && Contiguous(eq, d) && r == Inserted(eq, d, x) && i < j < k < |r| == |d| + 1
    requires eq(r[i].0, r[k].0)
    ensures eq(r[i].0, r[j].0)
  {
    var p: nat, k': nat := Slot(eq, d, x.0), k - 1;
    InsertedAt(eq, d, x, i);
    InsertedAt(eq, d, x, j);
    InsertedAt(eq, d, x, k);
    if k == p {
      AllBefore(eq, d, x.0, i, j);
    } else if i == p {
      NoneBehind(eq, d, x.0, k');
      assert false;
    } else if j == p {
      NoneAcross(eq, d, x.0, i, k');
      assert false;
    }
  }

  lemma {:induction false} InsertedContiguous<K(!new), V>(eq: (K, K) -> bool, d: seq<(K, V)>, x: (K, V))
    requires Equivalence(eq) && Contiguous(eq, d)
    ensures Contiguous(eq, Inserted(eq, d, x))
  {
    var r := Inserted(eq, d, x);
    InsertedAt(eq, d, x, 0);
    forall i, j, k | 0 <= i < j < k < |r| && eq(r[i].0, r[k].0)
      ensures eq(r[i].0, r[j].0)
    {
      ContiguousAt(eq, d, x, r, i, j, k);
    }
  }

  /** No class has members on both sides of a slot. */
  lemma {:induction false} NoneAcross<K(!new), V>(eq: (K, K) -> bool, d: seq<(K, V)>, key: K, i: nat, k: nat)
    requires Equivalence(eq) && Contiguous(eq, d) && i < Slot(eq, d, key) <= k < |d|
    ensures !eq(d[i].0, d[k].0)
  {
    SlotRun(eq, d, key);
    var p := Slot(eq, d, key);
    var a, b, c := d[i].0, d[p - 1].0, d[k].0;
    assert eq(b, key) && eq(a, a);
    assert eq(a, c) ==> eq(a, b);
    assert eq(a, c) ==> eq(c, a);
  }

  lemma {:induction false} AscendingAt<K(!new), V>(
    eq: (K, K) -> bool, stamp: V -> int, d: seq<(K, V)>, x: (K, V), r: seq<(K, V)>, i: nat, j: nat)
    requires Equivalence(eq) && Contiguous(eq, d) && Ascending(eq, stamp, d)
    requires forall i :: 0 <= i < |d| ==> stamp(d[i].1) < stamp(x.1)
    requires r == Inserted(eq, d, x) && i < j < |r| == |d| + 1 && eq(r[i].0, r[j].0)
    ensures stamp(r[i].1) < stamp(r[j].1)
  {
    var p: nat, j': nat := Slot(eq, d, x.0), j - 1;
    InsertedAt(eq, d, x, i);
    InsertedAt(eq, d, x, j);
    if i == p {
      NoneBehind(eq, d, x.0, j');
      assert false;
    }
  }

  lemma {:induction false} InsertedAscending<K(!new), V>(eq: (K, K) -> bool, stamp: V -> int, d: seq<(K, V)>, x: (K, V))
    requires Equivalence(eq) && Contiguous(eq, d) && Ascending(eq, stamp, d)
    requires forall i :: 0 <= i < |d| ==> stamp(d[i].1) < stamp(x.1)
    ensures Ascending(eq, stamp, Inserted(eq, d, x))
  {
    var r := Inserted(eq, d, x);
    InsertedAt(eq, d, x, 0);
    forall i, j | 0 <= i < j < |r| && eq(r[i].0, r[j].0)
      ensures stamp(r[i].1) < stamp(r[j].1)
    {
      AscendingAt(eq, stamp, d, x, r, i, j);
    }
  }

  // ---------------------------------------------------------------- insertions alone: a grouped history

  lemma {:induction false} FirstSkips<K, V>(eq: (K, K) -> bool, d: seq<(K, V)>, e: seq<(K, V)>, key: K)
    requires forall i :: 0 <= i < |d| ==> !eq(d[i].0, key)
    ensures First(eq, d + e, key) == |d| + First(eq, e, key)
  {
    if d == [] {
      assert d + e == e;
    } else {
      assert (d + e)[1..] == d[1..] + e;
      FirstSkips(eq, d[1..], e, key);
    }
  }

  lemma {:induction false} NextSkips<K, V>(eq: (K, K) -> bool, d: seq<(K, V)>, e: seq<(K, V)>, f: nat, i: nat)
    requires f < i <= |e|
    ensures Next(eq, d + e, |d| + f, |d| + i) == |d| + Next(eq, e, f, i)
    decreases |e| - i
  {
    if i < |e| { NextSkips(eq, d, e, f, i + 1); }
  }

  lemma {:induction false} SlotSkips<K, V>(eq: (K, K) -> bool, d: seq<(K, V)>, e: seq<(K, V)>, key: K)
    requires forall i :: 0 <= i < |d| ==> !eq(d[i].0, key)
    ensures Slot(eq, d + e, key) == |d| + Slot(eq, e, key)
  {
    FirstSkips(eq, d, e, key);
    var f := First(eq, e, key);
    if f < |e| { NextSkips(eq, d, e, f, f + 1); }
  }

  lemma {:induction false} SplitsShift<T>(d: seq<T>, e: seq<T>, x: T, p: nat)
    requires p <= |e|
    ensures (d + e)[..|d| + p] + [x] + (d + e)[|d| + p..] == d + (e[..p] + [x] + e[p..])
  {
    assert (d + e)[..|d| + p] == d + e[..p] && (d + e)[|d| + p..] == e[p..];
  }

  /** Pairs of other keys in front only shift the insertion. */
  lemma {:induction false} InsertedSkips<K, V>(eq: (K, K) -> bool, d: seq<(K, V)>, e: seq<(K, V)>, x: (K, V))
    requires forall i :: 0 <= i < |d| ==> !eq(d[i].0, x.0)
    ensures Inserted(eq, d + e, x) == d + Inserted(eq, e, x)
  {
    SlotSkips(eq, d, e, x.0);
    SplitsShift(d, e, x, Slot(eq, e, x.0));
  }

  /** A class in front that holds the key takes the pair at its end. */
  lemma {:induction false} InsertedBehind<K(!new), V>(eq: (K, K) -> bool, c: seq<(K, V)>, e: seq<(K, V)>, x: (K, V))
    requires Equivalence(eq) && c != [] && (forall i :: 0 <= i < |c| ==> eq(c[i].0, x.0))
    requires forall i :: 0 <= i < |e| ==> !eq(e[i].0, x.0)
    ensures Inserted(eq, c + e, x) == c + [x] + e
  {
    var d := c + e;
    assert First(eq, d, x.0) == 0;
    var p := Next(eq, d, 0, 1);
    assert d[0] == c[0];
    forall i | 0 <= i < |c|
      ensures eq(d[0].0, d[i].0)
    {
      assert d[i] == c[i] && eq(x.0, c[i].0);
    }
    if e != [] {
      assert d[|c|] == e[0];
      var front, behind := c[0].0, e[0].0;
      assert eq(front, behind) ==> eq(behind, front);
    }
    assert p == |c|;
    assert d[..p] == c && d[p..] == e;
  }

  /** Every pair of a class has a key in it, and none of the others has. */
  lemma {:induction false} ClassKeys<K, V>(eq: (K, K) -> bool, d: seq<(K, V)>, key: K)
    ensures forall i :: 0 <= i < |Class(eq, d, key)| ==> eq(Class(eq, d, key)[i].0, key)
    ensures forall i :: 0 <= i < |Others(eq, d, key)| ==> !eq(Others(eq, d, key)[i].0, key)
  {
    if d != [] { ClassKeys(eq, d[1..], key); }
  }

  /** Grouping keeps the keys outside a class outside it. */
  lemma {:induction false} GroupAvoids<K(!new), V>(eq: (K, K) -> bool, h: seq<(K, V)>, key: K)
    requires Equivalence(eq) && forall i :: 0 <= i < |h| ==> !eq(h[i].0, key)
    ensures forall i :: 0 <= i < |Group(eq, h)| ==> !eq(Group(eq, h)[i].0, key)
    decreases |h|
  {
    if h != [] {
      var k0 := h[0].0;
      ClassKeys(eq, h, k0);
      OthersFrom(eq, h[1..], k0);
      var rest := Others(eq, h[1..], k0);
      GroupAvoids(eq, rest, key);
      var c := Class(eq, h, k0);
      forall i | 0 <= i < |c|
        ensures !eq(c[i].0, key)
      {
        var a := c[i].0;
        assert eq(k0, a) && !eq(k0, key);
      }
    }
  }

  lemma {:induction false} OthersFrom<K, V>(eq: (K, K) -> bool, d: seq<(K, V)>, key: K)
    ensures forall i :: 0 <= i < |Others(eq, d, key)| ==> Others(eq, d, key)[i] in d
  {
    if d != [] { OthersFrom(eq, d[1..], key); }
  }

  lemma {:induction false} ClassSnoc<K, V>(eq: (K, K) -> bool, h: seq<(K, V)>, x: (K, V), key: K)
    ensures Class(eq, h + [x], key) == Class(eq, h, key) + if eq(x.0, key) then [x] else []
    ensures Others(eq, h + [x], key) == Others(eq, h, key) + if eq(x.0, key) then [] else [x]
  {
    ClassConcat(eq, h, [x], key);
    OthersConcat(eq, h, [x], key);
    assert [x][1..] == [];
  }

  /** A group taken apart at its first class. */
  lemma {:induction false} GroupParts<K(!new), V>(eq: (K, K) -> bool, h: seq<(K, V)>, key: K)
    requires Equivalence(eq) && h != [] && key == h[0].0
    ensures Class(eq, h, key) != []
    ensures Group(eq, h) == Class(eq, h, key) + Group(eq, Others(eq, h, key))
  {
    assert eq(key, key);
    assert Others(eq, h, key) == Others(eq, h[1..], key);
  }

  lemma {:induction false} GroupSnoc<K(!new), V>(eq: (K, K) -> bool, h: seq<(K, V)>, x: (K, V))
    requires Equivalence(eq)
    ensures Inserted(eq, Group(eq, h), x) == Group(eq, h + [x])
    decreases |h|
  {
    if h == [] {
      GroupParts(eq, [x], x.0);
      ClassSnoc(eq, [], x, x.0);
      assert eq(x.0, x.0);
      assert h + [x] == [x];
    } else {
      var k0 := h[0].0;
      var rest := Others(eq, h, k0);
      GroupOfSnoc(eq, h, x);
      GroupParts(eq, h, k0);
      ClassKeys(eq, h, k0);
      SnocCase(eq, Class(eq, h, k0), rest, k0, x);
      if !eq(x.0, k0) {
        OthersShrinks(eq, h);
        GroupSnoc(eq, rest, x);
      }
    }
  }

  lemma {:induction false} GroupOfSnoc<K(!new), V>(eq: (K, K) -> bool, h: seq<(K, V)>, x: (K, V))
    requires Equivalence(eq) && h != []
    ensures var k0 := h[0].0;
            var c, rest := Class(eq, h, k0), Others(eq, h, k0);
            Group(eq, h + [x]) == if eq(x.0, k0) then c + [x] + Group(eq, rest) else c + Group(eq, rest + [x])
  {
    var k0 := h[0].0;
    GroupParts(eq, h + [x], k0);
    ClassSnoc(eq, h, x, k0);
    assert Others(eq, h, k0) + [] == Others(eq, h, k0);
    assert Class(eq, h, k0) + [] == Class(eq, h, k0);
  }

  lemma {:induction false} OthersShrinks<K(!new), V>(eq: (K, K) -> bool, h: seq<(K, V)>)
    requires Equivalence(eq) && h != []
    ensures |Others(eq, h, h[0].0)| < |h|
  {
    assert eq(h[0].0, h[0].0);
  }

  lemma {:induction false} SnocCase<K(!new), V>(eq: (K, K) -> bool, c: seq<(K, V)>, rest: seq<(K, V)>, k0: K, x: (K, V))
    requires Equivalence(eq) && c != [] && (forall i :: 0 <= i < |c| ==> eq(c[i].0, k0))
    requires forall i :: 0 <= i < |rest| ==> !eq(rest[i].0, k0)
    ensures Inserted(eq, c + Group(eq, rest), x) ==
            if eq(x.0, k0) then c + [x] + Group(eq, rest) else c + Inserted(eq, Group(eq, rest), x)
  {
    if eq(x.0, k0) {
      assert eq(k0, x.0);
      forall i | 0 <= i < |rest|
        ensures !eq(rest[i].0, x.0)
      {
      }
      GroupAvoids(eq, rest, x.0);
      InsertedBehind(eq, c, Group(eq, rest), x);
    } else {
      forall i | 0 <= i < |c|
        ensures !eq(c[i].0, x.0)
      {
        var key := c[i].0;
        assert eq(key, x.0) ==> eq(x.0, key);
      }
      InsertedSkips(eq, c, Group(eq, rest), x);
    }
  }

  /** Filling an empty multimap groups the history. */
  lemma {:induction false} FillGroups<K(!new), V>(eq: (K, K) -> bool, h: seq<(K, V)>)
    requires Equivalence(eq)
    ensures InsertAll(eq, [], h) == Group(eq, h)
    decreases |h|
  {
    if h != [] {
      var n := |h| - 1;
      FillGroups(eq, h[..n]);
      GroupSnoc(eq, h[..n], h[n]);
      assert h[..n] + [h[n]] == h;
    }
  }

  // ---------------------------------------------------------------- whole runs

  datatype Op<K, V> = Insert(x: (K, V)) | Erase(from: nat, to: nat) | Clear

  /** One call; an erasure outside the sequence is not a call the container allows. */
  function Apply<K, V>(eq: (K, K) -> bool, d: seq<(K, V)>, op: Op<K, V>): seq<(K, V)>
    requires op.Erase? ==> op.from <= op.to <= |d|
  {
    match op
    case Insert(x) => Inserted(eq, d, x)
    case Erase(from, to) => d[..from] + d[to..]
    case Clear => []
  }

  /** The contents a sequence of calls can lead to, newest call last. */
  ghost predicate Reaches<K(!new), V(!new)>(eq: (K, K) -> bool, ops: seq<Op<K, V>>, d: seq<(K, V)>) {
    if ops == [] then d == []
    else
      var n := |ops| - 1;
      exists e: seq<(K, V)> :: Reaches(eq, ops[..n], e) && (ops[n].Erase? ==> ops[n].from <= ops[n].to <= |e|)
                               && d == Apply(eq, e, ops[n])
  }

  /** Each insertion of the run carries a later stamp than those before it. */
  ghost predicate Rising<K, V>(stamp: V -> int, ops: seq<Op<K, V>>) {
    forall i, j :: 0 <= i < j < |ops| && ops[i].Insert? && ops[j].Insert? ==> stamp(ops[i].x.1) < stamp(ops[j].x.1)
  }

  ghost predicate FromRun<K, V>(ops: seq<Op<K, V>>, d: seq<(K, V)>) {
    forall i :: 0 <= i < |d| ==> exists j :: 0 <= j < |ops| && ops[j] == Insert(d[i])
  }

  /** After any run each key class is one run of pairs, in the order of their insertion. */
  lemma {:induction false} RunKeeps<K(!new), V(!new)>(eq: (K, K) -> bool, stamp: V -> int, ops: seq<Op<K, V>>, d: seq<(K, V)>)
    requires Equivalence(eq) && Rising(stamp, ops) && Reaches(eq, ops, d)
    ensures Contiguous(eq, d) && Ascending(eq, stamp, d) && FromRun(ops, d)
    decreases |ops|
  {
    if ops != [] {
      var n := |ops| - 1;
      var op := ops[n];
      var e: seq<(K, V)> :| Reaches(eq, ops[..n], e) && (op.Erase? ==> op.from <= op.to <= |e|) && d == Apply(eq, e, op);
      RunKeeps(eq, stamp, ops[..n], e);
      StepFrom(eq, ops, e);
      match op
      case Insert(x) =>
        forall i | 0 <= i < |e|
          ensures stamp(e[i].1) < stamp(x.1)
        {
          var j :| 0 <= j < |ops[..n]| && ops[..n][j] == Insert(e[i]);
          assert ops[j].Insert? && ops[n].Insert?;
        }
        InsertedContiguous(eq, e, x);
        InsertedAscending(eq, stamp, e, x);
      case Erase(from, to) => ErasedKeeps(eq, stamp, e, from, to);
      case Clear =>
    }
  }

  lemma {:induction false} ErasedContiguous<K, V>(eq: (K, K) -> bool, d: seq<(K, V)>, from: nat, to: nat)
    requires from <= to <= |d| && Contiguous(eq, d)
    ensures Contiguous(eq, d[..from] + d[to..])
  {
    var r, w := d[..from] + d[to..], to - from;
    forall i, j, k | 0 <= i < j < k < |r| && eq(r[i].0, r[k].0)
      ensures eq(r[i].0, r[j].0)
    {
      var i', j', k' := if i < from then i else i + w, if j < from then j else j + w, if k < from then k else k + w;
      assert r[i] == d[i'] && r[j] == d[j'] && r[k] == d[k'];
    }
  }

  lemma {:induction false} ErasedKeeps<K, V>(eq: (K, K) -> bool, stamp: V -> int, d: seq<(K, V)>, from: nat, to: nat)
    requires from <= to <= |d| && Contiguous(eq, d) && Ascending(eq, stamp, d)
    ensures Contiguous(eq, d[..from] + d[to..]) && Ascending(eq, stamp, d[..from] + d[to..])
  {
    ErasedContiguous(eq, d, from, to);
    var r, w := d[..from] + d[to..], to - from;
    forall i, j | 0 <= i < j < |r| && eq(r[i].0, r[j].0)
      ensures stamp(r[i].1) < stamp(r[j].1)
    {
      var i', j' := if i < from then i else i + w, if j < from then j else j + w;
      assert r[i] == d[i'] && r[j] == d[j'];
    }
  }

  lemma {:induction false} StepFrom<K, V>(eq: (K, K) -> bool, ops: seq<Op<K, V>>, e: seq<(K, V)>)
    requires ops != [] && FromRun(ops[..|ops| - 1], e)
    requires var op := ops[|ops| - 1]; op.Erase? ==> op.from <= op.to <= |e|
    ensures FromRun(ops, Apply(eq, e, ops[|ops| - 1]))
  {
    var n := |ops| - 1;
    var d := Apply(eq, e, ops[n]);
    forall i | 0 <= i < |d|
      ensures exists j :: 0 <= j < |ops| && ops[j] == Insert(d[i])
    {
      if d[i] in e {
        var i' :| 0 <= i' < |e| && e[i'] == d[i];
        var j :| 0 <= j < |ops[..n]| && ops[..n][j] == Insert(e[i']);
        assert ops[j] == Insert(d[i]);
      } else {
        assert ops[n] == Insert(d[i]);
      }
    }
  }

  // ---------------------------------------------------------------- the container

  lemma {:induction false} InsertAllNext<K, V>(eq: (K, K) -> bool, d: seq<(K, V)>, h: seq<(K, V)>, i: nat)
    requires i < |h|
    ensures InsertAll(eq, d, h[..i + 1]) == Inserted(eq, InsertAll(eq, d, h[..i]), h[i])
  {
    assert h[..i + 1][..i] == h[..i];
  }

  class SequencedMultimap<K(!new), V> {
    const eq: (K, K) -> bool
    var data: seq<(K, V)>

    constructor (eq: (K, K) -> bool)
      ensures this.eq == eq && data == []
    {
      this.eq := eq;
      data := [];
    }

    method Find(key: K) returns (f: nat)
      ensures f == First(eq, data, key)
    {
      f := 0;
      while f != |data| && !eq(data[f].0, key)
        invariant f <= |data|
        invariant First(eq, data, key) == f + First(eq, data[f..], key)
      {
        assert data[f..][1..] == data[f + 1..];
        f := f + 1;
      }
    }

    method AdvanceToNextKey(f: nat) returns (it: nat)
      requires f < |data|
      ensures it == Next(eq, data, f, f + 1)
    {
      var key := data[f].0;
      it := f + 1;
      while it != |data|
        invariant f < it <= |data|
        invariant Next(eq, data, f, f + 1) == Next(eq, data, f, it)
      {
        if !eq(key, data[it].0) {
          break;
        }
        it := it + 1;
      }
    }

    /** The value of the first pair of the class; without one `at` throws. */
    method At(key: K) returns (r: Option<V>)
      requires Equivalence(eq)
      ensures r == if Class(eq, data, key) == [] then None else Some(Class(eq, data, key)[0].1)
    {
      var it := Find(key);
      ClassFirst(eq, data, key);
      r := if it == |data| then None else Some(data[it].1);
    }

    /** Puts the pair at its slot and returns its place. */
    method Insert(val: (K, V)) returns (pos: nat)
      requires Equivalence(eq) && Contiguous(eq, data)
      modifies this
      ensures pos == Slot(eq, old(data), val.0)
      ensures data == Inserted(eq, old(data), val) && data[pos] == val
      ensures Contiguous(eq, data)
    {
      InsertedContiguous(eq, data, val);
      var it := Find(val.0);
      if it != |data| {
        it := AdvanceToNextKey(it);
        data := data[..it] + [val] + data[it..];
        return it;
      }
      data := data + [val];
      assert data == old(data)[..it] + [val] + old(data)[it..];
      return |data| - 1;
    }

    /** Inserts a whole range, and returns the place behind the last pair of it. */
    method InsertRange(h: seq<(K, V)>) returns (next: nat)
      requires Equivalence(eq) && Contiguous(eq, data)
      modifies this
      ensures data == InsertAll(eq, old(data), h) && Contiguous(eq, data)
      ensures h != [] ==> 0 < next <= |data| && data[next - 1] == h[|h| - 1]
      ensures old(data) == [] ==> data == Group(eq, h)
    {
      var i := 0;
      next := 0;
      while i != |h|
        invariant 0 <= i <= |h| && Contiguous(eq, data)
        invariant data == InsertAll(eq, old(data), h[..i])
        invariant i > 0 ==> 0 < next <= |data| && data[next - 1] == h[i - 1]
      {
        InsertAllNext(eq, old(data), h, i);
        var pos := Insert(h[i]);
        next := pos + 1;
        i := i + 1;
      }
      assert h[..i] == h;
      if old(data) == [] { FillGroups(eq, h); }
    }

    method EraseRange(from: nat, to: nat) returns (next: nat)
      requires from <= to <= |data| && Contiguous(eq, data)
      modifies this
      ensures next == from && data == old(data)[..from] + old(data)[to..] && Contiguous(eq, data)
    {
      ErasedContiguous(eq, data, from, to);
      data := data[..from] + data[to..];
      next := from;
    }

    method Erase(pos: nat) returns (next: nat)
      requires pos < |data| && Contiguous(eq, data)
      modifies this
      ensures next == pos && data == old(data)[..pos] + old(data)[pos + 1..] && Contiguous(eq, data)
    {
      next := EraseRange(pos, pos + 1);
    }

    method Clear()
      modifies this
      ensures data == []
    {
      data := [];
    }
  }

  /** The first pair found is the first of the class. */
  lemma {:induction false} ClassFirst<K, V>(eq: (K, K) -> bool, d: seq<(K, V)>, key: K)
    ensures var f := First(eq, d, key);
            if f == |d| then Class(eq, d, key) == [] else Class(eq, d, key) != [] && Class(eq, d, key)[0] == d[f]
  {
    if d != [] && !eq(d[0].0, key) { ClassFirst(eq, d[1..], key); }
  }
}
