/**
 The LRU cache itself: nodes that are linked into a recency list and, at the same time, into the
 buckets of a hash table. A node is a handle into the node store; its pair is overwritten in place
 when its entry is updated or evicted.
 */
module LruMap {
  import opened Common
  import opened LruSpec

  const MIN_BUCKETS: nat := 32

  /** 32 times a power of two. */
  predicate BucketCount(n: nat) { n == MIN_BUCKETS || (n > MIN_BUCKETS && n % 2 == 0 && BucketCount(n / 2)) }

  lemma BucketLaw(n: nat)
    requires BucketCount(n)
    ensures n >= MIN_BUCKETS && BucketCount(2 * n) && (n > MIN_BUCKETS ==> BucketCount(n / 2))
  {
    assert 2 * n / 2 == n;
  }

  type Node = nat

  predicate Distinct(s: seq<Node>) { forall i, j :: 0 <= i < j < |s| ==> s[i] != s[j] }

  /** Where a node is linked. */
  function Position(s: seq<Node>, x: Node): (i: nat)
    requires x in s
    ensures i < |s| && s[i] == x
  {
    if s[0] == x then 0 else 1 + Position(s[1..], x)
  }

  lemma PositionAt(s: seq<Node>, i: nat)
    requires Distinct(s) && i < |s|
    ensures Position(s, s[i]) == i
  {
  }

  lemma RemoveAtMember(s: seq<Node>, i: nat)
    requires Distinct(s) && i < |s|
    ensures Distinct(RemoveAt(s, i))
    ensures forall y :: y in RemoveAt(s, i) <==> y in s && y != s[i]
  {
    var r := RemoveAt(s, i);
    forall y | y in s && y != s[i]
      ensures y in r
    {
      var j :| 0 <= j < |s| && s[j] == y;
      assert r[if j < i then j else j - 1] == y;
    }
  }

  // ---------------------------------------------------------------- buckets

  /** The buckets hold exactly the keys of `slot`, each once and in its own bucket. */
  ghost predicate Filed(bs: seq<seq<Node>>, slot: map<Node, nat>) {
    && (forall x :: x in slot ==> slot[x] < |bs| && x in bs[slot[x]])
    && (forall b, x :: 0 <= b < |bs| && x in bs[b] ==> x in slot && slot[x] == b)
    && (forall b :: 0 <= b < |bs| ==> Distinct(bs[b]))
  }

  function BucketMinus(bs: seq<seq<Node>>, b: nat, x: Node): seq<seq<Node>>
    requires b < |bs| && x in bs[b]
  {
    bs[b := RemoveAt(bs[b], Position(bs[b], x))]
  }

  function BucketPlus(bs: seq<seq<Node>>, b: nat, x: Node): seq<seq<Node>>
    requires b < |bs|
  {
    bs[b := [x] + bs[b]]
  }

  lemma FiledMinus(bs: seq<seq<Node>>, slot: map<Node, nat>, x: Node)
    requires Filed(bs, slot) && x in slot
    ensures Filed(BucketMinus(bs, slot[x], x), slot - {x})
  {
    RemoveAtMember(bs[slot[x]], Position(bs[slot[x]], x));
  }

  lemma FiledPlus(bs: seq<seq<Node>>, slot: map<Node, nat>, x: Node, b: nat)
    requires Filed(bs, slot) && x !in slot && b < |bs|
    ensures Filed(BucketPlus(bs, b, x), slot[x := b])
  {
    assert x !in bs[b];
  }

  // ---------------------------------------------------------------- nodes and their pairs

  /** The pairs of the nodes `ns`. */
  function Pairs<K, V>(ns: seq<Node>, store: map<Node, (K, V)>): (e: seq<(K, V)>)
    requires forall n :: n in ns ==> n in store
    ensures |e| == |ns| && forall i :: 0 <= i < |ns| ==> e[i] == store[ns[i]]
  {
    seq(|ns|, i requires 0 <= i < |ns| => store[ns[i]])
  }

  /** The hash function, the choice of a bucket for a hash value and a table size, and the key predicate. */
  datatype Keys<!K> = Keys(hash: K -> nat, place: (nat, nat) -> nat, eq: Eq<K>) {
    function SlotOf(k: K, size: nat): nat { place(hash(k), size) }
  }

  ghost predicate Lawful<K(!new)>(ks: Keys<K>) {
    && Equivalence(ks.eq)
    && (forall a, b :: ks.eq(a, b) ==> ks.hash(a) == ks.hash(b))
    && (forall h, n :: n > 0 ==> ks.place(h, n) < n)
  }

  function Slots<K, V>(ks: Keys<K>, ns: seq<Node>, store: map<Node, (K, V)>, size: nat): map<Node, nat>
    requires forall n :: n in ns ==> n in store
  {
    map n | n in ns :: ks.SlotOf(store[n].0, size)
  }

  lemma SlotsMinus<K, V>(ks: Keys<K>, ns: seq<Node>, store: map<Node, (K, V)>, size: nat, i: nat)
    requires Distinct(ns) && i < |ns| && forall n :: n in ns ==> n in store
    ensures forall n :: n in RemoveAt(ns, i) ==> n in store
    ensures Slots(ks, RemoveAt(ns, i), store, size) == Slots(ks, ns, store, size) - {ns[i]}
  {
    RemoveAtMember(ns, i);
  }

  lemma SlotsPlus<K, V>(ks: Keys<K>, ns: seq<Node>, store: map<Node, (K, V)>, size: nat, x: Node)
    requires x !in ns && x in store && forall n :: n in ns ==> n in store
    ensures Slots(ks, [x] + ns, store, size) == Slots(ks, ns, store, size)[x := ks.SlotOf(store[x].0, size)]
  {
  }

  /** Both links hold the same nodes, and keys are unique. */
  ghost predicate Linked<K(!new), V>(ks: Keys<K>, list: seq<Node>, bs: seq<seq<Node>>, store: map<Node, (K, V)>) {
    && Lawful(ks)
    && (forall n :: n in list ==> n in store) && Distinct(list)
    && UniqueKeys(Pairs(list, store), ks.eq)
    && BucketCount(|bs|) && Filed(bs, Slots(ks, list, store, |bs|))
  }

  lemma UniqueMinus<K, V>(e: seq<(K, V)>, i: nat, eq: Eq<K>)
    requires UniqueKeys(e, eq) && i < |e|
    ensures UniqueKeys(RemoveAt(e, i), eq)
  {
  }

  lemma UniquePlus<K(!new), V>(e: seq<(K, V)>, k: K, v: V, eq: Eq<K>)
    requires Equivalence(eq) && UniqueKeys(e, eq) && IndexOf(e, k, eq) == |e|
    ensures UniqueKeys([(k, v)] + e, eq)
  {
    var f := [(k, v)] + e;
    forall i, j | 0 <= i < |f| && 0 <= j < |f| && i != j
      ensures !eq(f[i].0, f[j].0)
    {
      if i > 0 && j > 0 { assert !eq(e[i - 1].0, e[j - 1].0); }
    }
  }

  /** Replacing an entry by an equivalent key in front keeps keys unique. */
  lemma UniqueFront<K(!new), V>(e: seq<(K, V)>, i: nat, k: K, v: V, eq: Eq<K>)
    requires Equivalence(eq) && UniqueKeys(e, eq) && i < |e| && eq(e[i].0, k)
    ensures UniqueKeys([(k, v)] + RemoveAt(e, i), eq)
  {
    UniqueMinus(e, i, eq);
    var r := RemoveAt(e, i);
    forall j | 0 <= j < |r|
      ensures !eq(r[j].0, k)
    {
      assert !eq(e[if j < i then j else j + 1].0, e[i].0);
    }
    IndexOfFirst(r, k, |r|, eq);
    UniquePlus(r, k, v, eq);
  }

  lemma PairsMinus<K, V>(ns: seq<Node>, store: map<Node, (K, V)>, i: nat)
    requires i < |ns| && forall n :: n in ns ==> n in store
    ensures (forall n :: n in RemoveAt(ns, i) ==> n in store) && Pairs(RemoveAt(ns, i), store) == RemoveAt(Pairs(ns, store), i)
  {
  }

  /** `list_.erase` and `hash_.erase` of one node. */
  lemma UnlinkKeeps<K(!new), V>(ks: Keys<K>, list: seq<Node>, bs: seq<seq<Node>>, store: map<Node, (K, V)>, i: nat)
    requires Linked(ks, list, bs, store) && i < |list|
    ensures var b := ks.SlotOf(store[list[i]].0, |bs|);
            && b < |bs| && list[i] in bs[b]
            && Linked(ks, RemoveAt(list, i), BucketMinus(bs, b, list[i]), store)
            && Pairs(RemoveAt(list, i), store) == RemoveAt(Pairs(list, store), i)
            && list[i] !in RemoveAt(list, i)
  {
    RemoveAtMember(list, i);
    SlotsMinus(ks, list, store, |bs|, i);
    FiledMinus(bs, Slots(ks, list, store, |bs|), list[i]);
    PairsMinus(list, store, i);
    UniqueMinus(Pairs(list, store), i, ks.eq);
  }

  /** `list_.push_front` and `hash_.insert` of one node that holds a new key. */
  lemma LinkKeeps<K(!new), V>(ks: Keys<K>, list: seq<Node>, bs: seq<seq<Node>>, store: map<Node, (K, V)>, x: Node)
    requires Linked(ks, list, bs, store) && x !in list && x in store
    requires IndexOf(Pairs(list, store), store[x].0, ks.eq) == |list|
    ensures var b := ks.SlotOf(store[x].0, |bs|);
            && b < |bs|
            && Linked(ks, [x] + list, BucketPlus(bs, b, x), store)
            && Pairs([x] + list, store) == [store[x]] + Pairs(list, store)
  {
    SlotsPlus(ks, list, store, |bs|, x);
    FiledPlus(bs, Slots(ks, list, store, |bs|), x, ks.SlotOf(store[x].0, |bs|));
    UniquePlus(Pairs(list, store), store[x].0, store[x].1, ks.eq);
    assert Pairs([x] + list, store) == [store[x]] + Pairs(list, store);
  }

  /** The update branch: the node moves to the front and keeps its bucket, because its new key is equivalent. */
  lemma UpdateKeeps<K(!new), V>(ks: Keys<K>, list: seq<Node>, bs: seq<seq<Node>>, store: map<Node, (K, V)>, i: nat, k: K, v: V)
    requires Linked(ks, list, bs, store) && i < |list| && ks.eq(store[list[i]].0, k)
    ensures var list', store' := [list[i]] + RemoveAt(list, i), store[list[i] := (k, v)];
            && Linked(ks, list', bs, store')
            && Pairs(list', store') == [(k, v)] + RemoveAt(Pairs(list, store), i)
  {
    var list', store' := [list[i]] + RemoveAt(list, i), store[list[i] := (k, v)];
    RemoveAtMember(list, i);
    assert Pairs(list', store') == [(k, v)] + RemoveAt(Pairs(list, store), i);
    UniqueFront(Pairs(list, store), i, k, v, ks.eq);
    assert forall n :: n in list' <==> n in list;
    assert Slots(ks, list', store', |bs|) == Slots(ks, list, store, |bs|);
  }

  /** The pair of an unlinked node can be anything. */
  lemma StoreKeeps<K(!new), V>(ks: Keys<K>, list: seq<Node>, bs: seq<seq<Node>>, store: map<Node, (K, V)>, x: Node, k: K, v: V)
    requires Linked(ks, list, bs, store) && x !in list
    ensures var store' := store[x := (k, v)]; Linked(ks, list, bs, store') && Pairs(list, store') == Pairs(list, store)
  {
    var store' := store[x := (k, v)];
    assert Pairs(list, store') == Pairs(list, store);
    assert Slots(ks, list, store', |bs|) == Slots(ks, list, store, |bs|);
  }

  // ---------------------------------------------------------------- the cache

  /** One more node of the list, from the back, is filed in the new table. */
  lemma {:induction false} RefileNext<K(!new), V>(
    ks: Keys<K>, list: seq<Node>, store: map<Node, (K, V)>, size: nat, i: nat, bs: seq<seq<Node>>)
    requires Lawful(ks) && (forall n :: n in list ==> n in store) && Distinct(list) && i < |list|
    requires size > 0 && |bs| == size && Filed(bs, Slots(ks, list[i + 1..], store, size))
    ensures var b := ks.SlotOf(store[list[i]].0, size);
            b < size && Filed(BucketPlus(bs, b, list[i]), Slots(ks, list[i..], store, size))
  {
    var n := list[i];
    assert list[i..] == [n] + list[i + 1..];
    SlotsPlus(ks, list[i + 1..], store, size, n);
    FiledPlus(bs, Slots(ks, list[i + 1..], store, size), n, ks.SlotOf(store[n].0, size));
  }

  class LruCache<K(!new), V> {
    const ks: Keys<K>
    var list: seq<Node>
    var buckets: seq<seq<Node>>
    var store: map<Node, (K, V)>
    var maxSize: nat

    /** The recency list as pairs. */
    ghost function Entries(): seq<(K, V)>
      reads this
      requires Valid()
    {
      Pairs(list, store)
    }

    /** The cache as the runs of `LruSpec` see it. */
    ghost function View(): Cache<K, V>
      reads this
      requires Valid()
    {
      Cache(Entries(), maxSize)
    }

    ghost predicate Valid()
      reads this
    {
      Linked(ks, list, buckets, store) && |list| <= |buckets|
    }

    constructor (ks: Keys<K>, maxSize: nat)
      requires Lawful(ks)
      ensures Valid() && Entries() == [] && this.maxSize == maxSize && this.ks == ks
    {
      this.ks, this.maxSize := ks, maxSize;
      list, store := [], map[];
      buckets := seq(MIN_BUCKETS, _ => []);
    }

    /** `hash_.find` walks one bucket; the answer is that of a search through the whole list. */
    method FindNode(k: K) returns (found: bool, n: Node)
      requires Valid()
      ensures var i := IndexOf(Entries(), k, ks.eq);
              found == (i < |list|) && (found ==> n == list[i])
    {
      var bucket := buckets[ks.SlotOf(k, |buckets|)];
      ghost var slots := Slots(ks, list, store, |buckets|);
      n := 0;
      for j := 0 to |bucket|
        invariant forall l :: 0 <= l < j ==> bucket[l] in slots && !ks.eq(store[bucket[l]].0, k)
      {
        assert bucket[j] in slots;
        if ks.eq(store[bucket[j]].0, k) {
          FoundAt(bucket[j], k);
          return true, bucket[j];
        }
      }
      found := false;
      NotFound(k);
    }

    lemma FoundAt(n: Node, k: K)
      requires Valid() && n in list && ks.eq(store[n].0, k)
      ensures var i := IndexOf(Entries(), k, ks.eq); i < |list| && list[i] == n
    {
      var m :| 0 <= m < |list| && list[m] == n;
      forall j | 0 <= j < m
        ensures !ks.eq(Entries()[j].0, k)
      {
        assert !ks.eq(Entries()[j].0, Entries()[m].0);
      }
      IndexOfFirst(Entries(), k, m, ks.eq);
    }

    lemma NotFound(k: K)
      requires Valid()
      requires forall n :: n in buckets[ks.SlotOf(k, |buckets|)] && n in store ==> !ks.eq(store[n].0, k)
      ensures IndexOf(Entries(), k, ks.eq) == |list|
    {
      forall j | 0 <= j < |list|
        ensures !ks.eq(Entries()[j].0, k)
      {
        assert list[j] in Slots(ks, list, store, |buckets|);
      }
      IndexOfFirst(Entries(), k, |list|, ks.eq);
    }

    // -------------------------------------------------------------- table size

    /** `rehash`: the same nodes in a table of another size. */
    method Rehash(size: nat)
      requires Linked(ks, list, buckets, store) && BucketCount(size)
      modifies this`buckets
      ensures Linked(ks, list, buckets, store) && |buckets| == size
    {
      BucketLaw(size);
      var bs: seq<seq<Node>> := seq(size, _ => []);
      var i := |list|;
      while i > 0
        invariant 0 <= i <= |list| && |bs| == size
        invariant Filed(bs, Slots(ks, list[i..], store, size))
      {
        i := i - 1;
        var n := list[i];
        RefileNext(ks, list, store, size, i, bs);
        bs := BucketPlus(bs, ks.SlotOf(store[n].0, size), n);
      }
      assert list[0..] == list;
      buckets := bs;
    }

    /** `auto_rehash`: doubles a table with more nodes than buckets, halves one that is mostly empty. */
    method AutoRehash()
      requires Linked(ks, list, buckets, store) && |list| <= 2 * |buckets|
      modifies this`buckets
      ensures Valid()
      ensures var n := |old(buckets)|;
              |buckets| == if |list| > n then 2 * n else if 32 < |list| < n / 2 then n / 2 else n
    {
      BucketLaw(|buckets|);
      if |list| > |buckets| {
        Rehash(|buckets| * 2);
      } else if |list| > MIN_BUCKETS && |list| < |buckets| / 2 {
        Rehash(|buckets| / 2);
      }
    }

    // -------------------------------------------------------------- push

    /** The replace branch of `push`: the node of the last entry is reused for the new one. */
    method Replace(k: K, v: V)
      requires Valid() && list != [] && IndexOf(Entries(), k, ks.eq) == |list|
      modifies this`list, this`buckets, this`store
      ensures Valid() && |list| == |old(list)|
      ensures Entries() == [(k, v)] + old(Entries())[..|old(list)| - 1]
    {
      ghost var e, last := Entries(), |list| - 1;
      var n := list[|list| - 1];
      var b := ks.SlotOf(store[n].0, |buckets|);
      UnlinkKeeps(ks, list, buckets, store, last);
      PositionAt(list, last);
      list := RemoveAt(list, Position(list, n));
      buckets := BucketMinus(buckets, b, n);
      StoreKeeps(ks, list, buckets, store, n, k, v);
      store := store[n := (k, v)];
      assert RemoveAt(e, last) == e[..last];
      IndexOfFirst(e[..last], k, last, ks.eq);
      LinkKeeps(ks, list, buckets, store, n);
      list := [n] + list;
      buckets := BucketPlus(buckets, ks.SlotOf(k, |buckets|), n);
    }

    /** The new branch of `push`. */
    method New(k: K, v: V)
      requires Valid() && IndexOf(Entries(), k, ks.eq) == |list|
      modifies this`list, this`buckets, this`store
      ensures Valid() && Entries() == [(k, v)] + old(Entries())
    {
      Unused(store.Keys);
      var n: Node :| n !in store;
      StoreKeeps(ks, list, buckets, store, n, k, v);
      store := store[n := (k, v)];
      LinkKeeps(ks, list, buckets, store, n);
      buckets := BucketPlus(buckets, ks.SlotOf(k, |buckets|), n);
      list := [n] + list;
      AutoRehash();
    }

    /** `push`. The pushed pair becomes first; at most the last entry goes. */
    method Push(k: K, v: V) returns (added: bool)
      requires Valid()
      modifies this`list, this`buckets, this`store
      ensures Valid() && Entries() == LruSpec.Push(old(Entries()), k, v, maxSize, ks.eq)
      ensures View() == Apply(old(View()), Put(k, v), ks.eq)
      ensures added <==> IndexOf(old(Entries()), k, ks.eq) == |old(list)|
    {
      var found, n := FindNode(k);
      if found {
        ghost var i := IndexOf(Entries(), k, ks.eq);
        UpdateKeeps(ks, list, buckets, store, i, k, v);
        PositionAt(list, i);
        list := [n] + RemoveAt(list, Position(list, n));
        store := store[n := (k, v)];
        return false;
      }
      if list != [] && |list| > maxSize {
        Replace(k, v);
      } else {
        New(k, v);
      }
      return true;
    }

    // -------------------------------------------------------------- erasing

    /** `erase` by iterator. */
    method EraseNode(n: Node, ghost i: nat)
      requires Valid() && i < |list| && list[i] == n
      modifies this`list, this`buckets
      ensures Valid() && Entries() == RemoveAt(old(Entries()), i) && |list| == |old(list)| - 1
    {
      var b := ks.SlotOf(store[n].0, |buckets|);
      UnlinkKeeps(ks, list, buckets, store, i);
      PositionAt(list, i);
      list := RemoveAt(list, Position(list, n));
      buckets := BucketMinus(buckets, b, n);
    }

    /** `erase` by key. */
    method Erase(k: K)
      requires Valid()
      modifies this`list, this`buckets
      ensures Valid() && Entries() == LruSpec.Erase(old(Entries()), k, ks.eq) == Without(old(Entries()), k, ks.eq)
      ensures View() == Apply(old(View()), Drop(k), ks.eq)
    {
      EraseIsWithout(Entries(), k, ks.eq);
      var found, n := FindNode(k);
      if found { EraseNode(n, IndexOf(Entries(), k, ks.eq)); }
    }

    /** `pop`: the last entry goes. */
    method Pop()
      requires Valid()
      modifies this`list, this`buckets
      ensures Valid()
      ensures Entries() == if old(list) == [] then [] else old(Entries())[..|old(list)| - 1]
      ensures View() == Apply(old(View()), Op.Pop, ks.eq)
    {
      if list != [] { EraseNode(list[|list| - 1], |list| - 1); }
    }

    method ShrinkToFit()
      requires Valid()
      modifies this`list, this`buckets
      ensures Valid() && Entries() == Take(old(Entries()), maxSize)
    {
      while list != [] && |list| > maxSize
        invariant Valid() && |list| <= |old(list)|
        invariant Entries() == Take(old(Entries()), |list|)
        invariant |list| == |old(list)| || |list| >= maxSize
        decreases |list|
      {
        ghost var e, n := Entries(), |list| - 1;
        EraseNode(list[|list| - 1], n);
        assert RemoveAt(e, n) == e[..n];
      }
      AutoRehash();
    }

    /** `max_size(size)`: sets the limit and shrinks to exactly the most recent entries. */
    method SetMaxSize(size: nat)
      requires Valid()
      modifies this`list, this`buckets, this`maxSize
      ensures Valid() && maxSize == size && Entries() == Take(old(Entries()), size)
      ensures View() == Apply(old(View()), Limit(size), ks.eq)
    {
      maxSize := size;
      ShrinkToFit();
    }

    /** `clear`: erases from the front until nothing is left. */
    method Clear()
      requires Valid()
      modifies this`list, this`buckets
      ensures Valid() && Entries() == []
    {
      while list != []
        invariant Valid()
        decreases |list|
      {
        EraseNode(list[0], 0);
      }
    }
  }

  /** There is always a node that is not in use. */
  lemma Unused(s: set<Node>)
    ensures exists n: Node :: n !in s
  {
    var n := Above(s);
    assert n !in s;
  }

  lemma Above(s: set<Node>) returns (n: Node)
    ensures forall m :: m in s ==> m < n
  {
    if s == {} {
      n := 0;
    } else {
      var x :| x in s;
      n := Above(s - {x});
      assert forall m :: m in s ==> m == x || m in s - {x};
      if n <= x { n := x + 1; }
    }
  }
}
