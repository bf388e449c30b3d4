/**
 The recency list of the LRU cache as a plain sequence of pairs, most recent first. Keys are compared
 by an equivalence `eq`; no hash table and no nodes here.
 */
module LruSpec {

  import opened Common

  type Eq<!K> = (K, K) -> bool

  /** Position of the first entry with key `k`, or the length. */
  function IndexOf<K, V>(e: seq<(K, V)>, k: K, eq: Eq<K>): (i: nat)
    ensures i <= |e|
    ensures i < |e| ==> eq(e[i].0, k)
    ensures forall j :: 0 <= j < i ==> !eq(e[j].0, k)
  {
    if e == [] then 0 else if eq(e[0].0, k) then 0 else 1 + IndexOf(e[1..], k, eq)
  }

  function RemoveAt<T>(s: seq<T>, i: nat): (r: seq<T>)
    requires i < |s|
    ensures |r| == |s| - 1
  {
    s[..i] + s[i + 1..]
  }

  /** `push`: move to the front, or evict the last entry when the limit is exceeded, or grow. */
  function Push<K, V>(e: seq<(K, V)>, k: K, v: V, max: nat, eq: Eq<K>): seq<(K, V)> {
    var i := IndexOf(e, k, eq);
    if i < |e| then [(k, v)] + RemoveAt(e, i)
    else if |e| > max then [(k, v)] + e[..|e| - 1]
    else [(k, v)] + e
  }

  function Erase<K, V>(e: seq<(K, V)>, k: K, eq: Eq<K>): seq<(K, V)> {
    var i := IndexOf(e, k, eq);
    if i < |e| then RemoveAt(e, i) else e
  }

  function Take<T>(s: seq<T>, n: nat): seq<T> { if |s| <= n then s else s[..n] }

  ghost predicate UniqueKeys<K, V>(e: seq<(K, V)>, eq: Eq<K>) {
    forall i, j :: 0 <= i < |e| && 0 <= j < |e| && i != j ==> !eq(e[i].0, e[j].0)
  }

  // ---------------------------------------------------------------- runs

  datatype Op<K, V> = Put(k: K, v: V) | Drop(k: K) | Pop | Limit(max: nat)

  datatype Cache<K, V> = Cache(entries: seq<(K, V)>, max: nat)

  function Apply<K, V>(c: Cache<K, V>, op: Op<K, V>, eq: Eq<K>): Cache<K, V> {
    match op
    case Put(k, v) => c.(entries := Push(c.entries, k, v, c.max, eq))
    case Drop(k) => c.(entries := Erase(c.entries, k, eq))
    case Pop => c.(entries := if c.entries == [] then [] else c.entries[..|c.entries| - 1])
    case Limit(max) => Cache(Take(c.entries, max), max)
  }

  function Run<K, V>(c: Cache<K, V>, ops: seq<Op<K, V>>, eq: Eq<K>): Cache<K, V>
    decreases |ops|
  {
    if ops == [] then c else Run(Apply(c, ops[0], eq), ops[1..], eq)
  }

  ghost predicate Sound<K, V>(c: Cache<K, V>, eq: Eq<K>) { UniqueKeys(c.entries, eq) && |c.entries| <= c.max + 1 }

  lemma {:induction false} PushUnique<K(!new), V>(e: seq<(K, V)>, k: K, v: V, max: nat, eq: Eq<K>)
    requires Equivalence(eq) && UniqueKeys(e, eq)
    ensures UniqueKeys(Push(e, k, v, max, eq), eq)
  {
    var i := IndexOf(e, k, eq);
    if i < |e| {
      forall j | 0 <= j < |e| && j != i
        ensures !eq(e[j].0, k)
      {
        assert !eq(e[j].0, e[i].0);
      }
      FrontUnique(RemoveAt(e, i), k, v, eq);
    } else if |e| > max {
      FrontUnique(e[..|e| - 1], k, v, eq);
    } else {
      FrontUnique(e, k, v, eq);
    }
  }

  lemma {:induction false} FrontUnique<K(!new), V>(e: seq<(K, V)>, k: K, v: V, eq: Eq<K>)
    requires Equivalence(eq) && UniqueKeys(e, eq) && forall j :: 0 <= j < |e| ==> !eq(e[j].0, k)
    ensures UniqueKeys([(k, v)] + e, eq)
  {
    assert forall j :: 0 <= j < |e| ==> !eq(k, e[j].0);
  }

  lemma {:induction false} SoundStep<K(!new), V>(c: Cache<K, V>, op: Op<K, V>, eq: Eq<K>)
    requires Equivalence(eq) && Sound(c, eq)
    ensures Sound(Apply(c, op, eq), eq)
  {
    if op.Put? { PushUnique(c.entries, op.k, op.v, c.max, eq); }
  }

  /** After any run keys are unique and at most one entry more than the limit is held. */
  lemma {:induction false} SoundRun<K(!new), V>(c: Cache<K, V>, ops: seq<Op<K, V>>, eq: Eq<K>)
    requires Equivalence(eq) && Sound(c, eq)
    ensures Sound(Run(c, ops, eq), eq)
    decreases |ops|
  {
    if ops != [] {
      SoundStep(c, ops[0], eq);
      SoundRun(Apply(c, ops[0], eq), ops[1..], eq);
    }
  }

  // ---------------------------------------------------------------- what a cache of pushes holds

  function Without<K, V>(e: seq<(K, V)>, k: K, eq: Eq<K>): (r: seq<(K, V)>)
    ensures |r| <= |e|
  {
    if e == [] then [] else if eq(e[0].0, k) then Without(e[1..], k, eq) else [e[0]] + Without(e[1..], k, eq)
  }

  /** The last value of every key ever pushed, most recently pushed first. */
  function Recent<K, V>(h: seq<(K, V)>, eq: Eq<K>): seq<(K, V)> {
    if h == [] then [] else [h[|h| - 1]] + Without(Recent(h[..|h| - 1], eq), h[|h| - 1].0, eq)
  }

  function Pushes<K, V>(h: seq<(K, V)>, max: nat, eq: Eq<K>): seq<(K, V)> {
    if h == [] then [] else Push(Pushes(h[..|h| - 1], max, eq), h[|h| - 1].0, h[|h| - 1].1, max, eq)
  }

  lemma {:induction false} WithoutAbsent<K, V>(e: seq<(K, V)>, k: K, eq: Eq<K>)
    requires forall j :: 0 <= j < |e| ==> !eq(e[j].0, k)
    ensures Without(e, k, eq) == e
    decreases |e|
  {
    if e != [] { WithoutAbsent(e[1..], k, eq); }
  }

  /** With unique keys, dropping a key drops one position. */
  lemma {:induction false} WithoutOne<K(!new), V>(e: seq<(K, V)>, k: K, i: nat, eq: Eq<K>)
    requires Equivalence(eq) && UniqueKeys(e, eq) && i < |e| && eq(e[i].0, k)
    ensures Without(e, k, eq) == RemoveAt(e, i)
    decreases |e|
  {
    if i == 0 {
      forall j | 0 <= j < |e[1..]|
        ensures !eq(e[1..][j].0, k)
      {
        assert !eq(e[j + 1].0, e[0].0);
      }
      WithoutAbsent(e[1..], k, eq);
      assert RemoveAt(e, 0) == e[1..];
    } else {
      assert !eq(e[0].0, e[i].0);
      WithoutOne(e[1..], k, i - 1, eq);
      assert RemoveAt(e, i) == [e[0]] + RemoveAt(e[1..], i - 1);
    }
  }

  lemma {:induction false} WithoutUnique<K(!new), V>(e: seq<(K, V)>, k: K, eq: Eq<K>)
    requires Equivalence(eq) && UniqueKeys(e, eq)
    ensures var w := Without(e, k, eq); UniqueKeys(w, eq) && forall j :: 0 <= j < |w| ==> !eq(w[j].0, k)
  {
    var i := IndexOf(e, k, eq);
    if i < |e| {
      WithoutOne(e, k, i, eq);
      forall j | 0 <= j < |e| && j != i
        ensures !eq(e[j].0, k)
      {
        assert !eq(e[j].0, e[i].0);
      }
    } else {
      WithoutAbsent(e, k, eq);
    }
  }

  /** Erasing a key drops its entry, wherever it stands, and leaves all others in their order. */
  lemma {:induction false} EraseIsWithout<K(!new), V>(e: seq<(K, V)>, k: K, eq: Eq<K>)
    requires Equivalence(eq) && UniqueKeys(e, eq)
    ensures Erase(e, k, eq) == Without(e, k, eq)
    ensures forall x :: x in Erase(e, k, eq) <==> x in e && !eq(x.0, k)
  {
    var i := IndexOf(e, k, eq);
    if i < |e| { WithoutOne(e, k, i, eq); } else { WithoutAbsent(e, k, eq); }
    WithoutMembers(e, k, eq);
  }

  lemma {:induction false} WithoutMembers<K(!new), V>(e: seq<(K, V)>, k: K, eq: Eq<K>)
    ensures forall x :: x in Without(e, k, eq) <==> x in e && !eq(x.0, k)
    decreases |e|
  {
    if e != [] {
      WithoutMembers(e[1..], k, eq);
      assert forall x :: x in e <==> x == e[0] || x in e[1..];
    }
  }

  lemma {:induction false} RecentUnique<K(!new), V>(h: seq<(K, V)>, eq: Eq<K>)
    requires Equivalence(eq)
    ensures UniqueKeys(Recent(h, eq), eq)
    decreases |h|
  {
    if h != [] {
      RecentUnique(h[..|h| - 1], eq);
      WithoutUnique(Recent(h[..|h| - 1], eq), h[|h| - 1].0, eq);
    }
  }

  lemma {:induction false} TakeRemoved<T>(e: seq<T>, x: T, i: nat, max: nat)
    requires i < |e|
    ensures i < |Take(e, max + 1)| ==> [x] + RemoveAt(Take(e, max + 1), i) == Take([x] + RemoveAt(e, i), max + 1)
    ensures i >= |Take(e, max + 1)| ==> [x] + e[..max] == Take([x] + RemoveAt(e, i), max + 1)
  {
  }

  lemma {:induction false} PushHeld<K(!new), V>(e: seq<(K, V)>, k: K, v: V, max: nat, eq: Eq<K>, i: nat)
    requires Equivalence(eq) && UniqueKeys(e, eq) && i == IndexOf(e, k, eq) && i < |Take(e, max + 1)|
    ensures Push(Take(e, max + 1), k, v, max, eq) == Take([(k, v)] + Without(e, k, eq), max + 1)
  {
    var t := Take(e, max + 1);
    assert t[i] == e[i];
    IndexOfFirst(t, k, i, eq);
    WithoutOne(e, k, i, eq);
    TakeRemoved(e, (k, v), i, max);
  }

  lemma {:induction false} PushAbsent<K(!new), V>(e: seq<(K, V)>, k: K, v: V, max: nat, eq: Eq<K>, i: nat)
    requires Equivalence(eq) && UniqueKeys(e, eq) && i == IndexOf(e, k, eq) && i >= |Take(e, max + 1)|
    ensures Push(Take(e, max + 1), k, v, max, eq) == Take([(k, v)] + Without(e, k, eq), max + 1)
  {
    var t := Take(e, max + 1);
    IndexOfFirst(t, k, |t|, eq);
    if i < |e| {
      WithoutOne(e, k, i, eq);
      TakeRemoved(e, (k, v), i, max);
      assert t[..|t| - 1] == e[..max];
    } else {
      WithoutAbsent(e, k, eq);
    }
  }

  /** Pushing on a truncated list is truncating the push on the whole list. */
  lemma {:induction false} PushTaken<K(!new), V>(e: seq<(K, V)>, k: K, v: V, max: nat, eq: Eq<K>)
    requires Equivalence(eq) && UniqueKeys(e, eq)
    ensures Push(Take(e, max + 1), k, v, max, eq) == Take([(k, v)] + Without(e, k, eq), max + 1)
  {
    var i := IndexOf(e, k, eq);
    if i < |Take(e, max + 1)| { PushHeld(e, k, v, max, eq, i); } else { PushAbsent(e, k, v, max, eq, i); }
  }

  lemma {:induction false} IndexOfFirst<K, V>(e: seq<(K, V)>, k: K, i: nat, eq: Eq<K>)
    requires i <= |e| && (i < |e| ==> eq(e[i].0, k)) && forall j :: 0 <= j < i ==> !eq(e[j].0, k)
    ensures IndexOf(e, k, eq) == i
  {
  }

  /** A cache that was only pushed to holds exactly the `max + 1` most recently pushed keys, in that order. */
  lemma {:induction false} HoldsMostRecent<K(!new), V>(h: seq<(K, V)>, max: nat, eq: Eq<K>)
    requires Equivalence(eq)
    ensures Pushes(h, max, eq) == Take(Recent(h, eq), max + 1)
    decreases |h|
  {
    if h != [] {
      var init := h[..|h| - 1];
      HoldsMostRecent(init, max, eq);
      RecentUnique(init, eq);
      PushTaken(Recent(init, eq), h[|h| - 1].0, h[|h| - 1].1, max, eq);
    }
  }
}
