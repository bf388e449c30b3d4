/**
 The Internet checksum of section 1 of RFC 1071 over a byte buffer: a one's-complement sum of
 big-endian words, an odd last byte counting as the high half of a word.
 */
module Checksum {

  predicate Bytes(b: seq<int>) { forall i :: 0 <= i < |b| ==> 0 <= b[i] < 256 }

  // ---------------------------------------------------------------- what the sum is

  function Word(b: seq<int>, i: nat): int
    requires i < |b|
  {
    b[i] * 256 + if i + 1 < |b| then b[i + 1] else 0
  }

  /** The plain sum of all words. */
  function WordSum(b: seq<int>): int {
    if b == [] then 0 else if |b| == 1 then Word(b, 0) else Word(b, 0) + WordSum(b[2..])
  }

  /** The one's-complement value of a plain sum: congruent modulo 65535, and zero only for zero. */
  function Ones(w: int): (s: int)
    requires w >= 0
    ensures 0 <= s <= 65535
    ensures s % 65535 == w % 65535 && (s == 0 <==> w == 0)
  {
    if w <= 65535 then w else Ones(w - 65535)
  }

  /** The end-around carry. */
  function Fold(x: int): int { x % 65536 + x / 65536 }

  lemma {:induction false} OnesOf(s: int, w: int)
    requires w >= 0 && 0 <= s <= 65535 && s % 65535 == w % 65535 && (s == 0 <==> w == 0)
    ensures Ones(w) == s
  {
    assert Ones(w) % 65535 == s % 65535;
  }

  lemma {:induction false} FoldOnes(a: int, w: int)
    requires a >= 0 && 0 <= w <= 65535
    ensures Fold(Ones(a) + w) == Ones(a + w)
  {
    var s := Ones(a);
    var f := Fold(s + w);
    assert s + w == 65536 * ((s + w) / 65536) + (s + w) % 65536;
    assert f == s + w || f == s + w - 65535;
    SameResidue(s, a);
    AddMultiple(s - a, f - (s + w));
    SameResidue(f, a + w);
    OnesOf(f, a + w);
  }

  lemma {:induction false} AddMultiple(x: int, d: int)
    requires x % 65535 == 0
    ensures (x + d) % 65535 == 0 <==> d % 65535 == 0
  {
    assert x + d == 65535 * (x / 65535 + d / 65535) + d % 65535;
  }

  lemma {:induction false} SameResidue(x: int, y: int)
    ensures (x - y) % 65535 == 0 <==> x % 65535 == y % 65535
  {
    assert x - y == 65535 * (x / 65535 - y / 65535) + (x % 65535 - y % 65535);
  }

  /** Whether a buffer passes `check_checksum`. */
  predicate Passes(b: seq<int>)
    requires Bytes(b)
  {
    WordSumBound(b);
    Ones(WordSum(b)) == 65535
  }

  lemma {:induction false} WordSumBound(b: seq<int>)
    requires Bytes(b)
    ensures WordSum(b) >= 0
    decreases |b|
  {
    if |b| >= 2 { WordSumBound(b[2..]); }
  }

  /** Passing means: some word is not zero, and the sum is a multiple of 65535. */
  lemma PassesIff(b: seq<int>)
    requires Bytes(b)
    ensures WordSum(b) >= 0 && (Passes(b) <==> WordSum(b) > 0 && WordSum(b) % 65535 == 0)
  {
    WordSumBound(b);
  }

  // ---------------------------------------------------------------- sums of parts

  lemma {:induction false} SumConcat(b: seq<int>, c: seq<int>)
    requires |b| % 2 == 0
    ensures WordSum(b + c) == WordSum(b) + WordSum(c)
    decreases |b|
  {
    if b == [] {
      assert b + c == c;
    } else {
      SumConcat(b[2..], c);
      assert (b + c)[2..] == b[2..] + c;
      if |b + c| == 2 { assert c == [] && b[2..] == []; }
    }
  }

  /** Replacing the word at an even offset changes the sum by the difference. */
  lemma {:induction false} SumReplaced(b: seq<int>, at: nat, hi: int, lo: int)
    requires at % 2 == 0 && at + 2 <= |b|
    ensures WordSum(b[at := hi][at + 1 := lo]) == WordSum(b) - Word(b, at) + (hi * 256 + lo)
  {
    var c := b[at := hi][at + 1 := lo];
    var mid, mid' := [b[at], b[at + 1]], [hi, lo];
    assert b == b[..at] + (mid + b[at + 2..]) && c == b[..at] + (mid' + b[at + 2..]);
    SumConcat(b[..at], mid + b[at + 2..]);
    SumConcat(b[..at], mid' + b[at + 2..]);
    SumConcat(mid, b[at + 2..]);
    SumConcat(mid', b[at + 2..]);
    assert WordSum(mid) == Word(b, at) && WordSum(mid') == hi * 256 + lo by {
      assert mid[2..] == [] && mid'[2..] == [];
    }
  }

  /** A buffer that passes still passes with one word replaced exactly when the word is congruent and not all is zero. */
  lemma {:induction false} DetectsReplacement(b: seq<int>, at: nat, hi: int, lo: int)
    requires Bytes(b) && at % 2 == 0 && at + 2 <= |b| && 0 <= hi < 256 && 0 <= lo < 256 && Passes(b)
    ensures var c := b[at := hi][at + 1 := lo];
            Passes(c) <==> (hi * 256 + lo) % 65535 == Word(b, at) % 65535 && exists i :: 0 <= i < |c| && c[i] != 0
  {
    var c := b[at := hi][at + 1 := lo];
    PassesIff(b);
    PassesIff(c);
    SumReplaced(b, at, hi, lo);
    SumZero(c);
    var w := hi * 256 + lo;
    AddMultiple(WordSum(b), w - Word(b, at));
    SameResidue(w, Word(b, at));
  }

  lemma {:induction false} SumZero(b: seq<int>)
    requires Bytes(b)
    ensures WordSum(b) > 0 <==> exists i :: 0 <= i < |b| && b[i] != 0
    decreases |b|
  {
    WordSumBound(b);
    if |b| >= 2 {
      SumZero(b[2..]);
      WordSumBound(b[2..]);
      if exists i :: 0 <= i < |b| && b[i] != 0 {
        var i :| 0 <= i < |b| && b[i] != 0;
        if i >= 2 { assert b[2..][i - 2] != 0; }
      }
      if exists i :: 0 <= i < |b[2..]| && b[2..][i] != 0 {
        var i :| 0 <= i < |b[2..]| && b[2..][i] != 0;
        assert b[i + 2] != 0;
      }
    }
  }

  // ---------------------------------------------------------------- byte order

  /** `ntohs` and `htons` on a little-endian machine. */
  function Swap(w: int): (r: int)
    requires 0 <= w <= 65535
    ensures 0 <= r <= 65535 && Swap'(r) == w && (r == 0 <==> w == 0) && (r == 65535 <==> w == 65535)
  {
    Swap'(w)
  }

  function Swap'(w: int): int { w % 256 * 256 + w / 256 }

  lemma {:induction false} SwapParts(h: int, l: int)
    requires 0 <= h < 256 && 0 <= l < 256
    ensures Swap(h * 256 + l) == l * 256 + h
  {
    var w := h * 256 + l;
    assert w / 256 == h && w % 256 == l;
  }

  lemma {:induction false} SwapComplement(w: int)
    requires 0 <= w <= 65535
    ensures Swap(65535 - Swap(w)) == 65535 - w
  {
    var h, l := w / 256, w % 256;
    SwapParts(h, l);
    SwapParts(255 - l, 255 - h);
  }

  lemma SwapCongruent(w: int)
    requires 0 <= w <= 65535
    ensures (Swap(w) - 256 * w) % 65535 == 0
  {
    assert Swap(w) - 256 * w == -(w / 256) * 65535;
  }

  /** The plain sum of the words as a little-endian machine loads them. */
  function NativeSum(b: seq<int>): int
    requires Bytes(b)
  {
    if b == [] then 0 else if |b| == 1 then Swap(Word(b, 0)) else Swap(Word(b, 0)) + NativeSum(b[2..])
  }

  lemma {:induction false} NativeCongruent(b: seq<int>)
    requires Bytes(b)
    ensures NativeSum(b) >= 0 && (NativeSum(b) == 0 <==> WordSum(b) == 0)
    ensures (NativeSum(b) - 256 * WordSum(b)) % 65535 == 0
    decreases |b|
  {
    WordSumBound(b);
    if b != [] { SwapCongruent(Word(b, 0)); }
    if |b| >= 2 {
      NativeCongruent(b[2..]);
      assert NativeSum(b) == Swap(Word(b, 0)) + NativeSum(b[2..]);
      WordSumBound(b[2..]);
      AddMultiple(Swap(Word(b, 0)) - 256 * Word(b, 0), NativeSum(b[2..]) - 256 * WordSum(b[2..]));
    }
  }

  /** Byte order does not matter: the swapped sum is the sum of the swapped words (section 2(B) of RFC 1071). */
  lemma {:induction false} ByteOrder(b: seq<int>)
    requires Bytes(b)
    ensures WordSum(b) >= 0 && NativeSum(b) >= 0 && Swap(Ones(WordSum(b))) == Ones(NativeSum(b))
  {
    WordSumBound(b);
    NativeCongruent(b);
    var s, n := Ones(WordSum(b)), Ones(NativeSum(b));
    SwapCongruent(s);
    Same(Swap(s), n, WordSum(b), s, NativeSum(b));
  }

  lemma {:induction false} Same(x: int, n: int, w: int, s: int, m: int)
    requires 0 <= x <= 65535 && 0 <= n <= 65535 && (x == 0 <==> n == 0)
    requires s % 65535 == w % 65535 && n % 65535 == m % 65535
    requires (x - 256 * s) % 65535 == 0 && (m - 256 * w) % 65535 == 0
    ensures x == n
  {
    var a := Times(x - 256 * s);
    var b := Times(m - 256 * w);
    var c := Turns(s, w);
    var d := Turns(n, m);
    assert x - n == 65535 * (a - b + 256 * c - d);
  }

  lemma {:induction false} Times(x: int) returns (k: int)
    requires x % 65535 == 0
    ensures x == 65535 * k
  {
    k := x / 65535;
  }

  lemma {:induction false} Turns(x: int, y: int) returns (k: int)
    requires x % 65535 == y % 65535
    ensures x - y == 65535 * k
  {
    k := x / 65535 - y / 65535;
  }

  lemma {:induction false} SumLast(b: seq<int>)
    ensures var n := |b| - |b| % 2; WordSum(b) == WordSum(b[0..n]) + if |b| % 2 == 1 then b[n] * 256 else 0
  {
    var n := |b| - |b| % 2;
    assert b == b[..n] + b[n..];
    SumConcat(b[..n], b[n..]);
    assert b[0..n] == b[..n];
  }

  // ---------------------------------------------------------------- the code

  /** One turn of the summing loop: the word is added and the carry folded back. */
  method AddWord(sum: int, w: int, ghost total: int) returns (sum': int)
    requires total >= 0 && sum == Ones(total) && 0 <= w <= 65535
    ensures sum' == Ones(total + w)
  {
    FoldOnes(total, w);
    sum' := sum + w;
    sum' := Fold(sum');
  }

  /** The summing loop of `total_checksum`: the odd byte first, then the words with a carry after each. */
  method SumWords(a: array<int>) returns (sum: int)
    requires Bytes(a[..])
    ensures WordSum(a[..]) >= 0 && sum == Ones(WordSum(a[..]))
  {
    ghost var b := a[..];
    var n := a.Length - a.Length % 2;
    sum := 0;
    if a.Length % 2 == 1 {
      assert 0 <= b[n] < 256;
      sum := a[n] * 256;
    }
    ghost var total := sum;
    SumLast(b);
    var i := 0;
    while i != n
      invariant 0 <= i <= n && i % 2 == 0
      invariant total + WordSum(b[i..n]) == WordSum(b) && total >= 0 && sum == Ones(total)
    {
      assert 0 <= b[i] < 256 && 0 <= b[i + 1] < 256;
      var w := a[i] * 256 + a[i + 1];
      assert b[i..n][2..] == b[i + 2..n];
      sum := AddWord(sum, w, total);
      total := total + w;
      i := i + 2;
    }
  }

  /** `total_checksum`: the sum in host order. */
  method Total(a: array<int>) returns (sum: int)
    requires Bytes(a[..])
    ensures WordSum(a[..]) >= 0 && sum == Swap(Ones(WordSum(a[..])))
  {
    sum := SumWords(a);
    sum := Swap(sum);
  }

  /** The two folds after the loop change nothing: the loop folds after every word. */
  lemma {:induction false} FoldSmall(x: int)
    requires 0 <= x <= 65535
    ensures Fold(x) == x
  {
  }

  method Folded(a: array<int>) returns (sum: int)
    requires Bytes(a[..])
    ensures WordSum(a[..]) >= 0 && sum == Swap(Ones(WordSum(a[..])))
  {
    sum := Total(a);
    FoldSmall(sum);
    sum := Fold(sum);
    sum := Fold(sum);
  }

  /** `check_checksum`. */
  method Check(a: array<int>) returns (ok: bool)
    requires Bytes(a[..])
    ensures ok <==> Passes(a[..])
  {
    var sum := Folded(a);
    ok := sum == 65535;
  }

  /** A 16-bit member at `at`, written in the order of a little-endian machine. */
  method Store(a: array<int>, at: nat, v: int)
    requires at + 2 <= a.Length && 0 <= v <= 65535
    modifies a
    ensures a[..] == old(a[..])[at := v % 256][at + 1 := v / 256]
  {
    a[at] := v % 256;
    a[at + 1] := v / 256;
  }

  /** `compute_checksum`: clears the field, sums, and stores the complement; the buffer then passes. */
  method Compute(a: array<int>, at: nat)
    requires Bytes(a[..]) && at % 2 == 0 && at + 2 <= a.Length
    modifies a
    ensures Bytes(a[..]) && Passes(a[..])
    ensures var b := old(a[..])[at := 0][at + 1 := 0];
            WordSum(b) >= 0 && Word(a[..], at) == 65535 - Ones(WordSum(b))
    ensures forall i :: 0 <= i < a.Length && i != at && i != at + 1 ==> a[i] == old(a[i])
  {
    Store(a, at, 0);
    ghost var b := a[..];
    var sum := Folded(a);
    Store(a, at, 65535 - sum);
    Completed(b, at);
  }

  /** The complement of a swapped sum, stored low byte first, reads as the complement of the sum. */
  lemma {:induction false} StoredComplement(w: int, v: int)
    requires 0 <= w <= 65535 && v == 65535 - Swap(w)
    ensures 0 <= v % 256 < 256 && 0 <= v / 256 < 256 && v % 256 * 256 + v / 256 == 65535 - w
  {
    SwapComplement(w);
  }

  lemma {:induction false} CompletedWith(b: seq<int>, at: nat, hi: int, lo: int)
    requires Bytes(b) && at % 2 == 0 && at + 2 <= |b| && b[at] == 0 && b[at + 1] == 0
    requires 0 <= hi < 256 && 0 <= lo < 256 && WordSum(b) >= 0 && hi * 256 + lo == 65535 - Ones(WordSum(b))
    ensures Bytes(b[at := hi][at + 1 := lo]) && Passes(b[at := hi][at + 1 := lo])
  {
    var c := b[at := hi][at + 1 := lo];
    SumReplaced(b, at, hi, lo);
    PassesIff(c);
    SameResidue(WordSum(b), Ones(WordSum(b)));
    AddMultiple(WordSum(b) - Ones(WordSum(b)), 65535);
  }

  /** Storing the complement of the sum of a buffer with an empty field makes the sum 65535. */
  lemma {:induction false} Completed(b: seq<int>, at: nat)
    requires Bytes(b) && at % 2 == 0 && at + 2 <= |b| && b[at] == 0 && b[at + 1] == 0
    ensures WordSum(b) >= 0
    ensures var v := 65535 - Swap(Ones(WordSum(b)));
            var c := b[at := v % 256][at + 1 := v / 256];
            Bytes(c) && Passes(c) && Word(c, at) == 65535 - Ones(WordSum(b))
  {
    WordSumBound(b);
    var v := 65535 - Swap(Ones(WordSum(b)));
    StoredComplement(Ones(WordSum(b)), v);
    CompletedWith(b, at, v % 256, v / 256);
  }
}
