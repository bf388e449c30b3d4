/**
 Counting with an address held as big-endian bytes: the four in-place loops that step an address
 forward and backward by one or by a signed distance.
 */
module ByteArith {

  type byte = x: int | 0 <= x < 256

  // ---------------------------------------------------------------- addresses as numbers

  function Power(n: nat): (p: nat)
    ensures p >= 1
  {
    if n == 0 then 1 else 256 * Power(n - 1)
  }

  /** The residue modulo 256^n. */
  function Residue(v: int, n: nat): int { v % Power(n) }

  function Value(s: seq<byte>): (v: nat) {
    if s == [] then 0 else 256 * Value(s[..|s| - 1]) + s[|s| - 1]
  }

  function Bytes(n: nat, v: int): (s: seq<byte>)
    ensures |s| == n
  {
    if n == 0 then [] else Bytes(n - 1, v / 256) + [v % 256]
  }

  /** The address at signed distance `d`, in the space of addresses of the same length. */
  function Plus(s: seq<byte>, d: int): (r: seq<byte>)
    ensures |r| == |s|
  {
    Bytes(|s|, Value(s) + d)
  }

  lemma {:induction false} BytesOfValue(s: seq<byte>)
    ensures Bytes(|s|, Value(s)) == s
  {
    if s != [] { BytesOfValue(s[..|s| - 1]); }
  }

  lemma {:induction false} TimesBounds(m: int, x: int)
    requires m >= 1
    ensures x >= 1 ==> m * x >= m
    ensures x <= -1 ==> m * x <= -m
  {
    if x >= 1 { assert m * (x - 1) >= 0; } else if x <= -1 { assert m * (-1 - x) >= 0; }
  }

  lemma {:induction false} QuotientUnique(m: int, q: int, r: int, q': int, r': int)
    requires m >= 1 && m * q + r == m * q' + r' && 0 <= r < m && 0 <= r' < m
    ensures r == r'
  {
    TimesBounds(m, q - q');
    assert m * (q - q') == m * q - m * q';
  }

  lemma {:induction false} ModTimes(v: int, p: int)
    requires p >= 1
    ensures 256 * ((v / 256) % p) + v % 256 == v % (256 * p)
  {
    var w, m := v / 256, 256 * p;
    var q, r, q', r' := w / p, w % p, v / m, v % m;
    assert w == p * q + r;
    assert v == m * q' + r';
    assert 256 * (p * q) == m * q;
    QuotientUnique(m, q, 256 * r + v % 256, q', r');
  }

  lemma {:induction false} ValueOfBytes(n: nat, v: int)
    ensures Value(Bytes(n, v)) == Residue(v, n)
  {
    if n > 0 {
      ValueOfBytes(n - 1, v / 256);
      ModTimes(v, Power(n - 1));
      assert Bytes(n, v)[..n - 1] == Bytes(n - 1, v / 256);
    }
  }

  /** Addresses of one length and numbers below 256^n correspond one to one. */
  lemma {:induction false} ValueInjective(s: seq<byte>, t: seq<byte>)
    requires |s| == |t|
    ensures Value(s) < Power(|s|)
    ensures Value(s) == Value(t) <==> s == t
  {
    BytesOfValue(s);
    BytesOfValue(t);
    ValueOfBytes(|s|, Value(s));
  }

  // ---------------------------------------------------------------- distances

  /** Stepping is addition modulo 256^n. */
  lemma {:induction false} PlusIsModular(s: seq<byte>, d: int)
    ensures Value(Plus(s, d)) == Residue(Value(s) + d, |s|)
  {
    ValueOfBytes(|s|, Value(s) + d);
  }

  lemma {:induction false} BytesPlus(n: nat, v: int, e: int)
    ensures Bytes(n, Value(Bytes(n, v)) + e) == Bytes(n, v + e)
  {
    if n > 0 {
      var high, low := v / 256, v % 256;
      var s := Bytes(n - 1, high);
      BytesPlus(n - 1, high, (low + e) / 256);
      assert Bytes(n, v)[..n - 1] == s && Value(Bytes(n, v)) == 256 * Value(s) + low;
      BytesLow(n, Value(s), low, e);
      BytesLow(n, high, low, e);
      assert v == 256 * high + low;
    }
  }

  lemma {:induction false} BytesLow(n: nat, high: int, low: int, e: int)
    requires n > 0
    ensures Bytes(n, 256 * high + low + e) == Bytes(n - 1, high + (low + e) / 256) + [(low + e) % 256]
  {
    AddLow(high, low, e);
  }

  lemma {:induction false} AddLow(high: int, low: int, e: int)
    ensures (256 * high + low + e) / 256 == high + (low + e) / 256
    ensures (256 * high + low + e) % 256 == (low + e) % 256
  {
  }

  /** Distances compose. */
  lemma {:induction false} PlusPlus(s: seq<byte>, d: int, e: int)
    ensures Plus(Plus(s, d), e) == Plus(s, d + e)
  {
    BytesPlus(|s|, Value(s) + d, e);
  }

  lemma {:induction false} PlusZero(s: seq<byte>)
    ensures Plus(s, 0) == s
  {
    BytesOfValue(s);
  }

  /** Subtracting what was added, or adding what was subtracted, restores every byte. */
  lemma {:induction false} Undone(s: seq<byte>, d: int)
    ensures Plus(Plus(s, d), -d) == s && Plus(Plus(s, -d), d) == s
  {
    PlusPlus(s, d, -d);
    PlusPlus(s, -d, d);
    PlusZero(s);
  }

  /** A whole number of turns around the space of addresses of `n` bytes. */
  predicate Turns(d: int, n: nat) { Residue(d, n) == 0 }

  lemma {:induction false} TurnsStep(d: int, n: nat)
    ensures Turns(d, n + 1) <==> d % 256 == 0 && Turns(d / 256, n)
  {
    var p := Power(n);
    ModTimes(d, p);
    var r := (d / 256) % p;
    assert 0 <= r;
  }

  lemma {:induction false} SameAddressIff(s: seq<byte>, d: int)
    ensures Plus(s, d) == s <==> Turns(d, |s|)
  {
    if s != [] {
      var n := |s| - 1;
      SameAddressIff(s[..n], d / 256);
      TurnsStep(d, n);
      PlusLast(s, d);
      var t := Plus(s, d);
      assert t[n] == (s[n] + d) % 256 && t[..n] == Plus(s[..n], (s[n] + d) / 256);
      assert s == s[..n] + [s[n]];
      if d % 256 == 0 {
        assert t == s <==> t[..n] == s[..n];
      }
    }
  }

  /** What `add` and `sub` move by: a negative operand is applied by the callee and then once more. */
  function Moved(num: int): int { if num < 0 then 2 * num else num }

  /** `add` reaches the address at the distance asked for exactly when the operand is not negative or is a whole turn. */
  lemma {:induction false} AddCorrectIff(s: seq<byte>, num: int)
    ensures Plus(s, Moved(num)) == Plus(s, num) <==> num >= 0 || Turns(num, |s|)
  {
    if num < 0 {
      PlusPlus(s, num, num);
      SameAddressIff(Plus(s, num), num);
    }
  }

  /** So does `sub`. */
  lemma {:induction false} SubCorrectIff(s: seq<byte>, num: int)
    ensures Plus(s, -Moved(num)) == Plus(s, -num) <==> num >= 0 || Turns(-num, |s|)
  {
    if num < 0 {
      PlusPlus(s, -num, -num);
      SameAddressIff(Plus(s, -num), -num);
    }
  }

  /** Adding minus one to 0.0.0.5 gives 0.0.0.3. */
  lemma {:induction false} NegativeAddTwice()
    ensures Plus([0, 0, 0, 5], Moved(-1)) == [0, 0, 0, 3] != Plus([0, 0, 0, 5], -1)
  {
    var s: seq<byte>, t: seq<byte>, u: seq<byte> := [0, 0, 0, 5], [0, 0, 0, 3], [0, 0, 0, 4];
    PlusLast(s, -2);
    PlusLast(s, -1);
    PlusZero(s[..3]);
    assert s[..3] + [3] == t && s[..3] + [4] == u;
  }

  // ---------------------------------------------------------------- the loops

  /** One byte of the loop: the byte gets the low digit and the rest is carried. */
  lemma {:induction false} PlusLast(s: seq<byte>, d: int)
    requires s != []
    ensures var n := |s| - 1; Plus(s, d) == Plus(s[..n], (s[n] + d) / 256) + [(s[n] + d) % 256]
  {
  }

  lemma {:induction false} Carry(b: byte, n: int)
    ensures var rhs := n % 256; var sum := (b + rhs) % 256;
            sum == (b + n) % 256 && n / 256 + (if sum < rhs then 1 else 0) == (b + n) / 256
  {
  }

  lemma {:induction false} Borrow(b: byte, n: int)
    ensures var rhs := n % 256;
            ((b as int) - rhs) % 256 == (b - n) % 256 && -(n / 256 + if b < rhs then 1 else 0) == (b - n) / 256
  {
  }

  /** With the bytes from `i` on done and `d` still to be applied before them, the loop is on its way to `goal`. */
  ghost predicate Heading(goal: seq<byte>, s: seq<byte>, i: nat, d: int) {
    i <= |s| && goal == Plus(s[..i], d) + s[i..]
  }

  lemma {:induction false} Begin(s: seq<byte>, d: int)
    ensures Heading(Plus(s, d), s, |s|, d)
  {
    assert s[..|s|] == s;
  }

  lemma {:induction false} Step(goal: seq<byte>, s: seq<byte>, i: nat, d: int, t: seq<byte>, e: int)
    requires Heading(goal, s, i + 1, d)
    requires t == s[i := (s[i] + d) % 256] && e == (s[i] + d) / 256
    ensures Heading(goal, t, i, e)
  {
    PlusLast(s[..i + 1], d);
    assert s[..i + 1][..i] == s[..i] == t[..i];
    assert t[i..] == [t[i]] + s[i + 1..];
    assert Plus(s[..i], e) + ([t[i]] + s[i + 1..]) == (Plus(s[..i], e) + [t[i]]) + s[i + 1..];
  }

  lemma {:induction false} StepAdd(goal: seq<byte>, s: seq<byte>, i: nat, n: int, rhs: byte, sum: byte)
    requires Heading(goal, s, i + 1, n) && rhs == n % 256 && sum == (s[i] as int + rhs) % 256
    ensures Heading(goal, s[i := sum], i, n / 256 + if sum < rhs then 1 else 0)
  {
    Carry(s[i], n);
    Step(goal, s, i, n, s[i := sum], (s[i] + n) / 256);
  }

  lemma {:induction false} StepSub(goal: seq<byte>, s: seq<byte>, i: nat, n: int, rhs: byte, difference: byte)
    requires Heading(goal, s, i + 1, -n) && rhs == n % 256 && difference == (s[i] as int - rhs) % 256
    ensures Heading(goal, s[i := difference], i, -(n / 256 + if s[i] < rhs then 1 else 0))
  {
    Borrow(s[i], n);
    Step(goal, s, i, -n, s[i := difference], (s[i] - n) / 256);
  }

  lemma {:induction false} Stop(goal: seq<byte>, s: seq<byte>, i: nat, d: int)
    requires Heading(goal, s, i, d) && (i == 0 || d == 0)
    ensures goal == s
  {
    if i > 0 { PlusZero(s[..i]); }
  }

  method Incr(bytes: array<byte>)
    modifies bytes
    ensures bytes[..] == Plus(old(bytes[..]), 1)
  {
    var i := bytes.Length;
    var carried := true;
    ghost var goal, s := Plus(bytes[..], 1), bytes[..];
    Begin(s, 1);
    while i != 0 && carried
      invariant 0 <= i <= bytes.Length && bytes[..] == s
      invariant Heading(goal, s, i, if carried then 1 else 0)
    {
      i := i - 1;
      var it: int := bytes[i];
      bytes[i] := (it + 1) % 256;
      carried := bytes[i] == 0x00;
      Step(goal, s, i, 1, bytes[..], if carried then 1 else 0);
      s := bytes[..];
    }
    Stop(goal, s, i, if carried then 1 else 0);
  }

  method Decr(bytes: array<byte>)
    modifies bytes
    ensures bytes[..] == Plus(old(bytes[..]), -1)
  {
    var i := bytes.Length;
    var borrowed := true;
    ghost var goal, s := Plus(bytes[..], -1), bytes[..];
    Begin(s, -1);
    while i != 0 && borrowed
      invariant 0 <= i <= bytes.Length && bytes[..] == s
      invariant Heading(goal, s, i, if borrowed then -1 else 0)
    {
      i := i - 1;
      var it: int := bytes[i];
      bytes[i] := (it - 1) % 256;
      borrowed := bytes[i] == 0xFF;
      Step(goal, s, i, -1, bytes[..], if borrowed then -1 else 0);
      s := bytes[..];
    }
    Stop(goal, s, i, if borrowed then -1 else 0);
  }

  /** The range of `ptrdiff_t` without its least value, whose negation is undefined. */
  predicate Distance(num: int) { -0x8000_0000_0000_0000 < num < 0x8000_0000_0000_0000 }

  /** The loop of `add`; the shift to the right of a negative number rounds down. */
  method AddDigits(bytes: array<byte>, num: int)
    requires Distance(num)
    modifies bytes
    ensures bytes[..] == Plus(old(bytes[..]), num)
  {
    var i, n := bytes.Length, num;
    ghost var goal, s := Plus(bytes[..], num), bytes[..];
    Begin(s, num);
    while i != 0 && n != 0
      invariant 0 <= i <= bytes.Length && bytes[..] == s
      invariant Distance(n) && Heading(goal, s, i, n)
    {
      i := i - 1;
      var it: int, rhs := bytes[i], n % 256;
      bytes[i] := (it + rhs) % 256;
      StepAdd(goal, s, i, n, rhs, bytes[i]);
      n := n / 256;
      n := n + if bytes[i] < rhs then 1 else 0;
      s := bytes[..];
    }
    Stop(goal, s, i, n);
  }

  /** The loop of `sub`, with the borrow found by comparing the old byte. */
  method SubDigits(bytes: array<byte>, num: int)
    requires Distance(num)
    modifies bytes
    ensures bytes[..] == Plus(old(bytes[..]), -num)
  {
    var i, n := bytes.Length, num;
    ghost var goal, s := Plus(bytes[..], -num), bytes[..];
    Begin(s, -num);
    while i != 0 && n != 0
      invariant 0 <= i <= bytes.Length && bytes[..] == s
      invariant Distance(n) && Heading(goal, s, i, -n)
    {
      i := i - 1;
      var lhs: int, rhs := bytes[i], n % 256;
      bytes[i] := (lhs - rhs) % 256;
      StepSub(goal, s, i, n, rhs, bytes[i]);
      n := n / 256;
      n := n + if lhs < rhs then 1 else 0;
      s := bytes[..];
    }
    Stop(goal, s, i, -n);
  }

  method Add(bytes: array<byte>, num: int)
    requires Distance(num)
    modifies bytes
    ensures bytes[..] == Plus(old(bytes[..]), Moved(num))
    decreases num < 0
  {
    if num < 0 {
      Sub(bytes, -num);
      PlusPlus(old(bytes[..]), num, num);
    }
    AddDigits(bytes, num);
  }

  method Sub(bytes: array<byte>, num: int)
    requires Distance(num)
    modifies bytes
    ensures bytes[..] == Plus(old(bytes[..]), -Moved(num))
    decreases num < 0
  {
    if num < 0 {
      Add(bytes, -num);
      PlusPlus(old(bytes[..]), -num, -num);
    }
    SubDigits(bytes, num);
  }
}
