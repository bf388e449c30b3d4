/**
 What base64 text is, without any encoder: groups of section 4 of RFC 4648 as 24-bit numbers,
 cut into lines as in section 6.8 of RFC 2045.
 */
module Base64Spec {
  import opened Streams
  import Common

  /** `base64_traits` pads, `base64_url_traits` does not. */
  datatype Traits = Standard | Url {
    predicate Padding() { this == Standard }
  }

  predicate Bytes(b: seq<int>) { forall i :: 0 <= i < |b| ==> 0 <= b[i] < 256 }

  // ---------------------------------------------------------------- alphabet

  /** The 64-character table of the traits: letters, digits and two characters of its own. */
  function Enc(tr: Traits, i: int): (c: char)
    requires 0 <= i < 64
  {
    if i < 26 then ('A' as int + i) as char
    else if i < 52 then ('a' as int + i - 26) as char
    else if i < 62 then ('0' as int + i - 52) as char
    else if i == 62 then (if tr == Standard then '+' else '-')
    else (if tr == Standard then '/' else '_')
  }

  /** Position in the table, or 64. */
  function Dec(tr: Traits, ch: char): (i: int)
    ensures 0 <= i <= 64
    ensures i < 64 ==> Enc(tr, i) == ch
    ensures i == 64 ==> forall k :: 0 <= k < 64 ==> Enc(tr, k) != ch
  {
    if 'A' <= ch <= 'Z' then ch as int - 'A' as int
    else if 'a' <= ch <= 'z' then ch as int - 'a' as int + 26
    else if '0' <= ch <= '9' then ch as int - '0' as int + 52
    else if ch == Enc(tr, 62) then 62
    else if ch == Enc(tr, 63) then 63
    else 64
  }

  lemma DecEnc(tr: Traits, i: int)
    requires 0 <= i < 64
    ensures Dec(tr, Enc(tr, i)) == i
  {
  }

  const UPPER := "ABCDEFGHIJKLMNOPQRSTUVWXYZ"
  const LOWER := "abcdefghijklmnopqrstuvwxyz"
  const DIGITS := "0123456789"

  /** The tables written out, as in sections 4 and 5 of RFC 4648. */
  function Table(tr: Traits): string { UPPER + LOWER + DIGITS + if tr == Standard then "+/" else "-_" }

  lemma {:induction false} UpperAt(i: nat)
    requires i < 26
    ensures UPPER[i] as int == 'A' as int + i
  {
  }

  lemma {:induction false} LowerAt(i: nat)
    requires i < 26
    ensures LOWER[i] as int == 'a' as int + i
  {
  }

  lemma {:induction false} DigitAt(i: nat)
    requires i < 10
    ensures DIGITS[i] as int == '0' as int + i
  {
  }

  lemma {:induction false} PartAt(a: string, b: string, c: string, d: string, i: nat)
    requires |a| == |b| == 26 && |c| == 10 && |d| == 2 && i < 64
    ensures var t := a + b + c + d;
            && |t| == 64
            && t[i] == if i < 26 then a[i] else if i < 52 then b[i - 26] else if i < 62 then c[i - 52] else d[i - 62]
  {
  }

  /** `enc` reads the table. */
  lemma {:induction false} EncIsTable(tr: Traits, i: nat)
    requires i < 64
    ensures |Table(tr)| == 64 && Enc(tr, i) == Table(tr)[i]
  {
    PartAt(UPPER, LOWER, DIGITS, if tr == Standard then "+/" else "-_", i);
    if i < 26 {
      UpperAt(i);
    } else if i < 52 {
      LowerAt(i - 26);
    } else if i < 62 {
      DigitAt(i - 52);
    }
  }

  // ---------------------------------------------------------------- groups

  /** The first `n` characters of a group of three bytes, then the padding the alphabet asks for. */
  function Group(tr: Traits, b0: int, b1: int, b2: int, n: int): (g: string)
    requires 0 <= b0 < 256 && 0 <= b1 < 256 && 0 <= b2 < 256 && 2 <= n <= 4
    ensures |g| == if tr.Padding() then 4 else n
  {
    var bits := b0 * 65536 + b1 * 256 + b2;
    [Enc(tr, bits / 262144), Enc(tr, bits / 4096 % 64)]
    + (if n >= 3 then [Enc(tr, bits / 64 % 64)] else if tr.Padding() then "=" else "")
    + (if n == 4 then [Enc(tr, bits % 64)] else if tr.Padding() then "=" else "")
  }

  /** The encoded bytes on one endless line. */
  function Payload(tr: Traits, b: seq<int>): string
    requires Bytes(b)
  {
    if |b| == 0 then ""
    else if |b| == 1 then Group(tr, b[0], 0, 0, 2)
    else if |b| == 2 then Group(tr, b[0], b[1], 0, 3)
    else Group(tr, b[0], b[1], b[2], 4) + Payload(tr, b[3..])
  }

  // ---------------------------------------------------------------- lines

  function Lines(p: string, max: int): (ls: seq<string>)
    requires max >= 1
  {
    if |p| == 0 then [] else if |p| <= max then [p] else [p[..max]] + Lines(p[max..], max)
  }

  function Join(ls: seq<string>, end: string): string {
    if ls == [] then "" else ls[0] + end + Join(ls[1..], end)
  }

  /** The encoded bytes in lines of at most `max` characters, every line followed by a break. */
  function Wire(tr: Traits, nl: Newline, max: int, b: seq<int>): string
    requires Bytes(b) && max >= 1
  {
    Join(Lines(Payload(tr, b), max), Break(nl))
  }

  // ---------------------------------------------------------------- the same, character by character

  function Tail1(tr: Traits, p: int, r: seq<int>): string
    requires 0 <= p < 256 && Bytes(r)
    decreases |r|, 1
  {
    if r == [] then [Enc(tr, p % 4 * 16)] + (if tr.Padding() then "==" else "")
    else [Enc(tr, p % 4 * 16 + r[0] / 16)] + Tail2(tr, r[0], r[1..])
  }

  function Tail2(tr: Traits, p: int, r: seq<int>): string
    requires 0 <= p < 256 && Bytes(r)
    decreases |r|, 1
  {
    if r == [] then [Enc(tr, p % 16 * 4)] + (if tr.Padding() then "=" else "")
    else [Enc(tr, p % 16 * 4 + r[0] / 64)] + Tail3(tr, r[0], r[1..])
  }

  function Tail3(tr: Traits, p: int, r: seq<int>): string
    requires 0 <= p < 256 && Bytes(r)
    decreases |r|, 1
  {
    [Enc(tr, p % 64)] + Stream(tr, r)
  }

  function Stream(tr: Traits, r: seq<int>): string
    requires Bytes(r)
    decreases |r|, 0
  {
    if r == [] then "" else [Enc(tr, r[0] / 4)] + Tail1(tr, r[0], r[1..])
  }

  lemma Multiple(n: int, d: int)
    requires d > 0 && -d < n * d < d
    ensures n == 0
  {
    if n >= 1 {
      AtLeast(n, d);
    } else if n <= -1 {
      AtLeast(-n, d);
    }
  }

  lemma AtLeast(n: int, d: int)
    requires d > 0 && n >= 1
    ensures n * d >= d
  {
    assert n * d == (n - 1) * d + d;
  }

  lemma Quotient(x: int, d: int, q: int, r: int)
    requires d > 0 && x == q * d + r && 0 <= r < d
    ensures x / d == q && x % d == r
  {
    var k, m := x / d, x % d;
    assert x == k * d + m;
    assert (k - q) * d == r - m;
    Multiple(k - q, d);
  }

  lemma GroupBits(b0: int, b1: int, b2: int)
    requires 0 <= b0 < 256 && 0 <= b1 < 256 && 0 <= b2 < 256
    ensures var bits := b0 * 65536 + b1 * 256 + b2;
            && bits / 262144 == b0 / 4 && bits / 4096 % 64 == b0 % 4 * 16 + b1 / 16
            && bits / 64 % 64 == b1 % 16 * 4 + b2 / 64 && bits % 64 == b2 % 64
  {
    var bits := b0 * 65536 + b1 * 256 + b2;
    var s0, s1, s2, s3 := b0 / 4, b0 % 4 * 16 + b1 / 16, b1 % 16 * 4 + b2 / 64, b2 % 64;
    assert bits == s0 * 262144 + s1 * 4096 + s2 * 64 + s3;
    Quotient(bits, 262144, s0, s1 * 4096 + s2 * 64 + s3);
    Quotient(bits, 4096, s0 * 64 + s1, s2 * 64 + s3);
    Quotient(s0 * 64 + s1, 64, s0, s1);
    Quotient(bits, 64, s0 * 4096 + s1 * 64 + s2, s3);
    Quotient(s0 * 4096 + s1 * 64 + s2, 64, s0 * 64 + s1, s2);
  }

  lemma {:induction false} GroupValues(tr: Traits, b0: int, b1: int, b2: int, n: int)
    requires 0 <= b0 < 256 && 0 <= b1 < 256 && 0 <= b2 < 256 && 2 <= n <= 4
    ensures Group(tr, b0, b1, b2, n)
            == [Enc(tr, b0 / 4), Enc(tr, b0 % 4 * 16 + b1 / 16)]
               + (if n >= 3 then [Enc(tr, b1 % 16 * 4 + b2 / 64)] else if tr.Padding() then "=" else "")
               + (if n == 4 then [Enc(tr, b2 % 64)] else if tr.Padding() then "=" else "")
  {
    GroupBits(b0, b1, b2);
  }

  lemma {:induction false} StreamOne(tr: Traits, b0: int)
    requires 0 <= b0 < 256
    ensures Stream(tr, [b0]) == Group(tr, b0, 0, 0, 2)
  {
    GroupValues(tr, b0, 0, 0, 2);
    assert [b0][1..] == [];
  }

  lemma {:induction false} StreamTwo(tr: Traits, b0: int, b1: int)
    requires 0 <= b0 < 256 && 0 <= b1 < 256
    ensures Stream(tr, [b0, b1]) == Group(tr, b0, b1, 0, 3)
  {
    GroupValues(tr, b0, b1, 0, 3);
    assert [b0, b1][1..] == [b1] && [b1][1..] == [];
    assert Tail1(tr, b0, [b1]) == [Enc(tr, b0 % 4 * 16 + b1 / 16)] + Tail2(tr, b1, []);
  }

  lemma {:induction false} TailOne(tr: Traits, p: int, x: int, r: seq<int>)
    requires 0 <= p < 256 && 0 <= x < 256 && Bytes(r)
    ensures Tail1(tr, p, [x] + r) == [Enc(tr, p % 4 * 16 + x / 16)] + Tail2(tr, x, r)
  {
    assert ([x] + r)[1..] == r;
  }

  lemma {:induction false} TailTwo(tr: Traits, p: int, x: int, r: seq<int>)
    requires 0 <= p < 256 && 0 <= x < 256 && Bytes(r)
    ensures Tail2(tr, p, [x] + r) == [Enc(tr, p % 16 * 4 + x / 64), Enc(tr, x % 64)] + Stream(tr, r)
  {
    assert ([x] + r)[1..] == r;
  }

  lemma {:induction false} StreamThree(tr: Traits, b0: int, b1: int, b2: int, r: seq<int>)
    requires 0 <= b0 < 256 && 0 <= b1 < 256 && 0 <= b2 < 256 && Bytes(r)
    ensures Stream(tr, [b0] + ([b1] + ([b2] + r))) == Group(tr, b0, b1, b2, 4) + Stream(tr, r)
  {
    GroupValues(tr, b0, b1, b2, 4);
    StreamFirst(tr, b0, [b1] + ([b2] + r));
    TailOne(tr, b0, b1, [b2] + r);
    TailTwo(tr, b1, b2, r);
    FourTogether(Enc(tr, b0 / 4), Enc(tr, b0 % 4 * 16 + b1 / 16), Enc(tr, b1 % 16 * 4 + b2 / 64), Enc(tr, b2 % 64),
                 Stream(tr, r));
  }

  lemma {:induction false} StreamFirst(tr: Traits, b0: int, r: seq<int>)
    requires 0 <= b0 < 256 && Bytes(r)
    ensures Stream(tr, [b0] + r) == [Enc(tr, b0 / 4)] + Tail1(tr, b0, r)
  {
    assert ([b0] + r)[1..] == r;
  }

  lemma {:induction false} FourTogether(a: char, b: char, c: char, d: char, rest: string)
    ensures [a] + ([b] + ([c, d] + rest)) == [a, b] + [c] + [d] + rest
  {
  }

  lemma {:induction false} StreamIsPayload(tr: Traits, b: seq<int>)
    requires Bytes(b)
    ensures Stream(tr, b) == Payload(tr, b)
    decreases |b|
  {
    if |b| == 1 {
      StreamOne(tr, b[0]);
      assert b == [b[0]];
    } else if |b| == 2 {
      StreamTwo(tr, b[0], b[1]);
      assert b == [b[0], b[1]];
    } else if |b| >= 3 {
      StreamThree(tr, b[0], b[1], b[2], b[3..]);
      assert b == [b[0]] + ([b[1]] + ([b[2]] + b[3..]));
      StreamIsPayload(tr, b[3..]);
    }
  }

  /**
   What is still written when the current line holds `col` characters, `p` is left of the payload and
   the last line is closed by `end`.
   */
  function From(p: string, col: int, max: int, nl: string, end: string): string
    requires max >= 1
    decreases |p|, if col >= max then 1 else 0
  {
    if p == [] then (if col == 0 then "" else end)
    else if col >= max then nl + From(p, 0, max, nl, end)
    else [p[0]] + From(p[1..], col + 1, max, nl, end)
  }

  /** A stretch that fits the current line is written as it is. */
  lemma {:induction false} FromFits(q: string, p: string, col: int, max: int, nl: string, end: string)
    requires max >= 1 && 0 <= col && col + |q| <= max
    ensures From(q + p, col, max, nl, end) == q + From(p, col + |q|, max, nl, end)
    decreases |q|
  {
    if q == [] {
      assert q + p == p;
    } else {
      assert (q + p)[0] == q[0] && (q + p)[1..] == q[1..] + p;
      FromFits(q[1..], p, col + 1, max, nl, end);
      assert q == [q[0]] + q[1..];
    }
  }

  lemma {:induction false} FromIsJoin(p: string, max: int, nl: string)
    requires max >= 1
    ensures From(p, 0, max, nl, nl) == Join(Lines(p, max), nl)
    decreases |p|
  {
    if |p| == 0 {
    } else if |p| <= max {
      FromFits(p, "", 0, max, nl, nl);
      assert p + "" == p && [p][1..] == [];
    } else {
      FromFits(p[..max], p[max..], 0, max, nl, nl);
      assert p[..max] + p[max..] == p;
      FromIsJoin(p[max..], max, nl);
      var ls := Lines(p, max);
      assert ls[1..] == Lines(p[max..], max);
    }
  }

  lemma {:induction false} FromIsWire(tr: Traits, nl: Newline, max: int, b: seq<int>)
    requires Bytes(b) && max >= 1
    ensures From(Stream(tr, b), 0, max, Break(nl), Break(nl)) == Wire(tr, nl, max, b)
  {
    StreamIsPayload(tr, b);
    FromIsJoin(Payload(tr, b), max, Break(nl));
  }

  // ---------------------------------------------------------------- line lengths

  /** Groups of three bytes, the last one perhaps begun only. */
  function Groups(n: nat): nat { if n == 0 then 0 else if n < 3 then 1 else 1 + Groups(n - 3) }

  /** A padded payload has four characters for every group. */
  lemma {:induction false} PayloadLength(tr: Traits, b: seq<int>)
    requires Bytes(b) && tr.Padding()
    ensures |Payload(tr, b)| == 4 * Groups(|b|)
    decreases |b|
  {
    if |b| >= 3 {
      PayloadLength(tr, b[3..]);
      PayloadSum(tr, b);
    } else {
      PayloadSmall(tr, b);
    }
  }

  lemma {:induction false} PayloadSum(tr: Traits, b: seq<int>)
    requires Bytes(b) && |b| >= 3
    ensures |Payload(tr, b)| == 4 + |Payload(tr, b[3..])|
  {
  }

  lemma {:induction false} PayloadSmall(tr: Traits, b: seq<int>)
    requires Bytes(b) && |b| < 3 && tr.Padding()
    ensures |Payload(tr, b)| == if b == [] then 0 else 4
  {
  }

  predicate Fits(ls: seq<string>, max: int) { forall i :: 0 <= i < |ls| ==> 1 <= |ls[i]| <= max && |ls[i]| % 4 == 0 }

  lemma {:induction false} JoinCons(line: string, ls: seq<string>)
    ensures Join([line] + ls, "") == line + Join(ls, "")
  {
    assert ([line] + ls)[1..] == ls && line + "" == line;
  }

  lemma {:induction false} CutAt(p: string, n: nat)
    requires n <= |p|
    ensures p[..n] + p[n..] == p && p + "" == p
  {
  }

  lemma {:induction false} LinesLoseNothing(p: string, max: int)
    requires max >= 1
    ensures Join(Lines(p, max), "") == p
    decreases |p|
  {
    if |p| > max {
      LinesLoseNothing(p[max..], max);
      JoinCons(p[..max], Lines(p[max..], max));
      CutAt(p, max);
    } else if |p| > 0 {
      JoinCons(p, []);
      CutAt(p, 0);
      assert [p] + [] == [p];
    }
  }

  lemma {:induction false} LinesAreGroups(p: string, max: int)
    requires max >= 4 && max % 4 == 0 && |p| % 4 == 0
    ensures Fits(Lines(p, max), max)
    decreases |p|
  {
    if |p| > max { LinesAreGroups(p[max..], max); }
  }

  /** Lines hold the whole payload, are never longer than `max`, and end between groups. */
  lemma {:induction false} LineLengths(p: string, max: int)
    requires max >= 4 && max % 4 == 0 && |p| % 4 == 0
    ensures Fits(Lines(p, max), max) && Join(Lines(p, max), "") == p
  {
    LinesLoseNothing(p, max);
    LinesAreGroups(p, max);
  }

  /** Every line but the last is filled. */
  lemma {:induction false} LinesFull(p: string, max: int)
    requires max >= 1
    ensures forall i :: 0 <= i < |Lines(p, max)| - 1 ==> |Lines(p, max)[i]| == max
    ensures forall i :: 0 <= i < |Lines(p, max)| ==> 1 <= |Lines(p, max)[i]| <= max
    decreases |p|
  {
    if |p| > max { LinesFull(p[max..], max); }
  }

  // ---------------------------------------------------------------- decoding

  /** The six-bit values in a text; every other character is skipped. */
  function Sextets(tr: Traits, s: string): seq<int> {
    if s == [] then []
    else if Dec(tr, s[0]) < 64 then [Dec(tr, s[0])] + Sextets(tr, s[1..])
    else Sextets(tr, s[1..])
  }

  lemma {:induction false} SextetsConcat(tr: Traits, s: string, t: string)
    ensures Sextets(tr, s + t) == Sextets(tr, s) + Sextets(tr, t)
    decreases |s|
  {
    if s == [] {
      assert s + t == t;
    } else {
      assert (s + t)[0] == s[0] && (s + t)[1..] == s[1..] + t;
      SextetsConcat(tr, s[1..], t);
    }
  }

  predicate Ignored(tr: Traits, s: string) { forall i :: 0 <= i < |s| ==> Dec(tr, s[i]) == 64 }

  lemma {:induction false} IgnoredSextets(tr: Traits, s: string)
    requires Ignored(tr, s)
    ensures Sextets(tr, s) == []
    decreases |s|
  {
    if s != [] { IgnoredSextets(tr, s[1..]); }
  }

  /** Line breaks carry nothing. */
  lemma {:induction false} FromSextets(tr: Traits, p: string, col: int, max: int, nl: string, end: string)
    requires max >= 1 && Ignored(tr, nl) && Ignored(tr, end)
    ensures Sextets(tr, From(p, col, max, nl, end)) == Sextets(tr, p)
    decreases |p|, if col >= max then 1 else 0
  {
    if p == [] {
      IgnoredSextets(tr, end);
    } else if col >= max {
      SextetsConcat(tr, nl, From(p, 0, max, nl, end));
      IgnoredSextets(tr, nl);
      FromSextets(tr, p, 0, max, nl, end);
    } else {
      var f := From(p, col, max, nl, end);
      assert f[0] == p[0] && f[1..] == From(p[1..], col + 1, max, nl, end);
      FromSextets(tr, p[1..], col + 1, max, nl, end);
    }
  }

  /** The byte completed by a value `v` in position `k` of its group, after the value `prior`. */
  function Octet(k: int, prior: int, v: int): int
    requires 1 <= k <= 3
  {
    if k == 1 then prior % 64 * 4 + v / 16
    else if k == 2 then prior % 16 * 16 + v / 4
    else prior % 16 * 64 + v
  }

  /** Bytes completed by the values `v`, the first of which stands in position `k` of its group. */
  function Decoded(k: int, prior: int, v: seq<int>): seq<int>
    requires 0 <= k < 4
    decreases |v|
  {
    if v == [] then []
    else (if k == 0 then [] else [Octet(k, prior, v[0]) % 256]) + Decoded((k + 1) % 4, v[0], v[1..])
  }

  lemma {:induction false} Octets(a: int, b: int, c: int, d: int)
    requires 0 <= a < 64 && 0 <= b < 64 && 0 <= c < 64 && 0 <= d < 64
    ensures Octet(1, a, b) % 256 == a * 4 + b / 16 && Octet(2, b, c) % 256 == b % 16 * 16 + c / 4
    ensures Octet(3, c, d) % 256 == c % 4 * 64 + d
  {
    Quotient(Octet(3, c, d), 256, c % 16 / 4, c % 4 * 64 + d);
  }

  lemma {:induction false} Cons(x: int, y: int, z: int, s: seq<int>)
    ensures [x] + ([y] + ([z] + s)) == [x, y, z] + s
  {
  }

  lemma {:induction false} DecodedFour(prior: int, a: int, b: int, c: int, d: int, rest: seq<int>)
    ensures Decoded(0, prior, [a] + ([b] + ([c] + ([d] + rest))))
            == [Octet(1, a, b) % 256] + ([Octet(2, b, c) % 256] + ([Octet(3, c, d) % 256] + Decoded(0, d, rest)))
  {
    DecodedCons(3, c, d, rest);
    DecodedCons(2, b, c, [d] + rest);
    DecodedCons(1, a, b, [c] + ([d] + rest));
    DecodedCons(0, prior, a, [b] + ([c] + ([d] + rest)));
  }

  /** A group of four values is three bytes with the same 24 bits, whichever values they are. */
  lemma {:induction false} DecodedGroup(prior: int, a: int, b: int, c: int, d: int, rest: seq<int>) returns (g: seq<int>)
    requires 0 <= a < 64 && 0 <= b < 64 && 0 <= c < 64 && 0 <= d < 64
    ensures Decoded(0, prior, [a, b, c, d] + rest) == g + Decoded(0, d, rest)
    ensures |g| == 3 && Bytes(g) && g[0] * 65536 + g[1] * 256 + g[2] == a * 262144 + b * 4096 + c * 64 + d
  {
    var x, y, z := a * 4 + b / 16, b % 16 * 16 + c / 4, c % 4 * 64 + d;
    Octets(a, b, c, d);
    DecodedFour(prior, a, b, c, d, rest);
    Cons(a, b, c, [d] + rest);
    Cons(x, y, z, Decoded(0, d, rest));
    Common.Assoc([a, b, c], [d], rest);
    assert [a, b, c] + [d] == [a, b, c, d];
    g := [x, y, z];
  }

  lemma {:induction false} DecodedTwo(prior: int, a: int, b: int)
    requires 0 <= a < 64 && 0 <= b < 64
    ensures Decoded(0, prior, [a]) == [] && Decoded(0, prior, [a] + [b]) == [Octet(1, a, b) % 256]
  {
    DecodedCons(0, prior, a, []);
    DecodedCons(1, a, b, []);
    DecodedCons(0, prior, a, [b]);
    assert [a] + [] == [a] && [b] + [] == [b];
  }

  lemma {:induction false} DecodedThree(prior: int, a: int, b: int, c: int)
    requires 0 <= a < 64 && 0 <= b < 64 && 0 <= c < 64
    ensures Decoded(0, prior, [a] + ([b] + [c])) == [Octet(1, a, b) % 256] + [Octet(2, b, c) % 256]
  {
    DecodedCons(2, b, c, []);
    DecodedCons(1, a, b, [c]);
    DecodedCons(0, prior, a, [b] + [c]);
    assert [c] + [] == [c];
  }

  lemma {:induction false} Halves(a: int, b: int, c: int)
    requires 0 <= a < 64 && 0 <= b < 64 && 0 <= c < 64
    ensures Octet(1, a, b) % 256 == (a * 64 + b) / 16
    ensures var bits := (a * 4096 + b * 64 + c) / 4; bits / 256 == Octet(1, a, b) % 256 && bits % 256 == Octet(2, b, c) % 256
  {
    var x, y := a * 4 + b / 16, b % 16 * 16 + c / 4;
    Octets(a, b, c, 0);
    Quotient(a * 64 + b, 16, x, b % 16);
    Quotient(a * 4096 + b * 64 + c, 4, x * 256 + y, c % 4);
    Quotient(x * 256 + y, 256, x, y);
  }

  /** Two or three values at the end are one or two bytes; the bits left over are dropped. A single value is nothing. */
  lemma {:induction false} DecodedPartial(prior: int, a: int, b: int, c: int)
    requires 0 <= a < 64 && 0 <= b < 64 && 0 <= c < 64
    ensures Decoded(0, prior, [a]) == []
    ensures Decoded(0, prior, [a, b]) == [(a * 64 + b) / 16]
    ensures var bits := (a * 4096 + b * 64 + c) / 4; Decoded(0, prior, [a, b, c]) == [bits / 256, bits % 256]
  {
    DecodedTwo(prior, a, b);
    DecodedThree(prior, a, b, c);
    Halves(a, b, c);
    assert [a] + [b] == [a, b] && [a] + ([b] + [c]) == [a, b, c];
  }

  lemma {:induction false} DecInTable(tr: Traits, ch: char)
    ensures Dec(tr, ch) < 64 ==> ch in Table(tr)
  {
    var d := Dec(tr, ch);
    if d < 64 { EncIsTable(tr, d); }
  }

  /** Characters outside the alphabet change nothing, wherever they stand. */
  lemma {:induction false} SextetsForeign(tr: Traits, s: string, foreign: string, t: string)
    requires forall ch <- foreign :: ch !in Table(tr)
    ensures Sextets(tr, s + foreign + t) == Sextets(tr, s + t)
  {
    forall i | 0 <= i < |foreign|
      ensures Dec(tr, foreign[i]) == 64
    {
      DecInTable(tr, foreign[i]);
      assert foreign[i] in foreign;
    }
    IgnoredSextets(tr, foreign);
    SextetsConcat(tr, s + foreign, t);
    SextetsConcat(tr, s, foreign);
    SextetsConcat(tr, s, t);
  }

  lemma {:induction false} EncSextet(tr: Traits, i: int, s: string)
    requires 0 <= i < 64
    ensures Sextets(tr, [Enc(tr, i)] + s) == [i] + Sextets(tr, s)
  {
    DecEnc(tr, i);
    assert ([Enc(tr, i)] + s)[1..] == s;
  }

  lemma {:induction false} FirstOctet(b0: int, b1: int)
    requires 0 <= b0 < 256 && 0 <= b1 < 256
    ensures Octet(1, b0 / 4, b0 % 4 * 16 + b1 / 16) % 256 == b0
  {
    Quotient(b0 % 4 * 16 + b1 / 16, 16, b0 % 4, b1 / 16);
  }

  lemma {:induction false} SecondOctet(b0: int, b1: int, b2: int)
    requires 0 <= b0 < 256 && 0 <= b1 < 256 && 0 <= b2 < 256
    ensures Octet(2, b0 % 4 * 16 + b1 / 16, b1 % 16 * 4 + b2 / 64) % 256 == b1
  {
    Quotient(b0 % 4 * 16 + b1 / 16, 16, b0 % 4, b1 / 16);
    Quotient(b1 % 16 * 4 + b2 / 64, 4, b1 % 16, b2 / 64);
  }

  lemma {:induction false} ThirdOctet(b1: int, b2: int)
    requires 0 <= b1 < 256 && 0 <= b2 < 256
    ensures Octet(3, b1 % 16 * 4 + b2 / 64, b2 % 64) % 256 == b2
  {
    var x := b1 % 16 * 4 + b2 / 64;
    Quotient(x, 16, b1 % 16 / 4, b1 % 4 * 4 + b2 / 64);
    assert Octet(3, x, b2 % 64) == (b1 % 4) * 256 + b2;
    Quotient(Octet(3, x, b2 % 64), 256, b1 % 4, b2);
  }

  lemma {:induction false} DecodedCons(k: int, prior: int, v: int, rest: seq<int>)
    requires 0 <= k < 4
    ensures Decoded(k, prior, [v] + rest)
            == (if k == 0 then [] else [Octet(k, prior, v) % 256]) + Decoded((k + 1) % 4, v, rest)
  {
    assert ([v] + rest)[1..] == rest;
  }

  lemma {:induction false} DecodeLast2(tr: Traits, b0: int, p: int)
    requires 0 <= b0 < 256 && 0 <= p < 256
    ensures Decoded(2, b0 % 4 * 16 + p / 16, Sextets(tr, Tail2(tr, p, []))) == [p]
  {
    var pad := if tr.Padding() then "=" else "";
    EncSextet(tr, p % 16 * 4, pad);
    IgnoredSextets(tr, pad);
    SecondOctet(b0, p, 0);
    DecodedCons(2, b0 % 4 * 16 + p / 16, p % 16 * 4, []);
  }

  lemma {:induction false} DecodeTail3(tr: Traits, b1: int, p: int, r: seq<int>)
    requires 0 <= b1 < 256 && 0 <= p < 256 && Bytes(r)
    ensures Decoded(3, b1 % 16 * 4 + p / 64, Sextets(tr, Tail3(tr, p, r))) == [p] + r
    decreases |r|, 2
  {
    DecodeStream(tr, p % 64, r);
    ThirdOctet(b1, p);
    DecodeCons(tr, 3, b1 % 16 * 4 + p / 64, p % 64, Stream(tr, r), r);
  }

  /** One more value in front of values that are already decoded. */
  lemma {:induction false} DecodeCons(tr: Traits, k: int, prior: int, v: int, s: string, out: seq<int>)
    requires 1 <= k < 4 && 0 <= v < 64 && Decoded((k + 1) % 4, v, Sextets(tr, s)) == out
    ensures Decoded(k, prior, Sextets(tr, [Enc(tr, v)] + s)) == [Octet(k, prior, v) % 256] + out
  {
    EncSextet(tr, v, s);
    DecodedCons(k, prior, v, Sextets(tr, s));
  }

  lemma {:induction false} DecodeSecond(tr: Traits, b0: int, p: int, x: int, rest: seq<int>)
    requires 0 <= b0 < 256 && 0 <= p < 256 && 0 <= x < 256 && Bytes(rest)
    requires Decoded(3, p % 16 * 4 + x / 64, Sextets(tr, Tail3(tr, x, rest))) == [x] + rest
    ensures Decoded(2, b0 % 4 * 16 + p / 16, Sextets(tr, [Enc(tr, p % 16 * 4 + x / 64)] + Tail3(tr, x, rest)))
            == [p] + ([x] + rest)
  {
    SecondOctet(b0, p, x);
    DecodeCons(tr, 2, b0 % 4 * 16 + p / 16, p % 16 * 4 + x / 64, Tail3(tr, x, rest), [x] + rest);
  }

  lemma {:induction false} DecodeTail2(tr: Traits, b0: int, p: int, r: seq<int>)
    requires 0 <= b0 < 256 && 0 <= p < 256 && Bytes(r)
    ensures Decoded(2, b0 % 4 * 16 + p / 16, Sextets(tr, Tail2(tr, p, r))) == [p] + r
    decreases |r|, 2
  {
    if r == [] {
      DecodeLast2(tr, b0, p);
      assert [p] + r == [p];
    } else {
      var x, rest := r[0], r[1..];
      DecodeTail3(tr, p, x, rest);
      DecodeSecond(tr, b0, p, x, rest);
      assert [x] + rest == r;
    }
  }

  lemma {:induction false} DecodeTail1(tr: Traits, p: int, r: seq<int>)
    requires 0 <= p < 256 && Bytes(r)
    ensures Decoded(1, p / 4, Sextets(tr, Tail1(tr, p, r))) == [p] + r
    decreases |r|, 3
  {
    if r == [] {
      var pad := if tr.Padding() then "==" else "";
      EncSextet(tr, p % 4 * 16, pad);
      IgnoredSextets(tr, pad);
      FirstOctet(p, 0);
      DecodedCons(1, p / 4, p % 4 * 16, []);
      assert [p] + r == [p] + [];
    } else {
      var x, rest := r[0], r[1..];
      DecodeTail2(tr, p, x, rest);
      FirstOctet(p, x);
      DecodeCons(tr, 1, p / 4, p % 4 * 16 + x / 16, Tail2(tr, x, rest), [x] + rest);
      assert [x] + rest == r;
    }
  }

  /** Decoding the characters of a byte string gives the byte string back, whatever value came before. */
  lemma {:induction false} DecodeStream(tr: Traits, prior: int, r: seq<int>)
    requires Bytes(r)
    ensures Decoded(0, prior, Sextets(tr, Stream(tr, r))) == r
    decreases |r|, 1
  {
    if r != [] {
      EncSextet(tr, r[0] / 4, Tail1(tr, r[0], r[1..]));
      DecodeTail1(tr, r[0], r[1..]);
      DecodedCons(0, prior, r[0] / 4, Sextets(tr, Tail1(tr, r[0], r[1..])));
      assert [r[0]] + r[1..] == r;
    }
  }
}
