/**
 The base64 encoder and decoder. The encoder has two independent paths: `Get` is pulled for one
 character at a time and keeps its place in `cnt`, `max` and `prior`; `Put` and `Close` push.
 The contract of each step says which characters are still to come.
 */
module Base64Filter {
  import opened Streams
  import Common
  import opened Base64Spec

  const SIZE_MAX: int := 0xFFFF_FFFF_FFFF_FFFF

  /** What the constructor leaves in `max_`; a size below four leaves it unset, whatever that is. */
  function LineLimit(nl: Newline, size: int, unset: int): int {
    if size < 4 then unset
    else
      var room := if nl == None then SIZE_MAX else size - |Break(nl)|;
      room - room % 4
  }

  /** A limit with room for a group; `max_` is meant to be a multiple of four. */
  predicate Roomy(max: int) { max >= 4 && max % 4 == 0 }

  /**
   The limit is the largest multiple of four that fits beside the line break, and leaves room for a
   group exactly when one fits.
   */
  lemma RoomyIff(nl: Newline, size: int, unset: int)
    requires size >= 4
    ensures Roomy(LineLimit(nl, size, unset)) <==> (nl == None || size >= 4 + |Break(nl)|)
    ensures LineLimit(nl, size, unset) >= 0 && LineLimit(nl, size, unset) % 4 == 0
    ensures nl != None ==> LineLimit(nl, size, unset) + |Break(nl)| <= size < LineLimit(nl, size, unset) + |Break(nl)| + 4
    ensures nl == None ==> LineLimit(nl, size, unset) < 0x1_0000_0000_0000_0000 <= LineLimit(nl, size, unset) + 4
  {
  }

  /**
   Every line of a padded encoder, its break included, is within the requested size and ends between
   groups, and every line but the last has no room for one more group.
   */
  lemma {:induction false} LinesWithinSize(nl: Newline, size: int, unset: int, b: seq<int>)
    requires nl != None && size >= 4 + |Break(nl)| && Bytes(b)
    ensures var max := LineLimit(nl, size, unset);
            var ls := Lines(Payload(Standard, b), max);
            && Roomy(max)
            && Wire(Standard, nl, max, b) == Join(ls, Break(nl)) && Join(ls, "") == Payload(Standard, b)
            && forall i :: 0 <= i < |ls| ==>
                             && |ls[i] + Break(nl)| <= size && |ls[i]| % 4 == 0
                             && (i < |ls| - 1 ==> size < |ls[i] + Break(nl)| + 4)
  {
    RoomyIff(nl, size, unset);
    PayloadLength(Standard, b);
    LinesFit(nl, size, unset, Payload(Standard, b), Groups(|b|));
  }

  lemma {:induction false} LinesFit(nl: Newline, size: int, unset: int, p: string, groups: nat)
    requires nl != None && size >= 4 + |Break(nl)| && Roomy(LineLimit(nl, size, unset)) && |p| == 4 * groups
    ensures var ls := Lines(p, LineLimit(nl, size, unset));
            && Join(ls, "") == p
            && forall i :: 0 <= i < |ls| ==>
                             && |ls[i] + Break(nl)| <= size && |ls[i]| % 4 == 0
                             && (i < |ls| - 1 ==> size < |ls[i] + Break(nl)| + 4)
  {
    RoomyIff(nl, size, unset);
    LineLengths(p, LineLimit(nl, size, unset));
    LinesFull(p, LineLimit(nl, size, unset));
  }

  // ---------------------------------------------------------------- what is still to come

  datatype Encoding = Encoding(tr: Traits, nl: Newline, max: int, cnt: int, prior: int)

  /** Between two characters of the input. */
  predicate Reading(s: Encoding) { 0 <= s.prior < 256 && Roomy(s.max) && 0 <= s.cnt <= s.max }

  /** Between the CR and the LF of a break. */
  predicate InBreak(s: Encoding) {
    && s.nl == CrLn && s.cnt == s.max + 1 && s.max > 0 && (s.cnt % 4 == 0 || s.cnt % 4 == 1)
    && (s.prior == EOF || (0 <= s.prior < 256 && Roomy(s.max)))
  }

  /** After the end of the input was seen. */
  predicate Ending(s: Encoding) {
    && s.prior == EOF && s.max > 0
    && (s.cnt == 0
        || (s.cnt > 0 && s.cnt % 4 == 0 && s.cnt == s.max)
        || (s.cnt > 0 && s.cnt % 4 == 2 && s.cnt < s.max && s.max % 4 == 0)
        || (s.cnt > 0 && s.cnt % 4 == 3
            && (s.cnt < s.max || (!s.tr.Padding() && s.nl == CrLn && s.cnt == s.max + 1))))
  }

  predicate ValidEncoding(s: Encoding) { Reading(s) || InBreak(s) || Ending(s) }

  /** A limit of zero, which the constructor gives when the size leaves no room for a group. */
  predicate Starved(s: Encoding) { s.nl != None && s.max == 0 && 0 <= s.cnt < |Break(s.nl)| && 0 <= s.prior < 256 }

  /** `res` is the next character of a break, and the one after it comes next. */
  predicate Breaks(s: Encoding, s': Encoding, res: int)
    requires Starved(s)
  {
    res == Break(s.nl)[s.cnt] as int && s' == s.(cnt := (s.cnt + 1) % |Break(s.nl)|)
  }

  /** Payload characters left of the group in progress and of the bytes `r` after it. */
  function PayloadLeft(s: Encoding, r: seq<int>): string
    requires 0 <= s.prior < 256 && Bytes(r)
  {
    match s.cnt % 4
    case 1 => Tail1(s.tr, s.prior, r)
    case 2 => Tail2(s.tr, s.prior, r)
    case 3 => Tail3(s.tr, s.prior, r)
    case _ => Stream(s.tr, r)
  }

  /** How many bytes of the group in progress have been read. */
  function Held(s: Encoding): int { if s.cnt % 4 == 3 then 0 else s.cnt % 4 }

  /** The break `get` writes after the last line when `n` bytes were encoded. */
  function PullEnd(tr: Traits, nl: Newline, n: int): string {
    if !tr.Padding() && nl == CrLn && n % 3 == 1 then "\r\r\n" else Break(nl)
  }

  /** The characters `get` still returns when `r` is left in the source. */
  function PullRest(s: Encoding, r: seq<int>): string
    requires ValidEncoding(s) && Bytes(r)
  {
    if s.prior == EOF then
      if s.cnt == 0 then ""
      else if InBreak(s) then "\n"
      else if s.cnt % 4 == 0 then Break(s.nl)
      else if s.tr.Padding() then (if s.cnt % 4 == 2 then "==" else "=") + Break(s.nl)
      else PullEnd(s.tr, s.nl, if s.cnt % 4 == 2 then 1 else 2)
    else if InBreak(s) then "\n" + From(Stream(s.tr, r), 0, s.max, Break(s.nl), PullEnd(s.tr, s.nl, |r|))
    else From(PayloadLeft(s, r), s.cnt, s.max, Break(s.nl), PullEnd(s.tr, s.nl, |r| + Held(s)))
  }

  /** The limit that `put`, which looks at it between groups only, keeps to. */
  function RoundUp(max: int): int { if max <= 0 then 4 else max + (4 - max % 4) % 4 }

  function Rounded(s: Encoding): Encoding { s.(max := RoundUp(s.max)) }

  /** Between two bytes that are put, with any limit. */
  predicate Putting(s: Encoding) { s.max >= 0 && Reading(Rounded(s)) && s.cnt % 4 != 3 }

  /** With a limit of zero even the first line is full before it begins. */
  function Lead(s: Encoding): string { if s.max == 0 && s.cnt == 0 then Break(s.nl) else "" }

  function RoundedRest(s: Encoding, r: seq<int>): string
    requires Reading(s) && Bytes(r)
  {
    From(PayloadLeft(s, r), s.cnt, s.max, Break(s.nl), Break(s.nl))
  }

  /** The characters `put` and `close` still write when the bytes `r` are put. */
  function PushRest(s: Encoding, r: seq<int>): string
    requires Putting(s) && Bytes(r)
  {
    (if r == [] then "" else Lead(s)) + RoundedRest(Rounded(s), r)
  }

  lemma PadFits(pad: string, col: int, max: int, nl: string, end: string)
    requires max >= 1 && 0 < col && col + |pad| <= max
    ensures From(pad, col, max, nl, end) == pad + end
  {
    FromFits(pad, "", col, max, nl, end);
    assert pad + "" == pad;
  }

  /** The second character of a group, read from the source or completed at its end. */
  lemma {:induction false} ReadStep1(s: Encoding, r: seq<int>)
    requires Reading(s) && s.cnt % 4 == 1 && Bytes(r)
    ensures r == [] ==> PullRest(s, r) == [Enc(s.tr, s.prior % 4 * 16)]
                                          + PullRest(s.(cnt := s.cnt + 1, prior := EOF), [])
    ensures r != [] ==> PullRest(s, r) == [Enc(s.tr, s.prior % 4 * 16 + r[0] / 16)]
                                          + PullRest(s.(cnt := s.cnt + 1, prior := r[0]), r[1..])
  {
    if r == [] {
      LastStep1(s);
    } else {
      var one, rest := [Enc(s.tr, s.prior % 4 * 16 + r[0] / 16)], Tail2(s.tr, r[0], r[1..]);
      var s' := s.(cnt := s.cnt + 1, prior := r[0]);
      assert PayloadLeft(s, r) == one + rest;
      assert s'.cnt % 4 == 2 && PayloadLeft(s', r[1..]) == rest;
      FromFits(one, rest, s.cnt, s.max, Break(s.nl), PullEnd(s.tr, s.nl, |r| + 1));
    }
  }

  /** What is left once the second character of the last group was the last one to carry bits. */
  lemma {:induction false} Closing1(s: Encoding)
    requires s.prior == EOF && s.cnt > 0 && s.cnt % 4 == 2 && s.cnt < s.max && s.max % 4 == 0
    ensures Ending(s) && PullRest(s, []) == (if s.tr.Padding() then "==" else "") + PullEnd(s.tr, s.nl, 1)
  {
  }

  lemma {:induction false} LastStep1(s: Encoding)
    requires Reading(s) && s.cnt % 4 == 1
    ensures PullRest(s, []) == [Enc(s.tr, s.prior % 4 * 16)] + PullRest(s.(cnt := s.cnt + 1, prior := EOF), [])
  {
    var pad, c := if s.tr.Padding() then "==" else "", [Enc(s.tr, s.prior % 4 * 16)];
    var s', end := s.(cnt := s.cnt + 1, prior := EOF), PullEnd(s.tr, s.nl, 1);
    assert PullRest(s, []) == From(c + pad, s.cnt, s.max, Break(s.nl), end);
    FromFits(c, pad, s.cnt, s.max, Break(s.nl), end);
    if s.tr.Padding() { PadFits(pad, s.cnt + 1, s.max, Break(s.nl), end); }
    Closing1(s');
  }

  /** The third character of a group. */
  lemma {:induction false} ReadStep2(s: Encoding, r: seq<int>)
    requires Reading(s) && s.cnt % 4 == 2 && Bytes(r)
    ensures r == [] ==> PullRest(s, r) == [Enc(s.tr, s.prior % 16 * 4)]
                                          + PullRest(s.(cnt := s.cnt + 1, prior := EOF), [])
    ensures r != [] ==> PullRest(s, r) == [Enc(s.tr, s.prior % 16 * 4 + r[0] / 64)]
                                          + PullRest(s.(cnt := s.cnt + 1, prior := r[0]), r[1..])
  {
    if r == [] {
      LastStep2(s);
    } else {
      var one, rest := [Enc(s.tr, s.prior % 16 * 4 + r[0] / 64)], Tail3(s.tr, r[0], r[1..]);
      var s' := s.(cnt := s.cnt + 1, prior := r[0]);
      assert PayloadLeft(s, r) == one + rest;
      assert s'.cnt % 4 == 3 && PayloadLeft(s', r[1..]) == rest;
      FromFits(one, rest, s.cnt, s.max, Break(s.nl), PullEnd(s.tr, s.nl, |r| + 2));
    }
  }

  lemma {:induction false} LastStep2(s: Encoding)
    requires Reading(s) && s.cnt % 4 == 2
    ensures PullRest(s, []) == [Enc(s.tr, s.prior % 16 * 4)] + PullRest(s.(cnt := s.cnt + 1, prior := EOF), [])
  {
    var pad, c := if s.tr.Padding() then "=" else "", [Enc(s.tr, s.prior % 16 * 4)];
    var s', end := s.(cnt := s.cnt + 1, prior := EOF), PullEnd(s.tr, s.nl, 2);
    assert PullRest(s, []) == From(c + pad, s.cnt, s.max, Break(s.nl), end);
    FromFits(c, pad, s.cnt, s.max, Break(s.nl), end);
    if s.tr.Padding() { PadFits(pad, s.cnt + 1, s.max, Break(s.nl), end); }
    assert s'.cnt % 4 == 3 && Ending(s');
    assert PullRest(s', []) == pad + end;
  }

  /** The character of a break that comes next, and where it leaves the encoder. */
  function BreakChar(s: Encoding): int {
    match s.nl
    case None => EOF
    case Ln => '\n' as int
    case Cr => '\r' as int
    case CrLn => if s.cnt == s.max then '\r' as int else '\n' as int
  }

  function AfterBreak(s: Encoding): Encoding { s.(cnt := if s.nl == CrLn && s.cnt == s.max then s.cnt + 1 else 0) }

  function Char(res: int): string
    requires res == EOF || res == '\r' as int || res == '\n' as int
  {
    if res == EOF then "" else [res as char]
  }

  /** A break at the end of a full line. */
  lemma {:induction false} BreakInLine(s: Encoding, r: seq<int>)
    requires Reading(s) && s.cnt == s.max && Bytes(r) && r != []
    ensures ValidEncoding(AfterBreak(s)) && PullRest(s, r) == Char(BreakChar(s)) + PullRest(AfterBreak(s), r)
  {
    var p, end := Stream(s.tr, r), PullEnd(s.tr, s.nl, |r|);
    assert PullRest(s, r) == Break(s.nl) + From(p, 0, s.max, Break(s.nl), end);
    if s.nl == CrLn {
      Common.Assoc("\r", "\n", From(p, 0, s.max, Break(s.nl), end));
      assert "\r" + "\n" == "\r\n";
    }
  }

  lemma {:induction false} LastRest(s: Encoding)
    requires Reading(s) && s.cnt == s.max
    ensures PullRest(s, []) == Break(s.nl)
  {
    assert s.cnt % 4 == 0 && PayloadLeft(s, []) == "" && Held(s) == 0;
    assert PullEnd(s.tr, s.nl, 0) == Break(s.nl);
  }

  lemma {:induction false} LastBroken(s: Encoding)
    requires Reading(s) && s.cnt == s.max
    ensures var t := AfterBreak(s); ValidEncoding(t) && PullRest(t, []) == if s.nl == CrLn then "\n" else ""
  {
    var t := AfterBreak(s);
    if s.nl == CrLn {
      assert InBreak(t) && Stream(t.tr, []) == "";
      assert PullRest(t, []) == "\n" + "";
    } else {
      assert Reading(t) && PayloadLeft(t, []) == "";
    }
  }

  /** The same when the source turns out to be empty. */
  lemma {:induction false} BreakInLast(s: Encoding)
    requires Reading(s) && s.cnt == s.max
    ensures ValidEncoding(AfterBreak(s)) && PullRest(s, []) == Char(BreakChar(s)) + PullRest(AfterBreak(s), [])
  {
    LastRest(s);
    LastBroken(s);
  }

  /** The second half of a CRLF, and the break after the last line. */
  lemma {:induction false} BreakAtEnd(s: Encoding, r: seq<int>)
    requires InBreak(s) || (Ending(s) && s.cnt > 0 && s.cnt == s.max && s.cnt % 4 == 0)
    requires Bytes(r)
    ensures ValidEncoding(AfterBreak(s)) && PullRest(s, r) == Char(BreakChar(s)) + PullRest(AfterBreak(s), r)
  {
  }

  lemma {:induction false} BreakOut(s: Encoding, r: seq<int>)
    requires ValidEncoding(s) && s.cnt % 4 == 0 && s.cnt >= s.max && Bytes(r)
    ensures ValidEncoding(AfterBreak(s)) && PullRest(s, r) == Char(BreakChar(s)) + PullRest(AfterBreak(s), r)
  {
    if InBreak(s) || Ending(s) { BreakAtEnd(s, r); }
    else if r == [] { BreakInLast(s); }
    else { BreakInLine(s, r); }
  }

  /** The end of an unpadded text: the limit is set to where the line is, which makes it a full line. */
  function Closed(s: Encoding): Encoding { s.(max := s.cnt) }

  lemma {:induction false} UnpaddedEnd2(s: Encoding, r: seq<int>)
    requires Ending(s) && s.cnt % 4 == 2 && s.cnt > 0 && !s.tr.Padding() && Bytes(r)
    ensures var t := AfterBreak(Closed(s)); ValidEncoding(t) && PullRest(s, r) == Char(BreakChar(Closed(s))) + PullRest(t, r)
  {
    var t := AfterBreak(Closed(s));
    if s.nl == CrLn {
      assert t.cnt == s.cnt + 1 && t.cnt % 4 == 3 && Ending(t) && !InBreak(t);
      assert "\r" + "\r\n" == "\r\r\n";
    }
  }

  lemma {:induction false} UnpaddedEnd3(s: Encoding, r: seq<int>)
    requires Ending(s) && s.cnt % 4 == 3 && !s.tr.Padding() && Bytes(r)
    ensures var t := AfterBreak(Closed(s)); ValidEncoding(t) && PullRest(s, r) == Char(BreakChar(Closed(s))) + PullRest(t, r)
  {
    var t := AfterBreak(Closed(s));
    if s.nl == CrLn {
      assert t.cnt == s.cnt + 1 && t.cnt % 4 == 0 && InBreak(t);
      assert "\r" + "\n" == "\r\n";
    }
  }

  /** The last of the padding. */
  lemma {:induction false} PaddedEnd3(s: Encoding, r: seq<int>)
    requires Ending(s) && s.cnt % 4 == 3 && s.tr.Padding() && Bytes(r)
    ensures var t := s.(cnt := s.cnt + 1, max := s.cnt + 1);
            ValidEncoding(t) && PullRest(s, r) == "=" + PullRest(t, r)
  {
    var t := s.(cnt := s.cnt + 1, max := s.cnt + 1);
    assert t.cnt % 4 == 0 && Ending(t) && !InBreak(t);
  }

  lemma {:induction false} PaddedEnd2(s: Encoding, r: seq<int>)
    requires Ending(s) && s.cnt % 4 == 2 && s.cnt > 0 && s.tr.Padding() && Bytes(r)
    ensures var t := s.(cnt := s.cnt + 1); ValidEncoding(t) && PullRest(s, r) == "=" + PullRest(t, r)
  {
    var t := s.(cnt := s.cnt + 1);
    assert t.cnt % 4 == 3 && Ending(t);
    assert "=" + ("=" + Break(s.nl)) == "==" + Break(s.nl);
  }

  // ---------------------------------------------------------------- encoder

  class Encoder {
    const tr: Traits
    const nl: Newline
    var max: int
    var cnt: int
    var prior: int

    ghost function View(): Encoding
      reads this
    {
      Encoding(tr, nl, max, cnt, prior)
    }

    constructor (tr: Traits, nl: Newline, size: int, unset: int)
      ensures View() == Encoding(tr, nl, LineLimit(nl, size, unset), 0, 0)
    {
      this.tr, this.nl := tr, nl;
      max := LineLimit(nl, size, unset);
      cnt, prior := 0, 0;
    }

    /** `get_break`. */
    method GetBreak() returns (res: int)
      modifies this
      ensures View() == AfterBreak(old(View())) && res == BreakChar(old(View()))
      ensures max == old(max) && prior == old(prior)
      ensures nl == None ==> res == EOF && cnt == 0
      ensures nl == Ln ==> res == '\n' as int && cnt == 0
      ensures nl == Cr ==> res == '\r' as int && cnt == 0
      ensures nl == CrLn && old(cnt) == max ==> res == '\r' as int && cnt == old(cnt) + 1
      ensures nl == CrLn && old(cnt) != max ==> res == '\n' as int && cnt == 0
    {
      match nl
      case Ln => cnt := 0; res := '\n' as int;
      case Cr => cnt := 0; res := '\r' as int;
      case CrLn =>
        if cnt == max {
          cnt := cnt + 1;
          res := '\r' as int;
        } else {
          cnt := 0;
          res := '\n' as int;
        }
      case None => cnt := 0; res := EOF;
    }

    /** `res` is the next of the characters to come, or `EOF` when there are none. */
    twostate predicate Pulled(src: Source, res: int)
      requires old(ValidEncoding(View()) && Bytes(src.data))
      reads this, src
    {
      && ValidEncoding(View()) && Bytes(src.data)
      && var rest := old(PullRest(View(), src.data));
         if rest == "" then res == EOF && PullRest(View(), src.data) == ""
         else res == rest[0] as int && PullRest(View(), src.data) == rest[1..]
    }

    /** The first character of a group, or the break after the last line. */
    method GetFirst(src: Source) returns (res: int)
      requires Reading(View()) && Bytes(src.data) && cnt % 4 == 0 && cnt < max
      modifies this, src
      ensures Pulled(src, res)
    {
      var ch := src.Get();
      if ch == EOF {
        prior := EOF;
        if cnt == 0 { return EOF; }
        max := cnt;
        res := GetBreak();
      } else {
        res := Enc(tr, ch / 4) as int;
        prior := ch;
        cnt := cnt + 1;
      }
    }

    /** At the end of a line: a break, or nothing when there are none and the next line begins. */
    method GetEnd(ghost r: seq<int>) returns (res: int)
      requires (ValidEncoding(View()) || Starved(View())) && cnt % 4 == 0 && cnt >= max && Bytes(r)
      modifies this
      ensures res == EOF || res == '\r' as int || res == '\n' as int
      ensures old(Starved(View())) ==> res != EOF && Breaks(old(View()), View(), res)
      ensures old(ValidEncoding(View())) ==>
                && ValidEncoding(View())
                && PullRest(old(View()), r) == Char(res) + PullRest(View(), r)
                && (res == EOF ==> cnt == 0 && (prior == EOF || (Reading(View()) && cnt < max)))
    {
      if ValidEncoding(View()) { BreakOut(View(), r); }
      res := GetBreak();
    }

    method Get0(src: Source) returns (res: int)
      requires (ValidEncoding(View()) || Starved(View())) && Bytes(src.data) && cnt % 4 == 0
      modifies this, src
      ensures old(ValidEncoding(View())) ==> Pulled(src, res)
      ensures old(Starved(View())) ==> Breaks(old(View()), View(), res) && src.data == old(src.data)
    {
      if cnt >= max {
        var br := GetEnd(src.data);
        if br != EOF { return br; }
      }
      if prior == EOF { return EOF; }
      res := GetFirst(src);
    }

    /** The second character of a group. */
    method GetSecond(src: Source) returns (res: int)
      requires Reading(View()) && Bytes(src.data) && cnt % 4 == 1
      modifies this, src
      ensures Pulled(src, res)
    {
      var ch := src.Get();
      res := if ch == EOF then Enc(tr, prior % 4 * 16) as int else Enc(tr, prior % 4 * 16 + ch / 16) as int;
      prior := ch;
      cnt := cnt + 1;
      ReadStep1(old(View()), old(src.data));
    }

    method Get1(src: Source) returns (res: int)
      requires (ValidEncoding(View()) || Starved(View())) && Bytes(src.data) && cnt % 4 == 1
      modifies this, src
      ensures old(ValidEncoding(View())) ==> Pulled(src, res)
      ensures old(Starved(View())) ==> Breaks(old(View()), View(), res) && src.data == old(src.data)
    {
      if cnt >= max {
        res := GetBreak();
        return;
      }
      res := GetSecond(src);
    }

    method Get2Closing(src: Source) returns (res: int)
      requires ValidEncoding(View()) && Bytes(src.data) && cnt % 4 == 2 && prior == EOF
      modifies this, src
      ensures Pulled(src, res)
    {
      ghost var s := View();
      if !tr.Padding() {
        UnpaddedEnd2(s, src.data);
        max := cnt;
        res := GetBreak();
        return;
      }
      PaddedEnd2(s, src.data);
      res := '=' as int;
      cnt := cnt + 1;
    }

    method Get2(src: Source) returns (res: int)
      requires ValidEncoding(View()) && Bytes(src.data) && cnt % 4 == 2
      modifies this, src
      ensures Pulled(src, res)
    {
      if prior == EOF {
        res := Get2Closing(src);
        return;
      }
      var ch := src.Get();
      res := if ch == EOF then Enc(tr, prior % 16 * 4) as int else Enc(tr, prior % 16 * 4 + ch / 64) as int;
      prior := ch;
      cnt := cnt + 1;
      ReadStep2(old(View()), old(src.data));
    }

    method Get3Closing(src: Source) returns (res: int)
      requires ValidEncoding(View()) && Bytes(src.data) && cnt % 4 == 3 && prior == EOF
      modifies this, src
      ensures Pulled(src, res)
    {
      ghost var s := View();
      if !tr.Padding() {
        UnpaddedEnd3(s, src.data);
        max := cnt;
        res := GetBreak();
        return;
      }
      PaddedEnd3(s, src.data);
      res := '=' as int;
      max := cnt + 1;
      cnt := cnt + 1;
    }

    method Get3(src: Source) returns (res: int)
      requires ValidEncoding(View()) && Bytes(src.data) && cnt % 4 == 3
      modifies this, src
      ensures Pulled(src, res)
    {
      if prior == EOF {
        res := Get3Closing(src);
        return;
      }
      res := Enc(tr, prior % 64) as int;
      cnt := cnt + 1;
    }

    /** `get`: the next character of the text, or without room for a group a break that reads nothing. */
    method Get(src: Source) returns (res: int)
      requires (ValidEncoding(View()) || Starved(View())) && Bytes(src.data)
      modifies this, src
      ensures old(ValidEncoding(View())) ==> Pulled(src, res)
      ensures old(Starved(View())) ==> Breaks(old(View()), View(), res) && src.data == old(src.data)
    {
      match cnt % 4
      case 1 => res := Get1(src);
      case 2 => res := Get2(src);
      case 3 => res := Get3(src);
      case _ => res := Get0(src);
    }

    /** `put_break`. */
    method PutBreak(sink: Sink)
      modifies this`cnt, sink
      ensures cnt == 0 && sink.data == old(sink.data) + Break(nl)
    {
      cnt := 0;
      match nl
      case None => assert sink.data + "" == sink.data;
      case Ln => sink.Put('\n');
      case Cr => sink.Put('\r');
      case CrLn =>
        sink.Put('\r');
        sink.Put('\n');
        assert "\r" + "\n" == "\r\n";
    }

    /** The first character of a group, on a new line when the line is full. */
    method PutLeading(sink: Sink, ch: int)
      requires Putting(View()) && cnt % 4 == 0 && 0 <= ch < 256
      modifies this`cnt, sink
      ensures cnt == if Rounded(old(View())).max <= old(cnt) then 0 else old(cnt)
      ensures sink.data == old(sink.data) + (Lead(old(View())) + Written(Rounded(old(View())), ch))
    {
      ghost var data := sink.data;
      RoundedBreaks(View());
      if cnt >= max { PutBreak(sink); } else { assert data + "" == data; }
      sink.Put(Enc(tr, ch / 4));
    }

    /** The characters `put` writes for a byte, and where they leave the encoder. */
    method PutByte(sink: Sink, ch: int)
      requires Putting(View()) && 0 <= ch < 256
      modifies this`cnt, this`prior, sink
      ensures Rounded(View()) == AfterPut(Rounded(old(View())), ch) && cnt > 0
      ensures sink.data == old(sink.data) + (Lead(old(View())) + Written(Rounded(old(View())), ch))
    {
      assert "" + Written(Rounded(View()), ch) == Written(Rounded(View()), ch);
      if cnt % 4 == 0 {
        PutLeading(sink, ch);
      } else if cnt % 4 == 1 {
        sink.Put(Enc(tr, prior % 4 * 16 + ch / 16));
      } else {
        sink.Put(Enc(tr, prior % 16 * 4 + ch / 64));
        sink.Put(Enc(tr, ch % 64));
        cnt := cnt + 1;
      }
      cnt := cnt + 1;
      prior := ch;
    }

    /** `put`: what is written now and what the later bytes will add make up the text that was to come. */
    method Put(sink: Sink, ch: int)
      requires Putting(View()) && 0 <= ch < 256
      modifies this`cnt, this`prior, sink
      ensures Putting(View())
      ensures forall r :: Bytes(r) ==>
                            sink.data + PushRest(View(), r) == old(sink.data) + old(PushRest(View(), [ch] + r))
    {
      ghost var before, s := sink.data, View();
      PutByte(sink, ch);
      StaysPutting(s, View(), ch);
      PutAdvances(before, s, View(), ch, sink.data);
    }

    /** `close` on the writing side. */
    method Close(sink: Sink)
      requires Putting(View())
      modifies this`cnt, sink
      ensures sink.data == old(sink.data) + old(PushRest(View(), []))
    {
      ghost var before := sink.data;
      CloseRest(View());
      if cnt > 0 {
        ghost var last := LastChars(View());
        PutLast(sink);
        PutBreak(sink);
        Common.Assoc(before, last, Break(nl));
      }
    }

    /** The characters of a group that was begun, and its padding. */
    method PutLast(sink: Sink)
      requires 0 <= prior < 256
      modifies sink
      ensures sink.data == old(sink.data) + LastChars(View())
    {
      if cnt % 4 == 1 {
        sink.Put(Enc(tr, prior % 4 * 16));
        if tr.Padding() {
          sink.Put('=');
          sink.Put('=');
        }
      } else if cnt % 4 == 2 {
        sink.Put(Enc(tr, prior % 16 * 4));
        if tr.Padding() { sink.Put('='); }
      }
    }
  }

  /** What a put leaves to be written, and what the bytes were going to write. */
  lemma {:induction false} RestAfter(s: Encoding, r: seq<int>)
    requires Putting(s) && Bytes(r) && s.cnt > 0
    ensures PushRest(s, r) == "" + RoundedRest(Rounded(s), r)
  {
  }

  lemma {:induction false} RestBefore(s: Encoding, ch: int, r: seq<int>)
    requires Putting(s) && Bytes(r) && 0 <= ch < 256
    ensures PushRest(s, [ch] + r)
            == Lead(s) + (Written(Rounded(s), ch) + RoundedRest(AfterPut(Rounded(s), ch), r))
  {
    PutStep(Rounded(s), ch, r);
  }

  lemma {:induction false} StaysPutting(s: Encoding, s': Encoding, ch: int)
    requires Putting(s) && 0 <= ch < 256 && Rounded(s') == AfterPut(Rounded(s), ch) && s'.max >= 0
    ensures Putting(s')
  {
    var t := Rounded(s);
    assert s'.cnt == AfterPut(t, ch).cnt && t.max % 4 == 0;
  }

  lemma {:induction false} PutAdvance(before: string, s: Encoding, s': Encoding, ch: int, r: seq<int>)
    requires Putting(s) && Putting(s') && 0 <= ch < 256 && Bytes(r) && Rounded(s') == AfterPut(Rounded(s), ch) && s'.cnt > 0
    ensures before + (Lead(s) + Written(Rounded(s), ch)) + PushRest(s', r) == before + PushRest(s, [ch] + r)
  {
    RestAfter(s', r);
    RestBefore(s, ch, r);
    var lead, now, rest := Lead(s), Written(Rounded(s), ch), RoundedRest(AfterPut(Rounded(s), ch), r);
    PutLed(before, lead, now, rest);
  }

  lemma {:induction false} PutAdvances(before: string, s: Encoding, s': Encoding, ch: int, after: string)
    requires Putting(s) && Putting(s') && 0 <= ch < 256 && Rounded(s') == AfterPut(Rounded(s), ch) && s'.cnt > 0
    requires after == before + (Lead(s) + Written(Rounded(s), ch))
    ensures forall r :: Bytes(r) ==> after + PushRest(s', r) == before + PushRest(s, [ch] + r)
  {
    forall r | Bytes(r)
      ensures after + PushRest(s', r) == before + PushRest(s, [ch] + r)
    {
      PutAdvance(before, s, s', ch, r);
    }
  }

  lemma {:induction false} PutLed(before: string, lead: string, now: string, rest: string)
    ensures before + (lead + now) + ("" + rest) == before + (lead + (now + rest))
  {
    assert "" + rest == rest;
    Common.Assoc(before, lead + now, rest);
    Common.Assoc(lead, now, rest);
  }

  /** `put` looks at the limit between groups only. */
  lemma {:induction false} RoundedBreaks(s: Encoding)
    requires Putting(s) && s.cnt % 4 == 0
    ensures s.cnt >= s.max <==> Lead(s) != "" || s.cnt >= Rounded(s).max || (s.max == 0 && s.cnt == 0)
  {
  }

  /** What `put` writes for a byte. */
  function Written(s: Encoding, ch: int): string
    requires Reading(s) && s.cnt % 4 != 3 && 0 <= ch < 256
  {
    if s.cnt % 4 == 0 then (if s.cnt >= s.max then Break(s.nl) else "") + [Enc(s.tr, ch / 4)]
    else if s.cnt % 4 == 1 then [Enc(s.tr, s.prior % 4 * 16 + ch / 16)]
    else [Enc(s.tr, s.prior % 16 * 4 + ch / 64), Enc(s.tr, ch % 64)]
  }

  function AfterPut(s: Encoding, ch: int): Encoding
    requires Reading(s)
  {
    s.(cnt := (if s.cnt % 4 == 0 && s.cnt >= s.max then 1 else if s.cnt % 4 == 2 then s.cnt + 2 else s.cnt + 1),
       prior := ch)
  }

  /** Payload `q` that fits the line is written before the rest of the payload. */
  lemma {:induction false} PutFits(q: string, p: string, col: int, max: int, nl: string)
    requires max >= 1 && 0 <= col && col + |q| <= max
    ensures From(q + p, col, max, nl, nl) == q + From(p, col + |q|, max, nl, nl)
  {
    FromFits(q, p, col, max, nl, nl);
  }

  /** On a full line the break comes first. */
  lemma {:induction false} PutBreaks(q: string, p: string, col: int, max: int, nl: string)
    requires col >= max && 1 <= |q| <= max
    ensures From(q + p, col, max, nl, nl) == nl + q + From(p, |q|, max, nl, nl)
  {
    PutFits(q, p, 0, max, nl);
    Common.Assoc(nl, q, From(p, |q|, max, nl, nl));
  }

  lemma {:induction false} PutFirst(s: Encoding, ch: int, r: seq<int>)
    requires Reading(s) && s.cnt % 4 == 0 && 0 <= ch < 256 && Bytes(r)
    ensures RoundedRest(s, [ch] + r) == Written(s, ch) + RoundedRest(AfterPut(s, ch), r)
  {
    var one, rest, s' := [Enc(s.tr, ch / 4)], Tail1(s.tr, ch, r), AfterPut(s, ch);
    assert PayloadLeft(s, [ch] + r) == one + rest by { assert ([ch] + r)[1..] == r; }
    assert s'.cnt % 4 == 1 && PayloadLeft(s', r) == rest;
    if s.cnt >= s.max {
      PutBreaks(one, rest, s.cnt, s.max, Break(s.nl));
    } else {
      PutFits(one, rest, s.cnt, s.max, Break(s.nl));
      assert "" + one == one;
    }
  }

  lemma {:induction false} PutSecond(s: Encoding, ch: int, r: seq<int>)
    requires Reading(s) && s.cnt % 4 == 1 && 0 <= ch < 256 && Bytes(r)
    ensures RoundedRest(s, [ch] + r) == Written(s, ch) + RoundedRest(AfterPut(s, ch), r)
  {
    var one, rest, s' := Written(s, ch), Tail2(s.tr, ch, r), AfterPut(s, ch);
    assert PayloadLeft(s, [ch] + r) == one + rest by { TailOne(s.tr, s.prior, ch, r); }
    assert s'.cnt % 4 == 2 && PayloadLeft(s', r) == rest;
    PutFits(one, rest, s.cnt, s.max, Break(s.nl));
  }

  lemma {:induction false} PutThird(s: Encoding, ch: int, r: seq<int>)
    requires Reading(s) && s.cnt % 4 == 2 && 0 <= ch < 256 && Bytes(r)
    ensures RoundedRest(s, [ch] + r) == Written(s, ch) + RoundedRest(AfterPut(s, ch), r)
  {
    var two, rest, s' := Written(s, ch), Stream(s.tr, r), AfterPut(s, ch);
    assert PayloadLeft(s, [ch] + r) == two + rest by { TailTwo(s.tr, s.prior, ch, r); }
    assert s'.cnt % 4 == 0 && PayloadLeft(s', r) == rest;
    PutFits(two, rest, s.cnt, s.max, Break(s.nl));
  }

  lemma {:induction false} PutStep(s: Encoding, ch: int, r: seq<int>)
    requires Reading(s) && s.cnt % 4 != 3 && 0 <= ch < 256 && Bytes(r)
    ensures RoundedRest(s, [ch] + r) == Written(s, ch) + RoundedRest(AfterPut(s, ch), r)
  {
    if s.cnt % 4 == 0 { PutFirst(s, ch, r); }
    else if s.cnt % 4 == 1 { PutSecond(s, ch, r); }
    else { PutThird(s, ch, r); }
  }

  /** The end of a group that was begun. */
  function LastChars(s: Encoding): string
    requires 0 <= s.prior < 256
  {
    if s.cnt % 4 == 1 then [Enc(s.tr, s.prior % 4 * 16)] + (if s.tr.Padding() then "==" else "")
    else if s.cnt % 4 == 2 then [Enc(s.tr, s.prior % 16 * 4)] + (if s.tr.Padding() then "=" else "")
    else ""
  }

  /** What `close` writes. */
  lemma {:induction false} CloseRest(s: Encoding)
    requires Putting(s)
    ensures PushRest(s, []) == if s.cnt == 0 then "" else LastChars(s) + Break(s.nl)
  {
    var t := Rounded(s);
    assert PayloadLeft(t, []) == LastChars(s);
    assert "" + RoundedRest(t, []) == RoundedRest(t, []);
    if s.cnt % 4 != 0 {
      PadFits(LastChars(s), s.cnt, t.max, Break(s.nl), Break(s.nl));
    } else {
      assert "" + Break(s.nl) == Break(s.nl);
    }
  }

  // ---------------------------------------------------------------- whole texts

  /** What repeated `get` returns for the bytes `b`. */
  function PullText(tr: Traits, nl: Newline, max: int, b: seq<int>): string
    requires max >= 1 && Bytes(b)
  {
    From(Stream(tr, b), 0, max, Break(nl), PullEnd(tr, nl, |b|))
  }

  /** Only the end of a text depends on what closes its last line. */
  lemma {:induction false} FromEnd(p: string, col: int, max: int, nl: string, end: string)
    requires max >= 1 && col >= 0 && (p != [] || col > 0)
    ensures From(p, col, max, nl, end) == From(p, col, max, nl, "") + end
    decreases |p|, if col >= max then 1 else 0
  {
    if p == [] {
      assert "" + end == end;
    } else if col >= max {
      FromEnd(p, 0, max, nl, end);
      Common.Assoc(nl, From(p, 0, max, nl, ""), end);
    } else {
      FromEnd(p[1..], col + 1, max, nl, end);
      Common.Assoc([p[0]], From(p[1..], col + 1, max, nl, ""), end);
    }
  }

  /**
   Pulling gives the reference text, except that the unpadded alphabet with CRLF writes one CR too
   many when one byte is left over in the last group.
   */
  lemma {:induction false} PullIsWire(tr: Traits, nl: Newline, max: int, b: seq<int>)
    requires max >= 1 && Bytes(b)
    ensures var w := Wire(tr, nl, max, b);
            if tr == Url && nl == CrLn && |b| % 3 == 1 then |w| >= 2 && PullText(tr, nl, max, b) == w[..|w| - 2] + "\r\r\n"
            else PullText(tr, nl, max, b) == w
  {
    FromIsWire(tr, nl, max, b);
    if tr == Url && nl == CrLn && |b| % 3 == 1 {
      var p := Stream(tr, b);
      assert p != [];
      FromEnd(p, 0, max, Break(nl), Break(nl));
      FromEnd(p, 0, max, Break(nl), "\r\r\n");
      var w := Wire(tr, nl, max, b);
      assert w[..|w| - 2] == From(p, 0, max, Break(nl), "");
    }
  }

  /** The two paths of one encoder with room for a group agree exactly outside that case. */
  lemma {:induction false} PullIsPushIff(tr: Traits, nl: Newline, max: int, b: seq<int>)
    requires max >= 1 && Bytes(b)
    ensures PullText(tr, nl, max, b) == Wire(tr, nl, max, b) <==> !(tr == Url && nl == CrLn && |b| % 3 == 1)
    ensures Roomy(max) ==>
              (PullText(tr, nl, max, b) == PushText(tr, nl, max, b) <==> !(tr == Url && nl == CrLn && |b| % 3 == 1))
  {
    PullIsWire(tr, nl, max, b);
    PushIsWire(tr, nl, max, b);
  }

  /** Repeated `get` until the end of the source. */
  method Pull(tr: Traits, nl: Newline, size: int, unset: int, b: seq<int>) returns (s: string)
    requires Roomy(LineLimit(nl, size, unset)) && Bytes(b)
    ensures s == PullText(tr, nl, LineLimit(nl, size, unset), b)
  {
    var enc := new Encoder(tr, nl, size, unset);
    var src := new Source(b);
    s := "";
    PullStart(tr, nl, LineLimit(nl, size, unset), b);
    ghost var text := PullText(tr, nl, LineLimit(nl, size, unset), b);
    ghost var rest := text;
    while true
      invariant ValidEncoding(enc.View()) && Bytes(src.data) && rest == PullRest(enc.View(), src.data)
      invariant s + rest == text
      decreases |rest|
    {
      var ch := enc.Get(src);
      if ch == EOF { return; }
      Common.Assoc(s, [rest[0]], rest[1..]);
      assert [rest[0]] + rest[1..] == rest;
      s := s + [ch as char];
      rest := rest[1..];
    }
  }

  lemma {:induction false} PullStart(tr: Traits, nl: Newline, max: int, b: seq<int>)
    requires Roomy(max) && Bytes(b)
    ensures PullRest(Encoding(tr, nl, max, 0, 0), b) == PullText(tr, nl, max, b)
  {
  }

  /** What `put` for each byte and `close` write. */
  function PushText(tr: Traits, nl: Newline, max: int, b: seq<int>): string
    requires Bytes(b)
  {
    (if max == 0 && b != [] then Break(nl) else "") + Wire(tr, nl, RoundUp(max), b)
  }

  /** With room for a group that is the reference text; without it the text is led by one more break. */
  lemma {:induction false} PushIsWire(tr: Traits, nl: Newline, max: int, b: seq<int>)
    requires Bytes(b)
    ensures Roomy(max) ==> PushText(tr, nl, max, b) == Wire(tr, nl, max, b)
    ensures max == 0 && b != [] ==> PushText(tr, nl, max, b) == Break(nl) + Wire(tr, nl, 4, b)
  {
    if Roomy(max) {
      var w := Wire(tr, nl, max, b);
      assert "" + w == w;
    }
  }

  /** `put` for each byte, then `close`, whatever the size. */
  method Push(tr: Traits, nl: Newline, size: int, unset: int, b: seq<int>) returns (s: string)
    requires Bytes(b) && unset >= 0
    ensures s == PushText(tr, nl, LineLimit(nl, size, unset), b)
  {
    var enc := new Encoder(tr, nl, size, unset);
    var sink := new Sink();
    ghost var max := LineLimit(nl, size, unset);
    LimitIsNat(nl, size, unset);
    ghost var text := PushText(tr, nl, max, b);
    PushStart(tr, nl, max, b);
    assert b[0..] == b && "" + text == text;
    ghost var rest := text;
    for i := 0 to |b|
      invariant Putting(enc.View()) && rest == PushRest(enc.View(), b[i..]) && sink.data + rest == text
    {
      ghost var r := b[i + 1..];
      assert b[i..] == [b[i]] + r && Bytes(r);
      ghost var before := sink.data;
      enc.Put(sink, b[i]);
      assert sink.data + PushRest(enc.View(), r) == before + rest;
      rest := PushRest(enc.View(), r);
    }
    enc.Close(sink);
    s := sink.data;
  }

  lemma {:induction false} PushStart(tr: Traits, nl: Newline, max: int, b: seq<int>)
    requires max >= 0 && Bytes(b)
    ensures Putting(Encoding(tr, nl, max, 0, 0)) && PushRest(Encoding(tr, nl, max, 0, 0), b) == PushText(tr, nl, max, b)
  {
    var s, w := Rounded(Encoding(tr, nl, max, 0, 0)), Wire(tr, nl, RoundUp(max), b);
    FromIsWire(tr, nl, RoundUp(max), b);
    assert PayloadLeft(s, b) == Stream(tr, b) && RoundedRest(s, b) == w;
  }

  lemma {:induction false} LimitIsNat(nl: Newline, size: int, unset: int)
    requires unset >= 0
    ensures LineLimit(nl, size, unset) >= 0
  {
  }

  /** Without room for a group `get` returns the break over and over: any number of calls reads nothing. */
  method PullStarved(tr: Traits, nl: Newline, size: int, unset: int, b: seq<int>, n: nat) returns (out: seq<int>)
    requires nl != None && LineLimit(nl, size, unset) == 0 && Bytes(b)
    ensures |out| == n && forall i :: 0 <= i < n ==> out[i] == Break(nl)[i % |Break(nl)|] as int
  {
    var enc := new Encoder(tr, nl, size, unset);
    var src := new Source(b);
    out := [];
    for i := 0 to n
      invariant Starved(enc.View()) && enc.nl == nl && enc.cnt == i % |Break(nl)| && src.data == b && |out| == i
      invariant forall k :: 0 <= k < i ==> out[k] == Break(nl)[k % |Break(nl)|] as int
    {
      var ch := enc.Get(src);
      out := out + [ch];
    }
  }

  // ---------------------------------------------------------------- decoder

  lemma {:induction false} FedSextets(tr: Traits, ch: char, s: string)
    ensures Sextets(tr, [ch] + s)
            == (if ch == '\r' || ch == '\n' || ch == '=' || Dec(tr, ch) >= 64 then [] else [Dec(tr, ch)]) + Sextets(tr, s)
  {
    assert ([ch] + s)[0] == ch && ([ch] + s)[1..] == s;
  }

  lemma {:induction false} FedOctet(cnt: nat, prior: int, v: int, rest: seq<int>)
    ensures Decoded(cnt % 4, prior, [v] + rest)
            == (if cnt % 4 == 0 then [] else [Octet(cnt % 4, prior, v) % 256]) + Decoded((cnt + 1) % 4, v, rest)
  {
    DecodedCons(cnt % 4, prior, v, rest);
    assert (cnt % 4 + 1) % 4 == (cnt + 1) % 4;
  }

  class Decoder {
    const tr: Traits
    var cnt: nat
    var prior: int

    /** Bytes that the characters `s` will still give. */
    ghost function Rest(s: string): seq<int>
      reads this
    {
      Decoded(cnt % 4, prior, Sextets(tr, s))
    }

    constructor (tr: Traits)
      ensures this.tr == tr && cnt == 0 && prior == 0
    {
      this.tr := tr;
      cnt, prior := 0, 0;
    }

    /** One alphabet value: the byte it completes, if any, before reduction to a character. */
    method Take(v: int) returns (res: int)
      requires 0 <= v < 64
      modifies this
      ensures cnt == old(cnt) + 1 && prior == v
      ensures res == if old(cnt) % 4 == 0 then EOF else Octet(old(cnt) % 4, old(prior), v)
    {
      var k := cnt % 4;
      res := if k == 1 then prior % 64 * 4 + v / 16
             else if k == 2 then prior % 16 * 16 + v / 4
             else if k == 3 then prior % 16 * 64 + v
             else EOF;
      cnt := cnt + 1;
      prior := v;
    }

    /** One character: foreign ones are skipped, the others may complete a byte. */
    method Feed(ch: char, ghost s: string) returns (res: int)
      requires 0 <= prior
      modifies this
      ensures 0 <= prior && (res == EOF || res >= 0)
      ensures old(Rest([ch] + s)) == (if res == EOF then [] else [res % 256]) + Rest(s)
    {
      FedSextets(tr, ch, s);
      if ch == '\r' || ch == '\n' || ch == '=' || Dec(tr, ch) >= 64 { return EOF; }
      FedOctet(cnt, prior, Dec(tr, ch), Sextets(tr, s));
      res := Take(Dec(tr, ch));
    }

    /** `get`: the next byte, only modulo 256, or `EOF` when the characters give no more. */
    method Get(s: string, at: nat) returns (res: int, next: nat)
      requires at <= |s| && 0 <= prior
      modifies this
      ensures at <= next <= |s| && 0 <= prior
      ensures res == EOF ==> old(Rest(s[at..])) == [] && next == |s|
      ensures res != EOF ==> res >= 0 && at < next && old(Rest(s[at..])) == [res % 256] + Rest(s[next..])
    {
      next := at;
      while next < |s|
        invariant at <= next <= |s| && 0 <= prior
        invariant old(Rest(s[at..])) == Rest(s[next..])
      {
        assert s[next..] == [s[next]] + s[next + 1..];
        res := Feed(s[next], s[next + 1..]);
        next := next + 1;
        if res != EOF { return; }
      }
      res := EOF;
    }

    /** `put`: writes the byte a character completes, if any, reduced to a character. */
    method Put(out: seq<int>, ch: char, ghost s: string) returns (out': seq<int>)
      requires 0 <= prior
      modifies this
      ensures 0 <= prior
      ensures out' + Rest(s) == out + old(Rest([ch] + s))
    {
      var res := Feed(ch, s);
      out' := if res == EOF then out else out + [res % 256];
    }
  }

  method DecodeByGet(tr: Traits, s: string) returns (b: seq<int>)
    ensures b == Decoded(0, 0, Sextets(tr, s))
  {
    var dec := new Decoder(tr);
    b := [];
    var res, at := 0, 0;
    assert s[0..] == s;
    while true
      invariant at <= |s| && 0 <= dec.prior
      invariant b + dec.Rest(s[at..]) == Decoded(0, 0, Sextets(tr, s))
      decreases |s| - at
    {
      ghost var rest := dec.Rest(s[at..]);
      res, at := dec.Get(s, at);
      if res == EOF { return; }
      assert b + rest == b + [res % 256] + dec.Rest(s[at..]);
      b := b + [res % 256];
    }
  }

  method DecodeByPut(tr: Traits, s: string) returns (b: seq<int>)
    ensures b == Decoded(0, 0, Sextets(tr, s))
  {
    var dec := new Decoder(tr);
    b := [];
    for i := 0 to |s|
      invariant 0 <= dec.prior
      invariant b + dec.Rest(s[i..]) == Decoded(0, 0, Sextets(tr, s))
    {
      assert s[i..] == [s[i]] + s[i + 1..];
      b := dec.Put(b, s[i], s[i + 1..]);
    }
  }

  /** Either alphabet, either encoder path, any line limit: decoding gives the bytes back. */
  lemma {:induction false} RoundTrip(tr: Traits, nl: Newline, max: int, b: seq<int>)
    requires max >= 1 && Bytes(b)
    ensures Decoded(0, 0, Sextets(tr, PullText(tr, nl, max, b))) == b
    ensures Decoded(0, 0, Sextets(tr, Wire(tr, nl, max, b))) == b
    ensures Decoded(0, 0, Sextets(tr, PushText(tr, nl, max, b))) == b
  {
    WireDecodes(tr, nl, max, b);
    PushDecodes(tr, nl, max, b);
    DecodeStream(tr, 0, b);
    FromSextets(tr, Stream(tr, b), 0, max, Break(nl), PullEnd(tr, nl, |b|));
  }

  lemma {:induction false} WireDecodes(tr: Traits, nl: Newline, max: int, b: seq<int>)
    requires max >= 1 && Bytes(b)
    ensures Decoded(0, 0, Sextets(tr, Wire(tr, nl, max, b))) == b
  {
    DecodeStream(tr, 0, b);
    FromIsWire(tr, nl, max, b);
    FromSextets(tr, Stream(tr, b), 0, max, Break(nl), Break(nl));
  }

  /** What is put decodes to the bytes even without room for a group. */
  lemma {:induction false} PushDecodes(tr: Traits, nl: Newline, max: int, b: seq<int>)
    requires Bytes(b)
    ensures Decoded(0, 0, Sextets(tr, PushText(tr, nl, max, b))) == b
  {
    WireDecodes(tr, nl, RoundUp(max), b);
    LedSextets(tr, if max == 0 && b != [] then Break(nl) else "", Wire(tr, nl, RoundUp(max), b));
  }

  lemma {:induction false} LedSextets(tr: Traits, lead: string, w: string)
    requires lead == "" || lead == "\r" || lead == "\n" || lead == "\r\n"
    ensures Sextets(tr, lead + w) == Sextets(tr, w)
  {
    IgnoredSextets(tr, lead);
    SextetsConcat(tr, lead, w);
  }
}
