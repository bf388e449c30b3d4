/**
 The format=flowed text codec of sections 4.1 and 4.2 of RFC 3676: long lines are cut by a blank
 and a newline on the way out, and joined again on the way in with one character of lookahead.
 */
module Flowed {
  import opened Streams
  import Common

  /** The characters of the filters are bytes. */
  predicate Narrow(s: string) { forall i :: 0 <= i < |s| ==> (s[i] as int) < 256 }

  predicate IsBlank(ch: char) { ch == ' ' || ch == '\t' }

  // ---------------------------------------------------------------- what the filters compute

  /** The encoding of `t` when the current line already holds `cnt` characters. */
  function Encode(t: string, cnt: nat, max: nat, nl: Newline): string {
    if t == [] then ""
    else if t[0] == '\r' then Encode(t[1..], cnt, max, nl)
    else if t[0] == '\n' then Break(nl) + Encode(t[1..], 0, max, nl)
    else if cnt >= max then " " + (Break(nl) + ([t[0]] + Encode(t[1..], 1, max, nl)))
    else [t[0]] + Encode(t[1..], cnt + 1, max, nl)
  }

  /** The text after an optional CR and an optional LF. */
  function SkipBreak(s: string): string {
    var r := if s != [] && s[0] == '\r' then s[1..] else s;
    if r != [] && r[0] == '\n' then r[1..] else r
  }

  predicate AtBreak(s: string) { s != [] && (s[0] == '\r' || s[0] == '\n') }

  /** A NUL that is read ahead is taken for no lookahead at all, and lost. */
  function Ahead(s: string): string { if s != [] && s[0] == '\0' then s[1..] else s }

  /** The decoding of `s`: a blank and a break vanish, and the character after them is taken as it is. */
  function Decode(s: string): string
    decreases |s|
  {
    if s == [] then ""
    else if IsBlank(s[0]) then
      if AtBreak(s[1..]) then
        var r := SkipBreak(s[1..]);
        if r == [] then "" else [r[0]] + Decode(r[1..])
      else [s[0]] + Decode(Ahead(s[1..]))
    else if s[0] == '\r' then
      ['\n'] + Decode(if s[1..] != [] && s[1] == '\n' then s[2..] else Ahead(s[1..]))
    else [s[0]] + Decode(s[1..])
  }

  // ---------------------------------------------------------------- filters

  const SIZE_MAX: nat := 0xFFFF_FFFF_FFFF_FFFF

  /** The line limit the encoder works with. */
  function Limit(nl: Newline, size: nat): nat { if nl == None then SIZE_MAX else size }

  /** `ascii_encoder` with the counter of `newline_base`. */
  class Encoder {
    const nl: Newline
    const max: nat
    var cnt: nat

    constructor (nl: Newline, size: nat)
      ensures this.nl == nl && cnt == 0
      ensures max == Limit(nl, size)
    {
      this.nl := nl;
      max := Limit(nl, size);
      cnt := 0;
    }

    /** `put_ln`. */
    method PutLn(sink: Sink)
      modifies this, sink
      ensures cnt == 0 && sink.data == old(sink.data) + Break(nl)
    {
      cnt := 0;
      match nl
      case None => assert sink.data + "" == sink.data;
      case Ln => sink.Put('\n');
      case Cr => sink.Put('\r');
      case CrLn =>
        sink.Put('\r');
        sink.Put('\n');
        assert "\r" + "\n" == "\r\n";
    }

    /** `put`: what is written now and what the rest of the text adds is the encoding. */
    method Put(sink: Sink, ch: char, ghost rest: string)
      modifies this, sink
      ensures sink.data + Encode(rest, cnt, max, nl) == old(sink.data) + Encode([ch] + rest, old(cnt), max, nl)
    {
      assert ([ch] + rest)[1..] == rest;
      if ch == '\r' { return; }
      if ch == '\n' {
        PutLn(sink);
        return;
      }
      if cnt >= max {
        sink.Put(' ');
        PutLn(sink);
      }
      cnt := cnt + 1;
      sink.Put(ch);
    }
  }

  /** Putting a text: its lines wrapped at `size`, or all of it on one line when breaks are written as nothing. */
  method EncodeAll(t: string, size: nat, nl: Newline) returns (s: string)
    ensures s == Encode(t, 0, Limit(nl, size), nl)
    ensures nl != None ==> s == Joined(Rows(Strip(t), size), Break(nl))
    ensures nl != None && size >= 1 ==> Fit(Rows(Strip(t), size), size)
    ensures nl == None && |t| < 0x1_0000_0000_0000_0000 ==> s == Unbroken(t)
  {
    var enc := new Encoder(nl, size);
    var sink := new Sink();
    ghost var max := Limit(nl, size);
    for i := 0 to |t|
      invariant sink.data + Encode(t[i..], enc.cnt, max, nl) == Encode(t, 0, max, nl)
      invariant enc.nl == nl && enc.max == max
    {
      assert t[i..] == [t[i]] + t[i + 1..];
      enc.Put(sink, t[i], t[i + 1..]);
    }
    s := sink.data;
    if nl == None {
      if |t| <= SIZE_MAX { EncodeUnbroken(t, 0, SIZE_MAX); }
    } else {
      EncodeIsRows(t, size, nl);
      if size >= 1 { RowsFit(Strip(t), size); }
    }
  }

  // ---------------------------------------------------------------- the layout of what is written

  /** A line in rows of `size` characters, all but the last of which end in a blank. */
  function Wrap(line: string, size: nat): (rows: seq<string>)
    ensures rows != []
    decreases |line|, if size == 0 then 1 else 0
  {
    if |line| <= size then [line]
    else if size == 0 then [" "] + Wrap(line, 1)
    else [line[..size] + " "] + Wrap(line[size..], size)
  }

  /** Where the first newline stands, or the length. */
  function LineEnd(t: string): (p: nat)
    ensures p <= |t| && '\n' !in t[..p] && (p < |t| ==> t[p] == '\n')
  {
    if t == [] || t[0] == '\n' then 0
    else
      assert t[..1 + LineEnd(t[1..])] == [t[0]] + t[1..][..LineEnd(t[1..])];
      1 + LineEnd(t[1..])
  }

  /** Every line of the text wrapped on its own. */
  function Rows(t: string, size: nat): (rows: seq<string>)
    ensures rows != []
    decreases |t|
  {
    var p := LineEnd(t);
    if p == |t| then Wrap(t, size) else Wrap(t[..p], size) + Rows(t[p + 1..], size)
  }

  /** A text without breaks of its own. */
  predicate OneLine(t: string) { '\r' !in t && '\n' !in t }

  /** No row is longer than `size`, but for the blank of a soft break. */
  predicate Fit(rows: seq<string>, size: nat) {
    forall i :: 0 <= i < |rows| ==>
                  OneLine(rows[i]) && (|rows[i]| <= size || (|rows[i]| == size + 1 && rows[i][size] == ' '))
  }

  lemma {:induction false} FitBoth(a: seq<string>, b: seq<string>, size: nat)
    requires Fit(a, size) && Fit(b, size)
    ensures Fit(a + b, size)
  {
  }

  /** A line is filled up to `size` before it is broken. */
  lemma {:induction false} WrapFills(line: string, size: nat)
    requires size >= 1 && OneLine(line)
    ensures var rows := Wrap(line, size);
            && Fit(rows, size)
            && (forall i :: 0 <= i < |rows| - 1 ==> |rows[i]| == size + 1) && |rows[|rows| - 1]| <= size
    decreases |line|
  {
    if |line| > size { WrapFills(line[size..], size); }
  }

  lemma {:induction false} RowsFit(t: string, size: nat)
    requires size >= 1 && '\r' !in t
    ensures Fit(Rows(t, size), size)
    decreases |t|
  {
    var p := LineEnd(t);
    WrapFills(t[..p], size);
    if p == |t| {
      assert t[..p] == t;
    } else {
      var a, b := Wrap(t[..p], size), Rows(t[p + 1..], size);
      assert Fit(b, size) by { RowsFit(t[p + 1..], size); }
      FitBoth(a, b, size);
    }
  }

  /** Rows with a break between each two. */
  function Joined(rows: seq<string>, br: string): string
    requires rows != []
  {
    if |rows| == 1 then rows[0] else rows[0] + (br + Joined(rows[1..], br))
  }

  lemma {:induction false} JoinedConcat(a: seq<string>, b: seq<string>, br: string)
    requires a != [] && b != []
    ensures Joined(a + b, br) == Joined(a, br) + (br + Joined(b, br))
    decreases |a|
  {
    if |a| == 1 {
      assert (a + b)[1..] == b;
    } else {
      JoinedConcat(a[1..], b, br);
      assert (a + b)[0] == a[0] && (a + b)[1..] == a[1..] + b;
      Common.Assoc(a[0], br, Joined(a[1..], br));
      Common.Assoc(a[0] + br, Joined(a[1..], br), br + Joined(b, br));
      Common.Assoc(a[0], br, Joined(a[1..], br) + (br + Joined(b, br)));
    }
  }

  lemma {:induction false} EncodeShort(a: string, cnt: nat, max: nat, nl: Newline, rest: string)
    requires OneLine(a) && cnt + |a| <= max
    ensures Encode(a + rest, cnt, max, nl) == a + Encode(rest, cnt + |a|, max, nl)
    decreases |a|
  {
    if a == [] {
      assert a + rest == rest;
    } else {
      assert (a + rest)[0] == a[0] && (a + rest)[1..] == a[1..] + rest;
      EncodeShort(a[1..], cnt + 1, max, nl, rest);
    }
  }

  lemma {:induction false} EncodeFull(b: string, max: nat, nl: Newline)
    requires OneLine(b) && b != [] && max >= 1
    ensures Encode(b, max, max, nl) == " " + (Break(nl) + Encode(b, 0, max, nl))
  {
  }

  lemma {:induction false} EncodeZero(b: string, nl: Newline)
    requires OneLine(b)
    ensures Encode(b, 1, 0, nl) == Encode(b, 1, 1, nl)
    decreases |b|
  {
    if b != [] { EncodeZero(b[1..], nl); }
  }

  lemma {:induction false} JoinedCons(row: string, rows: seq<string>, br: string)
    requires rows != []
    ensures Joined([row] + rows, br) == row + (br + Joined(rows, br))
  {
    assert ([row] + rows)[1..] == rows;
  }

  lemma {:induction false} EncodeFilled(a: string, b: string, size: nat, nl: Newline)
    requires OneLine(a) && OneLine(b) && |a| == size >= 1 && b != []
    ensures Encode(a + b, 0, size, nl) == (a + " ") + (Break(nl) + Encode(b, 0, size, nl))
  {
    EncodeShort(a, 0, size, nl, b);
    EncodeFull(b, size, nl);
    Common.Assoc(a, " ", Break(nl) + Encode(b, 0, size, nl));
  }

  lemma {:induction false} EncodeLong(line: string, size: nat, nl: Newline)
    requires OneLine(line) && |line| > size >= 1
    requires Encode(line[size..], 0, size, nl) == Joined(Wrap(line[size..], size), Break(nl))
    ensures Encode(line, 0, size, nl) == Joined(Wrap(line, size), Break(nl))
  {
    var a, b := line[..size], line[size..];
    assert line == a + b;
    EncodeFilled(a, b, size, nl);
    JoinedCons(a + " ", Wrap(b, size), Break(nl));
  }

  lemma {:induction false} EncodeNoRoom(line: string, nl: Newline)
    requires OneLine(line) && line != [] && Encode(line, 0, 1, nl) == Joined(Wrap(line, 1), Break(nl))
    ensures Encode(line, 0, 0, nl) == Joined(Wrap(line, 0), Break(nl))
  {
    EncodeZero(line[1..], nl);
    JoinedCons(" ", Wrap(line, 1), Break(nl));
  }

  lemma {:induction false} EncodeLine(line: string, size: nat, nl: Newline)
    requires OneLine(line)
    ensures Encode(line, 0, size, nl) == Joined(Wrap(line, size), Break(nl))
    decreases |line|, if size == 0 then 1 else 0
  {
    if |line| <= size {
      EncodeShort(line, 0, size, nl, "");
      assert line + "" == line;
    } else if size == 0 {
      EncodeLine(line, 1, nl);
      EncodeNoRoom(line, nl);
    } else {
      EncodeLine(line[size..], size, nl);
      EncodeLong(line, size, nl);
    }
  }

  /** What is written for a line depends on no other line. */
  lemma {:induction false} EncodeAtNewline(a: string, b: string, cnt: nat, max: nat, nl: Newline)
    ensures Encode(a + ("\n" + b), cnt, max, nl) == Encode(a, cnt, max, nl) + (Break(nl) + Encode(b, 0, max, nl))
    decreases |a|
  {
    var s, rest := a + ("\n" + b), Break(nl) + Encode(b, 0, max, nl);
    if a == [] {
      assert s[0] == '\n' && s[1..] == b;
    } else {
      assert s[0] == a[0] && s[1..] == a[1..] + ("\n" + b);
      var x := Encode(a[1..], NextCnt(a, cnt, max), max, nl);
      EncodeAtNewline(a[1..], b, NextCnt(a, cnt, max), max, nl);
      if a[0] == '\n' {
        Common.Assoc(Break(nl), x, rest);
      } else if a[0] != '\r' && cnt >= max {
        Common.Assoc([a[0]], x, rest);
        Common.Assoc(Break(nl), [a[0]] + x, rest);
        Common.Assoc(" ", Break(nl) + ([a[0]] + x), rest);
      } else if a[0] != '\r' {
        Common.Assoc([a[0]], x, rest);
      }
    }
  }

  lemma {:induction false} EncodeRows(t: string, size: nat, nl: Newline)
    requires '\r' !in t
    ensures Encode(t, 0, size, nl) == Joined(Rows(t, size), Break(nl))
    decreases |t|
  {
    var p := LineEnd(t);
    var a := t[..p];
    EncodeLine(a, size, nl);
    if p == |t| {
      assert a == t;
    } else {
      var b := t[p + 1..];
      assert t == a + ("\n" + b);
      EncodeAtNewline(a, b, 0, size, nl);
      EncodeRows(b, size, nl);
      JoinedConcat(Wrap(a, size), Rows(b, size), Break(nl));
    }
  }

  /** What is written is every line, without its CRs, wrapped on its own, with a break between each two rows. */
  lemma {:induction false} EncodeIsRows(t: string, size: nat, nl: Newline)
    requires nl != None
    ensures Encode(t, 0, Limit(nl, size), nl) == Joined(Rows(Strip(t), size), Break(nl))
  {
    EncodeStrip(t, 0, size, nl);
    EncodeRows(Strip(t), size, nl);
  }

  /** Within `size` a line is written as it is, whatever stands on the lines around it. */
  lemma {:induction false} ShortLineKept(a: string, line: string, b: string, size: nat, nl: Newline)
    requires nl != None && OneLine(line) && |line| <= size
    ensures var max := Limit(nl, size);
            Encode(a + ("\n" + (line + ("\n" + b))), 0, max, nl)
            == Encode(a, 0, max, nl) + (Break(nl) + (line + (Break(nl) + Encode(b, 0, max, nl))))
  {
    EncodeAtNewline(a, line + ("\n" + b), 0, size, nl);
    EncodeAtNewline(line, b, 0, size, nl);
    EncodeLine(line, size, nl);
  }

  /** `ascii_decoder`; `prior` is the character read ahead, 0 for none. */
  class Decoder {
    var prior: int

    ghost predicate Valid()
      reads this
    {
      prior == EOF || 0 <= prior < 256
    }

    /** The characters still to be decoded. */
    ghost function Pending(src: CharSource): string
      requires Valid()
      reads this, src
    {
      if prior == 0 then src.data else if prior == EOF then "" else [prior as char] + src.data
    }

    constructor ()
      ensures prior == 0
    {
      prior := 0;
    }

    /** The character read ahead, or the next one of the source. */
    method First(src: CharSource) returns (ch: int)
      requires Valid() && Narrow(src.data) && (prior == EOF ==> src.data == "")
      modifies this, src
      ensures prior == 0 && Narrow(src.data) && (ch == EOF || 0 <= ch < 256)
      ensures old(Pending(src)) == if ch == EOF then "" else [ch as char] + src.data
      ensures ch == EOF ==> src.data == ""
    {
      if prior != 0 {
        ch := prior;
        prior := 0;
      } else {
        ch := src.Get();
      }
    }

    /** `ch` and then what is pending is the decoding of `s`. */
    ghost predicate Yields(src: CharSource, ch: int, s: string)
      reads this, src
    {
      && Valid() && Narrow(src.data) && (prior == EOF ==> src.data == "")
      && var text := Decode(s);
         if text == "" then ch == EOF && Decode(Pending(src)) == ""
         else ch == text[0] as int && Decode(Pending(src)) == text[1..]
    }

    /** The branch of `get` for a blank `c`. */
    method GetBlank(src: CharSource, c: int) returns (ch: int)
      requires prior == 0 && (c == ' ' as int || c == '\t' as int) && Narrow(src.data)
      modifies this, src
      ensures Yields(src, ch, [c as char] + old(src.data))
    {
      ghost var s := [c as char] + src.data;
      assert s[1..] == src.data;
      prior := c;
      ch := src.Get();
      if ch == '\r' as int {
        prior := 0;
        ch := src.Get();
      }
      if ch == '\n' as int {
        prior := 0;
        ch := src.Get();
      }
      if prior != 0 { ch, prior := prior, ch; }
    }

    /** The branch of `get` for a CR. */
    method GetCr(src: CharSource) returns (ch: int)
      requires prior == 0 && Narrow(src.data)
      modifies this, src
      ensures Yields(src, ch, "\r" + old(src.data))
    {
      ghost var s := "\r" + src.data;
      assert s[1..] == src.data && (src.data != "" ==> s[2..] == src.data[1..]);
      ch := src.Get();
      if ch != '\n' as int {
        prior := ch;
        ch := '\n' as int;
        assert Pending(src) == Ahead(s[1..]);
      }
      assert Decode(s) == ['\n'] + Decode(Pending(src));
    }

    /** `get`: the next character of the decoding of what is pending. */
    method Get(src: CharSource) returns (ch: int)
      requires Valid() && Narrow(src.data) && (prior == EOF ==> src.data == "")
      modifies this, src
      ensures Yields(src, ch, old(Pending(src)))
    {
      ch := First(src);
      ghost var s := old(Pending(src));
      assert ch != EOF ==> s[0] == ch as char && s[1..] == src.data;
      if ch == ' ' as int || ch == '\t' as int {
        ch := GetBlank(src, ch);
      } else if ch == '\r' as int {
        ch := GetCr(src);
      }
    }
  }

  /** Repeated `get` until the end of the source. */
  method DecodeAll(s: string) returns (t: string)
    requires Narrow(s)
    ensures t == Decode(s)
  {
    var dec := new Decoder();
    var src := new CharSource(s);
    t := "";
    while true
      invariant dec.Valid() && Narrow(src.data) && (dec.prior == EOF ==> src.data == "")
      invariant t + Decode(dec.Pending(src)) == Decode(s)
      decreases |Decode(dec.Pending(src))|
    {
      ghost var text := Decode(dec.Pending(src));
      Unshift(t, text);
      var ch := dec.Get(src);
      if ch == EOF { return; }
      t := t + [ch as char];
    }
  }

  lemma Unshift(t: string, u: string)
    ensures u == "" ==> t + u == t
    ensures u != "" ==> t + u == t + [u[0]] + u[1..]
  {
  }

  // ---------------------------------------------------------------- decoding undoes encoding

  /** The line holds this many characters after `t[0]` was written. */
  function NextCnt(t: string, cnt: nat, max: nat): nat
    requires t != []
  {
    if t[0] == '\r' then cnt else if t[0] == '\n' then 0 else if cnt >= max then 1 else cnt + 1
  }

  /**
   A NUL that is read ahead: right after a blank, or after the CR of a newline, with no soft break
   between the two.
   */
  predicate NulAhead(t: string, cnt: nat, max: nat, nl: Newline) {
    && |t| > 1 && t[1] == '\0' && NextCnt(t, cnt, max) < max
    && ((IsBlank(t[0]) && cnt < max) || (nl == Cr && t[0] == '\n'))
  }

  /** `t` starts with something that does not come back. */
  predicate LostHead(t: string, cnt: nat, max: nat, nl: Newline)
    requires t != []
  {
    || t[0] == '\r'
    || (IsBlank(t[0]) && cnt < max && |t| > 1 && t[1] == '\n')
    || NulAhead(t, cnt, max, nl)
  }

  /**
   Texts that survive: no CR, no blank right before a newline unless a soft break falls right before
   that blank, and no NUL that is read ahead.
   */
  predicate Survives(t: string, cnt: nat, max: nat, nl: Newline) {
    t == [] || (!LostHead(t, cnt, max, nl) && Survives(t[1..], NextCnt(t, cnt, max), max, nl))
  }

  /** What the encoding of a text can begin with. */
  lemma EncodeHead(t: string, cnt: nat, max: nat, nl: Newline)
    requires nl != None && t != [] && t[0] != '\r'
    ensures var e := Encode(t, cnt, max, nl);
            && e != []
            && (t[0] != '\n' ==> e[0] == (if cnt >= max then ' ' else t[0]))
            && (t[0] == '\n' ==> e[0] == Break(nl)[0])
  {
  }

  /** The first character of the encoding of a text without CR. */
  lemma {:induction false} FirstOut(t: string, cnt: nat, max: nat, nl: Newline)
    requires nl != None && '\r' !in t
    ensures (t != [] && t[0] == '\0' && cnt < max) || Ahead(Encode(t, cnt, max, nl)) == Encode(t, cnt, max, nl)
    ensures nl == Cr ==> (Encode(t, cnt, max, nl) == [] || Encode(t, cnt, max, nl)[0] != '\n')
  {
    if t != [] { EncodeHead(t, cnt, max, nl); }
  }

  lemma {:induction false} DecodeNewline(e: string, nl: Newline)
    requires nl != None && (nl == Cr ==> Ahead(e) == e && (e == [] || e[0] != '\n'))
    ensures Decode(Break(nl) + e) == ['\n'] + Decode(e)
  {
    var s := Break(nl) + e;
    match nl
    case Ln => assert s[1..] == e;
    case Cr => assert s[1..] == e;
    case CrLn => assert s[2..] == e && s[1] == '\n';
  }

  /** A blank or tab and the break after it vanish, and the character behind them is taken as it is. */
  lemma {:induction false} DecodeSoftBreak(w: char, c: char, e: string, nl: Newline)
    requires nl != None && (nl == Cr ==> c != '\n') && (w == ' ' || w == '\t')
    ensures Decode([w] + (Break(nl) + ([c] + e))) == [c] + Decode(e)
  {
    var s := [w] + (Break(nl) + ([c] + e));
    assert s[1..] == Break(nl) + ([c] + e);
    var b := s[1..];
    match nl
    case Ln => assert b[1..] == [c] + e;
    case Cr => assert b[1..] == [c] + e;
    case CrLn => assert b[1..] == "\n" + ([c] + e) && b[1..][1..] == [c] + e;
    assert SkipBreak(b) == [c] + e && ([c] + e)[1..] == e;
  }

  /** At the end of a text the two vanish alone, and elsewhere a blank stays. */
  lemma {:induction false} DecodeBlank(w: char, e: string, nl: Newline)
    requires w == ' ' || w == '\t'
    ensures nl != None ==> Decode([w] + Break(nl)) == ""
    ensures e == "" || (e[0] != '\r' && e[0] != '\n') ==> Decode([w] + e) == [w] + Decode(Ahead(e))
  {
    assert ([w] + e)[1..] == e && ([w] + Break(nl))[1..] == Break(nl);
    if nl == CrLn { assert Break(nl)[1..] == "\n" && "\n"[1..] == ""; }
  }

  /** All other characters stand for themselves. */
  lemma {:induction false} DecodePlain(c: char, e: string)
    requires c != ' ' && c != '\t' && c != '\r'
    ensures Decode([c] + e) == [c] + Decode(e)
  {
    assert ([c] + e)[1..] == e;
  }

  /** A head that is not lost comes back, and decoding goes on with the rest. */
  lemma {:induction false} HeadKept(t: string, cnt: nat, max: nat, nl: Newline)
    requires nl != None && '\r' !in t && t != [] && !LostHead(t, cnt, max, nl)
    ensures Decode(Encode(t, cnt, max, nl)) == [t[0]] + Decode(Encode(t[1..], NextCnt(t, cnt, max), max, nl))
  {
    var e := Encode(t[1..], NextCnt(t, cnt, max), max, nl);
    FirstOut(t[1..], NextCnt(t, cnt, max), max, nl);
    if t[0] == '\n' {
      DecodeNewline(e, nl);
    } else if cnt >= max {
      DecodeSoftBreak(' ', t[0], e, nl);
    } else {
      var s := [t[0]] + e;
      assert s[1..] == e;
      if IsBlank(t[0]) && |t| > 1 { EncodeHead(t[1..], cnt + 1, max, nl); }
    }
  }

  /** A NUL that is read ahead is dropped, and decoding goes on after it. */
  lemma {:induction false} NulLost(t: string, cnt: nat, max: nat, nl: Newline)
    requires nl != None && NulAhead(t, cnt, max, nl)
    ensures var next := NextCnt(t, cnt, max);
            Decode(Encode(t, cnt, max, nl)) == [t[0]] + Decode(Encode(t[2..], NextCnt(t[1..], next, max), max, nl))
  {
    var next := NextCnt(t, cnt, max);
    var e, rest := Encode(t[1..], next, max, nl), Encode(t[2..], NextCnt(t[1..], next, max), max, nl);
    assert t[1..][1..] == t[2..];
    assert e == ['\0'] + rest && Ahead(e) == rest;
    var s := [if t[0] == '\n' then '\r' else t[0]] + e;
    assert Encode(t, cnt, max, nl) == s && s[1..] == e;
  }

  // ---------------------------------------------------------------- exactly which texts survive

  /** The encoder drops every CR. */
  function Strip(t: string): (r: string)
    ensures |r| <= |t| && '\r' !in r && ('\r' in t ==> |r| < |t|) && ('\r' !in t ==> r == t)
  {
    if t == [] then "" else if t[0] == '\r' then Strip(t[1..]) else [t[0]] + Strip(t[1..])
  }

  lemma {:induction false} EncodeStrip(t: string, cnt: nat, max: nat, nl: Newline)
    ensures Encode(t, cnt, max, nl) == Encode(Strip(t), cnt, max, nl)
    decreases |t|
  {
    if t != [] {
      EncodeStrip(t[1..], NextCnt(t, cnt, max), max, nl);
      if t[0] != '\r' { assert Strip(t)[1..] == Strip(t[1..]); }
    }
  }

  /** After a lost blank and newline the next line starts with at most one character too many. */
  lemma {:induction false} RawHead(t: string, max: nat, nl: Newline)
    requires nl != None && '\r' !in t && max > 0 && t != []
    requires |Decode(Encode(t[1..], NextCnt(t, 0, max), max, nl))| <= |t| - 1
    ensures var e := Encode(t, 0, max, nl); e != [] && |Decode(e[1..])| <= |t|
  {
    var e := Encode(t, 0, max, nl);
    var rest := Encode(t[1..], NextCnt(t, 0, max), max, nl);
    if t[0] == '\n' && nl == CrLn {
      assert e[1..] == "\n" + rest && e[1..][1..] == rest;
    } else {
      assert e[1..] == rest;
    }
  }

  /** A blank right before a newline. */
  lemma {:induction false} LostPair(t: string, cnt: nat, max: nat, nl: Newline)
    requires nl != None && '\r' !in t && |t| > 1 && IsBlank(t[0]) && cnt < max && t[1] == '\n'
    requires var u := t[2..]; u != [] ==> |Decode(Encode(u[1..], NextCnt(u, 0, max), max, nl))| <= |u| - 1
    ensures |Decode(Encode(t, cnt, max, nl))| < |t|
  {
    var u := t[2..];
    assert t[1..][1..] == u;
    var e := Encode(u, 0, max, nl);
    var s := Encode(t, cnt, max, nl);
    assert Encode(t[1..], cnt + 1, max, nl) == Break(nl) + e;
    assert s[1..] == Break(nl) + e;
    FirstOut(u, 0, max, nl);
    SkipsBreak(e, nl);
    if u != [] { RawHead(u, max, nl); }
  }

  lemma {:induction false} SkipsBreak(e: string, nl: Newline)
    requires nl != None && (nl == Cr ==> e == [] || e[0] != '\n')
    ensures AtBreak(Break(nl) + e) && SkipBreak(Break(nl) + e) == e
  {
    var s := Break(nl) + e;
    match nl
    case Ln => assert s[1..] == e;
    case Cr => assert s[1..] == e;
    case CrLn => assert s[1..] == "\n" + e && ("\n" + e)[1..] == e;
  }

  /** Nothing is ever added, and a text that does not survive comes back shorter. */
  lemma {:induction false} Shorter(t: string, cnt: nat, max: nat, nl: Newline)
    requires nl != None && '\r' !in t
    ensures |Decode(Encode(t, cnt, max, nl))| <= |t|
    ensures !Survives(t, cnt, max, nl) ==> |Decode(Encode(t, cnt, max, nl))| < |t|
    decreases |t|
  {
    if t != [] {
      if NulAhead(t, cnt, max, nl) {
        NulLost(t, cnt, max, nl);
        Shorter(t[2..], NextCnt(t[1..], NextCnt(t, cnt, max), max), max, nl);
      } else if LostHead(t, cnt, max, nl) {
        var u := t[2..];
        if u != [] { Shorter(u[1..], NextCnt(u, 0, max), max, nl); }
        LostPair(t, cnt, max, nl);
      } else {
        HeadKept(t, cnt, max, nl);
        Shorter(t[1..], NextCnt(t, cnt, max), max, nl);
      }
    }
  }

  lemma {:induction false} SurvivesNoCr(t: string, cnt: nat, max: nat, nl: Newline)
    requires Survives(t, cnt, max, nl)
    ensures '\r' !in t
    decreases |t|
  {
    if t != [] { SurvivesNoCr(t[1..], NextCnt(t, cnt, max), max, nl); }
  }

  lemma {:induction false} Undone(t: string, cnt: nat, max: nat, nl: Newline)
    requires nl != None && Survives(t, cnt, max, nl)
    ensures Decode(Encode(t, cnt, max, nl)) == t
    decreases |t|
  {
    if t != [] {
      SurvivesNoCr(t, cnt, max, nl);
      HeadKept(t, cnt, max, nl);
      Undone(t[1..], NextCnt(t, cnt, max), max, nl);
    }
  }

  /** Decoding undoes encoding exactly on the texts that survive, for every text, line limit and newline. */
  lemma {:induction false} RoundTripIff(t: string, max: nat, nl: Newline)
    requires nl != None
    ensures Decode(Encode(t, 0, max, nl)) == t <==> Survives(t, 0, max, nl)
  {
    if Survives(t, 0, max, nl) {
      Undone(t, 0, max, nl);
    } else {
      EncodeStrip(t, 0, max, nl);
      Shorter(Strip(t), 0, max, nl);
    }
  }

  /** The same of the encoder as it is constructed, by its size. */
  lemma {:induction false} SizedRoundTripIff(t: string, size: nat, nl: Newline)
    requires nl == None ==> |t| <= SIZE_MAX
    ensures Decode(Encode(t, 0, Limit(nl, size), nl)) == t
            <==> if nl == None then OneLine(t) && !BlankNul(t) else Survives(t, 0, size, nl)
  {
    if nl == None { UnbrokenRoundTripIff(t); } else { RoundTripIff(t, size, nl); }
  }

  /** Nothing in `t` that could be lost, wherever the soft breaks fall. */
  predicate Clean(t: string) {
    && '\r' !in t
    && forall i :: 0 <= i < |t| - 1 ==>
                     && (IsBlank(t[i]) ==> t[i + 1] != '\n' && t[i + 1] != '\0')
                     && (t[i] == '\n' ==> t[i + 1] != '\0')
  }

  lemma {:induction false} CleanSurvives(t: string, cnt: nat, max: nat, nl: Newline)
    requires Clean(t)
    ensures Survives(t, cnt, max, nl)
    decreases |t|
  {
    if t != [] {
      var u := t[1..];
      forall i | 0 <= i < |u| - 1
        ensures IsBlank(u[i]) ==> u[i + 1] != '\n' && u[i + 1] != '\0'
        ensures u[i] == '\n' ==> u[i + 1] != '\0'
      {
        assert u[i] == t[i + 1] && u[i + 1] == t[i + 2];
      }
      CleanSurvives(u, NextCnt(t, cnt, max), max, nl);
    }
  }

  // ---------------------------------------------------------------- without breaks

  /** What is left of a text when breaks are written as nothing. */
  function Unbroken(t: string): (r: string)
    ensures |r| <= |t| && '\r' !in r && '\n' !in r
    ensures |r| == |t| <==> '\r' !in t && '\n' !in t
    ensures |r| == |t| ==> r == t
  {
    if t == [] then "" else if t[0] == '\r' || t[0] == '\n' then Unbroken(t[1..]) else [t[0]] + Unbroken(t[1..])
  }

  lemma {:induction false} EncodeUnbroken(t: string, cnt: nat, max: nat)
    requires cnt + |t| <= max
    ensures Encode(t, cnt, max, None) == Unbroken(t)
    decreases |t|
  {
    if t != [] {
      EncodeUnbroken(t[1..], NextCnt(t, cnt, max), max);
      assert "" + Unbroken(t[1..]) == Unbroken(t[1..]);
    }
  }

  predicate BlankNul(t: string) { exists i :: 0 <= i < |t| - 1 && IsBlank(t[i]) && t[i + 1] == '\0' }

  /** Without breaks only a NUL right after a blank is lost. */
  lemma {:induction false} DecodeUnbroken(t: string)
    requires '\r' !in t && '\n' !in t
    ensures |Decode(t)| <= |t| && (BlankNul(t) ==> |Decode(t)| < |t|) && (!BlankNul(t) ==> Decode(t) == t)
    decreases |t|
  {
    if t != [] {
      DecodeUnbroken(t[1..]);
      if IsBlank(t[0]) && |t| > 1 && t[1] == '\0' {
        assert BlankNul(t);
        DecodeUnbroken(t[2..]);
        assert t[1..][1..] == t[2..];
      } else {
        if BlankNul(t) {
          var i :| 0 <= i < |t| - 1 && IsBlank(t[i]) && t[i + 1] == '\0';
          assert t[1..][i - 1] == t[i] && t[1..][i] == t[i + 1];
        }
        if BlankNul(t[1..]) {
          var i :| 0 <= i < |t[1..]| - 1 && IsBlank(t[1..][i]) && t[1..][i + 1] == '\0';
          assert t[i + 1] == t[1..][i] && t[i + 2] == t[1..][i + 1];
        }
        assert t == [t[0]] + t[1..];
      }
    }
  }

  /** Written without breaks, a text comes back exactly when it has no CR, no newline and no NUL right after a blank. */
  lemma {:induction false} UnbrokenRoundTripIff(t: string)
    requires |t| <= SIZE_MAX
    ensures Decode(Encode(t, 0, SIZE_MAX, None)) == t <==> '\r' !in t && '\n' !in t && !BlankNul(t)
  {
    EncodeUnbroken(t, 0, SIZE_MAX);
    DecodeUnbroken(Unbroken(t));
  }
}
