/**
 The line splitting of `ostream_codecvt`: text arrives in chunks of any size, and every line is
 converted and written when its end is seen, be it CR, LF or CRLF, even a CRLF cut in two.
 */
module LineSplitter {

  predicate IsBreak(ch: char) { ch == '\r' || ch == '\n' }

  /** The length of the first line. */
  function LineEnd(s: string): (n: nat)
    ensures n <= |s| && (forall i :: 0 <= i < n ==> !IsBreak(s[i])) && (n < |s| ==> IsBreak(s[n]))
  {
    if s == [] || IsBreak(s[0]) then 0 else 1 + LineEnd(s[1..])
  }

  /** The text after one CRLF, CR or LF. */
  function AfterBreak(s: string): string
    requires s != []
  {
    if s[0] == '\r' && |s| > 1 && s[1] == '\n' then s[2..] else s[1..]
  }

  datatype Split = Split(lines: seq<string>, rest: string)

  /** A whole text: its complete lines, and what follows the last break. */
  function SplitAll(s: string): Split
    decreases |s|
  {
    var n := LineEnd(s);
    if n == |s| then Split([], s)
    else
      var t := SplitAll(AfterBreak(s[n..]));
      Split([s[..n]] + t.lines, t.rest)
  }

  predicate OneLine(s: string) { '\r' !in s && '\n' !in s }

  /** Lines with the break of each behind it, and then the rest. */
  function Woven(lines: seq<string>, breaks: seq<string>, rest: string): string
    requires |lines| == |breaks|
  {
    if lines == [] then rest else lines[0] + (breaks[0] + Woven(lines[1..], breaks[1..], rest))
  }

  /** A CR and an LF that stand together are one break. */
  predicate Whole(lines: seq<string>, breaks: seq<string>)
    requires |lines| == |breaks|
  {
    forall i :: 0 <= i < |breaks| - 1 && breaks[i] == "\r" && breaks[i + 1] == "\n" ==> lines[i + 1] != ""
  }

  predicate AllBreaks(breaks: seq<string>) {
    forall i :: 0 <= i < |breaks| ==> breaks[i] == "\r\n" || breaks[i] == "\r" || breaks[i] == "\n"
  }

  predicate AllLines(lines: seq<string>) { forall i :: 0 <= i < |lines| ==> OneLine(lines[i]) }

  /** `w` cuts `s` at these breaks, at every one of them and between no CR and LF. */
  predicate Weaves(w: Split, breaks: seq<string>, s: string) {
    && |w.lines| == |breaks| && AllLines(w.lines) && OneLine(w.rest)
    && AllBreaks(breaks) && Whole(w.lines, breaks)
    && Woven(w.lines, breaks, w.rest) == s
  }

  lemma {:induction false} WholeMore(line: string, br: string, lines: seq<string>, breaks: seq<string>)
    requires |lines| == |breaks| && Whole(lines, breaks)
    requires br == "\r" && breaks != [] && breaks[0] == "\n" ==> lines[0] != ""
    ensures Whole([line] + lines, [br] + breaks)
  {
    var ls, bs := [line] + lines, [br] + breaks;
    forall i | 0 <= i < |bs| - 1 && bs[i] == "\r" && bs[i + 1] == "\n"
      ensures ls[i + 1] != ""
    {
      assert ls[i + 1] == lines[i] && bs[i + 1] == breaks[i];
      if i > 0 { assert bs[i] == breaks[i - 1]; }
    }
  }

  lemma {:induction false} WeavesMore(line: string, br: string, w: Split, breaks: seq<string>, s: string)
    requires Weaves(w, breaks, s) && OneLine(line) && (br == "\r\n" || br == "\r" || br == "\n")
    requires br == "\r" && s != "" ==> s[0] != '\n'
    ensures Weaves(Split([line] + w.lines, w.rest), [br] + breaks, line + (br + s))
  {
    var ls, bs := [line] + w.lines, [br] + breaks;
    assert ls[1..] == w.lines && bs[1..] == breaks;
    if breaks != [] && breaks[0] == "\n" && w.lines[0] == "" { WovenHead(w.lines, breaks, w.rest); }
    WholeMore(line, br, w.lines, breaks);
  }

  lemma {:induction false} FirstBreak(u: string) returns (br: string)
    requires u != [] && IsBreak(u[0])
    ensures br == "\r\n" || br == "\r" || br == "\n"
    ensures u == br + AfterBreak(u) && (br == "\r" && AfterBreak(u) != "" ==> AfterBreak(u)[0] != '\n')
  {
    br := if u[0] == '\r' && |u| > 1 && u[1] == '\n' then "\r\n" else [u[0]];
  }

  lemma {:induction false} WovenHead(lines: seq<string>, breaks: seq<string>, rest: string)
    requires |lines| == |breaks| > 0 && lines[0] == "" && breaks[0] == "\n"
    ensures Woven(lines, breaks, rest) != "" && Woven(lines, breaks, rest)[0] == '\n'
  {
  }

  lemma {:induction false} SplitStep(s: string)
    requires LineEnd(s) < |s|
    ensures var n := LineEnd(s);
            var w := SplitAll(AfterBreak(s[n..]));
            SplitAll(s) == Split([s[..n]] + w.lines, w.rest) && OneLine(s[..n]) && s == s[..n] + s[n..]
  {
  }

  /** The lines of a text, with a break behind each and the rest, are the text, and no break is cut in two. */
  lemma {:induction false} SplitWoven(s: string) returns (breaks: seq<string>)
    ensures Weaves(SplitAll(s), breaks, s)
    decreases |s|
  {
    var n := LineEnd(s);
    if n == |s| {
      breaks := [];
    } else {
      var u, line := s[n..], s[..n];
      var br := FirstBreak(u);
      var more := SplitWoven(AfterBreak(u));
      SplitStep(s);
      WeavesMore(line, br, SplitAll(AfterBreak(u)), more, AfterBreak(u));
      breaks := [br] + more;
    }
  }

  lemma {:induction false} WeavesTail(w: Split, breaks: seq<string>, s: string)
    requires Weaves(w, breaks, s) && breaks != []
    ensures var t := Woven(w.lines[1..], breaks[1..], w.rest);
            && Weaves(Split(w.lines[1..], w.rest), breaks[1..], t)
            && s == w.lines[0] + (breaks[0] + t)
            && (breaks[0] == "\r" && t != "" ==> t[0] != '\n')
  {
    var lines, more := w.lines[1..], breaks[1..];
    forall i | 0 <= i < |more| - 1 && more[i] == "\r" && more[i + 1] == "\n"
      ensures lines[i + 1] != ""
    {
      assert breaks[i + 1] == more[i] && breaks[i + 2] == more[i + 1];
    }
    if more != [] { assert lines[0] == w.lines[1] && more[0] == breaks[1]; }
    NewlineAhead(lines, more, w.rest);
  }

  /** A text starts with an LF only when its first line is empty and ends in one. */
  lemma {:induction false} NewlineAhead(lines: seq<string>, breaks: seq<string>, rest: string)
    requires |lines| == |breaks| && AllLines(lines) && AllBreaks(breaks) && OneLine(rest)
    ensures var t := Woven(lines, breaks, rest);
            t != "" && t[0] == '\n' ==> breaks != [] && breaks[0] == "\n" && lines[0] == ""
  {
  }

  lemma {:induction false} LineEndAt(line: string, u: string)
    requires OneLine(line) && (u == "" || IsBreak(u[0]))
    ensures LineEnd(line + u) == |line|
  {
    var s := line + u;
    assert forall i :: 0 <= i < |line| ==> s[i] == line[i] && !IsBreak(line[i]);
    assert u != "" ==> s[|line|] == u[0];
  }

  /** The split is the only way to cut a text like that. */
  lemma {:induction false} SplitUnique(w: Split, breaks: seq<string>, s: string)
    requires Weaves(w, breaks, s)
    ensures w == SplitAll(s)
    decreases |breaks|
  {
    if breaks == [] {
      LineEndAt(s, "");
      assert s + "" == s;
    } else {
      var t := Woven(w.lines[1..], breaks[1..], w.rest);
      WeavesTail(w, breaks, s);
      SplitUnique(Split(w.lines[1..], w.rest), breaks[1..], t);
      LineEndAt(w.lines[0], breaks[0] + t);
      AfterOne(breaks[0], t);
      SplitStep(s);
      assert s[LineEnd(s)..] == breaks[0] + t && s[..LineEnd(s)] == w.lines[0];
      assert w.lines == [w.lines[0]] + w.lines[1..];
    }
  }

  lemma {:induction false} AfterOne(br: string, t: string)
    requires br == "\r\n" || br == "\r" || br == "\n"
    requires br == "\r" && t != "" ==> t[0] != '\n'
    ensures IsBreak((br + t)[0]) && AfterBreak(br + t) == t
  {
  }

  // ---------------------------------------------------------------- one character at a time

  /** Lines written, the line in progress and whether the last character was a CR. */
  datatype Scan = Scan(lines: seq<string>, line: string, afterCr: bool)

  function Feed(s: Scan, ch: char): Scan {
    if ch == '\n' && s.afterCr then s.(afterCr := false)
    else if IsBreak(ch) then Scan(s.lines + [s.line], "", ch == '\r')
    else Scan(s.lines, s.line + [ch], false)
  }

  function FeedAll(s: Scan, t: string): Scan
    decreases |t|
  {
    if t == [] then s else FeedAll(Feed(s, t[0]), t[1..])
  }

  lemma {:induction false} FeedConcat(s: Scan, t: string, u: string)
    ensures FeedAll(s, t + u) == FeedAll(FeedAll(s, t), u)
    decreases |t|
  {
    if t == [] {
      assert t + u == u;
    } else {
      assert (t + u)[0] == t[0] && (t + u)[1..] == t[1..] + u;
      FeedConcat(Feed(s, t[0]), t[1..], u);
    }
  }

  /** A stretch without a break only lengthens the line. */
  lemma {:induction false} FeedPlain(s: Scan, t: string)
    requires forall i :: 0 <= i < |t| ==> !IsBreak(t[i])
    ensures FeedAll(s, t) == if t == [] then s else Scan(s.lines, s.line + t, false)
    decreases |t|
  {
    if t != [] {
      FeedPlain(Feed(s, t[0]), t[1..]);
      assert s.line + [t[0]] + t[1..] == s.line + t;
    }
  }

  /** Where a whole break leaves the scan. */
  function FeedBreak(s: Scan, u: string): Scan
    requires u != []
  {
    Scan(s.lines + [s.line], "", u[0] == '\r' && !(|u| > 1 && u[1] == '\n'))
  }

  lemma {:induction false} BreakFed(s: Scan, u: string)
    requires u != [] && IsBreak(u[0]) && !(s.afterCr && u[0] == '\n')
    ensures FeedAll(s, u) == FeedAll(FeedBreak(s, u), AfterBreak(u))
    ensures !(FeedBreak(s, u).afterCr && AfterBreak(u) != [] && AfterBreak(u)[0] == '\n')
  {
    if u[0] == '\r' && |u| > 1 && u[1] == '\n' {
      assert u[1..][0] == '\n' && u[1..][1..] == u[2..];
      assert FeedAll(Feed(s, '\r'), u[1..]) == FeedAll(Feed(Feed(s, '\r'), '\n'), u[2..]);
    }
  }

  lemma {:induction false} BreakEnds(s: string, at: nat, next: nat)
    requires at < |s| && IsBreak(s[at])
    requires next == at + if s[at] == '\r' && at + 1 < |s| && s[at + 1] == '\n' then 2 else 1
    ensures AfterBreak(s[at..]) == s[next..]
    ensures forall m: Scan :: FeedBreak(m, s[at..]).afterCr == (s[at] == '\r' && next == at + 1)
  {
    var u := s[at..];
    assert u[0] == s[at] && (|u| > 1 ==> u[1] == s[at + 1]);
    assert u[1..] == s[at + 1..] && (|u| > 1 ==> u[2..] == s[at + 2..]);
  }

  /** The first line of a text and the break after it, in one go. */
  lemma {:induction false} LineFed(s: Scan, t: string)
    requires !(s.afterCr && t != [] && t[0] == '\n')
    ensures var n := LineEnd(t);
            if n == |t| then FeedAll(s, t) == (if t == [] then s else Scan(s.lines, s.line + t, false))
            else
              var m := FeedBreak(Scan(s.lines, s.line + t[..n], false), t[n..]);
              && FeedAll(s, t) == FeedAll(m, AfterBreak(t[n..]))
              && !(m.afterCr && AfterBreak(t[n..]) != [] && AfterBreak(t[n..])[0] == '\n')
  {
    var n := LineEnd(t);
    FeedPlain(s, t[..n]);
    assert t == t[..n] + t[n..];
    FeedConcat(s, t[..n], t[n..]);
    if n == |t| {
      assert t[..n] == t && t[n..] == [];
    } else {
      var m := FeedAll(s, t[..n]);
      assert m.line == s.line + t[..n] by { assert n == 0 ==> s.line + t[..n] == s.line; }
      BreakFed(m, t[n..]);
    }
  }

  /** The split of a text with `line` in front of its first line and `lines` before that. */
  function Prefixed(lines: seq<string>, line: string, w: Split): Split {
    if w.lines == [] then Split(lines, line + w.rest)
    else Split(lines + ([line + w.lines[0]] + w.lines[1..]), w.rest)
  }

  /** Scanning a text gives its split. */
  lemma {:induction false} ScanIsSplit(s: Scan, t: string)
    requires !(s.afterCr && t != [] && t[0] == '\n')
    ensures var f := FeedAll(s, t); Split(f.lines, f.line) == Prefixed(s.lines, s.line, SplitAll(t))
    decreases |t|
  {
    var n := LineEnd(t);
    LineFed(s, t);
    if n == |t| {
      assert t == [] ==> s.line + t == s.line;
    } else {
      var m := FeedBreak(Scan(s.lines, s.line + t[..n], false), t[n..]);
      var r := AfterBreak(t[n..]);
      ScanIsSplit(m, r);
      PrefixedTwice(s.lines, s.line, t[..n], SplitAll(r));
    }
  }

  lemma PrefixedTwice(lines: seq<string>, line: string, first: string, w: Split)
    ensures Prefixed(lines + [line + first], "", w) == Prefixed(lines, line, Split([first] + w.lines, w.rest))
  {
    var all := [first] + w.lines;
    assert all[1..] == w.lines;
    if w.lines == [] {
      assert "" + w.rest == w.rest && [line + first] + [] == [line + first];
    } else {
      assert "" + w.lines[0] == w.lines[0] && [w.lines[0]] + w.lines[1..] == w.lines;
      assert lines + [line + first] + w.lines == lines + ([line + first] + w.lines);
    }
  }

  /** Writing the chunks one after the other. */
  function Concat(chunks: seq<string>): string { if chunks == [] then "" else chunks[0] + Concat(chunks[1..]) }

  // ---------------------------------------------------------------- the code

  class Splitter {
    var out: seq<string>      // lines written so far, before conversion
    var line: string
    var last: char
    ghost var consumed: string

    /** The state is that of the scan of everything written so far. */
    ghost predicate Valid()
      reads this
    {
      && Scan(out, line, last == '\r') == FeedAll(Scan([], "", false), consumed)
      && (consumed != [] ==> last == consumed[|consumed| - 1])
    }

    constructor ()
      ensures Valid() && consumed == ""
    {
      out, line, last, consumed := [], "", '\0', "";
    }

    /** One turn of the loop: up to the next break and over it, or to the end of the chunk. */
    method Line(s: string, beg: nat, ghost now: Scan) returns (next: nat, ghost after: Scan)
      requires beg < |s| && now.lines == out && now.line == line && !(now.afterCr && s[beg] == '\n')
      modifies this`out, this`line
      ensures beg < next <= |s| && after.lines == out && after.line == line
      ensures FeedAll(after, s[next..]) == FeedAll(now, s[beg..])
      ensures next < |s| ==> !(after.afterCr && s[next] == '\n')
      ensures next == |s| ==> after.afterCr == (s[|s| - 1] == '\r')
    {
      ghost var rest := s[beg..];
      LineFed(now, rest);
      var n := LineEnd(s[beg..]);
      next := beg + n;
      line := line + s[beg..next];
      assert rest[..n] == s[beg..next];
      if next == |s| {
        assert rest == s[beg..next] && s[next..] == [];
        after := Scan(now.lines, now.line + rest, false);
        assert !IsBreak(rest[n - 1]);
      } else {
        ghost var at := next;
        assert rest[n..] == s[at..];
        after := FeedBreak(Scan(now.lines, now.line + rest[..n], false), s[at..]);
        out := out + [line];
        line := "";
        if s[next] == '\r' { next := next + 1; }
        if next < |s| && s[next] == '\n' { next := next + 1; }
        BreakEnds(s, at, next);
      }
    }

    /** `write`: searches the chunk for breaks, whatever was cut off before. */
    method Write(s: string)
      requires Valid()
      modifies this
      ensures Valid() && consumed == old(consumed) + s
    {
      if s == [] {
        assert consumed + s == consumed;
        return;
      }
      ghost var now := Scan(out, line, last == '\r');
      FeedConcat(Scan([], "", false), consumed, s);
      ghost var goal := FeedAll(now, s);
      var beg := 0;
      assert s[0..] == s;
      if last == '\r' && s[0] == '\n' {
        beg := 1;
        now := Feed(now, '\n');
      }
      last := s[|s| - 1];
      consumed := consumed + s;
      while beg < |s|
        invariant beg <= |s| && FeedAll(now, s[beg..]) == goal
        invariant now.lines == out && now.line == line
        invariant last == s[|s| - 1] && consumed == old(consumed) + s
        invariant beg < |s| ==> !(now.afterCr && s[beg] == '\n')
        invariant beg == |s| ==> now.afterCr == (last == '\r')
      {
        beg, now := Line(s, beg, now);
      }
    }

    /** `close`: flushes what follows the last break. */
    method Close() returns (rest: string)
      requires Valid()
      modifies this`line
      ensures Split(out, rest) == SplitAll(consumed) && line == ""
    {
      WholeText(consumed);
      rest := line;
      line := "";
    }
  }

  /** Any partition into `write` calls gives the lines and the remainder of the whole text. */
  method WriteAll(chunks: seq<string>) returns (lines: seq<string>, rest: string)
    ensures Split(lines, rest) == SplitAll(Concat(chunks))
  {
    var sp := new Splitter();
    for i := 0 to |chunks|
      invariant sp.Valid() && sp.consumed + Concat(chunks[i..]) == Concat(chunks)
    {
      assert chunks[i..][1..] == chunks[i + 1..];
      sp.Write(chunks[i]);
    }
    assert chunks[|chunks|..] == [];
    assert sp.consumed + "" == sp.consumed;
    rest := sp.Close();
    lines := sp.out;
  }

  /** The scan of a whole text from the start is its split. */
  lemma {:induction false} WholeText(t: string)
    ensures var s := FeedAll(Scan([], "", false), t); Split(s.lines, s.line) == SplitAll(t)
  {
    ScanIsSplit(Scan([], "", false), t);
    var w := SplitAll(t);
    assert "" + w.rest == w.rest;
    if w.lines != [] { assert "" + w.lines[0] == w.lines[0] && [] + ([w.lines[0]] + w.lines[1..]) == w.lines; }
  }
}
