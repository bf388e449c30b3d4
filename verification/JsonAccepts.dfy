/**
 Every text of the grammar is read: the parser eats it character by character and ends with
 exactly the tree the text denotes.
 */
module JsonAccepts {
  import opened Common
  import opened JsonModel
  import opened JsonGrammar

  /** The step from `ms[i]` to `ms[i + 1]` takes in `s[i]`. */
  ghost predicate Takes(ms: seq<Impl>, s: string, i: nat)
    requires |ms| == |s| + 1 && i < |s|
  {
    ms[i].inProgress && Dispatch(ms[i], s[i]) == (ms[i + 1], Consumed)
  }

  ghost predicate Trace(ms: seq<Impl>, p: Impl, s: string, q: Impl) {
    |ms| == |s| + 1 && ms[0] == p && ms[|s|] == q && forall i :: 0 <= i < |s| ==> Takes(ms, s, i)
  }

  /** `p` takes in all of `s`, staying in progress before each character, and becomes `q`. */
  ghost predicate Eats(p: Impl, s: string, q: Impl) {
    exists ms :: Trace(ms, p, s, q)
  }

  function Done(t: Tree): Impl { Impl(t, false, Any) }

  predicate IsCloser(ch: char) { IsBlank(ch) || ch == ',' || ch == ']' || ch == '}' }

  /** Values that end with their own last character, unlike numbers and literals. */
  predicate SelfDelimiting(v: Value) { v.VStr? || v.VArr? || v.VEmptyObj? || v.VObj? }

  /** Characters that cannot continue a number or literal, and so end it. */
  predicate Terminates(v: Value, ch: char) {
    match v
    case VNum(n) =>
      && !IsDigit(ch)
      && (n.expo.None? ==> !IsExpMark(ch))
      && (n.expo.None? && n.frac.None? ==> ch != '.')
    case _ => true
  }

  /** `q` has finished `v`, or hands a terminating character back when it finishes. */
  ghost predicate Ends(q: Impl, v: Value)
    requires Wf(v)
  {
    if SelfDelimiting(v) then q == Done(Build(v))
    else q.inProgress && forall ch :: Terminates(v, ch) ==> Step(q, ch) == (Done(Build(v)), Again)
  }

  lemma {:induction false} EatsConcat(p: Impl, s: string, m: Impl, t: string, q: Impl)
    requires Eats(p, s, m) && Eats(m, t, q)
    ensures Eats(p, s + t, q)
  {
    var a :| Trace(a, p, s, m);
    var b :| Trace(b, m, t, q);
    var ms := a + b[1..];
    forall i | 0 <= i < |s + t|
      ensures Takes(ms, s + t, i)
    {
      if i < |s| { assert Takes(a, s, i); } else { assert Takes(b, t, i - |s|); }
    }
    assert Trace(ms, p, s + t, q);
  }

  lemma {:induction false} EatsNone(p: Impl)
    ensures Eats(p, "", p)
  {
    assert Trace([p], p, "", p);
  }

  lemma {:induction false} EatsLast(p: Impl, ch: char, q: Impl)
    requires p.inProgress && Dispatch(p, ch) == (q, Consumed)
    ensures Eats(p, [ch], q)
  {
    var ms := [p, q];
    assert Takes(ms, [ch], 0);
    assert Trace(ms, p, [ch], q);
  }

  lemma {:induction false} EatsOne(p: Impl, ch: char, m: Impl, t: string, q: Impl)
    requires p.inProgress && Dispatch(p, ch) == (m, Consumed) && Eats(m, t, q)
    ensures Eats(p, [ch] + t, q)
  {
    EatsLast(p, ch, m);
    EatsConcat(p, [ch], m, t, q);
  }

  lemma {:induction false} EatsCons(p: Impl, t: string, m: Impl, q: Impl)
    requires t != [] && p.inProgress && Dispatch(p, t[0]) == (m, Consumed) && Eats(m, t[1..], q)
    ensures Eats(p, t, q)
  {
    EatsOne(p, t[0], m, t[1..], q);
    assert t == [t[0]] + t[1..];
  }

  /** The first step of a run, and the run after it. */
  lemma {:induction false} EatsUncons(p: Impl, s: string, q: Impl)
    requires Eats(p, s, q) && s != []
    ensures p.inProgress && Dispatch(p, s[0]).1 == Consumed && Eats(Dispatch(p, s[0]).0, s[1..], q)
  {
    var ms :| Trace(ms, p, s, q);
    assert Takes(ms, s, 0);
    forall i | 0 <= i < |s[1..]|
      ensures Takes(ms[1..], s[1..], i)
    {
      assert Takes(ms, s, i + 1);
    }
    assert Trace(ms[1..], ms[1], s[1..], q);
  }

  /** A run of characters that leave `p` as it is. */
  lemma {:induction false} EatsIdle(p: Impl, s: string)
    requires p.inProgress && forall i :: 0 <= i < |s| ==> Dispatch(p, s[i]) == (p, Consumed)
    ensures Eats(p, s, p)
  {
    var ms := seq(|s| + 1, _ => p);
    assert forall i :: 0 <= i < |s| ==> Takes(ms, s, i);
    assert Trace(ms, p, s, p);
  }

  // ---------------------------------------------------------------- strings

  ghost predicate StrTakes(ms: seq<StringState>, t: string, i: nat)
    requires |ms| == |t| + 1 && i < |t|
  {
    StepString(ms[i], t[i]) == (ms[i + 1], More)
  }

  ghost predicate StrTrace(ms: seq<StringState>, s: StringState, t: string, r: StringState) {
    |ms| == |t| + 1 && ms[0] == s && ms[|t|] == r && forall i :: 0 <= i < |t| ==> StrTakes(ms, t, i)
  }

  /** `StepString` takes in all of `t` without closing the string. */
  ghost predicate StrEats(s: StringState, t: string, r: StringState) {
    exists ms :: StrTrace(ms, s, t, r)
  }

  lemma {:induction false} StrEatsConcat(s: StringState, t: string, m: StringState, u: string, r: StringState)
    requires StrEats(s, t, m) && StrEats(m, u, r)
    ensures StrEats(s, t + u, r)
  {
    var a :| StrTrace(a, s, t, m);
    var b :| StrTrace(b, m, u, r);
    var ms := a + b[1..];
    forall i | 0 <= i < |t + u|
      ensures StrTakes(ms, t + u, i)
    {
      if i < |t| { assert StrTakes(a, t, i); } else { assert StrTakes(b, u, i - |t|); }
    }
    assert StrTrace(ms, s, t + u, r);
  }

  lemma {:induction false} StrEatsNone(s: StringState)
    ensures StrEats(s, "", s)
  {
    assert StrTrace([s], s, "", s);
  }

  lemma {:induction false} StrEatsLast(s: StringState, ch: char, r: StringState)
    requires StepString(s, ch) == (r, More)
    ensures StrEats(s, [ch], r)
  {
    var ms := [s, r];
    assert StrTakes(ms, [ch], 0);
    assert StrTrace(ms, s, [ch], r);
  }

  function Plain(text: string): StringState { StringState(false, "", text) }

  lemma {:induction false} StrItemEats(text: string, i: StrItem)
    requires WfItem(i)
    ensures StrEats(Plain(text), ItemText(i), Plain(text + ItemMeaning(i)))
  {
    var r := Plain(text + ItemMeaning(i));
    var s0 := StringState(true, "", text);
    match i
    case Raw(c) =>
      StrEatsLast(Plain(text), c, r);
    case Esc(e) =>
      StrEatsLast(Plain(text), '\\', s0);
      StrEatsLast(s0, e, r);
      StrEatsConcat(Plain(text), ['\\'], s0, [e], r);
      assert ItemText(i) == ['\\'] + [e];
    case Hex(u, h) =>
      StrEatsLast(Plain(text), '\\', s0);
      StrEatsLast(s0, u, s0.(hex := [u]));
      StrEatsConcat(Plain(text), ['\\'], s0, [u], s0.(hex := [u]));
      HexEats(s0.(hex := [u]), h);
      StrEatsConcat(Plain(text), ['\\'] + [u], s0.(hex := [u]), h, r);
      assert ItemText(i) == ['\\'] + [u] + h;
  }

  lemma {:induction false} HexEats(s: StringState, h: string)
    requires s.escape && |s.hex| == 1 && (s.hex[0] == 'u' || s.hex[0] == 'U')
    requires |h| == 4 && forall i :: 0 <= i < |h| ==> IsHex(h[i])
    ensures StrEats(s, h, Plain(s.text + Unescape(h)))
  {
    var s2 := s.(hex := s.hex + [h[0]]);
    var s3 := s.(hex := s2.hex + [h[1]]);
    var s4 := s.(hex := s3.hex + [h[2]]);
    var r := Plain(s.text + Unescape(h));
    assert s4.hex[1..] + [h[3]] == h;
    StrEatsLast(s, h[0], s2);
    StrEatsLast(s2, h[1], s3);
    StrEatsLast(s3, h[2], s4);
    StrEatsLast(s4, h[3], r);
    StrEatsConcat(s, [h[0]], s2, [h[1]], s3);
    StrEatsConcat(s, [h[0]] + [h[1]], s3, [h[2]], s4);
    StrEatsConcat(s, [h[0]] + [h[1]] + [h[2]], s4, [h[3]], r);
    assert h == [h[0]] + [h[1]] + [h[2]] + [h[3]];
  }

  lemma {:induction false} StrEatsBoth(text: string, s: string, m: string, t: string, n: string)
    requires StrEats(Plain(text), s, Plain(text + m)) && StrEats(Plain(text + m), t, Plain(text + m + n))
    ensures StrEats(Plain(text), s + t, Plain(text + (m + n)))
  {
    StrEatsConcat(Plain(text), s, Plain(text + m), t, Plain(text + m + n));
    assert text + m + n == text + (m + n);
  }

  lemma {:induction false} StrAllEats(text: string, items: seq<StrItem>)
    requires WfStr(items)
    ensures StrEats(Plain(text), StrText(items), Plain(text + StrMeaning(items)))
    decreases |items|
  {
    if items == [] {
      assert text + StrMeaning(items) == text;
      StrEatsNone(Plain(text));
    } else {
      var i, rest := items[0], items[1..];
      StrItemEats(text, i);
      StrAllEats(text + ItemMeaning(i), rest);
      StrEatsBoth(text, ItemText(i), ItemMeaning(i), StrText(rest), StrMeaning(rest));
    }
  }

  function StrAt(s: StringState): Impl { Impl(EMPTY_TREE, true, Str(s)) }

  lemma {:induction false} LiftStr(s: StringState, t: string, r: StringState)
    requires StrEats(s, t, r)
    ensures Eats(StrAt(s), t, StrAt(r))
  {
    var a :| StrTrace(a, s, t, r);
    var ms := seq(|a|, i requires 0 <= i < |a| => StrAt(a[i]));
    forall i | 0 <= i < |t|
      ensures Takes(ms, t, i)
    {
      assert StrTakes(a, t, i);
    }
    assert Trace(ms, StrAt(s), t, StrAt(r));
  }

  function KeyAt(kids: seq<Edge>, k: Key): Impl { Impl(Tree(NoData, kids), true, Obj(Some(k), None, false)) }

  lemma {:induction false} LiftKey(kids: seq<Edge>, s: StringState, t: string, r: StringState)
    requires StrEats(s, t, r)
    ensures Eats(KeyAt(kids, Key(true, s)), t, KeyAt(kids, Key(true, r)))
  {
    var a :| StrTrace(a, s, t, r);
    var ms := seq(|a|, i requires 0 <= i < |a| => KeyAt(kids, Key(true, a[i])));
    forall i | 0 <= i < |t|
      ensures Takes(ms, t, i)
    {
      assert StrTakes(a, t, i);
    }
    assert Trace(ms, KeyAt(kids, Key(true, s)), t, KeyAt(kids, Key(true, r)));
  }

  lemma {:induction false} EatString(chars: seq<StrItem>)
    requires WfStr(chars)
    ensures Eats(FRESH, TextOf(VStr(chars)), Done(Build(VStr(chars))))
  {
    var r := Plain(StrMeaning(chars));
    StrAllEats("", chars);
    assert "" + StrMeaning(chars) == StrMeaning(chars);
    LiftStr(Plain(""), StrText(chars), r);
    var end := Done(Build(VStr(chars)));
    EatsLast(StrAt(r), '"', end);
    EatsConcat(StrAt(Plain("")), StrText(chars), StrAt(r), "\"", end);
    EatsOne(FRESH, '"', StrAt(Plain("")), StrText(chars) + "\"", end);
    assert TextOf(VStr(chars)) == ['"'] + (StrText(chars) + "\"");
  }

  // ---------------------------------------------------------------- literals

  function LitAt(l: Literal, at: nat): Impl { Impl(EMPTY_TREE, true, Lit(l, at)) }

  lemma {:induction false} EatWord(l: Literal, word: string, at: nat)
    requires WfWord(l, word) && at < |word|
    ensures Eats(LitAt(l, at), word[at + 1..], LitAt(l, |word| - 1))
    decreases |word| - at
  {
    if at + 1 == |word| {
      EatsNone(LitAt(l, at));
    } else {
      EatWord(l, word, at + 1);
      EatsOne(LitAt(l, at), word[at + 1], LitAt(l, at + 1), word[at + 2..], LitAt(l, |word| - 1));
      assert word[at + 1..] == [word[at + 1]] + word[at + 2..];
    }
  }

  lemma {:induction false} FirstLetter(l: Literal, ch: char)
    requires ToLower(ch) == Word(l)[0]
    ensures Step(FRESH, ch) == (LitAt(l, 0), Consumed)
  {
    assert ch == Word(l)[0] || ch as int + 32 == Word(l)[0] as int;
  }

  lemma {:induction false} EatLiteral(l: Literal, word: string)
    requires WfWord(l, word)
    ensures Eats(FRESH, word, LitAt(l, |word| - 1))
    ensures Ends(LitAt(l, |word| - 1), VLit(l, word))
  {
    assert |word| >= 4;
    FirstLetter(l, word[0]);
    EatWord(l, word, 0);
    EatsOne(FRESH, word[0], LitAt(l, 0), word[1..], LitAt(l, |word| - 1));
    assert word == [word[0]] + word[1..];
  }

  // ---------------------------------------------------------------- numbers

  function NumAt(phase: NumPhase, d: int, f: int, e: int, s: Sign): Impl {
    Impl(EMPTY_TREE, true, Num(phase, d, f, e, s))
  }

  lemma {:induction false} DigitsSnoc(s: string, ch: char)
    requires AllDigits(s) && IsDigit(ch)
    ensures AllDigits(s + [ch]) && DigitsValue(s + [ch]) == DigitsValue(s) * 10 + DigitOf(ch)
  {
    assert (s + [ch])[..|s + [ch]| - 1] == s;
  }

  /** More digits never make a number smaller. */
  lemma {:induction false} DigitsMonotone(s: string, t: string)
    requires AllDigits(s) && AllDigits(t)
    ensures DigitsValue(s) <= DigitsValue(s + t)
    decreases |t|
  {
    if t == [] {
      assert s + t == s;
    } else {
      var u, ch := t[..|t| - 1], t[|t| - 1];
      assert s + t == s + u + [ch];
      DigitsMonotone(s, u);
      DigitsSnoc(s + u, ch);
    }
  }

  /** One more digit fits wherever all the remaining ones do. */
  lemma {:induction false} NextDigit(s: string, t: string) returns (s': string)
    requires AllDigits(s) && AllDigits(t) && t != []
    ensures s' == s + [t[0]] && AllDigits(s') && AllDigits(t[1..]) && s' + t[1..] == s + t
    ensures DigitsValue(s') == DigitsValue(s) * 10 + DigitOf(t[0]) <= DigitsValue(s + t)
  {
    s' := s + [t[0]];
    DigitsSnoc(s, t[0]);
    assert s' + t[1..] == s + t;
    DigitsMonotone(s', t[1..]);
  }

  lemma {:induction false} DecimalDigit(d: int, ch: char, sign: Sign)
    requires IsDigit(ch) && d * 10 + DigitOf(ch) <= LONG_MAX
    ensures Dispatch(NumAt(Decimal, d, 1, 0, sign), ch) == (NumAt(Decimal, d * 10 + DigitOf(ch), 1, 0, sign), Consumed)
  {
  }

  lemma {:induction false} EatDecimal(s: string, t: string, sign: Sign)
    requires AllDigits(s) && AllDigits(t) && DigitsValue(s + t) <= LONG_MAX
    ensures Eats(NumAt(Decimal, DigitsValue(s), 1, 0, sign), t, NumAt(Decimal, DigitsValue(s + t), 1, 0, sign))
    decreases |t|
  {
    var p, q := NumAt(Decimal, DigitsValue(s), 1, 0, sign), NumAt(Decimal, DigitsValue(s + t), 1, 0, sign);
    if t == [] {
      assert s + t == s;
      EatsNone(p);
    } else {
      var s' := NextDigit(s, t);
      EatDecimal(s', t[1..], sign);
      DecimalDigit(DigitsValue(s), t[0], sign);
      EatsCons(p, t, NumAt(Decimal, DigitsValue(s'), 1, 0, sign), q);
    }
  }

  lemma {:induction false} Pow10Monotone(a: nat, b: nat)
    requires a <= b
    ensures Pow10(a) <= Pow10(b)
    decreases b
  {
    if a < b { Pow10Monotone(a, b - 1); }
  }

  lemma {:induction false} EatFraction(s: string, k: nat, t: string, sign: Sign)
    requires AllDigits(s) && AllDigits(t)
    requires t != [] ==> DigitsValue(s + t) + '0' as int <= LONG_MAX && Pow10(k + |t|) <= INT_MAX
    ensures Eats(NumAt(Fraction, DigitsValue(s), Pow10(k), 0, sign), t,
                 NumAt(Fraction, DigitsValue(s + t), Pow10(k + |t|), 0, sign))
    decreases |t|
  {
    var p := NumAt(Fraction, DigitsValue(s), Pow10(k), 0, sign);
    if t == [] {
      assert s + t == s;
      EatsNone(p);
    } else {
      var s' := FractionStep(s, k, t, sign);
      EatFraction(s', k + 1, t[1..], sign);
      EatsCons(p, t, NumAt(Fraction, DigitsValue(s'), Pow10(k + 1), 0, sign),
               NumAt(Fraction, DigitsValue(s + t), Pow10(k + |t|), 0, sign));
    }
  }

  lemma {:induction false} FractionStep(s: string, k: nat, t: string, sign: Sign) returns (s': string)
    requires AllDigits(s) && AllDigits(t) && t != []
    requires DigitsValue(s + t) + '0' as int <= LONG_MAX && Pow10(k + |t|) <= INT_MAX
    ensures s' == s + [t[0]] && AllDigits(s') && AllDigits(t[1..]) && s' + t[1..] == s + t
    ensures Dispatch(NumAt(Fraction, DigitsValue(s), Pow10(k), 0, sign), t[0])
            == (NumAt(Fraction, DigitsValue(s'), Pow10(k + 1), 0, sign), Consumed)
  {
    s' := NextDigit(s, t);
    Pow10Monotone(k + 1, k + |t|);
    FractionDigit(DigitsValue(s), Pow10(k), t[0], sign);
  }

  lemma {:induction false} FractionDigit(d: nat, f: nat, ch: char, sign: Sign)
    requires IsDigit(ch) && d * 10 + ch as int <= LONG_MAX && f * 10 <= INT_MAX
    ensures Dispatch(NumAt(Fraction, d, f, 0, sign), ch)
            == (NumAt(Fraction, d * 10 + DigitOf(ch), f * 10, 0, sign), Consumed)
  {
  }

  lemma {:induction false} ExponentDigit(m: int, f: int, e: int, ch: char, sign: Sign)
    requires IsDigit(ch) && e * 10 + DigitOf(ch) <= INT_MAX
    ensures Dispatch(NumAt(Exponent, m, f, e, sign), ch) == (NumAt(Exponent, m, f, e * 10 + DigitOf(ch), sign), Consumed)
  {
  }

  lemma {:induction false} EatExponent(m: int, f: int, s: string, t: string, sign: Sign)
    requires AllDigits(s) && AllDigits(t) && DigitsValue(s + t) <= INT_MAX
    ensures Eats(NumAt(Exponent, m, f, DigitsValue(s), sign), t, NumAt(Exponent, m, f, DigitsValue(s + t), sign))
    decreases |t|
  {
    var p, q := NumAt(Exponent, m, f, DigitsValue(s), sign), NumAt(Exponent, m, f, DigitsValue(s + t), sign);
    if t == [] {
      assert s + t == s;
      EatsNone(p);
    } else {
      var s' := NextDigit(s, t);
      EatExponent(m, f, s', t[1..], sign);
      ExponentDigit(m, f, DigitsValue(s), t[0], sign);
      EatsCons(p, t, NumAt(Exponent, m, f, DigitsValue(s'), sign), q);
    }
  }

  /** What an exponent's first character leaves to be read as its digits. */
  function LeadDigits(ch: char): string { if IsDigit(ch) then [ch] else "" }

  function LeadSign(ch: char): Sign { if ch == '-' then Minus else Plus }

  /** A sign or a first digit starts a number. */
  lemma {:induction false} FreshNumber(ch: char)
    requires IsDigit(ch) || ch == '+' || ch == '-'
    ensures Dispatch(FRESH, ch)
            == (NumAt(Decimal, if IsDigit(ch) then DigitOf(ch) else 0, 1, 0, LeadSign(ch)), Consumed)
  {
    var p := Num(Decimal, if IsDigit(ch) then DigitOf(ch) else 0, 1, 0, LeadSign(ch));
    assert FRESH.parser == Any;
    assert Step(FRESH, ch) == StepAny(FRESH, ch);
    assert StepAny(FRESH, ch) == (FRESH.(parser := p), Consumed);
  }

  lemma {:induction false} OneDigit(ch: char)
    requires IsDigit(ch)
    ensures AllDigits([ch]) && DigitsValue([ch]) == DigitOf(ch)
  {
    var none: string := [];
    assert none + [ch] == [ch] && DigitsValue(none) == 0;
    DigitsSnoc(none, ch);
  }

  /** The optional sign and the integer digits. */
  lemma {:induction false} EatInteger(n: Numeral) returns (q: Impl)
    requires WfNum(n)
    ensures q == NumAt(Decimal, DigitsValue(n.digits), 1, 0, SignOf(n))
    ensures Eats(FRESH, n.sign + n.digits, q)
  {
    var sign := SignOf(n);
    q := NumAt(Decimal, DigitsValue(n.digits), 1, 0, sign);
    if n.sign == "" {
      var ch, rest := n.digits[0], n.digits[1..];
      OneDigit(ch);
      assert [ch] + rest == n.digits;
      EatDecimal([ch], rest, sign);
      FreshNumber(ch);
      EatsOne(FRESH, ch, NumAt(Decimal, DigitOf(ch), 1, 0, sign), rest, q);
      assert n.sign + n.digits == n.digits;
    } else {
      assert "" + n.digits == n.digits;
      EatDecimal("", n.digits, sign);
      FreshNumber(n.sign[0]);
      EatsOne(FRESH, n.sign[0], NumAt(Decimal, 0, 1, 0, sign), n.digits, q);
      assert n.sign + n.digits == [n.sign[0]] + n.digits;
    }
  }

  /** The optional fraction, from the point on. */
  lemma {:induction false} EatFrac(n: Numeral) returns (q: Impl)
    requires WfNum(n)
    ensures q == NumAt(if n.frac.Some? then Fraction else Decimal, Mantissa(n), Pow10(|n.frac.GetOr("")|), 0, SignOf(n))
    ensures Eats(NumAt(Decimal, DigitsValue(n.digits), 1, 0, SignOf(n)), FracText(n.frac), q)
  {
    var p := NumAt(Decimal, DigitsValue(n.digits), 1, 0, SignOf(n));
    assert Pow10(0) == 1;
    if n.frac.None? {
      assert n.digits + "" == n.digits;
      q := p;
      EatsNone(p);
    } else {
      var f := n.frac.value;
      q := NumAt(Fraction, Mantissa(n), Pow10(|f|), 0, SignOf(n));
      EatFraction(n.digits, 0, f, SignOf(n));
      EatsOne(p, '.', NumAt(Fraction, DigitsValue(n.digits), 1, 0, SignOf(n)), f, q);
      assert FracText(n.frac) == ['.'] + f;
    }
  }

  lemma {:induction false} LeadValue(e: Expo)
    requires WfExpo(e)
    ensures AllDigits(LeadDigits(e.lead)) && AllDigits(e.digits)
    ensures ExpoValue(e) == DigitsValue(LeadDigits(e.lead) + e.digits)
    ensures DigitsValue(LeadDigits(e.lead)) == if IsDigit(e.lead) then DigitOf(e.lead) else 0
  {
    if IsDigit(e.lead) {
      DigitsSnoc([], e.lead);
      assert [] + [e.lead] == [e.lead];
    } else {
      assert "" + e.digits == e.digits;
    }
  }

  lemma {:induction false} ExpoLead(m: int, f: int, sign: Sign, ch: char)
    requires ch == '+' || ch == '-' || IsDigit(ch)
    ensures Dispatch(NumAt(Exp, m, f, 0, sign), ch)
            == (NumAt(Exponent, m, f, if IsDigit(ch) then DigitOf(ch) else 0, LeadSign(ch)), Consumed)
  {
  }

  lemma {:induction false} ExpoMark(phase: NumPhase, m: int, f: int, sign: Sign, ch: char)
    requires IsExpMark(ch) && (phase == Decimal || phase == Fraction)
    ensures Dispatch(NumAt(phase, m, f, 0, sign), ch) == (NumAt(Exp, Signed(sign, m), f, 0, sign), Consumed)
  {
  }

  /** The optional exponent, from the mark on. */
  lemma {:induction false} EatExpo(e: Expo, phase: NumPhase, m: nat, f: int, sign: Sign) returns (q: Impl)
    requires WfExpo(e) && ExpoValue(e) <= INT_MAX && (phase == Decimal || phase == Fraction)
    ensures q == NumAt(Exponent, Signed(sign, m), f, ExpoValue(e), if e.lead == '-' then Minus else Plus)
    ensures Eats(NumAt(phase, m, f, 0, sign), [e.mark, e.lead] + e.digits, q)
  {
    var n, s := Signed(sign, m), LeadDigits(e.lead);
    LeadValue(e);
    q := NumAt(Exponent, n, f, ExpoValue(e), LeadSign(e.lead));
    EatExponent(n, f, s, e.digits, LeadSign(e.lead));
    var p := NumAt(Exp, n, f, 0, sign);
    ExpoLead(n, f, sign, e.lead);
    EatsOne(p, e.lead, NumAt(Exponent, n, f, DigitsValue(s), LeadSign(e.lead)), e.digits, q);
    ExpoMark(phase, m, f, sign, e.mark);
    EatsOne(NumAt(phase, m, f, 0, sign), e.mark, p, [e.lead] + e.digits, q);
    assert [e.mark, e.lead] + e.digits == [e.mark] + ([e.lead] + e.digits);
  }

  /** Where the parser stands after a numeral. */
  function NumState(n: Numeral): Impl
    requires WfNum(n)
  {
    var scale := Pow10(|n.frac.GetOr("")|);
    if n.expo.Some? then
      NumAt(Exponent, Signed(SignOf(n), Mantissa(n)), scale, ExpoValue(n.expo.value),
            if n.expo.value.lead == '-' then Minus else Plus)
    else
      NumAt(if n.frac.Some? then Fraction else Decimal, Mantissa(n), scale, 0, SignOf(n))
  }

  lemma {:induction false} EatNumber(n: Numeral)
    requires WfNum(n)
    ensures Eats(FRESH, NumText(n), NumState(n)) && Ends(NumState(n), VNum(n))
  {
    var a := EatInteger(n);
    var b := EatFrac(n);
    EatsConcat(FRESH, n.sign + n.digits, a, FracText(n.frac), b);
    if n.expo.None? {
      assert NumText(n) == n.sign + n.digits + FracText(n.frac);
    } else {
      var q := EatExpo(n.expo.value, b.parser.phase, Mantissa(n), Pow10(|n.frac.GetOr("")|), SignOf(n));
      EatsConcat(FRESH, n.sign + n.digits + FracText(n.frac), b, ExpoText(n.expo), q);
    }
  }

  // ---------------------------------------------------------------- children

  /** An array whose children `kids` are complete and whose last child is read by `c`. */
  function InArr(kids: seq<Edge>, c: Impl): Impl {
    Impl(Tree(NoData, kids + [Edge(Index(|kids|), c.tree)]), true, Arr(Some(c), |kids| + 1))
  }

  /** An object whose last member, called `name`, is read by `c`. */
  function InObj(kids: seq<Edge>, name: string, c: Impl): Impl {
    Impl(Tree(NoData, kids + [Edge(Name(name), c.tree)]), true, Obj(Some(Key(false, NEW_STRING)), Some(c), false))
  }

  lemma {:induction false} ArrStep(kids: seq<Edge>, p: Impl, ch: char)
    requires p.inProgress
    ensures Step(InArr(kids, p), ch) == (InArr(kids, Step(p, ch).0), Step(p, ch).1)
  {
    var q := InArr(kids, p);
    var all := q.tree.children;
    assert all[..|all| - 1] == kids;
  }

  lemma {:induction false} ObjStep(kids: seq<Edge>, name: string, p: Impl, ch: char)
    requires p.inProgress
    ensures Step(InObj(kids, name, p), ch) == (InObj(kids, name, Step(p, ch).0), Step(p, ch).1)
  {
    var q := InObj(kids, name, p);
    var all := q.tree.children;
    assert all[..|all| - 1] == kids;
  }

  lemma {:induction false} LiftArr(kids: seq<Edge>, p: Impl, s: string, q: Impl)
    requires Eats(p, s, q)
    ensures Eats(InArr(kids, p), s, InArr(kids, q))
  {
    var a :| Trace(a, p, s, q);
    var ms := seq(|a|, i requires 0 <= i < |a| => InArr(kids, a[i]));
    forall i | 0 <= i < |s|
      ensures Takes(ms, s, i)
    {
      assert Takes(a, s, i);
      ArrStep(kids, a[i], s[i]);
      var m := Step(a[i], s[i]).0;
      if m.inProgress { ArrStep(kids, m, s[i]); }
    }
    assert Trace(ms, InArr(kids, p), s, InArr(kids, q));
  }

  lemma {:induction false} LiftObj(kids: seq<Edge>, name: string, p: Impl, s: string, q: Impl)
    requires Eats(p, s, q)
    ensures Eats(InObj(kids, name, p), s, InObj(kids, name, q))
  {
    var a :| Trace(a, p, s, q);
    var ms := seq(|a|, i requires 0 <= i < |a| => InObj(kids, name, a[i]));
    forall i | 0 <= i < |s|
      ensures Takes(ms, s, i)
    {
      assert Takes(a, s, i);
      ObjStep(kids, name, a[i], s[i]);
      var m := Step(a[i], s[i]).0;
      if m.inProgress { ObjStep(kids, name, m, s[i]); }
    }
    assert Trace(ms, InObj(kids, name, p), s, InObj(kids, name, q));
  }

  /** A child that hands the closing character back leaves its parent as if it had finished before. */
  lemma {:induction false} SettleArr(kids: seq<Edge>, c: Impl, v: Value, s: string, q: Impl)
    requires Wf(v) && Ends(c, v) && s != [] && IsCloser(s[0]) && Eats(InArr(kids, Done(Build(v))), s, q)
    ensures Eats(InArr(kids, c), s, q)
  {
    var t := Build(v);
    assert Terminates(v, s[0]);
    EatsUncons(InArr(kids, Done(t)), s, q);
    if !SelfDelimiting(v) {
      ArrStep(kids, c, s[0]);
      var m := Step(InArr(kids, Done(t)), s[0]).0;
      assert Dispatch(InArr(kids, c), s[0]) == (m, Consumed);
      EatsOne(InArr(kids, c), s[0], m, s[1..], q);
      assert s == [s[0]] + s[1..];
    }
  }

  lemma {:induction false} SettleObj(kids: seq<Edge>, name: string, c: Impl, v: Value, s: string, q: Impl)
    requires Wf(v) && Ends(c, v) && s != [] && IsCloser(s[0]) && Eats(InObj(kids, name, Done(Build(v))), s, q)
    ensures Eats(InObj(kids, name, c), s, q)
  {
    var t := Build(v);
    assert Terminates(v, s[0]);
    EatsUncons(InObj(kids, name, Done(t)), s, q);
    if !SelfDelimiting(v) {
      ObjStep(kids, name, c, s[0]);
      var m := Step(InObj(kids, name, Done(t)), s[0]).0;
      assert Dispatch(InObj(kids, name, c), s[0]) == (m, Consumed);
      EatsOne(InObj(kids, name, c), s[0], m, s[1..], q);
      assert s == [s[0]] + s[1..];
    }
  }

  lemma {:induction false} EatPadded(pre: string, v: Value) returns (q: Impl)
    requires Skips(pre) && Wf(v)
    ensures Eats(FRESH, pre + TextOf(v), q) && Ends(q, v)
    decreases v, 2
  {
    q := EatValue(v);
    EatsIdle(FRESH, pre);
    EatsConcat(FRESH, pre, FRESH, TextOf(v), q);
  }

  /** Reading the text of a value from a fresh parser. */
  lemma {:induction false} EatValue(v: Value) returns (q: Impl)
    requires Wf(v)
    ensures Eats(FRESH, TextOf(v), q) && Ends(q, v)
    decreases v, 1
  {
    match v
    case VLit(l, word) =>
      EatLiteral(l, word);
      q := LitAt(l, |word| - 1);
    case VNum(n) =>
      EatNumber(n);
      q := NumState(n);
    case VStr(chars) =>
      EatString(chars);
      q := Done(Build(v));
    case VArr(items) =>
      q := Done(Build(v));
      if items != [] { EatItems(items, []); }
      OpenArray(items);
    case VEmptyObj(blank) =>
      q := Done(Build(v));
      EatEmptyObject(blank);
    case VObj(members) =>
      q := Done(Build(v));
      EatMembers(members, [], true);
      OpenObject(members);
  }

  /** The opening bracket; the first character of an item opens the first child. */
  lemma {:induction false} OpenArray(items: seq<Item>)
    requires WfItems(items)
    requires items != [] ==> Eats(InArr([], FRESH), ItemsText(items) + "]", Done(Tree(NoData, [] + ItemEdges(items, 0))))
    ensures Eats(FRESH, TextOf(VArr(items)), Done(Build(VArr(items))))
  {
    var q := Done(Build(VArr(items)));
    var open := Impl(EMPTY_TREE, true, Arr(None, 0));
    var s := ItemsText(items) + "]";
    if items == [] {
      EatsLast(open, ']', q);
      assert s == "]";
    } else {
      assert [] + ItemEdges(items, 0) == ItemEdges(items, 0);
      FirstChild(s, q);
    }
    EatsOne(FRESH, '[', open, s, q);
    assert TextOf(VArr(items)) == ['['] + s;
  }

  lemma {:induction false} FirstChild(s: string, q: Impl)
    requires s != [] && Eats(InArr([], FRESH), s, q)
    ensures Eats(Impl(EMPTY_TREE, true, Arr(None, 0)), s, q)
  {
    EatsUncons(InArr([], FRESH), s, q);
    FirstStep(s[0]);
    EatsCons(Impl(EMPTY_TREE, true, Arr(None, 0)), s, Dispatch(InArr([], FRESH), s[0]).0, q);
  }

  /** Taken in by the first child of an array, a character may as well be what opens it. */
  lemma {:induction false} FirstStep(ch: char)
    requires Dispatch(InArr([], FRESH), ch).1 == Consumed
    ensures Dispatch(Impl(EMPTY_TREE, true, Arr(None, 0)), ch) == Dispatch(InArr([], FRESH), ch)
  {
    var open := Impl(EMPTY_TREE, true, Arr(None, 0));
    ArrStep([], FRESH, ch);
    var (c, o) := StepAny(FRESH, ch);
    assert Step(FRESH, ch) == (c, o);
    assert ch != ']';
    assert NewArrChild(open) == InArr([], FRESH);
    assert Step(open, ch) == StepArr(open, ch) == (PutArrChild(InArr([], FRESH), c), o);
    assert PutArrChild(InArr([], FRESH), c) == InArr([], c);
  }

  lemma {:induction false} EatEmptyObject(blank: string)
    requires Blanks(blank)
    ensures Eats(FRESH, TextOf(VEmptyObj(blank)), Done(EMPTY_TREE))
  {
    var open := Impl(EMPTY_TREE, true, Obj(None, None, true));
    EatsIdle(open, blank);
    EatsLast(open, '}', Done(EMPTY_TREE));
    EatsConcat(open, blank, open, "}", Done(EMPTY_TREE));
    EatsOne(FRESH, '{', open, blank + "}", Done(EMPTY_TREE));
    assert TextOf(VEmptyObj(blank)) == ['{'] + (blank + "}");
  }

  lemma {:induction false} OpensObject()
    ensures Dispatch(FRESH, '{') == (Impl(EMPTY_TREE, true, Obj(None, None, true)), Consumed)
  {
  }

  lemma {:induction false} OpenObject(members: seq<Member>)
    requires members != [] && WfMembers(members)
    requires Eats(Impl(EMPTY_TREE, true, Obj(None, None, true)), MembersText(members) + "}",
                  Done(Tree(NoData, [] + MemberEdges(members))))
    ensures Eats(FRESH, TextOf(VObj(members)), Done(Build(VObj(members))))
  {
    var q := Done(Build(VObj(members)));
    assert [] + MemberEdges(members) == MemberEdges(members);
    OpensObject();
    EatsOne(FRESH, '{', Impl(EMPTY_TREE, true, Obj(None, None, true)), MembersText(members) + "}", q);
    assert TextOf(VObj(members)) == ['{'] + (MembersText(members) + "}");
  }

  /** From an open item to the end of the array, once what follows the item is known to be eaten. */
  lemma {:induction false} FinishItem(kids: seq<Edge>, it: Item, q: Impl, rest: string, end: Impl)
    requires Wf(it.value) && Blanks(it.post) && rest != [] && IsCloser(rest[0])
    requires Eats(FRESH, it.pre + TextOf(it.value), q) && Ends(q, it.value)
    requires Eats(InArr(kids, Done(Build(it.value))), rest, end)
    ensures Eats(InArr(kids, FRESH), it.pre + TextOf(it.value) + (it.post + rest), end)
  {
    var d := InArr(kids, Done(Build(it.value)));
    EatsIdle(d, it.post);
    EatsConcat(d, it.post, d, rest, end);
    SettleArr(kids, q, it.value, it.post + rest, end);
    LiftArr(kids, FRESH, it.pre + TextOf(it.value), q);
    EatsConcat(InArr(kids, FRESH), it.pre + TextOf(it.value), InArr(kids, q), it.post + rest, end);
  }

  function ItemsRest(items: seq<Item>): (s: string)
    requires items != []
    ensures s != [] && IsCloser(s[0])
  {
    if |items| == 1 then "]" else [','] + (ItemsText(items[1..]) + "]")
  }

  lemma {:induction false} ItemsSplit(items: seq<Item>)
    requires items != []
    ensures ItemsText(items) + "]" == items[0].pre + TextOf(items[0].value) + (items[0].post + ItemsRest(items))
  {
    var head := items[0].pre + TextOf(items[0].value);
    Assoc(head, items[0].post, ItemsRest(items));
    if |items| > 1 {
      Assoc(OneItem(items[0]), "," + ItemsText(items[1..]), "]");
      Assoc(",", ItemsText(items[1..]), "]");
    }
  }

  lemma {:induction false} CloseArr(kids: seq<Edge>, t: Tree)
    ensures Eats(InArr(kids, Done(t)), "]", Done(Tree(NoData, kids + [Edge(Index(|kids|), t)])))
  {
    EatsLast(InArr(kids, Done(t)), ']', Done(Tree(NoData, kids + [Edge(Index(|kids|), t)])));
  }

  lemma {:induction false} NextItem(kids: seq<Edge>, t: Tree, s: string, end: Impl)
    requires Eats(InArr(kids + [Edge(Index(|kids|), t)], FRESH), s, end)
    ensures Eats(InArr(kids, Done(t)), [','] + s, end)
  {
    EatsOne(InArr(kids, Done(t)), ',', InArr(kids + [Edge(Index(|kids|), t)], FRESH), s, end);
  }

  lemma {:induction false} ItemEdgesCons(items: seq<Item>, kids: seq<Edge>)
    requires items != [] && WfItems(items)
    ensures kids + [Edge(Index(|kids|), Build(items[0].value))] + ItemEdges(items[1..], |kids| + 1)
            == kids + ItemEdges(items, |kids|)
  {
  }

  /** Reading the items of an array from the state in which a child has just been opened. */
  lemma {:induction false} EatItems(items: seq<Item>, kids: seq<Edge>)
    requires items != [] && WfItems(items)
    ensures Eats(InArr(kids, FRESH), ItemsText(items) + "]", Done(Tree(NoData, kids + ItemEdges(items, |kids|))))
    decreases items, 0
  {
    var t := Build(items[0].value);
    var q := EatPadded(items[0].pre, items[0].value);
    var kids' := kids + [Edge(Index(|kids|), t)];
    var end := Done(Tree(NoData, kids + ItemEdges(items, |kids|)));
    ItemEdgesCons(items, kids);
    if |items| == 1 {
      assert kids' + [] == kids';
      CloseArr(kids, t);
    } else {
      EatItems(items[1..], kids');
      NextItem(kids, t, ItemsText(items[1..]) + "]", end);
    }
    FinishItem(kids, items[0], q, ItemsRest(items), end);
    ItemsSplit(items);
  }

  /** From the opening quote of a name to the value after its colon. */
  lemma {:induction false} EatName(m: Member, kids: seq<Edge>, first: bool)
    requires Blanks(m.pre) && WfStr(m.name) && Blanks(m.mid)
    ensures Eats(Impl(Tree(NoData, kids), true, Obj(None, None, first)),
                 m.pre + (['"'] + (StrText(m.name) + (['"'] + (m.mid + ":")))),
                 InObj(kids, StrMeaning(m.name), FRESH))
  {
    var open := Impl(Tree(NoData, kids), true, Obj(None, None, first));
    var k0 := KeyAt(kids, Key(true, NEW_STRING));
    var str := Plain(StrMeaning(m.name));
    var k1 := KeyAt(kids, Key(true, str));
    var k2 := KeyAt(kids, Key(false, str));
    var end := InObj(kids, StrMeaning(m.name), FRESH);
    EatsIdle(open, m.pre);
    StrAllEats("", m.name);
    assert "" + StrMeaning(m.name) == StrMeaning(m.name);
    LiftKey(kids, NEW_STRING, StrText(m.name), str);
    EatsIdle(k2, m.mid);
    EatsLast(k2, ':', end);
    EatsConcat(k2, m.mid, k2, ":", end);
    EatsOne(k1, '"', k2, m.mid + ":", end);
    EatsConcat(k0, StrText(m.name), k1, ['"'] + (m.mid + ":"), end);
    EatsOne(open, '"', k0, StrText(m.name) + (['"'] + (m.mid + ":")), end);
    EatsConcat(open, m.pre, open, ['"'] + (StrText(m.name) + (['"'] + (m.mid + ":"))), end);
  }

  lemma {:induction false} FinishMember(kids: seq<Edge>, m: Member, q: Impl, rest: string, end: Impl)
    requires WfStr(m.name) && Wf(m.value) && Blanks(m.post) && rest != [] && IsCloser(rest[0])
    requires Eats(FRESH, m.gap + TextOf(m.value), q) && Ends(q, m.value)
    requires Eats(InObj(kids, StrMeaning(m.name), Done(Build(m.value))), rest, end)
    ensures Eats(InObj(kids, StrMeaning(m.name), FRESH), m.gap + TextOf(m.value) + (m.post + rest), end)
  {
    var name := StrMeaning(m.name);
    var d := InObj(kids, name, Done(Build(m.value)));
    EatsIdle(d, m.post);
    EatsConcat(d, m.post, d, rest, end);
    SettleObj(kids, name, q, m.value, m.post + rest, end);
    LiftObj(kids, name, FRESH, m.gap + TextOf(m.value), q);
    EatsConcat(InObj(kids, name, FRESH), m.gap + TextOf(m.value), InObj(kids, name, q), m.post + rest, end);
  }

  function MembersRest(members: seq<Member>): (s: string)
    requires members != []
    ensures s != [] && IsCloser(s[0])
  {
    if |members| == 1 then "}" else [','] + (MembersText(members[1..]) + "}")
  }

  lemma {:induction false} MembersSplit(members: seq<Member>)
    requires members != []
    ensures var m := members[0];
            MembersText(members) + "}"
            == KeyText(m.pre, m.name, m.mid) + (m.gap + TextOf(m.value) + (m.post + MembersRest(members)))
  {
    var m := members[0];
    var key, value := KeyText(m.pre, m.name, m.mid), m.gap + TextOf(m.value);
    Assoc(key, value, m.post + MembersRest(members));
    Assoc(key + value, m.post, MembersRest(members));
    if |members| > 1 {
      Assoc(OneMember(m), "," + MembersText(members[1..]), "}");
      Assoc(",", MembersText(members[1..]), "}");
    }
  }

  lemma {:induction false} CloseObj(kids: seq<Edge>, name: string, t: Tree)
    ensures Eats(InObj(kids, name, Done(t)), "}", Done(Tree(NoData, kids + [Edge(Name(name), t)])))
  {
    EatsLast(InObj(kids, name, Done(t)), '}', Done(Tree(NoData, kids + [Edge(Name(name), t)])));
  }

  lemma {:induction false} NextMember(kids: seq<Edge>, name: string, t: Tree, s: string, end: Impl)
    requires Eats(Impl(Tree(NoData, kids + [Edge(Name(name), t)]), true, Obj(None, None, false)), s, end)
    ensures Eats(InObj(kids, name, Done(t)), [','] + s, end)
  {
    EatsOne(InObj(kids, name, Done(t)), ',',
            Impl(Tree(NoData, kids + [Edge(Name(name), t)]), true, Obj(None, None, false)), s, end);
  }

  lemma {:induction false} MemberEdgesCons(members: seq<Member>, kids: seq<Edge>)
    requires members != [] && WfMembers(members)
    ensures kids + [Edge(Name(StrMeaning(members[0].name)), Build(members[0].value))] + MemberEdges(members[1..])
            == kids + MemberEdges(members)
  {
  }

  /** Reading the members of an object from the state in which a name is expected. */
  lemma {:induction false} EatMembers(members: seq<Member>, kids: seq<Edge>, first: bool)
    requires members != [] && WfMembers(members)
    ensures Eats(Impl(Tree(NoData, kids), true, Obj(None, None, first)), MembersText(members) + "}",
                 Done(Tree(NoData, kids + MemberEdges(members))))
    decreases members, 0
  {
    var m := members[0];
    var name, t := StrMeaning(m.name), Build(m.value);
    var kids' := kids + [Edge(Name(name), t)];
    var end := Done(Tree(NoData, kids + MemberEdges(members)));
    var q := EatPadded(m.gap, m.value);
    MemberEdgesCons(members, kids);
    if |members| == 1 {
      assert kids' + [] == kids';
      CloseObj(kids, name, t);
    } else {
      EatMembers(members[1..], kids', false);
      NextMember(kids, name, t, MembersText(members[1..]) + "}", end);
    }
    FinishMember(kids, m, q, MembersRest(members), end);
    EatName(m, kids, first);
    EatsConcat(Impl(Tree(NoData, kids), true, Obj(None, None, first)), KeyText(m.pre, m.name, m.mid), InObj(kids, name, FRESH),
               m.gap + TextOf(m.value) + (m.post + MembersRest(members)), end);
    MembersSplit(members);
  }

  // ---------------------------------------------------------------- whole runs

  /** Eating is feeding, and the parser is still in progress before every character. */
  lemma {:induction false} EatsIsFeed(p: Impl, s: string, q: Impl, t: string)
    requires Eats(p, s, q)
    ensures Feed(p, s + t) == var f := Feed(q, t); f.(count := |s| + f.count)
    ensures forall i :: 0 <= i < |s| ==> Feed(p, s[..i]).impl.inProgress
    decreases |s|
  {
    if s == [] {
      assert s + t == t;
    } else {
      assert (s + t)[0] == s[0] && (s + t)[1..] == s[1..] + t;
      EatsUncons(p, s, q);
      EatsIsFeed(Dispatch(p, s[0]).0, s[1..], q, t);
      forall i | 0 <= i < |s|
        ensures Feed(p, s[..i]).impl.inProgress
      {
        if i > 0 { assert s[..i][0] == s[0] && s[..i][1..] == s[1..][..i - 1]; }
      }
    }
  }

  /**
   Every text of the grammar, with any blanks before it and any character after it that does not
   continue it, completes the parser exactly once and leaves exactly the denoted tree. The character
   after it is taken in only by numbers and literals.
   */
  lemma {:induction false} ReadsGrammar(pre: string, v: Value, ch: char)
    requires Skips(pre) && Wf(v) && Terminates(v, ch)
    ensures var s := pre + TextOf(v);
            && Feed(FRESH, s + [ch]) == Fed(Done(Build(v)), |s| + (if SelfDelimiting(v) then 0 else 1), Consumed)
            && forall i :: 0 <= i < |s| ==> Feed(FRESH, s[..i]).impl.inProgress
  {
    var q := EatPadded(pre, v);
    EatsIsFeed(FRESH, pre + TextOf(v), q, [ch]);
    if !SelfDelimiting(v) {
      assert [ch][0] == ch && [ch][1..] == [];
      assert Dispatch(q, ch) == (Done(Build(v)), Again);
    }
  }
}
