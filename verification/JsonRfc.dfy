/**
 How the language of the parser relates to RFC 8259: which texts of the RFC it reads, and which
 strings it reads to the text the RFC means.
 */
module JsonRfc {
  import opened Common
  import opened JsonModel
  import opened JsonGrammar
  import opened JsonAccepts
  import opened JsonRoundTrip

  // ---------------------------------------------------------------- texts of the RFC

  /** A number of section 6. */
  predicate RfcNum(n: Numeral) {
    && (n.sign == "" || n.sign == "-")
    && AllDigits(n.digits) && n.digits != "" && (n.digits[0] == '0' ==> |n.digits| == 1)
    && (n.frac.Some? ==> AllDigits(n.frac.value) && n.frac.value != "")
    && (n.expo.Some? ==> RfcExpo(n.expo.value))
  }

  predicate RfcExpo(e: Expo) {
    && IsExpMark(e.mark) && AllDigits(e.digits)
    && (IsDigit(e.lead) || ((e.lead == '+' || e.lead == '-') && e.digits != ""))
  }

  /** A character of section 7, written out or escaped. */
  predicate RfcItem(i: StrItem) {
    match i
    case Raw(c) => c >= ' ' && c != '"' && c != '\\'
    case Esc(e) => IsEscape(e)
    case Hex(u, h) => u == 'u' && |h| == 4 && forall i :: 0 <= i < |h| ==> IsHex(h[i])
  }

  predicate RfcStr(s: seq<StrItem>) { forall i :: 0 <= i < |s| ==> RfcItem(s[i]) }

  /** A value of sections 3 to 7, with blanks of section 2 wherever they are allowed. */
  predicate Rfc(v: Value)
    decreases v, 1
  {
    match v
    case VLit(l, word) => word == Word(l)
    case VNum(n) => RfcNum(n)
    case VStr(chars) => RfcStr(chars)
    case VArr(items) => RfcItems(items)
    case VBlankArr(blank) => Blanks(blank) && blank != ""
    case VEmptyObj(blank) => Blanks(blank)
    case VObj(members) => members != [] && RfcMembers(members)
  }

  predicate RfcItems(items: seq<Item>)
    decreases items, 0
  {
    items != [] ==> Blanks(items[0].pre) && Rfc(items[0].value) && Blanks(items[0].post) && RfcItems(items[1..])
  }

  predicate RfcMembers(members: seq<Member>)
    decreases members, 0
  {
    members != [] ==>
      var m := members[0];
      && Blanks(m.pre) && RfcStr(m.name) && Blanks(m.mid) && Blanks(m.gap) && Rfc(m.value) && Blanks(m.post)
      && RfcMembers(members[1..])
  }

  // ---------------------------------------------------------------- what the parser has room for

  /** The numerals that stay within the `long` and `int` fields. */
  predicate InRange(n: Numeral)
    requires RfcNum(n)
  {
    && DigitsValue(n.digits) <= 9223372036854775807
    && (n.frac.Some? ==> Mantissa(n) + 48 <= 9223372036854775807 && Pow10(|n.frac.value|) <= 2147483647)
    && (n.expo.Some? ==> ExpoValue(n.expo.value) <= 2147483647)
  }

  /** Strings whose characters are written in printable ASCII. */
  predicate Printable(s: seq<StrItem>) { forall i :: 0 <= i < |s| && s[i].Raw? ==> IsPrint(s[i].c) }

  predicate Fits(v: Value)
    requires Rfc(v)
    decreases v, 1
  {
    match v
    case VNum(n) => InRange(n)
    case VStr(chars) => Printable(chars)
    case VArr(items) => FitItems(items)
    case VBlankArr(_) => false
    case VObj(members) => FitMembers(members)
    case _ => true
  }

  predicate FitItems(items: seq<Item>)
    requires RfcItems(items)
    decreases items, 0
  {
    items != [] ==> Fits(items[0].value) && FitItems(items[1..])
  }

  predicate FitMembers(members: seq<Member>)
    requires RfcMembers(members)
    decreases members, 0
  {
    members != [] ==> Printable(members[0].name) && Fits(members[0].value) && FitMembers(members[1..])
  }

  lemma {:induction false} BlanksSkip(s: string)
    requires Blanks(s)
    ensures Skips(s)
  {
  }

  lemma {:induction false} StrIff(s: seq<StrItem>)
    requires RfcStr(s)
    ensures WfStr(s) <==> Printable(s)
  {
    if Printable(s) {
      assert forall i :: 0 <= i < |s| ==> RfcItem(s[i]) && (s[i].Raw? ==> IsPrint(s[i].c));
    }
    if WfStr(s) {
      assert forall i :: 0 <= i < |s| ==> WfItem(s[i]);
    }
  }

  /** A text of the RFC is one of the grammar exactly when its numbers are in range and its strings printable. */
  lemma {:induction false} RfcIff(v: Value)
    requires Rfc(v)
    ensures Wf(v) <==> Fits(v)
    decreases v, 1
  {
    match v
    case VStr(chars) => StrIff(chars);
    case VArr(items) => RfcItemsIff(items);
    case VObj(members) => RfcMembersIff(members);
    case _ =>
  }

  lemma {:induction false} RfcItemsIff(items: seq<Item>)
    requires RfcItems(items)
    ensures WfItems(items) <==> FitItems(items)
    decreases items, 0
  {
    if items != [] {
      BlanksSkip(items[0].pre);
      RfcIff(items[0].value);
      RfcItemsIff(items[1..]);
    }
  }

  lemma {:induction false} RfcMembersIff(members: seq<Member>)
    requires RfcMembers(members)
    ensures WfMembers(members) <==> FitMembers(members)
    decreases members, 0
  {
    if members != [] {
      StrIff(members[0].name);
      BlanksSkip(members[0].gap);
      RfcIff(members[0].value);
      RfcMembersIff(members[1..]);
    }
  }

  /** Every such text, with blanks around it, is read to the tree it denotes. */
  lemma {:induction false} RfcRead(pre: string, v: Value, ch: char)
    requires Blanks(pre) && Rfc(v) && Fits(v) && IsBlank(ch)
    ensures Wf(v) && Feed(FRESH, pre + TextOf(v) + [ch]).outcome == Consumed
    ensures Feed(FRESH, pre + TextOf(v) + [ch]).impl == Done(Build(v))
  {
    RfcIff(v);
    BlanksSkip(pre);
    ReadsGrammar(pre, v, ch);
  }

  // ---------------------------------------------------------------- and no other text

  /** Reading `s` from `p` ends in an error. */
  predicate Fails(p: Impl, s: string) { Feed(p, s).outcome != Consumed }

  lemma {:induction false} FailsMore(p: Impl, s: string, t: string)
    requires Fails(p, s)
    ensures Fails(p, s + t)
  {
    FeedConcat(p, s, t);
  }

  lemma {:induction false} FailsAfter(p: Impl, s: string, m: Impl, t: string)
    requires Eats(p, s, m) && Fails(m, t)
    ensures Fails(p, s + t)
  {
    EatsIsFeed(p, s, m, t);
  }

  lemma {:induction false} FailsNow(p: Impl, ch: char, s: string)
    requires p.inProgress && (Step(p, ch).1 == SyntaxError || Step(p, ch).1 == Overflow)
    ensures Fails(p, [ch] + s)
  {
    assert ([ch] + s)[0] == ch && Dispatch(p, ch) == Step(p, ch);
  }

  lemma {:induction false} FailsStep(p: Impl, ch: char, m: Impl, s: string)
    requires p.inProgress && Dispatch(p, ch) == (m, Consumed) && Fails(m, s)
    ensures Fails(p, [ch] + s)
  {
    assert ([ch] + s)[0] == ch && ([ch] + s)[1..] == s;
  }

  /** A dispatch to the child of an array that does not complete it. */
  lemma {:induction false} ArrDispatch(kids: seq<Edge>, c: Impl, ch: char)
    requires c.inProgress && (Dispatch(c, ch).1 == Again || Dispatch(c, ch).1 == Consumed ==> Dispatch(c, ch).0.inProgress)
    ensures Dispatch(InArr(kids, c), ch) == (InArr(kids, Dispatch(c, ch).0), Dispatch(c, ch).1)
  {
    ArrStep(kids, c, ch);
    var (d, o) := Step(c, ch);
    if o == Again && d.inProgress { ArrStep(kids, d, ch); }
  }

  lemma {:induction false} ObjDispatch(kids: seq<Edge>, name: string, c: Impl, ch: char)
    requires c.inProgress && (Dispatch(c, ch).1 == Again || Dispatch(c, ch).1 == Consumed ==> Dispatch(c, ch).0.inProgress)
    ensures Dispatch(InObj(kids, name, c), ch) == (InObj(kids, name, Dispatch(c, ch).0), Dispatch(c, ch).1)
  {
    ObjStep(kids, name, c, ch);
    var (d, o) := Step(c, ch);
    if o == Again && d.inProgress { ObjStep(kids, name, d, ch); }
  }

  /** A run that fails either fails at once or goes on without completing. */
  lemma {:induction false} FailsLater(p: Impl, s: string)
    requires p.inProgress && Fails(p, s)
    ensures s != []
    ensures var (d, o) := Dispatch(p, s[0]); o == Consumed || o == Again ==> d.inProgress && Fails(d, s[1..])
  {
    var (d, o) := Dispatch(p, s[0]);
    assert !d.inProgress ==> Feed(d, s[1..]).outcome == Consumed;
  }

  /** The error of a child is the error of the array. */
  lemma {:induction false} FailsArr(kids: seq<Edge>, c: Impl, s: string)
    requires c.inProgress && Fails(c, s)
    ensures Fails(InArr(kids, c), s)
    decreases |s|
  {
    FailsLater(c, s);
    ArrDispatch(kids, c, s[0]);
    var (d, o) := Dispatch(c, s[0]);
    if o == Again || o == Consumed {
      FailsArr(kids, d, s[1..]);
    }
  }

  lemma {:induction false} FailsObj(kids: seq<Edge>, name: string, c: Impl, s: string)
    requires c.inProgress && Fails(c, s)
    ensures Fails(InObj(kids, name, c), s)
    decreases |s|
  {
    FailsLater(c, s);
    ObjDispatch(kids, name, c, s[0]);
    var (d, o) := Dispatch(c, s[0]);
    if o == Again || o == Consumed {
      FailsObj(kids, name, d, s[1..]);
    }
  }

  const OPEN_ARRAY := Impl(EMPTY_TREE, true, Arr(None, 0))

  lemma {:induction false} FreshNeverAgain(ch: char)
    ensures Step(FRESH, ch) == StepAny(FRESH, ch) && Step(FRESH, ch).1 != Again
  {
  }

  lemma {:induction false} OpenChild(ch: char)
    requires ch != ']'
    ensures Step(OPEN_ARRAY, ch) == (PutArrChild(NewArrChild(OPEN_ARRAY), StepAny(FRESH, ch).0), StepAny(FRESH, ch).1)
  {
    assert Step(OPEN_ARRAY, ch) == StepArr(OPEN_ARRAY, ch);
  }

  lemma {:induction false} PutFirst(c: Impl)
    ensures PutArrChild(NewArrChild(OPEN_ARRAY), c) == InArr([], c)
  {
    assert NewArrChild(OPEN_ARRAY) == InArr([], FRESH);
  }

  lemma {:induction false} OpenStep(ch: char)
    requires ch != ']'
    ensures Step(OPEN_ARRAY, ch) == Step(InArr([], FRESH), ch) && Step(FRESH, ch).1 != Again
  {
    ArrStep([], FRESH, ch);
    FreshNeverAgain(ch);
    OpenChild(ch);
    PutFirst(StepAny(FRESH, ch).0);
  }

  lemma {:induction false} FailsOpen(s: string)
    requires s != [] && s[0] != ']' && Fails(InArr([], FRESH), s)
    ensures Fails(OPEN_ARRAY, s)
  {
    OpenStep(s[0]);
    ArrStep([], FRESH, s[0]);
    assert Dispatch(OPEN_ARRAY, s[0]) == Dispatch(InArr([], FRESH), s[0]);
  }

  // ---------------------------------------------------------------- strings

  /** Up to the first character that is not printable ASCII. */
  lemma {:induction false} StringBreaks(text: string, s: seq<StrItem>) returns (k: string, r: string, c: char, rest: string)
    requires RfcStr(s) && !Printable(s)
    ensures StrEats(Plain(text), k, Plain(r)) && StepString(Plain(r), c).1 == Bad && StrText(s) == k + ([c] + rest)
    decreases |s|
  {
    if s[0].Raw? && !IsPrint(s[0].c) {
      StrEatsNone(Plain(text));
      k, r, c, rest := "", text, s[0].c, StrText(s[1..]);
      assert "" + ([c] + rest) == [c] + rest;
    } else {
      var i, tail := s[0], s[1..];
      assert RfcItem(i);
      StrItemEats(text, i);
      assert !Printable(tail) by {
        var j :| 0 <= j < |s| && s[j].Raw? && !IsPrint(s[j].c);
        assert tail[j - 1] == s[j];
      }
      var k0: string;
      k0, r, c, rest := StringBreaks(text + ItemMeaning(i), tail);
      StrEatsConcat(Plain(text), ItemText(i), Plain(text + ItemMeaning(i)), k0, Plain(r));
      k := ItemText(i) + k0;
      Assoc(ItemText(i), k0, [c] + rest);
    }
  }

  lemma {:induction false} StringFails(s: seq<StrItem>, rest: string)
    requires RfcStr(s) && !Printable(s)
    ensures Fails(StrAt(Plain("")), StrText(s) + rest)
  {
    var k, r, c, tail := StringBreaks("", s);
    LiftStr(Plain(""), k, Plain(r));
    FailsNow(StrAt(Plain(r)), c, tail);
    FailsAfter(StrAt(Plain("")), k, StrAt(Plain(r)), [c] + tail);
    FailsMore(StrAt(Plain("")), StrText(s), rest);
  }

  lemma {:induction false} NameFails(kids: seq<Edge>, s: seq<StrItem>, rest: string)
    requires RfcStr(s) && !Printable(s)
    ensures Fails(KeyAt(kids, Key(true, NEW_STRING)), StrText(s) + rest)
  {
    var k, r, c, tail := StringBreaks("", s);
    LiftKey(kids, Plain(""), k, Plain(r));
    FailsNow(KeyAt(kids, Key(true, Plain(r))), c, tail);
    FailsAfter(KeyAt(kids, Key(true, NEW_STRING)), k, KeyAt(kids, Key(true, Plain(r))), [c] + tail);
    FailsMore(KeyAt(kids, Key(true, NEW_STRING)), StrText(s), rest);
  }

  // ---------------------------------------------------------------- numbers

  lemma {:induction false} NegativeFails(d: string, rest: string)
    requires AllDigits(d) && DigitsValue(d) > LONG_MAX
    ensures Fails(FRESH, ['-'] + (d + rest))
  {
    assert "" + d == d;
    DecimalOverflow("", d, Minus, rest);
    FreshNumber('-');
    FailsStep(FRESH, '-', NumAt(Decimal, 0, 1, 0, Minus), d + rest);
  }

  lemma {:induction false} PositiveFails(d: string, rest: string)
    requires AllDigits(d) && d != "" && DigitsValue(d) > LONG_MAX
    ensures Fails(FRESH, d + rest)
  {
    var ch, tail := d[0], d[1..];
    FirstDigit(ch);
    assert [ch] + tail == d;
    DecimalOverflow([ch], tail, Plus, rest);
    FailsStep(FRESH, ch, NumAt(Decimal, DigitOf(ch), 1, 0, Plus), tail + rest);
    assert d + rest == [ch] + (tail + rest);
  }

  lemma {:induction false} DecimalFails(n: Numeral, rest: string)
    requires RfcNum(n) && DigitsValue(n.digits) > LONG_MAX
    ensures Fails(FRESH, n.sign + n.digits + rest)
  {
    if n.sign == "-" {
      NegativeFails(n.digits, rest);
      assert n.sign + n.digits + rest == ['-'] + (n.digits + rest);
    } else {
      PositiveFails(n.digits, rest);
      assert n.sign + n.digits == n.digits;
    }
  }

  lemma {:induction false} FractionStops(d: nat, f: nat, ch: char, sign: Sign)
    requires IsDigit(ch) && (d * 10 + ch as int > LONG_MAX || f * 10 > INT_MAX)
    ensures Step(NumAt(Fraction, d, f, 0, sign), ch).1 == Overflow
  {
  }

  /** The digits read and the digits left have no room together. */
  predicate FractionTooLong(s: string, k: nat, t: string)
    requires AllDigits(s) && AllDigits(t)
  {
    DigitsValue(s + t) + '0' as int > LONG_MAX || Pow10(k + |t|) > INT_MAX
  }

  lemma {:induction false} FractionGoesOn(s: string, k: nat, t: string) returns (s': string)
    requires AllDigits(s) && AllDigits(t) && t != [] && FractionTooLong(s, k, t)
    requires DigitsValue(s) * 10 + t[0] as int <= LONG_MAX && Pow10(k) * 10 <= INT_MAX
    ensures s' == s + [t[0]] && AllDigits(s') && AllDigits(t[1..]) && t[1..] != []
    ensures FractionTooLong(s', k + 1, t[1..])
  {
    s' := NextDigit(s, t);
    assert k + |t| == k + 1 + |t[1..]| && Pow10(k + 1) == 10 * Pow10(k);
    assert |t| == 1 ==> s' == s + t;
  }

  lemma {:induction false} FractionNext(s: string, k: nat, ch: char, sign: Sign)
    requires AllDigits(s) && IsDigit(ch) && DigitsValue(s) * 10 + ch as int <= LONG_MAX && Pow10(k) * 10 <= INT_MAX
    ensures AllDigits(s + [ch])
    ensures Dispatch(NumAt(Fraction, DigitsValue(s), Pow10(k), 0, sign), ch)
            == (NumAt(Fraction, DigitsValue(s + [ch]), Pow10(k + 1), 0, sign), Consumed)
  {
    DigitsSnoc(s, ch);
    assert Pow10(k + 1) == 10 * Pow10(k);
    FractionDigit(DigitsValue(s), Pow10(k), ch, sign);
  }

  lemma {:induction false} FractionFails(s: string, k: nat, t: string, sign: Sign, rest: string)
    requires AllDigits(s) && AllDigits(t) && t != [] && FractionTooLong(s, k, t)
    ensures Fails(NumAt(Fraction, DigitsValue(s), Pow10(k), 0, sign), t + rest)
    decreases |t|
  {
    var d, f, ch, tail := DigitsValue(s), Pow10(k), t[0], t[1..] + rest;
    var p := NumAt(Fraction, d, f, 0, sign);
    assert t + rest == [ch] + tail;
    if d * 10 + ch as int > LONG_MAX || f * 10 > INT_MAX {
      FractionStops(d, f, ch, sign);
      FailsNow(p, ch, tail);
    } else {
      var s' := FractionGoesOn(s, k, t);
      FractionNext(s, k, ch, sign);
      FractionFails(s', k + 1, t[1..], sign, rest);
      FailsStep(p, ch, NumAt(Fraction, DigitsValue(s'), Pow10(k + 1), 0, sign), tail);
    }
  }

  lemma {:induction false} ExponentStops(m: int, f: int, e: nat, ch: char, sign: Sign)
    requires IsDigit(ch) && e * 10 + DigitOf(ch) > INT_MAX
    ensures Step(NumAt(Exponent, m, f, e, sign), ch).1 == Overflow
  {
  }

  lemma {:induction false} ExponentNext(m: int, f: int, s: string, ch: char, sign: Sign)
    requires AllDigits(s) && IsDigit(ch) && DigitsValue(s) * 10 + DigitOf(ch) <= INT_MAX
    ensures AllDigits(s + [ch])
    ensures Dispatch(NumAt(Exponent, m, f, DigitsValue(s), sign), ch)
            == (NumAt(Exponent, m, f, DigitsValue(s + [ch]), sign), Consumed)
  {
    DigitsSnoc(s, ch);
    ExponentDigit(m, f, DigitsValue(s), ch, sign);
  }

  lemma {:induction false} ExponentFails(m: int, f: int, s: string, t: string, sign: Sign, rest: string)
    requires AllDigits(s) && AllDigits(t) && t != [] && DigitsValue(s) <= INT_MAX < DigitsValue(s + t)
    ensures Fails(NumAt(Exponent, m, f, DigitsValue(s), sign), t + rest)
    decreases |t|
  {
    var e, ch, tail := DigitsValue(s), t[0], t[1..] + rest;
    var p := NumAt(Exponent, m, f, e, sign);
    assert t + rest == [ch] + tail;
    if e * 10 + DigitOf(ch) > INT_MAX {
      ExponentStops(m, f, e, ch, sign);
      FailsNow(p, ch, tail);
    } else {
      var s' := ExponentGoesOn(s, t);
      ExponentNext(m, f, s, ch, sign);
      ExponentFails(m, f, s', t[1..], sign, rest);
      FailsStep(p, ch, NumAt(Exponent, m, f, DigitsValue(s'), sign), tail);
    }
  }

  lemma {:induction false} ExponentGoesOn(s: string, t: string) returns (s': string)
    requires AllDigits(s) && AllDigits(t) && t != []
    requires DigitsValue(s) * 10 + DigitOf(t[0]) <= INT_MAX < DigitsValue(s + t)
    ensures s' == s + [t[0]] && AllDigits(s') && AllDigits(t[1..]) && t[1..] != []
    ensures DigitsValue(s') <= INT_MAX < DigitsValue(s' + t[1..])
  {
    s' := NextDigit(s, t);
    assert |t| == 1 ==> s' == s + t;
  }

  /** Integer digits that fit, and a fraction that does not. */
  lemma {:induction false} FracFails(n: Numeral, rest: string)
    requires RfcNum(n) && n.frac.Some? && DigitsValue(n.digits) <= LONG_MAX
    requires FractionTooLong(n.digits, 0, n.frac.value)
    ensures Fails(FRESH, n.sign + n.digits + ("." + n.frac.value) + rest)
  {
    var n0 := Numeral(n.sign, n.digits, None, None);
    var d, f := DigitsValue(n.digits), n.frac.value;
    var q := EatInteger(n0);
    var r := NumAt(Fraction, d, 1, 0, SignOf(n));
    assert Pow10(0) == 1;
    FractionFails(n.digits, 0, f, SignOf(n), rest);
    FailsStep(q, '.', r, f + rest);
    FailsAfter(FRESH, n.sign + n.digits, q, ['.'] + (f + rest));
    assert n.sign + n.digits + ("." + f) + rest == n.sign + n.digits + (['.'] + (f + rest));
  }

  /** A number that fits up to its exponent. */
  lemma {:induction false} ExpoFails(n: Numeral)
    requires RfcNum(n) && n.expo.Some? && WfNum(n.(expo := None)) && ExpoValue(n.expo.value) > INT_MAX
    ensures Fails(FRESH, NumText(n))
  {
    var n1, e := n.(expo := None), n.expo.value;
    EatNumber(n1);
    var q := NumState(n1);
    var m, f, sign := Mantissa(n1), Pow10(|n1.frac.GetOr("")|), SignOf(n1);
    var s := LeadDigits(e.lead);
    LeadValue(e);
    var p := NumAt(Exp, Signed(sign, m), f, 0, sign);
    assert e.digits == "" ==> s + e.digits == s;
    ExponentFails(Signed(sign, m), f, s, e.digits, LeadSign(e.lead), "");
    assert e.digits + "" == e.digits;
    ExpoLead(Signed(sign, m), f, sign, e.lead);
    FailsStep(p, e.lead, NumAt(Exponent, Signed(sign, m), f, DigitsValue(s), LeadSign(e.lead)), e.digits);
    ExpoMark(q.parser.phase, m, f, sign, e.mark);
    FailsStep(q, e.mark, p, [e.lead] + e.digits);
    FailsAfter(FRESH, NumText(n1), q, [e.mark] + ([e.lead] + e.digits));
    assert ExpoText(n.expo) == [e.mark] + ([e.lead] + e.digits);
    var head := n.sign + n.digits + FracText(n.frac);
    assert NumText(n1) == head + "" == head;
  }

  lemma {:induction false} NumberFails(n: Numeral)
    requires RfcNum(n) && !InRange(n)
    ensures Fails(FRESH, NumText(n))
  {
    if DigitsValue(n.digits) > LONG_MAX {
      DecimalFails(n, FracText(n.frac) + ExpoText(n.expo));
      Assoc(n.sign + n.digits, FracText(n.frac), ExpoText(n.expo));
    } else if n.frac.Some? && (Mantissa(n) + '0' as int > LONG_MAX || Pow10(|n.frac.value|) > INT_MAX) {
      FracFails(n, ExpoText(n.expo));
    } else {
      ExpoFails(n);
    }
  }

  // ---------------------------------------------------------------- arrays and objects

  lemma {:induction false} BlankArrayFails(blank: string)
    requires Blanks(blank) && blank != ""
    ensures Fails(FRESH, TextOf(VBlankArr(blank)))
  {
    OpenBlanks(blank);
    BlankThenBracket();
    FailsAfter(OPEN_ARRAY, blank, InArr([], FRESH), "]");
    Opens();
    FailsStep(FRESH, '[', OPEN_ARRAY, blank + "]");
  }

  /** No value begins with a closing bracket. */
  lemma {:induction false} FirstChar(v: Value)
    requires Rfc(v)
    ensures TextOf(v) != "" && TextOf(v)[0] != ']'
  {
    match v
    case VLit(l, word) =>
    case VNum(n) => assert NumText(n)[0] == (n.sign + n.digits)[0];
    case VStr(chars) => assert TextOf(v)[0] == '"';
    case VArr(items) => assert TextOf(v)[0] == '[';
    case VBlankArr(blank) => assert TextOf(v)[0] == '[';
    case VEmptyObj(blank) => assert TextOf(v)[0] == '{';
    case VObj(members) => assert TextOf(v)[0] == '{';
  }

  lemma {:induction false} FirstItemChar(items: seq<Item>)
    requires items != [] && RfcItems(items)
    ensures ItemsText(items) != "" && ItemsText(items)[0] != ']'
  {
    var i := items[0];
    FirstChar(i.value);
    var head := i.pre + TextOf(i.value);
    assert head != "" && head[0] != ']' by {
      if i.pre == "" { assert head == TextOf(i.value); } else { assert head[0] == i.pre[0] && IsBlank(i.pre[0]); }
    }
    assert OneItem(i)[0] == head[0];
    assert ItemsText(items)[0] == OneItem(i)[0];
  }

  /** Blanks and then the text of a value, from a fresh parser. */
  lemma {:induction false} PaddedFails(pre: string, v: Value)
    requires Blanks(pre) && Fails(FRESH, TextOf(v))
    ensures Fails(FRESH, pre + TextOf(v))
  {
    BlanksSkip(pre);
    EatsIdle(FRESH, pre);
    FailsAfter(FRESH, pre, FRESH, TextOf(v));
  }

  /** The first character of a value that holds more. */
  lemma {:induction false} Opens()
    ensures Dispatch(FRESH, '"') == (StrAt(Plain("")), Consumed)
    ensures Dispatch(FRESH, '[') == (OPEN_ARRAY, Consumed)
    ensures Dispatch(FRESH, '{') == (Expecting([], true), Consumed)
  {
    FreshNeverAgain('"');
    FreshNeverAgain('[');
    FreshNeverAgain('{');
  }

  lemma {:induction false} FailsOnce(ch: char, p: Impl, s: string, t: string)
    requires Dispatch(FRESH, ch) == (p, Consumed) && Fails(p, s)
    ensures Fails(FRESH, [ch] + (s + t))
  {
    FailsMore(p, s, t);
    FailsStep(FRESH, ch, p, s + t);
  }

  /** A text of the RFC that the parser has no room for is refused. */
  lemma {:induction false} RfcFails(v: Value)
    requires Rfc(v) && !Fits(v)
    ensures Fails(FRESH, TextOf(v))
    decreases v, 1
  {
    match v
    case VNum(n) => NumberFails(n);
    case VStr(chars) =>
      StringFails(chars, "\"");
      Opens();
      FailsStep(FRESH, '"', StrAt(Plain("")), StrText(chars) + "\"");
    case VArr(items) =>
      ItemsFail(items, []);
      FirstItemChar(items);
      FailsOpen(ItemsText(items));
      Opens();
      FailsOnce('[', OPEN_ARRAY, ItemsText(items), "]");
    case VBlankArr(blank) => BlankArrayFails(blank);
    case VObj(members) =>
      MembersFail(members, [], true);
      Opens();
      FailsOnce('{', Expecting([], true), MembersText(members), "}");
  }

  lemma {:induction false} ItemsFail(items: seq<Item>, kids: seq<Edge>)
    requires RfcItems(items) && !FitItems(items)
    ensures Fails(InArr(kids, FRESH), ItemsText(items))
    decreases items, 0
  {
    var i, rest := items[0], items[1..];
    if !Fits(i.value) {
      RfcFails(i.value);
      PaddedFails(i.pre, i.value);
      FailsArr(kids, FRESH, i.pre + TextOf(i.value));
      FailsMore(InArr(kids, FRESH), i.pre + TextOf(i.value), i.post);
      if |items| > 1 { FailsMore(InArr(kids, FRESH), OneItem(i), "," + ItemsText(rest)); }
    } else {
      RfcIff(i.value);
      ItemPassed(i, kids);
      var kids' := kids + [Edge(Index(|kids|), Build(i.value))];
      ItemsFail(rest, kids');
      FailsAfter(InArr(kids, FRESH), OneItem(i) + ",", InArr(kids', FRESH), ItemsText(rest));
      Assoc(OneItem(i), ",", ItemsText(rest));
    }
  }

  lemma {:induction false} ItemPassed(i: Item, kids: seq<Edge>)
    requires Blanks(i.pre) && Wf(i.value) && Blanks(i.post)
    ensures Eats(InArr(kids, FRESH), OneItem(i) + ",", InArr(kids + [Edge(Index(|kids|), Build(i.value))], FRESH))
  {
    BlanksSkip(i.pre);
    var q := EatPadded(i.pre, i.value);
    var next := InArr(kids + [Edge(Index(|kids|), Build(i.value))], FRESH);
    EatsNone(next);
    NextItem(kids, Build(i.value), "", next);
    assert [','] + "" == ",";
    FinishItem(kids, i, q, ",", next);
    Assoc(i.pre + TextOf(i.value), i.post, ",");
  }

  /** An object that expects a name. */
  function Expecting(kids: seq<Edge>, first: bool): Impl { Impl(Tree(NoData, kids), true, Obj(None, None, first)) }

  lemma {:induction false} MembersFail(members: seq<Member>, kids: seq<Edge>, first: bool)
    requires RfcMembers(members) && !FitMembers(members)
    ensures Fails(Expecting(kids, first), MembersText(members))
    decreases members, 0
  {
    var m, rest := members[0], members[1..];
    var p := Expecting(kids, first);
    if !Printable(m.name) {
      MemberNameFails(m, kids, first);
      if |members| > 1 { FailsMore(p, OneMember(m), "," + MembersText(rest)); }
    } else if !Fits(m.value) {
      RfcFails(m.value);
      MemberValueFails(m, kids, first);
      if |members| > 1 { FailsMore(p, OneMember(m), "," + MembersText(rest)); }
    } else {
      RfcIff(m.value);
      StrIff(m.name);
      MemberPassed(m, kids, first);
      var kids' := kids + [Edge(Name(StrMeaning(m.name)), Build(m.value))];
      MembersFail(rest, kids', false);
      FailsAfter(p, OneMember(m) + ",", Expecting(kids', false), MembersText(rest));
      Assoc(OneMember(m), ",", MembersText(rest));
    }
  }

  lemma {:induction false} MemberNameFails(m: Member, kids: seq<Edge>, first: bool)
    requires Blanks(m.pre) && RfcStr(m.name) && !Printable(m.name)
    ensures Fails(Expecting(kids, first), OneMember(m))
  {
    var p, k := Expecting(kids, first), KeyAt(kids, Key(true, NEW_STRING));
    var after := "\"" + (m.mid + ":");
    NameFails(kids, m.name, after);
    FailsStep(p, '"', k, StrText(m.name) + after);
    EatsIdle(p, m.pre);
    FailsAfter(p, m.pre, p, ['"'] + (StrText(m.name) + after));
    FailsMore(p, KeyText(m.pre, m.name, m.mid), m.gap + TextOf(m.value));
    FailsMore(p, KeyText(m.pre, m.name, m.mid) + (m.gap + TextOf(m.value)), m.post);
  }

  lemma {:induction false} MemberValueFails(m: Member, kids: seq<Edge>, first: bool)
    requires Blanks(m.pre) && RfcStr(m.name) && Printable(m.name) && Blanks(m.mid) && Blanks(m.gap)
    requires Fails(FRESH, TextOf(m.value))
    ensures Fails(Expecting(kids, first), OneMember(m))
  {
    var p, key, value := Expecting(kids, first), KeyText(m.pre, m.name, m.mid), m.gap + TextOf(m.value);
    StrIff(m.name);
    EatName(m, kids, first);
    PaddedFails(m.gap, m.value);
    FailsObj(kids, StrMeaning(m.name), FRESH, value);
    FailsAfter(p, key, InObj(kids, StrMeaning(m.name), FRESH), value);
    FailsMore(p, key + value, m.post);
  }

  lemma {:induction false} MemberPassed(m: Member, kids: seq<Edge>, first: bool)
    requires Blanks(m.pre) && WfStr(m.name) && Blanks(m.mid) && Blanks(m.gap) && Wf(m.value) && Blanks(m.post)
    ensures Eats(Expecting(kids, first), OneMember(m) + ",",
                 Expecting(kids + [Edge(Name(StrMeaning(m.name)), Build(m.value))], false))
  {
    var name, key, value := StrMeaning(m.name), KeyText(m.pre, m.name, m.mid), m.gap + TextOf(m.value);
    var next := Expecting(kids + [Edge(Name(name), Build(m.value))], false);
    BlanksSkip(m.gap);
    var q := EatPadded(m.gap, m.value);
    EatsNone(next);
    NextMember(kids, name, Build(m.value), "", next);
    assert [','] + "" == ",";
    FinishMember(kids, m, q, ",", next);
    EatName(m, kids, first);
    EatsConcat(Expecting(kids, first), key, InObj(kids, name, FRESH), value + (m.post + ","), next);
    Assoc(key, value, m.post + ",");
    Assoc(key + value, m.post, ",");
  }

  /** Exactly the texts that fit are read, and to the tree they denote; every other text of the RFC ends in an error. */
  lemma {:induction false} RfcReadIff(pre: string, v: Value, ch: char)
    requires Blanks(pre) && Rfc(v) && IsBlank(ch)
    ensures Feed(FRESH, pre + TextOf(v) + [ch]).outcome == Consumed <==> Fits(v)
    ensures Fits(v) ==> Wf(v) && Feed(FRESH, pre + TextOf(v) + [ch]).impl == Done(Build(v))
  {
    if Fits(v) {
      RfcRead(pre, v, ch);
    } else {
      RfcFails(v);
      PaddedFails(pre, v);
      FailsMore(FRESH, pre + TextOf(v), [ch]);
    }
  }

  // ---------------------------------------------------------------- what strings mean

  predicate Surrogate(u: nat) { 0xD800 <= u <= 0xDFFF }

  predicate High(u: nat) { 0xD800 <= u < 0xDC00 }

  predicate Low(u: nat) { 0xDC00 <= u <= 0xDFFF }

  /** The character or UTF-16 unit an item stands for. */
  function Unit(i: StrItem): (u: nat)
    requires WfItem(i)
    ensures u < 0x10000
  {
    match i
    case Raw(c) => c as int
    case Esc(e) => EscapeMeaning(e) as int
    case Hex(_, h) =>
      HexValueBound(h);
      HexValue(h)
  }

  function Units(s: seq<StrItem>): (u: seq<nat>)
    requires WfStr(s)
    ensures |u| == |s|
  {
    if s == [] then [] else [Unit(s[0])] + Units(s[1..])
  }

  /** Section 7: two escapes that are a surrogate pair are one character. */
  function CodePoints(u: seq<nat>): seq<nat> {
    if u == [] then []
    else if |u| > 1 && High(u[0]) && Low(u[1]) then
      [0x10000 + (u[0] - 0xD800) * 0x400 + (u[1] - 0xDC00)] + CodePoints(u[2..])
    else [u[0]] + CodePoints(u[1..])
  }

  /** The UTF-8 bytes of a code point, as many as its size asks for. */
  function Bytes(cp: nat): (b: string)
    ensures |b| >= 1
  {
    if cp < 0x80 then [cp as char]
    else if cp < 0x800 then [(0xC0 + cp / 64) as char, (0x80 + cp % 64) as char]
    else if cp < 0x10000 then
      [(0xE0 + cp / 4096) as char, (0x80 + cp / 64 % 64) as char, (0x80 + cp % 64) as char]
    else
      [(0xF0 + cp / 262144 % 8) as char, (0x80 + cp / 4096 % 64) as char, (0x80 + cp / 64 % 64) as char,
       (0x80 + cp % 64) as char]
  }

  /** The code point in a byte sequence of section 3 of RFC 3629. */
  function CodePoint(b: string): int
    requires 1 <= |b| <= 4
  {
    if |b| == 1 then b[0] as int
    else if |b| == 2 then (b[0] as int - 0xC0) * 64 + (b[1] as int - 0x80)
    else if |b| == 3 then (b[0] as int - 0xE0) * 4096 + (b[1] as int - 0x80) * 64 + (b[2] as int - 0x80)
    else (b[0] as int - 0xF0) * 262144 + (b[1] as int - 0x80) * 4096 + (b[2] as int - 0x80) * 64 + (b[3] as int - 0x80)
  }

  /** A byte that leads a sequence of `n` bytes. */
  predicate Leads(n: nat, c: char) {
    match n
    case 1 => c as int < 0x80
    case 2 => 0xC0 <= c as int < 0xE0
    case 3 => 0xE0 <= c as int < 0xF0
    case 4 => 0xF0 <= c as int < 0xF8
    case _ => false
  }

  lemma {:induction false} SixBits(x: nat)
    ensures x / 64 * 64 + x % 64 == x && x / 64 / 64 == x / 4096 && x / 4096 / 64 == x / 262144
  {
  }

  lemma {:induction false} LastBytes(cp: nat)
    ensures cp / 4096 * 4096 + cp / 64 % 64 * 64 + cp % 64 == cp
    ensures cp / 262144 * 262144 + cp / 4096 % 64 * 4096 + cp / 64 % 64 * 64 + cp % 64 == cp
  {
    SixBits(cp);
    SixBits(cp / 64);
    SixBits(cp / 4096);
  }

  /** The bytes of a code point are the shortest sequence of that section that decodes to it. */
  lemma {:induction false} BytesDecode(cp: nat)
    requires cp < 0x11_0000
    ensures var b := Bytes(cp);
            && |b| == (if cp < 0x80 then 1 else if cp < 0x800 then 2 else if cp < 0x1_0000 then 3 else 4)
            && CodePoint(b) == cp && Leads(|b|, b[0])
            && forall i :: 1 <= i < |b| ==> 0x80 <= b[i] as int < 0xC0
  {
    LastBytes(cp);
    if cp >= 0x1_0000 { assert cp / 262144 % 8 == cp / 262144; }
  }

  function AllBytes(cps: seq<nat>): string { if cps == [] then "" else Bytes(cps[0]) + AllBytes(cps[1..]) }

  /** The text the RFC means, in UTF-8. */
  function RfcText(s: seq<StrItem>): string
    requires WfStr(s)
  {
    AllBytes(CodePoints(Units(s)))
  }

  predicate NoSurrogates(u: seq<nat>) { forall i :: 0 <= i < |u| ==> !Surrogate(u[i]) }

  lemma {:induction false} ItemBytes(i: StrItem)
    requires WfItem(i)
    ensures !Surrogate(Unit(i)) ==> ItemMeaning(i) == Bytes(Unit(i))
    ensures Surrogate(Unit(i)) ==> ItemMeaning(i) == ""
  {
    if i.Hex? {
      HexValueBound(i.h);
      UnitBytes(HexValue(i.h));
    } else {
      UnitBytes(Unit(i));
    }
  }

  lemma {:induction false} UnitBytes(u: nat)
    requires u < 0x10000
    ensures Utf8(u) == if Surrogate(u) then "" else Bytes(u)
  {
  }

  /** The parser never writes more than the RFC means, and less as soon as there is a surrogate. */
  lemma {:induction false} MeaningBound(s: seq<StrItem>)
    requires WfStr(s)
    ensures NoSurrogates(Units(s)) ==> StrMeaning(s) == RfcText(s)
    ensures |StrMeaning(s)| <= |RfcText(s)|
    ensures !NoSurrogates(Units(s)) ==> |StrMeaning(s)| < |RfcText(s)|
    decreases |s|
  {
    if s != [] {
      var u := Units(s);
      assert u[1..] == Units(s[1..]);
      ItemBytes(s[0]);
      if |u| > 1 && High(u[0]) && Low(u[1]) {
        PairBound(s);
      } else {
        MeaningBound(s[1..]);
        var cps := CodePoints(u);
        assert cps[0] == u[0] && cps[1..] == CodePoints(u[1..]);
        assert NoSurrogates(u) <==> !Surrogate(u[0]) && NoSurrogates(u[1..]) by {
          assert forall i :: 0 <= i < |u[1..]| ==> u[1..][i] == u[i + 1];
          assert forall i :: 1 <= i < |u| ==> u[i] == u[1..][i - 1];
        }
      }
    }
  }

  lemma {:induction false} PairBound(s: seq<StrItem>)
    requires WfStr(s) && |s| > 1 && High(Units(s)[0]) && Low(Units(s)[1])
    ensures !NoSurrogates(Units(s)) && |StrMeaning(s)| < |RfcText(s)|
    decreases |s|, 0
  {
    var u := Units(s);
    assert s[1..][1..] == s[2..] && u[1..] == Units(s[1..]) && u[2..] == Units(s[2..]);
    assert u[0] == Unit(s[0]) && u[1] == Unit(s[1]) && Surrogate(u[0]);
    ItemBytes(s[0]);
    ItemBytes(s[1]);
    assert StrMeaning(s) == "" + ("" + StrMeaning(s[2..]));
    MeaningBound(s[2..]);
    assert CodePoints(u)[1..] == CodePoints(u[2..]);
  }

  /** A string is read to the text the RFC means exactly when none of its escapes is a surrogate. */
  lemma {:induction false} StringMeaningIff(s: seq<StrItem>)
    requires WfStr(s)
    ensures StrMeaning(s) == RfcText(s) <==> NoSurrogates(Units(s))
  {
    MeaningBound(s);
  }
}
