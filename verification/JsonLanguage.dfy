/**
 Nothing else is read: every state the parser can reach is the state of a partial syntax tree whose
 text is what has been read so far, so a completed parser has read a text of the grammar.
 Together with `JsonAccepts` this fixes the language of the parser exactly.
 */
module JsonLanguage {
  import opened Common
  import opened JsonModel
  import opened JsonGrammar
  import opened JsonAccepts

  /** A syntax tree read up to some character. `pre` is what was skipped before it. */
  datatype Partial =
    | PAny(pre: string)
    | PLit(pre: string, l: Literal, word: string)
    | PNum(pre: string, n: Numeral)
    | PMark(pre: string, n: Numeral, mark: char)
    | PStr(pre: string, chars: seq<StrItem>, esc: string)
    | POpen(pre: string)
    | PItem(pre: string, items: seq<Item>, child: Partial)
    | PItemEnd(pre: string, items: seq<Item>, last: Item)
    | PName(pre: string, members: seq<Member>, blank: string)
    | PKey(pre: string, members: seq<Member>, blank: string, name: seq<StrItem>, esc: string)
    | PColon(pre: string, members: seq<Member>, blank: string, name: seq<StrItem>, mid: string)
    | PMember(pre: string, members: seq<Member>, blank: string, name: seq<StrItem>, mid: string, child: Partial)
    | PMemberEnd(pre: string, members: seq<Member>, latest: Member)

  // ---------------------------------------------------------------- text, state, well-formedness

  /** Complete items, each with the comma after it. */
  function ItemsLead(items: seq<Item>): string {
    if items == [] then "" else OneItem(items[0]) + ("," + ItemsLead(items[1..]))
  }

  function MembersLead(members: seq<Member>): string {
    if members == [] then "" else OneMember(members[0]) + ("," + MembersLead(members[1..]))
  }

  /** What a partial tree adds after `pre`. */
  function PBody(p: Partial): string {
    match p
    case PAny(_) => ""
    case PLit(_, _, word) => word
    case PNum(_, n) => NumText(n)
    case PMark(_, n, mark) => NumText(n) + [mark]
    case PStr(_, chars, esc) => "\"" + (StrText(chars) + esc)
    case POpen(_) => "["
    case PItem(_, items, child) => "[" + (ItemsLead(items) + (child.pre + PBody(child)))
    case PItemEnd(_, items, last) => "[" + (ItemsLead(items) + OneItem(last))
    case PName(_, members, blank) => "{" + (MembersLead(members) + blank)
    case PKey(_, members, blank, name, esc) =>
      "{" + (MembersLead(members) + (blank + ("\"" + (StrText(name) + esc))))
    case PColon(_, members, blank, name, mid) =>
      "{" + (MembersLead(members) + (blank + ("\"" + (StrText(name) + ("\"" + mid)))))
    case PMember(_, members, blank, name, mid, child) =>
      "{" + (MembersLead(members) + (KeyText(blank, name, mid) + (child.pre + PBody(child))))
    case PMemberEnd(_, members, latest) => "{" + (MembersLead(members) + OneMember(latest))
  }

  function PText(p: Partial): string { p.pre + PBody(p) }

  predicate WfEsc(esc: string) { esc == "" || (esc[0] == '\\' && HexPrefix(esc[1..])) }

  function EscState(chars: seq<StrItem>, esc: string): StringState
    requires WfStr(chars)
  {
    StringState(esc != "", if esc == "" then "" else esc[1..], StrMeaning(chars))
  }

  predicate WfOneItem(i: Item) { Skips(i.pre) && Wf(i.value) && Blanks(i.post) }

  predicate WfOneMember(m: Member) {
    Blanks(m.pre) && WfStr(m.name) && Blanks(m.mid) && Skips(m.gap) && Wf(m.value) && Blanks(m.post)
  }

  predicate PWf(p: Partial) {
    && Skips(p.pre)
    && match p
       case PAny(_) => true
       case PLit(_, l, word) =>
         1 <= |word| <= |Word(l)| && forall i :: 0 <= i < |word| ==> ToLower(word[i]) == Word(l)[i]
       case PNum(_, n) => WfNum(n)
       case PMark(_, n, mark) => WfNum(n) && n.expo.None? && IsExpMark(mark)
       case PStr(_, chars, esc) => WfStr(chars) && WfEsc(esc)
       case POpen(_) => true
       case PItem(_, items, child) => WfItems(items) && PWf(child)
       case PItemEnd(_, items, last) => WfItems(items) && WfOneItem(last)
       case PName(_, members, blank) => WfMembers(members) && Blanks(blank)
       case PKey(_, members, blank, name, esc) => WfMembers(members) && Blanks(blank) && WfStr(name) && WfEsc(esc)
       case PColon(_, members, blank, name, mid) => WfMembers(members) && Blanks(blank) && WfStr(name) && Blanks(mid)
       case PMember(_, members, blank, name, mid, child) =>
         WfMembers(members) && Blanks(blank) && WfStr(name) && Blanks(mid) && PWf(child)
       case PMemberEnd(_, members, last) => WfMembers(members) && WfOneMember(last)
  }

  /** The parser that has read `PText(p)`. */
  function PState(p: Partial): (m: Impl)
    requires PWf(p)
    ensures m.inProgress
  {
    match p
    case PAny(_) => FRESH
    case PLit(_, l, word) => LitAt(l, |word| - 1)
    case PNum(_, n) => NumState(n)
    case PMark(_, n, _) =>
      NumAt(Exp, Signed(SignOf(n), Mantissa(n)), Pow10(|n.frac.GetOr("")|), 0, SignOf(n))
    case PStr(_, chars, esc) => StrAt(EscState(chars, esc))
    case POpen(_) => Impl(EMPTY_TREE, true, Arr(None, 0))
    case PItem(_, items, child) => InArr(ItemEdges(items, 0), PState(child))
    case PItemEnd(_, items, last) => InArr(ItemEdges(items, 0), Done(Build(last.value)))
    case PName(_, members, _) => Impl(Tree(NoData, MemberEdges(members)), true, Obj(None, None, members == []))
    case PKey(_, members, _, name, esc) => KeyAt(MemberEdges(members), Key(true, EscState(name, esc)))
    case PColon(_, members, _, name, _) => KeyAt(MemberEdges(members), Key(false, Plain(StrMeaning(name))))
    case PMember(_, members, _, name, _, child) => InObj(MemberEdges(members), StrMeaning(name), PState(child))
    case PMemberEnd(_, members, last) =>
      InObj(MemberEdges(members), StrMeaning(last.name), Done(Build(last.value)))
  }

  /** Where one dispatch leads: a longer partial tree, or a finished value. */
  datatype After = Going(p: Partial) | Over(pre: string, v: Value)

  ghost predicate Stands(m: Impl, text: string, a: After) {
    match a
    case Going(p) => PWf(p) && PState(p) == m && PText(p) == text
    case Over(pre, v) => Skips(pre) && Wf(v) && Done(Build(v)) == m && pre + TextOf(v) == text
  }

  /** A dispatch to `m` that consumes `ch` extends the text by it; one that hands it back leaves the text alone. */
  ghost predicate Lands(p: Partial, ch: char, m: Impl, o: Outcome, a: After) {
    && (o == Consumed ==> Stands(m, PText(p) + [ch], a) && (a.Over? ==> SelfDelimiting(a.v)))
    && (o == Again ==> Stands(m, PText(p), a) && (a.Over? ==> !SelfDelimiting(a.v) && Terminates(a.v, ch)))
  }

  ghost predicate Follows(p: Partial, ch: char, a: After)
    requires PWf(p)
  {
    Lands(p, ch, Step(PState(p), ch).0, Step(PState(p), ch).1, a)
  }

  // ---------------------------------------------------------------- growing texts

  lemma Grow(a: string, b: string, c: string, ch: char)
    ensures a + (b + c) + [ch] == a + (b + (c + [ch]))
  {
  }

  lemma Grow3(a: string, b: string, c: string, d: string, ch: char)
    ensures a + (b + (c + d)) + [ch] == a + (b + (c + (d + [ch])))
  {
    Grow(a, b, c + d, ch);
    Assoc(c, d, [ch]);
  }

  // ---------------------------------------------------------------- one dispatch

  lemma {:induction false} AnyText(pre: string, ch: char, p: Partial)
    requires p.pre == pre && PBody(p) == [ch]
    ensures PText(p) == PText(PAny(pre)) + [ch]
  {
    assert pre + "" == pre;
  }

  lemma {:induction false} AnySign(pre: string, ch: char)
    requires Skips(pre) && (ch == '-' || ch == '+')
    ensures Follows(PAny(pre), ch, Going(PNum(pre, Numeral([ch], "", None, None))))
  {
    var p := PNum(pre, Numeral([ch], "", None, None));
    AnyText(pre, ch, p);
    FreshNumber(ch);
    assert "" + "" == "";
    assert PWf(p) && PState(p) == NumAt(Decimal, 0, 1, 0, if ch == '-' then Minus else Plus);
  }

  lemma {:induction false} AnyDigit(pre: string, ch: char)
    requires Skips(pre) && IsDigit(ch)
    ensures Follows(PAny(pre), ch, Going(PNum(pre, Numeral("", [ch], None, None))))
  {
    var p := PNum(pre, Numeral("", [ch], None, None));
    AnyText(pre, ch, p);
    OneDigit(ch);
    FreshNumber(ch);
    assert [ch] + "" == [ch];
    assert PWf(p) && PState(p) == NumAt(Decimal, DigitOf(ch), 1, 0, Plus);
  }

  lemma {:induction false} AnyLetter(pre: string, ch: char, l: Literal)
    requires Skips(pre) && ToLower(ch) == Word(l)[0]
    ensures Follows(PAny(pre), ch, Going(PLit(pre, l, [ch])))
  {
    FirstLetter(l, ch);
    AnyText(pre, ch, PLit(pre, l, [ch]));
  }

  lemma {:induction false} AnyOpens(pre: string, ch: char) returns (a: After)
    requires Skips(pre) && (ch == '"' || ch == '[' || ch == '{')
    ensures Follows(PAny(pre), ch, a) && a.Going?
  {
    var p := if ch == '"' then PStr(pre, [], "") else if ch == '[' then POpen(pre) else PName(pre, [], "");
    assert MembersLead([]) + "" == "" && StrText([]) + "" == "";
    assert "{" + "" == "{" && "\"" + "" == "\"";
    AnyText(pre, ch, p);
    a := Going(p);
  }

  lemma {:induction false} FollowAny(pre: string, ch: char) returns (a: After)
    requires Skips(pre)
    ensures Follows(PAny(pre), ch, a) && a.Going?
  {
    if IsSkip(ch) {
      a := Going(PAny(pre + [ch]));
    } else if ch == '"' || ch == '[' || ch == '{' {
      a := AnyOpens(pre, ch);
    } else if ch == '-' || ch == '+' {
      AnySign(pre, ch);
      a := Going(PNum(pre, Numeral([ch], "", None, None)));
    } else if IsDigit(ch) {
      AnyDigit(pre, ch);
      a := Going(PNum(pre, Numeral("", [ch], None, None)));
    } else if l: Literal :| ToLower(ch) == Word(l)[0] {
      AnyLetter(pre, ch, l);
      a := Going(PLit(pre, l, [ch]));
    } else {
      NoLetter(ch);
      a := Going(PAny(pre));
    }
  }

  lemma {:induction false} NoLetter(ch: char)
    requires forall l: Literal :: ToLower(ch) != Word(l)[0]
    ensures ch !in "nNtTfF"
  {
    assert ToLower(ch) != Word(LNull)[0] && ToLower(ch) != Word(LTrue)[0] && ToLower(ch) != Word(LFalse)[0];
  }

  lemma {:induction false} FollowLit(p: Partial, ch: char) returns (a: After)
    requires PWf(p) && p.PLit?
    ensures Follows(p, ch, a)
  {
    if |p.word| == |Word(p.l)| {
      a := Over(p.pre, VLit(p.l, p.word));
    } else {
      a := Going(PLit(p.pre, p.l, p.word + [ch]));
    }
  }

  /** The numeral after one more digit, in whichever part it is being read. */
  function MoreDigits(n: Numeral, ch: char): Numeral {
    if n.expo.Some? then n.(expo := Some(n.expo.value.(digits := n.expo.value.digits + [ch])))
    else if n.frac.Some? then n.(frac := Some(n.frac.value + [ch]))
    else n.(digits := n.digits + [ch])
  }

  lemma {:induction false} Pow10Next(s: string, ch: char)
    ensures Pow10(|s + [ch]|) == 10 * Pow10(|s|)
  {
  }

  lemma {:induction false} DecimalSnoc(n: Numeral, ch: char)
    requires WfNum(n) && n.frac.None? && n.expo.None? && IsDigit(ch)
    ensures var n' := MoreDigits(n, ch); WfDigits(n') && Mantissa(n') == Mantissa(n) * 10 + DigitOf(ch)
    ensures Mantissa(n) == DigitsValue(n.digits) && Mantissa(MoreDigits(n, ch)) == DigitsValue(n.digits + [ch])
  {
    var s, s' := n.digits, n.digits + [ch];
    DigitsSnoc(s, ch);
    assert s + "" == s && s' + "" == s';
  }

  lemma {:induction false} MoreDecimal(n: Numeral, ch: char)
    requires WfNum(n) && n.frac.None? && n.expo.None? && IsDigit(ch) && Step(NumState(n), ch).1 == Consumed
    ensures WfNum(MoreDigits(n, ch)) && NumState(MoreDigits(n, ch)) == Step(NumState(n), ch).0
  {
    var m := Mantissa(n);
    DecimalSnoc(n, ch);
    assert Pow10(0) == 1;
    assert NumState(n) == NumAt(Decimal, m, 1, 0, SignOf(n));
    DecimalFits(m, ch, SignOf(n));
    DecimalDigit(m, ch, SignOf(n));
  }

  lemma {:induction false} DecimalFits(m: int, ch: char, sign: Sign)
    requires IsDigit(ch) && Step(NumAt(Decimal, m, 1, 0, sign), ch).1 == Consumed
    ensures m * 10 + DigitOf(ch) <= LONG_MAX
  {
  }

  lemma {:induction false} FractionSnoc(n: Numeral, ch: char)
    requires WfNum(n) && n.frac.Some? && n.expo.None? && IsDigit(ch)
    ensures var n' := MoreDigits(n, ch);
            && WfDigits(n') && Mantissa(n') == Mantissa(n) * 10 + DigitOf(ch)
            && Pow10(|n'.frac.value|) == Pow10(|n.frac.value|) * 10
  {
    DigitsSnoc(n.digits + n.frac.value, ch);
    Assoc(n.digits, n.frac.value, [ch]);
    Pow10Next(n.frac.value, ch);
  }

  lemma {:induction false} MoreFraction(n: Numeral, ch: char)
    requires WfNum(n) && n.frac.Some? && n.expo.None? && IsDigit(ch) && Step(NumState(n), ch).1 == Consumed
    ensures WfNum(MoreDigits(n, ch)) && NumState(MoreDigits(n, ch)) == Step(NumState(n), ch).0
  {
    var m, f := Mantissa(n), Pow10(|n.frac.value|);
    FractionSnoc(n, ch);
    assert NumState(n) == NumAt(Fraction, m, f, 0, SignOf(n));
    FractionFits(m, f, ch, SignOf(n));
    FractionDigit(m, f, ch, SignOf(n));
  }

  lemma {:induction false} FractionFits(m: int, f: int, ch: char, sign: Sign)
    requires IsDigit(ch) && Step(NumAt(Fraction, m, f, 0, sign), ch).1 == Consumed
    ensures m * 10 + ch as int <= LONG_MAX && f * 10 <= INT_MAX
  {
  }

  lemma {:induction false} ExpoSnoc(e: Expo, ch: char)
    requires WfExpo(e) && IsDigit(ch)
    ensures var e' := e.(digits := e.digits + [ch]); WfExpo(e') && ExpoValue(e') == ExpoValue(e) * 10 + DigitOf(ch)
  {
    if IsDigit(e.lead) {
      DigitsSnoc([e.lead] + e.digits, ch);
      Assoc([e.lead], e.digits, [ch]);
    } else {
      DigitsSnoc(e.digits, ch);
    }
  }

  lemma {:induction false} MoreExponent(n: Numeral, ch: char)
    requires WfNum(n) && n.expo.Some? && IsDigit(ch) && Step(NumState(n), ch).1 == Consumed
    ensures WfNum(MoreDigits(n, ch)) && NumState(MoreDigits(n, ch)) == Step(NumState(n), ch).0
  {
    ExpoSnoc(n.expo.value, ch);
    var n' := MoreDigits(n, ch);
    assert Mantissa(n') == Mantissa(n);
  }

  lemma {:induction false} MoreText(n: Numeral, ch: char)
    ensures NumText(MoreDigits(n, ch)) == NumText(n) + [ch]
  {
    if n.expo.Some? {
      var e := n.expo.value;
      Assoc([e.mark, e.lead], e.digits, [ch]);
      Assoc(n.sign + n.digits + FracText(n.frac), ExpoText(n.expo), [ch]);
    } else if n.frac.Some? {
      Assoc(".", n.frac.value, [ch]);
      Assoc(n.sign + n.digits, FracText(n.frac), [ch]);
    }
  }

  lemma {:induction false} PointText(n: Numeral)
    requires WfNum(n) && n.frac.None? && n.expo.None?
    ensures var n' := n.(frac := Some(""));
            WfNum(n') && Mantissa(n') == Mantissa(n) && NumText(n') == NumText(n) + "."
  {
    assert n.digits + "" == n.digits;
  }

  lemma {:induction false} NumDigit(p: Partial, ch: char)
    requires PWf(p) && p.PNum? && IsDigit(ch) && Step(NumState(p.n), ch).1 == Consumed
    ensures Follows(p, ch, Going(PNum(p.pre, MoreDigits(p.n, ch))))
  {
    var n := p.n;
    if n.expo.Some? { MoreExponent(n, ch); }
    else if n.frac.Some? { MoreFraction(n, ch); }
    else { MoreDecimal(n, ch); }
    MoreText(n, ch);
    Assoc(p.pre, NumText(n), [ch]);
  }

  lemma {:induction false} NumFinishes(n: Numeral, ch: char)
    requires WfNum(n) && Step(NumState(n), ch).1 == Again
    ensures Terminates(VNum(n), ch) && Step(NumState(n), ch).0 == Done(Build(VNum(n)))
  {
  }

  lemma {:induction false} NumEnds(p: Partial, ch: char)
    requires PWf(p) && p.PNum? && Step(NumState(p.n), ch).1 == Again
    ensures Follows(p, ch, Over(p.pre, VNum(p.n)))
  {
    NumFinishes(p.n, ch);
    assert PText(p) == p.pre + TextOf(VNum(p.n));
  }

  lemma {:induction false} FollowNum(p: Partial, ch: char) returns (a: After)
    requires PWf(p) && p.PNum?
    ensures Follows(p, ch, a)
  {
    var n, o := p.n, Step(NumState(p.n), ch).1;
    if o == Again {
      NumEnds(p, ch);
      a := Over(p.pre, VNum(n));
    } else if o != Consumed {
      a := Going(p);
    } else if IsDigit(ch) {
      NumDigit(p, ch);
      a := Going(PNum(p.pre, MoreDigits(n, ch)));
    } else if ch == '.' {
      PointText(n);
      Assoc(p.pre, NumText(n), [ch]);
      a := Going(PNum(p.pre, n.(frac := Some(""))));
    } else {
      a := Going(PMark(p.pre, n, ch));
      Assoc(p.pre, NumText(n), [ch]);
    }
  }

  lemma {:induction false} LeadExpo(n: Numeral, mark: char, ch: char)
    requires WfNum(n) && n.expo.None? && WfExpo(Expo(mark, ch, ""))
    ensures var n' := n.(expo := Some(Expo(mark, ch, "")));
            && WfNum(n') && Mantissa(n') == Mantissa(n)
            && ExpoValue(n'.expo.value) == (if IsDigit(ch) then DigitOf(ch) else 0)
            && NumText(n') == NumText(n) + [mark] + [ch]
  {
    if IsDigit(ch) {
      DigitsSnoc([], ch);
      assert [] + [ch] == [ch] + "";
    }
  }

  lemma {:induction false} FollowMark(p: Partial, ch: char) returns (a: After)
    requires PWf(p) && p.PMark?
    ensures Follows(p, ch, a)
  {
    if Step(PState(p), ch).1 != Consumed {
      a := Going(p);
    } else {
      LeadExpo(p.n, p.mark, ch);
      a := Going(PNum(p.pre, p.n.(expo := Some(Expo(p.mark, ch, "")))));
      Assoc(p.pre, NumText(p.n) + [p.mark], [ch]);
    }
  }

  lemma {:induction false} StrSnocText(s: seq<StrItem>, i: StrItem)
    ensures StrText(s + [i]) == StrText(s) + ItemText(i)
    decreases |s|
  {
    if s == [] {
      assert s + [i] == [i] && [i][1..] == [];
    } else {
      StrSnocText(s[1..], i);
      assert (s + [i])[0] == s[0] && (s + [i])[1..] == s[1..] + [i];
      Assoc(ItemText(s[0]), StrText(s[1..]), ItemText(i));
    }
  }

  lemma {:induction false} StrSnocMeaning(s: seq<StrItem>, i: StrItem)
    requires WfStr(s) && WfItem(i)
    ensures WfStr(s + [i])
    ensures StrMeaning(s + [i]) == StrMeaning(s) + ItemMeaning(i)
    decreases |s|
  {
    if s == [] {
      assert s + [i] == [i] && [i][1..] == [];
    } else {
      StrSnocMeaning(s[1..], i);
      assert (s + [i])[0] == s[0] && (s + [i])[1..] == s[1..] + [i];
      Assoc(ItemMeaning(s[0]), StrMeaning(s[1..]), ItemMeaning(i));
    }
  }

  /** The fourth digit of a `\u` escape ends it. */
  lemma {:induction false} HexEnds(esc: string, ch: char, text: string)
    requires WfEsc(esc) && |esc| == 5 && IsHex(ch)
    ensures var i := Hex(esc[1], esc[2..] + [ch]);
            && WfItem(i) && ItemText(i) == esc + [ch]
            && StepString(StringState(true, esc[1..], text), ch) == (Plain(text + ItemMeaning(i)), More)
  {
    assert esc[1..][1..] == esc[2..];
    assert forall k :: 0 <= k < 3 ==> esc[2..][k] == esc[1..][k + 1];
    assert ['\\', esc[1]] + (esc[2..] + [ch]) == esc + [ch];
  }

  /** A character inside a string extends its items or the escape being read. */
  lemma {:induction false} FollowStr(chars: seq<StrItem>, esc: string, ch: char)
    returns (chars': seq<StrItem>, esc': string)
    requires WfStr(chars) && WfEsc(esc) && StepString(EscState(chars, esc), ch).1 == More
    ensures WfStr(chars') && WfEsc(esc') && EscState(chars', esc') == StepString(EscState(chars, esc), ch).0
    ensures StrText(chars') + esc' == StrText(chars) + esc + [ch]
  {
    chars', esc' := chars, "";
    var item := Raw(ch);
    if (esc == "" && ch == '\\') || (|esc| == 1 && !IsEscape(ch)) || 2 <= |esc| < 5 {
      esc' := esc + [ch];
      if esc != "" { assert esc'[1..] == esc[1..] + [ch]; }
      Assoc(StrText(chars), esc, [ch]);
      return;
    } else if |esc| == 1 {
      item := Esc(ch);
      assert esc + [ch] == ['\\', ch];
    } else if |esc| == 5 {
      item := Hex(esc[1], esc[2..] + [ch]);
      HexEnds(esc, ch, StrMeaning(chars));
    }
    StrSnocText(chars, item);
    StrSnocMeaning(chars, item);
    chars' := chars + [item];
    Assoc(StrText(chars), esc, [ch]);
    assert StrText(chars') + "" == StrText(chars');
  }

  lemma {:induction false} StrStep(s: StringState, ch: char)
    requires StepString(s, ch).1 == More
    ensures Step(StrAt(s), ch) == (StrAt(StepString(s, ch).0), Consumed)
  {
  }

  lemma {:induction false} StringLands(p: Partial, ch: char, chars: seq<StrItem>, esc: string)
    requires PWf(p) && p.PStr? && WfStr(chars) && WfEsc(esc)
    requires StrText(chars) + esc == StrText(p.chars) + p.esc + [ch]
    ensures Lands(p, ch, StrAt(EscState(chars, esc)), Consumed, Going(PStr(p.pre, chars, esc)))
  {
    Grow(p.pre, "\"", StrText(p.chars) + p.esc, ch);
  }

  lemma {:induction false} StringMore(p: Partial, ch: char) returns (a: After)
    requires PWf(p) && p.PStr? && StepString(EscState(p.chars, p.esc), ch).1 == More
    ensures Follows(p, ch, a)
  {
    var chars, esc := FollowStr(p.chars, p.esc, ch);
    StringLands(p, ch, chars, esc);
    StrStep(EscState(p.chars, p.esc), ch);
    a := Going(PStr(p.pre, chars, esc));
  }

  lemma {:induction false} StringEnds(p: Partial, ch: char)
    requires PWf(p) && p.PStr? && StepString(EscState(p.chars, p.esc), ch).1 == Closed
    ensures Follows(p, ch, Over(p.pre, VStr(p.chars)))
  {
    assert StrText(p.chars) + "" == StrText(p.chars);
    Grow(p.pre, "\"", StrText(p.chars), ch);
  }

  lemma {:induction false} FollowString(p: Partial, ch: char) returns (a: After)
    requires PWf(p) && p.PStr?
    ensures Follows(p, ch, a)
  {
    var o := StepString(EscState(p.chars, p.esc), ch).1;
    if o == More {
      a := StringMore(p, ch);
    } else if o == Closed {
      StringEnds(p, ch);
      a := Over(p.pre, VStr(p.chars));
    } else {
      a := Going(p);
    }
  }

  // ---------------------------------------------------------------- arrays

  lemma {:induction false} ItemsSnocWf(items: seq<Item>, last: Item)
    requires WfItems(items) && WfOneItem(last)
    ensures WfItems(items + [last])
    ensures forall from: nat :: ItemEdges(items + [last], from)
                                == ItemEdges(items, from) + [Edge(Index(from + |items|), Build(last.value))]
    decreases |items|
  {
    if items == [] {
      assert items + [last] == [last] && [last][1..] == [];
    } else {
      ItemsSnocWf(items[1..], last);
      assert (items + [last])[0] == items[0] && (items + [last])[1..] == items[1..] + [last];
    }
  }

  lemma {:induction false} ItemsSnocText(items: seq<Item>, last: Item)
    ensures ItemsText(items + [last]) == ItemsLead(items) + OneItem(last)
    ensures ItemsLead(items + [last]) == ItemsLead(items) + (OneItem(last) + ",")
    decreases |items|
  {
    if items == [] {
      assert items + [last] == [last] && [last][1..] == [];
      assert ItemsLead([]) == "" && "," + "" == ",";
    } else {
      var rest := items[1..];
      ItemsSnocText(rest, last);
      assert (items + [last])[0] == items[0] && (items + [last])[1..] == rest + [last];
      Regroup(OneItem(items[0]), ItemsLead(rest), OneItem(last));
      Regroup(OneItem(items[0]), ItemsLead(rest), OneItem(last) + ",");
    }
  }

  lemma Regroup(a: string, b: string, c: string)
    ensures a + ("," + b) + c == a + ("," + (b + c))
  {
    Assoc(a, "," + b, c);
    Assoc(",", b, c);
  }

  lemma {:induction false} ItemEdgesLength(items: seq<Item>, from: nat)
    requires WfItems(items)
    ensures |ItemEdges(items, from)| == |items|
    decreases |items|
  {
    if items != [] { ItemEdgesLength(items[1..], from + 1); }
  }

  lemma {:induction false} FollowOpen(p: Partial, ch: char) returns (a: After)
    requires PWf(p) && p.POpen?
    ensures Follows(p, ch, a)
  {
    if ch == ']' {
      a := Over(p.pre, VArr([]));
      assert TextOf(VArr([])) == "[" + ("" + "]") == "[" + [ch];
    } else {
      var b := FollowAny("", ch);
      a := Going(PItem(p.pre, [], b.p));
      assert NewArrChild(PState(p)) == InArr([], FRESH);
      ArrStep([], FRESH, ch);
      assert PText(PAny("")) == "";
      Assoc(p.pre, "[", [ch]);
      assert Step(PState(p), ch).1 == Consumed ==> PBody(a.p) == "[" + ("" + [ch]) == "[" + [ch];
    }
  }

  lemma {:induction false} EndArray(p: Partial)
    requires PWf(p) && p.PItemEnd?
    ensures Follows(p, ']', Over(p.pre, VArr(p.items + [p.last])))
  {
    ItemsSnocWf(p.items, p.last);
    ItemEdgesLength(p.items, 0);
    ItemsSnocText(p.items, p.last);
    Grow(p.pre, "[", ItemsLead(p.items) + OneItem(p.last), ']');
  }

  lemma {:induction false} CommaArrayText(p: Partial)
    requires p.PItemEnd?
    ensures PText(PItem(p.pre, p.items + [p.last], PAny(""))) == PText(p) + [',']
  {
    ItemsSnocText(p.items, p.last);
    Grow3(p.pre, "[", ItemsLead(p.items), OneItem(p.last), ',');
    var lead := ItemsLead(p.items + [p.last]);
    assert PBody(PAny("")) == "";
    assert lead + ("" + "") == lead;
  }

  lemma {:induction false} ArrayComma(kids: seq<Edge>, t: Tree)
    ensures Step(InArr(kids, Done(t)), ',') == (InArr(kids + [Edge(Index(|kids|), t)], FRESH), Consumed)
  {
  }

  lemma {:induction false} CommaArrayLands(p: Partial)
    requires PWf(p) && p.PItemEnd?
    ensures var kids := ItemEdges(p.items, 0) + [Edge(Index(|p.items|), Build(p.last.value))];
            Lands(p, ',', InArr(kids, FRESH), Consumed, Going(PItem(p.pre, p.items + [p.last], PAny(""))))
  {
    ItemsSnocWf(p.items, p.last);
    CommaArrayText(p);
    assert PWf(PAny("")) && PState(PAny("")) == FRESH;
  }

  lemma {:induction false} CommaArray(p: Partial)
    requires PWf(p) && p.PItemEnd?
    ensures Follows(p, ',', Going(PItem(p.pre, p.items + [p.last], PAny(""))))
  {
    ItemEdgesLength(p.items, 0);
    CommaArrayLands(p);
    ArrayComma(ItemEdges(p.items, 0), Build(p.last.value));
  }

  lemma {:induction false} BlankArray(p: Partial, ch: char)
    requires PWf(p) && p.PItemEnd? && IsBlank(ch)
    ensures Follows(p, ch, Going(PItemEnd(p.pre, p.items, p.last.(post := p.last.post + [ch]))))
  {
    Grow3(p.pre, "[", ItemsLead(p.items), OneItem(p.last), ch);
    Assoc(p.last.pre + TextOf(p.last.value), p.last.post, [ch]);
  }

  lemma {:induction false} FollowItemEnd(p: Partial, ch: char) returns (a: After)
    requires PWf(p) && p.PItemEnd?
    ensures Follows(p, ch, a)
  {
    if ch == ']' {
      EndArray(p);
      a := Over(p.pre, VArr(p.items + [p.last]));
    } else if ch == ',' {
      CommaArray(p);
      a := Going(PItem(p.pre, p.items + [p.last], PAny("")));
    } else if IsBlank(ch) {
      BlankArray(p, ch);
      a := Going(PItemEnd(p.pre, p.items, p.last.(post := p.last.post + [ch])));
    } else {
      a := Going(p);
    }
  }

  lemma {:induction false} ItemLands(p: Partial, ch: char, m: Impl, o: Outcome, b: After) returns (a: After)
    requires PWf(p) && p.PItem? && Lands(p.child, ch, m, o, b)
    ensures Lands(p, ch, InArr(ItemEdges(p.items, 0), m), o, a)
  {
    Grow3(p.pre, "[", ItemsLead(p.items), PText(p.child), ch);
    match b
    case Going(c) =>
      a := Going(PItem(p.pre, p.items, c));
    case Over(pre, v) =>
      a := Going(PItemEnd(p.pre, p.items, Item(pre, v, "")));
      assert OneItem(Item(pre, v, "")) == pre + TextOf(v);
  }

  lemma {:induction false} ItemOf(p: Partial, ch: char, b: After) returns (a: After)
    requires PWf(p) && p.PItem? && Follows(p.child, ch, b)
    ensures Follows(p, ch, a)
  {
    ArrStep(ItemEdges(p.items, 0), PState(p.child), ch);
    var (m, o) := Step(PState(p.child), ch);
    a := ItemLands(p, ch, m, o, b);
  }

  // ---------------------------------------------------------------- objects

  lemma {:induction false} MembersSnocWf(members: seq<Member>, last: Member)
    requires WfMembers(members) && WfOneMember(last)
    ensures WfMembers(members + [last])
    ensures MemberEdges(members + [last])
            == MemberEdges(members) + [Edge(Name(StrMeaning(last.name)), Build(last.value))]
    decreases |members|
  {
    if members == [] {
      assert members + [last] == [last] && [last][1..] == [];
    } else {
      MembersSnocWf(members[1..], last);
      assert (members + [last])[0] == members[0] && (members + [last])[1..] == members[1..] + [last];
    }
  }

  lemma {:induction false} MembersSnocText(members: seq<Member>, last: Member)
    ensures MembersText(members + [last]) == MembersLead(members) + OneMember(last)
    ensures MembersLead(members + [last]) == MembersLead(members) + (OneMember(last) + ",")
    decreases |members|
  {
    if members == [] {
      assert members + [last] == [last] && [last][1..] == [];
      assert MembersLead([]) == "" && "," + "" == ",";
    } else {
      var rest := members[1..];
      MembersSnocText(rest, last);
      assert (members + [last])[0] == members[0] && (members + [last])[1..] == rest + [last];
      Regroup(OneMember(members[0]), MembersLead(rest), OneMember(last));
      Regroup(OneMember(members[0]), MembersLead(rest), OneMember(last) + ",");
    }
  }

  function NameAt(kids: seq<Edge>, first: bool): Impl { Impl(Tree(NoData, kids), true, Obj(None, None, first)) }

  lemma {:induction false} NameIdle(kids: seq<Edge>, first: bool, ch: char)
    requires ch != '"' && !(first && ch == '}')
    ensures Step(NameAt(kids, first), ch) == (NameAt(kids, first), if IsBlank(ch) then Consumed else SyntaxError)
  {
  }

  lemma {:induction false} NameEnds(p: Partial)
    requires PWf(p) && p.PName? && p.members == []
    ensures Follows(p, '}', Over(p.pre, VEmptyObj(p.blank)))
  {
    Grow3(p.pre, "{", MembersLead(p.members), p.blank, '}');
    assert MembersLead([]) + (p.blank + "}") == p.blank + "}";
  }

  lemma {:induction false} NameQuote(p: Partial)
    requires PWf(p) && p.PName?
    ensures Follows(p, '"', Going(PKey(p.pre, p.members, p.blank, [], "")))
  {
    Grow3(p.pre, "{", MembersLead(p.members), p.blank, '"');
    assert StrText([]) + "" == "" && "\"" + "" == "\"";
  }

  lemma {:induction false} NameBlank(p: Partial, ch: char)
    requires PWf(p) && p.PName? && IsBlank(ch)
    ensures Lands(p, ch, PState(p), Consumed, Going(PName(p.pre, p.members, p.blank + [ch])))
  {
    Grow3(p.pre, "{", MembersLead(p.members), p.blank, ch);
  }

  lemma {:induction false} FollowName(p: Partial, ch: char) returns (a: After)
    requires PWf(p) && p.PName?
    ensures Follows(p, ch, a)
  {
    if ch == '}' && p.members == [] {
      NameEnds(p);
      a := Over(p.pre, VEmptyObj(p.blank));
    } else if ch == '"' {
      NameQuote(p);
      a := Going(PKey(p.pre, p.members, p.blank, [], ""));
    } else {
      NameIdle(MemberEdges(p.members), p.members == [], ch);
      a := Going(PName(p.pre, p.members, p.blank + [ch]));
      if IsBlank(ch) { NameBlank(p, ch); }
    }
  }

  lemma GrowKey(p: string, m: string, b: string, text: string, ch: char)
    ensures p + ("{" + (m + (b + ("\"" + text)))) + [ch] == p + ("{" + (m + (b + ("\"" + (text + [ch])))))
  {
    Grow3(p, "{", m, b + ("\"" + text), ch);
    Grow(b, "\"", text, ch);
  }

  lemma {:induction false} CloseKeyText(p: Partial)
    requires p.PKey? && p.esc == ""
    ensures PText(PColon(p.pre, p.members, p.blank, p.name, "")) == PText(p) + ['"']
  {
    GrowKey(p.pre, MembersLead(p.members), p.blank, StrText(p.name) + p.esc, '"');
    assert StrText(p.name) + p.esc == StrText(p.name) && "\"" + "" == "\"";
  }

  lemma {:induction false} KeyCloses(kids: seq<Edge>, s: StringState, ch: char)
    requires StepString(s, ch).1 == Closed
    ensures ch == '"' && Step(KeyAt(kids, Key(true, s)), ch) == (KeyAt(kids, Key(false, s)), Consumed)
  {
  }

  lemma {:induction false} CloseKey(p: Partial)
    requires PWf(p) && p.PKey? && p.esc == ""
    ensures Follows(p, '"', Going(PColon(p.pre, p.members, p.blank, p.name, "")))
  {
    CloseKeyText(p);
    var kids, s := MemberEdges(p.members), EscState(p.name, p.esc);
    KeyCloses(kids, s, '"');
    assert PState(p) == KeyAt(kids, Key(true, s));
    assert PState(PColon(p.pre, p.members, p.blank, p.name, "")) == KeyAt(kids, Key(false, s));
  }

  lemma {:induction false} MoreKeyText(p: Partial, ch: char, name: seq<StrItem>, esc: string)
    requires p.PKey? && StrText(name) + esc == StrText(p.name) + p.esc + [ch]
    ensures PText(PKey(p.pre, p.members, p.blank, name, esc)) == PText(p) + [ch]
  {
    GrowKey(p.pre, MembersLead(p.members), p.blank, StrText(p.name) + p.esc, ch);
  }

  lemma {:induction false} KeyStep(kids: seq<Edge>, s: StringState, ch: char)
    requires StepString(s, ch).1 == More
    ensures Step(KeyAt(kids, Key(true, s)), ch) == (KeyAt(kids, Key(true, StepString(s, ch).0)), Consumed)
  {
  }

  lemma {:induction false} KeyLands(p: Partial, ch: char, name: seq<StrItem>, esc: string)
    requires PWf(p) && p.PKey? && WfStr(name) && WfEsc(esc)
    requires StrText(name) + esc == StrText(p.name) + p.esc + [ch]
    ensures Lands(p, ch, KeyAt(MemberEdges(p.members), Key(true, EscState(name, esc))), Consumed,
                  Going(PKey(p.pre, p.members, p.blank, name, esc)))
  {
    MoreKeyText(p, ch, name, esc);
  }

  lemma {:induction false} MoreKey(p: Partial, ch: char) returns (a: After)
    requires PWf(p) && p.PKey? && StepString(EscState(p.name, p.esc), ch).1 == More
    ensures Follows(p, ch, a)
  {
    var name, esc := FollowStr(p.name, p.esc, ch);
    KeyLands(p, ch, name, esc);
    KeyStep(MemberEdges(p.members), EscState(p.name, p.esc), ch);
    a := Going(PKey(p.pre, p.members, p.blank, name, esc));
  }

  lemma {:induction false} KeyFails(kids: seq<Edge>, s: StringState, ch: char)
    requires StepString(s, ch).1 == Bad
    ensures Step(KeyAt(kids, Key(true, s)), ch).1 == SyntaxError
  {
  }

  lemma {:induction false} FollowKey(p: Partial, ch: char) returns (a: After)
    requires PWf(p) && p.PKey?
    ensures Follows(p, ch, a)
  {
    var s := EscState(p.name, p.esc);
    var o := StepString(s, ch).1;
    if o == More {
      a := MoreKey(p, ch);
    } else if o == Closed {
      CloseKey(p);
      a := Going(PColon(p.pre, p.members, p.blank, p.name, ""));
    } else {
      KeyFails(MemberEdges(p.members), s, ch);
      a := Going(p);
    }
  }

  lemma {:induction false} ColonText(p: Partial, ch: char)
    requires p.PColon?
    ensures PText(p) + [ch]
            == p.pre + ("{" + (MembersLead(p.members)
                               + (p.blank + ("\"" + (StrText(p.name) + ("\"" + (p.mid + [ch])))))))
  {
    GrowKey(p.pre, MembersLead(p.members), p.blank, StrText(p.name) + ("\"" + p.mid), ch);
    Assoc(StrText(p.name), "\"" + p.mid, [ch]);
    Assoc("\"", p.mid, [ch]);
  }

  lemma {:induction false} KeyColon(kids: seq<Edge>, name: string)
    ensures Step(KeyAt(kids, Key(false, Plain(name))), ':') == (InObj(kids, name, FRESH), Consumed)
  {
  }

  lemma {:induction false} ColonLands(p: Partial)
    requires PWf(p) && p.PColon?
    ensures Lands(p, ':', InObj(MemberEdges(p.members), StrMeaning(p.name), FRESH), Consumed,
                  Going(PMember(p.pre, p.members, p.blank, p.name, p.mid, PAny(""))))
  {
    ColonText(p, ':');
    var key := KeyText(p.blank, p.name, p.mid);
    assert PBody(PAny("")) == "" && PWf(PAny("")) && PState(PAny("")) == FRESH;
    assert key + ("" + "") == key;
  }

  lemma {:induction false} KeyIdle(kids: seq<Edge>, s: StringState, ch: char)
    requires ch != ':'
    ensures Step(KeyAt(kids, Key(false, s)), ch)
            == (KeyAt(kids, Key(false, s)), if IsBlank(ch) then Consumed else SyntaxError)
  {
  }

  lemma {:induction false} ColonBlank(p: Partial, ch: char)
    requires PWf(p) && p.PColon? && IsBlank(ch)
    ensures Lands(p, ch, PState(p), Consumed, Going(PColon(p.pre, p.members, p.blank, p.name, p.mid + [ch])))
  {
    ColonText(p, ch);
  }

  lemma {:induction false} FollowColon(p: Partial, ch: char) returns (a: After)
    requires PWf(p) && p.PColon?
    ensures Follows(p, ch, a)
  {
    if ch == ':' {
      ColonLands(p);
      KeyColon(MemberEdges(p.members), StrMeaning(p.name));
      a := Going(PMember(p.pre, p.members, p.blank, p.name, p.mid, PAny("")));
    } else {
      KeyIdle(MemberEdges(p.members), Plain(StrMeaning(p.name)), ch);
      a := Going(PColon(p.pre, p.members, p.blank, p.name, p.mid + [ch]));
      if IsBlank(ch) { ColonBlank(p, ch); }
    }
  }

  lemma {:induction false} EndObjectText(p: Partial)
    requires p.PMemberEnd?
    ensures p.pre + TextOf(VObj(p.members + [p.latest])) == PText(p) + ['}']
  {
    MembersSnocText(p.members, p.latest);
    Grow(p.pre, "{", MembersLead(p.members) + OneMember(p.latest), '}');
  }

  lemma {:induction false} EndObject(p: Partial)
    requires PWf(p) && p.PMemberEnd?
    ensures Follows(p, '}', Over(p.pre, VObj(p.members + [p.latest])))
  {
    MembersSnocWf(p.members, p.latest);
    EndObjectText(p);
  }

  lemma {:induction false} CommaObjectText(p: Partial)
    requires p.PMemberEnd?
    ensures PText(PName(p.pre, p.members + [p.latest], "")) == PText(p) + [',']
  {
    MembersSnocText(p.members, p.latest);
    Grow3(p.pre, "{", MembersLead(p.members), OneMember(p.latest), ',');
    var lead := MembersLead(p.members + [p.latest]);
    assert lead + "" == lead;
  }

  lemma {:induction false} CommaStep(kids: seq<Edge>, name: string, t: Tree)
    ensures Step(InObj(kids, name, Done(t)), ',')
            == (Impl(Tree(NoData, kids + [Edge(Name(name), t)]), true, Obj(None, None, false)), Consumed)
  {
  }

  lemma {:induction false} CommaObject(p: Partial)
    requires PWf(p) && p.PMemberEnd?
    ensures Follows(p, ',', Going(PName(p.pre, p.members + [p.latest], "")))
  {
    MembersSnocWf(p.members, p.latest);
    CommaObjectText(p);
    CommaStep(MemberEdges(p.members), StrMeaning(p.latest.name), Build(p.latest.value));
  }

  lemma {:induction false} BlankObject(p: Partial, ch: char)
    requires PWf(p) && p.PMemberEnd? && IsBlank(ch)
    ensures Follows(p, ch, Going(PMemberEnd(p.pre, p.members, p.latest.(post := p.latest.post + [ch]))))
  {
    var m := p.latest;
    Grow3(p.pre, "{", MembersLead(p.members), OneMember(m), ch);
    Assoc(KeyText(m.pre, m.name, m.mid) + (m.gap + TextOf(m.value)), m.post, [ch]);
  }

  lemma {:induction false} FollowMemberEnd(p: Partial, ch: char) returns (a: After)
    requires PWf(p) && p.PMemberEnd?
    ensures Follows(p, ch, a)
  {
    if ch == '}' {
      EndObject(p);
      a := Over(p.pre, VObj(p.members + [p.latest]));
    } else if ch == ',' {
      CommaObject(p);
      a := Going(PName(p.pre, p.members + [p.latest], ""));
    } else if IsBlank(ch) {
      BlankObject(p, ch);
      a := Going(PMemberEnd(p.pre, p.members, p.latest.(post := p.latest.post + [ch])));
    } else {
      a := Going(p);
    }
  }

  lemma {:induction false} MemberText(p: Partial, s: string, ch: char)
    requires p.PMember? && s == PText(p.child) + [ch]
    ensures PText(p) + [ch] == p.pre + ("{" + (MembersLead(p.members) + (KeyText(p.blank, p.name, p.mid) + s)))
  {
    var key := KeyText(p.blank, p.name, p.mid);
    Grow3(p.pre, "{", MembersLead(p.members), key + PText(p.child), ch);
    Assoc(key, PText(p.child), [ch]);
  }

  lemma {:induction false} MemberLands(p: Partial, ch: char, m: Impl, o: Outcome, b: After) returns (a: After)
    requires PWf(p) && p.PMember? && Lands(p.child, ch, m, o, b)
    ensures Lands(p, ch, InObj(MemberEdges(p.members), StrMeaning(p.name), m), o, a)
  {
    MemberText(p, PText(p.child) + [ch], ch);
    match b
    case Going(c) =>
      a := Going(PMember(p.pre, p.members, p.blank, p.name, p.mid, c));
    case Over(pre, v) =>
      var last := Member(p.blank, p.name, p.mid, pre, v, "");
      assert OneMember(last) == KeyText(p.blank, p.name, p.mid) + (pre + TextOf(v));
      a := Going(PMemberEnd(p.pre, p.members, last));
  }

  lemma {:induction false} MemberOf(p: Partial, ch: char, b: After) returns (a: After)
    requires PWf(p) && p.PMember? && Follows(p.child, ch, b)
    ensures Follows(p, ch, a)
  {
    ObjStep(MemberEdges(p.members), StrMeaning(p.name), PState(p.child), ch);
    var (m, o) := Step(PState(p.child), ch);
    a := MemberLands(p, ch, m, o, b);
  }

  // ---------------------------------------------------------------- whole runs

  /** One dispatch from the state of a partial tree. */
  lemma {:induction false} Follow(p: Partial, ch: char) returns (a: After)
    requires PWf(p)
    ensures Follows(p, ch, a)
    decreases p
  {
    match p
    case PAny(pre) => a := FollowAny(pre, ch);
    case PLit(_, _, _) => a := FollowLit(p, ch);
    case PNum(_, _) => a := FollowNum(p, ch);
    case PMark(_, _, _) => a := FollowMark(p, ch);
    case PStr(_, _, _) => a := FollowString(p, ch);
    case POpen(_) => a := FollowOpen(p, ch);
    case PItem(_, _, child) =>
      var b := Follow(child, ch);
      a := ItemOf(p, ch, b);
    case PItemEnd(_, _, _) => a := FollowItemEnd(p, ch);
    case PName(_, _, _) => a := FollowName(p, ch);
    case PKey(_, _, _, _, _) => a := FollowKey(p, ch);
    case PColon(_, _, _, _, _) => a := FollowColon(p, ch);
    case PMember(_, _, _, _, _, child) =>
      var b := Follow(child, ch);
      a := MemberOf(p, ch, b);
    case PMemberEnd(_, _, _) => a := FollowMemberEnd(p, ch);
  }

  /** `a` is where `s` leads from a fresh parser. */
  ghost predicate Reached(s: string, m: Impl, a: After) {
    match a
    case Going(p) => PWf(p) && PState(p) == m && PText(p) == s
    case Over(pre, v) =>
      && Skips(pre) && Wf(v) && m == Done(Build(v))
      && if SelfDelimiting(v) then s == pre + TextOf(v)
         else s != [] && s[..|s| - 1] == pre + TextOf(v) && Terminates(v, s[|s| - 1])
  }

  /** The at most two dispatches of one character. */
  lemma {:induction false} FollowDispatch(p: Partial, ch: char) returns (a: After)
    requires PWf(p) && (Dispatch(PState(p), ch).1 == Consumed || Dispatch(PState(p), ch).1 == Again)
    ensures Reached(PText(p) + [ch], Dispatch(PState(p), ch).0, a)
  {
    a := Follow(p, ch);
    var s := PText(p) + [ch];
    if Step(PState(p), ch).1 == Again {
      if a.Over? {
        assert s[..|s| - 1] == PText(p);
      } else {
        a := Follow(a.p, ch);
      }
    }
  }

  /** Every run of the parser, of any length, stands at a partial syntax tree or at a finished value. */
  lemma {:induction false} EveryRun(s: string) returns (a: After)
    requires Feed(FRESH, s).outcome == Consumed && Feed(FRESH, s).count == |s|
    ensures Reached(s, Feed(FRESH, s).impl, a)
    decreases |s|
  {
    if s == [] {
      a := Going(PAny(""));
    } else {
      var t, ch := s[..|s| - 1], s[|s| - 1];
      assert s == t + [ch] && [ch][1..] == [];
      FeedConcat(FRESH, t, [ch]);
      a := EveryRun(t);
      a := FollowDispatch(a.p, ch);
    }
  }

  /** `s` completes a fresh parser with its last character and leaves `t`. */
  ghost predicate Completes(s: string, t: Tree) { Feed(FRESH, s) == Fed(Done(t), |s|, Consumed) }

  /** `s` writes out a value that denotes `t`, with the terminator that numbers and literals need. */
  ghost predicate Denotes(s: string, pre: string, v: Value, t: Tree) {
    && Skips(pre) && Wf(v) && Build(v) == t
    && if SelfDelimiting(v) then s == pre + TextOf(v)
       else s != [] && s[..|s| - 1] == pre + TextOf(v) && Terminates(v, s[|s| - 1])
  }

  lemma {:induction false} DenotedCompletes(s: string, pre: string, v: Value, t: Tree)
    requires Denotes(s, pre, v, t)
    ensures Completes(s, t)
  {
    if SelfDelimiting(v) {
      var q := EatPadded(pre, v);
      EatsIsFeed(FRESH, s, q, "");
      assert s + "" == s;
    } else {
      ReadsGrammar(pre, v, s[|s| - 1]);
      assert s == s[..|s| - 1] + [s[|s| - 1]];
    }
  }

  /** The language of the parser is exactly the grammar, and the tree is exactly the one denoted. */
  lemma {:induction false} Language(s: string, t: Tree)
    ensures Completes(s, t) <==> exists pre, v :: Denotes(s, pre, v, t)
  {
    if Completes(s, t) {
      var a := EveryRun(s);
      assert Denotes(s, a.pre, a.v, t);
    }
    if exists pre, v :: Denotes(s, pre, v, t) {
      var pre, v :| Denotes(s, pre, v, t);
      DenotedCompletes(s, pre, v, t);
    }
  }
}
