/**
 Values written compactly and read back, and two of the places where the parser departs from
 RFC 8259: blanks inside an empty array, and integers beyond the range of `long`.
 */
module JsonRoundTrip {
  import opened Common
  import opened JsonModel
  import opened JsonGrammar
  import opened JsonAccepts
  import opened JsonLanguage

  /** A JSON value; strings are sequences of UTF-16 units outside the surrogate range. */
  datatype Json =
    | JNull
    | JBool(b: bool)
    | JLong(n: int)
    | JString(units: seq<nat>)
    | JArray(elems: seq<Json>)
    | JObject(fields: seq<Field>)
  datatype Field = Field(name: seq<nat>, value: Json)

  predicate ValidUnits(u: seq<nat>) {
    forall i :: 0 <= i < |u| ==> u[i] < 0x10000 && !(0xD800 <= u[i] <= 0xDFFF)
  }

  predicate Valid(j: Json)
    decreases j, 1
  {
    match j
    case JLong(n) => -9223372036854775807 <= n <= 9223372036854775807
    case JString(units) => ValidUnits(units)
    case JArray(elems) => forall e <- elems :: Valid(e)
    case JObject(fields) => forall f <- fields :: ValidUnits(f.name) && Valid(f.value)
    case _ => true
  }

  // ---------------------------------------------------------------- what must be built

  function Utf8All(units: seq<nat>): string
    requires ValidUnits(units)
  {
    if units == [] then "" else Utf8(units[0]) + Utf8All(units[1..])
  }

  function TreeOf(j: Json): Tree
    requires Valid(j)
    decreases j, 1
  {
    match j
    case JNull => Tree(Null, [])
    case JBool(b) => Tree(Bool(b), [])
    case JLong(n) => Tree(Long(n), [])
    case JString(units) => Tree(Text(Utf8All(units)), [])
    case JArray(elems) =>
      Tree(NoData, seq(|elems|, i requires 0 <= i < |elems| => Edge(Index(i), TreeOf(elems[i]))))
    case JObject(fields) =>
      Tree(NoData, seq(|fields|, i requires 0 <= i < |fields| => Edge(Name(Utf8All(fields[i].name)), TreeOf(fields[i].value))))
  }

  // ---------------------------------------------------------------- compact rendering

  function Digits(n: nat): (s: string)
    ensures AllDigits(s) && s != "" && DigitsValue(s) == n
  {
    if n < 10 then
      DigitsSnoc([], (n + '0' as int) as char);
      [(n + '0' as int) as char]
    else
      DigitsSnoc(Digits(n / 10), (n % 10 + '0' as int) as char);
      Digits(n / 10) + [(n % 10 + '0' as int) as char]
  }

  function HexDigit(d: nat): (c: char)
    requires d < 16
    ensures IsHex(c) && HexOf(c) == d
  {
    if d < 10 then (d + '0' as int) as char else (d - 10 + 'a' as int) as char
  }

  function Hex4(u: nat): (h: string)
    requires u < 0x10000
    ensures |h| == 4 && forall i :: 0 <= i < |h| ==> IsHex(h[i])
  {
    [HexDigit(u / 4096), HexDigit(u / 256 % 16), HexDigit(u / 16 % 16), HexDigit(u % 16)]
  }

  lemma {:induction false} HexSnoc(h: string, c: char)
    requires IsHex(c) && forall i :: 0 <= i < |h| ==> IsHex(h[i])
    ensures HexValue(h + [c]) == HexValue(h) * 16 + HexOf(c)
  {
    assert (h + [c])[..|h + [c]| - 1] == h;
  }

  lemma Base16(u: nat)
    requires u < 0x10000
    ensures ((u / 4096 * 16 + u / 256 % 16) * 16 + u / 16 % 16) * 16 + u % 16 == u
  {
    assert u / 16 / 16 == u / 256 && u / 256 / 16 == u / 4096;
  }

  lemma {:induction false} Hex4Value(u: nat)
    requires u < 0x10000
    ensures HexValue(Hex4(u)) == u
  {
    HexSum(Hex4(u));
    Base16(u);
  }

  // ---------------------------------------------------------------- escapes, by their tables

  const LOWER_HEX := "0123456789abcdef"
  const UPPER_HEX := "0123456789ABCDEF"

  /** `ch` is a spelling of the digit `d`. */
  predicate Spells(ch: char, d: nat)
    requires d < 16
  {
    ch == LOWER_HEX[d] || ch == UPPER_HEX[d]
  }

  lemma {:induction false} LowerHex(d: nat)
    requires d < 16
    ensures LOWER_HEX[d] as int == if d < 10 then 48 + d else 97 + d - 10
  {
  }

  lemma {:induction false} UpperHex(d: nat)
    requires d < 16
    ensures UPPER_HEX[d] as int == if d < 10 then 48 + d else 65 + d - 10
  {
  }

  /** A hexadecimal digit has the value of its place in the table of either case, and there are no others. */
  lemma {:induction false} HexDigitIff(ch: char, d: nat)
    requires d < 16
    ensures IsHex(ch) && HexOf(ch) == d <==> Spells(ch, d)
  {
    LowerHex(d);
    UpperHex(d);
  }

  lemma {:induction false} Places(a: nat, b: nat, c: nat, d: nat, u: nat)
    requires a < 16 && b < 16 && c < 16 && d < 16
    ensures ((a * 16 + b) * 16 + c) * 16 + d == u
            <==> u < 0x10000 && a == u / 4096 && b == u / 256 % 16 && c == u / 16 % 16 && d == u % 16
  {
    if u < 0x10000 { Base16(u); }
  }

  lemma {:induction false} HexSum(h: string)
    requires |h| == 4 && forall i :: 0 <= i < |h| ==> IsHex(h[i])
    ensures HexValue(h) == ((HexOf(h[0]) * 16 + HexOf(h[1])) * 16 + HexOf(h[2])) * 16 + HexOf(h[3])
  {
    var h1 := [] + [h[0]];
    var h2 := h1 + [h[1]];
    var h3 := h2 + [h[2]];
    HexSnoc([], h[0]);
    HexSnoc(h1, h[1]);
    HexSnoc(h2, h[2]);
    HexSnoc(h3, h[3]);
    assert h == h3 + [h[3]];
  }

  /** Four characters are read as the unit `u` exactly when they spell its digits, in upper case, lower case or both. */
  lemma {:induction false} EscapeIff(h: string, u: nat)
    requires |h| == 4 && u < 0x10000
    ensures WfItem(Hex('u', h)) && HexValue(h) == u
            <==> Spells(h[0], u / 4096) && Spells(h[1], u / 256 % 16) && Spells(h[2], u / 16 % 16) && Spells(h[3], u % 16)
  {
    HexDigitIff(h[0], u / 4096);
    HexDigitIff(h[1], u / 256 % 16);
    HexDigitIff(h[2], u / 16 % 16);
    HexDigitIff(h[3], u % 16);
    if WfItem(Hex('u', h)) {
      HexSum(h);
      Places(HexOf(h[0]), HexOf(h[1]), HexOf(h[2]), HexOf(h[3]), u);
    }
    if forall i :: 0 <= i < 4 ==> IsHex(h[i]) { assert WfItem(Hex('u', h)); }
  }

  /** The characters after a backslash and the codes they stand for. */
  const ESCAPES := "\"\\/bfnrt"
  const ESCAPED: seq<int> := [0x22, 0x5C, 0x2F, 8, 12, 10, 13, 9]

  lemma {:induction false} EscapeTable(ch: char, k: nat)
    requires k < 8
    ensures |ESCAPES| == |ESCAPED| == 8 && (IsEscape(ch) <==> ch in ESCAPES)
    ensures IsEscape(ESCAPES[k]) && EscapeMeaning(ESCAPES[k]) as int == ESCAPED[k]
  {
  }

  // ---------------------------------------------------------------- other characters, by their codes

  /** Sections 2, 6 and 7 of RFC 8259 and, for the last one, the printable characters of ASCII. */
  lemma {:induction false} CharacterCodes(ch: char)
    ensures IsBlank(ch) <==> ch as int == 0x20 || ch as int == 0x09 || ch as int == 0x0A || ch as int == 0x0D
    ensures IsSkip(ch) <==> IsBlank(ch) || ch as int == 0
    ensures IsDigit(ch) <==> 0x30 <= ch as int <= 0x39
    ensures IsDigit(ch) ==> DigitOf(ch) == ch as int - 0x30
    ensures IsExpMark(ch) <==> ch as int == 0x65 || ch as int == 0x45
    ensures IsPrint(ch) <==> 0x20 <= ch as int <= 0x7E
  {
  }

  /** A literal with its letters in either case. */
  predicate EitherCase(word: string, lower: string, upper: string)
    requires |lower| == |upper|
  {
    |word| == |lower| && forall i :: 0 <= i < |word| ==> word[i] == lower[i] || word[i] == upper[i]
  }

  lemma {:induction false} WordIff(l: Literal, word: string, lower: string, upper: string)
    requires lower == Word(l) && |lower| == |upper|
    requires forall i :: 0 <= i < |lower| ==> 'a' <= lower[i] <= 'z' && upper[i] as int == lower[i] as int - 32
    ensures WfWord(l, word) <==> EitherCase(word, lower, upper)
  {
  }

  /** Exactly these spellings of the three literals are read. */
  lemma {:induction false} LiteralCases(word: string)
    ensures WfWord(LNull, word) <==> EitherCase(word, "null", "NULL")
    ensures WfWord(LTrue, word) <==> EitherCase(word, "true", "TRUE")
    ensures WfWord(LFalse, word) <==> EitherCase(word, "false", "FALSE")
  {
    WordIff(LNull, word, "null", "NULL");
    WordIff(LTrue, word, "true", "TRUE");
    WordIff(LFalse, word, "false", "FALSE");
  }

  // ---------------------------------------------------------------- strings

  function RenderUnit(u: nat): StrItem
    requires u < 0x10000
  {
    if u == '"' as int || u == '\\' as int then Esc(u as char)
    else if u == 8 then Esc('b')
    else if u == 9 then Esc('t')
    else if u == 10 then Esc('n')
    else if u == 12 then Esc('f')
    else if u == 13 then Esc('r')
    else if ' ' as int <= u <= '~' as int then Raw(u as char)
    else Hex('u', Hex4(u))
  }

  lemma {:induction false} RenderUnitMeaning(u: nat)
    requires u < 0x10000
    ensures WfItem(RenderUnit(u)) && ItemMeaning(RenderUnit(u)) == Utf8(u)
  {
    if RenderUnit(u).Hex? { Hex4Value(u); }
  }

  function RenderUnits(units: seq<nat>): seq<StrItem>
    requires ValidUnits(units)
  {
    if units == [] then [] else [RenderUnit(units[0])] + RenderUnits(units[1..])
  }

  lemma {:induction false} RenderUnitsMeaning(units: seq<nat>)
    requires ValidUnits(units)
    ensures WfStr(RenderUnits(units)) && StrMeaning(RenderUnits(units)) == Utf8All(units)
    decreases |units|
  {
    if units != [] {
      RenderUnitMeaning(units[0]);
      RenderUnitsMeaning(units[1..]);
      assert RenderUnits(units)[1..] == RenderUnits(units[1..]);
    }
  }

  function Integer(n: int): Numeral { Numeral(if n < 0 then "-" else "", Digits(if n < 0 then -n else n), None, None) }

  /** The syntax tree of `j` without a single blank outside its strings. */
  function Render(j: Json): Value
    requires Valid(j)
    decreases j, 1
  {
    match j
    case JNull => VLit(LNull, "null")
    case JBool(b) => if b then VLit(LTrue, "true") else VLit(LFalse, "false")
    case JLong(n) => VNum(Integer(n))
    case JString(units) => VStr(RenderUnits(units))
    case JArray(elems) => VArr(seq(|elems|, i requires 0 <= i < |elems| => Item("", Render(elems[i]), "")))
    case JObject(fields) =>
      if fields == [] then VEmptyObj("")
      else VObj(seq(|fields|, i requires 0 <= i < |fields| =>
                  Member("", RenderUnits(fields[i].name), "", "", Render(fields[i].value), "")))
  }

  lemma {:induction false} ItemsPointwise(items: seq<Item>, from: nat)
    requires forall i :: 0 <= i < |items| ==> WfOneItem(items[i])
    ensures WfItems(items) && |ItemEdges(items, from)| == |items|
    ensures forall i :: 0 <= i < |items| ==>
                          WfOneItem(items[i]) && ItemEdges(items, from)[i] == Edge(Index(from + i), Build(items[i].value))
    decreases |items|
  {
    if items != [] {
      var rest := items[1..];
      ItemsPointwise(rest, from + 1);
      forall i | 0 <= i < |items|
        ensures ItemEdges(items, from)[i] == Edge(Index(from + i), Build(items[i].value))
      {
        if i > 0 { assert rest[i - 1] == items[i]; }
      }
    }
  }

  lemma {:induction false} MembersPointwise(members: seq<Member>)
    requires forall i :: 0 <= i < |members| ==> WfOneMember(members[i])
    ensures WfMembers(members) && |MemberEdges(members)| == |members|
    ensures forall i :: 0 <= i < |members| ==>
                          && WfOneMember(members[i])
                          && MemberEdges(members)[i] == Edge(Name(StrMeaning(members[i].name)), Build(members[i].value))
    decreases |members|
  {
    if members != [] {
      assert forall i :: 0 <= i < |members[1..]| ==> members[1..][i] == members[i + 1];
      MembersPointwise(members[1..]);
    }
  }

  lemma {:induction false} ArrayDenotes(elems: seq<Json>)
    requires Valid(JArray(elems))
    requires forall i :: 0 <= i < |elems| ==> Wf(Render(elems[i])) && Build(Render(elems[i])) == TreeOf(elems[i])
    ensures Wf(Render(JArray(elems))) && Build(Render(JArray(elems))) == TreeOf(JArray(elems))
  {
    var items := Render(JArray(elems)).items;
    assert forall i :: 0 <= i < |items| ==> items[i].value == Render(elems[i]) && WfOneItem(items[i]);
    ItemsPointwise(items, 0);
    assert ItemEdges(items, 0) == TreeOf(JArray(elems)).children;
  }

  lemma {:induction false} ObjectDenotes(fields: seq<Field>)
    requires Valid(JObject(fields)) && fields != []
    requires forall i :: 0 <= i < |fields| ==>
                           Wf(Render(fields[i].value)) && Build(Render(fields[i].value)) == TreeOf(fields[i].value)
    ensures Wf(Render(JObject(fields))) && Build(Render(JObject(fields))) == TreeOf(JObject(fields))
  {
    var members := Render(JObject(fields)).members;
    forall i | 0 <= i < |members|
      ensures WfOneMember(members[i]) && members[i].value == Render(fields[i].value)
      ensures StrMeaning(members[i].name) == Utf8All(fields[i].name)
    {
      RenderUnitsMeaning(fields[i].name);
    }
    MembersPointwise(members);
    assert MemberEdges(members) == TreeOf(JObject(fields)).children;
  }

  lemma {:induction false} IntegerDenotes(n: int)
    requires -LONG_MAX <= n <= LONG_MAX
    ensures WfNum(Integer(n)) && NumMeaning(Integer(n)) == Long(n)
  {
    var d := Digits(if n < 0 then -n else n);
    assert d + "" == d;
  }

  /** The rendering is a text of the grammar and denotes the value. */
  lemma {:induction false} RenderDenotes(j: Json)
    requires Valid(j)
    ensures Wf(Render(j)) && Build(Render(j)) == TreeOf(j)
    decreases j
  {
    match j
    case JNull =>
    case JBool(b) =>
    case JLong(n) => IntegerDenotes(n);
    case JString(units) => RenderUnitsMeaning(units);
    case JArray(elems) =>
      forall i | 0 <= i < |elems|
        ensures Wf(Render(elems[i])) && Build(Render(elems[i])) == TreeOf(elems[i])
      {
        RenderDenotes(elems[i]);
      }
      ArrayDenotes(elems);
    case JObject(fields) =>
      if fields != [] {
        forall i | 0 <= i < |fields|
          ensures Wf(Render(fields[i].value)) && Build(Render(fields[i].value)) == TreeOf(fields[i].value)
        {
          RenderDenotes(fields[i].value);
        }
        ObjectDenotes(fields);
      }
  }

  /** Every value of any depth, written compactly with one blank after it, is read back as exactly that value. */
  lemma {:induction false} RoundTrip(j: Json)
    requires Valid(j)
    ensures var s := TextOf(Render(j));
            && Feed(FRESH, s + " ").impl == Done(TreeOf(j)) && Feed(FRESH, s + " ").outcome == Consumed
            && forall i :: 0 <= i < |s| ==> Feed(FRESH, s[..i]).impl.inProgress
  {
    RenderDenotes(j);
    ReadsGrammar("", Render(j), ' ');
    assert "" + TextOf(Render(j)) == TextOf(Render(j));
  }

  lemma {:induction false} EscapeText(h: string)
    ensures TextOf(VStr([Hex('u', h)])) == "\"\\u" + h + "\""
  {
    var i := Hex('u', h);
    assert [i][1..] == [];
    assert StrText([i]) == ItemText(i) + "" == ['\\', 'u'] + h;
  }

  /** The unit that four digits of either case spell is the unit that is read. */
  lemma {:induction false} EscapeRead(h: string, u: nat)
    requires |h| == 4 && u < 0x10000
    requires Spells(h[0], u / 4096) && Spells(h[1], u / 256 % 16) && Spells(h[2], u / 16 % 16) && Spells(h[3], u % 16)
    ensures Feed(FRESH, "\"\\u" + h + "\" ").impl == Done(Tree(Text(Utf8(u)), []))
  {
    var i := Hex('u', h);
    var v := VStr([i]);
    EscapeIff(h, u);
    assert WfStr([i]) && [i][1..] == [];
    assert StrMeaning([i]) == Utf8(u) + "" == Utf8(u);
    ReadsGrammar("", v, ' ');
    EscapeText(h);
    assert "" + TextOf(v) + [' '] == "\"\\u" + h + "\" ";
  }

  // ---------------------------------------------------------------- departures from RFC 8259

  lemma {:induction false} OpenBlank(ch: char)
    requires IsBlank(ch)
    ensures Dispatch(Impl(EMPTY_TREE, true, Arr(None, 0)), ch) == (InArr([], FRESH), Consumed)
    ensures Dispatch(InArr([], FRESH), ch) == (InArr([], FRESH), Consumed)
  {
    ArrStep([], FRESH, ch);
    assert Step(FRESH, ch) == (FRESH, Consumed);
    FirstStep(ch);
  }

  lemma {:induction false} OpenBlanks(w: string)
    requires Blanks(w) && w != ""
    ensures Eats(Impl(EMPTY_TREE, true, Arr(None, 0)), w, InArr([], FRESH))
  {
    forall i | 0 <= i < |w|
      ensures Dispatch(InArr([], FRESH), w[i]) == (InArr([], FRESH), Consumed)
    {
      OpenBlank(w[i]);
    }
    OpenBlank(w[0]);
    EatsIdle(InArr([], FRESH), w[1..]);
    EatsCons(Impl(EMPTY_TREE, true, Arr(None, 0)), w, InArr([], FRESH), InArr([], FRESH));
  }

  lemma {:induction false} BlankThenBracket()
    ensures Feed(InArr([], FRESH), "]").outcome == SyntaxError
  {
    ArrStep([], FRESH, ']');
    assert Step(FRESH, ']') == StepAny(FRESH, ']');
    FeedFails(InArr([], FRESH), ']');
  }

  lemma {:induction false} FeedFails(p: Impl, ch: char)
    requires p.inProgress && Step(p, ch).1 == SyntaxError
    ensures Feed(p, [ch]).outcome == SyntaxError
  {
    assert Dispatch(p, ch) == Step(p, ch);
  }

  /** Blanks between the brackets of an empty array are refused, although the RFC allows them. */
  lemma {:induction false} EmptyArrayBlanks(w: string)
    requires Blanks(w)
    ensures Feed(FRESH, "[" + w + "]").outcome == (if w == "" then Consumed else SyntaxError)
  {
    var open := Impl(EMPTY_TREE, true, Arr(None, 0));
    EatsLast(FRESH, '[', open);
    if w == "" {
      EatsLast(open, ']', Done(EMPTY_TREE));
      EatsConcat(FRESH, "[", open, "]", Done(EMPTY_TREE));
      EatsIsFeed(FRESH, "[" + "]", Done(EMPTY_TREE), "");
      assert "[" + w + "]" == "[" + "]" + "";
    } else {
      OpenBlanks(w);
      EatsConcat(FRESH, "[", open, w, InArr([], FRESH));
      EatsIsFeed(FRESH, "[" + w, InArr([], FRESH), "]");
      BlankThenBracket();
    }
  }

  lemma {:induction false} DigitOverflows(d: int, ch: char, sign: Sign, rest: string)
    requires IsDigit(ch) && d * 10 + DigitOf(ch) > LONG_MAX
    ensures Feed(NumAt(Decimal, d, 1, 0, sign), [ch] + rest).outcome == Overflow
  {
    assert ([ch] + rest)[0] == ch;
    assert Step(NumAt(Decimal, d, 1, 0, sign), ch).1 == Overflow;
  }

  lemma {:induction false} DecimalOverflow(s: string, t: string, sign: Sign, rest: string)
    requires AllDigits(s) && AllDigits(t) && DigitsValue(s) <= LONG_MAX < DigitsValue(s + t)
    ensures Feed(NumAt(Decimal, DigitsValue(s), 1, 0, sign), t + rest).outcome == Overflow
    decreases |t|
  {
    assert s + [] == s;
    var d := DigitsValue(s);
    var s' := NextDigit(s, t);
    var p, q := NumAt(Decimal, d, 1, 0, sign), NumAt(Decimal, DigitsValue(s'), 1, 0, sign);
    assert t + rest == [t[0]] + (t[1..] + rest);
    if DigitsValue(s') <= LONG_MAX {
      DecimalOverflow(s', t[1..], sign, rest);
      DecimalDigit(d, t[0], sign);
      EatsLast(p, t[0], q);
      EatsIsFeed(p, [t[0]], q, t[1..] + rest);
    } else {
      DigitOverflows(d, t[0], sign, t[1..] + rest);
    }
  }

  lemma {:induction false} FirstFeed(ch: char, p: Impl, rest: string)
    requires Dispatch(FRESH, ch) == (p, Consumed) && Feed(p, rest).outcome == Overflow
    ensures Feed(FRESH, [ch] + rest).outcome == Overflow
  {
    EatsLast(FRESH, ch, p);
    EatsIsFeed(FRESH, [ch], p, rest);
  }

  lemma {:induction false} TooNegative(d: string)
    requires AllDigits(d) && LONG_MAX < DigitsValue(d)
    ensures Feed(FRESH, ['-'] + (d + " ")).outcome == Overflow
  {
    assert "" + d == d;
    DecimalOverflow("", d, Minus, " ");
    FirstFeed('-', NumAt(Decimal, 0, 1, 0, Minus), d + " ");
  }

  lemma {:induction false} FirstDigit(ch: char)
    requires IsDigit(ch)
    ensures DigitsValue([ch]) == DigitOf(ch) <= LONG_MAX
    ensures Dispatch(FRESH, ch) == (NumAt(Decimal, DigitOf(ch), 1, 0, Plus), Consumed)
  {
    OneDigit(ch);
    FreshNumber(ch);
  }

  lemma {:induction false} TooPositive(d: string)
    requires AllDigits(d) && LONG_MAX < DigitsValue(d)
    ensures Feed(FRESH, d + " ").outcome == Overflow
  {
    var ch, rest := d[0], d[1..];
    FirstDigit(ch);
    assert [ch] + rest == d;
    DecimalOverflow([ch], rest, Plus, " ");
    FirstFeed(ch, NumAt(Decimal, DigitOf(ch), 1, 0, Plus), rest + " ");
    assert d + " " == [ch] + (rest + " ");
  }

  lemma {:induction false} TooLarge(n: int)
    requires n < -LONG_MAX || LONG_MAX < n
    ensures Feed(FRESH, NumText(Integer(n)) + " ").outcome == Overflow
  {
    var d := Digits(if n < 0 then -n else n);
    if n < 0 {
      TooNegative(d);
      assert NumText(Integer(n)) + " " == ['-'] + (d + " ");
    } else {
      TooPositive(d);
      assert NumText(Integer(n)) == d;
    }
  }

  /** An integer survives exactly when its magnitude fits `long`; the most negative `long` does not. */
  lemma {:induction false} IntegerRange(n: int)
    ensures var f := Feed(FRESH, NumText(Integer(n)) + " ");
            if -9223372036854775807 <= n <= 9223372036854775807 then f.impl == Done(Tree(Long(n), [])) && f.outcome == Consumed
            else f.outcome == Overflow
  {
    if -LONG_MAX <= n <= LONG_MAX {
      RoundTrip(JLong(n));
    } else {
      TooLarge(n);
    }
  }
}
