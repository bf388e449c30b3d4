/**
 The texts the parser is meant to read, as concrete syntax trees: sections 2 to 7 of RFC 8259 with
 every spelling of blanks, escapes and numbers the parser lets through. `TextOf` writes a syntax
 tree out, `Build` is the tree it denotes; neither mentions the parser.
 */
module JsonGrammar {
  import opened Common
  import opened JsonModel

  datatype StrItem = Raw(c: char) | Esc(e: char) | Hex(u: char, h: string)

  datatype Expo = Expo(mark: char, lead: char, digits: string)
  datatype Numeral = Numeral(sign: string, digits: string, frac: Option<string>, expo: Option<Expo>)

  datatype Value =
    | VLit(l: Literal, word: string)
    | VNum(n: Numeral)
    | VStr(chars: seq<StrItem>)
    | VArr(items: seq<Item>)
    | VBlankArr(blank: string)     // an empty array with blanks between its brackets, which the parser refuses
    | VEmptyObj(blank: string)
    | VObj(members: seq<Member>)
  datatype Item = Item(pre: string, value: Value, post: string)
  datatype Member = Member(pre: string, name: seq<StrItem>, mid: string, gap: string, value: Value, post: string)

  // ---------------------------------------------------------------- writing out

  function ItemText(i: StrItem): string {
    match i
    case Raw(c) => [c]
    case Esc(e) => ['\\', e]
    case Hex(u, h) => ['\\', u] + h
  }

  function StrText(s: seq<StrItem>): string {
    if s == [] then "" else ItemText(s[0]) + StrText(s[1..])
  }

  function ExpoText(e: Option<Expo>): string {
    if e.None? then "" else [e.value.mark, e.value.lead] + e.value.digits
  }

  function FracText(f: Option<string>): string {
    if f.None? then "" else "." + f.value
  }

  function NumText(n: Numeral): string {
    n.sign + n.digits + FracText(n.frac) + ExpoText(n.expo)
  }

  function TextOf(v: Value): string
    decreases v, 1
  {
    match v
    case VLit(_, word) => word
    case VNum(n) => NumText(n)
    case VStr(chars) => "\"" + (StrText(chars) + "\"")
    case VArr(items) => "[" + (ItemsText(items) + "]")
    case VBlankArr(blank) => "[" + (blank + "]")
    case VEmptyObj(blank) => "{" + (blank + "}")
    case VObj(members) => "{" + (MembersText(members) + "}")
  }

  function OneItem(i: Item): string
    decreases i, 0
  {
    i.pre + TextOf(i.value) + i.post
  }

  function ItemsText(items: seq<Item>): string
    decreases items, 0
  {
    if items == [] then ""
    else if |items| == 1 then OneItem(items[0])
    else OneItem(items[0]) + ("," + ItemsText(items[1..]))
  }

  /** A name with its quotes, the blanks around it and the colon. */
  function KeyText(blank: string, name: seq<StrItem>, mid: string): string {
    blank + ("\"" + (StrText(name) + ("\"" + (mid + ":"))))
  }

  function OneMember(m: Member): string
    decreases m, 0
  {
    KeyText(m.pre, m.name, m.mid) + (m.gap + TextOf(m.value)) + m.post
  }

  function MembersText(members: seq<Member>): string
    decreases members, 0
  {
    if members == [] then ""
    else if |members| == 1 then OneMember(members[0])
    else OneMember(members[0]) + ("," + MembersText(members[1..]))
  }

  // ---------------------------------------------------------------- meaning

  function ItemMeaning(i: StrItem): string
    requires WfItem(i)
  {
    match i
    case Raw(c) => [c]
    case Esc(e) => [EscapeMeaning(e)]
    case Hex(_, h) => Unescape(h)
  }

  function StrMeaning(s: seq<StrItem>): string
    requires WfStr(s)
  {
    if s == [] then "" else ItemMeaning(s[0]) + StrMeaning(s[1..])
  }

  /** The number written by decimal digits, most significant first. */
  function DigitsValue(s: string): (n: nat)
    requires AllDigits(s)
  {
    if s == [] then 0 else DigitsValue(s[..|s| - 1]) * 10 + DigitOf(s[|s| - 1])
  }

  function Pow10(n: nat): (p: nat)
    ensures p >= 1
  {
    if n == 0 then 1 else 10 * Pow10(n - 1)
  }

  function SignOf(n: Numeral): Sign { if n.sign == "-" then Minus else Plus }

  function Mantissa(n: Numeral): (m: nat)
    requires WfDigits(n)
  {
    DigitsValue(n.digits + n.frac.GetOr(""))
  }

  function ExpoValue(e: Expo): (n: nat)
    requires WfExpo(e)
  {
    DigitsValue(if IsDigit(e.lead) then [e.lead] + e.digits else e.digits)
  }

  function NumMeaning(n: Numeral): Data
    requires WfNum(n)
  {
    var m := Signed(SignOf(n), Mantissa(n));
    var scale := Pow10(|n.frac.GetOr("")|);
    if n.expo.Some? then
      Float(m, Signed(if n.expo.value.lead == '-' then Minus else Plus, ExpoValue(n.expo.value)), scale)
    else if n.frac.Some? then Fixed(m, scale)
    else Long(m)
  }

  function Build(v: Value): Tree
    requires Wf(v)
    decreases v, 1
  {
    match v
    case VLit(l, _) => Tree(LiteralData(l), [])
    case VNum(n) => Tree(NumMeaning(n), [])
    case VStr(chars) => Tree(Text(StrMeaning(chars)), [])
    case VArr(items) => Tree(NoData, ItemEdges(items, 0))
    case VEmptyObj(_) => EMPTY_TREE
    case VObj(members) => Tree(NoData, MemberEdges(members))
  }

  function ItemEdges(items: seq<Item>, from: nat): seq<Edge>
    requires WfItems(items)
    decreases items, 0
  {
    if items == [] then [] else [Edge(Index(from), Build(items[0].value))] + ItemEdges(items[1..], from + 1)
  }

  function MemberEdges(members: seq<Member>): seq<Edge>
    requires WfMembers(members)
    decreases members, 0
  {
    if members == [] then []
    else [Edge(Name(StrMeaning(members[0].name)), Build(members[0].value))] + MemberEdges(members[1..])
  }

  // ---------------------------------------------------------------- well-formedness

  predicate Blanks(s: string) { forall i :: 0 <= i < |s| ==> IsBlank(s[i]) }

  predicate Skips(s: string) { forall i :: 0 <= i < |s| ==> IsSkip(s[i]) }

  predicate AllDigits(s: string) { forall i :: 0 <= i < |s| ==> IsDigit(s[i]) }

  predicate WfItem(i: StrItem) {
    match i
    case Raw(c) => IsPrint(c) && c != '"' && c != '\\'
    case Esc(e) => IsEscape(e)
    case Hex(u, h) => (u == 'u' || u == 'U') && |h| == 4 && forall i :: 0 <= i < |h| ==> IsHex(h[i])
  }

  predicate WfStr(s: seq<StrItem>) { forall i :: 0 <= i < |s| ==> WfItem(s[i]) }

  predicate WfDigits(n: Numeral) {
    && (n.sign == "" || n.sign == "+" || n.sign == "-")
    && AllDigits(n.digits)
    && (n.sign == "" ==> n.digits != "")
    && (n.frac.Some? ==> AllDigits(n.frac.value))
  }

  predicate WfExpo(e: Expo) {
    IsExpMark(e.mark) && (IsDigit(e.lead) || e.lead == '+' || e.lead == '-') && AllDigits(e.digits)
  }

  /** The numerals the `long` and `int` fields can hold while they are read. */
  predicate WfNum(n: Numeral) {
    && WfDigits(n)
    && DigitsValue(n.digits) <= LONG_MAX
    && (n.frac.GetOr("") != "" ==> Mantissa(n) + '0' as int <= LONG_MAX && Pow10(|n.frac.value|) <= INT_MAX)
    && (n.expo.Some? ==> WfExpo(n.expo.value) && ExpoValue(n.expo.value) <= INT_MAX)
  }

  predicate WfWord(l: Literal, word: string) {
    |word| == |Word(l)| && forall i :: 0 <= i < |word| ==> ToLower(word[i]) == Word(l)[i]
  }

  predicate Wf(v: Value)
    decreases v, 1
  {
    match v
    case VLit(l, word) => WfWord(l, word)
    case VNum(n) => WfNum(n)
    case VStr(chars) => WfStr(chars)
    case VArr(items) => WfItems(items)
    case VBlankArr(_) => false
    case VEmptyObj(blank) => Blanks(blank)
    case VObj(members) => members != [] && WfMembers(members)
  }

  predicate WfItems(items: seq<Item>)
    decreases items, 0
  {
    items != [] ==>
      && Skips(items[0].pre) && Wf(items[0].value) && Blanks(items[0].post)
      && WfItems(items[1..])
  }

  predicate WfMembers(members: seq<Member>)
    decreases members, 0
  {
    members != [] ==>
      var m := members[0];
      && Blanks(m.pre) && WfStr(m.name) && Blanks(m.mid) && Skips(m.gap) && Wf(m.value) && Blanks(m.post)
      && WfMembers(members[1..])
  }
}
