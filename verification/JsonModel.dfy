/**
 The streaming JSON parser: a push-down machine fed one character at a time.

 Every `parser_impl` owns at most one child parser (`data_` of an array, `val_` of an object)
 through a `unique_ptr`, so a whole chain of parsers is one value of type `Impl`. The reference
 that a child keeps into the tree of its parent is modelled by writing the child's tree back
 into the last edge of the parent after each step. `JsonObjects` holds the same chain as objects.
 */
module JsonModel {

  import opened Common

  /** What `Adapt::data` received. Floating-point results are kept as the exact integers they are computed from. */
  datatype Data =
    | NoData
    | Null
    | Bool(b: bool)
    | Long(n: int)
    | Fixed(mantissa: int, scale: int)                // mantissa / scale
    | Float(mantissa: int, power: int, scale: int)    // mantissa * 10^power / scale
    | Text(s: string)

  /** The argument of `Adapt::add_child`: a position in an array or a name in an object. */
  datatype Label = Index(i: nat) | Name(s: string)
  datatype Edge = Edge(tag: Label, tree: Tree)
  datatype Tree = Tree(data: Data, children: seq<Edge>)

  datatype Literal = LNull | LTrue | LFalse
  datatype Sign = Plus | Minus
  datatype NumPhase = Decimal | Fraction | Exp | Exponent

  /** `escape_`, `hex_` and `str_`; `hex` holds the characters read since the backslash. */
  datatype StringState = StringState(escape: bool, hex: string, text: string)
  datatype Key = Key(inProgress: bool, str: StringState)

  /** The variant held by `parser_impl`. */
  datatype Parser =
    | Any
    | Lit(l: Literal, at: nat)
    | Num(phase: NumPhase, decimal: int, fraction: int, exponent: int, sign: Sign)
    | Str(str: StringState)
    | Arr(data: Option<Impl>, index: nat)
    | Obj(key: Option<Key>, val: Option<Impl>, first: bool)

  datatype Impl = Impl(tree: Tree, inProgress: bool, parser: Parser)

  /** `return true`, `return false`, a thrown `syntax_error`, or an undefined signed overflow. */
  datatype Outcome = Consumed | Again | SyntaxError | Overflow

  const LONG_MAX: int := 0x7FFF_FFFF_FFFF_FFFF
  const INT_MAX: int := 0x7FFF_FFFF

  const EMPTY_TREE := Tree(NoData, [])
  const FRESH := Impl(EMPTY_TREE, true, Any)
  const NEW_STRING := StringState(false, "", "")

  // ---------------------------------------------------------------- characters

  predicate IsBlank(ch: char) { ch == ' ' || ch == '\t' || ch == '\r' || ch == '\n' }

  /** `any_parser` also skips NUL. */
  predicate IsSkip(ch: char) { ch == '\0' || IsBlank(ch) }

  predicate IsDigit(ch: char) { '0' <= ch <= '9' }

  function DigitOf(ch: char): (d: int)
    requires IsDigit(ch)
    ensures 0 <= d <= 9
  {
    ch as int - '0' as int
  }

  predicate IsHex(ch: char) { IsDigit(ch) || 'a' <= ch <= 'f' || 'A' <= ch <= 'F' }

  function HexOf(ch: char): (d: int)
    requires IsHex(ch)
    ensures 0 <= d < 16
  {
    if IsDigit(ch) then DigitOf(ch)
    else if 'a' <= ch <= 'f' then ch as int - 'a' as int + 10
    else ch as int - 'A' as int + 10
  }

  /** `std::isprint` in the classic locale. */
  predicate IsPrint(ch: char) { ' ' <= ch <= '~' }

  /** `std::tolower` in the classic locale. */
  function ToLower(ch: char): char { if 'A' <= ch <= 'Z' then (ch as int + 32) as char else ch }

  function Word(l: Literal): string {
    match l
    case LNull => "null"
    case LTrue => "true"
    case LFalse => "false"
  }

  function LiteralData(l: Literal): Data {
    match l
    case LNull => Null
    case LTrue => Bool(true)
    case LFalse => Bool(false)
  }

  predicate IsExpMark(ch: char) { ch == 'e' || ch == 'E' }

  function Signed(s: Sign, n: int): int { if s == Minus then -n else n }

  // ---------------------------------------------------------------- strings

  predicate IsEscape(ch: char) { ch in "\"\\/bfnrt" }

  function EscapeMeaning(ch: char): (c: char)
    requires IsEscape(ch)
  {
    if ch == 'b' then 8 as char
    else if ch == 'f' then 12 as char
    else if ch == 'n' then '\n'
    else if ch == 'r' then '\r'
    else if ch == 't' then '\t'
    else ch
  }

  function HexValue(h: string): (v: nat)
    requires forall i :: 0 <= i < |h| ==> IsHex(h[i])
  {
    if h == [] then 0 else HexValue(h[..|h| - 1]) * 16 + HexOf(h[|h| - 1])
  }

  /** UTF-8 bytes of a lone UTF-16 unit; `unescape` writes nothing for a surrogate. */
  function Utf8(unit: nat): (s: string)
    requires unit < 0x10000
    ensures |s| <= 3
  {
    if unit < 0x80 then [unit as char]
    else if unit < 0x800 then [(0xC0 + unit / 64) as char, (0x80 + unit % 64) as char]
    else if 0xD800 <= unit <= 0xDFFF then []
    else [(0xE0 + unit / 4096) as char, (0x80 + unit / 64 % 64) as char, (0x80 + unit % 64) as char]
  }

  lemma {:induction false} HexValueBound(h: string)
    requires |h| == 4 && forall i :: 0 <= i < |h| ==> IsHex(h[i])
    ensures HexValue(h) < 0x10000
  {
    var a, b, c := h[..3], h[..2], h[..1];
    assert a[..2] == b && b[..1] == c && c[..0] == [];
    assert HexValue(c) == HexValue([]) * 16 + HexOf(c[0]);
    assert HexValue(b) == HexValue(c) * 16 + HexOf(b[1]);
    assert HexValue(a) == HexValue(b) * 16 + HexOf(a[2]);
  }

  function Unescape(h: string): (s: string)
    requires |h| == 4 && forall i :: 0 <= i < |h| ==> IsHex(h[i])
  {
    HexValueBound(h);
    Utf8(HexValue(h))
  }

  datatype StringOutcome = More | Closed | Bad

  predicate HexPrefix(h: string) {
    h == [] || (1 <= |h| <= 4 && (h[0] == 'u' || h[0] == 'U') && forall i :: 1 <= i < |h| ==> IsHex(h[i]))
  }

  /** `string_parser::operator()`. */
  function StepString(s: StringState, ch: char): (r: (StringState, StringOutcome)) {
    if s.escape then
      if s.hex == [] then
        if IsEscape(ch) then (StringState(false, "", s.text + [EscapeMeaning(ch)]), More)
        else if ch == 'u' || ch == 'U' then (s.(hex := [ch]), More)
        else (s, Bad)
      else if IsHex(ch) && |s.hex| < 4 then (s.(hex := s.hex + [ch]), More)
      else if IsHex(ch) && HexPrefix(s.hex) then
        (StringState(false, "", s.text + Unescape(s.hex[1..] + [ch])), More)
      else (s, Bad)
    else if ch == '"' then (s, Closed)
    else if ch == '\\' then (s.(escape := true, hex := ""), More)
    else if IsPrint(ch) then (s.(text := s.text + [ch]), More)
    else (s, Bad)
  }

  // ---------------------------------------------------------------- parser_impl

  function Complete(p: Impl): Impl { p.(inProgress := false, parser := Any) }

  function CompleteWith(p: Impl, d: Data): Impl { Complete(p.(tree := p.tree.(data := d))) }

  /** `new_child`: the tree of `p` gets a new last edge. */
  function AddEdge(p: Impl, tag: Label): Impl {
    p.(tree := p.tree.(children := p.tree.children + [Edge(tag, EMPTY_TREE)]))
  }

  /** The tree of the active child is the tree under the last edge. */
  function WriteBack(p: Impl, t: Tree): Impl {
    var kids := p.tree.children;
    if kids == [] then p
    else p.(tree := p.tree.(children := kids[..|kids| - 1] + [Edge(kids[|kids| - 1].tag, t)]))
  }

  /** `any_parser::operator()` with `new_literal`, `new_string`, `new_array`, `new_object` and `new_number`. */
  function StepAny(p: Impl, ch: char): (r: (Impl, Outcome)) {
    if IsSkip(ch) then (p, Consumed)
    else if ch == 'n' || ch == 'N' then (p.(parser := Lit(LNull, 0)), Consumed)
    else if ch == 't' || ch == 'T' then (p.(parser := Lit(LTrue, 0)), Consumed)
    else if ch == 'f' || ch == 'F' then (p.(parser := Lit(LFalse, 0)), Consumed)
    else if ch == '"' then (p.(parser := Str(NEW_STRING)), Consumed)
    else if ch == '[' then (p.(parser := Arr(None, 0)), Consumed)
    else if ch == '{' then (p.(parser := Obj(None, None, true)), Consumed)
    else if ch == '-' then (p.(parser := Num(Decimal, 0, 1, 0, Minus)), Consumed)
    else if ch == '+' then (p.(parser := Num(Decimal, 0, 1, 0, Plus)), Consumed)
    else if IsDigit(ch) then (p.(parser := Num(Decimal, DigitOf(ch), 1, 0, Plus)), Consumed)
    else (p, SyntaxError)
  }

  /** `literal_parser::operator()`: the end of the word is noticed on the character after it. */
  function StepLit(p: Impl, ch: char): (r: (Impl, Outcome))
    requires p.parser.Lit?
  {
    var Lit(l, at) := p.parser;
    if at + 1 >= |Word(l)| then (CompleteWith(p, LiteralData(l)), Again)
    else
      var p' := p.(parser := Lit(l, at + 1));
      if ToLower(ch) == Word(l)[at + 1] then (p', Consumed) else (p', SyntaxError)
  }

  /** `number_parser::operator()`. */
  function StepNum(p: Impl, ch: char): (r: (Impl, Outcome))
    requires p.parser.Num?
  {
    var Num(phase, decimal, fraction, exponent, sign) := p.parser;
    match phase
    case Decimal =>
      if IsExpMark(ch) then (p.(parser := Num(Exp, Signed(sign, decimal), fraction, exponent, sign)), Consumed)
      else if ch == '.' then (p.(parser := p.parser.(phase := Fraction)), Consumed)
      else if IsDigit(ch) then
        if decimal * 10 + DigitOf(ch) > LONG_MAX then (p, Overflow)
        else (p.(parser := p.parser.(decimal := decimal * 10 + DigitOf(ch))), Consumed)
      else (CompleteWith(p, Long(Signed(sign, decimal))), Again)
    case Fraction =>
      if IsExpMark(ch) then (p.(parser := Num(Exp, Signed(sign, decimal), fraction, exponent, sign)), Consumed)
      else if IsDigit(ch) then
        // decimal_ * 10 + ch - '0' adds the character code before it subtracts '0'
        if decimal * 10 + ch as int > LONG_MAX || fraction * 10 > INT_MAX then (p, Overflow)
        else (p.(parser := p.parser.(decimal := decimal * 10 + DigitOf(ch), fraction := fraction * 10)), Consumed)
      else (CompleteWith(p, Fixed(Signed(sign, decimal), fraction)), Again)
    case Exp =>
      if '1' <= ch <= '9' then
        (p.(parser := p.parser.(phase := Exponent, exponent := DigitOf(ch), sign := Plus)), Consumed)
      else if ch == '+' || ch == '0' then (p.(parser := p.parser.(phase := Exponent, sign := Plus)), Consumed)
      else if ch == '-' then (p.(parser := p.parser.(phase := Exponent, sign := Minus)), Consumed)
      else (p, SyntaxError)
    case Exponent =>
      if IsDigit(ch) then
        if exponent * 10 + DigitOf(ch) > INT_MAX then (p, Overflow)
        else (p.(parser := p.parser.(exponent := exponent * 10 + DigitOf(ch))), Consumed)
      else (CompleteWith(p, Float(decimal, Signed(sign, exponent), fraction)), Again)
  }

  function PutArrChild(p: Impl, c: Impl): Impl
    requires p.parser.Arr?
  {
    WriteBack(p, c.tree).(parser := p.parser.(data := Some(c)))
  }

  function PutObjChild(p: Impl, c: Impl): Impl
    requires p.parser.Obj?
  {
    WriteBack(p, c.tree).(parser := p.parser.(val := Some(c)))
  }

  function NewArrChild(p: Impl): (r: Impl)
    requires p.parser.Arr?
    ensures r.parser.Arr?
  {
    AddEdge(p, Index(p.parser.index)).(parser := Arr(Some(FRESH), p.parser.index + 1))
  }

  /** The part of `array_parser::operator()` that runs while no child is in progress. */
  function StepArr(p: Impl, ch: char): (r: (Impl, Outcome))
    requires p.parser.Arr?
  {
    if ch == ']' then (Complete(p), Consumed)
    else if p.parser.data.None? then
      var q := NewArrChild(p);
      var (c, o) := StepAny(FRESH, ch);
      (PutArrChild(q, c), o)
    else if ch == ',' then (NewArrChild(p), Consumed)
    else if IsBlank(ch) then (p, Consumed)
    else (p, SyntaxError)
  }

  /** `(*key_)(ch, *key_)`: the key is itself a string parser. */
  function StepKey(p: Impl, k: Key, ch: char): (r: (Impl, Outcome))
    requires p.parser.Obj?
  {
    var (s, o) := StepString(k.str, ch);
    (p.(parser := p.parser.(key := Some(Key(o != Closed, s)))), if o == Bad then SyntaxError else Consumed)
  }

  /** The part of `object_parser::operator()` that runs while no value is in progress. */
  function StepObj(p: Impl, ch: char): (r: (Impl, Outcome))
    requires p.parser.Obj?
  {
    var Obj(key, val, first) := p.parser;
    if val.Some? && ch == '}' then (Complete(p), Consumed)
    else if val.Some? && ch == ',' then (p.(parser := Obj(None, None, first)), Consumed)
    else if val.None? && key.None? && first && ch == '}' then (Complete(p), Consumed)
    else if val.None? && key.None? && ch == '"' then
      (p.(parser := Obj(Some(Key(true, NEW_STRING)), None, false)), Consumed)
    else if val.None? && key.Some? && key.value.inProgress then StepKey(p, key.value, ch)
    else if val.None? && key.Some? && ch == ':' then
      (AddEdge(p, Name(key.value.str.text)).(parser := Obj(Some(Key(false, NEW_STRING)), Some(FRESH), first)), Consumed)
    else if IsBlank(ch) then (p, Consumed)
    else (p, SyntaxError)
  }

  /** `parse_1`. */
  function Step(p: Impl, ch: char): (r: (Impl, Outcome))
    decreases p
  {
    match p.parser
    case Any => StepAny(p, ch)
    case Lit(_, _) => StepLit(p, ch)
    case Num(_, _, _, _, _) => StepNum(p, ch)
    case Str(s) =>
      var (s', o) := StepString(s, ch);
      if o == Closed then (CompleteWith(p, Text(s'.text)), Consumed)
      else (p.(parser := Str(s')), if o == Bad then SyntaxError else Consumed)
    case Arr(data, _) =>
      if data.Some? && data.value.inProgress then
        var (c, o) := Step(data.value, ch);
        (PutArrChild(p, c), o)
      else StepArr(p, ch)
    case Obj(_, val, _) =>
      if val.Some? && val.value.inProgress then
        var (c, o) := Step(val.value, ch);
        (PutObjChild(p, c), o)
      else StepObj(p, ch)
  }

  /** No character is handed back twice: the second dispatch of a character never asks for a third. */
  lemma {:induction false} AtMostTwoDispatches(p: Impl, ch: char)
    requires Step(p, ch).1 == Again && Step(p, ch).0.inProgress
    ensures Step(Step(p, ch).0, ch).1 != Again
    decreases p
  {
    match p.parser
    case Arr(data, _) =>
      var c := Step(data.value, ch).0;
      if c.inProgress { AtMostTwoDispatches(data.value, ch); }
    case Obj(_, val, _) =>
      var c := Step(val.value, ch).0;
      if c.inProgress { AtMostTwoDispatches(val.value, ch); }
    case _ =>
  }

  /** The inner loop of `write` on one character, as at most two dispatches. */
  function Dispatch(p: Impl, ch: char): (r: (Impl, Outcome))
    ensures r.1 == Again ==> !r.0.inProgress
  {
    var (q, o) := Step(p, ch);
    if o == Again && q.inProgress then
      AtMostTwoDispatches(p, ch);
      Step(q, ch)
    else (q, o)
  }

  datatype Fed = Fed(impl: Impl, count: nat, outcome: Outcome)

  /** Characters handed to a parser one after the other, stopping when it completes or fails. */
  function Feed(p: Impl, s: string): (r: Fed)
    ensures r.count <= |s|
    decreases |s|
  {
    if !p.inProgress || s == [] then Fed(p, 0, Consumed)
    else
      var (q, o) := Dispatch(p, s[0]);
      if o.SyntaxError? || o.Overflow? then Fed(q, 0, o)
      else
        var f := Feed(q, s[1..]);
        f.(count := f.count + 1)
  }

  /** Cutting the input into two `write` calls changes nothing. */
  lemma {:induction false} FeedConcat(p: Impl, s: string, t: string)
    ensures var a := Feed(p, s);
            Feed(p, s + t) == (if !a.outcome.Consumed? then a
                               else var b := Feed(a.impl, t); b.(count := a.count + b.count))
    decreases |s|
  {
    if s == [] {
      assert s + t == t;
    } else if p.inProgress {
      assert (s + t)[0] == s[0] && (s + t)[1..] == s[1..] + t;
      FeedConcat(Dispatch(p, s[0]).0, s[1..], t);
    }
  }
}
