/**
 The parser as the program holds it: objects that update their fields, each owning the parser of its
 active child through a pointer. Every object's whole effect is one step of the value model, with the
 chain of objects below it as the value.
 */
module JsonObjects {
  import opened Common
  import opened JsonModel

  /** The variant of a `parser_impl`: plain data, and for arrays and objects the child that is being read. */
  datatype Kind =
    | KAny
    | KLit(l: Literal, at: nat)
    | KNum(phase: NumPhase, decimal: int, fraction: int, exponent: int, sign: Sign)
    | KStr(str: StringState)
    | KArr(data: ParserImpl?, index: nat)
    | KObj(key: Option<Key>, val: ParserImpl?, first: bool)

  // ---------------------------------------------------------------- strings

  /** `string_parser::operator()`, branch by branch. */
  method ParseString(s: StringState, ch: char) returns (s': StringState, o: StringOutcome)
    ensures (s', o) == StepString(s, ch)
  {
    var escape, hex, text := s.escape, s.hex, s.text;
    o := Bad;
    if escape {
      if hex == [] {
        match ch
        case '"' => text := text + ['"']; escape := false; o := More;
        case '\\' => text := text + ['\\']; escape := false; o := More;
        case '/' => text := text + ['/']; escape := false; o := More;
        case 'b' => text := text + [8 as char]; escape := false; o := More;
        case 'f' => text := text + [12 as char]; escape := false; o := More;
        case 'n' => text := text + ['\n']; escape := false; o := More;
        case 'r' => text := text + ['\r']; escape := false; o := More;
        case 't' => text := text + ['\t']; escape := false; o := More;
        case 'u' => hex := [ch]; o := More;
        case 'U' => hex := [ch]; o := More;
        case _ =>
      } else if |hex| < 4 {
        if IsHex(ch) {
          hex := hex + [ch];
          o := More;
        }
      } else if IsHex(ch) && HexPrefix(hex) {
        text := text + Unescape(hex[1..] + [ch]);
        escape, hex, o := false, "", More;
      }
    } else if ch == '"' {
      o := Closed;
    } else if ch == '\\' {
      escape, hex, o := true, "", More;
    } else if IsPrint(ch) {
      text := text + [ch];
      o := More;
    }
    s' := StringState(escape, hex, text);
  }

  // ---------------------------------------------------------------- parser_impl

  class ParserImpl {
    var tree: Tree
    var inProgress: bool
    var kind: Kind
    ghost var Repr: set<ParserImpl>

    /** The parser owns its child with all that it owns, and the child does not own it. */
    ghost predicate Valid()
      reads this, Repr
      decreases Repr
    {
      && this in Repr
      && var c := Child();
         c != null ==> c in Repr && c.Repr <= Repr && this !in c.Repr && c.Valid()
    }

    ghost function Child(): ParserImpl?
      reads this
    {
      if kind.KArr? then kind.data else if kind.KObj? then kind.val else null
    }

    /** The chain from here down as one value. */
    ghost function View(): Impl
      requires Valid()
      reads this, Repr
      decreases Repr
    {
      Impl(tree, inProgress, Shape(kind, if Child() == null then None else Some(Child().View())))
    }

    constructor ()
      ensures Valid() && fresh(Repr) && Repr == {this} && kind == KAny && View() == FRESH
    {
      tree, inProgress, kind := EMPTY_TREE, true, KAny;
      Repr := {this};
    }

    /** `complete()`: the variant becomes an `any_parser` again, and a child goes with it. */
    method Complete()
      requires Valid()
      modifies this
      ensures Valid() && Repr == old(Repr) && View() == JsonModel.Complete(old(View()))
    {
      kind := KAny;
      inProgress := false;
    }

    /** `complete(t)`. */
    method CompleteWith(d: Data)
      requires Valid()
      modifies this
      ensures Valid() && Repr == old(Repr) && View() == JsonModel.CompleteWith(old(View()), d)
    {
      tree := tree.(data := d);
      kind := KAny;
      inProgress := false;
    }

    /** `any_parser`. */
    method ParseAny(ch: char) returns (o: Outcome)
      requires Valid() && kind == KAny
      modifies this
      ensures Valid() && Repr == old(Repr) && (View(), o) == StepAny(old(View()), ch)
    {
      o := Consumed;
      if IsSkip(ch) {
      } else if ch == 'n' || ch == 'N' {
        kind := KLit(LNull, 0);
      } else if ch == 't' || ch == 'T' {
        kind := KLit(LTrue, 0);
      } else if ch == 'f' || ch == 'F' {
        kind := KLit(LFalse, 0);
      } else if ch == '"' {
        kind := KStr(NEW_STRING);
      } else if ch == '[' {
        kind := KArr(null, 0);
      } else if ch == '{' {
        kind := KObj(None, null, true);
      } else if ch == '-' || ch == '+' {
        kind := KNum(Decimal, 0, 1, 0, if ch == '-' then Minus else Plus);
      } else if IsDigit(ch) {
        kind := KNum(Decimal, DigitOf(ch), 1, 0, Plus);
      } else {
        o := SyntaxError;
      }
    }

    /** `literal_parser`: moves on in the word, and completes on the character after it. */
    method ParseLit(ch: char) returns (o: Outcome)
      requires Valid() && kind.KLit?
      modifies this
      ensures Valid() && Repr == old(Repr) && (View(), o) == StepLit(old(View()), ch)
    {
      var l, at := kind.l, kind.at + 1;
      if at >= |Word(l)| {
        match l {
          case LNull => CompleteWith(Null);
          case LTrue => CompleteWith(Bool(true));
          case LFalse => CompleteWith(Bool(false));
        }
        o := Again;
      } else {
        kind := KLit(l, at);
        o := if ToLower(ch) == Word(l)[at] then Consumed else SyntaxError;
      }
    }

    /** `number_parser`. */
    method ParseNum(ch: char) returns (o: Outcome)
      requires Valid() && kind.KNum?
      modifies this
      ensures Valid() && Repr == old(Repr) && (View(), o) == StepNum(old(View()), ch)
    {
      var KNum(phase, decimal, fraction, exponent, sign) := kind;
      o := Consumed;
      if (phase == Decimal || phase == Fraction) && IsExpMark(ch) {
        if sign == Minus { decimal := decimal * -1; }
        kind := KNum(Exp, decimal, fraction, exponent, sign);
      } else if phase == Decimal && ch == '.' {
        kind := KNum(Fraction, decimal, fraction, exponent, sign);
      } else if phase == Decimal && IsDigit(ch) {
        decimal := decimal * 10 + DigitOf(ch);
        if decimal > LONG_MAX { return Overflow; }
        kind := KNum(phase, decimal, fraction, exponent, sign);
      } else if phase == Fraction && IsDigit(ch) {
        if decimal * 10 + ch as int > LONG_MAX || fraction * 10 > INT_MAX { return Overflow; }
        decimal, fraction := decimal * 10 + ch as int - '0' as int, fraction * 10;
        kind := KNum(phase, decimal, fraction, exponent, sign);
      } else if phase == Exp {
        if '1' <= ch <= '9' {
          kind := KNum(Exponent, decimal, fraction, DigitOf(ch), Plus);
        } else if ch == '+' || ch == '0' {
          kind := KNum(Exponent, decimal, fraction, exponent, Plus);
        } else if ch == '-' {
          kind := KNum(Exponent, decimal, fraction, exponent, Minus);
        } else {
          o := SyntaxError;
        }
      } else if phase == Exponent && IsDigit(ch) {
        exponent := exponent * 10 + DigitOf(ch);
        if exponent > INT_MAX { return Overflow; }
        kind := KNum(phase, decimal, fraction, exponent, sign);
      } else {
        o := Again;
        FinishNum();
      }
    }

    /** The number is over: its sign is applied and its value handed on. */
    method FinishNum()
      requires Valid() && kind.KNum? && kind.phase != Exp
      modifies this
      ensures Valid() && Repr == old(Repr) && View() == JsonModel.CompleteWith(old(View()), NumData(old(kind)))
    {
      var KNum(phase, decimal, fraction, exponent, sign) := kind;
      if phase == Exponent {
        if sign == Minus { exponent := exponent * -1; }
        CompleteWith(Float(decimal, exponent, fraction));
      } else {
        if sign == Minus { decimal := decimal * -1; }
        if phase == Decimal { CompleteWith(Long(decimal)); } else { CompleteWith(Fixed(decimal, fraction)); }
      }
    }

    /** `string_parser` as a value. */
    method ParseStr(ch: char) returns (o: Outcome)
      requires Valid() && kind.KStr?
      modifies this
      ensures Valid() && Repr == old(Repr) && (View(), o) == Step(old(View()), ch)
    {
      var s, r := ParseString(kind.str, ch);
      if r == Closed {
        CompleteWith(Text(s.text));
        o := Consumed;
      } else {
        kind := KStr(s);
        o := if r == Bad then SyntaxError else Consumed;
      }
    }

    /** What the active child did to its tree shows in the tree of its parent. */
    method WriteBackTree(t: Tree)
      requires Valid()
      modifies this`tree
      ensures Valid() && View() == WriteBack(old(View()), t)
    {
      var kids := tree.children;
      if kids != [] {
        tree := tree.(children := kids[..|kids| - 1] + [Edge(kids[|kids| - 1].tag, t)]);
      }
    }

    /** `new_child`: a fresh parser for a new last edge of the tree. */
    method NewChild(tag: Label) returns (c: ParserImpl)
      requires Valid()
      modifies this`tree, this`Repr
      ensures Valid() && fresh(c) && c.Valid() && c.Repr == {c} && c.kind == KAny && c.View() == FRESH
      ensures Repr == old(Repr) + {c} && View() == AddEdge(old(View()), tag)
    {
      c := new ParserImpl();
      tree := tree.(children := tree.children + [Edge(tag, EMPTY_TREE)]);
      Repr := Repr + {c};
    }

    /** The child in progress gets the character. */
    method PassOn(c: ParserImpl, ch: char) returns (o: Outcome)
      requires Valid() && c == Child() && c.inProgress
      modifies Repr
      ensures Valid() && fresh(Repr - old(Repr)) && (View(), o) == Step(old(View()), ch)
      decreases Repr, 0
    {
      o := c.Parse1(ch);
      Repr := Repr + c.Repr;
      WriteBackTree(c.tree);
    }

    /** The first character of an array that does not close it goes to a child it opens. */
    method FirstItem(ch: char) returns (o: Outcome)
      requires Valid() && kind.KArr? && kind.data == null && ch != ']'
      modifies this
      ensures Valid() && fresh(Repr - old(Repr)) && (View(), o) == StepArr(old(View()), ch)
    {
      var index := kind.index;
      ghost var p := View();
      var c := NewChild(Index(index));
      kind := KArr(c, index + 1);
      assert View() == NewArrChild(p);
      o := c.ParseAny(ch);
      WriteBackTree(c.tree);
    }

    /** `array_parser`. */
    method ParseArr(ch: char) returns (o: Outcome)
      requires Valid() && kind.KArr?
      modifies Repr
      ensures Valid() && fresh(Repr - old(Repr)) && (View(), o) == Step(old(View()), ch)
      decreases Repr, 1
    {
      var data, index := kind.data, kind.index;
      if data != null && data.inProgress {
        o := PassOn(data, ch);
      } else if ch == ']' {
        Complete();
        o := Consumed;
      } else if data == null {
        o := FirstItem(ch);
      } else if ch == ',' {
        var c := NewChild(Index(index));
        kind := KArr(c, index + 1);
        o := Consumed;
      } else {
        o := if IsBlank(ch) then Consumed else SyntaxError;
      }
    }

    /** `object_parser`. */
    method ParseObj(ch: char) returns (o: Outcome)
      requires Valid() && kind.KObj?
      modifies Repr
      ensures Valid() && fresh(Repr - old(Repr)) && (View(), o) == Step(old(View()), ch)
      decreases Repr, 1
    {
      var key, val, first := kind.key, kind.val, kind.first;
      o := Consumed;
      if val != null && val.inProgress {
        o := PassOn(val, ch);
      } else if val != null && ch == '}' {
        Complete();
      } else if val != null && ch == ',' {
        kind := KObj(None, null, first);
      } else if val == null && key.None? && first && ch == '}' {
        Complete();
      } else if val == null && key.None? && ch == '"' {
        kind := KObj(Some(Key(true, NEW_STRING)), null, false);
      } else if val == null && key.Some? && key.value.inProgress {
        var s, r := ParseString(key.value.str, ch);
        kind := KObj(Some(Key(r != Closed, s)), null, first);
        if r == Bad { o := SyntaxError; }
      } else if val == null && key.Some? && ch == ':' {
        var c := NewChild(Name(key.value.str.text));
        kind := KObj(Some(Key(false, NEW_STRING)), c, first);
      } else if !IsBlank(ch) {
        o := SyntaxError;
      }
    }

    /** `parse_1`: the visitor calls the parser that the variant holds. */
    method Parse1(ch: char) returns (o: Outcome)
      requires Valid()
      modifies Repr
      ensures Valid() && fresh(Repr - old(Repr)) && (View(), o) == Step(old(View()), ch)
      decreases Repr, 2
    {
      match kind
      case KAny => o := ParseAny(ch);
      case KLit(_, _) => o := ParseLit(ch);
      case KNum(_, _, _, _, _) => o := ParseNum(ch);
      case KStr(_) => o := ParseStr(ch);
      case KArr(_, _) => o := ParseArr(ch);
      case KObj(_, _, _) => o := ParseObj(ch);
    }
  }

  /** A variant with the value of its child filled in. */
  function Shape(kind: Kind, child: Option<Impl>): Parser {
    match kind
    case KAny => Any
    case KLit(l, at) => Lit(l, at)
    case KNum(phase, decimal, fraction, exponent, sign) => Num(phase, decimal, fraction, exponent, sign)
    case KStr(str) => Str(str)
    case KArr(_, index) => Arr(child, index)
    case KObj(key, _, first) => Obj(key, child, first)
  }

  /** What a finished number hands on. */
  function NumData(kind: Kind): Data
    requires kind.KNum?
  {
    match kind.phase
    case Exponent => Float(kind.decimal, Signed(kind.sign, kind.exponent), kind.fraction)
    case Fraction => Fixed(Signed(kind.sign, kind.decimal), kind.fraction)
    case _ => Long(Signed(kind.sign, kind.decimal))
  }

  // ---------------------------------------------------------------- write

  /** What `write` hands back to its caller. */
  datatype WriteResult = Wrote(n: nat) | Eof | Threw(outcome: Outcome)

  class JsonParser {
    const root: ParserImpl

    ghost predicate Valid()
      reads this, root, root.Repr
    {
      root.Valid()
    }

    constructor ()
      ensures Valid() && fresh(root) && fresh(root.Repr) && root.View() == FRESH
    {
      root := new ParserImpl();
    }

    /** `impl::write`: the whole effect of the two nested loops is `Feed`. */
    method Write(s: string) returns (r: WriteResult)
      requires Valid()
      modifies root.Repr
      ensures Valid() && fresh(root.Repr - old(root.Repr))
      ensures !old(root.View()).inProgress ==> r == Eof && root.View() == old(root.View())
      ensures old(root.View()).inProgress ==>
                var f := Feed(old(root.View()), s);
                root.View() == f.impl && r == (if f.outcome.Consumed? then Wrote(f.count) else Threw(f.outcome))
    {
      if !root.inProgress {
        return Eof;
      }
      var i := 0;
      while root.inProgress && i < |s|
        invariant i <= |s| && Valid() && fresh(root.Repr - old(root.Repr))
        invariant Feed(old(root.View()), s) ==
                  var f := Feed(root.View(), s[i..]); f.(count := i + f.count)
        decreases |s| - i
      {
        var o := ParseChar(s[i]);
        if o != Consumed && o != Again {
          return Threw(o);
        }
        assert s[i..][0] == s[i] && s[i..][1..] == s[i + 1..];
        i := i + 1;
      }
      return Wrote(i);
    }

    /** The inner loop: the same character until it is consumed, at most twice. */
    method ParseChar(ch: char) returns (o: Outcome)
      requires Valid() && root.inProgress
      modifies root.Repr
      ensures Valid() && fresh(root.Repr - old(root.Repr))
      ensures (root.View(), o) == Dispatch(old(root.View()), ch)
    {
      ghost var before := root.View();
      o := Again;
      ghost var dispatches := 0;
      while root.inProgress && o == Again
        invariant Valid() && fresh(root.Repr - old(root.Repr)) && dispatches <= 2
        invariant dispatches == 0 ==> root.View() == before && o == Again
        invariant dispatches == 1 ==> (root.View(), o) == Step(before, ch)
        invariant dispatches == 2 ==> (root.View(), o) == Dispatch(before, ch) && (o != Again || !root.inProgress)
        invariant dispatches >= 1 && (o != Again || !root.inProgress) ==> (root.View(), o) == Dispatch(before, ch)
        decreases 2 - dispatches
      {
        if dispatches == 1 { AtMostTwoDispatches(before, ch); }
        o := root.Parse1(ch);
        dispatches := dispatches + 1;
      }
    }
  }
}
