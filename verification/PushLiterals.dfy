/** The check that a pushed literal is commented with its value (checkPushLiteral in internal/stackcheck/check.go). */
module PushLiterals {
  import opened Base
  import opened Lzint
  import opened Numerals
  import opened StackComment
  import opened InstructionSets
  import opened Statements

  /** The check indexes the comment without a test, which stops the program if there is no item. */
  datatype LiteralCheck = Agrees | Differs | OutOfRange

  /** The literal that a statement pushes. */
  function PushedLiteral(st: Statement): Option<int> {
    if !st.Opcode? || !IsPush(st.name) then None
    else if st.name == "PUSH0" && st.arg.NoArg? then Some(0)
    else if st.arg.LiteralArg? then Some(st.arg.value)
    else None
  }

  function LiteralChecked(st: Statement, comment: seq<string>): LiteralCheck {
    match PushedLiteral(st)
    case None => Agrees
    case Some(pushed) =>
      if comment == [] then OutOfRange
      else
        match Literal(comment[0])
        case Err(_) => Agrees
        case Ok(named) => if pushed != named.num then Differs else Agrees
  }

  /** Compares a literal push with the number that the stack comment names for it. */
  method CheckPushLiteral(st: Statement, comment: seq<string>) returns (r: LiteralCheck)
    ensures r == LiteralChecked(st, comment)
  {
    if !st.Opcode? || !IsPush(st.name) {
      return Agrees;
    }
    var pushed: int;
    if st.name == "PUSH0" && st.arg.NoArg? {
      pushed := 0;
    } else if st.arg.LiteralArg? {
      pushed := st.arg.value;
    } else {
      return Agrees;
    }
    if |comment| == 0 {
      return OutOfRange;
    }
    var named := ParseNumberLiteral(comment[0]);
    if named.Err? {
      return Agrees;
    }
    if pushed != named.value.num {
      return Differs;
    }
    return Agrees;
  }

  /** PUSH0 without argument, or a push of a number literal. */
  predicate PushesNumber(st: Statement, m: int) {
    && st.Opcode?
    && if st.name == "PUSH0" && st.arg.NoArg? then m == 0 else IsPush(st.name) && st.arg == LiteralArg(m)
  }

  /** A comment that starts with a number is right if and only if that is the number pushed. */
  lemma NumberVerdict(st: Statement, m: int, n: nat, more: seq<string>)
    requires PushesNumber(st, m)
    ensures LiteralChecked(st, [Decimal(n)] + more) == if m == n then Agrees else Differs
  {
    DecimalValue(n);
    assert IsPush("PUSH0") by {
      assert "PUSH0"[..4] == "PUSH";
    }
    hide Literal, IsPush, Decimal;
  }

  /** Statements that push no literal are not compared, nor are comments that start with something else. */
  lemma NoVerdict(st: Statement, comment: seq<string>)
    requires comment != []
    ensures (forall m :: !PushesNumber(st, m)) || Literal(comment[0]).Err? ==> LiteralChecked(st, comment) == Agrees
  {
    hide Literal, IsPush;
    if st.Opcode? && PushedLiteral(st).Some? {
      assert PushesNumber(st, PushedLiteral(st).value);
    }
  }

  // ----- comments without items -----

  /** The text starts with brackets around nothing but blanks; what follows them is not read. */
  predicate EmptyBrackets(text: string) {
    var s := SkipSpaces(text);
    && s != [] && s[0] == '['
    && var t := SkipSpaces(s[1..]); t != [] && t[0] == ']'
  }

  lemma {:induction false} ElemNotEmpty(s: string, nest: seq<char>, chars: string)
    requires ValidNest(nest)
    ensures var e := ReadElem(s, nest, chars); e.Elem? ==> |e.item| >= |chars| && (e.rest[0] == ',' ==> e.item != [])
    decreases |s|
  {
    if s != [] {
      var c := s[0];
      if IsSpace(c) {
        ElemNotEmpty(s[1..], nest, chars);
      } else if IsOpening(c) {
        ElemNotEmpty(s[1..], nest + [c], chars + [c]);
      } else if IsClosing(c) {
        if c == ClosingOf(nest[|nest| - 1]) && |nest| > 1 {
          ElemNotEmpty(s[1..], nest[..|nest| - 1], chars + [c]);
        }
      } else if !(c == ',' && |nest| == 1) && c != '"' {
        ElemNotEmpty(s[1..], nest, chars + [c]);
      }
    }
  }

  lemma {:induction false} ItemsKept(s: string, items: seq<string>)
    ensures ReadItems(s, items).Ok? ==> |ReadItems(s, items).value| >= |items|
    decreases |s|
  {
    hide ReadElem, IsWildcardText;
    var e := ReadElem(SkipSpaces(s), ['['], []);
    if e.Elem? && e.rest[0] == ',' {
      ItemsKept(e.rest[1..], if |e.item| > 0 then items + [e.item] else items);
    }
  }

  /** The first item is missing exactly if the bracket is closed at once. */
  lemma {:induction false} FirstElem(s: string)
    ensures var e := ReadElem(s, ['['], []);
            e.Elem? && e.item == [] && e.rest[0] == ']' <==> SkipSpaces(s) != [] && SkipSpaces(s)[0] == ']'
    decreases |s|
  {
    if s != [] {
      var c := s[0];
      assert [] + [c] == [c];
      if IsSpace(c) {
        FirstElem(s[1..]);
      } else if IsOpening(c) {
        ElemNotEmpty(s[1..], ['['] + [c], [c]);
      } else if !IsClosing(c) && c != ',' && c != '"' {
        ElemNotEmpty(s[1..], ['['], [c]);
      }
    }
  }

  lemma {:induction false} SkipTwice(s: string)
    ensures SkipSpaces(SkipSpaces(s)) == SkipSpaces(s)
  {
  }

  /** A comment is parsed to no items if and only if it starts with empty brackets. */
  lemma NoItemsIff(text: string)
    ensures Parsed(text) == Ok([]) <==> EmptyBrackets(text)
  {
    var s := SkipSpaces(text);
    if s != [] && s[0] == '[' {
      var inner := SkipSpaces(s[1..]);
      FirstElem(inner);
      SkipTwice(s[1..]);
      ElemNotEmpty(inner, ['['], []);
      hide ReadElem;
      var e := ReadElem(inner, ['['], []);
      if e.Elem? && e.rest[0] == ',' {
        ItemsKept(e.rest[1..], [e.item]);
        assert [] + [e.item] == [e.item];
      }
    }
  }

  /** A literal push whose stack comment names nothing. */
  predicate PushesUnnamed(st: Statement) {
    && PushedLiteral(st).Some?
    && StackCommentText(st.comment).Some? && EmptyBrackets(StackCommentText(st.comment).value)
  }
}
