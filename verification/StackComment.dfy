/** Parsing and rendering of stack comments (internal/stack/stackcomment.go and Stack.render). */
module StackComment {
  import opened Base

  const WILDCARD: string := ".."

  datatype CommentError =
    | EmptyComment
    | NotStackComment
    | IncompleteComment
    | EmptyItem
    | DoubleQuote
    | WildcardNotLast
    | Nesting(opening: char, found: char)

  predicate IsSpace(c: char) {
    c == ' ' || c == '\t'
  }

  predicate IsOpening(c: char) {
    c == '[' || c == '(' || c == '{'
  }

  predicate IsClosing(c: char) {
    c == ']' || c == ')' || c == '}'
  }

  function ClosingOf(opening: char): char
  {
    match opening
    case '(' => ')'
    case '{' => '}'
    case _ => ']'
  }

  predicate HasWildcard(items: seq<string>) {
    |items| > 0 && items[|items| - 1] == WILDCARD
  }

  /** Separates the wildcard from a parsed stack comment. */
  function StripWildcard(items: seq<string>): (seq<string>, bool) {
    if HasWildcard(items) then (items[..|items| - 1], true) else (items, false)
  }

  // ----- specification of the parser -----

  function SkipSpaces(s: string): (r: string)
    ensures |r| <= |s|
    ensures r == [] || !IsSpace(r[0])
  {
    if s != [] && IsSpace(s[0]) then SkipSpaces(s[1..]) else s
  }

  datatype Elem = Elem(item: string, rest: string) | BadElem(error: CommentError)

  /** Nesting stacks always start with the bracket that opened the comment. */
  predicate ValidNest(nest: seq<char>) {
    |nest| > 0 && nest[0] == '[' && forall i :: 0 <= i < |nest| ==> IsOpening(nest[i])
  }

  /** Reads one comment item from s, with chars already collected. */
  function ReadElem(s: string, nest: seq<char>, chars: string): (r: Elem)
    requires ValidNest(nest)
    ensures r.Elem? ==> |r.rest| <= |s| && r.rest != [] && (r.rest[0] == ',' || r.rest[0] == ']')
  {
    if s == [] then BadElem(IncompleteComment)
    else
      var c := s[0];
      if IsSpace(c) then ReadElem(s[1..], nest, chars)
      else if IsOpening(c) then ReadElem(s[1..], nest + [c], chars + [c])
      else if IsClosing(c) then
        if c != ClosingOf(nest[|nest| - 1]) then BadElem(Nesting(nest[|nest| - 1], c))
        else if |nest| == 1 then Elem(chars, s)
        else ReadElem(s[1..], nest[..|nest| - 1], chars + [c])
      else if c == ',' && |nest| == 1 then
        if chars == [] then BadElem(EmptyItem) else Elem(chars, s)
      else if c == '"' then BadElem(DoubleQuote)
      else ReadElem(s[1..], nest, chars + [c])
  }

  predicate IsWildcardText(item: string) {
    item == ".." || item == "..."
  }

  function Normalize(items: seq<string>): Result<seq<string>, CommentError> {
    if exists i :: 0 <= i < |items| - 1 && IsWildcardText(items[i]) then Err(WildcardNotLast)
    else if |items| > 0 && IsWildcardText(items[|items| - 1]) then Ok(items[..|items| - 1] + [WILDCARD])
    else Ok(items)
  }

  function ReadItems(s: string, items: seq<string>): Result<seq<string>, CommentError>
    decreases |s|
  {
    var e := ReadElem(SkipSpaces(s), ['['], []);
    if e.BadElem? then Err(e.error)
    else
      var items' := if |e.item| > 0 then items + [e.item] else items;
      if e.rest[0] == ',' then ReadItems(e.rest[1..], items') else Normalize(items')
  }

  /** What ParseComment computes. */
  function Parsed(text: string): Result<seq<string>, CommentError> {
    var s := SkipSpaces(text);
    if s == [] then Err(EmptyComment)
    else if s[0] != '[' then Err(NotStackComment)
    else ReadItems(s[1..], [])
  }

  function Join(items: seq<string>): string {
    if |items| == 0 then []
    else if |items| == 1 then items[0]
    else items[0] + ", " + Join(items[1..])
  }

  function Rendered(items: seq<string>): string {
    "[" + Join(items) + "]"
  }

  // ----- which item lists a comment can denote -----

  /** The nesting after reading x inside of nest, or None if x cannot be (part of) an item. */
  function NestAfter(x: string, nest: seq<char>): (r: Option<seq<char>>)
    requires ValidNest(nest)
    ensures r.Some? ==> ValidNest(r.value)
  {
    if x == [] then Some(nest)
    else
      var c := x[0];
      if IsSpace(c) || c == '"' then None
      else if IsOpening(c) then NestAfter(x[1..], nest + [c])
      else if IsClosing(c) then
        if c != ClosingOf(nest[|nest| - 1]) || |nest| == 1 then None
        else NestAfter(x[1..], nest[..|nest| - 1])
      else if c == ',' && |nest| == 1 then None
      else NestAfter(x[1..], nest)
  }

  predicate ValidItem(item: string) {
    item != [] && NestAfter(item, ['[']) == Some(['['])
  }

  predicate ValidItems(items: seq<string>) {
    && (forall i :: 0 <= i < |items| ==> ValidItem(items[i]))
    && (forall i :: 0 <= i < |items| && IsWildcardText(items[i]) ==> i == |items| - 1 && items[i] == WILDCARD)
  }

  lemma {:induction false} NestAfterAppend(x: string, c: char, nest: seq<char>)
    requires ValidNest(nest) && NestAfter(x, nest).Some?
    ensures NestAfter(x + [c], nest) == NestAfter([c], NestAfter(x, nest).value)
  {
    if x == [] {
      assert x + [c] == [c];
    } else {
      assert (x + [c])[1..] == x[1..] + [c];
      var d := x[0];
      if IsOpening(d) {
        NestAfterAppend(x[1..], c, nest + [d]);
      } else if IsClosing(d) {
        NestAfterAppend(x[1..], c, nest[..|nest| - 1]);
      } else {
        NestAfterAppend(x[1..], c, nest);
      }
    }
  }

  /** Every item the parser reads is balanced, free of blanks and quotes, and has commas only inside brackets. */
  lemma {:induction false} ReadElemValid(s: string, nest: seq<char>, chars: string)
    requires ValidNest(nest)
    requires NestAfter(chars, ['[']) == Some(nest)
    ensures var r := ReadElem(s, nest, chars);
            r.Elem? ==> NestAfter(r.item, ['[']) == Some(['['])
    decreases |s|
  {
    if s != [] {
      var c := s[0];
      if IsSpace(c) {
        ReadElemValid(s[1..], nest, chars);
      } else {
        NestAfterAppend(chars, c, ['[']);
        if |nest| == 1 {
          assert nest == ['['];
        }
        if IsOpening(c) {
          assert NestAfter([c][1..], nest + [c]) == Some(nest + [c]);
          ReadElemValid(s[1..], nest + [c], chars + [c]);
        } else if IsClosing(c) {
          if c == ClosingOf(nest[|nest| - 1]) && |nest| > 1 {
            assert NestAfter([c][1..], nest[..|nest| - 1]) == Some(nest[..|nest| - 1]);
            ReadElemValid(s[1..], nest[..|nest| - 1], chars + [c]);
          }
        } else if c == ',' && |nest| == 1 {
        } else if c != '"' {
          assert NestAfter([c][1..], nest) == Some(nest);
          ReadElemValid(s[1..], nest, chars + [c]);
        }
      }
    }
  }

  lemma {:induction false} ReadItemsValid(s: string, items: seq<string>)
    requires forall i :: 0 <= i < |items| ==> ValidItem(items[i])
    ensures var r := ReadItems(s, items);
            r.Ok? ==> ValidItems(r.value)
    decreases |s|
  {
    ReadElemValid(SkipSpaces(s), ['['], []);
    var e := ReadElem(SkipSpaces(s), ['['], []);
    if e.Elem? {
      var items' := if |e.item| > 0 then items + [e.item] else items;
      if e.rest[0] == ',' {
        ReadItemsValid(e.rest[1..], items');
      } else {
        assert ValidItem(WILDCARD) by { WildcardValid(); }
      }
    }
  }

  lemma WildcardValid()
    ensures ValidItem(WILDCARD)
  {
    assert WILDCARD[1..] == ".";
    assert NestAfter(".", ['[']) == Some(['[']);
  }

  /** An item read back from its own text is unchanged. */
  lemma {:induction false} ReadElemOfItem(x: string, t: string, nest: seq<char>, chars: string)
    requires ValidNest(nest) && NestAfter(x, nest).Some?
    ensures ReadElem(x + t, nest, chars) == ReadElem(t, NestAfter(x, nest).value, chars + x)
  {
    if x == [] {
      assert x + t == t && chars + x == chars;
    } else {
      assert (x + t)[1..] == x[1..] + t;
      var c := x[0];
      assert chars + [c] + x[1..] == chars + x;
      if IsOpening(c) {
        ReadElemOfItem(x[1..], t, nest + [c], chars + [c]);
      } else if IsClosing(c) {
        ReadElemOfItem(x[1..], t, nest[..|nest| - 1], chars + [c]);
      } else {
        ReadElemOfItem(x[1..], t, nest, chars + [c]);
      }
    }
  }

  lemma ValidItemStart(item: string)
    requires ValidItem(item)
    ensures !IsSpace(item[0])
  {
  }

  /** One round of the item loop on the text of a valid item. */
  lemma ReadItemsStep(x: string, t: string, before: seq<string>)
    requires ValidItem(x)
    requires t != [] && (t[0] == ',' || t[0] == ']')
    ensures ReadItems(x + t, before) == if t[0] == ',' then ReadItems(t[1..], before + [x]) else Normalize(before + [x])
  {
    ValidItemStart(x);
    assert SkipSpaces(x + t) == x + t;
    ReadElemOfItem(x, t, ['['], []);
    assert [] + x == x;
  }

  lemma ReadItemsBlank(s: string, items: seq<string>)
    ensures ReadItems(" " + s, items) == ReadItems(s, items)
  {
    assert (" " + s)[1..] == s;
    assert SkipSpaces(" " + s) == SkipSpaces(s);
  }

  /** Reading a rendered list gives back the items, appended to those read before. */
  lemma {:induction false} ReadItemsOfJoin(items: seq<string>, before: seq<string>)
    requires forall i :: 0 <= i < |items| ==> ValidItem(items[i])
    ensures ReadItems(Join(items) + "]", before) == Normalize(before + items)
    decreases |items|
  {
    hide Normalize, ValidItem;
    if |items| == 0 {
      assert Join(items) + "]" == "]";
      assert before + items == before;
    } else if |items| == 1 {
      ReadItemsStep(items[0], "]", before);
      assert [items[0]] == items;
    } else {
      var rest := Join(items[1..]) + "]";
      var t := "," + (" " + rest);
      assert Join(items) + "]" == items[0] + t;
      ReadItemsStep(items[0], t, before);
      ReadItemsBlank(rest, before + [items[0]]);
      ReadItemsOfJoin(items[1..], before + [items[0]]);
      assert before + [items[0]] + items[1..] == before + items;
    }
  }

  /**
   * Parsing the rendering of a list gives back the list exactly when the list is one that
   * some comment denotes.
   */
  lemma RoundTrip(items: seq<string>)
    ensures Parsed(Rendered(items)) == Ok(items) <==> ValidItems(items)
  {
    ParsedRendered(items);
    hide Parsed, Rendered, ReadItems, Normalize, Join, ValidItem;
    if ValidItems(items) {
      ReadItemsOfJoin(items, []);
      assert [] + items == items;
      NormalizeValid(items);
    }
    if Parsed(Rendered(items)) == Ok(items) {
      hide ValidItems;
      ReadItemsValid(Join(items) + "]", []);
    }
  }

  lemma ParsedRendered(items: seq<string>)
    ensures Parsed(Rendered(items)) == ReadItems(Join(items) + "]", [])
  {
    hide ReadItems, Join;
    var s := Rendered(items);
    assert SkipSpaces(s) == s;
    assert s[1..] == Join(items) + "]";
  }

  lemma NormalizeValid(items: seq<string>)
    requires ValidItems(items)
    ensures Normalize(items) == Ok(items)
  {
    hide ValidItem;
    if |items| > 0 && IsWildcardText(items[|items| - 1]) {
      assert items[..|items| - 1] + [WILDCARD] == items;
    }
  }

  /** Whatever text a comment was written in, parsing the rendering of its items gives the same items. */
  lemma ParsedRoundTrip(text: string)
    ensures Parsed(text).Ok? ==> Parsed(Rendered(Parsed(text).value)) == Parsed(text)
  {
    var s := SkipSpaces(text);
    if Parsed(text).Ok? {
      ReadItemsValid(s[1..], []);
      RoundTrip(Parsed(text).value);
    }
  }

  // ----- the parser -----

  /** Reads characters from a string. */
  class InStream {
    var text: string

    constructor (text: string)
      ensures this.text == text
    {
      this.text := text;
    }

    method Peek() returns (c: Option<char>)
      ensures c == if text == [] then None else Some(text[0])
    {
      c := if text == [] then None else Some(text[0]);
    }

    method Next()
      modifies this
      ensures text == if old(text) == [] then [] else old(text)[1..]
    {
      if |text| > 0 {
        text := text[1..];
      }
    }

    /** Forwards the input to the next non-space character. */
    method SkipSpace() returns (c: Option<char>)
      modifies this
      ensures text == SkipSpaces(old(text))
      ensures c == if text == [] then None else Some(text[0])
    {
      while |text| > 0 && IsSpace(text[0])
        invariant SkipSpaces(text) == SkipSpaces(old(text))
        decreases |text|
      {
        text := text[1..];
      }
      c := if text == [] then None else Some(text[0]);
    }

    /** Reads the next item up to a comma or the end of the comment. */
    method ParseElem() returns (r: Elem)
      modifies this
      ensures r == ReadElem(old(text), ['['], [])
      ensures r.Elem? ==> text == r.rest
    {
      var nest := ['['];
      var chars: string := [];
      while true
        invariant ValidNest(nest)
        invariant ReadElem(text, nest, chars) == ReadElem(old(text), ['['], [])
        decreases |text|
      {
        var p := Peek();
        if p == None {
          return BadElem(IncompleteComment);
        }
        var c := p.value;
        if IsSpace(c) {
          Next();
          continue;
        } else if IsOpening(c) {
          nest := nest + [c];
        } else if IsClosing(c) {
          if c != ClosingOf(nest[|nest| - 1]) {
            return BadElem(Nesting(nest[|nest| - 1], c));
          }
          if |nest| == 1 {
            return Elem(chars, text);
          }
          nest := nest[..|nest| - 1];
        } else if c == ',' {
          if |nest| == 1 {
            if |chars| == 0 {
              return BadElem(EmptyItem);
            }
            return Elem(chars, text);
          }
        } else if c == '"' {
          return BadElem(DoubleQuote);
        }
        chars := chars + [c];
        Next();
      }
      assert false;
    }
  }

  /** Parses a stack comment at the start of the given input string. It returns on every text. */
  method ParseComment(text: string) returns (r: Result<seq<string>, CommentError>)
    ensures r == Parsed(text)
  {
    var s := new InStream(text);
    var c := s.SkipSpace();
    if c == None {
      return Err(EmptyComment);
    } else if c != Some('[') {
      return Err(NotStackComment);
    }
    s.Next();
    var items: seq<string> := [];
    while true
      invariant ReadItems(s.text, items) == Parsed(text)
      decreases |s.text|
    {
      c := s.SkipSpace();
      SkipSpacesTwice(s.text);
      var e := s.ParseElem();
      if e.BadElem? {
        return Err(e.error);
      }
      if |e.item| > 0 {
        items := items + [e.item];
      }
      c := s.SkipSpace();
      if c == Some(',') {
        s.Next();
      } else {
        r := NormalizeWildcards(items);
        return;
      }
    }
    assert false;
  }

  /** Normalizes and validates wildcards. */
  method NormalizeWildcards(read: seq<string>) returns (r: Result<seq<string>, CommentError>)
    ensures r == Normalize(read)
  {
    var items := read;
    var i := 0;
    while i < |items|
      invariant 0 <= i <= |items| == |read|
      invariant forall j :: 0 <= j < i && j < |read| - 1 ==> !IsWildcardText(read[j])
      invariant if i == |read| > 0 && IsWildcardText(read[i - 1]) then items == read[..i - 1] + [WILDCARD] else items == read
    {
      if IsWildcardText(items[i]) {
        if i != |items| - 1 {
          return Err(WildcardNotLast);
        }
        items := items[i := WILDCARD];
      }
      i := i + 1;
    }
    r := Ok(items);
  }

  lemma SkipSpacesTwice(s: string)
    ensures SkipSpaces(SkipSpaces(s)) == SkipSpaces(s)
  {
  }

  /** Renders a list of stack items. */
  method Render(items: seq<string>) returns (out: string)
    ensures out == Rendered(items)
  {
    out := "[";
    var i := 0;
    while i < |items|
      invariant 0 <= i <= |items|
      invariant Rendered(items) == out + (if 0 < i < |items| then ", " else "") + Join(items[i..]) + "]"
    {
      if i > 0 {
        out := out + ", ";
      }
      out := out + items[i];
      i := i + 1;
    }
    out := out + "]";
  }

  // ----- blanks -----

  /** The text without blanks. */
  function NoBlanks(s: string): (r: string)
    ensures |r| <= |s|
  {
    if s == [] then [] else (if IsSpace(s[0]) then [] else [s[0]]) + NoBlanks(s[1..])
  }

  lemma NoBlanksStep(s: string)
    requires s != []
    ensures IsSpace(s[0]) ==> NoBlanks(s) == NoBlanks(s[1..])
    ensures !IsSpace(s[0]) ==> NoBlanks(s) != [] && NoBlanks(s)[0] == s[0] && NoBlanks(s)[1..] == NoBlanks(s[1..])
  {
    assert !IsSpace(s[0]) ==> NoBlanks(s)[1..] == NoBlanks(s[1..]);
  }

  lemma {:induction false} SkipBlanks(s: string)
    ensures NoBlanks(SkipSpaces(s)) == NoBlanks(s)
    ensures SkipSpaces(NoBlanks(s)) == NoBlanks(s)
    ensures SkipSpaces(s) == [] <==> NoBlanks(s) == []
    ensures SkipSpaces(s) != [] ==> !IsSpace(SkipSpaces(s)[0])
  {
    if s != [] {
      SkipBlanks(s[1..]);
      NoBlanksStep(s);
    }
  }

  lemma {:induction false} ElemBlanks(s: string, nest: seq<char>, chars: string)
    requires ValidNest(nest)
    ensures ReadElem(NoBlanks(s), nest, chars)
         == match ReadElem(s, nest, chars)
            case BadElem(e) => BadElem(e)
            case Elem(item, rest) => Elem(item, NoBlanks(rest))
    decreases |s|
  {
    if s != [] {
      NoBlanksStep(s);
      var c := s[0];
      hide NoBlanks;
      if IsSpace(c) {
        ElemBlanks(s[1..], nest, chars);
      } else if IsOpening(c) {
        ElemBlanks(s[1..], nest + [c], chars + [c]);
      } else if IsClosing(c) {
        if c == ClosingOf(nest[|nest| - 1]) && |nest| > 1 {
          ElemBlanks(s[1..], nest[..|nest| - 1], chars + [c]);
        }
      } else if !(c == ',' && |nest| == 1) && c != '"' {
        ElemBlanks(s[1..], nest, chars + [c]);
      }
    }
  }

  lemma {:induction false} ItemsBlanks(s: string, items: seq<string>)
    ensures ReadItems(NoBlanks(s), items) == ReadItems(s, items)
    decreases |s|
  {
    SkipBlanks(s);
    ElemBlanks(SkipSpaces(s), ['['], []);
    hide ReadElem, Normalize, SkipSpaces;
    var e := ReadElem(SkipSpaces(s), ['['], []);
    if e.Elem? {
      NoBlanksStep(e.rest);
      hide NoBlanks;
      if e.rest[0] == ',' {
        ItemsBlanks(e.rest[1..], if |e.item| > 0 then items + [e.item] else items);
      }
    }
  }

  /** Blanks have no meaning in a stack comment, not even within its items. */
  lemma BlanksIgnored(text: string)
    ensures Parsed(NoBlanks(text)) == Parsed(text)
  {
    SkipBlanks(text);
    hide ReadItems, SkipSpaces;
    var s := SkipSpaces(text);
    if s != [] {
      NoBlanksStep(s);
      hide NoBlanks;
      ItemsBlanks(s[1..], []);
    }
  }
}
