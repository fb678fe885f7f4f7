/** The symbolic EVM stack of the stack checker (internal/stack/stack.go). */
module SymbolicStack {
  import opened Base
  import opened Numerals
  import opened StackComment

  /** An operation that modifies the stack: its input and output items, top first. */
  datatype StackOp = StackOp(ins: seq<string>, outs: seq<string>)

  datatype StackError = OpUnderflow | CommentUnderflow | CommentDepth | Mismatch | Rename

  predicate Distinct(names: seq<string>) {
    forall i, j :: 0 <= i < j < |names| ==> names[i] != names[j]
  }

  // ----- names -----

  /** The first position of c in s, or -1. */
  function IndexOf(s: string, c: char): (r: int)
    ensures -1 <= r < |s|
    ensures r >= 0 ==> s[r] == c
  {
    if s == [] then -1
    else if s[0] == c then 0
    else
      var r := IndexOf(s[1..], c);
      if r < 0 then -1 else r + 1
  }

  predicate IsIdentifier(s: string) {
    && s != []
    && forall i :: 0 <= i < |s| ==> s[i] == '_' || IsLetter(s[i]) || (i > 0 && IsDigit(s[i]))
  }

  /** Recognizes a comment item of the form "name=expr", and gives the assigned name. */
  function AssignName(item: string): Option<string> {
    var eq := IndexOf(item, '=');
    if eq <= 0 || eq == |item| - 1 then None
    else if item[eq + 1] == '=' then None
    else if item[eq - 1] == '!' || item[eq - 1] == '<' || item[eq - 1] == '>' then None
    else if !IsIdentifier(item[..eq]) then None
    else Some(item[..eq])
  }

  /** The name that a comment item gives to its slot. */
  function Resolve(item: string): string {
    match AssignName(item)
    case Some(name) => name
    case None => item
  }

  // ----- the state of a stack, as a value -----

  datatype StackState = StackState(
    counter: nat,                    // item counter
    items: seq<nat>,                 // bottom first
    wildcard: bool,
    inferred: bool,
    inferredItems: seq<nat>,
    nameToItem: map<string, nat>,
    itemToName: map<nat, string>,
    confirmed: set<nat>)

  const EMPTY: StackState := StackState(0, [], false, false, [], map[], map[], {})

  /** The item at position i, zero is top. */
  function Top(st: StackState, i: nat): nat
    requires i < |st.items|
  {
    st.items[|st.items| - 1 - i]
  }

  function NameOf(st: StackState, item: nat): string {
    if item in st.itemToName then st.itemToName[item] else ""
  }

  /** The known name of an item, or an invented one. */
  function ItemText(st: StackState, item: nat): string {
    if item in st.itemToName then st.itemToName[item] else "_" + Decimal(item)
  }

  function SetName(st: StackState, item: nat, name: string): StackState {
    st.(itemToName := st.itemToName[item := name], nameToItem := st.nameToItem[name := item])
  }

  function Push(st: StackState, item: nat): StackState {
    st.(items := st.items + [item])
  }

  function PushNew(st: StackState): StackState {
    st.(counter := st.counter + 1, items := st.items + [st.counter + 1])
  }

  function NewItems(counter: nat, n: nat): (r: seq<nat>)
    ensures |r| == n
    ensures forall i :: 0 <= i < n ==> r[i] == counter + 1 + i
  {
    seq(n, i => counter + 1 + i)
  }

  /** Extends the stack downward by n new items. */
  function Grow(st: StackState, n: nat): StackState {
    var created := NewItems(st.counter, n);
    st.(counter := st.counter + n,
        items := created + st.items,
        inferredItems := st.inferredItems + (if st.inferred then created else []))
  }

  // ----- initialization -----

  function InitOne(st: StackState, text: string, confirm: Option<bool>): StackState {
    var name := Resolve(text);
    if confirm.None? && name in st.nameToItem then Push(st, st.nameToItem[name])
    else
      var item := st.counter + 1;
      var s := SetName(PushNew(st), item, name);
      if confirm.None? || confirm.value then s.(confirmed := s.confirmed + {item}) else s
  }

  function ConfirmAt(confirmed: Option<seq<bool>>, i: nat): Option<bool>
    requires confirmed.Some? ==> i < |confirmed.value|
  {
    if confirmed.None? then None else Some(confirmed.value[i])
  }

  /** Pushes names[n - 1], ..., names[0]. */
  function InitNames(st: StackState, names: seq<string>, confirmed: Option<seq<bool>>, n: nat): StackState
    requires n <= |names|
    requires confirmed.Some? ==> |confirmed.value| >= |names|
    decreases n
  {
    if n == 0 then st
    else InitNames(InitOne(st, names[n - 1], ConfirmAt(confirmed, n - 1)), names, confirmed, n - 1)
  }

  predicate ConfirmsNames(names: seq<string>, confirmed: Option<seq<bool>>) {
    confirmed.Some? ==> |confirmed.value| >= |StripWildcard(names).0|
  }

  function Inited(st: StackState, names: seq<string>, confirmed: Option<seq<bool>>): StackState
    requires ConfirmsNames(names, confirmed)
  {
    var (stripped, wild) := StripWildcard(names);
    var cleared := st.(nameToItem := map[], itemToName := map[], confirmed := {}, items := [], wildcard := wild);
    InitNames(cleared, stripped, confirmed, |stripped|)
  }

  function NewStack(names: seq<string>, confirmed: Option<seq<bool>>): StackState
    requires ConfirmsNames(names, confirmed)
  {
    if |names| > 0 then Inited(EMPTY, names, confirmed) else EMPTY
  }

  // ----- applying an operation -----

  /** Makes position i accessible to an operation, growing the stack if its mode allows. */
  function Access(st: StackState, i: nat): (StackState, bool) {
    if i < |st.items| then (st, true)
    else if !st.inferred && !st.wildcard then (st, false)
    else (Grow(st, i - (|st.items| - 1)), true)
  }

  /** Makes positions 0, ..., n - 1 accessible, one after the other. */
  function Pull(st: StackState, n: nat): (r: (StackState, bool))
    ensures r.1 ==> |r.0.items| >= n
  {
    if n == 0 then (st, true)
    else
      var (s, ok) := Pull(st, n - 1);
      if ok then Access(s, n - 1) else (s, false)
  }

  /** The top n items, top first. */
  function TopItems(st: StackState, n: nat): (r: seq<nat>)
    requires n <= |st.items|
    ensures |r| == n
    ensures forall i :: 0 <= i < n ==> r[i] == Top(st, i)
  {
    seq(n, i requires 0 <= i < n => Top(st, i))
  }

  lemma AccessTop(st: StackState, i: nat)
    requires i <= |st.items| && Access(st, i).1
    ensures var s := Access(st, i).0;
            && i < |s.items|
            && TopItems(s, i + 1) == TopItems(st, i) + [Top(s, i)]
  {
  }

  /** The position of a name in a list, or -1. */
  function FindName(names: seq<string>, name: string): (r: int)
    ensures -1 <= r < |names|
    ensures r >= 0 ==> names[r] == name
    ensures r < 0 ==> name !in names
  {
    if names == [] then -1
    else if names[0] == name then 0
    else
      var r := FindName(names[1..], name);
      if r < 0 then -1 else r + 1
  }

  /** Pushes the outputs, last first. Returns the new stack and the set of items created. */
  function PushOuts(st: StackState, ins: seq<string>, popped: seq<nat>, outs: seq<string>): (StackState, set<nat>)
    requires |popped| == |ins|
  {
    if outs == [] then (st, {})
    else
      var (s, created) := PushOuts(st, ins, popped, outs[1..]);
      var k := FindName(ins, outs[0]);
      if k >= 0 then (Push(s, popped[k]), created)
      else (PushNew(s), created + {s.counter + 1})
  }

  /** The next position after i with the same output name, or -1. */
  function NextSame(outs: seq<string>, i: nat): (r: int)
    ensures r == -1 || i < r < |outs|
    ensures r > i ==> outs[r] == outs[i]
  {
    if i >= |outs| then -1
    else
      var r := FindName(outs[i + 1..], outs[i]);
      if r < 0 then -1 else i + 1 + r
  }

  // ----- checking a comment -----

  /** The running state of a comment check. */
  datatype Checking = Checking(
    st: StackState,
    created: set<nat>,          // items created by the operation (or split off by the comment)
    first: map<nat, string>,  // the name each item got first in this comment
    err: Option<StackError>)  // the first naming error

  /** The name the comment gives to the source of a copied output. */
  function SourceName(c: Checking, names: seq<string>, src: nat, item: nat): string {
    if src < |names| then Resolve(names[src]) else NameOf(c.st, item)
  }

  predicate Splits(c: Checking, names: seq<string>, i: nat, outs: seq<string>)
    requires i < |names| && i < |c.st.items|
  {
    && NextSame(outs, i) >= 0
    && AssignName(names[i]).Some?
    && Resolve(names[i]) != SourceName(c, names, NextSame(outs, i), Top(c.st, i))
  }

  function Split(c: Checking, i: nat): Checking
    requires i < |c.st.items|
  {
    var item := c.st.counter + 1;
    c.(st := c.st.(counter := item, items := c.st.items[|c.st.items| - 1 - i := item]),
       created := c.created + {item})
  }

  /** The comment has given the same item a different name before. */
  predicate Contradicts(c: Checking, item: nat, name: string) {
    item in c.first && c.first[item] != name
  }

  /** The name belongs to a different item that is on the stack. */
  predicate Conflicts(c: Checking, item: nat, name: string) {
    && name in c.st.nameToItem && c.st.nameToItem[name] != item
    && item !in c.created && NameOf(c.st, item) != name && c.st.nameToItem[name] in c.st.items
  }

  /** An item that already has a confirmed name gets a name not used before. */
  predicate Renames(c: Checking, item: nat, name: string, explicit: bool) {
    && !explicit && item !in c.created
    && (name !in c.st.nameToItem || c.st.nameToItem[name] == 0)
    && item in c.st.confirmed
  }

  /** The first naming error, with the item's name compared to what comment and stack already say. */
  function NamingError(c: Checking, item: nat, name: string, explicit: bool): Option<StackError> {
    if c.err.Some? then c.err
    else if Contradicts(c, item, name) || Conflicts(c, item, name) then Some(Mismatch)
    else if Renames(c, item, name, explicit) then Some(Rename)
    else None
  }

  /** The stack after an item has been named by a comment. */
  function Named(st: StackState, item: nat, name: string): StackState {
    SetName(st, item, name).(confirmed := st.confirmed + {item})
  }

  function NameItem(c: Checking, item: nat, name: string, explicit: bool): Checking {
    Checking(Named(c.st, item, name),
             c.created,
             if item in c.first then c.first else c.first[item := name],
             NamingError(c, item, name, explicit))
  }

  function CheckItem(c: Checking, names: seq<string>, i: nat, outs: seq<string>): Checking
    requires i < |names| && i < |c.st.items|
  {
    var c' := if Splits(c, names, i, outs) then Split(c, i) else c;
    NameItem(c', Top(c'.st, i), Resolve(names[i]), AssignName(names[i]).Some?)
  }

  /** In wildcard mode, a comment may name items below the tracked portion. */
  function Peeked(c: Checking, i: nat): Checking {
    if i >= |c.st.items| && c.st.wildcard then c.(st := Grow(c.st, i - (|c.st.items| - 1))) else c
  }

  /** Checks names[i..]. The second result is set if the comment is deeper than the stack. */
  function CheckItems(c: Checking, names: seq<string>, i: nat, outs: seq<string>): (Checking, bool)
    requires i <= |names|
    decreases |names| - i
  {
    if i == |names| then (c, false)
    else
      var p := Peeked(c, i);
      if i >= |p.st.items| then (p, !p.st.inferred)
      else CheckItems(CheckItem(p, names, i, outs), names, i + 1, outs)
  }

  function Checked(st: StackState, comment: Option<seq<string>>, allowElide: bool, created: set<nat>, outs: seq<string>)
    : (StackState, Option<StackError>)
  {
    if comment.None? then (st, None)
    else
      var (names, wild) := StripWildcard(comment.value);
      var (c, deeper) := CheckItems(Checking(st.(wildcard := wild), created, map[], None), names, 0, outs);
      if deeper then (c.st, Some(CommentUnderflow))
      else if !wild && !allowElide && |names| < |c.st.items| then
        (c.st.(items := c.st.items[|c.st.items| - |names|..]), Some(CommentDepth))
      else (c.st, c.err)
  }

  /** The effect of a label comment. */
  function LabelChecked(st: StackState, comment: seq<string>): (StackState, Option<StackError>) {
    Checked(st, Some(comment), false, {}, [])
  }

  /** The effect of an operation with an optional comment. */
  function Applied(st: StackState, op: StackOp, comment: Option<seq<string>>): (StackState, Option<StackError>) {
    var st' := if comment.Some? && HasWildcard(comment.value) then st.(wildcard := true) else st;
    var (p, ok) := Pull(st', |op.ins|);
    if !ok then (p, Some(OpUnderflow))
    else
      var base := p.(items := p.items[..|p.items| - |op.ins|]);
      var (s, created) := PushOuts(base, op.ins, TopItems(p, |op.ins|), op.outs);
      Checked(s, comment, true, created, op.outs)
  }

  /** Item numbers are positive and at most the counter. */
  ghost predicate Valid(st: StackState) {
    && (forall i :: 0 <= i < |st.items| ==> 1 <= st.items[i] <= st.counter)
    && (forall i :: 0 <= i < |st.inferredItems| ==> 1 <= st.inferredItems[i] <= st.counter)
    && (forall name :: name in st.nameToItem ==> 1 <= st.nameToItem[name] <= st.counter)
    && (forall item :: item in st.itemToName ==> 1 <= item <= st.counter)
    && (forall item :: item in st.itemToName ==> st.itemToName[item] in st.nameToItem)
    && (forall item :: item in st.confirmed ==> item in st.itemToName)
  }

  /** The current stack items, top first. */
  function ItemTexts(st: StackState): (r: seq<string>)
    ensures |r| == |st.items|
    ensures forall i :: 0 <= i < |r| ==> r[i] == ItemText(st, Top(st, i))
  {
    seq(|st.items|, i requires 0 <= i < |st.items| => ItemText(st, Top(st, i)))
  }

  // ----- validity is an invariant -----

  lemma InitOneValid(st: StackState, text: string, confirm: Option<bool>)
    requires Valid(st)
    ensures var r := InitOne(st, text, confirm);
            && Valid(r) && |r.items| == |st.items| + 1
            && r.wildcard == st.wildcard && r.inferred == st.inferred && r.inferredItems == st.inferredItems
  {
    hide Resolve, Valid, SetName, Push, PushNew;
    PushNamedValid(st, Resolve(text));
    NewNameValid(st, Resolve(text));
  }

  lemma PushNamedValid(st: StackState, name: string)
    requires Valid(st)
    ensures name in st.nameToItem ==>
              var s := Push(st, st.nameToItem[name]);
              && Valid(s) && |s.items| == |st.items| + 1
              && s.wildcard == st.wildcard && s.inferred == st.inferred && s.inferredItems == st.inferredItems
  {
  }

  lemma NewNameValid(st: StackState, name: string)
    requires Valid(st)
    ensures var s := SetName(PushNew(st), st.counter + 1, name);
            && Valid(s) && Valid(s.(confirmed := s.confirmed + {st.counter + 1}))
            && |s.items| == |st.items| + 1
            && s.wildcard == st.wildcard && s.inferred == st.inferred && s.inferredItems == st.inferredItems
  {
  }

  lemma {:induction false} InitNamesValid(st: StackState, names: seq<string>, confirmed: Option<seq<bool>>, n: nat)
    requires Valid(st) && n <= |names|
    requires confirmed.Some? ==> |confirmed.value| >= |names|
    ensures var r := InitNames(st, names, confirmed, n);
            && Valid(r) && |r.items| == |st.items| + n
            && r.wildcard == st.wildcard && r.inferred == st.inferred && r.inferredItems == st.inferredItems
    decreases n
  {
    if n > 0 {
      InitOneValid(st, names[n - 1], ConfirmAt(confirmed, n - 1));
      hide InitOne, Valid;
      InitNamesValid(InitOne(st, names[n - 1], ConfirmAt(confirmed, n - 1)), names, confirmed, n - 1);
    }
  }

  lemma NewStackValid(names: seq<string>, confirmed: Option<seq<bool>>)
    requires ConfirmsNames(names, confirmed)
    ensures var r := NewStack(names, confirmed);
            && Valid(r) && |r.items| == |StripWildcard(names).0|
            && r.wildcard == HasWildcard(names) && !r.inferred && r.inferredItems == []
  {
    if |names| > 0 {
      var (stripped, wild) := StripWildcard(names);
      InitNamesValid(EMPTY.(wildcard := wild), stripped, confirmed, |stripped|);
    }
  }

  lemma GrowValid(st: StackState, n: nat)
    requires Valid(st)
    ensures Valid(Grow(st, n))
  {
  }

  lemma {:induction false} PullValid(st: StackState, n: nat)
    requires Valid(st)
    ensures Valid(Pull(st, n).0)
  {
    if n > 0 {
      PullValid(st, n - 1);
    }
  }

  lemma {:induction false} PushOutsValid(st: StackState, ins: seq<string>, popped: seq<nat>, outs: seq<string>)
    requires Valid(st) && |popped| == |ins|
    requires forall i :: 0 <= i < |popped| ==> 1 <= popped[i] <= st.counter
    ensures var (s, created) := PushOuts(st, ins, popped, outs);
            && Valid(s) && s.counter >= st.counter
            && (forall x :: x in created ==> st.counter < x <= s.counter)
            && |s.items| == |st.items| + |outs|
  {
    if outs != [] {
      PushOutsValid(st, ins, popped, outs[1..]);
    }
  }

  lemma NamedValid(st: StackState, item: nat, name: string)
    requires Valid(st) && 1 <= item <= st.counter
    ensures Valid(Named(st, item, name))
  {
  }

  lemma CheckItemValid(c: Checking, names: seq<string>, i: nat, outs: seq<string>)
    requires i < |names| && i < |c.st.items| && Valid(c.st)
    ensures var r := CheckItem(c, names, i, outs);
            Valid(r.st) && |r.st.items| == |c.st.items| && r.st.wildcard == c.st.wildcard && r.st.inferred == c.st.inferred
  {
    var c' := if Splits(c, names, i, outs) then Split(c, i) else c;
    assert Valid(c'.st);
    NamedValid(c'.st, Top(c'.st, i), Resolve(names[i]));
  }

  lemma {:induction false} CheckItemsValid(c: Checking, names: seq<string>, i: nat, outs: seq<string>)
    requires i <= |names| && Valid(c.st)
    ensures var (r, deeper) := CheckItems(c, names, i, outs);
            Valid(r.st) && r.st.wildcard == c.st.wildcard && r.st.inferred == c.st.inferred
    decreases |names| - i
  {
    hide CheckItem;
    if i < |names| {
      var p := Peeked(c, i);
      assert Valid(p.st);
      hide Valid;
      if i < |p.st.items| {
        CheckItemValid(p, names, i, outs);
        CheckItemsValid(CheckItem(p, names, i, outs), names, i + 1, outs);
      }
    }
  }

  lemma CheckedValid(st: StackState, comment: Option<seq<string>>, allowElide: bool, created: set<nat>, outs: seq<string>)
    requires Valid(st)
    ensures Valid(Checked(st, comment, allowElide, created, outs).0)
  {
    hide CheckItems;
    if comment.Some? {
      var (names, wild) := StripWildcard(comment.value);
      CheckItemsValid(Checking(st.(wildcard := wild), created, map[], None), names, 0, outs);
      var c := CheckItems(Checking(st.(wildcard := wild), created, map[], None), names, 0, outs).0;
      CutValid(c.st, |names|);
      hide Valid;
    }
  }

  lemma CutValid(st: StackState, n: nat)
    requires Valid(st)
    ensures n < |st.items| ==> Valid(st.(items := st.items[|st.items| - n..]))
  {
  }

  lemma AppliedValid(st: StackState, op: StackOp, comment: Option<seq<string>>)
    requires Valid(st)
    ensures Valid(Applied(st, op, comment).0)
  {
    hide Checked, PushOuts, Pull;
    var st' := if comment.Some? && HasWildcard(comment.value) then st.(wildcard := true) else st;
    PullValid(st', |op.ins|);
    var (p, ok) := Pull(st', |op.ins|);
    if ok {
      var base := p.(items := p.items[..|p.items| - |op.ins|]);
      PushOutsValid(base, op.ins, TopItems(p, |op.ins|), op.outs);
      CheckedValid(PushOuts(base, op.ins, TopItems(p, |op.ins|), op.outs).0, comment, true,
                   PushOuts(base, op.ins, TopItems(p, |op.ins|), op.outs).1, op.outs);
    }
  }
}
