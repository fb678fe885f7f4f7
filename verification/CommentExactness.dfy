/** What an accepted stack comment guarantees, and which comments are accepted. */
module CommentExactness {
  import opened Base
  import opened StackComment
  import opened SymbolicStack
  import opened Tracking

  // ----- accepted comments are exact -----

  /** The first i positions carry the names of the comment, and first records them. */
  ghost predicate NamedUpTo(c: Checking, names: seq<string>, i: nat)
    requires i <= |names|
  {
    && i <= |c.st.items|
    && (forall x :: x in c.first ==> x in c.st.itemToName && c.st.itemToName[x] == c.first[x])
    && (forall j :: 0 <= j < i ==> Top(c.st, j) in c.first && c.first[Top(c.st, j)] == Resolve(names[j]))
  }

  lemma CheckItemNames(c: Checking, names: seq<string>, i: nat, outs: seq<string>)
    requires i < |names| && i < |c.st.items|
    requires NamedUpTo(c, names, i)
    requires CheckItem(c, names, i, outs).err.None?
    ensures NamedUpTo(CheckItem(c, names, i, outs), names, i + 1)
    ensures c.err.None?
  {
    hide Resolve, Splits, Conflicts, Renames;
    var c' := if Splits(c, names, i, outs) then Split(c, i) else c;
    var item := Top(c'.st, i);
    var r := CheckItem(c, names, i, outs);
    forall j | 0 <= j < i + 1
      ensures Top(r.st, j) in r.first && r.first[Top(r.st, j)] == Resolve(names[j])
    {
      if j < i {
        assert Top(r.st, j) == Top(c'.st, j) == Top(c.st, j);
      }
    }
  }

  lemma GrowNames(c: Checking, names: seq<string>, i: nat)
    requires i <= |names| && NamedUpTo(c, names, i)
    ensures NamedUpTo(Peeked(c, i), names, i)
  {
    hide Resolve;
    var p := Peeked(c, i);
    assert forall j :: 0 <= j < |c.st.items| ==> Top(p.st, j) == Top(c.st, j);
  }

  lemma {:induction false} CheckItemsNames(c: Checking, names: seq<string>, i: nat, outs: seq<string>)
    requires i <= |names|
    requires NamedUpTo(c, names, i)
    requires !c.st.inferred
    requires var (r, deeper) := CheckItems(c, names, i, outs); r.err.None? && !deeper
    ensures NamedUpTo(CheckItems(c, names, i, outs).0, names, |names|)
    ensures c.err.None?
    decreases |names| - i
  {
    hide CheckItem, NamedUpTo;
    if i < |names| {
      var p := Peeked(c, i);
      GrowNames(c, names, i);
      if i < |p.st.items| {
        CheckItemMode(p, names, i, outs);
        assert CheckItem(p, names, i, outs).err.None? by {
          ErrorSticks(CheckItem(p, names, i, outs), names, i + 1, outs);
        }
        CheckItemNames(p, names, i, outs);
        CheckItemsNames(CheckItem(p, names, i, outs), names, i + 1, outs);
      }
    }
  }

  lemma CheckItemMode(c: Checking, names: seq<string>, i: nat, outs: seq<string>)
    requires i < |names| && i < |c.st.items|
    ensures CheckItem(c, names, i, outs).st.inferred == c.st.inferred
    ensures c.err.Some? ==> CheckItem(c, names, i, outs).err == c.err
  {
  }

  lemma {:induction false} ErrorSticks(c: Checking, names: seq<string>, i: nat, outs: seq<string>)
    requires i <= |names|
    ensures c.err.Some? ==> CheckItems(c, names, i, outs).0.err == c.err
    decreases |names| - i
  {
    hide CheckItem;
    if i < |names| && i < |Peeked(c, i).st.items| {
      CheckItemMode(Peeked(c, i), names, i, outs);
      ErrorSticks(CheckItem(Peeked(c, i), names, i, outs), names, i + 1, outs);
    }
  }

  /**
   * Outside of inferred mode, if a comment is accepted, the stack items begin with exactly the
   * names the comment resolves to. A label comment without wildcard names all of the stack.
   */
  lemma AcceptedExact(st: StackState, comment: seq<string>, allowElide: bool, created: set<nat>, outs: seq<string>)
    requires !st.inferred
    requires Checked(st, Some(comment), allowElide, created, outs).1.None?
    ensures var r := Checked(st, Some(comment), allowElide, created, outs).0;
            var names := StripWildcard(comment).0;
            && |names| <= |r.items|
            && (!allowElide && !HasWildcard(comment) ==> |names| == |r.items|)
            && forall i :: 0 <= i < |names| ==>
                 Top(r, i) in r.itemToName && r.itemToName[Top(r, i)] == Resolve(names[i])
  {
    hide CheckItems, Resolve;
    var (names, wild) := StripWildcard(comment);
    var start := Checking(st.(wildcard := wild), created, map[], None);
    CheckItemsNames(start, names, 0, outs);
    var r := CheckItems(start, names, 0, outs).0;
    forall i | 0 <= i < |names|
      ensures Top(r.st, i) in r.st.itemToName && r.st.itemToName[Top(r.st, i)] == Resolve(names[i])
    {
      assert Top(r.st, i) in r.first;
    }
  }

  // ----- the names on a stack are plain -----

  /** No name on the stack has the form of an assignment. */
  ghost predicate Plain(st: StackState) {
    forall x :: x in st.itemToName ==> AssignName(st.itemToName[x]).None?
  }

  lemma IndexOfNone(s: string, c: char)
    requires c !in s
    ensures IndexOf(s, c) == -1
  {
  }

  lemma ResolvePlain(text: string)
    ensures AssignName(Resolve(text)).None?
  {
    if AssignName(text).Some? {
      IndexOfNone(Resolve(text), '=');
    }
  }

  lemma {:induction false} InitNamesPlain(st: StackState, names: seq<string>, confirmed: Option<seq<bool>>, n: nat)
    requires Plain(st) && n <= |names|
    requires confirmed.Some? ==> |confirmed.value| >= |names|
    ensures Plain(InitNames(st, names, confirmed, n))
    decreases n
  {
    hide AssignName, Resolve;
    if n > 0 {
      ResolvePlain(names[n - 1]);
      InitNamesPlain(InitOne(st, names[n - 1], ConfirmAt(confirmed, n - 1)), names, confirmed, n - 1);
    }
  }

  lemma NewStackPlain(names: seq<string>, confirmed: Option<seq<bool>>)
    requires ConfirmsNames(names, confirmed)
    ensures Plain(NewStack(names, confirmed))
  {
    if |names| > 0 {
      var shown := StripWildcard(names).0;
      InitNamesPlain(EMPTY.(wildcard := HasWildcard(names)), shown, confirmed, |shown|);
    }
  }

  lemma CheckItemPlain(c: Checking, names: seq<string>, i: nat, outs: seq<string>)
    requires i < |names| && i < |c.st.items| && Plain(c.st)
    ensures Plain(CheckItem(c, names, i, outs).st)
  {
    hide AssignName, Resolve, Splits, NamingError;
    ResolvePlain(names[i]);
  }

  lemma {:induction false} CheckItemsPlain(c: Checking, names: seq<string>, i: nat, outs: seq<string>)
    requires i <= |names| && Plain(c.st)
    ensures Plain(CheckItems(c, names, i, outs).0.st)
    decreases |names| - i
  {
    hide CheckItem;
    if i < |names| && i < |Peeked(c, i).st.items| {
      CheckItemPlain(Peeked(c, i), names, i, outs);
      CheckItemsPlain(CheckItem(Peeked(c, i), names, i, outs), names, i + 1, outs);
    }
  }

  lemma {:induction false} PullNames(st: StackState, n: nat)
    ensures Pull(st, n).0.itemToName == st.itemToName
  {
    if n > 0 {
      PullNames(st, n - 1);
    }
  }

  lemma {:induction false} PushOutsNames(st: StackState, ins: seq<string>, popped: seq<nat>, outs: seq<string>)
    requires |popped| == |ins|
    ensures PushOuts(st, ins, popped, outs).0.itemToName == st.itemToName
  {
    if outs != [] {
      PushOutsNames(st, ins, popped, outs[1..]);
    }
  }

  lemma CheckedPlain(st: StackState, comment: Option<seq<string>>, allowElide: bool, created: set<nat>, outs: seq<string>)
    requires Plain(st)
    ensures Plain(Checked(st, comment, allowElide, created, outs).0)
  {
    hide CheckItems, AssignName;
    if comment.Some? {
      var (names, wild) := StripWildcard(comment.value);
      CheckItemsPlain(Checking(st.(wildcard := wild), created, map[], None), names, 0, outs);
    }
  }

  lemma AppliedPlain(st: StackState, op: StackOp, comment: Option<seq<string>>)
    requires Plain(st)
    ensures Plain(Applied(st, op, comment).0)
  {
    hide Checked, Pull, PushOuts, AssignName;
    var st' := if comment.Some? && HasWildcard(comment.value) then st.(wildcard := true) else st;
    PullNames(st', |op.ins|);
    var (p, ok) := Pull(st', |op.ins|);
    if ok {
      var base := p.(items := p.items[..|p.items| - |op.ins|]);
      var popped := TopItems(p, |op.ins|);
      PushOutsNames(base, op.ins, popped, op.outs);
      var (s, created) := PushOuts(base, op.ins, popped, op.outs);
      CheckedPlain(s, comment, true, created, op.outs);
    }
  }

  /** The stack with which a block is walked: new, possibly grown at the bottom, and possibly with a label comment. */
  function Opening(names: seq<string>, confirmed: Option<seq<bool>>, inferred: bool, preGrow: nat, heading: Option<seq<string>>): StackState
    requires ConfirmsNames(names, confirmed)
  {
    var s := Grow(NewStack(names, confirmed).(inferred := inferred), preGrow);
    if heading.Some? then LabelChecked(s, heading.value).0 else s
  }

  lemma OpeningPlain(names: seq<string>, confirmed: Option<seq<bool>>, inferred: bool, preGrow: nat, heading: Option<seq<string>>)
    requires ConfirmsNames(names, confirmed)
    ensures var s := Opening(names, confirmed, inferred, preGrow, heading); Valid(s) && Plain(s)
  {
    NewStackPlain(names, confirmed);
    NewStackValid(names, confirmed);
    var s := NewStack(names, confirmed).(inferred := inferred);
    assert Valid(s) && Plain(s);
    GrowValid(s, preGrow);
    assert Plain(Grow(s, preGrow));
    hide Valid, Plain, NewStack, Grow, Checked;
    if heading.Some? {
      CheckedValid(Grow(s, preGrow), heading, false, {}, []);
      CheckedPlain(Grow(s, preGrow), heading, false, {}, []);
    }
  }

  /** Every stack that operations and comments lead to is valid, and has plain names only. */
  lemma {:induction false} RunPlain(s: StackState, events: seq<Event>)
    requires Valid(s) && Plain(s)
    ensures Valid(RunState(s, events)) && Plain(RunState(s, events))
    decreases |events|
  {
    hide Valid, Plain, Applied;
    if events != [] {
      AppliedValid(s, events[0].op, events[0].comment);
      AppliedPlain(s, events[0].op, events[0].comment);
      RunPlain(Applied(s, events[0].op, events[0].comment).0, events[1..]);
    }
  }

  // ----- the stack's own names are accepted -----

  ghost predicate FullyNamed(st: StackState) {
    forall i :: 0 <= i < |st.items| ==> st.items[i] in st.itemToName
  }

  /** The check so far changed nothing but the confirmed set and the choice between items of equal name. */
  ghost predicate Unchanged(c: Checking, st: StackState) {
    && Valid(c.st) && Plain(c.st) && FullyNamed(c.st)
    && c.st.items == st.items && c.st.itemToName == st.itemToName
    && c.err.None?
    && forall x :: x in c.first ==> x in st.itemToName && c.first[x] == st.itemToName[x]
  }

  lemma NoSplit(c: Checking, names: seq<string>, i: nat, outs: seq<string>)
    requires i < |names| && i < |c.st.items| && AssignName(names[i]).None?
    ensures !Splits(c, names, i, outs)
  {
  }

  lemma OwnName(c: Checking, st: StackState, names: seq<string>, i: nat, outs: seq<string>)
    requires Unchanged(c, st)
    requires i < |names| == |st.items|
    requires names[i] == st.itemToName[Top(st, i)]
    ensures Unchanged(CheckItem(c, names, i, outs), st)
  {
    hide Splits, AssignName;
    var item := Top(c.st, i);
    assert item in c.st.itemToName && AssignName(c.st.itemToName[item]).None?;
    NoSplit(c, names, i, outs);
    var r := CheckItem(c, names, i, outs);
    assert r.st.itemToName == st.itemToName;
    NamedValid(c.st, item, names[i]);
  }

  lemma {:induction false} OwnNames(c: Checking, st: StackState, names: seq<string>, i: nat, outs: seq<string>)
    requires Unchanged(c, st)
    requires i <= |names| == |st.items|
    requires forall j :: 0 <= j < |names| ==> Top(st, j) in st.itemToName && names[j] == st.itemToName[Top(st, j)]
    ensures var (r, deeper) := CheckItems(c, names, i, outs); !deeper && Unchanged(r, st)
    decreases |names| - i
  {
    hide CheckItem;
    if i < |names| {
      OwnName(c, st, names, i, outs);
      OwnNames(CheckItem(c, names, i, outs), st, names, i + 1, outs);
    }
  }

  /**
   * On a fully named stack, a comment equal to the stack's own items is always accepted, and leaves
   * the items as they are.
   */
  lemma OwnItemsAccepted(st: StackState, allowElide: bool, created: set<nat>, outs: seq<string>)
    requires Valid(st) && Plain(st) && FullyNamed(st)
    requires !HasWildcard(ItemTexts(st))
    ensures var (r, err) := Checked(st, Some(ItemTexts(st)), allowElide, created, outs);
            err.None? && Valid(r) && ItemTexts(r) == ItemTexts(st)
  {
    hide CheckItems;
    var names := ItemTexts(st);
    forall j | 0 <= j < |names|
      ensures Top(st, j) in st.itemToName && names[j] == st.itemToName[Top(st, j)]
    {
    }
    var start := Checking(st.(wildcard := false), created, map[], None);
    OwnNames(start, st, names, 0, outs);
  }

  /**
   * After any run of operations and comments, whatever it does, a comment equal to the items of the stack
   * is accepted and changes none of them, if all items have names.
   */
  lemma ReachedItemsAccepted(names: seq<string>, confirmed: Option<seq<bool>>, inferred: bool, preGrow: nat,
                             heading: Option<seq<string>>, events: seq<Event>,
                             allowElide: bool, created: set<nat>, outs: seq<string>)
    requires ConfirmsNames(names, confirmed)
    requires var st := RunState(Opening(names, confirmed, inferred, preGrow, heading), events);
             FullyNamed(st) && !HasWildcard(ItemTexts(st))
    ensures var st := RunState(Opening(names, confirmed, inferred, preGrow, heading), events);
            var (r, err) := Checked(st, Some(ItemTexts(st)), allowElide, created, outs);
            err.None? && ItemTexts(r) == ItemTexts(st)
  {
    OpeningPlain(names, confirmed, inferred, preGrow, heading);
    hide Opening, Valid, Plain, FullyNamed, RunState, Checked, ItemTexts, HasWildcard;
    RunPlain(Opening(names, confirmed, inferred, preGrow, heading), events);
    OwnItemsAccepted(RunState(Opening(names, confirmed, inferred, preGrow, heading), events), allowElide, created, outs);
  }

  // ----- assignments -----

  lemma {:induction false} FirstIndex(s: string, c: char, k: nat)
    requires k < |s| && s[k] == c && forall i :: 0 <= i < k ==> s[i] != c
    ensures IndexOf(s, c) == k
  {
    if k > 0 {
      FirstIndex(s[1..], c, k - 1);
    }
  }

  /** An item assigns a name if and only if it is the name, an equals sign, and an expression that does not start with another one. */
  lemma AssignIff(item: string, name: string)
    ensures AssignName(item) == Some(name)
         <==> exists expr: string :: IsIdentifier(name) && expr != [] && expr[0] != '=' && item == name + "=" + expr
  {
    if AssignName(item) == Some(name) {
      var eq := IndexOf(item, '=');
      assert item == name + "=" + item[eq + 1..];
    }
    if expr: string :| IsIdentifier(name) && expr != [] && expr[0] != '=' && item == name + "=" + expr {
      assert item[|name|] == '=' && item[|name| + 1] == expr[0] && item[..|name|] == name;
      FirstIndex(item, '=', |name|);
      assert name[|name| - 1] == item[|name| - 1];
    }
  }
}
