/** The Stack object of internal/stack/stack.go, with its fields updated in place. */
module StackObject {
  import opened Base
  import opened StackComment
  import opened SymbolicStack

  class Stack {
    var counter: nat
    var stack: seq<nat>
    var wildcard: bool
    var inferred: bool
    var inferredItems: seq<nat>

    // item naming
    var nameToItem: map<string, nat>
    var itemToName: map<nat, string>
    var confirmedNames: set<nat>

    // buffers for Apply
    var opItems: map<string, nat>
    var opNewItems: set<nat>
    var opCopyPos: map<int, nat>

    /** The value of the stack that the specification functions talk about. */
    function State(): StackState
      reads this
    {
      StackState(counter, stack, wildcard, inferred, inferredItems, nameToItem, itemToName, confirmedNames)
    }

    /** Creates a stack initialized with the given item names. */
    constructor (items: seq<string>, confirmed: Option<seq<bool>>)
      requires ConfirmsNames(items, confirmed)
      ensures State() == NewStack(items, confirmed)
    {
      counter, stack, wildcard, inferred, inferredItems := 0, [], false, false, [];
      nameToItem, itemToName, confirmedNames := map[], map[], {};
      opItems, opNewItems, opCopyPos := map[], {}, map[];
      new;
      if |items| > 0 {
        Init(items, confirmed);
      }
    }

    method SetInferred()
      modifies this
      ensures State() == old(State()).(inferred := true)
    {
      inferred := true;
    }

    /** Reports whether unknown items may exist below the tracked items. */
    method HasWild() returns (wild: bool)
      ensures wild == State().wildcard
    {
      wild := wildcard;
    }

    /** Extends the stack downward by n unnamed items. */
    method GrowBottom(n: int)
      modifies this
      ensures State() == if n > 0 then Grow(old(State()), n) else old(State())
    {
      if n > 0 {
        GrowBy(n);
      }
    }

    /** Clears the stack and sets its contents. */
    method Init(names: seq<string>, confirmed: Option<seq<bool>>)
      requires ConfirmsNames(names, confirmed)
      modifies this
      ensures State() == Inited(old(State()), names, confirmed)
    {
      hide InitOne, HasWildcard;
      nameToItem, itemToName, confirmedNames := map[], map[], {};
      var (stripped, wild) := StripWildcard(names);
      wildcard := wild;
      stack := [];
      ghost var start := State();
      var i := |stripped|;
      while i > 0
        invariant 0 <= i <= |stripped|
        invariant InitNames(State(), stripped, confirmed, i) == InitNames(start, stripped, confirmed, |stripped|)
      {
        i := i - 1;
        InitItem(stripped[i], if confirmed.None? then None else Some(confirmed.value[i]));
      }
    }

    /** Pushes a named item. Without a confirmation flag, equal names share one item. */
    method InitItem(text: string, confirm: Option<bool>)
      modifies this
      ensures State() == InitOne(old(State()), text, confirm)
    {
      var name := text;
      var lhs := AssignName(name);
      if lhs.Some? {
        name := lhs.value;
      }
      if confirm.None? && name in nameToItem {
        PushItem(nameToItem[name]);
      } else {
        var item := NewItem();
        PushItem(item);
        AssignItemName(item, name);
        if confirm.None? || confirm.value {
          confirmedNames := confirmedNames + {item};
        }
      }
    }

    /** Performs a stack manipulation. The comment is checked for correctness if there is one. */
    method Apply(op: StackOp, comment: Option<seq<string>>) returns (err: Option<StackError>)
      requires Distinct(op.ins)
      modifies this
      ensures (State(), err) == Applied(old(State()), op, comment)
    {
      hide Pull, PushOuts, Checked, CopiesOf, Holds, HasWildcard;
      if comment.Some? && HasWildcard(comment.value) {
        wildcard := true;
      }
      ghost var start := State();
      var ok := TakeInputs(op.ins);
      if !ok {
        return Some(OpUnderflow);
      }
      ghost var popped := TopItems(Pull(start, |op.ins|).0, |op.ins|);
      PushOutputs(op, popped);
      FindCopies(op.outs);
      err := CheckNames(comment, true, op.outs);
    }

    /** opItems holds the consumed items by name. */
    ghost predicate Holds(ins: seq<string>, popped: seq<nat>)
      requires |popped| <= |ins|
      reads `opItems
    {
      && (forall k :: 0 <= k < |popped| ==> ins[k] in opItems && opItems[ins[k]] == popped[k])
      && (forall name :: name in opItems ==> name in ins[..|popped|])
    }

    lemma HoldsNothing(ins: seq<string>)
      requires opItems == map[]
      ensures Holds(ins, TopItems(State(), 0))
    {
    }

    method Remember(ins: seq<string>, i: nat, item: nat, ghost popped: seq<nat>)
      requires Distinct(ins) && |popped| == i < |ins| && Holds(ins, popped)
      modifies `opItems
      ensures Holds(ins, popped + [item])
    {
      opItems := opItems[ins[i] := item];
      assert ins[..|popped| + 1] == ins[..|popped|] + [ins[|popped|]];
    }

    /** Drops the consumed items, but remembers them by name. */
    method TakeInputs(ins: seq<string>) returns (ok: bool)
      requires Distinct(ins)
      modifies this
      ensures var (p, can) := Pull(old(State()), |ins|);
              && ok == can
              && State() == (if can then p.(items := p.items[..|p.items| - |ins|]) else p)
              && (can ==> Holds(ins, TopItems(p, |ins|)))
    {
      hide Access, TopItems, Holds;
      opItems := map[];
      HoldsNothing(ins);
      var i := 0;
      while i < |ins|
        invariant 0 <= i <= |ins|
        invariant (State(), true) == Pull(old(State()), i)
        invariant Holds(ins, TopItems(State(), i))
      {
        ghost var before := State();
        var val := Get(i);
        if val.None? {
          PullStops(old(State()), i + 1, |ins|);
          return false;
        }
        AccessTop(before, i);
        Remember(ins, i, val.value, TopItems(before, i));
        i := i + 1;
      }
      stack := stack[..|stack| - |ins|];
      ok := true;
    }

    /** Adds output items. Names of inputs stand for the input items, all other names for new items. */
    method PushOutputs(op: StackOp, ghost popped: seq<nat>)
      requires |popped| == |op.ins| && Holds(op.ins, popped)
      modifies this
      ensures (State(), opNewItems) == PushOuts(old(State()), op.ins, popped, op.outs)
    {
      opNewItems := {};
      var j := |op.outs|;
      while j > 0
        invariant 0 <= j <= |op.outs|
        invariant (State(), opNewItems) == PushOuts(old(State()), op.ins, popped, op.outs[j..])
        invariant opItems == old(opItems)
      {
        j := j - 1;
        assert op.outs[j..][1..] == op.outs[j + 1..];
        assert op.ins[..|popped|] == op.ins;
        if op.outs[j] in opItems {
          PushItem(opItems[op.outs[j]]);
        } else {
          var item := NewItem();
          PushItem(item);
          opNewItems := opNewItems + {item};
        }
      }
      assert op.outs[0..] == op.outs;
    }

    /** Determines output positions holding a copy of a value that also exists deeper in the output. */
    method FindCopies(outs: seq<string>)
      modifies `opCopyPos
      ensures CopiesOf(outs)
    {
      hide NextSame;
      opCopyPos := map[];
      var i := 0;
      while i < |outs|
        invariant 0 <= i <= |outs|
        invariant forall k :: 0 <= k < i ==> (k in opCopyPos <==> NextSame(outs, k) >= 0)
        invariant forall k :: k in opCopyPos ==> 0 <= k < i && opCopyPos[k] == NextSame(outs, k)
      {
        var j := i + 1;
        while j < |outs| && outs[i] != outs[j]
          invariant i + 1 <= j <= |outs|
          invariant outs[i] !in outs[i + 1..j]
        {
          j := j + 1;
        }
        NextSameIs(outs, i, j);
        if j < |outs| {
          opCopyPos := opCopyPos[i := j];
        }
        i := i + 1;
      }
    }

    /** opCopyPos maps every copied output position to the next position with the same value. */
    ghost predicate CopiesOf(outs: seq<string>)
      reads `opCopyPos
    {
      && (forall i :: 0 <= i < |outs| ==> (i in opCopyPos <==> NextSame(outs, i) >= 0))
      && (forall i :: i in opCopyPos ==> 0 <= i < |outs| && opCopyPos[i] == NextSame(outs, i))
    }

    /** Verifies a standalone stack comment against the current stack state. */
    method CheckComment(comment: seq<string>) returns (err: Option<StackError>)
      modifies this
      ensures (State(), err) == LabelChecked(old(State()), comment)
    {
      opNewItems := {};
      opCopyPos := map[];
      err := CheckNames(Some(comment), false, []);
    }

    /** The comment-checking logic shared by Apply and CheckComment. */
    method CheckNames(comment: Option<seq<string>>, allowElide: bool, ghost outs: seq<string>)
      returns (err: Option<StackError>)
      requires CopiesOf(outs)
      modifies this
      ensures (State(), err) == Checked(old(State()), comment, allowElide, old(opNewItems), outs)
    {
      hide CheckItem, CopiesOf, Grow, HasWildcard;
      if comment.None? {
        return None;
      }
      var (names, wild) := StripWildcard(comment.value);
      wildcard := wild;
      var namingError: Option<StackError> := None;
      var firstName: map<nat, string> := map[];
      ghost var start := Checking(State(), opNewItems, firstName, None);
      var i := 0;
      while i < |names|
        invariant 0 <= i <= |names|
        invariant CopiesOf(outs)
        invariant wildcard == wild
        invariant CheckItems(Checking(State(), opNewItems, firstName, namingError), names, i, outs) == CheckItems(start, names, 0, outs)
      {
        var stackItem := Peek(i);
        if stackItem.None? {
          if inferred {
            break;
          }
          return Some(CommentUnderflow);
        }
        firstName, namingError := CheckName(names, i, firstName, namingError, outs);
        i := i + 1;
      }
      if !wild && !allowElide && |names| < |stack| {
        stack := stack[|stack| - |names|..];
        return Some(CommentDepth);
      }
      return namingError;
    }

    /** Checks one name of a comment against the item at its position, and applies it. */
    method CheckName(names: seq<string>, i: nat, firstName0: map<nat, string>, namingError0: Option<StackError>,
                     ghost outs: seq<string>)
      returns (firstName: map<nat, string>, namingError: Option<StackError>)
      requires i < |names| && i < |stack|
      requires CopiesOf(outs)
      modifies this
      ensures opCopyPos == old(opCopyPos) && inferred == old(inferred) && wildcard == old(wildcard)
      ensures Checking(State(), opNewItems, firstName, namingError)
              == CheckItem(Checking(old(State()), old(opNewItems), firstName0, namingError0), names, i, outs)
    {
      SplitCopy(names, i, firstName0, namingError0, outs);
      var name := names[i];
      var explicit := false;
      var lhs := AssignName(name);
      if lhs.Some? {
        name, explicit := lhs.value, true;
      }
      firstName, namingError := ApplyName(stack[|stack| - 1 - i], name, explicit, firstName0, namingError0);
    }

    /** A copy produced by the operation may be given its own name through assignment syntax. */
    method SplitCopy(names: seq<string>, i: nat, ghost first: map<nat, string>, ghost err: Option<StackError>,
                     ghost outs: seq<string>)
      requires i < |names| && i < |stack|
      requires CopiesOf(outs)
      modifies this
      ensures opCopyPos == old(opCopyPos) && |stack| == |old(stack)|
      ensures var c := Checking(old(State()), old(opNewItems), first, err);
              Checking(State(), opNewItems, first, err) == if Splits(c, names, i, outs) then Split(c, i) else c
    {
      hide NextSame, AssignName;
      var lhs := AssignName(names[i]);
      if i in opCopyPos && lhs.Some? {
        var stackItem := stack[|stack| - 1 - i];
        var srcPos := opCopyPos[i];
        var srcName := if stackItem in itemToName then itemToName[stackItem] else "";
        if srcPos < |names| {
          srcName := names[srcPos];
          var srcLhs := AssignName(srcName);
          if srcLhs.Some? {
            srcName := srcLhs.value;
          }
        }
        if lhs.value != srcName {
          var item := NewItem();
          stack := stack[|stack| - 1 - i := item];
          opNewItems := opNewItems + {item};
        }
      }
    }

    method ApplyName(stackItem: nat, name: string, explicit: bool, firstName0: map<nat, string>,
                     namingError0: Option<StackError>)
      returns (firstName: map<nat, string>, namingError: Option<StackError>)
      modifies `itemToName, `nameToItem, `confirmedNames
      ensures Checking(State(), opNewItems, firstName, namingError)
              == NameItem(Checking(old(State()), opNewItems, firstName0, namingError0), stackItem, name, explicit)
    {
      firstName, namingError := firstName0, namingError0;
      if stackItem in firstName {
        if firstName[stackItem] != name && namingError.None? {
          namingError := Some(Mismatch);
        }
      } else {
        firstName := firstName[stackItem := name];
      }
      namingError := TakenName(stackItem, name, namingError);
      if !explicit && stackItem !in opNewItems && (name !in nameToItem || nameToItem[name] == 0) {
        if stackItem in confirmedNames && namingError.None? {
          namingError := Some(Rename);
        }
      }
      AssignItemName(stackItem, name);
      confirmedNames := confirmedNames + {stackItem};
    }

    /** A name taken by a different item is an error unless the item is new or the other one is gone. */
    method TakenName(stackItem: nat, name: string, namingError0: Option<StackError>) returns (namingError: Option<StackError>)
      ensures namingError == if namingError0.None? && Conflicts(Checking(State(), opNewItems, map[], None), stackItem, name)
                             then Some(Mismatch) else namingError0
    {
      namingError := namingError0;
      if name in nameToItem && nameToItem[name] != stackItem {
        var current := if stackItem in itemToName then itemToName[stackItem] else "";
        if stackItem !in opNewItems && current != name && nameToItem[name] in stack && namingError.None? {
          namingError := Some(Mismatch);
        }
      }
    }

    /** The current stack items, top first. */
    method Items() returns (items: seq<string>)
      ensures items == ItemTexts(State())
    {
      items := [];
      var i := 0;
      while i < |stack|
        invariant 0 <= i <= |stack|
        invariant items == ItemTexts(State())[..i]
      {
        items := items + [GetName(stack[|stack| - 1 - i])];
        i := i + 1;
      }
    }

    /** The names of the items created by extending the stack downward in inferred mode. */
    method InferredInputs() returns (items: seq<string>)
      requires inferred
      ensures |items| == |inferredItems|
      ensures forall i :: 0 <= i < |items| ==> items[i] == ItemText(State(), inferredItems[i])
    {
      items := [];
      var i := 0;
      while i < |inferredItems|
        invariant 0 <= i <= |inferredItems| && |items| == i
        invariant forall k :: 0 <= k < i ==> items[k] == ItemText(State(), inferredItems[k])
      {
        items := items + [GetName(inferredItems[i])];
        i := i + 1;
      }
    }

    method PushItem(item: nat)
      modifies `stack
      ensures stack == old(stack) + [item]
    {
      stack := stack + [item];
    }

    /** Accesses item i (zero is top). In wildcard mode, deeper accesses create new items. */
    method Peek(i: nat) returns (val: Option<nat>)
      modifies this
      ensures opNewItems == old(opNewItems) && opCopyPos == old(opCopyPos)
      ensures wildcard == old(wildcard) && inferred == old(inferred)
      ensures State() == if i >= |old(stack)| && old(wildcard) then Grow(old(State()), i - (|old(stack)| - 1)) else old(State())
      ensures val == if i < |stack| then Some(Top(State(), i)) else None
    {
      if i > |stack| - 1 {
        if wildcard {
          GrowBy(i - (|stack| - 1));
        } else {
          return None;
        }
      }
      return Some(stack[|stack| - 1 - i]);
    }

    /** Accesses item i (zero is top). In inferred or wildcard mode, deeper accesses create new items. */
    method Get(i: nat) returns (val: Option<nat>)
      modifies this
      ensures opItems == old(opItems)
      ensures (State(), val.Some?) == Access(old(State()), i)
      ensures val.Some? ==> i < |stack| && val.value == Top(State(), i)
    {
      if i > |stack| - 1 {
        if !inferred && !wildcard {
          return None;
        }
        GrowBy(i - (|stack| - 1));
      }
      return Some(stack[|stack| - 1 - i]);
    }

    /** Extends the stack downward by n items. */
    method GrowBy(n: nat)
      modifies this
      ensures opItems == old(opItems) && opNewItems == old(opNewItems) && opCopyPos == old(opCopyPos)
      ensures State() == Grow(old(State()), n)
    {
      var items: seq<nat> := [];
      var i := 0;
      while i < n
        invariant 0 <= i <= n
        invariant counter == old(counter) + i
        invariant items == NewItems(old(counter), i)
        invariant inferredItems == old(inferredItems) + (if inferred then items else [])
        invariant stack == old(stack) && wildcard == old(wildcard) && inferred == old(inferred)
        invariant nameToItem == old(nameToItem) && itemToName == old(itemToName) && confirmedNames == old(confirmedNames)
        invariant opItems == old(opItems) && opNewItems == old(opNewItems) && opCopyPos == old(opCopyPos)
      {
        var item := NewItem();
        items := items + [item];
        if inferred {
          inferredItems := inferredItems + [item];
        }
        i := i + 1;
      }
      stack := items + stack;
    }

    /** Creates a new item (but does not add it to the stack). */
    method NewItem() returns (item: nat)
      modifies `counter
      ensures counter == old(counter) + 1 && item == counter
    {
      counter := counter + 1;
      item := counter;
    }

    /** Sets the name of a stack item. */
    method AssignItemName(item: nat, name: string)
      modifies `itemToName, `nameToItem
      ensures State() == SetName(old(State()), item, name)
    {
      itemToName := itemToName[item := name];
      nameToItem := nameToItem[name := item];
    }

    /** The known name of an item, or an invented one. */
    function GetName(item: nat): string
      reads this
    {
      ItemText(State(), item)
    }
  }

  lemma {:induction false} PullStops(st: StackState, m: nat, n: nat)
    requires m <= n && !Pull(st, m).1
    ensures Pull(st, n) == Pull(st, m)
    decreases n
  {
    if m < n {
      PullStops(st, m, n - 1);
    }
  }

  lemma FindNameFirst(names: seq<string>, name: string, k: nat)
    requires k <= |names| && name !in names[..k]
    requires k < |names| ==> names[k] == name
    ensures FindName(names, name) == if k < |names| then k else -1
  {
    if k > 0 {
      assert names[..k][1..] == names[1..][..k - 1];
      assert names[0] == names[..k][0];
      FindNameFirst(names[1..], name, k - 1);
    }
  }

  lemma NextSameIs(outs: seq<string>, i: nat, j: nat)
    requires i < |outs| && i + 1 <= j <= |outs|
    requires outs[i] !in outs[i + 1..j]
    requires j < |outs| ==> outs[j] == outs[i]
    ensures NextSame(outs, i) == if j < |outs| then j else -1
  {
    assert outs[i + 1..][..j - (i + 1)] == outs[i + 1..j];
    FindNameFirst(outs[i + 1..], outs[i], j - (i + 1));
  }
}
