/** What a label comment may say where control flow joins (computeConfirmed and checkBlock in internal/stackcheck/check.go). */
module MergeVerdict {
  import opened Base
  import opened StackComment
  import opened SymbolicStack
  import opened CommentVerdict
  import opened Worklist
  import opened Reporting
  import Blocks
  import Propagation

  /** Names that assign nothing and are no wildcard. */
  predicate PlainNames(names: seq<string>) {
    forall i :: 0 <= i < |names| ==> AssignName(names[i]).None? && names[i] != WILDCARD
  }

  // ----- a stack of names that all differ -----

  /** All positions from n on have been pushed: position i holds item |names| - i, with the name given to it. */
  ghost predicate Filled(st: StackState, names: seq<string>, mask: seq<bool>, n: nat) {
    && n <= |names| == |mask| && st.counter == |st.items| == |names| - n
    && (forall k :: 0 <= k < |st.items| ==> st.items[k] == k + 1)
    && (forall i :: n <= i < |names| ==> HoldsName(st, names, mask, i))
    && (forall name :: name in st.nameToItem ==> name in names)
  }

  ghost predicate HoldsName(st: StackState, names: seq<string>, mask: seq<bool>, i: nat)
    requires i < |names| == |mask|
  {
    var item := |names| - i;
    && item in st.itemToName && st.itemToName[item] == names[i]
    && names[i] in st.nameToItem && st.nameToItem[names[i]] == item
    && (item in st.confirmed <==> mask[i])
  }

  lemma FilledStep(st: StackState, names: seq<string>, mask: seq<bool>, n: nat)
    requires Filled(st, names, mask, n) && n > 0 && Distinct(names) && PlainNames(names) && Valid(st)
    ensures Filled(InitOne(st, names[n - 1], Some(mask[n - 1])), names, mask, n - 1)
  {
    hide AssignName;
    var r := InitOne(st, names[n - 1], Some(mask[n - 1]));
    assert Resolve(names[n - 1]) == names[n - 1];
    forall i | n - 1 <= i < |names|
      ensures HoldsName(r, names, mask, i)
    {
      if i >= n {
        assert HoldsName(st, names, mask, i);
      }
    }
  }

  lemma {:induction false} FilledAll(st: StackState, names: seq<string>, mask: seq<bool>, n: nat)
    requires Filled(st, names, mask, n) && Distinct(names) && PlainNames(names) && Valid(st)
    ensures Filled(InitNames(st, names, Some(mask), n), names, mask, 0)
    decreases n
  {
    hide InitOne, Filled, Valid, PlainNames;
    if n > 0 {
      FilledSize(st, names, mask, n);
      FilledStep(st, names, mask, n);
      InitOneValid(st, names[n - 1], Some(mask[n - 1]));
      FilledAll(InitOne(st, names[n - 1], Some(mask[n - 1])), names, mask, n - 1);
    }
  }

  lemma FilledSize(st: StackState, names: seq<string>, mask: seq<bool>, n: nat)
    requires Filled(st, names, mask, n)
    ensures n <= |names| == |mask|
  {
  }

  lemma NewFilled(names: seq<string>, mask: seq<bool>)
    requires |mask| == |names| && Distinct(names) && PlainNames(names)
    ensures ConfirmsNames(names, Some(mask)) && !HasWildcard(names)
    ensures Filled(NewStack(names, Some(mask)), names, mask, 0) && Valid(NewStack(names, Some(mask)))
  {
    NewStackValid(names, Some(mask));
    hide AssignName, Valid;
    if |names| > 0 {
      assert Filled(EMPTY, names, mask, |names|) && Valid(EMPTY) by { EmptyValid(); }
      hide Filled, InitNames;
      FilledAll(EMPTY, names, mask, |names|);
    }
  }

  lemma EmptyValid()
    ensures Valid(EMPTY)
  {
  }

  // ----- one new name -----

  lemma OldPosition(st: StackState, names: seq<string>, mask: seq<bool>, comment: seq<string>, j: nat, i: nat)
    requires Filled(st, names, mask, 0) && Distinct(names) && j < |names| && i < |names| && i != j
    requires |comment| == |names| && comment == names[j := comment[j]] && comment[j] !in names && PlainNames(comment)
    ensures i < |st.items| && PositionError(st, comment, {}, i).None?
  {
    hide AssignName;
    assert Resolve(comment[i]) == names[i];
    assert Top(st, i) == |names| - i;
    assert HoldsName(st, names, mask, i);
    assert !TwoNames(st, comment, i);
  }

  lemma NewPosition(st: StackState, names: seq<string>, mask: seq<bool>, comment: seq<string>, j: nat)
    requires Filled(st, names, mask, 0) && j < |names|
    requires |comment| == |names| && comment == names[j := comment[j]] && comment[j] !in names && PlainNames(comment)
    ensures j < |st.items| && PositionError(st, comment, {}, j) == if mask[j] then Some(Rename) else None
  {
    hide AssignName;
    assert Resolve(comment[j]) == comment[j];
    assert Top(st, j) == |names| - j;
    assert HoldsName(st, names, mask, j);
    assert !TwoNames(st, comment, j);
    assert !UsedBefore(comment, j) by {
      forall i | 0 <= i < j
        ensures Resolve(comment[i]) != Resolve(comment[j])
      {
        assert Resolve(comment[i]) == names[i];
      }
    }
    assert comment[j] !in st.nameToItem;
    hide TwoNames, UsedBefore;
  }

  lemma {:induction false} OnlyError(st: StackState, names: seq<string>, mask: seq<bool>, comment: seq<string>, j: nat, n: nat)
    requires Filled(st, names, mask, 0) && Distinct(names) && j < |names| && n <= |names|
    requires |comment| == |names| && comment == names[j := comment[j]] && comment[j] !in names && PlainNames(comment)
    ensures n <= |st.items| && FirstError(st, comment, {}, n) == if n > j && mask[j] then Some(Rename) else None
    decreases n
  {
    assert |st.items| == |names| == |mask|;
    hide PositionError, Filled, PlainNames, Distinct;
    if n > 0 {
      OnlyError(st, names, mask, comment, j, n - 1);
      if n - 1 == j {
        NewPosition(st, names, mask, comment, j);
      } else {
        OldPosition(st, names, mask, comment, j, n - 1);
      }
    }
  }

  /** All predecessors have the same name at a position. */
  ghost predicate AgreedAt(preds: map<int, seq<string>>, names: seq<string>, j: nat)
    requires j < |names|
  {
    forall k :: k in preds ==> j < |preds[k]| && preds[k][j] == names[j]
  }

  /**
   * Where blocks are joined whose names all differ, a label comment that gives a new name to one position
   * is an error if and only if all predecessors agree on the name of that position.
   */
  lemma MergeRename(bs: BlockState, inferred: bool, comment: seq<string>, j: nat)
    requires bs.predExits != map[] && !bs.entryWild
    requires var names := BaseNames(bs.predExits);
             && Distinct(names) && PlainNames(names) && PlainNames(comment)
             && j < |names| == |comment| && comment == names[j := comment[j]] && comment[j] !in names
    ensures LabelChecked(MergeStack(bs, inferred), comment).1
         == if AgreedAt(bs.predExits, BaseNames(bs.predExits), j) then Some(Rename) else None
  {
    var names := BaseNames(bs.predExits);
    var mask := ConfirmedMask(bs.predExits, names);
    NewFilled(names, mask);
    var st := MergeStack(bs, inferred);
    assert st == NewStack(names, Some(mask)).(inferred := inferred);
    StillFilled(NewStack(names, Some(mask)), names, mask, inferred);
    assert |st.items| == |names| by { hide HoldsName; }
    assert NoSplits(comment, []) && !HasWildcard(comment);
    assert mask[j] <==> AgreedAt(bs.predExits, names, j);
    hide Checked, Filled, Valid, FirstError, PlainNames, Distinct, BaseNames, NewStack, MergeStack, NoSplits, ConfirmedMask, AgreedAt;
    CheckVerdict(st, comment, false, {}, []);
    OnlyError(st, names, mask, comment, j, |names|);
    ComparedAll(st, comment);
  }

  lemma ComparedAll(st: StackState, names: seq<string>)
    requires |names| == |st.items|
    ensures Compared(st, names) == |names|
  {
  }

  lemma StillFilled(st: StackState, names: seq<string>, mask: seq<bool>, inferred: bool)
    requires Filled(st, names, mask, 0) && Valid(st)
    ensures Filled(st.(inferred := inferred), names, mask, 0) && Valid(st.(inferred := inferred))
  {
    var r := st.(inferred := inferred);
    forall i | 0 <= i < |names|
      ensures HoldsName(r, names, mask, i)
    {
      assert HoldsName(st, names, mask, i);
    }
  }

  /**
   * A label comment of the wrong length is reported, except that a comment that is too short is not
   * reported at the label if some predecessor arrives with the depth that the comment declares.
   */
  lemma LabelLength(blk: Blocks.Block, bs: BlockState, s: StackState, text: string, comment: seq<string>)
    requires blk.statements != [] && blk.labelComment == Some(text) && Parsed(text) == Ok(comment)
    requires Valid(s) && !HasWildcard(comment)
    requires if |comment| > |s.items| then !s.inferred else |comment| < |s.items|
    ensures LabelWarnings(blk, bs, s)
         == if |comment| > |s.items| then [Propagation.StackWarning(blk.statements[0], CommentUnderflow)]
            else if exists k :: k in bs.predExits && |bs.predExits[k]| == |comment| then []
            else [Propagation.StackWarning(blk.statements[0], CommentDepth)]
  {
    assert NoSplits(comment, []);
    hide Parsed, FirstError, Checked, Valid, NoSplits;
    CheckVerdict(s, comment, false, {}, []);
  }

  lemma MergedDepth(bs: BlockState)
    requires bs.predExits != map[] && !bs.entryWild && !HasWildcard(BaseNames(bs.predExits))
    ensures var st := MergeStack(bs, false);
            Valid(st) && !st.inferred && exists k :: k in bs.predExits && |st.items| == |bs.predExits[k]|
  {
    var names := BaseNames(bs.predExits);
    var base := BaseKey(bs.predExits);
    assert base in bs.predExits && names == bs.predExits[base];
    NewStackValid(names, Some(ConfirmedMask(bs.predExits, names)));
    hide BaseNames, Valid, ConfirmedMask, NewStack;
    assert MergeStack(bs, false) == NewStack(names, Some(ConfirmedMask(bs.predExits, names))).(inferred := false);
    assert NewStack(names, Some(ConfirmedMask(bs.predExits, names))).(inferred := false) == NewStack(names, Some(ConfirmedMask(bs.predExits, names)));
  }

  /**
   * A statement that leads to a label with a depth other than the one its comment declares is reported,
   * at the label or at the statement.
   */
  lemma WrongDepthReported(blk: Blocks.Block, bs: BlockState, text: string, comment: seq<string>, k: int)
    requires blk.statements != [] && blk.labelComment == Some(text) && Parsed(text) == Ok(comment) && !HasWildcard(comment)
    requires bs.predExits != map[] && !bs.entryWild && !HasWildcard(BaseNames(bs.predExits))
    requires k in bs.predExits && k in bs.predSource && |bs.predExits[k]| != |comment|
    ensures LabelWarnings(blk, bs, MergeStack(bs, false)) != [] || BlockJumpWarns(blk, bs)
  {
    MergedDepth(bs);
    hide MergeStack, BaseNames, Parsed, Valid;
    var st := MergeStack(bs, false);
    if exists j :: j in bs.predExits && |bs.predExits[j]| == |comment| {
      assert BlockJumpWarns(blk, bs);
    } else {
      hide LabelWarnings;
      LabelLength(blk, bs, st, text, comment);
    }
  }
}
