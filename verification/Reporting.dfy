/** Phase 2 of the stack checker: warnings from the stable block states (internal/stackcheck/check.go). */
module Reporting {
  import opened Base
  import opened StackComment
  import opened SymbolicStack
  import opened StackObject
  import opened Statements
  import opened Blocks
  import opened Worklist
  import opened Propagation

  // ----- specification -----

  /** A position is confirmed only if all predecessors agree on its name. */
  ghost function ConfirmedMask(preds: map<int, seq<string>>, names: seq<string>): (mask: seq<bool>)
    ensures |mask| == |names|
  {
    seq(|names|, j requires 0 <= j < |names| => forall k :: k in preds ==> j < |preds[k]| && preds[k][j] == names[j])
  }

  /** The stack at the start of a block that is not the first one. */
  ghost function MergeStack(bs: BlockState, inferred: bool): StackState {
    var names := BaseNames(bs.predExits);
    var shown := if bs.entryWild then names + [WILDCARD] else names;
    MaskFits(names, bs.entryWild);
    if bs.predExits == map[] then EMPTY.(inferred := inferred)
    else NewStack(shown, Some(ConfirmedMask(bs.predExits, names))).(inferred := inferred)
  }

  lemma MaskFits(names: seq<string>, wild: bool)
    ensures forall mask: seq<bool> :: |mask| == |names| ==> ConfirmsNames(if wild then names + [WILDCARD] else names, Some(mask))
  {
  }

  predicate LabelWild(b: Block) {
    LabelComment(b).Some? && HasWildcard(LabelComment(b).value)
  }

  /** Two forward predecessors arrive with different depths. */
  predicate ForwardDepthsDiffer(preds: map<int, seq<string>>, b: nat) {
    exists j, k :: j in preds && k in preds && j < b && k < b && |preds[j]| != |preds[k]|
  }

  predicate MergeDepthWarns(blk: Block, bs: BlockState, b: nat) {
    |bs.predExits| >= 2 && !LabelWild(blk) && !AnyPredWild(bs.predWild) && ForwardDepthsDiffer(bs.predExits, b)
  }

  /** The minimum depth of the forward predecessors, if there are any. */
  predicate IsEntryDepth(preds: map<int, seq<string>>, b: nat, d: nat) {
    && (exists k :: k in preds && k < b && |preds[k]| == d)
    && (forall k :: k in preds && k < b ==> d <= |preds[k]|)
  }

  lemma EntryDepthUnique(preds: map<int, seq<string>>, b: nat, d: nat, e: nat)
    requires IsEntryDepth(preds, b, d) && IsEntryDepth(preds, b, e)
    ensures d == e
  {
  }

  /** A back edge does not arrive with the depth of the forward edges. */
  predicate LoopWarns(blk: Block, bs: BlockState, b: nat) {
    && !LabelWild(blk) && !AnyPredWild(bs.predWild)
    && exists f, k :: && f in bs.predExits && f < b && IsEntryDepth(bs.predExits, b, |bs.predExits[f]|)
                      && k in bs.predExits && k >= b && |bs.predExits[k]| != |bs.predExits[f]|
  }

  predicate AnyDepthMatches(preds: map<int, seq<string>>, d: nat) {
    exists k :: k in preds && |preds[k]| == d
  }

  function LabelWarnings(blk: Block, bs: BlockState, s: StackState): seq<Warning>
    requires blk.statements != []
  {
    match blk.labelComment
    case None => []
    case Some(text) =>
      match Parsed(text)
      case Err(_) => [BadComment(blk.statements[0])]
      case Ok(comment) =>
        match LabelChecked(s, comment).1
        case None => []
        case Some(err) =>
          // A wrong depth is reported here only if no predecessor has the declared depth.
          if err == CommentDepth && AnyDepthMatches(bs.predExits, |StripWildcard(comment).0|) then []
          else [StackWarning(blk.statements[0], err)]
  }

  /** The stack with which block b is checked, before its label comment. */
  ghost function CheckStack(bs: BlockState, b: nat, initialItems: seq<string>, inferred: bool, preGrow: nat): StackState {
    if b == 0 then InitialStack(initialItems, inferred, preGrow) else MergeStack(bs, inferred)
  }

  ghost function BlockWarnings(fork: Fork, blk: Block, bs: BlockState, b: nat, s: StackState): seq<Warning>
    requires blk.statements != []
  {
    (if b > 0 && MergeDepthWarns(blk, bs, b) then [MergeDepth(blk.statements[0])] else [])
    + (if (b > 0 || |bs.predExits| > 1) && LoopWarns(blk, bs, b) then [LoopUnbalanced(blk.statements[0])] else [])
    + LabelWarnings(blk, bs, s)
    + WalkWarnings(fork, blk.statements, LabelApplied(blk, s))
  }

  /** The warnings of checkComments for blocks from b on. */
  ghost function CheckWarnings(fork: Fork, blocks: seq<Block>, states: seq<BlockState>, b: nat,
                               initialItems: seq<string>, inferred: bool, preGrow: nat): seq<Warning>
    requires ValidGraph(blocks) && |states| == |blocks| && b <= |blocks|
    decreases |blocks| - b
  {
    if b == |blocks| then []
    else
      assert ValidNode(blocks, b);
      (if states[b].reached
       then BlockWarnings(fork, blocks[b], states[b], b, CheckStack(states[b], b, initialItems, inferred, preGrow))
       else [])
      + CheckWarnings(fork, blocks, states, b + 1, initialItems, inferred, preGrow)
  }

  // ----- the methods -----

  /** Computes the merged entry names and the mask of positions on which all predecessors agree. */
  method ComputeConfirmed(preds: map<int, seq<string>>) returns (names: seq<string>, confirmed: seq<bool>)
    ensures names == BaseNames(preds)
    ensures confirmed == ConfirmedMask(preds, names)
  {
    names := MergeNames(preds);
    confirmed := seq(|names|, _ => true);
    var rest := preds.Keys;
    while rest != {}
      invariant rest <= preds.Keys
      invariant |confirmed| == |names|
      invariant forall j :: 0 <= j < |names| ==>
                  (confirmed[j] <==> forall k :: k in preds && k !in rest ==> j < |preds[k]| && preds[k][j] == names[j])
      decreases |rest|
    {
      SomeElement(rest);
      var pred :| pred in rest;
      var items := preds[pred];
      var before := confirmed;
      for j := 0 to |names|
        invariant |confirmed| == |names|
        invariant forall i :: 0 <= i < j ==> (confirmed[i] <==> before[i] && i < |items| && items[i] == names[i])
        invariant forall i :: j <= i < |names| ==> confirmed[i] == before[i]
      {
        if j >= |items| || items[j] != names[j] {
          confirmed := confirmed[j := false];
        }
      }
      rest := rest - {pred};
      forall j | 0 <= j < |names|
        ensures confirmed[j] <==> forall k :: k in preds && k !in rest ==> j < |preds[k]| && preds[k][j] == names[j]
      {
        assert preds[pred] == items;
      }
    }
  }

  /** Reports forward predecessors with different depths. */
  method CheckMergeDepth(blk: Block, bs: BlockState, b: nat) returns (warns: bool)
    ensures warns == MergeDepthWarns(blk, bs, b)
  {
    if |bs.predExits| < 2 {
      return false;
    }
    var wild := AnyWild(bs.predWild);
    if LabelWild(blk) || wild {
      return false;
    }
    var seen: set<nat> := {};
    var rest := bs.predExits.Keys;
    while rest != {}
      invariant rest <= bs.predExits.Keys
      invariant forall d :: d in seen ==> exists k :: k in bs.predExits && k < b && |bs.predExits[k]| == d
      invariant forall k :: k in bs.predExits && k !in rest && k < b ==> |bs.predExits[k]| in seen
      decreases |rest|
    {
      SomeElement(rest);
      var pred :| pred in rest;
      rest := rest - {pred};
      if pred < b {
        seen := seen + {|bs.predExits[pred]|};
      }
    }
    warns := |seen| >= 2;
    SeenTwo(seen);
    if |seen| >= 2 {
      var x, y :| x in seen && y in seen && x != y;
    }
  }

  lemma SeenTwo(seen: set<nat>)
    ensures |seen| >= 2 <==> exists x, y :: x in seen && y in seen && x != y
  {
    if |seen| >= 2 {
      var x :| x in seen;
      assert |seen - {x}| >= 1;
      var y :| y in seen - {x};
      assert x in seen && y in seen && x != y;
    }
    if x, y :| x in seen && y in seen && x != y {
      assert {x, y} <= seen;
      SubsetSize({x, y}, seen);
    }
  }

  lemma {:induction false} SubsetSize(a: set<nat>, b: set<nat>)
    requires a <= b
    ensures |a| <= |b|
    decreases |a|
  {
    if a != {} {
      var x :| x in a;
      SubsetSize(a - {x}, b - {x});
    }
  }

  /** Reports a back edge with a depth different from that of the forward edges. */
  method CheckLoopBalance(blk: Block, bs: BlockState, b: nat) returns (warns: bool)
    ensures warns == LoopWarns(blk, bs, b)
  {
    var wild := AnyWild(bs.predWild);
    if LabelWild(blk) || wild {
      return false;
    }
    var preds := bs.predExits;
    var entryDepth := -1;
    var rest := preds.Keys;
    while rest != {}
      invariant rest <= preds.Keys
      invariant entryDepth < 0 ==> forall k :: k in preds && k !in rest ==> k >= b
      invariant entryDepth >= 0 ==> exists k :: k in preds && k < b && |preds[k]| == entryDepth
      invariant entryDepth >= 0 ==> forall k :: k in preds && k !in rest && k < b ==> entryDepth <= |preds[k]|
      decreases |rest|
    {
      SomeElement(rest);
      var pred :| pred in rest;
      rest := rest - {pred};
      if pred < b {
        if entryDepth < 0 || |preds[pred]| < entryDepth {
          entryDepth := |preds[pred]|;
        }
      }
    }
    if entryDepth < 0 {
      return false;
    }
    assert IsEntryDepth(preds, b, entryDepth);
    ghost var f :| f in preds && f < b && |preds[f]| == entryDepth;
    rest := preds.Keys;
    while rest != {}
      invariant rest <= preds.Keys
      invariant forall k :: k in preds && k !in rest && k >= b ==> |preds[k]| == entryDepth
      decreases |rest|
    {
      SomeElement(rest);
      var pred :| pred in rest;
      rest := rest - {pred};
      if pred >= b && |preds[pred]| != entryDepth {
        return true;
      }
    }
    warns := false;
    Balanced(blk, bs, b, entryDepth);
  }

  lemma Balanced(blk: Block, bs: BlockState, b: nat, d: nat)
    requires IsEntryDepth(bs.predExits, b, d)
    requires forall k :: k in bs.predExits && k >= b ==> |bs.predExits[k]| == d
    ensures !LoopWarns(blk, bs, b)
  {
    forall f | f in bs.predExits && f < b && IsEntryDepth(bs.predExits, b, |bs.predExits[f]|)
      ensures |bs.predExits[f]| == d
    {
      EntryDepthUnique(bs.predExits, b, |bs.predExits[f]|, d);
    }
  }

  /** Some predecessor arrives with the given depth. */
  method DepthMatches(preds: map<int, seq<string>>, d: nat) returns (anyMatch: bool)
    ensures anyMatch == AnyDepthMatches(preds, d)
  {
    var rest := preds.Keys;
    while rest != {}
      invariant rest <= preds.Keys
      invariant forall k :: k in preds && k !in rest ==> |preds[k]| != d
      decreases |rest|
    {
      SomeElement(rest);
      var pred :| pred in rest;
      rest := rest - {pred};
      if |preds[pred]| == d {
        return true;
      }
    }
    return false;
  }

  /** Verifies the block's label comment against the merged stack state. */
  method CheckLabelComment(blk: Block, bs: BlockState, s: Stack) returns (warnings: seq<Warning>)
    requires blk.statements != []
    modifies s
    ensures s.State() == LabelApplied(blk, old(s.State()))
    ensures warnings == LabelWarnings(blk, bs, old(s.State()))
  {
    hide Parsed, LabelChecked;
    if blk.labelComment.None? {
      return [];
    }
    var parsed := ParseComment(blk.labelComment.value);
    if parsed.Err? {
      return [BadComment(blk.statements[0])];
    }
    var comment := parsed.value;
    var err := s.CheckComment(comment);
    if err.None? {
      return [];
    }
    if err.value == CommentDepth {
      var commentItems := StripWildcard(comment).0;
      var anyMatch := DepthMatches(bs.predExits, |commentItems|);
      if anyMatch {
        return [];
      }
    }
    return [StackWarning(blk.statements[0], err.value)];
  }

  /** Checks one reachable block with its stable entry state. */
  method CheckBlock(fork: Fork, blk: Block, bs: BlockState, b: nat, initialItems: seq<string>, inferred: bool, preGrow: nat)
    returns (warnings: seq<Warning>)
    requires ValidFork(fork) && blk.statements != []
    ensures warnings == BlockWarnings(fork, blk, bs, b, CheckStack(bs, b, initialItems, inferred, preGrow))
  {
    hide WalkWarnings, LabelApplied, LabelWarnings, MergeDepthWarns, LoopWarns, InitialStack, MergeStack, Walked;
    warnings := [];
    var s: Stack;
    if b == 0 {
      s := NewInitialStack(initialItems, inferred, preGrow);
      if |bs.predExits| > 1 {
        var loops := CheckLoopBalance(blk, bs, b);
        if loops {
          warnings := warnings + [LoopUnbalanced(blk.statements[0])];
        }
      }
    } else {
      s := NewMergeStack(bs, inferred);
      var depths := CheckMergeDepth(blk, bs, b);
      if depths {
        warnings := warnings + [MergeDepth(blk.statements[0])];
      }
      var loops := CheckLoopBalance(blk, bs, b);
      if loops {
        warnings := warnings + [LoopUnbalanced(blk.statements[0])];
      }
    }
    var labels := CheckLabelComment(blk, bs, s);
    var walk := WalkBlock(fork, blk, s, true);
    warnings := warnings + labels + walk;
  }

  method NewInitialStack(initialItems: seq<string>, inferred: bool, preGrow: nat) returns (s: Stack)
    ensures fresh(s) && s.State() == InitialStack(initialItems, inferred, preGrow)
  {
    hide Inited, Grow;
    NewStackValid(initialItems, None);
    s := new Stack(initialItems, None);
    if inferred {
      s.SetInferred();
      s.GrowBottom(preGrow);
    }
  }

  method NewMergeStack(bs: BlockState, inferred: bool) returns (s: Stack)
    ensures fresh(s) && s.State() == MergeStack(bs, inferred)
  {
    hide Inited, BaseNames, ConfirmedMask;
    var names, confirmed := ComputeConfirmed(bs.predExits);
    MaskFits(names, bs.entryWild);
    if bs.predExits == map[] {
      // No names at all, as opposed to an empty list of names.
      s := new Stack([], None);
    } else {
      var shown := names;
      if bs.entryWild {
        shown := shown + [WILDCARD];
      }
      NewStackValid(shown, Some(confirmed));
      s := new Stack(shown, Some(confirmed));
    }
    if inferred {
      s.SetInferred();
    }
  }

  lemma CheckWarningsStep(fork: Fork, blocks: seq<Block>, states: seq<BlockState>, b: nat,
                          initialItems: seq<string>, inferred: bool, preGrow: nat)
    requires ValidGraph(blocks) && |states| == |blocks| && b < |blocks|
    ensures ValidNode(blocks, b)
    ensures CheckWarnings(fork, blocks, states, b, initialItems, inferred, preGrow)
            == (if states[b].reached
                then BlockWarnings(fork, blocks[b], states[b], b, CheckStack(states[b], b, initialItems, inferred, preGrow))
                else [])
               + CheckWarnings(fork, blocks, states, b + 1, initialItems, inferred, preGrow)
  {
    assert ValidNode(blocks, b);
    hide BlockWarnings, CheckStack;
  }

  lemma CheckWarningsEnd(fork: Fork, blocks: seq<Block>, states: seq<BlockState>,
                         initialItems: seq<string>, inferred: bool, preGrow: nat)
    requires ValidGraph(blocks) && |states| == |blocks|
    ensures CheckWarnings(fork, blocks, states, |blocks|, initialItems, inferred, preGrow) == []
  {
  }

  /** Walks all reachable blocks with their stable entry states and collects the warnings. */
  method CheckComments(fork: Fork, blocks: seq<Block>, states: seq<BlockState>,
                       initialItems: seq<string>, inferred: bool, preGrow: nat)
    returns (warnings: seq<Warning>)
    requires ValidFork(fork) && ValidGraph(blocks) && |states| == |blocks|
    ensures warnings == CheckWarnings(fork, blocks, states, 0, initialItems, inferred, preGrow)
  {
    hide BlockWarnings, CheckStack, CheckWarnings, ValidGraph;
    warnings := [];
    ghost var all := CheckWarnings(fork, blocks, states, 0, initialItems, inferred, preGrow);
    for i := 0 to |blocks|
      invariant warnings + CheckWarnings(fork, blocks, states, i, initialItems, inferred, preGrow) == all
    {
      CheckWarningsStep(fork, blocks, states, i, initialItems, inferred, preGrow);
      ghost var rest := CheckWarnings(fork, blocks, states, i + 1, initialItems, inferred, preGrow);
      ghost var before := warnings;
      if states[i].reached {
        var more := CheckBlock(fork, blocks[i], states[i], i, initialItems, inferred, preGrow);
        warnings := warnings + more;
        assert before + (more + rest) == warnings + rest;
      } else {
        assert before + ([] + rest) == warnings + rest;
      }
    }
    CheckWarningsEnd(fork, blocks, states, initialItems, inferred, preGrow);
  }

  // ----- jump depths -----

  /** The label comment's depth, if it has one that can be parsed and is not open-ended. */
  function DeclaredDepth(b: Block): Option<nat> {
    match LabelComment(b)
    case None => None
    case Some(comment) => if HasWildcard(comment) then None else Some(|comment|)
  }

  /** Verifies that each predecessor of a labeled block sends the declared number of items. */
  method CheckJumpDepth(blk: Block, bs: BlockState) returns (warnings: seq<Warning>)
    ensures DeclaredDepth(blk).None? || !AnyDepthMatches(bs.predExits, DeclaredDepth(blk).value) ==> warnings == []
    ensures DeclaredDepth(blk).Some? && AnyDepthMatches(bs.predExits, DeclaredDepth(blk).value) ==>
              (warnings == [] <==> forall k :: k in bs.predExits && k in bs.predSource ==> |bs.predExits[k]| == DeclaredDepth(blk).value)
  {
    var d := DeclaredDepth(blk);
    warnings := [];
    if d.None? {
      return;
    }
    var anyMatch := DepthMatches(bs.predExits, d.value);
    if !anyMatch {
      return;
    }
    var keys := SortedKeys(bs.predExits);
    assert forall i :: 0 <= i < |keys| ==> keys[i] in keys && keys[i] in bs.predExits;
    var reported: set<Statement> := {};
    for i := 0 to |keys|
      invariant warnings == [] ==> reported == {}
      invariant warnings == [] <==> forall j :: 0 <= j < i && keys[j] in bs.predSource ==> |bs.predExits[keys[j]]| == d.value
    {
      var pred := keys[i];
      if |bs.predExits[pred]| != d.value && pred in bs.predSource && bs.predSource[pred] !in reported {
        reported := reported + {bs.predSource[pred]};
        warnings := warnings + [JumpDepth(bs.predSource[pred])];
      }
    }
    if forall j :: 0 <= j < |keys| && keys[j] in bs.predSource ==> |bs.predExits[keys[j]]| == d.value {
      forall k | k in bs.predExits && k in bs.predSource
        ensures |bs.predExits[k]| == d.value
      {
        assert k in keys;
      }
    }
  }

  /** Some reached block with a declared depth gets a different number of items from a predecessor. */
  ghost predicate JumpDepthWarns(blocks: seq<Block>, states: seq<BlockState>)
    requires |states| == |blocks|
  {
    exists b :: 0 <= b < |blocks| && states[b].reached && BlockJumpWarns(blocks[b], states[b])
  }

  ghost predicate BlockJumpWarns(blk: Block, bs: BlockState) {
    && DeclaredDepth(blk).Some? && AnyDepthMatches(bs.predExits, DeclaredDepth(blk).value)
    && exists k :: k in bs.predExits && k in bs.predSource && |bs.predExits[k]| != DeclaredDepth(blk).value
  }

  method CheckJumpDepths(blocks: seq<Block>, states: seq<BlockState>) returns (warnings: seq<Warning>)
    requires |states| == |blocks|
    ensures warnings != [] <==> JumpDepthWarns(blocks, states)
  {
    hide DeclaredDepth;
    warnings := [];
    for i := 0 to |blocks|
      invariant warnings != [] <==> exists b :: 0 <= b < i && states[b].reached && BlockJumpWarns(blocks[b], states[b])
    {
      if states[i].reached {
        var more := CheckJumpDepth(blocks[i], states[i]);
        warnings := warnings + more;
      }
    }
  }
}
