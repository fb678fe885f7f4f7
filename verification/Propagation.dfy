/** The methods of the stack checker that walk blocks and run the worklist (internal/stackcheck/check.go). */
module Propagation {
  import opened Base
  import opened StackComment
  import opened SymbolicStack
  import opened StackObject
  import opened Statements
  import opened Blocks
  import opened Worklist
  import opened PushLiterals

  /** A crash ends the program: what comes after it in a list of warnings is never reached. */
  datatype Warning =
    | BadComment(st: Statement)
    | StackWarning(st: Statement, err: StackError)
    | PushLiteral(st: Statement)
    | Crash(st: Statement)
    | MergeDepth(st: Statement)
    | LoopUnbalanced(st: Statement)
    | JumpDepth(src: Statement)

  /** The warnings of one statement. */
  function StatementWarnings(fork: Fork, st: Statement, s: StackState): seq<Warning> {
    if Effect(fork, st).None? then []
    else if CommentOf(st).Err? then [BadComment(st)]
    else
      (match StatementApplied(fork, st, s).1
       case None => []
       case Some(err) => [StackWarning(st, err)])
      + LiteralWarnings(st)
  }

  /** The result of the push literal check, for a statement with a comment. */
  function LiteralWarnings(st: Statement): seq<Warning> {
    if CommentOf(st).Err? || CommentOf(st).value.None? then []
    else
      match LiteralChecked(st, CommentOf(st).value.value)
      case Agrees => []
      case Differs => [PushLiteral(st)]
      case OutOfRange => [Crash(st)]
  }

  /** The warnings of a walk over statements. */
  function WalkWarnings(fork: Fork, stmts: seq<Statement>, s: StackState): seq<Warning>
    decreases |stmts|
  {
    if stmts == [] then []
    else StatementWarnings(fork, stmts[0], s) + WalkWarnings(fork, stmts[1..], StatementApplied(fork, stmts[0], s).0)
  }

  /** Applies a single statement's stack effect to the virtual stack. */
  method ApplyStatement(fork: Fork, st: Statement, s: Stack, report: bool) returns (warnings: seq<Warning>)
    requires ValidFork(fork)
    modifies s
    ensures s.State() == StatementApplied(fork, st, old(s.State())).0
    ensures warnings == if report then StatementWarnings(fork, st, old(s.State())) else []
  {
    hide Effect, Applied, Parsed, LiteralChecked;
    warnings := [];
    var op := Effect(fork, st);
    if op.None? {
      return;
    }
    var comment: Option<seq<string>> := None;
    var text := StackCommentText(st.comment);
    if text.Some? {
      var parsed := ParseComment(text.value);
      if parsed.Err? {
        if report {
          warnings := [BadComment(st)];
        }
        return;
      }
      comment := Some(parsed.value);
    }
    EffectDistinct(fork, st);
    var err := s.Apply(op.value, comment);
    if err.Some? && report {
      warnings := [StackWarning(st, err.value)];
    }
    if report && comment.Some? {
      var check := CheckPushLiteral(st, comment.value);
      match check {
        case Agrees =>
        case Differs => warnings := warnings + [PushLiteral(st)];
        case OutOfRange => warnings := warnings + [Crash(st)];
      }
    }
  }

  /** Applies all statements in a basic block to the stack. */
  method WalkBlock(fork: Fork, blk: Block, s: Stack, report: bool) returns (warnings: seq<Warning>)
    requires ValidFork(fork)
    modifies s
    ensures s.State() == Walked(fork, blk.statements, old(s.State()))
    ensures warnings == if report then WalkWarnings(fork, blk.statements, old(s.State())) else []
  {
    hide StatementApplied, StatementWarnings;
    warnings := [];
    var stmts := blk.statements;
    assert stmts[0..] == stmts;
    for i := 0 to |stmts|
      invariant Walked(fork, stmts[i..], s.State()) == Walked(fork, stmts, old(s.State()))
      invariant report ==> warnings + WalkWarnings(fork, stmts[i..], s.State()) == WalkWarnings(fork, stmts, old(s.State()))
      invariant !report ==> warnings == []
    {
      assert stmts[i..][0] == stmts[i] && stmts[i..][1..] == stmts[i + 1..];
      var more := ApplyStatement(fork, stmts[i], s, report);
      warnings := warnings + more;
    }
  }

  /** Applies the block's label comment to the stack (if any), discarding errors. */
  method ApplyLabelComment(blk: Block, s: Stack)
    modifies s
    ensures s.State() == LabelApplied(blk, old(s.State()))
  {
    hide Parsed, LabelChecked;
    if blk.labelComment.None? {
      return;
    }
    var parsed := ParseComment(blk.labelComment.value);
    if parsed.Ok? {
      var _ := s.CheckComment(parsed.value);
    }
  }

  // ----- merging predecessors -----

  ghost predicate Ascending(keys: seq<int>) {
    forall i, j :: 0 <= i < j < |keys| ==> keys[i] < keys[j]
  }

  lemma SomeElement(s: set<int>)
    requires s != {}
    ensures exists x :: x in s
  {
    assert (forall x :: x !in s) ==> s == {};
  }

  lemma {:induction false} MinExists(s: set<int>)
    requires s != {}
    ensures exists k :: k in s && forall j :: j in s ==> k <= j
    decreases |s|
  {
    SomeElement(s);
    var x :| x in s;
    if s == {x} {
      assert x in s && forall j :: j in s ==> x <= j;
    } else {
      assert |s - {x}| < |s|;
      MinExists(s - {x});
      var y :| y in s - {x} && forall j :: j in s - {x} ==> y <= j;
      var z := Min(x, y);
      forall j | j in s
        ensures z <= j
      {
        if j != x {
          assert j in s - {x};
        }
      }
      assert z in s;
    }
  }

  /** The predecessor keys in a stable order. */
  method SortedKeys(preds: map<int, seq<string>>) returns (keys: seq<int>)
    ensures Ascending(keys)
    ensures forall k :: k in keys <==> k in preds
  {
    keys := [];
    var rest := preds.Keys;
    while rest != {}
      invariant Ascending(keys)
      invariant forall k :: k in preds <==> k in keys || k in rest
      invariant forall i, k :: 0 <= i < |keys| && k in rest ==> keys[i] < k
      decreases |rest|
    {
      MinExists(rest);
      var k :| k in rest && forall j :: j in rest ==> k <= j;
      keys := keys + [k];
      rest := rest - {k};
    }
  }

  /** The merged entry names: those of the shallowest predecessor, the first one in case of a tie. */
  method MergeNames(preds: map<int, seq<string>>) returns (names: seq<string>)
    ensures names == BaseNames(preds)
  {
    if preds == map[] {
      return [];
    }
    var keys := SortedKeys(preds);
    ghost var some := BaseKey(preds);
    assert some in keys;
    var minLen := -1;
    names := [];
    ghost var base := 0;
    for i := 0 to |keys|
      invariant i == 0 ==> minLen < 0
      invariant i > 0 ==> base in keys[..i] && minLen == |names| && names == preds[base]
      invariant i > 0 ==> forall j :: 0 <= j < i ==> |names| < |preds[keys[j]]| || (|names| == |preds[keys[j]]| && base <= keys[j])
    {
      var items := preds[keys[i]];
      if minLen < 0 || |items| < minLen {
        minLen := |items|;
        names := items;
        base := keys[i];
      }
      assert keys[..i + 1] == keys[..i] + [keys[i]];
    }
    assert keys[..|keys|] == keys;
    forall j | j in preds
      ensures |preds[base]| < |preds[j]| || (|preds[base]| == |preds[j]| && base <= j)
    {
      assert j in keys;
    }
    BaseNamesIs(preds, base);
  }

  method AnyWild(predWild: map<int, bool>) returns (wild: bool)
    ensures wild == AnyPredWild(predWild)
  {
    var rest := predWild.Keys;
    wild := false;
    while rest != {}
      invariant rest <= predWild.Keys
      invariant !wild && forall k :: k in predWild && k !in rest ==> !predWild[k]
      decreases |rest|
    {
      SomeElement(rest);
      var k :| k in rest;
      if predWild[k] {
        return true;
      }
      rest := rest - {k};
    }
  }

  /** Merges a predecessor's exit state into a successor's entry. Returns true if the entry changed. */
  method MergePredecessor(succ: BlockState, predKey: int, items: seq<string>, wild: bool) returns (bs: BlockState, changed: bool)
    ensures (bs, changed) == Merged(succ, predKey, items, wild)
  {
    var firstReach := !succ.reached;
    bs := succ.(reached := true);
    if predKey in bs.predExits && predKey in bs.predWild && bs.predExits[predKey] == items && bs.predWild[predKey] == wild {
      return bs, false;
    }
    bs := bs.(predExits := bs.predExits[predKey := items], predWild := bs.predWild[predKey := wild]);
    var newEntry := MergeNames(bs.predExits);
    var newWild := AnyWild(bs.predWild);
    changed := firstReach || bs.entry != newEntry || bs.entryWild != newWild;
    bs := bs.(entry := newEntry, entryWild := newWild);
  }

  /** Propagates the exit state of block idx to its successors. */
  method MergeSuccessors(blocks: seq<Block>, idx: nat, ghost need: nat,
                         states0: seq<BlockState>, worklist0: seq<nat>, queued0: seq<bool>)
    returns (states: seq<BlockState>, worklist: seq<nat>, queued: seq<bool>)
    requires ValidGraph(blocks) && idx < |blocks| == |states0| == |queued0|
    ensures Prop(states, worklist, queued, need) == Propagated(blocks, Prop(states0, worklist0, queued0, need), idx)
  {
    hide Merged;
    states, worklist, queued := states0, worklist0, queued0;
    assert ValidNode(blocks, idx);
    hide ValidGraph;
    var lastSt := Last(blocks[idx]);
    var succs := blocks[idx].successors;
    var exit, exitWild := states[idx].exit, states[idx].exitWild;
    assert succs[0..] == succs;
    for i := 0 to |succs|
      invariant |states| == |queued| == |blocks|
      invariant MergeEdges(Prop(states, worklist, queued, need), idx, succs[i..], exit, exitWild, lastSt)
                == MergeEdges(Prop(states0, worklist0, queued0, need), idx, succs, exit, exitWild, lastSt)
    {
      var succ := succs[i];
      assert succs[i..][0] == succ && succs[i..][1..] == succs[i + 1..];
      var bs, changed := MergePredecessor(states[succ], idx, exit, exitWild);
      states := states[succ := bs.(predSource := bs.predSource[idx := lastSt])];
      if changed && !queued[succ] {
        worklist := worklist + [succ];
        queued := queued[succ := true];
      }
    }
  }

  // ----- the worklist loop -----

  /** The names of the inputs inferred for block 0. */
  function InputNames(s: StackState): (r: seq<string>)
    ensures |r| == |s.inferredItems|
    ensures forall i :: 0 <= i < |r| ==> r[i] == ItemText(s, s.inferredItems[i])
  {
    seq(|s.inferredItems|, i requires 0 <= i < |s.inferredItems| => ItemText(s, s.inferredItems[i]))
  }

  /** The stack of block 0, with its label comment applied. */
  method FirstStack(blk: Block, initialItems: seq<string>, inferred: bool, preGrow: nat) returns (s: Stack)
    ensures fresh(s)
    ensures s.State() == LabelApplied(blk, InitialStack(initialItems, inferred, preGrow))
  {
    hide Inited, LabelApplied, Grow;
    NewStackValid(initialItems, None);
    s := new Stack(initialItems, None);
    if inferred {
      s.SetInferred();
      s.GrowBottom(preGrow);
    }
    ApplyLabelComment(blk, s);
  }

  /** Processes block 0 with the initial stack, and seeds the worklist with its successors. */
  method ProcessFirst(fork: Fork, blocks: seq<Block>, initialItems: seq<string>, inferred: bool, preGrow: nat)
    returns (states: seq<BlockState>, worklist: seq<nat>, queued: seq<bool>, inferredInputs: seq<string>)
    requires ValidFork(fork) && ValidGraph(blocks) && |blocks| > 0
    ensures Prop(states, worklist, queued, 0) == Start(fork, blocks, initialItems, inferred, preGrow)
    ensures inferredInputs == if inferred then InputNames(FirstExit(fork, blocks[0], initialItems, inferred, preGrow)) else []
  {
    hide LabelApplied, InitialStack, Walked, Propagated;
    var s := FirstStack(blocks[0], initialItems, inferred, preGrow);
    var _ := WalkBlock(fork, blocks[0], s, false);
    FirstModes(fork, blocks[0], initialItems, inferred, preGrow);
    inferredInputs := [];
    if inferred {
      inferredInputs := s.InferredInputs();
      assert inferredInputs == InputNames(s.State());
    }
    var (initItems, initWild) := StripWildcard(initialItems);
    var exit := s.Items();
    var exitWild := s.HasWild();
    var first := BlockState(true, initItems, exit, map[INITIAL := initItems], map[INITIAL := initWild], map[], initWild, exitWild);
    states := OnlyFirst(|blocks|, first);
    worklist, queued := [], NoneQueued(|blocks|);
    states, worklist, queued := MergeSuccessors(blocks, 0, 0, states, worklist, queued);
  }

  /** Processes one block with its merged entry state. */
  method ProcessBlock(fork: Fork, blk: Block, entry: seq<string>, entryWild: bool, inferred: bool)
    returns (exit: seq<string>, exitWild: bool, needed: nat)
    requires ValidFork(fork)
    ensures var s := BlockExit(fork, blk, entry, entryWild, inferred);
            exit == ItemTexts(s) && exitWild == s.wildcard && needed == if inferred then |s.inferredItems| else 0
  {
    hide LabelApplied, Walked, Inited;
    NewStackValid(if entryWild then entry + [WILDCARD] else entry, None);
    var names := entry;
    if entryWild {
      names := names + [WILDCARD];
    }
    var s := new Stack(names, None);
    if inferred {
      s.SetInferred();
    }
    ApplyLabelComment(blk, s);
    var _ := WalkBlock(fork, blk, s, false);
    needed := 0;
    BlockModes(fork, blk, entry, entryWild, inferred);
    if inferred {
      var inputs := s.InferredInputs();
      needed := |inputs|;
    }
    exit := s.Items();
    exitWild := s.HasWild();
  }

  /**
   * Runs the worklist to compute stable entry and exit states for all reachable blocks. The loop of
   * the program is bounded here by fuel; drained tells if the worklist became empty.
   */
  method PropagateStates(fork: Fork, blocks: seq<Block>, initialItems: seq<string>, inferred: bool, preGrow: nat, fuel: nat)
    returns (states: seq<BlockState>, inferredInputs: seq<string>, need: nat, drained: bool)
    requires ValidFork(fork) && ValidGraph(blocks) && |blocks| > 0
    ensures ValidProp(blocks, Start(fork, blocks, initialItems, inferred, preGrow))
    ensures var r := Run(fork, blocks, inferred, Start(fork, blocks, initialItems, inferred, preGrow), fuel);
            states == r.states && need == r.need && drained == (r.worklist == [])
    ensures inferredInputs == if inferred then InputNames(FirstExit(fork, blocks[0], initialItems, inferred, preGrow)) else []
  {
    hide BlockExit, FirstExit, Propagated, Start, ValidGraph;
    StartValid(fork, blocks, initialItems, inferred, preGrow);
    var worklist: seq<nat>;
    var queued: seq<bool>;
    states, worklist, queued, inferredInputs := ProcessFirst(fork, blocks, initialItems, inferred, preGrow);
    need := 0;
    ghost var ps := Start(fork, blocks, initialItems, inferred, preGrow);
    var left: nat := fuel;
    while |worklist| > 0 && left > 0
      invariant left <= fuel
      invariant ValidProp(blocks, ps)
      invariant Prop(states, worklist, queued, need) == ps
      invariant Run(fork, blocks, inferred, ps, left) == Run(fork, blocks, inferred, Start(fork, blocks, initialItems, inferred, preGrow), fuel)
      decreases left
    {
      StepValid(fork, blocks, inferred, ps);
      ps := Step(fork, blocks, inferred, ps);
      states, worklist, queued, need := Round(fork, blocks, inferred, states, worklist, queued, need);
      left := left - 1;
    }
    drained := |worklist| == 0;
  }

  /** Takes the last block off the worklist, processes it, and merges its exit into its successors. */
  method Round(fork: Fork, blocks: seq<Block>, inferred: bool,
               states0: seq<BlockState>, worklist0: seq<nat>, queued0: seq<bool>, need0: nat)
    returns (states: seq<BlockState>, worklist: seq<nat>, queued: seq<bool>, need: nat)
    requires ValidFork(fork) && ValidGraph(blocks)
    requires ValidProp(blocks, Prop(states0, worklist0, queued0, need0)) && worklist0 != []
    ensures Prop(states, worklist, queued, need) == Step(fork, blocks, inferred, Prop(states0, worklist0, queued0, need0))
  {
    hide BlockExit, Propagated, ValidGraph;
    states, worklist, queued, need := states0, worklist0, queued0, need0;
    var idx := worklist[|worklist| - 1];
    worklist := worklist[..|worklist| - 1];
    queued := queued[idx := false];
    var exit, exitWild, needed := ProcessBlock(fork, blocks[idx], states[idx].entry, states[idx].entryWild, inferred);
    if inferred {
      need := Max(need, needed);
    }
    states := states[idx := states[idx].(exit := exit, exitWild := exitWild)];
    states, worklist, queued := MergeSuccessors(blocks, idx, need, states, worklist, queued);
  }

  // ----- no walk changes the mode of a stack -----

  lemma {:induction false} PullMode(s: StackState, n: nat)
    ensures Pull(s, n).0.inferred == s.inferred
  {
    if n > 0 {
      PullMode(s, n - 1);
    }
  }

  lemma {:induction false} PushOutsMode(s: StackState, ins: seq<string>, popped: seq<nat>, outs: seq<string>)
    requires |popped| == |ins|
    ensures PushOuts(s, ins, popped, outs).0.inferred == s.inferred
  {
    if outs != [] {
      PushOutsMode(s, ins, popped, outs[1..]);
    }
  }

  lemma {:induction false} CheckItemsMode(c: Checking, names: seq<string>, i: nat, outs: seq<string>)
    requires i <= |names|
    ensures CheckItems(c, names, i, outs).0.st.inferred == c.st.inferred
    decreases |names| - i
  {
    if i < |names| && i < |Peeked(c, i).st.items| {
      var c' := CheckItem(Peeked(c, i), names, i, outs);
      assert c'.st.inferred == c.st.inferred;
      hide CheckItem;
      CheckItemsMode(c', names, i + 1, outs);
    }
  }

  lemma CheckedMode(s: StackState, comment: Option<seq<string>>, allowElide: bool, created: set<nat>, outs: seq<string>)
    ensures Checked(s, comment, allowElide, created, outs).0.inferred == s.inferred
  {
    hide CheckItems;
    if comment.Some? {
      var (names, wild) := StripWildcard(comment.value);
      CheckItemsMode(Checking(s.(wildcard := wild), created, map[], None), names, 0, outs);
    }
  }

  lemma AppliedMode(s: StackState, op: StackOp, comment: Option<seq<string>>)
    ensures Applied(s, op, comment).0.inferred == s.inferred
  {
    hide Pull, PushOuts, Checked;
    var s' := if comment.Some? && HasWildcard(comment.value) then s.(wildcard := true) else s;
    PullMode(s', |op.ins|);
    var (p, ok) := Pull(s', |op.ins|);
    if ok {
      var base := p.(items := p.items[..|p.items| - |op.ins|]);
      PushOutsMode(base, op.ins, TopItems(p, |op.ins|), op.outs);
      var (r, created) := PushOuts(base, op.ins, TopItems(p, |op.ins|), op.outs);
      CheckedMode(r, comment, true, created, op.outs);
    }
  }

  lemma {:induction false} WalkedMode(fork: Fork, stmts: seq<Statement>, s: StackState)
    ensures Walked(fork, stmts, s).inferred == s.inferred
    decreases |stmts|
  {
    hide Applied, Effect, CommentOf;
    if stmts != [] {
      var op := Effect(fork, stmts[0]);
      if op.Some? && CommentOf(stmts[0]).Ok? {
        AppliedMode(s, op.value, CommentOf(stmts[0]).value);
      }
      WalkedMode(fork, stmts[1..], StatementApplied(fork, stmts[0], s).0);
    }
  }

  lemma LabelMode(b: Block, s: StackState)
    ensures LabelApplied(b, s).inferred == s.inferred
  {
    hide Checked;
    if LabelComment(b).Some? {
      CheckedMode(s, LabelComment(b), false, {}, []);
    }
  }

  lemma FirstModes(fork: Fork, b: Block, initialItems: seq<string>, inferred: bool, preGrow: nat)
    ensures FirstExit(fork, b, initialItems, inferred, preGrow).inferred == inferred
  {
    hide Walked, LabelApplied;
    var s := InitialStack(initialItems, inferred, preGrow);
    LabelMode(b, s);
    WalkedMode(fork, b.statements, LabelApplied(b, s));
  }

  lemma BlockModes(fork: Fork, b: Block, entry: seq<string>, wild: bool, inferred: bool)
    ensures BlockExit(fork, b, entry, wild, inferred).inferred == inferred
  {
    hide Walked, LabelApplied, NewStack;
    var s := EntryStack(entry, wild, inferred);
    LabelMode(b, s);
    WalkedMode(fork, b.statements, LabelApplied(b, s));
  }
}
