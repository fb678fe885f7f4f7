/**
 * Phase 1 of the stack checker: propagation of stack states through the block graph
 * (internal/stackcheck/check.go, propagateStates and mergePredecessor).
 */
module Worklist {
  import opened Base
  import opened StackComment
  import opened SymbolicStack
  import opened Statements
  import opened Blocks

  /** The per-block state. Predecessors are block indices, or INITIAL for the document's initial stack. */
  datatype BlockState = BlockState(
    reached: bool,
    entry: seq<string>,
    exit: seq<string>,
    predExits: map<int, seq<string>>,
    predWild: map<int, bool>,
    predSource: map<int, Statement>,
    entryWild: bool,
    exitWild: bool)

  const INITIAL: int := -1

  const UNREACHED: BlockState := BlockState(false, [], [], map[], map[], map[], false, false)

  // ----- merging -----

  /** The predecessor that determines the entry: minimum depth, ties resolved to the smallest key. */
  ghost predicate IsBase(preds: map<int, seq<string>>, k: int) {
    && k in preds
    && forall j :: j in preds ==> |preds[k]| < |preds[j]| || (|preds[k]| == |preds[j]| && k <= j)
  }

  lemma {:induction false} BaseExists(preds: map<int, seq<string>>)
    requires preds != map[]
    ensures exists k :: IsBase(preds, k)
    decreases |preds|
  {
    var k :| k in preds;
    var rest := map j | j in preds && j != k :: preds[j];
    assert forall j :: j in preds && j != k ==> j in rest;
    if rest == map[] {
      assert IsBase(preds, k);
    } else {
      assert rest.Keys == preds.Keys - {k};
      BaseExists(rest);
      var b :| IsBase(rest, b);
      var best := if |preds[k]| < |preds[b]| || (|preds[k]| == |preds[b]| && k <= b) then k else b;
      forall j | j in preds
        ensures |preds[best]| < |preds[j]| || (|preds[best]| == |preds[j]| && best <= j)
      {
      }
      assert IsBase(preds, best);
    }
  }

  ghost function BaseKey(preds: map<int, seq<string>>): (k: int)
    requires preds != map[]
    ensures IsBase(preds, k)
  {
    BaseExists(preds);
    var k :| IsBase(preds, k);
    k
  }

  /** The merged entry names. */
  ghost function BaseNames(preds: map<int, seq<string>>): seq<string> {
    if preds == map[] then [] else preds[BaseKey(preds)]
  }

  lemma BaseNamesIs(preds: map<int, seq<string>>, k: int)
    requires IsBase(preds, k)
    ensures preds != map[] && BaseNames(preds) == preds[k] && BaseKey(preds) == k
  {
    assert k in preds;
  }

  predicate AnyPredWild(predWild: map<int, bool>) {
    exists k :: k in predWild && predWild[k]
  }

  /** Merges an exit state into a successor's entry. The second result tells if the entry changed. */
  ghost function Merged(succ: BlockState, key: int, items: seq<string>, wild: bool): (BlockState, bool) {
    var same := key in succ.predExits && key in succ.predWild && succ.predExits[key] == items && succ.predWild[key] == wild;
    if same then (succ.(reached := true), false)
    else
      var preds := succ.predExits[key := items];
      var wilds := succ.predWild[key := wild];
      var entry := BaseNames(preds);
      var entryWild := AnyPredWild(wilds);
      (succ.(reached := true, predExits := preds, predWild := wilds, entry := entry, entryWild := entryWild),
       !succ.reached || succ.entry != entry || succ.entryWild != entryWild)
  }

  // ----- walking a block -----

  /** The parsed stack comment of a statement; Err if it cannot be parsed. */
  function CommentOf(st: Statement): Result<Option<seq<string>>, CommentError> {
    if !st.Opcode? then Ok(None)
    else
      match StackCommentText(st.comment)
      case None => Ok(None)
      case Some(text) =>
        match Parsed(text)
        case Err(e) => Err(e)
        case Ok(items) => Ok(Some(items))
  }

  /** The effect of one statement on the symbolic stack, and the error to report. */
  function StatementApplied(fork: Fork, st: Statement, s: StackState): (StackState, Option<StackError>) {
    var op := Effect(fork, st);
    if op.None? then (s, None)
    else
      match CommentOf(st)
      case Err(_) => (s, None)
      case Ok(comment) => Applied(s, op.value, comment)
  }

  function Walked(fork: Fork, stmts: seq<Statement>, s: StackState): StackState
    decreases |stmts|
  {
    if stmts == [] then s else Walked(fork, stmts[1..], StatementApplied(fork, stmts[0], s).0)
  }

  /** The parsed label comment of a block, if it has one that can be parsed. */
  function LabelComment(b: Block): Option<seq<string>> {
    match b.labelComment
    case None => None
    case Some(text) => if Parsed(text).Ok? then Some(Parsed(text).value) else None
  }

  /** A block's label comment establishes names; errors are discarded. */
  function LabelApplied(b: Block, s: StackState): StackState {
    match LabelComment(b)
    case None => s
    case Some(comment) => LabelChecked(s, comment).0
  }

  function EntryStack(entry: seq<string>, wild: bool, inferred: bool): StackState {
    NewStack(if wild then entry + [WILDCARD] else entry, None).(inferred := inferred)
  }

  /** The stack at the end of a block, for a given entry. */
  function BlockExit(fork: Fork, b: Block, entry: seq<string>, wild: bool, inferred: bool): StackState {
    Walked(fork, b.statements, LabelApplied(b, EntryStack(entry, wild, inferred)))
  }

  // ----- the worklist -----

  datatype Prop = Prop(states: seq<BlockState>, worklist: seq<nat>, queued: seq<bool>, need: nat)

  /** Successors are blocks, and blocks are not empty. */
  ghost predicate ValidGraph(blocks: seq<Block>) {
    forall b :: 0 <= b < |blocks| ==> ValidNode(blocks, b)
  }

  ghost predicate ValidNode(blocks: seq<Block>, b: nat)
    requires b < |blocks|
  {
    && blocks[b].statements != []
    && forall i :: 0 <= i < |blocks[b].successors| ==> blocks[b].successors[i] < |blocks|
  }

  lemma GraphValid(fork: Fork, stmts: seq<Statement>, blocks: seq<Block>, labelIndex: map<string, nat>)
    requires BlockGraph(fork, stmts, blocks, labelIndex)
    ensures ValidGraph(blocks)
  {
    hide HasEdges, ValidBlock, ValidNode, Flatten, LabelsOf, Adjacent;
    forall b: nat | b < |blocks|
      ensures ValidNode(blocks, b)
    {
      NodeValid(fork, blocks, labelIndex, b);
    }
  }

  lemma NodeValid(fork: Fork, blocks: seq<Block>, labelIndex: map<string, nat>, b: nat)
    requires b < |blocks| && ValidBlock(fork, blocks[b]) && HasEdges(blocks, labelIndex, b) && LabelsOf(blocks, |blocks|, labelIndex)
    ensures ValidNode(blocks, b)
  {
    hide StartsBlock, EndsBlock, FallsThrough;
  }

  ghost predicate ValidProp(blocks: seq<Block>, ps: Prop) {
    && |ps.states| == |ps.queued| == |blocks|
    && (forall i :: 0 <= i < |ps.worklist| ==> ps.worklist[i] < |blocks|)
  }

  /** Propagates an exit state along one edge, and queues the successor if its entry changed. */
  ghost function MergeEdge(ps: Prop, idx: nat, succ: nat, exit: seq<string>, wild: bool, src: Statement): (r: Prop)
    requires succ < |ps.states| == |ps.queued|
    ensures |r.states| == |ps.states| && |r.queued| == |ps.queued|
  {
    var (bs, changed) := Merged(ps.states[succ], idx, exit, wild);
    var states := ps.states[succ := bs.(predSource := bs.predSource[idx := src])];
    if changed && !ps.queued[succ] then
      ps.(states := states, worklist := ps.worklist + [succ], queued := ps.queued[succ := true])
    else ps.(states := states)
  }

  ghost function MergeEdges(ps: Prop, idx: nat, succs: seq<nat>, exit: seq<string>, wild: bool, src: Statement): (r: Prop)
    requires |ps.states| == |ps.queued|
    requires forall i :: 0 <= i < |succs| ==> succs[i] < |ps.states|
    ensures |r.states| == |ps.states| && |r.queued| == |ps.queued|
    decreases |succs|
  {
    if succs == [] then ps
    else MergeEdges(MergeEdge(ps, idx, succs[0], exit, wild, src), idx, succs[1..], exit, wild, src)
  }

  /** Records the exit of a block and merges it into all successors. */
  ghost function Propagated(blocks: seq<Block>, ps: Prop, idx: nat): (r: Prop)
    requires ValidGraph(blocks) && idx < |blocks| == |ps.states| == |ps.queued|
    ensures |r.states| == |ps.states| && |r.queued| == |ps.queued|
  {
    assert ValidNode(blocks, idx);
    MergeEdges(ps, idx, blocks[idx].successors, ps.states[idx].exit, ps.states[idx].exitWild, Last(blocks[idx]))
  }

  ghost function WithExit(ps: Prop, idx: nat, s: StackState): (r: Prop)
    requires idx < |ps.states|
    ensures |r.states| == |ps.states| && |r.queued| == |ps.queued|
  {
    ps.(states := ps.states[idx := ps.states[idx].(exit := ItemTexts(s), exitWild := s.wildcard)])
  }

  /** The block that the next round processes. */
  function Next(ps: Prop): nat
    requires ps.worklist != []
  {
    ps.worklist[|ps.worklist| - 1]
  }

  ghost function Popped(ps: Prop): Prop
    requires ps.worklist != [] && Next(ps) < |ps.queued|
  {
    ps.(worklist := ps.worklist[..|ps.worklist| - 1], queued := ps.queued[Next(ps) := false])
  }

  /** One round of the worklist. */
  ghost function Step(fork: Fork, blocks: seq<Block>, inferred: bool, ps: Prop): (r: Prop)
    requires ValidGraph(blocks) && ValidProp(blocks, ps)
    requires ps.worklist != []
    ensures |r.states| == |r.queued| == |blocks|
  {
    var idx := Next(ps);
    var s := BlockExit(fork, blocks[idx], ps.states[idx].entry, ps.states[idx].entryWild, inferred);
    var popped := Popped(ps).(need := if inferred then Max(ps.need, |s.inferredItems|) else ps.need);
    Propagated(blocks, WithExit(popped, idx, s), idx)
  }

  /** The stack of block 0 before its label comment. */
  function InitialStack(initialItems: seq<string>, inferred: bool, preGrow: nat): StackState {
    var s := NewStack(initialItems, None).(inferred := inferred);
    if inferred && preGrow > 0 then Grow(s, preGrow) else s
  }

  function FirstExit(fork: Fork, b: Block, initialItems: seq<string>, inferred: bool, preGrow: nat): StackState {
    Walked(fork, b.statements, LabelApplied(b, InitialStack(initialItems, inferred, preGrow)))
  }

  /** Initially, only block 0 is reached. */
  function OnlyFirst(n: nat, first: BlockState): (states: seq<BlockState>)
    ensures |states| == n
    ensures forall i :: 0 <= i < n ==> states[i] == if i == 0 then first else UNREACHED
  {
    seq(n, i => if i == 0 then first else UNREACHED)
  }

  function NoneQueued(n: nat): (queued: seq<bool>)
    ensures |queued| == n
    ensures forall i :: 0 <= i < n ==> !queued[i]
  {
    seq(n, _ => false)
  }

  /** The propagation state after block 0 has been processed with the initial stack. */
  ghost function Start(fork: Fork, blocks: seq<Block>, initialItems: seq<string>, inferred: bool, preGrow: nat): (r: Prop)
    requires ValidGraph(blocks) && |blocks| > 0
    ensures |r.states| == |r.queued| == |blocks|
  {
    var s := FirstExit(fork, blocks[0], initialItems, inferred, preGrow);
    var (initItems, initWild) := StripWildcard(initialItems);
    var first := BlockState(true, initItems, ItemTexts(s), map[INITIAL := initItems], map[INITIAL := initWild], map[], initWild, s.wildcard);
    Propagated(blocks, Prop(OnlyFirst(|blocks|, first), [], NoneQueued(|blocks|), 0), 0)
  }

  lemma MergeEdgeValid(blocks: seq<Block>, ps: Prop, idx: nat, succ: nat, exit: seq<string>, wild: bool, src: Statement)
    requires ValidProp(blocks, ps) && succ < |blocks|
    ensures ValidProp(blocks, MergeEdge(ps, idx, succ, exit, wild, src))
  {
    hide Merged;
  }

  lemma {:induction false} MergeEdgesValid(blocks: seq<Block>, ps: Prop, idx: nat, succs: seq<nat>, exit: seq<string>, wild: bool, src: Statement)
    requires ValidProp(blocks, ps)
    requires forall i :: 0 <= i < |succs| ==> succs[i] < |blocks|
    ensures ValidProp(blocks, MergeEdges(ps, idx, succs, exit, wild, src))
    decreases |succs|
  {
    hide MergeEdge;
    if succs != [] {
      MergeEdgeValid(blocks, ps, idx, succs[0], exit, wild, src);
      MergeEdgesValid(blocks, MergeEdge(ps, idx, succs[0], exit, wild, src), idx, succs[1..], exit, wild, src);
    }
  }

  lemma PropagatedValid(blocks: seq<Block>, ps: Prop, idx: nat)
    requires ValidGraph(blocks) && ValidProp(blocks, ps) && idx < |blocks|
    ensures ValidProp(blocks, Propagated(blocks, ps, idx))
  {
    hide MergeEdges;
    assert ValidNode(blocks, idx);
    MergeEdgesValid(blocks, ps, idx, blocks[idx].successors, ps.states[idx].exit, ps.states[idx].exitWild, Last(blocks[idx]));
  }

  lemma StepValid(fork: Fork, blocks: seq<Block>, inferred: bool, ps: Prop)
    requires ValidGraph(blocks) && ValidProp(blocks, ps) && ps.worklist != []
    ensures ValidProp(blocks, Step(fork, blocks, inferred, ps))
  {
    hide Propagated, BlockExit, ValidGraph;
    var idx := Next(ps);
    var s := BlockExit(fork, blocks[idx], ps.states[idx].entry, ps.states[idx].entryWild, inferred);
    var popped := Popped(ps).(need := if inferred then Max(ps.need, |s.inferredItems|) else ps.need);
    PropagatedValid(blocks, WithExit(popped, idx, s), idx);
  }

  lemma StartValid(fork: Fork, blocks: seq<Block>, initialItems: seq<string>, inferred: bool, preGrow: nat)
    requires ValidGraph(blocks) && |blocks| > 0
    ensures ValidProp(blocks, Start(fork, blocks, initialItems, inferred, preGrow))
  {
    hide Propagated, FirstExit, ValidGraph;
    var s := FirstExit(fork, blocks[0], initialItems, inferred, preGrow);
    var (initItems, initWild) := StripWildcard(initialItems);
    var first := BlockState(true, initItems, ItemTexts(s), map[INITIAL := initItems], map[INITIAL := initWild], map[], initWild, s.wildcard);
    PropagatedValid(blocks, Prop(OnlyFirst(|blocks|, first), [], NoneQueued(|blocks|), 0), 0);
  }

  /** The state after n rounds, or fewer if the worklist empties. */
  ghost function Run(fork: Fork, blocks: seq<Block>, inferred: bool, ps: Prop, n: nat): (r: Prop)
    requires ValidGraph(blocks) && ValidProp(blocks, ps)
    ensures ValidProp(blocks, r)
    decreases n
  {
    if n == 0 || ps.worklist == [] then ps
    else
      StepValid(fork, blocks, inferred, ps);
      Run(fork, blocks, inferred, Step(fork, blocks, inferred, ps), n - 1)
  }

  lemma {:induction false} RunSnoc(fork: Fork, blocks: seq<Block>, inferred: bool, ps: Prop, n: nat)
    requires ValidGraph(blocks) && ValidProp(blocks, ps)
    requires Run(fork, blocks, inferred, ps, n).worklist != []
    ensures Run(fork, blocks, inferred, ps, n + 1) == Step(fork, blocks, inferred, Run(fork, blocks, inferred, ps, n))
    decreases n
  {
    hide Step, ValidGraph, ValidProp;
    if n > 0 && ps.worklist != [] {
      StepValid(fork, blocks, inferred, ps);
      RunSnoc(fork, blocks, inferred, Step(fork, blocks, inferred, ps), n - 1);
    }
  }
}
