/** A document without warnings whose executions do not all have the analysed depth. */
module UnevenJoin {
  import opened Base
  import opened StackComment
  import opened SymbolicStack
  import opened EvmOps
  import opened InstructionSets
  import opened Statements
  import opened Blocks
  import opened Worklist
  import opened Propagation
  import opened Reporting
  import opened FixedPoint
  import opened StackDepth
  import opened PlainRuns
  import opened Machine
  import opened Termination
  import opened DepthSoundness
  import opened ExactDepth

  const FORK: Fork := map[
    "JUMP" := Op("JUMP", 0x56, ["label"], [], false, false, true, true, false, false),
    "JUMPI" := Op("JUMPI", 0x57, ["label", "cond"], [], false, false, true, false, false, false),
    "STOP" := Op("STOP", 0x00, [], [], false, true, false, false, false, false)
  ]

  function JumpTo(ident: string): Statement {
    Opcode("JUMP", LabelArg(ident, false), [], None)
  }

  const PUSH: Statement := Opcode("PUSH", OtherArg, [], None)
  const BRANCH: Statement := Opcode("JUMPI", LabelArg("x", false), [], None)
  const STOP: Statement := Opcode("STOP", NoArg, [], None)

  function LabelOf(ident: string): Statement {
    LabelDef(ident, false, None)
  }

  const FIRST: Block := Block([PUSH, BRANCH], "", None, "x", [1, 3], false, false, false, false, true)
  const SECOND: Block := Block([JumpTo("y")], "", None, "y", [4], false, false, true, false, true)
  const JOIN: Block := Block([LabelOf("target"), STOP], "target", None, "", [], true, true, false, false, false)
  const DEEP: Block := Block([LabelOf("x"), PUSH, JumpTo("target")], "x", None, "target", [2], true, false, true, false, false)
  const FLAT: Block := Block([LabelOf("y"), JumpTo("target")], "y", None, "target", [2], true, false, true, false, false)

  const BLOCKS: seq<Block> := [FIRST, SECOND, JOIN, DEEP, FLAT]

  /**
   * Both jumps to target come after it, with one item and with none:
   *
   *   push 1
   *   jumpi @x
   *   jump @y
   *   target: stop
   *   x: push 1
   *   jump @target
   *   y: jump @target
   */
  const STATEMENTS: seq<Statement> := FIRST.statements + SECOND.statements + JOIN.statements + DEEP.statements + FLAT.statements

  const INDEX: map<string, nat> := map["target" := 2, "x" := 3, "y" := 4]

  const SETUP: Setup := Setup(FORK, BLOCKS, [], false, 0)

  // ----- the document -----

  lemma Flat()
    ensures Flatten(BLOCKS) == STATEMENTS
  {
    hide Flatten;
    FlattenTwo(FIRST, SECOND);
    FlattenSnoc([FIRST, SECOND], JOIN);
    FlattenSnoc([FIRST, SECOND] + [JOIN], DEEP);
    FlattenSnoc([FIRST, SECOND] + [JOIN] + [DEEP], FLAT);
    assert BLOCKS == [FIRST, SECOND] + [JOIN] + [DEEP] + [FLAT];
  }

  lemma FlattenTwo(a: Block, b: Block)
    ensures Flatten([a, b]) == a.statements + b.statements
  {
    FlattenSnoc([], a);
    FlattenSnoc([a], b);
    assert [] + [a] == [a] && [a] + [b] == [a, b];
    assert Flatten([]) + a.statements == a.statements;
    hide Flatten;
  }

  lemma EarlyParts()
    ensures ValidBlock(FORK, FIRST) && ValidBlock(FORK, SECOND)
  {
  }

  lemma LateParts()
    ensures ValidBlock(FORK, JOIN) && ValidBlock(FORK, DEEP) && ValidBlock(FORK, FLAT)
  {
  }

  lemma Neighbours()
    ensures Adjacent(FORK, FIRST, SECOND) && Adjacent(FORK, SECOND, JOIN) && Adjacent(FORK, JOIN, DEEP) && Adjacent(FORK, DEEP, FLAT)
  {
  }

  lemma Edges()
    ensures forall i :: 0 <= i < 5 ==> HasEdges(BLOCKS, INDEX, i)
  {
    assert HasEdges(BLOCKS, INDEX, 0) && HasEdges(BLOCKS, INDEX, 1) && HasEdges(BLOCKS, INDEX, 2);
    assert HasEdges(BLOCKS, INDEX, 3) && HasEdges(BLOCKS, INDEX, 4);
    hide HasEdges;
  }

  lemma IsBlockGraph()
    ensures BlockGraph(FORK, STATEMENTS, BLOCKS, INDEX)
  {
    Flat();
    EarlyParts();
    LateParts();
    Neighbours();
    Edges();
    hide Flatten, ValidBlock, Adjacent, HasEdges;
    assert forall b :: 0 <= b < |BLOCKS| ==> ValidBlock(FORK, BLOCKS[b]);
    assert forall b :: 0 <= b < |BLOCKS| - 1 ==> Adjacent(FORK, BLOCKS[b], BLOCKS[b + 1]);
  }

  lemma Effects()
    ensures Effect(FORK, PUSH) == Some(StackOp([], ["val"])) && Effect(FORK, BRANCH) == Some(StackOp(["cond"], []))
    ensures Effect(FORK, STOP) == Some(StackOp([], []))
    ensures forall ident :: Effect(FORK, JumpTo(ident)) == Some(StackOp([], []))
  {
    assert "PUSH"[..4] == "PUSH" && "STOP"[..4] == "STOP" && "STOP"[0] == 'S' && "PUSH"[0] == 'P';
    assert FORK["JUMP"].ins[1..] == [] && FORK["JUMPI"].ins[1..] == ["cond"];
    assert "PUSH" !in FORK && "JUMP" in FORK && "JUMPI" in FORK && "STOP" in FORK;
  }

  /** Statements without comments. */
  predicate Bare(stmts: seq<Statement>) {
    forall k :: 0 <= k < |stmts| ==> !stmts[k].Other? && stmts[k].comment.None?
  }

  lemma BareComments(stmts: seq<Statement>)
    requires Bare(stmts)
    ensures forall k :: 0 <= k < |stmts| ==> CommentOf(stmts[k]) == Ok(None) && PlainComment(stmts[k]) && PlainLabel(stmts[k])
    ensures PlainComments(stmts) && ParsedComments(stmts)
  {
  }

  lemma LabelsUnique()
    ensures UniqueLabels(STATEMENTS)
  {
    var all := STATEMENTS;
    assert |all| == 10;
    assert StartsBlock(all[3]) && StartsBlock(all[5]) && StartsBlock(all[8]);
    assert forall t :: 0 <= t < 10 && t != 3 && t != 5 && t != 8 ==> !StartsBlock(all[t]);
    assert all[3].ident == "target" && all[5].ident == "x" && all[8].ident == "y";
    hide StartsBlock;
    assert "x" != "y" && "target" != "x" && "target" != "y";
  }

  lemma AllLiteral()
    ensures LiteralControlFlow(FORK, STATEMENTS)
  {
    Effects();
    hide Effect;
    var all := STATEMENTS;
    forall i | 0 <= i < |all| && all[i].Opcode?
      ensures Effect(FORK, all[i]).Some? && (IsJump(FORK, all[i]) ==> JumpTarget(FORK, all[i]) != "")
    {
      assert all[i] == PUSH || all[i] == BRANCH || all[i] == STOP || all[i] == JumpTo("y") || all[i] == JumpTo("target");
    }
  }

  lemma AllBare()
    ensures Bare(STATEMENTS)
  {
  }

  lemma IsDocument()
    ensures Document(SETUP, STATEMENTS, INDEX)
  {
    hide *;
    IsBlockGraph();
    LabelsUnique();
    AllLiteral();
    AllBare();
    BareComments(STATEMENTS);
    GraphValid(FORK, STATEMENTS, BLOCKS, INDEX);
    DocumentOf();
  }

  lemma DocumentOf()
    requires BlockGraph(FORK, STATEMENTS, BLOCKS, INDEX) && ValidGraph(BLOCKS)
    requires LiteralControlFlow(FORK, STATEMENTS) && UniqueLabels(STATEMENTS) && PlainComments(STATEMENTS)
    requires forall k :: 0 <= k < |STATEMENTS| ==> PlainLabel(STATEMENTS[k])
    ensures Document(SETUP, STATEMENTS, INDEX)
  {
    hide BlockGraph, ValidGraph, LiteralControlFlow, UniqueLabels, PlainComments, PlainLabel;
  }

  lemma IsPlain()
    ensures PlainSetup(SETUP)
  {
    IsDocument();
    hide Document, PlainSetup;
    DocumentPlain(SETUP, STATEMENTS, INDEX);
  }

  /** The jumps make no cycle, so the worklist empties. */
  lemma Drains() returns (n: nat)
    ensures SETUP.Valid() && AfterRounds(SETUP, n).worklist == []
  {
    IsPlain();
    var rank: seq<nat> := [0, 1, 3, 1, 2];
    assert Ranking(BLOCKS, rank, 3);
    assert Topological(BLOCKS, rank);
    hide PlainBlock, AfterRounds, Ranking, Topological, ValidNode;
    AcyclicDrains(SETUP, rank, 3);
    n :| AfterRounds(SETUP, n).worklist == [];
  }

  // ----- depths -----

  lemma FirstDepth(st: Statement, rest: seq<Statement>, d: int)
    ensures DepthAfter(FORK, [st] + rest, d) == DepthAfter(FORK, rest, d - Inputs(FORK, st) + Outputs(FORK, st))
    ensures Suffices(FORK, [st] + rest, d) <==> Inputs(FORK, st) <= d && Suffices(FORK, rest, d - Inputs(FORK, st) + Outputs(FORK, st))
    ensures DepthAfter(FORK, [], d) == d && Suffices(FORK, [], d)
  {
    hide Inputs, Outputs;
    assert ([st] + rest)[1..] == rest && ([st] + rest)[0] == st;
  }

  lemma StatementDepths()
    ensures Inputs(FORK, PUSH) == 0 && Outputs(FORK, PUSH) == 1
    ensures Inputs(FORK, BRANCH) == 1 && Outputs(FORK, BRANCH) == 0
    ensures Inputs(FORK, STOP) == 0 && Outputs(FORK, STOP) == 0
    ensures forall ident :: Inputs(FORK, JumpTo(ident)) == 0 && Outputs(FORK, JumpTo(ident)) == 0
    ensures forall ident :: Inputs(FORK, LabelOf(ident)) == 0 && Outputs(FORK, LabelOf(ident)) == 0
  {
    Effects();
    hide Effect;
  }

  const DEPTHS: seq<nat> := [0, 0, 0, 1, 0]

  /** Blocks start without items; only the one at x leaves an item. */
  lemma BlockDepths(b: nat)
    requires b < 5
    ensures DepthAfter(FORK, BLOCKS[b].statements, 0) == DEPTHS[b] && Suffices(FORK, BLOCKS[b].statements, 0)
  {
    StatementDepths();
    hide Inputs, Outputs, DepthAfter, Suffices;
    FirstDepth(PUSH, [BRANCH], 0);
    FirstDepth(BRANCH, [], 1);
    FirstDepth(JumpTo("y"), [], 0);
    FirstDepth(LabelOf("target"), [STOP], 0);
    FirstDepth(STOP, [], 0);
    FirstDepth(LabelOf("x"), [PUSH, JumpTo("target")], 0);
    FirstDepth(PUSH, [JumpTo("target")], 0);
    FirstDepth(JumpTo("target"), [], 1);
    FirstDepth(LabelOf("y"), [JumpTo("target")], 0);
    FirstDepth(JumpTo("target"), [], 0);
    assert [PUSH] + [BRANCH] == FIRST.statements && [BRANCH] + [] == [BRANCH] && [JumpTo("y")] + [] == SECOND.statements;
    assert [LabelOf("target")] + [STOP] == JOIN.statements && [STOP] + [] == [STOP];
    assert [LabelOf("x")] + [PUSH, JumpTo("target")] == DEEP.statements && [PUSH] + [JumpTo("target")] == [PUSH, JumpTo("target")];
    assert [JumpTo("target")] + [] == [JumpTo("target")] && [LabelOf("y")] + [JumpTo("target")] == FLAT.statements;
  }

  lemma BlocksBare(b: nat)
    requires b < 5
    ensures Bare(BLOCKS[b].statements) && BLOCKS[b].labelComment == None && BLOCKS[b].statements != []
  {
  }

  /** The exit of a reached block that starts without items. */
  lemma ExitDepth(n: nat, b: nat)
    requires SETUP.Valid() && AfterRounds(SETUP, n).worklist == [] && b < 5
    requires |AfterRounds(SETUP, n).states| == 5 && AfterRounds(SETUP, n).states[b].reached
    requires |AfterRounds(SETUP, n).states[b].entry| == 0
    ensures |AfterRounds(SETUP, n).states[b].exit| == DEPTHS[b]
  {
    DrainedIsFixedPoint(SETUP, n);
    IsPlain();
    ResultPlain(SETUP, n);
    BlocksBare(b);
    BareComments(BLOCKS[b].statements);
    BlockDepths(b);
    var bs := AfterRounds(SETUP, n).states[b];
    hide AfterRounds, PlainSetup, Walked, BaseNames, DepthAfter, Suffices, BlockPreds, PlainComments, NewStack;
    assert BlockEquations(SETUP, AfterRounds(SETUP, n).states, b);
    assert PlainState(bs);
    NewStackDotless(bs.entry);
    WalkedDepth(FORK, BLOCKS[b].statements, EntryStack(bs.entry, false, false));
  }

  /** The states that propagation ends with: who the predecessors are, and the depths. */
  ghost predicate Settled(states: seq<BlockState>) {
    && |states| == 5 && (forall b :: 0 <= b < 5 ==> states[b].reached && |states[b].entry| == 0 && |states[b].exit| == DEPTHS[b])
    && (forall b :: 0 <= b < 5 ==> PlainState(states[b]) && states[b].predExits != map[])
    && states[0].predExits.Keys == {INITIAL} && states[1].predExits.Keys == {0} && states[3].predExits.Keys == {0}
    && states[4].predExits.Keys == {1} && states[2].predExits.Keys == {3, 4}
    && |states[2].predExits[3]| == 1 && |states[2].predExits[4]| == 0
  }

  /** An edge of the graph that propagation has followed. */
  ghost predicate Followed(states: seq<BlockState>, a: nat, b: nat) {
    && a < |states| && b < |states| && states[a].reached && states[b].reached
    && a in states[b].predExits && states[b].predExits[a] == states[a].exit
  }

  lemma Follows(c: Setup, states: seq<BlockState>, a: nat, b: nat)
    requires c.Valid() && |states| == |c.blocks| && IsFixedPoint(c, states) && a < |c.blocks| && states[a].reached
    requires b in c.blocks[a].successors
    ensures Followed(states, a, b)
  {
    hide Leaves, BaseNames, AnyPredWild, BlockPreds;
    assert BlockEquations(c, states, a);
  }

  lemma MergedFrom(c: Setup, states: seq<BlockState>, b: nat)
    requires c.Valid() && |states| == |c.blocks| && IsFixedPoint(c, states) && b < |c.blocks| && states[b].reached
    ensures states[b].entry == BaseNames(states[b].predExits)
  {
    hide Leaves, BaseNames, AnyPredWild, BlockPreds;
    assert BlockEquations(c, states, b);
  }

  /** Predecessors on record are edges of the graph, or the initial stack. */
  lemma OnlyEdges(c: Setup, states: seq<BlockState>, b: nat, k: int)
    requires c.Valid() && |states| == |c.blocks| && IsFixedPoint(c, states) && b < |c.blocks| && k in states[b].predExits
    ensures (k == INITIAL && b == 0) || (0 <= k < |c.blocks| && b in c.blocks[k].successors)
  {
    hide BlockEquations;
    assert BlockPreds(c, states, b);
  }

  lemma FirstEntry(c: Setup, states: seq<BlockState>)
    requires c.Valid() && |states| == |c.blocks| && IsFixedPoint(c, states)
    ensures states[0].reached && INITIAL in states[0].predExits && states[0].predExits[INITIAL] == c.InitItems()
  {
    hide BlockEquations;
    assert BlockPreds(c, states, 0);
  }

  /** The successors of each block. */
  ghost predicate Arrows(blocks: seq<Block>) {
    && |blocks| == 5 && blocks[0].successors == [1, 3] && blocks[1].successors == [4] && blocks[2].successors == []
    && blocks[3].successors == [2] && blocks[4].successors == [2]
  }

  lemma HasArrows()
    ensures Arrows(SETUP.blocks) && SETUP.InitItems() == [] && !SETUP.inferred
  {
  }

  lemma AllFollowed(c: Setup, states: seq<BlockState>)
    requires c.Valid() && Arrows(c.blocks) && |states| == |c.blocks| && IsFixedPoint(c, states)
    ensures Followed(states, 0, 1) && Followed(states, 0, 3) && Followed(states, 1, 4) && Followed(states, 3, 2) && Followed(states, 4, 2)
  {
    FirstEntry(c, states);
    hide IsFixedPoint;
    Follows(c, states, 0, 1);
    Follows(c, states, 0, 3);
    Follows(c, states, 1, 4);
    Follows(c, states, 3, 2);
    Follows(c, states, 4, 2);
  }

  /** The edges of the graph, read backwards. */
  ghost predicate Backwards(states: seq<BlockState>) {
    && |states| == 5
    && states[0].predExits.Keys == {INITIAL} && states[1].predExits.Keys == {0} && states[3].predExits.Keys == {0}
    && states[4].predExits.Keys == {1} && states[2].predExits.Keys == {3, 4}
  }

  /** The blocks that an edge to b can come from. */
  function Sources(b: nat): set<int> {
    if b == 0 then {INITIAL} else if b == 2 then {3, 4} else if b == 4 then {1} else {0}
  }

  lemma SourceOf(c: Setup, states: seq<BlockState>, b: nat, k: int)
    requires c.Valid() && Arrows(c.blocks) && |states| == |c.blocks| && IsFixedPoint(c, states)
    requires b < 5 && k in states[b].predExits
    ensures k in Sources(b)
  {
    OnlyEdges(c, states, b, k);
    hide IsFixedPoint;
    assert k == INITIAL || k == 0 || k == 1 || k == 2 || k == 3 || k == 4;
  }

  lemma SourceIn(states: seq<BlockState>, b: nat, k: int)
    requires |states| == 5 && INITIAL in states[0].predExits && b < 5 && k in Sources(b)
    requires Followed(states, 0, 1) && Followed(states, 0, 3) && Followed(states, 1, 4) && Followed(states, 3, 2) && Followed(states, 4, 2)
    ensures k in states[b].predExits
  {
  }

  lemma PredsAt(c: Setup, states: seq<BlockState>, b: nat)
    requires c.Valid() && Arrows(c.blocks) && |states| == |c.blocks| && IsFixedPoint(c, states) && b < 5
    ensures states[b].predExits.Keys == Sources(b)
  {
    AllFollowed(c, states);
    FirstEntry(c, states);
    assert |states| == 5;
    hide *;
    forall k
      ensures k in states[b].predExits.Keys <==> k in Sources(b)
    {
      if k in states[b].predExits.Keys {
        SourceOf(c, states, b, k);
      }
      if k in Sources(b) {
        SourceIn(states, b, k);
      }
    }
  }

  lemma PredsOf(c: Setup, states: seq<BlockState>)
    requires c.Valid() && Arrows(c.blocks) && |states| == |c.blocks| && IsFixedPoint(c, states)
    ensures Backwards(states)
  {
    hide IsFixedPoint, Setup.Valid;
    PredsAt(c, states, 0);
    PredsAt(c, states, 1);
    PredsAt(c, states, 2);
    PredsAt(c, states, 3);
    PredsAt(c, states, 4);
  }

  lemma OnlyPred(preds: map<int, seq<string>>, k: int)
    requires preds.Keys == {k}
    ensures |BaseNames(preds)| == |preds[k]|
  {
    assert BaseKey(preds) in preds;
  }

  /** A block with one predecessor starts as that one ends. */
  lemma EntryThrough(c: Setup, states: seq<BlockState>, a: nat, b: nat)
    requires c.Valid() && |states| == |c.blocks| && IsFixedPoint(c, states) && b < |c.blocks|
    requires Followed(states, a, b) && states[b].predExits.Keys == {a}
    ensures |states[b].entry| == |states[a].exit|
  {
    hide IsFixedPoint, BaseNames;
    MergedFrom(c, states, b);
    OnlyPred(states[b].predExits, a);
  }

  lemma FirstThrough(c: Setup, states: seq<BlockState>)
    requires c.Valid() && |states| == |c.blocks| && IsFixedPoint(c, states)
    requires states[0].predExits.Keys == {INITIAL} && c.InitItems() == []
    ensures |states[0].entry| == 0
  {
    FirstEntry(c, states);
    hide IsFixedPoint, BaseNames;
    MergedFrom(c, states, 0);
    OnlyPred(states[0].predExits, INITIAL);
  }

  /** The block where both jumps go starts as the one that leaves less. */
  lemma JoinThrough(c: Setup, states: seq<BlockState>)
    requires c.Valid() && |states| == |c.blocks| == 5 && IsFixedPoint(c, states)
    requires Followed(states, 4, 2) && |states[4].exit| == 0
    ensures |states[2].entry| == 0
  {
    hide IsFixedPoint, BaseNames;
    MergedFrom(c, states, 2);
    BaseMinimal(states[2].predExits, 4);
  }

  ghost predicate Leaving(states: seq<BlockState>, b: nat) {
    b < |states| && states[b].reached && |states[b].entry| == 0 && b < 5 && |states[b].exit| == DEPTHS[b]
  }

  lemma Leaves0(n: nat, b: nat)
    requires SETUP.Valid() && AfterRounds(SETUP, n).worklist == [] && b < 5
    requires |AfterRounds(SETUP, n).states| == 5 && AfterRounds(SETUP, n).states[b].reached
    requires |AfterRounds(SETUP, n).states[b].entry| == 0
    ensures Leaving(AfterRounds(SETUP, n).states, b)
  {
    hide AfterRounds;
    ExitDepth(n, b);
  }

  lemma AllLeave(n: nat, states: seq<BlockState>)
    requires SETUP.Valid() && AfterRounds(SETUP, n).worklist == [] && states == AfterRounds(SETUP, n).states
    requires |states| == |SETUP.blocks| == 5 && IsFixedPoint(SETUP, states) && SETUP.InitItems() == []
    requires Backwards(states) && Followed(states, 0, 1) && Followed(states, 0, 3) && Followed(states, 1, 4) && Followed(states, 4, 2)
    ensures forall b: nat :: b < 5 ==> Leaving(states, b)
  {
    hide AfterRounds, IsFixedPoint, Setup.Valid, Setup.InitItems;
    FirstThrough(SETUP, states);
    Leaves0(n, 0);
    EntryThrough(SETUP, states, 0, 1);
    Leaves0(n, 1);
    EntryThrough(SETUP, states, 0, 3);
    Leaves0(n, 3);
    EntryThrough(SETUP, states, 1, 4);
    Leaves0(n, 4);
    JoinThrough(SETUP, states);
    Leaves0(n, 2);
  }

  lemma AllPlainStates(n: nat)
    requires SETUP.Valid() && AfterRounds(SETUP, n).worklist == [] && |AfterRounds(SETUP, n).states| == 5
    ensures forall b: nat :: b < 5 ==> PlainState(AfterRounds(SETUP, n).states[b])
  {
    IsPlain();
    ResultPlain(SETUP, n);
    hide AfterRounds, PlainSetup, PlainState;
  }

  lemma SettledOf(states: seq<BlockState>)
    requires Backwards(states) && Followed(states, 3, 2) && Followed(states, 4, 2)
    requires forall b: nat :: b < 5 ==> Leaving(states, b) && PlainState(states[b])
    ensures Settled(states)
  {
    hide PlainState;
    assert Leaving(states, 3) && Leaving(states, 4);
    assert INITIAL in states[0].predExits && 0 in states[1].predExits && 0 in states[3].predExits && 1 in states[4].predExits;
  }

  lemma Settles(n: nat)
    requires SETUP.Valid() && AfterRounds(SETUP, n).worklist == []
    ensures Settled(AfterRounds(SETUP, n).states)
    ensures forall b: nat :: b < 5 ==> AfterRounds(SETUP, n).states[b].entry == BaseNames(AfterRounds(SETUP, n).states[b].predExits)
  {
    HasArrows();
    hide AfterRounds, IsFixedPoint, PlainState, BaseNames, Setup.Valid, Setup.InitItems, Settled, Backwards, Leaving;
    DrainedIsFixedPoint(SETUP, n);
    var states := AfterRounds(SETUP, n).states;
    PredsOf(SETUP, states);
    AllFollowed(SETUP, states);
    AllLeave(n, states);
    AllPlainStates(n);
    SettledOf(states);
    forall b: nat | b < 5
      ensures states[b].entry == BaseNames(states[b].predExits)
    {
      assert Leaving(states, b);
      LeavingReached(states, b);
      MergedFrom(SETUP, states, b);
    }
  }

  lemma LeavingReached(states: seq<BlockState>, b: nat)
    requires Leaving(states, b)
    ensures b < |states| && states[b].reached
  {
  }

  // ----- no warnings -----

  lemma {:induction false} BareWalk(stmts: seq<Statement>, s: StackState)
    requires Bare(stmts) && Closed(s) && Suffices(FORK, stmts, |s.items|)
    ensures WalkWarnings(FORK, stmts, s) == []
    decreases |stmts|
  {
    if stmts != [] {
      BareComments(stmts);
      StatementDepth(FORK, stmts[0], s);
      BareStatement(stmts[0], s);
      hide Effect, StatementApplied, Closed, CommentOf, PlainComment, StatementWarnings;
      BareWalk(stmts[1..], StatementApplied(FORK, stmts[0], s).0);
    }
  }

  /** Without comment, a statement that finds its items gives no warning. */
  lemma BareStatement(st: Statement, s: StackState)
    requires CommentOf(st) == Ok(None) && StatementApplied(FORK, st, s).1 != Some(OpUnderflow)
    ensures StatementWarnings(FORK, st, s) == []
  {
    hide Effect, Pull, PushOuts;
  }

  lemma BlockQuiet(states: seq<BlockState>, b: nat)
    requires Settled(states) && b < 5
    requires states[b].entry == BaseNames(states[b].predExits)
    ensures BlockWarnings(FORK, BLOCKS[b], states[b], b, CheckStack(states[b], b, [], false, 0)) == []
  {
    BlocksBare(b);
    BlockDepths(b);
    IsPlain();
    hide BaseNames, CheckStack, WalkWarnings, PlainSetup, Suffices, DepthAfter, Bare;
    CheckStackDepth(SETUP, states[b], b);
    BareWalk(BLOCKS[b].statements, CheckStack(states[b], b, [], false, 0));
    OneForward(states, b);
  }

  /** No block has forward predecessors of different depths, or a back edge. */
  lemma OneForward(states: seq<BlockState>, b: nat)
    requires Settled(states) && b < 5
    ensures !ForwardDepthsDiffer(states[b].predExits, b) && !LoopWarns(BLOCKS[b], states[b], b)
  {
    hide LabelWild, AnyPredWild;
  }

  lemma {:induction false} AllQuiet(states: seq<BlockState>, b: nat)
    requires SETUP.Valid() && Settled(states) && b <= 5
    requires forall i :: 0 <= i < 5 ==> states[i].entry == BaseNames(states[i].predExits)
    ensures CheckWarnings(FORK, BLOCKS, states, b, [], false, 0) == []
    decreases 5 - b
  {
    hide BlockWarnings, CheckStack, BaseNames, Settled;
    if b < 5 {
      assert |states| == 5 by { SettledSize(states); }
      CheckWarningsStep(FORK, BLOCKS, states, b, [], false, 0);
      BlockQuiet(states, b);
      AllQuiet(states, b + 1);
    }
  }

  lemma SettledSize(states: seq<BlockState>)
    requires Settled(states)
    ensures |states| == 5
  {
  }

  /**
   * The document is accepted without warnings, but the two predecessors of the block at target disagree,
   * so that some execution arrives there with an item more than the checker has.
   */
  lemma AcceptedUneven() returns (n: nat)
    ensures Accepted(SETUP, STATEMENTS, INDEX, n)
    ensures |AfterRounds(SETUP, n).states| == |BLOCKS|
    ensures !Uniform(AfterRounds(SETUP, n).states) && !AlwaysExact(SETUP, STATEMENTS, AfterRounds(SETUP, n).states)
    ensures !ForwardGraph(BLOCKS)
  {
    n := Drains();
    Settles(n);
    IsDocument();
    var states := AfterRounds(SETUP, n).states;
    hide AfterRounds, Document, BaseNames, CheckWarnings, AlwaysExact, ForwardGraph;
    SettledSize(states);
    AllQuiet(states, 0);
    assert 3 in states[2].predExits;
    assert !SameDepth(states[2]);
    ForkValid();
    hide ValidFork, Settled;
    assert Accepted(SETUP, STATEMENTS, INDEX, n);
    AlwaysExactIff(SETUP, STATEMENTS, INDEX, n);
    if ForwardGraph(BLOCKS) {
      ForwardIsExact(SETUP, STATEMENTS, INDEX, n);
    }
  }

  lemma ForkValid()
    ensures ValidFork(FORK)
  {
  }
}
