/** When the stack checker stops with an index out of range instead of a result. */
module Crashes {
  import opened Base
  import opened StackComment
  import opened SymbolicStack
  import opened Statements
  import opened Blocks
  import opened Worklist
  import opened PushLiterals
  import opened Propagation
  import opened Reporting
  import opened FixedPoint
  import opened InferredInputs
  import opened Reachability
  import opened Analysis

  ghost predicate HasCrash(warnings: seq<Warning>) {
    exists w :: w in warnings && w.Crash?
  }

  lemma CrashAppend(a: seq<Warning>, b: seq<Warning>)
    ensures HasCrash(a + b) <==> HasCrash(a) || HasCrash(b)
  {
    if w :| w in a && w.Crash? {
      assert w in a + b;
    }
    if w :| w in b && w.Crash? {
      assert w in a + b;
    }
  }

  lemma NoItems(st: Statement)
    requires st.Opcode?
    ensures CommentOf(st) == Ok(Some([])) <==> StackCommentText(st.comment).Some? && EmptyBrackets(StackCommentText(st.comment).value)
  {
    hide Parsed, EmptyBrackets;
    if StackCommentText(st.comment).Some? {
      NoItemsIff(StackCommentText(st.comment).value);
    }
  }

  lemma CrashOfStatement(fork: Fork, st: Statement, s: StackState)
    ensures HasCrash(StatementWarnings(fork, st, s)) <==> PushesUnnamed(st)
  {
    if st.Opcode? {
      NoItems(st);
      hide CommentOf, EmptyBrackets, StackCommentText, StatementApplied;
      assert PushedLiteral(st).Some? ==> Effect(fork, st).Some?;
      hide Effect;
      var own: seq<Warning> := match StatementApplied(fork, st, s).1 case None => [] case Some(err) => [StackWarning(st, err)];
      assert !HasCrash(own);
      CrashAppend(own, LiteralWarnings(st));
      CrashOfLiteral(st);
    }
  }

  lemma CrashOfLiteral(st: Statement)
    ensures HasCrash(LiteralWarnings(st)) <==> CommentOf(st) == Ok(Some([])) && PushedLiteral(st).Some?
  {
    hide CommentOf;
    if LiteralWarnings(st) == [Crash(st)] {
      assert Crash(st) in LiteralWarnings(st);
    }
  }

  /** Some statement pushes a literal that its comment does not name. */
  ghost predicate SomeUnnamed(stmts: seq<Statement>) {
    exists st :: st in stmts && PushesUnnamed(st)
  }

  lemma {:induction false} CrashOfWalk(fork: Fork, stmts: seq<Statement>, s: StackState)
    ensures HasCrash(WalkWarnings(fork, stmts, s)) <==> SomeUnnamed(stmts)
    decreases |stmts|
  {
    hide StatementWarnings, StatementApplied, PushesUnnamed;
    if stmts != [] {
      var next := StatementApplied(fork, stmts[0], s).0;
      CrashOfStatement(fork, stmts[0], s);
      CrashAppend(StatementWarnings(fork, stmts[0], s), WalkWarnings(fork, stmts[1..], next));
      CrashOfWalk(fork, stmts[1..], next);
      assert stmts == [stmts[0]] + stmts[1..];
      hide HasCrash;
    }
  }

  lemma NoLabelCrash(blk: Block, bs: BlockState, s: StackState)
    requires blk.statements != []
    ensures !HasCrash(LabelWarnings(blk, bs, s))
  {
    hide Parsed, LabelChecked, AnyDepthMatches;
  }

  lemma CrashOfBlock(fork: Fork, blk: Block, bs: BlockState, b: nat, s: StackState)
    requires blk.statements != []
    ensures HasCrash(BlockWarnings(fork, blk, bs, b, s)) <==> SomeUnnamed(blk.statements)
  {
    var depths := if b > 0 && MergeDepthWarns(blk, bs, b) then [MergeDepth(blk.statements[0])] else [];
    var loops := if (b > 0 || |bs.predExits| > 1) && LoopWarns(blk, bs, b) then [LoopUnbalanced(blk.statements[0])] else [];
    assert !HasCrash(depths) && !HasCrash(loops);
    hide MergeDepthWarns, LoopWarns, LabelWarnings, LabelApplied, WalkWarnings, HasCrash, SomeUnnamed;
    NoLabelCrash(blk, bs, s);
    CrashOfWalk(fork, blk.statements, LabelApplied(blk, s));
    CrashAppend(depths, loops);
    CrashAppend(depths + loops, LabelWarnings(blk, bs, s));
    CrashAppend(depths + loops + LabelWarnings(blk, bs, s), WalkWarnings(fork, blk.statements, LabelApplied(blk, s)));
  }

  /** Some reached block from b on pushes a literal that its comment does not name. */
  ghost predicate ReachedUnnamed(blocks: seq<Block>, states: seq<BlockState>, b: nat)
    requires |states| == |blocks|
  {
    exists i :: b <= i < |blocks| && states[i].reached && SomeUnnamed(blocks[i].statements)
  }

  lemma {:induction false} CrashOfChecks(fork: Fork, blocks: seq<Block>, states: seq<BlockState>, b: nat,
                                         initialItems: seq<string>, inferred: bool, preGrow: nat)
    requires ValidGraph(blocks) && |states| == |blocks| && b <= |blocks|
    ensures HasCrash(CheckWarnings(fork, blocks, states, b, initialItems, inferred, preGrow)) <==> ReachedUnnamed(blocks, states, b)
    decreases |blocks| - b
  {
    hide BlockWarnings, CheckStack, SomeUnnamed, ValidGraph;
    if b < |blocks| {
      CheckWarningsStep(fork, blocks, states, b, initialItems, inferred, preGrow);
      CrashOfChecks(fork, blocks, states, b + 1, initialItems, inferred, preGrow);
      var s := CheckStack(states[b], b, initialItems, inferred, preGrow);
      CrashOfBlock(fork, blocks[b], states[b], b, s);
      hide CheckWarnings;
      var own := if states[b].reached then BlockWarnings(fork, blocks[b], states[b], b, s) else [];
      assert HasCrash(own) <==> states[b].reached && SomeUnnamed(blocks[b].statements);
      CrashAppend(own, CheckWarnings(fork, blocks, states, b + 1, initialItems, inferred, preGrow));
      hide HasCrash;
    } else {
      CheckWarningsEnd(fork, blocks, states, initialItems, inferred, preGrow);
    }
  }

  lemma {:induction false} FinalDrained(c: Setup, g: nat, fuel: nat, retries: nat)
    requires c.Valid() && FinalGrowth(c, g, fuel, retries).Some?
    ensures var run := WithGrowth(c, FinalGrowth(c, g, fuel, retries).value); run.Valid() && AfterRounds(run, fuel).worklist == []
    decreases retries
  {
    hide AfterRounds, ValidGraph;
    if AfterRounds(WithGrowth(c, g), fuel).need > 0 {
      FinalDrained(c, g + AfterRounds(WithGrowth(c, g), fuel).need, fuel, retries - 1);
    }
  }

  /** A reachable block pushes a literal that its comment does not name. */
  ghost predicate ReachableUnnamed(blocks: seq<Block>) {
    exists b :: 0 <= b < |blocks| && Reachable(blocks, b) && SomeUnnamed(blocks[b].statements)
  }

  /**
   * An analysis that ends stops the program with an index out of range if and only if, in a block that
   * the graph leads to, a push of a literal has a stack comment with nothing in its brackets.
   */
  lemma CrashIff(fork: Fork, blocks: seq<Block>, initialItems: seq<string>, inferred: bool, fuel: nat, retries: nat, r: AnalysisResult)
    requires ValidGraph(blocks) && |blocks| > 0
    requires ResultFor(fork, blocks, initialItems, inferred, fuel, retries, r) && r != OutOfFuel
    ensures r.Crashed? <==> ReachableUnnamed(blocks)
  {
    var c := Setup(fork, blocks, initialItems, inferred, 0);
    FinalDrained(c, 0, fuel, retries);
    hide AfterRounds, FinalGrowth, CheckWarnings, InferredNames, JumpDepthWarns, SomeUnnamed, Reachable, ValidGraph;
    var g := FinalGrowth(c, 0, fuel, retries).value;
    var states := AfterRounds(WithGrowth(c, g), fuel).states;
    CrashOfChecks(fork, blocks, states, 0, initialItems, inferred, g);
    forall b: nat | b < |blocks|
      ensures states[b].reached <==> Reachable(blocks, b)
    {
      ReachedIffReachable(WithGrowth(c, g), fuel, b);
    }
    assert ReachedUnnamed(blocks, states, 0) <==> ReachableUnnamed(blocks);
  }
}
