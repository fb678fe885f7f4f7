/** The analysis of one statement sequence, from basic blocks to warnings (analyzeBlocks in internal/stackcheck/check.go). */
module Analysis {
  import opened Base
  import opened StackComment
  import opened SymbolicStack
  import opened Statements
  import opened Blocks
  import opened Worklist
  import opened Propagation
  import opened Reporting
  import opened FixedPoint
  import opened DepthSoundness
  import opened InferredInputs
  import opened PlainRuns
  import opened Machine
  import T = Termination

  /** The worklist and the retry loop may run forever; the model gives up when its fuel is used up. */
  datatype AnalysisResult =
    | Analysed(exitItems: seq<string>, inferredInputs: seq<string>, fallsThrough: bool,
               warnings: seq<Warning>, jumpWarnings: seq<Warning>)
    | Crashed(crash: Warning)
    | OutOfFuel

  /** The number of items at the bottom with which the retry loop ends, if it ends within the given bounds. */
  ghost function FinalGrowth(c: Setup, g: nat, fuel: nat, retries: nat): Option<nat>
    requires c.Valid()
    decreases retries
  {
    var ps := AfterRounds(WithGrowth(c, g), fuel);
    if ps.worklist != [] then None
    else if ps.need == 0 then Some(g)
    else if retries == 0 then None
    else FinalGrowth(c, g + ps.need, fuel, retries - 1)
  }

  /** The exit items of the last reached block among the first n. */
  function LastExit(states: seq<BlockState>, n: nat): seq<string>
    requires n <= |states|
  {
    if n == 0 then []
    else if states[n - 1].reached then states[n - 1].exit
    else LastExit(states, n - 1)
  }

  /** The statement at which the program stops, if the warnings include one. */
  function FirstCrash(warnings: seq<Warning>): (r: Option<Warning>)
    ensures r.None? <==> forall i :: 0 <= i < |warnings| ==> !warnings[i].Crash?
    ensures r.Some? ==> r.value in warnings && r.value.Crash?
  {
    if warnings == [] then None
    else if warnings[0].Crash? then Some(warnings[0])
    else FirstCrash(warnings[1..])
  }

  /** What is reported for stable block states. */
  ghost predicate ReportsStates(fork: Fork, blocks: seq<Block>, states: seq<BlockState>,
                                initialItems: seq<string>, inferred: bool, preGrow: nat, r: AnalysisResult)
    requires ValidGraph(blocks) && |blocks| > 0 && |states| == |blocks|
  {
    var warnings := CheckWarnings(fork, blocks, states, 0, initialItems, inferred, preGrow);
    if FirstCrash(warnings).Some? then r == Crashed(FirstCrash(warnings).value)
    else
      && r.Analysed?
      && r.warnings == warnings
      && (r.jumpWarnings != [] <==> JumpDepthWarns(blocks, states))
      && r.exitItems == LastExit(states, |states|)
      && r.fallsThrough == (states[|states| - 1].reached && FallsThrough(blocks[|blocks| - 1]))
  }

  function InferredNames(c: Setup): seq<string>
    requires |c.blocks| > 0
  {
    if c.inferred then InputNames(c.First()) else []
  }

  /** The result for a list of blocks: what is reported for the states that the retry loop ends with. */
  ghost predicate ResultFor(fork: Fork, blocks: seq<Block>, initialItems: seq<string>, inferred: bool, fuel: nat, retries: nat,
                            r: AnalysisResult)
    requires ValidGraph(blocks)
  {
    if blocks == [] then r == Analysed(initialItems, [], false, [], [])
    else
      var c := Setup(fork, blocks, initialItems, inferred, 0);
      var g := FinalGrowth(c, 0, fuel, retries);
      if g.None? then r == OutOfFuel
      else
        var run := WithGrowth(c, g.value);
        && |AfterRounds(run, fuel).states| == |blocks|
        && ReportsStates(fork, blocks, AfterRounds(run, fuel).states, initialItems, inferred, g.value, r)
        && (r.Analysed? ==> r.inferredInputs == InferredNames(run))
  }

  /** The result for a statement sequence. */
  ghost predicate AnalysisOf(fork: Fork, stmts: seq<Statement>, initialItems: seq<string>, inferred: bool, fuel: nat, retries: nat,
                             r: AnalysisResult)
  {
    exists blocks, labelIndex ::
      BlockGraph(fork, stmts, blocks, labelIndex) && ValidGraph(blocks)
      && ResultFor(fork, blocks, initialItems, inferred, fuel, retries, r)
  }

  /** Repeats the propagation with more items at the bottom of the stack until no block needs more. */
  method PropagateUntilSettled(fork: Fork, blocks: seq<Block>, initialItems: seq<string>, inferred: bool, fuel: nat, retries: nat)
    returns (states: seq<BlockState>, inferredInputs: seq<string>, preGrow: nat, ended: bool)
    requires ValidFork(fork) && ValidGraph(blocks) && |blocks| > 0
    ensures ended <==> FinalGrowth(Setup(fork, blocks, initialItems, inferred, 0), 0, fuel, retries).Some?
    ensures ended ==>
              var c := Setup(fork, blocks, initialItems, inferred, preGrow);
              && FinalGrowth(Setup(fork, blocks, initialItems, inferred, 0), 0, fuel, retries) == Some(preGrow)
              && states == AfterRounds(c, fuel).states && inferredInputs == InferredNames(c)
  {
    hide ValidGraph, Run, Start, FirstExit, InputNames;
    ghost var c := Setup(fork, blocks, initialItems, inferred, 0);
    preGrow := 0;
    var left := retries;
    while true
      invariant FinalGrowth(c, preGrow, fuel, left) == FinalGrowth(c, 0, fuel, retries)
      decreases left
    {
      var need, drained;
      states, inferredInputs, need, drained := PropagateStates(fork, blocks, initialItems, inferred, preGrow, fuel);
      ghost var run := WithGrowth(c, preGrow);
      assert AfterRounds(run, fuel).need == need && (AfterRounds(run, fuel).worklist == [] <==> drained);
      if !drained || need == 0 {
        ended := drained;
        return;
      }
      preGrow := preGrow + need;
      if left == 0 {
        ended := false;
        return;
      }
      left := left - 1;
    }
  }

  /** Splits a statement sequence into blocks, propagates stack states through them, and checks them. */
  method AnalyzeBlocks(fork: Fork, stmts: seq<Statement>, initialItems: seq<string>, inferred: bool, fuel: nat, retries: nat)
    returns (r: AnalysisResult)
    requires ValidFork(fork)
    ensures AnalysisOf(fork, stmts, initialItems, inferred, fuel, retries, r)
  {
    var blocks, labelIndex := SplitBlocks(fork, stmts);
    GraphValid(fork, stmts, blocks, labelIndex);
    hide ValidGraph, BlockGraph, AfterRounds, FirstExit, InputNames, CheckWarnings, JumpDepthWarns, FinalGrowth;
    if |blocks| == 0 {
      r := Analysed(initialItems, [], false, [], []);
      assert ResultFor(fork, blocks, initialItems, inferred, fuel, retries, r);
      return;
    }
    var states, inferredInputs, preGrow, ended;
    states, inferredInputs, preGrow, ended := PropagateUntilSettled(fork, blocks, initialItems, inferred, fuel, retries);
    if !ended {
      r := OutOfFuel;
      assert ResultFor(fork, blocks, initialItems, inferred, fuel, retries, r);
      return;
    }
    RoundsSized(Setup(fork, blocks, initialItems, inferred, preGrow), fuel);
    hide ReportsStates, InferredNames;
    r := Report(fork, blocks, states, initialItems, inferred, preGrow, inferredInputs);
    assert ResultFor(fork, blocks, initialItems, inferred, fuel, retries, r);
  }

  /** The second phase of the analysis. */
  method Report(fork: Fork, blocks: seq<Block>, states: seq<BlockState>, initialItems: seq<string>, inferred: bool,
                preGrow: nat, inferredInputs: seq<string>)
    returns (r: AnalysisResult)
    requires ValidFork(fork) && ValidGraph(blocks) && |blocks| > 0 && |states| == |blocks|
    ensures ReportsStates(fork, blocks, states, initialItems, inferred, preGrow, r)
    ensures r.Analysed? ==> r.inferredInputs == inferredInputs
  {
    hide ValidGraph, CheckWarnings, JumpDepthWarns;
    var warnings := CheckComments(fork, blocks, states, initialItems, inferred, preGrow);
    var crash := FirstCrash(warnings);
    if crash.Some? {
      return Crashed(crash.value);
    }
    var jumpWarnings := CheckJumpDepths(blocks, states);
    var exit := ExitOfLast(states);
    var last := blocks[|blocks| - 1];
    var fallsThrough := states[|blocks| - 1].reached && !last.endsWithTerminal && !last.endsWithUnconditionalJump;
    r := Analysed(exit, inferredInputs, fallsThrough, warnings, jumpWarnings);
  }

  lemma RoundsSized(c: Setup, n: nat)
    requires c.Valid()
    ensures |AfterRounds(c, n).states| == |c.blocks|
  {
    StartValid(c.fork, c.blocks, c.initialItems, c.inferred, c.preGrow);
  }

  method ExitOfLast(states: seq<BlockState>) returns (exit: seq<string>)
    ensures exit == LastExit(states, |states|)
  {
    var i: nat := |states|;
    while i > 0
      invariant i <= |states|
      invariant LastExit(states, i) == LastExit(states, |states|)
    {
      i := i - 1;
      if states[i].reached {
        return states[i].exit;
      }
    }
    exit := [];
  }

  /** The growths up to the final one are those of a retry loop that ends. */
  lemma {:induction false} FinalGrowthEnds(c: Setup, gs: seq<nat>, fuel: nat, retries: nat) returns (all: seq<nat>)
    requires c.Valid() && Retries(c, gs)
    requires FinalGrowth(c, LastOf(gs), fuel, retries).Some?
    ensures Retries(c, all) && LastOf(all) == FinalGrowth(c, LastOf(gs), fuel, retries).value
    ensures SettledAfter(WithGrowth(c, LastOf(all)), fuel)
    decreases retries
  {
    hide ValidGraph, AfterRounds;
    var g := LastOf(gs);
    var ps := AfterRounds(WithGrowth(c, g), fuel);
    if ps.need == 0 {
      all := gs;
    } else {
      assert Retry(c, g, g + ps.need);
      RetriesSnoc(c, gs, g + ps.need);
      hide Retries, Retry;
      all := FinalGrowthEnds(c, gs + [g + ps.need], fuel, retries - 1);
    }
  }

  /** The blocks of a document without blocks have no statements. */
  lemma NoBlocks(fork: Fork, stmts: seq<Statement>, labelIndex: map<string, nat>)
    requires BlockGraph(fork, stmts, [], labelIndex)
    ensures stmts == []
  {
  }

  /** A silent result accepts the document, with the number of items that the retry loop ends with. */
  lemma SilentAccepts(fork: Fork, stmts: seq<Statement>, blocks: seq<Block>, labelIndex: map<string, nat>, initialItems: seq<string>,
                      fuel: nat, retries: nat, r: AnalysisResult) returns (g: nat)
    requires BlockGraph(fork, stmts, blocks, labelIndex) && ValidGraph(blocks) && |blocks| > 0
    requires ResultFor(fork, blocks, initialItems, false, fuel, retries, r) && r.Analysed? && r.warnings == []
    requires ValidFork(fork) && LiteralControlFlow(fork, stmts) && UniqueLabels(stmts)
    requires NoWildcards(Setup(fork, [], initialItems, false, 0), stmts)
    ensures Accepted(Setup(fork, blocks, initialItems, false, g), stmts, labelIndex, fuel)
  {
    var c0 := Setup(fork, blocks, initialItems, false, 0);
    FirstRetry(c0);
    hide ValidGraph, AfterRounds, Retries, CheckWarnings, BlockGraph, FinalGrowth, JumpDepthWarns, LiteralControlFlow, UniqueLabels, ValidFork;
    var all := FinalGrowthEnds(c0, [0], fuel, retries);
    g := LastOf(all);
  }

  /**
   * Whenever the analysis of a document with known opcodes and literal jumps, and without wildcards,
   * gives no warning in closed mode, no execution that starts with the declared items underflows.
   */
  lemma SilentAnalysisIsSafe(fork: Fork, stmts: seq<Statement>, initialItems: seq<string>, fuel: nat, retries: nat,
                             r: AnalysisResult, path: seq<Config>, i: nat)
    requires AnalysisOf(fork, stmts, initialItems, false, fuel, retries, r)
    requires r.Analysed? && r.warnings == []
    requires ValidFork(fork) && LiteralControlFlow(fork, stmts) && UniqueLabels(stmts)
    requires NoWildcards(Setup(fork, [], initialItems, false, 0), stmts)
    requires Execution(fork, stmts, path) && i < |path|
    requires path[0].pc == 0 && |path[0].w| == |initialItems|
    ensures !Underflows(fork, stmts, path[i])
  {
    var blocks, labelIndex :| BlockGraph(fork, stmts, blocks, labelIndex) && ValidGraph(blocks)
                              && ResultFor(fork, blocks, initialItems, false, fuel, retries, r);
    hide *;
    if blocks == [] {
      NoBlocks(fork, stmts, labelIndex);
      NothingUnderflows(fork, path[i]);
    } else {
      var g := SilentAccepts(fork, stmts, blocks, labelIndex, initialItems, fuel, retries, r);
      NoWarningsNoUnderflow(Setup(fork, blocks, initialItems, false, g), stmts, labelIndex, fuel, path, i);
    }
  }

  lemma NothingUnderflows(fork: Fork, c: Config)
    ensures !Underflows(fork, [], c)
  {
  }

  lemma FirstRetry(c: Setup)
    requires c.Valid()
    ensures Retries(c, [0]) && LastOf([0]) == 0
  {
  }

  /**
   * In inferred mode, without label comments and wildcards, the reported inputs are as many as the
   * deepest path touches.
   */
  lemma AnalysisInputsExact(fork: Fork, blocks: seq<Block>, fuel: nat, retries: nat, r: AnalysisResult)
    requires ValidGraph(blocks) && |blocks| > 0 && InferredSetup(Setup(fork, blocks, [], true, 0))
    requires ResultFor(fork, blocks, [], true, fuel, retries, r) && r.Analysed?
    ensures DeepestTouch(Setup(fork, blocks, [], true, 0), |r.inferredInputs|)
  {
    var c := Setup(fork, blocks, [], true, 0);
    FirstRetry(c);
    hide ValidGraph, AfterRounds, CheckWarnings, InferredSetup, FirstExit, FinalGrowth, JumpDepthWarns, Retries;
    var all := FinalGrowthEnds(c, [0], fuel, retries);
    assert Settles(c, LastOf(all));
    assert EndsWith(c, all);
    InferredExact(c, all);
  }

  // ----- when the analysis ends -----

  lemma {:induction false} EdgesKeepNeed(ps: Prop, idx: nat, succs: seq<nat>, exit: seq<string>, wild: bool, src: Statement)
    requires |ps.states| == |ps.queued| && forall i :: 0 <= i < |succs| ==> succs[i] < |ps.states|
    ensures MergeEdges(ps, idx, succs, exit, wild, src).need == ps.need
    decreases |succs|
  {
    if succs != [] {
      hide Merged;
      EdgesKeepNeed(MergeEdge(ps, idx, succs[0], exit, wild, src), idx, succs[1..], exit, wild, src);
    }
  }

  lemma PropagatedNeed(blocks: seq<Block>, ps: Prop, idx: nat)
    requires ValidGraph(blocks) && idx < |blocks| == |ps.states| == |ps.queued|
    ensures Propagated(blocks, ps, idx).need == ps.need
  {
    assert ValidNode(blocks, idx);
    hide MergeEdges;
    EdgesKeepNeed(ps, idx, blocks[idx].successors, ps.states[idx].exit, ps.states[idx].exitWild, Last(blocks[idx]));
  }

  lemma StepNeed(c: Setup, ps: Prop)
    requires c.Valid() && !c.inferred && ValidProp(c.blocks, ps) && ps.worklist != []
    ensures Step(c.fork, c.blocks, c.inferred, ps).need == ps.need
  {
    var idx := Next(ps);
    var s := BlockExit(c.fork, c.blocks[idx], ps.states[idx].entry, ps.states[idx].entryWild, c.inferred);
    hide Propagated, BlockExit, ValidGraph;
    PropagatedNeed(c.blocks, WithExit(Popped(ps), idx, s), idx);
  }

  lemma {:induction false} RunNeed(c: Setup, ps: Prop, n: nat)
    requires c.Valid() && !c.inferred && ValidProp(c.blocks, ps)
    ensures Run(c.fork, c.blocks, c.inferred, ps, n).need == ps.need
    decreases n
  {
    hide Step, ValidGraph;
    if n > 0 && ps.worklist != [] {
      StepValid(c.fork, c.blocks, c.inferred, ps);
      StepNeed(c, ps);
      RunNeed(c, Step(c.fork, c.blocks, c.inferred, ps), n - 1);
    }
  }

  /** In closed mode nothing is ever needed at the bottom: the retry loop ends with the first propagation. */
  lemma ClosedNeedsNothing(c: Setup, n: nat, retries: nat)
    requires c.Valid() && !c.inferred && c.preGrow == 0 && AfterRounds(c, n).worklist == []
    ensures AfterRounds(c, n).need == 0 && FinalGrowth(c, 0, n, retries) == Some(0)
  {
    StartValid(c.fork, c.blocks, c.initialItems, c.inferred, c.preGrow);
    var start := Start(c.fork, c.blocks, c.initialItems, c.inferred, c.preGrow);
    assert start.need == 0 by { StartNeed(c); }
    hide Start, ValidGraph;
    RunNeed(c, start, n);
  }

  lemma StartNeed(c: Setup)
    requires c.Valid()
    ensures Start(c.fork, c.blocks, c.initialItems, c.inferred, c.preGrow).need == 0
  {
    hide Propagated, FirstExit, ValidGraph;
    var s := FirstExit(c.fork, c.blocks[0], c.initialItems, c.inferred, c.preGrow);
    var (items, wild) := StripWildcard(c.initialItems);
    var first := BlockState(true, items, ItemTexts(s), map[INITIAL := items], map[INITIAL := wild], map[], wild, s.wildcard);
    PropagatedNeed(c.blocks, Prop(OnlyFirst(|c.blocks|, first), [], NoneQueued(|c.blocks|), 0), 0);
  }

  /**
   * The analysis of a balanced closed document whose back edges lead to dominators ends: with enough
   * rounds, and without any retry, the result is one of states that do not change any more.
   */
  lemma BalancedAnalysisEnds(c: Setup, live: set<nat>, depth: seq<nat>) returns (fuel: nat)
    requires PlainSetup(c) && !c.inferred && c.preGrow == 0
    requires forall b :: 0 <= b < |c.blocks| ==> |c.blocks[b].successors| <= 2
    requires T.Balanced(c, live, depth) && T.BackEdgesDominated(c.blocks, live)
    ensures forall retries, r :: ResultFor(c.fork, c.blocks, c.initialItems, false, fuel, retries, r) ==> r != OutOfFuel
  {
    T.DominatedDrains(c, live, depth);
    hide PlainBlock, T.Balanced, T.BackEdgesDominated, AfterRounds, ReportsStates, ValidGraph, Dotless;
    fuel :| AfterRounds(c, fuel).worklist == [];
    forall retries, r | ResultFor(c.fork, c.blocks, c.initialItems, false, fuel, retries, r)
      ensures r != OutOfFuel
    {
      ClosedNeedsNothing(c, fuel, retries);
      EndedIsAnalysed(c, fuel, retries, r);
    }
  }

  /** Blocks that a document is split into have at most two successors. */
  lemma BalancedDocumentEnds(c: Setup, stmts: seq<Statement>, labelIndex: map<string, nat>, live: set<nat>, depth: seq<nat>)
    returns (fuel: nat)
    requires BlockGraph(c.fork, stmts, c.blocks, labelIndex)
    requires PlainSetup(c) && !c.inferred && c.preGrow == 0
    requires T.Balanced(c, live, depth) && T.BackEdgesDominated(c.blocks, live)
    ensures forall retries, r :: ResultFor(c.fork, c.blocks, c.initialItems, false, fuel, retries, r) ==> r != OutOfFuel
  {
    T.TwoSuccessors(c.fork, stmts, c.blocks, labelIndex);
    hide *;
    fuel := BalancedAnalysisEnds(c, live, depth);
  }

  lemma EndedIsAnalysed(c: Setup, fuel: nat, retries: nat, r: AnalysisResult)
    requires c.Valid() && c.preGrow == 0 && FinalGrowth(c, 0, fuel, retries).Some?
    requires ResultFor(c.fork, c.blocks, c.initialItems, c.inferred, fuel, retries, r)
    ensures r != OutOfFuel
  {
    assert c == Setup(c.fork, c.blocks, c.initialItems, c.inferred, 0);
    hide FinalGrowth, AfterRounds, CheckWarnings, JumpDepthWarns, ValidGraph;
  }
}
