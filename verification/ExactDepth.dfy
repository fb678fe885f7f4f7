/** When every execution of an accepted document has exactly the analysed stack depth. */
module ExactDepth {
  import opened Base
  import opened SymbolicStack
  import opened Tracking
  import opened Statements
  import opened Blocks
  import opened Worklist
  import opened FixedPoint
  import opened StackDepth
  import opened PlainRuns
  import opened Machine
  import opened Termination
  import opened Reachability
  import opened DepthSoundness

  // ----- executions exist -----

  /** An operation can be executed on every stack that is large enough. */
  lemma StepExists(op: StackOp, w: seq<Word>) returns (w': seq<Word>)
    requires Distinct(op.ins) && |op.ins| <= |w|
    ensures OpStep(op, w, w')
  {
    var outs := seq(|op.outs|, i requires 0 <= i < |op.outs| =>
      var k := FindName(op.ins, op.outs[i]);
      if k >= 0 then w[k] else 0);
    w' := outs + w[|op.ins|..];
    forall i, k | 0 <= i < |op.outs| && 0 <= k < |op.ins| && op.outs[i] == op.ins[k]
      ensures w'[i] == w[k]
    {
      var r := FindName(op.ins, op.outs[i]);
      assert op.outs[i] in op.ins;
      assert op.ins[r] == op.ins[k];
    }
  }

  /** A step to a position that the statement can transfer control to. */
  lemma ExecutesTo(fork: Fork, stmts: seq<Statement>, x: Config, pc: nat) returns (x': Config)
    requires ValidFork(fork) && LiteralControlFlow(fork, stmts) && x.pc < |stmts| && Inputs(fork, stmts[x.pc]) <= |x.w|
    requires var st := stmts[x.pc];
             || (!IsTerm(fork, st) && !IsUnconditional(fork, st) && pc == x.pc + 1)
             || (JumpTarget(fork, st) != "" && LabelAt(stmts, pc, JumpTarget(fork, st)))
    ensures Executes(fork, stmts, x, x') && x'.pc == pc
  {
    var st := stmts[x.pc];
    if st.Opcode? {
      EffectDistinct(fork, st);
      KnownAgrees(fork, stmts, x.pc);
      hide Effect, Distinct, ValidFork, LiteralControlFlow, Executes, OpStep;
      var w' := StepExists(Effect(fork, st).value, x.w);
      x' := Config(pc, w');
      StepAgrees(fork, stmts, x, x');
    } else {
      x' := Config(pc, x.w);
    }
  }

  /** Every edge of the block graph is a transfer of control that the last statement can make. */
  lemma EdgeIsTransfer(c: Setup, stmts: seq<Statement>, labelIndex: map<string, nat>, b: nat, d: nat)
    requires Document(c, stmts, labelIndex) && b < |c.blocks| && d in c.blocks[b].successors && d < |c.blocks|
    requires c.blocks[b].statements != []
    ensures var st := Last(c.blocks[b]);
            || (!IsTerm(c.fork, st) && !IsUnconditional(c.fork, st) && StartOf(c.blocks, d) == StartOf(c.blocks, b) + |c.blocks[b].statements|)
            || (JumpTarget(c.fork, st) != "" && LabelAt(stmts, StartOf(c.blocks, d), JumpTarget(c.fork, st)))
  {
    assert HasEdges(c.blocks, labelIndex, b);
    EdgeCases(c.blocks, labelIndex, b, d);
    assert ValidBlock(c.fork, c.blocks[b]);
    hide LiteralControlFlow, UniqueLabels, NoWildcards, Flatten, Adjacent, HasEdges, IsTerm, IsUnconditional, JumpTarget, LabelAt, ValidNode;
    if d == b + 1 && FallsThrough(c.blocks[b]) {
      NextStart(c.blocks, b);
    } else {
      IndexedLabel(c.fork, stmts, c.blocks, d, c.blocks[b].jumpTarget);
    }
  }

  lemma EdgeCases(blocks: seq<Block>, labelIndex: map<string, nat>, b: nat, d: nat)
    requires b < |blocks| && HasEdges(blocks, labelIndex, b) && d in blocks[b].successors
    ensures || (d == b + 1 && FallsThrough(blocks[b]))
            || (blocks[b].jumpTarget != "" && blocks[b].jumpTarget in labelIndex && labelIndex[blocks[b].jumpTarget] == d)
  {
  }

  lemma AppendStep(fork: Fork, stmts: seq<Statement>, path: seq<Config>, x: Config)
    requires Execution(fork, stmts, path) && Executes(fork, stmts, path[|path| - 1], x)
    ensures Execution(fork, stmts, path + [x])
  {
    var r := path + [x];
    forall i | 0 <= i < |r| - 1
      ensures Executes(fork, stmts, r[i], r[i + 1])
    {
      if i < |path| - 1 {
        assert Executes(fork, stmts, path[i], path[i + 1]);
      }
    }
  }

  /** What is known of a position in an accepted document. */
  lemma CanExecute(c: Setup, stmts: seq<Statement>, labelIndex: map<string, nat>, n: nat, x: Config, b: nat, k: nat)
    requires Accepted(c, stmts, labelIndex, n) && AtStatement(c, AfterRounds(c, n).states, x, b, k)
    ensures Document(c, stmts, labelIndex) && b < |c.blocks| && k < |c.blocks[b].statements|
    ensures x.pc == StartOf(c.blocks, b) + k < |stmts| && stmts[x.pc] == c.blocks[b].statements[k]
    ensures Inputs(c.fork, stmts[x.pc]) <= |x.w| && LiteralControlFlow(c.fork, stmts)
    ensures k + 1 < |c.blocks[b].statements| ==> !EndsBlock(c.fork, stmts[x.pc])
  {
    AcceptedParts(c, stmts, labelIndex, n);
    AcceptedSized(c, stmts, labelIndex, n);
    AcceptedIsDocument(c, stmts, labelIndex, n);
    AtFacts(c, AfterRounds(c, n).states, x, b, k);
    hide *;
    NoUnderflow(c, stmts, labelIndex, n, x, b, k);
    DocumentBlock(c, stmts, labelIndex, b);
    if k + 1 < |c.blocks[b].statements| {
      StaysInside(c.fork, c.blocks[b], k);
    }
  }

  lemma AcceptedIsDocument(c: Setup, stmts: seq<Statement>, labelIndex: map<string, nat>, n: nat)
    requires Accepted(c, stmts, labelIndex, n)
    ensures Document(c, stmts, labelIndex)
  {
    hide Document;
  }

  /** From any statement of a block, execution can go on to the start of any successor. */
  lemma {:induction false} RunBlock(c: Setup, stmts: seq<Statement>, labelIndex: map<string, nat>, n: nat,
                                    path: seq<Config>, b: nat, k: nat, d: nat) returns (more: seq<Config>)
    requires Accepted(c, stmts, labelIndex, n) && Execution(c.fork, stmts, path)
    requires AtStatement(c, AfterRounds(c, n).states, path[|path| - 1], b, k)
    requires d < |c.blocks| && d in c.blocks[b].successors
    ensures Execution(c.fork, stmts, more) && more[0] == path[0]
    ensures var x := more[|more| - 1];
            && x.pc == StartOf(c.blocks, d) && |x.w| >= |AfterRounds(c, n).states[b].exit|
            && (Uniform(AfterRounds(c, n).states) ==> |x.w| == |AfterRounds(c, n).states[b].exit|)
    decreases |c.blocks[b].statements| - k
  {
    hide *;
    AcceptedSized(c, stmts, labelIndex, n);
    ExecutionNotEmpty(c.fork, stmts, path);
    var x := path[|path| - 1];
    CanExecute(c, stmts, labelIndex, n, x, b, k);
    AcceptedParts(c, stmts, labelIndex, n);
    if k + 1 < |c.blocks[b].statements| {
      NotEnding(c.fork, stmts[x.pc]);
      var x' := ExecutesTo(c.fork, stmts, x, x.pc + 1);
      AtNext(c, stmts, labelIndex, n, x, x', b, k);
      AppendStep(c.fork, stmts, path, x');
      more := RunBlock(c, stmts, labelIndex, n, path + [x'], b, k + 1, d);
    } else {
      EdgeIsTransfer(c, stmts, labelIndex, b, d);
      LastIs(c.blocks[b], k);
      var x' := ExecutesTo(c.fork, stmts, x, StartOf(c.blocks, d));
      AtExit(c, stmts, labelIndex, n, x, x', b, k);
      AppendStep(c.fork, stmts, path, x');
      more := path + [x'];
    }
  }

  lemma ExecutionNotEmpty(fork: Fork, stmts: seq<Statement>, path: seq<Config>)
    requires Execution(fork, stmts, path)
    ensures |path| > 0
  {
  }

  lemma NotEnding(fork: Fork, st: Statement)
    requires !EndsBlock(fork, st)
    ensures !IsTerm(fork, st) && !IsUnconditional(fork, st)
  {
  }

  lemma LastIs(b: Block, k: nat)
    requires k + 1 == |b.statements|
    ensures b.statements != [] && Last(b) == b.statements[k]
  {
  }

  /** For every path of blocks from the first one there is an execution that follows it. */
  lemma {:induction false} PathExecutes(c: Setup, stmts: seq<Statement>, labelIndex: map<string, nat>, n: nat, blocks: seq<nat>, w: seq<Word>)
    returns (path: seq<Config>)
    requires Accepted(c, stmts, labelIndex, n) && IsPath(c.blocks, blocks) && |w| == |c.initialItems|
    ensures Execution(c.fork, stmts, path) && path[0] == Config(0, w)
    ensures AtStatement(c, AfterRounds(c, n).states, path[|path| - 1], blocks[|blocks| - 1], 0)
    decreases |blocks|
  {
    PathParts(c.blocks, blocks);
    hide *;
    AcceptedSized(c, stmts, labelIndex, n);
    if |blocks| == 1 {
      path := [Config(0, w)];
      StandingStill(c.fork, stmts, Config(0, w));
      SoundStart(c, stmts, labelIndex, n, path[0]);
    } else {
      var b, d := blocks[|blocks| - 2], blocks[|blocks| - 1];
      var before := PathExecutes(c, stmts, labelIndex, n, blocks[..|blocks| - 1], w);
      path := RunBlock(c, stmts, labelIndex, n, before, b, 0, d);
      ExecutionNotEmpty(c.fork, stmts, path);
      AtReached(c, AfterRounds(c, n).states, before[|before| - 1], b, 0);
      EnterBlock(c, stmts, labelIndex, n, b, d, path[|path| - 1]);
    }
  }

  lemma AtReached(c: Setup, states: seq<BlockState>, x: Config, b: nat, k: nat)
    requires |c.blocks| == |states| && AtStatement(c, states, x, b, k)
    ensures b < |states| && states[b].reached
  {
  }

  lemma StandingStill(fork: Fork, stmts: seq<Statement>, x: Config)
    ensures Execution(fork, stmts, [x])
  {
  }

  lemma PathParts(blocks: seq<Block>, path: seq<nat>)
    requires IsPath(blocks, path)
    ensures path != [] && path[0] == 0
    ensures |path| > 1 ==>
              var b, d := path[|path| - 2], path[|path| - 1];
              IsPath(blocks, path[..|path| - 1]) && b < |blocks| && d < |blocks| && d in blocks[b].successors
  {
    if |path| > 1 {
      assert path[|path| - 2 + 1] in blocks[path[|path| - 2]].successors;
    }
  }

  // ----- exact depth -----

  /** Position pc is that of statement k of block b. */
  ghost predicate Located(blocks: seq<Block>, pc: nat, b: nat, k: nat) {
    b < |blocks| && k < |blocks[b].statements| && pc == StartOf(blocks, b) + k
  }

  lemma LocatedOnce(blocks: seq<Block>, pc: nat, b: nat, k: nat, b': nat, k': nat)
    requires ValidGraph(blocks) && Located(blocks, pc, b, k) && Located(blocks, pc, b', k')
    ensures b == b' && k == k'
  {
    NextStart(blocks, b);
    NextStart(blocks, b');
    hide StartOf;
    if b < b' {
      StartsIncrease(blocks, b, b');
      if b + 1 < b' {
        StartsIncrease(blocks, b + 1, b');
      }
    } else if b' < b {
      StartsIncrease(blocks, b', b);
      if b' + 1 < b {
        StartsIncrease(blocks, b' + 1, b);
      }
    }
  }

  /** The machine has exactly the depth that the checker has for the next statement. */
  ghost predicate ExactAt(c: Setup, states: seq<BlockState>, x: Config)
    requires |c.blocks| == |states|
  {
    forall b, k :: Located(c.blocks, x.pc, b, k) ==> |x.w| == AnalysedDepth(c, states, b, k)
  }

  /** All executions that start with the declared number of items have exactly the analysed depth. */
  ghost predicate AlwaysExact(c: Setup, stmts: seq<Statement>, states: seq<BlockState>)
    requires |c.blocks| == |states|
  {
    forall path: seq<Config>, i :: Execution(c.fork, stmts, path) && path[0].pc == 0 && |path[0].w| == |c.initialItems| && 0 <= i < |path| ==>
      ExactAt(c, states, path[i])
  }

  lemma UniformExact(c: Setup, stmts: seq<Statement>, labelIndex: map<string, nat>, n: nat, path: seq<Config>, i: nat)
    requires Accepted(c, stmts, labelIndex, n) && Uniform(AfterRounds(c, n).states)
    requires Execution(c.fork, stmts, path) && i < |path| && path[0].pc == 0 && |path[0].w| == |c.initialItems|
    ensures |c.blocks| == |AfterRounds(c, n).states| && ExactAt(c, AfterRounds(c, n).states, path[i])
  {
    NoWarningsNoUnderflow(c, stmts, labelIndex, n, path, i);
    AcceptedSized(c, stmts, labelIndex, n);
    AcceptedFlat(c, stmts, labelIndex, n);
    var states, x := AfterRounds(c, n).states, path[i];
    hide AfterRounds, Accepted, AnalysedDepth, StartOf, Uniform, ValidGraph, Flatten, Execution, Underflows;
    forall b, k | Located(c.blocks, x.pc, b, k)
      ensures |x.w| == AnalysedDepth(c, states, b, k)
    {
      StatementAt(c.blocks, b, k);
      var b', k' :| AtStatement(c, states, x, b', k');
      LocatedOnce(c.blocks, x.pc, b, k, b', k');
    }
  }

  /** A predecessor that arrives with another depth can be followed by an execution. */
  lemma DeeperArrival(c: Setup, stmts: seq<Statement>, labelIndex: map<string, nat>, n: nat, b: nat, key: int) returns (path: seq<Config>)
    requires Accepted(c, stmts, labelIndex, n) && b < |c.blocks| && AfterRounds(c, n).states[b].reached
    requires key in AfterRounds(c, n).states[b].predExits
    requires |AfterRounds(c, n).states[b].predExits[key]| != |AfterRounds(c, n).states[b].entry|
    ensures Execution(c.fork, stmts, path) && path[0].pc == 0 && |path[0].w| == |c.initialItems|
    ensures var x := path[|path| - 1];
            && Located(c.blocks, x.pc, b, 0) && |c.blocks| == |AfterRounds(c, n).states|
            && |x.w| > AnalysedDepth(c, AfterRounds(c, n).states, b, 0)
  {
    AcceptedSized(c, stmts, labelIndex, n);
    AcceptedMerge(c, stmts, labelIndex, n, b);
    var k := RealPred(c, stmts, labelIndex, n, b, key);
    AcceptedBlock(c, stmts, labelIndex, n, b);
    AcceptedPlain(c, stmts, labelIndex, n, b);
    BaseMinimal(AfterRounds(c, n).states[b].predExits, key);
    hide *;
    ReachedDrained(c, stmts, labelIndex, n, k);
    var blocks :| IsPath(c.blocks, blocks) && EndsAt(blocks, k);
    PathEnd(blocks, k);
    var w := seq(|c.initialItems|, _ => 0);
    var before := PathExecutes(c, stmts, labelIndex, n, blocks, w);
    path := RunBlock(c, stmts, labelIndex, n, before, k, 0, b);
    EntryDepth(c, AfterRounds(c, n).states, b);
    IsLocated(c.blocks, b);
    ExecutionNotEmpty(c.fork, stmts, path);
  }

  lemma IsLocated(blocks: seq<Block>, b: nat)
    requires b < |blocks| && blocks[b].statements != []
    ensures Located(blocks, StartOf(blocks, b), b, 0)
  {
  }

  lemma PathEnd(path: seq<nat>, k: nat)
    requires EndsAt(path, k)
    ensures path != [] && path[|path| - 1] == k
  {
  }

  /** A predecessor with another depth is a reached block: the initial one always has the entry depth. */
  lemma RealPred(c: Setup, stmts: seq<Statement>, labelIndex: map<string, nat>, n: nat, b: nat, key: int) returns (k: nat)
    requires Accepted(c, stmts, labelIndex, n) && b < |c.blocks| && AfterRounds(c, n).states[b].reached
    requires key in AfterRounds(c, n).states[b].predExits
    requires |AfterRounds(c, n).states[b].predExits[key]| != |AfterRounds(c, n).states[b].entry|
    ensures k == key && k < |c.blocks| == |AfterRounds(c, n).states| && AfterRounds(c, n).states[k].reached
    ensures b in c.blocks[k].successors && AfterRounds(c, n).states[b].predExits[key] == AfterRounds(c, n).states[k].exit
  {
    AcceptedMerge(c, stmts, labelIndex, n, b);
    AcceptedFixedPoint(c, stmts, labelIndex, n);
    hide AfterRounds, Accepted, BaseNames, PlainState, PlainProp, PlainSetup, BlockEquations;
    assert BlockPreds(c, AfterRounds(c, n).states, b);
    assert key != INITIAL;
    k := key;
    AcceptedEdge(c, stmts, labelIndex, n, k, b);
  }

  lemma ReachedDrained(c: Setup, stmts: seq<Statement>, labelIndex: map<string, nat>, n: nat, k: nat)
    requires Accepted(c, stmts, labelIndex, n) && k < |c.blocks| == |AfterRounds(c, n).states| && AfterRounds(c, n).states[k].reached
    ensures exists path :: IsPath(c.blocks, path) && EndsAt(path, k)
  {
    OnlyReachable(c, n);
    hide AfterRounds, Accepted, IsPath, EndsAt;
    assert Reachable(c.blocks, k);
  }

  /**
   * In an accepted document, all executions have exactly the analysed depth at every statement if and
   * only if the predecessors of every reached block agree on the depth.
   */
  lemma AlwaysExactIff(c: Setup, stmts: seq<Statement>, labelIndex: map<string, nat>, n: nat)
    requires Accepted(c, stmts, labelIndex, n)
    ensures |c.blocks| == |AfterRounds(c, n).states|
    ensures AlwaysExact(c, stmts, AfterRounds(c, n).states) <==> Uniform(AfterRounds(c, n).states)
  {
    AcceptedSized(c, stmts, labelIndex, n);
    var states := AfterRounds(c, n).states;
    hide AfterRounds, Accepted, Execution, ExactAt, SameDepth;
    if Uniform(states) {
      hide Uniform;
      forall path: seq<Config>, i | Execution(c.fork, stmts, path) && path[0].pc == 0 && |path[0].w| == |c.initialItems| && 0 <= i < |path|
        ensures ExactAt(c, states, path[i])
      {
        UniformExact(c, stmts, labelIndex, n, path, i);
      }
    } else {
      var b :| 0 <= b < |states| && states[b].reached && !SameDepth(states[b]);
      var key := OddOne(states[b]);
      var path := DeeperArrival(c, stmts, labelIndex, n, b, key);
      ExecutionNotEmpty(c.fork, stmts, path);
      NotExact(c, states, path[|path| - 1], b);
    }
  }

  lemma OddOne(bs: BlockState) returns (key: int)
    requires !SameDepth(bs)
    ensures key in bs.predExits && |bs.predExits[key]| != |bs.entry|
  {
    key :| key in bs.predExits && |bs.predExits[key]| != |bs.entry|;
  }

  lemma NotExact(c: Setup, states: seq<BlockState>, x: Config, b: nat)
    requires |c.blocks| == |states| && Located(c.blocks, x.pc, b, 0) && |x.w| > AnalysedDepth(c, states, b, 0)
    ensures !ExactAt(c, states, x)
  {
  }

  // ----- a condition on the document -----

  /** Every reachable block except the first has a reachable predecessor earlier in the source. */
  ghost predicate ForwardGraph(blocks: seq<Block>) {
    forall b :: 0 < b < |blocks| && Reachable(blocks, b) ==> ForwardPred(blocks, b)
  }

  ghost predicate ForwardPred(blocks: seq<Block>, b: nat) {
    exists f: nat :: f < b && f < |blocks| && Reachable(blocks, f) && b in blocks[f].successors
  }

  /** Without warnings, documents whose blocks have earlier predecessors are exact. */
  lemma ForwardIsExact(c: Setup, stmts: seq<Statement>, labelIndex: map<string, nat>, n: nat)
    requires Accepted(c, stmts, labelIndex, n) && ForwardGraph(c.blocks)
    ensures |c.blocks| == |AfterRounds(c, n).states| && AlwaysExact(c, stmts, AfterRounds(c, n).states)
  {
    AcceptedSized(c, stmts, labelIndex, n);
    hide *;
    forall b | 0 <= b < |c.blocks| && AfterRounds(c, n).states[b].reached
      ensures SameDepth(AfterRounds(c, n).states[b])
    {
      ForwardIsSame(c, stmts, labelIndex, n, b);
    }
    AllUniform(AfterRounds(c, n).states);
    AlwaysExactIff(c, stmts, labelIndex, n);
  }

  lemma AllUniform(states: seq<BlockState>)
    requires forall b :: 0 <= b < |states| && states[b].reached ==> SameDepth(states[b])
    ensures Uniform(states)
  {
  }

  lemma AcceptedDrained(c: Setup, stmts: seq<Statement>, labelIndex: map<string, nat>, n: nat)
    requires Accepted(c, stmts, labelIndex, n)
    ensures c.Valid() && AfterRounds(c, n).worklist == []
  {
  }

  lemma ForwardIsSame(c: Setup, stmts: seq<Statement>, labelIndex: map<string, nat>, n: nat, b: nat)
    requires Accepted(c, stmts, labelIndex, n) && ForwardGraph(c.blocks)
    requires b < |c.blocks| && AfterRounds(c, n).states[b].reached
    ensures SameDepth(AfterRounds(c, n).states[b])
  {
    AcceptedDrained(c, stmts, labelIndex, n);
    AcceptedSized(c, stmts, labelIndex, n);
    AcceptedMerge(c, stmts, labelIndex, n, b);
    ReachedIffReachable(c, n, b);
    hide AfterRounds, Accepted, SameDepth, Reachable, ValidGraph, PlainState, BaseNames;
    if b > 0 {
      assert ForwardPred(c.blocks, b);
      var f: nat :| f < b && f < |c.blocks| && Reachable(c.blocks, f) && b in c.blocks[f].successors;
      ReachedIffReachable(c, n, f);
      AcceptedEdge(c, stmts, labelIndex, n, f, b);
    }
  }
}
