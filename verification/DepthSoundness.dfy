/**
 * If the stack checker has no warnings about a document, then no execution of the document
 * underflows the stack, and every execution has the analysed stack depth at every statement.
 */
module DepthSoundness {
  import opened Base
  import opened StackComment
  import opened SymbolicStack
  import opened Tracking
  import opened Statements
  import opened Blocks
  import opened Worklist
  import opened Propagation
  import opened Reporting
  import opened FixedPoint
  import opened StackDepth
  import opened PlainRuns
  import opened Machine

  // ----- the documents considered -----

  predicate PlainLabel(st: Statement) {
    LabelCommentText(st).Some? && Parsed(LabelCommentText(st).value).Ok? ==>
      !HasWildcard(Parsed(LabelCommentText(st).value).value)
  }

  ghost predicate NoWildcards(c: Setup, stmts: seq<Statement>) {
    && PlainComments(stmts)
    && (forall i :: 0 <= i < |stmts| ==> PlainLabel(stmts[i]))
    && Dotless(c.initialItems)
  }

  ghost predicate Document(c: Setup, stmts: seq<Statement>, labelIndex: map<string, nat>) {
    && c.Valid() && !c.inferred && ValidFork(c.fork)
    && BlockGraph(c.fork, stmts, c.blocks, labelIndex)
    && LiteralControlFlow(c.fork, stmts) && UniqueLabels(stmts) && NoWildcards(c, stmts)
  }

  // ----- steps in the checker's terms -----

  /** Where control goes after an opcode, as the block structure has it. */
  ghost predicate Continues(fork: Fork, stmts: seq<Statement>, pc: nat, pc': nat)
    requires pc < |stmts|
  {
    var st := stmts[pc];
    || (JumpTarget(fork, st) != "" && LabelAt(stmts, pc', JumpTarget(fork, st)))
    || (!IsTerm(fork, st) && !IsUnconditional(fork, st) && pc' == pc + 1)
  }

  lemma ControlAgrees(fork: Fork, stmts: seq<Statement>, pc: nat, pc': nat)
    requires LiteralControlFlow(fork, stmts) && pc < |stmts| && stmts[pc].Opcode?
    ensures Goes(fork, stmts, pc, pc') <==> Continues(fork, stmts, pc, pc')
  {
    hide ActionOf, LabelAt;
  }

  /** A step of the machine at an opcode, with the effect that the checker gives it. */
  lemma StepAgrees(fork: Fork, stmts: seq<Statement>, x: Config, x': Config)
    requires ValidFork(fork) && LiteralControlFlow(fork, stmts) && x.pc < |stmts| && stmts[x.pc].Opcode?
    ensures Executes(fork, stmts, x, x') <==>
            && Effect(fork, stmts[x.pc]).Some? && OpStep(Effect(fork, stmts[x.pc]).value, x.w, x'.w)
            && Continues(fork, stmts, x.pc, x'.pc)
  {
    EffectIsAction(fork, stmts[x.pc], x.w, x'.w);
    ControlAgrees(fork, stmts, x.pc, x'.pc);
    assert ActionOf(fork, stmts[x.pc]) != Unknown;
    hide ActionOf, Goes, Continues, Effect, LiteralControlFlow, OpStep, Does, Needs;
  }

  lemma NeedsAgree(fork: Fork, st: Statement)
    requires ValidFork(fork)
    ensures Inputs(fork, st) == if st.Opcode? then Needs(ActionOf(fork, st)) else 0
  {
    if st.Opcode? {
      EffectIsAction(fork, st, [], []);
    }
    hide ActionOf, Effect, OpStep, Does;
  }

  lemma UnderflowAgrees(fork: Fork, stmts: seq<Statement>, x: Config)
    requires ValidFork(fork)
    ensures Underflows(fork, stmts, x) <==> x.pc < |stmts| && |x.w| < Inputs(fork, stmts[x.pc])
  {
    hide ActionOf, Effect, Needs, Inputs;
    if x.pc < |stmts| {
      NeedsAgree(fork, stmts[x.pc]);
    }
  }

  // ----- positions -----

  function StartOf(blocks: seq<Block>, b: nat): nat
    requires b <= |blocks|
  {
    |Flatten(blocks[..b])|
  }

  lemma NextStart(blocks: seq<Block>, b: nat)
    requires b < |blocks|
    ensures StartOf(blocks, b + 1) == StartOf(blocks, b) + |blocks[b].statements|
  {
    assert blocks[..b + 1] == blocks[..b] + [blocks[b]];
    FlattenSnoc(blocks[..b], blocks[b]);
  }

  lemma {:induction false} StatementAt(blocks: seq<Block>, b: nat, k: nat)
    requires b < |blocks| && k < |blocks[b].statements|
    ensures StartOf(blocks, b) + k < |Flatten(blocks)|
    ensures Flatten(blocks)[StartOf(blocks, b) + k] == blocks[b].statements[k]
    decreases |blocks|
  {
    var init := blocks[..|blocks| - 1];
    assert init[..b] == blocks[..b];
    if b < |init| {
      StatementAt(init, b, k);
    }
  }

  lemma {:induction false} Locate(blocks: seq<Block>, n: nat, t: nat) returns (b: nat, k: nat)
    requires 0 < n <= |blocks| && t < StartOf(blocks, n)
    ensures b < n && k < |blocks[b].statements| && t == StartOf(blocks, b) + k
    decreases n
  {
    NextStart(blocks, n - 1);
    StartZero(blocks);
    if n > 1 && t < StartOf(blocks, n - 1) {
      b, k := Locate(blocks, n - 1, t);
    } else {
      b, k := n - 1, t - StartOf(blocks, n - 1);
    }
  }

  lemma StartZero(blocks: seq<Block>)
    ensures StartOf(blocks, 0) == 0
  {
    assert blocks[..0] == [];
  }

  lemma {:induction false} StartsIncrease(blocks: seq<Block>, a: nat, b: nat)
    requires ValidGraph(blocks) && a < b <= |blocks|
    ensures StartOf(blocks, a) < StartOf(blocks, b)
    decreases b
  {
    NextStart(blocks, b - 1);
    assert ValidNode(blocks, b - 1);
    if a < b - 1 {
      StartsIncrease(blocks, a, b - 1);
    }
  }

  // ----- every transfer of control is an edge -----

  /** A label statement is the first one of the block that the label index names. */
  lemma LabelBlock(c: Setup, stmts: seq<Statement>, labelIndex: map<string, nat>, t: nat, ident: string)
    requires Document(c, stmts, labelIndex) && LabelAt(stmts, t, ident) && ident != ""
    ensures ident in labelIndex && labelIndex[ident] < |c.blocks|
    ensures t == StartOf(c.blocks, labelIndex[ident])
  {
    var blocks := c.blocks;
    assert blocks[..|blocks|] == blocks;
    hide LiteralControlFlow, NoWildcards;
    var b, k := Locate(blocks, |blocks|, t);
    LabelStartsBlock(c.fork, stmts, blocks, t, ident, b, k);
    var e := labelIndex[ident];
    IndexedLabel(c.fork, stmts, blocks, e, ident);
    hide ValidBlock, Flatten;
  }

  /** A label statement begins its block and gives it its name. */
  lemma LabelStartsBlock(fork: Fork, stmts: seq<Statement>, blocks: seq<Block>, t: nat, ident: string, b: nat, k: nat)
    requires Partition(fork, stmts, blocks) && LabelAt(stmts, t, ident) && ident != ""
    requires b < |blocks| && k < |blocks[b].statements| && t == StartOf(blocks, b) + k
    ensures k == 0 && blocks[b].labelName == ident
  {
    StatementAt(blocks, b, k);
    assert ValidBlock(fork, blocks[b]);
    hide Flatten;
  }

  /** The statement at the start of a block with a name is a label with that name. */
  lemma IndexedLabel(fork: Fork, stmts: seq<Statement>, blocks: seq<Block>, e: nat, ident: string)
    requires Partition(fork, stmts, blocks) && e < |blocks| && blocks[e].labelName == ident && ident != ""
    ensures LabelAt(stmts, StartOf(blocks, e), ident)
  {
    assert ValidBlock(fork, blocks[e]);
    StatementAt(blocks, e, 0);
    hide Flatten;
  }

  /** A jump from the end of a block leads to a successor. */
  lemma JumpIsEdge(c: Setup, stmts: seq<Statement>, labelIndex: map<string, nat>, b: nat, t: nat)
    requires Document(c, stmts, labelIndex) && b < |c.blocks|
    requires c.blocks[b].jumpTarget != "" && LabelAt(stmts, t, c.blocks[b].jumpTarget)
    ensures exists d :: d in c.blocks[b].successors && d < |c.blocks| && t == StartOf(c.blocks, d)
  {
    LabelBlock(c, stmts, labelIndex, t, c.blocks[b].jumpTarget);
    assert HasEdges(c.blocks, labelIndex, b);
    hide Document, LabelAt, StartOf;
    assert labelIndex[c.blocks[b].jumpTarget] in c.blocks[b].successors;
  }

  /** Falling through the end of a block leads to a successor or to the end. */
  lemma FallIsEdge(c: Setup, stmts: seq<Statement>, labelIndex: map<string, nat>, b: nat)
    requires Document(c, stmts, labelIndex) && b < |c.blocks|
    requires FallsThrough(c.blocks[b])
    ensures var t := StartOf(c.blocks, b) + |c.blocks[b].statements|;
            t == |stmts| || exists d :: d in c.blocks[b].successors && d < |c.blocks| && t == StartOf(c.blocks, d)
  {
    NextStart(c.blocks, b);
    assert HasEdges(c.blocks, labelIndex, b);
    if b + 1 < |c.blocks| {
      assert b + 1 in c.blocks[b].successors;
    } else {
      assert c.blocks[..b + 1] == c.blocks;
    }
  }

  /** After the last statement of a block, control is at the start of a successor or at the end. */
  lemma TransferIsEdge(c: Setup, stmts: seq<Statement>, labelIndex: map<string, nat>, b: nat, x: Config, x': Config)
    requires Document(c, stmts, labelIndex) && b < |c.blocks|
    requires c.blocks[b].statements != []
    requires x.pc == StartOf(c.blocks, b) + |c.blocks[b].statements| - 1
    requires Executes(c.fork, stmts, x, x')
    ensures x'.pc == |stmts| || exists d :: d in c.blocks[b].successors && d < |c.blocks| && x'.pc == StartOf(c.blocks, d)
  {
    var last := Last(c.blocks[b]);
    StatementAt(c.blocks, b, |c.blocks[b].statements| - 1);
    assert ValidBlock(c.fork, c.blocks[b]);
    assert Flatten(c.blocks) == stmts;
    hide Document, Effect, Flatten, StartOf, LabelAt, JumpTarget;
    if JumpTarget(c.fork, last) != "" && LabelAt(stmts, x'.pc, JumpTarget(c.fork, last)) {
      JumpIsEdge(c, stmts, labelIndex, b, x'.pc);
    } else {
      FallIsEdge(c, stmts, labelIndex, b);
    }
  }

  /** Inside of a block, control goes to the next statement. */
  lemma InnerStep(c: Setup, stmts: seq<Statement>, labelIndex: map<string, nat>, b: nat, k: nat, x: Config, x': Config)
    requires Document(c, stmts, labelIndex) && b < |c.blocks|
    requires k < |c.blocks[b].statements| - 1 && x.pc == StartOf(c.blocks, b) + k
    requires Executes(c.fork, stmts, x, x')
    ensures x'.pc == x.pc + 1
  {
    DocumentBlock(c, stmts, labelIndex, b);
    hide Document, StartOf, Flatten, StartsBlock, EndsBlock;
    StatementAt(c.blocks, b, k);
    StaysInside(c.fork, c.blocks[b], k);
    hide ValidBlock;
    StraightOn(c.fork, stmts, x, x');
  }

  lemma DocumentBlock(c: Setup, stmts: seq<Statement>, labelIndex: map<string, nat>, b: nat)
    requires Document(c, stmts, labelIndex) && b < |c.blocks|
    ensures ValidBlock(c.fork, c.blocks[b]) && Flatten(c.blocks) == stmts
  {
    hide ValidBlock, Flatten, HasEdges, LabelsOf, Adjacent;
  }

  lemma StaysInside(fork: Fork, b: Block, k: nat)
    requires ValidBlock(fork, b) && k < |b.statements| - 1
    ensures !EndsBlock(fork, b.statements[k])
  {
    hide StartsBlock, EndsBlock;
  }

  /** After a statement that does not end a block comes the next one. */
  lemma StraightOn(fork: Fork, stmts: seq<Statement>, x: Config, x': Config)
    requires Executes(fork, stmts, x, x') && x.pc < |stmts| && !EndsBlock(fork, stmts[x.pc])
    ensures x'.pc == x.pc + 1
  {
    hide Effect;
  }

  // ----- what silence of the checker means for a block -----

  ghost predicate Silent(c: Setup, states: seq<BlockState>)
    requires c.Valid() && |states| == |c.blocks|
  {
    CheckWarnings(c.fork, c.blocks, states, 0, c.initialItems, c.inferred, c.preGrow) == []
  }

  lemma {:induction false} SilentBlock(c: Setup, states: seq<BlockState>, a: nat, b: nat)
    requires c.Valid() && |states| == |c.blocks| && a <= b < |c.blocks| && states[b].reached
    requires CheckWarnings(c.fork, c.blocks, states, a, c.initialItems, c.inferred, c.preGrow) == []
    ensures ValidNode(c.blocks, b)
    ensures BlockWarnings(c.fork, c.blocks[b], states[b], b, CheckStack(states[b], b, c.initialItems, c.inferred, c.preGrow)) == []
    decreases b - a
  {
    hide BlockWarnings, CheckStack;
    if a < b {
      SilentBlock(c, states, a + 1, b);
    }
  }

  /** All predecessors on record agree on the depth. */
  ghost predicate SameDepth(bs: BlockState) {
    forall k :: k in bs.predExits ==> |bs.predExits[k]| == |bs.entry|
  }

  /** At every reached block, all predecessors agree on the depth. */
  ghost predicate Uniform(states: seq<BlockState>) {
    forall b :: 0 <= b < |states| && states[b].reached ==> SameDepth(states[b])
  }

  lemma MinForward(preds: map<int, seq<string>>, b: nat, f: int)
    requires f in preds && f < b
    requires !ForwardDepthsDiffer(preds, b)
    ensures IsEntryDepth(preds, b, |preds[f]|)
  {
  }

  lemma SmallMap(preds: map<int, seq<string>>, j: int, k: int)
    requires |preds| < 2 && j in preds && k in preds
    ensures j == k
  {
    if j != k {
      assert {j, k} <= preds.Keys;
      SubsetSizeInt({j, k}, preds.Keys);
    }
  }

  lemma {:induction false} SubsetSizeInt(a: set<int>, b: set<int>)
    requires a <= b
    ensures |a| <= |b|
    decreases |a|
  {
    if a != {} {
      SomeElement(a);
      var x :| x in a;
      SubsetSizeInt(a - {x}, b - {x});
    }
  }

  /** Without merge and loop warnings, all predecessors arrive with one depth. */
  lemma QuietMerge(blk: Block, bs: BlockState, b: nat, f: int)
    requires f in bs.predExits && f < b
    requires !LabelWild(blk) && !AnyPredWild(bs.predWild)
    requires b > 0 ==> !MergeDepthWarns(blk, bs, b)
    requires b > 0 || |bs.predExits| > 1 ==> !LoopWarns(blk, bs, b)
    requires b == 0 ==> forall k :: k in bs.predExits && k < 0 ==> k == f
    requires bs.entry == BaseNames(bs.predExits)
    ensures SameDepth(bs)
  {
    var preds := bs.predExits;
    forall k | k in preds
      ensures |preds[k]| == |preds[f]|
    {
      if |preds| < 2 {
        SmallMap(preds, k, f);
      } else {
        assert !ForwardDepthsDiffer(preds, b);
        MinForward(preds, b, f);
      }
    }
    assert BaseKey(preds) in preds;
  }

  // ----- the depth of one block -----

  /** The comments of a block of the document have no wildcards, and its opcodes are known. */
  lemma BlockPlain(c: Setup, stmts: seq<Statement>, labelIndex: map<string, nat>, b: nat)
    requires Document(c, stmts, labelIndex) && b < |c.blocks|
    ensures PlainBlock(c.blocks[b]) && KnownEffects(c.fork, c.blocks[b].statements)
  {
    FirstPlain(c, stmts, labelIndex, b);
    hide Document, ValidBlock, Flatten, Effect, PlainComment, PlainBlock;
    forall k | 0 <= k < |c.blocks[b].statements|
      ensures PlainComment(c.blocks[b].statements[k])
      ensures c.blocks[b].statements[k].Opcode? ==> Effect(c.fork, c.blocks[b].statements[k]).Some?
    {
      StatementPlain(c, stmts, labelIndex, b, k);
    }
  }

  lemma StatementPlain(c: Setup, stmts: seq<Statement>, labelIndex: map<string, nat>, b: nat, k: nat)
    requires Document(c, stmts, labelIndex) && b < |c.blocks| && k < |c.blocks[b].statements|
    ensures PlainComment(c.blocks[b].statements[k])
    ensures c.blocks[b].statements[k].Opcode? ==> Effect(c.fork, c.blocks[b].statements[k]).Some?
  {
    DocumentBlock(c, stmts, labelIndex, b);
    DocumentParts(c, stmts, labelIndex);
    StatementAt(c.blocks, b, k);
    hide Document, ValidBlock, Flatten, Effect, PlainComment, LiteralControlFlow, StartOf;
    if c.blocks[b].statements[k].Opcode? {
      KnownAgrees(c.fork, stmts, StartOf(c.blocks, b) + k);
    }
  }

  lemma DocumentParts(c: Setup, stmts: seq<Statement>, labelIndex: map<string, nat>)
    requires Document(c, stmts, labelIndex)
    ensures ValidFork(c.fork) && LiteralControlFlow(c.fork, stmts) && PlainComments(stmts)
  {
  }

  lemma KnownAgrees(fork: Fork, stmts: seq<Statement>, k: nat)
    requires ValidFork(fork) && LiteralControlFlow(fork, stmts) && k < |stmts| && stmts[k].Opcode?
    ensures Effect(fork, stmts[k]).Some?
  {
    EffectIsAction(fork, stmts[k], [], []);
    hide Effect, ActionOf, OpStep, Does, Needs;
  }

  /** The label of a block has no wildcard in its comment. */
  lemma FirstPlain(c: Setup, stmts: seq<Statement>, labelIndex: map<string, nat>, b: nat)
    requires Document(c, stmts, labelIndex) && b < |c.blocks|
    ensures PlainComments(c.blocks[b].statements) ==> PlainBlock(c.blocks[b])
  {
    hide PlainComments, Parsed;
    assert ValidBlock(c.fork, c.blocks[b]);
    StatementAt(c.blocks, b, 0);
    assert PlainLabel(c.blocks[b].statements[0]);
  }

  ghost predicate KnownEffects(fork: Fork, stmts: seq<Statement>) {
    forall k :: 0 <= k < |stmts| && stmts[k].Opcode? ==> Effect(fork, stmts[k]).Some?
  }

  lemma DocumentPlain(c: Setup, stmts: seq<Statement>, labelIndex: map<string, nat>)
    requires Document(c, stmts, labelIndex)
    ensures PlainSetup(c)
  {
    hide PlainBlock, BlockGraph, LiteralControlFlow, UniqueLabels, PlainComments, KnownEffects;
    forall b | 0 <= b < |c.blocks|
      ensures PlainBlock(c.blocks[b])
    {
      BlockPlain(c, stmts, labelIndex, b);
    }
  }

  /** A walk without warnings parses all comments and never underflows. */
  lemma {:induction false} QuietWalk(fork: Fork, stmts: seq<Statement>, s: StackState)
    requires Closed(s) && PlainComments(stmts) && KnownEffects(fork, stmts)
    requires WalkWarnings(fork, stmts, s) == []
    ensures ParsedComments(stmts) && Suffices(fork, stmts, |s.items|)
    decreases |stmts|
  {
    hide Applied, Effect, CommentOf, PlainComment;
    if stmts != [] {
      var st := stmts[0];
      assert PlainComment(st) && (st.Opcode? ==> Effect(fork, st).Some?);
      assert StatementWarnings(fork, st, s) == [];
      CommentOfOther(st);
      StatementDepth(fork, st, s);
      hide StatementApplied, Closed;
      QuietWalk(fork, stmts[1..], StatementApplied(fork, st, s).0);
    }
  }

  lemma CommentOfOther(st: Statement)
    ensures !st.Opcode? ==> CommentOf(st).Ok?
  {
  }

  /** The stack with which a block is checked has the depth of the block's entry. */
  lemma CheckStackDepth(c: Setup, bs: BlockState, b: nat)
    requires PlainSetup(c) && !c.inferred && PlainState(bs)
    requires bs.predExits != map[] && bs.entry == BaseNames(bs.predExits)
    requires b == 0 ==> |bs.entry| == |c.initialItems|
    ensures var s := CheckStack(bs, b, c.initialItems, c.inferred, c.preGrow);
            Closed(s) && |s.items| == |bs.entry|
  {
    hide BaseNames, ConfirmedMask, Inited;
    if b == 0 {
      NewStackDotless(c.initialItems);
    } else {
      var mask := ConfirmedMask(bs.predExits, bs.entry);
      MaskFits(bs.entry, false);
      NewStackValid(bs.entry, Some(mask));
    }
  }

  /** The depth after a label comment without wildcard; a shorter comment truncates the stack. */
  function LabelledDepth(blk: Block, d: nat): nat {
    if LabelComment(blk).Some? then Min(d, |LabelComment(blk).value|) else d
  }

  /** A label comment without warning is not deeper than the stack, and exact if all predecessors agree. */
  lemma QuietLabel(blk: Block, bs: BlockState, s: StackState)
    requires blk.statements != [] && PlainBlock(blk) && bs.predExits != map[]
    requires Closed(s) && |s.items| == |bs.entry|
    requires LabelWarnings(blk, bs, s) == []
    ensures SameDepth(bs) ==> LabelledDepth(blk, |bs.entry|) == |bs.entry|
  {
    hide Checked, Parsed, PlainComments;
    if LabelComment(blk).Some? {
      LabelDepth(s, LabelComment(blk).value);
    }
  }

  lemma LabelClosed(blk: Block, s: StackState)
    requires PlainBlock(blk) && Closed(s)
    ensures Closed(LabelApplied(blk, s)) && |LabelApplied(blk, s).items| == LabelledDepth(blk, |s.items|)
  {
    hide Checked, LabelComment, PlainComments;
    if LabelComment(blk).Some? {
      LabelDepth(s, LabelComment(blk).value);
    }
  }

  /** The state of a checker run that ended without warnings. */
  ghost predicate Accepted(c: Setup, stmts: seq<Statement>, labelIndex: map<string, nat>, n: nat) {
    && Document(c, stmts, labelIndex)
    && AfterRounds(c, n).worklist == []
    && |AfterRounds(c, n).states| == |c.blocks|
    && Silent(c, AfterRounds(c, n).states)
  }

  /** The depth that the checker has for the stack before statement k of block b. */
  ghost function AnalysedDepth(c: Setup, states: seq<BlockState>, b: nat, k: nat): nat
    requires b < |c.blocks| == |states| && k <= |c.blocks[b].statements|
  {
    var s := CheckStack(states[b], b, c.initialItems, c.inferred, c.preGrow);
    |Walked(c.fork, c.blocks[b].statements[..k], LabelApplied(c.blocks[b], s)).items|
  }

  /** The facts about one reached block that the soundness proof rests on. */
  ghost predicate BlockSound(c: Setup, states: seq<BlockState>, b: nat)
    requires b < |c.blocks| == |states|
  {
    var stmts := c.blocks[b].statements;
    var d := LabelledDepth(c.blocks[b], |states[b].entry|);
    && Suffices(c.fork, stmts, d)
    && |states[b].exit| == DepthAfter(c.fork, stmts, d)
    && (forall k :: 0 <= k <= |stmts| ==> AnalysedDepth(c, states, b, k) == DepthAfter(c.fork, stmts[..k], d))
    && (Uniform(states) ==> SameDepth(states[b]) && d == |states[b].entry|)
  }

  lemma AcceptedFixedPoint(c: Setup, stmts: seq<Statement>, labelIndex: map<string, nat>, n: nat)
    requires Accepted(c, stmts, labelIndex, n)
    ensures IsFixedPoint(c, AfterRounds(c, n).states) && PlainProp(AfterRounds(c, n)) && PlainSetup(c)
  {
    hide AfterRounds, IsFixedPoint, PlainProp, PlainSetup, Silent;
    DrainedIsFixedPoint(c, n);
    DocumentPlain(c, stmts, labelIndex);
    ResultPlain(c, n);
  }

  /** The entry of a reached block of an accepted document. */
  lemma AcceptedMerge(c: Setup, stmts: seq<Statement>, labelIndex: map<string, nat>, n: nat, b: nat)
    requires Accepted(c, stmts, labelIndex, n) && b < |c.blocks| && AfterRounds(c, n).states[b].reached
    ensures var bs := AfterRounds(c, n).states[b];
            bs.predExits != map[] && bs.entry == BaseNames(bs.predExits) && PlainState(bs)
    ensures b == 0 ==> |AfterRounds(c, n).states[0].entry| == |c.initialItems|
    ensures b == 0 || (exists f :: f in AfterRounds(c, n).states[b].predExits && f < b) ==> SameDepth(AfterRounds(c, n).states[b])
  {
    AcceptedFixedPoint(c, stmts, labelIndex, n);
    var states := AfterRounds(c, n).states;
    var bs := states[b];
    SilentBlock(c, states, 0, b);
    hide AfterRounds, BaseNames, WalkWarnings, LabelWarnings, CheckStack, Document, MergeDepthWarns, LoopWarns, BlockExit;
    assert BlockEquations(c, states, b) && BlockPreds(c, states, b);
    assert PlainState(bs) && PlainBlock(c.blocks[b]);
    NotAnyWild(bs.predWild);
    if b == 0 {
      QuietMerge(c.blocks[b], bs, b, INITIAL);
    } else if f :| f in bs.predExits && f < b {
      QuietMerge(c.blocks[b], bs, b, f);
    }
  }

  lemma NotAnyWild(wild: map<int, bool>)
    requires forall k :: k in wild ==> !wild[k]
    ensures !AnyPredWild(wild)
  {
  }

  lemma UniformAt(states: seq<BlockState>, b: nat)
    requires b < |states| && states[b].reached
    ensures Uniform(states) ==> SameDepth(states[b])
  {
  }

  /** The walks of a reached block of an accepted document need no more than the depth after its label. */
  lemma AcceptedWalk(c: Setup, stmts: seq<Statement>, labelIndex: map<string, nat>, n: nat, b: nat)
    requires Accepted(c, stmts, labelIndex, n) && b < |c.blocks| && AfterRounds(c, n).states[b].reached
    ensures var states := AfterRounds(c, n).states;
            var bs, blk := states[b], c.blocks[b];
            var s := CheckStack(bs, b, c.initialItems, c.inferred, c.preGrow);
            && ParsedComments(blk.statements) && PlainBlock(blk)
            && Closed(LabelApplied(blk, s)) && |LabelApplied(blk, s).items| == LabelledDepth(blk, |bs.entry|)
            && Suffices(c.fork, blk.statements, LabelledDepth(blk, |bs.entry|))
            && (SameDepth(bs) ==> LabelledDepth(blk, |bs.entry|) == |bs.entry|)
  {
    hide *;
    AcceptedSized(c, stmts, labelIndex, n);
    AcceptedPlain(c, stmts, labelIndex, n, b);
    AcceptedMerge(c, stmts, labelIndex, n, b);
    AcceptedSilent(c, stmts, labelIndex, n, b);
    BlockPlain(c, stmts, labelIndex, b);
    var bs, blk := AfterRounds(c, n).states[b], c.blocks[b];
    PlainParts(blk);
    var s := CheckStack(bs, b, c.initialItems, c.inferred, c.preGrow);
    CheckStackDepth(c, bs, b);
    QuietLabel(blk, bs, s);
    LabelClosed(blk, s);
    QuietWalk(c.fork, blk.statements, LabelApplied(blk, s));
  }

  lemma PlainParts(blk: Block)
    requires PlainBlock(blk)
    ensures PlainComments(blk.statements)
  {
  }

  lemma AcceptedPlain(c: Setup, stmts: seq<Statement>, labelIndex: map<string, nat>, n: nat, b: nat)
    requires Accepted(c, stmts, labelIndex, n) && b < |c.blocks|
    ensures PlainSetup(c) && !c.inferred && Document(c, stmts, labelIndex) && c.blocks[b].statements != []
  {
    DocumentPlain(c, stmts, labelIndex);
    hide AfterRounds, PlainSetup, BlockGraph, LiteralControlFlow, UniqueLabels, NoWildcards;
    assert ValidNode(c.blocks, b);
  }

  lemma AcceptedSilent(c: Setup, stmts: seq<Statement>, labelIndex: map<string, nat>, n: nat, b: nat)
    requires Accepted(c, stmts, labelIndex, n) && b < |c.blocks| && AfterRounds(c, n).states[b].reached
    requires c.blocks[b].statements != []
    ensures var bs, blk := AfterRounds(c, n).states[b], c.blocks[b];
            var s := CheckStack(bs, b, c.initialItems, c.inferred, c.preGrow);
            LabelWarnings(blk, bs, s) == [] && WalkWarnings(c.fork, blk.statements, LabelApplied(blk, s)) == []
  {
    AcceptedSized(c, stmts, labelIndex, n);
    hide AfterRounds, CheckStack, Document, MergeDepthWarns, LoopWarns, LabelApplied, LabelWarnings, WalkWarnings;
    SilentBlock(c, AfterRounds(c, n).states, 0, b);
  }

  lemma AcceptedExit(c: Setup, stmts: seq<Statement>, labelIndex: map<string, nat>, n: nat, b: nat)
    requires Accepted(c, stmts, labelIndex, n) && b < |c.blocks| && AfterRounds(c, n).states[b].reached
    ensures var bs, all := AfterRounds(c, n).states[b], c.blocks[b].statements;
            |bs.exit| == DepthAfter(c.fork, all, LabelledDepth(c.blocks[b], |bs.entry|))
  {
    AcceptedFixedPoint(c, stmts, labelIndex, n);
    AcceptedWalk(c, stmts, labelIndex, n, b);
    AcceptedMerge(c, stmts, labelIndex, n, b);
    var states := AfterRounds(c, n).states;
    var bs, blk := states[b], c.blocks[b];
    hide AfterRounds, BaseNames, CheckStack, Document, Walked, LabelApplied, NewStack, LabelledDepth, SameDepth, Accepted, BlockPreds, PlainSetup;
    assert BlockEquations(c, states, b);
    NewStackDotless(bs.entry);
    var p := EntryStack(bs.entry, bs.entryWild, false);
    LabelClosed(blk, p);
    WalkedDepth(c.fork, blk.statements, LabelApplied(blk, p));
  }

  lemma AcceptedBlock(c: Setup, stmts: seq<Statement>, labelIndex: map<string, nat>, n: nat, b: nat)
    requires Accepted(c, stmts, labelIndex, n) && b < |c.blocks| && AfterRounds(c, n).states[b].reached
    ensures BlockSound(c, AfterRounds(c, n).states, b)
  {
    AcceptedSized(c, stmts, labelIndex, n);
    var states := AfterRounds(c, n).states;
    var bs, blk := states[b], c.blocks[b];
    hide AfterRounds, CheckStack, Accepted, Walked, LabelApplied, LabelledDepth, Uniform, SameDepth;
    AcceptedWalk(c, stmts, labelIndex, n, b);
    AcceptedExit(c, stmts, labelIndex, n, b);
    UniformAt(states, b);
    var s1 := LabelApplied(blk, CheckStack(bs, b, c.initialItems, c.inferred, c.preGrow));
    forall k | 0 <= k <= |blk.statements|
      ensures AnalysedDepth(c, states, b, k) == DepthAfter(c.fork, blk.statements[..k], LabelledDepth(blk, |bs.entry|))
    {
      PrefixDepth(c.fork, blk.statements, s1, k);
    }
  }

  lemma PrefixDepth(fork: Fork, stmts: seq<Statement>, s: StackState, k: nat)
    requires k <= |stmts|
    requires Closed(s) && PlainComments(stmts) && ParsedComments(stmts) && Suffices(fork, stmts, |s.items|)
    ensures |Walked(fork, stmts[..k], s).items| == DepthAfter(fork, stmts[..k], |s.items|)
  {
    hide Walked, PlainComment, CommentOf, Closed;
    assert stmts == stmts[..k] + stmts[k..];
    DepthSplit(fork, stmts[..k], stmts[k..], |s.items|);
    WalkedDepth(fork, stmts[..k], s);
  }

  // ----- soundness -----

  /**
   * The machine is at statement k of a reached block, and has at least the depth analysed for it;
   * exactly that depth if all predecessors of every block agree.
   */
  ghost predicate AtStatement(c: Setup, states: seq<BlockState>, x: Config, b: nat, k: nat)
    requires |c.blocks| == |states|
  {
    && b < |c.blocks| && states[b].reached
    && k < |c.blocks[b].statements| && x.pc == StartOf(c.blocks, b) + k
    && |x.w| >= AnalysedDepth(c, states, b, k)
    && (Uniform(states) ==> |x.w| == AnalysedDepth(c, states, b, k))
  }

  ghost predicate SoundAt(c: Setup, states: seq<BlockState>, stmts: seq<Statement>, x: Config)
    requires |c.blocks| == |states|
  {
    x.pc == |stmts| || exists b, k :: AtStatement(c, states, x, b, k)
  }

  /** Where the analysed depth is met, the next statement has enough items. */
  lemma NoUnderflow(c: Setup, stmts: seq<Statement>, labelIndex: map<string, nat>, n: nat, x: Config, b: nat, k: nat)
    requires Accepted(c, stmts, labelIndex, n)
    requires AtStatement(c, AfterRounds(c, n).states, x, b, k)
    ensures x.pc < |stmts| && stmts[x.pc] == c.blocks[b].statements[k]
    ensures Inputs(c.fork, stmts[x.pc]) <= |x.w|
    ensures |c.blocks| == |AfterRounds(c, n).states|
    ensures var d := DepthAfter(c.fork, c.blocks[b].statements[..k + 1],
                                LabelledDepth(c.blocks[b], |AfterRounds(c, n).states[b].entry|));
            var d' := |x.w| - Inputs(c.fork, stmts[x.pc]) + Outputs(c.fork, stmts[x.pc]);
            d <= d' && (Uniform(AfterRounds(c, n).states) ==> d == d')
  {
    hide *;
    AcceptedSized(c, stmts, labelIndex, n);
    AtFacts(c, AfterRounds(c, n).states, x, b, k);
    AcceptedBlock(c, stmts, labelIndex, n, b);
    AcceptedFlat(c, stmts, labelIndex, n);
    StatementAt(c.blocks, b, k);
    BlockSoundAt(c, AfterRounds(c, n).states, b, k);
  }

  lemma AcceptedFlat(c: Setup, stmts: seq<Statement>, labelIndex: map<string, nat>, n: nat)
    requires Accepted(c, stmts, labelIndex, n)
    ensures Flatten(c.blocks) == stmts
  {
  }

  lemma AtFacts(c: Setup, states: seq<BlockState>, x: Config, b: nat, k: nat)
    requires |c.blocks| == |states| && AtStatement(c, states, x, b, k)
    ensures b < |c.blocks| && states[b].reached && k < |c.blocks[b].statements|
    ensures x.pc == StartOf(c.blocks, b) + k && |x.w| >= AnalysedDepth(c, states, b, k)
    ensures Uniform(states) ==> |x.w| == AnalysedDepth(c, states, b, k)
  {
  }

  lemma BlockSoundAt(c: Setup, states: seq<BlockState>, b: nat, k: nat)
    requires b < |c.blocks| == |states| && BlockSound(c, states, b)
    requires k < |c.blocks[b].statements|
    ensures var all, d := c.blocks[b].statements, LabelledDepth(c.blocks[b], |states[b].entry|);
            && AnalysedDepth(c, states, b, k) == DepthAfter(c.fork, all[..k], d)
            && Inputs(c.fork, all[k]) <= DepthAfter(c.fork, all[..k], d)
            && DepthAfter(c.fork, all[..k + 1], d) == DepthAfter(c.fork, all[..k], d) - Inputs(c.fork, all[k]) + Outputs(c.fork, all[k])
  {
    SufficesAt(c.fork, c.blocks[b].statements, LabelledDepth(c.blocks[b], |states[b].entry|), k);
    hide LabelledDepth, Inputs, Outputs, AnalysedDepth, Suffices, DepthAfter;
  }

  lemma StepDepth(c: Setup, stmts: seq<Statement>, labelIndex: map<string, nat>, n: nat, x: Config, x': Config)
    requires Accepted(c, stmts, labelIndex, n)
    requires Executes(c.fork, stmts, x, x')
    ensures |x'.w| == |x.w| - Inputs(c.fork, stmts[x.pc]) + Outputs(c.fork, stmts[x.pc])
  {
    AcceptedParts(c, stmts, labelIndex, n);
    hide Effect, Accepted, ActionOf, LiteralControlFlow;
    if stmts[x.pc].Opcode? {
      StepAgrees(c.fork, stmts, x, x');
    }
  }

  lemma AcceptedParts(c: Setup, stmts: seq<Statement>, labelIndex: map<string, nat>, n: nat)
    requires Accepted(c, stmts, labelIndex, n)
    ensures ValidFork(c.fork) && LiteralControlFlow(c.fork, stmts)
  {
    hide ValidFork, LiteralControlFlow;
  }

  /** Inside of a block the machine gets to the next statement, with the depth analysed for it. */
  lemma AtNext(c: Setup, stmts: seq<Statement>, labelIndex: map<string, nat>, n: nat, x: Config, x': Config, b: nat, k: nat)
    requires Accepted(c, stmts, labelIndex, n)
    requires AtStatement(c, AfterRounds(c, n).states, x, b, k) && k + 1 < |c.blocks[b].statements|
    requires Executes(c.fork, stmts, x, x') && x'.pc == x.pc + 1
    ensures AtStatement(c, AfterRounds(c, n).states, x', b, k + 1)
  {
    var states := AfterRounds(c, n).states;
    NoUnderflow(c, stmts, labelIndex, n, x, b, k);
    StepDepth(c, stmts, labelIndex, n, x, x');
    AcceptedBlock(c, stmts, labelIndex, n, b);
    hide AfterRounds, Accepted, Uniform, Executes, AnalysedDepth, Inputs, Outputs, StartOf, LabelledDepth, SameDepth;
  }

  /** At the end of a block the machine has at least as many items as the exit on record. */
  lemma AtExit(c: Setup, stmts: seq<Statement>, labelIndex: map<string, nat>, n: nat, x: Config, x': Config, b: nat, k: nat)
    requires Accepted(c, stmts, labelIndex, n)
    requires AtStatement(c, AfterRounds(c, n).states, x, b, k) && k + 1 == |c.blocks[b].statements|
    requires Executes(c.fork, stmts, x, x')
    ensures |x'.w| >= |AfterRounds(c, n).states[b].exit|
    ensures Uniform(AfterRounds(c, n).states) ==> |x'.w| == |AfterRounds(c, n).states[b].exit|
  {
    NoUnderflow(c, stmts, labelIndex, n, x, b, k);
    StepDepth(c, stmts, labelIndex, n, x, x');
    AcceptedBlock(c, stmts, labelIndex, n, b);
    hide AfterRounds, Accepted, Uniform, Executes, AnalysedDepth, Inputs, Outputs, StartOf, LabelledDepth, SameDepth;
    var all := c.blocks[b].statements;
    assert all[..k + 1] == all;
  }

  lemma SoundStep(c: Setup, stmts: seq<Statement>, labelIndex: map<string, nat>, n: nat, x: Config, x': Config, b: nat, k: nat)
    requires Accepted(c, stmts, labelIndex, n)
    requires AtStatement(c, AfterRounds(c, n).states, x, b, k)
    requires Executes(c.fork, stmts, x, x')
    ensures SoundAt(c, AfterRounds(c, n).states, stmts, x')
  {
    AcceptedSized(c, stmts, labelIndex, n);
    AcceptedPlain(c, stmts, labelIndex, n, b);
    AtFacts(c, AfterRounds(c, n).states, x, b, k);
    hide AfterRounds, Accepted, Uniform, Document, Executes, StartOf, AtStatement;
    if k + 1 < |c.blocks[b].statements| {
      InnerStep(c, stmts, labelIndex, b, k, x, x');
      AtNext(c, stmts, labelIndex, n, x, x', b, k);
    } else {
      TransferIsEdge(c, stmts, labelIndex, b, x, x');
      if x'.pc != |stmts| {
        var d :| d in c.blocks[b].successors && d < |c.blocks| && x'.pc == StartOf(c.blocks, d);
        AtExit(c, stmts, labelIndex, n, x, x', b, k);
        EnterBlock(c, stmts, labelIndex, n, b, d, x');
      }
    }
  }

  lemma BaseMinimal(preds: map<int, seq<string>>, k: int)
    requires k in preds
    ensures |BaseNames(preds)| <= |preds[k]|
  {
    assert IsBase(preds, BaseKey(preds));
  }

  /** The entry of a block is at most as deep as the exits of its predecessors. */
  lemma EnterBlock(c: Setup, stmts: seq<Statement>, labelIndex: map<string, nat>, n: nat, b: nat, d: nat, x: Config)
    requires Accepted(c, stmts, labelIndex, n)
    requires b < |c.blocks| && AfterRounds(c, n).states[b].reached
    requires d < |c.blocks| && d in c.blocks[b].successors
    requires x.pc == StartOf(c.blocks, d) && |x.w| >= |AfterRounds(c, n).states[b].exit|
    requires Uniform(AfterRounds(c, n).states) ==> |x.w| == |AfterRounds(c, n).states[b].exit|
    ensures AtStatement(c, AfterRounds(c, n).states, x, d, 0)
  {
    var states := AfterRounds(c, n).states;
    AcceptedEdge(c, stmts, labelIndex, n, b, d);
    AcceptedMerge(c, stmts, labelIndex, n, d);
    AcceptedBlock(c, stmts, labelIndex, n, d);
    hide AfterRounds, Accepted, AnalysedDepth, StartOf, BaseNames, PlainState, Uniform;
    BaseMinimal(states[d].predExits, b);
    EntryDepth(c, states, d);
  }

  lemma AcceptedEdge(c: Setup, stmts: seq<Statement>, labelIndex: map<string, nat>, n: nat, b: nat, d: nat)
    requires Accepted(c, stmts, labelIndex, n)
    requires b < |c.blocks| && AfterRounds(c, n).states[b].reached
    requires d < |c.blocks| && d in c.blocks[b].successors
    ensures var states := AfterRounds(c, n).states;
            && states[d].reached && c.blocks[d].statements != []
            && b in states[d].predExits && states[d].predExits[b] == states[b].exit
  {
    AcceptedFixedPoint(c, stmts, labelIndex, n);
    hide AfterRounds, Silent, Document, PlainProp, BaseNames, AnyPredWild, BlockExit, BlockPreds;
    assert BlockEquations(c, AfterRounds(c, n).states, b);
    assert ValidNode(c.blocks, d);
  }

  lemma SoundStart(c: Setup, stmts: seq<Statement>, labelIndex: map<string, nat>, n: nat, x: Config)
    requires Accepted(c, stmts, labelIndex, n)
    requires x.pc == 0 && |x.w| == |c.initialItems|
    ensures AtStatement(c, AfterRounds(c, n).states, x, 0, 0)
  {
    hide *;
    AcceptedSized(c, stmts, labelIndex, n);
    AcceptedFirst(c, stmts, labelIndex, n);
    AcceptedMerge(c, stmts, labelIndex, n, 0);
    AcceptedBlock(c, stmts, labelIndex, n, 0);
    StartZero(c.blocks);
    EntryDepth(c, AfterRounds(c, n).states, 0);
    AtFirst(c, AfterRounds(c, n).states, x, 0);
  }

  lemma AcceptedFirst(c: Setup, stmts: seq<Statement>, labelIndex: map<string, nat>, n: nat)
    requires Accepted(c, stmts, labelIndex, n)
    ensures |c.blocks| > 0 && c.blocks[0].statements != [] && AfterRounds(c, n).states[0].reached
  {
    AcceptedFixedPoint(c, stmts, labelIndex, n);
    hide AfterRounds, Silent, PlainSetup, PlainProp, BlockEquations, BlockPreds;
    assert ValidNode(c.blocks, 0);
  }

  lemma AtFirst(c: Setup, states: seq<BlockState>, x: Config, b: nat)
    requires b < |c.blocks| == |states| && states[b].reached && c.blocks[b].statements != []
    requires x.pc == StartOf(c.blocks, b) && |x.w| >= AnalysedDepth(c, states, b, 0)
    requires Uniform(states) ==> |x.w| == AnalysedDepth(c, states, b, 0)
    ensures AtStatement(c, states, x, b, 0)
  {
  }

  lemma EntryDepth(c: Setup, states: seq<BlockState>, b: nat)
    requires b < |c.blocks| == |states| && BlockSound(c, states, b)
    ensures AnalysedDepth(c, states, b, 0) == LabelledDepth(c.blocks[b], |states[b].entry|) <= |states[b].entry|
    ensures Uniform(states) ==> AnalysedDepth(c, states, b, 0) == |states[b].entry|
    ensures Uniform(states) ==> SameDepth(states[b])
  {
    assert c.blocks[b].statements[..0] == [];
    hide AnalysedDepth, Uniform, SameDepth;
  }

  /**
   * Depth soundness. If the worklist empties and the second phase has no warnings, then along every
   * execution that starts with the declared number of items, no statement underflows. Control is
   * always at a statement of a reached block (or at the end), and the stack has at least the depth
   * that the checker has for that statement, and exactly that depth if the predecessors of every
   * reached block agree on the depth.
   */
  lemma {:induction false} NoWarningsNoUnderflow(c: Setup, stmts: seq<Statement>, labelIndex: map<string, nat>, n: nat,
                                                 path: seq<Config>, i: nat)
    requires Accepted(c, stmts, labelIndex, n)
    requires Execution(c.fork, stmts, path) && i < |path|
    requires path[0].pc == 0 && |path[0].w| == |c.initialItems|
    ensures SoundAt(c, AfterRounds(c, n).states, stmts, path[i])
    ensures !Underflows(c.fork, stmts, path[i])
    decreases i
  {
    hide Accepted, AtStatement, Executes, AfterRounds, Inputs, Underflows;
    AcceptedSized(c, stmts, labelIndex, n);
    var states := AfterRounds(c, n).states;
    if i == 0 {
      SoundStart(c, stmts, labelIndex, n, path[0]);
    } else {
      NoWarningsNoUnderflow(c, stmts, labelIndex, n, path, i - 1);
      assert Executes(c.fork, stmts, path[i - 1], path[i - 1 + 1]);
      ExecutesInside(c.fork, stmts, path[i - 1], path[i]);
      var b, k :| AtStatement(c, states, path[i - 1], b, k);
      SoundStep(c, stmts, labelIndex, n, path[i - 1], path[i], b, k);
    }
    AcceptedParts(c, stmts, labelIndex, n);
    UnderflowAgrees(c.fork, stmts, path[i]);
    hide ValidFork, LiteralControlFlow, Underflows;
    if path[i].pc != |stmts| {
      var b, k :| AtStatement(c, states, path[i], b, k);
      NoUnderflow(c, stmts, labelIndex, n, path[i], b, k);
    }
  }

  lemma AcceptedSized(c: Setup, stmts: seq<Statement>, labelIndex: map<string, nat>, n: nat)
    requires Accepted(c, stmts, labelIndex, n)
    ensures c.Valid() && |AfterRounds(c, n).states| == |c.blocks|
  {
  }

  lemma ExecutesInside(fork: Fork, stmts: seq<Statement>, x: Config, x': Config)
    requires Executes(fork, stmts, x, x')
    ensures x.pc < |stmts|
  {
  }
}
