/** The inputs that the stack checker infers for a document or macro without a declared input stack. */
module InferredInputs {
  import opened Base
  import opened StackComment
  import opened SymbolicStack
  import opened Statements
  import opened Blocks
  import opened Worklist
  import opened FixedPoint
  import opened StackDepth
  import opened EvmOps
  import opened PlainRuns
  import opened Termination

  // ----- what a statement sequence does to the depth -----

  /** The change of the stack depth. */
  function Net(fork: Fork, stmts: seq<Statement>): int {
    if stmts == [] then 0
    else Outputs(fork, stmts[0]) - Inputs(fork, stmts[0]) + Net(fork, stmts[1..])
  }

  /** How many items below the starting depth are consumed at the deepest point. */
  function Touch(fork: Fork, stmts: seq<Statement>): (t: nat)
    ensures t + Net(fork, stmts) >= 0
  {
    if stmts == [] then 0
    else
      var st := stmts[0];
      Max(Inputs(fork, st), Touch(fork, stmts[1..]) + Inputs(fork, st) - Outputs(fork, st))
  }

  /** The position below the start that statement k reaches down to. */
  function TouchAt(fork: Fork, stmts: seq<Statement>, k: nat): int
    requires k < |stmts|
  {
    Inputs(fork, stmts[k]) - Net(fork, stmts[..k])
  }

  lemma TouchAtRest(fork: Fork, stmts: seq<Statement>, k: nat)
    requires 0 < k < |stmts|
    ensures TouchAt(fork, stmts, k) == TouchAt(fork, stmts[1..], k - 1) + Inputs(fork, stmts[0]) - Outputs(fork, stmts[0])
  {
    assert stmts[..k][1..] == stmts[1..][..k - 1];
  }

  /** Touch is the maximum over all statements. */
  lemma {:induction false} TouchIsDeepest(fork: Fork, stmts: seq<Statement>)
    ensures forall k :: 0 <= k < |stmts| ==> TouchAt(fork, stmts, k) <= Touch(fork, stmts)
    ensures stmts != [] ==> exists k :: 0 <= k < |stmts| && TouchAt(fork, stmts, k) == Touch(fork, stmts)
    decreases |stmts|
  {
    hide Inputs, Outputs;
    if stmts != [] {
      var rest := stmts[1..];
      TouchIsDeepest(fork, rest);
      assert stmts[..0] == [];
      assert TouchAt(fork, stmts, 0) == Inputs(fork, stmts[0]);
      forall k | 0 < k < |stmts|
        ensures TouchAt(fork, stmts, k) <= Touch(fork, stmts)
      {
        TouchAtRest(fork, stmts, k);
        assert TouchAt(fork, rest, k - 1) <= Touch(fork, rest);
      }
      if Touch(fork, stmts) != Inputs(fork, stmts[0]) && rest != [] {
        var k :| 0 <= k < |rest| && TouchAt(fork, rest, k) == Touch(fork, rest);
        TouchAtRest(fork, stmts, k + 1);
        assert TouchAt(fork, stmts, k + 1) == Touch(fork, stmts);
      }
    }
  }

  // ----- walking in inferred mode -----

  /** The stack grows at the bottom by exactly the missing items. */
  lemma {:induction false} PullGrows(s: StackState, n: nat)
    requires s.inferred
    ensures var (p, ok) := Pull(s, n);
            && ok && p.inferred && p.wildcard == s.wildcard
            && |p.items| == Max(|s.items|, n)
            && |p.inferredItems| == |s.inferredItems| + Max(0, n - |s.items|)
  {
    if n > 0 {
      PullGrows(s, n - 1);
    }
  }

  ghost predicate Grown(s: StackState, r: StackState, touch: int, net: int) {
    && r.inferred && !r.wildcard
    && |r.items| == Max(|s.items|, touch) + net
    && |r.inferredItems| == |s.inferredItems| + Max(0, touch - |s.items|)
  }

  lemma AppliedGrows(s: StackState, op: StackOp, comment: Option<seq<string>>)
    requires s.inferred && !s.wildcard && NoWild(comment)
    ensures Grown(s, Applied(s, op, comment).0, |op.ins|, |op.outs| - |op.ins|)
  {
    hide Pull, PushOuts, Checked;
    PullGrows(s, |op.ins|);
    var p := Pull(s, |op.ins|).0;
    var base := p.(items := p.items[..|p.items| - |op.ins|]);
    PushOutsDepth(base, op.ins, TopItems(p, |op.ins|), op.outs);
    var (r, created) := PushOuts(base, op.ins, TopItems(p, |op.ins|), op.outs);
    CheckedDepth(r, comment, created, op.outs);
  }

  lemma StatementGrows(fork: Fork, st: Statement, s: StackState)
    requires s.inferred && !s.wildcard && PlainComment(st) && CommentOf(st).Ok?
    ensures Grown(s, StatementApplied(fork, st, s).0, Inputs(fork, st), Outputs(fork, st) - Inputs(fork, st))
  {
    hide Effect, Applied, CommentOf;
    var op := Effect(fork, st);
    if op.Some? {
      AppliedGrows(s, op.value, CommentOf(st).value);
    }
  }

  lemma {:induction false} WalkedGrows(fork: Fork, stmts: seq<Statement>, s: StackState)
    requires s.inferred && !s.wildcard && PlainComments(stmts) && ParsedComments(stmts)
    ensures Grown(s, Walked(fork, stmts, s), Touch(fork, stmts), Net(fork, stmts))
    decreases |stmts|
  {
    hide StatementApplied, PlainComment, CommentOf, Inputs, Outputs;
    if stmts != [] {
      assert PlainComment(stmts[0]) && CommentOf(stmts[0]).Ok?;
      StatementGrows(fork, stmts[0], s);
      WalkedGrows(fork, stmts[1..], StatementApplied(fork, stmts[0], s).0);
    }
  }

  // ----- the documents considered -----

  /** Inferred mode starts from an empty stack; there are no wildcards and no label comments. */
  ghost predicate InferredSetup(c: Setup) {
    && PlainSetup(c) && c.inferred && c.initialItems == []
    && forall b :: 0 <= b < |c.blocks| ==> c.blocks[b].labelComment.None? && ParsedComments(c.blocks[b].statements)
  }

  function BlockNet(fork: Fork, blocks: seq<Block>, b: nat): int
    requires b < |blocks|
  {
    Net(fork, blocks[b].statements)
  }

  function BlockTouch(fork: Fork, blocks: seq<Block>, b: nat): (t: nat)
    requires b < |blocks|
    ensures t + BlockNet(fork, blocks, b) >= 0
  {
    Touch(fork, blocks[b].statements)
  }

  /** The exit depth of a block, and how many items it misses. */
  lemma ExitGrows(c: Setup, b: nat, bs: BlockState)
    requires InferredSetup(c) && b < |c.blocks| && Dotless(bs.entry) && !bs.entryWild
    ensures var s := c.Exit(b, bs);
            && |ItemTexts(s)| == Max(|bs.entry|, BlockTouch(c.fork, c.blocks, b)) + BlockNet(c.fork, c.blocks, b)
            && |s.inferredItems| == Max(0, BlockTouch(c.fork, c.blocks, b) - |bs.entry|)
  {
    hide Walked, NewStack, ParsedComments, PlainComments, Dotless, Touch, Net;
    NewStackDotless(bs.entry);
    assert PlainBlock(c.blocks[b]);
    assert LabelComment(c.blocks[b]).None?;
    WalkedGrows(c.fork, c.blocks[b].statements, EntryStack(bs.entry, false, true));
  }

  /** The number of inputs inferred for the document. */
  ghost function InferredCount(c: Setup): (n: nat)
    requires |c.blocks| > 0
  {
    |c.First().inferredItems|
  }

  lemma FirstGrows(c: Setup)
    requires InferredSetup(c)
    ensures InferredCount(c) == Max(c.preGrow, BlockTouch(c.fork, c.blocks, 0))
    ensures |ItemTexts(c.First())| == InferredCount(c) + BlockNet(c.fork, c.blocks, 0)
  {
    hide Walked, ParsedComments, PlainComments, Touch, Net;
    assert PlainBlock(c.blocks[0]);
    assert LabelComment(c.blocks[0]).None?;
    WalkedGrows(c.fork, c.blocks[0].statements, InitialStack([], true, c.preGrow));
  }

  // ----- paths -----

  /** A path from the first block that does not return to it. */
  ghost predicate InnerPath(blocks: seq<Block>, path: seq<nat>) {
    IsPath(blocks, path) && forall i :: 0 < i < |path| ==> path[i] != 0
  }

  /** The net effect of the blocks of a walk. */
  function WalkNet(fork: Fork, blocks: seq<Block>, walk: seq<nat>): int {
    if walk == [] then 0
    else
      var last := walk[|walk| - 1];
      WalkNet(fork, blocks, walk[..|walk| - 1]) + (if last < |blocks| then BlockNet(fork, blocks, last) else 0)
  }

  /** The depth at the start of the last block of a path, relative to the start of the document. */
  function Height(fork: Fork, blocks: seq<Block>, path: seq<nat>): int {
    if path == [] then 0 else WalkNet(fork, blocks, path[..|path| - 1])
  }

  /** How far below the start of the document the last block of a path reaches. */
  function PathTouch(fork: Fork, blocks: seq<Block>, path: seq<nat>): int {
    if path == [] || path[|path| - 1] >= |blocks| then 0
    else BlockTouch(fork, blocks, path[|path| - 1]) - Height(fork, blocks, path)
  }

  /** No path that does not return to the first block reaches further than t items below the start. */
  ghost predicate TouchBounded(c: Setup, t: int) {
    forall path :: InnerPath(c.blocks, path) ==> PathTouch(c.fork, c.blocks, path) <= t
  }

  lemma LongerPath(c: Setup, path: seq<nat>, d: nat)
    requires InnerPath(c.blocks, path) && d < |c.blocks| && d != 0 && d in c.blocks[path[|path| - 1]].successors
    ensures InnerPath(c.blocks, path + [d]) && EndsAt(path + [d], d)
    ensures Height(c.fork, c.blocks, path + [d]) == Height(c.fork, c.blocks, path) + BlockNet(c.fork, c.blocks, path[|path| - 1])
  {
    var p := path + [d];
    assert p[..|p| - 1] == path;
    forall i | 0 <= i < |p| - 1
      ensures p[i + 1] in c.blocks[p[i]].successors
    {
      if i < |path| - 1 {
        assert path[i + 1] in c.blocks[path[i]].successors;
      }
    }
  }

  lemma ShorterPath(c: Setup, path: seq<nat>)
    requires InnerPath(c.blocks, path) && |path| > 1
    ensures InnerPath(c.blocks, path[..|path| - 1])
    ensures path[|path| - 2] < |c.blocks| && path[|path| - 1] in c.blocks[path[|path| - 2]].successors
    ensures Height(c.fork, c.blocks, path) == Height(c.fork, c.blocks, path[..|path| - 1]) + BlockNet(c.fork, c.blocks, path[|path| - 2])
  {
    hide BlockNet;
    PathPrefix(c.blocks, path);
    hide IsPath;
  }

  lemma PathPrefix(blocks: seq<Block>, path: seq<nat>)
    requires IsPath(blocks, path) && |path| > 1
    ensures IsPath(blocks, path[..|path| - 1])
    ensures path[|path| - 2] < |blocks| && path[|path| - 1] in blocks[path[|path| - 2]].successors
  {
    var i := |path| - 2;
    assert path[i + 1] in blocks[path[i]].successors;
    var p := path[..|path| - 1];
    forall i | 0 <= i < |p| - 1
      ensures p[i + 1] in blocks[p[i]].successors
    {
      assert path[i + 1] in blocks[path[i]].successors;
    }
  }

  // ----- one propagation -----

  /** A recorded exit is at least as deep as along some path. */
  ghost predicate BackedExit(c: Setup, b: nat, len: int)
    requires c.Valid()
  {
    exists path :: InnerPath(c.blocks, path) && EndsAt(path, b) && len >= InferredCount(c) + Height(c.fork, c.blocks, path)
  }

  ghost predicate Backed(c: Setup, ps: Prop, b: nat)
    requires c.Valid() && b < |ps.states|
  {
    forall k :: k in ps.states[b].predExits ==> BackedExit(c, b, |ps.states[b].predExits[k]|)
  }

  /** The first block keeps its first exit; its entry stays empty. */
  ghost predicate FirstKept(c: Setup, ps: Prop)
    requires c.Valid() && |c.blocks| == |ps.states|
  {
    var bs := ps.states[0];
    && bs.reached && bs.entry == []
    && INITIAL in bs.predExits && bs.predExits[INITIAL] == []
    && (forall k :: k in bs.predExits ==> k >= INITIAL)
    && |bs.exit| == InferredCount(c) + BlockNet(c.fork, c.blocks, 0)
  }

  /** Some path reaches at least n items below the inputs that are already there. */
  ghost predicate Misses(c: Setup, n: int)
    requires c.Valid()
  {
    !TouchBounded(c, InferredCount(c) + n - 1)
  }

  ghost predicate Grounded(c: Setup, ps: Prop)
    requires c.Valid()
  {
    && Sized(c, ps) && PlainProp(ps) && FirstKept(c, ps)
    && (forall b :: 0 <= b < |c.blocks| ==> MergedEntry(ps.states[b]))
    && (forall b :: 0 < b < |c.blocks| ==> Backed(c, ps, b))
    && (forall i :: 0 <= i < |ps.worklist| ==> 0 < ps.worklist[i] < |c.blocks| && ps.states[ps.worklist[i]].reached)
    && (ps.need > 0 ==> Misses(c, ps.need))
  }

  /** The exit that is being merged goes on from some path to idx. */
  ghost predicate BackedSource(c: Setup, ps: Prop, idx: nat)
    requires c.Valid() && idx < |c.blocks| == |ps.states|
  {
    && ps.states[idx].reached
    && exists path :: InnerPath(c.blocks, path) && EndsAt(path, idx)
                      && |ps.states[idx].exit| >= InferredCount(c) + Height(c.fork, c.blocks, path) + BlockNet(c.fork, c.blocks, idx)
  }

  lemma FirstEdgeQuiet(c: Setup, ps: Prop, idx: nat, src: Statement)
    requires c.Valid() && Sized(c, ps) && PlainProp(ps) && FirstKept(c, ps) && idx < |c.blocks|
    ensures var ps' := MergeEdge(ps, idx, 0, ps.states[idx].exit, false, src);
            ps'.worklist == ps.worklist && FirstKept(c, ps')
  {
    var bs := ps.states[0];
    var preds := bs.predExits[idx := ps.states[idx].exit];
    assert PlainState(bs);
    hide Dotless, BlockNet, InferredCount;
    assert IsBase(preds, INITIAL);
    BaseNamesIs(preds, INITIAL);
    assert !AnyPredWild(bs.predWild[idx := false]);
  }

  lemma TargetBacked(c: Setup, ps: Prop, ps': Prop, idx: nat, d: nat)
    requires c.Valid() && Sized(c, ps) && Sized(c, ps') && idx < |c.blocks| && 0 < d < |c.blocks|
    requires BackedSource(c, ps, idx) && Backed(c, ps, d) && d in c.blocks[idx].successors
    requires ps'.states[d].predExits == ps.states[d].predExits[idx := ps.states[idx].exit]
    ensures Backed(c, ps', d)
  {
    hide Height, InnerPath, InferredCount, BlockNet;
    var path :| InnerPath(c.blocks, path) && EndsAt(path, idx)
                && |ps.states[idx].exit| >= InferredCount(c) + Height(c.fork, c.blocks, path) + BlockNet(c.fork, c.blocks, idx);
    InnerIndices(c, path);
    LongerPath(c, path, d);
    assert BackedExit(c, d, |ps.states[idx].exit|);
  }

  lemma InnerIndices(c: Setup, path: seq<nat>)
    requires InnerPath(c.blocks, path)
    ensures path != [] && IsPath(c.blocks, path) && forall i :: 0 <= i < |path| ==> path[i] < |c.blocks|
  {
  }

  /** Merging the exit of idx into d. */
  lemma GroundedEdge(c: Setup, ps: Prop, idx: nat, d: nat, src: Statement)
    requires c.Valid() && Grounded(c, ps) && idx < |c.blocks| && d < |c.blocks|
    requires BackedSource(c, ps, idx) && d in c.blocks[idx].successors
    ensures var ps' := MergeEdge(ps, idx, d, ps.states[idx].exit, ps.states[idx].exitWild, src);
            && Grounded(c, ps') && BackedSource(c, ps', idx)
            && ps'.states[idx].exit == ps.states[idx].exit && ps'.states[idx].exitWild == ps.states[idx].exitWild
  {
    var ps' := MergeEdge(ps, idx, d, ps.states[idx].exit, ps.states[idx].exitWild, src);
    GroundedPlain(c, ps, idx, d);
    MergeEdgePlain(ps, idx, d, ps.states[idx].exit, src);
    MergedState(ps, idx, d, src);
    MergedQueue(ps, idx, d, ps.states[idx].exit, ps.states[idx].exitWild, src);
    EdgeFrame(ps, ps', idx, d);
    if d == 0 {
      FirstEdgeQuiet(c, ps, idx, src);
    } else {
      EdgeTarget(ps, ps', idx, d);
      TargetBacked(c, ps, ps', idx, d);
    }
    hide MergeEdge, Grounded, EdgeMerged, QueueMerged, PlainProp, FirstKept, Backed, MergedEntry, InferredCount, BlockNet, Height, InnerPath;
    EdgeKept(c, ps, ps', idx, d);
    assert BackedSource(c, ps', idx);
  }

  lemma GroundedPlain(c: Setup, ps: Prop, idx: nat, d: nat)
    requires c.Valid() && Grounded(c, ps) && idx < |c.blocks| && d < |c.blocks|
    ensures !ps.states[idx].exitWild && Dotless(ps.states[idx].exit) && MergedEntry(ps.states[d])
    ensures FirstKept(c, ps) && (d > 0 ==> Backed(c, ps, d)) && PlainProp(ps)
  {
    assert PlainState(ps.states[idx]);
  }

  lemma EdgeTarget(ps: Prop, ps': Prop, idx: nat, d: nat)
    requires d < |ps.states| == |ps.queued| && idx < |ps.states| && EdgeMerged(ps, ps', idx, d)
    ensures ps'.states[d].predExits == ps.states[d].predExits[idx := ps.states[idx].exit]
  {
  }

  lemma EdgeKept(c: Setup, ps: Prop, ps': Prop, idx: nat, d: nat)
    requires c.Valid() && Grounded(c, ps) && idx < |c.blocks| && d < |c.blocks|
    requires EdgeMerged(ps, ps', idx, d) && QueueMerged(ps, ps', d) && PlainProp(ps')
    requires if d == 0 then ps'.worklist == ps.worklist && FirstKept(c, ps') else Backed(c, ps', d)
    ensures Grounded(c, ps')
  {
    EdgeFrame(ps, ps', idx, d);
    EdgeEntries(c, ps, ps', idx, d);
    if d > 0 {
      KeptFirst(c, ps, ps', idx, d);
    }
    hide Backed, BaseNames, AnyPredWild, PlainProp, InferredCount, BlockNet, Misses, MergedEntry, FirstKept;
    forall b | 0 < b < |c.blocks|
      ensures Backed(c, ps', b)
    {
      if b != d {
        BackedSame(c, ps, ps', b);
      }
    }
  }

  lemma KeptFirst(c: Setup, ps: Prop, ps': Prop, idx: nat, d: nat)
    requires c.Valid() && Sized(c, ps) && FirstKept(c, ps) && idx < |c.blocks| && 0 < d < |c.blocks| && EdgeMerged(ps, ps', idx, d)
    ensures FirstKept(c, ps')
  {
  }

  lemma EdgeEntries(c: Setup, ps: Prop, ps': Prop, idx: nat, d: nat)
    requires c.Valid() && Grounded(c, ps) && idx < |c.blocks| && d < |c.blocks| && EdgeMerged(ps, ps', idx, d)
    ensures forall b :: 0 <= b < |c.blocks| ==> MergedEntry(ps'.states[b])
  {
    hide Backed, BaseNames, AnyPredWild, PlainProp, FirstKept, Misses;
    forall b | 0 <= b < |c.blocks|
      ensures MergedEntry(ps'.states[b])
    {
      assert MergedEntry(ps.states[b]);
      if b == d {
        assert idx in ps'.states[d].predExits;
      }
    }
  }

  lemma BackedSame(c: Setup, ps: Prop, ps': Prop, b: nat)
    requires c.Valid() && b < |ps.states| && b < |ps'.states| && ps'.states[b].predExits == ps.states[b].predExits && Backed(c, ps, b)
    ensures Backed(c, ps', b)
  {
  }

  lemma {:induction false} GroundedEdges(c: Setup, ps: Prop, idx: nat, succs: seq<nat>, src: Statement)
    requires c.Valid() && Grounded(c, ps) && idx < |c.blocks| && BackedSource(c, ps, idx)
    requires forall i :: 0 <= i < |succs| ==> succs[i] < |c.blocks| && succs[i] in c.blocks[idx].successors
    ensures Grounded(c, MergeEdges(ps, idx, succs, ps.states[idx].exit, ps.states[idx].exitWild, src))
    decreases |succs|
  {
    hide MergeEdge, BackedSource, ValidGraph;
    if succs != [] {
      GroundedEdge(c, ps, idx, succs[0], src);
      var ps' := MergeEdge(ps, idx, succs[0], ps.states[idx].exit, ps.states[idx].exitWild, src);
      assert Sized(c, ps');
      hide Grounded;
      GroundedEdges(c, ps', idx, succs[1..], src);
    }
  }

  lemma GroundedMerges(c: Setup, ps: Prop, idx: nat)
    requires c.Valid() && Grounded(c, ps) && idx < |c.blocks| && BackedSource(c, ps, idx)
    ensures ValidNode(c.blocks, idx)
    ensures Grounded(c, MergeEdges(ps, idx, c.blocks[idx].successors, ps.states[idx].exit, ps.states[idx].exitWild, Last(c.blocks[idx])))
  {
    assert ValidNode(c.blocks, idx);
    hide ValidGraph, MergeEdges;
    GroundedEdges(c, ps, idx, c.blocks[idx].successors, Last(c.blocks[idx]));
  }

  /** The entry of a reached block comes from one of its predecessors. */
  lemma EntryBacked(c: Setup, ps: Prop, b: nat)
    requires c.Valid() && Sized(c, ps) && 0 < b < |c.blocks|
    requires ps.states[b].reached && MergedEntry(ps.states[b]) && Backed(c, ps, b)
    ensures BackedExit(c, b, |ps.states[b].entry|)
  {
    hide BackedExit;
    assert BaseKey(ps.states[b].predExits) in ps.states[b].predExits;
  }

  /** A block whose entry is backed by a path misses no more items than the path. */
  lemma BackedMiss(c: Setup, b: nat, len: nat, need: nat)
    requires c.Valid() && b < |c.blocks| && BackedExit(c, b, len)
    requires need > 0 ==> Misses(c, need)
    ensures var n := Max(need, Max(0, BlockTouch(c.fork, c.blocks, b) - len)); n > 0 ==> Misses(c, n)
  {
    hide Height, InferredCount, BlockTouch;
    var path :| InnerPath(c.blocks, path) && EndsAt(path, b) && len >= InferredCount(c) + Height(c.fork, c.blocks, path);
    InnerIndices(c, path);
    hide InnerPath;
    assert PathTouch(c.fork, c.blocks, path) == BlockTouch(c.fork, c.blocks, b) - Height(c.fork, c.blocks, path);
    var n := Max(need, Max(0, BlockTouch(c.fork, c.blocks, b) - len));
    if n > 0 && n != need {
      assert PathTouch(c.fork, c.blocks, path) >= InferredCount(c) + n;
    }
  }

  /** The block taken off the worklist: its exit goes on from some path. */
  lemma NextBacked(c: Setup, ps: Prop)
    requires InferredSetup(c) && Grounded(c, ps) && ps.worklist != []
    ensures 0 < Next(ps) < |c.blocks| && ps.states[Next(ps)].reached
    ensures var idx := Next(ps); var s := c.Exit(idx, ps.states[idx]);
            && !s.wildcard && Dotless(ItemTexts(s))
            && BackedExit(c, idx, |ItemTexts(s)| - BlockNet(c.fork, c.blocks, idx))
            && var n := Max(ps.need, |s.inferredItems|); n > 0 ==> Misses(c, n)
  {
    var idx := Next(ps);
    assert ps.worklist[|ps.worklist| - 1] == idx;
    assert PlainState(ps.states[idx]);
    ExitGrows(c, idx, ps.states[idx]);
    BlockExitPlain(c, idx, ps.states[idx]);
    EntryBacked(c, ps, idx);
    hide BlockExit, ItemTexts, Dotless, Touch, Net, BaseNames, AnyPredWild, InferredSetup, InferredCount, ValidGraph, PlainProp, Backed;
    var len, s := |ps.states[idx].entry|, c.Exit(idx, ps.states[idx]);
    BackedMiss(c, idx, len, ps.need);
    BackedMore(c, idx, len, |ItemTexts(s)| - BlockNet(c.fork, c.blocks, idx));
  }

  lemma BackedMore(c: Setup, b: nat, len: int, more: int)
    requires c.Valid() && BackedExit(c, b, len) && len <= more
    ensures BackedExit(c, b, more)
  {
    hide Height, InferredCount, InnerPath;
  }

  lemma WalkedGrounded(c: Setup, ps: Prop)
    requires InferredSetup(c) && Grounded(c, ps) && ps.worklist != []
    ensures Next(ps) < |c.blocks|
    ensures var w := WalkedProp(c, ps); Grounded(c, w) && BackedSource(c, w, Next(ps))
  {
    NextBacked(c, ps);
    var idx := Next(ps);
    var w := WalkedProp(c, ps);
    var n := Max(ps.need, |c.Exit(idx, ps.states[idx]).inferredItems|);
    assert w.need == n && |w.states[idx].exit| == |ItemTexts(c.Exit(idx, ps.states[idx]))|;
    hide BlockExit, ItemTexts, BackedExit, Misses, BlockNet, InferredSetup, InferredCount, ValidGraph;
    BackedGoesOn(c, w, idx);
    WalkedKept(c, ps, w, idx);
  }

  lemma WalkedKept(c: Setup, ps: Prop, w: Prop, idx: nat)
    requires c.Valid() && Grounded(c, ps) && Sized(c, w) && 0 < idx < |c.blocks|
    requires forall b :: 0 <= b < |c.blocks| && b != idx ==> w.states[b] == ps.states[b]
    requires w.states[idx] == ps.states[idx].(exit := w.states[idx].exit, exitWild := w.states[idx].exitWild)
    requires Dotless(w.states[idx].exit) && !w.states[idx].exitWild
    requires |w.worklist| < |ps.worklist| && w.worklist == ps.worklist[..|w.worklist|]
    requires w.need > 0 ==> Misses(c, w.need)
    ensures Grounded(c, w)
  {
    hide Misses, BlockNet, InferredCount, ValidGraph, Backed, Dotless, BaseNames, AnyPredWild;
    forall b | 0 <= b < |w.states|
      ensures PlainState(w.states[b])
    {
      assert PlainState(ps.states[b]);
    }
    hide PlainState, PlainProp;
    forall b | 0 < b < |c.blocks|
      ensures Backed(c, w, b)
    {
      BackedSame(c, ps, w, b);
    }
    forall b | 0 <= b < |c.blocks|
      ensures MergedEntry(w.states[b])
    {
      assert MergedEntry(ps.states[b]);
    }
  }

  lemma BackedGoesOn(c: Setup, w: Prop, b: nat)
    requires c.Valid() && b < |c.blocks| == |w.states| && w.states[b].reached
    requires BackedExit(c, b, |w.states[b].exit| - BlockNet(c.fork, c.blocks, b))
    ensures BackedSource(c, w, b)
  {
    hide Height, InferredCount, InnerPath, BlockNet;
    var path :| InnerPath(c.blocks, path) && EndsAt(path, b)
                && |w.states[b].exit| - BlockNet(c.fork, c.blocks, b) >= InferredCount(c) + Height(c.fork, c.blocks, path);
    assert |w.states[b].exit| >= InferredCount(c) + Height(c.fork, c.blocks, path) + BlockNet(c.fork, c.blocks, b);
  }

  lemma GroundedStep(c: Setup, ps: Prop)
    requires InferredSetup(c) && Grounded(c, ps) && ps.worklist != []
    ensures ValidProp(c.blocks, ps)
    ensures Grounded(c, Step(c.fork, c.blocks, c.inferred, ps))
  {
    GroundedValid(c, ps);
    hide Grounded, InferredSetup, BackedSource, ValidGraph, MergeEdges;
    WalkedGrounded(c, ps);
    StepIsMerges(c, ps);
    GroundedMerges(c, WalkedProp(c, ps), Next(ps));
  }

  lemma GroundedStart(c: Setup)
    requires InferredSetup(c)
    ensures Grounded(c, Start(c.fork, c.blocks, c.initialItems, c.inferred, c.preGrow))
  {
    FirstGrounded(c);
    StartIsMerges(c);
    hide *;
    GroundedMerges(c, FirstProp(c), 0);
  }

  /** Before the exit of the first block is merged. */
  lemma FirstGrounded(c: Setup)
    requires InferredSetup(c)
    ensures c.Valid() && Grounded(c, FirstProp(c)) && BackedSource(c, FirstProp(c), 0)
  {
    FirstGrows(c);
    FirstExitPlain(c);
    hide FirstExit, ItemTexts, Touch, Net, ParsedComments, ValidGraph;
    var ps := FirstProp(c);
    var first := ps.states[0];
    EmptyDotless();
    assert PlainState(first) && PlainState(UNREACHED);
    assert IsBase(first.predExits, INITIAL);
    BaseNamesIs(first.predExits, INITIAL);
    assert !AnyPredWild(first.predWild);
    hide BaseNames, AnyPredWild;
    var path: seq<nat> := [0];
    assert InnerPath(c.blocks, path) && EndsAt(path, 0) && Height(c.fork, c.blocks, path) == 0;
    hide InnerPath, Height, Dotless, BlockNet, InferredCount;
  }

  lemma {:induction false} GroundedRun(c: Setup, ps: Prop, n: nat)
    requires InferredSetup(c) && c.Valid() && ValidProp(c.blocks, ps) && Grounded(c, ps)
    ensures Grounded(c, Run(c.fork, c.blocks, c.inferred, ps, n))
    decreases n
  {
    hide Grounded, InferredSetup, ValidGraph, Step, ValidProp;
    if n > 0 && ps.worklist != [] {
      GroundedStep(c, ps);
      StepValid(c.fork, c.blocks, c.inferred, ps);
      GroundedRun(c, Step(c.fork, c.blocks, c.inferred, ps), n - 1);
    }
  }

  lemma GroundedValid(c: Setup, ps: Prop)
    requires c.Valid() && Grounded(c, ps)
    ensures ValidProp(c.blocks, ps)
  {
  }

  lemma GroundedAfter(c: Setup, n: nat)
    requires InferredSetup(c)
    ensures Grounded(c, AfterRounds(c, n))
  {
    GroundedStart(c);
    StartValid(c.fork, c.blocks, c.initialItems, c.inferred, c.preGrow);
    var ps := Start(c.fork, c.blocks, c.initialItems, c.inferred, c.preGrow);
    hide Grounded, InferredSetup, ValidGraph, Start, Run, ValidProp;
    GroundedRun(c, ps, n);
  }

  // ----- when a propagation needs nothing more -----

  /** The worklist is empty after n rounds, and no block needs more items. */
  ghost predicate SettledAfter(c: Setup, n: nat)
    requires c.Valid()
  {
    AfterRounds(c, n).worklist == [] && AfterRounds(c, n).need == 0
  }

  lemma SettledBlock(c: Setup, n: nat, b: nat)
    requires InferredSetup(c) && SettledAfter(c, n) && b < |c.blocks|
    ensures |AfterRounds(c, n).states| == |c.blocks|
    ensures var bs := AfterRounds(c, n).states[b];
            && PlainState(bs)
            && (bs.reached ==> bs.predExits != map[] && bs.entry == BaseNames(bs.predExits) && Complete(c, AfterRounds(c, n), b))
  {
    DrainedComplete(c, n, b);
    ResultPlain(c, n);
    hide AfterRounds, Complete, InferredSetup, BaseNames, AnyPredWild, PlainState;
  }

  /** Nothing is missing in a reached block other than the first one. */
  lemma SettledTouch(c: Setup, n: nat, b: nat)
    requires InferredSetup(c) && SettledAfter(c, n) && 0 < b < |c.blocks|
    requires |AfterRounds(c, n).states| == |c.blocks| && AfterRounds(c, n).states[b].reached
    ensures var bs := AfterRounds(c, n).states[b];
            && BlockTouch(c.fork, c.blocks, b) <= |bs.entry|
            && |bs.exit| == |bs.entry| + BlockNet(c.fork, c.blocks, b)
  {
    SettledBlock(c, n, b);
    var bs := AfterRounds(c, n).states[b];
    hide AfterRounds, BlockExit, FirstExit, ItemTexts, Dotless, InferredSetup, BaseNames, BlockTouch, BlockNet, ValidGraph;
    ExitGrows(c, b, bs);
  }

  lemma FirstSettled(c: Setup, n: nat)
    requires InferredSetup(c)
    ensures |AfterRounds(c, n).states| == |c.blocks|
    ensures var bs := AfterRounds(c, n).states[0];
            bs.reached && bs.entry == [] && |bs.exit| == InferredCount(c) + BlockNet(c.fork, c.blocks, 0)
  {
    GroundedAfter(c, n);
    hide AfterRounds, InferredSetup, InferredCount, BlockNet, Misses, Backed, PlainProp;
  }

  /** A successor's entry is no deeper than the exit of the block. */
  lemma SettledEdge(c: Setup, n: nat, a: nat, b: nat)
    requires InferredSetup(c) && SettledAfter(c, n) && a < |c.blocks| && b < |c.blocks|
    requires b in c.blocks[a].successors
    requires |AfterRounds(c, n).states| == |c.blocks| && AfterRounds(c, n).states[a].reached
    ensures var states := AfterRounds(c, n).states; states[b].reached && |states[b].entry| <= |states[a].exit|
  {
    SettledBlock(c, n, a);
    SettledBlock(c, n, b);
    var ps := AfterRounds(c, n);
    hide AfterRounds, InferredSetup, PlainState, ValidGraph, Complete;
    CompleteRecorded(c, ps, a, b);
    var preds := ps.states[b].predExits;
    assert IsBase(preds, BaseKey(preds));
  }

  /** Every block on a path is reached, no deeper than the path allows, and the path finds its items. */
  lemma {:induction false} SettledPath(c: Setup, n: nat, path: seq<nat>)
    requires InferredSetup(c) && SettledAfter(c, n) && InnerPath(c.blocks, path)
    ensures PathTouch(c.fork, c.blocks, path) <= InferredCount(c)
    ensures |AfterRounds(c, n).states| == |c.blocks| && path[|path| - 1] < |c.blocks|
    ensures var bs := AfterRounds(c, n).states[path[|path| - 1]];
            && bs.reached
            && (|path| > 1 ==> |bs.entry| <= InferredCount(c) + Height(c.fork, c.blocks, path))
    decreases |path|
  {
    FirstSettled(c, n);
    InnerIndices(c, path);
    var b := path[|path| - 1];
    if |path| == 1 {
      FirstGrows(c);
    } else {
      hide AfterRounds, InferredSetup, InferredCount, IsPath, BlockTouch, BlockNet;
      ShorterPath(c, path);
      var p := path[..|path| - 1];
      SettledPath(c, n, p);
      var a := p[|p| - 1];
      SettledEdge(c, n, a, b);
      SettledTouch(c, n, b);
      if |p| > 1 {
        SettledTouch(c, n, a);
      }
    }
  }

  // ----- the retry loop -----

  function WithGrowth(c: Setup, g: nat): Setup {
    c.(preGrow := g)
  }

  ghost predicate Drains(c: Setup)
    requires c.Valid()
  {
    exists n :: AfterRounds(c, n).worklist == []
  }

  /** A propagation with growth g drains, and needs more items. */
  ghost predicate Retry(c: Setup, g: nat, g': nat)
    requires c.Valid()
  {
    exists n :: && AfterRounds(WithGrowth(c, g), n).worklist == []
                && AfterRounds(WithGrowth(c, g), n).need > 0
                && g' == g + AfterRounds(WithGrowth(c, g), n).need
  }

  /** The growths of successive propagations. */
  ghost predicate Retries(c: Setup, gs: seq<nat>)
    requires c.Valid()
  {
    && gs != [] && gs[0] == 0
    && forall i :: 0 <= i < |gs| - 1 ==> Retry(c, gs[i], gs[i + 1])
  }

  ghost predicate Settles(c: Setup, g: nat)
    requires c.Valid()
  {
    exists n :: SettledAfter(WithGrowth(c, g), n)
  }

  function LastOf(gs: seq<nat>): nat
    requires gs != []
  {
    gs[|gs| - 1]
  }

  /** The retry loop ends with growth g. */
  ghost predicate EndsWith(c: Setup, gs: seq<nat>)
    requires c.Valid()
  {
    Retries(c, gs) && Settles(c, LastOf(gs))
  }

  lemma WithGrowthSetup(c: Setup, g: nat)
    requires InferredSetup(c)
    ensures InferredSetup(WithGrowth(c, g))
  {
    hide ParsedComments, PlainBlock, ValidGraph, Dotless;
  }

  /** The growth never exceeds what some path touches. */
  lemma RetryTouched(c: Setup, g: nat, g': nat)
    requires InferredSetup(c) && Retry(c, g, g')
    ensures g' > g && !TouchBounded(c, g' - 1)
  {
    WithGrowthSetup(c, g);
    var r := WithGrowth(c, g);
    var n :| AfterRounds(r, n).worklist == [] && AfterRounds(r, n).need > 0 && g' == g + AfterRounds(r, n).need;
    GroundedAfter(r, n);
    FirstGrows(r);
    hide AfterRounds, InferredSetup, InferredCount, IsPath, BlockTouch, BlockNet;
    assert Misses(r, AfterRounds(r, n).need);
  }

  lemma RetriesTouched(c: Setup, gs: seq<nat>)
    requires c.Valid() && InferredSetup(c) && Retries(c, gs)
    ensures LastOf(gs) > 0 ==> !TouchBounded(c, LastOf(gs) - 1)
  {
    hide InferredSetup, Retry, TouchBounded;
    if |gs| > 1 {
      var i := |gs| - 2;
      assert Retry(c, gs[i], gs[i + 1]);
      RetryTouched(c, gs[i], gs[i + 1]);
    }
  }

  /** t is the deepest position below the start that any path touches that does not return to the first block. */
  ghost predicate DeepestTouch(c: Setup, t: nat) {
    TouchBounded(c, t) && (t > 0 ==> !TouchBounded(c, t - 1))
  }

  /**
   * When the retry loop ends, the number of inferred inputs is exactly the deepest position below
   * entry that any path touches. Paths that return to the first block are not followed, since the
   * first block is only walked once.
   */
  lemma InferredExact(c: Setup, gs: seq<nat>)
    requires c.Valid() && InferredSetup(c) && EndsWith(c, gs)
    ensures DeepestTouch(c, InferredCount(WithGrowth(c, LastOf(gs))))
  {
    var r := WithGrowth(c, LastOf(gs));
    WithGrowthSetup(c, LastOf(gs));
    RetriesTouched(c, gs);
    FirstGrows(r);
    FirstPath(c);
    assert Settles(c, LastOf(gs)) && |r.blocks| > 0;
    var n :| SettledAfter(r, n);
    var t := InferredCount(r);
    hide AfterRounds, InferredSetup, InferredCount, IsPath, BlockTouch, BlockNet, Retries, SettledAfter, InnerPath, PathTouch, ValidGraph;
    forall path | InnerPath(c.blocks, path)
      ensures PathTouch(c.fork, c.blocks, path) <= t
    {
      SettledPath(r, n, path);
    }
    if t > 0 && t != LastOf(gs) {
      assert PathTouch(c.fork, c.blocks, [0]) == t;
    }
  }

  lemma FirstPath(c: Setup)
    requires |c.blocks| > 0
    ensures IsPath(c.blocks, [0]) && InnerPath(c.blocks, [0])
    ensures PathTouch(c.fork, c.blocks, [0]) == BlockTouch(c.fork, c.blocks, 0)
  {
  }

  // ----- when the retry loop ends -----

  /** Every propagation drains, whatever the growth. */
  ghost predicate AllDrain(c: Setup)
    requires c.Valid()
  {
    forall g :: Drains(WithGrowth(c, g))
  }

  lemma OneRetry(c: Setup, g: nat) returns (g': nat)
    requires c.Valid() && InferredSetup(c) && Drains(WithGrowth(c, g))
    ensures g' == g ==> Settles(c, g)
    ensures g' != g ==> Retry(c, g, g')
  {
    hide AfterRounds, InferredSetup, ValidGraph;
    var n :| AfterRounds(WithGrowth(c, g), n).worklist == [];
    g' := g + AfterRounds(WithGrowth(c, g), n).need;
    if g' == g {
      assert SettledAfter(WithGrowth(c, g), n);
    }
  }

  lemma RetriesSnoc(c: Setup, gs: seq<nat>, g: nat)
    requires c.Valid() && Retries(c, gs) && Retry(c, LastOf(gs), g)
    ensures Retries(c, gs + [g])
  {
    hide Retry, ValidGraph;
    var r := gs + [g];
    forall i | 0 <= i < |r| - 1
      ensures Retry(c, r[i], r[i + 1])
    {
      if i < |gs| - 1 {
        assert Retry(c, gs[i], gs[i + 1]);
      }
    }
  }

  lemma {:induction false} RetryOn(c: Setup, t: nat, gs: seq<nat>) returns (all: seq<nat>)
    requires c.Valid() && InferredSetup(c) && AllDrain(c) && TouchBounded(c, t)
    requires Retries(c, gs) && LastOf(gs) <= t
    ensures EndsWith(c, all)
    decreases t - LastOf(gs)
  {
    hide InferredSetup, Retry, Settles, InnerPath, PathTouch, Drains, ValidGraph;
    assert Drains(WithGrowth(c, LastOf(gs)));
    var g := OneRetry(c, LastOf(gs));
    if g == LastOf(gs) {
      all := gs;
    } else {
      RetryTouched(c, LastOf(gs), g);
      RetriesSnoc(c, gs, g);
      hide Retries;
      all := RetryOn(c, t, gs + [g]);
    }
  }

  /**
   * If every propagation drains, the retry loop ends if and only if there is a bound on how deep the
   * paths reach.
   */
  lemma RetryEndsIff(c: Setup)
    requires c.Valid() && InferredSetup(c) && AllDrain(c)
    ensures (exists gs :: EndsWith(c, gs)) <==> (exists t: nat :: TouchBounded(c, t))
  {
    hide InferredSetup, AllDrain, Retry, Settles, InferredCount, InnerPath, PathTouch, Drains, ValidGraph;
    if gs :| EndsWith(c, gs) {
      InferredExact(c, gs);
      assert TouchBounded(c, InferredCount(WithGrowth(c, LastOf(gs))));
    }
    if t: nat :| TouchBounded(c, t) {
      assert Retries(c, [0]);
      var gs := RetryOn(c, t, [0]);
    }
  }

  // ----- acyclic documents -----

  function MostTouch(fork: Fork, blocks: seq<Block>): (m: nat)
    ensures forall b :: 0 <= b < |blocks| ==> BlockTouch(fork, blocks, b) <= m
  {
    if blocks == [] then 0
    else
      var last := |blocks| - 1;
      var m := MostTouch(fork, blocks[..last]);
      assert forall b :: 0 <= b < last ==> BlockTouch(fork, blocks, b) == BlockTouch(fork, blocks[..last], b);
      Max(m, BlockTouch(fork, blocks, last))
  }

  /** Ranks increase along paths, so paths are short, and cannot go far down. */
  lemma {:induction false} HeightBound(c: Setup, rank: seq<nat>, m: nat, path: seq<nat>)
    requires |rank| == |c.blocks| && Topological(c.blocks, rank) && InnerPath(c.blocks, path)
    requires forall b :: 0 <= b < |c.blocks| ==> BlockTouch(c.fork, c.blocks, b) <= m
    ensures path != [] && path[|path| - 1] < |rank| && |path| - 1 <= rank[path[|path| - 1]]
    ensures Height(c.fork, c.blocks, path) >= -(m * (|path| - 1))
    decreases |path|
  {
    hide IsPath, Topological, BlockTouch, BlockNet;
    InnerIndices(c, path);
    hide InnerPath;
    if |path| > 1 {
      ShorterPath(c, path);
      HeightBound(c, rank, m, path[..|path| - 1]);
      hide Height;
      var a := path[|path| - 2];
      EdgeRank(c.blocks, rank, a, path[|path| - 1]);
      assert BlockTouch(c.fork, c.blocks, a) + BlockNet(c.fork, c.blocks, a) >= 0;
      OneMore(|path| - 1, m);
    }
  }

  lemma EdgeRank(blocks: seq<Block>, rank: seq<nat>, a: nat, b: nat)
    requires |rank| == |blocks| && Topological(blocks, rank) && a < |blocks| && b in blocks[a].successors
    ensures b < |rank| && rank[a] < rank[b]
  {
    var j :| 0 <= j < |blocks[a].successors| && blocks[a].successors[j] == b;
    assert rank[a] < rank[blocks[a].successors[j]];
  }

  lemma AcyclicBounded(c: Setup, rank: seq<nat>, top: nat)
    requires Ranking(c.blocks, rank, top) && Topological(c.blocks, rank)
    ensures exists t: nat :: TouchBounded(c, t)
  {
    var m := MostTouch(c.fork, c.blocks);
    hide BlockTouch, MostTouch, Height, InnerPath;
    forall path | InnerPath(c.blocks, path)
      ensures PathTouch(c.fork, c.blocks, path) <= m + m * top
    {
      HeightBound(c, rank, m, path);
      TimesMonotone(m, |path| - 1, top);
    }
    assert TouchBounded(c, m + m * top);
  }

  lemma TimesMonotone(m: nat, a: int, b: int)
    requires 0 <= a <= b
    ensures m * a <= m * b && m * b >= 0
  {
  }

  lemma {:induction false} AcyclicInner(blocks: seq<Block>, rank: seq<nat>, path: seq<nat>)
    requires |rank| == |blocks| && Topological(blocks, rank) && IsPath(blocks, path)
    ensures InnerPath(blocks, path)
  {
    forall i | 0 < i < |path|
      ensures path[i] != 0
    {
      AcyclicRanks(blocks, rank, path, i);
    }
  }

  lemma {:induction false} AcyclicRanks(blocks: seq<Block>, rank: seq<nat>, path: seq<nat>, i: nat)
    requires |rank| == |blocks| && Topological(blocks, rank) && IsPath(blocks, path) && 0 < i < |path|
    ensures path[i] < |rank| && path[0] == 0 && rank[path[0]] < rank[path[i]]
    decreases i
  {
    if i > 1 {
      AcyclicRanks(blocks, rank, path, i - 1);
    }
    var p := i - 1;
    assert path[p + 1] in blocks[path[p]].successors;
    EdgeRank(blocks, rank, path[p], path[i]);
  }

  /**
   * For a document without cycles, label comments and wildcards, the retry loop ends, and the number
   * of inferred inputs equals the deepest position below entry that any path touches.
   */
  lemma AcyclicInputs(c: Setup, rank: seq<nat>, top: nat) returns (gs: seq<nat>)
    requires c.Valid() && InferredSetup(c) && Ranking(c.blocks, rank, top) && Topological(c.blocks, rank)
    ensures EndsWith(c, gs)
    ensures var t := InferredCount(WithGrowth(c, LastOf(gs)));
            && (forall path :: IsPath(c.blocks, path) ==> PathTouch(c.fork, c.blocks, path) <= t)
            && (t > 0 ==> exists path :: IsPath(c.blocks, path) && PathTouch(c.fork, c.blocks, path) == t)
  {
    forall g
      ensures Drains(WithGrowth(c, g))
    {
      WithGrowthSetup(c, g);
      hide InferredSetup, ValidGraph, AfterRounds, Ranking, Topological;
      AcyclicDrains(WithGrowth(c, g), rank, top);
    }
    AcyclicBounded(c, rank, top);
    hide InferredSetup, EndsWith, InferredCount, PathTouch, Drains, ValidGraph, Ranking, Topological, TouchBounded;
    RetryEndsIff(c);
    gs :| EndsWith(c, gs);
    InferredExact(c, gs);
    var t := InferredCount(WithGrowth(c, LastOf(gs)));
    forall path | IsPath(c.blocks, path)
      ensures PathTouch(c.fork, c.blocks, path) <= t
    {
      AcyclicInner(c.blocks, rank, path);
    }
  }

  // ----- loops -----

  /** A cycle of reached blocks that avoids the first block. */
  ghost predicate InnerCycle(c: Setup, states: seq<BlockState>, cycle: seq<nat>)
    requires |states| == |c.blocks|
  {
    && cycle != []
    && (forall i :: 0 <= i < |cycle| ==> 0 < cycle[i] < |c.blocks|)
    && (forall i :: 0 <= i < |cycle| - 1 ==> cycle[i + 1] in c.blocks[cycle[i]].successors)
    && cycle[0] in c.blocks[cycle[|cycle| - 1]].successors
    && states[cycle[0]].reached
  }

  lemma {:induction false} CycleDepth(c: Setup, n: nat, cycle: seq<nat>, i: nat)
    requires InferredSetup(c) && SettledAfter(c, n)
    requires |AfterRounds(c, n).states| == |c.blocks| && InnerCycle(c, AfterRounds(c, n).states, cycle)
    requires i < |cycle|
    ensures cycle[i] < |c.blocks| && cycle[0] < |c.blocks|
    ensures var states := AfterRounds(c, n).states;
            && states[cycle[i]].reached
            && |states[cycle[i]].entry| <= |states[cycle[0]].entry| + WalkNet(c.fork, c.blocks, cycle[..i])
    decreases i
  {
    if i > 0 {
      CycleDepth(c, n, cycle, i - 1);
      hide AfterRounds, InferredSetup, SettledAfter, BlockTouch, BlockNet;
      var p := i - 1;
      assert cycle[p + 1] in c.blocks[cycle[p]].successors;
      SettledTouch(c, n, cycle[p]);
      SettledEdge(c, n, cycle[p], cycle[i]);
      assert cycle[..i][..p] == cycle[..p];
    }
  }

  /** While a reached loop outside of the first block pops more than it pushes, every propagation needs more items. */
  lemma NegativeLoopNeeds(c: Setup, n: nat, cycle: seq<nat>)
    requires InferredSetup(c) && AfterRounds(c, n).worklist == []
    requires |AfterRounds(c, n).states| == |c.blocks| && InnerCycle(c, AfterRounds(c, n).states, cycle)
    requires WalkNet(c.fork, c.blocks, cycle) < 0
    ensures AfterRounds(c, n).need >= 1
  {
    if AfterRounds(c, n).need == 0 {
      assert SettledAfter(c, n);
      var k := |cycle| - 1;
      CycleDepth(c, n, cycle, k);
      hide AfterRounds, InferredSetup, SettledAfter, BlockTouch, BlockNet;
      SettledTouch(c, n, cycle[k]);
      SettledEdge(c, n, cycle[k], cycle[0]);
    }
  }

  /** A loop through the first block is different: a document of a single block never needs more items. */
  lemma SingleBlockSettles(c: Setup)
    requires InferredSetup(c) && |c.blocks| == 1
    ensures SettledAfter(c, 0)
  {
    GroundedAfter(c, 0);
    var ps := AfterRounds(c, 0);
    StartNeedsNothing(c);
    hide AfterRounds, InferredSetup, FirstKept, Misses, Backed, PlainProp;
    if ps.worklist != [] {
      NotBelowOne(ps.worklist);
    }
  }

  lemma NotBelowOne(worklist: seq<nat>)
    requires worklist != []
    ensures exists i :: 0 <= i < |worklist| && !(0 < worklist[i] < 1)
  {
    assert !(0 < worklist[0] < 1);
  }

  lemma {:induction false} MergeEdgesNeed(ps: Prop, idx: nat, succs: seq<nat>, exit: seq<string>, wild: bool, src: Statement)
    requires |ps.states| == |ps.queued|
    requires forall i :: 0 <= i < |succs| ==> succs[i] < |ps.states|
    ensures MergeEdges(ps, idx, succs, exit, wild, src).need == ps.need
    decreases |succs|
  {
    hide Merged;
    if succs != [] {
      MergeEdgesNeed(MergeEdge(ps, idx, succs[0], exit, wild, src), idx, succs[1..], exit, wild, src);
    }
  }

  lemma StartNeedsNothing(c: Setup)
    requires c.Valid()
    ensures AfterRounds(c, 0).need == 0
  {
    StartIsMerges(c);
    StartValid(c.fork, c.blocks, c.initialItems, c.inferred, c.preGrow);
    hide FirstExit, ItemTexts, Start, ValidGraph, MergeEdges;
    var ps := FirstProp(c);
    assert ValidNode(c.blocks, 0);
    MergeEdgesNeed(ps, 0, c.blocks[0].successors, ps.states[0].exit, ps.states[0].exitWild, Last(c.blocks[0]));
  }

  const POP_FORK: Fork := map[
    "JUMP" := Op("JUMP", 0x56, ["label"], [], false, false, true, true, false, false),
    "POP" := Op("POP", 0x50, ["x"], [], false, false, false, false, false, false)
  ]

  const POP_LOOP: Block :=
    Block([LabelDef("loop", false, None), Opcode("POP", NoArg, [], None), Opcode("JUMP", LabelArg("loop", false), [], None)],
          "loop", None, "loop", [0], true, false, true, false, true)

  /** loop: pop; jump @loop */
  const POP_SETUP: Setup := Setup(POP_FORK, [POP_LOOP], [], true, 0)

  lemma PopLoopPlain()
    ensures InferredSetup(POP_SETUP)
    ensures Touch(POP_FORK, POP_LOOP.statements) == 1 && Net(POP_FORK, POP_LOOP.statements) == -1
  {
    var pop, jump := Opcode("POP", NoArg, [], None), Opcode("JUMP", LabelArg("loop", false), [], None);
    assert ValidNode([POP_LOOP], 0);
    assert CommentOf(pop) == Ok(None) && CommentOf(jump) == Ok(None);
    assert PlainBlock(POP_LOOP);
    assert "POP" in POP_FORK && "JUMP" in POP_FORK && POP_FORK["JUMP"].ins[1..] == [];
    assert Inputs(POP_FORK, pop) == 1 && Outputs(POP_FORK, pop) == 0;
    assert Inputs(POP_FORK, jump) == 0 && Outputs(POP_FORK, jump) == 0;
    hide Effect, Inputs, Outputs;
    assert Inputs(POP_FORK, LabelDef("loop", false, None)) == 0 && Outputs(POP_FORK, LabelDef("loop", false, None)) == 0 by {
      assert Effect(POP_FORK, LabelDef("loop", false, None)) == None;
    }
    assert POP_LOOP.statements[1..] == [pop, jump] && [pop, jump][1..] == [jump] && [jump][1..] == [];
    assert Touch(POP_FORK, [jump]) == 0 && Net(POP_FORK, [jump]) == 0;
    assert Touch(POP_FORK, [pop, jump]) == 1 && Net(POP_FORK, [pop, jump]) == -1;
  }

  /**
   * The loop "pop; jump @loop" at the start of a document pops more than it pushes, and every further
   * iteration needs one more item. The analysis ends all the same, with a single input.
   */
  lemma FirstBlockLoopUnnoticed()
    ensures 0 in POP_LOOP.successors && BlockNet(POP_FORK, [POP_LOOP], 0) < 0
    ensures POP_SETUP.Valid() && EndsWith(POP_SETUP, [0]) && InferredCount(POP_SETUP) == 1
  {
    PopLoopPlain();
    hide Touch, Net, InferredSetup;
    SingleBlockSettles(POP_SETUP);
    FirstGrows(POP_SETUP);
    hide SettledAfter, InferredCount, ValidGraph;
    assert WithGrowth(POP_SETUP, 0) == POP_SETUP;
    assert Retries(POP_SETUP, [0]) && Settles(POP_SETUP, 0);
  }
}
