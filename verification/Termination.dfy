/** When the worklist of the stack checker empties. */
module Termination {
  import opened Base
  import opened StackComment
  import opened SymbolicStack
  import opened Statements
  import opened Blocks
  import opened Worklist
  import opened FixedPoint
  import opened StackDepth
  import opened PlainRuns

  // ----- a potential that every round lowers -----

  function Pow3(k: nat): (p: nat)
    ensures p >= 1
  {
    if k == 0 then 1 else 3 * Pow3(k - 1)
  }

  lemma {:induction false} Pow3Monotone(j: nat, k: nat)
    requires j <= k
    ensures Pow3(j) <= Pow3(k)
    decreases k
  {
    if j < k {
      Pow3Monotone(j, k - 1);
    }
  }

  /** A rank for every block, at most top. */
  ghost predicate Ranking(blocks: seq<Block>, rank: seq<nat>, top: nat) {
    && |rank| == |blocks|
    && (forall b :: 0 <= b < |rank| ==> rank[b] <= top)
    && (forall b :: 0 <= b < |blocks| ==> |blocks[b].successors| <= 2)
  }

  function Weight(rank: seq<nat>, top: nat, b: nat): nat
    requires b < |rank| && rank[b] <= top
  {
    Pow3(top - rank[b])
  }

  ghost function Potential(blocks: seq<Block>, rank: seq<nat>, top: nat, worklist: seq<nat>): nat
    requires Ranking(blocks, rank, top)
    requires forall i :: 0 <= i < |worklist| ==> worklist[i] < |blocks|
  {
    if worklist == [] then 0
    else Potential(blocks, rank, top, worklist[..|worklist| - 1]) + Weight(rank, top, worklist[|worklist| - 1])
  }

  lemma PotentialSnoc(blocks: seq<Block>, rank: seq<nat>, top: nat, worklist: seq<nat>, b: nat)
    requires Ranking(blocks, rank, top) && b < |blocks|
    requires forall i :: 0 <= i < |worklist| ==> worklist[i] < |blocks|
    ensures Potential(blocks, rank, top, worklist + [b]) == Potential(blocks, rank, top, worklist) + Weight(rank, top, b)
  {
    assert (worklist + [b])[..|worklist|] == worklist;
  }

  /** The entry of d comes from a predecessor before d, and all predecessors have the same depth. */
  ghost predicate Anchored(bs: BlockState, d: nat, depth: nat) {
    && bs.reached && MergedEntry(bs)
    && bs.predExits.Keys == bs.predWild.Keys
    && (exists k :: k in bs.predExits && k < d)
    && (forall k :: k in bs.predExits ==> |bs.predExits[k]| == depth)
  }

  /** An edge from idx either goes up in rank, or it is a back edge that cannot change the entry of d. */
  ghost predicate EdgeOk(ps: Prop, rank: seq<nat>, idx: nat, d: nat, depth: nat)
    requires idx < |rank| && d < |rank| == |ps.states|
  {
    rank[idx] < rank[d] || (d <= idx && Anchored(ps.states[d], d, depth) && PlainState(ps.states[d]))
  }

  /** Recording an exit of the same depth under a later key does not change the entry. */
  lemma BackEdgeQuiet(bs: BlockState, d: nat, idx: nat, exit: seq<string>)
    requires d <= idx && Anchored(bs, d, |exit|) && PlainState(bs)
    ensures var (bs', changed) := Merged(bs, idx, exit, false);
            !changed && Anchored(bs', d, |exit|) && bs'.entry == bs.entry
  {
    var preds := bs.predExits[idx := exit];
    var k := BaseKey(bs.predExits);
    var f :| f in bs.predExits && f < d;
    assert k <= f;
    assert IsBase(preds, k);
    BaseNamesIs(preds, k);
    BaseNamesIs(bs.predExits, k);
    hide BaseNames;
    if idx in bs.predExits && idx in bs.predWild && bs.predExits[idx] == exit {
      assert preds == bs.predExits;
    }
    assert AnyPredWild(bs.predWild[idx := false]) == false == AnyPredWild(bs.predWild);
  }

  /** What queueing a successor of a block adds at most. */
  function EdgeWeight(rank: seq<nat>, top: nat, idx: nat): nat
    requires idx < |rank|
  {
    if rank[idx] < top then Pow3(top - rank[idx] - 1) else 0
  }

  function Times(n: nat, k: nat): nat {
    if n == 0 then 0 else k + Times(n - 1, k)
  }

  lemma MergeEdgePotential(c: Setup, ps: Prop, rank: seq<nat>, top: nat, idx: nat, d: nat, exit: seq<string>, src: Statement)
    requires Ranking(c.blocks, rank, top) && ValidProp(c.blocks, ps)
    requires idx < |c.blocks| && d < |c.blocks|
    requires EdgeOk(ps, rank, idx, d, |exit|)
    ensures var ps' := MergeEdge(ps, idx, d, exit, false, src);
            && ValidProp(c.blocks, ps')
            && Potential(c.blocks, rank, top, ps'.worklist)
               <= Potential(c.blocks, rank, top, ps.worklist) + EdgeWeight(rank, top, idx)
  {
    MergeEdgeValid(c.blocks, ps, idx, d, exit, false, src);
    PotentialSnoc(c.blocks, rank, top, ps.worklist, d);
    if rank[idx] < rank[d] {
      Pow3Monotone(top - rank[d], top - rank[idx] - 1);
    } else {
      BackEdgeQuiet(ps.states[d], d, idx, exit);
    }
    hide Merged, Potential;
  }

  lemma MergeEdgeOk(c: Setup, ps: Prop, rank: seq<nat>, top: nat, idx: nat, d: nat, exit: seq<string>, src: Statement, e: nat)
    requires Ranking(c.blocks, rank, top) && ValidProp(c.blocks, ps)
    requires idx < |c.blocks| && d < |c.blocks| && e < |c.blocks|
    requires EdgeOk(ps, rank, idx, e, |exit|) && Dotless(exit)
    ensures EdgeOk(MergeEdge(ps, idx, d, exit, false, src), rank, idx, e, |exit|)
  {
    if rank[idx] >= rank[e] && d == e {
      BackEdgeQuiet(ps.states[d], d, idx, exit);
      MergedPlain(ps.states[d], idx, exit);
      hide Merged, BaseNames, AnyPredWild;
    }
  }

  lemma {:induction false} MergeEdgesPotential(c: Setup, ps: Prop, rank: seq<nat>, top: nat, idx: nat, succs: seq<nat>,
                                               exit: seq<string>, src: Statement)
    requires Ranking(c.blocks, rank, top) && ValidProp(c.blocks, ps) && idx < |c.blocks| && Dotless(exit)
    requires forall i :: 0 <= i < |succs| ==> succs[i] < |c.blocks|
    requires forall i :: 0 <= i < |succs| ==> EdgeOk(ps, rank, idx, succs[i], |exit|)
    ensures var ps' := MergeEdges(ps, idx, succs, exit, false, src);
            && ValidProp(c.blocks, ps')
            && Potential(c.blocks, rank, top, ps'.worklist)
               <= Potential(c.blocks, rank, top, ps.worklist) + Times(|succs|, EdgeWeight(rank, top, idx))
    decreases |succs|
  {
    if succs != [] {
      var ps' := MergeEdge(ps, idx, succs[0], exit, false, src);
      MergeEdgePotential(c, ps, rank, top, idx, succs[0], exit, src);
      OkEdgesStay(c, ps, rank, top, idx, succs, exit, src);
      assert MergeEdges(ps, idx, succs, exit, false, src) == MergeEdges(ps', idx, succs[1..], exit, false, src);
      assert Times(|succs|, EdgeWeight(rank, top, idx)) == EdgeWeight(rank, top, idx) + Times(|succs[1..]|, EdgeWeight(rank, top, idx));
      hide *;
      MergeEdgesPotential(c, ps', rank, top, idx, succs[1..], exit, src);
    }
  }

  lemma OneMore(n: nat, step: nat)
    requires n > 0
    ensures n * step == step + (n - 1) * step
  {
  }

  lemma OkEdgesStay(c: Setup, ps: Prop, rank: seq<nat>, top: nat, idx: nat, succs: seq<nat>, exit: seq<string>, src: Statement)
    requires Ranking(c.blocks, rank, top) && ValidProp(c.blocks, ps) && idx < |c.blocks| && Dotless(exit)
    requires succs != []
    requires forall i :: 0 <= i < |succs| ==> succs[i] < |c.blocks|
    requires forall i :: 0 <= i < |succs| ==> EdgeOk(ps, rank, idx, succs[i], |exit|)
    ensures var ps' := MergeEdge(ps, idx, succs[0], exit, false, src);
            && |ps'.states| == |ps'.queued| == |c.blocks| == |rank|
            && (forall i :: 0 <= i < |succs[1..]| ==> succs[1..][i] < |c.blocks|)
            && forall i :: 0 <= i < |succs[1..]| ==> EdgeOk(ps', rank, idx, succs[1..][i], |exit|)
  {
    var ps' := MergeEdge(ps, idx, succs[0], exit, false, src);
    hide MergeEdge, EdgeOk, Dotless;
    forall i | 0 <= i < |succs[1..]|
      ensures EdgeOk(ps', rank, idx, succs[1..][i], |exit|)
    {
      MergeEdgeOk(c, ps, rank, top, idx, succs[0], exit, src, succs[i + 1]);
    }
  }

  /** The edges of the block walked in this round are all accounted for. */
  ghost predicate StepOk(c: Setup, ps: Prop, rank: seq<nat>)
    requires c.Valid() && Sized(c, ps) && |rank| == |c.blocks|
    requires ps.worklist != [] && Next(ps) < |c.blocks|
  {
    var idx := Next(ps);
    var w := WalkedProp(c, ps);
    assert ValidNode(c.blocks, idx);
    && !w.states[idx].exitWild && Dotless(w.states[idx].exit)
    && forall i :: 0 <= i < |c.blocks[idx].successors| ==>
         EdgeOk(w, rank, idx, c.blocks[idx].successors[i], |w.states[idx].exit|)
  }

  lemma TimesTwo(n: nat, k: nat, p: nat)
    requires n <= 2 && 3 * k <= p && p >= 1
    ensures Times(n, k) < p
  {
    if n == 2 {
      assert Times(1, k) == k;
    }
  }

  lemma StepPotential(c: Setup, ps: Prop, rank: seq<nat>, top: nat)
    requires c.Valid() && Ranking(c.blocks, rank, top) && ValidProp(c.blocks, ps) && ps.worklist != []
    requires StepOk(c, ps, rank)
    ensures ValidProp(c.blocks, Step(c.fork, c.blocks, c.inferred, ps))
    ensures Potential(c.blocks, rank, top, Step(c.fork, c.blocks, c.inferred, ps).worklist)
            < Potential(c.blocks, rank, top, ps.worklist)
  {
    hide BlockExit, EdgeOk, ItemTexts;
    var idx := Next(ps);
    var w := WalkedProp(c, ps);
    assert ValidNode(c.blocks, idx);
    StepValid(c.fork, c.blocks, c.inferred, ps);
    hide ValidGraph;
    var step := EdgeWeight(rank, top, idx);
    assert 3 * step <= Pow3(top - rank[idx]);
    TimesTwo(|c.blocks[idx].successors|, step, Pow3(top - rank[idx]));
    assert w.worklist == ps.worklist[..|ps.worklist| - 1];
    assert Potential(c.blocks, rank, top, ps.worklist) == Potential(c.blocks, rank, top, w.worklist) + Pow3(top - rank[idx]);
    hide Potential, MergeEdges, Pow3, EdgeWeight, Times;
    MergeEdgesPotential(c, w, rank, top, idx, c.blocks[idx].successors, w.states[idx].exit, Last(c.blocks[idx]));
  }

  lemma TwoSuccessors(fork: Fork, stmts: seq<Statement>, blocks: seq<Block>, labelIndex: map<string, nat>)
    requires BlockGraph(fork, stmts, blocks, labelIndex)
    ensures forall b :: 0 <= b < |blocks| ==> |blocks[b].successors| <= 2
  {
    hide Partition, LabelsOf;
    forall b | 0 <= b < |blocks|
      ensures |blocks[b].successors| <= 2
    {
      assert HasEdges(blocks, labelIndex, b);
    }
  }

  // ----- acyclic graphs -----

  /** Every edge goes up in rank: the block graph has no cycle. */
  ghost predicate Topological(blocks: seq<Block>, rank: seq<nat>)
    requires |rank| == |blocks|
  {
    forall b, i :: 0 <= b < |blocks| && 0 <= i < |blocks[b].successors| ==>
      blocks[b].successors[i] < |blocks| && rank[b] < rank[blocks[b].successors[i]]
  }

  lemma AcyclicStepOk(c: Setup, ps: Prop, rank: seq<nat>)
    requires PlainSetup(c) && ValidProp(c.blocks, ps) && ps.worklist != [] && PlainProp(ps)
    requires |rank| == |c.blocks| && Topological(c.blocks, rank)
    ensures StepOk(c, ps, rank)
  {
    var idx := Next(ps);
    assert ValidNode(c.blocks, idx);
    assert PlainState(ps.states[idx]);
    BlockExitPlain(c, idx, ps.states[idx]);
    hide BlockExit, ItemTexts, Dotless;
  }

  lemma {:induction false} AcyclicRun(c: Setup, ps: Prop, rank: seq<nat>, top: nat, n: nat)
    requires PlainSetup(c) && ValidProp(c.blocks, ps) && PlainProp(ps)
    requires Ranking(c.blocks, rank, top) && Topological(c.blocks, rank)
    requires Potential(c.blocks, rank, top, ps.worklist) <= n
    ensures Run(c.fork, c.blocks, c.inferred, ps, n).worklist == []
    decreases n
  {
    hide PlainProp, Topological, ValidGraph, Step, StepOk;
    if ps.worklist != [] {
      AcyclicStepOk(c, ps, rank);
      StepPotential(c, ps, rank, top);
      StepPlain(c, ps);
      hide Potential, ValidProp, PlainSetup;
      AcyclicRun(c, Step(c.fork, c.blocks, c.inferred, ps), rank, top, n - 1);
    }
  }

  /** On an acyclic block graph without wildcards the worklist empties, in closed and in inferred mode. */
  lemma AcyclicDrains(c: Setup, rank: seq<nat>, top: nat)
    requires PlainSetup(c) && Ranking(c.blocks, rank, top) && Topological(c.blocks, rank)
    ensures exists n :: AfterRounds(c, n).worklist == []
  {
    StartValid(c.fork, c.blocks, c.initialItems, c.inferred, c.preGrow);
    StartPlain(c);
    var ps := Start(c.fork, c.blocks, c.initialItems, c.inferred, c.preGrow);
    var n := Potential(c.blocks, rank, top, ps.worklist);
    hide Start, PlainProp, Potential, Topological, Ranking, PlainSetup;
    AcyclicRun(c, ps, rank, top, n);
    assert AfterRounds(c, n).worklist == [];
  }

  // ----- balanced documents in which back edges lead to dominators -----

  ghost predicate IsPath(blocks: seq<Block>, path: seq<nat>) {
    && path != [] && path[0] == 0
    && (forall i :: 0 <= i < |path| ==> path[i] < |blocks|)
    && (forall i :: 0 <= i < |path| - 1 ==> path[i + 1] in blocks[path[i]].successors)
  }

  ghost predicate EndsAt(path: seq<nat>, b: nat) {
    path != [] && path[|path| - 1] == b
  }

  /** Every path from the first block to b passes d. */
  ghost predicate Dominates(blocks: seq<Block>, d: nat, b: nat) {
    forall path :: IsPath(blocks, path) && EndsAt(path, b) ==> d in path
  }

  /** The targets of backward edges dominate their sources. */
  ghost predicate BackEdgesDominated(blocks: seq<Block>, live: set<nat>) {
    forall b, d :: b in live && b < |blocks| && d in blocks[b].successors && d <= b ==> Dominates(blocks, d, b)
  }

  /** A block works with d items: its comments can be parsed, its label declares d, nothing underflows. */
  ghost predicate BalancedBlock(c: Setup, live: set<nat>, depth: seq<nat>, b: nat)
    requires b < |c.blocks| == |depth|
  {
    var blk := c.blocks[b];
    && ParsedComments(blk.statements)
    && (LabelComment(blk).Some? ==> |LabelComment(blk).value| == depth[b])
    && Suffices(c.fork, blk.statements, depth[b])
    && forall d :: d in blk.successors ==> d in live && d < |depth| && depth[d] == DepthAfter(c.fork, blk.statements, depth[b])
  }

  /** One depth for every live block, such that depths agree on all edges and nothing underflows. */
  ghost predicate Balanced(c: Setup, live: set<nat>, depth: seq<nat>) {
    && |depth| == |c.blocks| > 0
    && 0 in live && depth[0] == |c.initialItems|
    && forall b :: b in live ==> b < |c.blocks| && BalancedBlock(c, live, depth, b)
  }

  ghost predicate ReachedPath(c: Setup, ps: Prop, path: seq<nat>)
    requires |ps.states| == |c.blocks|
  {
    && IsPath(c.blocks, path)
    && forall i :: 0 <= i < |path| ==> ps.states[path[i]].reached
  }

  /** What holds of every reached block of a balanced document. */
  ghost predicate Steady(c: Setup, live: set<nat>, depth: seq<nat>, ps: Prop, b: nat)
    requires b < |c.blocks| == |ps.states| == |depth|
  {
    var bs := ps.states[b];
    && b in live
    && MergedEntry(bs) && bs.predExits.Keys == bs.predWild.Keys
    && (forall k :: k in bs.predExits ==> |bs.predExits[k]| == depth[b])
    && (exists k :: k in bs.predExits && k < b)
    && (exists path :: ReachedPath(c, ps, path) && EndsAt(path, b))
  }

  ghost predicate SteadyProp(c: Setup, live: set<nat>, depth: seq<nat>, ps: Prop)
    requires Sized(c, ps) && |depth| == |c.blocks|
  {
    && PlainProp(ps)
    && (forall b :: 0 <= b < |c.blocks| && !ps.states[b].reached ==> ps.states[b].predExits == map[] && ps.states[b].predWild == map[])
    && (forall b :: 0 <= b < |c.blocks| && ps.states[b].reached ==> Steady(c, live, depth, ps, b))
  }

  /** Reaching more blocks, or new exits, do not disturb a block. */
  lemma SteadyFrame(c: Setup, live: set<nat>, depth: seq<nat>, ps: Prop, ps': Prop, b: nat)
    requires b < |c.blocks| == |ps.states| == |ps'.states| == |depth|
    requires Steady(c, live, depth, ps, b)
    requires forall d :: 0 <= d < |c.blocks| && ps.states[d].reached ==> ps'.states[d].reached
    requires ps'.states[b].predExits == ps.states[b].predExits && ps'.states[b].predWild == ps.states[b].predWild
    requires ps'.states[b].reached == ps.states[b].reached
    requires ps'.states[b].entry == ps.states[b].entry && ps'.states[b].entryWild == ps.states[b].entryWild
    ensures Steady(c, live, depth, ps', b)
  {
    hide BaseNames, AnyPredWild, IsPath;
    var path :| ReachedPath(c, ps, path) && EndsAt(path, b);
    PathInside(c.blocks, path);
    assert ReachedPath(c, ps', path);
  }

  lemma PathInside(blocks: seq<Block>, path: seq<nat>)
    requires IsPath(blocks, path)
    ensures path != [] && forall i :: 0 <= i < |path| ==> path[i] < |blocks|
  {
  }

  lemma ExtendPath(c: Setup, ps: Prop, ps': Prop, path: seq<nat>, idx: nat, d: nat)
    requires |c.blocks| == |ps.states| == |ps'.states| && idx < |c.blocks| && d < |c.blocks|
    requires ReachedPath(c, ps, path) && EndsAt(path, idx)
    requires forall b :: 0 <= b < |c.blocks| && ps.states[b].reached ==> ps'.states[b].reached
    requires d in c.blocks[idx].successors && ps'.states[d].reached
    ensures ReachedPath(c, ps', path + [d])
  {
    var p := path + [d];
    forall i | 0 <= i < |p| - 1
      ensures p[i + 1] in c.blocks[p[i]].successors
    {
      if i < |path| - 1 {
        assert path[i + 1] in c.blocks[path[i]].successors;
      }
    }
  }

  /** The successor of a merged edge. */
  lemma SteadyTarget(c: Setup, live: set<nat>, depth: seq<nat>, ps: Prop, ps': Prop, idx: nat, d: nat)
    requires c.Valid() && Sized(c, ps) && |depth| == |c.blocks| && idx < |c.blocks| && d < |c.blocks|
    requires SteadyProp(c, live, depth, ps) && ps.states[idx].reached
    requires EdgeMerged(ps, ps', idx, d)
    requires d in c.blocks[idx].successors && d in live && |ps.states[idx].exit| == depth[d]
    requires idx < d || ps.states[d].reached
    ensures Steady(c, live, depth, ps', d)
  {
    hide BaseNames, AnyPredWild, IsPath, PlainProp;
    assert Steady(c, live, depth, ps, idx);
    var path :| ReachedPath(c, ps, path) && EndsAt(path, idx);
    ExtendPath(c, ps, ps', path, idx, d);
    assert EndsAt(path + [d], d);
    var bs' := ps'.states[d];
    assert idx in bs'.predExits;
    if ps.states[d].reached {
      assert Steady(c, live, depth, ps, d);
      var k :| k in ps.states[d].predExits && k < d;
      assert k in bs'.predExits;
    }
  }

  lemma SteadyMerge(c: Setup, live: set<nat>, depth: seq<nat>, ps: Prop, idx: nat, d: nat, src: Statement)
    requires c.Valid() && Sized(c, ps) && |depth| == |c.blocks| && idx < |c.blocks| && d < |c.blocks|
    requires SteadyProp(c, live, depth, ps) && ps.states[idx].reached
    requires d in c.blocks[idx].successors && d in live && |ps.states[idx].exit| == depth[d]
    requires idx < d || ps.states[d].reached
    ensures var ps' := MergeEdge(ps, idx, d, ps.states[idx].exit, ps.states[idx].exitWild, src);
            Sized(c, ps') && SteadyProp(c, live, depth, ps') && EdgeMerged(ps, ps', idx, d)
  {
    var ps' := MergeEdge(ps, idx, d, ps.states[idx].exit, ps.states[idx].exitWild, src);
    SteadyPlain(c, live, depth, ps, idx);
    MergeEdgePlain(ps, idx, d, ps.states[idx].exit, src);
    SteadyMerged(c, live, depth, ps, d);
    MergedState(ps, idx, d, src);
    hide MergeEdge, PlainProp;
    SteadyTarget(c, live, depth, ps, ps', idx, d);
    SteadyOthers(c, live, depth, ps, ps', idx, d);
  }

  lemma SteadyPlain(c: Setup, live: set<nat>, depth: seq<nat>, ps: Prop, idx: nat)
    requires Sized(c, ps) && |depth| == |c.blocks| && idx < |c.blocks| && SteadyProp(c, live, depth, ps)
    ensures !ps.states[idx].exitWild && Dotless(ps.states[idx].exit)
  {
    assert PlainState(ps.states[idx]);
  }

  lemma SteadyMerged(c: Setup, live: set<nat>, depth: seq<nat>, ps: Prop, d: nat)
    requires Sized(c, ps) && |depth| == |c.blocks| && d < |c.blocks| && SteadyProp(c, live, depth, ps)
    ensures MergedEntry(ps.states[d])
  {
    hide PlainProp, BaseNames, AnyPredWild;
  }

  lemma SteadyOthers(c: Setup, live: set<nat>, depth: seq<nat>, ps: Prop, ps': Prop, idx: nat, d: nat)
    requires c.Valid() && Sized(c, ps) && |depth| == |c.blocks| && idx < |c.blocks| && d < |c.blocks|
    requires SteadyProp(c, live, depth, ps) && EdgeMerged(ps, ps', idx, d)
    requires PlainProp(ps') && Sized(c, ps') && Steady(c, live, depth, ps', d)
    ensures SteadyProp(c, live, depth, ps')
  {
    EdgeFrame(ps, ps', idx, d);
    hide PlainProp, BaseNames, AnyPredWild, Steady;
    forall b | 0 <= b < |c.blocks| && ps'.states[b].reached
      ensures Steady(c, live, depth, ps', b)
    {
      if b != d {
        SteadyFrame(c, live, depth, ps, ps', b);
      }
    }
  }

  lemma {:induction false} SteadyMerges(c: Setup, live: set<nat>, depth: seq<nat>, ps: Prop, idx: nat, succs: seq<nat>, src: Statement)
    requires c.Valid() && Sized(c, ps) && |depth| == |c.blocks| && idx < |c.blocks|
    requires SteadyProp(c, live, depth, ps) && ps.states[idx].reached
    requires forall i :: 0 <= i < |succs| ==> SteadyEdge(c, live, depth, ps, idx, succs[i])
    ensures forall i :: 0 <= i < |succs| ==> succs[i] < |ps.states|
    ensures var ps' := MergeEdges(ps, idx, succs, ps.states[idx].exit, ps.states[idx].exitWild, src);
            Sized(c, ps') && SteadyProp(c, live, depth, ps')
    decreases |succs|
  {
    hide SteadyProp;
    if succs != [] {
      assert SteadyEdge(c, live, depth, ps, idx, succs[0]);
      SteadyMerge(c, live, depth, ps, idx, succs[0], src);
      var ps' := MergeEdge(ps, idx, succs[0], ps.states[idx].exit, ps.states[idx].exitWild, src);
      EdgeFrame(ps, ps', idx, succs[0]);
      hide MergeEdge, EdgeMerged;
      forall i | 0 <= i < |succs[1..]|
        ensures SteadyEdge(c, live, depth, ps', idx, succs[1..][i])
      {
        assert SteadyEdge(c, live, depth, ps, idx, succs[i + 1]);
      }
      SteadyMerges(c, live, depth, ps', idx, succs[1..], src);
    }
  }

  ghost predicate SteadyEdge(c: Setup, live: set<nat>, depth: seq<nat>, ps: Prop, idx: nat, d: nat)
    requires Sized(c, ps) && |depth| == |c.blocks| && idx < |c.blocks|
  {
    && d < |c.blocks|
    && d in c.blocks[idx].successors && d in live && |ps.states[idx].exit| == depth[d]
    && (idx < d || ps.states[d].reached)
  }

  /** The exit of a balanced block has the depth of its successors. */
  lemma BalancedExit(c: Setup, live: set<nat>, depth: seq<nat>, b: nat, bs: BlockState)
    requires PlainSetup(c) && !c.inferred && |depth| == |c.blocks| && b < |c.blocks| && BalancedBlock(c, live, depth, b)
    requires PlainState(bs) && |bs.entry| == depth[b]
    ensures |ItemTexts(c.Exit(b, bs))| == DepthAfter(c.fork, c.blocks[b].statements, depth[b])
  {
    var blk := c.blocks[b];
    assert PlainBlock(blk);
    var s := EntryStack(bs.entry, false, false);
    NewStackDotless(bs.entry);
    if LabelComment(blk).Some? {
      LabelDepth(s, LabelComment(blk).value);
    }
    hide Checked, NewStack, LabelComment, Walked, Dotless, DepthAfter, Suffices;
    WalkedDepth(c.fork, blk.statements, LabelApplied(blk, s));
  }

  /** The invariant of the worklist in a balanced document. */
  ghost predicate BalancedInv(c: Setup, live: set<nat>, depth: seq<nat>, ps: Prop)
    requires c.Valid()
  {
    && Inv(c, ps) && |depth| == |c.blocks|
    && SteadyProp(c, live, depth, ps)
  }

  lemma SteadyEntry(c: Setup, live: set<nat>, depth: seq<nat>, ps: Prop, b: nat)
    requires b < |c.blocks| == |ps.states| == |depth|
    requires ps.states[b].reached && Steady(c, live, depth, ps, b)
    ensures |ps.states[b].entry| == depth[b]
  {
    var preds := ps.states[b].predExits;
    assert BaseKey(preds) in preds;
  }

  /** The block taken off the worklist: its exit has the depth of its successors. */
  lemma NextSteady(c: Setup, live: set<nat>, depth: seq<nat>, ps: Prop)
    requires PlainSetup(c) && !c.inferred && BalancedInv(c, live, depth, ps) && ps.worklist != []
    requires Balanced(c, live, depth)
    ensures Next(ps) < |c.blocks|
    ensures var idx := Next(ps); var s := c.Exit(idx, ps.states[idx]);
            && ps.states[idx].reached && Steady(c, live, depth, ps, idx) && BalancedBlock(c, live, depth, idx)
            && !s.wildcard && Dotless(ItemTexts(s))
            && |ItemTexts(s)| == DepthAfter(c.fork, c.blocks[idx].statements, depth[idx])
  {
    var idx := Next(ps);
    assert ps.queued[idx] by { assert ps.worklist[|ps.worklist| - 1] == idx; }
    assert Merges(c, ps, idx);
    assert Steady(c, live, depth, ps, idx);
    assert PlainState(ps.states[idx]);
    SteadyEntry(c, live, depth, ps, idx);
    hide Steady, BlockExit, ItemTexts, SteadyProp, Merges, DepthAfter, Suffices;
    BalancedExit(c, live, depth, idx, ps.states[idx]);
    BlockExitPlain(c, idx, ps.states[idx]);
  }

  /** After the walk of the next block, its edges agree with the depth labelling. */
  lemma WalkedSteady(c: Setup, live: set<nat>, depth: seq<nat>, ps: Prop)
    requires PlainSetup(c) && !c.inferred && BalancedInv(c, live, depth, ps) && ps.worklist != []
    requires Balanced(c, live, depth) && BackEdgesDominated(c.blocks, live)
    ensures Next(ps) < |c.blocks|
    ensures var w, idx := WalkedProp(c, ps), Next(ps);
            && Sized(c, w) && SteadyProp(c, live, depth, w) && w.states[idx].reached
            && forall d :: d in c.blocks[idx].successors ==> SteadyEdge(c, live, depth, w, idx, d)
  {
    NextSteady(c, live, depth, ps);
    var w, idx := WalkedProp(c, ps), Next(ps);
    hide BlockExit, ItemTexts, Merges, Dotless, DepthAfter, BackEdgesDominated, Suffices, SteadyProp;
    WalkedSteadyProp(c, live, depth, ps, w, idx);
    forall d | d in c.blocks[idx].successors
      ensures SteadyEdge(c, live, depth, w, idx, d)
    {
      if d <= idx {
        DominatorReached(c, live, ps, idx, d);
      }
    }
  }

  lemma DominatorReached(c: Setup, live: set<nat>, ps: Prop, idx: nat, d: nat)
    requires |c.blocks| == |ps.states| && idx < |c.blocks| && d < |c.blocks|
    requires idx in live && d in c.blocks[idx].successors && d <= idx
    requires BackEdgesDominated(c.blocks, live)
    requires exists path :: ReachedPath(c, ps, path) && EndsAt(path, idx)
    ensures ps.states[d].reached
  {
    var path :| ReachedPath(c, ps, path) && EndsAt(path, idx);
    assert Dominates(c.blocks, d, idx);
    var i :| 0 <= i < |path| && path[i] == d;
  }

  lemma WalkedSteadyProp(c: Setup, live: set<nat>, depth: seq<nat>, ps: Prop, w: Prop, idx: nat)
    requires Sized(c, ps) && Sized(c, w) && |depth| == |c.blocks| && idx < |c.blocks|
    requires SteadyProp(c, live, depth, ps)
    requires forall b :: 0 <= b < |c.blocks| && b != idx ==> w.states[b] == ps.states[b]
    requires w.states[idx] == ps.states[idx].(exit := w.states[idx].exit, exitWild := w.states[idx].exitWild)
    requires Dotless(w.states[idx].exit) && !w.states[idx].exitWild
    ensures SteadyProp(c, live, depth, w)
  {
    hide Dotless;
    forall b | 0 <= b < |c.blocks|
      ensures PlainState(w.states[b])
    {
      assert PlainState(ps.states[b]);
    }
    forall b | 0 <= b < |c.blocks| && w.states[b].reached
      ensures Steady(c, live, depth, w, b)
    {
      assert Steady(c, live, depth, ps, b);
      hide Steady;
      SteadyFrame(c, live, depth, ps, w, b);
    }
  }

  lemma SteadyEdgesOk(c: Setup, live: set<nat>, depth: seq<nat>, w: Prop, rank: seq<nat>, idx: nat, d: nat)
    requires Sized(c, w) && |depth| == |c.blocks| && idx < |c.blocks| && d < |c.blocks|
    requires SteadyProp(c, live, depth, w) && SteadyEdge(c, live, depth, w, idx, d)
    requires |rank| == |c.blocks| && forall b :: 0 <= b < |rank| ==> rank[b] == b
    ensures EdgeOk(w, rank, idx, d, |w.states[idx].exit|)
  {
    if d <= idx {
      assert Steady(c, live, depth, w, d);
      assert PlainState(w.states[d]);
    }
    hide IsPath, BaseNames, AnyPredWild;
  }

  /** The blocks in source order. */
  function SourceOrder(n: nat): (rank: seq<nat>)
    ensures |rank| == n && forall b :: 0 <= b < n ==> rank[b] == b
  {
    seq(n, b requires 0 <= b < n => b)
  }

  /** One round in a balanced document keeps the invariant and lowers the potential. */
  lemma BalancedStep(c: Setup, live: set<nat>, depth: seq<nat>, ps: Prop)
    requires PlainSetup(c) && !c.inferred && BalancedInv(c, live, depth, ps) && ps.worklist != []
    requires Balanced(c, live, depth) && BackEdgesDominated(c.blocks, live)
    requires Ranking(c.blocks, SourceOrder(|c.blocks|), |c.blocks|)
    ensures ValidProp(c.blocks, ps)
    ensures var ps' := Step(c.fork, c.blocks, c.inferred, ps);
            && BalancedInv(c, live, depth, ps') && ValidProp(c.blocks, ps')
            && Potential(c.blocks, SourceOrder(|c.blocks|), |c.blocks|, ps'.worklist)
               < Potential(c.blocks, SourceOrder(|c.blocks|), |c.blocks|, ps.worklist)
  {
    StepInv(c, ps);
    var idx, w, rank := Next(ps), WalkedProp(c, ps), SourceOrder(|c.blocks|);
    hide SteadyProp, SteadyEdge, Inv, Potential, Step, EdgeOk, BackEdgesDominated, Balanced, SourceOrder;
    WalkedSteady(c, live, depth, ps);
    assert ValidNode(c.blocks, idx);
    var succs := c.blocks[idx].successors;
    forall i | 0 <= i < |succs|
      ensures SteadyEdge(c, live, depth, w, idx, succs[i])
      ensures EdgeOk(w, rank, idx, succs[i], |w.states[idx].exit|)
    {
      SteadyEdgesOk(c, live, depth, w, rank, idx, succs[i]);
    }
    ExitPlainState(c, live, depth, w, idx);
    StepPotential(c, ps, rank, |c.blocks|);
    SteadyMerges(c, live, depth, w, idx, succs, Last(c.blocks[idx]));
    StepIsMerges(c, ps);
  }

  lemma ExitPlainState(c: Setup, live: set<nat>, depth: seq<nat>, w: Prop, idx: nat)
    requires Sized(c, w) && |depth| == |c.blocks| && idx < |c.blocks| && SteadyProp(c, live, depth, w)
    ensures !w.states[idx].exitWild && Dotless(w.states[idx].exit)
  {
    assert PlainState(w.states[idx]);
  }

  lemma StepIsMerges(c: Setup, ps: Prop)
    requires c.Valid() && ValidProp(c.blocks, ps) && ps.worklist != []
    ensures ValidNode(c.blocks, Next(ps))
    ensures var w, idx := WalkedProp(c, ps), Next(ps);
            Step(c.fork, c.blocks, c.inferred, ps)
            == MergeEdges(w, idx, c.blocks[idx].successors, w.states[idx].exit, w.states[idx].exitWild, Last(c.blocks[idx]))
  {
    hide MergeEdges, BlockExit, ItemTexts;
  }

  lemma {:induction false} BalancedRun(c: Setup, live: set<nat>, depth: seq<nat>, ps: Prop, n: nat)
    requires PlainSetup(c) && !c.inferred && BalancedInv(c, live, depth, ps) && ValidProp(c.blocks, ps)
    requires Balanced(c, live, depth) && BackEdgesDominated(c.blocks, live)
    requires Ranking(c.blocks, SourceOrder(|c.blocks|), |c.blocks|)
    requires Potential(c.blocks, SourceOrder(|c.blocks|), |c.blocks|, ps.worklist) <= n
    ensures Run(c.fork, c.blocks, c.inferred, ps, n).worklist == []
    decreases n
  {
    hide Step, ValidGraph, Balanced, BackEdgesDominated, BalancedInv, SourceOrder, ValidProp;
    if ps.worklist != [] {
      BalancedStep(c, live, depth, ps);
      hide Potential, Ranking, PlainSetup;
      BalancedRun(c, live, depth, Step(c.fork, c.blocks, c.inferred, ps), n - 1);
    }
  }

  /** The block states before the first block's exit is merged. */
  ghost function FirstProp(c: Setup): (ps: Prop)
    requires c.Valid()
    ensures |ps.states| == |ps.queued| == |c.blocks|
  {
    var first := BlockState(true, c.InitItems(), ItemTexts(c.First()), map[INITIAL := c.InitItems()],
                            map[INITIAL := c.InitWild()], map[], c.InitWild(), c.First().wildcard);
    Prop(OnlyFirst(|c.blocks|, first), [], NoneQueued(|c.blocks|), 0)
  }

  lemma StartIsMerges(c: Setup)
    requires c.Valid()
    ensures ValidNode(c.blocks, 0)
    ensures var ps := FirstProp(c);
            Start(c.fork, c.blocks, c.initialItems, c.inferred, c.preGrow)
            == MergeEdges(ps, 0, c.blocks[0].successors, ps.states[0].exit, ps.states[0].exitWild, Last(c.blocks[0]))
  {
    hide MergeEdges, FirstExit, ItemTexts;
    assert ValidNode(c.blocks, 0);
  }

  lemma FirstSteady(c: Setup, live: set<nat>, depth: seq<nat>)
    requires PlainSetup(c) && Balanced(c, live, depth)
    ensures SteadyProp(c, live, depth, FirstProp(c))
    ensures FirstProp(c).states[0].reached && |FirstProp(c).states[0].entry| == depth[0]
  {
    hide FirstExit, ItemTexts, ValidGraph, BalancedBlock;
    FirstExitPlain(c);
    assert c.InitItems() == c.initialItems && !c.InitWild();
    var ps := FirstProp(c);
    var first := ps.states[0];
    assert IsBase(first.predExits, INITIAL);
    BaseNamesIs(first.predExits, INITIAL);
    assert AnyPredWild(first.predWild) == c.InitWild();
    hide BaseNames, AnyPredWild;
    assert PlainState(first) && PlainState(UNREACHED);
    assert ReachedPath(c, ps, [0]) && EndsAt([0], 0);
    assert Steady(c, live, depth, ps, 0) by {
      assert INITIAL in first.predExits && INITIAL < 0;
    }
  }

  /** The worklist starts in a state that satisfies the invariant. */
  lemma StartBalanced(c: Setup, live: set<nat>, depth: seq<nat>)
    requires PlainSetup(c) && !c.inferred && Balanced(c, live, depth)
    ensures BalancedInv(c, live, depth, Start(c.fork, c.blocks, c.initialItems, c.inferred, c.preGrow))
  {
    StartInv(c);
    StartIsMerges(c);
    FirstSteady(c, live, depth);
    var ps := FirstProp(c);
    FirstStateEdges(c, live, depth);
    hide SteadyProp, Inv, Start, FirstProp, Balanced, SteadyEdge;
    SteadyMerges(c, live, depth, ps, 0, c.blocks[0].successors, Last(c.blocks[0]));
  }

  lemma FirstStateEdges(c: Setup, live: set<nat>, depth: seq<nat>)
    requires PlainSetup(c) && !c.inferred && Balanced(c, live, depth)
    ensures forall i :: 0 <= i < |c.blocks[0].successors| ==> SteadyEdge(c, live, depth, FirstProp(c), 0, c.blocks[0].successors[i])
  {
    var ps := FirstProp(c);
    FirstIsTransfer(c);
    assert BalancedBlock(c, live, depth, 0);
    assert c.InitItems() == c.initialItems && !c.InitWild();
    FirstExitPlain(c);
    hide FirstExit, BlockExit, ItemTexts, Dotless, Suffices, DepthAfter;
    var first := ps.states[0].(exit := [], exitWild := false);
    assert PlainState(first) by { EmptyDotless(); }
    BalancedExit(c, live, depth, 0, first);
    assert ps.states[0].exit == ItemTexts(c.Exit(0, first));
    forall d | d in c.blocks[0].successors
      ensures SteadyEdge(c, live, depth, ps, 0, d)
    {
    }
  }

  lemma EmptyDotless()
    ensures Dotless([])
  {
  }

  /**
   * In closed mode without wildcards: if depths agree on all edges, nothing underflows, and the target
   * of every backward edge dominates its source, then the worklist empties.
   */
  lemma DominatedDrains(c: Setup, live: set<nat>, depth: seq<nat>)
    requires PlainSetup(c) && !c.inferred && (forall b :: 0 <= b < |c.blocks| ==> |c.blocks[b].successors| <= 2)
    requires Balanced(c, live, depth) && BackEdgesDominated(c.blocks, live)
    ensures exists n :: AfterRounds(c, n).worklist == []
  {
    StartBalanced(c, live, depth);
    var ps := Start(c.fork, c.blocks, c.initialItems, c.inferred, c.preGrow);
    StartValid(c.fork, c.blocks, c.initialItems, c.inferred, c.preGrow);
    var n := Potential(c.blocks, SourceOrder(|c.blocks|), |c.blocks|, ps.worklist);
    hide Start, BalancedInv, Potential, Balanced, BackEdgesDominated, PlainSetup;
    BalancedRun(c, live, depth, ps, n);
    assert AfterRounds(c, n).worklist == [];
  }
}
