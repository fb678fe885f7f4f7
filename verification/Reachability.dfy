/** The blocks that propagation reaches are exactly those that the graph leads to from the first block. */
module Reachability {
  import opened Base
  import opened StackComment
  import opened SymbolicStack
  import opened Statements
  import opened Blocks
  import opened Worklist
  import opened FixedPoint
  import opened Termination
  import Propagation
  import Reporting

  ghost predicate Reachable(blocks: seq<Block>, b: nat) {
    exists path :: IsPath(blocks, path) && EndsAt(path, b)
  }

  lemma ReachableNext(blocks: seq<Block>, b: nat, d: nat)
    requires Reachable(blocks, b) && b < |blocks| && d in blocks[b].successors && d < |blocks|
    ensures Reachable(blocks, d)
  {
    var path :| IsPath(blocks, path) && EndsAt(path, b);
    var more := path + [d];
    assert IsPath(blocks, more) && EndsAt(more, d);
  }

  lemma ReachableFirst(blocks: seq<Block>)
    requires |blocks| > 0
    ensures Reachable(blocks, 0)
  {
    assert IsPath(blocks, [0]) && EndsAt([0], 0);
  }

  ghost predicate ReachedOnly(blocks: seq<Block>, states: seq<BlockState>) {
    forall b :: 0 <= b < |states| && states[b].reached ==> Reachable(blocks, b)
  }

  lemma EdgeReaches(blocks: seq<Block>, ps: Prop, idx: nat, succ: nat, exit: seq<string>, wild: bool, src: Statement)
    requires succ < |ps.states| == |ps.queued| && ReachedOnly(blocks, ps.states) && Reachable(blocks, succ)
    ensures ReachedOnly(blocks, MergeEdge(ps, idx, succ, exit, wild, src).states)
  {
    hide Merged, Reachable;
  }

  lemma {:induction false} EdgesReach(blocks: seq<Block>, ps: Prop, idx: nat, succs: seq<nat>, exit: seq<string>, wild: bool, src: Statement)
    requires |ps.states| == |ps.queued| && ReachedOnly(blocks, ps.states)
    requires forall i :: 0 <= i < |succs| ==> succs[i] < |ps.states| && Reachable(blocks, succs[i])
    ensures ReachedOnly(blocks, MergeEdges(ps, idx, succs, exit, wild, src).states)
    decreases |succs|
  {
    hide MergeEdge, Reachable, ReachedOnly;
    if succs != [] {
      EdgeReaches(blocks, ps, idx, succs[0], exit, wild, src);
      EdgesReach(blocks, MergeEdge(ps, idx, succs[0], exit, wild, src), idx, succs[1..], exit, wild, src);
    }
  }

  lemma PropagatedReaches(blocks: seq<Block>, ps: Prop, idx: nat)
    requires ValidGraph(blocks) && idx < |blocks| == |ps.states| == |ps.queued|
    requires ReachedOnly(blocks, ps.states) && Reachable(blocks, idx)
    ensures ReachedOnly(blocks, Propagated(blocks, ps, idx).states)
  {
    assert ValidNode(blocks, idx);
    hide MergeEdges, ReachedOnly, Reachable;
    var succs := blocks[idx].successors;
    forall i | 0 <= i < |succs|
      ensures Reachable(blocks, succs[i])
    {
      ReachableNext(blocks, idx, succs[i]);
    }
    EdgesReach(blocks, ps, idx, succs, ps.states[idx].exit, ps.states[idx].exitWild, Last(blocks[idx]));
  }

  lemma NextReached(c: Setup, ps: Prop)
    requires c.Valid() && Inv(c, ps) && ps.worklist != []
    ensures Next(ps) < |c.blocks| == |ps.states| == |ps.queued| && ps.states[Next(ps)].reached
  {
    hide BaseNames, Complete, ValidPred;
    assert ps.worklist[|ps.worklist| - 1] < |ps.queued| && ps.queued[Next(ps)];
    assert Merges(c, ps, Next(ps));
  }

  lemma StepReaches(c: Setup, ps: Prop)
    requires c.Valid() && Inv(c, ps) && ps.worklist != [] && ReachedOnly(c.blocks, ps.states)
    ensures ValidProp(c.blocks, ps) && ReachedOnly(c.blocks, Step(c.fork, c.blocks, c.inferred, ps).states)
  {
    StepInv(c, ps);
    NextReached(c, ps);
    hide Inv, Propagated, BlockExit, Reachable, ValidGraph;
    var idx := Next(ps);
    var s := BlockExit(c.fork, c.blocks[idx], ps.states[idx].entry, ps.states[idx].entryWild, c.inferred);
    var popped := Popped(ps).(need := if c.inferred then Max(ps.need, |s.inferredItems|) else ps.need);
    PropagatedReaches(c.blocks, WithExit(popped, idx, s), idx);
  }

  lemma {:induction false} RunReaches(c: Setup, ps: Prop, n: nat)
    requires c.Valid() && Inv(c, ps) && ValidProp(c.blocks, ps) && ReachedOnly(c.blocks, ps.states)
    ensures ReachedOnly(c.blocks, Run(c.fork, c.blocks, c.inferred, ps, n).states)
    decreases n
  {
    hide Inv, Step, ReachedOnly, ValidGraph;
    if n > 0 && ps.worklist != [] {
      StepInv(c, ps);
      StepReaches(c, ps);
      StepValid(c.fork, c.blocks, c.inferred, ps);
      RunReaches(c, Step(c.fork, c.blocks, c.inferred, ps), n - 1);
    }
  }

  lemma StartReaches(c: Setup)
    requires c.Valid()
    ensures ReachedOnly(c.blocks, Start(c.fork, c.blocks, c.initialItems, c.inferred, c.preGrow).states)
  {
    ReachableFirst(c.blocks);
    hide Propagated, FirstExit, ValidGraph, Reachable;
    var s := FirstExit(c.fork, c.blocks[0], c.initialItems, c.inferred, c.preGrow);
    var (items, wild) := StripWildcard(c.initialItems);
    var first := BlockState(true, items, ItemTexts(s), map[INITIAL := items], map[INITIAL := wild], map[], wild, s.wildcard);
    PropagatedReaches(c.blocks, Prop(OnlyFirst(|c.blocks|, first), [], NoneQueued(|c.blocks|), 0), 0);
  }

  /** At any time, only reachable blocks are reached. */
  lemma OnlyReachable(c: Setup, n: nat)
    requires c.Valid()
    ensures ReachedOnly(c.blocks, AfterRounds(c, n).states)
  {
    StartInv(c);
    StartReaches(c);
    StartValid(c.fork, c.blocks, c.initialItems, c.inferred, c.preGrow);
    hide Inv, Start, Run, ReachedOnly, ValidGraph;
    RunReaches(c, Start(c.fork, c.blocks, c.initialItems, c.inferred, c.preGrow), n);
  }

  lemma {:induction false} PathReached(c: Setup, n: nat, path: seq<nat>)
    requires c.Valid() && AfterRounds(c, n).worklist == [] && IsPath(c.blocks, path)
    ensures |AfterRounds(c, n).states| == |c.blocks| && AfterRounds(c, n).states[path[|path| - 1]].reached
    decreases |path|
  {
    hide AfterRounds, ValidGraph, Merges, Done;
    DrainedComplete(c, n, path[|path| - 1]);
    if |path| == 1 {
      FirstReached(c, n);
    } else {
      var b, d := path[|path| - 2], path[|path| - 1];
      PathReached(c, n, path[..|path| - 1]);
      DrainedComplete(c, n, b);
      assert path[|path| - 2 + 1] in c.blocks[path[|path| - 2]].successors;
      CompleteRecorded(c, AfterRounds(c, n), b, d);
    }
  }

  lemma FirstReached(c: Setup, n: nat)
    requires c.Valid()
    ensures |AfterRounds(c, n).states| == |c.blocks| && AfterRounds(c, n).states[0].reached
  {
    ResultInv(c, n);
    hide AfterRounds, Complete, BaseNames, ValidPred;
    assert Merges(c, AfterRounds(c, n), 0);
  }

  /** When the worklist is empty, exactly the reachable blocks are reached. */
  lemma ReachedIffReachable(c: Setup, n: nat, b: nat)
    requires c.Valid() && AfterRounds(c, n).worklist == [] && b < |c.blocks|
    ensures |AfterRounds(c, n).states| == |c.blocks|
    ensures AfterRounds(c, n).states[b].reached <==> Reachable(c.blocks, b)
  {
    OnlyReachable(c, n);
    FirstReached(c, n);
    hide AfterRounds, ValidGraph, IsPath;
    if path :| IsPath(c.blocks, path) && EndsAt(path, b) {
      PathReached(c, n, path);
    }
  }

  // ----- what is reported -----

  /** A warning about block b, for its final state. */
  ghost predicate WarnedAt(c: Setup, states: seq<BlockState>, b: nat, w: Propagation.Warning)
    requires ValidGraph(c.blocks) && |states| == |c.blocks| && b < |c.blocks|
  {
    assert ValidNode(c.blocks, b);
    w in Reporting.BlockWarnings(c.fork, c.blocks[b], states[b], b, Reporting.CheckStack(states[b], b, c.initialItems, c.inferred, c.preGrow))
  }

  ghost function WarningsFrom(c: Setup, states: seq<BlockState>, k: nat): seq<Propagation.Warning>
    requires ValidGraph(c.blocks) && |states| == |c.blocks| && k <= |c.blocks|
  {
    Reporting.CheckWarnings(c.fork, c.blocks, states, k, c.initialItems, c.inferred, c.preGrow)
  }

  lemma WarningsStep(c: Setup, states: seq<BlockState>, k: nat, w: Propagation.Warning)
    requires ValidGraph(c.blocks) && |states| == |c.blocks| && k <= |c.blocks|
    ensures w in WarningsFrom(c, states, k)
         <==> k < |c.blocks| && ((states[k].reached && WarnedAt(c, states, k, w)) || w in WarningsFrom(c, states, k + 1))
  {
    if k < |c.blocks| {
      Reporting.CheckWarningsStep(c.fork, c.blocks, states, k, c.initialItems, c.inferred, c.preGrow);
    } else {
      Reporting.CheckWarningsEnd(c.fork, c.blocks, states, c.initialItems, c.inferred, c.preGrow);
    }
    hide Reporting.CheckWarnings, Reporting.BlockWarnings, Reporting.CheckStack;
  }

  lemma {:induction false} WarningsOfReached(c: Setup, states: seq<BlockState>, k: nat, w: Propagation.Warning)
    requires ValidGraph(c.blocks) && |states| == |c.blocks| && k <= |c.blocks|
    ensures w in WarningsFrom(c, states, k) <==> exists b :: k <= b < |c.blocks| && states[b].reached && WarnedAt(c, states, b, w)
    decreases |c.blocks| - k
  {
    hide WarningsFrom, WarnedAt, ValidGraph;
    WarningsStep(c, states, k, w);
    if k < |c.blocks| {
      WarningsOfReached(c, states, k + 1, w);
    }
  }

  /** For stable states, exactly the warnings about blocks that the first block leads to are reported. */
  lemma ReachableWarnings(c: Setup, n: nat, w: Propagation.Warning)
    requires c.Valid() && AfterRounds(c, n).worklist == []
    ensures |AfterRounds(c, n).states| == |c.blocks|
    ensures var states := AfterRounds(c, n).states;
            w in WarningsFrom(c, states, 0) <==> exists b :: 0 <= b < |c.blocks| && Reachable(c.blocks, b) && WarnedAt(c, states, b, w)
  {
    hide AfterRounds, WarningsFrom, WarnedAt, Reachable;
    forall b: nat | b < |c.blocks|
      ensures |AfterRounds(c, n).states| == |c.blocks| && (AfterRounds(c, n).states[b].reached <==> Reachable(c.blocks, b))
    {
      ReachedIffReachable(c, n, b);
    }
    ReachedIffReachable(c, n, 0);
    WarningsOfReached(c, AfterRounds(c, n).states, 0, w);
  }
}
