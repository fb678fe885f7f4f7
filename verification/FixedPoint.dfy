/** What holds when the worklist of the stack checker is empty. */
module FixedPoint {
  import opened Base
  import opened StackComment
  import opened SymbolicStack
  import opened Statements
  import opened Blocks
  import opened Worklist

  /** One run of the propagation. */
  datatype Setup = Setup(fork: Fork, blocks: seq<Block>, initialItems: seq<string>, inferred: bool, preGrow: nat) {
    ghost predicate Valid() {
      ValidGraph(blocks) && |blocks| > 0
    }

    function InitItems(): seq<string> {
      StripWildcard(initialItems).0
    }

    function InitWild(): bool {
      StripWildcard(initialItems).1
    }

    /** The stack after walking block b with the entry recorded for it. */
    function Exit(b: nat, bs: BlockState): StackState
      requires b < |blocks|
    {
      BlockExit(fork, blocks[b], bs.entry, bs.entryWild, inferred)
    }

    function First(): StackState
      requires |blocks| > 0
    {
      FirstExit(fork, blocks[0], initialItems, inferred, preGrow)
    }
  }

  ghost predicate Leaves(bs: BlockState, s: StackState) {
    bs.exit == ItemTexts(s) && bs.exitWild == s.wildcard
  }

  /** The exit of block b is its transfer of its entry; block 0 may still have its first exit. */
  ghost predicate Done(c: Setup, ps: Prop, b: nat)
    requires b < |c.blocks| == |ps.states|
  {
    || (Leaves(ps.states[b], c.Exit(b, ps.states[b])) && (c.inferred ==> |c.Exit(b, ps.states[b]).inferredItems| <= ps.need))
    || (b == 0 && Leaves(ps.states[0], c.First()) && ps.states[0].entry == c.InitItems() && ps.states[0].entryWild == c.InitWild())
  }

  /** Successor d has recorded exactly the exit of b. */
  ghost predicate Recorded(ps: Prop, b: nat, d: nat)
    requires b < |ps.states| && d < |ps.states|
  {
    && ps.states[d].reached
    && b in ps.states[d].predExits && ps.states[d].predExits[b] == ps.states[b].exit
    && b in ps.states[d].predWild && ps.states[d].predWild[b] == ps.states[b].exitWild
    && b in ps.states[d].predSource
  }

  ghost predicate Complete(c: Setup, ps: Prop, b: nat)
    requires c.Valid() && b < |c.blocks| == |ps.states|
  {
    assert ValidNode(c.blocks, b);
    && Done(c, ps, b)
    && forall i :: 0 <= i < |c.blocks[b].successors| ==> Recorded(ps, b, c.blocks[b].successors[i])
  }

  /** A recorded predecessor is a reached block with an edge to b, or the initial one. */
  ghost predicate ValidPred(c: Setup, ps: Prop, b: nat, k: int)
    requires b < |c.blocks| == |ps.states|
    requires k in ps.states[b].predExits
  {
    if k == INITIAL then b == 0 && ps.states[0].predExits[k] == c.InitItems()
    else 0 <= k < |c.blocks| && ps.states[k].reached && b in c.blocks[k].successors
  }

  /** What holds of every block at any time. */
  ghost predicate Merges(c: Setup, ps: Prop, b: nat)
    requires b < |c.blocks| == |ps.states| == |ps.queued|
  {
    var bs := ps.states[b];
    && bs.predExits.Keys == bs.predWild.Keys
    && (bs.reached <==> bs.predExits != map[])
    && (bs.reached ==> bs.entry == BaseNames(bs.predExits) && bs.entryWild == AnyPredWild(bs.predWild))
    && (ps.queued[b] ==> bs.reached)
    && (forall k :: k in bs.predExits ==> ValidPred(c, ps, b, k))
    && (b == 0 ==> INITIAL in bs.predExits && INITIAL in bs.predWild && bs.predWild[INITIAL] == c.InitWild())
  }

  ghost predicate QueueInv(ps: Prop) {
    && (forall i, j :: 0 <= i < j < |ps.worklist| ==> ps.worklist[i] != ps.worklist[j])
    && (forall i :: 0 <= i < |ps.worklist| ==> ps.worklist[i] < |ps.queued| && ps.queued[ps.worklist[i]])
    && (forall b :: 0 <= b < |ps.queued| && ps.queued[b] ==> b in ps.worklist)
  }

  ghost predicate Sized(c: Setup, ps: Prop) {
    |c.blocks| == |ps.states| == |ps.queued|
  }

  ghost predicate Inv(c: Setup, ps: Prop)
    requires c.Valid()
  {
    && Sized(c, ps)
    && QueueInv(ps)
    && (forall b :: 0 <= b < |c.blocks| ==> Merges(c, ps, b))
    && (forall b :: 0 <= b < |c.blocks| && ps.states[b].reached && !ps.queued[b] ==> Complete(c, ps, b))
  }

  /** The invariant while the exit of idx is being merged: the first n edges of idx are done. */
  ghost predicate Merging(c: Setup, ps: Prop, idx: nat, n: nat)
    requires c.Valid() && idx < |c.blocks|
  {
    assert ValidNode(c.blocks, idx);
    && Sized(c, ps)
    && QueueInv(ps)
    && n <= |c.blocks[idx].successors|
    && (forall b :: 0 <= b < |c.blocks| ==> Merges(c, ps, b))
    && (forall b :: 0 <= b < |c.blocks| && b != idx && ps.states[b].reached && !ps.queued[b] ==> Complete(c, ps, b))
    && ps.states[idx].reached
    && (!ps.queued[idx] ==> Done(c, ps, idx))
    && (forall i :: 0 <= i < n ==> Recorded(ps, idx, c.blocks[idx].successors[i]))
  }

  // ----- one edge -----

  /** ps' is ps after merging the exit of idx into succ. */
  ghost predicate EdgeMerged(ps: Prop, ps': Prop, idx: nat, succ: nat)
    requires succ < |ps.states| == |ps.queued| && idx < |ps.states|
  {
    && |ps'.states| == |ps.states| && |ps'.queued| == |ps.queued| && ps'.need == ps.need
    && (forall b :: 0 <= b < |ps.states| && b != succ ==> ps'.states[b] == ps.states[b] && ps'.queued[b] == ps.queued[b])
    && var bs, bs' := ps.states[succ], ps'.states[succ];
    && bs'.reached
    && bs'.predExits == bs.predExits[idx := ps.states[idx].exit]
    && bs'.predWild == bs.predWild[idx := ps.states[idx].exitWild]
    && idx in bs'.predSource
    && bs'.exit == bs.exit && bs'.exitWild == bs.exitWild
    && (forall k :: k in bs.predSource ==> k in bs'.predSource)
    && bs'.entry == BaseNames(bs'.predExits) && bs'.entryWild == AnyPredWild(bs'.predWild)
    && (!ps'.queued[succ] ==> bs.reached && !ps.queued[succ] && bs'.entry == bs.entry && bs'.entryWild == bs.entryWild)
  }

  ghost predicate QueueMerged(ps: Prop, ps': Prop, succ: nat)
    requires succ < |ps.queued|
  {
    && |ps'.queued| == |ps.queued|
    && ps'.queued == (if ps'.queued[succ] then ps.queued[succ := true] else ps.queued)
    && ps'.worklist == (if ps'.queued[succ] && !ps.queued[succ] then ps.worklist + [succ] else ps.worklist)
    && (ps.queued[succ] ==> ps'.queued[succ])
  }

  lemma MergedSame(bs: BlockState, idx: nat, items: seq<string>, wild: bool)
    requires bs.reached ==> bs.entry == BaseNames(bs.predExits) && bs.entryWild == AnyPredWild(bs.predWild)
    requires bs.reached <==> bs.predExits != map[]
    ensures var (bs', changed) := Merged(bs, idx, items, wild);
            && bs' == bs.(reached := true, predExits := bs.predExits[idx := items], predWild := bs.predWild[idx := wild],
                          entry := BaseNames(bs.predExits[idx := items]), entryWild := AnyPredWild(bs.predWild[idx := wild]))
            && (!changed ==> bs.reached && bs'.entry == bs.entry && bs'.entryWild == bs.entryWild)
  {
    hide BaseNames, AnyPredWild;
    if idx in bs.predExits && idx in bs.predWild && bs.predExits[idx] == items && bs.predWild[idx] == wild {
      assert bs.predExits[idx := items] == bs.predExits;
      assert bs.predWild[idx := wild] == bs.predWild;
    }
  }

  /** The entry of a reached state is the merge of its recorded predecessors. */
  ghost predicate MergedEntry(bs: BlockState) {
    && (bs.reached ==> bs.entry == BaseNames(bs.predExits) && bs.entryWild == AnyPredWild(bs.predWild))
    && (bs.reached <==> bs.predExits != map[])
  }

  /** The effect of merging an edge on the successor's state. */
  lemma MergedState(ps: Prop, idx: nat, succ: nat, src: Statement)
    requires idx < |ps.states| && succ < |ps.states| == |ps.queued|
    requires MergedEntry(ps.states[succ])
    ensures var ps' := MergeEdge(ps, idx, succ, ps.states[idx].exit, ps.states[idx].exitWild, src);
            EdgeMerged(ps, ps', idx, succ)
  {
    MergedSame(ps.states[succ], idx, ps.states[idx].exit, ps.states[idx].exitWild);
    hide BaseNames, AnyPredWild, Merged, MergedEntry;
    var (bs', changed) := Merged(ps.states[succ], idx, ps.states[idx].exit, ps.states[idx].exitWild);
    var ps' := MergeEdge(ps, idx, succ, ps.states[idx].exit, ps.states[idx].exitWild, src);
    assert ps'.states == ps.states[succ := bs'.(predSource := bs'.predSource[idx := src])] && ps'.need == ps.need;
    assert ps'.queued == if changed then ps.queued[succ := true] else ps.queued;
    hide MergeEdge;
  }

  lemma MergedQueue(ps: Prop, idx: nat, succ: nat, exit: seq<string>, wild: bool, src: Statement)
    requires idx < |ps.states| && succ < |ps.states| == |ps.queued|
    ensures QueueMerged(ps, MergeEdge(ps, idx, succ, exit, wild, src), succ)
  {
    hide Merged;
    assert ps.queued[succ := ps.queued[succ]] == ps.queued;
  }

  lemma QueueMerge(ps: Prop, ps': Prop, succ: nat)
    requires QueueInv(ps) && succ < |ps.queued| && QueueMerged(ps, ps', succ)
    ensures QueueInv(ps')
  {
  }

  lemma EdgeStep(c: Setup, ps: Prop, idx: nat, n: nat, src: Statement)
    requires c.Valid() && idx < |c.blocks| && Merging(c, ps, idx, n)
    requires n < |c.blocks[idx].successors|
    ensures ValidNode(c.blocks, idx)
    ensures var ps' := MergeEdge(ps, idx, c.blocks[idx].successors[n], ps.states[idx].exit, ps.states[idx].exitWild, src);
            && Merging(c, ps', idx, n + 1)
            && ps'.states[idx].exit == ps.states[idx].exit && ps'.states[idx].exitWild == ps.states[idx].exitWild
  {
    assert ValidNode(c.blocks, idx);
    var succ := c.blocks[idx].successors[n];
    var ps' := MergeEdge(ps, idx, succ, ps.states[idx].exit, ps.states[idx].exitWild, src);
    assert Merges(c, ps, succ);
    MergedState(ps, idx, succ, src);
    MergedQueue(ps, idx, succ, ps.states[idx].exit, ps.states[idx].exitWild, src);
    QueueMerge(ps, ps', succ);
    EdgeFrame(ps, ps', idx, succ);
    hide Recorded, EdgeMerged, MergeEdge, BaseNames, AnyPredWild, QueueInv, ValidGraph, QueueMerged, Merges, Complete, Done;
    EdgeBlocks(c, ps, ps', idx, succ);
    if !ps'.queued[idx] {
      assert !ps.queued[idx];
      EdgeKeepsDone(c, ps, ps', idx, succ, idx);
    }
    forall i | 0 <= i < n + 1
      ensures Recorded(ps', idx, c.blocks[idx].successors[i])
    {
      if i < n {
        assert Recorded(ps, idx, c.blocks[idx].successors[i]);
      }
      EdgeRecorded(ps, ps', idx, succ, c.blocks[idx].successors[i]);
    }
  }

  lemma EdgeBlocks(c: Setup, ps: Prop, ps': Prop, idx: nat, succ: nat)
    requires c.Valid() && Sized(c, ps) && idx < |c.blocks| && succ < |c.blocks|
    requires EdgeMerged(ps, ps', idx, succ)
    requires ps.states[idx].reached && succ in c.blocks[idx].successors
    requires forall b :: 0 <= b < |c.blocks| ==> Merges(c, ps, b)
    requires forall b :: 0 <= b < |c.blocks| && b != idx && ps.states[b].reached && !ps.queued[b] ==> Complete(c, ps, b)
    ensures Sized(c, ps')
    ensures forall b :: 0 <= b < |c.blocks| ==> Merges(c, ps', b)
    ensures forall b :: 0 <= b < |c.blocks| && b != idx && ps'.states[b].reached && !ps'.queued[b] ==> Complete(c, ps', b)
  {
    EdgeFrame(ps, ps', idx, succ);
    hide EdgeMerged, Merges, Complete;
    forall b | 0 <= b < |c.blocks|
      ensures Merges(c, ps', b)
    {
      EdgeMerges(c, ps, ps', idx, succ, b);
    }
    forall b | 0 <= b < |c.blocks| && b != idx && ps'.states[b].reached && !ps'.queued[b]
      ensures Complete(c, ps', b)
    {
      EdgeComplete(c, ps, ps', idx, succ, b);
    }
  }

  /** Merging an edge changes neither sizes nor exits, and takes no block off the queue. */
  lemma EdgeFrame(ps: Prop, ps': Prop, idx: nat, succ: nat)
    requires idx < |ps.states| && succ < |ps.states| == |ps.queued|
    requires EdgeMerged(ps, ps', idx, succ)
    ensures |ps'.states| == |ps.states| && |ps'.queued| == |ps.queued|
    ensures forall b :: 0 <= b < |ps.states| ==> ps'.states[b].exit == ps.states[b].exit && ps'.states[b].exitWild == ps.states[b].exitWild
    ensures forall b :: 0 <= b < |ps.states| && ps.states[b].reached ==> ps'.states[b].reached
    ensures forall b :: 0 <= b < |ps.states| && !ps'.queued[b] ==> !ps.queued[b] && (ps'.states[b].reached ==> ps.states[b].reached)
  {
  }

  lemma EdgeRecorded(ps: Prop, ps': Prop, idx: nat, succ: nat, d: nat)
    requires idx < |ps.states| && succ < |ps.states| == |ps.queued| && d < |ps.states|
    requires EdgeMerged(ps, ps', idx, succ)
    requires d == succ || Recorded(ps, idx, d)
    ensures Recorded(ps', idx, d)
  {
    hide BaseNames, AnyPredWild;
  }

  lemma EdgeMerges(c: Setup, ps: Prop, ps': Prop, idx: nat, succ: nat, b: nat)
    requires c.Valid() && Sized(c, ps) && idx < |c.blocks| && succ < |c.blocks| && b < |c.blocks|
    requires EdgeMerged(ps, ps', idx, succ)
    requires ps.states[idx].reached && succ in c.blocks[idx].successors
    requires Merges(c, ps, b)
    ensures Merges(c, ps', b)
  {
    hide BaseNames, AnyPredWild;
    var bs' := ps'.states[b];
    forall k | k in bs'.predExits
      ensures ValidPred(c, ps', b, k)
    {
      if b != succ || k != idx {
        assert ValidPred(c, ps, b, k);
      }
    }
    if b == succ {
      assert idx in bs'.predExits;
    }
  }

  lemma EdgeDone(c: Setup, ps: Prop, ps': Prop, succ: nat, b: nat)
    requires c.Valid() && Sized(c, ps) && Sized(c, ps') && succ < |c.blocks| && b < |c.blocks|
    requires ps'.need == ps.need
    requires forall d :: 0 <= d < |ps.states| && d != succ ==> ps'.states[d] == ps.states[d]
    requires var bs, bs' := ps.states[succ], ps'.states[succ]; bs'.exit == bs.exit && bs'.exitWild == bs.exitWild
    requires b == succ ==> ps'.states[b].entry == ps.states[b].entry && ps'.states[b].entryWild == ps.states[b].entryWild
    requires Done(c, ps, b)
    ensures Done(c, ps', b)
  {
    hide BlockExit, FirstExit;
  }

  lemma EdgeKeepsDone(c: Setup, ps: Prop, ps': Prop, idx: nat, succ: nat, b: nat)
    requires c.Valid() && Sized(c, ps) && idx < |c.blocks| && succ < |c.blocks| && b < |c.blocks|
    requires EdgeMerged(ps, ps', idx, succ)
    requires !ps'.queued[b] && Done(c, ps, b)
    ensures Sized(c, ps') && Done(c, ps', b)
  {
    hide Done, BaseNames, AnyPredWild;
    EdgeDone(c, ps, ps', succ, b);
  }

  lemma EdgeComplete(c: Setup, ps: Prop, ps': Prop, idx: nat, succ: nat, b: nat)
    requires c.Valid() && Sized(c, ps) && idx < |c.blocks| && succ < |c.blocks| && b < |c.blocks| && b != idx
    requires EdgeMerged(ps, ps', idx, succ)
    requires !ps'.queued[b]
    requires Complete(c, ps, b)
    ensures Complete(c, ps', b)
  {
    EdgeDone(c, ps, ps', succ, b);
    hide Done, BaseNames, AnyPredWild;
    assert ValidNode(c.blocks, b);
    forall i | 0 <= i < |c.blocks[b].successors|
      ensures Recorded(ps', b, c.blocks[b].successors[i])
    {
      assert Recorded(ps, b, c.blocks[b].successors[i]);
    }
  }

  // ----- all edges of a block -----

  lemma {:induction false} EdgesStep(c: Setup, ps: Prop, idx: nat, n: nat, src: Statement)
    requires c.Valid() && idx < |c.blocks| && Merging(c, ps, idx, n)
    ensures ValidNode(c.blocks, idx) && n <= |c.blocks[idx].successors|
    ensures var succs := c.blocks[idx].successors[n..];
            Merging(c, MergeEdges(ps, idx, succs, ps.states[idx].exit, ps.states[idx].exitWild, src), idx, |c.blocks[idx].successors|)
    decreases |c.blocks[idx].successors| - n
  {
    assert ValidNode(c.blocks, idx);
    hide MergeEdge;
    MergingBound(c, ps, idx, n);
    var all := c.blocks[idx].successors;
    if n < |all| {
      EdgeStep(c, ps, idx, n, src);
      hide Merging;
      var ps' := MergeEdge(ps, idx, all[n], ps.states[idx].exit, ps.states[idx].exitWild, src);
      EdgesStep(c, ps', idx, n + 1, src);
      assert all[n..][0] == all[n] && all[n..][1..] == all[n + 1..];
    }
  }

  lemma MergingBound(c: Setup, ps: Prop, idx: nat, n: nat)
    requires c.Valid() && idx < |c.blocks| && Merging(c, ps, idx, n)
    ensures n <= |c.blocks[idx].successors| && Sized(c, ps)
  {
  }

  lemma PropagatedInv(c: Setup, ps: Prop, idx: nat)
    requires c.Valid() && idx < |c.blocks| && Merging(c, ps, idx, 0)
    ensures |c.blocks| == |ps.states| == |ps.queued|
    ensures Inv(c, Propagated(c.blocks, ps, idx))
  {
    assert ValidNode(c.blocks, idx);
    MergingBound(c, ps, idx, 0);
    EdgesStep(c, ps, idx, 0, Last(c.blocks[idx]));
    assert c.blocks[idx].successors[0..] == c.blocks[idx].successors;
    hide MergeEdges, Merges, QueueInv, Done;
  }

  // ----- one round -----

  lemma PoppedQueue(ps: Prop)
    requires QueueInv(ps) && ps.worklist != []
    ensures Next(ps) < |ps.queued| && QueueInv(Popped(ps))
  {
    var idx := Next(ps);
    assert ps.worklist[|ps.worklist| - 1] == idx;
    var q := Popped(ps);
    forall b | 0 <= b < |q.queued| && q.queued[b]
      ensures b in q.worklist
    {
      assert b in ps.worklist;
    }
  }

  /** The state after the popped block has been walked, before its exit is merged. */
  ghost function WalkedProp(c: Setup, ps: Prop): Prop
    requires ps.worklist != [] && Next(ps) < |c.blocks| && Sized(c, ps)
  {
    var idx := Next(ps);
    var s := c.Exit(idx, ps.states[idx]);
    WithExit(Popped(ps).(need := if c.inferred then Max(ps.need, |s.inferredItems|) else ps.need), idx, s)
  }

  lemma WalkedMerging(c: Setup, ps: Prop)
    requires c.Valid() && Inv(c, ps) && ps.worklist != []
    ensures Next(ps) < |c.blocks| && Merging(c, WalkedProp(c, ps), Next(ps), 0)
  {
    hide Recorded, ValidPred;
    PoppedQueue(ps);
    var idx := Next(ps);
    assert ps.queued[idx] by { assert ps.worklist[|ps.worklist| - 1] == idx; }
    var w := WalkedProp(c, ps);
    hide BaseNames, AnyPredWild, BlockExit, FirstExit, QueueInv, ItemTexts, ValidGraph;
    assert Popped(ps).worklist == w.worklist && Popped(ps).queued == w.queued;
    assert QueueInv(w) by { QueueSame(Popped(ps), w); }
    forall b | 0 <= b < |c.blocks|
      ensures Merges(c, w, b)
    {
      WalkedMerges(c, ps, w, idx, b);
    }
    forall b | 0 <= b < |c.blocks| && b != idx && w.states[b].reached && !w.queued[b]
      ensures Complete(c, w, b)
    {
      assert Complete(c, ps, b);
      WalkedComplete(c, ps, w, idx, b);
    }
    assert Merges(c, ps, idx);
    assert Leaves(w.states[idx], c.Exit(idx, w.states[idx]));
  }

  lemma QueueSame(ps: Prop, ps': Prop)
    requires QueueInv(ps) && ps'.worklist == ps.worklist && ps'.queued == ps.queued
    ensures QueueInv(ps')
  {
  }

  lemma WalkedMerges(c: Setup, ps: Prop, w: Prop, idx: nat, b: nat)
    requires Sized(c, ps) && Sized(c, w) && b < |c.blocks| && idx < |c.blocks|
    requires forall d :: 0 <= d < |c.blocks| ==>
               w.states[d] == ps.states[d].(exit := w.states[d].exit, exitWild := w.states[d].exitWild)
    requires w.queued[b] ==> ps.queued[b]
    requires Merges(c, ps, b)
    ensures Merges(c, w, b)
  {
    hide BaseNames, AnyPredWild;
    forall k | k in w.states[b].predExits
      ensures ValidPred(c, w, b, k)
    {
      assert ValidPred(c, ps, b, k);
    }
  }

  lemma WalkedComplete(c: Setup, ps: Prop, w: Prop, idx: nat, b: nat)
    requires c.Valid() && Sized(c, ps) && Sized(c, w) && b < |c.blocks| && idx < |c.blocks| && b != idx
    requires ps.need <= w.need
    requires forall d :: 0 <= d < |c.blocks| && d != idx ==> w.states[d] == ps.states[d]
    requires w.states[idx] == ps.states[idx].(exit := w.states[idx].exit, exitWild := w.states[idx].exitWild)
    requires Complete(c, ps, b)
    ensures Complete(c, w, b)
  {
    hide BlockExit, FirstExit;
    assert ValidNode(c.blocks, b);
    forall i | 0 <= i < |c.blocks[b].successors|
      ensures Recorded(w, b, c.blocks[b].successors[i])
    {
      assert Recorded(ps, b, c.blocks[b].successors[i]);
    }
  }

  lemma StepInv(c: Setup, ps: Prop)
    requires c.Valid() && Inv(c, ps) && ps.worklist != []
    ensures ValidProp(c.blocks, ps)
    ensures Inv(c, Step(c.fork, c.blocks, c.inferred, ps))
  {
    WalkedMerging(c, ps);
    PropagatedInv(c, WalkedProp(c, ps), Next(ps));
    hide Propagated, Merges, Complete;
  }

  lemma InvProp(c: Setup, ps: Prop)
    requires c.Valid() && Inv(c, ps)
    ensures ValidProp(c.blocks, ps)
  {
    hide Merges, Complete;
  }

  lemma FirstMerging(c: Setup)
    requires c.Valid()
    ensures var first := BlockState(true, c.InitItems(), ItemTexts(c.First()), map[INITIAL := c.InitItems()],
                                    map[INITIAL := c.InitWild()], map[], c.InitWild(), c.First().wildcard);
            Merging(c, Prop(OnlyFirst(|c.blocks|, first), [], NoneQueued(|c.blocks|), 0), 0, 0)
  {
    hide FirstExit, BlockExit, ItemTexts, ValidGraph;
    var first := BlockState(true, c.InitItems(), ItemTexts(c.First()), map[INITIAL := c.InitItems()],
                            map[INITIAL := c.InitWild()], map[], c.InitWild(), c.First().wildcard);
    var ps := Prop(OnlyFirst(|c.blocks|, first), [], NoneQueued(|c.blocks|), 0);
    assert IsBase(first.predExits, INITIAL);
    BaseNamesIs(first.predExits, INITIAL);
    assert AnyPredWild(first.predWild) == c.InitWild() by {
      assert first.predWild[INITIAL] == c.InitWild();
    }
    assert Leaves(ps.states[0], c.First());
    assert Merges(c, ps, 0);
  }

  lemma StartInv(c: Setup)
    requires c.Valid()
    ensures Inv(c, Start(c.fork, c.blocks, c.initialItems, c.inferred, c.preGrow))
  {
    FirstMerging(c);
    var first := BlockState(true, c.InitItems(), ItemTexts(c.First()), map[INITIAL := c.InitItems()],
                            map[INITIAL := c.InitWild()], map[], c.InitWild(), c.First().wildcard);
    hide FirstExit, Propagated, Merging, Inv, ItemTexts;
    PropagatedInv(c, Prop(OnlyFirst(|c.blocks|, first), [], NoneQueued(|c.blocks|), 0), 0);
  }

  lemma {:induction false} RunInv(c: Setup, ps: Prop, n: nat)
    requires c.Valid() && Inv(c, ps)
    ensures ValidProp(c.blocks, ps)
    ensures Inv(c, Run(c.fork, c.blocks, c.inferred, ps, n))
    decreases n
  {
    hide Inv, Step, ValidProp, ValidGraph;
    InvProp(c, ps);
    if n > 0 && ps.worklist != [] {
      StepInv(c, ps);
      RunInv(c, Step(c.fork, c.blocks, c.inferred, ps), n - 1);
    }
  }

  /** The result of n rounds from the start. */
  ghost function AfterRounds(c: Setup, n: nat): Prop
    requires c.Valid()
  {
    StartValid(c.fork, c.blocks, c.initialItems, c.inferred, c.preGrow);
    Run(c.fork, c.blocks, c.inferred, Start(c.fork, c.blocks, c.initialItems, c.inferred, c.preGrow), n)
  }

  lemma ResultInv(c: Setup, n: nat)
    requires c.Valid()
    ensures Inv(c, AfterRounds(c, n))
  {
    StartInv(c);
    StartValid(c.fork, c.blocks, c.initialItems, c.inferred, c.preGrow);
    hide Inv, Start, Run;
    RunInv(c, Start(c.fork, c.blocks, c.initialItems, c.inferred, c.preGrow), n);
  }

  // ----- the fixed point -----

  /** In closed mode, the first walk of block 0 is its transfer of the initial entry. */
  lemma FirstIsTransfer(c: Setup)
    requires c.Valid() && !c.inferred
    ensures c.First() == BlockExit(c.fork, c.blocks[0], c.InitItems(), c.InitWild(), false)
  {
    hide Walked, LabelApplied, Inited;
    var names := if c.InitWild() then c.InitItems() + [WILDCARD] else c.InitItems();
    assert names == c.initialItems;
    NewStackValid(c.initialItems, None);
    assert InitialStack(c.initialItems, false, c.preGrow) == EntryStack(c.InitItems(), c.InitWild(), false);
  }

  /** Which predecessors a block can have on record. */
  ghost predicate BlockPreds(c: Setup, states: seq<BlockState>, b: nat)
    requires b < |states| == |c.blocks|
  {
    && (states[b].reached <==> states[b].predExits != map[])
    && states[b].predExits.Keys == states[b].predWild.Keys
    && (b == 0 ==> INITIAL in states[b].predExits && INITIAL in states[b].predWild && states[b].predWild[INITIAL] == c.InitWild())
    && forall k :: k in states[b].predExits ==>
         if k == INITIAL then b == 0 && states[b].predExits[k] == c.InitItems()
         else 0 <= k < |c.blocks| && states[k].reached && b in c.blocks[k].successors
  }

  /** The equations that the block states satisfy at a fixed point of the dataflow problem. */
  ghost predicate IsFixedPoint(c: Setup, states: seq<BlockState>)
    requires c.Valid() && |states| == |c.blocks|
  {
    && states[0].reached
    && (forall b :: 0 <= b < |c.blocks| && states[b].reached ==> BlockEquations(c, states, b))
    && (forall b :: 0 <= b < |c.blocks| ==> BlockPreds(c, states, b))
  }

  lemma DrainedComplete(c: Setup, n: nat, b: nat)
    requires c.Valid() && b < |c.blocks|
    requires AfterRounds(c, n).worklist == []
    ensures Sized(c, AfterRounds(c, n)) && Merges(c, AfterRounds(c, n), b)
    ensures AfterRounds(c, n).states[b].reached ==> Complete(c, AfterRounds(c, n), b)
  {
    ResultInv(c, n);
    hide AfterRounds, Merges, Complete, ValidGraph;
    assert !AfterRounds(c, n).queued[b];
  }

  lemma CompleteRecorded(c: Setup, ps: Prop, b: nat, d: nat)
    requires c.Valid() && b < |c.blocks| == |ps.states| && Complete(c, ps, b) && d in c.blocks[b].successors
    ensures d < |ps.states| && Recorded(ps, b, d)
  {
    hide Done;
    assert ValidNode(c.blocks, b);
    var i :| 0 <= i < |c.blocks[b].successors| && c.blocks[b].successors[i] == d;
  }

  lemma CompleteTransfer(c: Setup, ps: Prop, b: nat)
    requires c.Valid() && !c.inferred && b < |c.blocks| == |ps.states| && Complete(c, ps, b)
    ensures Leaves(ps.states[b], BlockExit(c.fork, c.blocks[b], ps.states[b].entry, ps.states[b].entryWild, false))
  {
    FirstIsTransfer(c);
    hide BlockExit, FirstExit;
  }

  /** The equation of one reached block. */
  ghost predicate BlockEquations(c: Setup, states: seq<BlockState>, b: nat)
    requires b < |states| == |c.blocks|
  {
    && Leaves(states[b], BlockExit(c.fork, c.blocks[b], states[b].entry, states[b].entryWild, false))
    && states[b].entry == BaseNames(states[b].predExits)
    && states[b].entryWild == AnyPredWild(states[b].predWild)
    && forall d :: d in c.blocks[b].successors ==>
         && d < |states| && states[d].reached
         && b in states[d].predExits && states[d].predExits[b] == states[b].exit
         && b in states[d].predWild && states[d].predWild[b] == states[b].exitWild
         && b in states[d].predSource
  }

  /**
   * Whenever the worklist empties in closed mode, every reached block's exit is its transfer of its
   * entry, every successor records exactly that exit under that predecessor key, and every entry is
   * the minimum-depth merge of its recorded predecessors.
   */
  lemma DrainedIsFixedPoint(c: Setup, n: nat)
    requires c.Valid() && !c.inferred
    requires AfterRounds(c, n).worklist == []
    ensures |AfterRounds(c, n).states| == |c.blocks|
    ensures IsFixedPoint(c, AfterRounds(c, n).states)
  {
    var ps := AfterRounds(c, n);
    hide AfterRounds, BaseNames, AnyPredWild, BlockExit, FirstExit, Complete, ValidGraph;
    DrainedComplete(c, n, 0);
    forall b | 0 <= b < |c.blocks| && ps.states[b].reached
      ensures BlockEquations(c, ps.states, b)
    {
      DrainedComplete(c, n, b);
      CompleteTransfer(c, ps, b);
      forall d | d in c.blocks[b].successors
        ensures d < |ps.states| && Recorded(ps, b, d)
      {
        CompleteRecorded(c, ps, b, d);
      }
    }
    hide BlockEquations;
    forall b | 0 <= b < |c.blocks|
      ensures BlockPreds(c, ps.states, b)
    {
      DrainedComplete(c, n, b);
      forall k | k in ps.states[b].predExits
        ensures ValidPred(c, ps, b, k)
      {
      }
    }
  }
}
