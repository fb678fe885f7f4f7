/** A class of documents whose back edges do not all lead to dominators, and exactly when their worklists empty. */
module LateEntry {
  import opened Base
  import opened StackComment
  import opened SymbolicStack
  import opened InstructionSets
  import opened Statements
  import opened Blocks
  import opened Worklist
  import opened FixedPoint
  import opened StackDepth
  import opened PlainRuns
  import opened Termination

  /** Three blocks, in the middle a loop that control enters from the last one. Depths agree on all edges. */
  ghost predicate EntersFromBelow(c: Setup, depth: seq<nat>) {
    && PlainSetup(c) && !c.inferred && |c.blocks| == 3
    && c.blocks[0].successors == [2] && c.blocks[1].successors == [1] && c.blocks[2].successors == [1]
    && Balanced(c, {0, 1, 2}, depth)
  }

  /** The names at the end of a block that starts with the given names. */
  function Transfer(c: Setup, b: nat, names: seq<string>): seq<string>
    requires b < |c.blocks|
  {
    ItemTexts(BlockExit(c.fork, c.blocks[b], names, false, false))
  }

  /** The names at the start of the loop after k times around. */
  function LoopNames(c: Setup, k: nat): seq<string>
    requires |c.blocks| == 3
  {
    if k == 0 then Transfer(c, 2, ItemTexts(c.First())) else Transfer(c, 1, LoopNames(c, k - 1))
  }

  lemma LateShape(c: Setup, depth: seq<nat>)
    requires EntersFromBelow(c, depth)
    ensures PlainSetup(c) && c.Valid() && !c.inferred && |c.blocks| == |depth| == 3
    ensures c.blocks[0].successors == [2] && c.blocks[1].successors == [1] && c.blocks[2].successors == [1]
    ensures forall b :: 0 <= b < 3 ==> BalancedBlock(c, {0, 1, 2}, depth, b)
  {
    hide BalancedBlock, ValidGraph, PlainBlock, Dotless;
    assert 0 in {0, 1, 2} && 1 in {0, 1, 2} && 2 in {0, 1, 2};
  }

  lemma SuccessorDepth(c: Setup, depth: seq<nat>, b: nat, d: nat)
    requires |depth| == |c.blocks| && b < |c.blocks| && BalancedBlock(c, {0, 1, 2}, depth, b)
    requires c.blocks[b].successors == [d]
    ensures d < |depth| && depth[d] == DepthAfter(c.fork, c.blocks[b].statements, depth[b])
  {
    hide DepthAfter, Suffices, ParsedComments;
    assert d in c.blocks[b].successors;
  }

  /** A list of names as the entry of a block. */
  ghost predicate EntryNames(names: seq<string>, d: nat) {
    Dotless(names) && |names| == d
  }

  lemma TransferNames(c: Setup, depth: seq<nat>, b: nat, d: nat, names: seq<string>)
    requires EntersFromBelow(c, depth) && b < |c.blocks| && b < |depth| && d < |depth|
    requires c.blocks[b].successors == [d] && EntryNames(names, depth[b])
    ensures !BlockExit(c.fork, c.blocks[b], names, false, false).wildcard
    ensures EntryNames(Transfer(c, b, names), depth[d])
  {
    LateShape(c, depth);
    SuccessorDepth(c, depth, b, d);
    var bs := UNREACHED.(entry := names);
    EmptyDotless();
    hide Dotless, BlockExit, ItemTexts, PlainSetup, BalancedBlock, DepthAfter, EntersFromBelow;
    assert PlainState(bs);
    BlockExitPlain(c, b, bs);
    BalancedExit(c, {0, 1, 2}, depth, b, bs);
    assert c.Exit(b, bs) == BlockExit(c.fork, c.blocks[b], names, false, false);
  }

  lemma FirstNames(c: Setup, depth: seq<nat>)
    requires EntersFromBelow(c, depth)
    ensures |c.blocks| == |depth| == 3
    ensures !c.First().wildcard && EntryNames(ItemTexts(c.First()), depth[2])
  {
    LateShape(c, depth);
    hide PlainSetup, BalancedBlock, FirstExit, Dotless, ItemTexts;
    FirstExitPlain(c);
    FirstStateEdges(c, {0, 1, 2}, depth);
    assert SteadyEdge(c, {0, 1, 2}, depth, FirstProp(c), 0, c.blocks[0].successors[0]);
  }

  lemma EntryOnce(c: Setup, depth: seq<nat>)
    requires EntersFromBelow(c, depth)
    ensures |c.blocks| == |depth| == 3 && EntryNames(Transfer(c, 2, ItemTexts(c.First())), depth[1])
  {
    LateShape(c, depth);
    FirstNames(c, depth);
    hide *;
    TransferNames(c, depth, 2, 1, ItemTexts(c.First()));
  }

  lemma EntryAgain(c: Setup, depth: seq<nat>, names: seq<string>)
    requires EntersFromBelow(c, depth) && |depth| == |c.blocks| == 3 && EntryNames(names, depth[1])
    ensures EntryNames(Transfer(c, 1, names), depth[1])
  {
    LateShape(c, depth);
    hide *;
    TransferNames(c, depth, 1, 1, names);
  }

  lemma EntryStep(c: Setup, depth: seq<nat>, k: nat)
    requires EntersFromBelow(c, depth) && |depth| == |c.blocks| == 3 && EntryNames(LoopNames(c, k), depth[1])
    ensures EntryNames(LoopNames(c, k + 1), depth[1])
  {
    hide EntersFromBelow, EntryNames, Transfer;
    EntryAgain(c, depth, LoopNames(c, k));
  }

  lemma EntryBase(c: Setup, depth: seq<nat>)
    requires EntersFromBelow(c, depth)
    ensures |c.blocks| == |depth| == 3 && EntryNames(LoopNames(c, 0), depth[1])
  {
    EntryOnce(c, depth);
    hide EntersFromBelow, EntryNames, Transfer;
  }

  lemma {:induction false} LoopEntry(c: Setup, depth: seq<nat>, k: nat)
    requires EntersFromBelow(c, depth)
    ensures |c.blocks| == |depth| == 3 && EntryNames(LoopNames(c, k), depth[1])
    decreases k
  {
    hide *;
    if k == 0 {
      EntryBase(c, depth);
    } else {
      LoopEntry(c, depth, k - 1);
      EntryStep(c, depth, k - 1);
    }
  }

  // ----- merging into the loop -----

  /** The loop starts with the given names, which come from the last block, or from the loop itself. */
  ghost predicate LoopHead(bs: BlockState, names: seq<string>, again: bool) {
    && bs.reached && bs.entry == names && !bs.entryWild
    && bs.predExits.Keys == bs.predWild.Keys == (if again then {1, 2} else {2})
    && (forall k :: k in bs.predExits ==> |bs.predExits[k]| == |names|)
    && (again ==> bs.predExits[1] == names) && (!again ==> bs.predExits[2] == names)
    && (forall k :: k in bs.predWild ==> !bs.predWild[k])
  }

  /** The entry changes if and only if the names at the end of the loop are not those at its start. */
  lemma HeadMerges(bs: BlockState, names: seq<string>, next: seq<string>, again: bool)
    requires LoopHead(bs, names, again) && |next| == |names|
    ensures var (r, changed) := Merged(bs, 1, next, false); (changed <==> next != names) && LoopHead(r, next, true)
  {
    var preds := bs.predExits[1 := next];
    assert preds.Keys == {1, 2};
    assert !AnyPredWild(bs.predWild[1 := false]);
    assert IsBase(preds, 1);
    BaseNamesIs(preds, 1);
    hide BaseNames, AnyPredWild;
  }

  lemma FreshHead(names: seq<string>, idx: nat)
    ensures var (r, changed) := Merged(UNREACHED, idx, names, false);
            && changed && r.reached && r.entry == names && !r.entryWild
            && r.predExits == map[idx := names] && r.predWild == map[idx := false]
  {
    assert map[][idx := names] == map[idx := names];
    assert IsBase(map[idx := names], idx);
    BaseNamesIs(map[idx := names], idx);
    assert !AnyPredWild(map[idx := false]);
  }

  // ----- the rounds -----

  /** Only block b is queued. */
  ghost predicate OneQueued(ps: Prop, b: nat) {
    && |ps.states| == |ps.queued| == 3 && b < 3
    && ps.worklist == [b] && forall i :: 0 <= i < 3 ==> (ps.queued[i] <==> i == b)
  }

  ghost predicate NoneLeft(ps: Prop) {
    && |ps.states| == |ps.queued| == 3
    && ps.worklist == [] && forall i :: 0 <= i < 3 ==> !ps.queued[i]
  }

  /** One round for a block with a single successor. */
  lemma StepOneEdge(c: Setup, ps: Prop, d: nat)
    requires c.Valid() && |c.blocks| == 3 && ps.worklist != [] && OneQueued(ps, Next(ps))
    requires c.blocks[Next(ps)].successors == [d]
    ensures d < |c.blocks| && ValidNode(c.blocks, Next(ps)) && ValidProp(c.blocks, ps)
    ensures var w, idx := WalkedProp(c, ps), Next(ps);
            Step(c.fork, c.blocks, c.inferred, ps)
            == MergeEdge(w, idx, d, w.states[idx].exit, w.states[idx].exitWild, Last(c.blocks[idx]))
  {
    StepIsMerges(c, ps);
    hide WalkedProp, Step, MergeEdge, ValidGraph;
    var one: seq<nat> := [d];
    assert one[1..] == [] && d == c.blocks[Next(ps)].successors[0];
  }

  /** Taking the only block off the worklist. */
  lemma WalkOne(c: Setup, ps: Prop, b: nat)
    requires c.Valid() && !c.inferred && |c.blocks| == 3 && OneQueued(ps, b) && !ps.states[b].entryWild
    requires !BlockExit(c.fork, c.blocks[b], ps.states[b].entry, false, false).wildcard
    ensures Next(ps) == b && Sized(c, ps)
    ensures var w := WalkedProp(c, ps);
            && NoneLeft(w) && w.states[b].exit == Transfer(c, b, ps.states[b].entry) && !w.states[b].exitWild
            && w.states[b] == ps.states[b].(exit := w.states[b].exit, exitWild := false)
            && forall i :: 0 <= i < 3 && i != b ==> w.states[i] == ps.states[i]
  {
    hide BlockExit, ItemTexts, ValidGraph;
  }

  lemma RoundAfter(c: Setup, n: nat)
    requires c.Valid() && AfterRounds(c, n).worklist != []
    ensures ValidProp(c.blocks, AfterRounds(c, n))
    ensures AfterRounds(c, n + 1) == Step(c.fork, c.blocks, c.inferred, AfterRounds(c, n))
  {
    hide Start, Step, ValidGraph, Run;
    StartValid(c.fork, c.blocks, c.initialItems, c.inferred, c.preGrow);
    RunSnoc(c.fork, c.blocks, c.inferred, Start(c.fork, c.blocks, c.initialItems, c.inferred, c.preGrow), n);
  }

  /** Only the loop is queued, after k times around. */
  ghost predicate Looping(c: Setup, ps: Prop, k: nat)
    requires |c.blocks| == 3
  {
    OneQueued(ps, 1) && LoopHead(ps.states[1], LoopNames(c, k), k > 0)
  }

  lemma MergeIntoHead(w: Prop, names: seq<string>, next: seq<string>, again: bool, src: Statement)
    requires NoneLeft(w) && LoopHead(w.states[1], names, again) && |next| == |names|
    ensures var r := MergeEdge(w, 1, 1, next, false, src);
            if next == names then r.worklist == [] else OneQueued(r, 1) && LoopHead(r.states[1], next, true)
  {
    HeadMerges(w.states[1], names, next, again);
    hide Merged;
  }

  /** A round of the loop: the worklist is empty, or the loop is queued with the names it ends with. */
  lemma LoopRound(c: Setup, depth: seq<nat>, ps: Prop, k: nat)
    requires EntersFromBelow(c, depth) && |c.blocks| == 3 && Looping(c, ps, k)
    ensures c.Valid() && ValidProp(c.blocks, ps) && ps.worklist != []
    ensures var r := Step(c.fork, c.blocks, c.inferred, ps);
            if LoopNames(c, k + 1) == LoopNames(c, k) then r.worklist == [] else Looping(c, r, k + 1)
  {
    LateShape(c, depth);
    LoopEntry(c, depth, k);
    LoopEntry(c, depth, k + 1);
    assert |LoopNames(c, k + 1)| == |LoopNames(c, k)|;
    assert LoopNames(c, k + 1) == Transfer(c, 1, LoopNames(c, k));
    TransferNames(c, depth, 1, 1, LoopNames(c, k));
    LoopWalk(c, ps, LoopNames(c, k), k > 0);
  }

  lemma LoopWalk(c: Setup, ps: Prop, names: seq<string>, again: bool)
    requires c.Valid() && !c.inferred && |c.blocks| == 3 && c.blocks[1].successors == [1]
    requires OneQueued(ps, 1) && LoopHead(ps.states[1], names, again)
    requires !BlockExit(c.fork, c.blocks[1], names, false, false).wildcard && |Transfer(c, 1, names)| == |names|
    ensures ValidProp(c.blocks, ps) && ps.worklist != []
    ensures var r, next := Step(c.fork, c.blocks, c.inferred, ps), Transfer(c, 1, names);
            if next == names then r.worklist == [] else OneQueued(r, 1) && LoopHead(r.states[1], next, true)
  {
    assert ps.states[1].entry == names && !ps.states[1].entryWild;
    hide BlockExit, ItemTexts, ValidGraph, Step, Transfer;
    WalkOne(c, ps, 1);
    StepOneEdge(c, ps, 1);
    var w := WalkedProp(c, ps);
    assert LoopHead(w.states[1], names, again);
    hide WalkedProp, LoopHead, MergeEdge;
    MergeIntoHead(w, names, Transfer(c, 1, names), again, Last(c.blocks[1]));
  }

  /** At first only the last block is queued. */
  lemma FirstRound(c: Setup, depth: seq<nat>)
    requires EntersFromBelow(c, depth)
    ensures c.Valid() && |c.blocks| == 3
    ensures var ps := AfterRounds(c, 0);
            && OneQueued(ps, 2) && ps.states[1] == UNREACHED
            && ps.states[2].entry == ItemTexts(c.First()) && !ps.states[2].entryWild
  {
    LateShape(c, depth);
    FirstNames(c, depth);
    StartIsMerges(c);
    StartValid(c.fork, c.blocks, c.initialItems, c.inferred, c.preGrow);
    hide FirstExit, ItemTexts, PlainSetup, BalancedBlock, EntersFromBelow, ValidGraph, EntryNames, ValidProp;
    var f := FirstProp(c);
    var two: seq<nat> := [2];
    assert two[1..] == [] && f.states[0].exit == ItemTexts(c.First()) && !f.states[0].exitWild;
    assert NoneLeft(f) && f.states[1] == UNREACHED && f.states[2] == UNREACHED;
    hide FirstProp;
    FreshHead(f.states[0].exit, 0);
    hide Merged;
    var ps := MergeEdge(f, 0, 2, f.states[0].exit, false, Last(c.blocks[0]));
    assert MergeEdges(ps, 0, [], f.states[0].exit, false, Last(c.blocks[0])) == ps;
    assert AfterRounds(c, 0) == ps;
  }

  /** After the first round, the loop is queued. */
  lemma SecondRound(c: Setup, depth: seq<nat>)
    requires EntersFromBelow(c, depth)
    ensures c.Valid() && |c.blocks| == 3 && Looping(c, AfterRounds(c, 1), 0)
  {
    LateShape(c, depth);
    FirstNames(c, depth);
    FirstRound(c, depth);
    hide AfterRounds, PlainSetup, BalancedBlock, ValidGraph;
    RoundAfter(c, 0);
    TransferNames(c, depth, 2, 1, ItemTexts(c.First()));
    EntryWalk(c, AfterRounds(c, 0), ItemTexts(c.First()));
  }

  lemma EntryWalk(c: Setup, ps: Prop, names: seq<string>)
    requires c.Valid() && !c.inferred && |c.blocks| == 3 && c.blocks[2].successors == [1]
    requires OneQueued(ps, 2) && ps.states[1] == UNREACHED && ps.states[2].entry == names && !ps.states[2].entryWild
    requires !BlockExit(c.fork, c.blocks[2], names, false, false).wildcard
    ensures ValidProp(c.blocks, ps) && ps.worklist != []
    ensures var r := Step(c.fork, c.blocks, c.inferred, ps);
            OneQueued(r, 1) && LoopHead(r.states[1], Transfer(c, 2, names), false)
  {
    hide BlockExit, ItemTexts, ValidGraph, Step, Transfer;
    WalkOne(c, ps, 2);
    StepOneEdge(c, ps, 1);
    var w := WalkedProp(c, ps);
    hide WalkedProp;
    FreshHead(Transfer(c, 2, names), 2);
    hide Merged;
  }

  /** The names at the start of the loop are the same after k times around as after one more. */
  ghost predicate Settled(c: Setup, k: nat)
    requires |c.blocks| == 3
  {
    LoopNames(c, k + 1) == LoopNames(c, k)
  }

  /** At no time before the n-th do the names stay the same. */
  ghost predicate Restless(c: Setup, n: nat)
    requires |c.blocks| == 3
  {
    forall k: nat :: k < n ==> !Settled(c, k)
  }

  /** As long as the names change from one time to the next, the loop is queued again. */
  lemma {:induction false} StillLooping(c: Setup, depth: seq<nat>, n: nat)
    requires EntersFromBelow(c, depth)
    requires |c.blocks| == 3 && Restless(c, n)
    ensures c.Valid() && Looping(c, AfterRounds(c, n + 1), n)
    decreases n
  {
    if n == 0 {
      SecondRound(c, depth);
    } else {
      assert !Settled(c, n - 1);
      hide AfterRounds, EntersFromBelow, ValidGraph, Step, Looping, Settled;
      StillLooping(c, depth, n - 1);
      LoopNext(c, depth, n, n - 1);
    }
  }

  /** The round after the n-th, for a loop that has been gone around k times. */
  lemma LoopNext(c: Setup, depth: seq<nat>, n: nat, k: nat)
    requires EntersFromBelow(c, depth) && c.Valid() && |c.blocks| == 3 && Looping(c, AfterRounds(c, n), k)
    ensures if Settled(c, k) then AfterRounds(c, n + 1).worklist == [] else Looping(c, AfterRounds(c, n + 1), k + 1)
  {
    hide AfterRounds, EntersFromBelow, ValidGraph, LoopNames, Step, Looping;
    LoopRound(c, depth, AfterRounds(c, n), k);
    RoundAfter(c, n);
  }

  lemma {:induction false} FirstSettled(c: Setup, n: nat) returns (k: nat)
    requires |c.blocks| == 3 && Settled(c, n)
    ensures Settled(c, k) && Restless(c, k)
    decreases n
  {
    hide Settled;
    if j: nat :| j < n && Settled(c, j) {
      k := FirstSettled(c, j);
    } else {
      k := n;
    }
  }

  lemma LoopingQueued(c: Setup, ps: Prop, k: nat)
    requires |c.blocks| == 3 && Looping(c, ps, k)
    ensures ps.worklist != []
  {
  }

  /** While the names do not settle, the worklist is not empty. */
  lemma NotDrained(c: Setup, depth: seq<nat>, n: nat)
    requires EntersFromBelow(c, depth) && |c.blocks| == 3 && forall k: nat :: !Settled(c, k)
    ensures c.Valid() && AfterRounds(c, n).worklist != []
  {
    hide AfterRounds, EntersFromBelow, ValidGraph, Settled, Looping;
    if n == 0 {
      FirstRound(c, depth);
    } else {
      StillLooping(c, depth, n - 1);
      LoopingQueued(c, AfterRounds(c, n), n - 1);
    }
  }

  lemma SettledDrains(c: Setup, depth: seq<nat>, k: nat)
    requires EntersFromBelow(c, depth) && |c.blocks| == 3 && Settled(c, k)
    ensures c.Valid() && exists n :: AfterRounds(c, n).worklist == []
  {
    hide *;
    var first := FirstSettled(c, k);
    StillLooping(c, depth, first);
    LoopNext(c, depth, first + 1, first);
    assert AfterRounds(c, first + 2).worklist == [];
  }

  /** The worklist of such a document empties if and only if the names at the start of the loop settle. */
  lemma LateLoopDrainsIff(c: Setup, depth: seq<nat>)
    requires EntersFromBelow(c, depth)
    ensures c.Valid() && |c.blocks| == 3
    ensures (exists n :: AfterRounds(c, n).worklist == []) <==> exists k :: Settled(c, k)
  {
    LateShape(c, depth);
    hide *;
    if k: nat :| Settled(c, k) {
      SettledDrains(c, depth, k);
    } else {
      forall n
        ensures AfterRounds(c, n).worklist != []
      {
        NotDrained(c, depth, n);
      }
    }
  }
}
