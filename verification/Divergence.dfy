/**
 * Two documents with the same block graph and the same depths, in which a back edge does not lead to a
 * dominator. The worklist of one of them never empties, and that of the other one does.
 */
module Divergence {
  import opened Base
  import opened Numerals
  import opened StackComment
  import opened SymbolicStack
  import opened EvmOps
  import opened Statements
  import opened Blocks
  import opened Worklist
  import opened FixedPoint
  import opened StackDepth
  import opened PlainRuns
  import opened Termination
  import opened LateEntry

  const FORK: Fork := map[
    "JUMP" := Op("JUMP", 0x56, ["label"], [], false, false, true, true, false, false),
    "SWAP1" := Op("SWAP1", 0x90, ["x1", "x2"], ["x2", "x1"], false, false, false, false, false, false)
  ]

  function JumpTo(ident: string): Statement {
    Opcode("JUMP", LabelArg(ident, false), [], None)
  }

  const PUSH: Statement := Opcode("PUSH", OtherArg, [], None)
  const SWAP: Statement := Opcode("SWAP1", NoArg, [], None)

  const FIRST: Block := Block([PUSH, PUSH, JumpTo("entry")], "", None, "entry", [2], false, false, true, false, true)
  const LOOP: Block := Block([LabelDef("loop", false, None), SWAP, JumpTo("loop")], "loop", None, "loop", [1], true, false, true, false, false)
  const ENTRY: Block := Block([LabelDef("entry", false, None), JumpTo("loop")], "entry", None, "loop", [1], true, false, true, false, false)

  const BLOCKS: seq<Block> := [FIRST, LOOP, ENTRY]

  /** Two pushes, then a loop that swaps two items; control enters the loop from a later block. */
  const SETUP: Setup := Setup(FORK, BLOCKS, [], false, 0)

  lemma SwapFlat()
    ensures Flatten(BLOCKS) == FIRST.statements + LOOP.statements + ENTRY.statements
  {
    assert BLOCKS[..2] == [FIRST, LOOP] && [FIRST, LOOP][..1] == [FIRST] && [FIRST][..0] == [];
    assert Flatten([FIRST]) == FIRST.statements;
    assert Flatten([FIRST, LOOP]) == FIRST.statements + LOOP.statements;
  }

  lemma EarlyParts()
    ensures ValidBlock(FORK, FIRST) && ValidBlock(FORK, LOOP)
  {
  }

  lemma LatePart()
    ensures ValidBlock(FORK, ENTRY)
  {
  }

  lemma SwapAdjacent()
    ensures Adjacent(FORK, FIRST, LOOP) && Adjacent(FORK, LOOP, ENTRY)
  {
  }

  lemma SwapEdges()
    ensures forall i :: 0 <= i < 3 ==> HasEdges(BLOCKS, map["loop" := 1, "entry" := 2], i)
  {
  }

  /** These are the blocks of the document. */
  lemma SwapBlocks()
    ensures BlockGraph(FORK, FIRST.statements + LOOP.statements + ENTRY.statements, BLOCKS, map["loop" := 1, "entry" := 2])
  {
    SwapFlat();
    EarlyParts();
    LatePart();
    SwapAdjacent();
    SwapEdges();
    hide Flatten, ValidBlock, Adjacent, HasEdges;
  }

  lemma SwapPlain()
    ensures PlainSetup(SETUP)
  {
    assert ValidNode(BLOCKS, 0) && ValidNode(BLOCKS, 1) && ValidNode(BLOCKS, 2);
    assert CommentOf(PUSH) == Ok(None) && CommentOf(SWAP) == Ok(None);
    assert CommentOf(JumpTo("loop")) == Ok(None) && CommentOf(JumpTo("entry")) == Ok(None);
    assert PlainBlock(FIRST) && PlainBlock(LOOP) && PlainBlock(ENTRY);
  }

  lemma SwapEffects()
    ensures Effect(FORK, PUSH) == Some(StackOp([], ["val"]))
    ensures Effect(FORK, SWAP) == Some(StackOp(["x1", "x2"], ["x2", "x1"]))
    ensures Effect(FORK, JumpTo("loop")) == Some(StackOp([], []))
    ensures Effect(FORK, JumpTo("entry")) == Some(StackOp([], []))
  {
    assert "PUSH"[..4] == "PUSH" && "SWAP1"[..4] == "SWAP";
    assert "SWAP"[0] == 'S';
    assert "SWAP1" in FORK && "JUMP" in FORK;
    assert FORK["JUMP"].ins[1..] == [];
  }

  /** Depths agree on all edges and nothing underflows. */
  lemma SwapBalanced()
    ensures Balanced(SETUP, {0, 1, 2}, [0, 2, 2])
  {
    SwapEffects();
    hide Effect;
    assert CommentOf(PUSH) == Ok(None) && CommentOf(SWAP) == Ok(None);
    assert CommentOf(JumpTo("loop")) == Ok(None) && CommentOf(JumpTo("entry")) == Ok(None);
    hide CommentOf;
    DepthOfThree(FIRST.statements, 0);
    DepthOfThree(LOOP.statements, 2);
    assert ENTRY.statements[1..] == [JumpTo("loop")] && [JumpTo("loop")][1..] == [];
    hide DepthAfter, Suffices;
    var live: set<nat> := {0, 1, 2};
    assert BalancedBlock(SETUP, live, [0, 2, 2], 0);
    assert BalancedBlock(SETUP, live, [0, 2, 2], 1);
    assert BalancedBlock(SETUP, live, [0, 2, 2], 2);
  }

  lemma DepthOfThree(stmts: seq<Statement>, d: int)
    requires |stmts| == 3
    ensures var d1 := d - Inputs(FORK, stmts[0]) + Outputs(FORK, stmts[0]);
            var d2 := d1 - Inputs(FORK, stmts[1]) + Outputs(FORK, stmts[1]);
            && DepthAfter(FORK, stmts, d) == d2 - Inputs(FORK, stmts[2]) + Outputs(FORK, stmts[2])
            && (Suffices(FORK, stmts, d) <==> Inputs(FORK, stmts[0]) <= d && Inputs(FORK, stmts[1]) <= d1 && Inputs(FORK, stmts[2]) <= d2)
  {
    hide Inputs, Outputs;
    assert stmts[1..][1..] == [stmts[2]] && [stmts[2]][1..] == [];
    assert stmts[1..][0] == stmts[1];
    var d1 := d - Inputs(FORK, stmts[0]) + Outputs(FORK, stmts[0]);
    var d2 := d1 - Inputs(FORK, stmts[1]) + Outputs(FORK, stmts[1]);
    assert DepthAfter(FORK, [stmts[2]], d2) == d2 - Inputs(FORK, stmts[2]) + Outputs(FORK, stmts[2]);
    assert DepthAfter(FORK, stmts[1..], d1) == DepthAfter(FORK, [stmts[2]], d2);
    assert Suffices(FORK, stmts[1..], d1) <==> Inputs(FORK, stmts[1]) <= d1 && Suffices(FORK, [stmts[2]], d2);
  }

  lemma SwapNotDominated()
    ensures !BackEdgesDominated(BLOCKS, {0, 1, 2})
  {
    var path: seq<nat> := [0, 2];
    assert BLOCKS[0].successors == [2] && BLOCKS[2].successors == [1];
    assert IsPath(BLOCKS, path) && EndsAt(path, 2) && 1 !in path;
    assert !Dominates(BLOCKS, 1, 2) by {
      hide IsPath;
    }
    var back, target: nat := 2, 1;
    assert target in BLOCKS[back].successors && target <= back;
  }

  // ----- walks -----

  /** A stack made of two names: the second name is item 1, the first one, on top, is item 2. */
  lemma TwoItems(a: string, b: string)
    requires a != b && AssignName(a).None? && AssignName(b).None?
    requires a != WILDCARD && b != WILDCARD
    ensures var s := EntryStack([a, b], false, false);
            && s.items == [1, 2] && s.itemToName == map[1 := b, 2 := a]
            && !s.wildcard && !s.inferred
  {
    var s0 := EMPTY;
    assert InitNames(s0, [a, b], None, 0) == s0;
    var s1 := InitOne(s0, b, None);
    assert InitNames(s0, [a, b], None, 2) == InitNames(s1, [a, b], None, 1);
    assert InitNames(s1, [a, b], None, 1) == InitNames(InitOne(s1, a, None), [a, b], None, 0);
  }

  lemma JumpWalk(s: StackState, ident: string)
    requires Effect(FORK, JumpTo(ident)) == Some(StackOp([], []))
    ensures StatementApplied(FORK, JumpTo(ident), s).0 == s
  {
    hide Effect;
    assert CommentOf(JumpTo(ident)) == Ok(None);
    assert s.items[..|s.items|] == s.items;
  }

  lemma SwapWalk(s: StackState)
    requires s.items == [1, 2] && !s.wildcard && !s.inferred
    ensures StatementApplied(FORK, SWAP, s).0 == s.(items := [2, 1])
  {
    SwapEffects();
    hide Effect;
    assert CommentOf(SWAP) == Ok(None);
    var op := StackOp(["x1", "x2"], ["x2", "x1"]);
    assert Pull(s, 2) == (s, true) by {
      assert Pull(s, 0) == (s, true) && Pull(s, 1) == (s, true);
    }
    assert TopItems(s, 2) == [2, 1];
    var base := s.(items := []);
    assert s.items[..0] == [];
    SwapOuts(base);
    hide PushOuts, Pull;
  }

  lemma SwapOuts(s: StackState)
    requires s.items == []
    ensures PushOuts(s, ["x1", "x2"], [2, 1], ["x2", "x1"]) == (s.(items := [2, 1]), {})
  {
    var ins := ["x1", "x2"];
    assert ins[1..] == ["x2"];
    assert FindName(ins, "x1") == 0;
    assert FindName(["x2"], "x2") == 0;
    assert FindName(ins, "x2") == 1;
    hide FindName;
    assert ["x2", "x1"][1..] == ["x1"] && ["x1"][1..] == [];
    assert PushOuts(s, ins, [2, 1], []) == (s, {});
    assert PushOuts(s, ins, [2, 1], ["x1"]) == (Push(s, 2), {});
    assert [] + [2] == [2] && [2] + [1] == [2, 1];
  }

  lemma LoopWalked(s: StackState)
    requires s.items == [1, 2] && !s.wildcard && !s.inferred
    ensures Walked(FORK, LOOP.statements, s) == s.(items := [2, 1])
  {
    SwapEffects();
    var t := s.(items := [2, 1]);
    assert StatementApplied(FORK, LabelDef("loop", false, None), s).0 == s;
    SwapWalk(s);
    JumpWalk(t, "loop");
    hide StatementApplied, Effect;
    assert LOOP.statements[1..] == [SWAP, JumpTo("loop")] && [SWAP, JumpTo("loop")][1..] == [JumpTo("loop")];
    assert [JumpTo("loop")][1..] == [];
    assert Walked(FORK, [JumpTo("loop")], t) == t;
    assert Walked(FORK, [SWAP, JumpTo("loop")], s) == t;
  }

  /** Walking the loop exchanges the two names. */
  lemma LoopExit(a: string, b: string)
    requires a != b && AssignName(a).None? && AssignName(b).None?
    requires a != WILDCARD && b != WILDCARD
    ensures var s := BlockExit(FORK, LOOP, [a, b], false, false); !s.wildcard && ItemTexts(s) == [b, a]
  {
    TwoItems(a, b);
    var s := EntryStack([a, b], false, false);
    LoopWalked(s);
    hide Walked, EntryStack;
    assert LabelComment(LOOP) == None;
    var t := s.(items := [2, 1]);
    assert Top(t, 0) == 1 && Top(t, 1) == 2;
  }

  /** A label and a jump leave the stack as it is. */
  lemma PassWalked(ident: string, s: StackState)
    ensures Walked(FORK, [LabelDef(ident, false, None), JumpTo("loop")], s) == s
  {
    SwapEffects();
    var def, jump := LabelDef(ident, false, None), JumpTo("loop");
    assert StatementApplied(FORK, def, s).0 == s;
    JumpWalk(s, "loop");
    hide StatementApplied, Effect;
    assert [def, jump][1..] == [jump] && [jump][1..] == [];
    assert Walked(FORK, [jump], s) == s;
  }

  lemma TwoTexts(a: string, b: string)
    requires a != b && AssignName(a).None? && AssignName(b).None?
    requires a != WILDCARD && b != WILDCARD
    ensures var s := EntryStack([a, b], false, false); !s.wildcard && ItemTexts(s) == [a, b]
  {
    TwoItems(a, b);
    var s := EntryStack([a, b], false, false);
    hide EntryStack;
    assert Top(s, 0) == 2 && Top(s, 1) == 1;
  }

  lemma EntryExit(a: string, b: string)
    requires a != b && AssignName(a).None? && AssignName(b).None?
    requires a != WILDCARD && b != WILDCARD
    ensures var s := BlockExit(FORK, ENTRY, [a, b], false, false); !s.wildcard && ItemTexts(s) == [a, b]
  {
    TwoTexts(a, b);
    PassWalked("entry", EntryStack([a, b], false, false));
    hide Walked, EntryStack, ItemTexts;
    assert LabelComment(ENTRY) == None;
  }

  lemma PushWalk(s: StackState)
    ensures StatementApplied(FORK, PUSH, s).0 == PushNew(s)
  {
    SwapEffects();
    hide Effect;
    assert CommentOf(PUSH) == Ok(None);
    assert s.items[..|s.items|] == s.items;
    assert ["val"][1..] == [] && FindName([], "val") == -1;
    assert PushOuts(s, [], [], ["val"]).0 == PushNew(s);
  }

  lemma FirstWalk()
    ensures SETUP.First() == PushNew(PushNew(EMPTY))
  {
    var s0 := InitialStack([], false, 0);
    assert s0 == EMPTY;
    var s1 := PushNew(s0);
    var s2 := PushNew(s1);
    PushWalk(s0);
    PushWalk(s1);
    SwapEffects();
    JumpWalk(s2, "entry");
    hide StatementApplied, Effect, PushNew;
    assert FIRST.statements[1..] == [PUSH, JumpTo("entry")] && [PUSH, JumpTo("entry")][1..] == [JumpTo("entry")];
    assert [JumpTo("entry")][1..] == [];
    assert Walked(FORK, [JumpTo("entry")], s2) == s2;
    assert Walked(FORK, FIRST.statements, s0) == s2;
  }

  lemma FirstNames()
    ensures !SETUP.First().wildcard && ItemTexts(SETUP.First()) == ["_2", "_1"]
  {
    FirstWalk();
    var s := PushNew(PushNew(EMPTY));
    hide FirstExit;
    assert s.items == [1, 2];
    assert Decimal(1) == "1" && Decimal(2) == "2";
    hide Decimal;
    assert Top(s, 0) == 2 && Top(s, 1) == 1;
    assert ItemText(s, 1) == "_1" && ItemText(s, 2) == "_2";
  }

  predicate Name(a: string) {
    AssignName(a).None? && a != WILDCARD
  }

  lemma InventedNames()
    ensures Name("_1") && Name("_2") && "_1" != "_2"
  {
    assert "_1"[1] != "_2"[1];
  }

  // ----- the names alternate -----

  lemma SwapEnters()
    ensures EntersFromBelow(SETUP, [0, 2, 2])
  {
    SwapPlain();
    SwapBalanced();
    hide PlainSetup, Balanced;
  }

  /** The names at the start of the loop, after k times around. */
  ghost predicate StartsAs(k: nat, a: string, b: string) {
    LoopNames(SETUP, k) == [a, b]
  }

  lemma SwapOnce()
    ensures StartsAs(0, "_2", "_1")
  {
    InventedNames();
    FirstNames();
    EntryExit("_2", "_1");
    hide BlockExit, FirstExit, ItemTexts;
  }

  lemma SwapAgain(k: nat, a: string, b: string)
    requires StartsAs(k, a, b) && Name(a) && Name(b) && a != b
    ensures StartsAs(k + 1, b, a) && !Settled(SETUP, k)
  {
    LoopExit(a, b);
    hide BlockExit, FirstExit, ItemTexts;
    assert [a, b][0] != [b, a][0];
  }

  /** From one time to the next, the names change places. */
  lemma {:induction false} SwapNames(k: nat)
    ensures if k % 2 == 0 then StartsAs(k, "_2", "_1") else StartsAs(k, "_1", "_2")
    decreases k
  {
    InventedNames();
    hide *;
    if k == 0 {
      SwapOnce();
    } else {
      SwapNames(k - 1);
      if k % 2 == 0 {
        SwapAgain(k - 1, "_1", "_2");
      } else {
        SwapAgain(k - 1, "_2", "_1");
      }
    }
  }

  lemma NotSettled(k: nat)
    ensures !Settled(SETUP, k)
  {
    InventedNames();
    hide *;
    SwapNames(k);
    if k % 2 == 0 {
      SwapAgain(k, "_2", "_1");
    } else {
      SwapAgain(k, "_1", "_2");
    }
  }

  /** The worklist of this balanced document never empties. */
  lemma NeverDrains(n: nat)
    ensures SETUP.Valid() && AfterRounds(SETUP, n).worklist != []
  {
    SwapEnters();
    hide *;
    LateLoopDrainsIff(SETUP, [0, 2, 2]);
    forall k: nat
      ensures !Settled(SETUP, k)
    {
      NotSettled(k);
    }
  }

  // ----- a document that drains -----

  const STILL: Block := Block([LabelDef("loop", false, None), JumpTo("loop")], "loop", None, "loop", [1], true, false, true, false, false)

  const TWIN_BLOCKS: seq<Block> := [FIRST, STILL, ENTRY]

  /** The same document without the swap. */
  const TWIN: Setup := Setup(FORK, TWIN_BLOCKS, [], false, 0)

  lemma TwinPlain()
    ensures PlainSetup(TWIN)
  {
    assert ValidNode(TWIN_BLOCKS, 0) && ValidNode(TWIN_BLOCKS, 1) && ValidNode(TWIN_BLOCKS, 2);
    assert CommentOf(PUSH) == Ok(None);
    assert CommentOf(JumpTo("loop")) == Ok(None) && CommentOf(JumpTo("entry")) == Ok(None);
    assert PlainBlock(FIRST) && PlainBlock(STILL) && PlainBlock(ENTRY);
  }

  lemma TwinBalanced()
    ensures Balanced(TWIN, {0, 1, 2}, [0, 2, 2])
  {
    SwapEffects();
    hide Effect;
    assert CommentOf(PUSH) == Ok(None);
    assert CommentOf(JumpTo("loop")) == Ok(None) && CommentOf(JumpTo("entry")) == Ok(None);
    hide CommentOf;
    DepthOfThree(FIRST.statements, 0);
    assert STILL.statements[1..] == [JumpTo("loop")] && ENTRY.statements[1..] == [JumpTo("loop")] && [JumpTo("loop")][1..] == [];
    hide DepthAfter, Suffices;
    var live: set<nat> := {0, 1, 2};
    assert BalancedBlock(TWIN, live, [0, 2, 2], 0);
    assert BalancedBlock(TWIN, live, [0, 2, 2], 1);
    assert BalancedBlock(TWIN, live, [0, 2, 2], 2);
  }

  lemma TwinSettled()
    ensures Settled(TWIN, 0)
  {
    InventedNames();
    FirstNames();
    assert TWIN.First() == SETUP.First();
    hide BlockExit, FirstExit, ItemTexts;
    EntryExit("_2", "_1");
    StillExit("_2", "_1");
    assert LoopNames(TWIN, 0) == ["_2", "_1"];
    assert LoopNames(TWIN, 1) == Transfer(TWIN, 1, LoopNames(TWIN, 0));
  }

  lemma StillExit(a: string, b: string)
    requires a != b && AssignName(a).None? && AssignName(b).None?
    requires a != WILDCARD && b != WILDCARD
    ensures ItemTexts(BlockExit(FORK, STILL, [a, b], false, false)) == [a, b]
  {
    TwoTexts(a, b);
    PassWalked("loop", EntryStack([a, b], false, false));
    hide Walked, EntryStack, ItemTexts;
    assert LabelComment(STILL) == None;
  }

  lemma TwinDrains()
    ensures TWIN.Valid() && exists n :: AfterRounds(TWIN, n).worklist == []
  {
    TwinPlain();
    TwinBalanced();
    assert EntersFromBelow(TWIN, [0, 2, 2]) by {
      hide PlainSetup, Balanced;
    }
    TwinSettled();
    hide *;
    LateLoopDrainsIff(TWIN, [0, 2, 2]);
  }

  lemma SameGraph()
    ensures |TWIN.blocks| == |SETUP.blocks|
    ensures forall b :: 0 <= b < |SETUP.blocks| ==> TWIN.blocks[b].successors == SETUP.blocks[b].successors
  {
  }

  /**
   * Whether the worklist of a balanced document empties cannot be told from its block graph and the depths
   * of its blocks: these two documents have both in common.
   */
  lemma GraphDoesNotTell()
    ensures |TWIN.blocks| == |SETUP.blocks|
    ensures forall b :: 0 <= b < |SETUP.blocks| ==> TWIN.blocks[b].successors == SETUP.blocks[b].successors
    ensures Balanced(SETUP, {0, 1, 2}, [0, 2, 2]) && Balanced(TWIN, {0, 1, 2}, [0, 2, 2])
    ensures SETUP.Valid() && TWIN.Valid()
    ensures (forall n :: AfterRounds(SETUP, n).worklist != []) && exists n :: AfterRounds(TWIN, n).worklist == []
  {
    SwapBalanced();
    TwinBalanced();
    SwapPlain();
    SameGraph();
    TwinDrains();
    hide *;
    forall n
      ensures AfterRounds(SETUP, n).worklist != []
    {
      NeverDrains(n);
    }
  }
}
