/** The order in which the inputs inferred for a document are reported. */
module InputOrder {
  import opened Base
  import opened SymbolicStack
  import opened Statements
  import opened Blocks
  import opened Worklist
  import opened Propagation
  import opened FixedPoint
  import opened StackDepth
  import opened PlainRuns
  import opened InferredInputs
  import opened Analysis

  /** The items that a longer stack has below the first n, top first. */
  function Below(s: StackState, n: nat): seq<nat>
    requires n <= |s.items|
  {
    TopItems(s, |s.items|)[n..]
  }

  // ----- one extension -----

  lemma GrowBelow(s: StackState, n: nat)
    ensures var g := Grow(s, n);
            && TopItems(g, |g.items|) == TopItems(s, |s.items|) + Below(g, |s.items|)
            && |Below(g, |s.items|)| == n
            && forall i :: 0 <= i < n ==> Below(g, |s.items|)[i] == s.counter + n - i
  {
    var g := Grow(s, n);
    forall i | 0 <= i < n
      ensures Below(g, |s.items|)[i] == s.counter + n - i
    {
      assert Below(g, |s.items|)[i] == Top(g, |s.items| + i) == NewItems(s.counter, n)[n - 1 - i];
    }
  }

  /**
   * An extension by several items at once lists them bottom first. The order is top first, as
   * documented for the inferred inputs, only if at most one item is added.
   */
  lemma GrowListsTopFirstIff(s: StackState, n: nat)
    requires s.inferred
    ensures Grow(s, n).inferredItems == s.inferredItems + Below(Grow(s, n), |s.items|) <==> n <= 1
  {
    GrowBelow(s, n);
    var g, below := Grow(s, n), Below(Grow(s, n), |s.items|);
    hide Below, TopItems;
    assert g.inferredItems == s.inferredItems + NewItems(s.counter, n);
    if n <= 1 {
      assert NewItems(s.counter, n) == below;
    } else {
      assert g.inferredItems[|s.inferredItems|] == s.counter + 1;
      assert (s.inferredItems + below)[|s.inferredItems|] == below[0] == s.counter + n;
    }
  }

  lemma {:induction false} PullKeeps(s: StackState, n: nat)
    requires s.inferred
    ensures var p := Pull(s, n).0; p.inferred && |p.items| == Max(|s.items|, n)
  {
    PullGrows(s, n);
  }

  /** An operation that reaches below the stack adds items one by one: they are listed top first. */
  lemma {:induction false} PullListsTopFirst(s: StackState, n: nat)
    requires s.inferred
    ensures var p := Pull(s, n).0;
            && |s.items| <= |p.items|
            && TopItems(p, |p.items|)[..|s.items|] == TopItems(s, |s.items|)
            && p.inferredItems == s.inferredItems + Below(p, |s.items|)
  {
    PullKeeps(s, n);
    if n > 0 {
      PullListsTopFirst(s, n - 1);
      PullKeeps(s, n - 1);
      var q := Pull(s, n - 1).0;
      hide Pull, Grow;
      assert Pull(s, n).0 == if n <= |q.items| then q else Grow(q, 1) by {
        PullStep(s, n);
      }
      if n > |q.items| {
        GrowListsTopFirstIff(q, 1);
        GrowBelow(q, 1);
        var p := Grow(q, 1);
        hide TopItems;
        assert p.inferredItems == s.inferredItems + Below(q, |s.items|) + Below(p, |q.items|);
        assert Below(p, |s.items|) == Below(q, |s.items|) + Below(p, |q.items|);
      }
    }
  }

  lemma PullStep(s: StackState, n: nat)
    requires s.inferred && n > 0
    ensures var q := Pull(s, n - 1).0; |q.items| >= n - 1 && Pull(s, n).0 == if n <= |q.items| then q else Grow(q, 1)
  {
    PullGrows(s, n - 1);
  }

  // ----- a block -----

  /** The items that a statement reaches below the stack, top first. */
  function Reaches(fork: Fork, st: Statement, s: StackState): seq<nat> {
    var op := Effect(fork, st);
    if op.None? || CommentOf(st).Err? then []
    else
      var p := Pull(s, |op.value.ins|).0;
      if |s.items| <= |p.items| then Below(p, |s.items|) else []
  }

  /** The items that a sequence of statements reaches below the stack, top first. */
  function WalkReaches(fork: Fork, stmts: seq<Statement>, s: StackState): seq<nat>
    decreases |stmts|
  {
    if stmts == [] then []
    else Reaches(fork, stmts[0], s) + WalkReaches(fork, stmts[1..], StatementApplied(fork, stmts[0], s).0)
  }

  lemma AppliedLists(s: StackState, op: StackOp, comment: Option<seq<string>>)
    requires s.inferred && !s.wildcard && NoWild(comment)
    ensures var p := Pull(s, |op.ins|).0;
            && |s.items| <= |p.items|
            && Applied(s, op, comment).0.inferredItems == s.inferredItems + Below(p, |s.items|)
  {
    hide Pull, PushOuts, Checked, Below;
    PullGrows(s, |op.ins|);
    PullListsTopFirst(s, |op.ins|);
    var p := Pull(s, |op.ins|).0;
    var base := p.(items := p.items[..|p.items| - |op.ins|]);
    PushOutsDepth(base, op.ins, TopItems(p, |op.ins|), op.outs);
    var (r, created) := PushOuts(base, op.ins, TopItems(p, |op.ins|), op.outs);
    CheckedDepth(r, comment, created, op.outs);
  }

  lemma StatementLists(fork: Fork, st: Statement, s: StackState)
    requires s.inferred && !s.wildcard && PlainComment(st) && CommentOf(st).Ok?
    ensures StatementApplied(fork, st, s).0.inferredItems == s.inferredItems + Reaches(fork, st, s)
  {
    hide Effect, Applied, CommentOf, Pull, Below;
    var op := Effect(fork, st);
    if op.Some? {
      AppliedLists(s, op.value, CommentOf(st).value);
    }
  }

  lemma {:induction false} WalkedLists(fork: Fork, stmts: seq<Statement>, s: StackState)
    requires s.inferred && !s.wildcard && PlainComments(stmts) && ParsedComments(stmts)
    ensures Walked(fork, stmts, s).inferredItems == s.inferredItems + WalkReaches(fork, stmts, s)
    decreases |stmts|
  {
    hide StatementApplied, PlainComment, CommentOf, Reaches, Inputs, Outputs;
    if stmts != [] {
      assert PlainComment(stmts[0]) && CommentOf(stmts[0]).Ok?;
      StatementGrows(fork, stmts[0], s);
      StatementLists(fork, stmts[0], s);
      WalkedLists(fork, stmts[1..], StatementApplied(fork, stmts[0], s).0);
    }
  }

  // ----- the document -----

  /** The inputs of a document, top first: those that are there at the start, and then what the first block reaches below. */
  function InputsTopFirst(c: Setup): seq<nat>
    requires |c.blocks| > 0
  {
    var start := InitialStack([], true, c.preGrow);
    TopItems(start, |start.items|) + WalkReaches(c.fork, c.blocks[0].statements, start)
  }

  /** n, ..., 1 */
  function CountDown(n: nat): (r: seq<nat>)
    ensures |r| == n
    ensures forall i :: 0 <= i < n ==> r[i] == n - i
  {
    seq(n, i requires 0 <= i < n => n - i)
  }

  lemma StartLists(n: nat)
    ensures var start := InitialStack([], true, n);
            && |start.items| == n && start.inferredItems == NewItems(0, n) && TopItems(start, n) == CountDown(n)
  {
  }

  /** Numbering: the items that propagation starts with are listed bottom first, and the others top first. */
  lemma InputsSplit(c: Setup) returns (reached: seq<nat>)
    requires InferredSetup(c)
    ensures c.First().inferredItems == NewItems(0, c.preGrow) + reached
    ensures InputsTopFirst(c) == CountDown(c.preGrow) + reached
  {
    var start := InitialStack([], true, c.preGrow);
    hide Walked, WalkReaches, ParsedComments, PlainComments, TopItems, NewItems, CountDown;
    assert PlainBlock(c.blocks[0]);
    assert LabelComment(c.blocks[0]).None?;
    assert start.inferred && !start.wildcard;
    StartLists(c.preGrow);
    hide InitialStack;
    reached := WalkReaches(c.fork, c.blocks[0].statements, start);
    WalkedLists(c.fork, c.blocks[0].statements, start);
  }

  /** The inputs are listed top first if and only if the last propagation starts with at most one item. */
  lemma InputsListedIff(c: Setup)
    requires InferredSetup(c)
    ensures c.First().inferredItems == InputsTopFirst(c) <==> c.preGrow <= 1
  {
    hide InferredSetup, FirstExit, InputsTopFirst;
    var reached := InputsSplit(c);
    var n := c.preGrow;
    if n > 1 {
      assert (NewItems(0, n) + reached)[0] == 1 && (CountDown(n) + reached)[0] == n;
    } else {
      assert NewItems(0, n) == CountDown(n);
    }
  }

  /** The items 1, ..., n have names that read the same in both directions. */
  ghost predicate Mirrored(s: StackState, n: nat) {
    forall item: nat :: 1 <= item <= n ==> ItemText(s, item) == ItemText(s, n + 1 - item)
  }

  function ItemNames(s: StackState, items: seq<nat>): (r: seq<string>)
    ensures |r| == |items|
    ensures forall i :: 0 <= i < |r| ==> r[i] == ItemText(s, items[i])
  {
    seq(|items|, i requires 0 <= i < |items| => ItemText(s, items[i]))
  }

  lemma MirroredIff(s: StackState, n: nat, reached: seq<nat>)
    ensures ItemNames(s, NewItems(0, n) + reached) == ItemNames(s, CountDown(n) + reached) <==> Mirrored(s, n)
  {
    var up, down := NewItems(0, n) + reached, CountDown(n) + reached;
    hide ItemText;
    if ItemNames(s, up) == ItemNames(s, down) {
      forall item: nat | 1 <= item <= n
        ensures ItemText(s, item) == ItemText(s, n + 1 - item)
      {
        assert up[item - 1] == item && down[item - 1] == n + 1 - item;
        assert ItemNames(s, up)[item - 1] == ItemNames(s, down)[item - 1];
      }
    }
    if Mirrored(s, n) {
      forall i | 0 <= i < |up|
        ensures ItemNames(s, up)[i] == ItemNames(s, down)[i]
      {
        if i < n {
          assert up[i] == i + 1 && down[i] == n - i;
        }
      }
    }
  }

  lemma NamesListedIff(c: Setup)
    requires InferredSetup(c)
    ensures InputNames(c.First()) == ItemNames(c.First(), InputsTopFirst(c)) <==> Mirrored(c.First(), c.preGrow)
    ensures c.preGrow <= 1 ==> Mirrored(c.First(), c.preGrow)
  {
    assert |c.blocks| > 0;
    hide InferredSetup, FirstExit, InputsTopFirst, ItemText;
    var reached := InputsSplit(c);
    MirroredIff(c.First(), c.preGrow, reached);
    assert InputNames(c.First()) == ItemNames(c.First(), c.First().inferredItems);
  }

  /**
   * The inputs that the analysis reports are named top first if and only if the names of the items that the
   * last propagation starts with read the same in both directions, as they do if it starts with at most one.
   */
  lemma ReportedTopFirstIff(fork: Fork, blocks: seq<Block>, fuel: nat, retries: nat, r: AnalysisResult) returns (run: Setup)
    requires ValidGraph(blocks) && |blocks| > 0 && InferredSetup(Setup(fork, blocks, [], true, 0))
    requires ResultFor(fork, blocks, [], true, fuel, retries, r) && r.Analysed?
    ensures run.Valid() && run == Setup(fork, blocks, [], true, run.preGrow)
    ensures FinalGrowth(Setup(fork, blocks, [], true, 0), 0, fuel, retries) == Some(run.preGrow)
    ensures r.inferredInputs == ItemNames(run.First(), InputsTopFirst(run)) <==> Mirrored(run.First(), run.preGrow)
    ensures run.preGrow <= 1 ==> Mirrored(run.First(), run.preGrow)
  {
    var c := Setup(fork, blocks, [], true, 0);
    hide InferredSetup, FinalGrowth, ReportsStates, InputsTopFirst, ItemNames, InputNames, AfterRounds, ValidGraph, FirstExit, Mirrored;
    run := WithGrowth(c, FinalGrowth(c, 0, fuel, retries).value);
    WithGrowthSetup(c, run.preGrow);
    NamesListedIff(run);
  }
}
