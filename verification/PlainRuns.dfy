/** Propagation in documents whose comments have no wildcards: no block state ever has one. */
module PlainRuns {
  import opened Base
  import opened StackComment
  import opened SymbolicStack
  import opened Statements
  import opened Blocks
  import opened Worklist
  import opened FixedPoint
  import opened StackDepth

  // ----- names -----

  /** No name is the text of a wildcard. */
  ghost predicate Dotless(names: seq<string>) {
    forall i :: 0 <= i < |names| ==> names[i] != WILDCARD
  }

  ghost predicate DotlessNames(s: StackState) {
    forall x :: x in s.itemToName ==> s.itemToName[x] != WILDCARD
  }

  lemma ResolveDotless(text: string)
    requires text != WILDCARD
    ensures Resolve(text) != WILDCARD
  {
    if AssignName(text).Some? {
      assert Resolve(text)[0] != '.';
    }
  }

  lemma TextsDotless(s: StackState)
    requires DotlessNames(s)
    ensures Dotless(ItemTexts(s))
  {
    forall i | 0 <= i < |s.items|
      ensures ItemTexts(s)[i] != WILDCARD
    {
      if Top(s, i) !in s.itemToName {
        assert ItemText(s, Top(s, i))[0] == '_';
      }
    }
  }

  lemma {:induction false} InitNamesDotless(s: StackState, names: seq<string>, n: nat)
    requires DotlessNames(s) && n <= |names| && Dotless(names)
    ensures DotlessNames(InitNames(s, names, None, n))
    decreases n
  {
    if n > 0 {
      ResolveDotless(names[n - 1]);
      hide Resolve;
      InitNamesDotless(InitOne(s, names[n - 1], None), names, n - 1);
    }
  }

  /** A stack made of dotless names has no wildcard, and as many items as names. */
  lemma NewStackDotless(names: seq<string>)
    requires Dotless(names)
    ensures var s := NewStack(names, None);
            DotlessNames(s) && !s.wildcard && |s.items| == |names| && s.inferredItems == [] && !s.inferred
  {
    NewStackValid(names, None);
    if |names| > 0 {
      InitNamesDotless(EMPTY, names, |names|);
    }
  }

  // ----- operations and comments -----

  lemma CheckItemDotless(c: Checking, names: seq<string>, i: nat, outs: seq<string>)
    requires i < |names| && i < |c.st.items| && DotlessNames(c.st) && names[i] != WILDCARD
    ensures DotlessNames(CheckItem(c, names, i, outs).st)
  {
    ResolveDotless(names[i]);
    hide Resolve, Splits, NamingError;
  }

  lemma {:induction false} CheckItemsDotless(c: Checking, names: seq<string>, i: nat, outs: seq<string>)
    requires i <= |names| && DotlessNames(c.st) && Dotless(names) && !c.st.wildcard
    ensures var r := CheckItems(c, names, i, outs).0.st; DotlessNames(r) && !r.wildcard
    decreases |names| - i
  {
    hide CheckItem;
    if i < |names| && i < |c.st.items| {
      CheckItemDotless(c, names, i, outs);
      CheckItemDepth(c, names, i, outs);
      CheckItemsDotless(CheckItem(c, names, i, outs), names, i + 1, outs);
    }
  }

  lemma CheckedDotless(s: StackState, comment: Option<seq<string>>, allowElide: bool, created: set<nat>, outs: seq<string>)
    requires DotlessNames(s) && !s.wildcard
    requires comment.Some? ==> Dotless(comment.value)
    ensures var r := Checked(s, comment, allowElide, created, outs).0; DotlessNames(r) && !r.wildcard
  {
    hide CheckItems;
    if comment.Some? {
      CheckItemsDotless(Checking(s.(wildcard := false), created, map[], None), comment.value, 0, outs);
    }
  }

  lemma {:induction false} PullDotless(s: StackState, n: nat)
    ensures var p := Pull(s, n).0;
            p.itemToName == s.itemToName && p.wildcard == s.wildcard
  {
    if n > 0 {
      PullDotless(s, n - 1);
    }
  }

  lemma {:induction false} PushOutsDotless(s: StackState, ins: seq<string>, popped: seq<nat>, outs: seq<string>)
    requires |popped| == |ins|
    ensures var r := PushOuts(s, ins, popped, outs).0;
            r.itemToName == s.itemToName && r.wildcard == s.wildcard
  {
    if outs != [] {
      PushOutsDotless(s, ins, popped, outs[1..]);
    }
  }

  lemma AppliedDotless(s: StackState, op: StackOp, comment: Option<seq<string>>)
    requires DotlessNames(s) && !s.wildcard
    requires comment.Some? ==> Dotless(comment.value)
    ensures var r := Applied(s, op, comment).0; DotlessNames(r) && !r.wildcard
  {
    hide Pull, PushOuts, Checked;
    PullDotless(s, |op.ins|);
    var (p, ok) := Pull(s, |op.ins|);
    if ok {
      var base := p.(items := p.items[..|p.items| - |op.ins|]);
      PushOutsDotless(base, op.ins, TopItems(p, |op.ins|), op.outs);
      var (r, created) := PushOuts(base, op.ins, TopItems(p, |op.ins|), op.outs);
      CheckedDotless(r, comment, true, created, op.outs);
    }
  }

  /** A parsed comment names the wildcard only in last position. */
  lemma ParsedDotless(text: string)
    ensures Parsed(text).Ok? && !HasWildcard(Parsed(text).value) ==> Dotless(Parsed(text).value)
  {
    var s := SkipSpaces(text);
    if Parsed(text).Ok? {
      ReadItemsValid(s[1..], []);
      hide Parsed, ReadItems;
    }
  }

  // ----- blocks -----

  /** The comments of a block have no wildcards. */
  ghost predicate PlainBlock(b: Block) {
    PlainComments(b.statements) && (LabelComment(b).Some? ==> !HasWildcard(LabelComment(b).value))
  }

  lemma StatementDotless(fork: Fork, st: Statement, s: StackState)
    requires DotlessNames(s) && !s.wildcard && PlainComment(st)
    ensures var r := StatementApplied(fork, st, s).0; DotlessNames(r) && !r.wildcard
  {
    hide Applied, Effect, Parsed, DotlessNames;
    var op := Effect(fork, st);
    if op.Some? && CommentOf(st).Ok? {
      if CommentOf(st).value.Some? {
        ParsedDotless(StackCommentText(st.comment).value);
      }
      AppliedDotless(s, op.value, CommentOf(st).value);
    }
  }

  lemma {:induction false} WalkedDotless(fork: Fork, stmts: seq<Statement>, s: StackState)
    requires DotlessNames(s) && !s.wildcard && PlainComments(stmts)
    ensures var r := Walked(fork, stmts, s); DotlessNames(r) && !r.wildcard
    decreases |stmts|
  {
    hide StatementApplied, PlainComment, DotlessNames;
    if stmts != [] {
      assert PlainComment(stmts[0]);
      StatementDotless(fork, stmts[0], s);
      WalkedDotless(fork, stmts[1..], StatementApplied(fork, stmts[0], s).0);
    }
  }

  lemma LabelDotless(b: Block, s: StackState)
    requires DotlessNames(s) && !s.wildcard && PlainBlock(b)
    ensures var r := LabelApplied(b, s); DotlessNames(r) && !r.wildcard
  {
    hide Checked, Parsed, DotlessNames, PlainComments;
    if LabelComment(b).Some? {
      ParsedDotless(b.labelComment.value);
      CheckedDotless(s, LabelComment(b), false, {}, []);
    }
  }

  lemma ExitDotless(fork: Fork, b: Block, s: StackState)
    requires DotlessNames(s) && !s.wildcard && PlainBlock(b)
    ensures var r := Walked(fork, b.statements, LabelApplied(b, s));
            !r.wildcard && Dotless(ItemTexts(r))
  {
    hide Walked, LabelApplied, DotlessNames, ItemTexts;
    LabelDotless(b, s);
    WalkedDotless(fork, b.statements, LabelApplied(b, s));
    TextsDotless(Walked(fork, b.statements, LabelApplied(b, s)));
  }

  // ----- runs -----

  ghost predicate PlainSetup(c: Setup) {
    && c.Valid()
    && Dotless(c.initialItems)
    && forall b :: 0 <= b < |c.blocks| ==> PlainBlock(c.blocks[b])
  }

  /** No wildcard flag, and no name that could be mistaken for one. */
  ghost predicate PlainState(bs: BlockState) {
    && !bs.entryWild && !bs.exitWild && Dotless(bs.entry) && Dotless(bs.exit)
    && (forall k :: k in bs.predWild ==> !bs.predWild[k])
    && (forall k :: k in bs.predExits ==> Dotless(bs.predExits[k]))
  }

  ghost predicate PlainProp(ps: Prop) {
    forall b :: 0 <= b < |ps.states| ==> PlainState(ps.states[b])
  }

  lemma BaseDotless(preds: map<int, seq<string>>)
    requires forall k :: k in preds ==> Dotless(preds[k])
    ensures Dotless(BaseNames(preds))
  {
    if preds != map[] {
      assert BaseKey(preds) in preds;
    }
  }

  lemma MergedPlain(bs: BlockState, key: int, items: seq<string>)
    requires PlainState(bs) && Dotless(items)
    ensures PlainState(Merged(bs, key, items, false).0)
  {
    hide BaseNames, Dotless;
    BaseDotless(bs.predExits[key := items]);
  }

  lemma MergeEdgePlain(ps: Prop, idx: nat, succ: nat, exit: seq<string>, src: Statement)
    requires succ < |ps.states| == |ps.queued| && PlainProp(ps) && Dotless(exit)
    ensures PlainProp(MergeEdge(ps, idx, succ, exit, false, src))
  {
    hide Merged, Dotless;
    MergedPlain(ps.states[succ], idx, exit);
    var r := MergeEdge(ps, idx, succ, exit, false, src);
    forall b | 0 <= b < |r.states|
      ensures PlainState(r.states[b])
    {
      assert PlainState(ps.states[b]);
    }
  }

  lemma {:induction false} MergeEdgesPlain(ps: Prop, idx: nat, succs: seq<nat>, exit: seq<string>, src: Statement)
    requires |ps.states| == |ps.queued| && PlainProp(ps) && Dotless(exit)
    requires forall i :: 0 <= i < |succs| ==> succs[i] < |ps.states|
    ensures PlainProp(MergeEdges(ps, idx, succs, exit, false, src))
    decreases |succs|
  {
    hide MergeEdge, PlainProp;
    if succs != [] {
      MergeEdgePlain(ps, idx, succs[0], exit, src);
      MergeEdgesPlain(MergeEdge(ps, idx, succs[0], exit, false, src), idx, succs[1..], exit, src);
    }
  }

  lemma PropagatedPlain(blocks: seq<Block>, ps: Prop, idx: nat)
    requires ValidGraph(blocks) && idx < |blocks| == |ps.states| == |ps.queued| && PlainProp(ps)
    ensures PlainProp(Propagated(blocks, ps, idx))
  {
    hide MergeEdges, Dotless;
    assert ValidNode(blocks, idx);
    assert PlainState(ps.states[idx]);
    MergeEdgesPlain(ps, idx, blocks[idx].successors, ps.states[idx].exit, Last(blocks[idx]));
  }

  /** Walking a block from a plain entry: the stack at its end. */
  lemma BlockExitPlain(c: Setup, b: nat, bs: BlockState)
    requires PlainSetup(c) && b < |c.blocks| && Dotless(bs.entry) && !bs.entryWild
    ensures !c.Exit(b, bs).wildcard && Dotless(ItemTexts(c.Exit(b, bs)))
  {
    hide Walked, LabelApplied, NewStack, ItemTexts;
    NewStackDotless(bs.entry);
    ExitDotless(c.fork, c.blocks[b], EntryStack(bs.entry, false, c.inferred));
  }

  lemma FirstExitPlain(c: Setup)
    requires PlainSetup(c)
    ensures !c.First().wildcard && Dotless(ItemTexts(c.First()))
  {
    hide Walked, LabelApplied, NewStack, ItemTexts;
    NewStackDotless(c.initialItems);
    ExitDotless(c.fork, c.blocks[0], InitialStack(c.initialItems, c.inferred, c.preGrow));
  }

  lemma StepPlain(c: Setup, ps: Prop)
    requires PlainSetup(c) && ValidProp(c.blocks, ps) && ps.worklist != [] && PlainProp(ps)
    ensures PlainProp(Step(c.fork, c.blocks, c.inferred, ps))
  {
    hide BlockExit, ItemTexts, Propagated, Dotless, ValidGraph;
    var idx := Next(ps);
    assert PlainState(ps.states[idx]);
    BlockExitPlain(c, idx, ps.states[idx]);
    var s := c.Exit(idx, ps.states[idx]);
    var w := WithExit(Popped(ps).(need := if c.inferred then Max(ps.need, |s.inferredItems|) else ps.need), idx, s);
    forall b | 0 <= b < |w.states|
      ensures PlainState(w.states[b])
    {
      assert PlainState(ps.states[b]);
    }
    PropagatedPlain(c.blocks, w, idx);
  }

  lemma {:induction false} RunPlain(c: Setup, ps: Prop, n: nat)
    requires PlainSetup(c) && ValidProp(c.blocks, ps) && PlainProp(ps)
    ensures PlainProp(Run(c.fork, c.blocks, c.inferred, ps, n))
    decreases n
  {
    hide Step, ValidProp, PlainProp, ValidGraph;
    if n > 0 && ps.worklist != [] {
      StepPlain(c, ps);
      StepValid(c.fork, c.blocks, c.inferred, ps);
      RunPlain(c, Step(c.fork, c.blocks, c.inferred, ps), n - 1);
    }
  }

  lemma StartPlain(c: Setup)
    requires PlainSetup(c)
    ensures PlainProp(Start(c.fork, c.blocks, c.initialItems, c.inferred, c.preGrow))
  {
    hide FirstExit, ItemTexts, Propagated, ValidGraph;
    FirstExitPlain(c);
    assert c.InitItems() == c.initialItems && !c.InitWild();
    var first := BlockState(true, c.InitItems(), ItemTexts(c.First()), map[INITIAL := c.InitItems()],
                            map[INITIAL := c.InitWild()], map[], c.InitWild(), c.First().wildcard);
    var ps := Prop(OnlyFirst(|c.blocks|, first), [], NoneQueued(|c.blocks|), 0);
    assert PlainState(first) && PlainState(UNREACHED);
    PropagatedPlain(c.blocks, ps, 0);
  }

  /** In a document without wildcards, no block state ever gets one. */
  lemma ResultPlain(c: Setup, n: nat)
    requires PlainSetup(c)
    ensures PlainProp(AfterRounds(c, n))
  {
    hide Start, Run, PlainProp, ValidProp, ValidGraph;
    StartValid(c.fork, c.blocks, c.initialItems, c.inferred, c.preGrow);
    StartPlain(c);
    RunPlain(c, Start(c.fork, c.blocks, c.initialItems, c.inferred, c.preGrow), n);
  }
}
