/** Division of a document's statements into basic blocks (internal/stackcheck/blocks.go). */
module Blocks {
  import opened Base
  import opened Statements

  datatype Block = Block(
    statements: seq<Statement>,
    labelName: string,                 // non-empty if the block starts with a JUMPDEST label
    labelComment: Option<string>,     // the stack comment on the label, if any
    jumpTarget: string,               // label name if the block ends with a jump to a literal label
    successors: seq<nat>,
    isJumpTarget: bool,
    endsWithTerminal: bool,
    endsWithUnconditionalJump: bool,
    hasExternalJump: bool,
    canFallThrough: bool)

  function NewBlock(canFallThrough: bool): Block {
    Block([], "", None, "", [], false, false, false, false, canFallThrough)
  }

  function Flatten(blocks: seq<Block>): seq<Statement> {
    if blocks == [] then [] else Flatten(blocks[..|blocks| - 1]) + blocks[|blocks| - 1].statements
  }

  function Last(b: Block): Statement
    requires b.statements != []
  {
    b.statements[|b.statements| - 1]
  }

  /** A finished block: its fields say what its first and its last statement are. */
  ghost predicate ValidBlock(fork: Fork, b: Block) {
    && b.statements != []
    && (forall k :: 0 < k < |b.statements| ==> !StartsBlock(b.statements[k]))
    && (forall k :: 0 <= k < |b.statements| - 1 ==> !EndsBlock(fork, b.statements[k]))
    && b.labelName == LabelName(b.statements[0])
    && b.labelComment == LabelCommentText(b.statements[0])
    && b.isJumpTarget == StartsBlock(b.statements[0])
    && b.jumpTarget == JumpTarget(fork, Last(b))
    && b.endsWithTerminal == IsTerm(fork, Last(b))
    && b.endsWithUnconditionalJump == IsUnconditional(fork, Last(b))
  }

  predicate FallsThrough(b: Block) {
    !b.endsWithTerminal && !b.endsWithUnconditionalJump
  }

  /** Two neighbours are separate because the first one ends, or the second one starts, a block. */
  ghost predicate Adjacent(fork: Fork, a: Block, b: Block)
    requires a.statements != [] && b.statements != []
  {
    && (EndsBlock(fork, Last(a)) || StartsBlock(b.statements[0]))
    && b.canFallThrough == FallsThrough(a)
  }

  /** The blocks partition the statements. */
  ghost predicate Partition(fork: Fork, stmts: seq<Statement>, blocks: seq<Block>) {
    && Flatten(blocks) == stmts
    && (forall b :: 0 <= b < |blocks| ==> ValidBlock(fork, blocks[b]))
    && (forall b :: 0 <= b < |blocks| - 1 ==> Adjacent(fork, blocks[b], blocks[b + 1]))
    && (blocks != [] ==> blocks[0].canFallThrough)
  }

  /** Labels lead to the last block that starts with them. */
  ghost predicate LabelsOf(blocks: seq<Block>, n: nat, labelIndex: map<string, nat>)
    requires n <= |blocks|
  {
    && (forall l :: l in labelIndex ==> l != "" && labelIndex[l] < n && blocks[labelIndex[l]].labelName == l)
    && (forall b :: 0 <= b < n && blocks[b].labelName != "" ==> blocks[b].labelName in labelIndex && b <= labelIndex[blocks[b].labelName])
  }

  function EdgesOf(blocks: seq<Block>, labelIndex: map<string, nat>, i: nat): seq<nat>
    requires i < |blocks|
  {
    (if i + 1 < |blocks| && FallsThrough(blocks[i]) then [i + 1] else [])
    + (if blocks[i].jumpTarget != "" && blocks[i].jumpTarget in labelIndex then [labelIndex[blocks[i].jumpTarget]] else [])
  }

  ghost predicate HasEdges(blocks: seq<Block>, labelIndex: map<string, nat>, i: nat)
    requires i < |blocks|
  {
    && blocks[i].successors == EdgesOf(blocks, labelIndex, i)
    && (blocks[i].hasExternalJump <==> blocks[i].jumpTarget != "" && blocks[i].jumpTarget !in labelIndex)
  }

  /** What splitBlocks promises. */
  ghost predicate BlockGraph(fork: Fork, stmts: seq<Statement>, blocks: seq<Block>, labelIndex: map<string, nat>) {
    && Partition(fork, stmts, blocks)
    && LabelsOf(blocks, |blocks|, labelIndex)
    && (forall i :: 0 <= i < |blocks| ==> HasEdges(blocks, labelIndex, i))
  }

  // ----- splitting -----

  /** The block being filled: its head is right and nothing in it ends a block. */
  ghost predicate OpenBlock(fork: Fork, b: Block) {
    && (forall k :: 0 < k < |b.statements| ==> !StartsBlock(b.statements[k]))
    && (forall k :: 0 <= k < |b.statements| ==> !EndsBlock(fork, b.statements[k]))
    && (if b.statements == [] then b == NewBlock(b.canFallThrough)
        else
          && b.labelName == LabelName(b.statements[0])
          && b.labelComment == LabelCommentText(b.statements[0])
          && b.isJumpTarget == StartsBlock(b.statements[0]))
    && b.jumpTarget == "" && !b.endsWithTerminal && !b.endsWithUnconditionalJump
  }

  /** The open block continues the finished ones. */
  ghost predicate Continues(fork: Fork, blocks: seq<Block>, cur: Block)
    requires blocks != [] ==> blocks[|blocks| - 1].statements != []
  {
    if blocks == [] then cur.canFallThrough
    else
      var prev := blocks[|blocks| - 1];
      && cur.canFallThrough == FallsThrough(prev)
      && (EndsBlock(fork, Last(prev)) || (cur.statements != [] && StartsBlock(cur.statements[0])))
  }

  lemma FlattenSnoc(blocks: seq<Block>, b: Block)
    ensures Flatten(blocks + [b]) == Flatten(blocks) + b.statements
  {
    assert (blocks + [b])[..|blocks|] == blocks;
  }

  lemma AppendBlock(fork: Fork, stmts: seq<Statement>, blocks: seq<Block>, b: Block)
    requires Partition(fork, stmts, blocks)
    requires ValidBlock(fork, b)
    requires LastNonEmpty(blocks) && Continues(fork, blocks, b)
    ensures Partition(fork, stmts + b.statements, blocks + [b])
    ensures LastNonEmpty(blocks + [b])
  {
    FlattenSnoc(blocks, b);
    var bs := blocks + [b];
    forall i | 0 <= i < |bs|
      ensures ValidBlock(fork, bs[i])
    {
    }
    BlocksNonEmpty(fork, bs);
    hide ValidBlock, StartsBlock, EndsBlock, Flatten;
    forall i | 0 <= i < |bs| - 1
      ensures Adjacent(fork, bs[i], bs[i + 1])
    {
      if i == |blocks| - 1 {
        assert bs[i] == blocks[|blocks| - 1] && bs[i + 1] == b;
      } else {
        assert Adjacent(fork, blocks[i], blocks[i + 1]);
      }
    }
  }

  ghost predicate LastNonEmpty(blocks: seq<Block>) {
    blocks != [] ==> blocks[|blocks| - 1].statements != []
  }

  lemma BlocksNonEmpty(fork: Fork, blocks: seq<Block>)
    requires forall b :: 0 <= b < |blocks| ==> ValidBlock(fork, blocks[b])
    ensures forall b :: 0 <= b < |blocks| ==> blocks[b].statements != []
  {
  }

  /** The state of the splitting loop: finished blocks, and the current one. */
  ghost predicate Splitting(fork: Fork, done: seq<Statement>, blocks: seq<Block>, cur: Block) {
    && Partition(fork, done, blocks)
    && LastNonEmpty(blocks)
    && OpenBlock(fork, cur) && Continues(fork, blocks, cur)
  }

  /** The finished blocks and the current one hold the given statements. */
  ghost predicate Split(fork: Fork, stmts: seq<Statement>, blocks: seq<Block>, cur: Block) {
    exists done :: Splitting(fork, done, blocks, cur) && done + cur.statements == stmts
  }

  /** Fills the current block statement by statement, and appends finished blocks. */
  method Partitioned(fork: Fork, stmts: seq<Statement>) returns (blocks: seq<Block>)
    ensures Partition(fork, stmts, blocks)
  {
    hide Splitting, StartsBlock, EndsBlock, Partition;
    blocks := [];
    var cur := NewBlock(true);
    StartSplitting(fork);
    for i := 0 to |stmts|
      invariant Split(fork, stmts[..i], blocks, cur)
    {
      var st := stmts[i];
      assert stmts[..i + 1] == stmts[..i] + [st];
      if StartsBlock(st) {
        blocks, cur := AddLabel(fork, blocks, cur, st, stmts[..i]);
      } else if EndsBlock(fork, st) {
        blocks, cur := AddEnd(fork, blocks, cur, st, stmts[..i]);
      } else {
        AddPlain(fork, blocks, cur, st, stmts[..i]);
        cur := cur.(statements := cur.statements + [st]);
      }
    }
    assert stmts[..|stmts|] == stmts;
    FinishSplitting(fork, stmts, blocks, cur);
    if |cur.statements| > 0 {
      blocks := blocks + [cur];
    }
  }

  lemma StartSplitting(fork: Fork)
    ensures Split(fork, [], [], NewBlock(true))
  {
    assert Splitting(fork, [], [], NewBlock(true));
  }

  lemma FinishSplitting(fork: Fork, stmts: seq<Statement>, blocks: seq<Block>, cur: Block)
    requires Split(fork, stmts, blocks, cur)
    ensures Partition(fork, stmts, if cur.statements == [] then blocks else blocks + [cur])
  {
    hide Partition;
    var done :| Splitting(fork, done, blocks, cur) && done + cur.statements == stmts;
    if cur.statements != [] {
      OpenBlockValid(fork, cur);
      AppendBlock(fork, done, blocks, cur);
    } else {
      assert done == stmts;
    }
  }

  lemma OpenBlockValid(fork: Fork, b: Block)
    requires OpenBlock(fork, b) && b.statements != []
    ensures ValidBlock(fork, b)
  {
  }

  /** A label starts a new block, unless the current block is still empty. */
  method AddLabel(fork: Fork, blocks0: seq<Block>, cur0: Block, st: Statement, ghost stmts: seq<Statement>)
    returns (blocks: seq<Block>, cur: Block)
    requires Split(fork, stmts, blocks0, cur0) && StartsBlock(st)
    ensures Split(fork, stmts + [st], blocks, cur)
  {
    hide Partition;
    blocks, cur := blocks0, cur0;
    ghost var done :| Splitting(fork, done, blocks, cur) && done + cur.statements == stmts;
    if |cur.statements| > 0 {
      OpenBlockValid(fork, cur);
      AppendBlock(fork, done, blocks, cur);
      blocks, done := blocks + [cur], done + cur.statements;
      var prev := cur;
      cur := NewBlock(!prev.endsWithTerminal && !prev.endsWithUnconditionalJump);
    }
    LabelledOpen(fork, cur, st);
    cur := cur.(labelName := st.ident, labelComment := StackCommentText(st.comment), isJumpTarget := true,
                statements := cur.statements + [st]);
    assert cur.statements == [st];
    assert Splitting(fork, done, blocks, cur);
  }

  lemma LabelledOpen(fork: Fork, cur: Block, st: Statement)
    requires OpenBlock(fork, cur) && cur.statements == [] && StartsBlock(st)
    ensures OpenBlock(fork, cur.(labelName := st.ident, labelComment := StackCommentText(st.comment), isJumpTarget := true,
                                 statements := [st]))
  {
  }

  /** A terminal instruction or jump finishes the current block. */
  method AddEnd(fork: Fork, blocks0: seq<Block>, cur0: Block, st: Statement, ghost stmts: seq<Statement>)
    returns (blocks: seq<Block>, cur: Block)
    requires Split(fork, stmts, blocks0, cur0) && !StartsBlock(st) && EndsBlock(fork, st)
    ensures Split(fork, stmts + [st], blocks, cur)
  {
    hide Partition;
    ghost var done :| Splitting(fork, done, blocks0, cur0) && done + cur0.statements == stmts;
    cur := Finished(fork, cur0, st);
    assert Continues(fork, blocks0, cur);
    assert EndsBlock(fork, Last(cur));
    AppendBlock(fork, done, blocks0, cur);
    blocks, done := blocks0 + [cur], done + cur.statements;
    cur := NewBlock(!IsTerm(fork, st) && !IsUnconditional(fork, st));
    hide ValidBlock;
    assert done + [] == done;
    assert Splitting(fork, done, blocks, cur);
  }

  lemma AddPlain(fork: Fork, blocks: seq<Block>, cur: Block, st: Statement, stmts: seq<Statement>)
    requires Split(fork, stmts, blocks, cur) && !StartsBlock(st) && !EndsBlock(fork, st)
    ensures Split(fork, stmts + [st], blocks, cur.(statements := cur.statements + [st]))
  {
    hide Partition;
    var done :| Splitting(fork, done, blocks, cur) && done + cur.statements == stmts;
    assert done + (cur.statements + [st]) == stmts + [st];
    assert Splitting(fork, done, blocks, cur.(statements := cur.statements + [st]));
  }

  /** The current block with a terminal instruction or jump at its end. */
  function Finished(fork: Fork, cur: Block, st: Statement): (b: Block)
    requires OpenBlock(fork, cur) && !StartsBlock(st) && EndsBlock(fork, st)
    ensures ValidBlock(fork, b) && b.statements == cur.statements + [st]
    ensures b.canFallThrough == cur.canFallThrough
  {
    cur.(statements := cur.statements + [st],
         jumpTarget := JumpTarget(fork, st),
         endsWithTerminal := IsTerm(fork, st),
         endsWithUnconditionalJump := IsUnconditional(fork, st))
  }

  /** Builds the label-to-block index for resolving jump targets. */
  method IndexLabels(blocks: seq<Block>) returns (labelIndex: map<string, nat>)
    ensures LabelsOf(blocks, |blocks|, labelIndex)
  {
    labelIndex := map[];
    for i := 0 to |blocks|
      invariant LabelsOf(blocks, i, labelIndex)
    {
      if blocks[i].labelName != "" {
        labelIndex := labelIndex[blocks[i].labelName := i];
      }
    }
  }

  /** Divides a document's statements into basic blocks and computes the successor edges. */
  method SplitBlocks(fork: Fork, stmts: seq<Statement>) returns (blocks: seq<Block>, labelIndex: map<string, nat>)
    ensures BlockGraph(fork, stmts, blocks, labelIndex)
  {
    hide Partition, LabelsOf;
    var parts := Partitioned(fork, stmts);
    labelIndex := IndexLabels(parts);
    blocks := parts;
    for i := 0 to |parts|
      invariant |blocks| == |parts|
      invariant forall k :: i <= k < |parts| ==> blocks[k] == parts[k]
      invariant forall k :: 0 <= k < i ==> blocks[k] == WithEdges(parts, labelIndex, k)
    {
      var blk := parts[i];
      var successors: seq<nat> := [];
      var external := false;
      if i + 1 < |blocks| && !blk.endsWithTerminal && !blk.endsWithUnconditionalJump {
        successors := successors + [i + 1];
      }
      if blk.jumpTarget != "" {
        if blk.jumpTarget in labelIndex {
          successors := successors + [labelIndex[blk.jumpTarget]];
        } else {
          external := true;
        }
      }
      blocks := blocks[i := blk.(successors := successors, hasExternalJump := external)];
    }
    EdgesKeep(fork, stmts, parts, labelIndex, blocks);
  }

  function WithEdges(parts: seq<Block>, labelIndex: map<string, nat>, k: nat): Block
    requires k < |parts|
  {
    parts[k].(successors := EdgesOf(parts, labelIndex, k),
              hasExternalJump := parts[k].jumpTarget != "" && parts[k].jumpTarget !in labelIndex)
  }

  lemma {:induction false} FlattenSame(a: seq<Block>, b: seq<Block>)
    requires |a| == |b|
    requires forall k :: 0 <= k < |a| ==> a[k].statements == b[k].statements
    ensures Flatten(a) == Flatten(b)
    decreases |a|
  {
    if a != [] {
      FlattenSame(a[..|a| - 1], b[..|b| - 1]);
    }
  }

  /** The second block is the first one with edges. */
  ghost predicate OnlyEdges(b: Block, b': Block) {
    b' == b.(successors := b'.successors, hasExternalJump := b'.hasExternalJump)
  }

  lemma OnlyEdgesValid(fork: Fork, b: Block, b': Block)
    requires OnlyEdges(b, b') && ValidBlock(fork, b)
    ensures ValidBlock(fork, b') && b'.statements == b.statements != []
  {
  }

  lemma OnlyEdgesAdjacent(fork: Fork, a: Block, a': Block, b: Block, b': Block)
    requires OnlyEdges(a, a') && OnlyEdges(b, b')
    requires a.statements != [] && b.statements != []
    requires Adjacent(fork, a, b)
    ensures Adjacent(fork, a', b')
  {
  }

  lemma EdgesKeepPartition(fork: Fork, stmts: seq<Statement>, parts: seq<Block>, blocks: seq<Block>)
    requires Partition(fork, stmts, parts)
    requires |blocks| == |parts| && forall k :: 0 <= k < |parts| ==> OnlyEdges(parts[k], blocks[k])
    ensures Partition(fork, stmts, blocks)
  {
    hide ValidBlock, Adjacent;
    forall b | 0 <= b < |blocks|
      ensures ValidBlock(fork, blocks[b]) && blocks[b].statements == parts[b].statements != []
    {
      OnlyEdgesValid(fork, parts[b], blocks[b]);
    }
    FlattenSame(parts, blocks);
    hide Flatten;
    forall b | 0 <= b < |blocks| - 1
      ensures Adjacent(fork, blocks[b], blocks[b + 1])
    {
      OnlyEdgesAdjacent(fork, parts[b], blocks[b], parts[b + 1], blocks[b + 1]);
    }
  }

  /** Writing the edges changes nothing else about the blocks. */
  lemma EdgesKeep(fork: Fork, stmts: seq<Statement>, parts: seq<Block>, labelIndex: map<string, nat>, blocks: seq<Block>)
    requires Partition(fork, stmts, parts) && LabelsOf(parts, |parts|, labelIndex)
    requires |blocks| == |parts| && forall k :: 0 <= k < |parts| ==> blocks[k] == WithEdges(parts, labelIndex, k)
    ensures BlockGraph(fork, stmts, blocks, labelIndex)
  {
    hide Partition;
    EdgesKeepPartition(fork, stmts, parts, blocks);
    forall i | 0 <= i < |blocks|
      ensures HasEdges(blocks, labelIndex, i)
    {
      assert EdgesOf(blocks, labelIndex, i) == EdgesOf(parts, labelIndex, i);
    }
  }
}
