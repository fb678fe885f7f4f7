/** The depth of a symbolic stack does not depend on item names. */
module StackDepth {
  import opened Base
  import opened StackComment
  import opened SymbolicStack
  import opened Statements
  import opened Blocks
  import opened Worklist

  /** All items are tracked: no unknown items below, and no growth. */
  predicate Closed(s: StackState) {
    !s.wildcard && !s.inferred
  }

  predicate NoWild(comment: Option<seq<string>>) {
    comment.Some? ==> !HasWildcard(comment.value)
  }

  lemma {:induction false} PullClosed(s: StackState, n: nat)
    requires Closed(s)
    ensures Pull(s, n) == (s, n <= |s.items|)
  {
    if n > 0 {
      PullClosed(s, n - 1);
    }
  }

  lemma {:induction false} PushOutsDepth(s: StackState, ins: seq<string>, popped: seq<nat>, outs: seq<string>)
    requires |popped| == |ins|
    ensures var r := PushOuts(s, ins, popped, outs).0;
            && |r.items| == |s.items| + |outs|
            && r.wildcard == s.wildcard && r.inferred == s.inferred && r.inferredItems == s.inferredItems
  {
    if outs != [] {
      PushOutsDepth(s, ins, popped, outs[1..]);
    }
  }

  lemma CheckItemDepth(c: Checking, names: seq<string>, i: nat, outs: seq<string>)
    requires i < |names| && i < |c.st.items|
    ensures var r := CheckItem(c, names, i, outs);
            && |r.st.items| == |c.st.items|
            && r.st.wildcard == c.st.wildcard && r.st.inferred == c.st.inferred && r.st.inferredItems == c.st.inferredItems
  {
  }

  /** Without wildcard, checking names keeps the depth, and fails exactly if there are more names than items. */
  lemma {:induction false} CheckItemsDepth(c: Checking, names: seq<string>, i: nat, outs: seq<string>)
    requires i <= |names| && i <= |c.st.items| && !c.st.wildcard
    ensures var (r, deeper) := CheckItems(c, names, i, outs);
            && |r.st.items| == |c.st.items|
            && r.st.wildcard == c.st.wildcard && r.st.inferred == c.st.inferred && r.st.inferredItems == c.st.inferredItems
            && (deeper <==> |names| > |c.st.items| && !c.st.inferred)
    decreases |names| - i
  {
    hide CheckItem;
    if i < |names| && i < |c.st.items| {
      CheckItemDepth(c, names, i, outs);
      CheckItemsDepth(CheckItem(c, names, i, outs), names, i + 1, outs);
    }
  }

  /** A comment without wildcard that may elide items keeps the depth. */
  lemma CheckedDepth(s: StackState, comment: Option<seq<string>>, created: set<nat>, outs: seq<string>)
    requires !s.wildcard && NoWild(comment)
    ensures var (r, err) := Checked(s, comment, true, created, outs);
            && |r.items| == |s.items| && err != Some(OpUnderflow)
            && r.wildcard == s.wildcard && r.inferred == s.inferred && r.inferredItems == s.inferredItems
  {
    hide CheckItems;
    if comment.Some? {
      var start := Checking(s.(wildcard := false), created, map[], None);
      CheckItemsDepth(start, comment.value, 0, outs);
      NamingErrors(start, comment.value, 0, outs);
    }
  }

  lemma {:induction false} NamingErrors(c: Checking, names: seq<string>, i: nat, outs: seq<string>)
    requires i <= |names|
    requires c.err != Some(OpUnderflow) && c.err != Some(CommentDepth) && c.err != Some(CommentUnderflow)
    ensures var e := CheckItems(c, names, i, outs).0.err;
            e != Some(OpUnderflow) && e != Some(CommentDepth) && e != Some(CommentUnderflow)
    decreases |names| - i
  {
    hide CheckItem;
    if i < |names| && i < |Peeked(c, i).st.items| {
      NamingErrorAt(Peeked(c, i), names, i, outs);
      NamingErrors(CheckItem(Peeked(c, i), names, i, outs), names, i + 1, outs);
    }
  }

  lemma NamingErrorAt(c: Checking, names: seq<string>, i: nat, outs: seq<string>)
    requires i < |names| && i < |c.st.items|
    ensures var e := CheckItem(c, names, i, outs).err; e == c.err || e == Some(Mismatch) || e == Some(Rename)
  {
    hide Splits, Resolve, AssignName, Contradicts, Conflicts, Renames;
  }

  /**
   * In closed mode an operation underflows exactly if the stack is too small for it; then the stack
   * stays as it was. Otherwise the depth changes by the declared effect, whatever the comment says.
   */
  lemma AppliedDepth(s: StackState, op: StackOp, comment: Option<seq<string>>)
    requires Closed(s) && NoWild(comment)
    ensures var (r, err) := Applied(s, op, comment);
            && Closed(r)
            && (err == Some(OpUnderflow) <==> |s.items| < |op.ins|)
            && (|s.items| < |op.ins| ==> r == s)
            && (|s.items| >= |op.ins| ==> |r.items| == |s.items| - |op.ins| + |op.outs|)
  {
    hide Pull, PushOuts, Checked;
    PullClosed(s, |op.ins|);
    if |op.ins| <= |s.items| {
      var base := s.(items := s.items[..|s.items| - |op.ins|]);
      PushOutsDepth(base, op.ins, TopItems(s, |op.ins|), op.outs);
      var (r, created) := PushOuts(base, op.ins, TopItems(s, |op.ins|), op.outs);
      CheckedDepth(r, comment, created, op.outs);
    }
  }

  /** A label comment without wildcard must list the whole stack; a shorter one truncates it. */
  lemma LabelDepth(s: StackState, comment: seq<string>)
    requires Closed(s) && !HasWildcard(comment)
    ensures var (r, err) := LabelChecked(s, comment);
            && Closed(r)
            && (err == Some(CommentUnderflow) <==> |comment| > |s.items|)
            && (err == Some(CommentDepth) <==> |comment| < |s.items|)
            && err != Some(OpUnderflow)
            && |r.items| == Min(|s.items|, |comment|)
  {
    hide CheckItems;
    var start := Checking(s.(wildcard := false), {}, map[], None);
    CheckItemsDepth(start, comment, 0, []);
    NamingErrors(start, comment, 0, []);
  }

  // ----- statements -----

  /** The parsed comment of the statement, if any, has no wildcard. */
  predicate PlainComment(st: Statement) {
    CommentOf(st).Ok? ==> NoWild(CommentOf(st).value)
  }

  predicate PlainComments(stmts: seq<Statement>) {
    forall i :: 0 <= i < |stmts| ==> PlainComment(stmts[i])
  }

  /** The change of the stack depth by one statement: items consumed and items produced. */
  function Inputs(fork: Fork, st: Statement): nat {
    if Effect(fork, st).Some? then |Effect(fork, st).value.ins| else 0
  }

  function Outputs(fork: Fork, st: Statement): nat {
    if Effect(fork, st).Some? then |Effect(fork, st).value.outs| else 0
  }

  lemma StatementDepth(fork: Fork, st: Statement, s: StackState)
    requires Closed(s) && PlainComment(st) && CommentOf(st).Ok?
    ensures var (r, err) := StatementApplied(fork, st, s);
            && Closed(r)
            && (err == Some(OpUnderflow) <==> |s.items| < Inputs(fork, st))
            && (|s.items| >= Inputs(fork, st) ==> |r.items| == |s.items| - Inputs(fork, st) + Outputs(fork, st))
  {
    hide Effect, Applied, CommentOf;
    var op := Effect(fork, st);
    if op.Some? {
      AppliedDepth(s, op.value, CommentOf(st).value);
    }
  }

  /** The depth after a sequence of statements, if none of them underflows. */
  function DepthAfter(fork: Fork, stmts: seq<Statement>, d: int): int
    decreases |stmts|
  {
    if stmts == [] then d
    else DepthAfter(fork, stmts[1..], d - Inputs(fork, stmts[0]) + Outputs(fork, stmts[0]))
  }

  /** No statement needs more items than there are. */
  predicate Suffices(fork: Fork, stmts: seq<Statement>, d: int)
    decreases |stmts|
  {
    stmts != [] ==>
      && Inputs(fork, stmts[0]) <= d
      && Suffices(fork, stmts[1..], d - Inputs(fork, stmts[0]) + Outputs(fork, stmts[0]))
  }

  ghost predicate ParsedComments(stmts: seq<Statement>) {
    forall i :: 0 <= i < |stmts| ==> CommentOf(stmts[i]).Ok?
  }

  lemma {:induction false} WalkedDepth(fork: Fork, stmts: seq<Statement>, s: StackState)
    requires Closed(s) && PlainComments(stmts) && ParsedComments(stmts)
    requires Suffices(fork, stmts, |s.items|)
    ensures |Walked(fork, stmts, s).items| == DepthAfter(fork, stmts, |s.items|)
    decreases |stmts|
  {
    hide StatementApplied, PlainComment, Closed, CommentOf, Inputs, Outputs;
    if stmts != [] {
      assert PlainComment(stmts[0]) && CommentOf(stmts[0]).Ok?;
      StatementDepth(fork, stmts[0], s);
      WalkedDepth(fork, stmts[1..], StatementApplied(fork, stmts[0], s).0);
    }
  }

  lemma {:induction false} DepthSplit(fork: Fork, a: seq<Statement>, b: seq<Statement>, d: int)
    ensures DepthAfter(fork, a + b, d) == DepthAfter(fork, b, DepthAfter(fork, a, d))
    ensures Suffices(fork, a + b, d) <==> Suffices(fork, a, d) && Suffices(fork, b, DepthAfter(fork, a, d))
    decreases |a|
  {
    hide Inputs, Outputs;
    if a == [] {
      assert a + b == b;
    } else {
      assert (a + b)[1..] == a[1..] + b;
      DepthSplit(fork, a[1..], b, d - Inputs(fork, a[0]) + Outputs(fork, a[0]));
    }
  }

  /** The depth before and after statement k of a sequence that never underflows. */
  lemma SufficesAt(fork: Fork, stmts: seq<Statement>, d: int, k: nat)
    requires k < |stmts| && Suffices(fork, stmts, d)
    ensures Inputs(fork, stmts[k]) <= DepthAfter(fork, stmts[..k], d)
    ensures DepthAfter(fork, stmts[..k + 1], d) == DepthAfter(fork, stmts[..k], d) - Inputs(fork, stmts[k]) + Outputs(fork, stmts[k])
  {
    hide Inputs, Outputs;
    DepthSplit(fork, stmts[..k], stmts[k..], d);
    assert stmts == stmts[..k] + stmts[k..];
    assert stmts[k..][0] == stmts[k];
    DepthSplit(fork, stmts[..k], [stmts[k]], d);
    assert stmts[..k + 1] == stmts[..k] + [stmts[k]];
    assert [stmts[k]][1..] == [];
  }
}
