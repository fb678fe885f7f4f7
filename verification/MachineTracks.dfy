/** The symbolic stack of the stack checker tracks the machine through the statements of a block. */
module MachineTracks {
  import opened Base
  import opened SymbolicStack
  import opened Tracking
  import opened Statements
  import opened Worklist
  import opened Machine

  /** The machine goes from w to w' at a statement that does not end a block. */
  ghost predicate Passes(fork: Fork, st: Statement, w: seq<Word>, w': seq<Word>) {
    if st.Opcode? then Does(ActionOf(fork, st), w, w') else w' == w
  }

  lemma StatementTracks(fork: Fork, st: Statement, s: StackState, w: seq<Word>, w': seq<Word>)
    requires ValidFork(fork) && CommentOf(st).Ok?
    requires Tracks(s, w) && Passes(fork, st, w, w')
    requires StatementApplied(fork, st, s).1 != Some(OpUnderflow)
    ensures Tracks(StatementApplied(fork, st, s).0, w')
  {
    hide Effect, ActionOf, Applied, Does, OpStep, CommentOf, Tracks;
    if st.Opcode? {
      EffectIsAction(fork, st, w, w');
      NeverUnknown(w, w');
      ApplyTracks(s, Effect(fork, st).value, CommentOf(st).value, w, w');
    }
  }

  lemma NeverUnknown(w: seq<Word>, w': seq<Word>)
    ensures !Does(Unknown, w, w')
  {
  }

  predicate WalkUnderflows(fork: Fork, stmts: seq<Statement>, s: StackState)
    decreases |stmts|
  {
    stmts != [] &&
    (StatementApplied(fork, stmts[0], s).1 == Some(OpUnderflow) || WalkUnderflows(fork, stmts[1..], StatementApplied(fork, stmts[0], s).0))
  }

  ghost predicate AllPass(fork: Fork, stmts: seq<Statement>, ws: seq<seq<Word>>) {
    |ws| == |stmts| + 1 && forall i :: 0 <= i < |stmts| ==> Passes(fork, stmts[i], ws[i], ws[i + 1])
  }

  /**
   * If the symbolic stack tracks the machine before some statements, and the checker finds no underflow in
   * them, then the symbolic stack after them tracks the machine after them.
   */
  lemma {:induction false} WalkTracks(fork: Fork, stmts: seq<Statement>, s: StackState, ws: seq<seq<Word>>)
    requires ValidFork(fork) && (forall i :: 0 <= i < |stmts| ==> CommentOf(stmts[i]).Ok?)
    requires AllPass(fork, stmts, ws) && Tracks(s, ws[0]) && !WalkUnderflows(fork, stmts, s)
    ensures Tracks(Walked(fork, stmts, s), ws[|stmts|])
    decreases |stmts|
  {
    hide StatementApplied, Tracks, CommentOf, Passes, ValidFork;
    if stmts != [] {
      assert Passes(fork, stmts[0], ws[0], ws[0 + 1]);
      StatementTracks(fork, stmts[0], s, ws[0], ws[1]);
      RestPasses(fork, stmts, ws);
      WalkTracks(fork, stmts[1..], StatementApplied(fork, stmts[0], s).0, ws[1..]);
    }
  }

  lemma RestPasses(fork: Fork, stmts: seq<Statement>, ws: seq<seq<Word>>)
    requires stmts != [] && AllPass(fork, stmts, ws)
    ensures AllPass(fork, stmts[1..], ws[1..])
  {
    hide Passes;
    forall i | 0 <= i < |stmts[1..]|
      ensures Passes(fork, stmts[1..][i], ws[1..][i], ws[1..][i + 1])
    {
      assert Passes(fork, stmts[i + 1], ws[i + 1], ws[i + 1 + 1]);
    }
  }
}
