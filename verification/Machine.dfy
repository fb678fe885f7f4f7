/**
 * What the machine does at the statements of a document: the words that an operation takes and leaves, from
 * its name and its own arguments, and where control goes. Nothing here refers to the stack checker.
 */
module Machine {
  import opened Base
  import opened Tracking
  import opened SymbolicStack
  import opened EvmOps
  import opened InstructionSets
  import opened Statements

  // ----- words -----

  /** What a statement does to the stack. Positions count from one at the top. */
  datatype Action =
    | Duplicate(n: nat)
    | Exchange(n: nat, m: nat)
    | PushWord
    | Declared(ins: seq<string>, outs: seq<string>)
    | Unknown

  /** DUPN and SWAPN take one argument from 17 to 235. */
  function DupAction(args: seq<int>): Action {
    // An operation without its argument is followed by the byte zero.
    if args == [] then Duplicate(17)
    else if |args| == 1 && 17 <= args[0] <= 235 then Duplicate(args[0])
    else Unknown
  }

  function SwapAction(args: seq<int>): Action {
    if args == [] then Exchange(1, 17)
    else if |args| == 1 && 17 <= args[0] <= 235 then Exchange(1, args[0])
    else Unknown
  }

  /** EXCHANGE takes two arguments, in order, with a sum of at most 30. */
  function ExchangeAction(args: seq<int>): Action {
    if args == [] then Exchange(1, 29)
    else if |args| == 2 && 1 <= args[0] <= 13 && args[0] < args[1] <= 29 && args[0] + args[1] <= 30 then Exchange(args[0], args[1])
    else Unknown
  }

  /** Other operations do what the instruction set declares; they have no arguments. */
  function OtherAction(op: Op): Action {
    Declared(op.ins, op.outs)
  }

  function ActionOf(fork: Fork, st: Statement): Action
    requires st.Opcode?
  {
    if st.name !in fork then
      // A push without size is resolved later.
      if IsPush(st.name) then PushWord else Unknown
    else
      var op := fork[st.name];
      if op.jump && st.arg != NoArg then
        // The label is pushed right before the jump takes it.
        Declared(if |op.ins| > 1 then op.ins[1..] else [], [])
      else if st.name == "DUPN" then DupAction(st.immediates)
      else if st.name == "SWAPN" then SwapAction(st.immediates)
      else if st.name == "EXCHANGE" then ExchangeAction(st.immediates)
      else OtherAction(op)
  }

  /** How many words an action reaches down. */
  function Needs(a: Action): nat {
    match a
    case Duplicate(n) => n
    case Exchange(n, m) => Max(n, m)
    case PushWord => 0
    case Declared(ins, _) => |ins|
    case Unknown => 0
  }

  /** The action takes the stack from w to w', top first. */
  ghost predicate Does(a: Action, w: seq<Word>, w': seq<Word>) {
    match a
    case Duplicate(n) => 1 <= n <= |w| && w' == [w[n - 1]] + w
    case Exchange(n, m) => 1 <= n <= |w| && 1 <= m <= |w| && w' == w[n - 1 := w[m - 1]][m - 1 := w[n - 1]]
    case PushWord => |w'| == |w| + 1 && w'[1..] == w
    case Declared(ins, outs) => OpStep(StackOp(ins, outs), w, w')
    case Unknown => false
  }

  // ----- control -----

  /** A machine state: the next statement, and the stack, top first. */
  datatype Config = Config(pc: nat, w: seq<Word>)

  ghost predicate LabelAt(stmts: seq<Statement>, t: nat, ident: string) {
    t < |stmts| && stmts[t].LabelDef? && !stmts[t].dotted && stmts[t].ident == ident
  }

  /** Conditional jumps may go either way; terminal instructions end the run. */
  ghost predicate Goes(fork: Fork, stmts: seq<Statement>, pc: nat, pc': nat)
    requires pc < |stmts| && stmts[pc].Opcode?
  {
    var st := stmts[pc];
    var op := if st.name in fork then Some(fork[st.name]) else None;
    || (op.Some? && op.value.jump && st.arg.LabelArg? && !st.arg.dotted && LabelAt(stmts, pc', st.arg.ident))
    || ((op.None? || (!op.value.term && !op.value.unconditional)) && pc' == pc + 1)
  }

  /** One step of the machine. */
  ghost predicate Executes(fork: Fork, stmts: seq<Statement>, c: Config, c': Config) {
    && c.pc < |stmts|
    && if !stmts[c.pc].Opcode? then c' == Config(c.pc + 1, c.w)
       else Does(ActionOf(fork, stmts[c.pc]), c.w, c'.w) && Goes(fork, stmts, c.pc, c'.pc)
  }

  /** The next statement needs more words than the stack has. */
  ghost predicate Underflows(fork: Fork, stmts: seq<Statement>, c: Config) {
    c.pc < |stmts| && stmts[c.pc].Opcode? && |c.w| < Needs(ActionOf(fork, stmts[c.pc]))
  }

  ghost predicate Execution(fork: Fork, stmts: seq<Statement>, path: seq<Config>) {
    && |path| > 0
    && forall i :: 0 <= i < |path| - 1 ==> Executes(fork, stmts, path[i], path[i + 1])
  }

  /** All opcodes are known, and all jumps are to literal labels of the document. */
  ghost predicate LiteralControlFlow(fork: Fork, stmts: seq<Statement>) {
    forall i :: 0 <= i < |stmts| && stmts[i].Opcode? ==>
      && ActionOf(fork, stmts[i]) != Unknown
      && (stmts[i].name in fork && fork[stmts[i].name].jump ==>
            stmts[i].arg.LabelArg? && !stmts[i].arg.dotted && stmts[i].arg.ident != "")
  }

  ghost predicate UniqueLabels(stmts: seq<Statement>) {
    forall s, t, ident :: LabelAt(stmts, s, ident) && LabelAt(stmts, t, ident) ==> s == t
  }

  // ----- the stack checker's view of a statement -----

  lemma SingleAgrees(op: Op, args: seq<int>, n: nat, w: seq<Word>, w': seq<Word>)
    requires op.hasImmediate && IsSingle(op.name)
    requires if args == [] then n == 17 else |args| == 1 && n == args[0] && 17 <= n <= 235
    ensures args != [] ==> EncodeImmediateArgs(op.name, args).Some?
    ensures var imm := if args == [] then 0 else EncodeImmediateArgs(op.name, args).value;
            && |StackIn(op, imm)| == n
            && (OpStep(StackOp(StackIn(op, imm), StackOut(op, imm)), w, w') <==>
                  |w| >= n && w' == if op.name == "DUPN" then [w[n - 1]] + w else Swapped(w, 0, n - 1))
  {
    var imm: Byte := if args == [] then 0 else EncodeImmediateArgs(op.name, args).value;
    assert DecodeSingle(imm) == n;
    ImmediateEffects(op, imm, w, w');
    hide StackOut, OpStep, EncodeSingle;
  }

  lemma PairAgrees(op: Op, args: seq<int>, n: nat, m: nat, w: seq<Word>, w': seq<Word>)
    requires op.hasImmediate && op.name == "EXCHANGE"
    requires if args == [] then n == 1 && m == 29 else |args| == 2 && n == args[0] && m == args[1] && 1 <= n <= 13 && n < m <= 29 && n + m <= 30
    ensures args != [] ==> EncodeImmediateArgs(op.name, args).Some?
    ensures var imm := if args == [] then 0 else EncodeImmediateArgs(op.name, args).value;
            && |StackIn(op, imm)| == m
            && (OpStep(StackOp(StackIn(op, imm), StackOut(op, imm)), w, w') <==> |w| >= m && w' == Swapped(w, n - 1, m - 1))
  {
    var imm: Byte := if args == [] then 0 else EncodeImmediateArgs(op.name, args).value;
    if args != [] {
      EncodedPair(n, m);
    }
    assert DecodePair(imm) == (n, m);
    ImmediateEffects(op, imm, w, w');
    hide StackOut, OpStep, EncodePair, DecodePair;
  }

  lemma SingleEncodes(name: string, args: seq<int>)
    requires IsSingle(name) && args != []
    ensures EncodeImmediateArgs(name, args).Some? <==> |args| == 1 && 17 <= args[0] <= 235
  {
  }

  lemma PairEncodes(args: seq<int>)
    requires args != []
    ensures EncodeImmediateArgs("EXCHANGE", args).Some? <==>
            |args| == 2 && 1 <= args[0] <= 13 && args[0] < args[1] <= 29 && args[0] + args[1] <= 30
  {
  }

  /** What the checker takes an action to be: its operation, on the words that the action takes. */
  ghost predicate Matches(op: Option<StackOp>, a: Action, w: seq<Word>, w': seq<Word>) {
    && (op.None? <==> a == Unknown)
    && (op.Some? ==> |op.value.ins| == Needs(a) && (OpStep(op.value, w, w') <==> Does(a, w, w')))
  }

  lemma DupMatches(op: Op, args: seq<int>, w: seq<Word>, w': seq<Word>)
    requires op.hasImmediate && op.name == "DUPN"
    ensures Matches(ImmediateEffect(op, args), DupAction(args), w, w')
  {
    if args != [] {
      SingleEncodes(op.name, args);
    }
    hide StackIn, StackOut, OpStep, EncodeImmediateArgs;
    if DupAction(args) != Unknown {
      SingleAgrees(op, args, DupAction(args).n, w, w');
    }
  }

  lemma SwapMatches(op: Op, args: seq<int>, w: seq<Word>, w': seq<Word>)
    requires op.hasImmediate && op.name == "SWAPN"
    ensures Matches(ImmediateEffect(op, args), SwapAction(args), w, w')
  {
    if args != [] {
      SingleEncodes(op.name, args);
    }
    hide StackIn, StackOut, OpStep, EncodeImmediateArgs;
    if SwapAction(args) != Unknown {
      SingleAgrees(op, args, SwapAction(args).m, w, w');
    }
  }

  lemma ExchangeDoes(n: nat, m: nat, w: seq<Word>, w': seq<Word>)
    requires 1 <= n <= m
    ensures Does(Exchange(n, m), w, w') <==> |w| >= m && w' == Swapped(w, n - 1, m - 1)
    ensures Needs(Exchange(n, m)) == m
  {
  }

  /** The effect with arguments is that of the byte that encodes them, if there is one. */
  lemma EffectOfArgs(op: Op, args: seq<int>)
    requires op.hasImmediate
    ensures var e := EncodeImmediateArgs(op.name, args);
            ImmediateEffect(op, args)
            == if args == [] then Some(StackOp(StackIn(op, 0), StackOut(op, 0)))
               else if e.None? then None else Some(StackOp(StackIn(op, e.value), StackOut(op, e.value)))
  {
    hide StackIn, StackOut, EncodeImmediateArgs;
  }

  lemma ExchangeKnown(op: Op, args: seq<int>, n: nat, m: nat, w: seq<Word>, w': seq<Word>)
    requires op.hasImmediate && op.name == "EXCHANGE"
    requires if args == [] then n == 1 && m == 29 else |args| == 2 && n == args[0] && m == args[1] && 1 <= n <= 13 && n < m <= 29 && n + m <= 30
    ensures Matches(ImmediateEffect(op, args), Exchange(n, m), w, w')
  {
    PairAgrees(op, args, n, m, w, w');
    ExchangeDoes(n, m, w, w');
    EffectOfArgs(op, args);
    hide StackIn, StackOut, OpStep, EncodeImmediateArgs, Does, Needs, Swapped, ImmediateEffect;
  }

  lemma ExchangeMatches(op: Op, args: seq<int>, w: seq<Word>, w': seq<Word>)
    requires op.hasImmediate && op.name == "EXCHANGE"
    ensures Matches(ImmediateEffect(op, args), ExchangeAction(args), w, w')
  {
    hide Matches, ImmediateEffect;
    var a := ExchangeAction(args);
    if a != Unknown {
      ExchangeKnown(op, args, a.n, a.m, w, w');
    } else {
      PairEncodes(args);
      EffectOfArgs(op, args);
      hide EncodeImmediateArgs, StackIn, StackOut;
      NoneMatches(w, w');
    }
  }

  lemma OtherMatches(op: Op, imm: Byte, w: seq<Word>, w': seq<Word>)
    requires !IsSingle(op.name) && op.name != "EXCHANGE"
    ensures Matches(Some(StackOp(StackIn(op, imm), StackOut(op, imm))), OtherAction(op), w, w')
  {
    hide OpStep;
  }

  /** A push without declared effect leaves one word of any value. */
  lemma PushMatches(w: seq<Word>, w': seq<Word>)
    ensures Matches(Some(StackOp([], ["val"])), PushWord, w, w')
  {
    assert w[0..] == w;
  }

  /**
   * The effect that the stack checker gives a statement is what the machine does: it exists for the same
   * statements, needs the same number of words and allows the same steps.
   */
  lemma EffectIsAction(fork: Fork, st: Statement, w: seq<Word>, w': seq<Word>)
    requires ValidFork(fork) && st.Opcode?
    ensures Matches(Effect(fork, st), ActionOf(fork, st), w, w')
  {
    NotPushes();
    PushMatches(w, w');
    if st.name in fork {
      var op := fork[st.name];
      hide StackIn, StackOut, OpStep, IsPush, EncodeImmediateArgs, Distinct, Matches, DupAction, SwapAction, ExchangeAction;
      if op.jump && st.arg != NoArg {
        JumpMatches(op, w, w');
      } else if st.name == "DUPN" {
        DupMatches(op, st.immediates, w, w');
      } else if st.name == "SWAPN" {
        SwapMatches(op, st.immediates, w, w');
      } else if st.name == "EXCHANGE" {
        ExchangeMatches(op, st.immediates, w, w');
      } else {
        OtherMatches(op, 0, w, w');
      }
    } else {
      NoneMatches(w, w');
      hide IsPush, Matches;
    }
  }

  lemma NoneMatches(w: seq<Word>, w': seq<Word>)
    ensures Matches(None, Unknown, w, w')
  {
  }

  lemma JumpMatches(op: Op, w: seq<Word>, w': seq<Word>)
    ensures var rest := if |op.ins| > 1 then op.ins[1..] else [];
            Matches(Some(StackOp(rest, [])), Declared(rest, []), w, w')
  {
    hide OpStep;
  }

  lemma NotPushes()
    ensures !IsPush("DUPN") && !IsPush("SWAPN") && !IsPush("EXCHANGE")
  {
    assert "DUPN"[..4][0] == 'D' && "SWAPN"[..4][0] == 'S' && "EXCHANGE"[..4][0] == 'E' && "PUSH"[0] == 'P';
  }
}
