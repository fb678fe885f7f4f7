/** Statements of a document as the stack checker sees them, and their stack effects (internal/stackcheck/check.go). */
module Statements {
  import opened Base
  import opened StackComment
  import opened SymbolicStack
  import opened EvmOps
  import opened InstructionSets

  datatype Arg = NoArg | LabelArg(ident: string, dotted: bool) | LiteralArg(value: int) | OtherArg

  /** Opcode names are upper case. A comment is the inner text of the comment attached to a statement. */
  datatype Statement =
    | LabelDef(ident: string, dotted: bool, comment: Option<string>)
    | Opcode(name: string, arg: Arg, immediates: seq<int>, comment: Option<string>)
    | Other

  /** The operations of the target instruction set, by name. */
  type Fork = map<string, Op>

  /**
   * The instruction table guarantees that operations are listed under their own names, that the input names
   * of an operation are unique, and that DUPN, SWAPN and EXCHANGE are the operations with immediates.
   */
  predicate ValidFork(fork: Fork) {
    forall n :: n in fork ==>
      && fork[n].name == n && Distinct(fork[n].ins)
      && (fork[n].hasImmediate <==> IsSingle(n) || n == "EXCHANGE")
  }

  /** The text of a statement's stack comment. */
  function StackCommentText(comment: Option<string>): Option<string> {
    if comment.Some? && comment.value != [] && comment.value[0] == '[' then comment else None
  }

  function OpOf(fork: Fork, st: Statement): Option<Op> {
    if st.Opcode? && st.name in fork then Some(fork[st.name]) else None
  }

  /** The stack effect of an opcode statement; None if it cannot be resolved. */
  function Effect(fork: Fork, st: Statement): (r: Option<StackOp>)
    ensures r.Some? ==> st.Opcode?
  {
    if !st.Opcode? then None
    else
      var op := OpOf(fork, st);
      if op.Some? && op.value.jump && st.arg != NoArg then
        // The label is pushed implicitly, so only the other inputs are consumed.
        Some(StackOp(if |op.value.ins| > 1 then op.value.ins[1..] else [], []))
      else if IsPush(st.name) then
        Some(if op.Some? then StackOp(StackIn(op.value, 0), StackOut(op.value, 0)) else StackOp([], ["val"]))
      else if op.None? then None
      else ImmediateEffect(op.value, st.immediates)
  }

  /** The effect of an operation that can have arguments; without arguments, the immediate is zero. */
  function ImmediateEffect(op: Op, args: seq<int>): Option<StackOp> {
    if op.hasImmediate && |args| > 0 then
      match EncodeImmediateArgs(op.name, args)
      case None => None
      case Some(imm) => Some(StackOp(StackIn(op, imm), StackOut(op, imm)))
    else Some(StackOp(StackIn(op, 0), StackOut(op, 0)))
  }

  lemma EffectDistinct(fork: Fork, st: Statement)
    requires ValidFork(fork)
    ensures Effect(fork, st).Some? ==> Distinct(Effect(fork, st).value.ins)
  {
    if OpOf(fork, st).Some? {
      var op := fork[st.name];
      forall imm: Byte
        ensures Distinct(StackIn(op, imm))
      {
        if op.name == "EXCHANGE" {
          StackWordsDistinct(ExchangeDepth(imm));
        } else if IsSingle(op.name) {
          StackWordsDistinct(DecodeSingle(imm));
        }
      }
    }
  }

  // ----- control flow of a statement -----

  /** Non-dotted labels are JUMPDESTs and start a new block. */
  predicate StartsBlock(st: Statement) {
    st.LabelDef? && !st.dotted
  }

  predicate IsTerm(fork: Fork, st: Statement) {
    OpOf(fork, st).Some? && OpOf(fork, st).value.term
  }

  predicate IsUnconditional(fork: Fork, st: Statement) {
    OpOf(fork, st).Some? && OpOf(fork, st).value.unconditional
  }

  predicate IsJump(fork: Fork, st: Statement) {
    OpOf(fork, st).Some? && OpOf(fork, st).value.jump
  }

  predicate EndsBlock(fork: Fork, st: Statement) {
    IsTerm(fork, st) || IsUnconditional(fork, st) || IsJump(fork, st)
  }

  /** The literal label that a jump statement names, or the empty string. */
  function JumpTarget(fork: Fork, st: Statement): string {
    if IsJump(fork, st) && st.arg.LabelArg? && !st.arg.dotted then st.arg.ident else ""
  }

  function LabelName(st: Statement): string {
    if StartsBlock(st) then st.ident else ""
  }

  function LabelCommentText(st: Statement): Option<string> {
    if StartsBlock(st) then StackCommentText(st.comment) else None
  }
}
