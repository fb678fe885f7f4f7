/** Which arguments are accepted before labels are placed, and the sizes of pushes (asm/compiler_eval.go). */
module PushSizes {
  import opened Base
  import opened Lzint
  import opened InstructionSets
  import opened Evaluator
  import opened CompilerProg
  import opened Expansion
  import opened Relaxation
  import opened Assembly
  import opened CodeOutput
  import opened JumpTargets
  import opened Listing
  import opened ListedCode
  import opened ExprMeaning

  /** A number that n bytes can hold. */
  ghost predicate FitsIn(v: int, n: nat) {
    0 <= v < Pow2(8 * n)
  }

  lemma MinimalFits(v: nat, n: nat)
    ensures |MinimalBytes(v)| <= n <==> FitsIn(v, n)
  {
    ByteLenMeans(v);
    var k := (BitLen(v) + 7) / 8;
    assert |MinimalBytes(v)| == k;
    hide BitLen, MinimalBytes, Pow2;
    if k <= n {
      Pow2Monotone(8 * k, 8 * n);
    } else {
      Pow2Monotone(8 * n, 8 * (k - 1));
    }
  }

  /** How many bytes a push can have. */
  function Capacity(op: string): nat {
    if ExplicitSize(op).Some? then ExplicitSize(op).value else 32
  }

  lemma AssignedIff(t: Target, inst: Instr, v: int)
    requires ExplicitSize(inst.op).Some? ==> inst.dataSize == ExplicitSize(inst.op).value
    ensures AssignPushArg(t, inst, v, true).1.None? <==> FitsIn(v, Capacity(inst.op))
    ensures FitsIn(v, Capacity(inst.op)) && ExplicitSize(inst.op).None? ==>
              AssignPushArg(t, inst, v, true).0.dataSize == AutoPushSize(t, MinimalBytes(v))
  {
    if v >= 0 {
      MinimalFits(v, 32);
      MinimalFits(v, Capacity(inst.op));
      if Capacity(inst.op) < 32 {
        Pow2Monotone(8 * Capacity(inst.op), 8 * 32);
      }
    }
    hide ExplicitSize, MinimalBytes, Pow2;
  }

  /** An argument that is accepted before labels are placed. */
  ghost predicate Acceptable(u: Unit, scope: Scope, inst: Instr) {
    inst.arg.Some? ==>
      var r := EvalArg(u, NoLabels, scope, inst.arg.value);
      if inst.op == BYTES then r.Known? && Bytes(r.value).Ok?
      else IsPush(inst.op) ==> r == LabelUnassigned || (r.Known? && FitsIn(r.value.num, Capacity(inst.op)))
  }

  /**
   * An instruction is accepted before labels are placed if and only if it is data with a value that
   * converts to bytes, or a push of a number that fits into its declared size, or 32 bytes; a push whose
   * argument depends on labels is left for later.
   */
  lemma AcceptedIff(u: Unit, scope: Scope, inst: Instr)
    ensures PreEvaluated(u, scope, inst).1.None? <==> Acceptable(u, scope, inst)
  {
    if inst.arg.Some? && inst.op != BYTES && IsPush(inst.op) {
      var r := EvalArg(u, NoLabels, scope, inst.arg.value);
      var sized := inst.(dataSize := if ExplicitSize(inst.op).Some? then ExplicitSize(inst.op).value else 1);
      if r.Known? {
        AssignedIff(u.t, sized.(argNoLabels := true), r.value.num);
      }
      hide EvalArg, AssignPushArg, FitsIn, Capacity, ExplicitSize, IsPush;
    } else {
      hide EvalArg, Bytes, IsPush, AssignPushArg, FitsIn;
    }
  }

  lemma NoMoreErrors(errors: seq<CompileError>, e: Option<CompileError>)
    ensures errors + AsSeq(e) == [] <==> errors == [] && e.None?
  {
  }

  /** The first n instructions are accepted. */
  ghost predicate AllAcceptable(u: Unit, instrs: seq<Instr>, n: nat)
    requires n <= |instrs| <= |u.scopes|
  {
    forall k :: 0 <= k < n ==> Acceptable(u, u.scopes[k], instrs[k])
  }

  lemma OneMoreAcceptable(u: Unit, instrs: seq<Instr>, n: nat)
    requires n <= |instrs| <= |u.scopes|
    ensures AllAcceptable(u, instrs, n)
         <==> n == 0 || (AllAcceptable(u, instrs, n - 1) && Acceptable(u, u.scopes[n - 1], instrs[n - 1]))
  {
    hide Acceptable;
  }

  lemma {:induction false} FirstErrors(u: Unit, instrs: seq<Instr>, n: nat)
    requires n <= |instrs| <= |u.scopes|
    ensures PreErrors(u, instrs, n) == [] <==> AllAcceptable(u, instrs, n)
  {
    hide *;
    OneMoreError(u, instrs, n);
    OneMoreAcceptable(u, instrs, n);
    if n > 0 {
      FirstErrors(u, instrs, n - 1);
      AcceptedIff(u, u.scopes[n - 1], instrs[n - 1]);
      NoMoreErrors(PreErrors(u, instrs, n - 1), PreEvaluated(u, u.scopes[n - 1], instrs[n - 1]).1);
    }
  }

  lemma {:induction false} PCErrorsIff(instrs: seq<Instr>, n: nat)
    requires n <= |instrs|
    ensures PCErrors(instrs, n) == [] <==> forall k :: 0 <= k < n && instrs[k].assertedPC.Some? ==> instrs[k].pc == instrs[k].assertedPC.value
  {
    if n > 0 {
      PCErrorsIff(instrs, n - 1);
    }
  }

  /**
   * A program compiles without error if and only if it has a list, each of its arguments is accepted
   * before labels are placed, relaxation succeeds, and numeric labels are where they claim to be.
   */
  lemma CompilesIff(i: Input)
    requires ValidTarget(i.t)
    ensures |Build(i).prog.instrs| <= |Build(i).unit.scopes|
    ensures var b := Build(i);
            b.errors == []
            <==> && ListProgram(i.t, i.p).Listed?
                 && AllAcceptable(b.unit, b.prog.instrs, |b.prog.instrs|)
                 && Relaxed(b.unit, PreInstrs(b.unit, b.prog.instrs)).1.None?
                 && forall k :: 0 <= k < |b.instrs| && b.instrs[k].assertedPC.Some? ==> b.instrs[k].pc == b.instrs[k].assertedPC.value
  {
    BuildOf(i);
    ExpansionLists(i.t, i.p);
    var b := Build(i);
    FirstErrors(b.unit, b.prog.instrs, |b.prog.instrs|);
    PCErrorsIff(b.instrs, |b.instrs|);
    hide *;
    NoneOf(ExpandProgram(i.t, i.p).errors, PreErrors(b.unit, b.prog.instrs, |b.prog.instrs|),
           Relaxed(b.unit, PreInstrs(b.unit, b.prog.instrs)).1, PCErrors(b.instrs, |b.instrs|));
  }

  lemma NoneOf(a: seq<CompileError>, b: seq<CompileError>, e: Option<CompileError>, c: seq<CompileError>)
    ensures a + b + AsSeq(e) + c == [] <==> a == [] && b == [] && e.None? && c == []
  {
    assert |a + b + AsSeq(e) + c| == |a| + |b| + |AsSeq(e)| + |c|;
  }

  // ----- the smallest push -----

  /** No push of fewer bytes holds the number; the target may lack a push without data. */
  ghost predicate Smallest(t: Target, v: int, n: nat) {
    && FitsIn(v, n)
    && forall m: nat :: m < n ==> !FitsIn(v, m) || (m == 0 && "PUSH0" !in t.fork.byName)
  }

  lemma AutoSmallest(t: Target, v: nat)
    ensures Smallest(t, v, AutoPushSize(t, MinimalBytes(v)))
  {
    var b := MinimalBytes(v);
    var n := AutoPushSize(t, b);
    MinimalFits(v, n);
    forall m: nat | m < n && !(m == 0 && "PUSH0" !in t.fork.byName)
      ensures !FitsIn(v, m)
    {
      MinimalFits(v, m);
    }
    hide MinimalBytes, FitsIn;
  }

  /** A push without declared size whose argument is known without labels. */
  ghost predicate FreePush(u: Unit, scope: Scope, inst: Instr) {
    && inst.op != BYTES && IsPush(inst.op) && ExplicitSize(inst.op).None? && inst.arg.Some?
    && EvalArg(u, NoLabels, scope, inst.arg.value).Known?
  }

  lemma FreeSized(u: Unit, scope: Scope, inst: Instr, final: Instr)
    requires FreePush(u, scope, inst) && PreEvaluated(u, scope, inst).1.None? && Grew(PreEvaluated(u, scope, inst).0, final)
    ensures Smallest(u.t, EvalArg(u, NoLabels, scope, inst.arg.value).value.num, final.dataSize)
  {
    var v := EvalArg(u, NoLabels, scope, inst.arg.value).value.num;
    var sized := inst.(dataSize := 1, argNoLabels := true);
    AcceptedIff(u, scope, inst);
    AssignedIff(u.t, sized, v);
    AssignedFlag(u.t, sized, v);
    assert final.dataSize == AutoPushSize(u.t, MinimalBytes(v)) by {
      hide EvalArg, AssignPushArg, FitsIn, ExplicitSize, IsPush, MinimalBytes, AutoPushSize;
    }
    AutoSmallest(u.t, v);
    hide Smallest, EvalArg, AutoPushSize, MinimalBytes;
  }

  lemma AssignedFlag(t: Target, inst: Instr, v: int)
    ensures var r := AssignPushArg(t, inst, v, true).0; r.argNoLabels == inst.argNoLabels && r.op == inst.op && r.arg == inst.arg
  {
    hide MinimalBytes, ExplicitSize, AutoPushSize;
  }

  /** After an error-free compilation, a push of a value known without labels has the smallest size that holds it. */
  lemma PushIsSmallest(i: Input, k: nat)
    requires MachineCodes(i.t) && Build(i).errors == []
    requires k < |Build(i).prog.instrs| <= |Build(i).unit.scopes| && FreePush(Build(i).unit, Build(i).unit.scopes[k], Build(i).prog.instrs[k])
    ensures k < |Build(i).instrs|
    ensures var (b, inst) := (Build(i), Build(i).prog.instrs[k]);
            Smallest(i.t, EvalArg(b.unit, NoLabels, b.unit.scopes[k], inst.arg.value).value.num, b.instrs[k].dataSize)
  {
    assert ValidTarget(i.t) by {
      assert MachineCodes(i.t) ==> CompleteTarget(i.t);
    }
    BuiltParts(i);
    var b := Build(i);
    var pre := PreInstrs(b.unit, b.prog.instrs);
    hide *;
    PreparedAll(i.t, b.prog, b.unit, FinalLabels(b), pre);
    RelaxedConsistent(b.unit, pre);
    NoPreErrors(b.unit, b.prog.instrs, |b.prog.instrs|, k);
    FreeSized(b.unit, b.unit.scopes[k], b.prog.instrs[k], b.instrs[k]);
  }
}
