/** Compilation of a program, up to the output stage (compile in asm/compiler.go). */
module Assembly {
  import opened Base
  import opened Lzint
  import opened InstructionSets
  import opened Ast
  import opened Evaluator
  import opened CompilerProg
  import opened Expansion
  import opened Relaxation

  /** A program with the settings of a compiler run. */
  datatype Input = Input(t: Target, p: Program, overrides: map<string, nat>, foreign: Foreign)

  // ----- labels -----

  function KeyOf(l: CompLabel): LabelKey {
    LabelKey(if IsGlobal(l.def.ident) then None else Some(l.doc), l.def)
  }

  /** The label-to-instruction mapping of the evaluator. */
  function RegisteredLabels(labels: seq<CompLabel>, n: nat): map<LabelKey, nat>
    requires n <= |labels|
  {
    if n == 0 then map[]
    else
      var prior := RegisteredLabels(labels, n - 1);
      var l := labels[n - 1];
      if l.instr.Some? then prior[KeyOf(l) := l.instr.value] else prior
  }

  /** Every (document, definition) key is instantiated once. */
  ghost predicate UniqueKeys(labels: seq<CompLabel>) {
    forall i, j :: 0 <= i < j < |labels| ==> KeyOf(labels[i]) != KeyOf(labels[j])
  }

  lemma {:induction false} RegisteredOnly(labels: seq<CompLabel>, n: nat, key: LabelKey)
    requires n <= |labels| && key in RegisteredLabels(labels, n)
    ensures exists l :: 0 <= l < n && KeyOf(labels[l]) == key && labels[l].instr == Some(RegisteredLabels(labels, n)[key])
  {
    if labels[n - 1].instr.Some? && KeyOf(labels[n - 1]) == key {
    } else {
      RegisteredOnly(labels, n - 1, key);
    }
  }

  // ----- the evaluation unit -----

  function GlobalDefs(q: Prog): map<string, LabelDef> {
    map name | name in q.globalLabels && q.globalLabels[name] < |q.labels| :: q.labels[q.globalLabels[name]].def
  }

  function Scopes(q: Prog): (r: seq<Scope>)
    ensures |r| == |q.owners|
    ensures forall k :: 0 <= k < |r| && q.owners[k] < |q.sections| ==> r[k] == q.sections[q.owners[k]].scope
  {
    seq(|q.owners|, k requires 0 <= k < |q.owners| =>
      if q.owners[k] < |q.sections| then q.sections[q.owners[k]].scope else Scope(0, None))
  }

  function UnitOf(i: Input, q: Prog): Unit {
    Unit(World(i.p, q.docs, GlobalDefs(q), i.overrides, i.foreign), i.t, Scopes(q), RegisteredLabels(q.labels, |q.labels|))
  }

  // ----- stages -----

  function PreInstrs(u: Unit, instrs: seq<Instr>): (r: seq<Instr>)
    requires |instrs| <= |u.scopes|
    ensures |r| == |instrs| && forall k :: 0 <= k < |r| ==> r[k] == PreEvaluated(u, u.scopes[k], instrs[k]).0
  {
    seq(|instrs|, k requires 0 <= k < |instrs| => PreEvaluated(u, u.scopes[k], instrs[k]).0)
  }

  function AsSeq(e: Option<CompileError>): seq<CompileError> {
    if e.Some? then [e.value] else []
  }

  /** The errors of the first n instructions. */
  function PreErrors(u: Unit, instrs: seq<Instr>, n: nat): seq<CompileError>
    requires n <= |instrs| <= |u.scopes|
  {
    if n == 0 then [] else PreErrors(u, instrs, n - 1) + AsSeq(PreEvaluated(u, u.scopes[n - 1], instrs[n - 1]).1)
  }

  lemma OneMoreError(u: Unit, instrs: seq<Instr>, n: nat)
    requires n <= |instrs| <= |u.scopes|
    ensures PreErrors(u, instrs, n)
         == if n == 0 then [] else PreErrors(u, instrs, n - 1) + AsSeq(PreEvaluated(u, u.scopes[n - 1], instrs[n - 1]).1)
  {
    hide PreEvaluated, AsSeq;
  }

  /** Numeric labels must be at the position they claim. */
  function PCErrors(instrs: seq<Instr>, n: nat): seq<CompileError>
    requires n <= |instrs|
  {
    if n == 0 then []
    else
      var inst := instrs[n - 1];
      PCErrors(instrs, n - 1) + (if inst.assertedPC.Some? && inst.assertedPC.value != inst.pc then [PCMismatch] else [])
  }

  /** A program that has been compiled, except for output. */
  datatype Built = Built(prog: Prog, unit: Unit, instrs: seq<Instr>, errors: seq<CompileError>)

  function Build(i: Input): (b: Built)
    requires ValidTarget(i.t)
  {
    var r := ExpandProgram(i.t, i.p);
    ExpandedProgram(i.t, i.p);
    var u := UnitOf(i, r.prog);
    var pre := PreInstrs(u, r.prog.instrs);
    var (final, e) := Relaxed(u, pre);
    BuiltSize(u, pre);
    Built(r.prog, u, final, r.errors + PreErrors(u, r.prog.instrs, |r.prog.instrs|) + AsSeq(e) + PCErrors(final, |final|))
  }

  lemma {:induction false} BuiltSize(u: Unit, instrs: seq<Instr>)
    requires |instrs| <= |u.scopes|
    ensures |Relaxed(u, instrs).0| == |instrs|
    decreases Slack(instrs)
  {
    hide Round, Slack;
    RoundFacts(u, instrs);
    var (r, o) := Round(u, instrs);
    if o.Stopped? && o.error == VariablePushOverflow {
      BumpedLength(r, o.k);
      BuiltSize(u, Bumped(r, o.k));
    }
  }

  // ----- what an error-free compilation means -----

  /** The positions of a finished program, for evaluation. */
  function FinalLabels(b: Built): Labels {
    Placed(b.unit.table, PCs(b.instrs))
  }

  /** A push with the value that its argument has for the final positions. */
  ghost predicate PushReady(u: Unit, labels: Labels, scope: Scope, inst: Instr) {
    && inst.arg.Some?
    && var r := EvalArg(u, labels, scope, inst.arg.value);
    && r.Known? && r.value.num >= 0
    && inst.data == MinimalBytes(r.value.num)
    && |inst.data| <= inst.dataSize <= 32
    && (ExplicitSize(inst.op).Some? ==> inst.dataSize == ExplicitSize(inst.op).value)
    && (inst.dataSize == 0 && inst.op == "PUSH" ==> "PUSH0" in u.t.fork.byName)
  }

  ghost predicate BytesReady(u: Unit, labels: Labels, scope: Scope, inst: Instr) {
    && inst.arg.Some?
    && var r := EvalArg(u, labels, scope, inst.arg.value);
    r.Known? && Bytes(r.value) == Ok(inst.data) && inst.dataSize == |inst.data|
  }

  /** An instruction that is ready for output. */
  ghost predicate Ready(u: Unit, labels: Labels, scope: Scope, inst: Instr) {
    if inst.op == BYTES then BytesReady(u, labels, scope, inst)
    else if IsPush(inst.op) && inst.arg.Some? then
      PushReady(u, labels, scope, inst) && (inst.op == "PUSH" || inst.op in u.t.fork.byName)
    else exists start :: Fits(u.t, start) && start == inst.(pc := 0)
  }

  /** What pre-evaluation leaves of an instruction without error: its value, or a push for later. */
  ghost predicate Prepared(u: Unit, labels: Labels, scope: Scope, inst: Instr) {
    if LabelDependent(inst) then
      && inst.dataSize == (if ExplicitSize(inst.op).Some? then ExplicitSize(inst.op).value else 1)
      && (inst.op == "PUSH" || inst.op in u.t.fork.byName)
    else Ready(u, labels, scope, inst)
  }

  lemma PreparedBytes(u: Unit, labels: Labels, scope: Scope, inst: Instr)
    requires Fits(u.t, inst) && inst.op == BYTES && inst.arg.Some? && PreEvaluatedBytes(u, scope, inst).1.None?
    ensures Prepared(u, labels, scope, PreEvaluatedBytes(u, scope, inst).0)
  {
    hide Fits, Bytes;
    var arg := inst.arg.value;
    StableWithoutLabels(u.w, labels, {}, Env(scope, map[]), arg);
    hide Eval;
    BytesNoPush();
  }

  lemma BytesNoPush()
    ensures !IsPush(BYTES) && !IsPush("")
  {
    assert BYTES[..4][0] == '#' && "PUSH"[0] == 'P';
  }

  lemma PreparedPush(u: Unit, labels: Labels, scope: Scope, inst: Instr)
    requires Fits(u.t, inst) && IsPush(inst.op) && inst.op != BYTES && inst.arg.Some? && PreEvaluatedPush(u, scope, inst).1.None?
    ensures Prepared(u, labels, scope, PreEvaluatedPush(u, scope, inst).0)
  {
    hide MinimalBytes;
    assert inst.op != "" by { BytesNoPush(); }
    var arg := inst.arg.value;
    if EvalArg(u, NoLabels, scope, arg) != LabelUnassigned {
      StableWithoutLabels(u.w, labels, {}, Env(scope, map[]), arg);
    }
    hide Eval, IsPush;
  }

  lemma PreEvaluatedPrepared(u: Unit, labels: Labels, scope: Scope, inst: Instr)
    requires Fits(u.t, inst) && PreEvaluated(u, scope, inst).1.None?
    ensures Prepared(u, labels, scope, PreEvaluated(u, scope, inst).0)
  {
    hide PreEvaluatedBytes, PreEvaluatedPush, Prepared;
    if inst.op == BYTES {
      PreparedBytes(u, labels, scope, inst);
    } else if IsPush(inst.op) && inst.arg.Some? {
      PreparedPush(u, labels, scope, inst);
    } else {
      PreparedPlain(u, labels, scope, inst);
    }
  }

  lemma PreparedPlain(u: Unit, labels: Labels, scope: Scope, inst: Instr)
    requires Fits(u.t, inst) && inst.op != BYTES && !(IsPush(inst.op) && inst.arg.Some?)
    ensures Prepared(u, labels, scope, inst)
  {
    assert inst == inst.(pc := 0);
    hide Fits;
  }

  lemma {:induction false} NoPreErrors(u: Unit, instrs: seq<Instr>, n: nat, k: nat)
    requires k < n <= |instrs| <= |u.scopes| && PreErrors(u, instrs, n) == []
    ensures PreEvaluated(u, u.scopes[k], instrs[k]).1.None?
  {
    hide PreEvaluated;
    if k < n - 1 {
      NoPreErrors(u, instrs, n - 1, k);
    }
  }

  /** Relaxation makes label-dependent pushes ready, and leaves the others as they are. */
  lemma PreparedReady(u: Unit, labels: Labels, scope: Scope, a: Instr, b: Instr)
    requires Prepared(u, labels, scope, a) && Grew(a, b) && SizeInRange(b) && ArgAssigned(u, labels, scope, b)
    ensures Ready(u, labels, scope, b)
  {
    hide EvalArg, MinimalBytes, Fits, IsPush;
    if LabelDependent(a) {
      assert PushReady(u, labels, scope, b);
      DependentNoBytes(a);
    } else if a.op != BYTES && !(IsPush(a.op) && a.arg.Some?) {
      assert b.(pc := 0) == a.(pc := 0);
    }
  }

  lemma DependentNoBytes(a: Instr)
    requires LabelDependent(a)
    ensures a.op != BYTES
  {
    BytesNoPush();
  }

  lemma PreparedInRange(u: Unit, labels: Labels, scope: Scope, inst: Instr)
    requires Prepared(u, labels, scope, inst)
    ensures SizeInRange(inst)
  {
    hide Ready;
  }

  ghost predicate AllReady(b: Built) {
    && |b.instrs| == |b.prog.instrs| <= |b.unit.scopes|
    && (forall k :: 0 <= k < |b.instrs| ==> b.instrs[k].pc == PCs(b.instrs)[k])
    && (forall k :: 0 <= k < |b.instrs| ==> Ready(b.unit, FinalLabels(b), b.unit.scopes[k], b.instrs[k]))
    && (forall k :: 0 <= k < |b.instrs| ==> b.instrs[k].op == b.prog.instrs[k].op && b.instrs[k].arg == b.prog.instrs[k].arg)
  }

  lemma PreSame(u: Unit, scope: Scope, inst: Instr)
    ensures var r := PreEvaluated(u, scope, inst).0; r.op == inst.op && r.arg == inst.arg
  {
    hide EvalArg, Bytes, MinimalBytes, ExplicitSize, AutoPushSize;
  }

  /**
   * After an error-free compilation every push has the big-endian value of its argument for the final
   * positions, which fits into a data size of at most 32; all data is the value of its expression.
   */
  lemma BuildReady(i: Input)
    requires ValidTarget(i.t) && Build(i).errors == []
    ensures AllReady(Build(i))
  {
    ExpandedProgram(i.t, i.p);
    var b := Build(i);
    var q, u := b.prog, b.unit;
    var pre := PreInstrs(u, q.instrs);
    var final := Relaxed(u, pre).0;
    var labels := Placed(u.table, PCs(final));
    assert final == b.instrs;
    assert PreErrors(u, q.instrs, |q.instrs|) == [] && Relaxed(u, pre).1.None?;
    hide *;
    PreparedAll(i.t, q, u, labels, pre);
    RelaxedConsistent(u, pre);
    FinalReady(u, q.instrs, pre, final);
    AllReadyFrom(b);
  }

  lemma AllReadyFrom(b: Built)
    requires |b.instrs| == |b.prog.instrs| <= |b.unit.scopes| && Consistent(b.unit, b.instrs)
    requires forall k :: 0 <= k < |b.instrs| ==> Ready(b.unit, Placed(b.unit.table, PCs(b.instrs)), b.unit.scopes[k], b.instrs[k])
    requires forall k :: 0 <= k < |b.instrs| ==> b.instrs[k].op == b.prog.instrs[k].op && b.instrs[k].arg == b.prog.instrs[k].arg
    ensures AllReady(b)
  {
    hide Ready, ArgAssigned, SizeBefore;
  }

  lemma PreparedAll(t: Target, q: Prog, u: Unit, labels: Labels, pre: seq<Instr>)
    requires Finished(t, q) && u.t == t && |q.instrs| <= |u.scopes| && pre == PreInstrs(u, q.instrs)
    requires PreErrors(u, q.instrs, |q.instrs|) == []
    ensures forall k :: 0 <= k < |pre| ==> Prepared(u, labels, u.scopes[k], pre[k]) && SizeInRange(pre[k])
    ensures forall k :: 0 <= k < |pre| ==> pre[k].op == q.instrs[k].op && pre[k].arg == q.instrs[k].arg
  {
    hide Fits, Prepared, PreEvaluated, JumpPair, JumpDestAt, Iterate, SizeInRange;
    forall k | 0 <= k < |pre|
      ensures Prepared(u, labels, u.scopes[k], pre[k]) && SizeInRange(pre[k])
      ensures pre[k].op == q.instrs[k].op && pre[k].arg == q.instrs[k].arg
    {
      NoPreErrors(u, q.instrs, |q.instrs|, k);
      PreEvaluatedPrepared(u, labels, u.scopes[k], q.instrs[k]);
      PreparedInRange(u, labels, u.scopes[k], pre[k]);
      PreSame(u, u.scopes[k], q.instrs[k]);
    }
  }

  lemma FinalReady(u: Unit, instrs: seq<Instr>, pre: seq<Instr>, final: seq<Instr>)
    requires |instrs| == |pre| == |final| <= |u.scopes|
    requires Consistent(u, final)
    requires forall k :: 0 <= k < |pre| ==> Prepared(u, Placed(u.table, PCs(final)), u.scopes[k], pre[k])
    requires forall k :: 0 <= k < |pre| ==> Grew(pre[k], final[k]) && SizeInRange(final[k])
    requires forall k :: 0 <= k < |pre| ==> pre[k].op == instrs[k].op && pre[k].arg == instrs[k].arg
    ensures forall k :: 0 <= k < |final| ==> Ready(u, Placed(u.table, PCs(final)), u.scopes[k], final[k])
    ensures forall k :: 0 <= k < |final| ==> final[k].op == instrs[k].op && final[k].arg == instrs[k].arg
  {
    hide Prepared, SizeInRange, ArgAssigned, Ready, SizeBefore;
    forall k | 0 <= k < |final|
      ensures Ready(u, Placed(u.table, PCs(final)), u.scopes[k], final[k])
      ensures final[k].op == instrs[k].op && final[k].arg == instrs[k].arg
    {
      assert Grew(pre[k], final[k]);
      PreparedReady(u, Placed(u.table, PCs(final)), u.scopes[k], pre[k], final[k]);
    }
  }

  lemma PreInRange(u: Unit, scope: Scope, inst: Instr)
    requires inst.op != BYTES || inst.arg.Some?
    ensures SizeInRange(PreEvaluated(u, scope, inst).0)
    ensures Flexible(PreEvaluated(u, scope, inst).0) ==> PreEvaluated(u, scope, inst).0.dataSize == 1
  {
    BytesNoPush();
    hide EvalArg, Bytes, MinimalBytes, ExplicitSize, AutoPushSize, IsPush;
  }

  /**
   * Pre-evaluation gives every flexible push the size one. So relaxation, which raises sizes up to 32,
   * makes at most 31 raises for each of them.
   */
  lemma RaisesBounded(t: Target, q: Prog, u: Unit)
    requires Finished(t, q) && |q.instrs| <= |u.scopes|
    ensures var pre := PreInstrs(u, q.instrs);
            && (forall k :: 0 <= k < |pre| ==> SizeInRange(pre[k]) && (Flexible(pre[k]) ==> pre[k].dataSize == 1))
            && Slack(pre) <= 31 * FlexibleCount(pre)
  {
    var pre := PreInstrs(u, q.instrs);
    hide PreEvaluated, SizeInRange, Flexible, JumpPair, JumpDestAt, Iterate;
    forall k | 0 <= k < |pre|
      ensures SizeInRange(pre[k]) && (Flexible(pre[k]) ==> pre[k].dataSize == 1)
    {
      assert Fits(t, q.instrs[k]);
      PreInRange(u, u.scopes[k], q.instrs[k]);
    }
    hide Slack, FlexibleCount, PreInstrs;
    SlackBound(pre);
  }

  /** The stages of a compilation. */
  lemma BuildOf(i: Input)
    requires ValidTarget(i.t)
    ensures var (r, b) := (ExpandProgram(i.t, i.p), Build(i));
            && Finished(i.t, r.prog) && b.prog == r.prog && b.unit == UnitOf(i, r.prog) && |r.prog.instrs| <= |b.unit.scopes|
            && var (final, e) := Relaxed(b.unit, PreInstrs(b.unit, r.prog.instrs));
            && b.instrs == final
            && b.errors == r.errors + PreErrors(b.unit, r.prog.instrs, |r.prog.instrs|) + AsSeq(e) + PCErrors(final, |final|)
  {
    ExpandedProgram(i.t, i.p);
    hide ExpandProgram, Finished, Relaxed, PreErrors, PCErrors, PreInstrs;
  }
}
