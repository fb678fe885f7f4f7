/** The methods of the compiler that evaluate arguments and find the PUSH sizes (asm/compiler_eval.go, asm/compiler.go). */
module AssemblyRun {
  import opened Base
  import opened Lzint
  import opened InstructionSets
  import opened Ast
  import Eval = Evaluator
  import Output = CompilerProg
  import opened Expansion
  import opened Relaxation
  import opened Assembly
  import opened CodeOutput
  import Comp = Compiler

  /** The evaluator works on the unit, and no macro is being evaluated. */
  ghost predicate Idle(u: Unit, e: Eval.Evaluator)
    reads e
  {
    e.w == u.w && e.inStack == {}
  }

  /** The n instructions of a finished program occur in order, and the unit has their scopes. */
  ghost predicate InOrder(u: Unit, elems: seq<Output.Elem>, sections: seq<Output.Section>, owners: seq<nat>, n: nat) {
    && Output.Walk(sections, elems).1 == Output.Owned(owners)
    && |owners| == n == |u.scopes|
    && forall k :: 0 <= k < n ==> owners[k] < |sections| && u.scopes[k] == sections[owners[k]].scope
  }

  ghost predicate Iterable(u: Unit, out: Output.CompilerProg)
    reads out
  {
    InOrder(u, out.elems, out.sections, out.owners, |out.instrs|)
  }

  /** Sets the argument value of an instruction, or tells why it does not fit. */
  method AssignArg(t: Target, inst: Output.Instr, v: int, setSize: bool) returns (r: Output.Instr, err: Option<CompileError>)
    ensures (r, err) == AssignPushArg(t, inst, v, setSize)
  {
    hide MinimalBytes, ExplicitSize;
    r := inst;
    if v < 0 {
      return r, Some(NegativeResult);
    }
    var b := MinimalBytes(v);
    if |b| > 32 {
      return r, Some(PushOverflow256);
    }
    var explicitSize := ExplicitSize(inst.op);
    if setSize && explicitSize.None? {
      r := r.(dataSize := AutoPushSize(t, b));
    }
    if |b| > r.dataSize {
      return r, Some(if explicitSize.None? then VariablePushOverflow else FixedSizePushOverflow);
    }
    r := r.(data := b);
    err := None;
  }

  method PreEvaluateOne(u: Unit, e: Eval.Evaluator, scope: Eval.Scope, inst0: Output.Instr)
    returns (inst: Output.Instr, err: Option<CompileError>)
    requires Idle(u, e) && e.labels == Eval.NoLabels
    modifies e`inStack
    ensures Idle(u, e) && (inst, err) == PreEvaluated(u, scope, inst0)
  {
    hide AssignPushArg, ExplicitSize, IsPush, Bytes;
    inst, err := inst0, None;
    if inst.op == Output.BYTES {
      if inst.arg.None? {
        return;
      }
      inst := inst.(argNoLabels := true);
      var r := e.EvalExpr(Eval.Env(scope, map[]), inst.arg.value);
      match r {
        case LabelUnassigned => err := Some(LabelInBytes);
        case Failed(cause) => err := Some(EvalFailed(cause));
        case Known(v) =>
          var b := Bytes(v);
          if b.Err? {
            err := Some(BytesFailed(b.error));
          } else {
            inst := inst.(data := b.value, dataSize := |b.value|);
          }
      }
    } else if IsPush(inst.op) {
      if inst.arg.None? {
        return;
      }
      var explicitSize := ExplicitSize(inst.op);
      inst := inst.(dataSize := if explicitSize.Some? then explicitSize.value else 1);
      var r := e.EvalExpr(Eval.Env(scope, map[]), inst.arg.value);
      match r {
        case LabelUnassigned =>
        case Failed(cause) =>
          inst := inst.(argNoLabels := true);
          err := Some(EvalFailed(cause));
        case Known(v) =>
          inst := inst.(argNoLabels := true);
          inst, err := AssignArg(u.t, inst, v.num, true);
      }
    }
  }

  /** The first n instructions are pre-evaluated. */
  ghost predicate PreDone(u: Unit, orig: seq<Output.Instr>, n: nat, instrs: seq<Output.Instr>, errors: seq<CompileError>)
    requires |orig| <= |u.scopes|
  {
    n <= |orig| == |instrs| && instrs == PreInstrs(u, orig)[..n] + orig[n..] && errors == PreErrors(u, orig, n)
  }

  lemma PreNext(u: Unit, orig: seq<Output.Instr>, n: nat, instrs: seq<Output.Instr>, errors: seq<CompileError>)
    requires n < |orig| <= |u.scopes| && PreDone(u, orig, n, instrs, errors)
    ensures |instrs| == |orig| && instrs[n] == orig[n]
    ensures var (inst, err) := PreEvaluated(u, u.scopes[n], orig[n]);
            PreDone(u, orig, n + 1, instrs[n := inst], errors + AsSeq(err))
  {
    hide PreEvaluated;
  }

  lemma PreStarts(u: Unit, orig: seq<Output.Instr>)
    requires |orig| <= |u.scopes|
    ensures PreDone(u, orig, 0, orig, [])
  {
    hide PreEvaluated;
  }

  lemma PreEnds(u: Unit, orig: seq<Output.Instr>, instrs: seq<Output.Instr>, errors: seq<CompileError>)
    requires |orig| <= |u.scopes| && PreDone(u, orig, |orig|, instrs, errors)
    ensures instrs == PreInstrs(u, orig) && errors == PreErrors(u, orig, |orig|)
  {
    hide PreEvaluated;
  }

  method PreEvaluateNext(u: Unit, e: Eval.Evaluator, ghost orig: seq<Output.Instr>, k: nat, scope: Eval.Scope,
                         instrs0: seq<Output.Instr>, errors0: seq<CompileError>)
    returns (instrs: seq<Output.Instr>, errors: seq<CompileError>)
    requires Idle(u, e) && e.labels == Eval.NoLabels
    requires k < |orig| <= |u.scopes| && scope == u.scopes[k] && PreDone(u, orig, k, instrs0, errors0)
    modifies e`inStack
    ensures Idle(u, e) && PreDone(u, orig, k + 1, instrs, errors)
  {
    PreNext(u, orig, k, instrs0, errors0);
    hide PreDone, PreEvaluated;
    var inst, err := PreEvaluateOne(u, e, scope, instrs0[k]);
    instrs := instrs0[k := inst];
    errors := errors0 + AsSeq(err);
  }

  /** Computes the argument values that do not depend on labels, and the initial sizes. */
  method PreEvaluateArgs(u: Unit, e: Eval.Evaluator, out: Output.CompilerProg) returns (errors: seq<CompileError>)
    requires Idle(u, e) && e.labels == Eval.NoLabels && Iterable(u, out)
    modifies out`instrs, e`inStack
    ensures Idle(u, e) && Iterable(u, out) && |u.scopes| == |old(out.instrs)|
    ensures out.instrs == PreInstrs(u, old(out.instrs)) && errors == PreErrors(u, old(out.instrs), |old(out.instrs)|)
  {
    var found := out.IterInstructions();
    IterableScopes(u, out, found);
    hide PreErrors, PreInstrs, PreDone, PreEvaluated, InScope, ScopeOf, InOrder;
    var instrs;
    PreStarts(u, out.instrs);
    instrs, errors := PreEvaluateAll(u, e, found, out.sections, out.instrs, 0, out.instrs, []);
    PreEnds(u, out.instrs, instrs, errors);
    PreLength(u, out.instrs);
    out.instrs := instrs;
  }

  /** The scope of an instruction that iteration found. */
  function ScopeOf(sections: seq<Output.Section>, found: (Option<nat>, nat)): Eval.Scope {
    if found.0.Some? && found.0.value < |sections| then sections[found.0.value].scope else Eval.Scope(0, None)
  }

  /** The instructions are found in order, and the scopes are those of their sections. */
  ghost predicate InScope(u: Unit, found: seq<(Option<nat>, nat)>, sections: seq<Output.Section>) {
    && |found| == |u.scopes|
    && forall k :: 0 <= k < |found| ==> u.scopes[k] == ScopeOf(sections, found[k])
  }

  lemma IterableScopes(u: Unit, out: Output.CompilerProg, found: seq<(Option<nat>, nat)>)
    requires Iterable(u, out) && found == Output.Iterate(out.State())
    ensures InScope(u, found, out.sections) && |found| == |out.instrs| == |u.scopes|
  {
  }

  lemma PreLength(u: Unit, instrs: seq<Output.Instr>)
    requires |instrs| <= |u.scopes|
    ensures |PreInstrs(u, instrs)| == |instrs|
  {
    hide PreEvaluated;
  }

  lemma ScopeFound(u: Unit, found: seq<(Option<nat>, nat)>, sections: seq<Output.Section>, k: nat)
    requires InScope(u, found, sections) && k < |found|
    ensures k < |u.scopes| && u.scopes[k] == ScopeOf(sections, found[k])
  {
  }

  /** Pre-evaluates the instructions from k on. */
  method PreEvaluateAll(u: Unit, e: Eval.Evaluator, found: seq<(Option<nat>, nat)>, sections: seq<Output.Section>,
                        ghost orig: seq<Output.Instr>, k: nat, instrs0: seq<Output.Instr>, errors0: seq<CompileError>)
    returns (instrs: seq<Output.Instr>, errors: seq<CompileError>)
    requires Idle(u, e) && e.labels == Eval.NoLabels && InScope(u, found, sections) && k <= |found| == |orig| == |u.scopes|
    requires PreDone(u, orig, k, instrs0, errors0)
    modifies e`inStack
    ensures Idle(u, e) && PreDone(u, orig, |orig|, instrs, errors)
    decreases |found| - k
  {
    hide PreDone, PreEvaluated, ScopeOf, InScope;
    instrs, errors := instrs0, errors0;
    if k < |found| {
      ScopeFound(u, found, sections, k);
      instrs, errors := PreEvaluateNext(u, e, orig, k, ScopeOf(sections, found[k]), instrs, errors);
      instrs, errors := PreEvaluateAll(u, e, found, sections, orig, k + 1, instrs, errors);
    }
  }

  method EvaluateOne(u: Unit, e: Eval.Evaluator, scope: Eval.Scope, inst0: Output.Instr)
    returns (inst: Output.Instr, err: Option<CompileError>)
    requires Idle(u, e)
    modifies e`inStack
    ensures Idle(u, e) && (inst, err) == Evaluated(u, e.labels, scope, inst0)
  {
    hide AssignPushArg, IsPush;
    inst, err := inst0, None;
    if inst.argNoLabels || !IsPush(inst.op) || inst.arg.None? {
      return;
    }
    var r := e.EvalExpr(Eval.Env(scope, map[]), inst.arg.value);
    match r {
      case LabelUnassigned => err := Some(UnassignedLabel);
      case Failed(cause) => err := Some(EvalFailed(cause));
      case Known(v) => inst, err := AssignArg(u.t, inst, v.num, false);
    }
  }

  lemma EvaluateNext(u: Unit, labels: Eval.Labels, instrs: seq<Output.Instr>, k: nat)
    requires k < |instrs| <= |u.scopes|
    ensures var (inst, e) := Evaluated(u, labels, u.scopes[k], instrs[k]);
            EvaluateFrom(u, labels, instrs, k)
            == if e.Some? then (instrs, Stopped(k, e.value)) else EvaluateFrom(u, labels, instrs[k := inst], k + 1)
  {
    hide Evaluated;
  }

  lemma EvaluateEnd(u: Unit, labels: Eval.Labels, instrs: seq<Output.Instr>)
    requires |instrs| <= |u.scopes|
    ensures EvaluateFrom(u, labels, instrs, |instrs|) == (instrs, Assigned)
  {
  }

  /** Computes the label-dependent argument values, up to the first failure. */
  method EvaluateArgs(u: Unit, e: Eval.Evaluator, out: Output.CompilerProg) returns (o: Outcome)
    requires Idle(u, e) && Iterable(u, out)
    modifies out`instrs, e`inStack
    ensures Idle(u, e) && Iterable(u, out) && |u.scopes| == |old(out.instrs)|
    ensures (out.instrs, o) == EvaluateFrom(u, e.labels, old(out.instrs), 0)
  {
    var found := out.IterInstructions();
    IterableScopes(u, out, found);
    hide EvaluateFrom, InScope, ScopeOf, InOrder;
    var instrs;
    instrs, o := EvaluateAll(u, e, found, out.sections, out.instrs);
    EvaluateLength(u, e.labels, out.instrs);
    out.instrs := instrs;
  }

  lemma EvaluateLength(u: Unit, labels: Eval.Labels, instrs: seq<Output.Instr>)
    requires |instrs| <= |u.scopes|
    ensures |EvaluateFrom(u, labels, instrs, 0).0| == |instrs|
  {
    EvaluateFromFacts(u, labels, instrs, 0);
    hide EvaluateFrom;
  }

  method EvaluateAll(u: Unit, e: Eval.Evaluator, found: seq<(Option<nat>, nat)>, sections: seq<Output.Section>, orig: seq<Output.Instr>)
    returns (instrs: seq<Output.Instr>, o: Outcome)
    requires Idle(u, e) && InScope(u, found, sections) && |found| == |orig| == |u.scopes|
    modifies e`inStack
    ensures Idle(u, e) && (instrs, o) == EvaluateFrom(u, e.labels, orig, 0)
  {
    instrs := orig;
    hide Evaluated, EvaluateFrom, ScopeOf, InScope;
    ghost var labels := e.labels;
    for k := 0 to |found|
      invariant Idle(u, e) && e.labels == labels
      invariant EvaluatesAs(u, labels, orig, instrs, k)
    {
      ScopeFound(u, found, sections, k);
      var err;
      instrs, err := EvaluateStep(u, e, orig, k, ScopeOf(sections, found[k]), instrs);
      if err.Some? {
        return instrs, Stopped(k, err.value);
      }
    }
    EvaluateEnd(u, labels, instrs);
    o := Assigned;
  }

  /** Going on from instruction k gives the result of the whole round. */
  ghost predicate EvaluatesAs(u: Unit, labels: Eval.Labels, orig: seq<Output.Instr>, instrs: seq<Output.Instr>, k: nat)
    requires |orig| <= |u.scopes|
  {
    k <= |instrs| == |orig| && EvaluateFrom(u, labels, instrs, k) == EvaluateFrom(u, labels, orig, 0)
  }

  method EvaluateStep(u: Unit, e: Eval.Evaluator, ghost orig: seq<Output.Instr>, k: nat, scope: Eval.Scope, instrs0: seq<Output.Instr>)
    returns (instrs: seq<Output.Instr>, err: Option<CompileError>)
    requires Idle(u, e) && k < |orig| <= |u.scopes| && scope == u.scopes[k] && EvaluatesAs(u, e.labels, orig, instrs0, k)
    modifies e`inStack
    ensures Idle(u, e)
    ensures err.None? ==> EvaluatesAs(u, e.labels, orig, instrs, k + 1)
    ensures err.Some? ==> EvaluateFrom(u, e.labels, orig, 0) == (instrs, Stopped(k, err.value))
  {
    EvaluateNext(u, e.labels, instrs0, k);
    hide Evaluated, EvaluateFrom;
    var inst;
    inst, err := EvaluateOne(u, e, scope, instrs0[k]);
    instrs := if err.Some? then instrs0 else instrs0[k := inst];
  }

  lemma RelaxedStep(u: Unit, instrs: seq<Output.Instr>)
    requires |instrs| <= |u.scopes|
    ensures var (r, o) := Round(u, instrs);
            && |r| == |instrs| && (o.Stopped? ==> o.k < |r|)
            && (o.Assigned? ==> Relaxed(u, instrs) == (r, None))
            && (o.Stopped? && o.error != VariablePushOverflow ==> Relaxed(u, instrs) == (r, Some(o.error)))
            && (o.Stopped? && o.error == VariablePushOverflow ==>
                  && Relaxed(u, instrs) == Relaxed(u, Bumped(r, o.k))
                  && |Bumped(r, o.k)| == |r| && Slack(Bumped(r, o.k)) == Slack(instrs) - 1)
  {
    RoundFacts(u, instrs);
    hide Round, Slack, Bumped;
    var (r, o) := Round(u, instrs);
    if o.Stopped? {
      BumpedLength(r, o.k);
    }
  }

  /** One round: positions of instructions and labels, then arguments. */
  method RunRound(u: Unit, e: Eval.Evaluator, out: Output.CompilerProg) returns (o: Outcome)
    requires Idle(u, e) && Iterable(u, out)
    modifies out`instrs, e`inStack, e`labels
    ensures Idle(u, e) && Iterable(u, out) && |u.scopes| == |old(out.instrs)|
    ensures (out.instrs, o) == Round(u, old(out.instrs))
  {
    ghost var before := out.instrs;
    out.ComputePC();
    assert |out.instrs| == |before|;
    e.labels := Eval.Placed(u.table, Output.PCs(out.instrs));
    SamePositions(before, out.instrs);
    hide EvaluateFrom;
    o := EvaluateArgs(u, e, out);
  }

  lemma SamePositions(before: seq<Output.Instr>, after: seq<Output.Instr>)
    requires after == Output.WithPCs(before)
    ensures Output.PCs(after) == Output.PCs(before)
  {
    forall k | 0 <= k < |before|
      ensures Output.PCs(after)[k] == Output.PCs(before)[k]
    {
      Output.SizeBeforeSame(before, after, k);
    }
  }

  /**
   * Raises the sizes of overflowing pushes, one at a time, until all arguments fit. The number of
   * raises is at most the initial slack, that is 31 for each push that can be raised.
   */
  method Relax(u: Unit, e: Eval.Evaluator, out: Output.CompilerProg) returns (err: Option<CompileError>, raises: nat)
    requires Idle(u, e) && Iterable(u, out)
    modifies out`instrs, e`inStack, e`labels
    ensures Idle(u, e) && Iterable(u, out) && |u.scopes| == |old(out.instrs)|
    ensures (out.instrs, err) == Relaxed(u, old(out.instrs))
    ensures raises <= Slack(old(out.instrs))
  {
    hide Round, Relaxed, Slack, Bumped;
    raises := 0;
    ghost var orig := out.instrs;
    while true
      invariant Idle(u, e) && Iterable(u, out) && |u.scopes| == |orig| == |out.instrs|
      invariant Relaxed(u, out.instrs) == Relaxed(u, orig)
      invariant raises + Slack(out.instrs) == Slack(orig)
      decreases Slack(out.instrs)
    {
      RelaxedStep(u, out.instrs);
      var o := RunRound(u, e, out);
      if o.Assigned? {
        return None, raises;
      }
      if o.error != VariablePushOverflow {
        return Some(o.error), raises;
      }
      out.instrs := Bumped(out.instrs, o.k);
      raises := raises + 1;
    }
  }

  // ----- the compiler run -----

  /** Sets up the label-to-instruction mapping. */
  method RegisterLabels(labels: seq<Output.CompLabel>) returns (table: map<Eval.LabelKey, nat>)
    ensures table == RegisteredLabels(labels, |labels|)
  {
    table := map[];
    for n := 0 to |labels|
      invariant table == RegisteredLabels(labels, n)
    {
      if labels[n].instr.Some? {
        table := table[KeyOf(labels[n]) := labels[n].instr.value];
      }
    }
  }

  /** Creates the evaluator's view of a finished program. */
  method MakeUnit(i: Input, out: Output.CompilerProg) returns (u: Unit)
    requires Output.Iterate(out.State()) == Output.Owned(out.owners)
    ensures u == UnitOf(i, out.State())
  {
    hide RegisteredLabels;
    var table := RegisterLabels(out.labels);
    var found := out.IterInstructions();
    var sections := out.sections;
    var scopes := seq(|found|, k requires 0 <= k < |found| => ScopeOf(sections, found[k]));
    assert scopes == Scopes(out.State());
    var globals := map name | name in out.globalLabels && out.globalLabels[name] < |out.labels| :: out.labels[out.globalLabels[name]].def;
    assert globals == GlobalDefs(out.State());
    u := Unit(Eval.World(i.p, out.docs, globals, i.overrides, i.foreign), i.t, scopes, table);
  }

  /** Verifies the positions that numeric labels claim. */
  method CheckPCLabels(instrs: seq<Output.Instr>) returns (errors: seq<CompileError>)
    ensures errors == PCErrors(instrs, |instrs|)
  {
    errors := [];
    for n := 0 to |instrs|
      invariant errors == PCErrors(instrs, n)
    {
      if instrs[n].assertedPC.Some? && instrs[n].assertedPC.value != instrs[n].pc {
        errors := errors + [PCMismatch];
      }
    }
  }

  lemma ExpandedIterable(i: Input, out: Output.CompilerProg)
    requires ValidTarget(i.t) && out.State() == ExpandProgram(i.t, i.p).prog
    ensures Iterable(UnitOf(i, out.State()), out)
  {
    ExpandedProgram(i.t, i.p);
    hide ExpandProgram, Fits, JumpPair, Output.JumpDestAt;
    assert Finished(i.t, out.State());
  }

  /** Compiles a program. There is no output if the source has errors. */
  method CompileProgram(i: Input) returns (code: Option<seq<Byte>>, errors: seq<CompileError>)
    requires CompleteTarget(i.t)
    ensures errors == Build(i).errors
    ensures errors == [] ==> code == Some(CodeOf(Build(i)))
    ensures errors != [] ==> code == None
  {
    hide ValidTarget, ExpandProgram, PreErrors, PCErrors, UnitOf, Relaxed, Generated;
    var c := new Comp.Compiler(i.t, i.p);
    c.ExpandToplevel();
    ghost var q := c.out.State();
    ExpandedIterable(i, c.out);
    var u := MakeUnit(i, c.out);
    var e := new Eval.Evaluator(u.w);
    var preErrors := PreEvaluateArgs(u, e, c.out);
    var err, _ := Relax(u, e, c.out);
    var pcErrors := CheckPCLabels(c.out.instrs);
    errors := c.errors + preErrors + AsSeq(err) + pcErrors;
    ghost var b := Build(i);
    assert b.unit == u && b.instrs == c.out.instrs && b.errors == errors;
    if |errors| > 0 {
      return None, errors;
    }
    ErrorFree(i);
    var o := GenerateOutput(i.t, c.out.instrs);
    code := Some(o.code);
  }

  lemma ErrorFree(i: Input)
    requires CompleteTarget(i.t) && Build(i).errors == []
    ensures var b := Build(i);
            var o := Generated(i.t, b.instrs, |b.instrs|);
            o.Written? && CodeOf(b) == o.code
  {
    BuildReady(i);
    BuildFinished(i);
    var b := Build(i);
    hide Build, Generated, AllReady, CompleteTarget, ValidTarget;
    Layout(b, |b.instrs|);
    UnitTarget(i);
  }

  lemma UnitTarget(i: Input)
    requires ValidTarget(i.t)
    ensures Build(i).unit.t == i.t
  {
    BuildFinished(i);
    hide Build;
  }
}
