/** Evaluation of instruction arguments, and PUSH sizes (asm/compiler_eval.go, and compile in asm/compiler.go). */
module Relaxation {
  import opened Base
  import opened Numerals
  import opened Lzint
  import opened InstructionSets
  import opened Ast
  import opened Evaluator
  import opened CompilerProg
  import opened Expansion

  /** What evaluation needs besides the instructions: definitions, the scope of each instruction, and the label table. */
  datatype Unit = Unit(w: World, t: Target, scopes: seq<Scope>, table: map<LabelKey, nat>)

  /** The declared size of a PUSH<n>. */
  function ExplicitSize(op: string): (r: Option<nat>)
    ensures r.Some? ==> r.value <= 32
  {
    if !IsPush(op) || |op| == 4 || !AllDigits(op[4..]) then None
    else
      var n := FromBase(10, DigitsOf(op[4..]));
      if n <= 32 then Some(n) else None
  }

  function AutoPushSize(t: Target, value: seq<Byte>): nat {
    if value == [] && "PUSH0" !in t.fork.byName then 1 else |value|
  }

  /** Sets the argument value of a push. The byte size is checked against the data size. */
  function AssignPushArg(t: Target, inst: Instr, v: int, setSize: bool): (Instr, Option<CompileError>) {
    if v < 0 then (inst, Some(NegativeResult))
    else
      var b := MinimalBytes(v);
      if |b| > 32 then (inst, Some(PushOverflow256))
      else
        var sized := if setSize && ExplicitSize(inst.op).None? then inst.(dataSize := AutoPushSize(t, b)) else inst;
        if |b| > sized.dataSize then
          (sized, Some(if ExplicitSize(inst.op).None? then VariablePushOverflow else FixedSizePushOverflow))
        else (sized.(data := b), None)
  }

  function EvalArg(u: Unit, labels: Labels, scope: Scope, arg: Expr): EvalResult {
    Eval(u.w, labels, {}, Env(scope, map[]), arg)
  }

  // ----- before labels are placed -----

  function PreEvaluatedBytes(u: Unit, scope: Scope, inst: Instr): (Instr, Option<CompileError>)
    requires inst.arg.Some?
  {
    var done := inst.(argNoLabels := true);
    match EvalArg(u, NoLabels, scope, inst.arg.value)
    case LabelUnassigned => (done, Some(LabelInBytes))
    case Failed(e) => (done, Some(EvalFailed(e)))
    case Known(v) =>
      match Bytes(v)
      case Err(e) => (done, Some(BytesFailed(e)))
      case Ok(b) => (done.(data := b, dataSize := |b|), None)
  }

  function PreEvaluatedPush(u: Unit, scope: Scope, inst: Instr): (Instr, Option<CompileError>)
    requires inst.arg.Some?
  {
    var sized := inst.(dataSize := if ExplicitSize(inst.op).Some? then ExplicitSize(inst.op).value else 1);
    match EvalArg(u, NoLabels, scope, inst.arg.value)
    case LabelUnassigned => (sized, None)
    case Failed(e) => (sized.(argNoLabels := true), Some(EvalFailed(e)))
    case Known(v) => AssignPushArg(u.t, sized.(argNoLabels := true), v.num, true)
  }

  /** The initial data size, and the argument value if it does not depend on labels. */
  function PreEvaluated(u: Unit, scope: Scope, inst: Instr): (Instr, Option<CompileError>) {
    if inst.op == BYTES then
      if inst.arg.None? then (inst, None) else PreEvaluatedBytes(u, scope, inst)
    else if IsPush(inst.op) && inst.arg.Some? then PreEvaluatedPush(u, scope, inst)
    else (inst, None)
  }

  // ----- with labels in place -----

  /** A push whose argument was not known without labels. */
  predicate LabelDependent(inst: Instr) {
    IsPush(inst.op) && inst.arg.Some? && !inst.argNoLabels
  }

  /** A label-dependent push without declared size. */
  predicate Flexible(inst: Instr) {
    LabelDependent(inst) && ExplicitSize(inst.op).None?
  }

  function Evaluated(u: Unit, labels: Labels, scope: Scope, inst: Instr): (Instr, Option<CompileError>) {
    if !LabelDependent(inst) then (inst, None)
    else
      match EvalArg(u, labels, scope, inst.arg.value)
      case LabelUnassigned => (inst, Some(UnassignedLabel))
      case Failed(e) => (inst, Some(EvalFailed(e)))
      case Known(v) => AssignPushArg(u.t, inst, v.num, false)
  }

  datatype Outcome = Assigned | Stopped(k: nat, error: CompileError)

  /** Computes the argument values of instructions from k on, up to the first failure. */
  function EvaluateFrom(u: Unit, labels: Labels, instrs: seq<Instr>, k: nat): (seq<Instr>, Outcome)
    requires k <= |instrs| <= |u.scopes|
    decreases |instrs| - k
  {
    if k == |instrs| then (instrs, Assigned)
    else
      var (inst, e) := Evaluated(u, labels, u.scopes[k], instrs[k]);
      if e.Some? then (instrs, Stopped(k, e.value)) else EvaluateFrom(u, labels, instrs[k := inst], k + 1)
  }

  /** One round: positions, then arguments. */
  function Round(u: Unit, instrs: seq<Instr>): (seq<Instr>, Outcome)
    requires |instrs| <= |u.scopes|
  {
    EvaluateFrom(u, Placed(u.table, PCs(instrs)), WithPCs(instrs), 0)
  }

  /** Only positions differ, and the data of label-dependent pushes. */
  ghost predicate SameButData(a: Instr, b: Instr) {
    b == a.(data := b.data, pc := b.pc) && (!LabelDependent(a) ==> b.data == a.data)
  }

  lemma EvaluatedFacts(u: Unit, labels: Labels, scope: Scope, inst: Instr)
    ensures var (r, e) := Evaluated(u, labels, scope, inst);
            && (e.None? ==> r == inst.(data := r.data))
            && (!LabelDependent(inst) ==> r == inst && e.None?)
            && (e == Some(VariablePushOverflow) ==> Flexible(inst) && inst.dataSize < 32)
  {
    hide EvalArg, MinimalBytes;
  }

  lemma {:induction false} EvaluateFromFacts(u: Unit, labels: Labels, instrs: seq<Instr>, k: nat)
    requires k <= |instrs| <= |u.scopes|
    ensures var (r, o) := EvaluateFrom(u, labels, instrs, k);
            && |r| == |instrs| && r[..k] == instrs[..k]
            && (forall j :: 0 <= j < |r| ==> SameButData(instrs[j], r[j]) && r[j].pc == instrs[j].pc)
            && (o.Stopped? ==> o.k < |r| && (o.error == VariablePushOverflow ==> Flexible(r[o.k]) && r[o.k].dataSize < 32))
    decreases |instrs| - k
  {
    if k < |instrs| {
      EvaluatedFacts(u, labels, u.scopes[k], instrs[k]);
      hide Evaluated, Flexible;
      var (inst, e) := Evaluated(u, labels, u.scopes[k], instrs[k]);
      if e.None? {
        EvaluateFromFacts(u, labels, instrs[k := inst], k + 1);
        assert EvaluateFrom(u, labels, instrs[k := inst], k + 1).0[..k + 1][..k] == instrs[..k];
      }
    }
  }

  // ----- the fixed point -----

  /** How many times PUSH sizes can still be raised. */
  function Slack(instrs: seq<Instr>): nat {
    if instrs == [] then 0
    else
      var last := instrs[|instrs| - 1];
      Slack(instrs[..|instrs| - 1]) + (if Flexible(last) && last.dataSize <= 32 then 32 - last.dataSize else 0)
  }

  function Bumped(instrs: seq<Instr>, k: nat): seq<Instr>
    requires k < |instrs|
  {
    instrs[k := instrs[k].(dataSize := instrs[k].dataSize + 1)]
  }

  lemma {:induction false} SlackSame(a: seq<Instr>, b: seq<Instr>)
    requires |a| == |b| && forall j :: 0 <= j < |a| ==> SameButData(a[j], b[j])
    ensures Slack(a) == Slack(b)
    decreases |a|
  {
    if a != [] {
      hide Flexible;
      var n := |a| - 1;
      SameFlexible(a[n], b[n]);
      SlackSame(a[..n], b[..n]);
    }
  }

  lemma SameFlexible(a: Instr, b: Instr)
    requires SameButData(a, b)
    ensures Flexible(a) == Flexible(b) && LabelDependent(a) == LabelDependent(b) && a.dataSize == b.dataSize
  {
  }

  lemma {:induction false} SlackBumped(instrs: seq<Instr>, k: nat)
    requires k < |instrs| && Flexible(instrs[k]) && instrs[k].dataSize < 32
    ensures Slack(Bumped(instrs, k)) == Slack(instrs) - 1
    decreases |instrs|
  {
    var n := |instrs| - 1;
    if k < n {
      SlackBumped(instrs[..n], k);
      assert Bumped(instrs, k)[..n] == Bumped(instrs[..n], k);
    } else {
      assert Bumped(instrs, k)[..n] == instrs[..n];
      assert Flexible(Bumped(instrs, k)[n]);
    }
    hide Flexible;
  }

  lemma RoundFacts(u: Unit, instrs: seq<Instr>)
    requires |instrs| <= |u.scopes|
    ensures var (r, o) := Round(u, instrs);
            && |r| == |instrs| && Slack(r) == Slack(instrs)
            && (forall j :: 0 <= j < |r| ==> SameButData(instrs[j], r[j]) && r[j].pc == PCs(instrs)[j])
            && (o.Stopped? ==> o.k < |r| && (o.error == VariablePushOverflow ==>
                  Flexible(r[o.k]) && r[o.k].dataSize < 32 && Slack(Bumped(r, o.k)) == Slack(instrs) - 1))
  {
    EvaluateFromFacts(u, Placed(u.table, PCs(instrs)), WithPCs(instrs), 0);
    var (r, o) := Round(u, instrs);
    hide EvaluateFrom, Flexible, SizeBefore, Slack, Bumped, Round;
    forall j | 0 <= j < |r|
      ensures SameButData(instrs[j], r[j]) && r[j].pc == PCs(instrs)[j]
    {
      assert SameButData(WithPCs(instrs)[j], r[j]);
    }
    SlackSame(instrs, r);
    if o.Stopped? && o.error == VariablePushOverflow {
      SlackBumped(r, o.k);
    }
  }

  /** Repeats rounds, raising the size of one overflowing push at a time, until all arguments fit. */
  function Relaxed(u: Unit, instrs: seq<Instr>): (seq<Instr>, Option<CompileError>)
    requires |instrs| <= |u.scopes|
    decreases Slack(instrs)
  {
    RoundFacts(u, instrs);
    var (r, o) := Round(u, instrs);
    if o.Assigned? then (r, None)
    else if o.error == VariablePushOverflow then Relaxed(u, Bumped(r, o.k))
    else (r, Some(o.error))
  }

  // ----- consistency -----

  /** The data of a label-dependent push is the big-endian value of its argument, and fits. */
  ghost predicate ArgAssigned(u: Unit, labels: Labels, scope: Scope, inst: Instr) {
    LabelDependent(inst) ==>
      var r := EvalArg(u, labels, scope, inst.arg.value);
      && r.Known? && r.value.num >= 0
      && inst.data == MinimalBytes(r.value.num) && |inst.data| <= inst.dataSize && |inst.data| <= 32
  }

  lemma EvaluatedAssigns(u: Unit, labels: Labels, scope: Scope, inst: Instr)
    requires Evaluated(u, labels, scope, inst).1.None?
    ensures ArgAssigned(u, labels, scope, Evaluated(u, labels, scope, inst).0)
  {
    hide EvalArg, MinimalBytes;
  }

  lemma {:induction false} EvaluateFromAssigns(u: Unit, labels: Labels, instrs: seq<Instr>, k: nat)
    requires k <= |instrs| <= |u.scopes|
    requires EvaluateFrom(u, labels, instrs, k).1.Assigned?
    ensures var r := EvaluateFrom(u, labels, instrs, k).0;
            |r| == |instrs| && forall j :: k <= j < |r| ==> ArgAssigned(u, labels, u.scopes[j], r[j])
    decreases |instrs| - k
  {
    if k < |instrs| {
      EvaluatedAssigns(u, labels, u.scopes[k], instrs[k]);
      hide Evaluated, ArgAssigned;
      var inst := Evaluated(u, labels, u.scopes[k], instrs[k]).0;
      EvaluateFromAssigns(u, labels, instrs[k := inst], k + 1);
      EvaluateFromFacts(u, labels, instrs[k := inst], k + 1);
      var r := EvaluateFrom(u, labels, instrs, k).0;
      assert r[..k + 1][k] == inst;
    }
  }

  lemma SamePCs(a: seq<Instr>, b: seq<Instr>)
    requires |a| == |b| && forall j :: 0 <= j < |a| ==> SameButData(a[j], b[j])
    ensures PCs(a) == PCs(b)
  {
    forall k | 0 <= k < |a|
      ensures PCs(a)[k] == PCs(b)[k]
    {
      SizeBeforeSame(a, b, k);
    }
  }

  /** Only the sizes of flexible pushes have changed, and they have not shrunk. */
  ghost predicate Grew(a: Instr, b: Instr) {
    && b == a.(data := b.data, pc := b.pc, dataSize := b.dataSize)
    && (!LabelDependent(a) ==> b.data == a.data)
    && (if Flexible(a) then a.dataSize <= b.dataSize else b.dataSize == a.dataSize)
  }

  /** Sizes of flexible pushes are between one and the width of a word. */
  ghost predicate SizeInRange(inst: Instr) {
    Flexible(inst) ==> 1 <= inst.dataSize <= 32
  }

  lemma GrewTransitive(a: Instr, b: Instr, c: Instr)
    requires Grew(a, b) && Grew(b, c)
    ensures Grew(a, c)
  {
  }

  lemma GrewData(a: Instr, b: Instr)
    requires SameButData(a, b)
    ensures Grew(a, b) && (SizeInRange(a) ==> SizeInRange(b))
  {
  }

  lemma GrewBumped(a: Instr, b: Instr)
    requires Flexible(a) && a.dataSize < 32 && b == a.(dataSize := a.dataSize + 1)
    ensures Grew(a, b) && SizeInRange(b)
  {
  }

  /** A round that stops with an overflow, and the raise of the push that overflowed. */
  lemma BumpedGrew(u: Unit, instrs: seq<Instr>)
    requires |instrs| <= |u.scopes| && forall j :: 0 <= j < |instrs| ==> SizeInRange(instrs[j])
    ensures var (r, o) := Round(u, instrs);
            && |r| == |instrs|
            && (forall j :: 0 <= j < |r| ==> Grew(instrs[j], r[j]) && SizeInRange(r[j]))
            && (o.Stopped? && o.error == VariablePushOverflow ==>
                  && o.k < |r|
                  && forall j :: 0 <= j < |r| ==> Grew(instrs[j], Bumped(r, o.k)[j]) && SizeInRange(Bumped(r, o.k)[j]))
  {
    RoundFacts(u, instrs);
    var (r, o) := Round(u, instrs);
    hide Round, Grew, SizeInRange, Flexible, Slack;
    forall j | 0 <= j < |r|
      ensures Grew(instrs[j], r[j]) && SizeInRange(r[j])
    {
      GrewData(instrs[j], r[j]);
    }
    if o.Stopped? && o.error == VariablePushOverflow {
      var b := Bumped(r, o.k);
      forall j | 0 <= j < |b|
        ensures Grew(instrs[j], b[j]) && SizeInRange(b[j])
      {
        if j == o.k {
          GrewBumped(r[j], b[j]);
          GrewTransitive(instrs[j], r[j], b[j]);
        }
      }
    }
  }

  /** Final positions and arguments agree with each other. */
  ghost predicate Consistent(u: Unit, r: seq<Instr>)
    requires |r| <= |u.scopes|
  {
    && (forall j :: 0 <= j < |r| ==> r[j].pc == PCs(r)[j])
    && (forall j :: 0 <= j < |r| ==> ArgAssigned(u, Placed(u.table, PCs(r)), u.scopes[j], r[j]))
  }

  lemma AssignedConsistent(u: Unit, instrs: seq<Instr>)
    requires |instrs| <= |u.scopes| && Round(u, instrs).1.Assigned?
    ensures |Round(u, instrs).0| == |instrs| && Consistent(u, Round(u, instrs).0)
  {
    RoundFacts(u, instrs);
    var r := Round(u, instrs).0;
    SamePCs(instrs, r);
    EvaluateFromAssigns(u, Placed(u.table, PCs(instrs)), WithPCs(instrs), 0);
    hide EvaluateFrom, ArgAssigned, SizeBefore;
  }

  /**
   * Relaxation only raises the sizes of label-dependent pushes without declared size, and never above
   * 32. When it succeeds, every argument has the value it has for the final positions, and fits.
   */
  lemma {:induction false} RelaxedConsistent(u: Unit, instrs: seq<Instr>)
    requires |instrs| <= |u.scopes| && forall j :: 0 <= j < |instrs| ==> SizeInRange(instrs[j])
    ensures var (r, e) := Relaxed(u, instrs);
            && |r| == |instrs|
            && (forall j :: 0 <= j < |r| ==> Grew(instrs[j], r[j]) && SizeInRange(r[j]))
            && (e.None? ==> Consistent(u, r))
    decreases Slack(instrs)
  {
    RoundFacts(u, instrs);
    BumpedGrew(u, instrs);
    var (r, o) := Round(u, instrs);
    if o.Assigned? {
      AssignedConsistent(u, instrs);
    } else if o.error == VariablePushOverflow {
      hide Round, Grew, SizeInRange, Consistent, Slack, Bumped;
      RelaxedConsistent(u, Bumped(r, o.k));
      var final := Relaxed(u, Bumped(r, o.k)).0;
      forall j | 0 <= j < |instrs|
        ensures Grew(instrs[j], final[j])
      {
        GrewTransitive(instrs[j], Bumped(r, o.k)[j], final[j]);
      }
    }
  }

  // ----- the least solution -----

  lemma {:induction false} BitLenMonotone(a: nat, b: nat)
    requires a <= b
    ensures BitLen(a) <= BitLen(b)
    decreases b
  {
    if a > 0 {
      BitLenMonotone(a / 2, b / 2);
    }
  }

  lemma ByteLenMonotone(a: nat, b: nat)
    requires a <= b
    ensures |MinimalBytes(a)| <= |MinimalBytes(b)|
  {
    BitLenMonotone(a, b);
  }

  /** The same instructions, with other sizes of at least one for the flexible pushes. */
  ghost predicate Resized(a: Instr, b: Instr) {
    && b == a.(data := b.data, pc := b.pc, dataSize := b.dataSize)
    && (if Flexible(a) then 1 <= b.dataSize else b.dataSize == a.dataSize)
  }

  /** The value that an argument has for given positions needs no more bytes than the push has. */
  ghost predicate Fitting(u: Unit, labels: Labels, scope: Scope, inst: Instr) {
    LabelDependent(inst) ==>
      var r := EvalArg(u, labels, scope, inst.arg.value);
      r.Known? && r.value.num >= 0 && |MinimalBytes(r.value.num)| <= inst.dataSize && |MinimalBytes(r.value.num)| <= 32
  }

  /** A consistent choice of sizes for the instructions. */
  ghost predicate Solution(u: Unit, instrs: seq<Instr>, rival: seq<Instr>)
    requires |instrs| <= |u.scopes|
  {
    && |rival| == |instrs|
    && (forall j :: 0 <= j < |rival| ==> Resized(instrs[j], rival[j]))
    && (forall j :: 0 <= j < |rival| ==> Fitting(u, Placed(u.table, PCs(rival)), u.scopes[j], rival[j]))
  }

  ghost predicate AtMost(a: seq<nat>, b: seq<nat>) {
    |a| == |b| && forall k :: 0 <= k < |a| ==> a[k] <= b[k]
  }

  /** The argument of an instruction never decreases as positions grow. */
  ghost predicate MonotoneArg(u: Unit, scope: Scope, inst: Instr) {
    LabelDependent(inst) ==>
      forall lo: seq<nat>, hi: seq<nat> :: AtMost(lo, hi) ==>
        var a, b := EvalArg(u, Placed(u.table, lo), scope, inst.arg.value), EvalArg(u, Placed(u.table, hi), scope, inst.arg.value);
        a.Known? && b.Known? ==> a.value.num <= b.value.num
  }

  ghost predicate Monotone(u: Unit, instrs: seq<Instr>)
    requires |instrs| <= |u.scopes|
  {
    forall j :: 0 <= j < |instrs| ==> MonotoneArg(u, u.scopes[j], instrs[j])
  }

  ghost predicate NoLarger(instrs: seq<Instr>, rival: seq<Instr>) {
    |instrs| == |rival| && forall j :: 0 <= j < |instrs| ==> instrs[j].dataSize <= rival[j].dataSize
  }

  lemma {:induction false} SizeBeforeMonotone(a: seq<Instr>, b: seq<Instr>, k: nat)
    requires k <= |a| == |b| && NoLarger(a, b)
    requires forall j :: 0 <= j < |a| ==> a[j].op == b[j].op
    ensures SizeBefore(a, k) <= SizeBefore(b, k)
  {
    if k > 0 {
      SizeBeforeMonotone(a, b, k - 1);
    }
  }

  lemma PCsMonotone(a: seq<Instr>, b: seq<Instr>)
    requires NoLarger(a, b) && forall j :: 0 <= j < |a| ==> Resized(a[j], b[j])
    ensures AtMost(PCs(a), PCs(b))
  {
    forall k | 0 <= k < |a|
      ensures PCs(a)[k] <= PCs(b)[k]
    {
      SizeBeforeMonotone(a, b, k);
    }
  }

  /** An instruction that overflows at positions no higher than in a solution has a larger size in the solution. */
  lemma OverflowBelow(u: Unit, lo: seq<nat>, hi: seq<nat>, scope: Scope, inst: Instr, rival: Instr)
    requires AtMost(lo, hi) && Resized(inst, rival) && inst.dataSize <= rival.dataSize
    requires MonotoneArg(u, scope, inst) && Fitting(u, Placed(u.table, hi), scope, rival)
    requires Evaluated(u, Placed(u.table, lo), scope, inst).1 == Some(VariablePushOverflow)
    ensures inst.dataSize < rival.dataSize
  {
    hide EvalArg, MinimalBytes, IsPush;
    var a, b := EvalArg(u, Placed(u.table, lo), scope, inst.arg.value), EvalArg(u, Placed(u.table, hi), scope, inst.arg.value);
    assert a.Known? && b.Known?;
    ByteLenMonotone(a.value.num, b.value.num);
  }

  /** The instruction at which a run stops. */
  lemma {:induction false} StopsAt(u: Unit, labels: Labels, instrs: seq<Instr>, k: nat)
    requires k <= |instrs| <= |u.scopes| && EvaluateFrom(u, labels, instrs, k).1.Stopped?
    ensures var (r, o) := EvaluateFrom(u, labels, instrs, k);
            k <= o.k < |instrs| && Evaluated(u, labels, u.scopes[o.k], instrs[o.k]).1 == Some(o.error)
    decreases |instrs| - k
  {
    hide Evaluated;
    var (inst, e) := Evaluated(u, labels, u.scopes[k], instrs[k]);
    if k < |instrs| && e.None? {
      StopsAt(u, labels, instrs[k := inst], k + 1);
    }
  }

  lemma ResizedGrew(a: Instr, b: Instr, rival: Instr)
    requires Grew(a, b) && Resized(a, rival)
    ensures Resized(b, rival)
  {
  }

  lemma MonotoneGrew(u: Unit, scope: Scope, a: Instr, b: Instr)
    requires Grew(a, b) && MonotoneArg(u, scope, a)
    ensures MonotoneArg(u, scope, b)
  {
    hide EvalArg;
  }

  /** The push that overflows is smaller than in a solution. */
  lemma OverflowSmaller(u: Unit, instrs: seq<Instr>, rival: seq<Instr>)
    requires |instrs| <= |u.scopes|
    requires Solution(u, instrs, rival) && Monotone(u, instrs) && NoLarger(instrs, rival)
    requires var o := Round(u, instrs).1; o.Stopped? && o.error == VariablePushOverflow
    ensures var o := Round(u, instrs).1; o.k < |instrs| == |rival| && instrs[o.k].dataSize < rival[o.k].dataSize
  {
    var o := Round(u, instrs).1;
    StopsAt(u, Placed(u.table, PCs(instrs)), WithPCs(instrs), 0);
    PCsMonotone(instrs, rival);
    var inst := WithPCs(instrs)[o.k];
    hide Round, EvaluateFrom, Evaluated, Resized, MonotoneArg, Fitting, SizeBefore, LabelDependent;
    PlacedSame(u, instrs[o.k], inst, rival[o.k], u.scopes[o.k]);
    OverflowBelow(u, PCs(instrs), PCs(rival), u.scopes[o.k], inst, rival[o.k]);
  }

  lemma SolutionGrew(u: Unit, a: seq<Instr>, b: seq<Instr>, rival: seq<Instr>)
    requires |a| <= |u.scopes| && Solution(u, a, rival)
    requires |b| == |a| && forall j :: 0 <= j < |a| ==> Grew(a[j], b[j])
    ensures Solution(u, b, rival)
  {
    hide Grew, Resized, Fitting, SizeBefore;
    forall j | 0 <= j < |b|
      ensures Resized(b[j], rival[j])
    {
      ResizedGrew(a[j], b[j], rival[j]);
    }
  }

  lemma MonotoneAllGrew(u: Unit, a: seq<Instr>, b: seq<Instr>)
    requires |a| <= |u.scopes| && Monotone(u, a)
    requires |b| == |a| && forall j :: 0 <= j < |a| ==> Grew(a[j], b[j])
    ensures Monotone(u, b)
  {
    hide Grew, MonotoneArg;
    forall j | 0 <= j < |b|
      ensures MonotoneArg(u, u.scopes[j], b[j])
    {
      MonotoneGrew(u, u.scopes[j], a[j], b[j]);
    }
  }

  lemma BumpNoLarger(u: Unit, instrs: seq<Instr>, rival: seq<Instr>, r: seq<Instr>, k: nat)
    requires |r| == |instrs| && k < |r| && forall j :: 0 <= j < |r| ==> SameButData(instrs[j], r[j])
    requires NoLarger(instrs, rival) && instrs[k].dataSize < rival[k].dataSize
    ensures NoLarger(Bumped(r, k), rival)
  {
    forall j | 0 <= j < |r|
      ensures Bumped(r, k)[j].dataSize <= rival[j].dataSize
    {
      assert SameButData(instrs[j], r[j]);
    }
  }

  /** A raised push is still no larger than in a solution, and the solution solves the raised instructions. */
  lemma BumpBelow(u: Unit, instrs: seq<Instr>, rival: seq<Instr>)
    requires |instrs| <= |u.scopes| && forall j :: 0 <= j < |instrs| ==> SizeInRange(instrs[j])
    requires Solution(u, instrs, rival) && Monotone(u, instrs) && NoLarger(instrs, rival)
    requires var o := Round(u, instrs).1; o.Stopped? && o.error == VariablePushOverflow
    ensures var (r, o) := Round(u, instrs);
            && |r| == |instrs| && o.k < |r|
            && Solution(u, Bumped(r, o.k), rival) && Monotone(u, Bumped(r, o.k)) && NoLarger(Bumped(r, o.k), rival)
  {
    hide *;
    RoundFacts(u, instrs);
    BumpedGrew(u, instrs);
    OverflowSmaller(u, instrs, rival);
    var (r, o) := Round(u, instrs);
    BumpNoLarger(u, instrs, rival, r, o.k);
    BumpedLength(r, o.k);
    SolutionGrew(u, instrs, Bumped(r, o.k), rival);
    MonotoneAllGrew(u, instrs, Bumped(r, o.k));
  }

  lemma BumpedLength(r: seq<Instr>, k: nat)
    requires k < |r|
    ensures |Bumped(r, k)| == |r|
  {
  }

  lemma PlacedSame(u: Unit, inst: Instr, placed: Instr, rival: Instr, scope: Scope)
    requires placed == AtPC(inst, placed.pc)
    requires Resized(inst, rival) && MonotoneArg(u, scope, inst)
    ensures Resized(placed, rival) && MonotoneArg(u, scope, placed) && placed.dataSize == inst.dataSize
  {
    hide EvalArg;
  }

  /**
   * Relaxation is least: if no label-dependent argument decreases as positions grow, then the sizes
   * are pointwise no larger than those of any consistent choice of sizes.
   */
  lemma {:induction false} RelaxedLeast(u: Unit, instrs: seq<Instr>, rival: seq<Instr>)
    requires |instrs| <= |u.scopes| && forall j :: 0 <= j < |instrs| ==> SizeInRange(instrs[j])
    requires Solution(u, instrs, rival) && Monotone(u, instrs) && NoLarger(instrs, rival)
    ensures NoLarger(Relaxed(u, instrs).0, rival)
    decreases Slack(instrs)
  {
    var (r, o) := Round(u, instrs);
    RoundFacts(u, instrs);
    if o.Stopped? && o.error == VariablePushOverflow {
      assert Relaxed(u, instrs) == Relaxed(u, Bumped(r, o.k));
      hide Round, Relaxed, Grew, SizeInRange, Slack, Bumped, Solution, Monotone, NoLarger;
      BumpBelow(u, instrs, rival);
      BumpedGrew(u, instrs);
      RelaxedLeast(u, Bumped(r, o.k), rival);
    } else {
      assert Relaxed(u, instrs).0 == r;
      hide Round, Relaxed, NoLarger;
      RoundNoLarger(u, instrs, rival);
    }
  }

  lemma RoundNoLarger(u: Unit, instrs: seq<Instr>, rival: seq<Instr>)
    requires |instrs| <= |u.scopes| && NoLarger(instrs, rival)
    ensures NoLarger(Round(u, instrs).0, rival)
  {
    RoundFacts(u, instrs);
    var r := Round(u, instrs).0;
    hide Round, Slack;
    forall j | 0 <= j < |r|
      ensures r[j].dataSize <= rival[j].dataSize
    {
      assert SameButData(instrs[j], r[j]);
    }
  }

  // ----- when relaxation succeeds -----

  /** The argument has a value for all positions, and it is never negative. */
  ghost predicate TotalArg(u: Unit, scope: Scope, inst: Instr, n: nat) {
    LabelDependent(inst) ==>
      forall pcs: seq<nat> :: |pcs| == n ==>
        var r := EvalArg(u, Placed(u.table, pcs), scope, inst.arg.value);
        r.Known? && r.value.num >= 0
  }

  ghost predicate Total(u: Unit, instrs: seq<Instr>)
    requires |instrs| <= |u.scopes|
  {
    forall j :: 0 <= j < |instrs| ==> TotalArg(u, u.scopes[j], instrs[j], |instrs|)
  }

  lemma TotalGrew(u: Unit, scope: Scope, a: Instr, b: Instr, n: nat)
    requires Grew(a, b) && TotalArg(u, scope, a, n)
    ensures TotalArg(u, scope, b, n)
  {
    hide EvalArg;
  }

  /** With a solution above, only the size of a flexible push can be too small. */
  lemma OnlyOverflow(u: Unit, lo: seq<nat>, hi: seq<nat>, scope: Scope, inst: Instr, rival: Instr)
    requires AtMost(lo, hi) && Resized(inst, rival) && inst.dataSize <= rival.dataSize
    requires MonotoneArg(u, scope, inst) && TotalArg(u, scope, inst, |lo|)
    requires Fitting(u, Placed(u.table, hi), scope, rival)
    requires Evaluated(u, Placed(u.table, lo), scope, inst).1.Some?
    ensures Evaluated(u, Placed(u.table, lo), scope, inst).1 == Some(VariablePushOverflow)
  {
    hide EvalArg, MinimalBytes, IsPush;
    var a, b := EvalArg(u, Placed(u.table, lo), scope, inst.arg.value), EvalArg(u, Placed(u.table, hi), scope, inst.arg.value);
    assert a.Known? && b.Known? && a.value.num <= b.value.num;
    ByteLenMonotone(a.value.num, b.value.num);
  }

  lemma RoundOnlyOverflow(u: Unit, instrs: seq<Instr>, rival: seq<Instr>)
    requires |instrs| <= |u.scopes| && Solution(u, instrs, rival) && Monotone(u, instrs) && NoLarger(instrs, rival) && Total(u, instrs)
    ensures var o := Round(u, instrs).1; o.Stopped? ==> o.error == VariablePushOverflow
  {
    var o := Round(u, instrs).1;
    if o.Stopped? {
      StopsAt(u, Placed(u.table, PCs(instrs)), WithPCs(instrs), 0);
      PCsMonotone(instrs, rival);
      var inst := WithPCs(instrs)[o.k];
      hide Round, EvaluateFrom, Evaluated, Resized, MonotoneArg, Fitting, SizeBefore, TotalArg;
      PlacedSame(u, instrs[o.k], inst, rival[o.k], u.scopes[o.k]);
      PlacedTotal(u, instrs[o.k], inst, u.scopes[o.k], |instrs|);
      OnlyOverflow(u, PCs(instrs), PCs(rival), u.scopes[o.k], inst, rival[o.k]);
    }
  }

  lemma PlacedTotal(u: Unit, inst: Instr, placed: Instr, scope: Scope, n: nat)
    requires placed == AtPC(inst, placed.pc) && TotalArg(u, scope, inst, n)
    ensures TotalArg(u, scope, placed, n)
  {
    hide EvalArg;
  }

  lemma {:induction false} RelaxedSucceeds(u: Unit, instrs: seq<Instr>, rival: seq<Instr>)
    requires |instrs| <= |u.scopes| && forall j :: 0 <= j < |instrs| ==> SizeInRange(instrs[j])
    requires Solution(u, instrs, rival) && Monotone(u, instrs) && NoLarger(instrs, rival) && Total(u, instrs)
    ensures Relaxed(u, instrs).1.None?
    decreases Slack(instrs)
  {
    RoundOnlyOverflow(u, instrs, rival);
    RoundSlack(u, instrs);
    var (r, o) := Round(u, instrs);
    if o.Stopped? {
      BumpBelow(u, instrs, rival);
      BumpTotal(u, instrs);
      hide Round, SizeInRange, Slack, Bumped, Solution, Monotone, NoLarger, Total;
      RelaxedSucceeds(u, Bumped(r, o.k), rival);
    }
  }

  lemma RoundSlack(u: Unit, instrs: seq<Instr>)
    requires |instrs| <= |u.scopes| && forall j :: 0 <= j < |instrs| ==> SizeInRange(instrs[j])
    ensures var (r, o) := Round(u, instrs);
            o.Stopped? && o.error == VariablePushOverflow ==>
              && o.k < |r| == |instrs| && Slack(Bumped(r, o.k)) < Slack(instrs)
              && forall j :: 0 <= j < |r| ==> SizeInRange(Bumped(r, o.k)[j])
  {
    hide Round, Slack, SizeInRange, Grew;
    RoundFacts(u, instrs);
    BumpedGrew(u, instrs);
  }

  lemma BumpTotal(u: Unit, instrs: seq<Instr>)
    requires |instrs| <= |u.scopes| && (forall j :: 0 <= j < |instrs| ==> SizeInRange(instrs[j])) && Total(u, instrs)
    requires var o := Round(u, instrs).1; o.Stopped? && o.error == VariablePushOverflow
    ensures var (r, o) := Round(u, instrs); o.k < |r| == |instrs| && Total(u, Bumped(r, o.k))
  {
    BumpedGrew(u, instrs);
    var (r, o) := Round(u, instrs);
    var b := Bumped(r, o.k);
    hide Round, Grew, SizeInRange, TotalArg, Bumped;
    forall j | 0 <= j < |b|
      ensures TotalArg(u, u.scopes[j], b[j], |b|)
    {
      TotalGrew(u, u.scopes[j], instrs[j], b[j], |b|);
    }
  }

  lemma ConsistentSolves(u: Unit, instrs: seq<Instr>, r: seq<Instr>)
    requires |instrs| <= |u.scopes| && |r| == |instrs| && Consistent(u, r)
    requires forall j :: 0 <= j < |r| ==> Grew(instrs[j], r[j]) && SizeInRange(instrs[j])
    ensures Solution(u, instrs, r)
  {
    hide EvalArg, MinimalBytes, SizeBefore;
    forall j | 0 <= j < |r|
      ensures Resized(instrs[j], r[j]) && Fitting(u, Placed(u.table, PCs(r)), u.scopes[j], r[j])
    {
      assert Grew(instrs[j], r[j]) && SizeInRange(instrs[j]);
      assert ArgAssigned(u, Placed(u.table, PCs(r)), u.scopes[j], r[j]);
    }
  }

  /**
   * If label-dependent arguments have values for all positions and never decrease as positions grow,
   * then relaxation succeeds exactly if there is a consistent choice of sizes at all.
   */
  lemma RelaxedSucceedsIff(u: Unit, instrs: seq<Instr>)
    requires |instrs| <= |u.scopes| && (forall j :: 0 <= j < |instrs| && Flexible(instrs[j]) ==> instrs[j].dataSize == 1)
    requires Monotone(u, instrs) && Total(u, instrs)
    ensures Relaxed(u, instrs).1.None? <==> exists rival: seq<Instr> :: Solution(u, instrs, rival)
  {
    hide Relaxed, Monotone, Total, Slack, EvalArg, MinimalBytes;
    RelaxedConsistent(u, instrs);
    if Relaxed(u, instrs).1.None? {
      ConsistentSolves(u, instrs, Relaxed(u, instrs).0);
    }
    if rival: seq<Instr> :| Solution(u, instrs, rival) {
      forall j | 0 <= j < |instrs|
        ensures instrs[j].dataSize <= rival[j].dataSize
      {
        assert Resized(instrs[j], rival[j]);
      }
      RelaxedSucceeds(u, instrs, rival);
    }
  }

  // ----- how often sizes are raised -----

  /** The number of flexible pushes. */
  function FlexibleCount(instrs: seq<Instr>): nat {
    if instrs == [] then 0 else FlexibleCount(instrs[..|instrs| - 1]) + (if Flexible(instrs[|instrs| - 1]) then 1 else 0)
  }

  /** At most 31 raises for each flexible push. */
  lemma {:induction false} SlackBound(instrs: seq<Instr>)
    requires forall j :: 0 <= j < |instrs| ==> SizeInRange(instrs[j])
    ensures Slack(instrs) <= 31 * FlexibleCount(instrs)
    decreases |instrs|
  {
    if instrs != [] {
      hide Flexible;
      var n := |instrs| - 1;
      SlackBound(instrs[..n]);
      assert SizeInRange(instrs[n]);
    }
  }
}
