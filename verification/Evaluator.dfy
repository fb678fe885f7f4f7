/** Evaluation of expressions (asm/evaluator.go). */
module Evaluator {
  import opened Base
  import opened Lzint
  import opened Ast
  import opened Arithmetic

  /** Where an expression is evaluated: a document, and the arguments of the instruction macro around it. */
  datatype Scope = Scope(doc: nat, args: Option<CallArgs>)

  datatype CallArgs = CallArgs(callsite: Scope, params: seq<string>, args: seq<Expr>)

  datatype Env = Env(scope: Scope, variables: map<string, Value>)

  datatype LabelKey = LabelKey(doc: Option<nat>, def: LabelDef)

  /** Label positions: unknown during expansion, then the pc of the instruction a label points to. */
  datatype Labels = NoLabels | Placed(instr: map<LabelKey, nat>, pcs: seq<nat>)

  /** Builtins that call foreign code, on bytes or on the text of a literal; None is an error. */
  datatype Foreign = Foreign(ofBytes: (string, nat, seq<Byte>) -> Option<Value>, ofText: (string, string) -> Option<Value>)

  /** The definitions that evaluation can refer to. Instantiated global labels come before definitions. */
  datatype World = World(
    prog: Program,
    docs: seq<Document>,
    globals: map<string, LabelDef>,
    overrides: map<string, nat>,
    foreign: Foreign)

  datatype EvalError =
    | UndefinedLabel
    | DottedReference
    | Arith(error: ArithError)
    | UndefinedVariable
    | UndefinedMacro
    | UndefinedBuiltin
    | ArgumentCount
    | RecursiveCall
    | NotBytes(cause: BytesError)
    | WantsLiteral
    | ForeignError

  datatype EvalResult = Known(value: Value) | LabelUnassigned | Failed(error: EvalError)

  datatype ArgsResult = KnownArgs(values: seq<Value>) | NoArgs(result: EvalResult)

  // ----- labels -----

  function FindLabel(w: World, name: string, doc: nat): Option<LabelDef> {
    if name in w.globals then Some(w.globals[name]) else LookupLabel(w.prog, w.docs, name, doc)
  }

  /** Walks the document chain to find the instance of a local label. */
  function LocalInstance(w: World, instr: map<LabelKey, nat>, def: LabelDef, doc: nat): Option<nat>
    decreases doc
  {
    if LabelKey(Some(doc), def) in instr then Some(instr[LabelKey(Some(doc), def)])
    else
      match Enclosing(w.docs, doc)
      case None => None
      case Some(up) => LocalInstance(w, instr, def, up)
  }

  /** The instruction that a reference to def leads to. */
  function Instance(w: World, instr: map<LabelKey, nat>, ident: string, def: LabelDef, doc: nat): Option<nat> {
    if IsGlobal(ident) then
      if LabelKey(None, def) in instr then Some(instr[LabelKey(None, def)]) else None
    else LocalInstance(w, instr, def, doc)
  }

  function EvalLabel(w: World, labels: Labels, ident: string, dotted: bool, doc: nat): EvalResult {
    if labels.NoLabels? then LabelUnassigned
    else
      match FindLabel(w, ident, doc)
      case None => Failed(UndefinedLabel)
      case Some(def) =>
        if dotted && !def.dotted then Failed(DottedReference)
        else
          match Instance(w, labels.instr, ident, def, doc)
          case None => LabelUnassigned
          case Some(k) => if k < |labels.pcs| then Known(FromInt(labels.pcs[k])) else LabelUnassigned
  }

  // ----- builtins -----

  predicate IsForeignBytes(name: string) {
    name == "sha256" || name == "keccak256" || name == "assemble"
  }

  predicate IsForeignText(name: string) {
    name == "selector" || name == "address"
  }

  predicate IsBuiltin(name: string) {
    || name == "intbits" || name == "bitlen" || name == "len" || name == "bytelen" || name == "abs"
    || IsForeignBytes(name) || IsForeignText(name)
  }

  function Abs(n: int): nat {
    if n < 0 then -n else n
  }

  function ApplyBuiltin(w: World, name: string, doc: nat, v: Value): EvalResult
    requires IsBuiltin(name) && !IsForeignText(name)
  {
    if name == "intbits" || name == "bitlen" then Known(FromInt(BitLen(Abs(v.num))))
    else if name == "len" then Known(FromInt(ByteLen(v)))
    else if name == "bytelen" then Known(FromInt((BitLen(Abs(v.num)) + 7) / 8))
    else if name == "abs" then Known(FromInt(Abs(v.num)))
    else
      match Bytes(v)
      case Err(e) => Failed(NotBytes(e))
      case Ok(b) =>
        match w.foreign.ofBytes(name, doc, b)
        case None => Failed(ForeignError)
        case Some(r) => Known(r)
  }

  function ApplyForeignText(w: World, name: string, arg: Expr): EvalResult {
    if !arg.LiteralExpr? then Failed(WantsLiteral)
    else
      match w.foreign.ofText(name, arg.text)
      case None => Failed(ForeignError)
      case Some(r) => Known(r)
  }

  // ----- macros -----

  function FindMacro(w: World, name: string, doc: nat): Option<nat> {
    if name in w.overrides then Some(w.overrides[name]) else LookupExprMacro(w.prog, w.docs, name, doc)
  }

  /** Parameters are bound in order; a later duplicate wins. */
  function Bind(params: seq<string>, values: seq<Value>, n: nat): map<string, Value>
    requires n <= |params| && n <= |values|
  {
    if n == 0 then map[] else Bind(params, values, n - 1)[params[n - 1] := values[n - 1]]
  }

  function AllMacros(n: nat): (s: set<nat>)
    ensures forall m: nat :: m in s <==> m < n
  {
    if n == 0 then {} else AllMacros(n - 1) + {n - 1}
  }

  /** How many more macro calls can be nested. */
  function Remaining(w: World, stack: set<nat>): nat {
    |AllMacros(|w.prog.exprMacros|) - stack|
  }

  lemma EnterShrinks(w: World, stack: set<nat>, m: nat)
    requires m < |w.prog.exprMacros| && m !in stack
    ensures Remaining(w, stack + {m}) < Remaining(w, stack)
  {
    var all := AllMacros(|w.prog.exprMacros|);
    assert all - (stack + {m}) == (all - stack) - {m};
  }

  function ParamIndex(params: seq<string>, name: string): (r: Option<nat>)
    ensures r.Some? ==> r.value < |params| && params[r.value] == name
    ensures r.None? ==> name !in params
  {
    if params == [] then None
    else if params[0] == name then Some(0)
    else
      match ParamIndex(params[1..], name)
      case None => None
      case Some(i) => Some(i + 1)
  }

  // ----- evaluation -----

  /** The value of an expression. The stack holds the macros that are being evaluated. */
  function Eval(w: World, labels: Labels, stack: set<nat>, env: Env, e: Expr): EvalResult
    decreases Remaining(w, stack), env.scope, e
  {
    match e
    case LiteralExpr(_, _, v) => Known(v)
    case LabelRefExpr(ident, dotted) => EvalLabel(w, labels, ident, dotted, env.scope.doc)
    case GroupExpr(inner) => Eval(w, labels, stack, env, inner)
    case UnaryExpr(_, arg) =>
      var r := Eval(w, labels, stack, env, arg);
      if r.Known? then Known(FromInt(-r.value.num)) else r
    case BinaryExpr(op, left, right) =>
      var l := Eval(w, labels, stack, env, left);
      if !l.Known? then l
      else
        var r := Eval(w, labels, stack, env, right);
        if !r.Known? then r
        else
          var v := Apply(op, l.value.num, r.value.num);
          if v.Ok? then Known(FromInt(v.value)) else Failed(Arith(v.error))
    case VariableExpr(ident) =>
      if ident in env.variables then Known(env.variables[ident])
      else
        // Arguments of instruction macros are evaluated at the call site.
        var i := if env.scope.args.None? then None else ParamIndex(env.scope.args.value.params, ident);
        if i.None? || i.value >= |env.scope.args.value.args| then Failed(UndefinedVariable)
        else Eval(w, labels, stack, Env(env.scope.args.value.callsite, map[]), env.scope.args.value.args[i.value])
    case MacroCallExpr(ident, builtin, args) =>
      var m := if builtin then None else FindMacro(w, ident, env.scope.doc);
      if m.None? then
        if !IsBuiltin(ident) then Failed(if builtin then UndefinedBuiltin else UndefinedMacro)
        else if |args| != 1 then Failed(ArgumentCount)
        else if IsForeignText(ident) then ApplyForeignText(w, ident, args[0])
        else
          var r := Eval(w, labels, stack, env, args[0]);
          if r.Known? then ApplyBuiltin(w, ident, env.scope.doc, r.value) else r
      else if m.value >= |w.prog.exprMacros| then Failed(UndefinedMacro)
      else
        var def := w.prog.exprMacros[m.value];
        if |args| != |def.params| then Failed(ArgumentCount)
        else
          var a := EvalArgs(w, labels, stack, env, args);
          if a.NoArgs? then a.result
          else if m.value in stack then Failed(RecursiveCall)
          else
            EnterShrinks(w, stack, m.value);
            Eval(w, labels, stack + {m.value}, Env(Scope(def.doc, None), Bind(def.params, a.values, |args|)), def.body)
  }

  /** The values of arguments, left to right, up to the first that has none. */
  function EvalArgs(w: World, labels: Labels, stack: set<nat>, env: Env, args: seq<Expr>): (r: ArgsResult)
    ensures r.KnownArgs? ==> |r.values| == |args|
    ensures r.NoArgs? ==> !r.result.Known?
    decreases Remaining(w, stack), env.scope, args
  {
    if args == [] then KnownArgs([])
    else
      var first := Eval(w, labels, stack, env, args[0]);
      if !first.Known? then NoArgs(first)
      else
        var rest := EvalArgs(w, labels, stack, env, args[1..]);
        if rest.NoArgs? then rest else KnownArgs([first.value] + rest.values)
  }

  // ----- values known without labels -----

  /**
   * A result obtained while labels are disabled, value or error, is the same under every later
   * label assignment.
   */
  lemma {:induction false} StableWithoutLabels(w: World, labels: Labels, stack: set<nat>, env: Env, e: Expr)
    requires Eval(w, NoLabels, stack, env, e) != LabelUnassigned
    ensures Eval(w, labels, stack, env, e) == Eval(w, NoLabels, stack, env, e)
    decreases Remaining(w, stack), env.scope, e
  {
    hide Remaining, Apply, ApplyBuiltin, ApplyForeignText, FindMacro, Bind, FromInt;
    match e
    case LiteralExpr(_, _, v) =>
    case LabelRefExpr(ident, dotted) =>
    case GroupExpr(inner) => StableWithoutLabels(w, labels, stack, env, inner);
    case UnaryExpr(_, arg) => StableWithoutLabels(w, labels, stack, env, arg);
    case BinaryExpr(op, left, right) =>
      StableWithoutLabels(w, labels, stack, env, left);
      if Eval(w, NoLabels, stack, env, left).Known? {
        StableWithoutLabels(w, labels, stack, env, right);
      }
    case VariableExpr(ident) =>
      if ident !in env.variables && env.scope.args.Some? {
        var call := env.scope.args.value;
        var i := ParamIndex(call.params, ident);
        if i.Some? && i.value < |call.args| {
          StableWithoutLabels(w, labels, stack, Env(call.callsite, map[]), call.args[i.value]);
        }
      }
    case MacroCallExpr(ident, builtin, args) =>
      StableCall(w, labels, stack, env, e);
  }

  lemma {:induction false} StableCall(w: World, labels: Labels, stack: set<nat>, env: Env, e: Expr)
    requires e.MacroCallExpr? && Eval(w, NoLabels, stack, env, e) != LabelUnassigned
    ensures Eval(w, labels, stack, env, e) == Eval(w, NoLabels, stack, env, e)
    decreases Remaining(w, stack), env.scope, e, 0
  {
    hide Apply, ApplyBuiltin, ApplyForeignText, FindMacro, Bind, FromInt, IsBuiltin, IsForeignText, EvalLabel;
    var args := e.args;
    var m := if e.builtin then None else FindMacro(w, e.ident, env.scope.doc);
    if m.None? {
      if |args| == 1 && IsBuiltin(e.ident) && !IsForeignText(e.ident) {
        StableWithoutLabels(w, labels, stack, env, args[0]);
      }
    } else if m.value < |w.prog.exprMacros| {
      var def := w.prog.exprMacros[m.value];
      if |args| == |def.params| {
        StableArgs(w, labels, stack, env, args);
        var a := EvalArgs(w, NoLabels, stack, env, args);
        if a.KnownArgs? && m.value !in stack {
          EnterShrinks(w, stack, m.value);
          StableWithoutLabels(w, labels, stack + {m.value}, Env(Scope(def.doc, None), Bind(def.params, a.values, |args|)), def.body);
        }
      }
    }
  }

  lemma {:induction false} StableArgs(w: World, labels: Labels, stack: set<nat>, env: Env, args: seq<Expr>)
    requires EvalArgs(w, NoLabels, stack, env, args) != NoArgs(LabelUnassigned)
    ensures EvalArgs(w, labels, stack, env, args) == EvalArgs(w, NoLabels, stack, env, args)
    decreases Remaining(w, stack), env.scope, args
  {
    hide Eval;
    if args != [] {
      StableWithoutLabels(w, labels, stack, env, args[0]);
      if Eval(w, NoLabels, stack, env, args[0]).Known? {
        StableArgs(w, labels, stack, env, args[1..]);
      }
    }
  }

  // ----- recursion -----

  /** A value does not depend on the macros around it: the recursion guard only ever rejects. */
  lemma {:induction false} GuardOnlyRejects(w: World, labels: Labels, stack: set<nat>, fewer: set<nat>, env: Env, e: Expr)
    requires Eval(w, labels, stack, env, e).Known? && fewer <= stack
    ensures Eval(w, labels, fewer, env, e) == Eval(w, labels, stack, env, e)
    decreases Remaining(w, stack), env.scope, e
  {
    hide Apply, ApplyBuiltin, ApplyForeignText, FindMacro, Bind, FromInt, EvalLabel;
    match e
    case LiteralExpr(_, _, v) =>
    case LabelRefExpr(ident, dotted) =>
    case GroupExpr(inner) => GuardOnlyRejects(w, labels, stack, fewer, env, inner);
    case UnaryExpr(_, arg) => GuardOnlyRejects(w, labels, stack, fewer, env, arg);
    case BinaryExpr(op, left, right) =>
      GuardOnlyRejects(w, labels, stack, fewer, env, left);
      GuardOnlyRejects(w, labels, stack, fewer, env, right);
    case VariableExpr(ident) =>
      if ident !in env.variables && env.scope.args.Some? {
        var call := env.scope.args.value;
        var i := ParamIndex(call.params, ident);
        if i.Some? && i.value < |call.args| {
          GuardOnlyRejects(w, labels, stack, fewer, Env(call.callsite, map[]), call.args[i.value]);
        }
      }
    case MacroCallExpr(ident, builtin, args) =>
      GuardOnlyRejectsCall(w, labels, stack, fewer, env, e);
  }

  lemma {:induction false} GuardOnlyRejectsCall(w: World, labels: Labels, stack: set<nat>, fewer: set<nat>, env: Env, e: Expr)
    requires e.MacroCallExpr? && Eval(w, labels, stack, env, e).Known? && fewer <= stack
    ensures Eval(w, labels, fewer, env, e) == Eval(w, labels, stack, env, e)
    decreases Remaining(w, stack), env.scope, e, 0
  {
    hide Apply, ApplyBuiltin, ApplyForeignText, FindMacro, Bind, FromInt, IsBuiltin, IsForeignText, EvalLabel;
    var args := e.args;
    var m := if e.builtin then None else FindMacro(w, e.ident, env.scope.doc);
    if m.None? {
      if !IsForeignText(e.ident) {
        GuardOnlyRejects(w, labels, stack, fewer, env, args[0]);
      }
    } else {
      var def := w.prog.exprMacros[m.value];
      GuardOnlyRejectsArgs(w, labels, stack, fewer, env, args);
      var a := EvalArgs(w, labels, stack, env, args);
      EnterShrinks(w, stack, m.value);
      GuardOnlyRejects(w, labels, stack + {m.value}, fewer + {m.value}, Env(Scope(def.doc, None), Bind(def.params, a.values, |args|)), def.body);
    }
  }

  lemma {:induction false} GuardOnlyRejectsArgs(w: World, labels: Labels, stack: set<nat>, fewer: set<nat>, env: Env, args: seq<Expr>)
    requires EvalArgs(w, labels, stack, env, args).KnownArgs? && fewer <= stack
    ensures EvalArgs(w, labels, fewer, env, args) == EvalArgs(w, labels, stack, env, args)
    decreases Remaining(w, stack), env.scope, args
  {
    hide Eval;
    if args != [] {
      GuardOnlyRejects(w, labels, stack, fewer, env, args[0]);
      GuardOnlyRejectsArgs(w, labels, stack, fewer, env, args[1..]);
    }
  }

  // ----- the evaluator -----

  class Evaluator {
    const w: World
    var labels: Labels
    var inStack: set<nat>

    constructor (w: World)
      ensures this.w == w && labels == NoLabels && inStack == {}
    {
      this.w := w;
      labels := NoLabels;
      inStack := {};
    }

    method EvalExpr(env: Env, e: Expr) returns (r: EvalResult)
      modifies this`inStack
      ensures inStack == old(inStack)
      ensures r == Eval(w, labels, inStack, env, e)
      decreases Remaining(w, inStack), env.scope, e, 1
    {
      hide Remaining, Apply, EvalLabel;
      match e
      case LiteralExpr(_, _, v) => r := Known(v);
      case LabelRefExpr(ident, dotted) => r := EvalLabel(w, labels, ident, dotted, env.scope.doc);
      case GroupExpr(inner) => r := EvalExpr(env, inner);
      case UnaryExpr(_, arg) =>
        r := EvalExpr(env, arg);
        if r.Known? {
          r := Known(FromInt(-r.value.num));
        }
      case BinaryExpr(op, left, right) => r := EvalArith(env, e);
      case VariableExpr(ident) => r := EvalVariable(env, e);
      case MacroCallExpr(_, _, _) => r := EvalMacroCall(env, e);
    }

    method EvalArith(env: Env, e: Expr) returns (r: EvalResult)
      requires e.BinaryExpr?
      modifies this`inStack
      ensures inStack == old(inStack)
      ensures r == Eval(w, labels, inStack, env, e)
      decreases Remaining(w, inStack), env.scope, e, 0
    {
      hide Remaining, Apply, EvalLabel;
      var left := EvalExpr(env, e.left);
      if !left.Known? {
        return left;
      }
      var right := EvalExpr(env, e.right);
      if !right.Known? {
        return right;
      }
      var v := Apply(e.op, left.value.num, right.value.num);
      r := if v.Ok? then Known(FromInt(v.value)) else Failed(Arith(v.error));
    }

    method EvalVariable(env: Env, e: Expr) returns (r: EvalResult)
      requires e.VariableExpr?
      modifies this`inStack
      ensures inStack == old(inStack)
      ensures r == Eval(w, labels, inStack, env, e)
      decreases Remaining(w, inStack), env.scope, e, 0
    {
      hide Remaining;
      if e.ident in env.variables {
        return Known(env.variables[e.ident]);
      }
      if env.scope.args.None? {
        return Failed(UndefinedVariable);
      }
      var call := env.scope.args.value;
      var i := ParamIndex(call.params, e.ident);
      if i.None? || i.value >= |call.args| {
        return Failed(UndefinedVariable);
      }
      r := EvalExpr(Env(call.callsite, map[]), call.args[i.value]);
    }

    method EvalMacroCall(env: Env, e: Expr) returns (r: EvalResult)
      requires e.MacroCallExpr?
      modifies this`inStack
      ensures inStack == old(inStack)
      ensures r == Eval(w, labels, inStack, env, e)
      decreases Remaining(w, inStack), env.scope, e, 0
    {
      hide Remaining, ApplyBuiltin, ApplyForeignText, FindMacro, IsBuiltin, IsForeignText;
      var m: Option<nat> := None;
      if !e.builtin {
        m := FindMacro(w, e.ident, env.scope.doc);
      }
      if m.None? {
        if !IsBuiltin(e.ident) {
          return Failed(if e.builtin then UndefinedBuiltin else UndefinedMacro);
        }
        if |e.args| != 1 {
          return Failed(ArgumentCount);
        }
        if IsForeignText(e.ident) {
          return ApplyForeignText(w, e.ident, e.args[0]);
        }
        r := EvalExpr(env, e.args[0]);
        if r.Known? {
          r := ApplyBuiltin(w, e.ident, env.scope.doc, r.value);
        }
        return;
      }
      if m.value >= |w.prog.exprMacros| {
        return Failed(UndefinedMacro);
      }
      var def := w.prog.exprMacros[m.value];
      if |e.args| != |def.params| {
        return Failed(ArgumentCount);
      }
      var bound := BindArgs(env, e.args, def.params);
      if bound.1.Some? {
        return bound.1.value;
      }
      if m.value in inStack {
        return Failed(RecursiveCall);
      }
      EnterShrinks(w, inStack, m.value);
      ghost var before := inStack;
      inStack := inStack + {m.value};
      r := EvalExpr(Env(Scope(def.doc, None), bound.0), def.body);
      inStack := inStack - {m.value};
      assert inStack == before;
    }

    /** Evaluates arguments in the environment of the call, up to the first one without value. */
    method BindArgs(env: Env, args: seq<Expr>, params: seq<string>) returns (bound: (map<string, Value>, Option<EvalResult>))
      requires |args| == |params|
      modifies this`inStack
      ensures inStack == old(inStack)
      ensures match EvalArgs(w, labels, inStack, env, args)
              case NoArgs(result) => bound.1 == Some(result)
              case KnownArgs(values) => bound == (Bind(params, values, |args|), None)
      decreases Remaining(w, inStack), env.scope, args
    {
      hide Remaining, Eval, EvalArgs, Prepended;
      var variables: map<string, Value> := map[];
      ghost var values: seq<Value> := [];
      assert args[0..] == args;
      PrependedNone(EvalArgs(w, labels, inStack, env, args));
      for i := 0 to |args|
        invariant inStack == old(inStack) && |values| == i
        invariant variables == Bind(params, values, i)
        invariant Prepended(values, EvalArgs(w, labels, inStack, env, args[i..])) == EvalArgs(w, labels, inStack, env, args)
      {
        ArgsFrom(w, labels, inStack, env, args, i);
        var r := EvalExpr(env, args[i]);
        if !r.Known? {
          PrependedNoArgs(values, r);
          return (variables, Some(r));
        }
        BindPrefix(params, values, r.value, i);
        PrependedSnoc(values, r.value, EvalArgs(w, labels, inStack, env, args[i + 1..]));
        values := values + [r.value];
        variables := variables[params[i] := r.value];
      }
      ArgsEnd(w, labels, inStack, env, args, values);
      bound := (variables, None);
    }
  }

  function Prepended(values: seq<Value>, rest: ArgsResult): ArgsResult {
    if rest.NoArgs? then rest else KnownArgs(values + rest.values)
  }

  lemma PrependedNone(rest: ArgsResult)
    ensures Prepended([], rest) == rest
  {
    if rest.KnownArgs? {
      assert [] + rest.values == rest.values;
    }
  }

  lemma PrependedNoArgs(values: seq<Value>, r: EvalResult)
    ensures Prepended(values, NoArgs(r)) == NoArgs(r)
  {
  }

  lemma ArgsFrom(w: World, labels: Labels, stack: set<nat>, env: Env, args: seq<Expr>, i: nat)
    requires i < |args|
    ensures var r := Eval(w, labels, stack, env, args[i]);
            EvalArgs(w, labels, stack, env, args[i..])
            == if r.Known? then Prepended([r.value], EvalArgs(w, labels, stack, env, args[i + 1..])) else NoArgs(r)
  {
    hide Eval;
    assert args[i..][0] == args[i] && args[i..][1..] == args[i + 1..];
  }

  lemma ArgsEnd(w: World, labels: Labels, stack: set<nat>, env: Env, args: seq<Expr>, values: seq<Value>)
    ensures Prepended(values, EvalArgs(w, labels, stack, env, args[|args|..])) == KnownArgs(values)
  {
    assert args[|args|..] == [] && values + [] == values;
  }

  lemma PrependedSnoc(values: seq<Value>, v: Value, rest: ArgsResult)
    ensures Prepended(values + [v], rest) == Prepended(values, Prepended([v], rest))
  {
    if rest.KnownArgs? {
      assert values + [v] + rest.values == values + ([v] + rest.values);
    }
  }

  lemma {:induction false} BindPrefix(params: seq<string>, values: seq<Value>, v: Value, n: nat)
    requires n <= |params| && n <= |values|
    ensures Bind(params, values + [v], n) == Bind(params, values, n)
  {
    if n > 0 {
      BindPrefix(params, values, v, n - 1);
    }
  }
}
