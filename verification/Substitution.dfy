/**
 * Calling an expression macro means substitution: the value of a call is that of the body with the values of
 * the arguments in place of the parameters (evalMacroCall and evalVariable in asm/evaluator.go).
 */
module Substitution {
  import opened Base
  import opened Lzint
  import opened Ast
  import opened Arithmetic
  import opened Evaluator

  /** The value of a parameter; of parameters with the same name, the last one counts. */
  function ValueOf(params: seq<string>, values: seq<Value>, name: string): (r: Option<Value>)
    requires |params| == |values|
    ensures r.None? <==> name !in params
  {
    if params == [] then None
    else
      var n := |params| - 1;
      assert params == params[..n] + [params[n]];
      if params[n] == name then Some(values[n]) else ValueOf(params[..n], values[..n], name)
  }

  lemma {:induction false} LastValue(params: seq<string>, values: seq<Value>, i: nat)
    requires |params| == |values| && i < |params| && params[i] !in params[i + 1..]
    ensures ValueOf(params, values, params[i]) == Some(values[i])
    decreases |params|
  {
    var n := |params| - 1;
    if i < n {
      assert params[n] == params[i + 1..][n - i - 1];
      assert params[..n][i + 1..] == params[i + 1..][..n - i - 1];
      LastValue(params[..n], values[..n], i);
    }
  }

  /** The call passes the text of its argument to a builtin, without evaluating it. */
  predicate Quotes(w: World, doc: nat, e: Expr) {
    e.MacroCallExpr? && IsForeignText(e.ident) && (e.builtin || FindMacro(w, e.ident, doc).None?)
  }

  /** The expression with values in place of parameters, except where a builtin takes the text of an argument. */
  function Subst(w: World, doc: nat, params: seq<string>, values: seq<Value>, e: Expr): Expr
    requires |params| == |values|
    decreases e
  {
    match e
    case VariableExpr(ident) =>
      var v := ValueOf(params, values, ident);
      if v.Some? then LiteralExpr([], false, v.value) else e
    case GroupExpr(inner) => GroupExpr(Subst(w, doc, params, values, inner))
    case UnaryExpr(op, arg) => UnaryExpr(op, Subst(w, doc, params, values, arg))
    case BinaryExpr(op, left, right) => BinaryExpr(op, Subst(w, doc, params, values, left), Subst(w, doc, params, values, right))
    case MacroCallExpr(ident, builtin, args) =>
      if Quotes(w, doc, e) then e else MacroCallExpr(ident, builtin, SubstAll(w, doc, params, values, args))
    case _ => e
  }

  function SubstAll(w: World, doc: nat, params: seq<string>, values: seq<Value>, es: seq<Expr>): (r: seq<Expr>)
    requires |params| == |values|
    ensures |r| == |es|
    decreases es
  {
    if es == [] then [] else [Subst(w, doc, params, values, es[0])] + SubstAll(w, doc, params, values, es[1..])
  }

  /** The variables are exactly the parameters, with their values. */
  ghost predicate Binds(vars: map<string, Value>, params: seq<string>, values: seq<Value>)
    requires |params| == |values|
  {
    forall name :: (name in vars <==> name in params) && (name in vars ==> ValueOf(params, values, name) == Some(vars[name]))
  }

  lemma {:induction false} BindBinds(params: seq<string>, values: seq<Value>, n: nat)
    requires n <= |params| == |values|
    ensures Binds(Bind(params, values, n), params[..n], values[..n])
    decreases n
  {
    if n > 0 {
      BindBinds(params, values, n - 1);
      var ps, vs := params[..n], values[..n];
      assert ps[..n - 1] == params[..n - 1] && vs[..n - 1] == values[..n - 1];
      assert ps == params[..n - 1] + [params[n - 1]];
      forall name
        ensures var vars := Bind(params, values, n);
                (name in vars <==> name in ps) && (name in vars ==> ValueOf(ps, vs, name) == Some(vars[name]))
      {
      }
    }
  }

  // ----- the law -----

  /** Evaluation with bound variables is evaluation of the expression with values in their place. */
  lemma {:induction false} SubstEval(w: World, labels: Labels, stack: set<nat>, scope: Scope, vars: map<string, Value>,
                                     params: seq<string>, values: seq<Value>, e: Expr)
    requires |params| == |values| && Binds(vars, params, values)
    ensures Eval(w, labels, stack, Env(scope, vars), e)
            == Eval(w, labels, stack, Env(scope, map[]), Subst(w, scope.doc, params, values, e))
    decreases e
  {
    hide Remaining, Apply, ApplyBuiltin, ApplyForeignText, FindMacro, Bind, FromInt, ValueOf, Binds;
    match e
    case LiteralExpr(_, _, v) =>
    case LabelRefExpr(ident, dotted) =>
    case GroupExpr(inner) => SubstEval(w, labels, stack, scope, vars, params, values, inner);
    case UnaryExpr(_, arg) => SubstEval(w, labels, stack, scope, vars, params, values, arg);
    case BinaryExpr(op, left, right) =>
      SubstEval(w, labels, stack, scope, vars, params, values, left);
      SubstEval(w, labels, stack, scope, vars, params, values, right);
    case VariableExpr(ident) =>
      VariableBound(vars, params, values, ident);
    case MacroCallExpr(ident, builtin, args) =>
      if !Quotes(w, scope.doc, e) {
        SubstEvalAll(w, labels, stack, scope, vars, params, values, args);
        SubstCall(w, labels, stack, scope, vars, e, SubstAll(w, scope.doc, params, values, args));
      } else {
        QuotedCall(w, labels, stack, scope, vars, e);
      }
  }

  lemma VariableBound(vars: map<string, Value>, params: seq<string>, values: seq<Value>, ident: string)
    requires |params| == |values| && Binds(vars, params, values)
    ensures if ident in vars then ValueOf(params, values, ident) == Some(vars[ident]) else ValueOf(params, values, ident).None?
  {
  }

  /** A call depends on its arguments only through their values, if none is quoted. */
  lemma SubstCall(w: World, labels: Labels, stack: set<nat>, scope: Scope, vars: map<string, Value>, e: Expr, args: seq<Expr>)
    requires e.MacroCallExpr? && !Quotes(w, scope.doc, e) && |args| == |e.args|
    requires EvalArgs(w, labels, stack, Env(scope, vars), e.args) == EvalArgs(w, labels, stack, Env(scope, map[]), args)
    requires |args| > 0 ==> Eval(w, labels, stack, Env(scope, vars), e.args[0]) == Eval(w, labels, stack, Env(scope, map[]), args[0])
    ensures Eval(w, labels, stack, Env(scope, vars), e)
            == Eval(w, labels, stack, Env(scope, map[]), MacroCallExpr(e.ident, e.builtin, args))
  {
    hide Remaining, ApplyBuiltin, ApplyForeignText, FindMacro, Bind, EvalArgs, IsBuiltin, IsForeignText;
  }

  /** The argument of a quoting call is not evaluated. */
  lemma QuotedCall(w: World, labels: Labels, stack: set<nat>, scope: Scope, vars: map<string, Value>, e: Expr)
    requires Quotes(w, scope.doc, e)
    ensures Eval(w, labels, stack, Env(scope, vars), e) == Eval(w, labels, stack, Env(scope, map[]), e)
  {
    hide Remaining, ApplyBuiltin, ApplyForeignText, FindMacro, Bind, EvalArgs, IsForeignText;
  }

  lemma {:induction false} SubstEvalAll(w: World, labels: Labels, stack: set<nat>, scope: Scope, vars: map<string, Value>,
                                        params: seq<string>, values: seq<Value>, es: seq<Expr>)
    requires |params| == |values| && Binds(vars, params, values)
    ensures EvalArgs(w, labels, stack, Env(scope, vars), es)
            == EvalArgs(w, labels, stack, Env(scope, map[]), SubstAll(w, scope.doc, params, values, es))
    ensures es != [] ==> Eval(w, labels, stack, Env(scope, vars), es[0])
                         == Eval(w, labels, stack, Env(scope, map[]), SubstAll(w, scope.doc, params, values, es)[0])
    decreases es
  {
    hide Eval, Subst, Binds;
    if es != [] {
      SubstEval(w, labels, stack, scope, vars, params, values, es[0]);
      SubstEvalAll(w, labels, stack, scope, vars, params, values, es[1..]);
      assert SubstAll(w, scope.doc, params, values, es)[1..] == SubstAll(w, scope.doc, params, values, es[1..]);
    }
  }

  // ----- calls -----

  /** The arguments have these values, in the environment of the call. */
  ghost predicate ArgValues(w: World, labels: Labels, stack: set<nat>, env: Env, args: seq<Expr>, values: seq<Value>) {
    |values| == |args| && forall i :: 0 <= i < |args| ==> Eval(w, labels, stack, env, args[i]) == Known(values[i])
  }

  lemma {:induction false} ArgsKnown(w: World, labels: Labels, stack: set<nat>, env: Env, args: seq<Expr>, values: seq<Value>)
    requires ArgValues(w, labels, stack, env, args, values)
    ensures EvalArgs(w, labels, stack, env, args) == KnownArgs(values)
    decreases |args|
  {
    hide Eval;
    if args != [] {
      ArgsKnown(w, labels, stack, env, args[1..], values[1..]);
      assert [values[0]] + values[1..] == values;
    }
  }

  /** The call is one of macro m, with as many arguments as it has parameters. Overrides come before definitions. */
  ghost predicate Calls(w: World, env: Env, e: Expr, m: nat) {
    && e.MacroCallExpr? && !e.builtin && m < |w.prog.exprMacros|
    && (if e.ident in w.overrides then w.overrides[e.ident] == m
        else LookupExprMacro(w.prog, w.docs, e.ident, env.scope.doc) == Some(m))
    && |e.args| == |w.prog.exprMacros[m].params|
  }

  /**
   * The value of a call of a macro is the value of the macro's body with the values of the arguments in
   * place of the parameters, in the macro's own document and without the arguments of any instruction macro.
   */
  lemma CallIsSubstitution(w: World, labels: Labels, stack: set<nat>, env: Env, e: Expr, m: nat, values: seq<Value>)
    requires Calls(w, env, e, m) && m !in stack && ArgValues(w, labels, stack, env, e.args, values)
    ensures var def := w.prog.exprMacros[m];
            Eval(w, labels, stack, env, e)
            == Eval(w, labels, stack + {m}, Env(Scope(def.doc, None), map[]), Subst(w, def.doc, def.params, values, def.body))
  {
    var def := w.prog.exprMacros[m];
    ArgsKnown(w, labels, stack, env, e.args, values);
    CallEnters(w, labels, stack, env, e, m, values);
    BindBinds(def.params, values, |values|);
    assert def.params[..|values|] == def.params && values[..|values|] == values;
    hide Eval, Bind, Binds, Subst, Calls;
    SubstEval(w, labels, stack + {m}, Scope(def.doc, None), Bind(def.params, values, |values|), def.params, values, def.body);
  }

  lemma CallEnters(w: World, labels: Labels, stack: set<nat>, env: Env, e: Expr, m: nat, values: seq<Value>)
    requires Calls(w, env, e, m) && m !in stack && EvalArgs(w, labels, stack, env, e.args) == KnownArgs(values)
    ensures |values| == |w.prog.exprMacros[m].params|
    ensures var def := w.prog.exprMacros[m];
            Eval(w, labels, stack, env, e)
            == Eval(w, labels, stack + {m}, Env(Scope(def.doc, None), Bind(def.params, values, |values|)), def.body)
  {
    hide Remaining, ApplyBuiltin, ApplyForeignText, LookupExprMacro, Bind, IsBuiltin, IsForeignText, EvalArgs;
  }

  /** A call without value for some argument gives what the first such argument gives. */
  lemma {:induction false} FirstFailure(w: World, labels: Labels, stack: set<nat>, env: Env, args: seq<Expr>, k: nat)
    requires k < |args| && !Eval(w, labels, stack, env, args[k]).Known?
    requires forall i :: 0 <= i < k ==> Eval(w, labels, stack, env, args[i]).Known?
    ensures EvalArgs(w, labels, stack, env, args) == NoArgs(Eval(w, labels, stack, env, args[k]))
    decreases |args|
  {
    hide Eval;
    if k > 0 {
      FirstFailure(w, labels, stack, env, args[1..], k - 1);
    }
  }

  lemma CallFails(w: World, labels: Labels, stack: set<nat>, env: Env, e: Expr, m: nat, k: nat)
    requires Calls(w, env, e, m) && k < |e.args| && !Eval(w, labels, stack, env, e.args[k]).Known?
    requires forall i :: 0 <= i < k ==> Eval(w, labels, stack, env, e.args[i]).Known?
    ensures Eval(w, labels, stack, env, e) == Eval(w, labels, stack, env, e.args[k])
  {
    FirstFailure(w, labels, stack, env, e.args, k);
    hide Remaining, ApplyBuiltin, ApplyForeignText, LookupExprMacro, Bind, IsBuiltin, IsForeignText, EvalArgs;
  }

  /**
   * A parameter of an instruction macro means the argument of the call, evaluated where the macro was
   * called: with the arguments of the instruction macro there, and without variables.
   */
  lemma ParameterIsArgument(w: World, labels: Labels, stack: set<nat>, env: Env, call: CallArgs, i: nat)
    requires env.scope.args == Some(call) && i < |call.params| && |call.args| == |call.params|
    requires call.params[i] !in env.variables && call.params[i] !in call.params[..i]
    ensures Eval(w, labels, stack, env, VariableExpr(call.params[i]))
            == Eval(w, labels, stack, Env(call.callsite, map[]), call.args[i])
  {
    FirstIndex(call.params, i);
  }

  lemma {:induction false} FirstIndex(params: seq<string>, i: nat)
    requires i < |params| && params[i] !in params[..i]
    ensures ParamIndex(params, params[i]) == Some(i)
    decreases |params|
  {
    if i > 0 {
      assert params[0] in params[..i];
      assert params[1..][..i - 1] == params[..i][1..];
      FirstIndex(params[1..], i - 1);
    }
  }

  // ----- where substituting everywhere would be wrong -----

  /** A parameter whose text a builtin takes has no value, although a literal in its place would have one. */
  lemma QuotedParameter(w: World, labels: Labels, stack: set<nat>, scope: Scope, name: string, v: Value, text: string)
    requires w.foreign.ofText("selector", text).Some?
    ensures var call := (arg: Expr) => MacroCallExpr("selector", true, [arg]);
            && Eval(w, labels, stack, Env(scope, map[name := v]), call(VariableExpr(name))) == Failed(WantsLiteral)
            && Eval(w, labels, stack, Env(scope, map[name := v]), call(LiteralExpr(text, false, v))).Known?
  {
  }
}
