/** The compiler object: expansion by appending to the output program (asm/compiler.go, asm/compiler_expand.go). */
module Compiler {
  import opened Base
  import opened Numerals
  import opened EvmOps
  import opened InstructionSets
  import opened Ast
  import opened Evaluator
  import Output = CompilerProg
  import opened Expansion

  class Compiler {
    const t: Target
    const p: Program
    const out: Output.CompilerProg
    var macroStack: set<nat>
    var errors: seq<CompileError>

    ghost function State(): Expanding
      reads this, out
    {
      Expanding(out.State(), macroStack, errors)
    }

    ghost predicate Valid()
      reads this, out
    {
      Output.HasSection(out.State()) && forall i :: 0 <= i < |out.currentLabels| ==> out.currentLabels[i] < |out.labels|
    }

    constructor (t: Target, p: Program)
      ensures this.t == t && this.p == p && fresh(out)
      ensures State() == Expanding(Output.NewProg(p.docs, p.top), {}, []) && Valid()
    {
      this.t, this.p := t, p;
      macroStack, errors := {}, [];
      out := new Output.CompilerProg(p);
    }

    method AddError(e: CompileError)
      requires Valid()
      modifies this`errors
      ensures Valid() && State() == WithError(old(State()), Some(e))
    {
      errors := errors + [e];
    }

    /** Adds a label, with a JUMPDEST unless it is dotted. */
    method LabelStatement(def: LabelDef, doc: nat) returns (err: Option<CompileError>)
      requires Valid()
      modifies out
      ensures Valid() && (out.State(), err) == ExpandLabel(old(out.State()), def, doc)
    {
      if IsGlobal(def.ident) && def.ident in out.globalLabels {
        return Some(DuplicateLabel);
      }
      out.AddLabelDef(def, doc);
      if !def.dotted {
        out.AddInstr(Output.NewInstr("JUMPDEST", None));
      }
      err := None;
    }

    /** Finds the definition of a label. */
    method ValidateJumpArg(doc: nat, arg: Option<Expr>) returns (err: Option<CompileError>)
      requires Valid()
      ensures err == JumpArgError(p, out.State(), doc, arg)
    {
      if arg.None? {
        return None;
      }
      if !arg.value.LabelRefExpr? {
        return Some(JumpNeedsLiteralLabel);
      }
      if arg.value.dotted {
        return Some(JumpToDottedLabel);
      }
      var name := arg.value.ident;
      var def: Option<LabelDef>;
      if name in out.globalLabels && out.globalLabels[name] < |out.labels| {
        def := Some(out.labels[out.globalLabels[name]].def);
      } else {
        def := LookupLabel(p, out.docs, name, doc);
      }
      if def.None? {
        return Some(JumpToUndefinedLabel);
      }
      if def.value.dotted {
        return Some(JumpToDottedLabel);
      }
      err := None;
    }

    /** Appends an instruction. This is also where basic validation is done. */
    method OpcodeStatement(op: string, arg: Option<Expr>, immediates: seq<int>, doc: nat) returns (err: Option<CompileError>)
      requires Valid()
      modifies out
      ensures Valid() && (out.State(), err) == ExpandOpcode(t, p, old(out.State()), op, arg, immediates, doc)
    {
      hide JumpArgError, EncodeImmediateArgs, IsPush;
      var inst := Output.NewInstr(op, arg);
      if IsPush(op) && op != "PUSH0" {
        if op != "PUSH" && op !in t.fork.byName {
          return Some(UnknownOpcode);
        }
        if arg.None? {
          return Some(PushWithoutArgument);
        }
      } else if IsJump(t, op) {
        var e := ValidateJumpArg(doc, arg);
        if e.Some? {
          return e;
        }
        if op !in t.fork.byName {
          return Some(UnknownOpcode);
        }
        if arg.Some? {
          out.AddInstr(Output.NewInstr("PUSH", arg));
        }
      } else {
        if op !in t.fork.byName {
          return Some(UnknownOpcode);
        }
        var evmOp := t.fork.byName[op];
        if arg.Some? {
          return Some(if op == "PUSH0" then Push0WithArgument else UnexpectedArgument);
        }
        if evmOp.hasImmediate {
          if |immediates| == 0 {
            return Some(MissingImmediate);
          }
          var imm := EncodeImmediateArgs(evmOp.name, immediates);
          if imm.None? {
            return Some(BadImmediate);
          }
          inst := inst.(data := [imm.value], dataSize := 1);
        } else if |immediates| > 0 {
          return Some(UnexpectedImmediate);
        }
      }
      out.AddInstr(inst);
      err := None;
    }

    method BytesStatement(value: Expr, name: Option<LabelDef>, doc: nat) returns (err: Option<CompileError>)
      requires Valid()
      modifies out
      ensures Valid() && (out.State(), err) == ExpandBytes(old(out.State()), value, name, doc)
    {
      hide ExpandLabel;
      if name.Some? {
        err := LabelStatement(name.value, doc);
        if err.Some? {
          return;
        }
      }
      out.AddInstr(Output.NewInstr(Output.BYTES, Some(value)));
      err := None;
    }

    /** Appends the output of a macro call. */
    method MacroCallStatement(ident: string, args: seq<Expr>, doc: nat)
      requires Valid()
      modifies this, out
      ensures Valid() && State() == ExpandCall(t, p, ident, args, doc, old(State()))
      decreases MacrosLeft(p, macroStack), 0
    {
      hide LookupInstrMacro, MacrosLeft;
      var m := LookupInstrMacro(p, out.docs, ident, doc);
      if m.None? || m.value >= |p.instrMacros| {
        AddError(UndefinedInstrMacro);
        return;
      }
      if m.value in macroStack {
        AddError(RecursiveMacro);
        return;
      }
      EnterLeaves(p, macroStack, m.value);
      macroStack := macroStack + {m.value};
      var def := p.instrMacros[m.value];
      if |args| != |def.params| {
        macroStack := macroStack - {m.value};
        AddError(MacroArgumentCount);
        return;
      }
      var callsite := out.sections[out.cur].scope;
      var copy := out.AddDocument(Document(Some(def.doc), map[], map[], map[]));
      out.Push(Scope(copy, Some(CallArgs(callsite, def.params, args))));
      ghost var st, entered := old(State()), State();
      assert entered == EnterMacro(st, def, m.value, args);
      ExpandStatements(def.body, copy);
      EnterLeaveRestores(st, entered, State(), {m.value});
      out.Pop();
      macroStack := macroStack - {m.value};
    }

    /** Appends the statements of an included file. */
    method IncludeStatement(incdoc: nat, body: seq<Stmt>, ghost doc: nat)
      requires Valid()
      modifies this, out
      ensures Valid() && State() == ExpandStmt(t, p, IncludeStmt(incdoc, true, body), doc, old(State()))
      decreases MacrosLeft(p, macroStack), 1, IncludeStmt(incdoc, true, body), 0
    {
      hide MacrosLeft;
      ghost var st := State();
      out.Push(Scope(incdoc, out.sections[out.cur].scope.args));
      ghost var entered := State();
      assert entered == EnterInclude(st, incdoc);
      ExpandStatements(body, incdoc);
      EnterLeaveRestores(st, entered, State(), {});
      out.Pop();
    }

    method Statement(s: Stmt, doc: nat)
      requires Valid()
      modifies this, out
      ensures Valid() && State() == ExpandStmt(t, p, s, doc, old(State()))
      decreases MacrosLeft(p, macroStack), 1, s
    {
      var err: Option<CompileError> := None;
      match s {
        case OpcodeStmt(op, arg, immediates) => err := OpcodeStatement(op, arg, immediates, doc);
        case LabelStmt(def) => err := LabelStatement(def, doc);
        case PCLabelStmt(pc) => out.AddInstr(Output.NewInstr("", None).(assertedPC := Some(pc)));
        case MacroCallStmt(ident, args) => MacroCallStatement(ident, args, doc);
        case IncludeStmt(incdoc, loaded, body) =>
          if loaded {
            IncludeStatement(incdoc, body, doc);
          }
        case BytesStmt(value, name) => err := BytesStatement(value, name, doc);
        case MacroDefStmt(params) => CheckDuplicateParams(params);
        case OtherStmt =>
      }
      if err.Some? {
        AddError(err.value);
      }
    }

    /** Reports repeated names in a parameter list. */
    method CheckDuplicateParams(params: seq<string>)
      requires Valid()
      modifies this`errors
      ensures Valid() && State() == old(State()).(errors := old(errors) + DuplicateErrors(Duplicates(params)))
    {
      var seen: set<string> := {};
      var found: seq<CompileError> := [];
      for i := 0 to |params|
        invariant forall name :: name in seen <==> name in params[..i]
        invariant found == DuplicateErrors(Duplicates(params[..i]))
      {
        assert params[..i + 1][..i] == params[..i];
        if params[i] in seen {
          found := found + [DuplicateParam];
        }
        seen := seen + {params[i]};
      }
      assert params[..|params|] == params;
      errors := errors + found;
    }

    /** Appends a list of statements to the program. */
    method ExpandStatements(stmts: seq<Stmt>, doc: nat)
      requires Valid()
      modifies this, out
      ensures Valid() && State() == Expand(t, p, stmts, doc, old(State()))
      decreases MacrosLeft(p, macroStack), 1, stmts
    {
      assert stmts[0..] == stmts;
      for i := 0 to |stmts|
        invariant Valid() && macroStack == old(macroStack)
        invariant Expand(t, p, stmts[i..], doc, State()) == Expand(t, p, stmts, doc, old(State()))
      {
        assert stmts[i..][0] == stmts[i] && stmts[i..][1..] == stmts[i + 1..];
        Statement(stmts[i], doc);
      }
    }

    /** Expands the whole program. */
    method ExpandToplevel()
      requires State() == Expanding(Output.NewProg(p.docs, p.top), {}, []) && Valid()
      modifies this, out
      ensures State() == ExpandProgram(t, p)
    {
      ghost var st := State();
      ExpandStatements(p.statements, p.top);
      out.Finish();
    }
  }
}
