/** Which definition a name refers to (LookupLabel, LookupExprMacro and LookupInstrMacro in internal/loader/program.go). */
module Scoping {
  import opened Base
  import opened Ast

  /** The document k levels around a document; zero is the document itself. */
  function Outer(docs: seq<Document>, doc: nat, k: nat): Option<nat>
    decreases k
  {
    if k == 0 then Some(doc)
    else
      match Enclosing(docs, doc)
      case None => None
      case Some(up) => Outer(docs, up, k - 1)
  }

  /** The kinds of definitions. */
  datatype Kind = Labels | ExprMacros | InstrMacros

  predicate Defines(docs: seq<Document>, kind: Kind, name: string, doc: nat) {
    doc < |docs|
    && match kind
       case Labels => name in docs[doc].labels
       case ExprMacros => name in docs[doc].exprMacros
       case InstrMacros => name in docs[doc].instrMacros
  }

  /** The document k levels around is the innermost one that defines the name. */
  ghost predicate Innermost(docs: seq<Document>, kind: Kind, name: string, doc: nat, k: nat) {
    && Outer(docs, doc, k).Some? && Defines(docs, kind, name, Outer(docs, doc, k).value)
    && forall j: nat :: j < k && Outer(docs, doc, j).Some? ==> !Defines(docs, kind, name, Outer(docs, doc, j).value)
  }

  lemma InnermostHere(docs: seq<Document>, kind: Kind, name: string, doc: nat, k: nat)
    requires Defines(docs, kind, name, doc)
    ensures Innermost(docs, kind, name, doc, k) <==> k == 0
  {
    assert Outer(docs, doc, 0) == Some(doc);
  }

  lemma InnermostUp(docs: seq<Document>, kind: Kind, name: string, doc: nat, k: nat)
    requires !Defines(docs, kind, name, doc)
    ensures Innermost(docs, kind, name, doc, k)
         <==> k > 0 && Enclosing(docs, doc).Some? && Innermost(docs, kind, name, Enclosing(docs, doc).value, k - 1)
  {
    hide Defines;
    assert Outer(docs, doc, 0) == Some(doc);
    if k > 0 && Enclosing(docs, doc).Some? {
      var up := Enclosing(docs, doc).value;
      forall j: nat | j < k - 1
        ensures Outer(docs, up, j) == Outer(docs, doc, j + 1)
      {
      }
      if Innermost(docs, kind, name, up, k - 1) {
        forall j: nat | j < k && Outer(docs, doc, j).Some?
          ensures !Defines(docs, kind, name, Outer(docs, doc, j).value)
        {
          if j > 0 {
            assert Outer(docs, up, j - 1) == Outer(docs, doc, j);
          }
        }
      } else if Innermost(docs, kind, name, doc, k) {
        forall j: nat | j < k - 1 && Outer(docs, up, j).Some?
          ensures !Defines(docs, kind, name, Outer(docs, up, j).value)
        {
          var n := j + 1;
          assert Outer(docs, doc, n) == Outer(docs, up, j);
        }
      }
    }
  }

  /** What is found is the definition of the given document. */
  predicate FoundIn(docs: seq<Document>, kind: Kind, name: string, doc: nat, at: nat)
    requires Defines(docs, kind, name, at)
  {
    match kind
    case Labels => LabelIn(docs, name, doc) == Some(docs[at].labels[name])
    case ExprMacros => ExprMacroIn(docs, name, doc) == Some(docs[at].exprMacros[name])
    case InstrMacros => InstrMacroIn(docs, name, doc) == Some(docs[at].instrMacros[name])
  }

  predicate NotFound(docs: seq<Document>, kind: Kind, name: string, doc: nat) {
    match kind
    case Labels => LabelIn(docs, name, doc).None?
    case ExprMacros => ExprMacroIn(docs, name, doc).None?
    case InstrMacros => InstrMacroIn(docs, name, doc).None?
  }

  /** A local name refers to its definition in the innermost document that has one, and to nothing if none has. */
  lemma {:induction false} InnermostWins(docs: seq<Document>, kind: Kind, name: string, doc: nat)
    ensures forall k: nat :: Innermost(docs, kind, name, doc, k) ==> FoundIn(docs, kind, name, doc, Outer(docs, doc, k).value)
    ensures (forall k: nat :: !Innermost(docs, kind, name, doc, k)) <==> NotFound(docs, kind, name, doc)
    decreases doc
  {
    if Defines(docs, kind, name, doc) {
      forall k: nat
        ensures Innermost(docs, kind, name, doc, k) <==> k == 0
      {
        InnermostHere(docs, kind, name, doc, k);
      }
      assert Innermost(docs, kind, name, doc, 0);
    } else {
      forall k: nat
        ensures Innermost(docs, kind, name, doc, k)
             <==> k > 0 && Enclosing(docs, doc).Some? && Innermost(docs, kind, name, Enclosing(docs, doc).value, k - 1)
      {
        InnermostUp(docs, kind, name, doc, k);
      }
      if Enclosing(docs, doc).Some? {
        var up := Enclosing(docs, doc).value;
        InnermostWins(docs, kind, name, up);
        forall k: nat | Innermost(docs, kind, name, doc, k)
          ensures FoundIn(docs, kind, name, doc, Outer(docs, doc, k).value)
        {
          assert Outer(docs, doc, k) == Outer(docs, up, k - 1) && Innermost(docs, kind, name, up, k - 1);
          hide Innermost, Outer;
          assert FoundIn(docs, kind, name, up, Outer(docs, up, k - 1).value);
        }
        hide Innermost, Outer;
        if k: nat :| Innermost(docs, kind, name, up, k) {
          var n := k + 1;
          assert Innermost(docs, kind, name, doc, n);
        }
      }
    }
  }

  /**
   * Global names refer to global definitions, and labels and expression macros to nothing else; an
   * instruction macro with a global name can also be a local definition.
   */
  lemma GlobalNames(p: Program, docs: seq<Document>, name: string, doc: nat)
    ensures IsGlobal(name) ==>
              && LookupLabel(p, docs, name, doc).Some? == (name in p.global.labels)
              && LookupExprMacro(p, docs, name, doc).Some? == (name in p.global.exprMacros)
              && (name in p.global.labels ==> LookupLabel(p, docs, name, doc).value == p.global.labels[name])
              && (name in p.global.exprMacros ==> LookupExprMacro(p, docs, name, doc).value == p.global.exprMacros[name])
              && (name in p.global.instrMacros ==> LookupInstrMacro(p, docs, name, doc) == Some(p.global.instrMacros[name]))
              && (name !in p.global.instrMacros ==> LookupInstrMacro(p, docs, name, doc) == InstrMacroIn(docs, name, doc))
    ensures !IsGlobal(name) ==>
              && LookupLabel(p, docs, name, doc) == LabelIn(docs, name, doc)
              && LookupExprMacro(p, docs, name, doc) == ExprMacroIn(docs, name, doc)
              && LookupInstrMacro(p, docs, name, doc) == InstrMacroIn(docs, name, doc)
  {
    hide LabelIn, ExprMacroIn, InstrMacroIn, IsGlobal;
  }
}
