/** The values of label references (lookupLabel and registerLabels in asm/evaluator.go). */
module LabelAddresses {
  import opened Base
  import opened Lzint
  import opened Ast
  import opened Evaluator
  import opened CompilerProg
  import opened Expansion
  import opened Assembly
  import opened CodeOutput

  // ----- the instance that a reference denotes -----

  /** The definition has an instance in the document. */
  predicate InstantiatedIn(q: Prog, def: LabelDef, doc: nat) {
    exists l :: 0 <= l < |q.labels| && q.labels[l].def == def && q.labels[l].doc == doc
  }

  /** The nearest document, from doc outwards, in which the definition has an instance. */
  function NearestDoc(q: Prog, def: LabelDef, doc: nat): Option<nat>
    decreases doc
  {
    if InstantiatedIn(q, def, doc) then Some(doc)
    else
      match Enclosing(q.docs, doc)
      case None => None
      case Some(up) => NearestDoc(q, def, up)
  }

  /** No later instance has the key of instance l. */
  ghost predicate LastOfKey(q: Prog, l: nat)
    requires l < |q.labels|
  {
    forall m :: l < m < |q.labels| ==> KeyOf(q.labels[m]) != KeyOf(q.labels[l])
  }

  /**
   * Instance l is the one that a reference from doc denotes, for the name and the definition found for
   * it: the instance in the nearest enclosing document that has one, and any instance if the name is
   * global. Of several instances with the same key it is the last one.
   */
  ghost predicate Denotes(q: Prog, ident: string, def: LabelDef, doc: nat, l: nat) {
    && l < |q.labels| && q.labels[l].def == def && LastOfKey(q, l)
    && (IsGlobal(ident) <==> IsGlobal(def.ident))
    && (IsGlobal(ident) || NearestDoc(q, def, doc) == Some(q.labels[l].doc))
  }

  // ----- the table of the evaluator -----

  lemma {:induction false} RegisteredLast(q: Prog, n: nat, l: nat)
    requires l < n <= |q.labels| && q.labels[l].instr.Some?
    requires forall m :: l < m < n ==> KeyOf(q.labels[m]) != KeyOf(q.labels[l])
    ensures KeyOf(q.labels[l]) in RegisteredLabels(q.labels, n)
    ensures RegisteredLabels(q.labels, n)[KeyOf(q.labels[l])] == q.labels[l].instr.value
  {
    if l < n - 1 {
      RegisteredLast(q, n - 1, l);
    }
  }

  /** The last instance among the first n with the key of one of them. */
  lemma {:induction false} LastInstance(q: Prog, n: nat, l: nat) returns (last: nat)
    requires l < n <= |q.labels|
    ensures last < n && KeyOf(q.labels[last]) == KeyOf(q.labels[l])
    ensures forall m :: last < m < n ==> KeyOf(q.labels[m]) != KeyOf(q.labels[l])
    decreases n
  {
    if KeyOf(q.labels[n - 1]) == KeyOf(q.labels[l]) {
      last := n - 1;
    } else {
      last := LastInstance(q, n - 1, l);
    }
  }

  /** All instances are linked to an instruction. */
  ghost predicate AllLinked(q: Prog) {
    forall l :: 0 <= l < |q.labels| ==> q.labels[l].instr.Some?
  }

  function TableOf(q: Prog): map<LabelKey, nat> {
    RegisteredLabels(q.labels, |q.labels|)
  }

  /** A key is in the table exactly if some instance has it. */
  lemma InTable(q: Prog, key: LabelKey)
    requires AllLinked(q)
    ensures key in TableOf(q) <==> exists l :: 0 <= l < |q.labels| && KeyOf(q.labels[l]) == key
  {
    hide RegisteredLabels, KeyOf;
    if key in TableOf(q) {
      RegisteredOnly(q.labels, |q.labels|, key);
    }
    if l :| 0 <= l < |q.labels| && KeyOf(q.labels[l]) == key {
      var last := LastInstance(q, |q.labels|, l);
      RegisteredLast(q, |q.labels|, last);
    }
  }

  lemma LocalInTable(q: Prog, def: LabelDef, doc: nat)
    requires AllLinked(q)
    ensures LabelKey(Some(doc), def) in TableOf(q) <==> !IsGlobal(def.ident) && InstantiatedIn(q, def, doc)
  {
    InTable(q, LabelKey(Some(doc), def));
    hide RegisteredLabels;
    if !IsGlobal(def.ident) && InstantiatedIn(q, def, doc) {
      var l :| 0 <= l < |q.labels| && q.labels[l].def == def && q.labels[l].doc == doc;
      assert KeyOf(q.labels[l]) == LabelKey(Some(doc), def);
    }
  }

  /** Walking the document chain finds the instance in the nearest document. */
  lemma {:induction false} NearestFound(w: World, q: Prog, def: LabelDef, doc: nat)
    requires AllLinked(q) && w.docs == q.docs
    ensures var near := NearestDoc(q, def, doc);
            if IsGlobal(def.ident) || near.None? then LocalInstance(w, TableOf(q), def, doc) == None
            else
              && LabelKey(near, def) in TableOf(q)
              && LocalInstance(w, TableOf(q), def, doc) == Some(TableOf(q)[LabelKey(near, def)])
    decreases doc
  {
    LocalInTable(q, def, doc);
    hide TableOf, InstantiatedIn, RegisteredLabels, IsGlobal;
    if LabelKey(Some(doc), def) !in TableOf(q) && Enclosing(w.docs, doc).Some? {
      NearestFound(w, q, def, Enclosing(w.docs, doc).value);
    }
  }

  /** The table leads a reference to the instance that it denotes. */
  lemma DenotedInstance(w: World, q: Prog, ident: string, def: LabelDef, doc: nat, l: nat)
    requires AllLinked(q) && w.docs == q.docs && Denotes(q, ident, def, doc, l)
    ensures Instance(w, TableOf(q), ident, def, doc) == q.labels[l].instr
  {
    RegisteredLast(q, |q.labels|, l);
    NearestFound(w, q, def, doc);
    hide RegisteredLabels, NearestDoc, LocalInstance;
  }

  /** If the table leads a reference anywhere, then the reference denotes an instance. */
  lemma InstanceDenoted(w: World, q: Prog, ident: string, def: LabelDef, doc: nat) returns (l: nat)
    requires AllLinked(q) && w.docs == q.docs && Instance(w, TableOf(q), ident, def, doc).Some?
    ensures Denotes(q, ident, def, doc, l)
  {
    NearestFound(w, q, def, doc);
    var key := LabelKey(if IsGlobal(ident) then None else NearestDoc(q, def, doc), def);
    InTable(q, key);
    hide RegisteredLabels, TableOf, NearestDoc, LocalInstance;
    var m :| 0 <= m < |q.labels| && KeyOf(q.labels[m]) == key;
    l := LastInstance(q, |q.labels|, m);
  }

  // ----- label addresses -----

  /** The number of bytes that are emitted before the point where label l was defined. */
  function OffsetOf(b: Built, l: nat): nat
    requires l < |b.prog.labels| == |b.prog.places| && b.prog.places[l] < |b.instrs|
  {
    SizeBefore(b.instrs, b.prog.places[l])
  }

  ghost predicate HasPlaces(b: Built) {
    && |b.prog.places| == |b.prog.labels| && |b.instrs| == |b.prog.instrs|
    && (forall l :: 0 <= l < |b.prog.labels| ==> b.prog.labels[l].instr == Some(b.prog.places[l]) && b.prog.places[l] < |b.instrs|)
    && b.unit.table == TableOf(b.prog) && b.unit.w.docs == b.prog.docs
  }

  lemma BuildHasPlaces(i: Input)
    requires ValidTarget(i.t)
    ensures HasPlaces(Build(i))
  {
    BuildFinished(i);
    hide Build, RegisteredLabels, Iterate, Fits, JumpPair, JumpDestAt;
  }

  /** What evaluation makes of a label reference when all positions are final. */
  function ReferenceValue(b: Built, ident: string, dotted: bool, doc: nat): EvalResult {
    EvalLabel(b.unit.w, FinalLabels(b), ident, dotted, doc)
  }

  /** A reference from doc may refer to the definition that is found for its name. */
  ghost predicate RefersTo(b: Built, ident: string, dotted: bool, doc: nat, def: LabelDef) {
    var w := b.unit.w;
    && (if ident in w.globals then w.globals[ident] == def else LookupLabel(w.prog, w.docs, ident, doc) == Some(def))
    && (dotted ==> def.dotted)
  }

  lemma ReferenceOffset(b: Built, ident: string, dotted: bool, doc: nat, def: LabelDef, l: nat)
    requires HasPlaces(b) && RefersTo(b, ident, dotted, doc, def) && Denotes(b.prog, ident, def, doc, l)
    ensures l < |b.prog.labels| && ReferenceValue(b, ident, dotted, doc) == Known(FromInt(OffsetOf(b, l)))
  {
    assert l < |b.prog.labels|;
    hide TableOf, LookupLabel, SizeBefore, Denotes, Instance;
    DenotedInstance(b.unit.w, b.prog, ident, def, doc, l);
  }

  /**
   * A reference has a value exactly if there is a definition for it, which is dotted if the reference is,
   * and it denotes an instance of the definition.
   */
  lemma ReferenceKnown(b: Built, ident: string, dotted: bool, doc: nat)
    requires HasPlaces(b)
    ensures ReferenceValue(b, ident, dotted, doc).Known?
         <==> exists def, l :: RefersTo(b, ident, dotted, doc, def) && Denotes(b.prog, ident, def, doc, l)
  {
    hide TableOf, LookupLabel, SizeBefore, Denotes, Instance;
    if ReferenceValue(b, ident, dotted, doc).Known? {
      var def := FindLabel(b.unit.w, ident, doc).value;
      assert RefersTo(b, ident, dotted, doc, def);
      var l := InstanceDenoted(b.unit.w, b.prog, ident, def, doc);
    }
    if def, l :| RefersTo(b, ident, dotted, doc, def) && Denotes(b.prog, ident, def, doc, l) {
      hide ReferenceValue, RefersTo;
      ReferenceOffset(b, ident, dotted, doc, def, l);
    }
  }

  /** The value is the number of bytes that the compiler has put out before the point where label l was defined. */
  ghost predicate IsAddressOf(b: Built, v: EvalResult, l: nat) {
    && HasPlaces(b) && l < |b.prog.labels|
    && var o := Generated(b.unit.t, b.instrs, b.prog.places[l]);
    o.Written? && v == Known(FromInt(|o.code|))
  }

  /**
   * The value of a label reference is the byte offset of the point where the label that it denotes was
   * defined: the number of bytes emitted before the instruction that was added next after the label,
   * whatever sections begin or end in between.
   */
  lemma LabelAddress(i: Input, ident: string, dotted: bool, doc: nat, def: LabelDef, l: nat)
    requires CompleteTarget(i.t) && Build(i).errors == []
    requires RefersTo(Build(i), ident, dotted, doc, def) && Denotes(Build(i).prog, ident, def, doc, l)
    ensures IsAddressOf(Build(i), ReferenceValue(Build(i), ident, dotted, doc), l)
  {
    var b := Build(i);
    BuildReady(i);
    BuildHasPlaces(i);
    BuiltFor(i);
    hide Build, Generated, AllReady, CompleteTarget, SizeBefore, RefersTo, Denotes, ReferenceValue, TableOf;
    ReferenceOffset(b, ident, dotted, doc, def, l);
    Layout(b, b.prog.places[l]);
  }

  lemma BuiltFor(i: Input)
    requires ValidTarget(i.t)
    ensures Build(i).unit.t == i.t
  {
    BuildFinished(i);
    hide Build;
  }

  /**
   * If every key is instantiated once, then a reference from the document of any label instance to the
   * label has the offset of that very instance, however often the definition is instantiated elsewhere.
   */
  lemma OwnAddress(i: Input, l: nat)
    requires CompleteTarget(i.t) && Build(i).errors == [] && UniqueKeys(Build(i).prog.labels)
    requires l < |Build(i).prog.labels|
    requires var d := Build(i).prog.labels[l]; FindLabel(Build(i).unit.w, d.def.ident, d.doc) == Some(d.def)
    ensures var b := Build(i);
            var d := b.prog.labels[l];
            IsAddressOf(b, ReferenceValue(b, d.def.ident, d.def.dotted, d.doc), l)
  {
    var b := Build(i);
    var d := b.prog.labels[l];
    hide Build, FindLabel, ReferenceValue, IsAddressOf, CompleteTarget;
    OwnInstance(b.prog, l);
    hide Denotes, UniqueKeys;
    LabelAddress(i, d.def.ident, d.def.dotted, d.doc, d.def, l);
  }

  lemma OwnInstance(q: Prog, l: nat)
    requires UniqueKeys(q.labels) && l < |q.labels|
    ensures Denotes(q, q.labels[l].def.ident, q.labels[l].def, q.labels[l].doc, l)
  {
    assert InstantiatedIn(q, q.labels[l].def, q.labels[l].doc);
    hide KeyOf;
  }
}
