/** The output program of the compiler: sections of instructions (asm/compiler_prog.go). */
module CompilerProg {
  import opened Base
  import opened Numerals
  import opened Lzint
  import opened InstructionSets
  import opened Ast
  import opened Evaluator

  /** An instruction; for a numeric label, assertedPC is the position that it claims. */
  datatype Instr = Instr(
    op: string,
    arg: Option<Expr>,
    assertedPC: Option<nat>,
    pc: nat,
    dataSize: nat,
    data: seq<Byte>,
    argNoLabels: bool)

  datatype Section = Section(scope: Scope, parent: Option<nat>)

  datatype Elem = InstrElem(instr: nat) | StartElem(section: nat) | EndElem(section: nat)

  /** A label instance. Labels are linked to the instruction that follows them. */
  datatype CompLabel = CompLabel(doc: nat, def: LabelDef, instr: Option<nat>)

  /**
   * The state of a program. Instructions, sections and labels are numbered in the order of their
   * creation. The fields owners and places are history: the section that was current when an
   * instruction was added, and the number of instructions there were when a label was added.
   */
  datatype Prog = Prog(
    docs: seq<Document>,
    elems: seq<Elem>,
    instrs: seq<Instr>,
    sections: seq<Section>,
    cur: nat,
    labels: seq<CompLabel>,
    currentLabels: seq<nat>,
    globalLabels: map<string, nat>,
    owners: seq<nat>,
    places: seq<nat>)

  const TOPLEVEL: nat := 0

  const BYTES: string := "#bytes"

  function NewInstr(op: string, arg: Option<Expr>): Instr {
    Instr(op, arg, None, 0, 0, [], false)
  }

  function NewProg(docs: seq<Document>, top: nat): Prog {
    Prog(docs, [StartElem(TOPLEVEL)], [], [Section(Scope(top, None), None)], TOPLEVEL, [], [], map[], [], [])
  }

  /** The current section is one of the program's sections. */
  predicate HasSection(p: Prog) {
    p.cur < |p.sections|
  }

  function CurScope(p: Prog): Scope
    requires HasSection(p)
  {
    p.sections[p.cur].scope
  }

  /** Opens a new section inside of the current one. */
  function PushSection(p: Prog, scope: Scope): (r: Prog)
    ensures HasSection(r) && r.sections[r.cur] == Section(scope, Some(p.cur))
  {
    p.(elems := p.elems + [StartElem(|p.sections|)],
       sections := p.sections + [Section(scope, Some(p.cur))],
       cur := |p.sections|)
  }

  /** Returns to the parent section. */
  function PopSection(p: Prog): Prog
    requires HasSection(p) && p.sections[p.cur].parent.Some?
  {
    p.(elems := p.elems + [EndElem(p.cur)], cur := p.sections[p.cur].parent.value)
  }

  function AddLabel(p: Prog, def: LabelDef, doc: nat): Prog {
    p.(currentLabels := p.currentLabels + [|p.labels|],
       labels := p.labels + [CompLabel(doc, def, None)],
       places := p.places + [|p.instrs|],
       globalLabels := if IsGlobal(def.ident) then p.globalLabels[def.ident := |p.labels|] else p.globalLabels)
  }

  /** Links pending labels to an instruction. */
  function Linked(labels: seq<CompLabel>, pending: seq<nat>, instr: nat): (r: seq<CompLabel>)
    ensures |r| == |labels|
    ensures forall l :: 0 <= l < |labels| ==> r[l] == if l in pending then labels[l].(instr := Some(instr)) else labels[l]
  {
    seq(|labels|, l requires 0 <= l < |labels| => if l in pending then labels[l].(instr := Some(instr)) else labels[l])
  }

  function AddInstruction(p: Prog, inst: Instr): Prog {
    p.(elems := p.elems + [InstrElem(|p.instrs|)],
       instrs := p.instrs + [inst],
       labels := Linked(p.labels, p.currentLabels, |p.instrs|),
       currentLabels := [],
       owners := p.owners + [p.cur])
  }

  /** Adds an empty instruction as a destination for labels at the end, and closes the toplevel section. */
  function FinishExpansion(p: Prog): Prog {
    var q := if |p.currentLabels| > 0 then AddInstruction(p, NewInstr("", None)) else p;
    q.(elems := q.elems + [EndElem(TOPLEVEL)])
  }

  // ----- iteration -----

  type Walking = (Option<nat>, seq<(Option<nat>, nat)>)

  function WalkElem(sections: seq<Section>, at: Walking, e: Elem): Walking {
    match e
    case InstrElem(k) => (at.0, at.1 + [(at.0, k)])
    case StartElem(s) => (Some(s), at.1)
    case EndElem(s) => (if s < |sections| then sections[s].parent else None, at.1)
  }

  /** The section after some elements, and the instructions among them, each with its section. */
  function Walk(sections: seq<Section>, elems: seq<Elem>): Walking {
    if elems == [] then (Some(TOPLEVEL), [])
    else WalkElem(sections, Walk(sections, elems[..|elems| - 1]), elems[|elems| - 1])
  }

  /** What iterInstructions yields. */
  function Iterate(p: Prog): seq<(Option<nat>, nat)> {
    Walk(p.sections, p.elems).1
  }

  /** Every instruction, with the section that was current when it was added. */
  function Owned(owners: seq<nat>): (r: seq<(Option<nat>, nat)>)
    ensures |r| == |owners|
    ensures forall k :: 0 <= k < |r| ==> r[k] == (Some(owners[k]), k)
  {
    seq(|owners|, k requires 0 <= k < |owners| => (Some(owners[k]), k))
  }

  predicate KnownElem(e: Elem, sections: nat, instrs: nat) {
    match e
    case InstrElem(k) => k < instrs
    case StartElem(s) => s < sections
    case EndElem(s) => s < sections
  }

  /** Labels are either pending, or linked to the instruction that came next. */
  ghost predicate LabelLinked(p: Prog, l: nat)
    requires l < |p.labels| && |p.places| == |p.labels|
  {
    if l in p.currentLabels then p.labels[l].instr.None? && p.places[l] == |p.instrs|
    else p.labels[l].instr == Some(p.places[l]) && p.places[l] < |p.instrs|
  }

  /** A label that is not dotted belongs to a JUMPDEST. */
  ghost predicate JumpDestAt(p: Prog, l: nat)
    requires l < |p.labels| && |p.places| == |p.labels|
  {
    !p.labels[l].def.dotted ==> p.places[l] < |p.instrs| && p.instrs[p.places[l]].op == "JUMPDEST"
  }

  /** What every operation on programs keeps. */
  ghost predicate WellFormed(p: Prog) {
    && HasSection(p) && |p.owners| == |p.instrs| && |p.places| == |p.labels|
    && (forall i :: 0 <= i < |p.elems| ==> KnownElem(p.elems[i], |p.sections|, |p.instrs|))
    && Walk(p.sections, p.elems) == (Some(p.cur), Owned(p.owners))
    && (forall s :: 0 <= s < |p.sections| && p.sections[s].parent.Some? ==> p.sections[s].parent.value < s)
    && (p.sections[0].parent == None)
    && (forall i :: 0 <= i < |p.currentLabels| ==> p.currentLabels[i] < |p.labels|)
    && (forall l :: 0 <= l < |p.labels| ==> LabelLinked(p, l))
    && (forall k :: 0 <= k < |p.owners| ==> p.owners[k] < |p.sections|)
    && (forall name :: name in p.globalLabels ==>
          IsGlobal(name) && p.globalLabels[name] < |p.labels| && p.labels[p.globalLabels[name]].def.ident == name)
  }

  // ----- the invariant -----

  lemma NewProgWellFormed(docs: seq<Document>, top: nat)
    ensures WellFormed(NewProg(docs, top))
  {
    var p := NewProg(docs, top);
    assert p.elems[..0] == [];
  }

  lemma {:induction false} WalkMoreSections(sections: seq<Section>, more: seq<Section>, elems: seq<Elem>, instrs: nat)
    requires forall i :: 0 <= i < |elems| ==> KnownElem(elems[i], |sections|, instrs)
    ensures Walk(sections + more, elems) == Walk(sections, elems)
    decreases |elems|
  {
    if elems != [] {
      WalkMoreSections(sections, more, elems[..|elems| - 1], instrs);
    }
  }

  lemma WalkSnoc(sections: seq<Section>, elems: seq<Elem>, e: Elem)
    ensures Walk(sections, elems + [e]) == WalkElem(sections, Walk(sections, elems), e)
  {
    assert (elems + [e])[..|elems|] == elems;
  }

  lemma PushSectionWellFormed(p: Prog, scope: Scope)
    requires WellFormed(p)
    ensures WellFormed(PushSection(p, scope))
  {
    var q := PushSection(p, scope);
    WalkMoreSections(p.sections, [Section(scope, Some(p.cur))], p.elems, |p.instrs|);
    WalkSnoc(q.sections, p.elems, StartElem(|p.sections|));
    hide Walk;
    forall l | 0 <= l < |q.labels|
      ensures LabelLinked(q, l)
    {
      assert LabelLinked(p, l);
    }
  }

  lemma PopSectionWellFormed(p: Prog)
    requires WellFormed(p) && p.sections[p.cur].parent.Some?
    ensures WellFormed(PopSection(p))
  {
    var q := PopSection(p);
    WalkSnoc(p.sections, p.elems, EndElem(p.cur));
    hide Walk;
    forall l | 0 <= l < |q.labels|
      ensures LabelLinked(q, l)
    {
      assert LabelLinked(p, l);
    }
  }

  lemma AddLabelWellFormed(p: Prog, def: LabelDef, doc: nat)
    requires WellFormed(p)
    ensures WellFormed(AddLabel(p, def, doc))
  {
    var q := AddLabel(p, def, doc);
    hide Walk;
    forall l | 0 <= l < |q.labels|
      ensures LabelLinked(q, l)
    {
      if l < |p.labels| {
        assert LabelLinked(p, l);
        assert l in q.currentLabels <==> l in p.currentLabels;
      } else {
        assert q.currentLabels[|p.currentLabels|] == l;
      }
    }
  }

  lemma AddInstructionWellFormed(p: Prog, inst: Instr)
    requires WellFormed(p)
    ensures WellFormed(AddInstruction(p, inst))
  {
    var q := AddInstruction(p, inst);
    WalkSnoc(p.sections, p.elems, InstrElem(|p.instrs|));
    hide Walk;
    assert Owned(q.owners) == Owned(p.owners) + [(Some(p.cur), |p.instrs|)];
    forall l | 0 <= l < |q.labels|
      ensures LabelLinked(q, l)
    {
      assert LabelLinked(p, l);
    }
  }

  /** A non-dotted label and the JUMPDEST that is added right after it. */
  lemma LabelledJumpDest(p: Prog, def: LabelDef, doc: nat)
    requires WellFormed(p) && forall l :: 0 <= l < |p.labels| ==> JumpDestAt(p, l)
    ensures var q := AddInstruction(AddLabel(p, def, doc), NewInstr("JUMPDEST", None));
            WellFormed(q) && forall l :: 0 <= l < |q.labels| ==> JumpDestAt(q, l)
  {
    AddLabelWellFormed(p, def, doc);
    AddInstructionWellFormed(AddLabel(p, def, doc), NewInstr("JUMPDEST", None));
    hide Walk, LabelLinked;
    var q := AddInstruction(AddLabel(p, def, doc), NewInstr("JUMPDEST", None));
    forall l | 0 <= l < |q.labels|
      ensures JumpDestAt(q, l)
    {
      if l < |p.labels| {
        assert JumpDestAt(p, l);
      }
    }
  }

  /**
   * After expansion, iteration pairs each instruction with exactly the section that was current when
   * it was added, and every label is linked to the instruction that follows it.
   */
  lemma FinishedProgram(p: Prog)
    requires WellFormed(p) && p.cur == TOPLEVEL
    ensures var q := FinishExpansion(p);
            && Iterate(q) == Owned(q.owners) && |q.owners| == |q.instrs|
            && q.labels == Linked(p.labels, p.currentLabels, |p.instrs|)
            && q.places == p.places && |q.places| == |q.labels|
            && (forall l :: 0 <= l < |q.labels| ==> q.labels[l].instr == Some(q.places[l]) && q.places[l] < |q.instrs|)
  {
    var r := if |p.currentLabels| > 0 then AddInstruction(p, NewInstr("", None)) else p;
    if |p.currentLabels| > 0 {
      AddInstructionWellFormed(p, NewInstr("", None));
    }
    WalkSnoc(r.sections, r.elems, EndElem(TOPLEVEL));
    hide Walk;
    forall l | 0 <= l < |r.labels|
      ensures r.labels[l].instr == Some(r.places[l]) && r.places[l] < |r.instrs|
    {
      assert LabelLinked(r, l);
    }
    assert |p.currentLabels| == 0 ==> Linked(p.labels, p.currentLabels, |p.instrs|) == p.labels;
  }

  // ----- positions -----

  /** The size of an instruction in bytecode. */
  function EncodedSize(inst: Instr): nat {
    (if inst.op != BYTES && inst.op != "" then 1 else 0) + inst.dataSize
  }

  /** The size of the first k instructions. */
  function SizeBefore(instrs: seq<Instr>, k: nat): nat
    requires k <= |instrs|
  {
    if k == 0 then 0 else SizeBefore(instrs, k - 1) + EncodedSize(instrs[k - 1])
  }

  function PCs(instrs: seq<Instr>): (pcs: seq<nat>)
    ensures |pcs| == |instrs| && forall k :: 0 <= k < |pcs| ==> pcs[k] == SizeBefore(instrs, k)
  {
    seq(|instrs|, k requires 0 <= k < |instrs| => SizeBefore(instrs, k))
  }

  function AtPC(inst: Instr, pc: nat): Instr {
    inst.(pc := pc)
  }

  /** Each instruction is placed after the bytes of the instructions before it. */
  function WithPCs(instrs: seq<Instr>): (r: seq<Instr>)
    ensures |r| == |instrs| && forall k :: 0 <= k < |r| ==> r[k] == AtPC(instrs[k], SizeBefore(instrs, k))
  {
    seq(|instrs|, k requires 0 <= k < |instrs| => AtPC(instrs[k], SizeBefore(instrs, k)))
  }

  lemma {:induction false} SizeBeforeSame(a: seq<Instr>, b: seq<Instr>, k: nat)
    requires k <= |a| && k <= |b|
    requires forall j :: 0 <= j < k ==> EncodedSize(a[j]) == EncodedSize(b[j])
    ensures SizeBefore(a, k) == SizeBefore(b, k)
  {
    if k > 0 {
      SizeBeforeSame(a, b, k - 1);
    }
  }

  lemma {:induction false} WalkPrefix(sections: seq<Section>, elems: seq<Elem>, i: nat)
    requires i <= |elems|
    ensures var (now, all) := (Walk(sections, elems[..i]).1, Walk(sections, elems).1);
            |now| <= |all| && now == all[..|now|]
    decreases |elems| - i
  {
    if i == |elems| {
      assert elems[..i] == elems;
    } else {
      assert elems[..i + 1] == elems[..i] + [elems[i]];
      WalkSnoc(sections, elems[..i], elems[i]);
      WalkPrefix(sections, elems, i + 1);
      hide Walk;
      var now, next, all := Walk(sections, elems[..i]).1, Walk(sections, elems[..i + 1]).1, Walk(sections, elems).1;
      assert next[..|now|] == now;
      assert all[..|next|][..|now|] == all[..|now|];
    }
  }

  // ----- the program object -----

  class CompilerProg {
    const prog: Program
    var docs: seq<Document>
    var elems: seq<Elem>
    var instrs: seq<Instr>
    var sections: seq<Section>
    var cur: nat
    var labels: seq<CompLabel>
    var currentLabels: seq<nat>
    var globalLabels: map<string, nat>
    ghost var owners: seq<nat>
    ghost var places: seq<nat>

    ghost function State(): Prog
      reads this
    {
      Prog(docs, elems, instrs, sections, cur, labels, currentLabels, globalLabels, owners, places)
    }

    constructor (prog: Program)
      ensures this.prog == prog && State() == NewProg(prog.docs, prog.top)
    {
      this.prog := prog;
      docs, instrs, labels, currentLabels, globalLabels, owners, places := prog.docs, [], [], [], map[], [], [];
      elems, sections, cur := [StartElem(TOPLEVEL)], [Section(Scope(prog.top, None), None)], TOPLEVEL;
    }

    /** Creates a document and returns its number. */
    method AddDocument(doc: Document) returns (n: nat)
      modifies this
      ensures n == old(|docs|) && State() == old(State()).(docs := old(docs) + [doc])
    {
      n := |docs|;
      docs := docs + [doc];
    }

    method Push(scope: Scope)
      modifies this
      ensures State() == PushSection(old(State()), scope)
    {
      var s := |sections|;
      sections := sections + [Section(scope, Some(cur))];
      elems := elems + [StartElem(s)];
      cur := s;
    }

    method Pop()
      requires cur < |sections| && sections[cur].parent.Some?
      modifies this
      ensures State() == PopSection(old(State()))
    {
      elems := elems + [EndElem(cur)];
      cur := sections[cur].parent.value;
    }

    method AddLabelDef(def: LabelDef, doc: nat)
      modifies this
      ensures State() == AddLabel(old(State()), def, doc)
    {
      var l := |labels|;
      currentLabels := currentLabels + [l];
      labels := labels + [CompLabel(doc, def, None)];
      places := places + [|instrs|];
      if IsGlobal(def.ident) {
        globalLabels := globalLabels[def.ident := l];
      }
    }

    method AddInstr(inst: Instr)
      requires forall i :: 0 <= i < |currentLabels| ==> currentLabels[i] < |labels|
      modifies this
      ensures State() == AddInstruction(old(State()), inst)
    {
      var k, linked, pending := |instrs|, labels, currentLabels;
      for i := 0 to |pending|
        invariant |linked| == |labels| && linked == Linked(labels, pending[..i], k)
      {
        assert pending[..i + 1] == pending[..i] + [pending[i]];
        linked := linked[pending[i] := linked[pending[i]].(instr := Some(k))];
      }
      assert pending[..|pending|] == pending;
      elems, instrs, labels, currentLabels, owners := elems + [InstrElem(k)], instrs + [inst], linked, [], owners + [cur];
    }

    /** Called after expansion: labels at the end of the program get an empty instruction. */
    method Finish()
      requires forall i :: 0 <= i < |currentLabels| ==> currentLabels[i] < |labels|
      requires cur == TOPLEVEL
      modifies this
      ensures State() == FinishExpansion(old(State()))
    {
      if |currentLabels| > 0 {
        AddInstr(NewInstr("", None));
      }
      elems := elems + [EndElem(TOPLEVEL)];
    }

    /** All instructions in program order, each with its section. */
    method IterInstructions() returns (found: seq<(Option<nat>, nat)>)
      ensures found == Iterate(State())
    {
      found := [];
      var s: Option<nat> := Some(TOPLEVEL);
      for i := 0 to |elems|
        invariant (s, found) == Walk(sections, elems[..i])
      {
        assert elems[..i + 1] == elems[..i] + [elems[i]];
        WalkSnoc(sections, elems[..i], elems[i]);
        match elems[i]
        case InstrElem(k) => found := found + [(s, k)];
        case StartElem(t) => s := Some(t);
        case EndElem(t) => s := if t < |sections| then sections[t].parent else None;
      }
      assert elems[..|elems|] == elems;
    }

    /** Assigns the positions of all instructions. */
    method ComputePC()
      requires Iterate(State()) == Owned(owners) && |owners| == |instrs|
      modifies this`instrs
      ensures instrs == WithPCs(old(instrs))
    {
      assert InOrder(sections, elems, |instrs|) by {
        assert Walk(sections, elems).1 == Owned(owners);
      }
      instrs := PlaceAll(sections, elems, instrs);
    }
  }

  /** Walks the elements of a program, adding up the sizes of instructions. */
  method PlaceAll(ghost sections: seq<Section>, elems: seq<Elem>, instrs: seq<Instr>) returns (placed: seq<Instr>)
    requires InOrder(sections, elems, |instrs|)
    ensures placed == WithPCs(instrs)
  {
    OrderEnds(sections, elems, |instrs|);
    hide InstrCount, InOrder;
    var pc := 0;
    placed := instrs;
    for i := 0 to |elems|
      invariant PlacedBy(sections, elems, i, instrs, placed, pc)
    {
      if elems[i].InstrElem? {
        placed, pc := PlaceNext(sections, elems, i, instrs, placed, pc);
      } else {
        NextInstr(sections, elems, |instrs|, i);
      }
    }
  }

  /** The instructions among the first i elements are placed, and take up pc bytes. */
  ghost predicate PlacedBy(sections: seq<Section>, elems: seq<Elem>, i: nat, instrs: seq<Instr>, placed: seq<Instr>, pc: nat)
    requires i <= |elems|
  {
    PlacedUpTo(instrs, placed, InstrCount(sections, elems, i), pc)
  }

  /** The first n instructions are placed, and take up pc bytes. */
  ghost predicate PlacedUpTo(instrs: seq<Instr>, placed: seq<Instr>, n: nat, pc: nat) {
    && n <= |instrs| && pc == SizeBefore(instrs, n)
    && placed == WithPCs(instrs)[..n] + instrs[n..]
  }

  method PlaceNext(ghost sections: seq<Section>, elems: seq<Elem>, i: nat, instrs: seq<Instr>, placed0: seq<Instr>, pc0: nat)
    returns (placed: seq<Instr>, pc: nat)
    requires i < |elems| && elems[i].InstrElem? && InOrder(sections, elems, |instrs|)
    requires PlacedBy(sections, elems, i, instrs, placed0, pc0)
    ensures PlacedBy(sections, elems, i + 1, instrs, placed, pc)
  {
    NextInstr(sections, elems, |instrs|, i);
    hide InstrCount, InOrder, EncodedSize, AtPC;
    var k := elems[i].instr;
    NextPlaced(instrs, placed0, k, pc0);
    assert placed0[k] == instrs[k];
    placed := placed0[k := AtPC(placed0[k], pc0)];
    pc := pc0 + EncodedSize(placed0[k]);
  }

  lemma NextPlaced(instrs: seq<Instr>, placed: seq<Instr>, k: nat, pc: nat)
    requires k < |instrs| && pc == SizeBefore(instrs, k)
    requires placed == WithPCs(instrs)[..k] + instrs[k..]
    ensures placed[k := AtPC(placed[k], pc)] == WithPCs(instrs)[..k + 1] + instrs[k + 1..]
  {
    hide SizeBefore, AtPC;
    assert placed[k] == instrs[k];
    assert WithPCs(instrs)[k] == AtPC(placed[k], pc);
  }

  /** The instructions occur in the order of their creation. */
  ghost predicate InOrder(sections: seq<Section>, elems: seq<Elem>, n: nat) {
    var found := Walk(sections, elems).1;
    |found| == n && forall k :: 0 <= k < n ==> found[k].1 == k
  }

  /** The number of instructions among the first i elements. */
  ghost function InstrCount(sections: seq<Section>, elems: seq<Elem>, i: nat): nat
    requires i <= |elems|
  {
    |Walk(sections, elems[..i]).1|
  }

  lemma OrderEnds(sections: seq<Section>, elems: seq<Elem>, n: nat)
    requires InOrder(sections, elems, n)
    ensures InstrCount(sections, elems, 0) == 0 && InstrCount(sections, elems, |elems|) == n
  {
    assert elems[..0] == [] && elems[..|elems|] == elems;
  }

  lemma NextInstr(sections: seq<Section>, elems: seq<Elem>, n: nat, i: nat)
    requires i < |elems| && InOrder(sections, elems, n)
    ensures InstrCount(sections, elems, i + 1) == InstrCount(sections, elems, i) + (if elems[i].InstrElem? then 1 else 0)
    ensures elems[i].InstrElem? ==> elems[i].instr == InstrCount(sections, elems, i) < n
  {
    assert elems[..i + 1] == elems[..i] + [elems[i]];
    WalkSnoc(sections, elems[..i], elems[i]);
    WalkPrefix(sections, elems, i + 1);
    hide Walk;
    if elems[i].InstrElem? {
      assert Walk(sections, elems[..i + 1]).1[InstrCount(sections, elems, i)].1 == elems[i].instr;
    }
  }
}
