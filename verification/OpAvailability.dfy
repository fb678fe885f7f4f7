/** Which operations an instruction set has (resolveDefs in internal/evm/instruction_set.go). */
module OpAvailability {
  import opened Base
  import opened EvmOps
  import opened InstructionSets

  /** The operation of a list with the given name. */
  function Named(ops: seq<Op>, name: string): (r: Option<Op>)
    ensures r.Some? ==> r.value in ops && r.value.name == name
    ensures r.None? <==> forall i :: 0 <= i < |ops| ==> ops[i].name != name
  {
    if ops == [] then None
    else if ops[|ops| - 1].name == name then Some(ops[|ops| - 1])
    else Named(ops[..|ops| - 1], name)
  }

  /**
   * What the latest definition that mentions a name says of it, for definitions from the oldest to the
   * newest: the operation that is added, or nothing if it is only removed.
   */
  function Latest(defs: seq<SetDef>, name: string): Option<Op> {
    if defs == [] then None
    else
      var last := defs[|defs| - 1];
      if Named(last.added, name).Some? then Named(last.added, name)
      else if Named(last.removed, name).Some? then None
      else Latest(defs[..|defs| - 1], name)
  }

  function Lookup(t: OpTable, name: string): Option<Op> {
    if name in t.byName then Some(t.byName[name]) else None
  }

  lemma {:induction false} AfterAdding(t: OpTable, ops: seq<Op>, name: string)
    requires AddedAll(t, ops).Ok?
    ensures Lookup(AddedAll(t, ops).value, name) == if Named(ops, name).Some? then Named(ops, name) else Lookup(t, name)
    decreases |ops|
  {
    if ops != [] {
      AfterAdding(Added(t, ops[0]).value, ops[1..], name);
      NamedFirst(ops, name);
      AddedStays(Added(t, ops[0]).value, ops[1..], ops[0].name);
    }
  }

  /** An operation that is in the table is not added again. */
  lemma AddedStays(t: OpTable, ops: seq<Op>, name: string)
    requires AddedAll(t, ops).Ok? && name in t.byName
    ensures Named(ops, name).None?
    decreases |ops|
  {
    if ops != [] {
      AddedStays(Added(t, ops[0]).value, ops[1..], name);
      NamedFirst(ops, name);
    }
  }

  lemma {:induction false} NamedFirst(ops: seq<Op>, name: string)
    requires ops != []
    ensures Named(ops, name) == if Named(ops[1..], name).Some? then Named(ops[1..], name)
                                else if ops[0].name == name then Some(ops[0]) else None
    decreases |ops|
  {
    var n := |ops| - 1;
    if n > 0 && ops[n].name != name {
      assert ops[..n][1..] == ops[1..][..n - 1];
      NamedFirst(ops[..n], name);
    }
  }

  lemma {:induction false} AfterRemoving(t: OpTable, ops: seq<Op>, fork: string, name: string)
    requires RemovedAll(t, ops, fork).Ok?
    ensures Lookup(RemovedAll(t, ops, fork).value, name) == if Named(ops, name).Some? then None else Lookup(t, name)
    decreases |ops|
  {
    if ops != [] {
      AfterRemoving(Removed(t, ops[0], fork).value, ops[1..], fork, name);
      NamedFirst(ops, name);
    }
  }

  lemma {:induction false} AfterDefs(t: OpTable, defs: seq<SetDef>, name: string)
    requires ResolvedDefs(t, defs).Ok?
    ensures Lookup(ResolvedDefs(t, defs).value, name)
         == if Mentioned(defs, name) then Latest(defs, name) else Lookup(t, name)
    decreases |defs|
  {
    if defs != [] {
      var t1 := RemovedAll(t, defs[0].removed, defs[0].name).value;
      var t2 := AddedAll(t1, defs[0].added).value;
      AfterRemoving(t, defs[0].removed, defs[0].name, name);
      AfterAdding(t1, defs[0].added, name);
      AfterDefs(t2, defs[1..], name);
      LatestFirst(defs, name);
      hide RemovedAll, AddedAll, Latest;
    }
  }

  predicate Mentions(def: SetDef, name: string) {
    Named(def.added, name).Some? || Named(def.removed, name).Some?
  }

  predicate Mentioned(defs: seq<SetDef>, name: string) {
    exists i :: 0 <= i < |defs| && Mentions(defs[i], name)
  }

  lemma {:induction false} LatestFirst(defs: seq<SetDef>, name: string)
    requires defs != []
    ensures Latest(defs, name) == if Mentioned(defs[1..], name) then Latest(defs[1..], name) else Named(defs[0].added, name)
    ensures Mentioned(defs, name) <==> Mentions(defs[0], name) || Mentioned(defs[1..], name)
    decreases |defs|
  {
    hide Named, Mentioned;
    MentionedFirst(defs, name);
    var n := |defs| - 1;
    if n == 0 {
      assert defs[..0] == [];
      NotMentioned(defs[1..], name);
    } else {
      InnerDefs(defs);
      LatestFirst(defs[..n], name);
      MentionedLast(defs[1..], name);
      hide Mentions;
      LatestLast(defs, name);
      LatestLast(defs[1..], name);
    }
  }

  lemma NotMentioned(defs: seq<SetDef>, name: string)
    requires defs == []
    ensures !Mentioned(defs, name)
  {
  }

  lemma InnerDefs(defs: seq<SetDef>)
    requires |defs| > 1
    ensures var n := |defs| - 1; defs[..n][1..] == defs[1..][..n - 1] && defs[1..][n - 1] == defs[n]
  {
  }

  lemma LatestLast(defs: seq<SetDef>, name: string)
    requires defs != []
    ensures var n := |defs| - 1;
            Latest(defs, name) == if Mentions(defs[n], name) then Named(defs[n].added, name) else Latest(defs[..n], name)
  {
    hide Named;
  }

  lemma MentionedFirst(defs: seq<SetDef>, name: string)
    requires defs != []
    ensures Mentioned(defs, name) <==> Mentions(defs[0], name) || Mentioned(defs[1..], name)
  {
    hide Mentions;
    if Mentioned(defs, name) {
      var i :| 0 <= i < |defs| && Mentions(defs[i], name);
      assert i > 0 ==> defs[1..][i - 1] == defs[i];
    }
    if Mentioned(defs[1..], name) {
      var i :| 0 <= i < |defs| - 1 && Mentions(defs[1..][i], name);
      var k := i + 1;
      assert defs[k] == defs[1..][i];
    }
  }

  lemma MentionedLast(defs: seq<SetDef>, name: string)
    requires defs != []
    ensures Mentioned(defs, name) <==> Mentions(defs[|defs| - 1], name) || Mentioned(defs[..|defs| - 1], name)
  {
    hide Mentions;
    var n := |defs| - 1;
    if Mentioned(defs, name) {
      var i :| 0 <= i < |defs| && Mentions(defs[i], name);
      assert i < n ==> defs[..n][i] == defs[i];
    }
    if Mentioned(defs[..n], name) {
      var i :| 0 <= i < n && Mentions(defs[..n][i], name);
      assert defs[i] == defs[..n][i];
    }
  }

  /**
   * An instruction set has the operations that the newest definition in its lineage that mentions their
   * name adds: what is removed is gone until it is added again.
   */
  lemma AvailableOps(reg: Registry, key: string, name: string)
    requires key in reg && Resolved(reg, key).Ok?
    ensures Chain(reg, key, {}).Ok?
    ensures Lookup(Resolved(reg, key).value, name) == Latest(Reversed(Chain(reg, key, {}).value), name)
  {
    hide Chain, Latest, Mentioned, ResolvedDefs;
    var defs := Reversed(Chain(reg, key, {}).value);
    AfterDefs(EMPTY_TABLE, defs, name);
    if !Mentioned(defs, name) {
      NeverMentioned(defs, name);
    }
  }

  lemma {:induction false} NeverMentioned(defs: seq<SetDef>, name: string)
    requires !Mentioned(defs, name)
    ensures Latest(defs, name).None?
  {
    if defs != [] {
      var n := |defs| - 1;
      assert !Mentions(defs[n], name);
      NeverMentioned(defs[..n], name);
    }
  }
}
