/** Resolution of EVM instruction sets from fork definitions (internal/evm/instruction_set.go). */
module InstructionSets {
  import opened Base
  import opened Numerals
  import opened EvmOps

  datatype SetDef = SetDef(name: string, parent: string, added: seq<Op>, removed: seq<Op>)

  datatype ResolveError =
    | ParentCycle
    | UnknownParent
    | RemovedNotDefined
    | RemovedCodeNotDefined
    | NameAddedTwice
    | CodeAddedTwice

  type Registry = map<string, SetDef>

  // ----- lineage -----

  /** The definition chain from a fork up to its root, the fork first. */
  function Chain(reg: Registry, key: string, visited: set<string>): Result<seq<SetDef>, ResolveError>
    requires key in reg
    decreases reg.Keys - visited
  {
    if key in visited then Err(ParentCycle)
    else
      var def := reg[key];
      if def.parent == "" then Ok([def])
      else if def.parent !in reg then Err(UnknownParent)
      else
        match Chain(reg, def.parent, visited + {key})
        case Err(e) => Err(e)
        case Ok(rest) => Ok([def] + rest)
  }

  function Reversed<T>(s: seq<T>): (r: seq<T>)
    ensures |r| == |s|
    ensures forall i :: 0 <= i < |s| ==> r[i] == s[|s| - 1 - i]
  {
    seq(|s|, i requires 0 <= i < |s| => s[|s| - 1 - i])
  }

  /** The k-th ancestor of a fork, if the chain is that long. */
  function Ancestor(reg: Registry, key: string, k: nat): Option<string>
    decreases k
  {
    if k == 0 then Some(key)
    else if key in reg && reg[key].parent != "" then Ancestor(reg, reg[key].parent, k - 1)
    else None
  }

  /** A lineage is the list of all ancestors, ending in a fork without parent. */
  lemma {:induction false} ChainAncestors(reg: Registry, key: string, visited: set<string>)
    requires key in reg
    ensures var r := Chain(reg, key, visited);
            r.Ok? ==>
              && |r.value| > 0
              && r.value[|r.value| - 1].parent == ""
              && forall k :: 0 <= k < |r.value| ==>
                   var a := Ancestor(reg, key, k);
                   a.Some? && a.value in reg && r.value[k] == reg[a.value]
    decreases reg.Keys - visited
  {
    if key !in visited && reg[key].parent != "" && reg[key].parent in reg {
      ChainAncestors(reg, reg[key].parent, visited + {key});
    }
  }

  /** A chain whose first part is known. */
  function After(lin: seq<SetDef>, rest: Result<seq<SetDef>, ResolveError>): (r: Result<seq<SetDef>, ResolveError>)
    ensures lin == [] ==> r == rest
  {
    match rest
    case Err(e) => Err(e)
    case Ok(defs) =>
      assert lin == [] ==> lin + defs == defs;
      Ok(lin + defs)
  }

  lemma AfterStep(lin: seq<SetDef>, def: SetDef, rest: Result<seq<SetDef>, ResolveError>)
    ensures After(lin, After([def], rest)) == After(lin + [def], rest)
  {
    if rest.Ok? {
      assert lin + ([def] + rest.value) == lin + [def] + rest.value;
    }
  }

  /** Computes the definition chain of an instruction set. It stops on every registry. */
  method Lineage(reg: Registry, toplevel: string) returns (r: Result<seq<SetDef>, ResolveError>)
    requires toplevel in reg
    ensures match Chain(reg, toplevel, {})
            case Err(e) => r == Err(e)
            case Ok(chain) => r == Ok(Reversed(chain))
  {
    var visited: set<string> := {};
    var lin: seq<SetDef> := [];
    var key := toplevel;
    while true
      invariant key in reg
      invariant Chain(reg, toplevel, {}) == After(lin, Chain(reg, key, visited))
      decreases reg.Keys - visited
    {
      if key in visited {
        return Err(ParentCycle);
      }
      var def := reg[key];
      visited := visited + {key};
      ghost var shorter := lin;
      lin := lin + [def];
      if def.parent == "" {
        break;
      }
      if def.parent !in reg {
        return Err(UnknownParent);
      }
      AfterStep(shorter, def, Chain(reg, def.parent, visited));
      key := def.parent;
    }
    r := Ok(Reversed(lin));
  }

  // ----- resolving definitions -----

  datatype OpTable = OpTable(byName: map<string, Op>, byCode: map<Byte, Op>, opRemoved: map<string, string>)

  function WithoutKey<K, V>(m: map<K, V>, key: K): map<K, V> {
    map k | k in m && k != key :: m[k]
  }

  function Removed(t: OpTable, op: Op, fork: string): Result<OpTable, ResolveError> {
    if op.name !in t.byName then Err(RemovedNotDefined)
    else if op.code !in t.byCode then Err(RemovedCodeNotDefined)
    else Ok(OpTable(WithoutKey(t.byName, op.name), WithoutKey(t.byCode, op.code), t.opRemoved[op.name := fork]))
  }

  function Added(t: OpTable, op: Op): Result<OpTable, ResolveError> {
    if op.name in t.byName then Err(NameAddedTwice)
    else if op.code in t.byCode then Err(CodeAddedTwice)
    else Ok(OpTable(t.byName[op.name := op], t.byCode[op.code := op], WithoutKey(t.opRemoved, op.name)))
  }

  function RemovedAll(t: OpTable, ops: seq<Op>, fork: string): Result<OpTable, ResolveError>
    decreases |ops|
  {
    if ops == [] then Ok(t)
    else
      match Removed(t, ops[0], fork)
      case Err(e) => Err(e)
      case Ok(t') => RemovedAll(t', ops[1..], fork)
  }

  function AddedAll(t: OpTable, ops: seq<Op>): Result<OpTable, ResolveError>
    decreases |ops|
  {
    if ops == [] then Ok(t)
    else
      match Added(t, ops[0])
      case Err(e) => Err(e)
      case Ok(t') => AddedAll(t', ops[1..])
  }

  function ResolvedDefs(t: OpTable, defs: seq<SetDef>): Result<OpTable, ResolveError>
    decreases |defs|
  {
    if defs == [] then Ok(t)
    else
      match RemovedAll(t, defs[0].removed, defs[0].name)
      case Err(e) => Err(e)
      case Ok(t1) =>
        match AddedAll(t1, defs[0].added)
        case Err(e) => Err(e)
        case Ok(t2) => ResolvedDefs(t2, defs[1..])
  }

  const EMPTY_TABLE: OpTable := OpTable(map[], map[], map[])

  /** byName and byCode hold the same operations, each under its own name and its own code. */
  ghost predicate Inverse(t: OpTable) {
    && (forall n :: n in t.byName ==> t.byName[n].name == n && t.byName[n].code in t.byCode && t.byCode[t.byName[n].code] == t.byName[n])
    && (forall c :: c in t.byCode ==> t.byCode[c].code == c && t.byCode[c].name in t.byName && t.byName[t.byCode[c].name] == t.byCode[c])
  }

  /** All operations come from one table in which a name belongs to one operation. */
  ghost predicate FromTable(table: map<string, Op>, ops: seq<Op>) {
    forall i :: 0 <= i < |ops| ==> ops[i].name in table && table[ops[i].name] == ops[i]
  }

  ghost predicate DefsFromTable(table: map<string, Op>, defs: seq<SetDef>) {
    forall i :: 0 <= i < |defs| ==> FromTable(table, defs[i].added) && FromTable(table, defs[i].removed)
  }

  ghost predicate TableSubset(table: map<string, Op>, t: OpTable) {
    forall n :: n in t.byName ==> n in table && table[n] == t.byName[n]
  }

  /** Removal keeps the two indexes inverse exactly if name and code denote the same operation. */
  lemma RemovedInverse(t: OpTable, op: Op, fork: string)
    requires Inverse(t) && Removed(t, op, fork).Ok?
    ensures Inverse(Removed(t, op, fork).value) <==> t.byName[op.name] == t.byCode[op.code]
  {
    var r := Removed(t, op, fork).value;
    if t.byName[op.name] != t.byCode[op.code] {
      var x := t.byName[op.name];
      assert x.code in t.byCode && t.byCode[x.code] == x;
      assert x.code != op.code;
      assert x.code in r.byCode && r.byCode[x.code].name !in r.byName;
    }
  }

  lemma {:induction false} RemovedAllInverse(table: map<string, Op>, t: OpTable, ops: seq<Op>, fork: string)
    requires Inverse(t) && TableSubset(table, t) && FromTable(table, ops)
    ensures var r := RemovedAll(t, ops, fork); r.Ok? ==> Inverse(r.value) && TableSubset(table, r.value)
    decreases |ops|
  {
    if ops != [] && Removed(t, ops[0], fork).Ok? {
      assert table[ops[0].name] == ops[0] == t.byName[ops[0].name];
      RemovedInverse(t, ops[0], fork);
      RemovedAllInverse(table, Removed(t, ops[0], fork).value, ops[1..], fork);
    }
  }

  lemma {:induction false} AddedAllInverse(table: map<string, Op>, t: OpTable, ops: seq<Op>)
    requires Inverse(t) && TableSubset(table, t) && FromTable(table, ops)
    ensures var r := AddedAll(t, ops); r.Ok? ==> Inverse(r.value) && TableSubset(table, r.value)
    decreases |ops|
  {
    if ops != [] && Added(t, ops[0]).Ok? {
      assert table[ops[0].name] == ops[0];
      AddedAllInverse(table, Added(t, ops[0]).value, ops[1..]);
    }
  }

  /** Definitions keep the two indexes inverse if their operations are identified by name. */
  lemma {:induction false} ResolvedInverse(table: map<string, Op>, t: OpTable, defs: seq<SetDef>)
    requires Inverse(t) && TableSubset(table, t) && DefsFromTable(table, defs)
    ensures var r := ResolvedDefs(t, defs); r.Ok? ==> Inverse(r.value) && TableSubset(table, r.value)
    decreases |defs|
  {
    if defs != [] {
      assert FromTable(table, defs[0].added) && FromTable(table, defs[0].removed);
      var t1 := RemovedAll(t, defs[0].removed, defs[0].name);
      RemovedAllInverse(table, t, defs[0].removed, defs[0].name);
      if t1.Ok? {
        AddedAllInverse(table, t1.value, defs[0].added);
        var t2 := AddedAll(t1.value, defs[0].added);
        if t2.Ok? {
          ResolvedInverse(table, t2.value, defs[1..]);
        }
      }
    }
  }

  /** The table of an instruction set, or why it has none. */
  function Resolved(reg: Registry, key: string): Result<OpTable, ResolveError>
    requires key in reg
  {
    match Chain(reg, key, {})
    case Err(e) => Err(e)
    case Ok(chain) => ResolvedDefs(EMPTY_TABLE, Reversed(chain))
  }

  /** All instruction sets add and remove operations of one table. */
  ghost predicate RegistryFromTable(table: map<string, Op>, reg: Registry) {
    forall key :: key in reg ==> FromTable(table, reg[key].added) && FromTable(table, reg[key].removed)
  }

  lemma ChainFromTable(table: map<string, Op>, reg: Registry, key: string)
    requires key in reg && RegistryFromTable(table, reg) && Chain(reg, key, {}).Ok?
    ensures DefsFromTable(table, Reversed(Chain(reg, key, {}).value))
  {
    ChainAncestors(reg, key, {});
    hide Chain, FromTable;
    var chain := Chain(reg, key, {}).value;
    forall i | 0 <= i < |chain|
      ensures FromTable(table, Reversed(chain)[i].added) && FromTable(table, Reversed(chain)[i].removed)
    {
      var a := Ancestor(reg, key, |chain| - 1 - i);
      assert chain[|chain| - 1 - i] == reg[a.value];
    }
  }

  /** In every instruction set of such a registry, looking up by name and looking up by code are mutual inverses. */
  lemma RegistryInverse(table: map<string, Op>, reg: Registry, key: string)
    requires key in reg && RegistryFromTable(table, reg) && Resolved(reg, key).Ok?
    ensures Inverse(Resolved(reg, key).value)
  {
    ChainFromTable(table, reg, key);
    hide Chain, DefsFromTable, RegistryFromTable, ResolvedDefs;
    ResolvedInverse(table, EMPTY_TABLE, Reversed(Chain(reg, key, {}).value));
  }

  /** An EVM instruction set. */
  class InstructionSet {
    var byName: map<string, Op>
    var byCode: map<Byte, Op>
    var opRemoved: map<string, string>

    function Table(): OpTable
      reads this
    {
      OpTable(byName, byCode, opRemoved)
    }

    constructor ()
      ensures Table() == EMPTY_TABLE
    {
      byName, byCode, opRemoved := map[], map[], map[];
    }

    /** Computes the full opcode set of a fork from its lineage. */
    method ResolveDefs(reg: Registry, toplevel: string) returns (err: Option<ResolveError>)
      requires toplevel in reg
      requires Table() == EMPTY_TABLE
      modifies this
      ensures match Resolved(reg, toplevel)
              case Err(e) => err == Some(e)
              case Ok(t) => err.None? && Table() == t
    {
      hide Removed, Added, Chain;
      var lin := Lineage(reg, toplevel);
      if lin.Err? {
        return Some(lin.error);
      }
      var defs := lin.value;
      assert defs[0..] == defs;
      for i := 0 to |defs|
        invariant ResolvedDefs(Table(), defs[i..]) == ResolvedDefs(EMPTY_TABLE, defs)
      {
        var def := defs[i];
        assert defs[i..][0] == def && defs[i..][1..] == defs[i + 1..];
        err := RemoveOps(def.removed, def.name);
        if err.Some? {
          return;
        }
        err := AddOps(def.added);
        if err.Some? {
          return;
        }
      }
      err := None;
    }

    method RemoveOps(ops: seq<Op>, fork: string) returns (err: Option<ResolveError>)
      modifies this
      ensures match RemovedAll(old(Table()), ops, fork)
              case Err(e) => err == Some(e)
              case Ok(t) => err.None? && Table() == t
    {
      assert ops[0..] == ops;
      for i := 0 to |ops|
        invariant RemovedAll(Table(), ops[i..], fork) == RemovedAll(old(Table()), ops, fork)
      {
        var op := ops[i];
        assert ops[i..][0] == op && ops[i..][1..] == ops[i + 1..];
        if op.name !in byName {
          return Some(RemovedNotDefined);
        }
        if op.code !in byCode {
          return Some(RemovedCodeNotDefined);
        }
        byName := WithoutKey(byName, op.name);
        byCode := WithoutKey(byCode, op.code);
        opRemoved := opRemoved[op.name := fork];
      }
      err := None;
    }

    method AddOps(ops: seq<Op>) returns (err: Option<ResolveError>)
      modifies this
      ensures match AddedAll(old(Table()), ops)
              case Err(e) => err == Some(e)
              case Ok(t) => err.None? && Table() == t
    {
      assert ops[0..] == ops;
      for i := 0 to |ops|
        invariant AddedAll(Table(), ops[i..]) == AddedAll(old(Table()), ops)
      {
        var op := ops[i];
        assert ops[i..][0] == op && ops[i..][1..] == ops[i + 1..];
        if op.name in byName {
          return Some(NameAddedTwice);
        }
        var before := byName;
        byName := byName[op.name := op];
        if op.code in byCode {
          return Some(CodeAddedTwice);
        }
        byCode := byCode[op.code := op];
        opRemoved := WithoutKey(opRemoved, op.name);
      }
      err := None;
    }
  }

  // ----- lookups -----

  function PushName(size: nat): string {
    "PUSH" + Decimal(size)
  }

  /** Resolves a push operation by its size. */
  function PushBySize(t: OpTable, size: nat): Option<Op> {
    if PushName(size) in t.byName then Some(t.byName[PushName(size)]) else None
  }

  predicate IsPush(name: string) {
    |name| >= 4 && name[..4] == "PUSH"
  }

  /** The size in the name of a push operation; zero for a name without number. */
  function PushSize(name: string): int {
    var digits := if IsPush(name) then name[4..] else name;
    match SetString(digits, 10)
    case Some(n) => n
    case None => 0
  }

  lemma PushNameSize(size: nat)
    ensures IsPush(PushName(size)) && PushSize(PushName(size)) == size
  {
    assert PushName(size)[4..] == Decimal(size);
    DecimalRoundTrip(size);
  }
}
