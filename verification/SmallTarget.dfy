/** A small instruction set that meets all conditions on instruction sets. */
module SmallTarget {
  import opened Base
  import opened Numerals
  import opened Lzint
  import opened EvmOps
  import opened InstructionSets
  import opened Expansion
  import opened CompilerProg
  import opened CodeOutput
  import opened JumpTargets
  import opened DisasmParses
  import opened DisasmRoundTrip
  import Lexer
  import R = ExprRoundTrip

  const STOP_CODE: Byte := 0x00
  const JUMP_CODE: Byte := 0x56
  const DUPN_CODE: Byte := 0xe6

  /** STOP, JUMP, JUMPDEST, DUPN and all pushes. */
  predicate IsCode(c: int): (r: bool)
    ensures r ==> 0 <= c < 256
  {
    c == STOP_CODE || c == JUMP_CODE || c == JUMPDEST_CODE || c == DUPN_CODE || 0x5f <= c <= 0x7f
  }

  function OpWithCode(c: Byte): (op: Op)
    requires IsCode(c)
    ensures op.code == c
  {
    if c == STOP_CODE then Op("STOP", c, [], [], false, true, false, false, false, false)
    else if c == JUMP_CODE then Op("JUMP", c, ["label"], [], false, false, true, true, false, false)
    else if c == JUMPDEST_CODE then Op("JUMPDEST", c, [], [], false, false, false, false, true, false)
    else if c == DUPN_CODE then Op("DUPN", c, [], [], false, false, false, false, false, true)
    else Op(PushName(c - 0x5f), c, [], ["val"], true, false, false, false, false, false)
  }

  function CodeOfName(name: string): int {
    if name == "STOP" then STOP_CODE
    else if name == "JUMP" then JUMP_CODE
    else if name == "JUMPDEST" then JUMPDEST_CODE
    else if name == "DUPN" then DUPN_CODE
    else 0x5f + PushSize(name)
  }

  lemma PlainNames()
    ensures !IsPush("STOP") && !IsPush("JUMP") && !IsPush("JUMPDEST") && !IsPush("DUPN")
  {
    assert "STOP"[..4][0] == 'S' && "JUMP"[..4][0] == 'J' && "JUMPDEST"[..4][0] == 'J' && "DUPN"[..4][0] == 'D' && "PUSH"[0] == 'P';
  }

  lemma CodeOfOp(c: Byte)
    requires IsCode(c)
    ensures CodeOfName(OpWithCode(c).name) == c
    ensures IsPush(OpWithCode(c).name) <==> 0x5f <= c <= 0x7f
  {
    PlainNames();
    if 0x5f <= c <= 0x7f {
      PushNameSize(c - 0x5f);
    }
    hide PushName, IsPush, PushSize;
  }

  function Names(): (s: set<string>)
    ensures forall c: Byte :: IsCode(c) ==> OpWithCode(c).name in s
    ensures forall name :: name in s ==> exists c: Byte :: IsCode(c) && OpWithCode(c).name == name
  {
    set c: Byte | IsCode(c) :: OpWithCode(c).name
  }

  lemma NameHasCode(name: string)
    requires name in Names()
    ensures IsCode(CodeOfName(name)) && OpWithCode(CodeOfName(name)).name == name
  {
    var c: Byte :| IsCode(c) && OpWithCode(c).name == name;
    CodeOfOp(c);
  }

  lemma NamesHaveCodes()
    ensures forall name :: name in Names() ==> IsCode(CodeOfName(name)) && OpWithCode(CodeOfName(name)).name == name
  {
    hide Names, IsCode, CodeOfName, OpWithCode;
    forall name | name in Names()
      ensures IsCode(CodeOfName(name)) && OpWithCode(CodeOfName(name)).name == name
    {
      NameHasCode(name);
    }
  }

  ghost function ByName(): (m: map<string, Op>)
    ensures m.Keys == Names()
    ensures forall name :: name in m ==> IsCode(CodeOfName(name)) && m[name] == OpWithCode(CodeOfName(name)) && m[name].name == name
  {
    NamesHaveCodes();
    map name | name in Names() :: OpWithCode(CodeOfName(name))
  }

  function ByCode(): (m: map<Byte, Op>)
    ensures forall c: Byte :: c in m <==> IsCode(c)
    ensures forall c: Byte :: c in m ==> m[c] == OpWithCode(c)
  {
    map c: Byte | IsCode(c) :: OpWithCode(c)
  }

  ghost function SmallTable(): OpTable {
    OpTable(ByName(), ByCode(), map[])
  }

  ghost function Small(): Target {
    Target(ByName(), SmallTable())
  }

  lemma SmallHas(c: Byte)
    requires IsCode(c)
    ensures OpWithCode(c).name in ByName() && ByName()[OpWithCode(c).name] == OpWithCode(c)
  {
    CodeOfOp(c);
  }

  lemma SmallInverse()
    ensures Inverse(SmallTable())
  {
    hide OpWithCode, CodeOfName, IsCode;
    forall name | name in ByName()
      ensures var op := ByName()[name]; op.name == name && op.code in ByCode() && ByCode()[op.code] == op
    {
    }
    forall c | c in ByCode()
      ensures var op := ByCode()[c]; op.code == c && op.name in ByName() && ByName()[op.name] == op
    {
      SmallHas(c);
    }
  }

  lemma SmallPush(n: nat)
    requires n <= 32
    ensures PushName(n) in ByName() && ByName()[PushName(n)].code == 0x5f + n
  {
    SmallHas(0x5f + n);
    hide PushName;
  }

  /** What every operation of the set meets. */
  ghost predicate GoodOp(t: Target, name: string)
    requires name in t.fork.byName
  {
    var op := t.fork.byName[name];
    && (IsPush(name) <==> op.push)
    && (op.push ==> !op.jump && !op.hasImmediate && exists n: nat :: n <= 32 && name == PushName(n))
    && (op.jump ==> !op.hasImmediate)
    && name != "" && name != BYTES && DisasmParses.NameText(name)
  }

  lemma SmallName(name: string)
    requires name in ByName()
    ensures GoodOp(Small(), name)
  {
    var c := CodeOfName(name);
    CodeOfOp(c);
    if 0x5f <= c <= 0x7f {
      assert name == PushName(c - 0x5f);
      PushText(c - 0x5f);
    } else {
      PlainText(name);
    }
    hide IsPush, PushName, PushSize, NameText;
  }

  lemma PlainText(name: string)
    requires name == "STOP" || name == "JUMP" || name == "JUMPDEST" || name == "DUPN"
    ensures DisasmParses.NameText(name) && name != BYTES && name != ""
  {
    assert BYTES[0] == '#';
    if name == "STOP" {
      assert name[1..] == "TOP";
    } else if name == "JUMP" {
      assert name[1..] == "UMP";
    } else if name == "JUMPDEST" {
      assert name[1..] == "UMPDEST";
    } else {
      assert name[1..] == "UPN";
    }
  }

  lemma PushText(n: nat)
    ensures DisasmParses.NameText(PushName(n)) && PushName(n) != BYTES && PushName(n) != ""
  {
    var name := PushName(n);
    var d := Decimal(n);
    assert name == "PUSH" + d && name[1..] == "USH" + d && BYTES[0] == '#' && name[0] == 'P';
    forall i | 0 <= i < |name[1..]|
      ensures Lexer.IsIdent(name[1..][i]) && !('a' <= name[1..][i] <= 'z')
    {
      if i >= 3 {
        assert name[1..][i] == d[i - 3];
        assert IsDigit(d[i - 3]);
      }
    }
    forall i | 0 <= i < |name|
      ensures !('a' <= name[i] <= 'z')
    {
      if i > 0 {
        assert name[i] == name[1..][i - 1];
      }
    }
  }

  /** Pushes of all sizes and JUMPDEST, with the codes of the EVM. */
  ghost predicate GoodCodes(t: Target) {
    && "JUMPDEST" in t.fork.byName && t.fork.byName["JUMPDEST"].code == JUMPDEST_CODE
    && forall n: nat :: n <= 32 ==> PushName(n) in t.fork.byName && t.fork.byName[PushName(n)].code == 0x5f + n
  }

  lemma GoodIsMachine(t: Target)
    requires t.table == t.fork.byName
    requires Inverse(t.fork) && GoodCodes(t) && forall name :: name in t.fork.byName ==> GoodOp(t, name)
    ensures MachineCodes(t)
  {
    hide IsPush, PushName, NameText;
  }

  lemma GoodIsPrintable(t: Target)
    requires Inverse(t.fork) && forall name :: name in t.fork.byName ==> GoodOp(t, name)
    ensures DisasmParses.Printable(t.fork)
  {
    hide IsPush, PushName, NameText;
    forall c | c in t.fork.byCode
      ensures DisasmParses.NameText(t.fork.byCode[c].name) && (t.fork.byCode[c].push <==> IsPush(t.fork.byCode[c].name))
    {
      assert GoodOp(t, t.fork.byCode[c].name);
    }
  }

  lemma GoodRoundTrips(t: Target)
    requires t.table == t.fork.byName
    requires Inverse(t.fork) && GoodCodes(t) && forall name :: name in t.fork.byName ==> GoodOp(t, name)
    ensures RoundTripTarget(t) && CompleteTarget(t) && ValidTarget(t)
  {
    GoodIsMachine(t);
    GoodIsPrintable(t);
    hide GoodCodes, IsPush, PushName, NameText, Inverse, Printable;
    assert forall name :: name in t.fork.byName && IsJump(t, name) ==> GoodOp(t, name);
  }

  lemma SmallCodes()
    ensures GoodCodes(Small())
  {
    SmallHas(JUMPDEST_CODE);
    hide ByName, PushName, CodeOfName, IsCode;
    forall n: nat | n <= 32
      ensures PushName(n) in ByName() && ByName()[PushName(n)].code == 0x5f + n
    {
      SmallPush(n);
    }
  }

  /** The conditions on instruction sets can be met. */
  lemma SmallIsTarget()
    ensures RoundTripTarget(Small()) && MachineCodes(Small()) && CompleteTarget(Small()) && ValidTarget(Small())
  {
    SmallInverse();
    SmallCodes();
    hide Inverse, GoodOp, GoodCodes, ByName, ByCode, MachineCodes, CompleteTarget, ValidTarget, Printable;
    forall name | name in Small().fork.byName
      ensures GoodOp(Small(), name)
    {
      SmallName(name);
    }
    GoodRoundTrips(Small());
  }
}
