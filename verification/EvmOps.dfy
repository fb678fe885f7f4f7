/** EVM operations and the immediate bytes of DUPN, SWAPN and EXCHANGE (internal/evm/ops.go). */
module EvmOps {
  import opened Base
  import opened Numerals
  import opened SymbolicStack
  import opened Tracking

  datatype Op = Op(
    name: string,
    code: Byte,
    ins: seq<string>,
    outs: seq<string>,
    push: bool,
    term: bool,
    jump: bool,
    unconditional: bool,
    jumpDest: bool,
    hasImmediate: bool)

  predicate IsSingle(name: string) {
    name == "DUPN" || name == "SWAPN"
  }

  // ----- immediate bytes -----

  predicate ValidImmediate(name: string, imm: Byte) {
    if IsSingle(name) then imm <= 0x5a || imm >= 0x80
    else if name == "EXCHANGE" then imm <= 0x4f || imm >= 0xd0
    else false
  }

  function DecodeSingle(x: Byte): nat {
    if x <= 90 then x + 17 else x - 20
  }

  function DecodePair(x: Byte): (nat, nat) {
    var k := if x <= 79 then x else x - 48;
    var q, r := k / 16, k % 16;
    if q < r then (q + 1, r + 1) else (r + 1, 29 - q)
  }

  function DecodeImmediate(name: string, imm: Byte): seq<int> {
    if IsSingle(name) then [DecodeSingle(imm)]
    else if name == "EXCHANGE" then [DecodePair(imm).0, DecodePair(imm).1]
    else []
  }

  function EncodeSingle(depth: int): Option<Byte> {
    if 17 <= depth <= 107 then Some(depth - 17)
    else if 108 <= depth <= 235 then Some(depth + 20)
    else None
  }

  function EncodePair(n: int, m: int): Option<Byte> {
    if n < 1 || n > 13 then None
    else if m <= n || m > 29 then None
    else if n + m > 30 then None
    else
      var (q, r) := if m <= 16 then (n - 1, m - 1) else (29 - m, n - 1);
      var k := q * 16 + r;
      Some(if k > 79 then k + 48 else k)
  }

  function EncodeImmediateArgs(name: string, args: seq<int>): Option<Byte> {
    if IsSingle(name) then
      if |args| != 1 then None else EncodeSingle(args[0])
    else if name == "EXCHANGE" then
      if |args| != 2 then None else EncodePair(args[0], args[1])
    else None
  }

  /** The bytes that can follow an operation with immediate in assembled code. */
  ghost predicate Emitted(name: string, imm: Byte) {
    exists args :: EncodeImmediateArgs(name, args) == Some(imm)
  }

  lemma PairBounds(x: Byte)
    requires x <= 79 || x >= 128
    ensures var (n, m) := DecodePair(x);
            && 1 <= n <= 13 && n < m <= 29 && n + m <= 30
            && EncodePair(n, m) == Some(x)
  {
    var k := if x <= 79 then x else x - 48;
    var q, r := k / 16, k % 16;
    assert q * 16 + r == k && 0 <= q <= 12;
  }

  lemma EncodedPair(n: int, m: int)
    requires EncodePair(n, m).Some?
    ensures var b := EncodePair(n, m).value;
            DecodePair(b) == (n, m) && (b <= 79 || b >= 128)
  {
    var (q, r) := if m <= 16 then (n - 1, m - 1) else (29 - m, n - 1);
    var k := q * 16 + r;
    assert k / 16 == q && k % 16 == r;
  }

  /** Decoding inverts encoding for all integer arguments. */
  lemma DecodeEncoded(name: string, args: seq<int>)
    requires EncodeImmediateArgs(name, args).Some?
    ensures DecodeImmediate(name, EncodeImmediateArgs(name, args).value) == args
  {
    if name == "EXCHANGE" {
      EncodedPair(args[0], args[1]);
    }
  }

  /** Encoding inverts decoding for every byte that the disassembler accepts. */
  lemma EncodeDecoded(name: string, imm: Byte)
    requires ValidImmediate(name, imm)
    ensures EncodeImmediateArgs(name, DecodeImmediate(name, imm)) == Some(imm)
  {
    if name == "EXCHANGE" {
      PairBounds(imm);
    }
  }

  /** Which bytes encoding emits: all outside of 0x5b..0x7f, and for EXCHANGE outside of 0x50..0x7f. */
  lemma EmittedBytes(name: string, imm: Byte)
    ensures Emitted(name, imm) <==>
            (IsSingle(name) && (imm <= 0x5a || imm >= 0x80)) || (name == "EXCHANGE" && (imm <= 0x4f || imm >= 0x80))
  {
    if IsSingle(name) && (imm <= 0x5a || imm >= 0x80) {
      assert EncodeImmediateArgs(name, [DecodeSingle(imm)]) == Some(imm);
    }
    if name == "EXCHANGE" && (imm <= 0x4f || imm >= 0x80) {
      PairBounds(imm);
      assert EncodeImmediateArgs(name, [DecodePair(imm).0, DecodePair(imm).1]) == Some(imm);
    }
    if Emitted(name, imm) && name == "EXCHANGE" {
      var args :| EncodeImmediateArgs(name, args) == Some(imm);
      EncodedPair(args[0], args[1]);
    }
  }

  /** No immediate that encoding emits looks like a JUMPDEST or a PUSH to a linear sweep. */
  lemma EmittedNotCode(name: string, args: seq<int>)
    requires EncodeImmediateArgs(name, args).Some?
    ensures var b := EncodeImmediateArgs(name, args).value;
            !(0x5b <= b <= 0x7f)
  {
    var b := EncodeImmediateArgs(name, args).value;
    assert Emitted(name, b);
    EmittedBytes(name, b);
  }

  /** The disassembler refuses exactly the EXCHANGE bytes 0x80..0xcf among those that encoding emits. */
  lemma ValidVersusEmitted(name: string, imm: Byte)
    ensures ValidImmediate(name, imm) <==> Emitted(name, imm) && !(name == "EXCHANGE" && 0x80 <= imm <= 0xcf)
  {
    EmittedBytes(name, imm);
  }

  // ----- stack effects -----

  function StackWord(i: nat): string {
    "v" + Decimal(i)
  }

  function StackWords(n: nat): (r: seq<string>)
    ensures |r| == n
    ensures forall i :: 0 <= i < n ==> r[i] == StackWord(i)
  {
    seq(n, i requires i >= 0 => StackWord(i))
  }

  lemma StackWordsDistinct(n: nat)
    ensures Distinct(StackWords(n))
  {
    forall i, j | 0 <= i < j < n
      ensures StackWord(i) != StackWord(j)
    {
      if StackWord(i) == StackWord(j) {
        assert StackWord(i)[1..] == StackWord(j)[1..];
        DecimalInjective(i, j);
      }
    }
  }

  function Swapped<T>(s: seq<T>, i: nat, j: nat): seq<T>
    requires i < |s| && j < |s|
  {
    s[i := s[j]][j := s[i]]
  }

  function ExchangeDepth(imm: Byte): nat {
    Max(DecodePair(imm).0, DecodePair(imm).1)
  }

  lemma ExchangePositions(imm: Byte)
    ensures var (n, m) := DecodePair(imm); n >= 1 && m >= 1
  {
  }

  function StackIn(op: Op, imm: Byte): seq<string> {
    if op.name == "EXCHANGE" then StackWords(ExchangeDepth(imm))
    else if IsSingle(op.name) then StackWords(DecodeSingle(imm))
    else op.ins
  }

  function DupnOut(imm: Byte): seq<string> {
    var depth := DecodeSingle(imm);
    [StackWord(depth - 1)] + StackWords(depth)
  }

  function StackOut(op: Op, imm: Byte): seq<string> {
    if op.name == "EXCHANGE" then
      ExchangePositions(imm);
      var (n, m) := DecodePair(imm);
      Swapped(StackWords(ExchangeDepth(imm)), n - 1, m - 1)
    else if op.name == "SWAPN" then
      var depth := DecodeSingle(imm);
      Swapped(StackWords(depth), 0, depth - 1)
    else if op.name == "DUPN" then DupnOut(imm)
    else op.outs
  }

  /** Fills a slice with the duplicated item on top of the others. */
  method DupnStackOut(imm: Byte) returns (out: seq<string>)
    ensures out == DupnOut(imm)
  {
    var depth := DecodeSingle(imm);
    assert depth > 0;
    hide DecodeSingle, StackWord;
    var stk := new string[depth + 1](_ => "");
    stk[0] := StackWord(depth - 1);
    for i := 0 to depth
      invariant stk[0] == StackWord(depth - 1)
      invariant forall k :: 0 <= k < i ==> stk[k + 1] == StackWord(k)
    {
      stk[i + 1] := StackWord(i);
    }
    out := stk[..];
    DupWords(out, depth);
  }

  lemma DupWords(out: seq<string>, depth: nat)
    requires depth > 0 && |out| == depth + 1 && out[0] == StackWord(depth - 1)
    requires forall k :: 0 <= k < depth ==> out[k + 1] == StackWord(k)
    ensures out == [StackWord(depth - 1)] + StackWords(depth)
  {
    hide StackWord;
    var words := [StackWord(depth - 1)] + StackWords(depth);
    forall k | 0 <= k < |out|
      ensures out[k] == words[k]
    {
      if k > 0 {
        assert out[k - 1 + 1] == StackWord(k - 1);
      }
    }
  }

  /** Fills a slice with the stack words and swaps two of them in place. */
  method SwapStackOut(depth: nat, i: nat, j: nat) returns (out: seq<string>)
    requires i < depth && j < depth
    ensures out == Swapped(StackWords(depth), i, j)
  {
    hide StackWord;
    var stk := new string[depth](_ => "");
    for k := 0 to depth
      invariant forall l :: 0 <= l < k ==> stk[l] == StackWord(l)
    {
      stk[k] := StackWord(k);
    }
    assert stk[..] == StackWords(depth);
    stk[i], stk[j] := stk[j], stk[i];
    out := stk[..];
  }

  // ----- the declared effects are the machine's -----

  lemma SwapEffect(depth: nat, i: nat, j: nat, w: seq<Word>, w': seq<Word>)
    requires i < depth && j < depth
    ensures OpStep(StackOp(StackWords(depth), Swapped(StackWords(depth), i, j)), w, w')
            <==> |w| >= depth && w' == Swapped(w, i, j)
  {
    StackWordsDistinct(depth);
    var ins := StackWords(depth);
    var outs := Swapped(ins, i, j);
    if OpStep(StackOp(ins, outs), w, w') {
      forall k | 0 <= k < |w|
        ensures w'[k] == Swapped(w, i, j)[k]
      {
        if k >= depth {
          assert w'[depth..][k - depth] == w[depth..][k - depth];
        } else {
          var src := if k == j then i else if k == i then j else k;
          assert outs[k] == ins[src];
        }
      }
    }
    if |w| >= depth && w' == Swapped(w, i, j) {
      assert w'[depth..] == w[depth..];
    }
  }

  lemma DupEffect(depth: nat, w: seq<Word>, w': seq<Word>)
    requires depth >= 1
    ensures OpStep(StackOp(StackWords(depth), [StackWord(depth - 1)] + StackWords(depth)), w, w')
            <==> |w| >= depth && w' == [w[depth - 1]] + w
  {
    StackWordsDistinct(depth);
    var ins := StackWords(depth);
    var outs := [StackWord(depth - 1)] + ins;
    if OpStep(StackOp(ins, outs), w, w') {
      forall k | 0 <= k < |w'|
        ensures w'[k] == ([w[depth - 1]] + w)[k]
      {
        if k > depth {
          assert w'[depth + 1..][k - depth - 1] == w[depth..][k - depth - 1];
        } else {
          assert outs[k] == ins[if k == 0 then depth - 1 else k - 1];
        }
      }
    }
    if |w| >= depth && w' == [w[depth - 1]] + w {
      assert w'[depth + 1..] == w[depth..];
    }
  }

  /**
   * DUPN, SWAPN and EXCHANGE do on the concrete stack exactly what their decoded immediate says:
   * duplicate the n-th item, swap the top with the n-th, swap the n-th with the m-th.
   */
  lemma ImmediateEffects(op: Op, imm: Byte, w: seq<Word>, w': seq<Word>)
    requires IsSingle(op.name) || op.name == "EXCHANGE"
    ensures Distinct(StackIn(op, imm))
    ensures OpStep(StackOp(StackIn(op, imm), StackOut(op, imm)), w, w') <==>
            (if op.name == "DUPN" then
               var n := DecodeSingle(imm); |w| >= n && w' == [w[n - 1]] + w
             else if op.name == "SWAPN" then
               var n := DecodeSingle(imm); |w| >= n && w' == Swapped(w, 0, n - 1)
             else
               var (n, m) := DecodePair(imm); n >= 1 && m >= 1 && |w| >= Max(n, m) && w' == Swapped(w, n - 1, m - 1))
  {
    if op.name == "DUPN" {
      StackWordsDistinct(DecodeSingle(imm));
      DupEffect(DecodeSingle(imm), w, w');
    } else if op.name == "SWAPN" {
      StackWordsDistinct(DecodeSingle(imm));
      SwapEffect(DecodeSingle(imm), 0, DecodeSingle(imm) - 1, w, w');
    } else {
      ExchangePositions(imm);
      StackWordsDistinct(ExchangeDepth(imm));
      SwapEffect(ExchangeDepth(imm), DecodePair(imm).0 - 1, DecodePair(imm).1 - 1, w, w');
    }
  }
}
