/** The part of the Bitcoin opcode set the core relies on, and the encoding of
    a decoded instruction back to script bytes (the minimal push encoding of
    rust-bitcoin's `ScriptBuf::push_slice`). */
module Opcodes {

  type byte = b: int | 0 <= b < 0x100

  /** A data push carries fewer than 2^32 bytes (rust-bitcoin's `PushBytes`). */
  type PushData = d: seq<byte> | |d| < 0x1_0000_0000

  const OP_0: byte := 0x00
  const OP_PUSHDATA1: byte := 0x4c
  const OP_PUSHDATA2: byte := 0x4d
  const OP_PUSHDATA4: byte := 0x4e
  const OP_PUSHNUM_NEG1: byte := 0x4f
  const OP_RESERVED: byte := 0x50
  const OP_PUSHNUM_1: byte := 0x51
  const OP_PUSHNUM_2: byte := 0x52
  const OP_PUSHNUM_16: byte := 0x60
  const OP_NOP: byte := 0x61
  const OP_IF: byte := 0x63
  const OP_NOTIF: byte := 0x64
  const OP_ELSE: byte := 0x67
  const OP_ENDIF: byte := 0x68
  const OP_VERIFY: byte := 0x69
  const OP_TOALTSTACK: byte := 0x6b
  const OP_FROMALTSTACK: byte := 0x6c
  const OP_2DROP: byte := 0x6d
  const OP_2DUP: byte := 0x6e
  const OP_3DUP: byte := 0x6f
  const OP_2OVER: byte := 0x70
  const OP_2ROT: byte := 0x71
  const OP_2SWAP: byte := 0x72
  const OP_IFDUP: byte := 0x73
  const OP_DEPTH: byte := 0x74
  const OP_DROP: byte := 0x75
  const OP_DUP: byte := 0x76
  const OP_NIP: byte := 0x77
  const OP_OVER: byte := 0x78
  const OP_PICK: byte := 0x79
  const OP_ROLL: byte := 0x7a
  const OP_ROT: byte := 0x7b
  const OP_SWAP: byte := 0x7c
  const OP_TUCK: byte := 0x7d
  const OP_SIZE: byte := 0x82
  const OP_EQUAL: byte := 0x87
  const OP_EQUALVERIFY: byte := 0x88
  const OP_1ADD: byte := 0x8b
  const OP_1SUB: byte := 0x8c
  const OP_NEGATE: byte := 0x8f
  const OP_ABS: byte := 0x90
  const OP_NOT: byte := 0x91
  const OP_0NOTEQUAL: byte := 0x92
  const OP_ADD: byte := 0x93
  const OP_SUB: byte := 0x94
  const OP_BOOLAND: byte := 0x9a
  const OP_BOOLOR: byte := 0x9b
  const OP_NUMEQUAL: byte := 0x9c
  const OP_NUMEQUALVERIFY: byte := 0x9d
  const OP_NUMNOTEQUAL: byte := 0x9e
  const OP_LESSTHAN: byte := 0x9f
  const OP_GREATERTHAN: byte := 0xa0
  const OP_LESSTHANOREQUAL: byte := 0xa1
  const OP_GREATERTHANOREQUAL: byte := 0xa2
  const OP_MIN: byte := 0xa3
  const OP_MAX: byte := 0xa4
  const OP_WITHIN: byte := 0xa5
  const OP_RIPEMD160: byte := 0xa6
  const OP_SHA1: byte := 0xa7
  const OP_SHA256: byte := 0xa8
  const OP_HASH160: byte := 0xa9
  const OP_HASH256: byte := 0xaa
  const OP_CHECKSIG: byte := 0xac
  const OP_CHECKSIGVERIFY: byte := 0xad
  const OP_NOP1: byte := 0xb0
  const OP_CLTV: byte := 0xb1
  const OP_CSV: byte := 0xb2
  const OP_NOP4: byte := 0xb3
  const OP_NOP10: byte := 0xb9

  /** One decoded script instruction, as rust-bitcoin's `Instruction`:
      an opcode, or a data push holding its bytes. */
  datatype Instruction = Op(code: byte) | PushBytes(data: PushData)

  predicate IsPushNum(op: byte) { OP_PUSHNUM_1 <= op <= OP_PUSHNUM_16 }

  predicate IsFlowOp(op: byte) { op == OP_IF || op == OP_NOTIF || op == OP_ENDIF }

  /** The instruction the decoder reads back after the single byte `op` has
      been written: byte 0 (OP_0) is the empty data push. */
  function Decoded(op: byte): (ins: Instruction)
    ensures op == OP_0 ==> ins == PushBytes([])
    ensures op != OP_0 ==> ins == Op(op)
  {
    if op == OP_0 then PushBytes([]) else Op(op)
  }

  /** Little-endian bytes of `n`, exactly `width` of them. */
  function LittleEndian(n: nat, width: nat): (r: seq<byte>)
    ensures |r| == width
  {
    if width == 0 then [] else [n % 0x100] + LittleEndian(n / 0x100, width - 1)
  }

  /** The opcode prefix of a minimal data push of `n` bytes. */
  function PushPrefix(n: nat): (r: seq<byte>)
    requires n < 0x1_0000_0000
    ensures n < 0x4c ==> r == [n]
    ensures 0x4c <= n < 0x100 ==> r == [OP_PUSHDATA1, n]
    ensures 0x100 <= n < 0x1_0000 ==> |r| == 3 && r[0] == OP_PUSHDATA2
    ensures 0x1_0000 <= n ==> |r| == 5 && r[0] == OP_PUSHDATA4
  {
    if n < 0x4c then [n]
    else if n < 0x100 then [OP_PUSHDATA1, n]
    else if n < 0x1_0000 then [OP_PUSHDATA2] + LittleEndian(n, 2)
    else [OP_PUSHDATA4] + LittleEndian(n, 4)
  }

  function EncodeInstruction(ins: Instruction): (r: seq<byte>)
    ensures ins.Op? ==> r == [ins.code]
    ensures ins.PushBytes? ==> r == PushPrefix(|ins.data|) + ins.data
  {
    match ins
    case Op(code) => [code]
    case PushBytes(data) => PushPrefix(|data|) + data
  }

  /** Bytes of the opcode prefix of a minimal push of `n` data bytes. */
  function PushPrefixLen(n: nat): nat
  {
    if n < 0x4c then 1 else if n < 0x100 then 2 else if n < 0x1_0000 then 3 else 5
  }

  /** Number of script bytes the instruction occupies. */
  function InstructionLen(ins: Instruction): (n: nat)
    ensures n >= 1
    ensures ins.PushBytes? && |ins.data| < 0x4c ==> n == |ins.data| + 1
    ensures ins.PushBytes? && |ins.data| >= 0x4c ==> n > |ins.data| + 1
  {
    match ins
    case Op(_) => 1
    case PushBytes(data) => PushPrefixLen(|data|) + |data|
  }

  lemma EncodeInstructionLen(ins: Instruction)
    ensures |EncodeInstruction(ins)| == InstructionLen(ins)
  {
  }

  lemma ConcatAssoc<T>(a: seq<T>, b: seq<T>, c: seq<T>)
    ensures a + (b + c) == (a + b) + c
  {
  }

  lemma TakeAll<T>(s: seq<T>)
    ensures s[..|s|] == s
  {
  }

  lemma TakeSnoc<T>(s: seq<T>, i: nat)
    requires i < |s|
    ensures s[..i + 1] == s[..i] + [s[i]]
  {
  }

  /** The bytes of a literal run of instructions. */
  function Encode(instrs: seq<Instruction>): seq<byte>
  {
    if instrs == [] then []
    else Encode(instrs[..|instrs| - 1]) + EncodeInstruction(instrs[|instrs| - 1])
  }

  lemma EncodeSnoc(a: seq<Instruction>, x: Instruction)
    ensures |Encode(a + [x])| == |Encode(a)| + InstructionLen(x)
    ensures Encode(a + [x]) == Encode(a) + EncodeInstruction(x)
  {
    assert (a + [x])[..|a|] == a;
  }

  lemma EncodeSingle(x: Instruction)
    ensures Encode([x]) == EncodeInstruction(x) && |Encode([x])| == InstructionLen(x)
  {
    EncodeSnoc([], x);
    assert [] + [x] == [x];
  }

  /** Byte length of a run counted instruction by instruction, without
      producing the bytes. */
  function RunLen(instrs: seq<Instruction>): nat
  {
    if instrs == [] then 0
    else RunLen(instrs[..|instrs| - 1]) + InstructionLen(instrs[|instrs| - 1])
  }

  lemma RunLenSnoc(a: seq<Instruction>, x: Instruction)
    ensures RunLen(a + [x]) == RunLen(a) + InstructionLen(x)
  {
    assert (a + [x])[..|a|] == a;
  }

  /** The count agrees with the length of the encoding. */
  lemma {:induction false} RunLenEncoded(instrs: seq<Instruction>)
    ensures RunLen(instrs) == |Encode(instrs)|
    decreases |instrs|
  {
    if instrs != [] {
      var n := |instrs| - 1;
      var init, x := instrs[..n], instrs[n];
      assert instrs == init + [x];
      RunLenEncoded(init);
      RunLenSnoc(init, x);
      EncodeSnoc(init, x);
    }
  }

  /** Encoding distributes over concatenation of runs. */
  lemma {:induction false} EncodeAppend(a: seq<Instruction>, b: seq<Instruction>)
    ensures Encode(a + b) == Encode(a) + Encode(b)
    decreases |b|
  {
    if b == [] {
      assert a + b == a;
    } else {
      var n := |b| - 1;
      assert a + b == (a + b[..n]) + [b[n]];
      assert b == b[..n] + [b[n]];
      EncodeAppend(a, b[..n]);
      EncodeSnoc(a + b[..n], b[n]);
      EncodeSnoc(b[..n], b[n]);
      ConcatAssoc(Encode(a), Encode(b[..n]), EncodeInstruction(b[n]));
    }
  }

  /** The front view of a non-empty run. */
  lemma EncodeCons(instrs: seq<Instruction>)
    requires instrs != []
    ensures Encode(instrs) == EncodeInstruction(instrs[0]) + Encode(instrs[1..])
  {
    assert instrs == [instrs[0]] + instrs[1..];
    EncodeAppend([instrs[0]], instrs[1..]);
    EncodeSingle(instrs[0]);
  }
}
