/** The structured-script builder of src/builder.rs: every `push_*` returns
    the script extended at its end, keeping the cached size and the IF/ENDIF
    bookkeeping up to date. */
module Builder {
  import opened Wrappers
  import opened Opcodes
  import opened ScriptNum
  import opened Structure

  function New(debugInfo: string): (s: StructuredScript)
    ensures s.size == 0 && s.blocks == [] && s.stackHint == None
    ensures s.ifs == NoIfs && s.debugIdentifier == debugInfo
  {
    StructuredScript(0, None, debugInfo, NoIfs, [])
  }

  function Len(s: StructuredScript): nat
  {
    s.size
  }

  /** The bookkeeping agrees with itself and with a script of `size` bytes:
      the open-IF count is the number of unclosed IFs less the number of
      extra ENDIFs, and every recorded position lies inside the script. */
  predicate BookkeepingOk(bk: IfBookkeeping, size: nat)
  {
    && bk.numUnclosedIfs == |bk.unclosedIfPositions| - |bk.extraEndifPositions|
    && (forall k :: 0 <= k < |bk.unclosedIfPositions| ==> bk.unclosedIfPositions[k] < size)
    && (forall k :: 0 <= k < |bk.extraEndifPositions| ==> bk.extraEndifPositions[k] < size)
    && bk.maxIfInterval.0 <= bk.maxIfInterval.1 <= size
  }

  predicate IfsConsistent(s: StructuredScript)
  {
    BookkeepingOk(s.ifs, s.size)
  }

  lemma BookkeepingGrow(bk: IfBookkeeping, size: nat, larger: nat)
    requires BookkeepingOk(bk, size) && size <= larger
    ensures BookkeepingOk(bk, larger)
  {
  }

  function Width(iv: (nat, nat)): int
  {
    iv.1 - iv.0
  }

  /** `contains_flow_op`: some IF is open, some ENDIF is extra, or some
      IF..ENDIF pair was closed. */
  predicate ContainsFlowOp(s: StructuredScript)
  {
    HasFlow(s.ifs)
  }

  predicate HasFlow(bk: IfBookkeeping)
  {
    !(bk.unclosedIfPositions == [] && bk.extraEndifPositions == [] && bk.maxIfInterval == (0, 0))
  }

  /** `update_max_interval`: the span replaces the current one exactly when
      it is strictly wider, so the recorded width never shrinks. */
  function UpdateMaxInterval(iv: (nat, nat), start: nat, end: nat): (r: (nat, nat))
    ensures r == iv || r == (start, end)
    ensures r == (start, end) <==> end - start > Width(iv) || (start, end) == iv
    ensures Width(r) >= Width(iv) && Width(r) >= end - start
  {
    if end - start > iv.1 - iv.0 then (start, end) else iv
  }

  /** IF or NOTIF at byte `pos`. */
  function OpenIf(bk: IfBookkeeping, pos: nat): IfBookkeeping
  {
    bk.(numUnclosedIfs := bk.numUnclosedIfs + 1, unclosedIfPositions := bk.unclosedIfPositions + [pos])
  }

  /** ENDIF at byte `pos`: it closes the latest open IF, or is extra. */
  function CloseIf(bk: IfBookkeeping, pos: nat): IfBookkeeping
  {
    var u := bk.unclosedIfPositions;
    if u == [] then
      bk.(numUnclosedIfs := bk.numUnclosedIfs - 1, extraEndifPositions := bk.extraEndifPositions + [pos])
    else
      bk.(numUnclosedIfs := bk.numUnclosedIfs - 1, unclosedIfPositions := u[..|u| - 1],
          maxIfInterval := UpdateMaxInterval(bk.maxIfInterval, u[|u| - 1], pos))
  }

  /** The bookkeeping after opcode `op` is written at byte `pos`. */
  function RecordOpcode(bk: IfBookkeeping, op: byte, pos: nat): IfBookkeeping
  {
    if op == OP_IF || op == OP_NOTIF then OpenIf(bk, pos)
    else if op == OP_ENDIF then CloseIf(bk, pos)
    else bk
  }

  /** Recording an opcode at the end of a consistent script keeps it
      consistent one byte further on, never narrows the widest IF..ENDIF
      span, changes nothing for other opcodes, and leaves a trace of flow
      control exactly when the opcode is IF, NOTIF or ENDIF or a trace was
      already there. */
  lemma RecordOpcodeOk(bk: IfBookkeeping, op: byte, pos: nat)
    requires BookkeepingOk(bk, pos)
    ensures BookkeepingOk(RecordOpcode(bk, op, pos), pos + 1)
    ensures Width(RecordOpcode(bk, op, pos).maxIfInterval) >= Width(bk.maxIfInterval)
    ensures !IsFlowOp(op) ==> RecordOpcode(bk, op, pos) == bk
    ensures HasFlow(RecordOpcode(bk, op, pos)) <==> HasFlow(bk) || IsFlowOp(op)
  {
    var r := RecordOpcode(bk, op, pos);
    var u := bk.unclosedIfPositions;
    if op == OP_IF || op == OP_NOTIF {
      assert r.unclosedIfPositions == u + [pos];
      assert r.unclosedIfPositions[|u|] == pos;
    } else if op == OP_ENDIF && u != [] {
      assert u[|u| - 1] < pos;
      assert Width(r.maxIfInterval) >= 1;
      forall k | 0 <= k < |r.unclosedIfPositions| ensures r.unclosedIfPositions[k] < pos + 1 {
        assert r.unclosedIfPositions[k] == u[k];
      }
    } else if op == OP_ENDIF {
      assert r.extraEndifPositions == bk.extraEndifPositions + [pos];
      assert r.extraEndifPositions[|bk.extraEndifPositions|] == pos;
    }
  }

  /** `get_script_block` followed by a push: the instruction joins the
      trailing literal run, or starts a new one after a call or at the start. */
  function AppendToScriptBlock(blocks: seq<Block>, ins: Instruction): (r: seq<Block>)
    ensures |r| >= 1 && r[|r| - 1].Script?
  {
    if |blocks| > 0 && blocks[|blocks| - 1].Script? then
      blocks[..|blocks| - 1] + [Script(blocks[|blocks| - 1].instrs + [ins])]
    else
      blocks + [Script([ins])]
  }

  /** Appending to the trailing literal run adds exactly the instruction's
      bytes to the expansion and its length to the size. */
  lemma AppendToScriptBlockExpands(reg: Registry, blocks: seq<Block>, bound: nat, ins: Instruction)
    requires Valid(reg) && CallsBelow(reg, blocks, bound)
    ensures CallsBelow(reg, AppendToScriptBlock(blocks, ins), bound)
    ensures SizeOf(reg, AppendToScriptBlock(blocks, ins)) == SizeOf(reg, blocks) + InstructionLen(ins)
    ensures Flatten(reg, AppendToScriptBlock(blocks, ins), bound) == Flatten(reg, blocks, bound) + EncodeInstruction(ins)
  {
    var r := AppendToScriptBlock(blocks, ins);
    if |blocks| > 0 && blocks[|blocks| - 1].Script? {
      var prefix, run := blocks[..|blocks| - 1], blocks[|blocks| - 1].instrs;
      assert blocks == prefix + [Script(run)] && r == prefix + [Script(run + [ins])];
      CallsBelowPrefix(reg, blocks, bound, |blocks| - 1);
      RunExtendExpands(reg, prefix, run, ins, bound);
    } else {
      assert r == blocks + [Script([ins])];
      FlattenSnocScript(reg, blocks, [ins], bound);
      EncodeSingle(ins);
    }
  }

  /** Extending the trailing literal run by one instruction. */
  lemma RunExtendExpands(reg: Registry, prefix: seq<Block>, run: seq<Instruction>, ins: Instruction, bound: nat)
    requires Valid(reg) && CallsBelow(reg, prefix, bound)
    ensures CallsBelow(reg, prefix + [Script(run)], bound) && CallsBelow(reg, prefix + [Script(run + [ins])], bound)
    ensures SizeOf(reg, prefix + [Script(run + [ins])]) == SizeOf(reg, prefix + [Script(run)]) + InstructionLen(ins)
    ensures Flatten(reg, prefix + [Script(run + [ins])], bound)
         == Flatten(reg, prefix + [Script(run)], bound) + EncodeInstruction(ins)
  {
    FlattenSnocScript(reg, prefix, run, bound);
    FlattenSnocScript(reg, prefix, run + [ins], bound);
    EncodeSnoc(run, ins);
    ConcatAssoc(Flatten(reg, prefix, bound), Encode(run), EncodeInstruction(ins));
  }

  /** `push_opcode`: one more byte, in the trailing literal run, with the
      IF/ENDIF bookkeeping updated for the opcode's position. Only OP_0
      becomes an (empty) push; a raw push opcode 0x01-0x4e stays a lone
      opcode byte with no data after it. */
  function PushOpcode(s: StructuredScript, op: byte): (r: StructuredScript)
    requires IfsConsistent(s)
    ensures r.size == s.size + 1 && IfsConsistent(r)
    ensures r.blocks == AppendToScriptBlock(s.blocks, Decoded(op))
    ensures r.stackHint == s.stackHint && r.debugIdentifier == s.debugIdentifier
    ensures Width(r.ifs.maxIfInterval) >= Width(s.ifs.maxIfInterval)
    ensures !IsFlowOp(op) ==> r.ifs == s.ifs
  {
    RecordOpcodeOk(s.ifs, op, s.size);
    s.(size := s.size + 1,
       ifs := RecordOpcode(s.ifs, op, s.size),
       blocks := AppendToScriptBlock(s.blocks, Decoded(op)))
  }

  /** A script holding a lone OP_IF has one open IF at position 0; one
      holding a lone OP_ENDIF has count -1 and an extra ENDIF at 0. */
  lemma LoneIfAndEndif(d: string)
    ensures PushOpcode(New(d), OP_IF).ifs == IfBookkeeping(1, [0], [], (0, 0))
    ensures PushOpcode(New(d), OP_NOTIF).ifs == IfBookkeeping(1, [0], [], (0, 0))
    ensures PushOpcode(New(d), OP_ENDIF).ifs == IfBookkeeping(-1, [], [0], (0, 0))
  {
  }

  /** After `push_opcode` the script contains a flow opcode exactly when it
      did before or the pushed opcode is IF, NOTIF or ENDIF. */
  lemma PushOpcodeFlow(s: StructuredScript, op: byte)
    requires IfsConsistent(s)
    ensures ContainsFlowOp(PushOpcode(s, op)) <==> ContainsFlowOp(s) || IsFlowOp(op)
  {
    RecordOpcodeOk(s.ifs, op, s.size);
  }

  /** The bookkeeping after instruction `ins` is written at byte `pos`: only
      opcodes are looked at. */
  function RecordInstruction(bk: IfBookkeeping, ins: Instruction, pos: nat): IfBookkeeping
  {
    if ins.Op? then RecordOpcode(bk, ins.code, pos) else bk
  }

  lemma RecordInstructionOk(bk: IfBookkeeping, ins: Instruction, pos: nat)
    requires BookkeepingOk(bk, pos)
    ensures BookkeepingOk(RecordInstruction(bk, ins, pos), pos + InstructionLen(ins))
    ensures Width(RecordInstruction(bk, ins, pos).maxIfInterval) >= Width(bk.maxIfInterval)
    ensures HasFlow(RecordInstruction(bk, ins, pos)) <==> HasFlow(bk) || (ins.Op? && IsFlowOp(ins.code))
  {
    if ins.Op? {
      RecordOpcodeOk(bk, ins.code, pos);
    }
    BookkeepingGrow(RecordInstruction(bk, ins, pos), if ins.Op? then pos + 1 else pos, pos + InstructionLen(ins));
  }

  /** The same bookkeeping over a literal run starting at byte `pos`: every
      instruction is recorded at the byte offset where it is encoded. */
  function ScanIfs(bk: IfBookkeeping, pos: nat, data: seq<Instruction>): IfBookkeeping
    decreases |data|
  {
    if data == [] then bk
    else
      var n := |data| - 1;
      RecordInstruction(ScanIfs(bk, pos, data[..n]), data[n], pos + RunLen(data[..n]))
  }

  /** Extending the run by one instruction records that instruction at the
      byte offset where the run ended. */
  lemma ScanIfsSnoc(bk: IfBookkeeping, pos: nat, prefix: seq<Instruction>, x: Instruction)
    ensures ScanIfs(bk, pos, prefix + [x]) == RecordInstruction(ScanIfs(bk, pos, prefix), x, pos + RunLen(prefix))
  {
    assert (prefix + [x])[..|prefix|] == prefix;
  }

  /** The walk over a run keeps a consistent bookkeeping consistent up to the
      run's end and never narrows the widest span. */
  lemma {:induction false} ScanIfsOk(bk: IfBookkeeping, pos: nat, data: seq<Instruction>)
    requires BookkeepingOk(bk, pos)
    ensures BookkeepingOk(ScanIfs(bk, pos, data), pos + RunLen(data))
    ensures Width(ScanIfs(bk, pos, data).maxIfInterval) >= Width(bk.maxIfInterval)
    decreases |data|
  {
    if data != [] {
      var n := |data| - 1;
      var prefix, x := data[..n], data[n];
      var cur, len := ScanIfs(bk, pos, prefix), RunLen(prefix);
      assert ScanIfs(bk, pos, data) == RecordInstruction(cur, x, pos + len)
          && RunLen(data) == len + InstructionLen(x) by {
        assert data == prefix + [x];
        ScanIfsStep(bk, pos, prefix, x, cur, len);
      }
      ScanIfsOk(bk, pos, prefix);
      RecordInstructionOk(cur, x, pos + len);
    }
  }

  /** `push_script`'s walk leaves a trace of flow control exactly when the
      receiver had one or the run holds an IF, NOTIF or ENDIF. */
  lemma {:induction false} ScanIfsFlow(bk: IfBookkeeping, pos: nat, data: seq<Instruction>)
    requires BookkeepingOk(bk, pos)
    ensures HasFlow(ScanIfs(bk, pos, data))
        <==> HasFlow(bk) || exists k :: 0 <= k < |data| && data[k].Op? && IsFlowOp(data[k].code)
    decreases |data|
  {
    if data != [] {
      var n := |data| - 1;
      var prefix, x := data[..n], data[n];
      assert data == prefix + [x];
      var cur, len := ScanIfs(bk, pos, prefix), RunLen(prefix);
      ScanIfsFlow(bk, pos, prefix);
      ScanIfsOk(bk, pos, prefix);
      ScanIfsStep(bk, pos, prefix, x, cur, len);
      RecordInstructionOk(cur, x, pos + len);
      if exists k :: 0 <= k < |data| && data[k].Op? && IsFlowOp(data[k].code) {
        var k :| 0 <= k < |data| && data[k].Op? && IsFlowOp(data[k].code);
        if k < n {
          assert prefix[k] == data[k];
        }
      }
      if exists k :: 0 <= k < |prefix| && prefix[k].Op? && IsFlowOp(prefix[k].code) {
        var k :| 0 <= k < |prefix| && prefix[k].Op? && IsFlowOp(prefix[k].code);
        assert data[k] == prefix[k];
      }
    }
  }

  /** One round of `push_script`'s loop, stated for the walk's current
      bookkeeping `cur` and byte count `len` over the walked prefix. */
  lemma ScanIfsStep(bk: IfBookkeeping, base: nat, walked: seq<Instruction>, x: Instruction, cur: IfBookkeeping, len: nat)
    requires cur == ScanIfs(bk, base, walked) && len == RunLen(walked)
    ensures ScanIfs(bk, base, walked + [x]) == RecordInstruction(cur, x, base + len)
    ensures RunLen(walked + [x]) == len + InstructionLen(x)
  {
    ScanIfsSnoc(bk, base, walked, x);
    RunLenSnoc(walked, x);
  }

  /** `push_script` (with the byte counting corrected, see
      `PushScriptAsWritten`): the run becomes a new literal block, the size
      grows by its byte length and the walk over its instructions records
      every IF, NOTIF and ENDIF at its byte position. */
  method PushScript(s: StructuredScript, data: seq<Instruction>) returns (r: StructuredScript)
    requires IfsConsistent(s)
    ensures r == s.(size := s.size + |Encode(data)|,
                    ifs := ScanIfs(s.ifs, s.size, data),
                    blocks := s.blocks + [Script(data)])
    ensures IfsConsistent(r)
  {
    var ifs, pos := WalkRun(s.ifs, s.size, data);
    ScanIfsOk(s.ifs, s.size, data);
    RunLenEncoded(data);
    r := s.(size := s.size + pos, ifs := ifs, blocks := s.blocks + [Script(data)]);
  }

  /** The loop of `push_script`: walks the run, recording every opcode at the
      byte offset `base + pos` where it lands and counting the run's bytes
      (the source's closing `assert_eq!(data.len(), pos)` then holds). */
  method WalkRun(bk: IfBookkeeping, base: nat, data: seq<Instruction>) returns (ifs: IfBookkeeping, pos: nat)
    ensures ifs == ScanIfs(bk, base, data)
    ensures pos == RunLen(data)
  {
    ifs := bk;
    pos := 0;
    var i := 0;
    ghost var walked: seq<Instruction> := [];
    while i < |data|
      invariant 0 <= i <= |data| && walked == data[..i]
      invariant pos == RunLen(walked)
      invariant ifs == ScanIfs(bk, base, walked)
    {
      var ins := data[i];
      ScanIfsStep(bk, base, walked, ins, ifs, pos);
      if ins.Op? {
        ifs := RecordOpcode(ifs, ins.code, base + pos);
      }
      pos := pos + InstructionLen(ins);
      i := i + 1;
      walked := walked + [ins];
    }
    assert walked == data;
  }

  /** The byte count `push_script` keeps as written: one byte per opcode and
      one prefix byte plus the data per push. */
  function CountedLenAsWritten(data: seq<Instruction>): nat
  {
    if data == [] then 0
    else (match data[0] case Op(_) => 1 case PushBytes(d) => |d| + 1) + CountedLenAsWritten(data[1..])
  }

  /** `push_script` as written: its final `assert_eq!` compares that count
      with the run's byte length and panics when they differ. When that
      happens is stated by CountedLenAsWrittenExact, and a run that makes it
      panic is exhibited by PushScriptLongPushPanics. */
  function PushScriptAsWritten(s: StructuredScript, data: seq<Instruction>): (r: Result<StructuredScript>)
    ensures r.Ok? <==> CountedLenAsWritten(data) == |Encode(data)|
  {
    if CountedLenAsWritten(data) != |Encode(data)| then Err("Pos counting seems to be off")
    else Ok(s.(size := s.size + |Encode(data)|, ifs := ScanIfs(s.ifs, s.size, data),
               blocks := s.blocks + [Script(data)]))
  }

  predicate HasLongPush(data: seq<Instruction>)
  {
    exists k :: 0 <= k < |data| && data[k].PushBytes? && |data[k].data| >= 0x4c
  }

  /** The as-written count is never above the true length, and equals it
      exactly when no push needs a PUSHDATA prefix (more than 75 bytes). */
  lemma {:induction false} CountedLenAsWrittenExact(data: seq<Instruction>)
    ensures CountedLenAsWritten(data) <= |Encode(data)|
    ensures CountedLenAsWritten(data) == |Encode(data)| <==> !HasLongPush(data)
    decreases |data|
  {
    if data != [] {
      var x, rest := data[0], data[1..];
      CountedLenAsWrittenExact(rest);
      EncodeCons(data);
      var c := match x case Op(_) => 1 case PushBytes(d) => |d| + 1;
      assert CountedLenAsWritten(data) == c + CountedLenAsWritten(rest);
      assert |Encode(data)| == InstructionLen(x) + |Encode(rest)|;
      assert c <= InstructionLen(x);
      assert c == InstructionLen(x) <==> !(x.PushBytes? && |x.data| >= 0x4c);
      LongPushCons(data);
    }
  }

  lemma LongPushCons(data: seq<Instruction>)
    requires data != []
    ensures HasLongPush(data) <==> (data[0].PushBytes? && |data[0].data| >= 0x4c) || HasLongPush(data[1..])
  {
    if HasLongPush(data[1..]) {
      var k :| 0 <= k < |data[1..]| && data[1..][k].PushBytes? && |data[1..][k].data| >= 0x4c;
      assert data[k + 1] == data[1..][k];
    }
    if HasLongPush(data) {
      var k :| 0 <= k < |data| && data[k].PushBytes? && |data[k].data| >= 0x4c;
      if k > 0 {
        assert data[1..][k - 1] == data[k];
      }
    }
  }

  /** The discrepancy on a concrete run: one push of 76 bytes is encoded as
      OP_PUSHDATA1, 76, data (78 bytes) but counted as 77, so `push_script`
      as written panics on a well-formed script. */
  lemma PushScriptLongPushPanics(s: StructuredScript)
    ensures PushScriptAsWritten(s, [PushBytes(seq(76, _ => 0))]).Err?
  {
    var data := [PushBytes(seq(76, _ => 0))];
    assert CountedLenAsWritten(data) == 77;
    EncodeSingle(data[0]);
    assert |Encode(data)| == 78;
  }

  /** `push_slice`: one data push joins the trailing literal run. */
  function PushSlice(s: StructuredScript, data: PushData): (r: StructuredScript)
    requires IfsConsistent(s)
    ensures r.size == s.size + InstructionLen(PushBytes(data)) && IfsConsistent(r)
    ensures r.blocks == AppendToScriptBlock(s.blocks, PushBytes(data))
    ensures r.ifs == s.ifs && r.stackHint == s.stackHint
  {
    s.(size := s.size + InstructionLen(PushBytes(data)),
       blocks := AppendToScriptBlock(s.blocks, PushBytes(data)))
  }

  /** An i64 other than i64::MIN (whose magnitude does not fit the eight-byte
      buffer of `push_int_non_minimal`). */
  predicate IsPushableInt(n: int)
  {
    -0x7fff_ffff_ffff_ffff <= n <= 0x7fff_ffff_ffff_ffff
  }

  /** The instruction `push_int` emits for `n`: -1 and 1..16 as the single
      opcode n + 0x50, 0 as OP_0 (the empty push), anything else as a push of
      its script-number encoding. */
  function IntInstruction(n: int): (ins: Instruction)
    requires IsPushableInt(n)
    ensures (InstructionLen(ins) == 1) <==> (-1 <= n <= 16)
  {
    WriteScriptIntWidth(n);
    if n == -1 || 1 <= n <= 16 then Op(n + 0x50)
    else if n == 0 then PushBytes([])
    else NumberPush(n)
  }

  /** The push of the script-number bytes of `n`. */
  function NumberPush(n: int): (ins: Instruction)
    requires IsPushableInt(n)
    ensures ins.PushBytes? && ins.data == WriteScriptInt(n)
    ensures InstructionLen(ins) == 1 + |WriteScriptInt(n)| <= 9
  {
    WriteScriptIntWidth(n);
    PushBytes(WriteScriptInt(n))
  }

  /** `push_int_non_minimal`: a push of the script-number bytes of `n`. */
  function PushIntNonMinimal(s: StructuredScript, n: int): (r: StructuredScript)
    requires IfsConsistent(s) && IsPushableInt(n)
    ensures r.size == s.size + 1 + |WriteScriptInt(n)| && IfsConsistent(r)
    ensures r.blocks == AppendToScriptBlock(s.blocks, NumberPush(n))
  {
    PushSlice(s, NumberPush(n).data)
  }

  /** `push_int`: the minimal push of `n`. */
  function PushInt(s: StructuredScript, n: int): (r: StructuredScript)
    requires IfsConsistent(s) && IsPushableInt(n)
    ensures r.blocks == AppendToScriptBlock(s.blocks, IntInstruction(n))
    ensures r.size == s.size + InstructionLen(IntInstruction(n)) && IfsConsistent(r)
    ensures r.ifs == s.ifs && r.stackHint == s.stackHint
  {
    if n == -1 || (1 <= n <= 16) then PushOpcode(s, n - 1 + OP_PUSHNUM_1)
    else if n == 0 then PushOpcode(s, OP_0)
    else PushIntNonMinimal(s, n)
  }

  /** The script number an instruction pushes, as the decoder reads it. */
  function PushedNumber(ins: Instruction): Option<int>
  {
    match ins
    case Op(code) =>
      if code == OP_PUSHNUM_NEG1 then Some(-1)
      else if IsPushNum(code) then Some(code - 0x50)
      else None
    case PushBytes(d) =>
      match ReadScriptInt(d)
      case Ok(v) => Some(v)
      case Err(_) => None
  }

  /** Reading back what `push_int` wrote gives the number, for every value
      the four-byte decoder accepts. */
  lemma PushIntRoundTrip(n: int)
    requires -0x8000_0000 < n < 0x8000_0000
    ensures PushedNumber(IntInstruction(n)) == Some(n)
  {
    if !(n == -1 || 1 <= n <= 16) && n != 0 {
      RoundTrip(n);
    }
  }

  /** The one 32-bit value the round trip leaves out: -2^31 is written as
      five script-number bytes, which the four-byte decoder refuses. */
  lemma PushIntMinNotReadBack()
    ensures IntInstruction(-0x8000_0000) == PushBytes([0, 0, 0, 0x80, 0x80])
    ensures PushedNumber(IntInstruction(-0x8000_0000)) == None
  {
    calc {
      MagnitudeBytes(0x8000_0000);
      [0] + MagnitudeBytes(0x80_0000);
      [0] + ([0] + MagnitudeBytes(0x8000));
      [0] + ([0] + ([0] + MagnitudeBytes(0x80)));
      [0] + ([0] + ([0] + ([0x80] + MagnitudeBytes(0))));
      [0, 0, 0, 0x80];
    }
  }

  /** The bytes `push_int` emits on the vectors of the builder's tests. */
  lemma PushIntVectors()
    ensures EncodeInstruction(IntInstruction(1234)) == [2, 210, 4]
    ensures EncodeInstruction(IntInstruction(255)) == [2, 255, 0]
    ensures EncodeInstruction(IntInstruction(-255)) == [2, 255, 128]
    ensures EncodeInstruction(IntInstruction(-1234)) == [2, 210, 132]
    ensures EncodeInstruction(IntInstruction(-1)) == [0x4f]
    ensures EncodeInstruction(IntInstruction(0)) == [0]
    ensures EncodeInstruction(IntInstruction(16)) == [0x60]
  {
    WriteScriptIntVectors();
  }

  /** Every `push_*` that appends one instruction keeps the cached size equal
      to the blocks' length and appends that instruction's bytes to the
      expansion. */
  lemma PushInstructionExpands(reg: Registry, s: StructuredScript, r: StructuredScript, ins: Instruction)
    requires Valid(reg) && Closed(reg, s)
    requires r.blocks == AppendToScriptBlock(s.blocks, ins) && r.size == s.size + InstructionLen(ins)
    ensures Closed(reg, r)
    ensures FlattenScript(reg, r) == FlattenScript(reg, s) + EncodeInstruction(ins)
  {
    AppendToScriptBlockExpands(reg, s.blocks, reg.next, ins);
    CallsBelowResolves(reg, r.blocks, reg.next);
  }

  /** `push_script` keeps the size accounting and expands to the old
      expansion followed by the run's bytes (whatever bookkeeping `r`
      carries, so this covers the result of `PushScript`). */
  lemma PushScriptExpands(reg: Registry, s: StructuredScript, data: seq<Instruction>, r: StructuredScript)
    requires Valid(reg) && Closed(reg, s)
    requires r.size == s.size + |Encode(data)| && r.blocks == s.blocks + [Script(data)]
    ensures Closed(reg, r) && FlattenScript(reg, r) == FlattenScript(reg, s) + Encode(data)
  {
    FlattenSnocScript(reg, s.blocks, data, reg.next);
    CallsBelowResolves(reg, r.blocks, reg.next);
  }

  /** Offsets every position by `off`. */
  function Shifted(xs: seq<nat>, off: nat): (r: seq<nat>)
    ensures |r| == |xs| && forall k :: 0 <= k < |xs| ==> r[k] == xs[k] + off
  {
    seq(|xs|, k requires 0 <= k < |xs| => xs[k] + off)
  }

  // ---------------------------------------------------------------------
  // Splicing bookkeeping: `push_env_script` as written

  /** The first `k` rounds of `push_env_script`'s closing loop as written:
      the latest open IF of the receiver is matched with the LAST extra
      ENDIF of the spliced script (offset by `off`), and the interval
      widened. */
  function CloseIfsAsWritten(iv: (nat, nat), unclosed: seq<nat>, endifs: seq<nat>, off: nat, k: nat): (nat, nat)
    requires k <= |unclosed| && k <= |endifs|
    decreases k
  {
    if k == 0 then iv
    else
      var next := UpdateMaxInterval(iv, unclosed[|unclosed| - 1], endifs[|endifs| - 1] + off);
      CloseIfsAsWritten(next, unclosed[..|unclosed| - 1], endifs[..|endifs| - 1], off, k - 1)
  }

  /** The bookkeeping `push_env_script` leaves as written: the closing loop
      reads the spliced script's extra ENDIFs from the end, and the ones it
      did not reach (the FIRST ones) are kept, offset by the receiver's
      size. */
  function MergeIfsAsWritten(a: IfBookkeeping, size: nat, d: IfBookkeeping): IfBookkeeping
  {
    var k := Min(|a.unclosedIfPositions|, |d.extraEndifPositions|);
    var iv := CloseIfsAsWritten(a.maxIfInterval, a.unclosedIfPositions, d.extraEndifPositions, size, k);
    IfBookkeeping(
      a.numUnclosedIfs + d.numUnclosedIfs,
      a.unclosedIfPositions[..|a.unclosedIfPositions| - k] + Shifted(d.unclosedIfPositions, size),
      a.extraEndifPositions + Shifted(d.extraEndifPositions[..|d.extraEndifPositions| - k], size),
      UpdateMaxInterval(iv, size + d.maxIfInterval.0, size + d.maxIfInterval.1))
  }

  /** The splice as written disagrees with a walk over the joined script.
      An open IF followed by a sub-script `ENDIF ENDIF`: the first ENDIF
      (byte 1) closes the IF and the second (byte 2) is extra, but the loop
      pairs the IF with byte 2 and keeps byte 1 as the extra one. Two open
      IFs followed by `ENDIF ENDIF`: the outer pair spans bytes 0..3, but the
      loop records the span 1..3. */
  lemma MergeIfsAsWrittenMispairs(a: IfBookkeeping, b: IfBookkeeping, run: seq<Instruction>)
    requires a == IfBookkeeping(1, [0], [], (0, 0)) && b == IfBookkeeping(2, [0, 1], [], (0, 0))
    requires run == [Op(OP_ENDIF), Op(OP_ENDIF)]
    ensures ScanIfs(NoIfs, 0, run) == IfBookkeeping(-2, [], [0, 1], (0, 0))
    ensures MergeIfsAsWritten(a, 1, ScanIfs(NoIfs, 0, run)) == IfBookkeeping(-1, [], [1], (0, 2))
    ensures ScanIfs(a, 1, run) == IfBookkeeping(-1, [], [2], (0, 1))
    ensures MergeIfsAsWritten(b, 2, ScanIfs(NoIfs, 0, run)).maxIfInterval == (1, 3)
    ensures ScanIfs(b, 2, run).maxIfInterval == (0, 3)
  {
    EndifPairScan(NoIfs, 0, run);
    var d := IfBookkeeping(-2, [], [0, 1], (0, 0));
    MispairsOneIf(a, d, run);
    MispairsTwoIfs(b, d, run);
  }

  /** The one-IF half of MergeIfsAsWrittenMispairs. */
  lemma MispairsOneIf(a: IfBookkeeping, d: IfBookkeeping, run: seq<Instruction>)
    requires a == IfBookkeeping(1, [0], [], (0, 0)) && d == IfBookkeeping(-2, [], [0, 1], (0, 0))
    requires run == [Op(OP_ENDIF), Op(OP_ENDIF)]
    ensures MergeIfsAsWritten(a, 1, d) == IfBookkeeping(-1, [], [1], (0, 2))
    ensures ScanIfs(a, 1, run) == IfBookkeeping(-1, [], [2], (0, 1))
  {
    EndifPairScan(a, 1, run);
    assert d.extraEndifPositions[..1] == [0];
    assert Shifted([0], 1) == [1];
    assert [0][..0] == [];
  }

  /** The two-IF half of MergeIfsAsWrittenMispairs. */
  lemma MispairsTwoIfs(b: IfBookkeeping, d: IfBookkeeping, run: seq<Instruction>)
    requires b == IfBookkeeping(2, [0, 1], [], (0, 0)) && d == IfBookkeeping(-2, [], [0, 1], (0, 0))
    requires run == [Op(OP_ENDIF), Op(OP_ENDIF)]
    ensures MergeIfsAsWritten(b, 2, d).maxIfInterval == (1, 3)
    ensures ScanIfs(b, 2, run).maxIfInterval == (0, 3)
  {
    EndifPairScan(b, 2, run);
    assert CloseIfsAsWritten((0, 0), [0, 1], [0, 1], 2, 2) == (1, 3) by {
      assert [0, 1][..1] == [0];
    }
  }

  /** A run of two ENDIFs records two ENDIFs at `pos` and `pos + 1`. */
  lemma EndifPairScan(bk: IfBookkeeping, pos: nat, run: seq<Instruction>)
    requires run == [Op(OP_ENDIF), Op(OP_ENDIF)]
    ensures ScanIfs(bk, pos, run) == CloseIf(CloseIf(bk, pos), pos + 1)
  {
    var e := Op(OP_ENDIF);
    ScanIfsStep(bk, pos, [], e, bk, 0);
    assert [] + [e] == [e] && [e] + [e] == run;
    ScanIfsStep(bk, pos, [e], e, CloseIf(bk, pos), InstructionLen(e));
  }

  // ---------------------------------------------------------------------
  // Splicing bookkeeping, corrected

  /** The first `k` rounds of the closing loop, paired as the joined script
      nests them: round `j` closes the receiver's `j`-th latest open IF with
      the spliced script's `j`-th extra ENDIF (offset by `off`). */
  function CloseIfs(iv: (nat, nat), unclosed: seq<nat>, endifs: seq<nat>, off: nat, k: nat): (nat, nat)
    requires k <= |unclosed| && k <= |endifs|
    decreases k
  {
    if k == 0 then iv
    else UpdateMaxInterval(CloseIfs(iv, unclosed, endifs, off, k - 1), unclosed[|unclosed| - k], endifs[k - 1] + off)
  }

  /** The bookkeeping of the joined script: min(|unclosed|, |extra ENDIFs of
      data|) pairs are closed across the splice, data's unclosed IFs and its
      extra ENDIFs past the closed ones are appended offset by the receiver's
      size, data's own widest interval is considered, and the counts add
      up. */
  function MergeIfs(a: IfBookkeeping, size: nat, d: IfBookkeeping): IfBookkeeping
  {
    var k := Min(|a.unclosedIfPositions|, |d.extraEndifPositions|);
    var iv := CloseIfs(a.maxIfInterval, a.unclosedIfPositions, d.extraEndifPositions, size, k);
    IfBookkeeping(
      a.numUnclosedIfs + d.numUnclosedIfs,
      a.unclosedIfPositions[..|a.unclosedIfPositions| - k] + Shifted(d.unclosedIfPositions, size),
      a.extraEndifPositions + Shifted(d.extraEndifPositions[k..], size),
      UpdateMaxInterval(iv, size + d.maxIfInterval.0, size + d.maxIfInterval.1))
  }

  /** Closing pairs keeps the interval well formed, never narrows it and
      never moves its end past `cap` when neither the old end nor any offset
      ENDIF lies past it. */
  lemma {:induction false} CloseIfsBound(iv: (nat, nat), unclosed: seq<nat>, endifs: seq<nat>, off: nat, k: nat, cap: nat)
    requires k <= |unclosed| && k <= |endifs| && iv.0 <= iv.1 <= cap
    requires forall j :: 0 <= j < |endifs| ==> endifs[j] + off <= cap
    ensures CloseIfs(iv, unclosed, endifs, off, k).0 <= CloseIfs(iv, unclosed, endifs, off, k).1 <= cap
    ensures Width(CloseIfs(iv, unclosed, endifs, off, k)) >= Width(iv)
    decreases k
  {
    if k > 0 {
      CloseIfsBound(iv, unclosed, endifs, off, k - 1, cap);
      assert endifs[k - 1] + off <= cap;
    }
  }

  /** Closing `k` pairs reads only the first `k` extra ENDIFs. */
  lemma {:induction false} CloseIfsSnoc(iv: (nat, nat), unclosed: seq<nat>, endifs: seq<nat>, off: nat, k: nat, p: nat)
    requires k <= |unclosed| && k <= |endifs|
    ensures CloseIfs(iv, unclosed, endifs + [p], off, k) == CloseIfs(iv, unclosed, endifs, off, k)
    decreases k
  {
    if k > 0 {
      CloseIfsSnoc(iv, unclosed, endifs, off, k - 1, p);
      assert (endifs + [p])[k - 1] == endifs[k - 1];
    }
  }

  /** Splicing keeps the bookkeeping consistent for the combined size and
      never narrows the widest interval. */
  lemma MergeIfsConsistent(a: IfBookkeeping, size: nat, d: IfBookkeeping, dsize: nat)
    requires BookkeepingOk(a, size) && BookkeepingOk(d, dsize)
    ensures BookkeepingOk(MergeIfs(a, size, d), size + dsize)
    ensures Width(MergeIfs(a, size, d).maxIfInterval) >= Width(a.maxIfInterval)
    ensures Width(MergeIfs(a, size, d).maxIfInterval) >= Width(d.maxIfInterval)
  {
    var r := MergeIfs(a, size, d);
    var k := Min(|a.unclosedIfPositions|, |d.extraEndifPositions|);
    CloseIfsBound(a.maxIfInterval, a.unclosedIfPositions, d.extraEndifPositions, size, k, size + dsize);
    var u := a.unclosedIfPositions[..|a.unclosedIfPositions| - k] + Shifted(d.unclosedIfPositions, size);
    assert r.unclosedIfPositions == u;
    forall j | 0 <= j < |u| ensures u[j] < size + dsize {
      if j < |a.unclosedIfPositions| - k {
        assert u[j] == a.unclosedIfPositions[j];
      }
    }
    var e := a.extraEndifPositions + Shifted(d.extraEndifPositions[k..], size);
    assert r.extraEndifPositions == e;
    forall j | 0 <= j < |e| ensures e[j] < size + dsize {
      if j >= |a.extraEndifPositions| {
        var t := j - |a.extraEndifPositions|;
        assert e[j] == d.extraEndifPositions[k + t] + size;
      }
    }
  }

  /** `update_max_interval` keeps the first of the widest intervals offered,
      so two updates in a row are one update with the wider of the two. */
  lemma UpdateAssoc(c: (nat, nat), x: (nat, nat), y: (nat, nat))
    ensures var z := UpdateMaxInterval(x, y.0, y.1);
      UpdateMaxInterval(UpdateMaxInterval(c, x.0, x.1), y.0, y.1) == UpdateMaxInterval(c, z.0, z.1)
  {
  }

  /** Two updates commute when the second is strictly wider than the first. */
  lemma UpdateSwap(c: (nat, nat), x: (nat, nat), y: (nat, nat))
    requires Width(x) < Width(y)
    ensures UpdateMaxInterval(UpdateMaxInterval(c, x.0, x.1), y.0, y.1)
         == UpdateMaxInterval(UpdateMaxInterval(c, y.0, y.1), x.0, x.1)
  {
  }

  /** Splicing an empty bookkeeping changes nothing. */
  lemma MergeNoIfs(a: IfBookkeeping, size: nat)
    requires BookkeepingOk(a, size)
    ensures MergeIfs(a, size, NoIfs) == a
  {
    var u := a.unclosedIfPositions;
    assert u[..|u| - 0] + Shifted([], size) == u;
    assert a.extraEndifPositions + Shifted([][0..], size) == a.extraEndifPositions;
  }

  /** An IF in the spliced script stays open in the joined one. */
  lemma MergeOpenIf(a: IfBookkeeping, size: nat, d: IfBookkeeping, p: nat)
    ensures MergeIfs(a, size, OpenIf(d, p)) == OpenIf(MergeIfs(a, size, d), size + p)
  {
    var k := Min(|a.unclosedIfPositions|, |d.extraEndifPositions|);
    var front := a.unclosedIfPositions[..|a.unclosedIfPositions| - k];
    assert front + Shifted(d.unclosedIfPositions + [p], size)
        == (front + Shifted(d.unclosedIfPositions, size)) + [size + p];
  }

  /** An ENDIF that closes an IF of the spliced script closes the same IF in
      the joined one. */
  lemma MergeCloseInner(a: IfBookkeeping, size: nat, d: IfBookkeeping, p: nat)
    requires d.unclosedIfPositions != []
    ensures MergeIfs(a, size, CloseIf(d, p)) == CloseIf(MergeIfs(a, size, d), size + p)
  {
    var k := Min(|a.unclosedIfPositions|, |d.extraEndifPositions|);
    var du := d.unclosedIfPositions;
    var front := a.unclosedIfPositions[..|a.unclosedIfPositions| - k];
    var m := MergeIfs(a, size, d);
    var mu := front + Shifted(du, size);
    assert m.unclosedIfPositions == mu;
    assert mu[|mu| - 1] == du[|du| - 1] + size;
    assert mu[..|mu| - 1] == front + Shifted(du[..|du| - 1], size);
    var c := CloseIfs(a.maxIfInterval, a.unclosedIfPositions, d.extraEndifPositions, size, k);
    ShiftedUpdate(c, d.maxIfInterval, du[|du| - 1], p, size);
  }

  /** Widening to a spliced interval and then to a spliced pair is widening
      once to the spliced script's updated interval, offset by `size`. */
  lemma ShiftedUpdate(c: (nat, nat), div: (nat, nat), q: nat, p: nat, size: nat)
    ensures var dv := UpdateMaxInterval(div, q, p);
      UpdateMaxInterval(UpdateMaxInterval(c, size + div.0, size + div.1), q + size, size + p)
      == UpdateMaxInterval(c, size + dv.0, size + dv.1)
  {
    var x, y := (size + div.0, size + div.1), (q + size, size + p);
    UpdateAssoc(c, x, y);
    var dv := UpdateMaxInterval(div, q, p);
    assert (size + dv.0, size + dv.1) == UpdateMaxInterval(x, y.0, y.1);
  }

  /** An extra ENDIF of the spliced script, while the receiver still has an
      IF open that no earlier extra ENDIF closed, closes that IF. */
  lemma MergeClosePair(a: IfBookkeeping, size: nat, d: IfBookkeeping, p: nat)
    requires BookkeepingOk(a, size) && BookkeepingOk(d, p)
    requires d.unclosedIfPositions == [] && |d.extraEndifPositions| < |a.unclosedIfPositions|
    ensures MergeIfs(a, size, CloseIf(d, p)) == CloseIf(MergeIfs(a, size, d), size + p)
  {
    var au, de := a.unclosedIfPositions, d.extraEndifPositions;
    assert au[|au| - (|de| + 1)] < size;
    MergeClosePairAt(a, size, d, p);
  }

  /** MergeClosePair from the only facts about positions it needs: the IF
      being closed lies before the splice point and the spliced interval
      ends by `p`. */
  lemma MergeClosePairAt(a: IfBookkeeping, size: nat, d: IfBookkeeping, p: nat)
    requires d.unclosedIfPositions == [] && |d.extraEndifPositions| < |a.unclosedIfPositions|
    requires a.unclosedIfPositions[|a.unclosedIfPositions| - (|d.extraEndifPositions| + 1)] < size
    requires d.maxIfInterval.0 <= d.maxIfInterval.1 <= p
    ensures MergeIfs(a, size, CloseIf(d, p)) == CloseIf(MergeIfs(a, size, d), size + p)
  {
    var au, de := a.unclosedIfPositions, d.extraEndifPositions;
    var k := |de|;
    MergeCloseInterval(a.maxIfInterval, au, de, size, p, d.maxIfInterval);
    var m, l := MergeIfs(a, size, d), MergeIfs(a, size, CloseIf(d, p));
    assert Shifted([], size) == [];
    assert m.unclosedIfPositions == au[..|au| - k];
    assert l.unclosedIfPositions == au[..|au| - (k + 1)];
    assert au[..|au| - k][..|au| - k - 1] == au[..|au| - (k + 1)];
    assert Shifted((de + [p])[k + 1..], size) == [] == Shifted(de[k..], size);
    assert l.extraEndifPositions == a.extraEndifPositions == m.extraEndifPositions;
  }

  /** The interval half of MergeClosePair: closing the receiver's IF at
      `start` with the spliced ENDIF at `p` commutes with widening to the
      spliced script's own interval `div`, which is shorter. */
  lemma MergeCloseInterval(iv: (nat, nat), au: seq<nat>, de: seq<nat>, size: nat, p: nat, div: (nat, nat))
    requires |de| < |au| && au[|au| - (|de| + 1)] < size && div.0 <= div.1 <= p
    ensures var k, x := |de|, (size + div.0, size + div.1);
      UpdateMaxInterval(CloseIfs(iv, au, de + [p], size, k + 1), x.0, x.1)
      == UpdateMaxInterval(UpdateMaxInterval(CloseIfs(iv, au, de, size, k), x.0, x.1), au[|au| - (k + 1)], size + p)
  {
    var k := |de|;
    var start := au[|au| - (k + 1)];
    CloseIfsSnoc(iv, au, de, size, k, p);
    var c := CloseIfs(iv, au, de, size, k);
    assert CloseIfs(iv, au, de + [p], size, k + 1) == UpdateMaxInterval(c, start, p + size);
    UpdateSwap(c, (size + div.0, size + div.1), (start, p + size));
  }

  /** An extra ENDIF of the spliced script, once every open IF of the
      receiver is closed, stays extra in the joined script. */
  lemma MergeCloseExtra(a: IfBookkeeping, size: nat, d: IfBookkeeping, p: nat)
    requires d.unclosedIfPositions == [] && |d.extraEndifPositions| >= |a.unclosedIfPositions|
    ensures MergeIfs(a, size, CloseIf(d, p)) == CloseIf(MergeIfs(a, size, d), size + p)
  {
    var au, de := a.unclosedIfPositions, d.extraEndifPositions;
    var k := |au|;
    var m := MergeIfs(a, size, d);
    assert m.unclosedIfPositions == [] by {
      assert au[..|au| - k] == [] && Shifted([], size) == [];
    }
    assert (de + [p])[k..] == de[k..] + [p];
    assert Shifted(de[k..] + [p], size) == Shifted(de[k..], size) + [size + p];
    CloseIfsSnoc(a.maxIfInterval, au, de, size, k, p);
  }

  /** Recording an opcode of the spliced script at its byte `p` and then
      splicing is the same as splicing and then recording it at `size + p`. */
  lemma MergeRecordOpcode(a: IfBookkeeping, size: nat, d: IfBookkeeping, op: byte, p: nat)
    requires BookkeepingOk(a, size) && BookkeepingOk(d, p)
    ensures MergeIfs(a, size, RecordOpcode(d, op, p)) == RecordOpcode(MergeIfs(a, size, d), op, size + p)
  {
    if op == OP_IF || op == OP_NOTIF {
      MergeOpenIf(a, size, d, p);
    } else if op == OP_ENDIF {
      if d.unclosedIfPositions != [] {
        MergeCloseInner(a, size, d, p);
      } else if |d.extraEndifPositions| < |a.unclosedIfPositions| {
        MergeClosePair(a, size, d, p);
      } else {
        MergeCloseExtra(a, size, d, p);
      }
    }
  }

  /** The evidently intended property of the splice: splicing a script built
      from one literal run records exactly the bookkeeping a walk over the
      run, continued from the receiver's end, records. */
  lemma {:induction false} MergeIfsMatchesRescan(a: IfBookkeeping, size: nat, run: seq<Instruction>)
    requires BookkeepingOk(a, size)
    ensures MergeIfs(a, size, ScanIfs(NoIfs, 0, run)) == ScanIfs(a, size, run)
    decreases |run|
  {
    if run == [] {
      MergeNoIfs(a, size);
    } else {
      var n := |run| - 1;
      var prefix, x := run[..n], run[n];
      MergeIfsMatchesRescan(a, size, prefix);
      var d := ScanIfs(NoIfs, 0, prefix);
      ScanIfsOk(NoIfs, 0, prefix);
      if x.Op? {
        MergeRecordOpcode(a, size, d, x.code, RunLen(prefix));
      }
    }
  }

  /** The receiver's debug identifier is prefixed to the spliced script's. */
  function Renamed(s: StructuredScript, data: StructuredScript): StructuredScript
  {
    data.(debugIdentifier := s.debugIdentifier + " " + data.debugIdentifier)
  }

  /** `push_env_script` (with the pairing corrected, see
      `MergeIfsAsWrittenMispairs`): `data` becomes a call block registered
      under `id`, its content hash. The loop closes the receiver's open IFs
      against the spliced script's extra ENDIFs, innermost first. The
      registry keeps the first script registered under `id`; since ids are
      content hashes, a script already registered under `id` has data's
      size and blocks. The result expands to the receiver's expansion
      followed by data's. */
  method PushEnvScript(s: StructuredScript, data: StructuredScript, id: Id, reg: Registry)
    returns (r: StructuredScript, reg': Registry)
    requires IfsConsistent(s) && IfsConsistent(data)
    requires Valid(reg) && Closed(reg, s) && Closed(reg, data)
    requires id in reg.scripts ==> reg.scripts[id].size == data.size && reg.scripts[id].blocks == data.blocks
    ensures r == s.(size := s.size + data.size,
                    ifs := MergeIfs(s.ifs, s.size, data.ifs),
                    blocks := s.blocks + [Call(id)])
    ensures reg' == ThreadAddScript(reg, id, Renamed(s, data))
    ensures IfsConsistent(r) && Valid(reg') && Extends(reg, reg') && Closed(reg', r)
    ensures FlattenScript(reg', r) == FlattenScript(reg, s) + FlattenScript(reg, data)
  {
    var ifs := SpliceIfs(s.ifs, s.size, data.ifs);
    r := s.(size := s.size + data.size, ifs := ifs, blocks := s.blocks + [Call(id)]);
    reg' := ThreadAddScript(reg, id, Renamed(s, data));
    MergeIfsConsistent(s.ifs, s.size, data.ifs, data.size);
    SpliceKeepsRegistry(reg, s, data, id);
  }

  /** The bookkeeping half of `push_env_script`: the closing loop, then
      data's unclosed IFs and the extra ENDIFs it did not use appended at
      their offset positions, and data's widest interval considered. */
  method SpliceIfs(a: IfBookkeeping, size: nat, d: IfBookkeeping) returns (ifs: IfBookkeeping)
    ensures ifs == MergeIfs(a, size, d)
  {
    var iv, unclosed, closed := CloseAcrossSplice(a.maxIfInterval, a.unclosedIfPositions,
                                                  d.extraEndifPositions, size);
    iv := UpdateMaxInterval(iv, size + d.maxIfInterval.0, size + d.maxIfInterval.1);
    ifs := IfBookkeeping(
      a.numUnclosedIfs + d.numUnclosedIfs,
      unclosed + Shifted(d.unclosedIfPositions, size),
      a.extraEndifPositions + Shifted(d.extraEndifPositions[closed..], size),
      iv);
  }

  /** The closing loop of `push_env_script`: the receiver's latest open IFs
      are popped against the spliced script's extra ENDIFs, read from the
      front, for as many rounds as both have entries. */
  method CloseAcrossSplice(iv0: (nat, nat), unclosed0: seq<nat>, endifs: seq<nat>, off: nat)
    returns (iv: (nat, nat), unclosed: seq<nat>, closed: nat)
    ensures closed == Min(|unclosed0|, |endifs|)
    ensures unclosed == unclosed0[..|unclosed0| - closed]
    ensures iv == CloseIfs(iv0, unclosed0, endifs, off, closed)
  {
    var k := Min(|unclosed0|, |endifs|);
    iv, unclosed, closed := iv0, unclosed0, 0;
    assert unclosed0[..|unclosed0| - 0] == unclosed0;
    while closed < k
      invariant 0 <= closed <= k
      invariant unclosed == unclosed0[..|unclosed0| - closed]
      invariant iv == CloseIfs(iv0, unclosed0, endifs, off, closed)
    {
      var ifStart := unclosed[|unclosed| - 1];
      var ifEnd := endifs[closed];
      assert ifStart == unclosed0[|unclosed0| - (closed + 1)];
      assert unclosed[..|unclosed| - 1] == unclosed0[..|unclosed0| - (closed + 1)];
      unclosed := unclosed[..|unclosed| - 1];
      iv := UpdateMaxInterval(iv, ifStart, ifEnd + off);
      closed := closed + 1;
    }
  }

  /** The registry side of `push_env_script`: registering the renamed script
      keeps the registry valid, and the call block expands to the spliced
      script's bytes after the receiver's. */
  lemma SpliceKeepsRegistry(reg: Registry, s: StructuredScript, data: StructuredScript, id: Id)
    requires Valid(reg) && Closed(reg, s) && Closed(reg, data)
    requires id in reg.scripts ==> reg.scripts[id].size == data.size && reg.scripts[id].blocks == data.blocks
    ensures var reg' := ThreadAddScript(reg, id, Renamed(s, data));
      var bs := s.blocks + [Call(id)];
      Valid(reg') && Extends(reg, reg') && CallsBelow(reg', bs, reg'.next)
      && WellSized(reg', s.(size := s.size + data.size, blocks := bs))
      && Flatten(reg', bs, reg'.next) == FlattenScript(reg, s) + FlattenScript(reg, data)
  {
    var named := Renamed(s, data);
    var reg' := ThreadAddScript(reg, id, named);
    AddKeepsValid(reg, id, named);
    SpliceExpands(reg, reg', s, data, id);
  }

  lemma SpliceExpands(reg: Registry, reg': Registry, s: StructuredScript, data: StructuredScript, id: Id)
    requires Valid(reg) && Valid(reg') && Extends(reg, reg') && Closed(reg, s) && Closed(reg, data)
    requires id in reg'.scripts && reg'.scripts[id].size == data.size && reg'.scripts[id].blocks == data.blocks
    requires id in reg.scripts ==> reg' == reg
    requires id !in reg.scripts ==> reg'.order[id] == reg.next
    ensures var bs := s.blocks + [Call(id)];
      CallsBelow(reg', bs, reg'.next) && WellSized(reg', s.(size := s.size + data.size, blocks := bs))
      && Flatten(reg', bs, reg'.next) == FlattenScript(reg, s) + FlattenScript(reg, data)
  {
    var bs := s.blocks + [Call(id)];
    assert bs[..|bs| - 1] == s.blocks;
    FlattenExtends(reg, reg', s.blocks, reg.next);
    CallsBelowExtends(reg, reg', s.blocks, reg'.next);
    SizeOfExtends(reg, reg', s.blocks);
    assert CallsBelow(reg', bs, reg'.next) by {
      forall j | 0 <= j < |bs| && bs[j].Call?
        ensures bs[j].id in reg'.scripts && bs[j].id in reg'.order && reg'.order[bs[j].id] < reg'.next
      {
        if j < |s.blocks| {
          assert bs[j] == s.blocks[j];
        }
      }
    }
    FlattenBound(reg', s.blocks, reg.next, reg'.next);
    var callee := reg'.scripts[id].blocks;
    if id in reg.scripts {
      assert EntryOk(reg, id);
      FlattenBound(reg, callee, reg.order[id], reg.next);
    } else {
      FlattenExtends(reg, reg', data.blocks, reg.next);
    }
  }

  /** `debug_info`: the debug identifier of the script whose literal run holds
      byte `position`, descending into calls; none past the end (where the
      source panics). */
  function DebugInfoIn(reg: Registry, debugId: string, blocks: seq<Block>, bound: nat, position: nat): Option<string>
    requires Valid(reg) && CallsBelow(reg, blocks, bound)
    decreases bound, |blocks|
  {
    if blocks == [] then None
    else
      var len := BlockSize(reg, blocks[0]);
      assert CallsBelow(reg, blocks[1..], bound) by {
        forall k | 0 <= k < |blocks| - 1 && blocks[1..][k].Call?
          ensures blocks[1..][k].id in reg.scripts && blocks[1..][k].id in reg.order
                  && reg.order[blocks[1..][k].id] < bound
        {
          assert blocks[1..][k] == blocks[k + 1];
        }
      }
      if position < len then
        match blocks[0]
        case Script(_) => Some(debugId)
        case Call(id) =>
          assert EntryOk(reg, id);
          var callee := reg.scripts[id];
          DebugInfoIn(reg, callee.debugIdentifier, callee.blocks, reg.order[id], position)
      else DebugInfoIn(reg, debugId, blocks[1..], bound, position - len)
  }

  function DebugInfo(reg: Registry, s: StructuredScript, position: nat): Option<string>
    requires Valid(reg) && Closed(reg, s)
  {
    DebugInfoIn(reg, s.debugIdentifier, s.blocks, reg.next, position)
  }

  lemma SizeOfCons(reg: Registry, blocks: seq<Block>)
    requires Resolves(reg, blocks) && blocks != []
    ensures Resolves(reg, blocks[1..])
    ensures SizeOf(reg, blocks) == BlockSize(reg, blocks[0]) + SizeOf(reg, blocks[1..])
  {
    var x, rest := blocks[0], blocks[1..];
    assert blocks == [x] + rest;
    ResolvesSplit(reg, [x], rest);
    SizeOfAppend(reg, [x], rest);
    SizeOfSingle(reg, x);
  }

  /** `debug_info` finds an owner exactly for the positions inside the
      script. */
  lemma {:induction false} DebugInfoFound(reg: Registry, debugId: string, blocks: seq<Block>, bound: nat, position: nat)
    requires Valid(reg) && CallsBelow(reg, blocks, bound)
    ensures Resolves(reg, blocks)
    ensures DebugInfoIn(reg, debugId, blocks, bound, position).Some? <==> position < SizeOf(reg, blocks)
    decreases bound, |blocks|
  {
    CallsBelowResolves(reg, blocks, bound);
    if blocks != [] {
      SizeOfCons(reg, blocks);
      var len := BlockSize(reg, blocks[0]);
      if position < len {
        match blocks[0]
        case Script(_) =>
        case Call(id) =>
          assert EntryOk(reg, id);
          var callee := reg.scripts[id];
          DebugInfoFound(reg, callee.debugIdentifier, callee.blocks, reg.order[id], position);
      } else {
        assert CallsBelow(reg, blocks[1..], bound) by {
          forall k | 0 <= k < |blocks| - 1 && blocks[1..][k].Call?
            ensures blocks[1..][k].id in reg.scripts && blocks[1..][k].id in reg.order
                    && reg.order[blocks[1..][k].id] < bound
          {
            assert blocks[1..][k] == blocks[k + 1];
          }
        }
        DebugInfoFound(reg, debugId, blocks[1..], bound, position - len);
      }
    }
  }

  /** The owner of a byte in `a + b` is found in `a` for the first
      `SizeOf(a)` bytes and in `b`, offset back, for the rest. */
  lemma {:induction false} DebugInfoAppend(reg: Registry, debugId: string, a: seq<Block>, b: seq<Block>, bound: nat, position: nat)
    requires Valid(reg) && CallsBelow(reg, a + b, bound)
    ensures CallsBelow(reg, a, bound) && CallsBelow(reg, b, bound) && Resolves(reg, a)
    ensures DebugInfoIn(reg, debugId, a + b, bound, position)
         == if position < SizeOf(reg, a) then DebugInfoIn(reg, debugId, a, bound, position)
            else DebugInfoIn(reg, debugId, b, bound, position - SizeOf(reg, a))
    decreases |a|
  {
    CallsBelowSplit(reg, a, b, bound);
    if a == [] {
      assert a + b == b;
    } else {
      var rest, ab := a[1..], a + b;
      SizeOfCons(reg, a);
      var len := BlockSize(reg, a[0]);
      DropAppend(a, b);
      if position < len {
        DebugInfoSameHead(reg, debugId, a, ab, bound, position);
      } else {
        DebugInfoSkipHead(reg, debugId, a, bound, position);
        DebugInfoSkipHead(reg, debugId, ab, bound, position);
        DebugInfoAppend(reg, debugId, rest, b, bound, position - len);
      }
    }
  }

  lemma DropAppend(a: seq<Block>, b: seq<Block>)
    requires a != []
    ensures (a + b)[0] == a[0] && (a + b)[1..] == a[1..] + b
  {
  }

  /** Two block lists with the same first block agree on the bytes of that
      block. */
  lemma DebugInfoSameHead(reg: Registry, debugId: string, xs: seq<Block>, ys: seq<Block>, bound: nat, position: nat)
    requires Valid(reg) && CallsBelow(reg, xs, bound) && CallsBelow(reg, ys, bound)
    requires xs != [] && ys != [] && xs[0] == ys[0] && position < BlockSize(reg, xs[0])
    ensures DebugInfoIn(reg, debugId, xs, bound, position) == DebugInfoIn(reg, debugId, ys, bound, position)
  {
  }

  /** Past the first block, the lookup continues in the rest of the blocks. */
  lemma DebugInfoSkipHead(reg: Registry, debugId: string, xs: seq<Block>, bound: nat, position: nat)
    requires Valid(reg) && CallsBelow(reg, xs, bound) && xs != [] && position >= BlockSize(reg, xs[0])
    ensures CallsBelow(reg, xs[1..], bound)
    ensures DebugInfoIn(reg, debugId, xs, bound, position)
         == DebugInfoIn(reg, debugId, xs[1..], bound, position - BlockSize(reg, xs[0]))
  {
    assert CallsBelow(reg, xs[1..], bound) by {
      forall k | 0 <= k < |xs| - 1 ensures xs[1..][k] == xs[k + 1] {}
    }
  }

  lemma CallsBelowSplit(reg: Registry, a: seq<Block>, b: seq<Block>, bound: nat)
    requires CallsBelow(reg, a + b, bound)
    ensures CallsBelow(reg, a, bound) && CallsBelow(reg, b, bound) && Resolves(reg, a)
  {
    forall k | 0 <= k < |a| ensures a[k] == (a + b)[k] {}
    forall k | 0 <= k < |b| ensures b[k] == (a + b)[|a| + k] {}
  }

  /** The owner of a byte depends only on the scripts the blocks reach: a
      registry that extends the first one, and any bound that shows
      termination, give the same answer. */
  lemma {:induction false} DebugInfoExtends(reg: Registry, r: Registry, debugId: string, blocks: seq<Block>, b1: nat, b2: nat, position: nat)
    requires Valid(reg) && Valid(r) && Extends(reg, r)
    requires CallsBelow(reg, blocks, b1) && CallsBelow(r, blocks, b2)
    ensures DebugInfoIn(r, debugId, blocks, b2, position) == DebugInfoIn(reg, debugId, blocks, b1, position)
    decreases b1, |blocks|
  {
    if blocks != [] {
      var rest := blocks[1..];
      assert blocks == [blocks[0]] + rest;
      assert CallsBelow(reg, rest, b1) && CallsBelow(r, rest, b2) by {
        forall k | 0 <= k < |rest| ensures rest[k] == blocks[k + 1] {}
      }
      var len := BlockSize(reg, blocks[0]);
      assert BlockSize(r, blocks[0]) == len;
      if position < len {
        match blocks[0]
        case Script(_) =>
        case Call(id) =>
          assert EntryOk(reg, id) && EntryOk(r, id);
          DebugInfoExtends(reg, r, reg.scripts[id].debugIdentifier, reg.scripts[id].blocks,
                           reg.order[id], r.order[id], position);
      } else {
        DebugInfoExtends(reg, r, debugId, rest, b1, b2, position - len);
      }
    }
  }

  /** A trailing literal run owns the bytes between the prefix's size and the
      run's end; nothing owns the bytes past it. */
  lemma DebugInfoSnocScript(reg: Registry, debugId: string, prefix: seq<Block>, run: seq<Instruction>, bound: nat, position: nat)
    requires Valid(reg) && CallsBelow(reg, prefix, bound)
    ensures CallsBelow(reg, prefix + [Script(run)], bound) && Resolves(reg, prefix)
    ensures DebugInfoIn(reg, debugId, prefix + [Script(run)], bound, position)
         == if position < SizeOf(reg, prefix) then DebugInfoIn(reg, debugId, prefix, bound, position)
            else if position < SizeOf(reg, prefix) + |Encode(run)| then Some(debugId)
            else None
  {
    CallsBelowSnocScript(reg, prefix, run, bound);
    DebugInfoAppend(reg, debugId, prefix, [Script(run)], bound, position);
    assert [Script(run)][1..] == [];
  }

  lemma CallsBelowSnocScript(reg: Registry, prefix: seq<Block>, run: seq<Instruction>, bound: nat)
    requires CallsBelow(reg, prefix, bound)
    ensures CallsBelow(reg, prefix + [Script(run)], bound)
  {
    var bs := prefix + [Script(run)];
    forall k | 0 <= k < |bs| && bs[k].Call?
      ensures bs[k].id in reg.scripts && bs[k].id in reg.order && reg.order[bs[k].id] < bound
    {
      assert bs[k] == prefix[k];
    }
  }

  /** Appending an instruction to the trailing literal run: its bytes are
      owned by `debugId`, every earlier byte keeps its owner. */
  lemma AppendToScriptBlockDebugInfo(reg: Registry, debugId: string, blocks: seq<Block>, ins: Instruction, bound: nat, position: nat)
    requires Valid(reg) && CallsBelow(reg, blocks, bound)
    ensures CallsBelow(reg, AppendToScriptBlock(blocks, ins), bound) && Resolves(reg, blocks)
    ensures DebugInfoIn(reg, debugId, AppendToScriptBlock(blocks, ins), bound, SizeOf(reg, blocks)) == Some(debugId)
    ensures position < SizeOf(reg, blocks) ==>
      DebugInfoIn(reg, debugId, AppendToScriptBlock(blocks, ins), bound, position) == DebugInfoIn(reg, debugId, blocks, bound, position)
  {
    var after := AppendToScriptBlock(blocks, ins);
    if |blocks| > 0 && blocks[|blocks| - 1].Script? {
      var prefix, run := blocks[..|blocks| - 1], blocks[|blocks| - 1].instrs;
      assert blocks == prefix + [Script(run)];
      assert after == prefix + [Script(run + [ins])];
      CallsBelowPrefix(reg, blocks, bound, |blocks| - 1);
      ExtendRunDebugInfo(reg, debugId, prefix, run, ins, bound, position);
    } else {
      assert after == blocks + [Script([ins])];
      NewRunDebugInfo(reg, debugId, blocks, ins, bound, position);
    }
  }

  lemma ExtendRunDebugInfo(reg: Registry, debugId: string, prefix: seq<Block>, run: seq<Instruction>, ins: Instruction, bound: nat, position: nat)
    requires Valid(reg) && CallsBelow(reg, prefix, bound)
    ensures CallsBelow(reg, prefix + [Script(run)], bound) && CallsBelow(reg, prefix + [Script(run + [ins])], bound)
    ensures Resolves(reg, prefix + [Script(run)])
    ensures var n := SizeOf(reg, prefix + [Script(run)]);
      DebugInfoIn(reg, debugId, prefix + [Script(run + [ins])], bound, n) == Some(debugId)
      && (position < n ==>
            DebugInfoIn(reg, debugId, prefix + [Script(run + [ins])], bound, position)
            == DebugInfoIn(reg, debugId, prefix + [Script(run)], bound, position))
  {
    DebugInfoSnocScript(reg, debugId, prefix, run, bound, position);
    CallsBelowResolves(reg, prefix + [Script(run)], bound);
    SizeOfSnoc(reg, prefix, Script(run));
    EncodeSnoc(run, ins);
    var n := SizeOf(reg, prefix + [Script(run)]);
    DebugInfoSnocScript(reg, debugId, prefix, run + [ins], bound, position);
    DebugInfoSnocScript(reg, debugId, prefix, run + [ins], bound, n);
  }

  lemma NewRunDebugInfo(reg: Registry, debugId: string, blocks: seq<Block>, ins: Instruction, bound: nat, position: nat)
    requires Valid(reg) && CallsBelow(reg, blocks, bound)
    ensures CallsBelow(reg, blocks + [Script([ins])], bound) && Resolves(reg, blocks)
    ensures DebugInfoIn(reg, debugId, blocks + [Script([ins])], bound, SizeOf(reg, blocks)) == Some(debugId)
    ensures position < SizeOf(reg, blocks) ==>
      DebugInfoIn(reg, debugId, blocks + [Script([ins])], bound, position) == DebugInfoIn(reg, debugId, blocks, bound, position)
  {
    EncodeSingle(ins);
    DebugInfoSnocScript(reg, debugId, blocks, [ins], bound, position);
    DebugInfoSnocScript(reg, debugId, blocks, [ins], bound, SizeOf(reg, blocks));
  }

  /** `push_opcode` and `debug_info`: the new byte belongs to the receiver's
      own debug identifier, and every earlier byte keeps its owner. */
  lemma PushOpcodeDebugInfo(reg: Registry, s: StructuredScript, op: byte, position: nat)
    requires IfsConsistent(s) && Valid(reg) && Closed(reg, s)
    ensures Closed(reg, PushOpcode(s, op))
    ensures DebugInfo(reg, PushOpcode(s, op), s.size) == Some(s.debugIdentifier)
    ensures position < s.size ==> DebugInfo(reg, PushOpcode(s, op), position) == DebugInfo(reg, s, position)
  {
    PushInstructionExpands(reg, s, PushOpcode(s, op), Decoded(op));
    AppendToScriptBlockDebugInfo(reg, s.debugIdentifier, s.blocks, Decoded(op), reg.next, position);
  }

  /** `push_env_script` and `debug_info`: the receiver's bytes keep their
      owners, and byte `s.size + p` of the joined script is owned as byte `p`
      of the script registered under `id`. `r` and `reg'` are the joined
      script and the registry `PushEnvScript` returns. */
  lemma PushEnvScriptDebugInfo(reg: Registry, s: StructuredScript, data: StructuredScript, id: Id,
                               r: StructuredScript, reg': Registry, position: nat)
    requires IfsConsistent(s) && IfsConsistent(data)
    requires Valid(reg) && Closed(reg, s) && Closed(reg, data)
    requires id in reg.scripts ==> reg.scripts[id].size == data.size && reg.scripts[id].blocks == data.blocks
    requires r == s.(size := s.size + data.size,
                     ifs := MergeIfs(s.ifs, s.size, data.ifs),
                     blocks := s.blocks + [Call(id)])
    requires reg' == ThreadAddScript(reg, id, Renamed(s, data))
    ensures Valid(reg') && Closed(reg', r) && EntryOk(reg', id)
    ensures position < s.size ==> DebugInfo(reg', r, position) == DebugInfo(reg, s, position)
    ensures s.size <= position < s.size + data.size ==>
      DebugInfo(reg', r, position)
      == DebugInfoIn(reg', reg'.scripts[id].debugIdentifier, reg'.scripts[id].blocks, reg'.order[id], position - s.size)
  {
    SpliceKeepsRegistry(reg, s, data, id);
    assert EntryOk(reg', id);
    DebugInfoAppend(reg', s.debugIdentifier, s.blocks, [Call(id)], reg'.next, position);
    SizeOfExtends(reg, reg', s.blocks);
    if position < s.size {
      DebugInfoExtends(reg, reg', s.debugIdentifier, s.blocks, reg.next, reg'.next, position);
    } else {
      assert [Call(id)][0] == Call(id);
      assert reg'.scripts[id].size == data.size;
    }
  }

  /** `add_stack_hint`: the hint becomes exactly (access, changed). */
  function AddStackHint(s: StructuredScript, access: int, changed: int): (r: StructuredScript)
    ensures r.stackHint == Some(StackStatus(access, changed))
    ensures r.(stackHint := s.stackHint) == s
  {
    s.(stackHint := Some(StackStatus(access, changed)))
  }

  /** The helper `plain_stack_status` is not part of this model; it is taken
      to give the main-stack pair it is called with. */
  function PlainStackStatus(access: int, changed: int): StackStatus
  {
    StackStatus(access, changed)
  }

  /** `add_altstack_hint`: the main-stack pair of an existing hint is kept;
      without a hint, the alt-stack values become the main-stack pair. */
  function AddAltstackHint(s: StructuredScript, access: int, changed: int): (r: StructuredScript)
    ensures s.stackHint.Some? ==> r == s
    ensures s.stackHint.None? ==> r.stackHint == Some(StackStatus(access, changed))
    ensures r.(stackHint := s.stackHint) == s
  {
    if s.stackHint.Some? then s else s.(stackHint := Some(PlainStackStatus(access, changed)))
  }

  /** `len` is the length of the script's inline expansion. */
  lemma LenIsExpansionLength(reg: Registry, s: StructuredScript)
    requires Valid(reg) && Closed(reg, s)
    ensures Len(s) == |FlattenScript(reg, s)|
  {
    FlattenLength(reg, s.blocks, reg.next);
  }
}
