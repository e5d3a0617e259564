/** The `StackAnalyzer` of src/analyzer.rs: four fields updated in place by
    its handlers while `analyze` walks the blocks of a script. Every method is
    proved to leave the fields as the matching function of stackeffect.dfy
    prescribes, and to fail exactly where that function fails (a panic in
    the source). */
module Analyzer {
  import opened Wrappers
  import opened Opcodes
  import opened Structure
  import opened ScriptNum
  import opened StackEffect

  class StackAnalyzer {
    var deepestStackAccessed: int
    var stackChanged: int
    var ifStack: seq<IfFrame>
    var lastConstant: Option<int>

    /** The fields as an analyzer state. */
    function State(): AnalyzerState
      reads this
    {
      AnalyzerState(StackStatus(deepestStackAccessed, stackChanged), ifStack, lastConstant)
    }

    /** `StackAnalyzer::new`. */
    constructor ()
      ensures State() == Fresh(None)
    {
      deepestStackAccessed := 0;
      stackChanged := 0;
      ifStack := [];
      lastConstant := None;
    }

    /** `stack_change`: the effect lands on the innermost open frame (its
        else-part once it has one), or on the main pair when no IF is open. */
    method StackChange(e: StackStatus)
      modifies this
      ensures State() == StackEffect.StackChange(old(State()), e)
    {
      if ifStack == [] {
        deepestStackAccessed := Min(deepestStackAccessed, e.deepestStackAccessed + stackChanged);
        stackChanged := stackChanged + e.stackChanged;
      } else {
        var n := |ifStack| - 1;
        match ifStack[n]
        case IfFlow(p) =>
          var i := Min(p.deepestStackAccessed, p.stackChanged + e.deepestStackAccessed);
          ifStack := ifStack[..n] + [IfFlow(StackStatus(i, p.stackChanged + e.stackChanged))];
        case ElseFlow(p, q) =>
          var x := Min(q.deepestStackAccessed, q.stackChanged + e.deepestStackAccessed);
          ifStack := ifStack[..n] + [ElseFlow(p, StackStatus(x, q.stackChanged + e.stackChanged))];
      }
    }

    /** `handle_opcode`; `ok` is false where the source panics. */
    method HandleOpcode(op: byte) returns (ok: bool)
      modifies this
      ensures ok == StackEffect.HandleOpcode(old(State()), op).Ok?
      ensures ok ==> State() == StackEffect.HandleOpcode(old(State()), op).value
    {
      if op == OP_IF || op == OP_NOTIF {
        StackChange(StackStatus(-1, -1));
        ifStack := ifStack + [IfFlow(Identity)];
      } else if op == OP_ELSE {
        ok := HandleElse();
        if !ok {
          return;
        }
      } else if op == OP_ENDIF {
        ok := HandleEndIf();
        if !ok {
          return;
        }
      } else if op == OP_PICK || op == OP_ROLL {
        match lastConstant
        case None =>
          return false;
        case Some(x) =>
          StackChange(StackStatus(-1 * (x + 1), if op == OP_PICK then 0 else -1));
      } else {
        var e := OpcodeStackTable(op);
        if e.None? {
          return false;
        }
        StackChange(e.value);
      }
      lastConstant := if IsPushNum(op) then Some(op as int - 0x50) else None;
      ok := true;
    }

    /** The OP_ELSE arm of `handle_opcode`: the innermost frame is popped and
        pushed back with an empty else-part. */
    method HandleElse() returns (ok: bool)
      modifies this
      ensures ok == Else(old(State())).Ok?
      ensures ok ==> State() == Else(old(State())).value
    {
      if ifStack == [] {
        return false;
      }
      var n := |ifStack| - 1;
      var top := ifStack[n];
      ifStack := ifStack[..n];
      match top
      case IfFlow(p) =>
        ifStack := ifStack + [ElseFlow(p, Identity)];
        ok := true;
      case ElseFlow(_, _) =>
        ok := false;
    }

    /** The OP_ENDIF arm of `handle_opcode`: the innermost frame is popped,
        checked, and its effect handed to the enclosing accumulator. */
    method HandleEndIf() returns (ok: bool)
      modifies this
      ensures ok == EndIf(old(State())).Ok?
      ensures ok ==> State() == EndIf(old(State())).value
    {
      if ifStack == [] {
        return false;
      }
      var n := |ifStack| - 1;
      var top := ifStack[n];
      ifStack := ifStack[..n];
      match top
      case IfFlow(p) =>
        if p.stackChanged != 0 {
          return false;
        }
        StackChange(p);
        ok := true;
      case ElseFlow(p, q) =>
        if p.stackChanged != q.stackChanged {
          return false;
        }
        StackChange(StackStatus(Min(p.deepestStackAccessed, q.deepestStackAccessed), p.stackChanged));
        ok := true;
    }

    /** `handle_push_slice`. */
    method HandlePushSlice(data: seq<byte>)
      modifies this
      ensures State() == StackEffect.HandlePushSlice(old(State()), data)
    {
      match ReadScriptInt(data) {
        case Ok(x) =>
          lastConstant := if 0 <= x <= 1000 then Some(x) else None;
        case Err(_) =>
      }
      StackChange(StackStatus(0, 1));
    }

    /** `handle_sub_script`. */
    method HandleSubScript(e: StackStatus)
      modifies this
      ensures State() == StackEffect.HandleSubScript(old(State()), e)
    {
      lastConstant := None;
      StackChange(e);
    }

    /** `get_status`: refuses while an IF is open. */
    method GetStatus() returns (r: Result<StackStatus>)
      ensures r == StackEffect.GetStatus(State())
      ensures r.Ok? ==> r.value == StackStatus(deepestStackAccessed, stackChanged)
    {
      if ifStack != [] {
        return Err("if stack is not empty");
      }
      r := Ok(StackStatus(deepestStackAccessed, stackChanged));
    }

    /** The body of `analyze`'s inner loop: a data push or an opcode. */
    method HandleInstruction(ins: Instruction) returns (ok: bool)
      modifies this
      ensures ok == StackEffect.HandleInstruction(old(State()), ins).Ok?
      ensures ok ==> State() == StackEffect.HandleInstruction(old(State()), ins).value
    {
      match ins
      case PushBytes(data) =>
        HandlePushSlice(data);
        ok := true;
      case Op(code) =>
        ok := HandleOpcode(code);
    }

    /** The inner loop of `analyze` over the instructions of a literal run. */
    method RunScript(instrs: seq<Instruction>) returns (ok: bool)
      modifies this
      ensures ok == RunInstrs(old(State()), instrs).Ok?
      ensures ok ==> State() == RunInstrs(old(State()), instrs).value
    {
      ghost var st0 := State();
      assert instrs[..0] == [];
      var i := 0;
      while i < |instrs|
        invariant 0 <= i <= |instrs|
        invariant RunInstrs(st0, instrs[..i]) == Ok(State())
      {
        RunInstrsNext(st0, instrs, i, State());
        var handled := HandleInstruction(instrs[i]);
        if !handled {
          RunInstrsPrefixErr(st0, instrs, i + 1);
          return false;
        }
        i := i + 1;
      }
      TakeAll(instrs);
      ok := true;
    }

    /** `analyze`: every block in order. Returns the main pair, or an error
        where the source panics; the fields end as the analysis prescribes. */
    method Analyze(reg: Registry, blocks: seq<Block>, bound: nat) returns (r: Result<StackStatus>)
      requires Valid(reg) && CallsBelow(reg, blocks, bound)
      modifies this
      ensures r.Ok? == RunBlocks(reg, old(State()), blocks, bound).Ok?
      ensures r.Ok? ==> State() == RunBlocks(reg, old(State()), blocks, bound).value && r.value == State().main
      decreases bound, |blocks|
    {
      ghost var st0 := State();
      assert blocks[..0] == [];
      var i := 0;
      while i < |blocks|
        invariant 0 <= i <= |blocks|
        invariant CallsBelow(reg, blocks[..i], bound)
        invariant RunBlocks(reg, st0, blocks[..i], bound) == Ok(State())
      {
        RunBlocksStep(reg, st0, blocks, bound, i);
        var handled := AnalyzeBlock(reg, blocks[i], bound);
        if !handled {
          RunBlocksPrefixErr(reg, st0, blocks, bound, i + 1);
          return Err("analysis failed");
        }
        i := i + 1;
      }
      TakeAll(blocks);
      r := Ok(StackStatus(deepestStackAccessed, stackChanged));
    }

    /** One block of `analyze`: a literal run instruction by instruction, a
        call through `get_stack` of the called script. */
    method AnalyzeBlock(reg: Registry, b: Block, bound: nat) returns (ok: bool)
      requires Valid(reg) && (b.Call? ==> b.id in reg.scripts && b.id in reg.order && reg.order[b.id] < bound)
      modifies this
      ensures ok == StackEffect.AnalyzeBlock(reg, old(State()), b, bound).Ok?
      ensures ok ==> State() == StackEffect.AnalyzeBlock(reg, old(State()), b, bound).value
      decreases bound, 0
    {
      match b
      case Script(instrs) =>
        ok := RunScript(instrs);
      case Call(id) =>
        assert EntryOk(reg, id);
        var e := AnalyzeStack(reg, reg.scripts[id], reg.order[id]);
        if e.Err? {
          return false;
        }
        HandleSubScript(e.value);
        ok := true;
    }
  }

  /** `analyze_stack` / `get_stack` of src/builder.rs: the hint when the
      script carries one, otherwise a fresh analyzer over its blocks and its
      status. */
  method AnalyzeStack(reg: Registry, s: StructuredScript, bound: nat) returns (r: Result<StackStatus>)
    requires Valid(reg) && CallsBelow(reg, s.blocks, bound)
    ensures r.Ok? == GetStack(reg, s, bound).Ok?
    ensures r.Ok? ==> r.value == GetStack(reg, s, bound).value
    decreases bound, |s.blocks| + 1
  {
    match s.stackHint
    case Some(h) =>
      r := Ok(h);
    case None =>
      var a := new StackAnalyzer();
      var analyzed := a.Analyze(reg, s.blocks, bound);
      if analyzed.Err? {
        return Err("analysis failed");
      }
      r := a.GetStatus();
  }
}
