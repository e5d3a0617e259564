/** The stack-effect semantics of src/analyzer.rs as pure functions: the state
    of a `StackAnalyzer`, what each of its handlers does to that state, and
    the analysis of a structured script built from them. The class in
    analyzer.dfy is proved against these functions.

    An effect `(deepest, changed)` says how deep below the starting top of
    stack a fragment reads (a negative number of slots) and by how much it
    changes the stack height. */
module StackEffect {
  import opened Wrappers
  import opened Opcodes
  import opened Structure
  import opened ScriptNum

  /** One open IF: the effect of its if-part so far, or of its finished
      if-part and its else-part so far (`IfStackEle`). */
  datatype IfFrame = IfFlow(ifPart: StackStatus) | ElseFlow(ifPart: StackStatus, elsePart: StackStatus)

  /** The fields of a `StackAnalyzer`: the main accumulator, the stack of open
      IF frames, and the last small constant pushed. */
  datatype AnalyzerState = AnalyzerState(main: StackStatus, ifStack: seq<IfFrame>, lastConstant: Option<int>)

  /** The effect of the empty fragment. */
  const Identity := StackStatus(0, 0)

  /** A freshly created analyzer (with the given last constant). */
  function Fresh(lastConstant: Option<int>): AnalyzerState
  {
    AnalyzerState(Identity, [], lastConstant)
  }

  /** The effect of fragment `a` followed by fragment `b`: `b`'s reads start
      `a.stackChanged` slots away from the original top. */
  function Compose(a: StackStatus, b: StackStatus): StackStatus
  {
    StackStatus(Min(a.deepestStackAccessed, a.stackChanged + b.deepestStackAccessed),
                a.stackChanged + b.stackChanged)
  }

  /** A fragment never removes more slots than it reads. */
  predicate Feasible(e: StackStatus)
  {
    e.deepestStackAccessed <= e.stackChanged
  }

  /** A feasible effect whose deepest access is not above the starting top. */
  predicate Sane(e: StackStatus)
  {
    e.deepestStackAccessed <= 0 && Feasible(e)
  }

  lemma ComposeAssoc(a: StackStatus, b: StackStatus, c: StackStatus)
    ensures Compose(Compose(a, b), c) == Compose(a, Compose(b, c))
  {
  }

  /** The empty fragment is a two-sided identity on sane effects (and only a
      right identity on feasible ones). */
  lemma ComposeIdentity(a: StackStatus)
    ensures Feasible(a) <==> Compose(a, Identity) == a
    ensures a.deepestStackAccessed <= 0 <==> Compose(Identity, a) == a
  {
  }

  /** Appending a feasible fragment to a sane accumulator leaves it sane: the
      deepest access never becomes positive. */
  lemma ComposeSane(a: StackStatus, b: StackStatus)
    requires Sane(a) && Feasible(b)
    ensures Sane(Compose(a, b))
    ensures Compose(a, b).deepestStackAccessed <= a.deepestStackAccessed
  {
  }

  /** `stack_change` applied to one IF frame: the else-part once it exists,
      the if-part before. */
  function FeedFrame(f: IfFrame, e: StackStatus): IfFrame
  {
    match f
    case IfFlow(p) => IfFlow(Compose(p, e))
    case ElseFlow(p, q) => ElseFlow(p, Compose(q, e))
  }

  /** `stack_change`: the effect is added to the innermost open IF frame, or
      to the main accumulator when no IF is open. */
  function StackChange(st: AnalyzerState, e: StackStatus): (r: AnalyzerState)
    ensures r.lastConstant == st.lastConstant && |r.ifStack| == |st.ifStack|
    ensures st.ifStack == [] ==> r.main == Compose(st.main, e)
    ensures st.ifStack != [] ==>
      && r.main == st.main
      && r.ifStack[..|r.ifStack| - 1] == st.ifStack[..|st.ifStack| - 1]
      && r.ifStack[|r.ifStack| - 1] == FeedFrame(st.ifStack[|st.ifStack| - 1], e)
  {
    if st.ifStack == [] then st.(main := Compose(st.main, e))
    else
      var n := |st.ifStack| - 1;
      st.(ifStack := st.ifStack[..n] + [FeedFrame(st.ifStack[n], e)])
  }

  /** `opcode_stack_table`: the fixed effect of an opcode, `None` where the
      source panics (ELSE, ENDIF, IFDUP, PICK, ROLL, and every opcode the table
      does not list, OP_RESERVED among them). */
  function OpcodeStackTable(op: byte): Option<StackStatus>
  {
    if op <= OP_PUSHDATA4 then Some(StackStatus(0, 1))
    else if op == OP_PUSHNUM_NEG1 || IsPushNum(op) then Some(StackStatus(0, 1))
    else if op == OP_NOP then Some(StackStatus(0, 0))
    else if op == OP_IF || op == OP_NOTIF then Some(StackStatus(-1, -1))
    else if op == OP_VERIFY || op == OP_TOALTSTACK then Some(StackStatus(-1, -1))
    else if op == OP_FROMALTSTACK then Some(StackStatus(0, 1))
    else if op == OP_2DROP then Some(StackStatus(-2, -2))
    else if op == OP_2DUP then Some(StackStatus(-2, 2))
    else if op == OP_3DUP then Some(StackStatus(-3, 3))
    else if op == OP_2OVER then Some(StackStatus(-4, 2))
    else if op == OP_2ROT then Some(StackStatus(-3, 0))
    else if op == OP_2SWAP then Some(StackStatus(-4, 0))
    else if op == OP_DEPTH then Some(StackStatus(0, 1))
    else if op == OP_DROP then Some(StackStatus(-1, -1))
    else if op == OP_DUP then Some(StackStatus(-1, 1))
    else if op == OP_NIP then Some(StackStatus(-2, -1))
    else if op == OP_OVER then Some(StackStatus(-2, 1))
    else if op == OP_ROT then Some(StackStatus(-3, 0))
    else if op == OP_SWAP then Some(StackStatus(-2, 0))
    else if op == OP_TUCK then Some(StackStatus(-2, 1))
    else if op == OP_SIZE then Some(StackStatus(-1, 1))
    else if op == OP_EQUAL then Some(StackStatus(-2, -1))
    else if op == OP_EQUALVERIFY then Some(StackStatus(-2, -2))
    else if op == OP_1ADD || op == OP_1SUB || op == OP_NEGATE || op == OP_ABS
         || op == OP_NOT || op == OP_0NOTEQUAL then Some(StackStatus(-1, 0))
    else if op == OP_ADD || op == OP_SUB || op == OP_BOOLAND || op == OP_BOOLOR
         || op == OP_NUMEQUAL then Some(StackStatus(-2, -1))
    else if op == OP_NUMEQUALVERIFY then Some(StackStatus(-2, -2))
    else if OP_NUMNOTEQUAL <= op <= OP_GREATERTHANOREQUAL then Some(StackStatus(-2, -1))
    else if op == OP_MIN || op == OP_MAX then Some(StackStatus(-2, -1))
    else if op == OP_WITHIN then Some(StackStatus(-3, -2))
    else if OP_RIPEMD160 <= op <= OP_HASH256 then Some(StackStatus(-1, 0))
    else if op == OP_CHECKSIG then Some(StackStatus(-2, -1))
    else if op == OP_CHECKSIGVERIFY then Some(StackStatus(-2, -2))
    else if op == OP_NOP1 || OP_NOP4 <= op <= OP_NOP10 then Some(StackStatus(0, 0))
    else if op == OP_CLTV || op == OP_CSV then Some(StackStatus(1, 1))
    else None
  }

  /** Every listed opcode removes no more than it reads, and all but the two
      timelock checks read at or below the top of stack; the table refuses the
      data-dependent and flow opcodes and OP_RESERVED. */
  lemma OpcodeStackTableSound(op: byte)
    ensures OpcodeStackTable(op).Some? ==> Feasible(OpcodeStackTable(op).value)
    ensures OpcodeStackTable(op).Some? && op != OP_CLTV && op != OP_CSV ==> Sane(OpcodeStackTable(op).value)
    ensures op in {OP_ELSE, OP_ENDIF, OP_IFDUP, OP_PICK, OP_ROLL, OP_RESERVED} ==> OpcodeStackTable(op).None?
  {
  }

  lemma OpcodeStackTableVectors()
    ensures OpcodeStackTable(OP_DUP) == Some(StackStatus(-1, 1))
    ensures OpcodeStackTable(OP_ADD) == Some(StackStatus(-2, -1))
    ensures OpcodeStackTable(OP_WITHIN) == Some(StackStatus(-3, -2))
    ensures OpcodeStackTable(OP_PUSHDATA1) == Some(StackStatus(0, 1))
    ensures OpcodeStackTable(OP_PUSHNUM_16) == Some(StackStatus(0, 1))
    ensures OpcodeStackTable(OP_CLTV) == Some(StackStatus(1, 1))
    ensures OpcodeStackTable(OP_CSV) == Some(StackStatus(1, 1))
  {
  }

  /** OP_ELSE turns the innermost if-frame into an if/else frame; with no open
      IF, or after an ELSE, it panics. */
  function Else(st: AnalyzerState): Result<AnalyzerState>
  {
    if st.ifStack == [] then Err("called Option::unwrap() on a None value")
    else
      var n := |st.ifStack| - 1;
      match st.ifStack[n]
      case IfFlow(p) => Ok(st.(ifStack := st.ifStack[..n] + [ElseFlow(p, Identity)]))
      case ElseFlow(_, _) => Err("shouldn't happend")
  }

  /** OP_ENDIF closes the innermost frame and hands its effect to the enclosing
      accumulator: an if-only frame must not change the stack, an if/else
      frame's arms must change it equally, and the merged effect reads as deep
      as the deeper arm. */
  function EndIf(st: AnalyzerState): Result<AnalyzerState>
  {
    if st.ifStack == [] then Err("called Option::unwrap() on a None value")
    else
      var n := |st.ifStack| - 1;
      var outer := st.(ifStack := st.ifStack[..n]);
      match st.ifStack[n]
      case IfFlow(p) =>
        if p.stackChanged != 0 then Err("only_if_flow shouldn't change stack status")
        else Ok(StackChange(outer, p))
      case ElseFlow(p, q) =>
        if p.stackChanged != q.stackChanged then Err("if_flow and else_flow should change stack in the same way")
        else Ok(StackChange(outer, StackStatus(Min(p.deepestStackAccessed, q.deepestStackAccessed), p.stackChanged)))
  }

  /** The effect of OP_PICK (`roll` false) or OP_ROLL (`roll` true) once the
      index `x` is known: it reads `x + 1` slots deep; ROLL also removes the
      index. */
  function PickRollEffect(x: int, roll: bool): StackStatus
  {
    StackStatus(-1 * (x + 1), if roll then -1 else 0)
  }

  /** OP_IF / OP_NOTIF: their own (-1, -1) on the enclosing accumulator,
      then a new if-frame with an empty effect. */
  function OpenIf(st: AnalyzerState): AnalyzerState
  {
    var c := StackChange(st, StackStatus(-1, -1));
    c.(ifStack := c.ifStack + [IfFlow(Identity)])
  }

  /** OP_PICK (`roll` false) and OP_ROLL (`roll` true) need the last constant. */
  function PickRoll(st: AnalyzerState, roll: bool): Result<AnalyzerState>
  {
    match st.lastConstant
    case None => Err("need to be handled manually for op_pick/op_roll")
    case Some(x) => Ok(StackChange(st, PickRollEffect(x, roll)))
  }

  /** Any other opcode: its entry in the table, or a panic. */
  function TableOp(st: AnalyzerState, op: byte): Result<AnalyzerState>
  {
    match OpcodeStackTable(op)
    case None => Err("not implemantation")
    case Some(e) => Ok(StackChange(st, e))
  }

  /** The first half of `handle_opcode`: the stack effect of `op`. */
  function OpcodeFlow(st: AnalyzerState, op: byte): Result<AnalyzerState>
  {
    if op == OP_IF || op == OP_NOTIF then Ok(OpenIf(st))
    else if op == OP_ELSE then Else(st)
    else if op == OP_ENDIF then EndIf(st)
    else if op == OP_PICK || op == OP_ROLL then PickRoll(st, op == OP_ROLL)
    else TableOp(st, op)
  }

  /** `handle_opcode`: the stack effect, then the last constant is set by
      OP_1..OP_16 and cleared by every other opcode. */
  function HandleOpcode(st: AnalyzerState, op: byte): Result<AnalyzerState>
  {
    var flowed :- OpcodeFlow(st, op);
    Ok(flowed.(lastConstant := if IsPushNum(op) then Some(op as int - 0x50) else None))
  }

  /** `handle_push_slice`: a push adds one slot. A push that reads as a script
      number in [0, 1000] becomes the last constant, one out of that range
      clears it, and one that is not a valid script number leaves it as is. */
  function HandlePushSlice(st: AnalyzerState, data: seq<byte>): AnalyzerState
  {
    var lc := match ReadScriptInt(data)
      case Ok(x) => if 0 <= x <= 1000 then Some(x) else None
      case Err(_) => st.lastConstant;
    StackChange(st.(lastConstant := lc), StackStatus(0, 1))
  }

  /** `handle_sub_script`: a called script counts as one fragment with its
      summary effect, and the last constant is forgotten. */
  function HandleSubScript(st: AnalyzerState, e: StackStatus): AnalyzerState
  {
    StackChange(st.(lastConstant := None), e)
  }

  function HandleInstruction(st: AnalyzerState, ins: Instruction): Result<AnalyzerState>
  {
    match ins
    case PushBytes(data) => Ok(HandlePushSlice(st, data))
    case Op(code) => HandleOpcode(st, code)
  }

  /** The instructions of a literal run, fed one by one. */
  function RunInstrs(st: AnalyzerState, instrs: seq<Instruction>): Result<AnalyzerState>
    decreases |instrs|
  {
    if instrs == [] then Ok(st)
    else
      var s :- RunInstrs(st, instrs[..|instrs| - 1]);
      HandleInstruction(s, instrs[|instrs| - 1])
  }

  /** `get_status`: the main accumulator, provided no IF is left open. What
      the analysis of a script yields through it is stated by GetStackSane
      and CallInline. */
  function GetStatus(st: AnalyzerState): (r: Result<StackStatus>)
    ensures r.Ok? <==> st.ifStack == []
    ensures r.Ok? ==> r.value == st.main
  {
    if st.ifStack != [] then Err("if stack is not empty") else Ok(st.main)
  }

  /** `analyze`: every block in order; a literal run instruction by
      instruction, a call through the called script's summary. */
  function RunBlocks(reg: Registry, st: AnalyzerState, blocks: seq<Block>, bound: nat): Result<AnalyzerState>
    requires Valid(reg) && CallsBelow(reg, blocks, bound)
    decreases bound, |blocks|
  {
    if blocks == [] then Ok(st)
    else
      CallsBelowPrefix(reg, blocks, bound, |blocks| - 1);
      var s :- RunBlocks(reg, st, blocks[..|blocks| - 1], bound);
      AnalyzeBlock(reg, s, blocks[|blocks| - 1], bound)
  }

  function AnalyzeBlock(reg: Registry, st: AnalyzerState, b: Block, bound: nat): Result<AnalyzerState>
    requires Valid(reg) && (b.Call? ==> b.id in reg.scripts && b.id in reg.order && reg.order[b.id] < bound)
    decreases bound, 0
  {
    match b
    case Script(instrs) => RunInstrs(st, instrs)
    case Call(id) =>
      assert EntryOk(reg, id);
      var e :- GetStack(reg, reg.scripts[id], reg.order[id]);
      Ok(HandleSubScript(st, e))
  }

  /** `get_stack` / `analyze_stack`: the stack hint verbatim when one is set,
      otherwise a fresh analyzer run over the script and its status. */
  function GetStack(reg: Registry, s: StructuredScript, bound: nat): Result<StackStatus>
    requires Valid(reg) && CallsBelow(reg, s.blocks, bound)
    decreases bound, |s.blocks| + 1
  {
    match s.stackHint
    case Some(h) => Ok(h)
    case None =>
      var f :- RunBlocks(reg, Fresh(None), s.blocks, bound);
      GetStatus(f)
  }

  // ---------------------------------------------------------------------
  // Unfolding the analysis one element at a time

  lemma RunInstrsSnoc(st: AnalyzerState, init: seq<Instruction>, x: Instruction)
    ensures RunInstrs(st, init + [x])
      == match RunInstrs(st, init) case Ok(s) => HandleInstruction(s, x) case Err(m) => Err(m)
  {
    assert (init + [x])[..|init|] == init;
  }

  /** The run over the first `i + 1` instructions is the run over the first
      `i` (here `cur`) followed by instruction `i`. */
  lemma RunInstrsNext(st: AnalyzerState, instrs: seq<Instruction>, i: nat, cur: AnalyzerState)
    requires i < |instrs| && RunInstrs(st, instrs[..i]) == Ok(cur)
    ensures RunInstrs(st, instrs[..i + 1]) == HandleInstruction(cur, instrs[i])
  {
    TakeSnoc(instrs, i);
    RunInstrsSnoc(st, instrs[..i], instrs[i]);
  }

  /** Once a prefix of a run fails, the whole run fails. */
  lemma {:induction false} RunInstrsPrefixErr(st: AnalyzerState, instrs: seq<Instruction>, n: nat)
    requires n <= |instrs| && RunInstrs(st, instrs[..n]).Err?
    ensures RunInstrs(st, instrs).Err?
    decreases |instrs| - n
  {
    if n == |instrs| {
      TakeAll(instrs);
    } else {
      TakeSnoc(instrs, n);
      RunInstrsSnoc(st, instrs[..n], instrs[n]);
      RunInstrsPrefixErr(st, instrs, n + 1);
    }
  }

  /** The analysis of the first `i + 1` blocks is that of the first `i`
      followed by block `i`. */
  lemma RunBlocksStep(reg: Registry, st: AnalyzerState, blocks: seq<Block>, bound: nat, i: nat)
    requires Valid(reg) && CallsBelow(reg, blocks, bound) && i < |blocks|
    ensures CallsBelow(reg, blocks[..i], bound) && CallsBelow(reg, blocks[..i + 1], bound)
    ensures blocks[i].Call? ==> blocks[i].id in reg.scripts && blocks[i].id in reg.order && reg.order[blocks[i].id] < bound
    ensures RunBlocks(reg, st, blocks[..i + 1], bound)
      == match RunBlocks(reg, st, blocks[..i], bound)
         case Ok(s) => AnalyzeBlock(reg, s, blocks[i], bound)
         case Err(m) => Err(m)
  {
    CallsBelowPrefix(reg, blocks, bound, i);
    CallsBelowPrefix(reg, blocks, bound, i + 1);
    TakeSnoc(blocks, i);
    assert blocks[..i + 1][..i] == blocks[..i];
  }

  /** Once the analysis of a prefix of the blocks fails, the whole fails. */
  lemma {:induction false} RunBlocksPrefixErr(reg: Registry, st: AnalyzerState, blocks: seq<Block>, bound: nat, n: nat)
    requires Valid(reg) && CallsBelow(reg, blocks, bound) && n <= |blocks|
    requires CallsBelow(reg, blocks[..n], bound) && RunBlocks(reg, st, blocks[..n], bound).Err?
    ensures RunBlocks(reg, st, blocks, bound).Err?
    decreases |blocks| - n
  {
    if n == |blocks| {
      TakeAll(blocks);
    } else {
      RunBlocksStep(reg, st, blocks, bound, n);
      RunBlocksPrefixErr(reg, st, blocks, bound, n + 1);
    }
  }

  // ---------------------------------------------------------------------
  // The rules of the individual handlers

  /** OP_IF and OP_NOTIF first apply their own (-1, -1) to the enclosing
      accumulator, then open an if-frame with an empty effect. */
  lemma IfOpensFrame(st: AnalyzerState, op: byte)
    requires op == OP_IF || op == OP_NOTIF
    ensures HandleOpcode(st, op).Ok?
    ensures var r := HandleOpcode(st, op).value;
      && r.ifStack == StackChange(st, StackStatus(-1, -1)).ifStack + [IfFlow(Identity)]
      && r.main == StackChange(st, StackStatus(-1, -1)).main
      && r.lastConstant == None
  {
  }

  /** OP_ELSE needs an innermost frame that has no else-part yet. */
  lemma ElseRules(st: AnalyzerState)
    ensures HandleOpcode(st, OP_ELSE).Ok? <==> st.ifStack != [] && st.ifStack[|st.ifStack| - 1].IfFlow?
    ensures HandleOpcode(st, OP_ELSE).Ok? ==>
      var n := |st.ifStack| - 1;
      HandleOpcode(st, OP_ELSE).value
        == AnalyzerState(st.main, st.ifStack[..n] + [ElseFlow(st.ifStack[n].ifPart, Identity)], None)
  {
  }

  /** OP_ENDIF: an if-only frame is accepted exactly when it leaves the stack
      height unchanged, an if/else frame exactly when both arms change it by
      the same amount; the merged effect (the deeper of the two reads, the
      common change) lands on the enclosing accumulator: the main one when
      the closed IF was the outermost, else the current arm of the frame
      around it. */
  lemma EndIfRules(st: AnalyzerState)
    ensures st.ifStack == [] ==> HandleOpcode(st, OP_ENDIF).Err?
    ensures st.ifStack != [] && st.ifStack[|st.ifStack| - 1].IfFlow? ==>
      var p := st.ifStack[|st.ifStack| - 1].ifPart;
      (HandleOpcode(st, OP_ENDIF).Ok? <==> p.stackChanged == 0)
      && (HandleOpcode(st, OP_ENDIF).Ok? && |st.ifStack| == 1 ==>
            HandleOpcode(st, OP_ENDIF).value == AnalyzerState(Compose(st.main, p), [], None))
      && (HandleOpcode(st, OP_ENDIF).Ok? && |st.ifStack| >= 2 ==>
            var m := |st.ifStack| - 2;
            HandleOpcode(st, OP_ENDIF).value
              == AnalyzerState(st.main, st.ifStack[..m] + [FeedFrame(st.ifStack[m], p)], None))
    ensures st.ifStack != [] && st.ifStack[|st.ifStack| - 1].ElseFlow? ==>
      var p, q := st.ifStack[|st.ifStack| - 1].ifPart, st.ifStack[|st.ifStack| - 1].elsePart;
      (HandleOpcode(st, OP_ENDIF).Ok? <==> p.stackChanged == q.stackChanged)
      && (HandleOpcode(st, OP_ENDIF).Ok? && |st.ifStack| == 1 ==>
            HandleOpcode(st, OP_ENDIF).value
              == AnalyzerState(Compose(st.main, StackStatus(Min(p.deepestStackAccessed, q.deepestStackAccessed), p.stackChanged)), [], None))
      && (HandleOpcode(st, OP_ENDIF).Ok? && |st.ifStack| >= 2 ==>
            var m := |st.ifStack| - 2;
            HandleOpcode(st, OP_ENDIF).value
              == AnalyzerState(st.main, st.ifStack[..m]
                   + [FeedFrame(st.ifStack[m], StackStatus(Min(p.deepestStackAccessed, q.deepestStackAccessed), p.stackChanged))], None))
    ensures HandleOpcode(st, OP_ENDIF).Ok? ==> |HandleOpcode(st, OP_ENDIF).value.ifStack| == |st.ifStack| - 1
  {
  }

  /** OP_PICK and OP_ROLL are resolved through the last constant `x`: they read
      `x + 1` slots deep, and ROLL removes one slot; the effect lands on the
      main accumulator or, inside an IF, on the current arm of the innermost
      frame. Without a known constant the analysis stops. */
  lemma PickRollRules(st: AnalyzerState, op: byte)
    requires op == OP_PICK || op == OP_ROLL
    ensures HandleOpcode(st, op).Ok? <==> st.lastConstant.Some?
    ensures st.lastConstant.Some? && st.ifStack == [] ==>
      var x := st.lastConstant.value;
      HandleOpcode(st, op).value
        == AnalyzerState(Compose(st.main, StackStatus(-(x + 1), if op == OP_PICK then 0 else -1)), [], None)
    ensures st.lastConstant.Some? && st.ifStack != [] ==>
      var x, m := st.lastConstant.value, |st.ifStack| - 1;
      HandleOpcode(st, op).value
        == AnalyzerState(st.main, st.ifStack[..m] + [FeedFrame(st.ifStack[m], StackStatus(-(x + 1), if op == OP_PICK then 0 else -1))], None)
  {
  }

  /** OP_RESERVED (the debug marker) and every other opcode missing from the
      table stop the analysis. */
  lemma UnlistedOpcodeFails(st: AnalyzerState, op: byte)
    requires OpcodeStackTable(op).None? && op !in {OP_ELSE, OP_ENDIF, OP_PICK, OP_ROLL}
    ensures HandleOpcode(st, op).Err?
  {
  }

  /** The last constant: OP_1..OP_16 set it to their number, every other
      opcode and every called script clear it, and a data push sets it when
      it reads as a number in [0, 1000], clears it when it reads as another
      number and leaves it alone when it is not a valid script number. */
  lemma LastConstantRules(st: AnalyzerState, op: byte, data: seq<byte>, e: StackStatus)
    ensures HandleOpcode(st, op).Ok? ==>
      HandleOpcode(st, op).value.lastConstant == (if IsPushNum(op) then Some(op as int - 0x50) else None)
    ensures HandleSubScript(st, e).lastConstant == None
    ensures ReadScriptInt(data).Err? ==> HandlePushSlice(st, data).lastConstant == st.lastConstant
    ensures ReadScriptInt(data).Ok? ==>
      var x := ReadScriptInt(data).value;
      HandlePushSlice(st, data).lastConstant == (if 0 <= x <= 1000 then Some(x) else None)
  {
  }

  // ---------------------------------------------------------------------
  // The deepest access never becomes positive
  //
  // `deepest_stack_accessed` starts at 0 and only ever takes a `min`, so no
  // accumulator reads above the top of stack, whatever effects are fed to
  // it. Feasibility (never removing more than was read) is kept as well
  // when every fed effect is feasible, which needs the stack hints to be.
  // The lemmas below take a flag `feasible`: without it they state the sign
  // alone and assume nothing about the hints; with it they state both.

  /** The deepest access is not above the starting top; with `feasible`, the
      effect is also feasible. */
  predicate AccOk(e: StackStatus, feasible: bool)
  {
    e.deepestStackAccessed <= 0 && (feasible ==> Feasible(e))
  }

  predicate FrameOk(f: IfFrame, feasible: bool)
  {
    match f
    case IfFlow(p) => AccOk(p, feasible)
    case ElseFlow(p, q) => AccOk(p, feasible) && AccOk(q, feasible)
  }

  /** Every accumulator of the state is in order; with `feasible`, the last
      constant is also a valid PICK/ROLL index. */
  predicate StateOk(st: AnalyzerState, feasible: bool)
  {
    && AccOk(st.main, feasible)
    && (forall k :: 0 <= k < |st.ifStack| ==> FrameOk(st.ifStack[k], feasible))
    && (feasible && st.lastConstant.Some? ==> st.lastConstant.value >= 0)
  }

  lemma StackChangeOk(st: AnalyzerState, e: StackStatus, feasible: bool)
    requires StateOk(st, feasible) && (feasible ==> Feasible(e))
    ensures StateOk(StackChange(st, e), feasible)
  {
    if st.ifStack != [] {
      var n := |st.ifStack| - 1;
      var r := StackChange(st, e);
      assert FrameOk(st.ifStack[n], feasible);
      forall k | 0 <= k < |r.ifStack|
        ensures FrameOk(r.ifStack[k], feasible)
      {
        if k < n {
          assert r.ifStack[k] == r.ifStack[..n][k];
          assert FrameOk(st.ifStack[k], feasible);
        }
      }
    }
  }

  /** Dropping the innermost frame keeps the rest in order. */
  lemma OuterOk(st: AnalyzerState, feasible: bool)
    requires StateOk(st, feasible) && st.ifStack != []
    ensures StateOk(st.(ifStack := st.ifStack[..|st.ifStack| - 1]), feasible)
    ensures FrameOk(st.ifStack[|st.ifStack| - 1], feasible)
  {
    var n := |st.ifStack| - 1;
    forall k | 0 <= k < n
      ensures FrameOk(st.ifStack[..n][k], feasible)
    {
      assert st.ifStack[..n][k] == st.ifStack[k];
    }
  }

  lemma EndIfOk(st: AnalyzerState, feasible: bool)
    requires StateOk(st, feasible)
    ensures EndIf(st).Ok? ==> StateOk(EndIf(st).value, feasible)
  {
    if st.ifStack != [] {
      var n := |st.ifStack| - 1;
      var outer := st.(ifStack := st.ifStack[..n]);
      OuterOk(st, feasible);
      match st.ifStack[n]
      case IfFlow(p) =>
        StackChangeOk(outer, p, feasible);
      case ElseFlow(p, q) =>
        StackChangeOk(outer, StackStatus(Min(p.deepestStackAccessed, q.deepestStackAccessed), p.stackChanged), feasible);
    }
  }

  lemma ElseOk(st: AnalyzerState, feasible: bool)
    requires StateOk(st, feasible)
    ensures Else(st).Ok? ==> StateOk(Else(st).value, feasible)
  {
    if st.ifStack != [] {
      OuterOk(st, feasible);
      var n := |st.ifStack| - 1;
      var r := Else(st);
      if r.Ok? {
        forall k | 0 <= k < |r.value.ifStack|
          ensures FrameOk(r.value.ifStack[k], feasible)
        {
          if k < n {
            assert r.value.ifStack[k] == st.ifStack[..n][k];
          }
        }
      }
    }
  }

  lemma OpenIfOk(st: AnalyzerState, feasible: bool)
    requires StateOk(st, feasible)
    ensures StateOk(OpenIf(st), feasible)
  {
    var c := StackChange(st, StackStatus(-1, -1));
    StackChangeOk(st, StackStatus(-1, -1), feasible);
    var r := OpenIf(st);
    forall k | 0 <= k < |r.ifStack|
      ensures FrameOk(r.ifStack[k], feasible)
    {
      if k < |c.ifStack| {
        assert r.ifStack[k] == c.ifStack[k];
      }
    }
  }

  lemma OpcodeFlowOk(st: AnalyzerState, op: byte, feasible: bool)
    requires StateOk(st, feasible)
    ensures OpcodeFlow(st, op).Ok? ==> StateOk(OpcodeFlow(st, op).value, feasible)
  {
    if op == OP_IF || op == OP_NOTIF {
      OpenIfOk(st, feasible);
    } else if op == OP_ELSE {
      ElseOk(st, feasible);
    } else if op == OP_ENDIF {
      EndIfOk(st, feasible);
    } else if op == OP_PICK || op == OP_ROLL {
      if st.lastConstant.Some? {
        StackChangeOk(st, PickRollEffect(st.lastConstant.value, op == OP_ROLL), feasible);
      }
    } else {
      OpcodeStackTableSound(op);
      if OpcodeStackTable(op).Some? {
        StackChangeOk(st, OpcodeStackTable(op).value, feasible);
      }
    }
  }

  /** One instruction keeps every accumulator reading at or below the top,
      and, with `feasible`, keeps them feasible too. */
  lemma HandleInstructionSane(st: AnalyzerState, ins: Instruction, feasible: bool)
    requires StateOk(st, feasible)
    ensures HandleInstruction(st, ins).Ok? ==> StateOk(HandleInstruction(st, ins).value, feasible)
  {
    match ins
    case PushBytes(data) =>
      var lc := HandlePushSlice(st, data).lastConstant;
      StackChangeOk(st.(lastConstant := lc), StackStatus(0, 1), feasible);
    case Op(op) =>
      OpcodeFlowOk(st, op, feasible);
  }

  lemma {:induction false} RunInstrsOk(st: AnalyzerState, instrs: seq<Instruction>, feasible: bool)
    requires StateOk(st, feasible)
    ensures RunInstrs(st, instrs).Ok? ==> StateOk(RunInstrs(st, instrs).value, feasible)
    decreases |instrs|
  {
    if instrs != [] {
      var init := instrs[..|instrs| - 1];
      RunInstrsOk(st, init, feasible);
      if RunInstrs(st, init).Ok? {
        HandleInstructionSane(RunInstrs(st, init).value, instrs[|instrs| - 1], feasible);
      }
    }
  }

  /** Every stack hint in the registry is a feasible effect. */
  predicate HintsFeasible(reg: Registry)
  {
    forall id :: id in reg.scripts && reg.scripts[id].stackHint.Some? ==> Feasible(reg.scripts[id].stackHint.value)
  }

  /** An analysis started with every accumulator at or below the top keeps
      them there, whatever hints the registry holds; with feasible hints and
      a feasible start it also stays feasible. */
  lemma {:induction false} RunBlocksSane(reg: Registry, st: AnalyzerState, blocks: seq<Block>, bound: nat, feasible: bool)
    requires Valid(reg) && CallsBelow(reg, blocks, bound) && StateOk(st, feasible)
    requires feasible ==> HintsFeasible(reg)
    ensures RunBlocks(reg, st, blocks, bound).Ok? ==> StateOk(RunBlocks(reg, st, blocks, bound).value, feasible)
    decreases bound, |blocks|
  {
    if blocks != [] {
      var init := blocks[..|blocks| - 1];
      CallsBelowPrefix(reg, blocks, bound, |blocks| - 1);
      RunBlocksSane(reg, st, init, bound, feasible);
      if RunBlocks(reg, st, init, bound).Ok? {
        AnalyzeBlockSane(reg, RunBlocks(reg, st, init, bound).value, blocks[|blocks| - 1], bound, feasible);
      }
    }
  }

  lemma {:induction false} AnalyzeBlockSane(reg: Registry, st: AnalyzerState, b: Block, bound: nat, feasible: bool)
    requires Valid(reg) && (b.Call? ==> b.id in reg.scripts && b.id in reg.order && reg.order[b.id] < bound)
    requires StateOk(st, feasible) && (feasible ==> HintsFeasible(reg))
    ensures AnalyzeBlock(reg, st, b, bound).Ok? ==> StateOk(AnalyzeBlock(reg, st, b, bound).value, feasible)
    decreases bound, 0
  {
    match b
    case Script(instrs) =>
      RunInstrsOk(st, instrs, feasible);
    case Call(id) =>
      assert EntryOk(reg, id);
      var s := reg.scripts[id];
      if feasible {
        GetStackSane(reg, s, reg.order[id], true);
      }
      if GetStack(reg, s, reg.order[id]).Ok? {
        StackChangeOk(st.(lastConstant := None), GetStack(reg, s, reg.order[id]).value, feasible);
      }
  }

  /** A summary computed for a script without a hint never reads above the
      top, whatever the registry's hints; with feasible hints every summary,
      hint or computed, is feasible. */
  lemma {:induction false} GetStackSane(reg: Registry, s: StructuredScript, bound: nat, feasible: bool)
    requires Valid(reg) && CallsBelow(reg, s.blocks, bound)
    requires feasible ==> HintsFeasible(reg) && (s.stackHint.Some? ==> Feasible(s.stackHint.value))
    ensures GetStack(reg, s, bound).Ok? && feasible ==> Feasible(GetStack(reg, s, bound).value)
    ensures GetStack(reg, s, bound).Ok? && s.stackHint.None? ==> AccOk(GetStack(reg, s, bound).value, feasible)
    decreases bound, |s.blocks| + 1
  {
    if s.stackHint.None? {
      RunBlocksSane(reg, Fresh(None), s.blocks, bound, feasible);
    }
  }

  // ---------------------------------------------------------------------
  // A summary stands for its instructions

  /** The state seen through a prefix with effect `b` run before it. */
  function Rebase(b: StackStatus, st: AnalyzerState): AnalyzerState
  {
    st.(main := Compose(b, st.main))
  }

  function RebaseResult(b: StackStatus, r: Result<AnalyzerState>): Result<AnalyzerState>
  {
    match r
    case Ok(st) => Ok(Rebase(b, st))
    case Err(m) => Err(m)
  }

  lemma StackChangeRebase(b: StackStatus, st: AnalyzerState, e: StackStatus)
    ensures StackChange(Rebase(b, st), e) == Rebase(b, StackChange(st, e))
  {
    ComposeAssoc(b, st.main, e);
  }

  lemma EndIfRebase(b: StackStatus, st: AnalyzerState)
    ensures EndIf(Rebase(b, st)) == RebaseResult(b, EndIf(st))
  {
    if st.ifStack != [] {
      var n := |st.ifStack| - 1;
      var outer := st.(ifStack := st.ifStack[..n]);
      assert Rebase(b, st).(ifStack := st.ifStack[..n]) == Rebase(b, outer);
      match st.ifStack[n]
      case IfFlow(p) =>
        StackChangeRebase(b, outer, p);
      case ElseFlow(p, q) =>
        StackChangeRebase(b, outer, StackStatus(Min(p.deepestStackAccessed, q.deepestStackAccessed), p.stackChanged));
    }
  }

  lemma OpcodeFlowRebase(b: StackStatus, st: AnalyzerState, op: byte)
    ensures OpcodeFlow(Rebase(b, st), op) == RebaseResult(b, OpcodeFlow(st, op))
  {
    if op == OP_IF || op == OP_NOTIF {
      StackChangeRebase(b, st, StackStatus(-1, -1));
    } else if op == OP_ELSE {
    } else if op == OP_ENDIF {
      EndIfRebase(b, st);
    } else if op == OP_PICK || op == OP_ROLL {
      if st.lastConstant.Some? {
        StackChangeRebase(b, st, PickRollEffect(st.lastConstant.value, op == OP_ROLL));
      }
    } else {
      if OpcodeStackTable(op).Some? {
        StackChangeRebase(b, st, OpcodeStackTable(op).value);
      }
    }
  }

  /** Running one instruction commutes with prefixing an effect to the main
      accumulator: the handlers only ever add to the main accumulator. */
  lemma HandleInstructionRebase(b: StackStatus, st: AnalyzerState, ins: Instruction)
    ensures HandleInstruction(Rebase(b, st), ins) == RebaseResult(b, HandleInstruction(st, ins))
  {
    match ins
    case PushBytes(data) =>
      var lc := HandlePushSlice(st, data).lastConstant;
      assert Rebase(b, st).(lastConstant := lc) == Rebase(b, st.(lastConstant := lc));
      StackChangeRebase(b, st.(lastConstant := lc), StackStatus(0, 1));
    case Op(op) =>
      OpcodeFlowRebase(b, st, op);
  }

  lemma {:induction false} RunInstrsRebase(b: StackStatus, st: AnalyzerState, instrs: seq<Instruction>)
    ensures RunInstrs(Rebase(b, st), instrs) == RebaseResult(b, RunInstrs(st, instrs))
    decreases |instrs|
  {
    if instrs != [] {
      var init := instrs[..|instrs| - 1];
      RunInstrsRebase(b, st, init);
      if RunInstrs(st, init).Ok? {
        HandleInstructionRebase(b, RunInstrs(st, init).value, instrs[|instrs| - 1]);
      }
    }
  }

  /** Analysing a literal run after a fragment with effect `st.main` gives
      that effect composed with the run's own analysis from a fresh
      analyzer, and the run fails in one exactly when it fails in the other. */
  lemma InlineEqualsSummary(st: AnalyzerState, instrs: seq<Instruction>)
    requires st.ifStack == [] && Feasible(st.main)
    ensures RunInstrs(st, instrs) == RebaseResult(st.main, RunInstrs(Fresh(st.lastConstant), instrs))
  {
    ComposeIdentity(st.main);
    assert Rebase(st.main, Fresh(st.lastConstant)) == st;
    RunInstrsRebase(st.main, Fresh(st.lastConstant), instrs);
  }

  lemma {:induction false} RunBlocksRebase(reg: Registry, b: StackStatus, st: AnalyzerState, blocks: seq<Block>, bound: nat)
    requires Valid(reg) && CallsBelow(reg, blocks, bound)
    ensures RunBlocks(reg, Rebase(b, st), blocks, bound) == RebaseResult(b, RunBlocks(reg, st, blocks, bound))
    decreases |blocks|
  {
    if blocks != [] {
      var init := blocks[..|blocks| - 1];
      CallsBelowPrefix(reg, blocks, bound, |blocks| - 1);
      RunBlocksRebase(reg, b, st, init, bound);
      var r := RunBlocks(reg, st, init, bound);
      if r.Ok? {
        match blocks[|blocks| - 1]
        case Script(instrs) =>
          RunInstrsRebase(b, r.value, instrs);
        case Call(id) =>
          assert EntryOk(reg, id);
          assert Rebase(b, r.value).(lastConstant := None) == Rebase(b, r.value.(lastConstant := None));
          if GetStack(reg, reg.scripts[id], reg.order[id]).Ok? {
            StackChangeRebase(b, r.value.(lastConstant := None), GetStack(reg, reg.scripts[id], reg.order[id]).value);
          }
      }
    }
  }

  /** `handle_sub_script` with a computed summary gives the same stack result
      as analysing the called script's blocks in place (after forgetting the
      last constant, as the call does): both fail or both succeed, and then
      they agree on everything but the last constant the callee leaves. */
  lemma CallInline(reg: Registry, st: AnalyzerState, id: Id, bound: nat)
    requires Valid(reg) && id in reg.scripts && id in reg.order && reg.order[id] < bound
    requires reg.scripts[id].stackHint.None?
    requires st.ifStack == [] && Feasible(st.main)
    ensures EntryOk(reg, id)
    ensures
      var inline := RunBlocks(reg, st.(lastConstant := None), reg.scripts[id].blocks, reg.order[id]);
      var called := RunBlocks(reg, st, [Call(id)], bound);
      && (called.Ok? <==> inline.Ok? && inline.value.ifStack == [])
      && (called.Ok? ==> called.value == inline.value.(lastConstant := None))
  {
    assert EntryOk(reg, id);
    var callee := reg.scripts[id];
    var own := RunBlocks(reg, Fresh(None), callee.blocks, reg.order[id]);
    ComposeIdentity(st.main);
    assert Rebase(st.main, Fresh(None)) == st.(lastConstant := None);
    RunBlocksRebase(reg, st.main, Fresh(None), callee.blocks, reg.order[id]);
    assert RunBlocks(reg, st, [Call(id)], bound) == AnalyzeBlock(reg, st, Call(id), bound) by {
      assert [Call(id)][..0] == [];
    }
    if own.Ok? && own.value.ifStack == [] {
      assert GetStack(reg, callee, reg.order[id]) == Ok(own.value.main);
      assert HandleSubScript(st, own.value.main) == Rebase(st.main, own.value).(lastConstant := None);
    } else {
      assert GetStack(reg, callee, reg.order[id]).Err?;
    }
  }

  // ---------------------------------------------------------------------
  // Worked examples

  /** Extending a successful run over a prefix of `whole` by its next
      instruction. */
  lemma RunInstrsStep(st: AnalyzerState, whole: seq<Instruction>, k: nat, s: AnalyzerState, r: AnalyzerState)
    requires k < |whole| && RunInstrs(st, whole[..k]) == Ok(s) && HandleInstruction(s, whole[k]) == Ok(r)
    ensures RunInstrs(st, whole[..k + 1]) == Ok(r)
  {
    TakeSnoc(whole, k);
    RunInstrsSnoc(st, whole[..k], whole[k]);
  }

  /** OP_ADD OP_ADD OP_ADD reads four slots deep and removes three. */
  lemma ThreeAdds(w: seq<Instruction>)
    requires w == [Op(OP_ADD), Op(OP_ADD), Op(OP_ADD)]
    ensures RunInstrs(Fresh(None), w) == Ok(AnalyzerState(StackStatus(-4, -3), [], None))
  {
    var s0 := Fresh(None);
    var s2 := AnalyzerState(StackStatus(-3, -2), [], None);
    var s3 := AnalyzerState(StackStatus(-4, -3), [], None);
    TwoAdds(w);
    AddStep(s2, w[2], s3);
    RunInstrsStep(s0, w, 2, s2, s3);
    TakeAll(w);
  }

  lemma TwoAdds(w: seq<Instruction>)
    requires |w| == 3 && w[0] == Op(OP_ADD) && w[1] == Op(OP_ADD)
    ensures RunInstrs(Fresh(None), w[..2]) == Ok(AnalyzerState(StackStatus(-3, -2), [], None))
  {
    var s0, s1, s2 := Fresh(None), AnalyzerState(StackStatus(-2, -1), [], None), AnalyzerState(StackStatus(-3, -2), [], None);
    assert w[..0] == [];
    AddStep(s0, w[0], s1);
    RunInstrsStep(s0, w, 0, s0, s1);
    AddStep(s1, w[1], s2);
    RunInstrsStep(s0, w, 1, s1, s2);
  }

  /** OP_ADD outside any IF reads two slots and leaves one. */
  lemma AddStep(st: AnalyzerState, x: Instruction, r: AnalyzerState)
    requires st.ifStack == [] && x == Op(OP_ADD)
    requires r == AnalyzerState(Compose(st.main, StackStatus(-2, -1)), [], None)
    ensures HandleInstruction(st, x) == Ok(r)
  {
    assert OpcodeStackTable(OP_ADD) == Some(StackStatus(-2, -1));
  }

  lemma ReadScriptInt120()
    ensures ReadScriptInt([120]) == Ok(120)
  {
    assert [120][..0] + [120 % 0x80] == [120];
    assert [120][1..] == [];
  }

  /** `{1} OP_IF {120} OP_ADD OP_ENDIF`: the branch reads one slot below the
      top and leaves the height unchanged. */
  lemma IfBranchExample(w: seq<Instruction>)
    requires w == [Op(OP_PUSHNUM_1), Op(OP_IF), PushBytes([120]), Op(OP_ADD), Op(OP_ENDIF)]
    ensures RunInstrs(Fresh(None), w) == Ok(AnalyzerState(StackStatus(-1, 0), [], None))
  {
    var s3 := AnalyzerState(StackStatus(0, 0), [IfFlow(StackStatus(0, 1))], Some(120));
    var s4 := AnalyzerState(StackStatus(0, 0), [IfFlow(StackStatus(-1, 0))], None);
    var s5 := AnalyzerState(StackStatus(-1, 0), [], None);
    IfBranchOpened(w);
    IfStepAdd(s3, w[3], s4);
    RunInstrsStep(Fresh(None), w, 3, s3, s4);
    IfStepClose(s4, w[4], s5);
    RunInstrsStep(Fresh(None), w, 4, s4, s5);
    TakeAll(w);
  }

  /** The first three steps of the example above. */
  lemma IfBranchOpened(w: seq<Instruction>)
    requires |w| == 5 && w[0] == Op(OP_PUSHNUM_1) && w[1] == Op(OP_IF) && w[2] == PushBytes([120])
    ensures RunInstrs(Fresh(None), w[..3]) == Ok(AnalyzerState(StackStatus(0, 0), [IfFlow(StackStatus(0, 1))], Some(120)))
  {
    var s2 := AnalyzerState(StackStatus(0, 0), [IfFlow(Identity)], None);
    var s3 := AnalyzerState(StackStatus(0, 0), [IfFlow(StackStatus(0, 1))], Some(120));
    IfBranchPrefix(w);
    IfStepPush120(s2, w[2], s3);
    RunInstrsStep(Fresh(None), w, 2, s2, s3);
  }

  lemma IfBranchPrefix(w: seq<Instruction>)
    requires |w| == 5 && w[0] == Op(OP_PUSHNUM_1) && w[1] == Op(OP_IF)
    ensures RunInstrs(Fresh(None), w[..2]) == Ok(AnalyzerState(StackStatus(0, 0), [IfFlow(Identity)], None))
  {
    var s0 := Fresh(None);
    var s1 := AnalyzerState(StackStatus(0, 1), [], Some(1));
    var s2 := AnalyzerState(StackStatus(0, 0), [IfFlow(Identity)], None);
    assert w[..0] == [];
    IfStepPushOne(s0, w[0], s1);
    RunInstrsStep(s0, w, 0, s0, s1);
    IfStepOpen(s1, w[1], s2);
    RunInstrsStep(s0, w, 1, s1, s2);
  }

  lemma IfStepPushOne(st: AnalyzerState, x: Instruction, r: AnalyzerState)
    requires st == Fresh(None) && x == Op(OP_PUSHNUM_1) && r == AnalyzerState(StackStatus(0, 1), [], Some(1))
    ensures HandleInstruction(st, x) == Ok(r)
  {
  }

  lemma IfStepOpen(st: AnalyzerState, x: Instruction, r: AnalyzerState)
    requires st == AnalyzerState(StackStatus(0, 1), [], Some(1)) && x == Op(OP_IF)
    requires r == AnalyzerState(StackStatus(0, 0), [IfFlow(Identity)], None)
    ensures HandleInstruction(st, x) == Ok(r)
  {
    assert OpenIf(st) == r.(lastConstant := Some(1));
  }

  lemma IfStepPush120(st: AnalyzerState, x: Instruction, r: AnalyzerState)
    requires st == AnalyzerState(StackStatus(0, 0), [IfFlow(Identity)], None) && x == PushBytes([120])
    requires r == AnalyzerState(StackStatus(0, 0), [IfFlow(StackStatus(0, 1))], Some(120))
    ensures HandleInstruction(st, x) == Ok(r)
  {
    ReadScriptInt120();
  }

  lemma IfStepAdd(st: AnalyzerState, x: Instruction, r: AnalyzerState)
    requires st == AnalyzerState(StackStatus(0, 0), [IfFlow(StackStatus(0, 1))], Some(120)) && x == Op(OP_ADD)
    requires r == AnalyzerState(StackStatus(0, 0), [IfFlow(StackStatus(-1, 0))], None)
    ensures HandleInstruction(st, x) == Ok(r)
  {
  }

  lemma IfStepClose(st: AnalyzerState, x: Instruction, r: AnalyzerState)
    requires st == AnalyzerState(StackStatus(0, 0), [IfFlow(StackStatus(-1, 0))], None) && x == Op(OP_ENDIF)
    requires r == AnalyzerState(StackStatus(-1, 0), [], None)
    ensures HandleInstruction(st, x) == Ok(r)
  {
  }

  /** The run of `inner_fn2` in tests/test_analyzer.rs: two values are
      duplicated to the alt stack and compared; the if-arm adds them back,
      the else-arm subtracts them. */
  const InnerFn2Run: seq<Instruction> := [
    Op(OP_PUSHNUM_1), Op(OP_DUP), Op(OP_TOALTSTACK), Op(OP_PUSHNUM_2), Op(OP_DUP), Op(OP_TOALTSTACK),
    Op(OP_GREATERTHAN), Op(OP_IF), Op(OP_FROMALTSTACK), Op(OP_FROMALTSTACK), Op(OP_ADD),
    Op(OP_ELSE), Op(OP_FROMALTSTACK), Op(OP_FROMALTSTACK), Op(OP_SUB), Op(OP_ENDIF)]

  /** The analyzer's state after the first `k` instructions of `inner_fn2`. */
  function InnerFn2State(k: nat): AnalyzerState
  {
    var none: Option<int> := None;
    if k == 0 then Fresh(None)
    else if k == 1 then AnalyzerState(StackStatus(0, 1), [], Some(1))
    else if k == 2 then AnalyzerState(StackStatus(0, 2), [], none)
    else if k == 3 then AnalyzerState(StackStatus(0, 1), [], none)
    else if k == 4 then AnalyzerState(StackStatus(0, 2), [], Some(2))
    else if k == 5 then AnalyzerState(StackStatus(0, 3), [], none)
    else if k == 6 then AnalyzerState(StackStatus(0, 2), [], none)
    else if k == 7 then AnalyzerState(StackStatus(0, 1), [], none)
    else if k == 8 then AnalyzerState(StackStatus(0, 0), [IfFlow(StackStatus(0, 0))], none)
    else if k == 9 then AnalyzerState(StackStatus(0, 0), [IfFlow(StackStatus(0, 1))], none)
    else if k == 10 then AnalyzerState(StackStatus(0, 0), [IfFlow(StackStatus(0, 2))], none)
    else if k == 11 then AnalyzerState(StackStatus(0, 0), [IfFlow(StackStatus(0, 1))], none)
    else if k == 12 then AnalyzerState(StackStatus(0, 0), [ElseFlow(StackStatus(0, 1), StackStatus(0, 0))], none)
    else if k == 13 then AnalyzerState(StackStatus(0, 0), [ElseFlow(StackStatus(0, 1), StackStatus(0, 1))], none)
    else if k == 14 then AnalyzerState(StackStatus(0, 0), [ElseFlow(StackStatus(0, 1), StackStatus(0, 2))], none)
    else if k == 15 then AnalyzerState(StackStatus(0, 0), [ElseFlow(StackStatus(0, 1), StackStatus(0, 1))], none)
    else AnalyzerState(StackStatus(0, 1), [], none)
  }

  /** One instruction of `inner_fn2` takes the analyzer from one listed
      state to the next. */
  lemma InnerFn2Step(k: nat)
    requires k < |InnerFn2Run|
    ensures HandleInstruction(InnerFn2State(k), InnerFn2Run[k]) == Ok(InnerFn2State(k + 1))
  {
    if k < 7 {
      InnerFn2StepMain(k);
    } else if k < 11 {
      InnerFn2StepIfArm(k);
    } else {
      InnerFn2StepElseArm(k);
    }
  }

  /** The comparison before the IF, outside any frame. */
  lemma InnerFn2StepMain(k: nat)
    requires k < 7
    ensures HandleInstruction(InnerFn2State(k), InnerFn2Run[k]) == Ok(InnerFn2State(k + 1))
  {
    var x := InnerFn2Run[k];
    if k == 0 || k == 3 {
      assert OpcodeStackTable(x.code) == Some(StackStatus(0, 1));
    } else if k == 1 || k == 4 {
      assert OpcodeStackTable(x.code) == Some(StackStatus(-1, 1));
    } else if k == 2 || k == 5 {
      assert OpcodeStackTable(x.code) == Some(StackStatus(-1, -1));
    } else {
      assert OpcodeStackTable(OP_GREATERTHAN) == Some(StackStatus(-2, -1));
    }
  }

  /** OP_IF and the if-arm. */
  lemma InnerFn2StepIfArm(k: nat)
    requires 7 <= k < 11
    ensures HandleInstruction(InnerFn2State(k), InnerFn2Run[k]) == Ok(InnerFn2State(k + 1))
  {
    var st, x, r := InnerFn2State(k), InnerFn2Run[k], InnerFn2State(k + 1);
    if k == 7 {
      InnerFn2OpenIf(st, x, r);
    } else if k == 10 {
      InnerFn2InIf(st, x, r, StackStatus(0, 2), OP_ADD, StackStatus(-2, -1));
    } else {
      InnerFn2InIf(st, x, r, StackStatus(0, k - 8), OP_FROMALTSTACK, StackStatus(0, 1));
    }
  }

  lemma InnerFn2OpenIf(st: AnalyzerState, x: Instruction, r: AnalyzerState)
    requires st == AnalyzerState(StackStatus(0, 1), [], None) && x == Op(OP_IF)
    requires r == AnalyzerState(StackStatus(0, 0), [IfFlow(StackStatus(0, 0))], None)
    ensures HandleInstruction(st, x) == Ok(r)
  {
    var c := StackChange(st, StackStatus(-1, -1));
    assert c == AnalyzerState(StackStatus(0, 0), [], None);
    assert c.ifStack + [IfFlow(Identity)] == r.ifStack;
    assert OpcodeFlow(st, OP_IF) == Ok(OpenIf(st)) == Ok(r);
  }

  /** A table opcode inside the single open if-arm, main accumulator empty. */
  lemma InnerFn2InIf(st: AnalyzerState, x: Instruction, r: AnalyzerState, p: StackStatus, op: byte, e: StackStatus)
    requires op == OP_ADD || op == OP_FROMALTSTACK
    requires OpcodeStackTable(op) == Some(e)
    requires st == AnalyzerState(StackStatus(0, 0), [IfFlow(p)], None) && x == Op(op)
    requires r == AnalyzerState(StackStatus(0, 0), [IfFlow(Compose(p, e))], None)
    ensures HandleInstruction(st, x) == Ok(r)
  {
    assert st.ifStack[..0] + [FeedFrame(IfFlow(p), e)] == r.ifStack;
    assert StackChange(st, e) == r;
    assert OpcodeFlow(st, op) == TableOp(st, op) == Ok(r);
  }

  /** OP_ELSE, the else-arm and OP_ENDIF. */
  lemma InnerFn2StepElseArm(k: nat)
    requires 11 <= k < 16
    ensures HandleInstruction(InnerFn2State(k), InnerFn2Run[k]) == Ok(InnerFn2State(k + 1))
  {
    var st := InnerFn2State(k);
    if k == 11 {
      InnerFn2Else(st, InnerFn2Run[k], InnerFn2State(12));
    } else if k == 14 {
      assert OpcodeStackTable(OP_SUB) == Some(StackStatus(-2, -1));
    } else if k == 15 {
      assert EndIf(st) == Ok(InnerFn2State(16));
    } else {
      assert OpcodeStackTable(OP_FROMALTSTACK) == Some(StackStatus(0, 1));
    }
  }

  lemma InnerFn2Else(st: AnalyzerState, x: Instruction, r: AnalyzerState)
    requires st == AnalyzerState(StackStatus(0, 0), [IfFlow(StackStatus(0, 1))], None) && x == Op(OP_ELSE)
    requires r == AnalyzerState(StackStatus(0, 0), [ElseFlow(StackStatus(0, 1), StackStatus(0, 0))], None)
    ensures HandleInstruction(st, x) == Ok(r)
  {
    ElseRules(st);
    assert st.ifStack[..0] + [ElseFlow(StackStatus(0, 1), Identity)] == r.ifStack;
  }

  /** Running the first `k` instructions of `inner_fn2` on a fresh analyzer
      reaches the listed state. */
  lemma {:induction false} InnerFn2Prefix(k: nat)
    requires k <= |InnerFn2Run|
    ensures RunInstrs(Fresh(None), InnerFn2Run[..k]) == Ok(InnerFn2State(k))
  {
    if k == 0 {
      assert InnerFn2Run[..0] == [];
    } else {
      InnerFn2Prefix(k - 1);
      InnerFn2Step(k - 1);
      RunInstrsStep(Fresh(None), InnerFn2Run, k - 1, InnerFn2State(k - 1), InnerFn2State(k));
    }
  }

  /** `inner_fn2` as a whole: both arms leave one value, so the script reads
      nothing below the starting top and adds one slot. */
  lemma InnerFn2Summary(run: seq<Instruction>)
    requires run == InnerFn2Run
    ensures RunInstrs(Fresh(None), run) == Ok(AnalyzerState(StackStatus(0, 1), [], None))
  {
    var s16 := InnerFn2State(16);
    assert s16 == AnalyzerState(StackStatus(0, 1), [], None);
    InnerFn2Prefix(16);
    TakeAll(run);
  }

  /** A literal run of plain opcodes encodes to one byte each. */
  lemma {:induction false} EncodeOpcodesLen(w: seq<Instruction>)
    requires forall i :: 0 <= i < |w| ==> w[i].Op?
    ensures |Encode(w)| == |w|
    decreases |w|
  {
    if w != [] {
      var n := |w| - 1;
      assert w == w[..n] + [w[n]];
      EncodeOpcodesLen(w[..n]);
      EncodeSnoc(w[..n], w[n]);
    }
  }

  /** `{ inner_fn2() } { inner_fn2() } OP_ADD` from tests/test_analyzer.rs:
      `inner_fn2` registered once, called twice, and followed by OP_ADD. Its
      summary is derived from its instructions, and `get_stack` of the
      whole reads nothing below the starting top and adds one slot. */
  lemma TwoInnerFn2CallsThenAdd(reg: Registry, inner: StructuredScript, root: StructuredScript)
    requires inner == StructuredScript(16, None, "", IfBookkeeping(0, [], [], (7, 15)), [Script(InnerFn2Run)])
    requires root == StructuredScript(33, None, "", IfBookkeeping(0, [], [], (7, 15)),
                                      [Call(0), Call(0), Script([Op(OP_ADD)])])
    requires reg == Registry(map[0 := inner], map[0 := 0], 1)
    ensures Valid(reg) && Closed(reg, root)
    ensures GetStack(reg, inner, reg.order[0]) == Ok(StackStatus(0, 1))
    ensures GetStack(reg, root, reg.next) == Ok(StackStatus(0, 1))
  {
    InnerFn2Registry(reg, inner);
    InnerFn2Root(reg, root);
    InnerFn2GetStack(reg, inner);
    var bs := root.blocks;
    var s1 := AnalyzerState(StackStatus(0, 1), [], None);
    var s2 := AnalyzerState(StackStatus(0, 2), [], None);
    var s3 := AnalyzerState(StackStatus(0, 1), [], None);
    assert bs[..0] == [];
    CallStep(reg, bs, 0, Fresh(None), s1);
    CallStep(reg, bs, 1, s1, s2);
    AddBlockStep(reg, bs, s2, s3);
    TakeAll(bs);
  }

  /** Analyzing a call of script 0, whose summary is (0, 1), after the first
      `i` blocks. */
  lemma CallStep(reg: Registry, bs: seq<Block>, i: nat, st: AnalyzerState, r: AnalyzerState)
    requires Valid(reg) && CallsBelow(reg, bs, reg.next) && i < |bs| && bs[i] == Call(0) && EntryOk(reg, 0)
    requires GetStack(reg, reg.scripts[0], reg.order[0]) == Ok(StackStatus(0, 1))
    requires RunBlocks(reg, Fresh(None), bs[..i], reg.next) == Ok(st)
    requires r == HandleSubScript(st, StackStatus(0, 1))
    ensures RunBlocks(reg, Fresh(None), bs[..i + 1], reg.next) == Ok(r)
  {
    RunBlocksStep(reg, Fresh(None), bs, reg.next, i);
  }

  /** The trailing OP_ADD of the example, as the third block. */
  lemma AddBlockStep(reg: Registry, bs: seq<Block>, st: AnalyzerState, r: AnalyzerState)
    requires Valid(reg) && CallsBelow(reg, bs, reg.next) && |bs| == 3 && bs[2] == Script([Op(OP_ADD)])
    requires RunBlocks(reg, Fresh(None), bs[..2], reg.next) == Ok(st)
    requires st == AnalyzerState(StackStatus(0, 2), [], None) && r == AnalyzerState(StackStatus(0, 1), [], None)
    ensures RunBlocks(reg, Fresh(None), bs[..3], reg.next) == Ok(r)
  {
    RunBlocksStep(reg, Fresh(None), bs, reg.next, 2);
    RunInstrsSnoc(st, [], Op(OP_ADD));
    AddStep(st, Op(OP_ADD), r);
    assert [] + [Op(OP_ADD)] == [Op(OP_ADD)];
  }

  lemma InnerFn2Registry(reg: Registry, inner: StructuredScript)
    requires inner == StructuredScript(16, None, "", IfBookkeeping(0, [], [], (7, 15)), [Script(InnerFn2Run)])
    requires reg == Registry(map[0 := inner], map[0 := 0], 1)
    ensures Valid(reg) && 0 in reg.scripts && reg.scripts[0] == inner && reg.order[0] == 0
  {
    EncodeOpcodesLen(InnerFn2Run);
    SizeOfSingle(reg, Script(InnerFn2Run));
    assert EntryOk(reg, 0);
  }

  lemma InnerFn2Root(reg: Registry, root: StructuredScript)
    requires Valid(reg) && 0 in reg.scripts && reg.scripts[0].size == 16 && reg.order == map[0 := 0] && reg.next == 1
    requires root == StructuredScript(33, None, "", IfBookkeeping(0, [], [], (7, 15)),
                                      [Call(0), Call(0), Script([Op(OP_ADD)])])
    ensures Closed(reg, root)
  {
    SizeOfSingle(reg, Call(0));
    SizeOfSnoc(reg, [Call(0)], Call(0));
    SizeOfSnoc(reg, [Call(0), Call(0)], Script([Op(OP_ADD)]));
    EncodeSingle(Op(OP_ADD));
    assert [Call(0)] + [Call(0)] == [Call(0), Call(0)];
    assert [Call(0), Call(0)] + [Script([Op(OP_ADD)])] == root.blocks;
  }

  lemma InnerFn2GetStack(reg: Registry, inner: StructuredScript)
    requires Valid(reg) && 0 in reg.scripts && reg.scripts[0] == inner && reg.order[0] == 0
    requires inner == StructuredScript(16, None, "", IfBookkeeping(0, [], [], (7, 15)), [Script(InnerFn2Run)])
    ensures GetStack(reg, inner, 0) == Ok(StackStatus(0, 1))
  {
    var bs := inner.blocks;
    assert bs[..0] == [];
    RunBlocksStep(reg, Fresh(None), bs, 0, 0);
    TakeAll(bs);
    InnerFn2Summary(bs[0].instrs);
  }
}
