/** The chunker of src/chunker.rs: it cuts a structured script into chunks
    whose sizes fall in the window [target - tolerance, target], walking a
    stack of fragments and splitting a fragment that is too large into the
    fragments its blocks stand for.

    The model is split in two: spec functions over the work stack (the top of
    the stack is its last element, as in a `Vec` used as a stack), with
    lemmas about them, and a `Chunker` class whose loop methods are proved
    against those functions. */
module Chunking {
  import opened Wrappers
  import opened Opcodes
  import opened Structure
  import Builder

  /** One chunk: the fragments it holds, in document order, and their total
      size in bytes. */
  datatype Chunk = Chunk(pieces: seq<StructuredScript>, len: nat)

  const NotChunkable := "Not able to chunk up scriptBufs"
  const SubtractOverflow := "attempt to subtract with overflow"

  /** A literal run taken out of a fragment being split becomes a fragment of
      its own: a fresh script with that one run pushed onto it. */
  function ScriptFragment(instrs: seq<Instruction>): StructuredScript
  {
    Builder.New("").(size := |Encode(instrs)|,
                     ifs := Builder.ScanIfs(NoIfs, 0, instrs),
                     blocks := [Script(instrs)])
  }

  /** The fragment a block stands for when its fragment is split. */
  function Child(reg: Registry, b: Block): StructuredScript
    requires b.Call? ==> b.id in reg.scripts
  {
    match b
    case Call(id) => reg.scripts[id]
    case Script(instrs) => ScriptFragment(instrs)
  }

  /** The fragments pushed when `blocks` is split: one per block, the last
      block's pushed first, so that the first block ends on top. */
  function Exploded(reg: Registry, blocks: seq<Block>): seq<StructuredScript>
    requires Resolves(reg, blocks)
  {
    if blocks == [] then []
    else
      var n := |blocks| - 1;
      assert blocks[n].Call? ==> blocks[n].id in reg.scripts;
      [Child(reg, blocks[n])] + Exploded(reg, blocks[..n])
  }

  predicate HasCall(blocks: seq<Block>)
  {
    exists k :: 0 <= k < |blocks| && blocks[k].Call?
  }

  function CallCount(blocks: seq<Block>): nat
  {
    if blocks == [] then 0
    else CallCount(blocks[..|blocks| - 1]) + (if blocks[|blocks| - 1].Call? then 1 else 0)
  }

  predicate AllClosed(reg: Registry, stack: seq<StructuredScript>)
  {
    forall i :: 0 <= i < |stack| ==> Closed(reg, stack[i])
  }

  lemma AllClosedPrefix(reg: Registry, stack: seq<StructuredScript>, n: nat)
    requires AllClosed(reg, stack) && n <= |stack|
    ensures AllClosed(reg, stack[..n])
  {
    forall i | 0 <= i < n ensures Closed(reg, stack[..n][i]) {
      assert stack[..n][i] == stack[i];
    }
  }

  lemma AllClosedSnoc(reg: Registry, stack: seq<StructuredScript>, s: StructuredScript)
    requires AllClosed(reg, stack) && Closed(reg, s)
    ensures AllClosed(reg, stack + [s])
  {
    forall i | 0 <= i < |stack| + 1 ensures Closed(reg, (stack + [s])[i]) {
      if i < |stack| {
        assert (stack + [s])[i] == stack[i];
      }
    }
  }

  /** The number of call nodes in the full expansion of `blocks`: what
      splitting a fragment strictly lowers, since a split fragment holds at
      least one call and each call's body is pushed in its place. */
  function Weight(reg: Registry, blocks: seq<Block>, bound: nat): nat
    requires Structure.Valid(reg) && CallsBelow(reg, blocks, bound)
    decreases bound, |blocks|
  {
    if blocks == [] then 0
    else
      var n := |blocks| - 1;
      CallsBelowPrefix(reg, blocks, bound, n);
      Weight(reg, blocks[..n], bound) +
      match blocks[n]
      case Script(_) => 0
      case Call(id) =>
        assert EntryOk(reg, id);
        1 + Weight(reg, reg.scripts[id].blocks, reg.order[id])
  }

  function FragWeight(reg: Registry, s: StructuredScript): nat
    requires Structure.Valid(reg) && Closed(reg, s)
  {
    Weight(reg, s.blocks, reg.next)
  }

  function StackWeight(reg: Registry, stack: seq<StructuredScript>): nat
    requires Structure.Valid(reg) && AllClosed(reg, stack)
  {
    if stack == [] then 0
    else
      AllClosedPrefix(reg, stack, |stack| - 1);
      StackWeight(reg, stack[..|stack| - 1]) + FragWeight(reg, stack[|stack| - 1])
  }

  /** `a` comes before `b` in the order in which the chunker's work stack
      shrinks: less weight, or the same weight and fewer fragments. */
  predicate Below(reg: Registry, a: seq<StructuredScript>, b: seq<StructuredScript>)
    requires Structure.Valid(reg) && AllClosed(reg, a) && AllClosed(reg, b)
  {
    StackWeight(reg, a) < StackWeight(reg, b)
    || (StackWeight(reg, a) == StackWeight(reg, b) && |a| < |b|)
  }

  /** The bytes of a fragment: its inline expansion. */
  function FragBytes(reg: Registry, s: StructuredScript): seq<byte>
    requires Structure.Valid(reg) && Closed(reg, s)
  {
    Flatten(reg, s.blocks, reg.next)
  }

  /** The bytes still to be chunked, top of the stack first. */
  function StackBytes(reg: Registry, stack: seq<StructuredScript>): seq<byte>
    requires Structure.Valid(reg) && AllClosed(reg, stack)
  {
    if stack == [] then []
    else
      AllClosedPrefix(reg, stack, |stack| - 1);
      FragBytes(reg, stack[|stack| - 1]) + StackBytes(reg, stack[..|stack| - 1])
  }

  /** The bytes of a chunk's fragments, in order. */
  function PiecesBytes(reg: Registry, pieces: seq<StructuredScript>): seq<byte>
    requires Structure.Valid(reg) && AllClosed(reg, pieces)
  {
    if pieces == [] then []
    else
      AllClosedPrefix(reg, pieces, |pieces| - 1);
      PiecesBytes(reg, pieces[..|pieces| - 1]) + FragBytes(reg, pieces[|pieces| - 1])
  }

  function SizeSum(pieces: seq<StructuredScript>): nat
  {
    if pieces == [] then 0
    else SizeSum(pieces[..|pieces| - 1]) + pieces[|pieces| - 1].size
  }

  /** What one turn of `find_next_chunk`'s loop leads to: go on with a new
      stack and new chunk so far, stop with a chunk and the stack left
      behind, or panic. */
  datatype Step =
    | Continue(stack: seq<StructuredScript>, acc: seq<StructuredScript>, accLen: nat)
    | Stop(chunk: Chunk, rest: seq<StructuredScript>)
    | Fail(msg: string)

  /** One turn of `find_next_chunk`'s loop on a non-empty stack: pop the top
      fragment; take it and go on if the chunk stays below the window; split
      it if the chunk would overshoot the target (a fragment without calls
      cannot be split); otherwise take it and stop. Every turn leaves a stack
      below the one it started from. */
  function NextStep(reg: Registry, target: nat, tolerance: nat,
                    stack: seq<StructuredScript>, acc: seq<StructuredScript>, accLen: nat): (r: Step)
    requires Structure.Valid(reg) && AllClosed(reg, stack) && stack != []
    ensures r.Continue? ==> AllClosed(reg, r.stack) && Below(reg, r.stack, stack)
    ensures r.Stop? ==> AllClosed(reg, r.rest) && Below(reg, r.rest, stack)
  {
    var n := |stack| - 1;
    var s, rest := stack[n], stack[..n];
    AllClosedPrefix(reg, stack, n);
    if target < tolerance then Fail(SubtractOverflow)
    else if accLen + s.size < target - tolerance then Continue(rest, acc + [s], accLen + s.size)
    else if accLen + s.size > target then
      if !HasCall(s.blocks) then Fail(NotChunkable)
      else
        ExplodedWeight(reg, rest, s.blocks);
        CallCountPositive(s.blocks);
        Continue(rest + Exploded(reg, s.blocks), acc, accLen)
    else Stop(Chunk(acc + [s], accLen + s.size), rest)
  }

  /** The turn that takes the top fragment and goes on, spelled out. */
  lemma NextStepTakes(reg: Registry, target: nat, tolerance: nat,
                      stack: seq<StructuredScript>, acc: seq<StructuredScript>, accLen: nat)
    requires Structure.Valid(reg) && AllClosed(reg, stack) && stack != []
    requires tolerance <= target && accLen + stack[|stack| - 1].size < target - tolerance
    ensures NextStep(reg, target, tolerance, stack, acc, accLen)
      == Continue(stack[..|stack| - 1], acc + [stack[|stack| - 1]], accLen + stack[|stack| - 1].size)
  {
  }

  /** The turn that takes the top fragment and closes the chunk, spelled out. */
  lemma NextStepStops(reg: Registry, target: nat, tolerance: nat,
                      stack: seq<StructuredScript>, acc: seq<StructuredScript>, accLen: nat)
    requires Structure.Valid(reg) && AllClosed(reg, stack) && stack != []
    requires tolerance <= target && target - tolerance <= accLen + stack[|stack| - 1].size <= target
    ensures NextStep(reg, target, tolerance, stack, acc, accLen)
      == Stop(Chunk(acc + [stack[|stack| - 1]], accLen + stack[|stack| - 1].size), stack[..|stack| - 1])
  {
  }

  /** The turn that splits the top fragment, spelled out. */
  lemma NextStepSplits(reg: Registry, target: nat, tolerance: nat,
                       stack: seq<StructuredScript>, acc: seq<StructuredScript>, accLen: nat)
    requires Structure.Valid(reg) && AllClosed(reg, stack) && stack != []
    requires tolerance <= target && accLen + stack[|stack| - 1].size > target
    ensures Resolves(reg, stack[|stack| - 1].blocks)
    ensures AllClosed(reg, stack[..|stack| - 1] + Exploded(reg, stack[|stack| - 1].blocks))
    ensures NextStep(reg, target, tolerance, stack, acc, accLen)
      == if HasCall(stack[|stack| - 1].blocks)
         then Continue(stack[..|stack| - 1] + Exploded(reg, stack[|stack| - 1].blocks), acc, accLen)
         else Fail(NotChunkable)
  {
    AllClosedPrefix(reg, stack, |stack| - 1);
    ExplodedWeight(reg, stack[..|stack| - 1], stack[|stack| - 1].blocks);
  }

  /** `find_next_chunk`, from a state of its loop: the work stack, the
      fragments taken so far and their total size. It yields the chunk and the
      stack left behind, or the panic that stops it. */
  function NextChunk(reg: Registry, target: nat, tolerance: nat,
                     stack: seq<StructuredScript>, acc: seq<StructuredScript>, accLen: nat)
    : (r: Result<(Chunk, seq<StructuredScript>)>)
    requires Structure.Valid(reg) && AllClosed(reg, stack)
    ensures r.Ok? ==> AllClosed(reg, r.value.1)
    ensures r.Ok? && stack != [] ==> Below(reg, r.value.1, stack)
    decreases StackWeight(reg, stack), |stack|
  {
    if stack == [] then Ok((Chunk(acc, accLen), []))
    else
      match NextStep(reg, target, tolerance, stack, acc, accLen)
      case Continue(stack', acc', accLen') => NextChunk(reg, target, tolerance, stack', acc', accLen')
      case Stop(chunk, rest) => Ok((chunk, rest))
      case Fail(msg) => Err(msg)
  }

  /** `find_chunks`: chunks are cut, in order, until the stack is empty. */
  function Chunks(reg: Registry, target: nat, tolerance: nat, stack: seq<StructuredScript>)
    : (r: Result<seq<Chunk>>)
    requires Structure.Valid(reg) && AllClosed(reg, stack)
    ensures r.Ok? ==> forall i :: 0 <= i < |r.value| ==> AllClosed(reg, r.value[i].pieces)
    decreases StackWeight(reg, stack), |stack|
  {
    if stack == [] then Ok([])
    else
      var next :- NextChunk(reg, target, tolerance, stack, [], 0);
      NextChunkShape(reg, target, tolerance, stack, [], 0);
      var more :- Chunks(reg, target, tolerance, next.1);
      Ok([next.0] + more)
  }

  function Lens(cs: seq<Chunk>): seq<nat>
  {
    if cs == [] then [] else Lens(cs[..|cs| - 1]) + [cs[|cs| - 1].len]
  }

  function PiecesOf(cs: seq<Chunk>): seq<seq<StructuredScript>>
  {
    if cs == [] then [] else PiecesOf(cs[..|cs| - 1]) + [cs[|cs| - 1].pieces]
  }

  function SumLens(cs: seq<Chunk>): nat
  {
    if cs == [] then 0 else cs[0].len + SumLens(cs[1..])
  }

  /** The sum of a list of sizes. */
  function Total(ns: seq<nat>): nat
  {
    if ns == [] then 0 else ns[0] + Total(ns[1..])
  }

  lemma {:induction false} TotalSnoc(ns: seq<nat>, n: nat)
    ensures Total(ns + [n]) == Total(ns) + n
    decreases |ns|
  {
    if ns == [] {
      assert [n][1..] == [];
    } else {
      assert (ns + [n])[1..] == ns[1..] + [n];
      TotalSnoc(ns[1..], n);
    }
  }

  lemma {:induction false} SumLensSnoc(cs: seq<Chunk>, c: Chunk)
    ensures SumLens(cs + [c]) == SumLens(cs) + c.len
    decreases |cs|
  {
    if cs == [] {
      assert [c][1..] == [];
    } else {
      assert (cs + [c])[1..] == cs[1..] + [c];
      SumLensSnoc(cs[1..], c);
    }
  }

  /** The list of sizes `find_chunks` returns holds one entry per chunk, the
      chunk's length, and the entries add up to the chunks' total length. */
  lemma {:induction false} LensTotal(cs: seq<Chunk>)
    ensures |Lens(cs)| == |cs|
    ensures forall i :: 0 <= i < |cs| ==> Lens(cs)[i] == cs[i].len
    ensures Total(Lens(cs)) == SumLens(cs)
    decreases |cs|
  {
    if cs != [] {
      var init, c := cs[..|cs| - 1], cs[|cs| - 1];
      LensTotal(init);
      TotalSnoc(Lens(init), c.len);
      assert cs == init + [c];
      SumLensSnoc(init, c);
    }
  }

  /** The bytes of all chunks, in order. */
  function ChunksBytes(reg: Registry, cs: seq<Chunk>): seq<byte>
    requires Structure.Valid(reg)
    requires forall i :: 0 <= i < |cs| ==> AllClosed(reg, cs[i].pieces)
  {
    if cs == [] then [] else PiecesBytes(reg, cs[0].pieces) + ChunksBytes(reg, cs[1..])
  }

  function Prepend(done: seq<Chunk>, r: Result<seq<Chunk>>): Result<seq<Chunk>>
  {
    if r.Ok? then Ok(done + r.value) else r
  }

  // ---------------------------------------------------------------------
  // Splitting a fragment

  /** The weight of a registered script does not depend on the bound used to
      show that it is finite. */
  lemma {:induction false} WeightBound(reg: Registry, blocks: seq<Block>, b1: nat, b2: nat)
    requires Structure.Valid(reg) && CallsBelow(reg, blocks, b1) && CallsBelow(reg, blocks, b2)
    ensures Weight(reg, blocks, b1) == Weight(reg, blocks, b2)
    decreases |blocks|
  {
    if blocks != [] {
      CallsBelowPrefix(reg, blocks, b1, |blocks| - 1);
      CallsBelowPrefix(reg, blocks, b2, |blocks| - 1);
      WeightBound(reg, blocks[..|blocks| - 1], b1, b2);
    }
  }

  /** The fragment a block splits into is itself a closed, well-sized script
      whose bytes and weight are the block's share of its parent's. */
  /** A literal run's fragment is closed, holds no call, and its bytes are
      the run's encoding. */
  lemma ScriptChild(reg: Registry, instrs: seq<Instruction>)
    requires Structure.Valid(reg)
    ensures Closed(reg, ScriptFragment(instrs))
    ensures FragBytes(reg, ScriptFragment(instrs)) == Encode(instrs)
    ensures FragWeight(reg, ScriptFragment(instrs)) == 0
  {
    var f := ScriptFragment(instrs);
    SizeOfSingle(reg, Script(instrs));
    assert f.blocks[..0] == [];
    assert Flatten(reg, f.blocks, reg.next) == Flatten(reg, [], reg.next) + Encode(instrs);
    assert Weight(reg, f.blocks, reg.next) == Weight(reg, [], reg.next) + 0;
  }

  /** A called script's fragment is closed, and its bytes and weight are
      those its caller's expansion uses for the call. */
  lemma CallChild(reg: Registry, id: Id)
    requires Structure.Valid(reg) && id in reg.scripts
    ensures EntryOk(reg, id) && Closed(reg, reg.scripts[id])
    ensures FragBytes(reg, reg.scripts[id]) == Flatten(reg, reg.scripts[id].blocks, reg.order[id])
    ensures FragWeight(reg, reg.scripts[id]) == Weight(reg, reg.scripts[id].blocks, reg.order[id])
  {
    assert EntryOk(reg, id);
    var callee := reg.scripts[id];
    assert CallsBelow(reg, callee.blocks, reg.next) by {
      forall k | 0 <= k < |callee.blocks| && callee.blocks[k].Call?
        ensures reg.order[callee.blocks[k].id] < reg.next
      {
      }
    }
    FlattenBound(reg, callee.blocks, reg.order[id], reg.next);
    WeightBound(reg, callee.blocks, reg.order[id], reg.next);
  }

  /** Pushing one more fragment adds its weight and puts its bytes first. */
  lemma StackSnoc(reg: Registry, base: seq<StructuredScript>, c: StructuredScript)
    requires Structure.Valid(reg) && AllClosed(reg, base) && Closed(reg, c)
    ensures AllClosed(reg, base + [c])
    ensures StackWeight(reg, base + [c]) == StackWeight(reg, base) + FragWeight(reg, c)
    ensures StackBytes(reg, base + [c]) == FragBytes(reg, c) + StackBytes(reg, base)
  {
    AllClosedSnoc(reg, base, c);
    assert (base + [c])[..|base|] == base;
  }

  lemma PiecesSnoc(reg: Registry, acc: seq<StructuredScript>, c: StructuredScript)
    requires Structure.Valid(reg) && AllClosed(reg, acc) && Closed(reg, c)
    ensures AllClosed(reg, acc + [c])
    ensures PiecesBytes(reg, acc + [c]) == PiecesBytes(reg, acc) + FragBytes(reg, c)
  {
    AllClosedSnoc(reg, acc, c);
    assert (acc + [c])[..|acc|] == acc;
  }

  /** One step of a split: the last block's fragment is pushed first. */
  lemma ExplodedSplit(reg: Registry, base: seq<StructuredScript>, blocks: seq<Block>)
    requires Structure.Valid(reg) && CallsBelow(reg, blocks, reg.next) && blocks != []
    ensures Resolves(reg, blocks) && Resolves(reg, blocks[..|blocks| - 1])
    ensures CallsBelow(reg, blocks[..|blocks| - 1], reg.next)
    ensures base + Exploded(reg, blocks)
            == (base + [Child(reg, blocks[|blocks| - 1])]) + Exploded(reg, blocks[..|blocks| - 1])
  {
    CallsBelowPrefix(reg, blocks, reg.next, |blocks| - 1);
  }

  /** The closedness, bytes and weight of the fragment a block splits into. */
  lemma ChildFacts(reg: Registry, b: Block)
    requires Structure.Valid(reg) && (b.Call? ==> b.id in reg.scripts)
    ensures Closed(reg, Child(reg, b))
    ensures b.Script? ==> FragBytes(reg, Child(reg, b)) == Encode(b.instrs) && FragWeight(reg, Child(reg, b)) == 0
    ensures b.Call? ==>
      && EntryOk(reg, b.id)
      && FragBytes(reg, Child(reg, b)) == Flatten(reg, reg.scripts[b.id].blocks, reg.order[b.id])
      && FragWeight(reg, Child(reg, b)) == Weight(reg, reg.scripts[b.id].blocks, reg.order[b.id])
  {
    match b
    case Script(instrs) => ScriptChild(reg, instrs);
    case Call(id) => CallChild(reg, id);
  }

  /** Pushing the fragments `blocks` splits into keeps the stack closed and
      lowers its weight by the number of calls among `blocks`. */
  lemma {:induction false} ExplodedWeight(reg: Registry, base: seq<StructuredScript>, blocks: seq<Block>)
    requires Structure.Valid(reg) && AllClosed(reg, base) && CallsBelow(reg, blocks, reg.next)
    ensures Resolves(reg, blocks) && AllClosed(reg, base + Exploded(reg, blocks))
    ensures StackWeight(reg, base + Exploded(reg, blocks)) + CallCount(blocks)
            == StackWeight(reg, base) + Weight(reg, blocks, reg.next)
    decreases |blocks|
  {
    if blocks == [] {
      assert base + Exploded(reg, blocks) == base;
    } else {
      var n := |blocks| - 1;
      ExplodedSplit(reg, base, blocks);
      var c := Child(reg, blocks[n]);
      ChildFacts(reg, blocks[n]);
      StackSnoc(reg, base, c);
      ExplodedWeight(reg, base + [c], blocks[..n]);
    }
  }

  /** Pushing the fragments `blocks` splits into puts the bytes of `blocks`
      on top of the bytes already on the stack. */
  lemma {:induction false} ExplodedBytes(reg: Registry, base: seq<StructuredScript>, blocks: seq<Block>)
    requires Structure.Valid(reg) && AllClosed(reg, base) && CallsBelow(reg, blocks, reg.next)
    ensures Resolves(reg, blocks) && AllClosed(reg, base + Exploded(reg, blocks))
    ensures StackBytes(reg, base + Exploded(reg, blocks))
            == Flatten(reg, blocks, reg.next) + StackBytes(reg, base)
    decreases |blocks|
  {
    ExplodedWeight(reg, base, blocks);
    if blocks == [] {
      assert base + Exploded(reg, blocks) == base;
    } else {
      var n := |blocks| - 1;
      ExplodedSplit(reg, base, blocks);
      var c := Child(reg, blocks[n]);
      ChildFacts(reg, blocks[n]);
      StackSnoc(reg, base, c);
      ExplodedBytes(reg, base + [c], blocks[..n]);
    }
  }

  lemma {:induction false} CallCountPositive(blocks: seq<Block>)
    requires HasCall(blocks)
    ensures CallCount(blocks) > 0
    decreases |blocks|
  {
    var n := |blocks| - 1;
    if !blocks[n].Call? {
      var k :| 0 <= k < |blocks| && blocks[k].Call?;
      assert blocks[..n][k].Call?;
      CallCountPositive(blocks[..n]);
    }
  }

  lemma HasCallCons(b: Block, blocks: seq<Block>)
    ensures HasCall([b] + blocks) <==> b.Call? || HasCall(blocks)
  {
    var all := [b] + blocks;
    assert all[0] == b;
    if HasCall(blocks) {
      var k :| 0 <= k < |blocks| && blocks[k].Call?;
      assert all[k + 1] == blocks[k];
    }
    if HasCall(all) && !b.Call? {
      var k :| 0 <= k < |all| && all[k].Call?;
      assert blocks[k - 1] == all[k];
    }
  }

  /** Splitting front to back: the first block's fragment goes on top. */
  lemma {:induction false} ExplodedCons(reg: Registry, b: Block, blocks: seq<Block>)
    requires Resolves(reg, [b] + blocks)
    ensures Resolves(reg, blocks) && (b.Call? ==> b.id in reg.scripts)
    ensures Exploded(reg, [b] + blocks) == Exploded(reg, blocks) + [Child(reg, b)]
    decreases |blocks|
  {
    ResolvesSplit(reg, [b], blocks);
    var all := [b] + blocks;
    assert all[0] == b;
    if blocks == [] {
      assert all == [b];
      assert all[..0] == [];
    } else {
      var n := |blocks| - 1;
      var front := [b] + blocks[..n];
      assert all[..n + 1] == front;
      assert all[n + 1] == blocks[n];
      ResolvesSplit(reg, [b], blocks[..n]);
      ExplodedCons(reg, b, blocks[..n]);
      var c, tail := Child(reg, blocks[n]), Exploded(reg, blocks[..n]);
      assert Exploded(reg, all) == [c] + Exploded(reg, front);
      assert Exploded(reg, front) == tail + [Child(reg, b)];
      assert Exploded(reg, blocks) == [c] + tail;
      assert [c] + (tail + [Child(reg, b)]) == ([c] + tail) + [Child(reg, b)];
    }
  }

  /** Splitting from block `i` on is block `i`'s fragment pushed after the
      fragments of the blocks behind it. */
  lemma ExplodeStep(reg: Registry, blocks: seq<Block>, i: nat)
    requires Resolves(reg, blocks) && i < |blocks|
    ensures Resolves(reg, blocks[i..]) && Resolves(reg, blocks[i + 1..])
    ensures blocks[i].Call? ==> blocks[i].id in reg.scripts
    ensures Exploded(reg, blocks[i..]) == Exploded(reg, blocks[i + 1..]) + [Child(reg, blocks[i])]
    ensures HasCall(blocks[i..]) <==> blocks[i].Call? || HasCall(blocks[i + 1..])
  {
    assert blocks[i..] == [blocks[i]] + blocks[i + 1..];
    ExplodedCons(reg, blocks[i], blocks[i + 1..]);
    HasCallCons(blocks[i], blocks[i + 1..]);
  }

  // ---------------------------------------------------------------------
  // What one chunk satisfies

  /** One turn keeps the chunk so far within the target and adds at most
      one fragment to it; a turn that stops has cut a chunk inside the window
      [target - tolerance, target]; a turn that adds nothing leaves work on
      the stack. */
  lemma StepShape(reg: Registry, target: nat, tolerance: nat,
                  stack: seq<StructuredScript>, acc: seq<StructuredScript>, accLen: nat)
    requires Structure.Valid(reg) && AllClosed(reg, stack) && stack != []
    ensures var r := NextStep(reg, target, tolerance, stack, acc, accLen);
      && (r.Continue? ==>
           && (accLen <= target ==> r.accLen <= target)
           && (r.acc == acc + [stack[|stack| - 1]] || (r.acc == acc && r.accLen == accLen && r.stack != []))
           && (r.acc != acc ==> r.accLen == accLen + stack[|stack| - 1].size))
      && (r.Stop? ==>
           && tolerance <= target && target - tolerance <= r.chunk.len <= target
           && r.chunk.pieces == acc + [stack[|stack| - 1]]
           && r.chunk.len == accLen + stack[|stack| - 1].size)
  {
    var n := |stack| - 1;
    var s := stack[n];
    AllClosedPrefix(reg, stack, n);
    if tolerance <= target && accLen + s.size > target && HasCall(s.blocks) {
      ExplodedWeight(reg, stack[..n], s.blocks);
      CallCountPositive(s.blocks);
      assert Exploded(reg, s.blocks) != [];
    }
  }

  /** Taking the top fragment moves its bytes from the stack to the end of
      the chunk so far. */
  lemma TakeBytes(reg: Registry, stack: seq<StructuredScript>, acc: seq<StructuredScript>)
    requires Structure.Valid(reg) && AllClosed(reg, stack) && stack != [] && AllClosed(reg, acc)
    ensures AllClosed(reg, stack[..|stack| - 1]) && AllClosed(reg, acc + [stack[|stack| - 1]])
    ensures PiecesBytes(reg, acc + [stack[|stack| - 1]]) + StackBytes(reg, stack[..|stack| - 1])
            == PiecesBytes(reg, acc) + StackBytes(reg, stack)
  {
    var n := |stack| - 1;
    StackTop(reg, stack);
    PiecesSnoc(reg, acc, stack[n]);
    var p, f, r := PiecesBytes(reg, acc), FragBytes(reg, stack[n]), StackBytes(reg, stack[..n]);
    assert PiecesBytes(reg, acc + [stack[n]]) == p + f;
    assert StackBytes(reg, stack) == f + r;
    SeqAssoc(p, f, r);
  }

  lemma SeqAssoc(p: seq<byte>, f: seq<byte>, r: seq<byte>)
    ensures (p + f) + r == p + (f + r)
  {
  }

  lemma StackTop(reg: Registry, stack: seq<StructuredScript>)
    requires Structure.Valid(reg) && AllClosed(reg, stack) && stack != []
    ensures AllClosed(reg, stack[..|stack| - 1]) && Closed(reg, stack[|stack| - 1])
    ensures StackBytes(reg, stack) == FragBytes(reg, stack[|stack| - 1]) + StackBytes(reg, stack[..|stack| - 1])
  {
    AllClosedPrefix(reg, stack, |stack| - 1);
  }

  /** Splitting the top fragment leaves the bytes of the stack as they
      were. */
  lemma SplitBytes(reg: Registry, stack: seq<StructuredScript>)
    requires Structure.Valid(reg) && AllClosed(reg, stack) && stack != []
    ensures Resolves(reg, stack[|stack| - 1].blocks)
    ensures AllClosed(reg, stack[..|stack| - 1] + Exploded(reg, stack[|stack| - 1].blocks))
    ensures StackBytes(reg, stack[..|stack| - 1] + Exploded(reg, stack[|stack| - 1].blocks))
            == StackBytes(reg, stack)
  {
    var n := |stack| - 1;
    AllClosedPrefix(reg, stack, n);
    ExplodedBytes(reg, stack[..n], stack[n].blocks);
  }

  /** One turn moves bytes from the stack to the chunk so far without
      losing, duplicating or reordering any. */
  lemma StepBytes(reg: Registry, target: nat, tolerance: nat,
                  stack: seq<StructuredScript>, acc: seq<StructuredScript>, accLen: nat)
    requires Structure.Valid(reg) && AllClosed(reg, stack) && stack != [] && AllClosed(reg, acc)
    ensures var r := NextStep(reg, target, tolerance, stack, acc, accLen);
      && (r.Continue? ==>
           && AllClosed(reg, r.acc)
           && PiecesBytes(reg, r.acc) + StackBytes(reg, r.stack) == PiecesBytes(reg, acc) + StackBytes(reg, stack))
      && (r.Stop? ==>
           && AllClosed(reg, r.chunk.pieces)
           && PiecesBytes(reg, r.chunk.pieces) + StackBytes(reg, r.rest)
              == PiecesBytes(reg, acc) + StackBytes(reg, stack))
  {
    var s := stack[|stack| - 1];
    if tolerance <= target && accLen + s.size > target {
      if HasCall(s.blocks) {
        SplitBytes(reg, stack);
      }
    } else {
      TakeBytes(reg, stack, acc);
    }
  }

  /** A chunk never exceeds the target; a chunk that leaves work behind is
      at least target - tolerance long; a chunk cut from a non-empty stack
      holds at least one fragment more than it started with; its length is
      the sum of its fragments' sizes. */
  lemma {:induction false} NextChunkShape(reg: Registry, target: nat, tolerance: nat,
                                          stack: seq<StructuredScript>, acc: seq<StructuredScript>, accLen: nat)
    requires Structure.Valid(reg) && AllClosed(reg, stack)
    ensures var r := NextChunk(reg, target, tolerance, stack, acc, accLen);
      && (r.Ok? && accLen <= target ==> r.value.0.len <= target)
      && (r.Ok? && r.value.1 != [] ==> tolerance <= target && target - tolerance <= r.value.0.len)
      && (r.Ok? && stack != [] ==> |r.value.0.pieces| > |acc|)
      && (r.Ok? && AllClosed(reg, acc) && AllClosed(reg, stack) ==> AllClosed(reg, r.value.0.pieces))
      && (r.Ok? && accLen == SizeSum(acc) ==> r.value.0.len == SizeSum(r.value.0.pieces))
    decreases StackWeight(reg, stack), |stack|
  {
    if stack != [] {
      var n := |stack| - 1;
      var s := stack[n];
      StepShape(reg, target, tolerance, stack, acc, accLen);
      assert (acc + [s])[..|acc|] == acc;
      if AllClosed(reg, acc) {
        AllClosedSnoc(reg, acc, s);
      }
      match NextStep(reg, target, tolerance, stack, acc, accLen)
      case Continue(stack', acc', accLen') =>
        NextChunkShape(reg, target, tolerance, stack', acc', accLen');
      case Stop(_, _) =>
      case Fail(_) =>
    }
  }

  /** Cutting a chunk moves bytes from the stack to the chunk without losing,
      duplicating or reordering any. */
  lemma {:induction false} NextChunkBytes(reg: Registry, target: nat, tolerance: nat,
                                          stack: seq<StructuredScript>, acc: seq<StructuredScript>, accLen: nat)
    requires Structure.Valid(reg) && AllClosed(reg, stack) && AllClosed(reg, acc)
    ensures var r := NextChunk(reg, target, tolerance, stack, acc, accLen);
      r.Ok? ==>
        && AllClosed(reg, r.value.0.pieces)
        && PiecesBytes(reg, r.value.0.pieces) + StackBytes(reg, r.value.1)
        == PiecesBytes(reg, acc) + StackBytes(reg, stack)
    decreases StackWeight(reg, stack), |stack|
  {
    if stack != [] {
      StepBytes(reg, target, tolerance, stack, acc, accLen);
      match NextStep(reg, target, tolerance, stack, acc, accLen)
      case Continue(stack', acc', accLen') =>
        NextChunkBytes(reg, target, tolerance, stack', acc', accLen');
      case Stop(_, _) =>
      case Fail(_) =>
    }
  }

  /** A fragment without calls that does not fit is fatal: it cannot be
      split. */
  lemma ScriptOnlyTooLargeFails(reg: Registry, target: nat, tolerance: nat,
                                stack: seq<StructuredScript>, acc: seq<StructuredScript>, accLen: nat)
    requires Structure.Valid(reg) && AllClosed(reg, stack) && stack != [] && tolerance <= target
    requires !HasCall(stack[|stack| - 1].blocks) && accLen + stack[|stack| - 1].size > target
    ensures NextChunk(reg, target, tolerance, stack, acc, accLen) == Err(NotChunkable)
  {
    AllClosedPrefix(reg, stack, |stack| - 1);
  }

  // ---------------------------------------------------------------------
  // What the whole chunking satisfies

  /** Every chunk is at most `target` long, and every chunk but the last is
      at least `target - tolerance` long. */
  lemma {:induction false} ChunksBounds(reg: Registry, target: nat, tolerance: nat, stack: seq<StructuredScript>)
    requires Structure.Valid(reg) && AllClosed(reg, stack)
    ensures var r := Chunks(reg, target, tolerance, stack);
      r.Ok? ==> InWindow(r.value, target, tolerance)
    decreases StackWeight(reg, stack), |stack|
  {
    var r := Chunks(reg, target, tolerance, stack);
    if stack != [] && r.Ok? {
      ChunksUnfold(reg, target, tolerance, stack);
      var next := NextChunk(reg, target, tolerance, stack, [], 0).value;
      NextChunkShape(reg, target, tolerance, stack, [], 0);
      ChunksBounds(reg, target, tolerance, next.1);
      var more := Chunks(reg, target, tolerance, next.1).value;
      assert next.1 == [] ==> more == [];
      WindowCons(next.0, more, target, tolerance);
    }
  }

  /** Every chunk is at most `target` long and as long as the sizes of its
      fragments add up to; every chunk but the last is at least
      `target - tolerance` long. */
  predicate InWindow(cs: seq<Chunk>, target: nat, tolerance: nat)
  {
    forall i :: 0 <= i < |cs| ==>
      && cs[i].len <= target
      && cs[i].len == SizeSum(cs[i].pieces)
      && (i + 1 < |cs| ==> target - tolerance <= cs[i].len)
  }

  lemma WindowCons(c: Chunk, more: seq<Chunk>, target: nat, tolerance: nat)
    requires c.len <= target && c.len == SizeSum(c.pieces)
    requires more != [] ==> target - tolerance <= c.len
    requires InWindow(more, target, tolerance)
    ensures InWindow([c] + more, target, tolerance)
  {
    var cs := [c] + more;
    forall i | 0 <= i < |cs|
      ensures cs[i].len <= target && cs[i].len == SizeSum(cs[i].pieces)
      ensures i + 1 < |cs| ==> target - tolerance <= cs[i].len
    {
      if i > 0 {
        assert cs[i] == more[i - 1];
      }
    }
  }

  /** The chunks, put back together in order, are exactly the bytes the
      stack stood for. */
  lemma {:induction false} ChunksCover(reg: Registry, target: nat, tolerance: nat, stack: seq<StructuredScript>)
    requires Structure.Valid(reg) && AllClosed(reg, stack)
    ensures var r := Chunks(reg, target, tolerance, stack);
      r.Ok? ==> ChunksBytes(reg, r.value) == StackBytes(reg, stack)
    decreases StackWeight(reg, stack), |stack|
  {
    var r := Chunks(reg, target, tolerance, stack);
    if stack != [] && r.Ok? {
      var next := NextChunk(reg, target, tolerance, stack, [], 0).value;
      NextChunkShape(reg, target, tolerance, stack, [], 0);
      NextChunkBytes(reg, target, tolerance, stack, [], 0);
      ChunksCover(reg, target, tolerance, next.1);
      var more := Chunks(reg, target, tolerance, next.1).value;
      assert r.value == [next.0] + more;
      assert r.value[1..] == more;
    }
  }

  lemma {:induction false} PiecesBytesLength(reg: Registry, pieces: seq<StructuredScript>)
    requires Structure.Valid(reg) && AllClosed(reg, pieces)
    ensures |PiecesBytes(reg, pieces)| == SizeSum(pieces)
    decreases |pieces|
  {
    if pieces != [] {
      var n := |pieces| - 1;
      AllClosedPrefix(reg, pieces, n);
      PiecesBytesLength(reg, pieces[..n]);
      FlattenLength(reg, pieces[n].blocks, reg.next);
    }
  }

  lemma {:induction false} ChunksBytesLength(reg: Registry, cs: seq<Chunk>)
    requires Structure.Valid(reg)
    requires forall i :: 0 <= i < |cs| ==> AllClosed(reg, cs[i].pieces) && cs[i].len == SizeSum(cs[i].pieces)
    ensures |ChunksBytes(reg, cs)| == SumLens(cs)
    decreases |cs|
  {
    if cs != [] {
      PiecesBytesLength(reg, cs[0].pieces);
      ChunksBytesLength(reg, cs[1..]);
    }
  }

  /** Chunking a whole script: the chunks, in order, are its compiled bytes,
      so their sizes, as `find_chunks` returns them, add up to the script's
      length; each is at most the target and all but the last at least
      target - tolerance. */
  lemma ChunkScript(reg: Registry, target: nat, tolerance: nat, root: StructuredScript)
    requires Structure.Valid(reg) && Closed(reg, root)
    ensures AllClosed(reg, [root])
    ensures var r := Chunks(reg, target, tolerance, [root]);
      r.Ok? ==>
        && ChunksBytes(reg, r.value) == FlattenScript(reg, root)
        && SumLens(r.value) == root.size
        && Total(Lens(r.value)) == root.size
        && InWindow(r.value, target, tolerance)
  {
    var stack := [root];
    assert stack[..0] == [];
    ChunksCover(reg, target, tolerance, stack);
    ChunksBounds(reg, target, tolerance, stack);
    var r := Chunks(reg, target, tolerance, stack);
    if r.Ok? {
      ChunksBytesLength(reg, r.value);
      FlattenLength(reg, root.blocks, reg.next);
      LensTotal(r.value);
    }
  }

  lemma ChunksUnfold(reg: Registry, target: nat, tolerance: nat, stack: seq<StructuredScript>)
    requires Structure.Valid(reg) && AllClosed(reg, stack) && stack != []
    ensures var next := NextChunk(reg, target, tolerance, stack, [], 0);
      && (next.Err? ==> Chunks(reg, target, tolerance, stack) == Err(next.msg))
      && (next.Ok? ==> Chunks(reg, target, tolerance, stack)
                       == Prepend([next.value.0], Chunks(reg, target, tolerance, next.value.1)))
  {
  }

  /** Cutting one more chunk moves it from what is left to do to what is
      done. */
  lemma ChunksAdvance(reg: Registry, target: nat, tolerance: nat, stack: seq<StructuredScript>, done: seq<Chunk>)
    requires Structure.Valid(reg) && AllClosed(reg, stack) && stack != []
    requires NextChunk(reg, target, tolerance, stack, [], 0).Ok?
    ensures var next := NextChunk(reg, target, tolerance, stack, [], 0).value;
      Prepend(done, Chunks(reg, target, tolerance, stack))
      == Prepend(done + [next.0], Chunks(reg, target, tolerance, next.1))
  {
    var next := NextChunk(reg, target, tolerance, stack, [], 0).value;
    ChunksUnfold(reg, target, tolerance, stack);
    PrependSnoc(done, next.0, Chunks(reg, target, tolerance, next.1));
  }

  lemma ChunksFail(reg: Registry, target: nat, tolerance: nat, stack: seq<StructuredScript>, done: seq<Chunk>)
    requires Structure.Valid(reg) && AllClosed(reg, stack) && stack != []
    requires NextChunk(reg, target, tolerance, stack, [], 0).Err?
    ensures Prepend(done, Chunks(reg, target, tolerance, stack))
            == Err(NextChunk(reg, target, tolerance, stack, [], 0).msg)
  {
    ChunksUnfold(reg, target, tolerance, stack);
  }

  lemma PrependNothing(r: Result<seq<Chunk>>)
    ensures Prepend([], r) == r
  {
    if r.Ok? {
      assert [] + r.value == r.value;
    }
  }

  lemma PrependSnoc(done: seq<Chunk>, c: Chunk, r: Result<seq<Chunk>>)
    ensures Prepend(done, Prepend([c], r)) == Prepend(done + [c], r)
  {
    if r.Ok? {
      assert done + ([c] + r.value) == (done + [c]) + r.value;
    }
  }

  lemma LedgerSnoc(done: seq<Chunk>, c: Chunk)
    ensures Lens(done + [c]) == Lens(done) + [c.len]
    ensures PiecesOf(done + [c]) == PiecesOf(done) + [c.pieces]
  {
    assert (done + [c])[..|done|] == done;
  }

  // ---------------------------------------------------------------------
  // A script of equal calls

  predicate SameCalls(blocks: seq<Block>, id: Id)
  {
    forall i :: 0 <= i < |blocks| ==> blocks[i] == Call(id)
  }

  /** Splitting a run of calls to one script pushes one copy of that script
      per call. */
  lemma {:induction false} ExplodedSameCalls(reg: Registry, blocks: seq<Block>, id: Id)
    requires id in reg.scripts && SameCalls(blocks, id)
    ensures Resolves(reg, blocks)
    ensures |Exploded(reg, blocks)| == |blocks|
    ensures forall i :: 0 <= i < |blocks| ==> Exploded(reg, blocks)[i] == reg.scripts[id]
    decreases |blocks|
  {
    if blocks != [] {
      var n := |blocks| - 1;
      assert SameCalls(blocks[..n], id) by {
        forall i | 0 <= i < n ensures blocks[..n][i] == Call(id) {
          assert blocks[..n][i] == blocks[i];
        }
      }
      ExplodedSameCalls(reg, blocks[..n], id);
    }
  }

  /** A fragment exactly the target size, with no tolerance, is a chunk by
      itself. */
  lemma StopOnExact(reg: Registry, target: nat, stack: seq<StructuredScript>, sub: StructuredScript)
    requires Structure.Valid(reg) && AllClosed(reg, stack) && stack != []
    requires stack[|stack| - 1] == sub && sub.size == target
    ensures NextChunk(reg, target, 0, stack, [], 0) == Ok((Chunk([sub], target), stack[..|stack| - 1]))
  {
    AllClosedPrefix(reg, stack, |stack| - 1);
    assert [] + [sub] == [sub];
    assert NextStep(reg, target, 0, stack, [], 0) == Stop(Chunk([sub], target), stack[..|stack| - 1]);
  }

  /** A stack of copies of one script of exactly the target size is cut into
      one chunk per copy. */
  lemma {:induction false} ChunksOfCopies(reg: Registry, target: nat, stack: seq<StructuredScript>, sub: StructuredScript)
    requires Structure.Valid(reg) && Closed(reg, sub) && sub.size == target
    requires forall i :: 0 <= i < |stack| ==> stack[i] == sub
    ensures AllClosed(reg, stack)
    ensures var r := Chunks(reg, target, 0, stack);
      r.Ok? && |r.value| == |stack| && forall i :: 0 <= i < |r.value| ==> r.value[i] == Chunk([sub], target)
    decreases |stack|
  {
    if stack != [] {
      var n := |stack| - 1;
      StopOnExact(reg, target, stack, sub);
      ChunksUnfold(reg, target, 0, stack);
      ChunksOfCopies(reg, target, stack[..n], sub);
      var more := Chunks(reg, target, 0, stack[..n]).value;
      var all := [Chunk([sub], target)] + more;
      forall i | 0 <= i < |all| ensures all[i] == Chunk([sub], target) {
        if i > 0 {
          assert all[i] == more[i - 1];
        }
      }
    }
  }

  /** A script that calls one script of exactly the target size several
      times, chunked with no tolerance, gives one chunk per call: the split
      of the script, then one chunk per copy. */
  lemma UniformCalls(reg: Registry, root: StructuredScript, id: Id, target: nat)
    requires Structure.Valid(reg) && Closed(reg, root) && id in reg.scripts
    requires SameCalls(root.blocks, id) && reg.scripts[id].size == target && target < root.size
    ensures AllClosed(reg, [root])
    ensures var r := Chunks(reg, target, 0, [root]);
      r.Ok? && |r.value| == |root.blocks|
      && forall i :: 0 <= i < |r.value| ==> r.value[i] == Chunk([reg.scripts[id]], target)
  {
    var stack := [root];
    var sub := reg.scripts[id];
    CallChild(reg, id);
    assert stack[..0] == [];
    assert root.blocks != [];
    assert root.blocks[0].Call?;
    ExplodedSameCalls(reg, root.blocks, id);
    var e := Exploded(reg, root.blocks);
    assert [] + e == e;
    assert NextStep(reg, target, 0, stack, [], 0) == Continue(e, [], 0);
    ChunksOfCopies(reg, target, e, sub);
    ChunksUnfold(reg, target, 0, stack);
    ChunksUnfold(reg, target, 0, e);
  }

  /** The four-call example: a script of four calls to a two-byte script
      (two additions), cut to a target of two with no tolerance, gives four
      chunks of two bytes. */
  lemma FourCallsExample(reg: Registry, sub: StructuredScript, root: StructuredScript)
    requires sub == StructuredScript(2, None, "", NoIfs, [Script([Op(OP_ADD), Op(OP_ADD)])])
    requires root == StructuredScript(8, None, "", NoIfs, [Call(0), Call(0), Call(0), Call(0)])
    requires reg == Registry(map[0 := sub], map[0 := 0], 1)
    ensures Structure.Valid(reg) && Closed(reg, root) && AllClosed(reg, [root])
    ensures var r := Chunks(reg, 2, 0, [root]);
      r.Ok? && Lens(r.value) == [2, 2, 2, 2]
  {
    FourCallsRegistry(reg, sub);
    FourCallsRoot(reg, root);
    UniformCalls(reg, root, 0, 2);
    LensOfFour(Chunks(reg, 2, 0, [root]).value, Chunk([sub], 2));
  }

  lemma FourCallsRegistry(reg: Registry, sub: StructuredScript)
    requires sub == StructuredScript(2, None, "", NoIfs, [Script([Op(OP_ADD), Op(OP_ADD)])])
    requires reg == Registry(map[0 := sub], map[0 := 0], 1)
    ensures Structure.Valid(reg) && 0 in reg.scripts && reg.scripts[0].size == 2
  {
    var adds := [Op(OP_ADD), Op(OP_ADD)];
    EncodeSnoc([Op(OP_ADD)], Op(OP_ADD));
    EncodeSingle(Op(OP_ADD));
    assert [Op(OP_ADD)] + [Op(OP_ADD)] == adds;
    SizeOfSingle(reg, Script(adds));
    assert EntryOk(reg, 0);
  }

  lemma FourCallsRoot(reg: Registry, root: StructuredScript)
    requires Structure.Valid(reg) && 0 in reg.scripts && reg.scripts[0].size == 2 && reg.order == map[0 := 0] && reg.next == 1
    requires root == StructuredScript(8, None, "", NoIfs, [Call(0), Call(0), Call(0), Call(0)])
    ensures Closed(reg, root) && SameCalls(root.blocks, 0)
  {
    var bs := root.blocks;
    SizeOfSingle(reg, Call(0));
    SizeOfSnoc(reg, [Call(0)], Call(0));
    SizeOfSnoc(reg, [Call(0), Call(0)], Call(0));
    SizeOfSnoc(reg, [Call(0), Call(0), Call(0)], Call(0));
    assert [Call(0)] + [Call(0)] == [Call(0), Call(0)];
    assert [Call(0), Call(0)] + [Call(0)] == [Call(0), Call(0), Call(0)];
    assert [Call(0), Call(0), Call(0)] + [Call(0)] == bs;
  }

  lemma LensOfFour(cs: seq<Chunk>, c: Chunk)
    requires |cs| == 4 && forall i :: 0 <= i < |cs| ==> cs[i] == c
    ensures Lens(cs) == [c.len, c.len, c.len, c.len]
  {
    LensTotal(cs);
  }

  // ---------------------------------------------------------------------
  // The chunker object

  class Chunker {
    const reg: Registry
    const targetChunkSize: nat
    const tolerance: nat
    var size: nat
    var chunks: seq<seq<StructuredScript>>
    /** The remaining fragments; the top is the last element. */
    var callStack: seq<StructuredScript>

    ghost predicate Valid()
      reads this
    {
      Structure.Valid(reg) && AllClosed(reg, callStack)
    }

    constructor (reg: Registry, builder: StructuredScript, targetChunkSize: nat, tolerance: nat)
      requires Structure.Valid(reg) && Closed(reg, builder)
      ensures Valid()
      ensures this.reg == reg && this.targetChunkSize == targetChunkSize && this.tolerance == tolerance
      ensures size == builder.size && chunks == [] && callStack == [builder]
    {
      this.reg := reg;
      this.targetChunkSize := targetChunkSize;
      this.tolerance := tolerance;
      size := builder.size;
      chunks := [];
      callStack := [builder];
    }

    /** Pushes the fragment one block stands for. */
    method PushChild(b: Block)
      requires b.Call? ==> b.id in reg.scripts
      modifies this
      ensures callStack == old(callStack) + [Child(reg, b)]
      ensures chunks == old(chunks) && size == old(size)
    {
      match b {
        case Call(id) =>
          callStack := callStack + [reg.scripts[id]];
        case Script(instrs) =>
          var fragment := Builder.PushScript(Builder.New(""), instrs);
          assert Builder.New("").blocks + [Script(instrs)] == [Script(instrs)];
          assert fragment == ScriptFragment(instrs);
          callStack := callStack + [fragment];
      }
    }

    /** Pushes the fragments `blocks` splits into, last block first, and
        reports whether any block was a call. */
    method Explode(blocks: seq<Block>) returns (containsCall: bool)
      requires Structure.Valid(reg) && CallsBelow(reg, blocks, reg.next)
      modifies this
      ensures Resolves(reg, blocks)
      ensures callStack == old(callStack) + Exploded(reg, blocks)
      ensures containsCall == HasCall(blocks)
      ensures chunks == old(chunks) && size == old(size)
    {
      containsCall := false;
      CallsBelowResolves(reg, blocks, reg.next);
      var i := |blocks|;
      assert blocks[i..] == [];
      while i > 0
        invariant 0 <= i <= |blocks|
        invariant callStack == old(callStack) + Exploded(reg, blocks[i..])
        invariant containsCall == HasCall(blocks[i..])
        invariant chunks == old(chunks) && size == old(size)
      {
        i := i - 1;
        ExplodeStep(reg, blocks, i);
        PushChild(blocks[i]);
        if blocks[i].Call? {
          containsCall := true;
        }
      }
    }

    /** One turn of `find_next_chunk`'s loop: pops the top fragment and
        takes it, splits it, or takes it and stops. */
    method Turn(result: seq<StructuredScript>, resultLen: nat) returns (step: Step)
      requires Valid() && callStack != []
      modifies this
      ensures Valid() && chunks == old(chunks) && size == old(size)
      ensures step == NextStep(reg, targetChunkSize, tolerance, old(callStack), result, resultLen)
      ensures step.Continue? ==> callStack == step.stack
      ensures step.Stop? ==> callStack == step.rest
    {
      var builder := callStack[|callStack| - 1];
      ghost var before := callStack;
      AllClosedPrefix(reg, callStack, |callStack| - 1);
      callStack := callStack[..|callStack| - 1];
      var blockLen := builder.size;
      if targetChunkSize < tolerance {
        step := Fail(SubtractOverflow);
        return;
      }
      if resultLen + blockLen > targetChunkSize {
        step := SplitTop(builder, before, result, resultLen);
      } else {
        step := TakeTop(builder, before, result, resultLen);
      }
    }

    /** The turns that take the popped fragment: it joins the chunk, which
        is closed once the chunk is within `tolerance` of the target. */
    method TakeTop(builder: StructuredScript, ghost before: seq<StructuredScript>, result: seq<StructuredScript>, resultLen: nat)
      returns (step: Step)
      requires Structure.Valid(reg) && AllClosed(reg, before) && before != []
      requires builder == before[|before| - 1] && callStack == before[..|before| - 1]
      requires tolerance <= targetChunkSize && resultLen + builder.size <= targetChunkSize
      ensures step == NextStep(reg, targetChunkSize, tolerance, before, result, resultLen)
      ensures step.Continue? ==> callStack == step.stack
      ensures step.Stop? ==> callStack == step.rest
    {
      var blockLen := builder.size;
      if resultLen + blockLen < targetChunkSize - tolerance {
        NextStepTakes(reg, targetChunkSize, tolerance, before, result, resultLen);
        step := Continue(callStack, result + [builder], resultLen + blockLen);
      } else {
        NextStepStops(reg, targetChunkSize, tolerance, before, result, resultLen);
        step := Stop(Chunk(result + [builder], resultLen + blockLen), callStack);
      }
    }

    /** The turn that finds the popped fragment too large: its blocks are
        pushed back as fragments, which needs at least one call among them. */
    method SplitTop(builder: StructuredScript, ghost before: seq<StructuredScript>, result: seq<StructuredScript>, resultLen: nat)
      returns (step: Step)
      requires Structure.Valid(reg) && AllClosed(reg, before) && before != []
      requires builder == before[|before| - 1] && callStack == before[..|before| - 1]
      requires tolerance <= targetChunkSize && resultLen + builder.size > targetChunkSize
      modifies this
      ensures Valid() && chunks == old(chunks) && size == old(size)
      ensures step == NextStep(reg, targetChunkSize, tolerance, before, result, resultLen)
      ensures step.Continue? ==> callStack == step.stack
    {
      NextStepSplits(reg, targetChunkSize, tolerance, before, result, resultLen);
      var containsCall := Explode(builder.blocks);
      if !containsCall {
        step := Fail(NotChunkable);
        return;
      }
      step := Continue(callStack, result, resultLen);
    }

    /** `find_next_chunk`. */
    method FindNextChunk() returns (r: Result<Chunk>)
      requires Valid()
      modifies this
      ensures Valid() && chunks == old(chunks) && size == old(size)
      ensures var spec := NextChunk(reg, targetChunkSize, tolerance, old(callStack), [], 0);
        && (spec.Ok? ==> r == Ok(spec.value.0) && callStack == spec.value.1)
        && (spec.Err? ==> r == Err(spec.msg))
    {
      var result: seq<StructuredScript> := [];
      var resultLen: nat := 0;
      while callStack != []
        invariant Valid() && chunks == old(chunks) && size == old(size)
        invariant NextChunk(reg, targetChunkSize, tolerance, callStack, result, resultLen)
                  == NextChunk(reg, targetChunkSize, tolerance, old(callStack), [], 0)
        decreases StackWeight(reg, callStack), |callStack|
      {
        var step := Turn(result, resultLen);
        match step {
          case Continue(_, acc, accLen) =>
            result, resultLen := acc, accLen;
          case Stop(chunk, _) =>
            r := Ok(chunk);
            return;
          case Fail(msg) =>
            r := Err(msg);
            return;
        }
      }
      r := Ok(Chunk(result, resultLen));
    }

    /** One turn of `find_chunks`' loop: cuts the next chunk and records
        it. */
    method CutChunk(ghost done: seq<Chunk>) returns (next: Result<Chunk>)
      requires Valid() && callStack != []
      modifies this
      ensures Valid() && size == old(size)
      ensures next.Ok? ==>
        && chunks == old(chunks) + [next.value.pieces]
        && Below(reg, callStack, old(callStack))
        && Prepend(done, Chunks(reg, targetChunkSize, tolerance, old(callStack)))
           == Prepend(done + [next.value], Chunks(reg, targetChunkSize, tolerance, callStack))
      ensures next.Err? ==>
        Prepend(done, Chunks(reg, targetChunkSize, tolerance, old(callStack))) == Err(next.msg)
    {
      ghost var before := callStack;
      next := FindNextChunk();
      if next.Err? {
        ChunksFail(reg, targetChunkSize, tolerance, before, done);
        return;
      }
      ChunksAdvance(reg, targetChunkSize, tolerance, before, done);
      chunks := chunks + [next.value.pieces];
    }

    /** `find_chunks`: the chunk sizes, in order; the chunks themselves are
        appended to `chunks`. */
    method FindChunks() returns (r: Result<seq<nat>>)
      requires Valid()
      modifies this
      ensures Valid() && size == old(size)
      ensures var spec := Chunks(reg, targetChunkSize, tolerance, old(callStack));
        && (spec.Ok? ==> r == Ok(Lens(spec.value)) && chunks == old(chunks) + PiecesOf(spec.value) && callStack == [])
        && (spec.Err? ==> r == Err(spec.msg))
    {
      var sizes: seq<nat> := [];
      ghost var done: seq<Chunk> := [];
      PrependNothing(Chunks(reg, targetChunkSize, tolerance, callStack));
      while callStack != []
        invariant Valid() && size == old(size)
        invariant sizes == Lens(done) && chunks == old(chunks) + PiecesOf(done)
        invariant Chunks(reg, targetChunkSize, tolerance, old(callStack))
                  == Prepend(done, Chunks(reg, targetChunkSize, tolerance, callStack))
        decreases StackWeight(reg, callStack), |callStack|
      {
        var next := CutChunk(done);
        if next.Err? {
          r := Err(next.msg);
          return;
        }
        LedgerSnoc(done, next.value);
        sizes := sizes + [next.value.len];
        done := done + [next.value];
      }
      assert Chunks(reg, targetChunkSize, tolerance, callStack) == Ok([]);
      assert done + [] == done;
      r := Ok(sizes);
    }
  }
}
