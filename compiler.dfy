/** `compile_to_bytes` and `compile` of src/builder.rs: the structured script
    is written into one byte buffer allocated with the script's size as its
    capacity. A call block is compiled the first time its id is met, and its
    start offset is remembered in a cache; every later call to the same id
    copies the bytes already written at that offset. */
module Compiler {
  import opened Opcodes
  import opened Structure

  /** The cached start offset of `id` (if any) points at the expansion of the
      called script inside `script`. */
  ghost predicate CachedOk(reg: Registry, script: seq<byte>, cache: map<Id, nat>, id: Id)
    requires Valid(reg)
  {
    id in cache ==>
      && EntryOk(reg, id)
      && var f := Flatten(reg, reg.scripts[id].blocks, reg.order[id]);
      && cache[id] + |f| <= |script|
      && script[cache[id]..cache[id] + |f|] == f
  }

  ghost predicate CacheValid(reg: Registry, script: seq<byte>, cache: map<Id, nat>)
  {
    Valid(reg) && forall id :: CachedOk(reg, script, cache, id)
  }

  /** An empty cache is right about any buffer. */
  lemma CacheEmpty(reg: Registry, script: seq<byte>)
    requires Valid(reg)
    ensures CacheValid(reg, script, map[])
  {
  }

  /** Writing more bytes after the cached ones keeps every cached offset right. */
  lemma CacheGrow(reg: Registry, script: seq<byte>, extra: seq<byte>, cache: map<Id, nat>)
    requires CacheValid(reg, script, cache)
    ensures CacheValid(reg, script + extra, cache)
  {
    forall id
      ensures CachedOk(reg, script + extra, cache, id)
    {
      if id in cache {
        assert CachedOk(reg, script, cache, id);
        var f := Flatten(reg, reg.scripts[id].blocks, reg.order[id]);
        assert (script + extra)[cache[id]..cache[id] + |f|] == script[cache[id]..cache[id] + |f|];
      }
    }
  }

  /** Remembering where a freshly compiled call starts. */
  lemma CacheAdd(reg: Registry, script: seq<byte>, cache: map<Id, nat>, id: Id, start: nat)
    requires CacheValid(reg, script, cache) && EntryOk(reg, id)
    requires var f := Flatten(reg, reg.scripts[id].blocks, reg.order[id]);
      start + |f| <= |script| && script[start..start + |f|] == f
    ensures CacheValid(reg, script, cache[id := start])
  {
    var updated := cache[id := start];
    forall j
      ensures CachedOk(reg, script, updated, j)
    {
      if j != id {
        assert CachedOk(reg, script, cache, j);
      }
    }
  }

  /** Every entry of `c0` is still in `c1`, at the same offset. */
  predicate Keeps(c0: map<Id, nat>, c1: map<Id, nat>)
  {
    forall id :: id in c0 ==> id in c1 && c1[id] == c0[id]
  }

  /** The bytes one block expands to: a literal run its encoding, a call the
      expansion of the called script. */
  function BlockBytes(reg: Registry, b: Block, bound: nat): seq<byte>
    requires Valid(reg) && (b.Call? ==> b.id in reg.scripts && b.id in reg.order && reg.order[b.id] < bound)
  {
    match b
    case Script(instrs) => Encode(instrs)
    case Call(id) =>
      assert EntryOk(reg, id);
      Flatten(reg, reg.scripts[id].blocks, reg.order[id])
  }

  /** One block of the walk: the expansion of the first `i + 1` blocks is the
      expansion `done` of the first `i` followed by the block's own bytes, and
      never longer than the expansion of all of them. */
  lemma BlockStep(reg: Registry, blocks: seq<Block>, bound: nat, i: nat, done: seq<byte>)
    requires Valid(reg) && CallsBelow(reg, blocks, bound) && i < |blocks|
    requires CallsBelow(reg, blocks[..i], bound) && done == Flatten(reg, blocks[..i], bound)
    ensures CallsBelow(reg, blocks[..i + 1], bound)
    ensures blocks[i].Call? ==> blocks[i].id in reg.scripts && blocks[i].id in reg.order && reg.order[blocks[i].id] < bound
    ensures Flatten(reg, blocks[..i + 1], bound) == done + BlockBytes(reg, blocks[i], bound)
    ensures |Flatten(reg, blocks[..i + 1], bound)| <= |Flatten(reg, blocks, bound)|
  {
    TakeSnoc(blocks, i);
    FlattenSnoc(reg, blocks[..i], blocks[i], bound);
    FlattenPrefixLength(reg, blocks, bound, i + 1);
  }

  /** The expansion of a prefix of the blocks is no longer than the whole. */
  lemma {:induction false} FlattenPrefixLength(reg: Registry, blocks: seq<Block>, bound: nat, n: nat)
    requires Valid(reg) && CallsBelow(reg, blocks, bound) && n <= |blocks|
    ensures CallsBelow(reg, blocks[..n], bound)
    ensures |Flatten(reg, blocks[..n], bound)| <= |Flatten(reg, blocks, bound)|
    decreases |blocks|
  {
    CallsBelowPrefix(reg, blocks, bound, n);
    if n < |blocks| {
      var m := |blocks| - 1;
      var init := blocks[..m];
      CallsBelowPrefix(reg, blocks, bound, m);
      assert blocks == init + [blocks[m]];
      FlattenSnoc(reg, init, blocks[m], bound);
      assert init[..n] == blocks[..n];
      FlattenPrefixLength(reg, init, bound, n);
    } else {
      assert blocks[..n] == blocks;
    }
  }

  lemma SuffixSlice(a: seq<byte>, b: seq<byte>)
    ensures (a + b)[|a|..|a| + |b|] == b
  {
  }

  /** The output buffer and the cache of `compile_to_bytes`. */
  class Compilation {
    var script: seq<byte>
    var cache: map<Id, nat>
    const capacity: nat

    /** `Vec::with_capacity` and `HashMap::new`. */
    constructor (capacity: nat)
      ensures script == [] && cache == map[] && this.capacity == capacity
    {
      script := [];
      cache := map[];
      this.capacity := capacity;
    }

    ghost predicate CacheOk(reg: Registry)
      reads this
    {
      CacheValid(reg, script, cache)
    }

    /** `compile_to_bytes`: appends the inline expansion of `blocks` to the
        buffer, compiling each call id the first time and copying its bytes
        from the cached offset afterwards. Offsets already cached stay. The
        capacity checks of the source hold whenever the expansion fits. */
    method CompileToBytes(reg: Registry, blocks: seq<Block>, bound: nat)
      requires Valid(reg) && CallsBelow(reg, blocks, bound) && CacheOk(reg)
      requires |script| + |Flatten(reg, blocks, bound)| <= capacity
      modifies this
      ensures script == old(script) + Flatten(reg, blocks, bound)
      ensures CacheOk(reg)
      ensures Keeps(old(cache), cache)
      decreases bound, |blocks| + 1
    {
      ghost var start0 := script;
      assert blocks[..0] == [];
      for i := 0 to |blocks|
        invariant CallsBelow(reg, blocks[..i], bound)
        invariant script == start0 + Flatten(reg, blocks[..i], bound)
        invariant CacheOk(reg)
        invariant Keeps(old(cache), cache)
      {
        CompileStep(reg, blocks, bound, i, start0);
      }
      assert blocks[..|blocks|] == blocks;
    }

    /** One turn of `compile_to_bytes`'s loop: block `i` is compiled after
        the expansion of the blocks before it. */
    method CompileStep(reg: Registry, blocks: seq<Block>, bound: nat, i: nat, ghost start: seq<byte>)
      requires Valid(reg) && CallsBelow(reg, blocks, bound) && i < |blocks| && CacheOk(reg)
      requires CallsBelow(reg, blocks[..i], bound) && script == start + Flatten(reg, blocks[..i], bound)
      requires |start| + |Flatten(reg, blocks, bound)| <= capacity
      modifies this
      ensures CallsBelow(reg, blocks[..i + 1], bound)
      ensures script == start + Flatten(reg, blocks[..i + 1], bound)
      ensures CacheOk(reg) && Keeps(old(cache), cache)
      decreases bound, |blocks|
    {
      ghost var done := Flatten(reg, blocks[..i], bound);
      BlockStep(reg, blocks, bound, i, done);
      CompileBlock(reg, blocks[i], bound);
      ConcatAssoc(start, done, BlockBytes(reg, blocks[i], bound));
    }

    /** The body of `compile_to_bytes`'s loop for one block. A literal run is
        copied in. A call already in the cache is copied from the offset where
        it was first written; otherwise it is compiled in place and its start
        offset cached. */
    method CompileBlock(reg: Registry, b: Block, bound: nat)
      requires Valid(reg) && CacheOk(reg)
      requires b.Call? ==> b.id in reg.scripts && b.id in reg.order && reg.order[b.id] < bound
      requires |script| + |BlockBytes(reg, b, bound)| <= capacity
      modifies this
      ensures script == old(script) + BlockBytes(reg, b, bound)
      ensures CacheOk(reg)
      ensures Keeps(old(cache), cache)
      decreases bound, 0
    {
      match b
      case Call(id) =>
        assert EntryOk(reg, id);
        var called := reg.scripts[id];
        ghost var f := Flatten(reg, called.blocks, reg.order[id]);
        FlattenLength(reg, called.blocks, reg.order[id]);
        if id in cache {
          CopyCached(reg, id);
        } else {
          var calledStart := |script|;
          ghost var before := script;
          CompileToBytes(reg, called.blocks, reg.order[id]);
          SuffixSlice(before, f);
          CacheAdd(reg, script, cache, id, calledStart);
          cache := cache[id := calledStart];
        }
      case Script(instrs) =>
        EmitRun(reg, instrs);
    }

    /** A call whose id is cached: its bytes are copied from the cached offset
        to the end of the buffer. */
    method CopyCached(reg: Registry, id: Id)
      requires Valid(reg) && CacheOk(reg) && id in cache
      requires EntryOk(reg, id)
      requires |script| + reg.scripts[id].size <= capacity
      modifies this
      ensures script == old(script) + Flatten(reg, reg.scripts[id].blocks, reg.order[id])
      ensures cache == old(cache) && CacheOk(reg)
    {
      var called := reg.scripts[id];
      FlattenLength(reg, called.blocks, reg.order[id]);
      var calledStart := cache[id];
      var start := |script|;
      var end := start + called.size;
      assert CachedOk(reg, script, cache, id);
      assert end <= capacity;
      var copied := script[calledStart..calledStart + called.size];
      CacheGrow(reg, script, copied, cache);
      script := script + copied;
    }

    /** A literal run: its encoding is written at the end of the buffer. */
    method EmitRun(reg: Registry, instrs: seq<Instruction>)
      requires CacheOk(reg) && |script| + |Encode(instrs)| <= capacity
      modifies this
      ensures script == old(script) + Encode(instrs)
      ensures cache == old(cache) && CacheOk(reg)
    {
      var source := Encode(instrs);
      var start := |script|;
      var end := start + |source|;
      assert end <= capacity;
      CacheGrow(reg, script, source, cache);
      script := script + source;
    }
  }

  /** `compile`: a buffer of exactly `size` bytes capacity and an empty cache;
      the bytes are the naive inline expansion, `size` of them. */
  method Compile(reg: Registry, s: StructuredScript) returns (bytes: seq<byte>)
    requires Valid(reg) && Closed(reg, s)
    ensures bytes == FlattenScript(reg, s) && |bytes| == s.size
  {
    var c := new Compilation(s.size);
    FlattenLength(reg, s.blocks, reg.next);
    CacheEmpty(reg, c.script);
    c.CompileToBytes(reg, s.blocks, reg.next);
    bytes := c.script;
  }
}
