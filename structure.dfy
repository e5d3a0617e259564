/** The data model of a structured script: a tree of literal instruction runs
    and calls to registered sub-scripts, the IF/ENDIF bookkeeping each node
    caches, and the registry that maps a sub-script id to its body.

    The registry stands for both the thread-local `SCRIPT_MAP` of
    src/builder.rs and the per-builder `script_map` the analyzer and chunker
    read. Ids are abstract keys (the content hash is not modelled). Besides the
    bodies, the registry remembers the order in which ids were first
    registered: a script is registered after every script it calls, which is
    what makes the call graph acyclic and every walk over it terminate. */
module Structure {
  import opened Wrappers
  import opened Opcodes

  type Id = nat

  datatype Block = Call(id: Id) | Script(instrs: seq<Instruction>)

  /** The IF/ENDIF bookkeeping a script caches: how many IF/NOTIF are still
      open, where they are, where the ENDIFs without a matching IF are, and the
      widest IF..ENDIF span seen so far (byte positions within the script). */
  datatype IfBookkeeping = IfBookkeeping(
    numUnclosedIfs: int,
    unclosedIfPositions: seq<nat>,
    extraEndifPositions: seq<nat>,
    maxIfInterval: (nat, nat))

  /** A stack effect: the deepest slot read, relative to the starting top of
      stack (never positive), and the net change of the stack height. */
  datatype StackStatus = StackStatus(deepestStackAccessed: int, stackChanged: int)

  datatype StructuredScript = StructuredScript(
    size: nat,
    stackHint: Option<StackStatus>,
    debugIdentifier: string,
    ifs: IfBookkeeping,
    blocks: seq<Block>)

  datatype Registry = Registry(scripts: map<Id, StructuredScript>, order: map<Id, nat>, next: nat)

  function Min(a: int, b: int): int { if a < b then a else b }

  const NoIfs := IfBookkeeping(0, [], [], (0, 0))

  /** Every call in `blocks` names a registered script. */
  predicate Resolves(reg: Registry, blocks: seq<Block>)
  {
    forall k :: 0 <= k < |blocks| && blocks[k].Call? ==> blocks[k].id in reg.scripts
  }

  /** Every call in `blocks` names a script registered before position `bound`
      of the registration order. */
  predicate CallsBelow(reg: Registry, blocks: seq<Block>, bound: nat)
  {
    forall k :: 0 <= k < |blocks| && blocks[k].Call? ==>
      blocks[k].id in reg.scripts && blocks[k].id in reg.order && reg.order[blocks[k].id] < bound
  }

  /** Bytes a block contributes: a literal run its encoded length, a call the
      cached size of the called script. */
  function BlockSize(reg: Registry, b: Block): nat
    requires b.Call? ==> b.id in reg.scripts
  {
    match b
    case Script(instrs) => |Encode(instrs)|
    case Call(id) => reg.scripts[id].size
  }

  function SizeOf(reg: Registry, blocks: seq<Block>): nat
    requires Resolves(reg, blocks)
  {
    if blocks == [] then 0
    else SizeOf(reg, blocks[..|blocks| - 1]) + BlockSize(reg, blocks[|blocks| - 1])
  }

  lemma ResolvesSplit(reg: Registry, a: seq<Block>, b: seq<Block>)
    ensures Resolves(reg, a + b) <==> Resolves(reg, a) && Resolves(reg, b)
  {
    var ab := a + b;
    if Resolves(reg, ab) {
      forall k | 0 <= k < |a| && a[k].Call? ensures a[k].id in reg.scripts {
        assert ab[k] == a[k];
      }
      forall k | 0 <= k < |b| && b[k].Call? ensures b[k].id in reg.scripts {
        assert ab[|a| + k] == b[k];
      }
    }
  }

  lemma SizeOfSnoc(reg: Registry, a: seq<Block>, x: Block)
    requires Resolves(reg, a + [x])
    ensures x.Call? ==> x.id in reg.scripts
    ensures Resolves(reg, a) && SizeOf(reg, a + [x]) == SizeOf(reg, a) + BlockSize(reg, x)
  {
    ResolvesSplit(reg, a, [x]);
    assert [x][0] == x;
    assert (a + [x])[..|a|] == a;
  }

  lemma SizeOfSingle(reg: Registry, x: Block)
    requires x.Call? ==> x.id in reg.scripts
    ensures Resolves(reg, [x]) && SizeOf(reg, [x]) == BlockSize(reg, x)
  {
    assert [x][..0] == [];
  }

  /** The size of two block lists put together is the sum of their sizes. */
  lemma {:induction false} SizeOfAppend(reg: Registry, a: seq<Block>, b: seq<Block>)
    requires Resolves(reg, a) && Resolves(reg, b)
    ensures Resolves(reg, a + b) && SizeOf(reg, a + b) == SizeOf(reg, a) + SizeOf(reg, b)
    decreases |b|
  {
    ResolvesSplit(reg, a, b);
    if b == [] {
      assert a + b == a;
    } else {
      var n := |b| - 1;
      var c, x := b[..n], b[n];
      assert b == c + [x];
      assert a + b == (a + c) + [x];
      ResolvesSplit(reg, c, [x]);
      SizeOfAppend(reg, a, c);
      SizeOfSnoc(reg, a + c, x);
      SizeOfSnoc(reg, c, x);
    }
  }

  /** The cached `size` agrees with the blocks. */
  predicate WellSized(reg: Registry, s: StructuredScript)
  {
    Resolves(reg, s.blocks) && s.size == SizeOf(reg, s.blocks)
  }

  /** The registry invariant: orders are below `next`, every registered script
      calls only earlier-registered scripts and caches its true size. */
  predicate Valid(reg: Registry)
  {
    && reg.scripts.Keys == reg.order.Keys
    && (forall id :: id in reg.order ==> reg.order[id] < reg.next)
    && (forall id {:trigger EntryOk(reg, id)} :: id in reg.scripts ==> EntryOk(reg, id))
  }

  /** A registered script calls only scripts registered before it and caches
      its true size. */
  predicate EntryOk(reg: Registry, id: Id)
  {
    id in reg.scripts && id in reg.order
    && CallsBelow(reg, reg.scripts[id].blocks, reg.order[id]) && WellSized(reg, reg.scripts[id])
  }

  /** A script the registry can compile: it only calls registered scripts. */
  predicate Closed(reg: Registry, s: StructuredScript)
  {
    CallsBelow(reg, s.blocks, reg.next) && WellSized(reg, s)
  }

  /** `thread_add_script`: the first script registered under an id stays. */
  function ThreadAddScript(reg: Registry, id: Id, s: StructuredScript): (r: Registry)
    ensures id in reg.scripts ==> r == reg
    ensures id !in reg.scripts ==> r.scripts == reg.scripts[id := s]
    ensures id in r.scripts && r.scripts[id] == (if id in reg.scripts then reg.scripts[id] else s)
    ensures forall j :: j in reg.scripts ==> j in r.scripts && r.scripts[j] == reg.scripts[j]
  {
    if id in reg.scripts then reg
    else Registry(reg.scripts[id := s], reg.order[id := reg.next], reg.next + 1)
  }

  /** `r` holds every entry of `reg` unchanged. */
  predicate Extends(reg: Registry, r: Registry)
  {
    && (forall j :: j in reg.scripts ==> j in r.scripts && r.scripts[j] == reg.scripts[j])
    && (forall j :: j in reg.order ==> j in r.order && r.order[j] == reg.order[j])
    && reg.next <= r.next
  }

  /** The naive inline expansion of `blocks`: literal runs are encoded, calls
      are expanded recursively. */
  function Flatten(reg: Registry, blocks: seq<Block>, bound: nat): seq<byte>
    requires Valid(reg) && CallsBelow(reg, blocks, bound)
    decreases bound, |blocks|
  {
    if blocks == [] then []
    else
      var prefix := blocks[..|blocks| - 1];
      assert CallsBelow(reg, prefix, bound) by {
        forall k | 0 <= k < |prefix| && prefix[k].Call?
          ensures prefix[k].id in reg.scripts && prefix[k].id in reg.order && reg.order[prefix[k].id] < bound
        {
          assert prefix[k] == blocks[k];
        }
      }
      Flatten(reg, prefix, bound) +
      match blocks[|blocks| - 1]
      case Script(instrs) => Encode(instrs)
      case Call(id) =>
        assert EntryOk(reg, id);
        Flatten(reg, reg.scripts[id].blocks, reg.order[id])
  }

  function FlattenScript(reg: Registry, s: StructuredScript): seq<byte>
    requires Valid(reg) && Closed(reg, s)
  {
    Flatten(reg, s.blocks, reg.next)
  }

  lemma CallsBelowPrefix(reg: Registry, blocks: seq<Block>, bound: nat, n: nat)
    requires CallsBelow(reg, blocks, bound) && n <= |blocks|
    ensures CallsBelow(reg, blocks[..n], bound) && Resolves(reg, blocks[..n])
  {
    forall k | 0 <= k < n && blocks[..n][k].Call?
      ensures blocks[..n][k].id in reg.scripts && blocks[..n][k].id in reg.order && reg.order[blocks[..n][k].id] < bound
    {
      assert blocks[..n][k] == blocks[k];
    }
  }

  lemma CallsBelowResolves(reg: Registry, blocks: seq<Block>, bound: nat)
    requires CallsBelow(reg, blocks, bound)
    ensures Resolves(reg, blocks)
  {
  }

  /** The expansion depends only on the blocks, not on the bound used to show
      that it terminates. */
  lemma {:induction false} FlattenBound(reg: Registry, blocks: seq<Block>, b1: nat, b2: nat)
    requires Valid(reg) && CallsBelow(reg, blocks, b1) && CallsBelow(reg, blocks, b2)
    ensures Flatten(reg, blocks, b1) == Flatten(reg, blocks, b2)
    decreases |blocks|
  {
    if blocks != [] {
      CallsBelowPrefix(reg, blocks, b1, |blocks| - 1);
      CallsBelowPrefix(reg, blocks, b2, |blocks| - 1);
      FlattenBound(reg, blocks[..|blocks| - 1], b1, b2);
    }
  }

  /** The inline expansion is exactly `size` bytes long: the size accounting
      the compiler's capacity checks rely on. */
  lemma {:induction false} FlattenLength(reg: Registry, blocks: seq<Block>, bound: nat)
    requires Valid(reg) && CallsBelow(reg, blocks, bound)
    ensures Resolves(reg, blocks) && |Flatten(reg, blocks, bound)| == SizeOf(reg, blocks)
    decreases bound, |blocks|
  {
    if blocks != [] {
      var prefix := blocks[..|blocks| - 1];
      CallsBelowPrefix(reg, blocks, bound, |blocks| - 1);
      FlattenLength(reg, prefix, bound);
      match blocks[|blocks| - 1]
      case Script(instrs) =>
      case Call(id) =>
        assert EntryOk(reg, id);
        FlattenLength(reg, reg.scripts[id].blocks, reg.order[id]);
    }
  }

  lemma {:induction false} SizeOfExtends(reg: Registry, r: Registry, blocks: seq<Block>)
    requires Extends(reg, r) && Resolves(reg, blocks)
    ensures Resolves(r, blocks) && SizeOf(r, blocks) == SizeOf(reg, blocks)
    decreases |blocks|
  {
    if blocks != [] {
      var prefix := blocks[..|blocks| - 1];
      assert Resolves(reg, prefix) by {
        forall k | 0 <= k < |prefix| && prefix[k].Call? ensures prefix[k].id in reg.scripts {
          assert prefix[k] == blocks[k];
        }
      }
      SizeOfExtends(reg, r, prefix);
    }
  }

  lemma CallsBelowExtends(reg: Registry, r: Registry, blocks: seq<Block>, bound: nat)
    requires Extends(reg, r) && CallsBelow(reg, blocks, bound)
    ensures CallsBelow(r, blocks, bound)
  {
  }

  /** Registering more scripts does not change the expansion of a script that
      was already closed. */
  lemma {:induction false} FlattenExtends(reg: Registry, r: Registry, blocks: seq<Block>, bound: nat)
    requires Valid(reg) && Valid(r) && Extends(reg, r) && CallsBelow(reg, blocks, bound)
    ensures CallsBelow(r, blocks, bound) && Flatten(r, blocks, bound) == Flatten(reg, blocks, bound)
    decreases bound, |blocks|
  {
    CallsBelowExtends(reg, r, blocks, bound);
    if blocks != [] {
      var prefix := blocks[..|blocks| - 1];
      CallsBelowPrefix(reg, blocks, bound, |blocks| - 1);
      FlattenExtends(reg, r, prefix, bound);
      match blocks[|blocks| - 1]
      case Script(instrs) =>
      case Call(id) =>
        assert EntryOk(reg, id) && EntryOk(r, id);
        FlattenExtends(reg, r, reg.scripts[id].blocks, reg.order[id]);
    }
  }

  /** Appending a block appends its expansion to the expansion and its size
      to the size. */
  lemma FlattenSnoc(reg: Registry, blocks: seq<Block>, b: Block, bound: nat)
    requires Valid(reg) && CallsBelow(reg, blocks, bound)
    requires b.Call? ==> b.id in reg.scripts && b.id in reg.order && reg.order[b.id] < bound
    ensures CallsBelow(reg, [b], bound) && CallsBelow(reg, blocks + [b], bound)
    ensures Resolves(reg, blocks) && Resolves(reg, blocks + [b])
    ensures SizeOf(reg, blocks + [b]) == SizeOf(reg, blocks) + BlockSize(reg, b)
    ensures b.Script? ==> Flatten(reg, blocks + [b], bound) == Flatten(reg, blocks, bound) + Encode(b.instrs)
    ensures b.Call? ==> EntryOk(reg, b.id)
    ensures b.Call? ==> Flatten(reg, blocks + [b], bound)
                        == Flatten(reg, blocks, bound) + Flatten(reg, reg.scripts[b.id].blocks, reg.order[b.id])
  {
    var bs := blocks + [b];
    assert CallsBelow(reg, bs, bound) by {
      forall k | 0 <= k < |bs| && bs[k].Call?
        ensures bs[k].id in reg.scripts && bs[k].id in reg.order && reg.order[bs[k].id] < bound
      {
        if k < |blocks| {
          assert bs[k] == blocks[k];
        }
      }
    }
    assert bs[..|bs| - 1] == blocks;
  }

  /** `FlattenSnoc` for a literal run. */
  lemma FlattenSnocScript(reg: Registry, blocks: seq<Block>, run: seq<Instruction>, bound: nat)
    requires Valid(reg) && CallsBelow(reg, blocks, bound)
    ensures CallsBelow(reg, blocks + [Script(run)], bound)
    ensures SizeOf(reg, blocks + [Script(run)]) == SizeOf(reg, blocks) + |Encode(run)|
    ensures Flatten(reg, blocks + [Script(run)], bound) == Flatten(reg, blocks, bound) + Encode(run)
  {
    FlattenSnoc(reg, blocks, Script(run), bound);
  }

  /** Registering a closed, well-sized script keeps the registry valid and
      changes no existing entry. */
  lemma AddKeepsValid(reg: Registry, id: Id, s: StructuredScript)
    requires Valid(reg) && Closed(reg, s)
    ensures Valid(ThreadAddScript(reg, id, s)) && Extends(reg, ThreadAddScript(reg, id, s))
  {
    var r := ThreadAddScript(reg, id, s);
    if id !in reg.scripts {
      assert Extends(reg, r);
      forall j | j in r.scripts
        ensures EntryOk(r, j)
      {
        if j != id {
          assert EntryOk(reg, j);
        }
        var t := if j == id then s else reg.scripts[j];
        assert r.scripts[j] == t;
        var bound := if j == id then reg.next else reg.order[j];
        assert r.order[j] == bound;
        assert CallsBelow(reg, t.blocks, bound);
        CallsBelowExtends(reg, r, t.blocks, bound);
        SizeOfExtends(reg, r, t.blocks);
      }
    }
  }
}
