/** Concrete runs that show what the cache does not promise. Blocks hold one token, so every token has its hash. */
module CacheExamples {
  import opened Wrappers
  import opened Sequences
  import opened CacheTypes
  import opened Prefix
  import opened ManagerModel
  import opened ManagerInvariant
  import opened ManagerTheorems
  import opened ManagerRuns
  import opened Slots
  import opened ContentSoundness
  import opened ContentCompleteness
  import PM = PoolModel
  import PP = PoolProperties

  // ---------- runs, one call at a time ----------

  lemma RunCons(c: Config, m: Manager, op: Op, ops: seq<Op>)
    requires c.blockSize > 0 && Inv(m) && Guard(c, m, op)
    requires Inv(Step(c, m, op)) && Legal(c, Step(c, m, op), ops)
    ensures Legal(c, m, [op] + ops) && Run(c, m, [op] + ops) == Run(c, Step(c, m, op), ops)
  {
    assert ([op] + ops)[0] == op && ([op] + ops)[1..] == ops;
  }

  /** A request looks up a prompt of n tokens, gets n blocks, has them cached and is freed. */
  function CacheAndFree(r: RequestId, tokens: seq<Token>): seq<Op> {
    [LookupOp(r, tokens, false)] + ([AllocateOp(r, |tokens|, 0)] + ([CacheOp(r, |tokens|)] + ([FreeOp(r)] + [])))
  }

  /** The states the four calls go through. */
  lemma RunCacheAndFree(c: Config, m: Manager, r: RequestId, tokens: seq<Token>, m1: Manager, m2: Manager, m3: Manager)
    requires c.blockSize > 0 && Inv(m) && TableOf(m, r) == []
    requires m1 == Lookup(c, m, r, tokens, false).0
    requires WellFormed(m1) && m2 == AllocateSlots(c, m1, r, |tokens|, 0).0
    requires WellFormed(m2) && m3 == CacheBlocks(c, m2, r, |tokens|)
    ensures Legal(c, m, CacheAndFree(r, tokens)) && WellFormed(m3)
    ensures Run(c, m, CacheAndFree(r, tokens)) == ManagerModel.Free(m3, r)
  {
    StepInv(c, m, LookupOp(r, tokens, false));
    StepInv(c, m1, AllocateOp(r, |tokens|, 0));
    StepInv(c, m2, CacheOp(r, |tokens|));
    StepInv(c, m3, FreeOp(r));
    RunCons(c, m3, FreeOp(r), []);
    RunCons(c, m2, CacheOp(r, |tokens|), [FreeOp(r)] + []);
    RunCons(c, m1, AllocateOp(r, |tokens|, 0), [CacheOp(r, |tokens|)] + ([FreeOp(r)] + []));
    RunCons(c, m, LookupOp(r, tokens, false),
      [AllocateOp(r, |tokens|, 0)] + ([CacheOp(r, |tokens|)] + ([FreeOp(r)] + [])));
  }

  // ---------- a fresh pool ----------

  /** Blocks 1 .. n are in use, once each, and nothing is free. */
  ghost predicate InUse(p: PM.Pool, n: nat) {
    PM.Valid(p) && |p.refs| == n + 1 && p.free == [] && forall b :: 0 < b <= n ==> p.refs[b] == 1
  }

  lemma TakenOnce(q: PM.Pool, p: PM.Pool, ids: seq<BlockId>, n: nat)
    requires PP.RefsPlus(q, p, ids) && |q.refs| == n + 1 && NoDup(ids)
    requires forall b :: 0 < b <= n ==> q.refs[b] == 0 && b in ids
    ensures forall b :: 0 < b <= n ==> p.refs[b] == 1
  {
    forall b | 0 < b <= n
      ensures p.refs[b] == 1
    {
      PP.NoDupOnce(ids, b);
    }
  }

  /** From a new pool of n + 1 blocks, n are handed out in order. */
  lemma FreshBlocks(n: nat)
    ensures var (p, ids) := PM.AllocateAll(PM.New(n + 1), n);
      ids == Some(PM.FreshIds(n + 1)) && InUse(p, n) && p.labels == PM.New(n + 1).labels
  {
    var q, ids := PM.New(n + 1), PM.FreshIds(n + 1);
    PP.UncachedAllTaken(q);
    TakenOnce(q, PM.AllocateAll(q, n).0, ids, n);
  }

  /** A block of one token each. */
  predicate OneToken(c: Config) {
    c.blockSize == 1 && c.caching
  }

  /** A lookup in an empty cache finds nothing. */
  lemma FreshLookup(c: Config, numBlocks: nat, r: RequestId, tokens: seq<Token>)
    requires OneToken(c) && tokens != []
    ensures Lookup(c, New(numBlocks), r, tokens, false)
      == (Manager(PM.New(numBlocks), map[r := []], map[r := 0], map[r := PromptHashes(c, tokens)]), [])
    ensures |PromptHashes(c, tokens)| == |tokens|
  {
    assert PromptHashes(c, tokens)[0] !in PM.New(numBlocks).index;
  }

  /** Every block is free and cached, block i + 1 under hash i; the last block of the prompt is at the head. */
  ghost predicate AllCached(m: Manager, hs: seq<BlockHash>) {
    && Inv(m) && m.tables == map[] && |m.pool.refs| == |hs| + 1
    && m.pool.free == PP.Reversed(PM.FreshIds(|hs| + 1))
    && forall i :: 0 <= i < |hs| ==> m.pool.labels[i + 1] == Some(hs[i])
  }

  lemma FreshConsistent(p: PM.Pool, hs: seq<BlockHash>)
    requires |p.refs| == |p.labels| == |hs| + 1
    requires forall b :: 0 < b <= |hs| ==> p.refs[b] == 1 && p.labels[b].None?
    ensures Consistent(p, PM.FreshIds(|hs| + 1), hs)
  {
    var ids := PM.FreshIds(|hs| + 1);
    forall i | 0 <= i < |ids|
      ensures 0 < ids[i] < |p.refs| && p.refs[ids[i]] > 0 && p.labels[ids[i]].None?
    {
      assert ids[i] == i + 1;
    }
  }

  /** Caching labels every block with its own hash. */
  lemma CacheFreshBlocks(p: PM.Pool, hs: seq<BlockHash>)
    requires InUse(p, |hs|) && p.labels == PM.New(|hs| + 1).labels
    ensures var p' := CacheRange(p, PM.FreshIds(|hs| + 1), hs, 0, |hs|);
      InUse(p', |hs|) && forall i :: 0 <= i < |hs| ==> p'.labels[i + 1] == Some(hs[i])
  {
    var ids := PM.FreshIds(|hs| + 1);
    FreshConsistent(p, hs);
    CacheRangeCorrect(p, ids, hs, 0, |hs|);
    forall i | 0 <= i < |hs|
      ensures CacheRange(p, ids, hs, 0, |hs|).labels[i + 1] == Some(hs[i])
    {
      assert ids[i] == i + 1;
    }
  }

  lemma FreshHeld(p: PM.Pool, n: nat)
    requires InUse(p, n)
    ensures PP.Held(p, PM.FreshIds(n + 1))
  {
    forall b | 0 <= b < |p.refs|
      ensures multiset(PM.FreshIds(n + 1))[b] <= p.refs[b]
    {
      PP.NoDupOnce(PM.FreshIds(n + 1), b);
    }
  }

  /** Freeing them front to back leaves the first block at the tail. */
  lemma FreeFreshBlocks(p: PM.Pool, n: nat)
    requires InUse(p, n)
    ensures var ids := PM.FreshIds(n + 1);
      PM.FreeAll(p, ids).free == PP.Reversed(ids) && PM.FreeAll(p, ids).labels == p.labels
  {
    var ids := PM.FreshIds(n + 1);
    FreshHeld(p, n);
    PP.FreeAllReverses(p, ids);
    PP.FreeAllCorrect(p, ids);
    assert PP.Reversed(ids) + [] == PP.Reversed(ids);
  }

  /** A prompt as long as the pool, after it is granted its blocks. */
  function Granted(c: Config, r: RequestId, tokens: seq<Token>): Manager
    requires OneToken(c) && tokens != []
  {
    var n := |tokens|;
    Manager(PM.AllocateAll(PM.New(n + 1), n).0, map[r := PM.FreshIds(n + 1)], map[r := 0],
            map[r := PromptHashes(c, tokens)])
  }

  lemma OneTokenBlocks(c: Config, n: nat)
    requires OneToken(c)
    ensures BlocksNeeded(c, n, 0) == n
  {
    assert n > 0 ==> CeilDiv(n, 1) == n;
  }

  lemma GrantFresh(c: Config, r: RequestId, tokens: seq<Token>, m1: Manager)
    requires OneToken(c) && tokens != [] && WellFormed(m1)
    requires m1 == Manager(PM.New(|tokens| + 1), map[r := []], map[r := 0], map[r := PromptHashes(c, tokens)])
    ensures AllocateSlots(c, m1, r, |tokens|, 0).0 == Granted(c, r, tokens)
  {
    var n, ids := |tokens|, PM.FreshIds(|tokens| + 1);
    FreshBlocks(n);
    OneTokenBlocks(c, n);
    assert TableOf(m1, r) + ids == ids;
    assert m1.tables[r := ids] == map[r := ids];
  }

  lemma LookupAndGrant(c: Config, r: RequestId, tokens: seq<Token>)
    requires OneToken(c) && tokens != []
    ensures Inv(Lookup(c, New(|tokens| + 1), r, tokens, false).0)
    ensures AllocateSlots(c, Lookup(c, New(|tokens| + 1), r, tokens, false).0, r, |tokens|, 0).0
      == Granted(c, r, tokens)
    ensures Inv(Granted(c, r, tokens))
  {
    var n := |tokens|;
    NewInv(n + 1);
    LookupInv(c, New(n + 1), r, tokens, false);
    var m1 := Lookup(c, New(n + 1), r, tokens, false).0;
    FreshLookup(c, n + 1, r, tokens);
    GrantFresh(c, r, tokens, m1);
    AllocateInv(c, m1, r, n, 0);
  }

  /** A prompt as long as the pool, cached and freed. */
  lemma CachedAndFreed(c: Config, r: RequestId, tokens: seq<Token>)
    requires OneToken(c) && tokens != []
    ensures LegalFromNew(c, |tokens| + 1, CacheAndFree(r, tokens))
    ensures AllCached(Reached(c, |tokens| + 1, CacheAndFree(r, tokens)), PromptHashes(c, tokens))
  {
    var n, hs, m2 := |tokens|, PromptHashes(c, tokens), Granted(c, r, tokens);
    NewInv(n + 1);
    LookupAndGrant(c, r, tokens);
    FreshLookup(c, n + 1, r, tokens);
    FreshBlocks(n);
    CacheFreshBlocks(m2.pool, hs);
    var m3 := CacheBlocks(c, m2, r, n);
    CacheInv(c, m2, r, n);
    RunCacheAndFree(c, New(n + 1), r, tokens, Lookup(c, New(n + 1), r, tokens, false).0, m2, m3);
    FreeFreshBlocks(m3.pool, n);
  }

  // ---------- what the cache does not promise ----------

  lemma LabelAt(m: Manager, hs: seq<BlockHash>, b: BlockId)
    requires AllCached(m, hs) && 0 < b <= |hs|
    ensures b < |m.pool.labels| && m.pool.labels[b] == Some(hs[b - 1])
  {
    assert m.pool.labels[(b - 1) + 1] == Some(hs[b - 1]);
  }

  /** A request for n + 1 blocks is refused, and the n cached blocks lose their labels. */
  ghost predicate RefusalForgets(c: Config, m: Manager, r: RequestId, n: nat)
    requires OneToken(c) && WellFormed(m)
  {
    var (m', ids) := AllocateSlots(c, m, r, n + 1, 0);
    ids.None? && forall b: BlockId :: 0 < b <= n ==> PM.IsCached(m.pool.labels, b) && PM.IsUncached(m'.pool.labels, b)
  }

  lemma AllCachedForgets(c: Config, m: Manager, hs: seq<BlockHash>, r: RequestId)
    requires OneToken(c) && AllCached(m, hs)
    ensures RefusalForgets(c, m, r, |hs|)
  {
    var n := |hs|;
    AllocateExact(c, m, r, n + 1, 0);
    OneTokenBlocks(c, n + 1);
    assert |m.pool.free| == n;
    forall b: BlockId | 0 < b <= n
      ensures PM.IsCached(m.pool.labels, b) && b in m.pool.free
    {
      LabelAt(m, hs, b);
      if m.pool.refs[b] > 0 {
        ActiveBlockHeld(m, b);
      }
    }
  }

  /** Refused: one block too many is asked for, and every cached block is forgotten. */
  lemma RefusalForgetsExample(c: Config, r: RequestId, tokens: seq<Token>, r': RequestId)
    requires OneToken(c) && tokens != []
    ensures LegalFromNew(c, |tokens| + 1, CacheAndFree(r, tokens))
    ensures RefusalForgets(c, Reached(c, |tokens| + 1, CacheAndFree(r, tokens)), r', |tokens|)
  {
    CachedAndFreed(c, r, tokens);
    AllCachedForgets(c, Reached(c, |tokens| + 1, CacheAndFree(r, tokens)), PromptHashes(c, tokens), r');
  }

  lemma TwoReversed(ids: seq<BlockId>)
    requires ids == [1, 2]
    ensures PP.Reversed(ids) == [2, 1]
  {
    var rest: seq<BlockId> := [2];
    assert ids[1..] == rest && rest[1..] == [];
    assert PP.Reversed(rest) == PP.Reversed([]) + [2];
  }

  lemma TwoFresh()
    ensures PM.New(3).free == [1, 2] && PP.AllUncached(PM.New(3))
    ensures PM.AllocateUpTo(PM.New(3), 3).1 == [1, 2]
  {
    assert PM.FreshIds(3) == [1, 2];
    PP.UncachedTakenInOrder(PM.New(3), 3);
  }

  /** Refused with nothing cached: the two free blocks change places. */
  lemma RefusalReversesExample(c: Config, r: RequestId)
    requires OneToken(c)
    ensures var (m', ids) := AllocateSlots(c, New(3), r, 3, 0);
      ids.None? && New(3).pool.free == [1, 2] && m'.pool.free == [2, 1]
  {
    NewInv(3);
    TwoFresh();
    OneTokenBlocks(c, 3);
    AllocateExact(c, New(3), r, 3, 0);
    RefusalReverses(c, New(3), r, 3, 0);
    TwoReversed([1, 2]);
  }

  /** The one block taken from a pool without uncached free blocks is the tail. */
  lemma TailTaken(p: PM.Pool)
    requires PM.Valid(p) && p.free != [] && forall b :: b in p.free ==> PM.IsCached(p.labels, b)
    ensures var p' := PM.AllocateAll(p, 1).0;
      var tail := p.free[|p.free| - 1];
      && PM.Valid(p')
      && forall h, b: BlockId :: PM.Listed(p'.index, h, b) <==> PM.Listed(p.index, h, b) && b != tail
  {
    PP.EvictionPolicy(p);
    PP.AllocateValid(p);
    assert PM.AllocateUpTo(PM.Allocate(p).0, 0) == (PM.Allocate(p).0, []);
  }

  lemma HashesDistinct(c: Config, tokens: seq<Token>, i: nat, j: nat)
    requires OneToken(c) && CollisionFree(c.hasher, {Prompt(tokens, None)}, 1) && i < |tokens| && j < |tokens|
    ensures PromptHashes(c, tokens)[i] == PromptHashes(c, tokens)[j] ==> i == j
  {
    ChainIdentifiesPrefix(c.hasher, {Prompt(tokens, None)}, 1, Prompt(tokens, None), i, Prompt(tokens, None), j);
  }

  lemma FirstEvicted(m: Manager, hs: seq<BlockHash>)
    requires AllCached(m, hs) && hs != [] && forall i :: 0 < i < |hs| ==> hs[i] != hs[0]
    ensures var index := PM.AllocateAll(m.pool, 1).0.index;
      hs[0] !in index && forall i :: 0 < i < |hs| ==> hs[i] in index
  {
    var p, ids := m.pool, PM.FreshIds(|hs| + 1);
    assert p.free[|p.free| - 1] == ids[0] == 1;
    forall b | b in p.free
      ensures PM.IsCached(p.labels, b)
    {
      LabelAt(m, hs, b);
    }
    TailTaken(p);
    var p' := PM.AllocateAll(p, 1).0;
    forall i | 0 < i < |hs|
      ensures hs[i] in p'.index
    {
      assert PM.Listed(p.index, hs[i], i + 1);
      assert PM.Listed(p'.index, hs[i], i + 1);
    }
    if hs[0] in p'.index {
      var b := p'.index[hs[0]][0];
      assert PM.Listed(p'.index, hs[0], b) && PM.Listed(p.index, hs[0], b);
      LabelledBelow(m, hs, b);
    }
  }

  /** Only block 1 carries the first hash. */
  lemma LabelledBelow(m: Manager, hs: seq<BlockHash>, b: BlockId)
    requires AllCached(m, hs) && hs != [] && forall i :: 0 < i < |hs| ==> hs[i] != hs[0]
    ensures PM.Listed(m.pool.index, hs[0], b) ==> b == 1
  {
    if 0 < b <= |hs| {
      LabelAt(m, hs, b);
    }
  }

  lemma FirstHashDiffers(c: Config, tokens: seq<Token>)
    requires OneToken(c) && tokens != [] && CollisionFree(c.hasher, {Prompt(tokens, None)}, 1)
    ensures |PromptHashes(c, tokens)| == |tokens|
    ensures forall i :: 0 < i < |tokens| ==> PromptHashes(c, tokens)[i] != PromptHashes(c, tokens)[0]
  {
    forall i | 0 < i < |tokens|
      ensures PromptHashes(c, tokens)[i] != PromptHashes(c, tokens)[0]
    {
      HashesDistinct(c, tokens, i, 0);
    }
  }

  /** Granting r one block takes the first hash out of the index, and leaves all others. */
  ghost predicate FirstForgotten(c: Config, m: Manager, r: RequestId, hs: seq<BlockHash>)
    requires OneToken(c) && WellFormed(m) && hs != []
  {
    var index := AllocateSlots(c, m, r, 1, 0).0.pool.index;
    hs[0] !in index && forall i :: 0 < i < |hs| ==> hs[i] in index
  }

  lemma OneBlockGranted(c: Config, m: Manager, r: RequestId)
    requires OneToken(c) && WellFormed(m)
    ensures AllocateSlots(c, m, r, 1, 0).0.pool == PM.AllocateAll(m.pool, 1).0
  {
    OneTokenBlocks(c, 1);
  }

  /**
   The cached set is not closed under prefixes: once a cached prompt is freed, the next block handed out takes the
   hash of the prompt's first block and leaves those of all its later blocks.
   */
  lemma NotPrefixClosed(c: Config, r: RequestId, tokens: seq<Token>, r': RequestId)
    requires OneToken(c) && tokens != [] && CollisionFree(c.hasher, {Prompt(tokens, None)}, 1)
    ensures LegalFromNew(c, |tokens| + 1, CacheAndFree(r, tokens)) && PromptHashes(c, tokens) != []
    ensures FirstForgotten(c, Reached(c, |tokens| + 1, CacheAndFree(r, tokens)), r', PromptHashes(c, tokens))
  {
    CachedAndFreed(c, r, tokens);
    var m, hs := Reached(c, |tokens| + 1, CacheAndFree(r, tokens)), PromptHashes(c, tokens);
    FirstHashDiffers(c, tokens);
    FirstEvicted(m, hs);
    OneBlockGranted(c, m, r');
  }

  // ---------- cached, freed, never written ----------

  function Calls(ops: seq<Op>): seq<Event> {
    if ops == [] then [] else [Call(ops[0])] + Calls(ops[1..])
  }

  /** Calls alone write nothing. */
  lemma {:induction false} CallsWriteNothing(c: Config, prompts: set<Prompt>, w: World, ops: seq<Op>)
    requires Setup(c, prompts) && WorldInv(c, prompts, w) && Legal(c, w.m, ops) && w.cells == map[]
    requires forall i :: 0 <= i < |ops| && ops[i].LookupOp? ==> Prompt(ops[i].tokens, None) in prompts
    ensures LegalEvents(c, prompts, w, Calls(ops))
    ensures var w' := RunEvents(c, prompts, w, Calls(ops));
      w'.m == Run(c, w.m, ops) && w'.cells == map[]
    decreases ops
  {
    if ops != [] {
      StepInv(c, w.m, ops[0]);
      NextInv(c, prompts, w, Call(ops[0]));
      assert Calls(ops)[0] == Call(ops[0]) && Calls(ops)[1..] == Calls(ops[1..]);
      CallsWriteNothing(c, prompts, Next(c, w, Call(ops[0])), ops[1..]);
    }
  }

  lemma FirstHit(m: Manager, hs: seq<BlockHash>)
    requires AllCached(m, hs) && hs != []
    ensures PM.LookupHits(m.pool, hs).1 != []
  {
    LabelAt(m, hs, 1);
    assert PM.Listed(m.pool.index, hs[0], 1);
    LookupRefinesSearch(m.pool, hs);
  }

  /** A lookup hits, and nothing was written to the blocks it returns, nor does any request owe it. */
  ghost predicate HitsUnwritten(c: Config, w: World, r: RequestId, tokens: seq<Token>)
    requires c.blockSize > 0 && WellFormed(w.m)
  {
    var ids := Lookup(c, w.m, r, tokens, false).1;
    ids != [] && forall i :: 0 <= i < |ids| ==> Slot(c.blockSize, ids[i], 0) !in w.cells && !Awaited(w, ids[i], 0)
  }

  lemma CachedUnwritten(c: Config, w: World, r: RequestId, tokens: seq<Token>)
    requires OneToken(c) && tokens != [] && AllCached(w.m, PromptHashes(c, tokens)) && w.cells == map[]
    ensures HitsUnwritten(c, w, r, tokens)
  {
    FirstHit(w.m, PromptHashes(c, tokens));
  }

  /** Why frees have to be settled: a request that is freed after caching and before writing leaves empty hits. */
  lemma UnsettledFreeExample(c: Config, r: RequestId, tokens: seq<Token>, r': RequestId, prompts: set<Prompt>, w: World)
    requires OneToken(c) && tokens != [] && prompts == {Prompt(tokens, None)} && Setup(c, prompts)
    requires w == Start(c, prompts, |tokens| + 1)
    ensures LegalEvents(c, prompts, w, Calls(CacheAndFree(r, tokens)))
    ensures HitsUnwritten(c, RunEvents(c, prompts, w, Calls(CacheAndFree(r, tokens))), r', tokens)
  {
    var ops := CacheAndFree(r, tokens);
    CachedAndFreed(c, r, tokens);
    CallsWriteNothing(c, prompts, w, ops);
    CachedUnwritten(c, RunEvents(c, prompts, w, Calls(ops)), r', tokens);
  }
}
