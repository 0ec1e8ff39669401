/** Exact statements about single manager calls, on every state the invariant describes. */
module ManagerTheorems {
  import opened Wrappers
  import opened Sequences
  import opened CacheTypes
  import opened ManagerModel
  import opened ManagerInvariant
  import PM = PoolModel
  import PP = PoolProperties

  // ---------- allocation ----------

  /** CeilDiv(a, b) blocks of b are enough for a tokens, and one fewer is not. */
  lemma CeilDivExact(a: nat, b: nat)
    requires a > 0 && b > 0
    ensures (CeilDiv(a, b) - 1) * b < a <= CeilDiv(a, b) * b
  {
    var q := CeilDiv(a, b);
    assert a + b - 1 == q * b + (a + b - 1) % b;
  }

  /** The blocks handed to r were in no table, and are appended to r's table; nothing else moves. */
  ghost predicate Granted(m: Manager, r: RequestId, ids: seq<BlockId>, m': Manager) {
    && NoDup(ids)
    && (forall q, i: nat :: IsPlace(m.tables, q, i) ==> m.tables[q][i] !in ids)
    && m'.tables == m.tables[r := TableOf(m, r) + ids]
    && m'.computed == m.computed && m'.hashes == m.hashes
    && PP.RefsPlus(m.pool, m'.pool, ids)
  }

  /** Nothing but labels of free blocks, and with them their index memberships, is lost. */
  ghost predicate Refused(m: Manager, m': Manager) {
    && m'.tables == m.tables && m'.computed == m.computed && m'.hashes == m.hashes
    && PP.RolledBack(m.pool, m'.pool)
    && forall h: BlockHash, b: BlockId :: PM.Listed(m'.pool.index, h, b) <==>
      PM.Listed(m.pool.index, h, b) && b < |m.pool.refs| && m.pool.refs[b] > 0
  }

  lemma AllocateExact(c: Config, m: Manager, r: RequestId, numTokens: nat, numComputed: nat)
    requires c.blockSize > 0 && Inv(m)
    ensures var (m', ids) := AllocateSlots(c, m, r, numTokens, numComputed);
      && (ids.Some? <==> BlocksNeeded(c, numTokens, numComputed) <= |m.pool.free|)
      && (numTokens <= numComputed ==> m' == m && ids == Some([]))
      && (numTokens > numComputed && ids.Some? ==>
        |ids.value| == BlocksNeeded(c, numTokens, numComputed) && Granted(m, r, ids.value, m'))
      && (ids.None? ==> Refused(m, m'))
  {
    if numTokens > numComputed {
      var n := BlocksNeeded(c, numTokens, numComputed);
      PP.AllocateAllExact(m.pool, n);
      var (m', r0) := AllocateSlots(c, m, r, numTokens, numComputed);
      match PM.AllocateAll(m.pool, n).1
      case None =>
        forall h: BlockHash, b: BlockId
          ensures PM.Listed(m'.pool.index, h, b) <==>
            PM.Listed(m.pool.index, h, b) && b < |m.pool.refs| && m.pool.refs[b] > 0
        {
          PP.RolledBackIndex(m.pool, m'.pool, h, b);
        }
      case Some(ids) =>
        forall q, i: nat | IsPlace(m.tables, q, i)
          ensures m.tables[q][i] !in ids
        {
          HeldBlockNotFree(m, q, i);
        }
    }
  }

  /** A refused allocation changes nothing exactly when at most one block is free, and it is not cached. */
  lemma RefusalUnchangedExactly(c: Config, m: Manager, r: RequestId, numTokens: nat, numComputed: nat)
    requires c.blockSize > 0 && Inv(m)
    requires AllocateSlots(c, m, r, numTokens, numComputed).1.None?
    ensures AllocateSlots(c, m, r, numTokens, numComputed).0 == m <==> |m.pool.free| <= 1 && PP.AllUncached(m.pool)
  {
    var n := BlocksNeeded(c, numTokens, numComputed);
    PP.RefusalUnchangedExactly(m.pool, n);
    assert AllocateSlots(c, m, r, numTokens, numComputed).0 == m.(pool := PM.AllocateAll(m.pool, n).0);
  }

  /** The free list comes back in the reverse of the order in which its blocks were taken. */
  lemma RefusalReverses(c: Config, m: Manager, r: RequestId, numTokens: nat, numComputed: nat)
    requires c.blockSize > 0 && Inv(m)
    requires AllocateSlots(c, m, r, numTokens, numComputed).1.None?
    ensures var taken := PM.AllocateUpTo(m.pool, BlocksNeeded(c, numTokens, numComputed)).1;
      AllocateSlots(c, m, r, numTokens, numComputed).0.pool.free == PP.Reversed(taken)
  {
    PP.RefusalReverses(m.pool, BlocksNeeded(c, numTokens, numComputed));
  }

  /** A refused allocation keeps the labels exactly when no free block was cached. */
  lemma RefusalKeepsLabelsExactly(c: Config, m: Manager, r: RequestId, numTokens: nat, numComputed: nat)
    requires c.blockSize > 0 && Inv(m)
    requires AllocateSlots(c, m, r, numTokens, numComputed).1.None?
    ensures AllocateSlots(c, m, r, numTokens, numComputed).0.pool.labels == m.pool.labels <==> PP.AllUncached(m.pool)
  {
    AllocateExact(c, m, r, numTokens, numComputed);
    var m' := AllocateSlots(c, m, r, numTokens, numComputed).0;
    if m'.pool.labels == m.pool.labels {
      forall b | b in m.pool.free
        ensures PM.IsUncached(m.pool.labels, b)
      {
        assert m'.pool.labels[b] == None;
      }
    }
  }

  // ---------- overwriting a table leaks its references ----------

  /** The insert that ends a lookup keeps the counts right exactly when it overwrites no block. */
  lemma LookupConservesExactly(c: Config, m: Manager, r: RequestId, tokens: seq<Token>, skip: bool)
    requires c.blockSize > 0 && Inv(m)
    ensures Conserved(Lookup(c, m, r, tokens, skip).0) <==>
      LookupSkipped(c, tokens, skip) || TableOf(m, r) == []
  {
    if LookupSkipped(c, tokens, skip) {
    } else if TableOf(m, r) == [] {
      LookupInv(c, m, r, tokens, skip);
    } else {
      var hs := PromptHashes(c, tokens);
      LookupRefinesSearch(m.pool, hs);
      var (pool, ids) := PM.LookupHits(m.pool, hs);
      OverwriteLeaks(m, r, ids, pool);
    }
  }

  /** Adding references for a new table without dropping those of the old one. */
  lemma OverwriteLeaks(m: Manager, r: RequestId, table: seq<BlockId>, pool: PM.Pool)
    requires Inv(m) && r in m.tables && m.tables[r] != []
    requires PP.RefsPlus(m.pool, pool, table)
    ensures exists b :: 0 <= b < |pool.refs| && pool.refs[b] != AllRefs(m.tables[r := table])[b]
  {
    var b := m.tables[r][0];
    assert IsPlace(m.tables, r, 0);
    AllRefsAt(m.tables, r);
    AllRefsPut(m.tables, r, table);
    assert b in multiset(m.tables[r]);
    assert pool.refs[b] == m.pool.refs[b] + multiset(table)[b];
  }

  lemma ForkConservesExactly(m: Manager, parent: RequestId, child: RequestId)
    requires Inv(m) && parent in m.tables
    ensures Conserved(Fork(m, parent, child).0) <==> TableOf(m, child) == []
  {
    var table := m.tables[parent];
    TableActive(m, parent);
    TableInRange(m, parent);
    PP.IncrefAllCorrect(m.pool, table);
    if TableOf(m, child) == [] {
      AllRefsPutNew(m.tables, child, table);
    } else {
      OverwriteLeaks(m, child, table, PM.IncrefAll(m.pool, table));
    }
  }

  /** A concrete leak: a request that already holds a block looks up a prompt. */
  lemma LookupLeakExample(c: Config, r: RequestId)
    requires c.blockSize > 0 && c.caching
    ensures var m := AllocateSlots(c, New(2), r, 1, 0).0;
      Inv(m) && !Conserved(Lookup(c, m, r, [0], false).0)
  {
    NewInv(2);
    AllocateInv(c, New(2), r, 1, 0);
    AllocateExact(c, New(2), r, 1, 0);
    assert CeilDiv(1, c.blockSize) == 1;
    assert |PM.FreshIds(2)| == 1;
    LookupConservesExactly(c, AllocateSlots(c, New(2), r, 1, 0).0, r, [0], false);
  }

  // ---------- labels ----------

  /** Caching never changes the label of a block that has one. */
  lemma CacheKeepsLabels(c: Config, m: Manager, r: RequestId, numComputed: nat, b: BlockId)
    requires c.blockSize > 0 && Inv(m) && b < |m.pool.labels| && m.pool.labels[b].Some?
    ensures b < |CacheBlocks(c, m, r, numComputed).pool.labels|
    ensures CacheBlocks(c, m, r, numComputed).pool.labels[b] == m.pool.labels[b]
  {
    if c.caching && r in m.tables && r in m.hashes {
      TableConsistent(m, r);
      var lo, hi := ComputedTokens(m, r) / c.blockSize, Min(numComputed / c.blockSize, |m.hashes[r]|);
      CacheRangeCorrect(m.pool, m.tables[r], m.hashes[r], lo, hi);
    }
  }
}
