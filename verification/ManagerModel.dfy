/**
 The KV-cache manager as a mathematical value: the pool plus one block table, computed count and
 hash list per request. `KVCacheManager` refines it; `ManagerInvariant` says what every step keeps.
 */
module ManagerModel {
  import opened Wrappers
  import opened Sequences
  import opened CacheTypes
  import opened Prefix
  import PM = PoolModel

  datatype Config = Config(blockSize: nat, caching: bool, hasher: Hasher)

  datatype Manager = Manager(
    pool: PM.Pool,
    tables: map<RequestId, seq<BlockId>>,
    computed: map<RequestId, nat>,
    hashes: map<RequestId, seq<BlockHash>>)

  /** Position i of r's block table. */
  predicate IsPlace(tables: map<RequestId, seq<BlockId>>, r: RequestId, i: nat) {
    r in tables && i < |tables[r]|
  }

  /** The hash that r expects of the block at index i of its table, if it knows one. */
  function HashAt(hashes: map<RequestId, seq<BlockHash>>, r: RequestId, i: nat): Option<BlockHash> {
    if r in hashes then At(hashes[r], i) else None
  }

  function TableOf(m: Manager, r: RequestId): seq<BlockId> {
    if r in m.tables then m.tables[r] else []
  }

  function ComputedTokens(m: Manager, r: RequestId): nat {
    if r in m.computed then m.computed[r] else 0
  }

  /** The pool is valid and every table entry is a real block. */
  ghost predicate WellFormed(m: Manager) {
    && PM.Valid(m.pool)
    && forall r, i: nat :: IsPlace(m.tables, r, i) ==> 0 < m.tables[r][i] < |m.pool.refs|
  }

  lemma TableInRange(m: Manager, r: RequestId)
    requires WellFormed(m) && r in m.tables
    ensures forall i :: 0 <= i < |m.tables[r]| ==> 0 < m.tables[r][i] < |m.pool.refs|
  {
    forall i | 0 <= i < |m.tables[r]|
      ensures 0 < m.tables[r][i] < |m.pool.refs|
    {
      assert IsPlace(m.tables, r, i);
    }
  }

  // ---------- operations ----------

  function New(numBlocks: nat): Manager {
    Manager(PM.New(numBlocks), map[], map[], map[])
  }

  /** A lookup that the switches or an empty prompt turn off touches nothing. */
  predicate LookupSkipped(c: Config, tokens: seq<Token>, skip: bool) {
    !c.caching || skip || tokens == []
  }

  function TokensIn(blocks: nat, blockSize: nat): nat {
    blocks * blockSize
  }

  function PromptHashes(c: Config, tokens: seq<Token>): seq<BlockHash>
    requires c.blockSize > 0
  {
    ChainHashes(c.hasher, Prompt(tokens, None), c.blockSize)
  }

  function Lookup(c: Config, m: Manager, r: RequestId, tokens: seq<Token>, skip: bool): (Manager, seq<BlockId>)
    requires c.blockSize > 0 && WellFormed(m)
  {
    if LookupSkipped(c, tokens, skip) then (m, [])
    else
      var hs := PromptHashes(c, tokens);
      var (pool, ids) := PM.LookupHits(m.pool, hs);
      (Manager(pool, m.tables[r := ids], m.computed[r := TokensIn(|ids|, c.blockSize)], m.hashes[r := hs]), ids)
  }

  function CeilDiv(a: nat, b: nat): nat
    requires b > 0
  {
    (a + b - 1) / b
  }

  /** Blocks for the tokens beyond numComputed; none when there are no such tokens. */
  function BlocksNeeded(c: Config, numTokens: nat, numComputed: nat): nat
    requires c.blockSize > 0
  {
    if numTokens <= numComputed then 0 else CeilDiv(numTokens - numComputed, c.blockSize)
  }

  function AllocateSlots(c: Config, m: Manager, r: RequestId, numTokens: nat, numComputed: nat):
    (Manager, Option<seq<BlockId>>)
    requires c.blockSize > 0 && WellFormed(m)
  {
    if numTokens <= numComputed then (m, Some([]))
    else
      var (pool, ids) := PM.AllocateAll(m.pool, BlocksNeeded(c, numTokens, numComputed));
      match ids
      case None => (m.(pool := pool), None)
      case Some(new_) => (m.(pool := pool, tables := m.tables[r := TableOf(m, r) + new_]), ids)
  }

  function Free(m: Manager, r: RequestId): Manager
    requires WellFormed(m)
  {
    if r in m.tables then
      TableInRange(m, r);
      Manager(PM.FreeAll(m.pool, m.tables[r]), m.tables - {r}, m.computed - {r}, m.hashes - {r})
    else m.(computed := m.computed - {r}, hashes := m.hashes - {r})
  }

  /** Labels table entries lo .. hi - 1, as far as the table reaches. */
  function CacheRange(p: PM.Pool, table: seq<BlockId>, hs: seq<BlockHash>, lo: nat, hi: nat): (p': PM.Pool)
    requires PM.Shape(p) && hi <= |hs|
    requires forall i :: 0 <= i < |table| ==> table[i] < |p.refs|
    ensures PM.Shape(p') && |p'.refs| == |p.refs|
    decreases hi - lo
  {
    if lo >= hi || lo >= |table| then p
    else CacheRange(PM.CacheBlock(p, table[lo], hs[lo]), table, hs, lo + 1, hi)
  }

  function Min(a: nat, b: nat): nat {
    if a <= b then a else b
  }

  function CacheBlocks(c: Config, m: Manager, r: RequestId, numComputed: nat): Manager
    requires c.blockSize > 0 && WellFormed(m)
  {
    if !c.caching || r !in m.tables || r !in m.hashes then m
    else
      TableInRange(m, r);
      var lo, hi := ComputedTokens(m, r) / c.blockSize, Min(numComputed / c.blockSize, |m.hashes[r]|);
      m.(pool := CacheRange(m.pool, m.tables[r], m.hashes[r], lo, hi), computed := m.computed[r := numComputed])
  }

  function Fork(m: Manager, parent: RequestId, child: RequestId): (Manager, bool)
    requires WellFormed(m)
  {
    if parent !in m.tables then (m, false)
    else
      TableInRange(m, parent);
      (Manager(
        PM.IncrefAll(m.pool, m.tables[parent]),
        m.tables[child := m.tables[parent]],
        if parent in m.computed then m.computed[child := m.computed[parent]] else m.computed,
        if parent in m.hashes then m.hashes[child := m.hashes[parent]] else m.hashes), true)
  }

  function Reset(m: Manager): (Manager, bool)
    requires WellFormed(m)
  {
    if m.tables != map[] then (m, false)
    else
      var (pool, ok) := PM.Reset(m.pool);
      (m.(pool := pool), ok)
  }

  // ---------- counting references over all tables ----------

  /** All table entries, with multiplicity. */
  ghost function AllRefs(tables: map<RequestId, seq<BlockId>>): multiset<BlockId> {
    if tables == map[] then multiset{}
    else
      var r :| r in tables;
      multiset(tables[r]) + AllRefs(tables - {r})
  }

  /** The choice of table to count first does not matter. */
  lemma {:induction false} AllRefsAt(tables: map<RequestId, seq<BlockId>>, r: RequestId)
    requires r in tables
    ensures AllRefs(tables) == multiset(tables[r]) + AllRefs(tables - {r})
    decreases |tables|
  {
    var s :| s in tables && AllRefs(tables) == multiset(tables[s]) + AllRefs(tables - {s});
    if s != r {
      assert r in tables - {s} && s in tables - {r};
      AllRefsAt(tables - {s}, r);
      AllRefsAt(tables - {r}, s);
      assert tables - {s} - {r} == tables - {r} - {s};
    }
  }

  lemma AllRefsPut(tables: map<RequestId, seq<BlockId>>, r: RequestId, table: seq<BlockId>)
    ensures AllRefs(tables[r := table]) == multiset(table) + AllRefs(tables - {r})
  {
    AllRefsAt(tables[r := table], r);
    assert tables[r := table] - {r} == tables - {r};
  }

  /** Replacing an absent or empty table adds exactly the new entries. */
  lemma AllRefsPutNew(tables: map<RequestId, seq<BlockId>>, r: RequestId, table: seq<BlockId>)
    requires r !in tables || tables[r] == []
    ensures AllRefs(tables[r := table]) == multiset(table) + AllRefs(tables)
  {
    AllRefsPut(tables, r, table);
    if r in tables {
      AllRefsAt(tables, r);
    } else {
      assert tables - {r} == tables;
    }
  }

  lemma AllRefsAppend(tables: map<RequestId, seq<BlockId>>, r: RequestId, table: seq<BlockId>, more: seq<BlockId>)
    requires table == if r in tables then tables[r] else []
    ensures AllRefs(tables[r := table + more]) == multiset(more) + AllRefs(tables)
  {
    AllRefsPut(tables, r, table + more);
    assert multiset(table + more) == multiset(table) + multiset(more);
    if r in tables {
      AllRefsAt(tables, r);
    } else {
      assert tables - {r} == tables;
    }
  }

  lemma PlaceCounted(tables: map<RequestId, seq<BlockId>>, r: RequestId, i: nat)
    requires IsPlace(tables, r, i)
    ensures AllRefs(tables)[tables[r][i]] >= 1
  {
    AllRefsAt(tables, r);
    assert tables[r][i] in multiset(tables[r]);
  }

  lemma CountedTwice(s: seq<BlockId>, i: nat, j: nat)
    requires i < j < |s| && s[i] == s[j]
    ensures multiset(s)[s[i]] >= 2
  {
    assert s == s[..j] + s[j..];
    assert s[i] in multiset(s[..j]) && s[..j][i] == s[i];
    assert s[j] in multiset(s[j..]) && s[j..][0] == s[j];
    assert multiset(s) == multiset(s[..j]) + multiset(s[j..]);
  }

  /** Two places holding the same block are two references. */
  lemma TwoPlacesCounted(tables: map<RequestId, seq<BlockId>>, r: RequestId, i: nat, r': RequestId, j: nat)
    requires IsPlace(tables, r, i) && IsPlace(tables, r', j)
    requires (r, i) != (r', j) && tables[r][i] == tables[r'][j]
    ensures AllRefs(tables)[tables[r][i]] >= 2
  {
    AllRefsAt(tables, r);
    if r == r' {
      if i < j { CountedTwice(tables[r], i, j); } else { CountedTwice(tables[r], j, i); }
    } else {
      assert IsPlace(tables - {r}, r', j);
      PlaceCounted(tables - {r}, r', j);
      assert tables[r][i] in multiset(tables[r]);
    }
  }

  /** A counted block is held somewhere. */
  lemma {:induction false} CountedPlace(tables: map<RequestId, seq<BlockId>>, b: BlockId)
    requires b in AllRefs(tables)
    ensures exists r, i: nat :: IsPlace(tables, r, i) && tables[r][i] == b
    decreases |tables|
  {
    var r :| r in tables && AllRefs(tables) == multiset(tables[r]) + AllRefs(tables - {r});
    if b in multiset(tables[r]) {
      var i :| 0 <= i < |tables[r]| && tables[r][i] == b;
      assert IsPlace(tables, r, i);
    } else {
      CountedPlace(tables - {r}, b);
      var r', i: nat :| IsPlace(tables - {r}, r', i) && (tables - {r})[r'][i] == b;
      assert IsPlace(tables, r', i) && tables[r'][i] == b;
    }
  }
}
