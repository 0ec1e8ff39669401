/**
 Write isolation: a position that its request has not computed yet is alone in its physical slot, as long as no
 fork shares a block that is still being written and no computed count shrinks.
 */
module WriteIsolation {
  import opened Wrappers
  import opened CacheTypes
  import opened Grids
  import opened ManagerModel
  import opened ManagerInvariant
  import opened ManagerRuns
  import opened Slots
  import PM = PoolModel
  import PP = PoolProperties

  /** How many leading blocks of r's table lie wholly below r's computed count. */
  function FrozenBlocks(c: Config, computed: map<RequestId, nat>, r: RequestId): nat
    requires c.blockSize > 0
  {
    if r in computed then computed[r] / c.blockSize else 0
  }

  /** Two different places name the same block. */
  predicate Shares(tables: map<RequestId, seq<BlockId>>, r: RequestId, i: nat, r': RequestId, j: nat) {
    IsPlace(tables, r, i) && IsPlace(tables, r', j) && (r, i) != (r', j) && tables[r][i] == tables[r'][j]
  }

  /** Every block that is shared, or labelled, is frozen for all its holders. */
  ghost predicate Isolated(c: Config, m: Manager)
    requires c.blockSize > 0 && WellFormed(m)
  {
    && (forall r, i: nat, r', j: nat :: Shares(m.tables, r, i, r', j) ==> i < FrozenBlocks(c, m.computed, r))
    && (forall r, i: nat :: IsPlace(m.tables, r, i) && m.pool.labels[m.tables[r][i]].Some? ==>
      i < FrozenBlocks(c, m.computed, r))
  }

  /** A fork shares no block still being written, and a computed count does not shrink. */
  predicate KeepsFrozen(c: Config, m: Manager, op: Op)
    requires c.blockSize > 0
  {
    match op
    case ForkOp(parent, _) => |TableOf(m, parent)| <= FrozenBlocks(c, m.computed, parent)
    case CacheOp(r, n) => ComputedTokens(m, r) <= n
    case _ => true
  }

  lemma MultipleFrozen(n: nat, blockSize: nat)
    requires blockSize > 0
    ensures n * blockSize / blockSize == n
  {
    var q := n * blockSize / blockSize;
    MulMonotone(q + 1, n, blockSize);
    MulMonotone(n + 1, q, blockSize);
  }

  lemma FrozenMonotone(a: nat, b: nat, blockSize: nat)
    requires blockSize > 0
    ensures a <= b ==> a / blockSize <= b / blockSize
  {
    MulMonotone(b / blockSize + 1, a / blockSize, blockSize);
  }

  lemma LookupIsolated(c: Config, m: Manager, r: RequestId, hs: seq<BlockHash>, ids: seq<BlockId>, m': Manager)
    requires c.blockSize > 0 && Inv(m) && Isolated(c, m) && TableOf(m, r) == []
    requires TookHits(m.pool, hs, m'.pool, ids)
    requires m'.tables == m.tables[r := ids] && m'.computed == m.computed[r := TokensIn(|ids|, c.blockSize)]
    requires WellFormed(m')
    ensures Isolated(c, m')
  {
    MultipleFrozen(|ids|, c.blockSize);
    forall q, i: nat | IsPlace(m'.tables, q, i)
      ensures if q == r then i < FrozenBlocks(c, m'.computed, q) && m.pool.labels[m'.tables[q][i]].Some?
        else IsPlace(m.tables, q, i) && FrozenBlocks(c, m'.computed, q) == FrozenBlocks(c, m.computed, q)
    {
      if q == r {
        HitLabelled(m.pool, hs, m'.pool, ids, i);
      } else {
        assert IsPlace(m.tables, q, i);
      }
    }
    forall q, i: nat, q', j: nat | Shares(m'.tables, q, i, q', j)
      ensures i < FrozenBlocks(c, m'.computed, q)
    {
      if q != r && q' != r {
        assert Shares(m.tables, q, i, q', j);
      }
    }
  }

  /** After an allocation a place is an old one, with its block and at most its label, or a new unlabelled block. */
  ghost predicate OldOrNew(m: Manager, r: RequestId, ids: seq<BlockId>, m': Manager, q: RequestId, i: nat)
    requires WellFormed(m) && WellFormed(m') && IsPlace(m'.tables, q, i)
  {
    var b, n := m'.tables[q][i], |TableOf(m, r)|;
    if q == r && i >= n then
      i - n < |ids| && b == ids[i - n] && b in m.pool.free && m'.pool.labels[b].None?
    else
      IsPlace(m.tables, q, i) && b == m.tables[q][i] && b !in m.pool.free
      && m'.pool.labels[b] in {None, m.pool.labels[b]}
  }

  /** What an allocation that granted ids did. */
  ghost predicate GrantedTo(m: Manager, r: RequestId, ids: seq<BlockId>, m': Manager) {
    && PP.TookAll(m.pool, m'.pool, ids)
    && m'.tables == m.tables[r := TableOf(m, r) + ids] && m'.computed == m.computed
  }

  lemma PlaceOldOrNew(m: Manager, r: RequestId, ids: seq<BlockId>, m': Manager, q: RequestId, i: nat)
    requires Inv(m) && GrantedTo(m, r, ids, m') && WellFormed(m') && IsPlace(m'.tables, q, i)
    ensures OldOrNew(m, r, ids, m', q, i)
  {
    AppendedPlace(m, r, ids, q, i);
    if q == r && i >= |TableOf(m, r)| {
      assert ids[i - |TableOf(m, r)|] in ids;
    }
  }

  /** A new block is in one place only, so sharing is as before. */
  lemma SharesBefore(m: Manager, r: RequestId, ids: seq<BlockId>, m': Manager, q: RequestId, i: nat, q': RequestId,
    j: nat)
    requires Inv(m) && GrantedTo(m, r, ids, m') && WellFormed(m') && Shares(m'.tables, q, i, q', j)
    ensures Shares(m.tables, q, i, q', j)
  {
    PlaceOldOrNew(m, r, ids, m', q, i);
    PlaceOldOrNew(m, r, ids, m', q', j);
  }

  lemma AllocateIsolated(c: Config, m: Manager, r: RequestId, ids: seq<BlockId>, m': Manager)
    requires c.blockSize > 0 && Inv(m) && Isolated(c, m) && GrantedTo(m, r, ids, m') && WellFormed(m')
    ensures Isolated(c, m')
  {
    forall q, i: nat, q', j: nat | Shares(m'.tables, q, i, q', j)
      ensures i < FrozenBlocks(c, m'.computed, q)
    {
      SharesBefore(m, r, ids, m', q, i, q', j);
    }
    forall q, i: nat | IsPlace(m'.tables, q, i) && m'.pool.labels[m'.tables[q][i]].Some?
      ensures i < FrozenBlocks(c, m'.computed, q)
    {
      PlaceOldOrNew(m, r, ids, m', q, i);
    }
  }

  lemma CacheIsolated(c: Config, m: Manager, r: RequestId, n: nat, lo: nat, hi: nat, m': Manager)
    requires c.blockSize > 0 && Inv(m) && Isolated(c, m) && ComputedTokens(m, r) <= n
    requires r in m.tables && r in m.hashes
    requires Relabelled(m.pool, m'.pool, m.tables[r], m.hashes[r], lo, hi) && hi <= n / c.blockSize
    requires m'.tables == m.tables && m'.computed == m.computed[r := n] && WellFormed(m')
    ensures Isolated(c, m')
  {
    FrozenMonotone(ComputedTokens(m, r), n, c.blockSize);
    assert forall q :: FrozenBlocks(c, m.computed, q) <= FrozenBlocks(c, m'.computed, q);
    forall q, i: nat | IsPlace(m'.tables, q, i) && m'.pool.labels[m'.tables[q][i]].Some?
      ensures i < FrozenBlocks(c, m'.computed, q)
    {
      var b := m.tables[q][i];
      if m'.pool.labels[b] != m.pool.labels[b] {
        assert WrittenBy(m'.pool, m.tables[r], m.hashes[r], lo, hi, b);
        var k: nat :| lo <= k < hi && k < |m.tables[r]| && m.tables[r][k] == b;
        assert (q, i) == (r, k) || Shares(m.tables, q, i, r, k);
      }
    }
  }

  lemma ForkIsolated(c: Config, m: Manager, parent: RequestId, child: RequestId, m': Manager)
    requires c.blockSize > 0 && Inv(m) && Isolated(c, m) && parent in m.tables && child !in m.tables
    requires |m.tables[parent]| <= FrozenBlocks(c, m.computed, parent)
    requires m'.pool.labels == m.pool.labels && m'.tables == m.tables[child := m.tables[parent]]
    requires m'.computed == if parent in m.computed then m.computed[child := m.computed[parent]] else m.computed
    requires WellFormed(m')
    ensures Isolated(c, m')
  {
    assert child !in m.computed;
    forall q, i: nat | IsPlace(m'.tables, q, i)
      ensures var q0 := if q == child then parent else q;
        && IsPlace(m.tables, q0, i) && m'.tables[q][i] == m.tables[q0][i]
        && FrozenBlocks(c, m'.computed, q) == FrozenBlocks(c, m.computed, q0)
        && (q0 == parent ==> i < FrozenBlocks(c, m'.computed, q))
    {
    }
    forall q, i: nat, q', j: nat | Shares(m'.tables, q, i, q', j)
      ensures i < FrozenBlocks(c, m'.computed, q)
    {
      if q != parent && q != child {
        assert Shares(m.tables, q, i, if q' == child then parent else q', j);
      }
    }
  }

  lemma FreeIsolated(c: Config, m: Manager, r: RequestId, m': Manager)
    requires c.blockSize > 0 && Inv(m) && Isolated(c, m)
    requires m'.tables == m.tables - {r} && m'.computed == m.computed - {r}
    requires m'.pool.labels == m.pool.labels && WellFormed(m')
    ensures Isolated(c, m')
  {
    forall q, i: nat | IsPlace(m'.tables, q, i)
      ensures IsPlace(m.tables, q, i) && FrozenBlocks(c, m'.computed, q) == FrozenBlocks(c, m.computed, q)
    {
    }
    forall q, i: nat, q', j: nat | Shares(m'.tables, q, i, q', j)
      ensures Shares(m.tables, q, i, q', j)
    {
    }
  }

  lemma LookupStepIsolated(c: Config, m: Manager, r: RequestId, tokens: seq<Token>, skip: bool)
    requires c.blockSize > 0 && Inv(m) && Isolated(c, m) && (LookupSkipped(c, tokens, skip) || TableOf(m, r) == [])
    ensures var m' := Lookup(c, m, r, tokens, skip).0;
      WellFormed(m') && Isolated(c, m')
  {
    LookupInv(c, m, r, tokens, skip);
    if !LookupSkipped(c, tokens, skip) {
      var hs := PromptHashes(c, tokens);
      LookupRefinesSearch(m.pool, hs);
      LookupIsolated(c, m, r, hs, PM.LookupHits(m.pool, hs).1, Lookup(c, m, r, tokens, skip).0);
    }
  }

  lemma AllocateStepIsolated(c: Config, m: Manager, r: RequestId, numTokens: nat, numComputed: nat)
    requires c.blockSize > 0 && Inv(m) && Isolated(c, m)
    ensures var m' := AllocateSlots(c, m, r, numTokens, numComputed).0;
      WellFormed(m') && Isolated(c, m')
  {
    AllocateInv(c, m, r, numTokens, numComputed);
    if numTokens > numComputed {
      var n := BlocksNeeded(c, numTokens, numComputed);
      PP.AllocateAllExact(m.pool, n);
      match PM.AllocateAll(m.pool, n).1
      case None =>
      case Some(ids) => AllocateIsolated(c, m, r, ids, AllocateSlots(c, m, r, numTokens, numComputed).0);
    }
  }

  lemma CacheStepIsolated(c: Config, m: Manager, r: RequestId, n: nat)
    requires c.blockSize > 0 && Inv(m) && Isolated(c, m) && ComputedTokens(m, r) <= n
    ensures var m' := CacheBlocks(c, m, r, n);
      WellFormed(m') && Isolated(c, m')
  {
    CacheInv(c, m, r, n);
    if c.caching && r in m.tables && r in m.hashes {
      TableConsistent(m, r);
      var lo, hi := ComputedTokens(m, r) / c.blockSize, Min(n / c.blockSize, |m.hashes[r]|);
      CacheRangeCorrect(m.pool, m.tables[r], m.hashes[r], lo, hi);
      CacheIsolated(c, m, r, n, lo, hi, CacheBlocks(c, m, r, n));
    }
  }

  lemma ForkStepIsolated(c: Config, m: Manager, parent: RequestId, child: RequestId)
    requires c.blockSize > 0 && Inv(m) && Isolated(c, m) && (parent in m.tables ==> child !in m.tables)
    requires |TableOf(m, parent)| <= FrozenBlocks(c, m.computed, parent)
    ensures var m' := Fork(m, parent, child).0;
      WellFormed(m') && Isolated(c, m')
  {
    ForkInv(m, parent, child);
    if parent in m.tables {
      TableActive(m, parent);
      TableInRange(m, parent);
      PP.IncrefAllCorrect(m.pool, m.tables[parent]);
      ForkIsolated(c, m, parent, child, Fork(m, parent, child).0);
    }
  }

  lemma FreeStepIsolated(c: Config, m: Manager, r: RequestId)
    requires c.blockSize > 0 && Inv(m) && Isolated(c, m)
    ensures var m' := ManagerModel.Free(m, r);
      WellFormed(m') && Isolated(c, m')
  {
    FreeInv(m, r);
    if r in m.tables {
      TableHeld(m, r);
      PP.FreeAllCorrect(m.pool, m.tables[r]);
      FreeIsolated(c, m, r, ManagerModel.Free(m, r));
    } else {
      assert ManagerModel.Free(m, r) == m;
    }
  }

  lemma StepIsolated(c: Config, m: Manager, op: Op)
    requires c.blockSize > 0 && Inv(m) && Guard(c, m, op)
    requires Isolated(c, m) && KeepsFrozen(c, m, op)
    ensures WellFormed(Step(c, m, op)) && Isolated(c, Step(c, m, op))
  {
    match op
    case LookupOp(r, tokens, skip) => LookupStepIsolated(c, m, r, tokens, skip);
    case AllocateOp(r, numTokens, numComputed) => AllocateStepIsolated(c, m, r, numTokens, numComputed);
    case CacheOp(r, n) => CacheStepIsolated(c, m, r, n);
    case ForkOp(parent, child) => ForkStepIsolated(c, m, parent, child);
    case FreeOp(r) => FreeStepIsolated(c, m, r);
    case ResetOp => ResetExact(m);
  }

  // ---------- from frozen blocks to slots ----------

  /** r may write position pos: it is in the table and not yet computed. */
  predicate Writable(c: Config, m: Manager, r: RequestId, pos: nat)
    requires c.blockSize > 0
  {
    IsPlace(m.tables, r, pos / c.blockSize) && ComputedTokens(m, r) <= pos
  }

  function SlotAt(c: Config, tables: map<RequestId, seq<BlockId>>, r: RequestId, pos: nat): nat
    requires c.blockSize > 0 && IsPlace(tables, r, pos / c.blockSize)
  {
    Slot(c.blockSize, tables[r][pos / c.blockSize], pos % c.blockSize)
  }

  /** No writable position lies in the slot of another position, of the same request or of another, writable or not. */
  ghost predicate WritesDisjoint(c: Config, m: Manager)
    requires c.blockSize > 0
  {
    forall r, p: nat, r', p': nat :: KeptApart(c, m, r, p, r', p')
  }

  ghost predicate KeptApart(c: Config, m: Manager, r: RequestId, p: nat, r': RequestId, p': nat)
    requires c.blockSize > 0
  {
    Writable(c, m, r, p) && IsPlace(m.tables, r', p' / c.blockSize) && (r, p) != (r', p') ==>
      SlotAt(c, m.tables, r, p) != SlotAt(c, m.tables, r', p')
  }

  lemma SameSlotShares(c: Config, tables: map<RequestId, seq<BlockId>>, r: RequestId, p: nat, r': RequestId, p': nat)
    requires c.blockSize > 0 && IsPlace(tables, r, p / c.blockSize) && IsPlace(tables, r', p' / c.blockSize)
    requires (r, p) != (r', p') && SlotAt(c, tables, r, p) == SlotAt(c, tables, r', p')
    ensures Shares(tables, r, p / c.blockSize, r', p' / c.blockSize)
  {
    var b, b' := tables[r][p / c.blockSize], tables[r'][p' / c.blockSize];
    SlotInjective(c.blockSize, b, p % c.blockSize, b', p' % c.blockSize);
    assert p == p / c.blockSize * c.blockSize + p % c.blockSize;
    assert p' == p' / c.blockSize * c.blockSize + p' % c.blockSize;
  }

  lemma FrozenBelowComputed(c: Config, m: Manager, r: RequestId, p: nat)
    requires c.blockSize > 0 && p / c.blockSize < FrozenBlocks(c, m.computed, r)
    ensures p < ComputedTokens(m, r)
  {
    FrozenMonotone(ComputedTokens(m, r), p, c.blockSize);
  }

  lemma IsolatedPair(c: Config, m: Manager, r: RequestId, p: nat, r': RequestId, p': nat)
    requires c.blockSize > 0 && Inv(m) && Isolated(c, m)
    ensures KeptApart(c, m, r, p, r', p')
  {
    if !KeptApart(c, m, r, p, r', p') {
      SameSlotShares(c, m.tables, r, p, r', p');
      FrozenBelowComputed(c, m, r, p);
    }
  }

  lemma IsolatedWritesDisjoint(c: Config, m: Manager)
    requires c.blockSize > 0 && Inv(m) && Isolated(c, m)
    ensures WritesDisjoint(c, m)
  {
    forall r, p: nat, r', p': nat
      ensures KeptApart(c, m, r, p, r', p')
    {
      IsolatedPair(c, m, r, p, r', p');
    }
  }

  /** Every call of the run meets KeepsFrozen in the state it is made in. */
  ghost predicate AlwaysFrozen(c: Config, m: Manager, ops: seq<Op>)
    requires c.blockSize > 0 && Inv(m) && Legal(c, m, ops)
    decreases ops
  {
    ops == [] || (KeepsFrozen(c, m, ops[0]) && (StepInv(c, m, ops[0]); AlwaysFrozen(c, Step(c, m, ops[0]), ops[1..])))
  }

  lemma {:induction false} RunIsolated(c: Config, m: Manager, ops: seq<Op>)
    requires c.blockSize > 0 && Inv(m) && Isolated(c, m) && Legal(c, m, ops) && AlwaysFrozen(c, m, ops)
    ensures Isolated(c, Run(c, m, ops))
    decreases ops
  {
    if ops != [] {
      StepInv(c, m, ops[0]);
      StepIsolated(c, m, ops[0]);
      RunIsolated(c, Step(c, m, ops[0]), ops[1..]);
    }
  }

  ghost predicate AlwaysFrozenFromNew(c: Config, numBlocks: nat, ops: seq<Op>)
    requires c.blockSize > 0 && LegalFromNew(c, numBlocks, ops)
  {
    NewInv(numBlocks);
    AlwaysFrozen(c, New(numBlocks), ops)
  }

  /** After any run whose forks share only computed blocks, what is not computed yet is written alone. */
  lemma ReachableWritesDisjoint(c: Config, numBlocks: nat, ops: seq<Op>)
    requires c.blockSize > 0 && LegalFromNew(c, numBlocks, ops)
    requires AlwaysFrozenFromNew(c, numBlocks, ops)
    ensures WritesDisjoint(c, Reached(c, numBlocks, ops))
  {
    NewInv(numBlocks);
    RunIsolated(c, New(numBlocks), ops);
    IsolatedWritesDisjoint(c, Reached(c, numBlocks, ops));
  }

  lemma LastPosition(n: nat, blockSize: nat)
    requires n > 0 && blockSize > 0
    ensures n * blockSize >= 1 && (n * blockSize - 1) / blockSize == n - 1
  {
    var q := (n * blockSize - 1) / blockSize;
    MulMonotone(1, n, blockSize);
    MulMonotone(n, q, blockSize);
    MulMonotone(q + 2, n, blockSize);
  }

  /** A fork keeps writers apart exactly when every block of the parent's table is already computed. */
  lemma ForkIsolationExact(c: Config, m: Manager, parent: RequestId, child: RequestId)
    requires c.blockSize > 0 && Inv(m) && Isolated(c, m) && parent in m.tables && child !in m.tables
    ensures WritesDisjoint(c, Fork(m, parent, child).0) <==>
      |m.tables[parent]| <= FrozenBlocks(c, m.computed, parent)
  {
    var m' := Fork(m, parent, child).0;
    ForkInv(m, parent, child);
    var n := |m.tables[parent]|;
    if n <= FrozenBlocks(c, m.computed, parent) {
      ForkStepIsolated(c, m, parent, child);
      IsolatedWritesDisjoint(c, m');
    } else {
      LastPosition(n, c.blockSize);
      var pos := n * c.blockSize - 1;
      FrozenMonotone(n * c.blockSize, ComputedTokens(m, parent), c.blockSize);
      MultipleFrozen(n, c.blockSize);
      assert child !in m.computed;
      assert Writable(c, m', parent, pos) && Writable(c, m', child, pos);
      assert !KeptApart(c, m', parent, pos, child, pos);
    }
  }

  /** With forks of any kind, writers that first ask is_shared and write only on `false` never collide. */
  lemma UnsharedWritesDisjoint(c: Config, m: Manager, r: RequestId, p: nat, r': RequestId, p': nat)
    requires c.blockSize > 0 && Inv(m)
    requires IsPlace(m.tables, r, p / c.blockSize) && IsPlace(m.tables, r', p' / c.blockSize)
    requires !PM.IsShared(m.pool, m.tables[r][p / c.blockSize]) && (r, p) != (r', p')
    ensures SlotAt(c, m.tables, r, p) != SlotAt(c, m.tables, r', p')
  {
    if SlotAt(c, m.tables, r, p) == SlotAt(c, m.tables, r', p') {
      SameSlotShares(c, m.tables, r, p, r', p');
      UnsharedHasOneHolder(m, r, p / c.blockSize, r', p' / c.blockSize);
    }
  }

  // ---------- runs without forks ----------

  /** Every block with more than one reference is cached. */
  ghost predicate SharedAreCached(p: PM.Pool) {
    |p.labels| == |p.refs| && forall b :: 0 <= b < |p.refs| && p.refs[b] > 1 ==> p.labels[b].Some?
  }

  lemma LookupSharesCached(p: PM.Pool, hs: seq<BlockHash>)
    requires PM.Valid(p) && SharedAreCached(p)
    ensures SharedAreCached(PM.LookupHits(p, hs).0)
  {
    LookupRefinesSearch(p, hs);
    var (p', ids) := PM.LookupHits(p, hs);
    forall b | 0 <= b < |p'.refs| && p'.refs[b] > 1
      ensures p'.labels[b].Some?
    {
      if b in ids {
        var i :| 0 <= i < |ids| && ids[i] == b;
        HitLabelled(p, hs, p', ids, i);
      } else {
        assert multiset(ids)[b] == 0;
      }
    }
  }

  lemma AllocateSharesCached(p: PM.Pool, n: nat)
    requires PM.Valid(p) && SharedAreCached(p)
    ensures SharedAreCached(PM.AllocateAll(p, n).0)
  {
    PP.AllocateAllExact(p, n);
    var (p', r) := PM.AllocateAll(p, n);
    if r.Some? {
      forall b | 0 <= b < |p'.refs| && p'.refs[b] > 1
        ensures p'.labels[b].Some?
      {
        PP.NoDupOnce(r.value, b);
        assert b in r.value ==> b in p.free;
        assert b !in r.value ==> multiset(r.value)[b] == 0;
      }
    }
  }

  lemma CacheSharesCached(c: Config, m: Manager, r: RequestId, n: nat)
    requires c.blockSize > 0 && Inv(m) && SharedAreCached(m.pool)
    ensures SharedAreCached(CacheBlocks(c, m, r, n).pool)
  {
    if c.caching && r in m.tables && r in m.hashes {
      TableConsistent(m, r);
      CacheRangeCorrect(m.pool, m.tables[r], m.hashes[r], ComputedTokens(m, r) / c.blockSize,
        Min(n / c.blockSize, |m.hashes[r]|));
    }
  }

  lemma FreeSharesCached(m: Manager, r: RequestId)
    requires Inv(m) && SharedAreCached(m.pool)
    ensures SharedAreCached(ManagerModel.Free(m, r).pool)
  {
    if r in m.tables {
      TableHeld(m, r);
      PP.FreeAllCorrect(m.pool, m.tables[r]);
    }
  }

  /** A reset that goes through finds no block in use. */
  lemma ResetSharesCached(m: Manager)
    requires Inv(m) && SharedAreCached(m.pool)
    ensures SharedAreCached(Reset(m).0.pool)
  {
    if m.tables == map[] {
      PP.ResetExact(m.pool);
      forall b | 0 <= b < |m.pool.refs|
        ensures m.pool.refs[b] == 0
      {
        if m.pool.refs[b] > 0 {
          ActiveBlockHeld(m, b);
        }
      }
    }
  }

  lemma StepSharesCached(c: Config, m: Manager, op: Op)
    requires c.blockSize > 0 && Inv(m) && Guard(c, m, op) && !op.ForkOp? && SharedAreCached(m.pool)
    ensures SharedAreCached(Step(c, m, op).pool)
  {
    match op
    case LookupOp(r, tokens, skip) => LookupSharesCached(m.pool, PromptHashes(c, tokens));
    case AllocateOp(r, numTokens, numComputed) => AllocateSharesCached(m.pool, BlocksNeeded(c, numTokens, numComputed));
    case CacheOp(r, n) => CacheSharesCached(c, m, r, n);
    case FreeOp(r) => FreeSharesCached(m, r);
    case ResetOp => ResetSharesCached(m);
  }

  lemma {:induction false} RunSharesCached(c: Config, m: Manager, ops: seq<Op>)
    requires c.blockSize > 0 && Inv(m) && Legal(c, m, ops) && SharedAreCached(m.pool)
    requires forall i :: 0 <= i < |ops| ==> !ops[i].ForkOp?
    ensures SharedAreCached(Run(c, m, ops).pool)
    decreases ops
  {
    if ops != [] {
      StepInv(c, m, ops[0]);
      StepSharesCached(c, m, ops[0]);
      RunSharesCached(c, Step(c, m, ops[0]), ops[1..]);
    }
  }

  /** After any run without forks, a block is shared only through the prefix cache. */
  lemma ReachableSharedAreCached(c: Config, numBlocks: nat, ops: seq<Op>)
    requires c.blockSize > 0 && LegalFromNew(c, numBlocks, ops)
    requires forall i :: 0 <= i < |ops| ==> !ops[i].ForkOp?
    ensures SharedAreCached(Reached(c, numBlocks, ops).pool)
  {
    NewInv(numBlocks);
    RunSharesCached(c, New(numBlocks), ops);
  }
}
