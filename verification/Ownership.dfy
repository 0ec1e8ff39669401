/**
 Who has to write a block. The blocks a lookup returned were written, or are being written, by somebody else;
 a request owns the blocks behind them. Here nothing is asked of computed counts: a request owns what it was
 granted from the allocation on, however early the blocks are cached.
 */
module Ownership {
  import opened CacheTypes
  import opened Sequences
  import opened ManagerModel
  import opened ManagerInvariant
  import opened ManagerTheorems
  import opened ManagerRuns
  import opened WriteIsolation

  /** The engine's book of how many leading blocks of each request's table came from its lookup. */
  type Hits = map<RequestId, nat>

  /** A fork inherits the hits of its parent. */
  function HitBlocks(hits: Hits, q: RequestId): nat {
    if q in hits then hits[q] else 0
  }

  /** Index k of q's table is not a hit. */
  predicate Owned(tables: map<RequestId, seq<BlockId>>, hits: Hits, q: RequestId, k: nat) {
    IsPlace(tables, q, k) && HitBlocks(hits, q) <= k
  }

  ghost predicate HitsInside(tables: map<RequestId, seq<BlockId>>, hits: Hits) {
    forall q :: q in hits ==> q in tables && hits[q] <= |tables[q]|
  }

  /** A block has at most one owner, at one index. */
  ghost predicate SingleOwners(tables: map<RequestId, seq<BlockId>>, hits: Hits) {
    forall q, k: nat, q', k': nat | Owned(tables, hits, q, k) && Owned(tables, hits, q', k')
      && tables[q][k] == tables[q'][k'] :: q == q' && k == k'
  }

  function NextHits(c: Config, m: Manager, hits: Hits, op: Op): Hits
    requires c.blockSize > 0 && WellFormed(m)
  {
    match op
    case LookupOp(r, tokens, skip) =>
      if LookupSkipped(c, tokens, skip) then hits else hits[r := |Lookup(c, m, r, tokens, skip).1|]
    case ForkOp(parent, child) =>
      if parent in m.tables && parent in hits then hits[child := hits[parent]] else hits
    case FreeOp(r) => hits - {r}
    case _ => hits
  }

  lemma StepHitsInside(c: Config, m: Manager, hits: Hits, op: Op)
    requires c.blockSize > 0 && Inv(m) && Guard(c, m, op) && HitsInside(m.tables, hits)
    ensures HitsInside(Step(c, m, op).tables, NextHits(c, m, hits, op))
  {
  }

  // ---------- single calls ----------

  /** A fork copies nothing its parent owns. */
  predicate ForkOwnsNothing(m: Manager, hits: Hits, op: Op) {
    op.ForkOp? ==> |TableOf(m, op.parent)| <= HitBlocks(hits, op.parent)
  }

  /** An owned place behind the old table is one of the new blocks; the others are as before. */
  lemma AppendedOwner(m: Manager, hits: Hits, r: RequestId, ids: seq<BlockId>, q: RequestId, k: nat)
    requires Inv(m) && Owned(m.tables[r := TableOf(m, r) + ids], hits, q, k)
    ensures var b, n := m.tables[r := TableOf(m, r) + ids][q][k], |TableOf(m, r)|;
      if q == r && k >= n then k - n < |ids| && b == ids[k - n]
      else Owned(m.tables, hits, q, k) && b == m.tables[q][k]
  {
    AppendedPlace(m, r, ids, q, k);
  }

  /** Blocks that were in no table get one owner each. */
  lemma AppendSingle(m: Manager, hits: Hits, r: RequestId, ids: seq<BlockId>)
    requires Inv(m) && SingleOwners(m.tables, hits) && NoDup(ids)
    requires forall q, k: nat :: IsPlace(m.tables, q, k) ==> m.tables[q][k] !in ids
    ensures SingleOwners(m.tables[r := TableOf(m, r) + ids], hits)
  {
    var tables := m.tables[r := TableOf(m, r) + ids];
    forall q, k: nat, q', k': nat | Owned(tables, hits, q, k) && Owned(tables, hits, q', k')
      && tables[q][k] == tables[q'][k']
      ensures q == q' && k == k'
    {
      AppendedOwner(m, hits, r, ids, q, k);
      AppendedOwner(m, hits, r, ids, q', k');
    }
  }

  lemma AllocateSingle(c: Config, m: Manager, hits: Hits, r: RequestId, numTokens: nat, numComputed: nat)
    requires c.blockSize > 0 && Inv(m) && SingleOwners(m.tables, hits)
    ensures SingleOwners(AllocateSlots(c, m, r, numTokens, numComputed).0.tables, hits)
  {
    AllocateExact(c, m, r, numTokens, numComputed);
    var ids := AllocateSlots(c, m, r, numTokens, numComputed).1;
    if numTokens > numComputed && ids.Some? {
      AppendSingle(m, hits, r, ids.value);
    }
  }

  /** A fork keeps owners single exactly when its parent owns nothing: when all it holds are hits. */
  lemma ForkSingleExactly(m: Manager, hits: Hits, parent: RequestId, child: RequestId, hits': Hits)
    requires Inv(m) && SingleOwners(m.tables, hits) && HitsInside(m.tables, hits)
    requires parent in m.tables && child !in m.tables
    requires hits' == if parent in hits then hits[child := hits[parent]] else hits
    ensures SingleOwners(Fork(m, parent, child).0.tables, hits') <==> |m.tables[parent]| <= HitBlocks(hits, parent)
  {
    var tables, n := Fork(m, parent, child).0.tables, |m.tables[parent]|;
    assert child !in hits;
    if n <= HitBlocks(hits, parent) {
      forall q, k: nat | Owned(tables, hits', q, k)
        ensures Owned(m.tables, hits, q, k) && tables[q][k] == m.tables[q][k]
      {
      }
    } else {
      assert Owned(tables, hits', parent, n - 1) && Owned(tables, hits', child, n - 1);
    }
  }

  lemma StepSingle(c: Config, m: Manager, hits: Hits, op: Op)
    requires c.blockSize > 0 && Inv(m) && Guard(c, m, op) && HitsInside(m.tables, hits)
    requires SingleOwners(m.tables, hits) && ForkOwnsNothing(m, hits, op)
    ensures SingleOwners(Step(c, m, op).tables, NextHits(c, m, hits, op))
  {
    var tables', hits' := Step(c, m, op).tables, NextHits(c, m, hits, op);
    match op
    case AllocateOp(r, numTokens, numComputed) => AllocateSingle(c, m, hits, r, numTokens, numComputed);
    case ForkOp(parent, child) =>
      if parent in m.tables {
        ForkSingleExactly(m, hits, parent, child, hits');
      }
    case _ =>
      forall q, k: nat | Owned(tables', hits', q, k)
        ensures Owned(m.tables, hits, q, k) && tables'[q][k] == m.tables[q][k]
      {
      }
  }

  // ---------- runs ----------

  /** The book of hits after a run. */
  ghost function RunHits(c: Config, m: Manager, hits: Hits, ops: seq<Op>): Hits
    requires c.blockSize > 0 && Inv(m) && Legal(c, m, ops)
    decreases ops
  {
    if ops == [] then hits
    else
      StepInv(c, m, ops[0]);
      RunHits(c, Step(c, m, ops[0]), NextHits(c, m, hits, ops[0]), ops[1..])
  }

  /** Every fork of the run copies nothing its parent owns. Runs without forks are of this kind. */
  ghost predicate ForksOwnNothing(c: Config, m: Manager, hits: Hits, ops: seq<Op>)
    requires c.blockSize > 0 && Inv(m) && Legal(c, m, ops)
    decreases ops
  {
    ops == [] || (ForkOwnsNothing(m, hits, ops[0])
      && (StepInv(c, m, ops[0]); ForksOwnNothing(c, Step(c, m, ops[0]), NextHits(c, m, hits, ops[0]), ops[1..])))
  }

  lemma {:induction false} RunSingle(c: Config, m: Manager, hits: Hits, ops: seq<Op>)
    requires c.blockSize > 0 && Inv(m) && Legal(c, m, ops) && ForksOwnNothing(c, m, hits, ops)
    requires HitsInside(m.tables, hits) && SingleOwners(m.tables, hits)
    ensures SingleOwners(Run(c, m, ops).tables, RunHits(c, m, hits, ops))
    decreases ops
  {
    if ops != [] {
      StepInv(c, m, ops[0]);
      StepHitsInside(c, m, hits, ops[0]);
      StepSingle(c, m, hits, ops[0]);
      RunSingle(c, Step(c, m, ops[0]), NextHits(c, m, hits, ops[0]), ops[1..]);
    }
  }

  ghost predicate ForksOwnNothingFromNew(c: Config, numBlocks: nat, ops: seq<Op>)
    requires c.blockSize > 0 && LegalFromNew(c, numBlocks, ops)
  {
    NewInv(numBlocks);
    ForksOwnNothing(c, New(numBlocks), map[], ops)
  }

  ghost function ReachedHits(c: Config, numBlocks: nat, ops: seq<Op>): Hits
    requires c.blockSize > 0 && LegalFromNew(c, numBlocks, ops)
  {
    NewInv(numBlocks);
    RunHits(c, New(numBlocks), map[], ops)
  }

  /**
   After any run whose forks copy only hits, wherever in it blocks were cached and whatever counts were recorded:
   two positions past the hits of their requests never share a slot.
   */
  lemma ReachableOwnersDisjoint(c: Config, numBlocks: nat, ops: seq<Op>, r: RequestId, p: nat, r': RequestId, p': nat)
    requires c.blockSize > 0 && LegalFromNew(c, numBlocks, ops) && ForksOwnNothingFromNew(c, numBlocks, ops)
    requires var m, hits := Reached(c, numBlocks, ops), ReachedHits(c, numBlocks, ops);
      Owned(m.tables, hits, r, p / c.blockSize) && Owned(m.tables, hits, r', p' / c.blockSize)
    requires (r, p) != (r', p')
    ensures var m := Reached(c, numBlocks, ops);
      SlotAt(c, m.tables, r, p) != SlotAt(c, m.tables, r', p')
  {
    NewInv(numBlocks);
    RunSingle(c, New(numBlocks), map[], ops);
    var m := Reached(c, numBlocks, ops);
    if SlotAt(c, m.tables, r, p) == SlotAt(c, m.tables, r', p') {
      SameSlotShares(c, m.tables, r, p, r', p');
    }
  }
}
