/** Runs of the manager: any interleaving of its calls, by any number of requests. */
module ManagerRuns {
  import opened Wrappers
  import opened CacheTypes
  import opened ManagerModel
  import opened ManagerInvariant
  import PM = PoolModel
  import PP = PoolProperties

  datatype Op =
    | LookupOp(r: RequestId, tokens: seq<Token>, skip: bool)
    | AllocateOp(r: RequestId, numTokens: nat, numComputed: nat)
    | CacheOp(r: RequestId, numComputed: nat)
    | ForkOp(parent: RequestId, child: RequestId)
    | FreeOp(r: RequestId)
    | ResetOp

  /** What callers owe: a lookup must not overwrite blocks, nor a fork a request that is tracked. */
  predicate Guard(c: Config, m: Manager, op: Op) {
    match op
    case LookupOp(r, tokens, skip) => LookupSkipped(c, tokens, skip) || TableOf(m, r) == []
    case ForkOp(parent, child) => parent in m.tables ==> child !in m.tables
    case _ => true
  }

  function Step(c: Config, m: Manager, op: Op): Manager
    requires c.blockSize > 0 && WellFormed(m)
  {
    match op
    case LookupOp(r, tokens, skip) => Lookup(c, m, r, tokens, skip).0
    case AllocateOp(r, numTokens, numComputed) => AllocateSlots(c, m, r, numTokens, numComputed).0
    case CacheOp(r, numComputed) => CacheBlocks(c, m, r, numComputed)
    case ForkOp(parent, child) => Fork(m, parent, child).0
    case FreeOp(r) => ManagerModel.Free(m, r)
    case ResetOp => Reset(m).0
  }

  lemma StepInv(c: Config, m: Manager, op: Op)
    requires c.blockSize > 0 && Inv(m) && Guard(c, m, op)
    ensures Inv(Step(c, m, op))
  {
    match op
    case LookupOp(r, tokens, skip) => LookupInv(c, m, r, tokens, skip);
    case AllocateOp(r, numTokens, numComputed) => AllocateInv(c, m, r, numTokens, numComputed);
    case CacheOp(r, numComputed) => CacheInv(c, m, r, numComputed);
    case ForkOp(parent, child) => ForkInv(m, parent, child);
    case FreeOp(r) => FreeInv(m, r);
    case ResetOp => ResetExact(m);
  }

  /** Every call of the run meets its guard in the state it is made in. */
  ghost predicate Legal(c: Config, m: Manager, ops: seq<Op>)
    requires c.blockSize > 0 && Inv(m)
    decreases ops
  {
    ops == [] || (Guard(c, m, ops[0]) && (StepInv(c, m, ops[0]); Legal(c, Step(c, m, ops[0]), ops[1..])))
  }

  ghost function Run(c: Config, m: Manager, ops: seq<Op>): (m': Manager)
    requires c.blockSize > 0 && Inv(m) && Legal(c, m, ops)
    ensures Inv(m')
    decreases ops
  {
    if ops == [] then m
    else
      StepInv(c, m, ops[0]);
      Run(c, Step(c, m, ops[0]), ops[1..])
  }

  /** The state reached from a new manager. */
  ghost predicate LegalFromNew(c: Config, numBlocks: nat, ops: seq<Op>)
    requires c.blockSize > 0
  {
    NewInv(numBlocks);
    Legal(c, New(numBlocks), ops)
  }

  ghost function Reached(c: Config, numBlocks: nat, ops: seq<Op>): (m: Manager)
    requires c.blockSize > 0 && LegalFromNew(c, numBlocks, ops)
    ensures Inv(m)
  {
    NewInv(numBlocks);
    Run(c, New(numBlocks), ops)
  }

  // ---------- conservation over whole runs ----------

  /** The pool never grows or shrinks. */
  lemma StepKeepsSize(c: Config, m: Manager, op: Op)
    requires c.blockSize > 0 && Inv(m) && Guard(c, m, op)
    ensures |Step(c, m, op).pool.refs| == |m.pool.refs|
  {
    match op
    case LookupOp(r, tokens, skip) =>
      LookupRefinesSearch(m.pool, PromptHashes(c, tokens));
    case AllocateOp(r, numTokens, numComputed) =>
      if numTokens > numComputed {
        PP.AllocateAllExact(m.pool, BlocksNeeded(c, numTokens, numComputed));
      }
    case CacheOp(r, numComputed) =>
    case ForkOp(parent, child) =>
    case FreeOp(r) =>
    case ResetOp =>
  }

  lemma {:induction false} RunKeepsSize(c: Config, m: Manager, ops: seq<Op>)
    requires c.blockSize > 0 && Inv(m) && Legal(c, m, ops)
    ensures |Run(c, m, ops).pool.refs| == |m.pool.refs|
    decreases ops
  {
    if ops != [] {
      StepInv(c, m, ops[0]);
      StepKeepsSize(c, m, ops[0]);
      RunKeepsSize(c, Step(c, m, ops[0]), ops[1..]);
    }
  }

  /**
   In every reachable state: reference counts are table occurrences, the active counter counts the
   blocks with references, active + free + 1 is the pool size, the hash index is exactly the labels,
   and a block on the free list is in no table.
   */
  lemma ReachableConserves(c: Config, numBlocks: nat, ops: seq<Op>)
    requires c.blockSize > 0 && LegalFromNew(c, numBlocks, ops)
    ensures var m := Reached(c, numBlocks, ops);
      && Conserved(m)
      && |m.pool.refs| == (if numBlocks == 0 then 1 else numBlocks)
      && m.pool.active == |PM.ActiveSet(m.pool)|
      && m.pool.active + |m.pool.free| + 1 == |m.pool.refs|
      && (forall h: BlockHash, b: BlockId ::
        PM.Listed(m.pool.index, h, b) <==> b < |m.pool.labels| && m.pool.labels[b] == Some(h))
      && (forall r, i: nat :: IsPlace(m.tables, r, i) ==> m.tables[r][i] !in m.pool.free)
  {
    NewInv(numBlocks);
    RunKeepsSize(c, New(numBlocks), ops);
    var m := Reached(c, numBlocks, ops);
    PM.ActiveCount(m.pool);
    forall r, i: nat | IsPlace(m.tables, r, i)
      ensures m.tables[r][i] !in m.pool.free
    {
      HeldBlockNotFree(m, r, i);
    }
  }
}
