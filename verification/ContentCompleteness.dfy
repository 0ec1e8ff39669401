/**
 When a hit is complete. The engine keeps books of what each request has written. Every cell of a cached block is
 written, or owed by a request that owns the block, or was abandoned: the last request that owed it was freed.
 Which cells were abandoned is followed through the run, exactly.
 */
module ContentCompleteness {
  import opened Wrappers
  import opened CacheTypes
  import opened Prefix
  import opened ManagerModel
  import opened ManagerInvariant
  import opened ManagerTheorems
  import opened ManagerRuns
  import opened Slots
  import opened Ownership
  import opened ContentSoundness
  import PM = PoolModel
  import PP = PoolProperties
  import SS = SharingStability

  predicate Owner(w: World, b: BlockId, q: RequestId, k: nat) {
    Owned(w.m.tables, w.hits, q, k) && w.m.tables[q][k] == b
  }

  /** q has not written offset o of the block yet. */
  predicate Owes(w: World, b: BlockId, q: RequestId, k: nat, o: nat) {
    Owner(w, b, q, k) && (q, k, o) !in w.written
  }

  ghost predicate Awaited(w: World, b: BlockId, o: nat) {
    exists q, k: nat :: Owes(w, b, q, k, o)
  }

  /** What the books say was written is written; a hit is a labelled block. */
  ghost predicate BooksRight(c: Config, w: World)
    requires WellFormed(w.m)
  {
    && (forall q, k: nat, o: nat :: (q, k, o) in w.written ==> WrittenRight(c, w, q, k, o))
    && HitsInside(w.m.tables, w.hits)
    && (forall q, k: nat :: IsPlace(w.m.tables, q, k) && k < HitBlocks(w.hits, q) ==>
      w.m.pool.labels[w.m.tables[q][k]].Some?)
  }

  predicate WrittenRight(c: Config, w: World, q: RequestId, k: nat, o: nat) {
    IsPlace(w.m.tables, q, k) && o < c.blockSize && Slot(c.blockSize, w.m.tables[q][k], o) in w.cells
  }

  predicate Cached(m: Manager, b: BlockId) {
    PM.IsCached(m.pool.labels, b)
  }

  /** Offset o of a cached block is neither written nor owed by anybody. */
  ghost predicate Unaccounted(c: Config, w: World, b: BlockId, o: nat) {
    Cached(w.m, b) && o < c.blockSize && Slot(c.blockSize, b, o) !in w.cells && !Awaited(w, b, o)
  }

  ghost predicate OtherOwner(w: World, b: BlockId, r: RequestId) {
    exists q, k: nat :: q != r && Owner(w, b, q, k)
  }

  lemma Debtor(w: World, b: BlockId, o: nat) returns (q: RequestId, k: nat)
    requires Awaited(w, b, o)
    ensures Owes(w, b, q, k, o)
  {
    q, k :| Owes(w, b, q, k, o);
  }

  lemma AnotherOwner(w: World, b: BlockId, r: RequestId) returns (q: RequestId, k: nat)
    requires OtherOwner(w, b, r)
    ensures q != r && Owner(w, b, q, k)
  {
    q, k :| q != r && Owner(w, b, q, k);
  }

  // ---------- the books ----------

  /** A block in some table does not lose its label. */
  lemma HeldLabelKept(c: Config, m: Manager, op: Op, q: RequestId, k: nat)
    requires c.blockSize > 0 && Inv(m) && Guard(c, m, op) && IsPlace(m.tables, q, k)
    requires m.pool.labels[m.tables[q][k]].Some?
    ensures m.tables[q][k] < |Step(c, m, op).pool.labels|
    ensures Step(c, m, op).pool.labels[m.tables[q][k]].Some?
  {
    HeldBlockActive(m, q, k);
    match op
    case LookupOp(r, tokens, skip) => LookupRefinesSearch(m.pool, PromptHashes(c, tokens));
    case AllocateOp(r, numTokens, numComputed) =>
      PP.AllocateAllExact(m.pool, BlocksNeeded(c, numTokens, numComputed));
    case CacheOp(r, n) => CacheKeepsLabels(c, m, r, n, m.tables[q][k]);
    case ForkOp(parent, child) => ForkKeepsLabels(m, parent, child);
    case FreeOp(r) => FreeKeepsLabels(m, r);
    case ResetOp =>
  }

  /** No call forgets a cell of a block that stays in a table, or of one that stays cached. */
  lemma CellKept(c: Config, w: World, op: Op, b: BlockId, o: nat)
    requires c.blockSize > 0 && Inv(w.m) && Guard(c, w.m, op) && o < c.blockSize
    requires Slot(c.blockSize, b, o) in w.cells
    requires b !in w.m.pool.free || PM.IsCached(Step(c, w.m, op).pool.labels, b)
    ensures Slot(c.blockSize, b, o) in NextCells(c, w, op)
  {
    if op.AllocateOp? {
      AllocateExact(c, w.m, op.r, op.numTokens, op.numComputed);
      var ids := AllocateSlots(c, w.m, op.r, op.numTokens, op.numComputed).1;
      if op.numTokens > op.numComputed {
        PP.AllocateAllExact(w.m.pool, BlocksNeeded(c, op.numTokens, op.numComputed));
      }
      if ids.Some? {
        ErasedExactly(c.blockSize, w.cells, ids.value, b, o);
      }
    }
  }

  /** A place survives every call but the freeing of its request, and so do its hits and its debts. */
  lemma PlaceKept(c: Config, w: World, op: Op, q: RequestId, k: nat)
    requires c.blockSize > 0 && Inv(w.m) && Guard(c, w.m, op) && IsPlace(w.m.tables, q, k) && op != FreeOp(q)
    ensures IsPlace(Step(c, w.m, op).tables, q, k) && Step(c, w.m, op).tables[q][k] == w.m.tables[q][k]
    ensures WellFormed(Step(c, w.m, op))
    ensures HitBlocks(Next(c, w, Call(op)).hits, q) == HitBlocks(w.hits, q)
    ensures forall o: nat :: (q, k, o) in NextWritten(w, op) <==> (q, k, o) in w.written
  {
    StepInv(c, w.m, op);
    SS.StepKeepsTable(c, w.m, op, q);
  }

  lemma CallWrittenRight(c: Config, w: World, op: Op, q: RequestId, k: nat, o: nat)
    requires c.blockSize > 0 && Inv(w.m) && Guard(c, w.m, op) && BooksRight(c, w) && (q, k, o) in NextWritten(w, op)
    ensures WellFormed(Step(c, w.m, op)) && WrittenRight(c, Next(c, w, Call(op)), q, k, o)
  {
    StepInv(c, w.m, op);
    if op.ForkOp? && q == op.child && op.parent in w.m.tables {
      assert (q, k, o) in w.written ==> WrittenRight(c, w, q, k, o);
      assert (op.parent, k, o) in w.written && WrittenRight(c, w, op.parent, k, o);
    } else {
      assert (q, k, o) in w.written && WrittenRight(c, w, q, k, o);
      PlaceKept(c, w, op, q, k);
      HeldBlockNotFree(w.m, q, k);
      CellKept(c, w, op, w.m.tables[q][k], o);
    }
  }

  lemma LookupLabelled(c: Config, m: Manager, r: RequestId, tokens: seq<Token>, k: nat)
    requires c.blockSize > 0 && c.caching && tokens != [] && Inv(m) && k < |Lookup(c, m, r, tokens, false).1|
    ensures var (m', ids) := Lookup(c, m, r, tokens, false);
      ids[k] < |m'.pool.labels| && m'.pool.labels[ids[k]].Some?
  {
    var hs := PromptHashes(c, tokens);
    LookupRefinesSearch(m.pool, hs);
    var (pool, ids) := PM.LookupHits(m.pool, hs);
    HitLabelled(m.pool, hs, pool, ids, k);
  }

  lemma CallHitsLabelled(c: Config, w: World, op: Op, q: RequestId, k: nat)
    requires c.blockSize > 0 && Inv(w.m) && Guard(c, w.m, op) && BooksRight(c, w) && WellFormed(Step(c, w.m, op))
    requires IsPlace(Step(c, w.m, op).tables, q, k) && k < HitBlocks(Next(c, w, Call(op)).hits, q)
    ensures Step(c, w.m, op).pool.labels[Step(c, w.m, op).tables[q][k]].Some?
  {
    if op.LookupOp? && q == op.r && !LookupSkipped(c, op.tokens, op.skip) {
      LookupLabelled(c, w.m, op.r, op.tokens, k);
    } else {
      var q0 := if op.ForkOp? && op.parent in w.m.tables && q == op.child then op.parent else q;
      assert q0 in w.hits && IsPlace(w.m.tables, q0, k) && k < HitBlocks(w.hits, q0);
      HeldLabelKept(c, w.m, op, q0, k);
    }
  }

  lemma CallBooksRight(c: Config, w: World, op: Op)
    requires c.blockSize > 0 && Inv(w.m) && Guard(c, w.m, op) && BooksRight(c, w)
    ensures WellFormed(Step(c, w.m, op)) && BooksRight(c, Next(c, w, Call(op)))
  {
    StepInv(c, w.m, op);
    var w' := Next(c, w, Call(op));
    forall q, k: nat, o: nat | (q, k, o) in w'.written
      ensures WrittenRight(c, w', q, k, o)
    {
      CallWrittenRight(c, w, op, q, k, o);
    }
    StepHitsInside(c, w.m, w.hits, op);
    forall q, k: nat | IsPlace(w'.m.tables, q, k) && k < HitBlocks(w'.hits, q)
      ensures w'.m.pool.labels[w'.m.tables[q][k]].Some?
    {
      CallHitsLabelled(c, w, op, q, k);
    }
  }

  // ---------- calls other than a free ----------

  /** A cell of a block that stays cached is accounted for after a call that frees nothing if it was before. */
  lemma CallKeepsAccount(c: Config, w: World, op: Op, b: BlockId, o: nat)
    requires c.blockSize > 0 && Inv(w.m) && Guard(c, w.m, op) && !op.FreeOp?
    requires Cached(w.m, b) && o < c.blockSize && Cached(Step(c, w.m, op), b) && WellFormed(Step(c, w.m, op))
    requires !Unaccounted(c, w, b, o)
    ensures !Unaccounted(c, Next(c, w, Call(op)), b, o)
  {
    if Slot(c.blockSize, b, o) in w.cells {
      CellKept(c, w, op, b, o);
    } else {
      var q, k := Debtor(w, b, o);
      PlaceKept(c, w, op, q, k);
      assert Owes(Next(c, w, Call(op)), b, q, k, o);
    }
  }

  /** Who owes a cell of a cached block after an allocation owed it before: the blocks granted are not cached. */
  lemma AllocateOwedBefore(c: Config, w: World, op: Op, b: BlockId, q: RequestId, k: nat, o: nat)
    requires c.blockSize > 0 && Inv(w.m) && op.AllocateOp? && Cached(Step(c, w.m, op), b)
    requires WellFormed(Step(c, w.m, op)) && Owes(Next(c, w, Call(op)), b, q, k, o)
    ensures Owes(w, b, q, k, o)
  {
    var (m', ids) := AllocateSlots(c, w.m, op.r, op.numTokens, op.numComputed);
    if op.numTokens > op.numComputed && ids.Some? {
      var granted := ids.value;
      PP.AllocateAllExact(w.m.pool, BlocksNeeded(c, op.numTokens, op.numComputed));
      AppendedPlace(w.m, op.r, granted, q, k);
      assert q == op.r && k >= |TableOf(w.m, q)| ==> b in granted;
    }
  }

  /** After a call, a debt on a cached block is one that somebody had before, or was inherited from its parent. */
  lemma OwedBefore(c: Config, w: World, op: Op, b: BlockId, q: RequestId, k: nat, o: nat)
    requires c.blockSize > 0 && Inv(w.m) && Guard(c, w.m, op) && BooksRight(c, w)
    requires WellFormed(Step(c, w.m, op)) && Cached(Step(c, w.m, op), b) && Owes(Next(c, w, Call(op)), b, q, k, o)
    ensures Owes(w, b, q, k, o) || (op.ForkOp? && q == op.child && Owes(w, b, op.parent, k, o))
  {
    if op.AllocateOp? {
      AllocateOwedBefore(c, w, op, b, q, k, o);
    }
  }

  /** And one that is not accounted for stays so: nobody comes to own a block that is cached already. */
  lemma CallKeepsLoss(c: Config, w: World, op: Op, b: BlockId, o: nat)
    requires c.blockSize > 0 && Inv(w.m) && Guard(c, w.m, op) && BooksRight(c, w)
    requires Cached(Step(c, w.m, op), b) && WellFormed(Step(c, w.m, op)) && Unaccounted(c, w, b, o)
    ensures Unaccounted(c, Next(c, w, Call(op)), b, o)
  {
    var w' := Next(c, w, Call(op));
    if Awaited(w', b, o) {
      var q, k := Debtor(w', b, o);
      OwedBefore(c, w, op, b, q, k, o);
      assert Awaited(w, b, o);
    }
  }

  /** A block that caching labels belongs to the request that caches it, which has written each cell or owes it. */
  lemma CacheAccounted(c: Config, w: World, r: RequestId, n: nat, b: BlockId, o: nat)
    requires c.blockSize > 0 && Inv(w.m) && BooksRight(c, w) && o < c.blockSize
    requires b < |w.m.pool.labels| && Cached(CacheBlocks(c, w.m, r, n), b)
    requires w.m.pool.labels[b].None?
    ensures Slot(c.blockSize, b, o) in w.cells || Awaited(w, b, o)
  {
    var i := CacheWriter(c, w.m, r, n, b);
    assert IsPlace(w.m.tables, r, i) && w.m.tables[r][i] == b;
    assert Owner(w, b, r, i);
    if (r, i, o) in w.written {
      assert WrittenRight(c, w, r, i, o);
    } else {
      assert Owes(w, b, r, i, o);
    }
  }

  /** A block that gets its label with a call is accounted for. */
  lemma NewLabelAccounted(c: Config, w: World, op: Op, b: BlockId, o: nat)
    requires c.blockSize > 0 && Inv(w.m) && Guard(c, w.m, op) && BooksRight(c, w) && o < c.blockSize
    requires !Cached(w.m, b) && Cached(Step(c, w.m, op), b) && WellFormed(Step(c, w.m, op))
    ensures !Unaccounted(c, Next(c, w, Call(op)), b, o)
  {
    StepKeepsSize(c, w.m, op);
    if op.CacheOp? {
      CacheAccounted(c, w, op.r, op.numComputed, b, o);
      if Slot(c.blockSize, b, o) !in w.cells {
        var q, k := Debtor(w, b, o);
        PlaceKept(c, w, op, q, k);
        assert Owes(Next(c, w, Call(op)), b, q, k, o);
      }
    } else {
      LabelsOnlyLost(c, w.m, op, b);
    }
  }

  // ---------- a free ----------

  /** The cell is in a cached block of r's table, was never written, and nobody else owns the block. */
  ghost predicate Abandons(c: Config, w: World, r: RequestId, b: BlockId, o: nat) {
    && b in TableOf(w.m, r) && o < c.blockSize
    && Cached(w.m, b) && Slot(c.blockSize, b, o) !in w.cells && !OtherOwner(w, b, r)
  }

  lemma FreeKeepsCached(c: Config, m: Manager, r: RequestId, b: BlockId)
    requires c.blockSize > 0 && Inv(m)
    ensures Cached(Step(c, m, FreeOp(r)), b) <==> Cached(m, b)
  {
    FreeKeepsLabels(m, r);
  }

  /** Another owner has written the cell, or owes it still when r is gone. */
  lemma OtherOwnerAnswers(c: Config, w: World, r: RequestId, b: BlockId, o: nat)
    requires c.blockSize > 0 && Inv(w.m) && BooksRight(c, w) && OtherOwner(w, b, r)
    ensures Slot(c.blockSize, b, o) in w.cells || Awaited(Next(c, w, Call(FreeOp(r))), b, o)
  {
    var q, k := AnotherOwner(w, b, r);
    PlaceKept(c, w, FreeOp(r), q, k);
    if (q, k, o) in w.written {
      assert WrittenRight(c, w, q, k, o);
    } else {
      assert Owes(Next(c, w, Call(FreeOp(r))), b, q, k, o);
    }
  }

  /** A free leaves unaccounted what was so before, and exactly the cells it abandons. */
  lemma FreeCellExactly(c: Config, w: World, r: RequestId, b: BlockId, o: nat)
    requires c.blockSize > 0 && Inv(w.m) && BooksRight(c, w)
    ensures Unaccounted(c, Next(c, w, Call(FreeOp(r))), b, o) <==> Unaccounted(c, w, b, o) || Abandons(c, w, r, b, o)
  {
    var w' := Next(c, w, Call(FreeOp(r)));
    StepInv(c, w.m, FreeOp(r));
    FreeKeepsCached(c, w.m, r, b);
    if Unaccounted(c, w, b, o) {
      CallKeepsLoss(c, w, FreeOp(r), b, o);
    } else if Abandons(c, w, r, b, o) {
      if Awaited(w', b, o) {
        var q, k := Debtor(w', b, o);
        assert Owner(w, b, q, k);
      }
    } else if Cached(w.m, b) && o < c.blockSize && Slot(c.blockSize, b, o) !in w.cells {
      var q, k := Debtor(w, b, o);
      assert q == r ==> b in TableOf(w.m, r);
      assert q != r ==> Owner(w, b, q, k) && OtherOwner(w, b, r);
      OtherOwnerAnswers(c, w, r, b, o);
    }
  }

  /** What a free takes for granted: whatever the request leaves unwritten in a cached block, somebody else owns. */
  ghost predicate FreeSettled(c: Config, w: World, r: RequestId) {
    forall k: nat, o: nat | IsPlace(w.m.tables, r, k) && o < c.blockSize ::
      Cached(w.m, w.m.tables[r][k]) && CellOf(c, w.m, r, k, o) !in w.cells ==> OtherOwner(w, w.m.tables[r][k], r)
  }

  lemma SettledAbandonsNothing(c: Config, w: World, r: RequestId)
    ensures FreeSettled(c, w, r) <==> forall b: BlockId, o: nat :: !Abandons(c, w, r, b, o)
  {
    if FreeSettled(c, w, r) {
      forall b: BlockId, o: nat
        ensures !Abandons(c, w, r, b, o)
      {
        if b in TableOf(w.m, r) && o < c.blockSize {
          var k: nat :| k < |w.m.tables[r]| && w.m.tables[r][k] == b;
          assert IsPlace(w.m.tables, r, k) && CellOf(c, w.m, r, k, o) == Slot(c.blockSize, b, o);
        }
      }
    } else {
      var k: nat, o: nat :| IsPlace(w.m.tables, r, k) && o < c.blockSize && Cached(w.m, w.m.tables[r][k])
        && CellOf(c, w.m, r, k, o) !in w.cells && !OtherOwner(w, w.m.tables[r][k], r);
      assert Abandons(c, w, r, w.m.tables[r][k], o);
    }
  }

  /** Every cell of a cached block is written, or some request still owes it. */
  ghost predicate Accounted(c: Config, w: World) {
    forall b: BlockId, o: nat :: !Unaccounted(c, w, b, o)
  }

  /** Where every cell is accounted for, a free keeps it so exactly when it is settled. */
  lemma FreeAccountedExactly(c: Config, w: World, r: RequestId)
    requires c.blockSize > 0 && Inv(w.m) && BooksRight(c, w) && Accounted(c, w)
    ensures Accounted(c, Next(c, w, Call(FreeOp(r)))) <==> FreeSettled(c, w, r)
  {
    SettledAbandonsNothing(c, w, r);
    forall b: BlockId, o: nat
      ensures Unaccounted(c, Next(c, w, Call(FreeOp(r))), b, o) <==> Abandons(c, w, r, b, o)
    {
      FreeCellExactly(c, w, r, b, o);
    }
  }

  /** r owns the block and has not written the cell. */
  ghost predicate OwnDebt(c: Config, w: World, r: RequestId, b: BlockId, o: nat) {
    exists k: nat :: Owner(w, b, r, k) && CellOf(c, w.m, r, k, o) !in w.cells
  }

  /** With one owner a block, as in runs that fork only hits, a free is settled when the request has paid its debts. */
  lemma SingleOwnerSettledExactly(c: Config, w: World, r: RequestId)
    requires c.blockSize > 0 && Inv(w.m) && Accounted(c, w) && SingleOwners(w.m.tables, w.hits)
    ensures FreeSettled(c, w, r) <==> forall k: nat, o: nat | Owned(w.m.tables, w.hits, r, k) && o < c.blockSize ::
      Cached(w.m, w.m.tables[r][k]) ==> CellOf(c, w.m, r, k, o) in w.cells
  {
    forall k: nat, o: nat | IsPlace(w.m.tables, r, k) && o < c.blockSize && Cached(w.m, w.m.tables[r][k])
      && CellOf(c, w.m, r, k, o) !in w.cells
      ensures OtherOwner(w, w.m.tables[r][k], r) || OwnDebt(c, w, r, w.m.tables[r][k], o)
      ensures Owned(w.m.tables, w.hits, r, k) ==> !OtherOwner(w, w.m.tables[r][k], r)
    {
      assert !Unaccounted(c, w, w.m.tables[r][k], o);
      var q, j := Debtor(w, w.m.tables[r][k], o);
      assert Owner(w, w.m.tables[r][k], q, j);
    }
  }

  // ---------- writes ----------

  lemma WriteBooksRight(c: Config, w: World, r: RequestId, k: nat, at: nat, kv: seq<Token>)
    requires c.blockSize > 0 && Inv(w.m) && BooksRight(c, w) && IsPlace(w.m.tables, r, k) && at < c.blockSize
    ensures BooksRight(c, Next(c, w, Write(r, k, at, kv)))
  {
    var w' := Next(c, w, Write(r, k, at, kv));
    forall q, j: nat, o: nat | (q, j, o) in w'.written
      ensures WrittenRight(c, w', q, j, o)
    {
      assert (q, j, o) != (r, k, at) ==> WrittenRight(c, w, q, j, o);
    }
  }

  /** A write accounts for its cell and touches no other. */
  lemma WriteCellExactly(c: Config, w: World, r: RequestId, k: nat, at: nat, kv: seq<Token>, b: BlockId, o: nat)
    requires c.blockSize > 0 && WellFormed(w.m) && IsPlace(w.m.tables, r, k) && at < c.blockSize
    ensures Unaccounted(c, Next(c, w, Write(r, k, at, kv)), b, o) <==>
      Unaccounted(c, w, b, o) && (b, o) != (w.m.tables[r][k], at)
  {
    var w' := Next(c, w, Write(r, k, at, kv));
    if o < c.blockSize && (b, o) != (w.m.tables[r][k], at) {
      SlotInjective(c.blockSize, b, o, w.m.tables[r][k], at);
      if Awaited(w, b, o) {
        var q, j := Debtor(w, b, o);
        assert Owes(w', b, q, j, o);
      }
      if Awaited(w', b, o) {
        var q, j := Debtor(w', b, o);
        assert Owes(w, b, q, j, o);
      }
    }
  }

  // ---------- whole runs ----------

  type Lost = iset<(BlockId, nat)>

  /**
   The abandoned cells, followed through the run by what the engine does: a free that is not settled adds cells, a
   write takes its cell away, and a block that loses its label, as it does when it is granted, takes all of its.
   */
  ghost function NextLost(c: Config, w: World, lost: Lost, e: Event): Lost
    requires c.blockSize > 0 && WellFormed(w.m)
    requires e.Write? ==> IsPlace(w.m.tables, e.r, e.k)
  {
    match e
    case Call(FreeOp(r)) => lost + iset b: BlockId, o: nat | Abandons(c, w, r, b, o) :: (b, o)
    case Call(op) => iset x | x in lost && Cached(Step(c, w.m, op), x.0)
    case Write(r, k, at, _) => lost - iset{(w.m.tables[r][k], at)}
  }

  /** The books are right, and the cells not accounted for are exactly the abandoned ones. */
  ghost predicate Ledger(c: Config, w: World, lost: Lost)
    requires WellFormed(w.m)
  {
    BooksRight(c, w) && forall b: BlockId, o: nat :: Unaccounted(c, w, b, o) <==> (b, o) in lost
  }

  lemma CallLedgerAt(c: Config, w: World, lost: Lost, op: Op, b: BlockId, o: nat)
    requires c.blockSize > 0 && Inv(w.m) && Guard(c, w.m, op) && Ledger(c, w, lost)
    requires WellFormed(Step(c, w.m, op))
    ensures Unaccounted(c, Next(c, w, Call(op)), b, o) <==> (b, o) in NextLost(c, w, lost, Call(op))
  {
    assert Unaccounted(c, w, b, o) <==> (b, o) in lost;
    if op.FreeOp? {
      FreeCellExactly(c, w, op.r, b, o);
    } else if Cached(Step(c, w.m, op), b) && o < c.blockSize {
      if !Cached(w.m, b) {
        NewLabelAccounted(c, w, op, b, o);
      } else if Unaccounted(c, w, b, o) {
        CallKeepsLoss(c, w, op, b, o);
      } else {
        CallKeepsAccount(c, w, op, b, o);
      }
    }
  }

  lemma NextLedger(c: Config, prompts: set<Prompt>, w: World, lost: Lost, e: Event)
    requires Setup(c, prompts) && WorldInv(c, prompts, w) && EventGuard(c, prompts, w, e) && Ledger(c, w, lost)
    ensures WellFormed(Next(c, w, e).m) && Ledger(c, Next(c, w, e), NextLost(c, w, lost, e))
  {
    match e
    case Call(op) =>
      CallBooksRight(c, w, op);
      forall b: BlockId, o: nat
        ensures Unaccounted(c, Next(c, w, e), b, o) <==> (b, o) in NextLost(c, w, lost, e)
      {
        CallLedgerAt(c, w, lost, op, b, o);
      }
    case Write(r, k, at, kv) =>
      WriteBooksRight(c, w, r, k, at, kv);
      forall b: BlockId, o: nat
        ensures Unaccounted(c, Next(c, w, e), b, o) <==> (b, o) in NextLost(c, w, lost, e)
      {
        WriteCellExactly(c, w, r, k, at, kv, b, o);
      }
  }

  /** The cells that a run abandons. */
  ghost function RunLost(c: Config, prompts: set<Prompt>, w: World, lost: Lost, es: seq<Event>): Lost
    requires Setup(c, prompts) && WorldInv(c, prompts, w) && LegalEvents(c, prompts, w, es)
    decreases es
  {
    if es == [] then lost
    else
      NextInv(c, prompts, w, es[0]);
      RunLost(c, prompts, Next(c, w, es[0]), NextLost(c, w, lost, es[0]), es[1..])
  }

  lemma {:induction false} RunLedger(c: Config, prompts: set<Prompt>, w: World, lost: Lost, es: seq<Event>)
    requires Setup(c, prompts) && WorldInv(c, prompts, w) && LegalEvents(c, prompts, w, es) && Ledger(c, w, lost)
    ensures Ledger(c, RunEvents(c, prompts, w, es), RunLost(c, prompts, w, lost, es))
    decreases es
  {
    if es != [] {
      NextInv(c, prompts, w, es[0]);
      NextLedger(c, prompts, w, lost, es[0]);
      RunLedger(c, prompts, Next(c, w, es[0]), NextLost(c, w, lost, es[0]), es[1..]);
    }
  }

  /** Every free of the run is settled in the state it is made in. */
  ghost predicate SettledEvents(c: Config, prompts: set<Prompt>, w: World, es: seq<Event>)
    requires Setup(c, prompts) && WorldInv(c, prompts, w) && LegalEvents(c, prompts, w, es)
    decreases es
  {
    es == [] || ((es[0].Call? && es[0].op.FreeOp? ==> FreeSettled(c, w, es[0].op.r))
      && (NextInv(c, prompts, w, es[0]); SettledEvents(c, prompts, Next(c, w, es[0]), es[1..])))
  }

  /** In every state of the run, every cell of a cached block is accounted for. */
  ghost predicate AlwaysAccounted(c: Config, prompts: set<Prompt>, w: World, es: seq<Event>)
    requires Setup(c, prompts) && WorldInv(c, prompts, w) && LegalEvents(c, prompts, w, es)
    decreases es
  {
    Accounted(c, w) && (es == []
      || (NextInv(c, prompts, w, es[0]); AlwaysAccounted(c, prompts, Next(c, w, es[0]), es[1..])))
  }

  lemma EventAccountedExactly(c: Config, prompts: set<Prompt>, w: World, e: Event)
    requires Setup(c, prompts) && WorldInv(c, prompts, w) && EventGuard(c, prompts, w, e)
    requires BooksRight(c, w) && Accounted(c, w)
    ensures WellFormed(Next(c, w, e).m) && BooksRight(c, Next(c, w, e))
    ensures Accounted(c, Next(c, w, e)) <==> (e.Call? && e.op.FreeOp? ==> FreeSettled(c, w, e.op.r))
  {
    NextLedger(c, prompts, w, iset{}, e);
    if e.Call? && e.op.FreeOp? {
      FreeAccountedExactly(c, w, e.op.r);
    }
  }

  /** A run keeps every cell accounted for all along exactly when each of its frees is settled. */
  lemma {:induction false} SettledExactly(c: Config, prompts: set<Prompt>, w: World, es: seq<Event>)
    requires Setup(c, prompts) && WorldInv(c, prompts, w) && LegalEvents(c, prompts, w, es)
    requires BooksRight(c, w) && Accounted(c, w)
    ensures AlwaysAccounted(c, prompts, w, es) <==> SettledEvents(c, prompts, w, es)
    decreases es
  {
    if es != [] {
      NextInv(c, prompts, w, es[0]);
      EventAccountedExactly(c, prompts, w, es[0]);
      if Accounted(c, Next(c, w, es[0])) {
        SettledExactly(c, prompts, Next(c, w, es[0]), es[1..]);
      } else {
        assert !AlwaysAccounted(c, prompts, Next(c, w, es[0]), es[1..]);
      }
    }
  }

  /** Offset o of block b is written, and holds the entry of token i * blockSize + o. */
  predicate CellHolds(blockSize: nat, cells: Cells, b: BlockId, tokens: seq<Token>, i: nat, o: nat) {
    Slot(blockSize, b, o) in cells && CellSound(blockSize, cells, b, tokens, i, o)
  }

  /** Block b holds the i-th block of tokens, computed after the tokens before it. */
  ghost predicate HoldsPrefix(blockSize: nat, cells: Cells, b: BlockId, tokens: seq<Token>, i: nat) {
    forall o: nat :: o < blockSize ==> CellHolds(blockSize, cells, b, tokens, i, o)
  }

  /** No request owes a write to a cached block. */
  ghost predicate NothingOwed(w: World)
    requires WellFormed(w.m)
  {
    forall b: BlockId, q, k: nat, o: nat :: Owes(w, b, q, k, o) ==> w.m.pool.labels[w.m.tables[q][k]].None?
  }

  lemma HitComplete(c: Config, prompts: set<Prompt>, w: World, lost: Lost, tokens: seq<Token>, i: nat, o: nat)
    requires Setup(c, prompts) && WorldInv(c, prompts, w) && Ledger(c, w, lost) && Prompt(tokens, None) in prompts
    requires i < |PM.LookupHits(w.m.pool, PromptHashes(c, tokens)).1| && o < c.blockSize
    ensures var b := PM.LookupHits(w.m.pool, PromptHashes(c, tokens)).1[i];
      && (CellHolds(c.blockSize, w.cells, b, tokens, i, o) || Awaited(w, b, o) <==> (b, o) !in lost)
      && (NothingOwed(w) ==> (CellHolds(c.blockSize, w.cells, b, tokens, i, o) <==> (b, o) !in lost))
  {
    var hs := PromptHashes(c, tokens);
    LookupRefinesSearch(w.m.pool, hs);
    var (pool, ids) := PM.LookupHits(w.m.pool, hs);
    HitLabelled(w.m.pool, hs, pool, ids, i);
    LookupPlaceSound(c, prompts, w, tokens, i);
    assert CellSound(c.blockSize, w.cells, ids[i], tokens, i, o);
    assert Unaccounted(c, w, ids[i], o) <==> (ids[i], o) in lost;
    if Awaited(w, ids[i], o) {
      var q, k := Debtor(w, ids[i], o);
    }
  }

  /** The cells abandoned by a run from the start. */
  ghost function Abandoned(c: Config, prompts: set<Prompt>, numBlocks: nat, es: seq<Event>): Lost
    requires Setup(c, prompts) && LegalEvents(c, prompts, Start(c, prompts, numBlocks), es)
  {
    RunLost(c, prompts, Start(c, prompts, numBlocks), iset{}, es)
  }

  /**
   After any run, a cell of a hit holds its entry or is owed by a request that owns the block, exactly when the run
   has not abandoned it; and between forward passes, when nothing is owed, it holds its entry exactly then.
   */
  lemma PrefixHitsAreComplete(c: Config, prompts: set<Prompt>, numBlocks: nat, es: seq<Event>, r: RequestId,
    tokens: seq<Token>, i: nat, o: nat)
    requires Setup(c, prompts) && LegalEvents(c, prompts, Start(c, prompts, numBlocks), es)
    requires c.caching && tokens != [] && Prompt(tokens, None) in prompts
    requires o < c.blockSize
    requires i < |Lookup(c, RunEvents(c, prompts, Start(c, prompts, numBlocks), es).m, r, tokens, false).1|
    ensures var w := RunEvents(c, prompts, Start(c, prompts, numBlocks), es);
      var b := Lookup(c, w.m, r, tokens, false).1[i];
      var kept := (b, o) !in Abandoned(c, prompts, numBlocks, es);
      && (CellHolds(c.blockSize, w.cells, b, tokens, i, o) || Awaited(w, b, o) <==> kept)
      && (NothingOwed(w) ==> (CellHolds(c.blockSize, w.cells, b, tokens, i, o) <==> kept))
  {
    var w0 := Start(c, prompts, numBlocks);
    RunLedger(c, prompts, w0, iset{}, es);
    HitComplete(c, prompts, RunEvents(c, prompts, w0, es), Abandoned(c, prompts, numBlocks, es), tokens, i, o);
  }

  lemma {:induction false} SettledRunAccounted(c: Config, prompts: set<Prompt>, w: World, es: seq<Event>)
    requires Setup(c, prompts) && WorldInv(c, prompts, w) && LegalEvents(c, prompts, w, es)
    requires AlwaysAccounted(c, prompts, w, es)
    ensures Accounted(c, RunEvents(c, prompts, w, es))
    decreases es
  {
    if es != [] {
      NextInv(c, prompts, w, es[0]);
      SettledRunAccounted(c, prompts, Next(c, w, es[0]), es[1..]);
    }
  }

  /** When every free of the run was settled and nothing is owed, each hit holds exactly its block of the prompt. */
  lemma SettledHitsHold(c: Config, prompts: set<Prompt>, numBlocks: nat, es: seq<Event>, r: RequestId,
    tokens: seq<Token>)
    requires Setup(c, prompts) && LegalEvents(c, prompts, Start(c, prompts, numBlocks), es)
    requires c.caching && tokens != [] && Prompt(tokens, None) in prompts
    requires SettledEvents(c, prompts, Start(c, prompts, numBlocks), es)
    requires NothingOwed(RunEvents(c, prompts, Start(c, prompts, numBlocks), es))
    ensures var w := RunEvents(c, prompts, Start(c, prompts, numBlocks), es);
      var ids := Lookup(c, w.m, r, tokens, false).1;
      forall i :: 0 <= i < |ids| ==> HoldsPrefix(c.blockSize, w.cells, ids[i], tokens, i)
  {
    var w0 := Start(c, prompts, numBlocks);
    var w := RunEvents(c, prompts, w0, es);
    RunLedger(c, prompts, w0, iset{}, es);
    SettledExactly(c, prompts, w0, es);
    SettledRunAccounted(c, prompts, w0, es);
    var ids := Lookup(c, w.m, r, tokens, false).1;
    forall i: nat, o: nat | i < |ids| && o < c.blockSize
      ensures CellHolds(c.blockSize, w.cells, ids[i], tokens, i, o)
    {
      assert !Unaccounted(c, w, ids[i], o);
      HitComplete(c, prompts, w, Abandoned(c, prompts, numBlocks, es), tokens, i, o);
    }
  }
}
