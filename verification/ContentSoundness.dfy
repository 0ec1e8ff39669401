/**
 What the cached blocks contain. A cell is one physical slot; its value is the token prefix whose
 key/value entry was last written there since its block was last granted to a request. Runs interleave
 manager calls with writes by the engine, in any order: a block may be labelled before it is written.
 */
module ContentSoundness {
  import opened Wrappers
  import opened Sequences
  import opened Grids
  import opened CacheTypes
  import opened Prefix
  import opened ManagerModel
  import opened ManagerInvariant
  import opened ManagerRuns
  import opened Slots
  import opened Ownership
  import PM = PoolModel
  import PP = PoolProperties

  type Cells = map<nat, seq<Token>>

  /**
   `prompts` remembers the prompt behind each tracked hash list. `hits` and `written` are the engine's own
   books: how many leading blocks of a request's table are hits, and at which (block index, offset) of its
   table it has written.
   */
  datatype World = World(
    m: Manager,
    prompts: map<RequestId, seq<Token>>,
    cells: Cells,
    written: set<(RequestId, nat, nat)>,
    hits: Hits)

  datatype Event =
    | Call(op: Op)
    | Write(r: RequestId, k: nat, at: nat, kv: seq<Token>)

  /** The entry of token i * blockSize + o, if there is such a token: it was computed after all the tokens before. */
  function Due(blockSize: nat, tokens: seq<Token>, i: nat, o: nat): Option<seq<Token>> {
    var n: nat := i * blockSize + o + 1;
    if n <= |tokens| then Some(tokens[..n]) else None
  }

  /** Offset o of block b is unwritten, or holds the entry of token i * blockSize + o. */
  predicate CellSound(blockSize: nat, cells: Cells, b: BlockId, tokens: seq<Token>, i: nat, o: nat) {
    var s := Slot(blockSize, b, o);
    s in cells ==> Due(blockSize, tokens, i, o) == Some(cells[s])
  }

  /** Whatever was written to block b belongs to the i-th block of tokens, computed after the tokens before it. */
  ghost predicate BlockSound(blockSize: nat, cells: Cells, b: BlockId, tokens: seq<Token>, i: nat) {
    forall o: nat :: o < blockSize ==> CellSound(blockSize, cells, b, tokens, i, o)
  }

  ghost predicate LabelSound(c: Config, labels: seq<Option<BlockHash>>, cells: Cells, b: BlockId, p: Prompt, i: nat)
    requires c.blockSize > 0 && i < FullBlocks(p, c.blockSize)
  {
    b < |labels| && labels[b] == Some(ChainHash(c.hasher, p, c.blockSize, i)) ==>
      BlockSound(c.blockSize, cells, b, p.tokens, i)
  }

  /** No cell of a labelled block contradicts the label. */
  ghost predicate LabelsSound(c: Config, prompts: set<Prompt>, w: World)
    requires c.blockSize > 0
  {
    forall b: BlockId, p, i: nat | p in prompts && i < FullBlocks(p, c.blockSize) ::
      LabelSound(c, w.m.pool.labels, w.cells, b, p, i)
  }

  ghost predicate PlaceSound(blockSize: nat, w: World, r: RequestId, i: nat)
    requires IsPlace(w.m.tables, r, i)
  {
    HashAt(w.m.hashes, r, i).Some? ==>
      r in w.prompts && BlockSound(blockSize, w.cells, w.m.tables[r][i], w.prompts[r], i)
  }

  /** No cell of a block that a request's prompt fills contradicts that prompt. */
  ghost predicate PlacesSound(blockSize: nat, w: World) {
    forall r, i: nat | IsPlace(w.m.tables, r, i) :: PlaceSound(blockSize, w, r, i)
  }

  ghost predicate Remembers(c: Config, prompts: set<Prompt>, w: World)
    requires c.blockSize > 0
  {
    && w.prompts.Keys == w.m.hashes.Keys
    && forall r :: r in w.prompts ==>
      Prompt(w.prompts[r], None) in prompts && w.m.hashes[r] == PromptHashes(c, w.prompts[r])
  }

  ghost predicate WorldInv(c: Config, prompts: set<Prompt>, w: World)
    requires c.blockSize > 0
  {
    Inv(w.m) && Remembers(c, prompts, w) && LabelsSound(c, prompts, w) && PlacesSound(c.blockSize, w)
  }

  ghost predicate Setup(c: Config, prompts: set<Prompt>) {
    c.blockSize > 0 && CollisionFree(c.hasher, prompts, c.blockSize)
  }

  // ---------- events ----------

  /** The slot at offset `at` of the block at index k of r's table. */
  function CellOf(c: Config, m: Manager, r: RequestId, k: nat, at: nat): nat
    requires IsPlace(m.tables, r, k)
  {
    Slot(c.blockSize, m.tables[r][k], at)
  }

  /** What offset `at` of block k holds for r, if it was written. */
  function Entry(c: Config, w: World, r: RequestId, k: nat, at: nat): Option<seq<Token>> {
    if IsPlace(w.m.tables, r, k) && CellOf(c, w.m, r, k, at) in w.cells then Some(w.cells[CellOf(c, w.m, r, k, at)])
    else None
  }

  /** The entry one position before; before the first position there is the empty prefix. */
  function Before(c: Config, w: World, r: RequestId, k: nat, at: nat): Option<seq<Token>>
    requires c.blockSize > 0
  {
    if at > 0 then Entry(c, w, r, k, at - 1)
    else if k > 0 then Entry(c, w, r, k - 1, c.blockSize - 1)
    else Some([])
  }

  /** A prefix continued by token k * blockSize + at. */
  function Continued(blockSize: nat, tokens: seq<Token>, k: nat, at: nat, before: Option<seq<Token>>):
    Option<seq<Token>>
  {
    var pos: nat := k * blockSize + at;
    if before.Some? && pos < |tokens| then Some(before.value + [tokens[pos]]) else None
  }

  /**
   What a forward pass computes for r's prompt at offset `at` of block k: the entry one position before, read
   through r's own table, continued by the token. Nothing, when that entry was never written.
   */
  function Computed(c: Config, w: World, r: RequestId, k: nat, at: nat): Option<seq<Token>>
    requires c.blockSize > 0
  {
    if r in w.prompts then Continued(c.blockSize, w.prompts[r], k, at, Before(c, w, r, k, at)) else None
  }

  /**
   A write goes through the request's table. In a block the prompt fills, it is what was computed there;
   elsewhere it may be anything. Shared blocks are not excluded, and nothing is asked of what a block holds
   when it is cached.
   */
  ghost predicate EventGuard(c: Config, prompts: set<Prompt>, w: World, e: Event)
    requires c.blockSize > 0
  {
    match e
    case Call(op) =>
      && Guard(c, w.m, op)
      && (op.LookupOp? ==> LookupSkipped(c, op.tokens, op.skip) || Prompt(op.tokens, None) in prompts)
    case Write(r, k, at, kv) =>
      && at < c.blockSize && IsPlace(w.m.tables, r, k)
      && (HashAt(w.m.hashes, r, k).Some? ==> Computed(c, w, r, k, at) == Some(kv))
  }

  function NextPrompts(c: Config, w: World, op: Op): map<RequestId, seq<Token>> {
    match op
    case LookupOp(r, tokens, skip) => if LookupSkipped(c, tokens, skip) then w.prompts else w.prompts[r := tokens]
    case ForkOp(parent, child) =>
      if parent in w.m.tables && parent in w.prompts then w.prompts[child := w.prompts[parent]] else w.prompts
    case FreeOp(r) => w.prompts - {r}
    case _ => w.prompts
  }

  /** The cells that are not in one of the given blocks. */
  function Erase(blockSize: nat, cells: Cells, ids: seq<BlockId>): (r: Cells)
    requires blockSize > 0
    ensures forall s :: s in r ==> s in cells && r[s] == cells[s]
  {
    map s | s in cells && s / blockSize !in ids :: cells[s]
  }

  /** Granting a block forgets what was written to it before. */
  function NextCells(c: Config, w: World, op: Op): Cells
    requires c.blockSize > 0 && WellFormed(w.m)
  {
    match op
    case AllocateOp(r, numTokens, numComputed) =>
      (match AllocateSlots(c, w.m, r, numTokens, numComputed).1
       case Some(ids) => Erase(c.blockSize, w.cells, ids)
       case None => w.cells)
    case _ => w.cells
  }

  function NextWritten(w: World, op: Op): set<(RequestId, nat, nat)> {
    match op
    case ForkOp(parent, child) =>
      if parent in w.m.tables then w.written + set x | x in w.written && x.0 == parent :: (child, x.1, x.2)
      else w.written
    case FreeOp(r) => set x | x in w.written && x.0 != r
    case _ => w.written
  }

  function Next(c: Config, w: World, e: Event): World
    requires c.blockSize > 0 && WellFormed(w.m)
    requires e.Write? ==> IsPlace(w.m.tables, e.r, e.k)
  {
    match e
    case Call(op) =>
      World(Step(c, w.m, op), NextPrompts(c, w, op), NextCells(c, w, op), NextWritten(w, op),
            NextHits(c, w.m, w.hits, op))
    case Write(r, k, at, kv) =>
      w.(cells := w.cells[CellOf(c, w.m, r, k, at) := kv], written := w.written + {(r, k, at)})
  }

  // ---------- cells ----------

  /** Exactly the cells of the given blocks are erased. */
  lemma ErasedExactly(blockSize: nat, cells: Cells, ids: seq<BlockId>, b: BlockId, o: nat)
    requires o < blockSize
    ensures Slot(blockSize, b, o) in Erase(blockSize, cells, ids) <==> Slot(blockSize, b, o) in cells && b !in ids
  {
    QuotientUnique(Slot(blockSize, b, o), blockSize, b, o);
  }

  /** Forgetting cells keeps the rest sound. */
  lemma FewerCellsSound(blockSize: nat, cells: Cells, cells': Cells, b: BlockId, tokens: seq<Token>, i: nat)
    requires BlockSound(blockSize, cells, b, tokens, i)
    requires forall s :: s in cells' ==> s in cells && cells'[s] == cells[s]
    ensures BlockSound(blockSize, cells', b, tokens, i)
  {
    forall o: nat | o < blockSize
      ensures CellSound(blockSize, cells', b, tokens, i, o)
    {
      assert CellSound(blockSize, cells, b, tokens, i, o);
    }
  }

  /** A block just granted is sound for anything. */
  lemma GrantedSound(blockSize: nat, cells: Cells, ids: seq<BlockId>, b: BlockId, tokens: seq<Token>, i: nat)
    requires blockSize > 0 && b in ids
    ensures BlockSound(blockSize, Erase(blockSize, cells, ids), b, tokens, i)
  {
    forall o: nat | o < blockSize
      ensures CellSound(blockSize, Erase(blockSize, cells, ids), b, tokens, i, o)
    {
      ErasedExactly(blockSize, cells, ids, b, o);
    }
  }

  lemma SoundTransfers(blockSize: nat, cells: Cells, b: BlockId, p: Prompt, q: Prompt, i: nat)
    requires blockSize > 0 && i < FullBlocks(p, blockSize) && i < FullBlocks(q, blockSize)
    requires SamePrefix(p, q, blockSize, i) && BlockSound(blockSize, cells, b, p.tokens, i)
    ensures BlockSound(blockSize, cells, b, q.tokens, i)
  {
    forall o: nat | o < blockSize
      ensures CellSound(blockSize, cells, b, q.tokens, i, o)
    {
      assert CellSound(blockSize, cells, b, p.tokens, i, o);
      SameEntry(blockSize, p, q, i, o);
    }
  }

  /** Offset o of block i: the same entry in two prompts with the same leading blocks. */
  lemma SameEntry(blockSize: nat, p: Prompt, q: Prompt, i: nat, o: nat)
    requires blockSize > 0 && o < blockSize && i < FullBlocks(p, blockSize) && i < FullBlocks(q, blockSize)
    requires SamePrefix(p, q, blockSize, i)
    ensures Due(blockSize, p.tokens, i, o).Some? && Due(blockSize, p.tokens, i, o) == Due(blockSize, q.tokens, i, o)
  {
    BlockInPrompt(|p.tokens|, blockSize, i);
    BlockInPrompt(|q.tokens|, blockSize, i);
    var n, all := i * blockSize + o + 1, (i + 1) * blockSize;
    assert p.tokens[..n] == p.tokens[..all][..n] == q.tokens[..all][..n] == q.tokens[..n];
  }

  /** The hash a request expects of a block is the chain hash of its own prompt. */
  lemma ExpectedHash(c: Config, prompts: set<Prompt>, w: World, r: RequestId, k: nat)
    requires c.blockSize > 0 && Remembers(c, prompts, w) && HashAt(w.m.hashes, r, k).Some?
    ensures r in w.prompts && Prompt(w.prompts[r], None) in prompts
    ensures var q := Prompt(w.prompts[r], None);
      k < FullBlocks(q, c.blockSize) && HashAt(w.m.hashes, r, k).value == ChainHash(c.hasher, q, c.blockSize, k)
  {
    assert r in w.m.hashes.Keys;
  }

  /** Calls other than caching only ever lose labels. */
  lemma LabelsOnlyLost(c: Config, m: Manager, op: Op, b: BlockId)
    requires c.blockSize > 0 && Inv(m) && Guard(c, m, op) && !op.CacheOp?
    requires b < |Step(c, m, op).pool.labels| && Step(c, m, op).pool.labels[b].Some?
    ensures b < |m.pool.labels| && m.pool.labels[b] == Step(c, m, op).pool.labels[b]
  {
    match op
    case LookupOp(r, tokens, skip) =>
      LookupRefinesSearch(m.pool, PromptHashes(c, tokens));
    case AllocateOp(r, numTokens, numComputed) =>
      PP.AllocateAllExact(m.pool, BlocksNeeded(c, numTokens, numComputed));
    case ForkOp(parent, child) => ForkKeepsLabels(m, parent, child);
    case FreeOp(r) => FreeKeepsLabels(m, r);
    case ResetOp =>
      PP.ResetExact(m.pool);
  }

  lemma StepHashes(c: Config, m: Manager, op: Op)
    requires c.blockSize > 0 && WellFormed(m)
    ensures Step(c, m, op).hashes == match op
      case LookupOp(r, tokens, skip) =>
        if LookupSkipped(c, tokens, skip) then m.hashes else m.hashes[r := PromptHashes(c, tokens)]
      case ForkOp(parent, child) =>
        if parent in m.tables && parent in m.hashes then m.hashes[child := m.hashes[parent]] else m.hashes
      case FreeOp(r) => m.hashes - {r}
      case _ => m.hashes
  {
  }

  lemma CallRemembers(c: Config, prompts: set<Prompt>, w: World, op: Op)
    requires c.blockSize > 0 && WorldInv(c, prompts, w) && EventGuard(c, prompts, w, Call(op))
    ensures Remembers(c, prompts, Next(c, w, Call(op)))
  {
    StepHashes(c, w.m, op);
  }

  // ---------- calls ----------

  /** Which entry wrote a changed label. */
  lemma CacheWriter(c: Config, m: Manager, r: RequestId, n: nat, b: BlockId) returns (i: nat)
    requires c.blockSize > 0 && Inv(m) && r in m.tables && r in m.hashes
    requires b < |CacheBlocks(c, m, r, n).pool.labels|
    ensures |CacheBlocks(c, m, r, n).pool.labels| == |m.pool.labels|
    ensures CacheBlocks(c, m, r, n).pool.labels[b] == m.pool.labels[b]
      || (ComputedTokens(m, r) / c.blockSize <= i < n / c.blockSize && i < |m.tables[r]| && i < |m.hashes[r]|
        && m.tables[r][i] == b && CacheBlocks(c, m, r, n).pool.labels[b] == Some(m.hashes[r][i]))
  {
    i := 0;
    if c.caching {
      TableConsistent(m, r);
      var lo, hi := ComputedTokens(m, r) / c.blockSize, Min(n / c.blockSize, |m.hashes[r]|);
      CacheRangeCorrect(m.pool, m.tables[r], m.hashes[r], lo, hi);
      var p' := CacheRange(m.pool, m.tables[r], m.hashes[r], lo, hi);
      if p'.labels[b] != m.pool.labels[b] {
        assert WrittenBy(p', m.tables[r], m.hashes[r], lo, hi, b);
        i :| lo <= i < hi && i < |m.tables[r]| && m.tables[r][i] == b
          && p'.labels[b] == At(m.hashes[r], i) && i < |m.hashes[r]|;
      }
    }
  }

  /** A label that caching writes cannot contradict the block: the request that owns the table wrote it. */
  lemma CacheLabelSound(c: Config, prompts: set<Prompt>, w: World, r: RequestId, n: nat, b: BlockId, p: Prompt, j: nat)
    requires Setup(c, prompts) && WorldInv(c, prompts, w) && p in prompts && j < FullBlocks(p, c.blockSize)
    ensures LabelSound(c, CacheBlocks(c, w.m, r, n).pool.labels, w.cells, b, p, j)
  {
    var labels := CacheBlocks(c, w.m, r, n).pool.labels;
    assert LabelSound(c, w.m.pool.labels, w.cells, b, p, j);
    if r in w.m.tables && r in w.m.hashes && b < |labels|
      && labels[b] == Some(ChainHash(c.hasher, p, c.blockSize, j)) {
      var i := CacheWriter(c, w.m, r, n, b);
      if labels[b] != w.m.pool.labels[b] {
        assert IsPlace(w.m.tables, r, i) && PlaceSound(c.blockSize, w, r, i);
        ExpectedHash(c, prompts, w, r, i);
        var q := Prompt(w.prompts[r], None);
        ChainSound(c.hasher, prompts, c.blockSize, q, i, p, j);
        SoundTransfers(c.blockSize, w.cells, b, q, p, i);
      }
    }
  }

  lemma CallLabelSound(c: Config, prompts: set<Prompt>, w: World, op: Op, b: BlockId, p: Prompt, i: nat)
    requires Setup(c, prompts) && WorldInv(c, prompts, w) && Guard(c, w.m, op)
    requires p in prompts && i < FullBlocks(p, c.blockSize)
    ensures LabelSound(c, Step(c, w.m, op).pool.labels, NextCells(c, w, op), b, p, i)
  {
    var labels := Step(c, w.m, op).pool.labels;
    if op.CacheOp? {
      CacheLabelSound(c, prompts, w, op.r, op.numComputed, b, p, i);
    } else if b < |labels| && labels[b].Some? {
      LabelsOnlyLost(c, w.m, op, b);
      assert LabelSound(c, w.m.pool.labels, w.cells, b, p, i);
      if labels[b] == Some(ChainHash(c.hasher, p, c.blockSize, i)) {
        FewerCellsSound(c.blockSize, w.cells, NextCells(c, w, op), b, p.tokens, i);
      }
    }
  }

  /** A hit is a labelled block, and its label is the requester's own hash. */
  lemma LookupPlaceSound(c: Config, prompts: set<Prompt>, w: World, tokens: seq<Token>, i: nat)
    requires Setup(c, prompts) && WorldInv(c, prompts, w) && Prompt(tokens, None) in prompts
    requires i < |PM.LookupHits(w.m.pool, PromptHashes(c, tokens)).1|
    ensures BlockSound(c.blockSize, w.cells, PM.LookupHits(w.m.pool, PromptHashes(c, tokens)).1[i], tokens, i)
  {
    var hs := PromptHashes(c, tokens);
    LookupRefinesSearch(w.m.pool, hs);
    var (pool, ids) := PM.LookupHits(w.m.pool, hs);
    HitLabelled(w.m.pool, hs, pool, ids, i);
    assert LabelSound(c, w.m.pool.labels, w.cells, ids[i], Prompt(tokens, None), i);
  }

  lemma AllocatePlaceSound(c: Config, prompts: set<Prompt>, w: World, op: Op, q: RequestId, i: nat)
    requires Setup(c, prompts) && WorldInv(c, prompts, w) && op.AllocateOp? && WellFormed(Step(c, w.m, op))
    requires IsPlace(Step(c, w.m, op).tables, q, i)
    ensures PlaceSound(c.blockSize, Next(c, w, Call(op)), q, i)
  {
    var (m', r) := AllocateSlots(c, w.m, op.r, op.numTokens, op.numComputed);
    if op.numTokens <= op.numComputed || r.None? {
      assert PlaceSound(c.blockSize, w, q, i);
      if HashAt(w.m.hashes, q, i).Some? {
        FewerCellsSound(c.blockSize, w.cells, NextCells(c, w, op), w.m.tables[q][i], w.prompts[q], i);
      }
    } else if HashAt(w.m.hashes, q, i).Some? {
      ExpectedHash(c, prompts, w, q, i);
      AppendedPlace(w.m, op.r, r.value, q, i);
      if q == op.r && i >= |TableOf(w.m, q)| {
        assert m'.tables[q][i] in r.value;
        GrantedSound(c.blockSize, w.cells, r.value, m'.tables[q][i], w.prompts[q], i);
      } else {
        assert PlaceSound(c.blockSize, w, q, i);
        FewerCellsSound(c.blockSize, w.cells, NextCells(c, w, op), w.m.tables[q][i], w.prompts[q], i);
      }
    }
  }

  lemma ForkPlaceSound(c: Config, prompts: set<Prompt>, w: World, parent: RequestId, child: RequestId,
    q: RequestId, i: nat)
    requires Setup(c, prompts) && WorldInv(c, prompts, w) && (parent in w.m.tables ==> child !in w.m.tables)
    requires WellFormed(Step(c, w.m, ForkOp(parent, child)))
    requires IsPlace(Step(c, w.m, ForkOp(parent, child)).tables, q, i)
    ensures PlaceSound(c.blockSize, Next(c, w, Call(ForkOp(parent, child))), q, i)
  {
    if parent in w.m.tables {
      ForkedPlace(w.m, parent, child, q, i);
      assert PlaceSound(c.blockSize, w, if q == child then parent else q, i);
    } else {
      assert PlaceSound(c.blockSize, w, q, i);
    }
  }

  lemma CallPlaceSound(c: Config, prompts: set<Prompt>, w: World, op: Op, q: RequestId, i: nat)
    requires Setup(c, prompts) && WorldInv(c, prompts, w) && EventGuard(c, prompts, w, Call(op))
    requires WellFormed(Step(c, w.m, op)) && IsPlace(Step(c, w.m, op).tables, q, i)
    ensures PlaceSound(c.blockSize, Next(c, w, Call(op)), q, i)
  {
    match op
    case LookupOp(r, tokens, skip) =>
      if q == r && !LookupSkipped(c, tokens, skip) {
        LookupPlaceSound(c, prompts, w, tokens, i);
      } else {
        assert IsPlace(w.m.tables, q, i) && PlaceSound(c.blockSize, w, q, i);
      }
    case AllocateOp(_, _, _) =>
      AllocatePlaceSound(c, prompts, w, op, q, i);
    case ForkOp(parent, child) =>
      ForkPlaceSound(c, prompts, w, parent, child, q, i);
    case _ =>
      assert IsPlace(w.m.tables, q, i) && PlaceSound(c.blockSize, w, q, i);
  }

  lemma CallInv(c: Config, prompts: set<Prompt>, w: World, op: Op)
    requires Setup(c, prompts) && WorldInv(c, prompts, w) && EventGuard(c, prompts, w, Call(op))
    ensures WorldInv(c, prompts, Next(c, w, Call(op)))
  {
    var w' := Next(c, w, Call(op));
    StepInv(c, w.m, op);
    CallRemembers(c, prompts, w, op);
    forall b: BlockId, p, i: nat | p in prompts && i < FullBlocks(p, c.blockSize)
      ensures LabelSound(c, w'.m.pool.labels, w'.cells, b, p, i)
    {
      CallLabelSound(c, prompts, w, op, b, p, i);
    }
    forall q, i: nat | IsPlace(w'.m.tables, q, i)
      ensures PlaceSound(c.blockSize, w', q, i)
    {
      CallPlaceSound(c, prompts, w, op, q, i);
    }
  }

  // ---------- writes ----------

  /** A write elsewhere, or of the entry already due there, keeps a block sound. */
  lemma WriteKeepsSound(blockSize: nat, cells: Cells, b: BlockId, tokens: seq<Token>, j: nat, b0: BlockId, at: nat,
    kv: seq<Token>)
    requires BlockSound(blockSize, cells, b, tokens, j) && at < blockSize
    requires b == b0 ==> Due(blockSize, tokens, j, at) == Some(kv)
    ensures BlockSound(blockSize, cells[Slot(blockSize, b0, at) := kv], b, tokens, j)
  {
    var cells' := cells[Slot(blockSize, b0, at) := kv];
    forall o: nat | o < blockSize
      ensures CellSound(blockSize, cells', b, tokens, j, o)
    {
      assert CellSound(blockSize, cells, b, tokens, j, o);
      SlotInjective(blockSize, b, o, b0, at);
    }
  }

  /** In a block the prompt fills, the write is the entry of the request's own prompt. */
  ghost predicate WriteIsDue(c: Config, w: World, r: RequestId, k: nat, at: nat, kv: seq<Token>) {
    HashAt(w.m.hashes, r, k).Some? ==> r in w.prompts && Due(c.blockSize, w.prompts[r], k, at) == Some(kv)
  }

  /** Where the hash is that of block j of p, the entry due is p's. */
  lemma DueEntry(c: Config, prompts: set<Prompt>, w: World, r: RequestId, k: nat, at: nat, kv: seq<Token>,
    p: Prompt, j: nat)
    requires Setup(c, prompts) && WorldInv(c, prompts, w) && at < c.blockSize && WriteIsDue(c, w, r, k, at, kv)
    requires p in prompts && j < FullBlocks(p, c.blockSize)
    requires HashAt(w.m.hashes, r, k) == Some(ChainHash(c.hasher, p, c.blockSize, j))
    ensures Due(c.blockSize, p.tokens, j, at) == Some(kv)
  {
    ExpectedHash(c, prompts, w, r, k);
    var q := Prompt(w.prompts[r], None);
    ChainSound(c.hasher, prompts, c.blockSize, q, k, p, j);
    SameEntry(c.blockSize, q, p, k, at);
  }

  lemma WriteLabelSound(c: Config, prompts: set<Prompt>, w: World, r: RequestId, k: nat, at: nat, kv: seq<Token>,
    b: BlockId, p: Prompt, j: nat)
    requires Setup(c, prompts) && WorldInv(c, prompts, w) && at < c.blockSize && IsPlace(w.m.tables, r, k)
    requires WriteIsDue(c, w, r, k, at, kv) && p in prompts && j < FullBlocks(p, c.blockSize)
    ensures LabelSound(c, w.m.pool.labels, w.cells[Slot(c.blockSize, w.m.tables[r][k], at) := kv], b, p, j)
  {
    assert LabelSound(c, w.m.pool.labels, w.cells, b, p, j);
    if b < |w.m.pool.labels| && w.m.pool.labels[b] == Some(ChainHash(c.hasher, p, c.blockSize, j)) {
      if b == w.m.tables[r][k] {
        assert FitsLabel(w.m, r, k);
        DueEntry(c, prompts, w, r, k, at, kv, p, j);
      }
      WriteKeepsSound(c.blockSize, w.cells, b, p.tokens, j, w.m.tables[r][k], at, kv);
    }
  }

  /** All holders of the block expect the same hash of it, so the entry is due to each of them. */
  lemma WritePlaceSound(c: Config, prompts: set<Prompt>, w: World, r: RequestId, k: nat, at: nat, kv: seq<Token>,
    q: RequestId, j: nat)
    requires Setup(c, prompts) && WorldInv(c, prompts, w) && at < c.blockSize && IsPlace(w.m.tables, r, k)
    requires WriteIsDue(c, w, r, k, at, kv) && IsPlace(w.m.tables, q, j) && HashAt(w.m.hashes, q, j).Some?
    ensures q in w.prompts
    ensures BlockSound(c.blockSize, w.cells[Slot(c.blockSize, w.m.tables[r][k], at) := kv],
                       w.m.tables[q][j], w.prompts[q], j)
  {
    assert PlaceSound(c.blockSize, w, q, j);
    ExpectedHash(c, prompts, w, q, j);
    if w.m.tables[q][j] == w.m.tables[r][k] {
      assert HashAt(w.m.hashes, r, k) == HashAt(w.m.hashes, q, j);
      DueEntry(c, prompts, w, r, k, at, kv, Prompt(w.prompts[q], None), j);
    }
    WriteKeepsSound(c.blockSize, w.cells, w.m.tables[q][j], w.prompts[q], j, w.m.tables[r][k], at, kv);
  }

  /** A block that the prompt fills lies inside the prompt. */
  lemma InPrompt(c: Config, prompts: set<Prompt>, w: World, r: RequestId, k: nat, at: nat)
    requires c.blockSize > 0 && Remembers(c, prompts, w) && HashAt(w.m.hashes, r, k).Some? && at < c.blockSize
    ensures r in w.prompts && Due(c.blockSize, w.prompts[r], k, at).Some?
  {
    ExpectedHash(c, prompts, w, r, k);
    BlockInPrompt(|w.prompts[r]|, c.blockSize, k);
  }

  /** The entry due one position before. */
  function DueBefore(blockSize: nat, tokens: seq<Token>, k: nat, at: nat): Option<seq<Token>>
    requires blockSize > 0
  {
    if at > 0 then Due(blockSize, tokens, k, at - 1)
    else if k > 0 then Due(blockSize, tokens, k - 1, blockSize - 1)
    else Some([])
  }

  lemma DueBeforeIs(blockSize: nat, tokens: seq<Token>, k: nat, at: nat, pos: nat)
    requires at < blockSize && pos == k * blockSize + at && pos < |tokens|
    ensures DueBefore(blockSize, tokens, k, at) == Some(tokens[..pos])
  {
    if at == 0 && k > 0 {
      assert (k - 1) * blockSize + (blockSize - 1) + 1 == pos;
    } else if at == 0 {
      assert k * blockSize == 0;
      assert tokens[..0] == [];
    }
  }

  /** An entry is the one before it, continued by a token. */
  lemma DueContinues(blockSize: nat, tokens: seq<Token>, k: nat, at: nat)
    requires at < blockSize && Due(blockSize, tokens, k, at).Some?
    ensures DueBefore(blockSize, tokens, k, at).Some?
    ensures Continued(blockSize, tokens, k, at, DueBefore(blockSize, tokens, k, at)) == Due(blockSize, tokens, k, at)
  {
    var pos := k * blockSize + at;
    DueBeforeIs(blockSize, tokens, k, at, pos);
    assert tokens[..pos + 1] == tokens[..pos] + [tokens[pos]];
  }

  /** An entry that was written is the one due there. */
  lemma EntryIsDue(c: Config, w: World, r: RequestId, k: nat, at: nat)
    requires PlacesSound(c.blockSize, w) && at < c.blockSize
    requires HashAt(w.m.hashes, r, k).Some? && Entry(c, w, r, k, at).Some?
    ensures r in w.prompts && Entry(c, w, r, k, at) == Due(c.blockSize, w.prompts[r], k, at)
  {
    assert PlaceSound(c.blockSize, w, r, k);
    assert CellSound(c.blockSize, w.cells, w.m.tables[r][k], w.prompts[r], k, at);
  }

  lemma BeforeIsDue(c: Config, w: World, r: RequestId, k: nat, at: nat)
    requires PlacesSound(c.blockSize, w) && at < c.blockSize && r in w.prompts
    requires HashAt(w.m.hashes, r, k).Some? && Before(c, w, r, k, at).Some?
    ensures Before(c, w, r, k, at) == DueBefore(c.blockSize, w.prompts[r], k, at)
  {
    if at > 0 {
      EntryIsDue(c, w, r, k, at - 1);
    } else if k > 0 {
      EntryIsDue(c, w, r, k - 1, c.blockSize - 1);
    }
  }

  /**
   In a block the prompt fills, whatever hits lie below: what can be computed is the entry of the request's own
   prompt, and it can be computed exactly when the position before, if any, was written. A hit that was never
   written therefore stops the requests that would read it.
   */
  lemma ComputedExactly(c: Config, prompts: set<Prompt>, w: World, r: RequestId, k: nat, at: nat)
    requires c.blockSize > 0 && WorldInv(c, prompts, w) && at < c.blockSize && HashAt(w.m.hashes, r, k).Some?
    ensures r in w.prompts && Due(c.blockSize, w.prompts[r], k, at).Some?
    ensures Computed(c, w, r, k, at) ==
      if Before(c, w, r, k, at).Some? then Due(c.blockSize, w.prompts[r], k, at) else None
  {
    InPrompt(c, prompts, w, r, k, at);
    DueContinues(c.blockSize, w.prompts[r], k, at);
    if Before(c, w, r, k, at).Some? {
      BeforeIsDue(c, w, r, k, at);
    }
  }

  lemma WriteInv(c: Config, prompts: set<Prompt>, w: World, r: RequestId, k: nat, at: nat, kv: seq<Token>)
    requires Setup(c, prompts) && WorldInv(c, prompts, w) && EventGuard(c, prompts, w, Write(r, k, at, kv))
    ensures WorldInv(c, prompts, Next(c, w, Write(r, k, at, kv)))
  {
    var w' := Next(c, w, Write(r, k, at, kv));
    assert WriteIsDue(c, w, r, k, at, kv) by {
      if HashAt(w.m.hashes, r, k).Some? {
        ComputedExactly(c, prompts, w, r, k, at);
      }
    }
    forall b: BlockId, p, i: nat | p in prompts && i < FullBlocks(p, c.blockSize)
      ensures LabelSound(c, w'.m.pool.labels, w'.cells, b, p, i)
    {
      WriteLabelSound(c, prompts, w, r, k, at, kv, b, p, i);
    }
    forall q, j: nat | IsPlace(w'.m.tables, q, j)
      ensures PlaceSound(c.blockSize, w', q, j)
    {
      if HashAt(w.m.hashes, q, j).Some? {
        WritePlaceSound(c, prompts, w, r, k, at, kv, q, j);
      }
    }
  }

  lemma NextInv(c: Config, prompts: set<Prompt>, w: World, e: Event)
    requires Setup(c, prompts) && WorldInv(c, prompts, w) && EventGuard(c, prompts, w, e)
    ensures WorldInv(c, prompts, Next(c, w, e))
  {
    match e
    case Call(op) => CallInv(c, prompts, w, op);
    case Write(r, k, at, kv) => WriteInv(c, prompts, w, r, k, at, kv);
  }

  // ---------- whole runs ----------

  ghost predicate LegalEvents(c: Config, prompts: set<Prompt>, w: World, es: seq<Event>)
    requires Setup(c, prompts) && WorldInv(c, prompts, w)
    decreases es
  {
    es == [] || (EventGuard(c, prompts, w, es[0])
      && (NextInv(c, prompts, w, es[0]); LegalEvents(c, prompts, Next(c, w, es[0]), es[1..])))
  }

  ghost function RunEvents(c: Config, prompts: set<Prompt>, w: World, es: seq<Event>): (w': World)
    requires Setup(c, prompts) && WorldInv(c, prompts, w) && LegalEvents(c, prompts, w, es)
    ensures WorldInv(c, prompts, w')
    decreases es
  {
    if es == [] then w
    else
      NextInv(c, prompts, w, es[0]);
      RunEvents(c, prompts, Next(c, w, es[0]), es[1..])
  }

  ghost function Start(c: Config, prompts: set<Prompt>, numBlocks: nat): (w: World)
    requires Setup(c, prompts)
    ensures WorldInv(c, prompts, w)
  {
    NewInv(numBlocks);
    World(New(numBlocks), map[], map[], {}, map[])
  }

  lemma HitsDistinct(c: Config, prompts: set<Prompt>, p: PM.Pool, tokens: seq<Token>, pool: PM.Pool, ids: seq<BlockId>)
    requires Setup(c, prompts) && PM.Valid(p) && Prompt(tokens, None) in prompts
    requires TookHits(p, PromptHashes(c, tokens), pool, ids)
    ensures NoDup(ids)
  {
    var q, hs := Prompt(tokens, None), PromptHashes(c, tokens);
    forall i, j | 0 <= i < j < |ids|
      ensures ids[i] != ids[j]
    {
      HitLabelled(p, hs, pool, ids, i);
      HitLabelled(p, hs, pool, ids, j);
      ChainIdentifiesPrefix(c.hasher, prompts, c.blockSize, q, i, q, j);
    }
  }

  lemma HitsWithinPrompt(n: nat, blockSize: nat, length: nat)
    requires blockSize > 0 && n <= length / blockSize
    ensures n * blockSize <= length
  {
    assert n * blockSize <= length / blockSize * blockSize;
  }

  /**
   After any run, each cell of the block returned at index i of a lookup either has not been written since the
   block was last granted, or holds exactly the entry of block i of the prompt, computed after the prompt's own
   preceding tokens. The ids are pairwise different, and as many as there are leading hashes in the index.
   */
  lemma PrefixHitsAreSound(c: Config, prompts: set<Prompt>, numBlocks: nat, es: seq<Event>, r: RequestId,
    tokens: seq<Token>)
    requires Setup(c, prompts) && LegalEvents(c, prompts, Start(c, prompts, numBlocks), es)
    requires c.caching && tokens != [] && Prompt(tokens, None) in prompts
    ensures var w := RunEvents(c, prompts, Start(c, prompts, numBlocks), es);
      var ids := Lookup(c, w.m, r, tokens, false).1;
      && |ids| == PrefixHit(PromptHashes(c, tokens), w.m.pool.index.Keys)
      && |ids| * c.blockSize <= |tokens|
      && NoDup(ids)
      && forall i :: 0 <= i < |ids| ==> BlockSound(c.blockSize, w.cells, ids[i], tokens, i)
  {
    var w := RunEvents(c, prompts, Start(c, prompts, numBlocks), es);
    var hs := PromptHashes(c, tokens);
    LookupRefinesSearch(w.m.pool, hs);
    var (pool, ids) := PM.LookupHits(w.m.pool, hs);
    HitsDistinct(c, prompts, w.m.pool, tokens, pool, ids);
    HitsWithinPrompt(|ids|, c.blockSize, |tokens|);
    forall i | 0 <= i < |ids|
      ensures BlockSound(c.blockSize, w.cells, ids[i], tokens, i)
    {
      LookupPlaceSound(c, prompts, w, tokens, i);
    }
  }
}
