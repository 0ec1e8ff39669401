/**
 Chained block hashes of a prompt, and the longest cached run of them.
 The digest itself is a parameter: SHA-256 and xxh3 are not modelled.
 */
module Prefix {
  import opened Wrappers
  import opened CacheTypes
  import opened HashEncoding

  /** A digest and the byte layout it is fed. */
  datatype Hasher = Hasher(algo: HashAlgorithm, digest: Bytes -> BlockHash)

  datatype Prompt = Prompt(tokens: seq<Token>, salt: Option<Bytes>)

  // ---------- blocks of a prompt ----------

  function FullBlocks(p: Prompt, blockSize: nat): nat
    requires blockSize > 0
  {
    |p.tokens| / blockSize
  }

  lemma BlockInPrompt(length: nat, blockSize: nat, i: nat)
    requires blockSize > 0 && i < length / blockSize
    ensures i * blockSize + blockSize == (i + 1) * blockSize <= length
  {
    assert (i + 1) * blockSize <= (length / blockSize) * blockSize;
  }

  function BlockTokens(p: Prompt, blockSize: nat, i: nat): (r: seq<Token>)
    requires blockSize > 0 && i < FullBlocks(p, blockSize)
    ensures |r| == blockSize
  {
    BlockInPrompt(|p.tokens|, blockSize, i);
    p.tokens[i * blockSize..(i + 1) * blockSize]
  }

  function ParentHash(h: Hasher, p: Prompt, blockSize: nat, i: nat): BlockHash
    requires blockSize > 0 && i < FullBlocks(p, blockSize)
    decreases i, 0
  {
    if i == 0 then 0 else ChainHash(h, p, blockSize, i - 1)
  }

  function BlockInput(h: Hasher, p: Prompt, blockSize: nat, i: nat): BlockHashInput
    requires blockSize > 0 && i < FullBlocks(p, blockSize)
    decreases i, 1
  {
    BlockHashInput(ParentHash(h, p, blockSize, i), BlockTokens(p, blockSize, i), p.salt, [])
  }

  /** The hash of block i, chained through the hash of block i - 1. */
  function ChainHash(h: Hasher, p: Prompt, blockSize: nat, i: nat): BlockHash
    requires blockSize > 0 && i < FullBlocks(p, blockSize)
    decreases i, 2
  {
    h.digest(Encode(h.algo, BlockInput(h, p, blockSize, i)))
  }

  function ChainHashes(h: Hasher, p: Prompt, blockSize: nat): (r: seq<BlockHash>)
    requires blockSize > 0
    ensures |r| == FullBlocks(p, blockSize)
    ensures forall i :: 0 <= i < |r| ==> r[i] == ChainHash(h, p, blockSize, i)
  {
    seq(FullBlocks(p, blockSize), i requires 0 <= i < FullBlocks(p, blockSize) => ChainHash(h, p, blockSize, i))
  }

  // ---------- the loops of the original ----------

  lemma {:induction false} TokenBytesSnoc(tokens: seq<Token>, t: Token)
    ensures TokenBytes(tokens + [t]) == TokenBytes(tokens) + LittleEndian(t, 4)
  {
    var last := LittleEndian(t, 4);
    if tokens == [] {
      assert tokens + [t] == [t] && [t][1..] == [];
      assert TokenBytes([]) == [];
      assert last + [] == [] + last;
    } else {
      TokenBytesSnoc(tokens[1..], t);
      assert (tokens + [t])[1..] == tokens[1..] + [t];
      Associative(LittleEndian(tokens[0], 4), TokenBytes(tokens[1..]), last);
    }
  }

  lemma {:induction false} FieldBytesSnoc(algo: HashAlgorithm, fields: seq<Bytes>, field: Bytes)
    ensures FieldBytes(algo, fields + [field]) == FieldBytes(algo, fields) + Framed(algo, field)
  {
    if fields == [] {
      assert [field][1..] == [] && FieldBytes(algo, []) == [];
      assert Framed(algo, field) + [] == [] + Framed(algo, field);
    } else {
      FieldBytesSnoc(algo, fields[1..], field);
      assert (fields + [field])[1..] == fields[1..] + [field];
      Associative(Framed(algo, fields[0]), FieldBytes(algo, fields[1..]), Framed(algo, field));
    }
  }

  lemma Associative(a: Bytes, b: Bytes, c: Bytes)
    ensures a + (b + c) == (a + b) + c
  {
  }

  lemma {:induction false} KeyFieldsSnoc(keys: seq<(Bytes, Bytes)>, key: (Bytes, Bytes))
    ensures KeyFields(keys + [key]) == KeyFields(keys) + [key.0, key.1]
  {
    if keys == [] {
      assert KeyFields([key]) == [key.0, key.1] + KeyFields([]);
    } else {
      KeyFieldsSnoc(keys[1..], key);
      assert (keys + [key])[1..] == keys[1..] + [key];
    }
  }

  method AppendTokens(data: Bytes, tokenIds: seq<Token>) returns (r: Bytes)
    ensures r == data + TokenBytes(tokenIds)
  {
    r := data;
    for i := 0 to |tokenIds|
      invariant r == data + TokenBytes(tokenIds[..i])
    {
      TokenBytesSnoc(tokenIds[..i], tokenIds[i]);
      assert tokenIds[..i + 1] == tokenIds[..i] + [tokenIds[i]];
      r := r + LittleEndian(tokenIds[i], 4);
    }
    assert tokenIds[..|tokenIds|] == tokenIds;
  }

  method AppendField(algo: HashAlgorithm, data: Bytes, field: Bytes, ghost head: Bytes, ghost fields: seq<Bytes>)
    returns (r: Bytes)
    requires data == head + FieldBytes(algo, fields)
    ensures r == head + FieldBytes(algo, fields + [field])
  {
    FieldBytesSnoc(algo, fields, field);
    r := data + LengthPrefix(algo, |field|) + field;
    Associative(head, FieldBytes(algo, fields), Framed(algo, field));
    Associative(data, LengthPrefix(algo, |field|), field);
  }

  lemma KeyWritten(fields: seq<Bytes>, keys: seq<(Bytes, Bytes)>, i: nat)
    requires i < |keys|
    ensures fields + KeyFields(keys[..i + 1]) == fields + KeyFields(keys[..i]) + [keys[i].0] + [keys[i].1]
  {
    KeyFieldsSnoc(keys[..i], keys[i]);
    assert keys[..i + 1] == keys[..i] + [keys[i]];
  }

  method AppendKeys(algo: HashAlgorithm, data: Bytes, keys: seq<(Bytes, Bytes)>, ghost head: Bytes,
    ghost fields: seq<Bytes>) returns (r: Bytes)
    requires data == head + FieldBytes(algo, fields)
    ensures r == head + FieldBytes(algo, fields + KeyFields(keys))
  {
    r := data;
    ghost var written := fields;
    for i := 0 to |keys|
      invariant written == fields + KeyFields(keys[..i])
      invariant r == head + FieldBytes(algo, written)
    {
      KeyWritten(fields, keys, i);
      r := AppendField(algo, r, keys[i].0, head, written);
      r := AppendField(algo, r, keys[i].1, head, written + [keys[i].0]);
      written := written + [keys[i].0] + [keys[i].1];
    }
    assert keys[..|keys|] == keys;
  }

  /** Feeds the digest piece by piece, in the order parent, tokens, salt, extra keys. */
  method HashInputBytes(algo: HashAlgorithm, input: BlockHashInput) returns (data: Bytes)
    ensures data == Encode(algo, input)
  {
    data := BigEndian(input.parentHash, 8);
    data := AppendTokens(data, input.tokenIds);
    ghost var head := data;
    match input.cacheSalt {
      case Some(s) =>
        data := AppendField(algo, data, s, head, []);
      case None =>
    }
    data := AppendKeys(algo, data, input.extraKeys, head, SaltFields(input.cacheSalt));
  }

  lemma BlockInputAt(h: Hasher, p: Prompt, blockSize: nat, i: nat, start: nat, end: nat)
    requires blockSize > 0 && i < FullBlocks(p, blockSize)
    requires start == i * blockSize && end == start + blockSize
    ensures end <= |p.tokens|
    ensures BlockInput(h, p, blockSize, i) ==
      BlockHashInput(ParentHash(h, p, blockSize, i), p.tokens[start..end], p.salt, [])
  {
    BlockInPrompt(|p.tokens|, blockSize, i);
  }

  /** The first i hashes are there, and the next parent is at hand. */
  ghost predicate HashedSoFar(h: Hasher, p: Prompt, blockSize: nat, i: nat, hashes: seq<BlockHash>,
    parentHash: BlockHash)
    requires blockSize > 0
  {
    && i <= FullBlocks(p, blockSize)
    && hashes == ChainHashes(h, p, blockSize)[..i]
    && (i < FullBlocks(p, blockSize) ==> parentHash == ParentHash(h, p, blockSize, i))
  }

  lemma HashTurn(h: Hasher, p: Prompt, blockSize: nat, i: nat, hashes: seq<BlockHash>, parentHash: BlockHash,
    start: nat, end: nat, hash: BlockHash)
    requires blockSize > 0 && i < FullBlocks(p, blockSize) && HashedSoFar(h, p, blockSize, i, hashes, parentHash)
    requires start == i * blockSize && end == start + blockSize && end <= |p.tokens|
    requires hash == h.digest(Encode(h.algo, BlockHashInput(parentHash, p.tokens[start..end], p.salt, [])))
    ensures HashedSoFar(h, p, blockSize, i + 1, hashes + [hash], hash)
  {
    BlockInputAt(h, p, blockSize, i, start, end);
    var all := ChainHashes(h, p, blockSize);
    assert hash == ChainHash(h, p, blockSize, i);
    assert all[..i + 1] == all[..i] + [all[i]];
  }

  /**
   The digest of the block of tokens from `start` on, with the salt and without extra keys, after the hash of the
   block before, or after 0 for the first block.
   */
  ghost predicate HashesBlock(h: Hasher, tokens: seq<Token>, start: nat, blockSize: nat, salt: Option<Bytes>,
    hashes: seq<BlockHash>, i: nat)
  {
    && i < |hashes| && start + blockSize <= |tokens|
    && hashes[i] == h.digest(Encode(h.algo,
        BlockHashInput(if i == 0 then 0 else hashes[i - 1], tokens[start..start + blockSize], salt, [])))
  }

  lemma ChainHashesBlock(h: Hasher, p: Prompt, blockSize: nat, i: nat, start: nat)
    requires blockSize > 0 && i < FullBlocks(p, blockSize) && start == i * blockSize
    ensures HashesBlock(h, p.tokens, start, blockSize, p.salt, ChainHashes(h, p, blockSize), i)
  {
    BlockInputAt(h, p, blockSize, i, start, start + blockSize);
    assert ChainHashes(h, p, blockSize)[i] == ChainHash(h, p, blockSize, i);
  }

  /** One hash per full block; a partial last block is not hashed. */
  method ComputeBlockHashes(h: Hasher, tokenIds: seq<Token>, blockSize: nat, cacheSalt: Option<Bytes>)
    returns (hashes: seq<BlockHash>)
    requires blockSize > 0
    ensures hashes == ChainHashes(h, Prompt(tokenIds, cacheSalt), blockSize)
    ensures |hashes| == |tokenIds| / blockSize
    ensures forall i: nat :: i < |hashes| ==> HashesBlock(h, tokenIds, i * blockSize, blockSize, cacheSalt, hashes, i)
  {
    ghost var p := Prompt(tokenIds, cacheSalt);
    var numFullBlocks := |tokenIds| / blockSize;
    hashes := [];
    var parentHash: BlockHash := 0;
    for i := 0 to numFullBlocks
      invariant HashedSoFar(h, p, blockSize, i, hashes, parentHash)
    {
      var start := i * blockSize;
      var end := start + blockSize;
      BlockInputAt(h, p, blockSize, i, start, end);
      var input := BlockHashInput(parentHash, tokenIds[start..end], cacheSalt, []);
      var data := HashInputBytes(h.algo, input);
      var hash := h.digest(data);
      HashTurn(h, p, blockSize, i, hashes, parentHash, start, end, hash);
      hashes := hashes + [hash];
      parentHash := hash;
    }
    assert hashes == ChainHashes(h, p, blockSize);
    forall i: nat | i < |hashes|
      ensures HashesBlock(h, tokenIds, i * blockSize, blockSize, cacheSalt, hashes, i)
    {
      ChainHashesBlock(h, p, blockSize, i, i * blockSize);
    }
  }

  /** How many leading hashes are cached. */
  function PrefixHit(hashes: seq<BlockHash>, cached: set<BlockHash>): (n: nat)
    ensures n <= |hashes|
    ensures forall i :: 0 <= i < n ==> hashes[i] in cached
    ensures n < |hashes| ==> hashes[n] !in cached
  {
    if hashes == [] || hashes[0] !in cached then 0 else 1 + PrefixHit(hashes[1..], cached)
  }

  method FindPrefixHit(computedHashes: seq<BlockHash>, cachedHashes: map<BlockHash, nat>) returns (n: nat)
    ensures n == PrefixHit(computedHashes, cachedHashes.Keys)
    ensures n <= |computedHashes| && forall i :: 0 <= i < n ==> computedHashes[i] in cachedHashes
    ensures n < |computedHashes| ==> computedHashes[n] !in cachedHashes
  {
    for i := 0 to |computedHashes|
      invariant forall j :: 0 <= j < i ==> computedHashes[j] in cachedHashes
    {
      if computedHashes[i] !in cachedHashes {
        return i;
      }
    }
    return |computedHashes|;
  }

  // ---------- what a chained hash identifies ----------

  /** The first (i + 1) blocks of the two prompts are the same tokens. */
  ghost predicate SamePrefix(p: Prompt, q: Prompt, blockSize: nat, i: nat)
    requires blockSize > 0 && i < FullBlocks(p, blockSize) && i < FullBlocks(q, blockSize)
  {
    BlockInPrompt(|p.tokens|, blockSize, i);
    BlockInPrompt(|q.tokens|, blockSize, i);
    p.tokens[..(i + 1) * blockSize] == q.tokens[..(i + 1) * blockSize]
  }

  ghost predicate DigestSeparates(h: Hasher, p: Prompt, i: nat, q: Prompt, j: nat, blockSize: nat)
    requires blockSize > 0 && i < FullBlocks(p, blockSize) && j < FullBlocks(q, blockSize)
  {
    ChainHash(h, p, blockSize, i) == ChainHash(h, q, blockSize, j) ==>
      Encode(h.algo, BlockInput(h, p, blockSize, i)) == Encode(h.algo, BlockInput(h, q, blockSize, j))
  }

  /**
   On the byte strings that the given prompts produce, the digest does not collide and never
   returns 0, the parent of every first block.
   */
  ghost predicate CollisionFree(h: Hasher, prompts: set<Prompt>, blockSize: nat)
    requires blockSize > 0
  {
    && (forall p, q, i: nat, j: nat | p in prompts && q in prompts && i < FullBlocks(p, blockSize)
      && j < FullBlocks(q, blockSize) :: DigestSeparates(h, p, i, q, j, blockSize))
    && (forall p, i: nat :: p in prompts && i < FullBlocks(p, blockSize) ==> ChainHash(h, p, blockSize, i) != 0)
    && (forall p :: p in prompts && p.salt.Some? ==> |p.salt.value| < Pow256(8))
  }

  lemma EqualBlockInputs(h: Hasher, prompts: set<Prompt>, blockSize: nat, p: Prompt, i: nat, q: Prompt, j: nat)
    requires blockSize > 0 && CollisionFree(h, prompts, blockSize) && p in prompts && q in prompts
    requires i < FullBlocks(p, blockSize) && j < FullBlocks(q, blockSize)
    requires ChainHash(h, p, blockSize, i) == ChainHash(h, q, blockSize, j)
    ensures BlockInput(h, p, blockSize, i) == BlockInput(h, q, blockSize, j)
  {
    assert DigestSeparates(h, p, i, q, j, blockSize);
    EncodeInjective(h.algo, BlockInput(h, p, blockSize, i), BlockInput(h, q, blockSize, j));
  }

  lemma BlockInputParts(h: Hasher, blockSize: nat, p: Prompt, i: nat, q: Prompt, j: nat)
    requires blockSize > 0 && i < FullBlocks(p, blockSize) && j < FullBlocks(q, blockSize)
    requires BlockInput(h, p, blockSize, i) == BlockInput(h, q, blockSize, j)
    ensures ParentHash(h, p, blockSize, i) == ParentHash(h, q, blockSize, j)
    ensures p.salt == q.salt && BlockTokens(p, blockSize, i) == BlockTokens(q, blockSize, j)
  {
  }

  /** Only a first block has the parent 0. */
  lemma ZeroParent(h: Hasher, prompts: set<Prompt>, blockSize: nat, p: Prompt, i: nat)
    requires blockSize > 0 && CollisionFree(h, prompts, blockSize) && p in prompts && i < FullBlocks(p, blockSize)
    ensures ParentHash(h, p, blockSize, i) == 0 <==> i == 0
    ensures i > 0 ==> ParentHash(h, p, blockSize, i) == ChainHash(h, p, blockSize, i - 1)
  {
    if i > 0 {
      assert ChainHash(h, p, blockSize, i - 1) != 0;
    }
  }

  lemma SamePrefixStep(p: Prompt, q: Prompt, blockSize: nat, i: nat)
    requires blockSize > 0 && i < FullBlocks(p, blockSize) && i < FullBlocks(q, blockSize)
    ensures SamePrefix(p, q, blockSize, i) <==>
      BlockTokens(p, blockSize, i) == BlockTokens(q, blockSize, i) && (i == 0 || SamePrefix(p, q, blockSize, i - 1))
  {
    BlockInPrompt(|p.tokens|, blockSize, i);
    BlockInPrompt(|q.tokens|, blockSize, i);
    var a, b := i * blockSize, (i + 1) * blockSize;
    assert p.tokens[..b] == p.tokens[..a] + p.tokens[a..b];
    assert q.tokens[..b] == q.tokens[..a] + q.tokens[a..b];
    assert p.tokens[..b][..a] == p.tokens[..a] && q.tokens[..b][..a] == q.tokens[..a];
    assert p.tokens[..b][a..] == p.tokens[a..b] && q.tokens[..b][a..] == q.tokens[a..b];
  }

  lemma {:induction false} ChainDeterministic(h: Hasher, blockSize: nat, p: Prompt, q: Prompt, i: nat)
    requires blockSize > 0 && i < FullBlocks(p, blockSize) && i < FullBlocks(q, blockSize)
    requires p.salt == q.salt && SamePrefix(p, q, blockSize, i)
    ensures ChainHash(h, p, blockSize, i) == ChainHash(h, q, blockSize, i)
  {
    SamePrefixStep(p, q, blockSize, i);
    if i > 0 {
      ChainDeterministic(h, blockSize, p, q, i - 1);
    }
    assert BlockInput(h, p, blockSize, i) == BlockInput(h, q, blockSize, i);
  }

  lemma {:induction false} ChainSound(
    h: Hasher, prompts: set<Prompt>, blockSize: nat, p: Prompt, i: nat, q: Prompt, j: nat)
    requires blockSize > 0 && CollisionFree(h, prompts, blockSize) && p in prompts && q in prompts
    requires i < FullBlocks(p, blockSize) && j < FullBlocks(q, blockSize)
    requires ChainHash(h, p, blockSize, i) == ChainHash(h, q, blockSize, j)
    ensures i == j && p.salt == q.salt && SamePrefix(p, q, blockSize, i)
  {
    EqualBlockInputs(h, prompts, blockSize, p, i, q, j);
    BlockInputParts(h, blockSize, p, i, q, j);
    ZeroParent(h, prompts, blockSize, p, i);
    ZeroParent(h, prompts, blockSize, q, j);
    if i == 0 {
      SamePrefixStep(p, q, blockSize, 0);
    } else {
      ChainSound(h, prompts, blockSize, p, i - 1, q, j - 1);
      SamePrefixStep(p, q, blockSize, i);
    }
  }

  /** Hash i of one prompt is hash j of another exactly for the same position, salt and leading tokens. */
  lemma ChainIdentifiesPrefix(
    h: Hasher, prompts: set<Prompt>, blockSize: nat, p: Prompt, i: nat, q: Prompt, j: nat)
    requires blockSize > 0 && CollisionFree(h, prompts, blockSize) && p in prompts && q in prompts
    requires i < FullBlocks(p, blockSize) && j < FullBlocks(q, blockSize)
    ensures ChainHash(h, p, blockSize, i) == ChainHash(h, q, blockSize, j) <==>
      i == j && p.salt == q.salt && SamePrefix(p, q, blockSize, i)
  {
    if ChainHash(h, p, blockSize, i) == ChainHash(h, q, blockSize, j) {
      ChainSound(h, prompts, blockSize, p, i, q, j);
    } else if i == j && p.salt == q.salt && SamePrefix(p, q, blockSize, i) {
      ChainDeterministic(h, blockSize, p, q, i);
    }
  }
}
