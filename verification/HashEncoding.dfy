/**
 The bytes fed to the digest of a block: 8-byte big-endian parent hash, 4-byte little-endian
 tokens, then length-prefixed fields (the salt if present, then each extra key and its value).
 */
module HashEncoding {
  import opened Wrappers
  import opened CacheTypes

  type Bytes = seq<Byte>

  datatype HashAlgorithm = Sha256Cbor | XxHash

  datatype BlockHashInput = BlockHashInput(
    parentHash: BlockHash,
    tokenIds: seq<Token>,
    cacheSalt: Option<Bytes>,
    extraKeys: seq<(Bytes, Bytes)>)

  // ---------- fixed-width integers ----------

  function Pow256(width: nat): (r: nat)
    ensures r > 0
  {
    if width == 0 then 1 else 256 * Pow256(width - 1)
  }

  lemma Pow256Values()
    ensures Pow256(4) == 0x1_0000_0000
    ensures Pow256(8) == 0x1_0000_0000_0000_0000
  {
    assert Pow256(3) == 0x100_0000;
    assert Pow256(6) == 0x1_0000_0000_0000;
  }

  function LittleEndian(n: nat, width: nat): (r: Bytes)
    ensures |r| == width
  {
    if width == 0 then [] else [n % 256] + LittleEndian(n / 256, width - 1)
  }

  function BigEndian(n: nat, width: nat): (r: Bytes)
    ensures |r| == width
  {
    if width == 0 then [] else BigEndian(n / 256, width - 1) + [n % 256]
  }

  lemma {:induction false} LittleEndianInjective(m: nat, n: nat, width: nat)
    requires m < Pow256(width) && n < Pow256(width)
    requires LittleEndian(m, width) == LittleEndian(n, width)
    ensures m == n
  {
    if width > 0 {
      assert LittleEndian(m, width)[1..] == LittleEndian(m / 256, width - 1);
      assert LittleEndian(n, width)[1..] == LittleEndian(n / 256, width - 1);
      LittleEndianInjective(m / 256, n / 256, width - 1);
      assert m % 256 == LittleEndian(m, width)[0] == LittleEndian(n, width)[0] == n % 256;
    }
  }

  lemma {:induction false} BigEndianInjective(m: nat, n: nat, width: nat)
    requires m < Pow256(width) && n < Pow256(width)
    requires BigEndian(m, width) == BigEndian(n, width)
    ensures m == n
  {
    if width > 0 {
      assert BigEndian(m, width)[..width - 1] == BigEndian(m / 256, width - 1);
      assert BigEndian(n, width)[..width - 1] == BigEndian(n / 256, width - 1);
      BigEndianInjective(m / 256, n / 256, width - 1);
      assert m % 256 == BigEndian(m, width)[width - 1] == BigEndian(n, width)[width - 1] == n % 256;
    }
  }

  // ---------- the encoding ----------

  function TokenBytes(tokens: seq<Token>): (r: Bytes)
    ensures |r| == 4 * |tokens|
  {
    if tokens == [] then [] else LittleEndian(tokens[0], 4) + TokenBytes(tokens[1..])
  }

  /** The two digests prefix a length in opposite byte orders. */
  function LengthPrefix(algo: HashAlgorithm, n: nat): (r: Bytes)
    ensures |r| == 8
  {
    match algo
    case Sha256Cbor => LittleEndian(n, 8)
    case XxHash => BigEndian(n, 8)
  }

  function Framed(algo: HashAlgorithm, field: Bytes): Bytes {
    LengthPrefix(algo, |field|) + field
  }

  function FieldBytes(algo: HashAlgorithm, fields: seq<Bytes>): Bytes {
    if fields == [] then [] else Framed(algo, fields[0]) + FieldBytes(algo, fields[1..])
  }

  function SaltFields(salt: Option<Bytes>): seq<Bytes> {
    match salt
    case Some(s) => [s]
    case None => []
  }

  function KeyFields(keys: seq<(Bytes, Bytes)>): (r: seq<Bytes>)
    ensures |r| == 2 * |keys|
  {
    if keys == [] then [] else [keys[0].0, keys[0].1] + KeyFields(keys[1..])
  }

  function Encode(algo: HashAlgorithm, input: BlockHashInput): Bytes {
    BigEndian(input.parentHash, 8) + TokenBytes(input.tokenIds)
    + FieldBytes(algo, SaltFields(input.cacheSalt) + KeyFields(input.extraKeys))
  }

  /** Lengths that fit the 8-byte prefix, as every in-memory length does. */
  ghost predicate Sized(fields: seq<Bytes>) {
    forall i :: 0 <= i < |fields| ==> |fields[i]| < Pow256(8)
  }

  ghost predicate SizedInput(input: BlockHashInput) {
    Sized(SaltFields(input.cacheSalt) + KeyFields(input.extraKeys))
  }

  // ---------- unique decoding ----------

  lemma {:induction false} TokenBytesInjective(s: seq<Token>, t: seq<Token>)
    requires |s| == |t| && TokenBytes(s) == TokenBytes(t)
    ensures s == t
  {
    if s != [] {
      Pow256Values();
      assert TokenBytes(s)[..4] == LittleEndian(s[0], 4) && TokenBytes(s)[4..] == TokenBytes(s[1..]);
      assert TokenBytes(t)[..4] == LittleEndian(t[0], 4) && TokenBytes(t)[4..] == TokenBytes(t[1..]);
      LittleEndianInjective(s[0], t[0], 4);
      TokenBytesInjective(s[1..], t[1..]);
    }
  }

  lemma LengthPrefixInjective(algo: HashAlgorithm, m: nat, n: nat)
    requires m < Pow256(8) && n < Pow256(8)
    requires LengthPrefix(algo, m) == LengthPrefix(algo, n)
    ensures m == n
  {
    match algo
    case Sha256Cbor => LittleEndianInjective(m, n, 8);
    case XxHash => BigEndianInjective(m, n, 8);
  }

  lemma FieldBytesSplit(algo: HashAlgorithm, fields: seq<Bytes>)
    requires fields != []
    ensures var n := |fields[0]|;
      var bytes := FieldBytes(algo, fields);
      && |bytes| >= 8 + n
      && bytes[..8] == LengthPrefix(algo, n)
      && bytes[8..8 + n] == fields[0]
      && bytes[8 + n..] == FieldBytes(algo, fields[1..])
  {
  }

  /** Length-prefixed fields can be cut apart again in only one way. */
  lemma {:induction false} FieldBytesInjective(algo: HashAlgorithm, f: seq<Bytes>, g: seq<Bytes>)
    requires Sized(f) && Sized(g)
    requires FieldBytes(algo, f) == FieldBytes(algo, g)
    ensures f == g
  {
    if f == [] || g == [] {
      if f != [] { FieldBytesSplit(algo, f); }
      if g != [] { FieldBytesSplit(algo, g); }
    } else {
      FieldBytesSplit(algo, f);
      FieldBytesSplit(algo, g);
      LengthPrefixInjective(algo, |f[0]|, |g[0]|);
      FieldBytesInjective(algo, f[1..], g[1..]);
      assert f == [f[0]] + f[1..] && g == [g[0]] + g[1..];
    }
  }

  lemma {:induction false} KeyFieldsInjective(k: seq<(Bytes, Bytes)>, l: seq<(Bytes, Bytes)>)
    requires KeyFields(k) == KeyFields(l)
    ensures k == l
  {
    if k != [] && l != [] {
      assert KeyFields(k)[0] == k[0].0 && KeyFields(k)[1] == k[0].1 && KeyFields(k)[2..] == KeyFields(k[1..]);
      assert KeyFields(l)[0] == l[0].0 && KeyFields(l)[1] == l[0].1 && KeyFields(l)[2..] == KeyFields(l[1..]);
      KeyFieldsInjective(k[1..], l[1..]);
      assert k == [k[0]] + k[1..] && l == [l[0]] + l[1..];
    }
  }

  /** The number of fields is odd exactly when a salt is present. */
  lemma SaltAndKeysInjective(s: Option<Bytes>, k: seq<(Bytes, Bytes)>, t: Option<Bytes>, l: seq<(Bytes, Bytes)>)
    requires SaltFields(s) + KeyFields(k) == SaltFields(t) + KeyFields(l)
    ensures s == t && k == l
  {
    assert |SaltFields(s) + KeyFields(k)| % 2 == |SaltFields(s)|;
    assert |SaltFields(t) + KeyFields(l)| % 2 == |SaltFields(t)|;
    var n := |SaltFields(s)|;
    assert (SaltFields(s) + KeyFields(k))[n..] == KeyFields(k);
    assert (SaltFields(t) + KeyFields(l))[n..] == KeyFields(l);
    KeyFieldsInjective(k, l);
    if n == 1 {
      assert (SaltFields(s) + KeyFields(k))[0] == s.value;
      assert (SaltFields(t) + KeyFields(l))[0] == t.value;
    }
  }

  /** Blocks with the same number of tokens have the same bytes only if they are the same input. */
  lemma EncodeInjective(algo: HashAlgorithm, a: BlockHashInput, b: BlockHashInput)
    requires |a.tokenIds| == |b.tokenIds| && SizedInput(a) && SizedInput(b)
    ensures Encode(algo, a) == Encode(algo, b) <==> a == b
  {
    if Encode(algo, a) == Encode(algo, b) {
      var x, y := Encode(algo, a), Encode(algo, b);
      var n := 8 + 4 * |a.tokenIds|;
      Pow256Values();
      assert x[..8] == BigEndian(a.parentHash, 8) && y[..8] == BigEndian(b.parentHash, 8);
      BigEndianInjective(a.parentHash, b.parentHash, 8);
      assert x[8..n] == TokenBytes(a.tokenIds) && y[8..n] == TokenBytes(b.tokenIds);
      TokenBytesInjective(a.tokenIds, b.tokenIds);
      assert x[n..] == FieldBytes(algo, SaltFields(a.cacheSalt) + KeyFields(a.extraKeys));
      assert y[n..] == FieldBytes(algo, SaltFields(b.cacheSalt) + KeyFields(b.extraKeys));
      FieldBytesInjective(algo,
        SaltFields(a.cacheSalt) + KeyFields(a.extraKeys), SaltFields(b.cacheSalt) + KeyFields(b.extraKeys));
      SaltAndKeysInjective(a.cacheSalt, a.extraKeys, b.cacheSalt, b.extraKeys);
    }
  }

  // ---------- what the bytes read back as ----------

  /** The number that the bytes spell, most significant byte first. */
  function ReadBig(bytes: Bytes): nat {
    if bytes == [] then 0 else 256 * ReadBig(bytes[..|bytes| - 1]) + bytes[|bytes| - 1]
  }

  /** The number that the bytes spell, least significant byte first. */
  function ReadLittle(bytes: Bytes): nat {
    if bytes == [] then 0 else bytes[0] + 256 * ReadLittle(bytes[1..])
  }

  lemma {:induction false} BigReadsBack(n: nat, width: nat)
    requires n < Pow256(width)
    ensures ReadBig(BigEndian(n, width)) == n
  {
    if width > 0 {
      BigReadsBack(n / 256, width - 1);
      assert BigEndian(n, width)[..width - 1] == BigEndian(n / 256, width - 1);
    }
  }

  lemma {:induction false} LittleReadsBack(n: nat, width: nat)
    requires n < Pow256(width)
    ensures ReadLittle(LittleEndian(n, width)) == n
  {
    if width > 0 {
      LittleReadsBack(n / 256, width - 1);
      assert LittleEndian(n, width)[1..] == LittleEndian(n / 256, width - 1);
    }
  }

  /** SHA-256 input has its lengths in little-endian order, xxh3 input in big-endian order. */
  function ReadLength(algo: HashAlgorithm, bytes: Bytes): nat {
    match algo
    case Sha256Cbor => ReadLittle(bytes)
    case XxHash => ReadBig(bytes)
  }

  /** The bytes are the fields one after another, each behind its length in 8 bytes. */
  predicate SpellsFields(algo: HashAlgorithm, bytes: Bytes, fields: seq<Bytes>)
    decreases fields
  {
    if fields == [] then bytes == []
    else
      var n := |fields[0]|;
      && |bytes| >= 8 + n && ReadLength(algo, bytes[..8]) == n && bytes[8..8 + n] == fields[0]
      && SpellsFields(algo, bytes[8 + n..], fields[1..])
  }

  lemma {:induction false} FieldsReadBack(algo: HashAlgorithm, fields: seq<Bytes>)
    requires Sized(fields)
    ensures SpellsFields(algo, FieldBytes(algo, fields), fields)
  {
    if fields != [] {
      FieldBytesSplit(algo, fields);
      LittleReadsBack(|fields[0]|, 8);
      BigReadsBack(|fields[0]|, 8);
      FieldsReadBack(algo, fields[1..]);
    }
  }

  /** Every token is spelled in its four bytes, least significant first. */
  predicate SpellsTokens(bytes: Bytes, tokens: seq<Token>) {
    |bytes| == 4 * |tokens|
    && forall i :: 0 <= i < |tokens| ==> ReadLittle(bytes[4 * i..4 * i + 4]) == tokens[i]
  }

  lemma {:induction false} TokensReadBack(tokens: seq<Token>)
    ensures SpellsTokens(TokenBytes(tokens), tokens)
  {
    if tokens != [] {
      var bytes, rest := TokenBytes(tokens), TokenBytes(tokens[1..]);
      Pow256Values();
      LittleReadsBack(tokens[0], 4);
      TokensReadBack(tokens[1..]);
      forall i | 0 <= i < |tokens|
        ensures ReadLittle(bytes[4 * i..4 * i + 4]) == tokens[i]
      {
        if i == 0 {
          assert bytes[0..4] == LittleEndian(tokens[0], 4);
        } else {
          assert bytes[4 * i..4 * i + 4] == rest[4 * (i - 1)..4 * (i - 1) + 4];
        }
      }
    }
  }

  /** The fields after the tokens: the salt if there is one, then each extra key and its value. */
  ghost predicate AreFields(fields: seq<Bytes>, salt: Option<Bytes>, keys: seq<(Bytes, Bytes)>) {
    var n := if salt.Some? then 1 else 0;
    && |fields| == n + 2 * |keys|
    && (salt.Some? ==> fields[0] == salt.value)
    && forall i :: 0 <= i < |keys| ==> fields[n + 2 * i] == keys[i].0 && fields[n + 2 * i + 1] == keys[i].1
  }

  lemma {:induction false} KeyFieldsAt(keys: seq<(Bytes, Bytes)>, i: nat)
    requires i < |keys|
    ensures KeyFields(keys)[2 * i] == keys[i].0 && KeyFields(keys)[2 * i + 1] == keys[i].1
  {
    if i > 0 {
      KeyFieldsAt(keys[1..], i - 1);
      assert KeyFields(keys)[2..] == KeyFields(keys[1..]);
    }
  }

  lemma FieldsOfInput(salt: Option<Bytes>, keys: seq<(Bytes, Bytes)>)
    ensures AreFields(SaltFields(salt) + KeyFields(keys), salt, keys)
  {
    forall i | 0 <= i < |keys|
      ensures KeyFields(keys)[2 * i] == keys[i].0 && KeyFields(keys)[2 * i + 1] == keys[i].1
    {
      KeyFieldsAt(keys, i);
    }
  }

  /** What the bytes say: the parent in 8 bytes, big-endian, then the tokens, then the fields. */
  ghost predicate SpellsInput(algo: HashAlgorithm, bytes: Bytes, input: BlockHashInput, fields: seq<Bytes>) {
    var n := 8 + 4 * |input.tokenIds|;
    && |bytes| >= n
    && ReadBig(bytes[..8]) == input.parentHash
    && SpellsTokens(bytes[8..n], input.tokenIds)
    && SpellsFields(algo, bytes[n..], fields)
    && AreFields(fields, input.cacheSalt, input.extraKeys)
  }

  lemma EncodeReadsBack(algo: HashAlgorithm, input: BlockHashInput) returns (fields: seq<Bytes>)
    requires SizedInput(input)
    ensures SpellsInput(algo, Encode(algo, input), input, fields)
  {
    fields := SaltFields(input.cacheSalt) + KeyFields(input.extraKeys);
    var bytes, n := Encode(algo, input), 8 + 4 * |input.tokenIds|;
    Pow256Values();
    BigReadsBack(input.parentHash, 8);
    TokensReadBack(input.tokenIds);
    FieldsReadBack(algo, fields);
    FieldsOfInput(input.cacheSalt, input.extraKeys);
    assert bytes[..8] == BigEndian(input.parentHash, 8);
    assert bytes[8..n] == TokenBytes(input.tokenIds);
    assert bytes[n..] == FieldBytes(algo, fields);
  }

  function Zeros(n: nat): (r: Bytes)
    ensures |r| == n && forall i :: 0 <= i < n ==> r[i] == 0
  {
    if n == 0 then [] else [0] + Zeros(n - 1)
  }

  lemma {:induction false} ZeroBytes(width: nat)
    ensures LittleEndian(0, width) == Zeros(width) == BigEndian(0, width)
  {
    if width > 0 {
      ZeroBytes(width - 1);
    }
  }

  lemma TwoZeroTokens()
    ensures TokenBytes([0, 0]) == Zeros(8)
  {
    ZeroBytes(4);
    var one: seq<Token>, two: seq<Token> := [0], [0, 0];
    assert two[1..] == one && one[1..] == [];
    assert TokenBytes(one) == LittleEndian(0, 4) + TokenBytes([]);
  }

  lemma EmptySalt(algo: HashAlgorithm)
    ensures FieldBytes(algo, [[]]) == Zeros(8)
  {
    ZeroBytes(8);
    var empty: seq<Bytes> := [[]];
    assert empty[1..] == [];
    assert FieldBytes(algo, empty) == Framed(algo, []) + FieldBytes(algo, []);
  }

  /** Without the equal token count it fails: two zero tokens read like an empty salt. */
  lemma EncodeAmbiguousAcrossTokenCounts(algo: HashAlgorithm, parent: BlockHash)
    ensures Encode(algo, BlockHashInput(parent, [0, 0], None, []))
         == Encode(algo, BlockHashInput(parent, [], Some([]), []))
  {
    TwoZeroTokens();
    EmptySalt(algo);
    assert SaltFields(Some([])) + KeyFields([]) == [[]];
    assert SaltFields(None) + KeyFields([]) == [];
    assert FieldBytes(algo, []) == [] && TokenBytes([]) == [];
    assert BigEndian(parent, 8) + Zeros(8) + [] == BigEndian(parent, 8) + [] + Zeros(8);
  }
}
