/**
 Eight 4-bit codes to a 32-bit word, and the decoder that takes them out again: the packer ORs shifted
 codes and reinterprets the word as signed, the decoder works on floats with division and floor.
 */
module GptqPacking {
  import opened Wrappers
  import opened Grids
  import opened RealSums

  const PACK_FACTOR: nat := 8

  type Code = q: int | 0 <= q < 16

  type Byte = b: int | 0 <= b < 256

  // ---------- bits ----------

  function Pow2(k: nat): (r: nat)
    ensures r > 0
  {
    if k == 0 then 1 else 2 * Pow2(k - 1)
  }

  /** Bitwise or. */
  function Or(a: nat, b: nat): nat {
    if a == 0 then b
    else if b == 0 then a
    else 2 * Or(a / 2, b / 2) + (if a % 2 == 1 || b % 2 == 1 then 1 else 0)
  }

  /** A left shift of an unsigned 32-bit word. */
  function ShiftLeft(x: nat, k: nat): nat {
    x * Pow2(k) % 0x1_0000_0000
  }

  /** Bits below position k and bits from position k on do not meet. */
  lemma {:induction false} OrDisjoint(a: nat, x: nat, k: nat)
    requires a < Pow2(k)
    ensures Or(a, x * Pow2(k)) == a + x * Pow2(k)
  {
    if k > 0 && a > 0 && x > 0 {
      assert x * Pow2(k) == 2 * (x * Pow2(k - 1));
      OrDisjoint(a / 2, x, k - 1);
    }
  }

  /** Reinterprets an unsigned word as signed. */
  function AsSigned(u: nat): int {
    if u >= 0x8000_0000 then u - 0x1_0000_0000 else u
  }

  // ---------- one word ----------

  /** The word whose nibble i is codes[i]. */
  function Word(codes: seq<Code>): nat {
    if codes == [] then 0 else codes[0] + 16 * Word(codes[1..])
  }

  function Pow16(k: nat): (r: nat)
    ensures r > 0
  {
    if k == 0 then 1 else 16 * Pow16(k - 1)
  }

  lemma {:induction false} PowsAgree(k: nat)
    ensures Pow2(4 * k) == Pow16(k)
  {
    if k > 0 {
      PowsAgree(k - 1);
      assert Pow2(4 * k) == 2 * Pow2(4 * k - 1) == 4 * Pow2(4 * k - 2) == 8 * Pow2(4 * k - 3);
    }
  }

  lemma {:induction false} WordBound(codes: seq<Code>)
    ensures Word(codes) < Pow16(|codes|)
  {
    if codes != [] {
      WordBound(codes[1..]);
    }
  }

  lemma {:induction false} WordSnoc(codes: seq<Code>, q: Code)
    ensures Word(codes + [q]) == Word(codes) + q * Pow16(|codes|)
  {
    if codes == [] {
      assert codes + [q] == [q] && [q][1..] == [];
    } else {
      WordSnoc(codes[1..], q);
      assert (codes + [q])[1..] == codes[1..] + [q];
      assert 16 * (q * Pow16(|codes| - 1)) == q * Pow16(|codes|);
    }
  }

  /** Eight nibbles fill 32 bits. */
  lemma {:induction false} Pow16Bound(k: nat)
    requires k <= 8
    ensures k < 8 ==> 16 * Pow16(k) <= 0x1_0000_0000
    ensures Pow16(8) == 0x1_0000_0000
    decreases 8 - k
  {
    assert Pow16(4) == 0x1_0000;
    assert Pow16(8) == 0x1_0000 * Pow16(4);
    if k < 7 {
      Pow16Bound(k + 1);
    } else if k == 7 {
      assert Pow16(8) == 16 * Pow16(7);
    }
  }

  lemma BelowModulus(x: nat, m: nat)
    requires x < m
    ensures x % m == x
  {
  }

  lemma NibbleFits(q: Code, p: nat)
    requires 16 * p <= 0x1_0000_0000
    ensures q * p % 0x1_0000_0000 == q * p
  {
    MulMonotone(0, q, p);
    MulMonotone(q, 15, p);
    if p > 0 {
      BelowModulus(q * p, 0x1_0000_0000);
    }
  }

  /** One more nibble ORed in above the ones already there. */
  lemma OrNibble(codes: seq<Code>, q: Code)
    requires |codes| < 8
    ensures Or(Word(codes), ShiftLeft(q, 4 * |codes|)) == Word(codes + [q])
  {
    PowsAgree(|codes|);
    Pow16Bound(|codes|);
    NibbleFits(q, Pow16(|codes|));
    WordBound(codes);
    OrDisjoint(Word(codes), q, 4 * |codes|);
    WordSnoc(codes, q);
  }

  type Codes = nat -> Byte

  /** The low four bits of the first `count` codes. */
  function Take(codes: Codes, count: nat): (r: seq<Code>)
    ensures |r| == count && forall k :: 0 <= k < count ==> r[k] == codes(k) % 16
  {
    seq(count, k requires 0 <= k < count => codes(k) % 16)
  }

  /** The first `count` codes have four bits. */
  ghost predicate FourBits(codes: Codes, count: nat) {
    forall k: nat :: k < count ==> codes(k) < 16
  }

  lemma TakeNext(codes: Codes, nibble: nat)
    requires FourBits(codes, nibble + 1)
    ensures codes(nibble) < 16 && FourBits(codes, nibble)
    ensures Take(codes, nibble + 1) == Take(codes, nibble) + [codes(nibble)]
  {
    assert codes(nibble) < 16;
  }

  lemma OrCode(codes: Codes, nibble: nat, acc: nat)
    requires nibble < PACK_FACTOR && (FourBits(codes, nibble) ==> acc == Word(Take(codes, nibble)))
    ensures FourBits(codes, nibble + 1) ==>
      Or(acc, ShiftLeft(codes(nibble), 4 * nibble)) == Word(Take(codes, nibble + 1))
  {
    if FourBits(codes, nibble + 1) {
      TakeNext(codes, nibble);
      OrNibble(Take(codes, nibble), codes(nibble));
    }
  }

  lemma CodeComesBack(codes: Codes, taken: seq<Code>, word: int, k: nat)
    requires FourBits(codes, PACK_FACTOR) && taken == Take(codes, PACK_FACTOR) && word == AsSigned(Word(taken))
    requires k < PACK_FACTOR
    ensures Nibble(word, k) == codes(k)
  {
    assert codes(k) < 16;
    assert taken[k] == codes(k);
    NibbleOfWord(taken, k);
  }

  lemma CodesComeBack(codes: Codes, word: int)
    requires FourBits(codes, PACK_FACTOR) && word == AsSigned(Word(Take(codes, PACK_FACTOR)))
    ensures forall k: nat :: k < PACK_FACTOR ==> Nibble(word, k) == codes(k)
  {
    forall k: nat | k < PACK_FACTOR
      ensures Nibble(word, k) == codes(k)
    {
      CodeComesBack(codes, Take(codes, PACK_FACTOR), word, k);
    }
  }

  /** Ors in eight codes, each four bits further up; eight codes of four bits all come back. */
  method PackWord(codes: Codes) returns (word: int)
    ensures FourBits(codes, PACK_FACTOR) ==> word == AsSigned(Word(Take(codes, PACK_FACTOR)))
    ensures FourBits(codes, PACK_FACTOR) ==> forall k: nat :: k < PACK_FACTOR ==> Nibble(word, k) == codes(k)
  {
    var acc := 0;
    for nibble := 0 to PACK_FACTOR
      invariant FourBits(codes, nibble) ==> acc == Word(Take(codes, nibble))
    {
      OrCode(codes, nibble, acc);
      acc := Or(acc, ShiftLeft(codes(nibble), 4 * nibble));
    }
    word := AsSigned(acc);
    if FourBits(codes, PACK_FACTOR) {
      CodesComeBack(codes, word);
    }
  }

  // ---------- the decoder ----------

  /** Nibble i of a signed word, as the decoder computes it: sign fix, divide, floor, and subtract the part above. */
  function Nibble(word: int, i: nat): int {
    var u := if word < 0 then word as real + 4294967296.0 else word as real;
    var shifted := (u / (Pow16(i) as real)).Floor;
    shifted - (shifted as real / 16.0).Floor * 16
  }

  lemma FloorBetween(x: real, q: int)
    requires q as real <= x < q as real + 1.0
    ensures x.Floor == q
  {
  }

  /** The remainder, as a fraction of the divisor. */
  lemma Fraction(x: real, q: real, d: real, rest: real)
    requires d > 0.0 && x * d == q * d + rest && 0.0 <= rest < d
    ensures q <= x < q + 1.0
  {
    CancelScale(q, x, d);
    Distribute(q, 1.0, d);
    CancelScaleStrictly(x, q + 1.0, d);
  }

  lemma ProductAsReal(q: int, d: int)
    ensures (q * d) as real == (q as real) * (d as real)
  {
  }

  /** Flooring a quotient of integers is integer division. */
  lemma FloorIsDivision(u: int, d: nat)
    requires d > 0
    ensures (u as real / d as real).Floor == u / d
  {
    var q, rest := u / d, u % d;
    ProductAsReal(q, d);
    assert u as real == (q * d) as real + rest as real;
    Quotient(u as real, d as real);
    Fraction(u as real / d as real, q as real, d as real, rest as real);
    FloorBetween(u as real / d as real, q);
  }

  lemma DivideTwice(u: nat, d: nat)
    requires d > 0
    ensures u / (16 * d) == u / 16 / d
  {
    var q, rest := u / 16 / d, u / 16 % d;
    assert u / 16 == q * d + rest;
    assert q * (16 * d) == 16 * (q * d);
    QuotientUnique(u, 16 * d, q, 16 * rest + u % 16);
  }

  lemma {:induction false} WordNibble(codes: seq<Code>, i: nat)
    requires i < |codes|
    ensures Word(codes) / Pow16(i) % 16 == codes[i]
  {
    if i > 0 {
      DivideTwice(Word(codes), Pow16(i - 1));
      WordNibble(codes[1..], i - 1);
      assert Word(codes) / 16 == Word(codes[1..]);
    }
  }

  /** On an unsigned word the decoder's floats compute what integer division and remainder do. */
  lemma NibbleIsRemainder(u: nat, i: nat)
    requires u < 0x1_0000_0000
    ensures Nibble(AsSigned(u), i) == u / Pow16(i) % 16
  {
    assert AsSigned(u) < 0 ==> AsSigned(u) as real + 4294967296.0 == u as real;
    FloorIsDivision(u, Pow16(i));
    FloorIsDivision(u / Pow16(i), 16);
  }

  /** Bits 4 i .. 4 i + 3 of a word in two's complement. */
  function Bits(word: int, i: nat): int {
    (if word < 0 then word + 0x1_0000_0000 else word) / Pow16(i) % 16
  }

  /** Whatever the word, that is what the decoder's floats take out of it. */
  lemma NibbleIsBits(word: int, i: nat)
    ensures Nibble(word, i) == Bits(word, i)
  {
    var u := if word < 0 then word + 0x1_0000_0000 else word;
    assert word < 0 ==> word as real + 4294967296.0 == u as real;
    FloorIsDivision(u, Pow16(i));
    FloorIsDivision(u / Pow16(i), 16);
  }

  /** Every nibble of a packed word is the code that went in. */
  lemma NibbleOfWord(codes: seq<Code>, i: nat)
    requires |codes| == PACK_FACTOR && i < PACK_FACTOR
    ensures Nibble(AsSigned(Word(codes)), i) == codes[i]
  {
    WordBound(codes);
    Pow16Bound(8);
    NibbleIsRemainder(Word(codes), i);
    WordNibble(codes, i);
  }

  /** Whatever the word, a nibble has four bits. */
  lemma NibbleRange(word: int, i: nat)
    ensures 0 <= Nibble(word, i) < 16
  {
  }

  // ---------- codes, packed down the input side ----------

  /** The code of input i and output c. */
  function UnpackedCode(packed: seq<int>, outFeatures: nat, i: nat, c: nat): int {
    Nibble(Cell(packed, outFeatures, i / PACK_FACTOR, c, 0), i % PACK_FACTOR)
  }

  function CodeAt(q: seq<Code>, outFeatures: nat, i: int, c: int): Code {
    Cell<Code>(q, outFeatures, i, c, 0)
  }

  /** The eight codes of one word. */
  function WordCodes(q: seq<Code>, outFeatures: nat, row: nat, col: nat): Codes {
    k => CodeAt(q, outFeatures, PACK_FACTOR * row + k, col) as Byte
  }

  lemma CodesFit(q: seq<Code>, outFeatures: nat, row: nat, col: nat)
    ensures FourBits(WordCodes(q, outFeatures, row, col), PACK_FACTOR)
  {
    forall k: nat | k < PACK_FACTOR
      ensures WordCodes(q, outFeatures, row, col)(k) < 16
    {
      var code: Code := CodeAt(q, outFeatures, PACK_FACTOR * row + k, col);
    }
  }

  ghost predicate CodesPacked(q: seq<Code>, packed: seq<int>, cols: nat, r: nat, c: nat) {
    forall k: nat :: k < PACK_FACTOR ==> Nibble(Cell(packed, cols, r, c, 0), k) == WordCodes(q, cols, r, c)(k)
  }

  /** Words before (row, col) hold their eight codes. */
  ghost predicate PackedUpTo(q: seq<Code>, packed: seq<int>, rows: nat, cols: nat, row: nat, col: nat) {
    forall r: nat, c: nat | r < rows && c < cols && (r < row || (r == row && c < col)) ::
      CodesPacked(q, packed, cols, r, c)
  }

  lemma CodeWordStored(q: seq<Code>, before: seq<int>, after: seq<int>, rows: nat, cols: nat, row: nat, col: nat,
                       word: int)
    requires row < rows && col < cols && PackedUpTo(q, before, rows, cols, row, col)
    requires PutCell(before, after, rows, cols, row, col, word, 0)
    requires forall k: nat :: k < PACK_FACTOR ==> Nibble(word, k) == WordCodes(q, cols, row, col)(k)
    ensures PackedUpTo(q, after, rows, cols, row, col + 1)
    ensures col + 1 == cols ==> PackedUpTo(q, after, rows, cols, row + 1, 0)
  {
    forall r: nat, c: nat | r < rows && c < cols && (r < row || (r == row && c < col + 1))
      ensures CodesPacked(q, after, cols, r, c)
    {
      assert (r, c) != (row, col) ==> CodesPacked(q, before, cols, r, c);
    }
  }

  lemma CodeUnpacked(q: seq<Code>, packed: seq<int>, cols: nat, i: nat, c: nat)
    requires CodesPacked(q, packed, cols, i / PACK_FACTOR, c)
    ensures UnpackedCode(packed, cols, i, c) == CodeAt(q, cols, i, c)
  {
    var row, k: nat := i / PACK_FACTOR, i % PACK_FACTOR;
    assert WordCodes(q, cols, row, c)(k) == CodeAt(q, cols, PACK_FACTOR * row + k, c);
  }

  /** Row i of the codes is in row i / 8 of the words, in bits 4 (i % 8) and the three above. */
  ghost predicate CodeInWord(q: seq<Code>, packed: seq<int>, outFeatures: nat, i: nat, c: nat) {
    var word, code := i / 8 * outFeatures + c, i * outFeatures + c;
    && 0 <= word < |packed| && 0 <= code < |q|
    && Bits(packed[word], i % 8) == q[code]
  }

  lemma UnpackedInWord(q: seq<Code>, packed: seq<int>, packedRows: nat, inFeatures: nat, outFeatures: nat,
                       i: nat, c: nat)
    requires |packed| == packedRows * outFeatures && |q| == inFeatures * outFeatures
    requires i < packedRows * PACK_FACTOR <= inFeatures && c < outFeatures
    requires UnpackedCode(packed, outFeatures, i, c) == CodeAt(q, outFeatures, i, c)
    ensures CodeInWord(q, packed, outFeatures, i, c)
  {
    InGrid(packedRows, outFeatures, i / PACK_FACTOR, c);
    InGrid(inFeatures, outFeatures, i, c);
    NibbleIsBits(packed[i / PACK_FACTOR * outFeatures + c], i % PACK_FACTOR);
  }

  method PackQweight(qByInput: seq<Code>, inFeatures: nat, outFeatures: nat) returns (result: seq<int>)
    requires |qByInput| == inFeatures * outFeatures
    ensures |result| == inFeatures / PACK_FACTOR * outFeatures
    ensures forall i: nat, c: nat :: i < inFeatures / PACK_FACTOR * PACK_FACTOR && c < outFeatures ==>
      UnpackedCode(result, outFeatures, i, c) == CodeAt(qByInput, outFeatures, i, c)
    ensures forall i: nat, c: nat | i < inFeatures / PACK_FACTOR * PACK_FACTOR && c < outFeatures ::
      CodeInWord(qByInput, result, outFeatures, i, c)
  {
    var packedRows := inFeatures / PACK_FACTOR;
    var packed := new int[packedRows * outFeatures](_ => 0);
    for row := 0 to packedRows
      invariant PackedUpTo(qByInput, packed[..], packedRows, outFeatures, row, 0)
    {
      for col := 0 to outFeatures
        invariant PackedUpTo(qByInput, packed[..], packedRows, outFeatures, row, col)
      {
        ghost var before := packed[..];
        CodesFit(qByInput, outFeatures, row, col);
        var word := PackWord(WordCodes(qByInput, outFeatures, row, col));
        StoreCell(packed, packedRows, outFeatures, row, col, word, 0);
        CodeWordStored(qByInput, before, packed[..], packedRows, outFeatures, row, col, word);
      }
    }
    forall i: nat, c: nat | i < packedRows * PACK_FACTOR && c < outFeatures
      ensures UnpackedCode(packed[..], outFeatures, i, c) == CodeAt(qByInput, outFeatures, i, c)
    {
      CodeUnpacked(qByInput, packed[..], outFeatures, i, c);
    }
    forall i: nat, c: nat | i < packedRows * PACK_FACTOR && c < outFeatures
      ensures CodeInWord(qByInput, packed[..], outFeatures, i, c)
    {
      UnpackedInWord(qByInput, packed[..], packedRows, inFeatures, outFeatures, i, c);
    }
    return packed[..];
  }

  // ---------- zero points, packed along the output side ----------

  datatype PackError = RaggedOutput(outFeatures: nat)

  /** What is stored for a zero point: one less, as 1 .. 16 fills four bits. */
  function EncodedZero(z: Byte): Byte {
    if z == 0 then 0 else z - 1
  }

  function ZeroAt(zeros: seq<Byte>, outFeatures: nat, g: int, c: int): Byte {
    Cell<Byte>(zeros, outFeatures, g, c, 0)
  }

  /** The zero point of group g and output c. */
  function UnpackedZero(packed: seq<int>, outFeatures: nat, g: nat, c: nat): int {
    Nibble(Cell(packed, outFeatures / PACK_FACTOR, g, c / PACK_FACTOR, 0), c % PACK_FACTOR) + 1
  }

  /** Zero point k of a word. */
  function WordZero(zeros: seq<Byte>, outFeatures: nat, g: nat, col: nat, k: nat): Byte {
    ZeroAt(zeros, outFeatures, g, PACK_FACTOR * col + k)
  }

  /** The eight encoded zero points of one word. */
  function WordZeros(zeros: seq<Byte>, outFeatures: nat, g: nat, col: nat): Codes {
    k => EncodedZero(WordZero(zeros, outFeatures, g, col, k))
  }

  /** If all eight fit in four bits, all eight come back. */
  ghost predicate WordPacked(zeros: seq<Byte>, outFeatures: nat, packed: seq<int>, cols: nat, r: nat, c: nat) {
    FourBits(WordZeros(zeros, outFeatures, r, c), PACK_FACTOR) ==>
      forall k: nat :: k < PACK_FACTOR ==>
        Nibble(Cell(packed, cols, r, c, 0), k) == WordZeros(zeros, outFeatures, r, c)(k)
  }

  ghost predicate ZerosPackedUpTo(zeros: seq<Byte>, packed: seq<int>, rows: nat, cols: nat, outFeatures: nat,
                                  row: nat, col: nat)
  {
    forall r: nat, c: nat | r < rows && c < cols && (r < row || (r == row && c < col)) ::
      WordPacked(zeros, outFeatures, packed, cols, r, c)
  }

  /** All eight zero points of the word are zero points the quantizer produces. */
  ghost predicate WordInRange(zeros: seq<Byte>, outFeatures: nat, g: nat, col: nat) {
    forall k: nat :: k < PACK_FACTOR ==> 1 <= WordZero(zeros, outFeatures, g, col, k) <= 16
  }

  /** All eight zero points of the word come back. */
  ghost predicate WordRecovered(zeros: seq<Byte>, outFeatures: nat, packed: seq<int>, g: nat, col: nat) {
    forall k: nat :: k < PACK_FACTOR ==>
      UnpackedZero(packed, outFeatures, g, PACK_FACTOR * col + k) == WordZero(zeros, outFeatures, g, col, k)
  }

  lemma WordOf(col: nat, k: nat)
    requires k < PACK_FACTOR
    ensures (PACK_FACTOR * col + k) / PACK_FACTOR == col && (PACK_FACTOR * col + k) % PACK_FACTOR == k
  {
  }

  /** A word gives back its zero points exactly when all of them lie in 1 .. 16. */
  lemma WordRecoveredExactly(zeros: seq<Byte>, outFeatures: nat, packed: seq<int>, g: nat, col: nat)
    requires WordPacked(zeros, outFeatures, packed, outFeatures / PACK_FACTOR, g, col)
    ensures WordRecovered(zeros, outFeatures, packed, g, col) <==> WordInRange(zeros, outFeatures, g, col)
  {
    var word := Cell(packed, outFeatures / PACK_FACTOR, g, col, 0);
    forall k: nat | k < PACK_FACTOR
      ensures UnpackedZero(packed, outFeatures, g, PACK_FACTOR * col + k) == Nibble(word, k) + 1
      ensures 0 <= Nibble(word, k) < 16
    {
      WordOf(col, k);
      NibbleRange(word, k);
    }
    if WordInRange(zeros, outFeatures, g, col) {
      InRangeFits(zeros, outFeatures, g, col);
      forall k: nat | k < PACK_FACTOR
        ensures Nibble(word, k) + 1 == WordZero(zeros, outFeatures, g, col, k)
      {
        assert Nibble(word, k) == WordZeros(zeros, outFeatures, g, col)(k);
      }
    } else {
      var k: nat :| k < PACK_FACTOR && !(1 <= WordZero(zeros, outFeatures, g, col, k) <= 16);
      assert UnpackedZero(packed, outFeatures, g, PACK_FACTOR * col + k) == Nibble(word, k) + 1;
    }
  }

  lemma InRangeFits(zeros: seq<Byte>, outFeatures: nat, g: nat, col: nat)
    requires WordInRange(zeros, outFeatures, g, col)
    ensures FourBits(WordZeros(zeros, outFeatures, g, col), PACK_FACTOR)
  {
    forall k: nat | k < PACK_FACTOR
      ensures WordZeros(zeros, outFeatures, g, col)(k) < 16
    {
      assert WordZero(zeros, outFeatures, g, col, k) <= 16;
    }
  }

  /** Errs exactly on outputs that do not fill words; a word gives back its zero points iff all are in 1 .. 16. */
  method PackQzeros(zeros: seq<Byte>, numGroups: nat, outFeatures: nat) returns (r: Result<seq<int>, PackError>)
    requires |zeros| == numGroups * outFeatures
    ensures r.Err? <==> outFeatures % PACK_FACTOR != 0
    ensures r.Err? ==> r.error == RaggedOutput(outFeatures)
    ensures r.Ok? ==> |r.value| == numGroups * (outFeatures / PACK_FACTOR)
    ensures r.Ok? ==> forall g: nat, c: nat | g < numGroups && c < outFeatures / PACK_FACTOR ::
      WordRecovered(zeros, outFeatures, r.value, g, c) <==> WordInRange(zeros, outFeatures, g, c)
    ensures r.Ok? ==> forall g: nat, c: nat | g < numGroups && c < outFeatures / PACK_FACTOR ::
      WordPacked(zeros, outFeatures, r.value, outFeatures / PACK_FACTOR, g, c)
  {
    if outFeatures % PACK_FACTOR != 0 {
      return Err(RaggedOutput(outFeatures));
    }
    var cols := outFeatures / PACK_FACTOR;
    var packed := new int[numGroups * cols](_ => 0);
    for group := 0 to numGroups
      invariant ZerosPackedUpTo(zeros, packed[..], numGroups, cols, outFeatures, group, 0)
    {
      for col := 0 to cols
        invariant ZerosPackedUpTo(zeros, packed[..], numGroups, cols, outFeatures, group, col)
      {
        ghost var before := packed[..];
        var word := PackWord(WordZeros(zeros, outFeatures, group, col));
        StoreCell(packed, numGroups, cols, group, col, word, 0);
        ZeroWordStored(zeros, before, packed[..], numGroups, cols, outFeatures, group, col, word);
      }
    }
    forall g: nat, c: nat | g < numGroups && c < cols
      ensures WordRecovered(zeros, outFeatures, packed[..], g, c) <==> WordInRange(zeros, outFeatures, g, c)
    {
      WordRecoveredExactly(zeros, outFeatures, packed[..], g, c);
    }
    return Ok(packed[..]);
  }

  lemma ZeroWordStored(zeros: seq<Byte>, before: seq<int>, after: seq<int>, rows: nat, cols: nat, outFeatures: nat,
                       row: nat, col: nat, word: int)
    requires row < rows && col < cols && ZerosPackedUpTo(zeros, before, rows, cols, outFeatures, row, col)
    requires PutCell(before, after, rows, cols, row, col, word, 0)
    requires FourBits(WordZeros(zeros, outFeatures, row, col), PACK_FACTOR) ==>
      forall k: nat :: k < PACK_FACTOR ==> Nibble(word, k) == WordZeros(zeros, outFeatures, row, col)(k)
    ensures ZerosPackedUpTo(zeros, after, rows, cols, outFeatures, row, col + 1)
    ensures col + 1 == cols ==> ZerosPackedUpTo(zeros, after, rows, cols, outFeatures, row + 1, 0)
  {
    forall r: nat, c: nat | r < rows && c < cols && (r < row || (r == row && c < col + 1))
      ensures WordPacked(zeros, outFeatures, after, cols, r, c)
    {
      assert (r, c) != (row, col) ==> WordPacked(zeros, outFeatures, before, cols, r, c);
    }
  }
}
