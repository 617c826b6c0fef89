/**
 The reference definition of SHA-256, stated as FIPS 180-4 states it: functions over
 byte sequences, with no buffer, no streaming and no in-place update. The C code in
 `native/ctxlane_seqpacket.c` is proved against this module in `Sha256.dfy`.
 */
module Fips180 {
  import opened ByteNumbers

  type Word = bv32

  const BLOCK_BYTES := 64

  /** Section 4.2.2: the sixty-four constant words. */
  const K: seq<Word> := [
    0x428a2f98, 0x71374491, 0xb5c0fbcf, 0xe9b5dba5, 0x3956c25b, 0x59f111f1, 0x923f82a4, 0xab1c5ed5,
    0xd807aa98, 0x12835b01, 0x243185be, 0x550c7dc3, 0x72be5d74, 0x80deb1fe, 0x9bdc06a7, 0xc19bf174,
    0xe49b69c1, 0xefbe4786, 0x0fc19dc6, 0x240ca1cc, 0x2de92c6f, 0x4a7484aa, 0x5cb0a9dc, 0x76f988da,
    0x983e5152, 0xa831c66d, 0xb00327c8, 0xbf597fc7, 0xc6e00bf3, 0xd5a79147, 0x06ca6351, 0x14292967,
    0x27b70a85, 0x2e1b2138, 0x4d2c6dfc, 0x53380d13, 0x650a7354, 0x766a0abb, 0x81c2c92e, 0x92722c85,
    0xa2bfe8a1, 0xa81a664b, 0xc24b8b70, 0xc76c51a3, 0xd192e819, 0xd6990624, 0xf40e3585, 0x106aa070,
    0x19a4c116, 0x1e376c08, 0x2748774c, 0x34b0bcb5, 0x391c0cb3, 0x4ed8aa4a, 0x5b9cca4f, 0x682e6ff3,
    0x748f82ee, 0x78a5636f, 0x84c87814, 0x8cc70208, 0x90befffa, 0xa4506ceb, 0xbef9a3f7, 0xc67178f2]

  /** Section 5.3.3: the initial hash value. */
  const H0: seq<Word> := [
    0x6a09e667, 0xbb67ae85, 0x3c6ef372, 0xa54ff53a, 0x510e527f, 0x9b05688c, 0x1f83d9ab, 0x5be0cd19]

  /** Section 3.2: the circular right shift. */
  function Rotr(x: Word, n: Word): Word
    requires 0 < n < 32
  {
    (x >> n) | (x << (32 - n))
  }

  /** Section 4.1.2: the six logical functions. */
  function Ch(x: Word, y: Word, z: Word): Word { (x & y) ^ (!x & z) }

  function Maj(x: Word, y: Word, z: Word): Word { (x & y) ^ (x & z) ^ (y & z) }

  function BigSigma0(x: Word): Word { Rotr(x, 2) ^ Rotr(x, 13) ^ Rotr(x, 22) }

  function BigSigma1(x: Word): Word { Rotr(x, 6) ^ Rotr(x, 11) ^ Rotr(x, 25) }

  function SmallSigma0(x: Word): Word { Rotr(x, 7) ^ Rotr(x, 18) ^ (x >> (3 as Word)) }

  function SmallSigma1(x: Word): Word { Rotr(x, 17) ^ Rotr(x, 19) ^ (x >> (10 as Word)) }

  /** Section 3.1: a word is read and written with its most significant byte first. */
  function Join(b0: bv8, b1: bv8, b2: bv8, b3: bv8): Word {
    ((b0 as Word) << 24) | ((b1 as Word) << 16) | ((b2 as Word) << 8) | (b3 as Word)
  }

  /** The eight bits of a word that start `shift` places from its least significant end. */
  function Slice(w: Word, shift: Word): bv8
    requires shift < 32
  {
    ((w >> shift) & 0xff) as bv8
  }

  lemma JoinOfSlices(w: Word)
    ensures Join(Slice(w, 24), Slice(w, 16), Slice(w, 8), Slice(w, 0)) == w
  {}

  function WordOf(b0: Byte, b1: Byte, b2: Byte, b3: Byte): Word {
    Join(b0 as bv8, b1 as bv8, b2 as bv8, b3 as bv8)
  }

  function WordByte(w: Word, shift: Word): Byte
    requires shift < 32
  {
    Slice(w, shift) as Byte
  }

  function WordBytes(w: Word): (bytes: seq<Byte>)
    ensures |bytes| == 4
  {
    [WordByte(w, 24), WordByte(w, 16), WordByte(w, 8), WordByte(w, 0)]
  }

  lemma BitsOfByte(b: bv8)
    ensures (b as Byte) as bv8 == b
  {}

  lemma WordOfReadsWordBytes(w: Word)
    ensures WordOf(WordBytes(w)[0], WordBytes(w)[1], WordBytes(w)[2], WordBytes(w)[3]) == w
  {
    hide Join, Slice;
    JoinOfSlices(w);
    BitsOfByte(Slice(w, 24));
    BitsOfByte(Slice(w, 16));
    BitsOfByte(Slice(w, 8));
    BitsOfByte(Slice(w, 0));
  }

  /** Section 3.2: addition of words, modulo 2^32. */
  function Add(x: Word, y: Word): Word { x + y }

  function Add4(x: Word, y: Word, z: Word, u: Word): Word { x + y + z + u }

  lemma Add4Reversed(x: Word, y: Word, z: Word, u: Word)
    ensures Add4(x, y, z, u) == Add4(u, z, y, x)
  {}

  function Add5(x: Word, y: Word, z: Word, u: Word, v: Word): Word { x + y + z + u + v }

  /** Section 6.2.2 step 1: the schedule word that follows from the words 2, 7, 15 and 16 places back. */
  function NextW(w2: Word, w7: Word, w15: Word, w16: Word): Word {
    Add4(SmallSigma1(w2), w7, SmallSigma0(w15), w16)
  }

  /** Section 6.2.2 step 1: word `t` of the message schedule of one block. */
  function W(block: seq<Byte>, t: nat): Word
    requires |block| == BLOCK_BYTES
  {
    if t < 16 then
      WordOf(block[4 * t], block[4 * t + 1], block[4 * t + 2], block[4 * t + 3])
    else
      NextW(W(block, t - 2), W(block, t - 7), W(block, t - 15), W(block, t - 16))
  }

  /** Section 6.2.2 steps 2 and 3: the eight working variables and one round. */
  datatype Working = Working(a: Word, b: Word, c: Word, d: Word, e: Word, f: Word, g: Word, h: Word)

  function Round(v: Working, k: Word, w: Word): Working {
    var t1 := Add5(v.h, BigSigma1(v.e), Ch(v.e, v.f, v.g), k, w);
    var t2 := Add(BigSigma0(v.a), Maj(v.a, v.b, v.c));
    Working(Add(t1, t2), v.a, v.b, v.c, Add(v.d, t1), v.e, v.f, v.g)
  }

  function Rounds(v: Working, block: seq<Byte>, t: nat): Working
    requires |block| == BLOCK_BYTES && t <= 64
  {
    if t == 0 then v else Round(Rounds(v, block, t - 1), K[t - 1], W(block, t - 1))
  }

  function Load(hash: seq<Word>): Working
    requires |hash| == 8
  {
    Working(hash[0], hash[1], hash[2], hash[3], hash[4], hash[5], hash[6], hash[7])
  }

  function AddWorking(hash: seq<Word>, v: Working): (next: seq<Word>)
    requires |hash| == 8
    ensures |next| == 8
  {
    [Add(hash[0], v.a), Add(hash[1], v.b), Add(hash[2], v.c), Add(hash[3], v.d),
     Add(hash[4], v.e), Add(hash[5], v.f), Add(hash[6], v.g), Add(hash[7], v.h)]
  }

  /** Section 6.2.2 step 4: the next intermediate hash value. */
  function Compress(hash: seq<Word>, block: seq<Byte>): (next: seq<Word>)
    requires |hash| == 8 && |block| == BLOCK_BYTES
    ensures |next| == 8
  {
    AddWorking(hash, Rounds(Load(hash), block, 64))
  }

  /** The hash value after every block of `bytes`, first block first. */
  function HashBlocks(bytes: seq<Byte>): (hash: seq<Word>)
    requires |bytes| % BLOCK_BYTES == 0
    ensures |hash| == 8
  {
    if |bytes| == 0 then H0
    else Compress(HashBlocks(bytes[..|bytes| - BLOCK_BYTES]), bytes[|bytes| - BLOCK_BYTES..])
  }

  function Zeros(count: nat): (bytes: seq<Byte>)
    ensures |bytes| == count
  {
    seq(count, _ => 0)
  }

  /** The number of zero bytes between the 0x80 byte and the length field. */
  function ZeroCount(length: nat): (count: nat)
    ensures count < BLOCK_BYTES && (length + 1 + count) % BLOCK_BYTES == 56
  {
    (119 - length % 64) % 64
  }

  /** The 64-bit length that ends the last block. */
  function LengthField(bits: nat): (bytes: seq<Byte>)
    ensures |bytes| == 8
  {
    BigEndian(bits, 8)
  }

  /** Section 5.1.1 for whole bytes, with the value of the length field given apart. */
  function PadWith(message: seq<Byte>, bits: nat): (padded: seq<Byte>)
    ensures |padded| % BLOCK_BYTES == 0
  {
    message + [0x80] + Zeros(ZeroCount(|message|)) + LengthField(bits)
  }

  function DigestBytes(hash: seq<Word>): (bytes: seq<Byte>)
    requires |hash| == 8
    ensures |bytes| == 32
  {
    WordBytes(hash[0]) + WordBytes(hash[1]) + WordBytes(hash[2]) + WordBytes(hash[3]) +
    WordBytes(hash[4]) + WordBytes(hash[5]) + WordBytes(hash[6]) + WordBytes(hash[7])
  }

  /** Section 6.2: the SHA-256 digest of a message of fewer than 2^64 bits. */
  function Digest(message: seq<Byte>): (digest: seq<Byte>)
    requires 8 * |message| < TWO_TO_64
    ensures |digest| == 32
  {
    DigestBytes(HashBlocks(PadWith(message, 8 * |message|)))
  }

  // ------------------------------------------------------------ facts about padding

  lemma ZeroCountIsMinimal(length: nat, k: nat)
    requires (8 * length + 8 * (1 + k)) % 512 == 448
    ensures ZeroCount(length) <= k
  {
    assert (length + 1 + k) % 64 == 56;
  }

  lemma LengthFieldReadsBack(bits: nat)
    requires bits < TWO_TO_64
    ensures FromBigEndian(LengthField(bits)) == bits
  {
    BigEndianReadsBack(bits, 8);
    Power256Of8();
  }

  lemma PadParts(message: seq<Byte>, zeros: seq<Byte>, tail: seq<Byte>)
    requires |tail| == 8
    ensures var padded := message + [0x80] + zeros + tail;
            padded[..|message|] == message && padded[|padded| - 8..] == tail
  {}

  /** Section 5.1.1: the padding is the shortest one that ends in the 64-bit length. */
  lemma PaddingIsMinimal(message: seq<Byte>, k: nat)
    requires 8 * |message| < TWO_TO_64
    requires (8 * |message| + 8 * (1 + k)) % 512 == 448
    ensures ZeroCount(|message|) <= k
    ensures var padded := PadWith(message, 8 * |message|);
            && padded[..|message|] == message
            && FromBigEndian(padded[|padded| - 8..]) == 8 * |message|
  {
    ZeroCountIsMinimal(|message|, k);
    var zeros, tail := Zeros(ZeroCount(|message|)), LengthField(8 * |message|);
    PadParts(message, zeros, tail);
    LengthFieldReadsBack(8 * |message|);
  }
}
