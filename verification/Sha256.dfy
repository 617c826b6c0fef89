/**
 The streaming SHA-256 of `native/ctxlane_seqpacket.c`, in its own form: a context whose
 hash words, bit counter and 64-byte block are updated in place. Every method is proved
 against the whole-message definition in `Fips180`.
 */
module Sha256 {
  import opened ByteNumbers
  import opened Fips180

  /** The byte stored at `block[56 + i]`. */
  function LengthByte(bitCount: nat, i: nat): (byte: Byte)
    requires i < 8
    ensures byte == LengthField(bitCount)[i]
  {
    BigEndianByte(bitCount, 8, i);
    (ShiftRight(bitCount, 56 - i * 8) % 256) as Byte
  }

  function InitialHash(): (hash: seq<Word>)
    ensures |hash| == 8 && hash == HashBlocks([])
  {
    H0
  }

  lemma HashOneMoreBlock(prefix: seq<Byte>, block: seq<Byte>)
    requires |prefix| % BLOCK_BYTES == 0 && |block| == BLOCK_BYTES
    ensures HashBlocks(prefix + block) == Compress(HashBlocks(prefix), block)
  {
    var all := prefix + block;
    assert all[..|all| - BLOCK_BYTES] == prefix && all[|all| - BLOCK_BYTES..] == block;
  }

  /** What the 64-bit counter makes of a message: the length field holds the bit length modulo 2^64. */
  function DigestWithCounter(message: seq<Byte>): (digest: seq<Byte>)
    ensures |digest| == 32
  {
    DigestBytes(HashBlocks(PadWith(message, (8 * |message|) % TWO_TO_64)))
  }

  /** For every message FIPS 180-4 defines a digest for, the counter changes nothing. */
  lemma CounterIsExact(message: seq<Byte>)
    requires 8 * |message| < TWO_TO_64
    ensures DigestWithCounter(message) == Digest(message)
  {
    hide HashBlocks, PadWith, DigestBytes;
  }

  class Sha256Context {
    const state: array<Word>
    var bitCount: nat
    const block: array<Byte>
    var blockLen: nat
    /** Every byte given to Update since Init. */
    ghost var message: seq<Byte>

    ghost predicate Shape()
      reads this`bitCount, this`blockLen
    {
      state.Length == 8 && block.Length == BLOCK_BYTES && bitCount < TWO_TO_64 && blockLen <= BLOCK_BYTES
    }

    /** The whole blocks of `bytes` are in the hash value and the rest is in the buffer. */
    ghost predicate Holds(bytes: seq<Byte>)
      reads this`bitCount, this`blockLen, state, block
    {
      && Shape()
      && blockLen <= |bytes|
      && (|bytes| - blockLen) % BLOCK_BYTES == 0
      && block[..blockLen] == bytes[|bytes| - blockLen..]
      && state[..] == HashBlocks(bytes[..|bytes| - blockLen])
    }

    ghost predicate Valid()
      reads this, state, block
    {
      Holds(message) && blockLen < BLOCK_BYTES && bitCount == (8 * |message|) % TWO_TO_64
    }

    lemma HoldsLength(bytes: seq<Byte>)
      requires Holds(bytes)
      ensures Shape() && blockLen <= |bytes| && (|bytes| - blockLen) % BLOCK_BYTES == 0
    {}

    lemma HeldHash(bytes: seq<Byte>)
      requires Holds(bytes) && blockLen == 0
      ensures |bytes| % BLOCK_BYTES == 0 && state[..] == HashBlocks(bytes)
    {
      assert bytes[..|bytes|] == bytes;
    }

    /** The context is stack storage in C; Init gives it its contents. */
    constructor ()
      ensures Shape() && fresh(state) && fresh(block)
    {
      state := new Word[8];
      block := new Byte[BLOCK_BYTES];
      bitCount, blockLen, message := 0, 0, [];
    }

    method Init()
      requires Shape()
      modifies this, state
      ensures Valid() && message == []
    {
      hide HashBlocks, H0, InitialHash;
      var initialState := InitialHash();
      forall i | 0 <= i < 8 {
        state[i] := initialState[i];
      }
      bitCount, blockLen, message := 0, 0, [];
      assert state[..] == initialState;
    }

    /** The message schedule, filled forward from the sixteen block words. */
    method Schedule() returns (schedule: array<Word>)
      requires Shape()
      ensures fresh(schedule) && schedule.Length == 64
      ensures forall t :: 0 <= t < 64 ==> schedule[t] == W(block[..], t)
    {
      hide WordOf, SmallSigma0, SmallSigma1, Add4;
      schedule := new Word[64];
      for i := 0 to 16
        invariant forall t :: 0 <= t < i ==> schedule[t] == W(block[..], t)
      {
        schedule[i] := WordOf(block[i * 4], block[i * 4 + 1], block[i * 4 + 2], block[i * 4 + 3]);
      }
      for i := 16 to 64
        invariant forall t :: 0 <= t < i ==> schedule[t] == W(block[..], t)
      {
        var smallSigmaZero := SmallSigma0(schedule[i - 15]);
        var smallSigmaOne := SmallSigma1(schedule[i - 2]);
        Add4Reversed(schedule[i - 16], smallSigmaZero, schedule[i - 7], smallSigmaOne);
        schedule[i] := Add4(schedule[i - 16], smallSigmaZero, schedule[i - 7], smallSigmaOne);
      }
    }

    /** The sixty-four rounds over the working variables. */
    method RunRounds(schedule: array<Word>) returns (working: Working)
      requires Shape() && schedule.Length == 64
      requires forall t :: 0 <= t < 64 ==> schedule[t] == W(block[..], t)
      ensures working == Rounds(Load(state[..]), block[..], 64)
    {
      hide W, BigSigma0, BigSigma1, Ch, Maj, Add, Add5;
      var a, b, c, d := state[0], state[1], state[2], state[3];
      var e, f, g, h := state[4], state[5], state[6], state[7];
      for i := 0 to 64
        invariant Working(a, b, c, d, e, f, g, h) == Rounds(Load(state[..]), block[..], i)
      {
        var bigSigmaOne := BigSigma1(e);
        var choose := Ch(e, f, g);
        var temporaryOne := Add5(h, bigSigmaOne, choose, K[i], schedule[i]);
        var bigSigmaZero := BigSigma0(a);
        var majority := Maj(a, b, c);
        var temporaryTwo := Add(bigSigmaZero, majority);
        h := g;
        g := f;
        f := e;
        e := Add(d, temporaryOne);
        d := c;
        c := b;
        b := a;
        a := Add(temporaryOne, temporaryTwo);
      }
      working := Working(a, b, c, d, e, f, g, h);
    }

    method Transform()
      requires Shape()
      modifies state
      ensures state[..] == Compress(old(state[..]), block[..])
    {
      hide W, Rounds, Add, Load;
      var schedule := Schedule();
      var working := RunRounds(schedule);
      var sums := AddWorking(state[..], working);
      forall i | 0 <= i < 8 {
        state[i] := sums[i];
      }
      assert state[..] == sums && block[..] == old(block[..]);
    }

    /** A full buffer goes into the hash value and the buffer is empty again. */
    method Flush(ghost bytes: seq<Byte>)
      requires Holds(bytes) && blockLen == BLOCK_BYTES
      modifies this`blockLen, state
      ensures Holds(bytes) && blockLen == 0
    {
      hide Compress, HashBlocks;
      ghost var prefix, tail := bytes[..|bytes| - BLOCK_BYTES], bytes[|bytes| - BLOCK_BYTES..];
      assert block[..] == tail;
      Transform();
      blockLen := 0;
      HashOneMoreBlock(prefix, tail);
      assert prefix + tail == bytes && bytes[..|bytes|] == bytes;
    }

    /** Copy bytes behind the buffered ones. */
    method Append(data: seq<Byte>, ghost bytes: seq<Byte>)
      requires Holds(bytes) && blockLen + |data| <= BLOCK_BYTES
      modifies this`blockLen, block
      ensures Holds(bytes + data) && blockLen == old(blockLen) + |data|
    {
      hide HashBlocks;
      var start := blockLen;
      ghost var buffered := block[..start];
      forall i | 0 <= i < |data| {
        block[start + i] := data[i];
      }
      assert block[..start + |data|] == buffered + data;
      blockLen := start + |data|;
      ghost var longer := bytes + data;
      assert longer[|longer| - blockLen..] == bytes[|bytes| - start..] + data;
      assert longer[..|longer| - blockLen] == bytes[..|bytes| - start];
    }

    method CountBits(length: nat)
      requires Valid()
      modifies this`bitCount
      ensures Holds(message) && bitCount == (8 * (|message| + length)) % TWO_TO_64
    {
      hide HashBlocks;
      CountWraps(|message|, length);
      bitCount := (bitCount + length * 8) % TWO_TO_64;
    }

    method Update(data: seq<Byte>)
      requires Valid()
      modifies this, state, block
      ensures Valid() && message == old(message) + data
    {
      hide Holds;
      ghost var before := message;
      assert before + data[..0] == before;
      CountBits(|data|);
      var offset := 0;
      while offset < |data|
        invariant 0 <= offset <= |data|
        invariant Holds(before + data[..offset]) && blockLen < BLOCK_BYTES
        invariant bitCount == (8 * |before + data|) % TWO_TO_64
      {
        var available := BLOCK_BYTES - blockLen;
        var length := |data| - offset;
        var copyLength := if length < available then length else available;
        ghost var bytes := before + data[..offset];
        var chunk := data[offset..offset + copyLength];
        Append(chunk, bytes);
        assert bytes + chunk == before + data[..offset + copyLength];
        offset := offset + copyLength;
        if blockLen == BLOCK_BYTES {
          Flush(bytes + chunk);
        }
        HoldsLength(before + data[..offset]);
      }
      assert data[..|data|] == data;
      message := before + data;
    }

    /** 0x80, then zeros until eight bytes of the block are left, flushing a block on the way if need be. */
    method PadBlock()
      requires Valid()
      modifies this`blockLen, state, block
      ensures blockLen == 56
      ensures Holds(message + [0x80] + Zeros(ZeroCount(|message|)))
    {
      hide Holds, Zeros, ZeroCount;
      ghost var zeros, length := 0, |message|;
      ghost var padded := message + [0x80];
      Append([0x80], message);
      ZerosGrow(0);
      assert padded + Zeros(0) == padded;
      while blockLen != 56
        invariant zeros <= ZeroCount(length)
        invariant Holds(padded + Zeros(zeros))
        decreases ZeroCount(length) - zeros
      {
        HoldsLength(padded + Zeros(zeros));
        ZerosToGo(length, zeros, blockLen);
        if blockLen == BLOCK_BYTES {
          Flush(padded + Zeros(zeros));
        }
        Append([0], padded + Zeros(zeros));
        ZerosGrow(zeros);
        assert padded + Zeros(zeros) + [0] == padded + Zeros(zeros + 1);
        zeros := zeros + 1;
      }
      HoldsLength(padded + Zeros(zeros));
      ZerosToGo(length, zeros, blockLen);
    }

    method AppendLength(ghost bytes: seq<Byte>)
      requires Holds(bytes) && blockLen == 56
      modifies this`blockLen, block
      ensures blockLen == BLOCK_BYTES && Holds(bytes + LengthField(bitCount))
    {
      hide HashBlocks, LengthField, LengthByte;
      ghost var field := LengthField(bitCount);
      for i := 0 to 8
        invariant block[..56] == old(block[..56])
        invariant block[56..56 + i] == field[..i]
      {
        block[56 + i] := LengthByte(bitCount, i);
      }
      blockLen := BLOCK_BYTES;
      ghost var longer := bytes + field;
      assert block[..64] == block[..56] + block[56..64];
      assert longer[|longer| - 64..] == bytes[|bytes| - 56..] + field;
      assert longer[..|longer| - 64] == bytes[..|bytes| - 56];
    }

    /** The eight hash words, most significant byte first. */
    method Emit(digest: array<Byte>)
      requires Shape() && digest.Length == 32 && digest != block
      modifies digest
      ensures digest[..] == DigestBytes(state[..])
    {
      hide WordByte, DigestBytes;
      ghost var hash := state[..];
      for i := 0 to 8
        invariant state[..] == hash
        invariant forall j :: 0 <= j < i ==> digest[4 * j..4 * j + 4] == WordBytes(hash[j])
      {
        digest[i * 4] := WordByte(state[i], 24);
        digest[i * 4 + 1] := WordByte(state[i], 16);
        digest[i * 4 + 2] := WordByte(state[i], 8);
        digest[i * 4 + 3] := WordByte(state[i], 0);
        assert digest[4 * i..4 * i + 4] == WordBytes(hash[i]);
      }
      DigestInWords(digest[..], hash);
    }

    /** The digest of everything given to Update since Init. */
    method Final(digest: array<Byte>)
      requires Valid() && digest.Length == 32 && digest != block
      modifies this`blockLen, state, block, digest
      ensures digest[..] == DigestWithCounter(message)
    {
      hide Holds, HashBlocks, PadWith, DigestBytes;
      PadBlock();
      ghost var padded := message + [0x80] + Zeros(ZeroCount(|message|)) + LengthField(bitCount);
      AppendLength(message + [0x80] + Zeros(ZeroCount(|message|)));
      Flush(padded);
      HoldsLength(padded);
      HeldHash(padded);
      PadWithParts(message, bitCount);
      Emit(digest);
    }
  }

  lemma PadWithParts(message: seq<Byte>, bits: nat)
    ensures PadWith(message, bits) == message + [0x80] + Zeros(ZeroCount(|message|)) + LengthField(bits)
  {}

  /** The zeros are all written exactly when the buffer position is 56. */
  lemma ZerosToGo(length: nat, zeros: nat, blockLen: nat)
    requires zeros <= ZeroCount(length) && blockLen <= BLOCK_BYTES
    requires (length + 1 + zeros - blockLen) % BLOCK_BYTES == 0
    ensures blockLen == 56 <==> zeros == ZeroCount(length)
  {}

  /** The 64-bit counter wraps, so it is the bit length modulo 2^64. */
  lemma CountWraps(before: nat, more: nat)
    ensures ((8 * before) % TWO_TO_64 + more * 8) % TWO_TO_64 == (8 * (before + more)) % TWO_TO_64
  {}

  lemma ZerosGrow(count: nat)
    ensures Zeros(0) == [] && Zeros(count) + [0] == Zeros(count + 1)
  {}

  lemma DigestInWords(digest: seq<Byte>, hash: seq<Word>)
    requires |digest| == 32 && |hash| == 8
    requires forall j :: 0 <= j < 8 ==> digest[4 * j..4 * j + 4] == WordBytes(hash[j])
    ensures digest == DigestBytes(hash)
  {
    assert digest == digest[0..4] + digest[4..8] + digest[8..12] + digest[12..16] +
                     digest[16..20] + digest[20..24] + digest[24..28] + digest[28..32];
    assert digest[4 * 0..4 * 0 + 4] == WordBytes(hash[0]);
  }

  function Flatten(chunks: seq<seq<Byte>>): seq<Byte> {
    if |chunks| == 0 then [] else Flatten(chunks[..|chunks| - 1]) + chunks[|chunks| - 1]
  }

  /**
   However the bytes of a file are cut into reads, hashing them read by read gives the
   digest of all of them, which is FIPS 180-4's for every file below 2^61 bytes.
   */
  method HashFile(buffers: seq<seq<Byte>>, digest: array<Byte>)
    requires digest.Length == 32
    modifies digest
    ensures digest[..] == DigestWithCounter(Flatten(buffers))
    ensures 8 * |Flatten(buffers)| < TWO_TO_64 ==> digest[..] == Digest(Flatten(buffers))
  {
    hide HashBlocks, Digest, DigestWithCounter;
    var context := new Sha256Context();
    context.Init();
    for i := 0 to |buffers|
      invariant fresh(context) && fresh(context.state) && fresh(context.block)
      invariant context.Valid() && context.message == Flatten(buffers[..i])
    {
      context.Update(buffers[i]);
      assert buffers[..i + 1][..i] == buffers[..i];
    }
    assert buffers[..|buffers|] == buffers;
    context.Final(digest);
    if 8 * |Flatten(buffers)| < TWO_TO_64 {
      CounterIsExact(Flatten(buffers));
    }
  }
}
