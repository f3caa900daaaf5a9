/** The streaming SHA-256 context of src/sha256.c, proved against the one-shot specification. */
module Streaming {
  import opened Bytes
  import opened Fips180

  /** Fills w[0..63] for one block. */
  method ExpandSchedule(block: Block) returns (w: array<bv32>)
    ensures fresh(w) && w.Length == 64
    ensures forall j :: 0 <= j < 64 ==> w[j] == Schedule(block, j)
  {
    hide Add, SmallSigma0, SmallSigma1, LoadBe32, Rotr;
    w := new bv32[64];
    for i := 0 to 16
      invariant forall j :: 0 <= j < i ==> w[j] == Schedule(block, j)
    {
      w[i] := LoadBe32(block[4 * i..4 * i + 4]);
    }
    for i := 16 to 64
      invariant forall j :: 0 <= j < i ==> w[j] == Schedule(block, j)
    {
      w[i] := Add(Add(SmallSigma1(w[i - 2]), w[i - 7]), Add(SmallSigma0(w[i - 15]), w[i - 16]));
    }
  }

  /** The 64 rounds, shifting the working variables in place. */
  method RunRounds(start: Working, block: Block, w: array<bv32>) returns (v: Working)
    requires w.Length == 64
    requires forall j :: 0 <= j < 64 ==> w[j] == Schedule(block, j)
    ensures v == Rounds(start, block, 64)
  {
    hide Add, BigSigma0, BigSigma1, Ch, Maj, Rotr, Schedule;
    var Working(a, b, c, d, e, f, g, h) := start;
    for i := 0 to 64
      invariant Working(a, b, c, d, e, f, g, h) == Rounds(start, block, i)
    {
      var t1 := Add(Add(Add(Add(h, BigSigma1(e)), Ch(e, f, g)), Constant(i)), w[i]);
      var t2 := Add(BigSigma0(a), Maj(a, b, c));
      h := g;
      g := f;
      f := e;
      e := Add(d, t1);
      d := c;
      c := b;
      b := a;
      a := Add(t1, t2);
    }
    v := Working(a, b, c, d, e, f, g, h);
  }

  /** Absorbing one block into the chaining value. */
  lemma HashBlocksStep(m: seq<Byte>, block: Block)
    requires |m| % 64 == 0
    ensures |m + block| % 64 == 0
    ensures HashBlocks(m + block) == Compress(HashBlocks(m), block)
  {
    hide Compress;
    assert (m + block)[..|m|] == m && (m + block)[|m|..] == block;
  }

  /** Adding a fragment's bits modulo 2^64 counts the whole message's bits modulo 2^64. */
  lemma BitCountStep(length: nat, more: nat)
    ensures Wrap64(Wrap64(8 * length) + Wrap64(8 * more)) == Wrap64(8 * (length + more))
  {
  }

  lemma NothingHashed()
    ensures HashBlocks([]) == IV
  {
  }

  class Context {
    const state: array<bv32>
    const buffer: array<Byte>
    var bitCount: U64
    var bufferLen: nat
    ghost var message: seq<Byte>

    ghost predicate Shape()
      reads `bufferLen
    {
      state.Length == 8 && buffer.Length == 64 && bufferLen <= 64
    }

    /** `input` has gone in: its whole blocks are in `state`, the rest is in `buffer`. */
    ghost predicate Holds(input: seq<Byte>)
      reads `bufferLen, state, buffer
    {
      && Shape() && bufferLen <= |input| && (|input| - bufferLen) % 64 == 0
      && buffer[..bufferLen] == input[|input| - bufferLen..]
      && state[..] == HashBlocks(input[..|input| - bufferLen])
    }

    ghost predicate Valid()
      reads this, state, buffer
    {
      state.Length == 8 && buffer.Length == 64 && Holds(message) && bufferLen < 64 && bitCount == Wrap64(8 * |message|)
    }

    constructor ()
      ensures Valid() && message == []
      ensures fresh(state) && fresh(buffer)
    {
      hide HashBlocks;
      state := new bv32[8];
      buffer := new Byte[64];
      bitCount, bufferLen, message := 0, 0, [];
      new;
      SetInitial();
      NothingHashed();
    }

    method SetInitial()
      requires state.Length == 8
      modifies state
      ensures state[..] == IV
    {
      state[0], state[1], state[2], state[3] := 0x6a09e667, 0xbb67ae85, 0x3c6ef372, 0xa54ff53a;
      state[4], state[5], state[6], state[7] := 0x510e527f, 0x9b05688c, 0x1f83d9ab, 0x5be0cd19;
    }

    /** Adds the working variables back into the hash value. */
    method AddBack(v: Working)
      requires state.Length == 8
      modifies state
      ensures state[..] == [Add(old(state[0]), v.a), Add(old(state[1]), v.b), Add(old(state[2]), v.c),
                            Add(old(state[3]), v.d), Add(old(state[4]), v.e), Add(old(state[5]), v.f),
                            Add(old(state[6]), v.g), Add(old(state[7]), v.h)]
    {
      hide Add;
      state[0], state[1], state[2], state[3] :=
        Add(state[0], v.a), Add(state[1], v.b), Add(state[2], v.c), Add(state[3], v.d);
      state[4], state[5], state[6], state[7] :=
        Add(state[4], v.e), Add(state[5], v.f), Add(state[6], v.g), Add(state[7], v.h);
    }

    /** Runs the compression function over the full buffer. */
    method Transform()
      requires state.Length == 8 && buffer.Length == 64
      modifies state
      ensures state[..] == Compress(old(state[..]), buffer[..])
    {
      hide Add, Rounds, Schedule;
      var w := ExpandSchedule(buffer[..]);
      var start := Working(state[0], state[1], state[2], state[3], state[4], state[5], state[6], state[7]);
      var v := RunRounds(start, buffer[..], w);
      AddBack(v);
    }

    /** The buffer position is the number of bytes past the last whole block. */
    lemma Position(input: seq<Byte>)
      requires Holds(input) && bufferLen < 64
      ensures bufferLen == |input| % 64
    {
      hide HashBlocks;
    }

    /** Copies `data` behind what the buffer already holds. */
    method Copy(data: seq<Byte>, ghost input: seq<Byte>)
      requires Holds(input) && bufferLen + |data| <= 64
      modifies `bufferLen, buffer
      ensures Holds(input + data) && bufferLen == old(bufferLen) + |data|
    {
      hide HashBlocks;
      ghost var done := |input| - bufferLen;
      ghost var tail := buffer[..bufferLen];
      forall i | 0 <= i < |data| {
        buffer[bufferLen + i] := data[i];
      }
      bufferLen := bufferLen + |data|;
      assert buffer[..bufferLen] == tail + data == (input + data)[done..];
      assert (input + data)[..done] == input[..done];
    }

    /** Compresses a full buffer and starts the next block. */
    method Drain(ghost input: seq<Byte>)
      requires Holds(input) && bufferLen == 64
      modifies `bufferLen, state
      ensures Holds(input) && bufferLen == 0
    {
      hide Compress, HashBlocks;
      ghost var whole := input[..|input| - 64];
      assert input == whole + buffer[..];
      HashBlocksStep(whole, buffer[..]);
      Transform();
      bufferLen := 0;
      assert input[..|input|] == input;
    }

    /** Absorbs `data`, compressing whenever the buffer is full. */
    method Update(data: seq<Byte>)
      requires Valid()
      modifies this, state, buffer
      ensures Valid() && message == old(message) + data
    {
      hide Holds, Wrap64;
      var pos := 0;
      assert old(message) + data[..pos] == message;
      BitCountStep(|message|, |data|);
      bitCount := Wrap64(bitCount + Wrap64(8 * |data|));
      while pos < |data|
        invariant 0 <= pos <= |data|
        invariant Holds(old(message) + data[..pos]) && bufferLen < 64
        invariant bitCount == Wrap64(8 * (|old(message)| + |data|))
      {
        ghost var input := old(message) + data[..pos];
        var take := Min(64 - bufferLen, |data| - pos);
        Copy(data[pos..pos + take], input);
        assert input + data[pos..pos + take] == old(message) + data[..pos + take];
        pos := pos + take;
        if bufferLen == 64 {
          Drain(old(message) + data[..pos]);
        }
      }
      assert data[..pos] == data;
      message := old(message) + data;
    }

    /** Appends zero bytes up to buffer position `limit`. */
    method PadTo(limit: nat, ghost input: seq<Byte>) returns (ghost padded: seq<Byte>)
      requires Holds(input) && bufferLen <= limit <= 64
      modifies `bufferLen, buffer
      ensures padded == input + Zeros(limit - old(bufferLen))
      ensures Holds(padded) && bufferLen == limit
    {
      hide HashBlocks;
      padded := input;
      while bufferLen < limit
        invariant old(bufferLen) <= bufferLen <= limit
        invariant padded == input + Zeros(bufferLen - old(bufferLen))
        invariant Holds(padded)
      {
        Copy([0], padded);
        padded := padded + [0];
      }
    }

    /** Stores the message length in bits, big-endian, in the last eight buffer bytes. */
    method PutLength(bits: U64, ghost input: seq<Byte>)
      requires Holds(input) && bufferLen == 56
      modifies `bufferLen, buffer
      ensures Holds(input + Be64(bits)) && bufferLen == 64
    {
      hide HashBlocks, Pow256;
      for i := 0 to 8
        invariant Holds(input) && bufferLen == 56
        invariant forall j :: 8 - i <= j < 8 ==> buffer[56 + j] == Be64(bits)[j]
      {
        buffer[63 - i] := (bits / Pow256(i)) % 256;
      }
      ghost var done := |input| - 56;
      bufferLen := 64;
      assert buffer[..64] == buffer[..56] + Be64(bits) == (input + Be64(bits))[done..];
      assert (input + Be64(bits))[..done] == input[..done];
    }

    /** Pads, compresses the last one or two blocks, emits the digest and wipes the context. */
    method Final() returns (digest: Digest)
      requires Valid()
      modifies this, state, buffer
      ensures digest == Sha256(old(message))
      ensures bitCount == 0 && bufferLen == 0
      ensures forall i :: 0 <= i < 8 ==> state[i] == 0
      ensures forall i :: 0 <= i < 64 ==> buffer[i] == 0
    {
      hide Holds, HashBlocks, Be64, WordBytes, Wrap64;
      ghost var length := |message|;
      Position(message);
      var bits := bitCount;
      ghost var input := message + [0x80];
      ghost var zeros := 0;
      Copy([0x80], message);
      if bufferLen > 56 {
        zeros := 64 - bufferLen;
        input := PadTo(64, input);
        Drain(input);
      }
      assert zeros + 56 - bufferLen == PadZeros(length);
      input := PadTo(56, input);
      PutLength(bits, input);
      assert input == old(message) + [0x80] + Zeros(PadZeros(length));
      input := input + Be64(bits);
      assert input == Pad(old(message));
      Drain(input);
      digest := EmitWords(input);
      Wipe();
    }

    method EmitWords(ghost input: seq<Byte>) returns (digest: Digest)
      requires Holds(input) && bufferLen == 0
      ensures |input| % 64 == 0 && digest == WordBytes(HashBlocks(input))
    {
      hide StoreBe32, HashBlocks;
      assert input[..|input|] == input;
      var out: seq<Byte> := [];
      for i := 0 to 8
        invariant |out| == 4 * i && out == WordBytes(state[..i])
      {
        assert state[..i + 1][..i] == state[..i];
        out := out + StoreBe32(state[i]);
      }
      assert state[..8] == state[..];
      digest := out;
    }

    method Wipe()
      requires state.Length == 8 && buffer.Length == 64
      modifies this, state, buffer
      ensures bitCount == 0 && bufferLen == 0
      ensures forall i :: 0 <= i < 8 ==> state[i] == 0
      ensures forall i :: 0 <= i < 64 ==> buffer[i] == 0
    {
      forall i | 0 <= i < 8 {
        state[i] := 0;
      }
      forall i | 0 <= i < 64 {
        buffer[i] := 0;
      }
      bitCount, bufferLen := 0, 0;
    }
  }

  /** The one-shot digest, by way of the streaming context. */
  method HashBuffer(data: seq<Byte>) returns (digest: Digest)
    ensures digest == Sha256(data)
  {
    var ctx := new Context();
    ctx.Update(data);
    assert [] + data == data;
    digest := ctx.Final();
  }

  /** However a message is cut into updates, the digest is that of the whole message. */
  method HashFragments(parts: seq<seq<Byte>>) returns (digest: Digest)
    ensures digest == Sha256(Flatten(parts))
  {
    hide Sha256;
    var ctx := new Context();
    for i := 0 to |parts|
      invariant ctx.Valid() && fresh(ctx) && fresh(ctx.state) && fresh(ctx.buffer)
      invariant ctx.message == Flatten(parts[..i])
    {
      assert parts[..i + 1][..i] == parts[..i];
      ctx.Update(parts[i]);
    }
    assert parts[..|parts|] == parts;
    digest := ctx.Final();
  }
}
