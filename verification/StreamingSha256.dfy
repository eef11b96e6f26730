/** The streaming digest of the file fingerprint: fed in pieces, it is SHA-256 of the whole. */
module StreamingSha256 {
  import opened Sha256Standard

  function HexDigit(n: nat): (c: char)
    requires n < 16
    ensures c == if n < 10 then '0' + n as char else 'a' + (n - 10) as char
  {
    "0123456789abcdef"[n]
  }

  /** The width lowest hexadecimal digits, zero padded. */
  function Hex(n: nat, width: nat): (text: string)
    ensures |text| == width
  {
    if width == 0 then "" else Hex(n / 16, width - 1) + [HexDigit(n % 16)]
  }

  function HexOf(words: seq<Word>): (text: string)
    ensures |text| == 8 * |words|
  {
    if words == [] then "" else HexOf(words[..|words| - 1]) + Hex(words[|words| - 1] as nat, 8)
  }

  /** f does on a block what the word functions say. Stated so that proofs about f alone need not look inside. */
  ghost predicate Compresses(f: Compression, g: Logic) {
    forall hash, block {:trigger Compress(g, hash, block)} | |hash| == 8 && |block| == 64 ::
      f(hash, block) == Compress(g, hash, block)
  }

  class Sha256State {
    const logic: Logic
    ghost const compression: Compression
    var state: array<Word>
    var block: array<Byte>
    var blockSize: nat
    var totalSize: nat
    ghost var done: seq<Byte>
    ghost var message: seq<Byte>

    ghost predicate Sound() { logic.SumsReverse() && Compresses(compression, logic) }

    /** The state is the hash value of the bytes compressed so far. */
    ghost predicate Hashed()
      reads this, state
    {
      state.Length == 8 && |done| % 64 == 0 && state[..] == HashBlocks(compression, done)
    }

    /** Whole blocks are compressed, the rest is buffered. */
    ghost predicate Buffered()
      reads this, state, block
    {
      && Sound() && Hashed()
      && block.Length == 64 && blockSize < 64 && message == done + block[..blockSize]
    }

    ghost predicate Valid()
      reads this, state, block
    {
      Buffered() && totalSize == |message| % TWO_64
    }

    constructor (logic: Logic, ghost compression: Compression)
      requires logic.SumsReverse() && Compresses(compression, logic)
      ensures Valid() && this.compression == compression && message == [] && fresh(state) && fresh(block)
    {
      this.logic, this.compression := logic, compression;
      state := new Word[8](i requires 0 <= i < 8 => INITIAL[i]);
      block := new Byte[64](i => 0);
      blockSize, totalSize, done, message := 0, 0, [], [];
      new;
      assert state[..] == INITIAL;
    }

    method NextScheduleWord(words: array<Word>, i: nat) returns (word: Word)
      requires block.Length == 64 && logic.SumsReverse() && words.Length == 64 && i < 64
      ensures word == ScheduleWord(logic, block[..], words[..i], i)
    {
      if i < 16 {
        var offset := i * 4;
        word := logic.join(block[offset], block[offset + 1], block[offset + 2], block[offset + 3]);
      } else {
        var s0, s1 := logic.smallSigma0(words[i - 15]), logic.smallSigma1(words[i - 2]);
        word := logic.Sum4(words[i - 16], s0, words[i - 7], s1);
      }
    }

    /** The message schedule of the buffered block. */
    method ExpandBlock() returns (words: array<Word>)
      requires block.Length == 64 && logic.SumsReverse()
      ensures fresh(words) && words[..] == Schedule(logic, block[..], block.Length)
    {
      words := new Word[64](i => 0);
      for i := 0 to words.Length
        invariant words[..i] == Schedule(logic, block[..], i)
      {
        var word := NextScheduleWord(words, i);
        words[i] := word;
        assert words[..i + 1] == words[..i] + [word];
      }
      assert words[..words.Length] == words[..];
    }

    /** The rounds over one schedule. */
    method RunRounds(words: array<Word>) returns (r: Registers)
      requires state.Length == 8 && words.Length == 64
      ensures r == Rounds(logic, state[..], words[..])
    {
      r := Registers(state[0], state[1], state[2], state[3], state[4], state[5], state[6], state[7]);
      for i := 0 to words.Length
        invariant r == Rounds(logic, state[..], words[..i])
      {
        assert words[..i + 1][..i] == words[..i];
        var sum1, choose := logic.bigSigma1(r.e), logic.choose(r.e, r.f, r.g);
        var first := logic.plus(logic.Sum4(r.h, sum1, choose, RoundConstant(i)), words[i]);
        var second := logic.plus(logic.bigSigma0(r.a), logic.majority(r.a, r.b, r.c));
        r := Registers(logic.plus(first, second), r.a, r.b, r.c, logic.plus(r.d, first), r.e, r.f, r.g);
      }
      assert words[..words.Length] == words[..];
    }

    method AddTo(i: nat, value: Word)
      requires i < state.Length
      modifies state
      ensures state[..] == old(state[..])[i := logic.plus(old(state[i]), value)]
    {
      state[i] := logic.plus(state[i], value);
    }

    method AddRegisters(r: Registers)
      requires state.Length == 8
      modifies state
      ensures state[..] == Add(logic, old(state[..]), r)
    {
      AddTo(0, r.a);
      AddTo(1, r.b);
      AddTo(2, r.c);
      AddTo(3, r.d);
      AddTo(4, r.e);
      AddTo(5, r.f);
      AddTo(6, r.g);
      AddTo(7, r.h);
    }

    /** One block is compressed into the state. */
    method Transform()
      requires state.Length == 8 && block.Length == 64 && Sound()
      modifies state
      ensures state[..] == compression(old(state[..]), block[..])
    {
      var words := ExpandBlock();
      var r := RunRounds(words);
      AddRegisters(r);
      assert state[..] == Compress(logic, old(state[..]), block[..]);
    }

    /** The block that has been filled is compressed. */
    method Flush()
      requires Sound() && Hashed() && block.Length == 64
      modifies this`done, state
      ensures Hashed() && done == old(done) + block[..]
    {
      ghost var filled := block[..];
      ghost var next := done + filled;
      HashOneMore(compression, done, filled);
      Transform();
      assert state[..] == HashBlocks(compression, next) && block[..] == filled;
      done := next;
    }

    method Copy(data: seq<Byte>)
      requires block.Length == 64 && blockSize + |data| <= 64
      modifies this`blockSize, block
      ensures blockSize == old(blockSize) + |data| && block[..blockSize] == old(block[..blockSize]) + data
    {
      forall i | 0 <= i < |data| {
        block[blockSize + i] := data[i];
      }
      blockSize := blockSize + |data|;
    }

    /** As much data as fits into the buffer. */
    method Absorb(data: seq<Byte>)
      requires Buffered() && |data| <= 64 - blockSize
      modifies this`blockSize, this`done, this`message, state, block
      ensures Buffered() && message == old(message) + data
    {
      Copy(data);
      message := message + data;
      assert message == done + block[..blockSize];
      if blockSize == 64 {
        assert block[..] == block[..blockSize];
        Flush();
        blockSize := 0;
      }
    }

    /** Takes in more data, in whatever portions it comes. */
    method Update(data: seq<Byte>)
      requires Valid()
      modifies this`blockSize, this`totalSize, this`done, this`message, state, block
      ensures Valid() && message == old(message) + data
    {
      WrappedSum(|message|, |data|);
      totalSize := (totalSize + |data|) % TWO_64;
      var rest := data;
      while rest != []
        invariant totalSize == |old(message) + data| % TWO_64
        invariant Buffered() && message + rest == old(message) + data
        decreases |rest|
      {
        var copied := if |rest| < 64 - blockSize then |rest| else 64 - blockSize;
        assert message + rest == message + rest[..copied] + rest[copied..];
        Absorb(rest[..copied]);
        rest := rest[copied..];
      }
    }

    static lemma WrappedSum(a: nat, b: nat)
      ensures (a % TWO_64 + b) % TWO_64 == (a + b) % TWO_64
    {
      var q, r := a / TWO_64, a % TWO_64;
      assert a + b == r + b + TWO_64 * q;
      MultipleVanishes(r + b, q);
    }

    /** Zeros from the buffer's end up to a position. */
    method FillZeros(to: nat)
      requires block.Length == 64 && blockSize <= to <= 64
      modifies block
      ensures block[..to] == old(block[..blockSize]) + Zeros(to - blockSize)
    {
      forall i | blockSize <= i < to {
        block[i] := 0;
      }
    }

    /** The length in bits, most significant byte first, in the last eight bytes. */
    method WriteLength()
      requires block.Length == 64
      modifies block
      ensures block[..] == old(block[..56]) + LengthField(totalSize)
    {
      ghost var totalBits := totalSize * 8 % TWO_64;
      var bits := totalSize * 8 % TWO_64;
      for index := 0 to 8
        invariant bits == Shifted(totalBits, index)
        invariant block[..56] == old(block[..56])
        invariant forall k | 64 - index <= k < 64 :: block[k] == LengthField(totalSize)[k - 56]
      {
        LengthFieldAt(totalSize, index);
        block[63 - index] := (bits % 256) as Byte;
        bits := bits / 256;
      }
      assert block[..] == block[..56] + block[56..];
    }

    /** The end mark, and a block of its own when the length no longer fits behind it. */
    method CloseMessage()
      requires Buffered()
      modifies this`blockSize, this`done, state, block
      ensures Hashed() && block.Length == 64 && blockSize <= 56
      ensures Closed(old(done), old(block[..blockSize]), done, block[..blockSize])
    {
      Copy([0x80]);
      if blockSize > 56 {
        FillZeros(64);
        assert block[..64] == block[..];
        Flush();
        blockSize := 0;
      }
    }

    /** The last block: zeros behind what is buffered, and the length. */
    method LastBlock()
      requires Sound() && Hashed() && block.Length == 64 && blockSize <= 56
      modifies this`done, state, block
      ensures Hashed()
      ensures done == old(done) + (old(block[..blockSize]) + Zeros(56 - |old(block[..blockSize])|) + LengthField(totalSize))
    {
      FillZeros(56);
      WriteLength();
      Flush();
    }

    /** The end mark, the zeros and the length: together with the data, the padded message. */
    method FinishBlocks()
      requires Valid()
      modifies this`blockSize, this`done, state, block
      ensures Hashed() && done == Pad(message)
    {
      ghost var before, rest := done, block[..blockSize];
      LengthOfWrappedSize(|message|);
      CloseMessage();
      ClosedThenPadded(before, rest, done, block[..blockSize]);
      LastBlock();
    }

    /** The digest of everything taken in, as hexadecimal text. */
    method Finish() returns (text: string)
      requires Valid()
      modifies this`blockSize, this`done, state, block
      ensures text == HexOf(Digest(compression, message))
    {
      FinishBlocks();
      text := PrintState();
    }

    method PrintState() returns (text: string)
      ensures text == HexOf(state[..])
    {
      text := "";
      for i := 0 to state.Length
        invariant text == HexOf(state[..i])
      {
        assert state[..i + 1][..i] == state[..i];
        text := text + Hex(state[i] as nat, 8);
      }
      assert state[..state.Length] == state[..];
    }
  }

  function Joined(chunks: seq<seq<Byte>>): seq<Byte> {
    if chunks == [] then [] else Joined(chunks[..|chunks| - 1]) + chunks[|chunks| - 1]
  }

  /** However a file is read, its fingerprint is the digest and the size of its contents. */
  method Fingerprint(chunks: seq<seq<Byte>>) returns (digest: string, size: nat)
    ensures digest == HexOf(Sha256(Joined(chunks))) && size == |Joined(chunks)|
  {
    StandardSumsReverse();
    var sha := new Sha256State(Standard(), CompressionOf(Standard()));
    size := 0;
    for i := 0 to |chunks|
      invariant sha.Valid() && sha.compression == CompressionOf(Standard()) && fresh(sha) && fresh(sha.state) && fresh(sha.block)
      invariant sha.message == Joined(chunks[..i]) && size == |Joined(chunks[..i])|
    {
      assert chunks[..i + 1][..i] == chunks[..i];
      if |chunks[i]| > 0 {
        sha.Update(chunks[i]);
        size := size + |chunks[i]|;
      }
    }
    assert chunks[..|chunks|] == chunks;
    digest := sha.Finish();
  }
}
