/** What travels in one slot of the DC-net: header, message and digest behind a random seed. */
module DcNetCodec {
  import opened Xor

  // ----- integers -----

  const INT_LIMIT: int := 0x8000_0000

  function ByteOf(n: int): Byte {
    n % 256
  }

  /** The four bytes of a 32-bit integer, least significant first. */
  function WriteInt(n: int): (r: Buf)
    ensures |r| == 4
  {
    [ByteOf(n), ByteOf(n / 256), ByteOf(n / 256 / 256), ByteOf(n / 256 / 256 / 256)]
  }

  /** The signed value of four bytes. */
  function Assemble(b0: Byte, b1: Byte, b2: Byte, b3: Byte): (n: int)
    ensures -INT_LIMIT <= n < INT_LIMIT
  {
    var u := b0 + 256 * b1 + 65536 * b2 + 16777216 * b3;
    if u < INT_LIMIT then u else u - 2 * INT_LIMIT
  }

  function ReadInt(b: Buf, offset: nat): (n: int)
    requires offset + 4 <= |b|
    ensures -INT_LIMIT <= n < INT_LIMIT
  {
    Assemble(b[offset], b[offset + 1], b[offset + 2], b[offset + 3])
  }

  lemma {:induction false} AssembleBytes(n: int, n1: int, n2: int, n3: int)
    requires -INT_LIMIT <= n < INT_LIMIT
    requires n1 == n / 256 && n2 == n1 / 256 && n3 == n2 / 256
    ensures Assemble(n % 256, n1 % 256, n2 % 256, n3 % 256) == n
  {
    assert n == 256 * n1 + n % 256 && n1 == 256 * n2 + n1 % 256 && n2 == 256 * n3 + n2 % 256;
    assert n3 % 256 == if n < 0 then n3 + 256 else n3;
  }

  lemma {:induction false} ReadWrite(n: int, front: Buf, back: Buf)
    requires -INT_LIMIT <= n < INT_LIMIT
    ensures ReadInt(front + WriteInt(n) + back, |front|) == n
  {
    var b, w := front + WriteInt(n) + back, WriteInt(n);
    assert forall i :: 0 <= i < 4 ==> b[|front| + i] == w[i];
    var n1 := n / 256;
    var n2 := n1 / 256;
    var n3 := n2 / 256;
    AssembleBytes(n, n1, n2, n3);
    assert b[|front|] == w[0] && b[|front| + 1] == w[1] && b[|front| + 2] == w[2] && b[|front| + 3] == w[3];
  }

  // ----- the codec -----

  /** b cut or extended to n bytes. */
  function Fit(b: Buf, n: nat): (r: Buf)
    ensures |r| == n && (|b| == n ==> r == b)
  {
    seq(n, i requires 0 <= i < n => if i < |b| then b[i] else 0)
  }

  /** The hash and the generator behind the slots, with the sizes of digest and seed. */
  datatype Codec = Codec(seedSize: nat, digestSize: nat, hash: Buf -> Buf, generator: (Buf, nat) -> Buf)
  {
    function Digest(b: Buf): (r: Buf)
      ensures |r| == digestSize
    {
      Fit(hash(b), digestSize)
    }

    function Stream(seed: Buf, n: nat): (r: Buf)
      ensures |r| == n
    {
      Fit(generator(seed, n), n)
    }

    /** SlotHeaderLength. */
    function Header(): nat {
      9 + seedSize + digestSize
    }

    /** The seed is drawn until it differs from the null seed. */
    predicate GoodSeed(seed: Buf) {
      |seed| == seedSize && seed != Zeros(seedSize)
    }
  }

  function Randomize(C: Codec, msg: Buf, seed: Buf): (r: Buf)
    ensures |r| == |seed| + |msg|
  {
    seed + Xored(C.Stream(seed, |msg|), msg)
  }

  function Derandomize(C: Codec, text: Buf): (r: Buf)
    requires |text| >= C.seedSize
  {
    var seed, msg := text[..C.seedSize], text[C.seedSize..];
    if seed == Zeros(C.seedSize) then [] else Xored(C.Stream(seed, |msg|), msg)
  }

  lemma {:induction false} DerandomizeRandomize(C: Codec, msg: Buf, seed: Buf)
    requires C.GoodSeed(seed)
    ensures Derandomize(C, Randomize(C, msg, seed)) == msg
  {
    var pad := C.Stream(seed, |msg|);
    var text := Randomize(C, msg, seed);
    assert text[..C.seedSize] == seed && text[C.seedSize..] == Xored(pad, msg);
    forall i | 0 <= i < |msg| ensures Add(pad[i], Add(pad[i], msg[i])) == msg[i] {
      AddCancel(msg[i], pad[i]);
    }
    assert Xored(pad, Xored(pad, msg)) == msg;
  }

  /** The part of a slot message that the digest covers. */
  function Body(phase: int, next: int, msg: Buf): (r: Buf)
    ensures |r| == 8 + |msg|
  {
    WriteInt(phase) + WriteInt(next) + msg
  }

  /** What GenerateSlotMessage writes. An accusing owner blanks its message and asks for an
      empty slot. */
  function SlotText(C: Codec, phase: int, accuse: bool, next: nat, msg: Buf, seed: Buf): (r: Buf)
    requires |seed| == C.seedSize
    ensures |r| == C.Header() + |msg|
  {
    var body := if accuse then Body(phase, C.Header(), Zeros(|msg|)) else Body(phase, next, msg);
    Randomize(C, [if accuse then 0xFF else 0] + body + C.Digest(body), seed)
  }

  /** How ProcessCleartext classifies the contents of a slot. */
  datatype Outcome = Absent | Corrupt | WrongPhase | NegativeLength | Good(next: nat, msg: Buf)

  /** A slot shorter than the header cannot hold a message. */
  function Parse(C: Codec, phase: int, text: Buf): (r: Outcome)
    ensures r.Good? ==> |r.msg| == |text| - C.Header()
  {
    if |text| < C.Header() then Corrupt else
    var plain := Derandomize(C, text);
    if plain == [] then Absent else
    var body, digest := plain[1..|plain| - C.digestSize], plain[|plain| - C.digestSize..];
    if C.Digest(body) != digest then Corrupt
    else if ReadInt(body, 0) != phase then WrongPhase
    else if ReadInt(body, 4) < 0 then NegativeLength
    else Good(ReadInt(body, 4), body[8..])
  }

  /** Whether a slot raises the accusation flag. */
  predicate Accuses(C: Codec, text: Buf)
  {
    && |text| >= C.Header()
    && var plain := Derandomize(C, text);
       plain != [] && plain[0] != 0
  }

  lemma {:induction false} ReadBody(phase: int, next: int, msg: Buf)
    requires -INT_LIMIT <= phase < INT_LIMIT && -INT_LIMIT <= next < INT_LIMIT
    ensures ReadInt(Body(phase, next, msg), 0) == phase
    ensures ReadInt(Body(phase, next, msg), 4) == next
    ensures Body(phase, next, msg)[8..] == msg
  {
    var body := Body(phase, next, msg);
    assert body == [] + WriteInt(phase) + (WriteInt(next) + msg);
    ReadWrite(phase, [], WriteInt(next) + msg);
    ReadWrite(next, WriteInt(phase), msg);
  }

  /** A slot message is read back as written. */
  lemma {:induction false} ParseSlotText(C: Codec, phase: int, next: nat, msg: Buf, seed: Buf)
    requires C.GoodSeed(seed)
    requires 0 <= phase < INT_LIMIT && next < INT_LIMIT
    ensures Parse(C, phase, SlotText(C, phase, false, next, msg, seed)) == Good(next, msg)
    ensures !Accuses(C, SlotText(C, phase, false, next, msg, seed))
  {
    var body := Body(phase, next, msg);
    var plain := [0] + body + C.Digest(body);
    DerandomizeRandomize(C, plain, seed);
    assert plain[1..|plain| - C.digestSize] == body;
    assert plain[|plain| - C.digestSize..] == C.Digest(body);
    ReadBody(phase, next, msg);
  }

  /** An accusing slot is read back with its flag, an empty next slot and no contents. */
  lemma {:induction false} ParseAccusation(C: Codec, phase: int, next: nat, msg: Buf, seed: Buf)
    requires C.GoodSeed(seed)
    requires 0 <= phase < INT_LIMIT && C.Header() < INT_LIMIT
    ensures Parse(C, phase, SlotText(C, phase, true, next, msg, seed)) == Good(C.Header(), Zeros(|msg|))
    ensures Accuses(C, SlotText(C, phase, true, next, msg, seed))
  {
    var body := Body(phase, C.Header(), Zeros(|msg|));
    var plain := [0xFF] + body + C.Digest(body);
    DerandomizeRandomize(C, plain, seed);
    assert plain[1..|plain| - C.digestSize] == body;
    assert plain[|plain| - C.digestSize..] == C.Digest(body);
    ReadBody(phase, C.Header(), Zeros(|msg|));
  }

  /** An untouched slot reads as absent. */
  lemma {:induction false} ParseZeros(C: Codec, phase: int, n: nat)
    requires n >= C.Header()
    ensures Parse(C, phase, Zeros(n)) == Absent && !Accuses(C, Zeros(n))
  {
    assert Zeros(n)[..C.seedSize] == Zeros(C.seedSize);
  }
}
