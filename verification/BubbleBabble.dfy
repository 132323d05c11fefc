/** The Bubble Babble encoder of pkg/util/bubblebabble: the buffer-filling loop, the recursive
    definition of the Bubble Babble Internet-Draft (draft-huima-01), a decoder for it, and the
    strength of the codes drawn from it. */
module BubbleBabble {
  import opened Powers
  import opened Wrappers

  type Byte = n: nat | n < 256
  type Seed = n: nat | n < 36

  const VOWELS := "aeiouy"
  const CONSONANTS := "bcdfghklmnprstvzx"

  // ---------- the definition ----------

  /** The checksum carried from one pair of bytes to the next. */
  function NextSeed(seed: Seed, b1: Byte, b2: Byte): Seed {
    (seed * 5 + b1 * 7 + b2) % 36
  }

  /** Every index into the two tables is in bounds. */
  function Vowel(i: nat): char
    requires i < 6
  {
    VOWELS[i]
  }

  function Consonant(i: nat): char
    requires i < 17
  {
    CONSONANTS[i]
  }

  /** Bits 6..7, 2..5 and 0..1 of a byte, and its two halves. The shifts and masks of the source are
      written as divisions and remainders. */
  function High(b: Byte): (r: nat) ensures r < 4 { b / 64 % 4 }
  function Middle(b: Byte): (r: nat) ensures r < 16 { b / 4 % 16 }
  function Low(b: Byte): (r: nat) ensures r < 4 { b % 4 }
  function UpperHalf(b: Byte): (r: nat) ensures r < 16 { b / 16 % 16 }
  function LowerHalf(b: Byte): (r: nat) ensures r < 16 { b % 16 }

  /** Vowel, consonant, vowel: one byte in 2 + 4 + 2 bits. */
  function Triple(b: Byte, seed: Seed): (r: string)
    ensures |r| == 3
  {
    [Vowel((High(b) + seed) % 6), Consonant(Middle(b)), Vowel((Low(b) + seed / 6) % 6)]
  }

  function Tail(b: Byte): (r: string)
    ensures |r| == 3
  {
    [Consonant(UpperHalf(b)), '-', Consonant(LowerHalf(b))]
  }

  /** The triple that closes an input of even length. */
  function Checksum(seed: Seed): (r: string)
    ensures |r| == 3
  {
    [Vowel(seed % 6), 'x', Vowel(seed / 6)]
  }

  function Body(bytes: seq<Byte>, seed: Seed): string {
    if |bytes| == 0 then Checksum(seed)
    else if |bytes| == 1 then Triple(bytes[0], seed)
    else Triple(bytes[0], seed) + Tail(bytes[1]) + Body(bytes[2..], NextSeed(seed, bytes[0], bytes[1]))
  }

  function Encode(bytes: seq<Byte>): string {
    "x" + Body(bytes, 1) + "x"
  }

  /** The source's `n | 1`: the least odd number not below n. */
  function OrOne(n: nat): nat {
    if n % 2 == 0 then n + 1 else n
  }

  lemma {:induction false} BodyLength(bytes: seq<Byte>, seed: Seed)
    ensures |Body(bytes, seed)| == OrOne(|bytes|) * 3
  {
    hide Triple, Tail, Checksum, NextSeed;
    if |bytes| >= 2 {
      BodyLength(bytes[2..], NextSeed(seed, bytes[0], bytes[1]));
    }
  }

  // ---------- the loop ----------

  /** The `write` closure: fills the next free cell. */
  method Write(outputBuf: array<char>, outputIndex: nat, c: char) returns (next: nat)
    requires outputIndex < outputBuf.Length
    modifies outputBuf
    ensures next == outputIndex + 1
    ensures outputBuf[..next] == old(outputBuf[..outputIndex]) + [c]
  {
    outputBuf[outputIndex] := c;
    next := outputIndex + 1;
  }

  method WriteTriple(outputBuf: array<char>, outputIndex: nat, b: Byte, seed: Seed) returns (next: nat)
    requires outputIndex + 3 <= outputBuf.Length
    modifies outputBuf
    ensures next == outputIndex + 3
    ensures outputBuf[..next] == old(outputBuf[..outputIndex]) + Triple(b, seed)
  {
    next := Write(outputBuf, outputIndex, Vowel((High(b) + seed) % 6));
    next := Write(outputBuf, next, Consonant(Middle(b)));
    next := Write(outputBuf, next, Vowel((Low(b) + seed / 6) % 6));
  }

  method WriteTail(outputBuf: array<char>, outputIndex: nat, b: Byte) returns (next: nat)
    requires outputIndex + 3 <= outputBuf.Length
    modifies outputBuf
    ensures next == outputIndex + 3
    ensures outputBuf[..next] == old(outputBuf[..outputIndex]) + Tail(b)
  {
    next := Write(outputBuf, outputIndex, Consonant(UpperHalf(b)));
    next := Write(outputBuf, next, '-');
    next := Write(outputBuf, next, Consonant(LowerHalf(b)));
  }

  method WriteChecksum(outputBuf: array<char>, outputIndex: nat, seed: Seed) returns (next: nat)
    requires outputIndex + 3 <= outputBuf.Length
    modifies outputBuf
    ensures next == outputIndex + 3
    ensures outputBuf[..next] == old(outputBuf[..outputIndex]) + Checksum(seed)
  {
    next := Write(outputBuf, outputIndex, Vowel(seed % 6));
    next := Write(outputBuf, next, 'x');
    next := Write(outputBuf, next, Vowel(seed / 6));
  }

  lemma BodyUnfolds(done: string, bytes: seq<Byte>, seed: Seed)
    ensures |bytes| == 0 ==> done + Body(bytes, seed) == done + Checksum(seed)
    ensures |bytes| == 1 ==> done + Body(bytes, seed) == done + Triple(bytes[0], seed)
    ensures |bytes| >= 2 ==>
      done + Body(bytes, seed)
      == done + Triple(bytes[0], seed) + Tail(bytes[1]) + Body(bytes[2..], NextSeed(seed, bytes[0], bytes[1]))
  {
    hide Triple, Tail, Checksum, NextSeed;
  }

  /** The buffer is allocated at its final size, every write goes to the next free cell, and the last
      write fills the last cell; so each cell is written exactly once. */
  method EncodeInBuffer(digest: seq<Byte>) returns (output: string)
    ensures output == Encode(digest)
    ensures |output| == OrOne(|digest|) * 3 + 2
  {
    var outputBuf := new char[OrOne(|digest|) * 3 + 2];
    var inputIndex: nat, outputIndex: nat := 0, 0;
    var seed: Seed := 1;
    ghost var whole := "x" + Body(digest, 1);
    ghost var rest := digest;
    BodyLength(digest, 1);
    hide Body, Triple, Tail, Checksum, OrOne, Vowel, Consonant, High, Middle, Low, UpperHalf, LowerHalf, NextSeed;

    outputIndex := Write(outputBuf, outputIndex, 'x');
    while true
      invariant inputIndex <= |digest| && rest == digest[inputIndex..]
      invariant outputIndex < outputBuf.Length == |whole| + 1
      invariant whole == outputBuf[..outputIndex] + Body(rest, seed)
      decreases |digest| - inputIndex
    {
      BodyUnfolds(outputBuf[..outputIndex], rest, seed);
      if inputIndex >= |digest| {
        outputIndex := WriteChecksum(outputBuf, outputIndex, seed);
        break;
      }

      var byte1 := digest[inputIndex];
      inputIndex := inputIndex + 1;
      outputIndex := WriteTriple(outputBuf, outputIndex, byte1, seed);
      if inputIndex >= |digest| {
        break;
      }

      var byte2 := digest[inputIndex];
      inputIndex := inputIndex + 1;
      outputIndex := WriteTail(outputBuf, outputIndex, byte2);
      rest := rest[2..];
      seed := NextSeed(seed, byte1, byte2);
    }
    assert outputBuf[..outputIndex] == whole;
    outputIndex := Write(outputBuf, outputIndex, 'x');
    assert outputIndex == outputBuf.Length && outputBuf[..] == outputBuf[..outputIndex];
    output := outputBuf[..];
  }

  // ---------- the decoder ----------

  function VowelIndex(c: char): Option<nat> {
    match c
    case 'a' => Some(0) case 'e' => Some(1) case 'i' => Some(2)
    case 'o' => Some(3) case 'u' => Some(4) case 'y' => Some(5)
    case _ => None
  }

  function ConsonantIndex(c: char): Option<nat> {
    match c
    case 'b' => Some(0) case 'c' => Some(1) case 'd' => Some(2) case 'f' => Some(3)
    case 'g' => Some(4) case 'h' => Some(5) case 'k' => Some(6) case 'l' => Some(7)
    case 'm' => Some(8) case 'n' => Some(9) case 'p' => Some(10) case 'r' => Some(11)
    case 's' => Some(12) case 't' => Some(13) case 'v' => Some(14) case 'z' => Some(15)
    case 'x' => Some(16)
    case _ => None
  }

  /** Undoes the shift of a two-bit field by `shift` modulo 6. */
  function Unshift(v: Option<nat>, shift: nat): Option<nat> {
    if v == None then None
    else
      var field := (v.value + 6 - shift % 6) % 6;
      if field < 4 then Some(field) else None
  }

  function DecodeTriple(s: string, seed: Seed): Option<Byte>
    requires |s| == 3
  {
    var hi, mid, lo := Unshift(VowelIndex(s[0]), seed), ConsonantIndex(s[1]), Unshift(VowelIndex(s[2]), seed / 6);
    if hi == None || mid == None || lo == None || hi.value >= 4 || mid.value >= 16 || lo.value >= 4 then None
    else Some(hi.value * 64 + mid.value * 4 + lo.value)
  }

  function DecodeTail(s: string): Option<Byte>
    requires |s| == 3
  {
    var hi, lo := ConsonantIndex(s[0]), ConsonantIndex(s[2]);
    if hi == None || lo == None || hi.value >= 16 || lo.value >= 16 || s[1] != '-' then None
    else Some(hi.value * 16 + lo.value)
  }

  function DecodeBody(s: string, seed: Seed): Option<seq<Byte>> {
    if |s| < 3 then None
    else if |s| == 3 then
      if s == Checksum(seed) then Some([])
      else match DecodeTriple(s, seed)
        case None => None
        case Some(b) => Some([b])
    else if |s| < 6 then None
    else match (DecodeTriple(s[..3], seed), DecodeTail(s[3..6]))
      case (Some(b1), Some(b2)) =>
        (match DecodeBody(s[6..], NextSeed(seed, b1, b2))
         case None => None
         case Some(rest) => Some([b1, b2] + rest))
      case _ => None
  }

  function Decode(s: string): Option<seq<Byte>> {
    if |s| < 2 || s[0] != 'x' || s[|s| - 1] != 'x' then None
    else DecodeBody(s[1..|s| - 1], 1)
  }

  lemma VowelIndexInverts(c: char, i: nat)
    requires i < 6
    ensures VowelIndex(c) == Some(i) <==> c == Vowel(i)
  {
  }

  lemma ConsonantIndexInverts(c: char, i: nat)
    requires i < 17
    ensures ConsonantIndex(c) == Some(i) <==> c == Consonant(i)
  {
  }

  lemma UnshiftInverts(field: nat, c: char, shift: nat)
    requires field < 4
    ensures Unshift(VowelIndex(c), shift) == Some(field) <==> c == Vowel((field + shift) % 6)
  {
    var r := shift % 6;
    assert shift == 6 * (shift / 6) + r;
    VowelIndexInverts(c, (field + r) % 6);
    assert (field + shift) % 6 == (field + r) % 6;
  }

  lemma ByteFields(b: Byte)
    ensures b == High(b) * 64 + Middle(b) * 4 + Low(b)
    ensures b == UpperHalf(b) * 16 + LowerHalf(b)
  {
  }

  lemma TripleInverts(b: Byte, s: string, seed: Seed)
    requires |s| == 3
    ensures DecodeTriple(s, seed) == Some(b) <==> s == Triple(b, seed)
  {
    ByteFields(b);
    hide Vowel, Consonant, Unshift, VowelIndex, ConsonantIndex, High, Middle, Low;
    UnshiftInverts(High(b), s[0], seed);
    ConsonantIndexInverts(s[1], Middle(b));
    UnshiftInverts(Low(b), s[2], seed / 6);
  }

  lemma TailInverts(b: Byte, s: string)
    requires |s| == 3
    ensures DecodeTail(s) == Some(b) <==> s == Tail(b)
  {
    ByteFields(b);
    hide Consonant, ConsonantIndex, UpperHalf, LowerHalf;
    ConsonantIndexInverts(s[0], UpperHalf(b));
    ConsonantIndexInverts(s[2], LowerHalf(b));
  }

  /** The middle of a data triple is never `x`, so no data triple is a checksum. */
  lemma TripleIsNotChecksum(b: Byte, seed: Seed)
    ensures Triple(b, seed) != Checksum(seed)
  {
    hide Vowel, Middle;
    assert Consonant(Middle(b)) != 'x';
    assert Triple(b, seed)[1] != Checksum(seed)[1];
  }

  lemma {:induction false} BodyInverts(bytes: seq<Byte>, s: string, seed: Seed)
    ensures DecodeBody(s, seed) == Some(bytes) <==> s == Body(bytes, seed)
    decreases |s|
  {
    hide Triple, Tail, Checksum, NextSeed, DecodeTriple, DecodeTail;
    BodyLength(bytes, seed);
    if |s| == 3 {
      if |bytes| == 1 {
        assert bytes == [bytes[0]];
        TripleInverts(bytes[0], s, seed);
        TripleIsNotChecksum(bytes[0], seed);
      }
    } else if |s| >= 6 && |bytes| >= 2 {
      var b1, b2, rest := bytes[0], bytes[1], bytes[2..];
      TripleInverts(b1, s[..3], seed);
      TailInverts(b2, s[3..6]);
      BodyInverts(rest, s[6..], NextSeed(seed, b1, b2));
      assert s == s[..3] + s[3..6] + s[6..];
      assert bytes == [b1, b2] + rest;
      if s == Body(bytes, seed) {
        assert s[..3] == Triple(b1, seed);
        assert s[3..6] == Tail(b2);
        assert s[6..] == Body(rest, NextSeed(seed, b1, b2));
      }
      if DecodeBody(s, seed) == Some(bytes) {
        var d1, d2 := DecodeTriple(s[..3], seed).value, DecodeTail(s[3..6]).value;
        var d := DecodeBody(s[6..], NextSeed(seed, d1, d2)).value;
        assert ([d1, d2] + d)[0] == d1 && ([d1, d2] + d)[1] == d2 && ([d1, d2] + d)[2..] == d;
      }
    }
  }

  /** The decoder accepts exactly the encodings and maps each back to its bytes. */
  lemma DecodeInvertsEncode(bytes: seq<Byte>, s: string)
    ensures Decode(s) == Some(bytes) <==> s == Encode(bytes)
  {
    var body := Body(bytes, 1);
    if |s| >= 2 && s[0] == 'x' && s[|s| - 1] == 'x' {
      BodyInverts(bytes, s[1..|s| - 1], 1);
      assert s == "x" + s[1..|s| - 1] + "x";
      assert Encode(bytes)[1..|Encode(bytes)| - 1] == body;
    }
  }

  lemma EncodeIsInjective(a: seq<Byte>, b: seq<Byte>)
    requires Encode(a) == Encode(b)
    ensures a == b
  {
    DecodeInvertsEncode(a, Encode(a));
    DecodeInvertsEncode(b, Encode(b));
  }

  /** Inputs of lengths 2k and 2k + 1 give outputs of one length, and they are the only ones. */
  lemma LengthsThatCollide(a: seq<Byte>, b: seq<Byte>)
    ensures |Encode(a)| == |Encode(b)| <==> |a| / 2 == |b| / 2
  {
    BodyLength(a, 1);
    BodyLength(b, 1);
  }

  // ---------- the draft's own indexing ----------

  /** The checksum of the draft, by tuple number: C(1) = 1 and C(n) = (5 C(n-1) + 7 D(2n-3) + D(2n-2)) mod 36,
      with tuples and bytes counted from 1 there and from 0 here. */
  function ChecksumAt(bytes: seq<Byte>, k: nat): Seed
    requires 2 * k <= |bytes|
  {
    if k == 0 then 1 else
      var previous: int, first: int, second: int := ChecksumAt(bytes, k - 1), bytes[2 * k - 2], bytes[2 * k - 1];
      (5 * previous + 7 * first + second) % 36
  }

  lemma BodyDrop(bytes: seq<Byte>, seed: Seed)
    requires |bytes| >= 2
    ensures |Body(bytes, seed)| >= 6
    ensures Body(bytes, seed)[6..] == Body(bytes[2..], NextSeed(seed, bytes[0], bytes[1]))
    ensures Body(bytes, seed)[..6] == Triple(bytes[0], seed) + Tail(bytes[1])
  {
    hide Triple, Tail, Checksum, NextSeed;
  }

  lemma ChecksumStep(bytes: seq<Byte>, k: nat)
    requires 0 < k && 2 * k <= |bytes|
    ensures ChecksumAt(bytes, k) == NextSeed(ChecksumAt(bytes, k - 1), bytes[2 * k - 2], bytes[2 * k - 1])
  {
  }

  lemma {:induction false} BodyFrom(bytes: seq<Byte>, k: nat)
    requires 2 * k <= |bytes|
    ensures |Body(bytes, 1)| >= 6 * k && Body(bytes, 1)[6 * k..] == Body(bytes[2 * k..], ChecksumAt(bytes, k))
  {
    hide Body, NextSeed;
    if k > 0 {
      BodyFrom(bytes, k - 1);
      ChecksumStep(bytes, k);
      hide ChecksumAt;
      var whole, rest, seed := Body(bytes, 1), bytes[2 * k - 2..], ChecksumAt(bytes, k - 1);
      BodyDrop(rest, seed);
      assert rest[2..] == bytes[2 * k..];
      assert whole[6 * k - 6..][6..] == whole[6 * k..];
    } else {
      assert bytes[0..] == bytes;
    }
  }

  /** Every tuple stands where the draft puts it and depends on its own bytes and checksum only: the
      full tuples first, then one last triple that holds the odd byte or the checksum. */
  lemma TupleAt(bytes: seq<Byte>, k: nat)
    requires 2 * k <= |bytes|
    ensures 6 * k + 4 <= |Encode(bytes)|
    ensures 2 * k + 1 < |bytes| ==> 6 * k + 7 <= |Encode(bytes)|
    ensures 2 * k + 1 < |bytes| ==>
      Encode(bytes)[6 * k + 1..6 * k + 7] == Triple(bytes[2 * k], ChecksumAt(bytes, k)) + Tail(bytes[2 * k + 1])
    ensures 2 * k + 1 == |bytes| ==>
      Encode(bytes)[6 * k + 1..] == Triple(bytes[2 * k], ChecksumAt(bytes, k)) + "x"
    ensures 2 * k == |bytes| ==>
      Encode(bytes)[6 * k + 1..] == Checksum(ChecksumAt(bytes, k)) + "x"
  {
    hide Triple, Tail, Checksum, ChecksumAt;
    BodyFrom(bytes, k);
    BodyLength(bytes[2 * k..], ChecksumAt(bytes, k));
    var whole, rest := Body(bytes, 1), Body(bytes[2 * k..], ChecksumAt(bytes, k));
    assert Encode(bytes)[6 * k + 1..] == rest + "x";
    if 2 * k + 1 < |bytes| {
      BodyDrop(bytes[2 * k..], ChecksumAt(bytes, k));
      assert Encode(bytes)[6 * k + 1..6 * k + 7] == rest[..6];
    }
  }

  // ---------- codes of a given strength ----------

  /** Go's `%`, which truncates towards zero. */
  function Rem(a: int, b: nat): int
    requires b > 0
  {
    if a >= 0 then a % b else -((-a) % b)
  }

  function ByteCount(minimumBits: int): int {
    (if Rem(minimumBits, 8) != 0 then minimumBits + 8 - Rem(minimumBits, 8) else minimumBits) / 8
  }

  datatype RandomError = ReadFailed | InsufficientEntropy

  /** `drawn` are the bytes the random source delivered and `failed` whether it reported an error. A
      negative byte count makes the source panic when it allocates. */
  method RandomWithEntropyOfAtLeast(minimumBits: int, drawn: seq<Byte>, failed: bool)
    returns (r: Result<string, RandomError>)
    requires ByteCount(minimumBits) >= 0
    ensures r.Ok? <==> !failed && |drawn| == ByteCount(minimumBits)
    ensures r.Ok? ==> Decode(r.value) == Some(drawn)
    ensures r == Err(ReadFailed) <==> failed
  {
    var bits := minimumBits;
    if Rem(bits, 8) != 0 {
      bits := bits + (8 - Rem(bits, 8));
    }
    var byteCount := bits / 8;
    if failed {
      return Err(ReadFailed);
    }
    if |drawn| != byteCount {
      return Err(InsufficientEntropy);
    }
    var code := EncodeInBuffer(drawn);
    DecodeInvertsEncode(drawn, code);
    r := Ok(code);
  }

  ghost function Prepend(b: Byte, tails: set<seq<Byte>>): set<seq<Byte>> {
    set t | t in tails :: [b] + t
  }

  ghost function PrependAll(n: nat, tails: set<seq<Byte>>): set<seq<Byte>>
    requires n <= 256
  {
    if n == 0 then {} else PrependAll(n - 1, tails) + Prepend(n - 1, tails)
  }

  /** All byte strings of a given length. */
  ghost function Strings(length: nat): set<seq<Byte>> {
    if length == 0 then {[]} else PrependAll(256, Strings(length - 1))
  }

  ghost function Codes(inputs: set<seq<Byte>>): set<string> {
    set b | b in inputs :: Encode(b)
  }

  lemma {:induction false} PrependAllMembers(n: nat, tails: set<seq<Byte>>, s: seq<Byte>)
    requires n <= 256
    ensures s in PrependAll(n, tails) <==> |s| > 0 && s[0] < n && s[1..] in tails
  {
    if n > 0 {
      PrependAllMembers(n - 1, tails, s);
      if |s| > 0 && s[1..] in tails {
        assert s == [s[0]] + s[1..];
      }
      if s in Prepend(n - 1, tails) {
        var t :| t in tails && s == [n - 1] + t;
        assert s[1..] == t;
      }
    }
  }

  lemma {:induction false} PrependSize(b: Byte, tails: set<seq<Byte>>)
    ensures |Prepend(b, tails)| == |tails|
  {
    if tails != {} {
      var t :| t in tails;
      PrependSize(b, tails - {t});
      assert forall u :: u in tails && [b] + u == [b] + t ==> ([b] + u)[1..] == u && ([b] + t)[1..] == t;
      assert Prepend(b, tails) == Prepend(b, tails - {t}) + {[b] + t};
    } else {
      assert Prepend(b, tails) == {};
    }
  }

  lemma PrependedApart(n: nat, tails: set<seq<Byte>>)
    requires n < 256
    ensures PrependAll(n, tails) !! Prepend(n, tails)
  {
    hide PrependAll;
    forall s | s in Prepend(n, tails) ensures s !in PrependAll(n, tails) {
      PrependAllMembers(n, tails, s);
    }
  }

  lemma OneMore(n: nat, size: nat)
    requires n > 0
    ensures n * size == (n - 1) * size + size
  {
  }

  lemma {:induction false} PrependAllSize(n: nat, tails: set<seq<Byte>>)
    requires n <= 256
    ensures |PrependAll(n, tails)| == n * |tails|
  {
    if n > 0 {
      PrependAllSize(n - 1, tails);
      PrependSize(n - 1, tails);
      PrependedApart(n - 1, tails);
      OneMore(n, |tails|);
      hide Prepend;
    }
  }

  lemma {:induction false} StringsOfLength(length: nat, s: seq<Byte>)
    ensures s in Strings(length) <==> |s| == length
  {
    if length > 0 {
      PrependAllMembers(256, Strings(length - 1), s);
      if |s| > 0 {
        StringsOfLength(length - 1, s[1..]);
      }
    }
  }

  lemma {:induction false} StringsSize(length: nat)
    ensures |Strings(length)| == Pow(256, length)
  {
    if length > 0 {
      StringsSize(length - 1);
      PrependAllSize(256, Strings(length - 1));
    }
  }

  lemma {:induction false} CodesSize(inputs: set<seq<Byte>>)
    ensures |Codes(inputs)| == |inputs|
  {
    if inputs != {} {
      var b :| b in inputs;
      var rest := inputs - {b};
      CodesSize(rest);
      if Encode(b) in Codes(rest) {
        var c :| c in rest && Encode(c) == Encode(b);
        EncodeIsInjective(b, c);
      }
      assert Codes(inputs) == Codes(rest) + {Encode(b)};
    } else {
      assert Codes(inputs) == {};
    }
  }

  lemma {:induction false} PowOfBytes(k: nat)
    ensures Pow(256, k) == Pow(2, 8 * k)
  {
    if k > 0 {
      PowOfBytes(k - 1);
      PowSum(2, 8, 8 * (k - 1));
      assert Pow(2, 8) == 256 by {
        assert Pow(2, 4) == 16;
        PowSum(2, 4, 4);
      }
    }
  }

  lemma {:induction false} PowGrows(m: nat, n: nat)
    requires m <= n
    ensures 1 <= Pow(2, m) <= Pow(2, n)
    decreases n
  {
    if m < n {
      PowGrows(m, n - 1);
    } else if m > 0 {
      PowGrows(m - 1, m - 1);
    }
  }

  /** The number of bytes drawn is the least that covers the wanted bits, and the codes that can come
      out are that many bits strong: 2 to the 8 * byteCount different ones. */
  lemma CodesAreStrongEnough(minimumBits: nat)
    ensures var k := ByteCount(minimumBits);
      && k >= 0 && 8 * k >= minimumBits && (forall j: nat :: 8 * j >= minimumBits ==> k <= j)
      && (forall s :: s in Strings(k) <==> |s| == k)
      && |Codes(Strings(k))| == Pow(2, 8 * k) >= Pow(2, minimumBits)
  {
    hide Pow, Strings, Codes;
    var k := ByteCount(minimumBits);
    forall s ensures s in Strings(k) <==> |s| == k {
      StringsOfLength(k, s);
    }
    CodesSize(Strings(k));
    StringsSize(k);
    PowOfBytes(k);
    PowGrows(minimumBits, 8 * k);
  }

  /** The triple that closes an input of even length spells out the checksum: its remainder and its quotient
      by six as vowels, around an `x`. The empty input is the first such, with checksum 1. */
  lemma ClosingTriple(bytes: seq<Byte>)
    requires |bytes| % 2 == 0
    ensures var k := |bytes| / 2; var s, c: int := Encode(bytes), ChecksumAt(bytes, |bytes| / 2);
      && |s| == 6 * k + 5
      && VowelIndex(s[6 * k + 1]) == Some(c % 6)
      && s[6 * k + 2] == 'x'
      && VowelIndex(s[6 * k + 3]) == Some(c / 6)
    ensures Encode([]) == "xexax"
  {
    var k := |bytes| / 2;
    TupleAt(bytes, k);
    BodyLength(bytes, 1);
    var c := ChecksumAt(bytes, k);
    hide Body, ChecksumAt, Encode;
    assert Encode(bytes)[6 * k + 1..] == Checksum(c) + "x";
    assert Encode(bytes)[6 * k + 1..][..3] == Checksum(c);
    VowelIndexInverts(Vowel(c % 6), c % 6);
    VowelIndexInverts(Vowel(c / 6), c / 6);
    EmptyIs();
  }

  lemma EmptyIs()
    ensures Encode([]) == "xexax"
  {
  }
}
