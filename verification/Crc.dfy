/** The CRC of PNG chunks, one bit at a time (ISO/IEC 15948, section 5.5). */
module Crc {
  import opened Words

  predicate PolynomialBit(i: nat) {
    0xedb88320 / Power(i) % 2 == 1
  }

  function Polynomial(): Word {
    seq(32, i requires 0 <= i < 32 => PolynomialBit(i))
  }

  function BitStep(crc: Word): Word {
    Xor(ShiftRight(crc, 1), if crc[0] then Polynomial() else Zero())
  }

  type Step = Word -> Word

  function BitSteps(step: Step, crc: Word, count: nat): Word {
    if count == 0 then crc else step(BitSteps(step, crc, count - 1))
  }

  /** A byte at the low end of a word. */
  function LowByte(b: Byte): Word {
    Digits(b, 8) + Same(false, 24)
  }

  function ByteStep(step: Step, crc: Word, b: Byte): Word {
    BitSteps(step, Xor(crc, LowByte(b)), 8)
  }

  function Feed(step: Step, crc: Word, bytes: seq<Byte>): Word {
    if bytes == [] then crc else ByteStep(step, Feed(step, crc, bytes[..|bytes| - 1]), bytes[|bytes| - 1])
  }

  function Crc32(bytes: seq<Byte>): Word {
    Xor(Feed(BitStep, Ones(), bytes), Ones())
  }

  method ComputeCrc32(bytes: seq<Byte>) returns (crc: Word)
    ensures crc == Crc32(bytes)
  {
    crc := Ones();
    for i := 0 to |bytes|
      invariant crc == Feed(BitStep, Ones(), bytes[..i])
    {
      crc := TakeByte(crc, bytes[i]);
      FeedWithLast(BitStep, Ones(), bytes[..i], bytes[i]);
      assert bytes[..i] + [bytes[i]] == bytes[..i + 1];
    }
    assert bytes[..|bytes|] == bytes;
    crc := Xor(crc, Ones());
  }

  method TakeByte(before: Word, b: Byte) returns (crc: Word)
    ensures crc == ByteStep(BitStep, before, b)
  {
    crc := Xor(before, LowByte(b));
    for bit := 0 to 8
      invariant crc == BitSteps(BitStep, Xor(before, LowByte(b)), bit)
    {
      crc := Xor(ShiftRight(crc, 1), if crc[0] then Polynomial() else Zero());
    }
  }

  lemma FeedWithLast(step: Step, crc: Word, bytes: seq<Byte>, last: Byte)
    ensures Feed(step, crc, bytes + [last]) == ByteStep(step, Feed(step, crc, bytes), last)
  {
    assert (bytes + [last])[..|bytes|] == bytes;
  }

  // No step loses anything.

  lemma XorLosesNothing(a: Word, b: Word, c: Word)
    requires Xor(a, c) == Xor(b, c)
    ensures a == b
  {
    XorTwice(a, c);
    XorTwice(b, c);
  }

  lemma TopBit(a: Word)
    ensures BitStep(a)[31] == a[0]
  {
    PolynomialTop();
  }

  lemma PolynomialTop()
    ensures PolynomialBit(31)
  {
    FourMore(27);
    FourMore(23);
    FourMore(19);
    FourMore(15);
    FourMore(11);
    FourMore(7);
    FourMore(3);
  }

  lemma FourMore(count: nat)
    ensures Power(count + 4) == 16 * Power(count)
  {
    assert Power(count + 4) == 2 * Power(count + 3) && Power(count + 2) == 2 * Power(count + 1);
  }

  /** The polynomial's top bit tells which way a bit step went. */
  lemma BitStepLosesNothing(a: Word, b: Word)
    requires BitStep(a) == BitStep(b)
    ensures a == b
  {
    TopBit(a);
    TopBit(b);
    XorLosesNothing(ShiftRight(a, 1), ShiftRight(b, 1), if a[0] then Polynomial() else Zero());
    forall i | 1 <= i < 32 ensures a[i] == b[i] {
      assert ShiftRight(a, 1)[i - 1] == a[i] && ShiftRight(b, 1)[i - 1] == b[i];
    }
  }

  ghost predicate TellsApart(step: Step) {
    forall a, b :: step(a) == step(b) ==> a == b
  }

  lemma BitStepTellsApart()
    ensures TellsApart(BitStep)
  {
    forall a: Word, b: Word | BitStep(a) == BitStep(b) ensures a == b {
      BitStepLosesNothing(a, b);
    }
  }

  lemma {:induction false} BitStepsLoseNothing(step: Step, a: Word, b: Word, count: nat)
    requires TellsApart(step) && BitSteps(step, a, count) == BitSteps(step, b, count)
    ensures a == b
  {
    if count > 0 {
      assert step(BitSteps(step, a, count - 1)) == step(BitSteps(step, b, count - 1));
      BitStepsLoseNothing(step, a, b, count - 1);
    }
  }

  lemma ByteStepLosesNothing(step: Step, a: Word, b: Word, value: Byte)
    requires TellsApart(step) && ByteStep(step, a, value) == ByteStep(step, b, value)
    ensures a == b
  {
    BitStepsLoseNothing(step, Xor(a, LowByte(value)), Xor(b, LowByte(value)), 8);
    XorLosesNothing(a, b, LowByte(value));
  }

  lemma {:induction false} FeedLosesNothing(step: Step, a: Word, b: Word, bytes: seq<Byte>)
    requires TellsApart(step) && Feed(step, a, bytes) == Feed(step, b, bytes)
    ensures a == b
  {
    if bytes != [] {
      var last := |bytes| - 1;
      ByteStepLosesNothing(step, Feed(step, a, bytes[..last]), Feed(step, b, bytes[..last]), bytes[last]);
      FeedLosesNothing(step, a, b, bytes[..last]);
    }
  }

  lemma {:induction false} FeedOn(step: Step, crc: Word, first: seq<Byte>, second: seq<Byte>)
    ensures Feed(step, crc, first + second) == Feed(step, Feed(step, crc, first), second)
  {
    if second == [] {
      assert first + second == first;
    } else {
      var most, last := second[..|second| - 1], second[|second| - 1];
      FeedOn(step, crc, first, most);
      FeedWithLast(step, crc, first + most, last);
      FeedWithLast(step, Feed(step, crc, first), most, last);
      assert first + most + [last] == first + second && most + [last] == second;
    }
  }

  // Up to four bytes are fed as one word.

  lemma BitStepAdds(a: Word, b: Word)
    requires !b[0]
    ensures BitStep(Xor(a, b)) == Xor(BitStep(a), ShiftRight(b, 1))
  {
  }

  ghost predicate Adds(step: Step) {
    forall a: Word, b: Word :: !b[0] ==> step(Xor(a, b)) == Xor(step(a), ShiftRight(b, 1))
  }

  lemma BitStepAddsAlways()
    ensures Adds(BitStep)
  {
    forall a: Word, b: Word | !b[0] ensures BitStep(Xor(a, b)) == Xor(BitStep(a), ShiftRight(b, 1)) {
      BitStepAdds(a, b);
    }
  }

  /** What waits above the bits under way comes down to its place unchanged. */
  lemma {:induction false} BitStepsAdd(step: Step, a: Word, b: Word, count: nat)
    requires Adds(step) && count <= 32 && forall i :: 0 <= i < count ==> !b[i]
    ensures BitSteps(step, Xor(a, b), count) == Xor(BitSteps(step, a, count), ShiftRight(b, count))
  {
    if count == 0 {
      assert ShiftRight(b, 0) == b;
    } else {
      BitStepsAdd(step, a, b, count - 1);
      assert !ShiftRight(b, count - 1)[0];
      assert ShiftRight(ShiftRight(b, count - 1), 1) == ShiftRight(b, count);
    }
  }

  lemma {:induction false} BitStepsOn(step: Step, a: Word, first: nat, second: nat)
    ensures BitSteps(step, a, first + second) == BitSteps(step, BitSteps(step, a, first), second)
  {
    if second > 0 {
      BitStepsOn(step, a, first, second - 1);
    }
  }

  function Bits(bytes: seq<Byte>): (bits: seq<bool>)
    ensures |bits| == 8 * |bytes|
  {
    if bytes == [] then [] else Bits(bytes[..|bytes| - 1]) + Digits(bytes[|bytes| - 1], 8)
  }

  /** Up to four bytes at the low end of a word. */
  function Together(bytes: seq<Byte>): Word
    requires |bytes| <= 4
  {
    Bits(bytes) + Same(false, 32 - 8 * |bytes|)
  }

  lemma {:induction false} FeedIsOneWord(step: Step, crc: Word, bytes: seq<Byte>)
    requires Adds(step) && |bytes| <= 4
    ensures Feed(step, crc, bytes) == BitSteps(step, Xor(crc, Together(bytes)), 8 * |bytes|)
  {
    if bytes == [] {
      assert Xor(crc, Together([])) == crc;
    } else {
      var before, last := bytes[..|bytes| - 1], bytes[|bytes| - 1];
      FeedIsOneWord(step, crc, before);
      TogetherWithLast(crc, before, last);
      ByteAfterWord(step, Xor(crc, Together(before)), last, 8 * |before|);
      FeedWithLast(step, crc, before, last);
      assert before + [last] == bytes;
    }
  }

  lemma ByteAfterWord(step: Step, word: Word, last: Byte, done: nat)
    requires Adds(step) && done <= 24
    ensures ByteStep(step, BitSteps(step, word, done), last) == BitSteps(step, Xor(word, ByteAt(last, done)), done + 8)
  {
    BitStepsAdd(step, word, ByteAt(last, done), done);
    assert ShiftRight(ByteAt(last, done), done) == LowByte(last);
    BitStepsOn(step, Xor(word, ByteAt(last, done)), done, 8);
  }

  /** A byte further up in a word. */
  function ByteAt(b: Byte, at: nat): Word
    requires at <= 24
  {
    Same(false, at) + Digits(b, 8) + Same(false, 24 - at)
  }

  lemma TogetherWithLast(crc: Word, before: seq<Byte>, last: Byte)
    requires |before| < 4
    ensures Xor(Xor(crc, Together(before)), ByteAt(last, 8 * |before|)) == Xor(crc, Together(before + [last]))
  {
    var bytes := before + [last];
    assert bytes[..|bytes| - 1] == before;
    forall i | 0 <= i < 32 ensures Together(bytes)[i] == (Together(before)[i] != ByteAt(last, 8 * |before|)[i]) {}
  }

  lemma {:induction false} BitsLoseNothing(a: seq<Byte>, b: seq<Byte>)
    requires |a| == |b| && Bits(a) == Bits(b)
    ensures a == b
  {
    if a != [] {
      var last := |a| - 1;
      assert Bits(a)[..8 * last] == Bits(a[..last]) && Bits(b)[..8 * last] == Bits(b[..last]);
      BitsLoseNothing(a[..last], b[..last]);
      assert Bits(a)[8 * last..] == Digits(a[last], 8) && Bits(b)[8 * last..] == Digits(b[last], 8);
      ByteOfDigits(a[last]);
      ByteOfDigits(b[last]);
      assert a == a[..last] + [a[last]] && b == b[..last] + [b[last]];
    }
  }

  lemma ByteOfDigits(b: Byte)
    ensures Value(Digits(b, 8)) == b
  {
    assert Power(8) == 256;
    ValueOfDigits(b, 8);
  }

  /**
   * Any change that stays inside four bytes in a row changes the CRC: no burst that short goes unseen, wherever it is
   * and whatever is around it.
   */
  lemma BurstChangesCrc(before: seq<Byte>, a: seq<Byte>, b: seq<Byte>, after: seq<Byte>)
    requires |a| == |b| <= 4 && a != b
    ensures Crc32(before + a + after) != Crc32(before + b + after)
  {
    if Crc32(before + a + after) == Crc32(before + b + after) {
      var start := Feed(BitStep, Ones(), before);
      XorLosesNothing(Feed(BitStep, Ones(), before + a + after), Feed(BitStep, Ones(), before + b + after), Ones());
      BitStepTellsApart();
      BitStepAddsAlways();
      FeedAround(BitStep, Ones(), before, a, after);
      FeedAround(BitStep, Ones(), before, b, after);
      FeedLosesNothing(BitStep, Feed(BitStep, start, a), Feed(BitStep, start, b), after);
      BurstTellsApart(BitStep, start, a, b);
    }
  }

  lemma FeedAround(step: Step, crc: Word, before: seq<Byte>, burst: seq<Byte>, after: seq<Byte>)
    ensures Feed(step, crc, before + burst + after) == Feed(step, Feed(step, Feed(step, crc, before), burst), after)
  {
    FeedOn(step, crc, before + burst, after);
    FeedOn(step, crc, before, burst);
  }

  lemma BurstTellsApart(step: Step, start: Word, a: seq<Byte>, b: seq<Byte>)
    requires TellsApart(step) && Adds(step) && |a| == |b| <= 4 && Feed(step, start, a) == Feed(step, start, b)
    ensures a == b
  {
    FeedIsOneWord(step, start, a);
    FeedIsOneWord(step, start, b);
    BitStepsLoseNothing(step, Xor(start, Together(a)), Xor(start, Together(b)), 8 * |a|);
    XorCommutes(start, Together(a));
    XorCommutes(start, Together(b));
    XorLosesNothing(Together(a), Together(b), start);
    assert Together(a)[..8 * |a|] == Bits(a) && Together(b)[..8 * |b|] == Bits(b);
    BitsLoseNothing(a, b);
  }

  lemma XorCommutes(a: Word, b: Word)
    ensures Xor(a, b) == Xor(b, a)
  {
  }
}
