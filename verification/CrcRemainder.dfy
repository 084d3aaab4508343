/**
 * Which CRC it is: the remainder of polynomials over bits (ISO/IEC 15948, section 5.5). A polynomial is written with
 * its highest power first, which is the order the bits of a chunk come in.
 */
module CrcRemainder {
  import opened Crc
  import opened Grids
  import opened Words

  /** A polynomial of degree 32. */
  type Divisor = d: seq<bool> | |d| == 33 && d[0] witness [true] + Same(false, 32)

  /** A polynomial times a divisor. */
  function Times(quotient: seq<bool>, divisor: Divisor): (product: seq<bool>)
    ensures |product| == |quotient| + 32
  {
    if quotient == [] then Same(false, 32)
    else
      var last := |quotient| - 1;
      XorBits(
        Times(quotient[..last], divisor) + [false],
        Same(false, last) + (if quotient[last] then divisor else Same(false, 33)))
  }

  /** Dividing a polynomial leaves this remainder. */
  predicate Leaves(dividend: seq<bool>, divisor: Divisor, quotient: seq<bool>, remainder: Word) {
    && |dividend| == |quotient| + 32
    && dividend == XorBits(Times(quotient, divisor), Same(false, |quotient|) + remainder)
  }

  /** The message times x^32, with its first 32 bits complemented. */
  function Dividend(message: seq<bool>): (dividend: seq<bool>)
    ensures |dividend| == |message| + 32
  {
    XorBits(message + Same(false, 32), Same(true, 32) + Same(false, |message|))
  }

  lemma TimesGoesOn(quotient: seq<bool>, bit: bool, divisor: Divisor, i: nat)
    requires i < |quotient| + 33
    ensures Times(quotient + [bit], divisor)[i]
      == ((Times(quotient, divisor) + [false])[i] != (bit && i >= |quotient| && divisor[i - |quotient|]))
  {
    assert (quotient + [bit])[..|quotient|] == quotient;
  }

  // Every polynomial leaves one remainder only.

  lemma {:induction false} TimesStartsAs(quotient: seq<bool>, divisor: Divisor, zeros: nat)
    requires zeros <= |quotient| && forall i :: 0 <= i < zeros ==> !quotient[i]
    ensures forall i :: 0 <= i < zeros ==> !Times(quotient, divisor)[i]
    ensures zeros < |quotient| ==> Times(quotient, divisor)[zeros] == quotient[zeros]
    ensures zeros == |quotient| ==> Times(quotient, divisor) == Same(false, zeros + 32)
  {
    if quotient != [] {
      var last := |quotient| - 1;
      TimesStartsAs(quotient[..last], divisor, if zeros < last then zeros else last);
    }
  }

  lemma {:induction false} TimesAdds(a: seq<bool>, b: seq<bool>, divisor: Divisor)
    requires |a| == |b|
    ensures Times(XorBits(a, b), divisor) == XorBits(Times(a, divisor), Times(b, divisor))
  {
    if a != [] {
      var last := |a| - 1;
      TimesAdds(a[..last], b[..last], divisor);
      assert XorBits(a, b)[..last] == XorBits(a[..last], b[..last]);
    }
  }

  lemma {:induction false} OnlyZeroIsShort(quotient: seq<bool>, divisor: Divisor, zeros: nat)
    requires zeros <= |quotient| && forall i :: 0 <= i < zeros ==> !quotient[i]
    requires forall i :: 0 <= i < |quotient| ==> !Times(quotient, divisor)[i]
    ensures forall i :: 0 <= i < |quotient| ==> !quotient[i]
    decreases |quotient| - zeros
  {
    if zeros < |quotient| {
      TimesStartsAs(quotient, divisor, zeros);
      OnlyZeroIsShort(quotient, divisor, zeros + 1);
    }
  }

  /** So it makes sense to speak of the remainder. */
  lemma RemainderIsOnly(
    dividend: seq<bool>, divisor: Divisor, quotient: seq<bool>, remainder: Word, other: seq<bool>, rest: Word)
    requires Leaves(dividend, divisor, quotient, remainder) && Leaves(dividend, divisor, other, rest)
    ensures quotient == other && remainder == rest
  {
    var n, difference := |quotient|, XorBits(quotient, other);
    TimesAdds(quotient, other, divisor);
    forall i | 0 <= i < n ensures !Times(difference, divisor)[i] {
      assert dividend[i] == Times(quotient, divisor)[i] && dividend[i] == Times(other, divisor)[i];
    }
    OnlyZeroIsShort(difference, divisor, 0);
    forall i | 0 <= i < n ensures quotient[i] == other[i] {
      assert !difference[i];
    }
    assert quotient == other;
    forall i | 0 <= i < 32 ensures remainder[i] == rest[i] {
      assert dividend[n + i] == (Times(quotient, divisor)[n + i] != remainder[i]);
      assert dividend[n + i] == (Times(quotient, divisor)[n + i] != rest[i]);
    }
  }

  // The constant of the bit step is the standard's polynomial.

  /** The powers of the generator polynomial. */
  const POWERS: set<nat> := {32, 26, 23, 22, 16, 12, 11, 10, 8, 7, 5, 4, 2, 1, 0}

  function Generator(): Divisor {
    seq(33, i requires 0 <= i < 33 => 32 - i in POWERS)
  }

  lemma DivideTwice(value: nat, a: nat, b: nat)
    requires a > 0 && b > 0
    ensures a * b > 0 && value / (a * b) == value / a / b
  {
    var once := value / a;
    var twice, left, rest := once / b, once % b, value % a;
    RowAndColumn(rest, once, a, value);
    RowAndColumn(left, twice, b, once);
    PartFits(left, b, a);
    Grouped(twice, b, a, left);
    RowAndColumn(left * a + rest, twice, a * b, value);
  }

  lemma Grouped(twice: nat, b: nat, a: nat, left: nat)
    ensures (twice * b + left) * a == twice * (a * b) + left * a
  {
  }

  lemma SmallPowers()
    ensures Power(0) == 1 && Power(1) == 2 && Power(2) == 4 && Power(3) == 8
    ensures Power(4) == 16 && Power(5) == 32 && Power(6) == 64 && Power(7) == 128 && Power(8) == 256
  {
  }

  lemma PowersOfOctets()
    ensures Power(8) == 0x100 && Power(16) == 0x1_0000 && Power(24) == 0x100_0000
  {
    SmallPowers();
    PowersMultiply(8, 8);
    PowersMultiply(16, 8);
  }

  /** A bit of the constant is a bit of the constant without its lower octets. */
  lemma BitOfOctet(at: nat, i: nat)
    ensures PolynomialBit(at + i) <==> 0xedb88320 / Power(at) / Power(i) % 2 == 1
  {
    PowersMultiply(at, i);
    DivideTwice(0xedb88320, Power(at), Power(i));
  }

  lemma LowestOctet(i: nat)
    requires i < 8
    ensures 0xedb88320 / Power(i) % 2 == 1 <==> 31 - i in POWERS
  {
    SmallPowers();
  }

  lemma SecondOctet(i: nat)
    requires i < 8
    ensures 0xedb883 / Power(i) % 2 == 1 <==> 23 - i in POWERS
  {
    SmallPowers();
  }

  lemma ThirdOctet(i: nat)
    requires i < 8
    ensures 0xedb8 / Power(i) % 2 == 1 <==> 15 - i in POWERS
  {
    SmallPowers();
  }

  lemma HighestOctet(i: nat)
    requires i < 8
    ensures 0xed / Power(i) % 2 == 1 <==> 7 - i in POWERS
  {
    SmallPowers();
  }

  lemma PolynomialIsGenerator(i: nat)
    requires i < 32
    ensures PolynomialBit(i) <==> Generator()[i + 1]
  {
    PowersOfOctets();
    if i < 8 {
      LowestOctet(i);
    } else if i < 16 {
      BitOfOctet(8, i - 8);
      SecondOctet(i - 8);
    } else if i < 24 {
      BitOfOctet(16, i - 16);
      ThirdOctet(i - 16);
    } else {
      BitOfOctet(24, i - 24);
      HighestOctet(i - 24);
    }
  }

  // One bit at a time.

  function LowBit(bit: bool): Word { [bit] + Same(false, 31) }

  function BitsFed(step: Step, crc: Word, bits: seq<bool>): Word {
    if bits == [] then crc
    else step(Xor(BitsFed(step, crc, bits[..|bits| - 1]), LowBit(bits[|bits| - 1])))
  }

  lemma {:induction false} BitsFedOn(step: Step, crc: Word, first: seq<bool>, second: seq<bool>)
    ensures BitsFed(step, crc, first + second) == BitsFed(step, BitsFed(step, crc, first), second)
  {
    if second == [] {
      assert first + second == first;
    } else {
      var last := |second| - 1;
      BitsFedOn(step, crc, first, second[..last]);
      assert (first + second)[..|first| + last] == first + second[..last];
    }
  }

  function LowBits32(bits: seq<bool>): Word
    requires |bits| <= 32
  {
    bits + Same(false, 32 - |bits|)
  }

  function BitAt(bit: bool, at: nat): Word
    requires at < 32
  {
    Same(false, at) + [bit] + Same(false, 31 - at)
  }

  /** Bits that are fed as a word are fed one after the other. */
  lemma {:induction false} WordIsBits(step: Step, crc: Word, bits: seq<bool>)
    requires Adds(step) && |bits| <= 32
    ensures BitSteps(step, Xor(crc, LowBits32(bits)), |bits|) == BitsFed(step, crc, bits)
  {
    if bits == [] {
      assert Xor(crc, LowBits32([])) == crc;
    } else {
      var last := |bits| - 1;
      var before, at := Xor(crc, LowBits32(bits[..last])), BitAt(bits[last], last);
      WordIsBits(step, crc, bits[..last]);
      WordWithBit(crc, bits);
      BitStepsAdd(step, before, at, last);
    }
  }

  lemma WordWithBit(crc: Word, bits: seq<bool>)
    requires 0 < |bits| <= 32
    ensures var last := |bits| - 1;
      && Xor(crc, LowBits32(bits)) == Xor(Xor(crc, LowBits32(bits[..last])), BitAt(bits[last], last))
      && ShiftRight(BitAt(bits[last], last), last) == LowBit(bits[last])
  {
  }

  lemma {:induction false} FeedIsBits(step: Step, crc: Word, bytes: seq<Byte>)
    requires Adds(step)
    ensures Feed(step, crc, bytes) == BitsFed(step, crc, Bits(bytes))
  {
    if bytes != [] {
      var most, last := bytes[..|bytes| - 1], bytes[|bytes| - 1];
      FeedIsBits(step, crc, most);
      WordIsBits(step, Feed(step, crc, most), Digits(last, 8));
      BitsFedOn(step, crc, Bits(most), Digits(last, 8));
    }
  }

  // Feeding bits divides.

  /** A step takes a remainder one power up, less the divisor if that gets it to x^32. */
  ghost predicate Reduces(step: Step, divisor: Divisor) {
    forall crc: Word, i: nat :: i < 32 ==> step(crc)[i] == ((i < 31 && crc[i + 1]) != (crc[0] && divisor[i + 1]))
  }

  lemma BitStepReduces()
    ensures Reduces(BitStep, Generator())
  {
    forall crc: Word, i: nat | i < 32
      ensures BitStep(crc)[i] == ((i < 31 && crc[i + 1]) != (crc[0] && Generator()[i + 1]))
    {
      PolynomialIsGenerator(i);
    }
  }

  lemma DividendGoesOn(message: seq<bool>, bit: bool, i: nat)
    requires i < |message| + 33
    ensures Dividend(message + [bit])[i] == ((Dividend(message) + [false])[i] != (i == |message| && bit))
  {
  }

  /** One more bit divides one step further. */
  lemma DividesOn(step: Step, divisor: Divisor, message: seq<bool>, bit: bool, quotient: seq<bool>, crc: Word)
    requires Reduces(step, divisor) && Leaves(Dividend(message), divisor, quotient, crc)
    ensures Leaves(Dividend(message + [bit]), divisor, quotient + [crc[0] != bit], step(Xor(crc, LowBit(bit))))
  {
    var n, goes, next := |message|, crc[0] != bit, step(Xor(crc, LowBit(bit)));
    forall i | 0 <= i < n + 33
      ensures Dividend(message + [bit])[i] == ((Dividend(message) + [false])[i] != (i == n && bit))
      ensures Times(quotient + [goes], divisor)[i]
        == ((Times(quotient, divisor) + [false])[i] != (goes && i >= n && divisor[i - n]))
    {
      DividendGoesOn(message, bit, i);
      TimesGoesOn(quotient, goes, divisor, i);
    }
    forall i: nat | i < 32 ensures next[i] == ((i < 31 && crc[i + 1]) != (goes && divisor[i + 1])) {
      assert Xor(crc, LowBit(bit))[0] == goes;
      assert i < 31 ==> Xor(crc, LowBit(bit))[i + 1] == crc[i + 1];
    }
    DivisionGoesOn(
      n, Dividend(message), Dividend(message + [bit]), Times(quotient, divisor), Times(quotient + [goes], divisor),
      divisor, crc, next, bit);
  }

  lemma DivisionGoesOn(
    n: nat, dividend: seq<bool>, more: seq<bool>, product: seq<bool>, larger: seq<bool>, divisor: Divisor, crc: Word,
    next: Word, bit: bool)
    requires |dividend| == |product| == n + 32 && |more| == |larger| == n + 33
    requires dividend == XorBits(product, Same(false, n) + crc)
    requires forall i :: 0 <= i < n + 33 ==> more[i] == ((dividend + [false])[i] != (i == n && bit))
    requires forall i :: 0 <= i < n + 33 ==>
      larger[i] == ((product + [false])[i] != (crc[0] != bit && i >= n && divisor[i - n]))
    requires forall i :: 0 <= i < 32 ==> next[i] == ((i < 31 && crc[i + 1]) != (crc[0] != bit && divisor[i + 1]))
    ensures more == XorBits(larger, Same(false, n + 1) + next)
  {
    forall i | 0 <= i < n + 33 ensures more[i] == (larger[i] != (Same(false, n + 1) + next)[i]) {
      if i > n {
        assert (Same(false, n + 1) + next)[i] == next[i - n - 1];
      }
    }
  }

  lemma NothingDivides(divisor: Divisor)
    ensures Leaves(Dividend([]), divisor, [], Ones())
  {
  }

  lemma {:induction false} Divides(step: Step, divisor: Divisor, message: seq<bool>) returns (quotient: seq<bool>)
    requires Reduces(step, divisor)
    ensures Leaves(Dividend(message), divisor, quotient, BitsFed(step, Ones(), message))
  {
    if message == [] {
      NothingDivides(divisor);
      quotient := [];
    } else {
      var most, bit := message[..|message| - 1], message[|message| - 1];
      var crc := BitsFed(step, Ones(), most);
      quotient := Divides(step, divisor, most);
      DividesOn(step, divisor, most, bit, quotient, crc);
      assert most + [bit] == message;
      quotient := quotient + [crc[0] != bit];
    }
  }

  /**
   * The CRC of bytes, complemented, is the remainder of the message of their bits, each byte's lowest first, times x^32
   * with its first 32 bits complemented; its lowest bit is the coefficient of x^31.
   */
  lemma CrcIsRemainder(bytes: seq<Byte>) returns (quotient: seq<bool>)
    ensures Leaves(Dividend(Bits(bytes)), Generator(), quotient, Xor(Crc32(bytes), Ones()))
  {
    BitStepAddsAlways();
    FeedIsBits(BitStep, Ones(), bytes);
    XorTwice(Feed(BitStep, Ones(), bytes), Ones());
    BitStepReduces();
    quotient := Divides(BitStep, Generator(), Bits(bytes));
  }
}
