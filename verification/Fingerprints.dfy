/**
 * A 64-bit fingerprint of a sequence of values: each value is taken into the print by exclusive or, and the result is
 * multiplied by an odd prime modulo 2^64.
 */
module Fingerprints {
  import opened Words

  type U64 = x: int | 0 <= x < 0x1_0000_0000_0000_0000

  const SEED: U64 := 0xcbf29ce484222325

  function XorNumbers(a: nat, b: nat, width: nat): (both: nat)
    ensures both < Power(width)
  {
    Value(XorBits(Digits(a, width), Digits(b, width)))
  }

  lemma XorTakesItselfBack(a: nat, b: nat, width: nat)
    requires a < Power(width)
    ensures XorNumbers(XorNumbers(a, b, width), b, width) == a
  {
    var one, other := Digits(a, width), Digits(b, width);
    DigitsOfValue(XorBits(one, other));
    assert XorBits(XorBits(one, other), other) == one;
    ValueOfDigits(a, width);
  }

  lemma XorNumbersCommute(a: nat, b: nat, width: nat)
    ensures XorNumbers(a, b, width) == XorNumbers(b, a, width)
  {
    assert XorBits(Digits(a, width), Digits(b, width)) == XorBits(Digits(b, width), Digits(a, width));
  }

  lemma PowerSquares(count: nat, power: nat)
    requires Power(count) == power
    ensures Power(count + count) == power * power
  {
    PowersMultiply(count, count);
  }

  lemma PowerOf64(width: nat)
    requires width == 64
    ensures Power(width) == 0x1_0000_0000_0000_0000
  {
    var one := width / 64;
    PowerSquares(one, 2);
    PowerSquares(one + one, 4);
    PowerSquares(width / 16, 0x10);
    PowerSquares(width / 8, 0x100);
    PowerSquares(width / 4, 0x1_0000);
    PowerSquares(width / 2, 0x1_0000_0000);
  }

  function Xor64(a: U64, b: U64, width: nat := 64): U64
    requires width == 64
  {
    PowerOf64(width);
    XorNumbers(a, b, width)
  }

  function Times(x: U64, factor: nat): U64 {
    x * factor % 0x1_0000_0000_0000_0000
  }

  function Mix(hash: U64, value: U64): U64 {
    Times(Xor64(hash, value), 0x100000001b3)
  }

  /** The prime has an inverse modulo 2^64, so a mix can be taken back. */
  function Unmix(hash: U64, value: U64): U64 {
    Xor64(Times(hash, 0xce965057aff6957b), value)
  }

  lemma MultipleIsFar(modulus: nat, times: int)
    ensures times >= 1 ==> modulus * times >= modulus
    ensures times <= -1 ==> modulus * times + modulus <= 0
  {
  }

  lemma RemainderOf(x: nat, modulus: nat, times: int)
    requires x < modulus
    ensures (x + modulus * times) % modulus == x
  {
    var whole := x + modulus * times;
    var off := times - whole / modulus;
    assert modulus * off == whole % modulus - x;
    MultipleIsFar(modulus, off);
  }

  lemma TakenBack(x: nat, factor: nat, inverse: nat, modulus: nat, extra: nat)
    requires x < modulus && factor * inverse == 1 + extra * modulus
    ensures x * factor % modulus * inverse % modulus == x
  {
    var quotient, rest := x * factor / modulus, x * factor % modulus;
    assert x * factor == modulus * quotient + rest;
    calc {
      rest * inverse;
      (x * factor - modulus * quotient) * inverse;
      x * (factor * inverse) - modulus * (quotient * inverse);
      x * (1 + extra * modulus) - modulus * (quotient * inverse);
      x + modulus * (x * extra - quotient * inverse);
    }
    RemainderOf(x, modulus, x * extra - quotient * inverse);
  }

  lemma XorBack(a: U64, b: U64)
    ensures Xor64(Xor64(a, b), b) == a
  {
    PowerOf64(64);
    XorTakesItselfBack(a, b, 64);
  }

  lemma XorCommutes(a: U64, b: U64)
    ensures Xor64(a, b) == Xor64(b, a)
  {
    XorNumbersCommute(a, b, 64);
  }

  lemma TimesBack(x: U64)
    ensures Times(Times(x, 0x100000001b3), 0xce965057aff6957b) == x
    ensures Times(Times(x, 0xce965057aff6957b), 0x100000001b3) == x
  {
    TakenBack(x, 0x100000001b3, 0xce965057aff6957b, 0x1_0000_0000_0000_0000, 0xce9650590f);
    TakenBack(x, 0xce965057aff6957b, 0x100000001b3, 0x1_0000_0000_0000_0000, 0xce9650590f);
  }

  /** Mixing is a bijection of the print for every value. */
  lemma PrintIsTakenBack(hash: U64, value: U64)
    ensures Unmix(Mix(hash, value), value) == hash && Mix(Unmix(hash, value), value) == hash
  {
    TimesBack(Xor64(hash, value));
    XorBack(hash, value);
    TimesBack(hash);
    XorBack(Times(hash, 0xce965057aff6957b), value);
  }

  /** Mixing is a bijection of the value for every print. */
  lemma ValueIsTakenBack(hash: U64, value: U64)
    ensures Unmix(Mix(hash, value), hash) == value && Mix(hash, Unmix(value, hash)) == value
  {
    XorCommutes(hash, value);
    PrintIsTakenBack(value, hash);
    XorCommutes(hash, Unmix(value, hash));
  }

  type Mixer = (U64, U64) -> U64

  /** Mixing the same value tells prints apart, and mixing into the same print tells values apart. */
  ghost predicate TellsApart(mix: Mixer) {
    && (forall a, b, value :: mix(a, value) == mix(b, value) ==> a == b)
    && (forall hash, a, b :: mix(hash, a) == mix(hash, b) ==> a == b)
  }

  lemma MixTellsApart()
    ensures TellsApart(Mix)
  {
    forall a: U64, b: U64, value: U64 | Mix(a, value) == Mix(b, value) ensures a == b {
      PrintIsTakenBack(a, value);
      PrintIsTakenBack(b, value);
    }
    forall hash: U64, a: U64, b: U64 | Mix(hash, a) == Mix(hash, b) ensures a == b {
      ValueIsTakenBack(hash, a);
      ValueIsTakenBack(hash, b);
    }
  }

  /** Values taken into a print one after another. */
  function MixAll(mix: Mixer, hash: U64, values: seq<U64>): U64 {
    if values == [] then hash else mix(MixAll(mix, hash, values[..|values| - 1]), values[|values| - 1])
  }

  lemma {:induction false} MixAllOn(mix: Mixer, hash: U64, first: seq<U64>, second: seq<U64>)
    ensures MixAll(mix, hash, first + second) == MixAll(mix, MixAll(mix, hash, first), second)
  {
    if second == [] {
      assert first + second == first;
    } else {
      var last := |second| - 1;
      MixAllOn(mix, hash, first, second[..last]);
      assert (first + second)[..|first| + last] == first + second[..last];
    }
  }

  lemma {:induction false} MixAllLosesNothing(mix: Mixer, a: U64, b: U64, values: seq<U64>)
    requires TellsApart(mix) && MixAll(mix, a, values) == MixAll(mix, b, values)
    ensures a == b
  {
    if values != [] {
      var last := |values| - 1;
      assert mix(MixAll(mix, a, values[..last]), values[last]) == mix(MixAll(mix, b, values[..last]), values[last]);
      MixAllLosesNothing(mix, a, b, values[..last]);
    }
  }

  lemma MixOne(mix: Mixer, hash: U64, values: seq<U64>, value: U64)
    ensures MixAll(mix, hash, values + [value]) == mix(MixAll(mix, hash, values), value)
  {
    assert (values + [value])[..|values|] == values;
  }

  lemma MixTwo(mix: Mixer, hash: U64, a: U64, b: U64)
    ensures MixAll(mix, hash, [a, b]) == mix(mix(hash, a), b)
  {
    MixOne(mix, hash, [], a);
    MixOne(mix, hash, [a], b);
    assert [a, b] == [a] + [b] && [] + [a] == [a];
  }

  lemma MixFour(mix: Mixer, hash: U64, a: U64, b: U64, c: U64, d: U64)
    ensures MixAll(mix, hash, [a, b, c, d]) == mix(mix(mix(mix(hash, a), b), c), d)
  {
    MixTwo(mix, hash, a, b);
    MixTwo(mix, mix(mix(hash, a), b), c, d);
    MixAllOn(mix, hash, [a, b], [c, d]);
    assert [a, b, c, d] == [a, b] + [c, d];
  }

  lemma DifferenceShows(mix: Mixer, hash: U64, before: seq<U64>, a: U64, b: U64, after: seq<U64>)
    requires TellsApart(mix) && a != b
    ensures MixAll(mix, hash, before + [a] + after) != MixAll(mix, hash, before + [b] + after)
  {
    MixAllOn(mix, hash, before + [a], after);
    MixAllOn(mix, hash, before + [b], after);
    MixOne(mix, hash, before, a);
    MixOne(mix, hash, before, b);
    if MixAll(mix, hash, before + [a] + after) == MixAll(mix, hash, before + [b] + after) {
      MixAllLosesNothing(mix, MixAll(mix, hash, before + [a]), MixAll(mix, hash, before + [b]), after);
    }
  }
}
