/** Bytes, and words of 32 bits with the lowest bit first. */
module Words {

  type Byte = x: int | 0 <= x < 256

  /** The bytes of a text. */
  function Ascii(text: string): (bytes: seq<Byte>)
    requires forall i :: 0 <= i < |text| ==> text[i] < 128 as char
    ensures |bytes| == |text|
  {
    seq(|text|, i requires 0 <= i < |text| => text[i] as int)
  }

  type Word = w: seq<bool> | |w| == 32 witness Same(false, 32)

  function Same(bit: bool, count: nat): (bits: seq<bool>)
    ensures |bits| == count && forall i :: 0 <= i < count ==> bits[i] == bit
  {
    seq(count, i requires 0 <= i < count => bit)
  }

  function Zero(): Word { Same(false, 32) }

  function Ones(): Word { Same(true, 32) }

  function Power(count: nat): (power: nat)
    ensures power > 0
  {
    if count == 0 then 1 else 2 * Power(count - 1)
  }

  lemma {:induction false} PowersMultiply(a: nat, b: nat)
    ensures Power(a + b) == Power(a) * Power(b)
  {
    if b > 0 {
      PowersMultiply(a, b - 1);
      assert Power(a) * (2 * Power(b - 1)) == 2 * (Power(a) * Power(b - 1));
    }
  }

  /** The low bits of a number, lowest first. */
  function Digits(value: nat, count: nat): (digits: seq<bool>)
    ensures |digits| == count
  {
    if count == 0 then [] else [value % 2 == 1] + Digits(value / 2, count - 1)
  }

  function Value(digits: seq<bool>): (value: nat)
    ensures value < Power(|digits|)
  {
    if digits == [] then 0 else (if digits[0] then 1 else 0) + 2 * Value(digits[1..])
  }

  lemma {:induction false} ValueOfDigits(value: nat, count: nat)
    requires value < Power(count)
    ensures Value(Digits(value, count)) == value
  {
    if count > 0 {
      ValueOfDigits(value / 2, count - 1);
      assert Digits(value, count)[1..] == Digits(value / 2, count - 1);
    }
  }

  lemma {:induction false} DigitsOfValue(digits: seq<bool>)
    ensures Digits(Value(digits), |digits|) == digits
  {
    if digits != [] {
      DigitsOfValue(digits[1..]);
    }
  }

  function XorBits(a: seq<bool>, b: seq<bool>): (bits: seq<bool>)
    requires |a| == |b|
    ensures |bits| == |a| && forall i :: 0 <= i < |a| ==> bits[i] == (a[i] != b[i])
  {
    seq(|a|, i requires 0 <= i < |a| => a[i] != b[i])
  }

  function Xor(a: Word, b: Word): Word {
    XorBits(a, b)
  }

  /** Shifts right, letting zeros in at the top. */
  function ShiftRight(word: Word, count: nat): Word
    requires count <= 32
  {
    word[count..] + Same(false, count)
  }

  lemma XorTwice(a: Word, b: Word)
    ensures Xor(Xor(a, b), b) == a
  {
  }

  /** Four bytes of a number, highest first. */
  function BigEndian(value: nat): (bytes: seq<Byte>)
    ensures |bytes| == 4
  {
    [value / 0x100 / 0x100 / 0x100 % 0x100, value / 0x100 / 0x100 % 0x100, value / 0x100 % 0x100, value % 0x100]
  }

  lemma BigEndianWeighs(value: nat)
    requires value < 0x1_0000_0000
    ensures var bytes := BigEndian(value);
      value == 0x100_0000 * bytes[0] as int + 0x1_0000 * bytes[1] as int + 0x100 * bytes[2] as int + bytes[3] as int
  {
    BigEndianReadsBack(value);
  }

  function FromBigEndian(bytes: seq<Byte>): nat
    requires |bytes| == 4
  {
    0x1000000 * (bytes[0] as int) + 0x10000 * (bytes[1] as int) + 0x100 * (bytes[2] as int) + (bytes[3] as int)
  }

  lemma BigEndianReadsBack(value: nat)
    requires value < 0x1_0000_0000
    ensures FromBigEndian(BigEndian(value)) == value
  {
    var once := value / 0x100;
    var twice := once / 0x100;
    assert value == 0x100 * once + value % 0x100 && once == 0x100 * twice + once % 0x100;
    assert twice == 0x100 * (twice / 0x100) + twice % 0x100 && twice / 0x100 < 0x100;
  }
}
