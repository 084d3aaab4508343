/**
 * Names of the transient scopes apps run in, which can be read back (systemd.unit(5), "String Escaping for Inclusion in
 * Unit Names"). Strings are bytes.
 */
module UnitNames {
  import opened Lists
  import opened Options
  import opened Words

  type Bytes = seq<Byte>

  const DASH: Byte := 0x2d
  const DOT: Byte := 0x2e
  const SLASH: Byte := 0x2f
  const BACKSLASH: Byte := 0x5c
  const X: Byte := 0x78

  predicate IsDigit(b: Byte) { 0x30 <= b <= 0x39 }

  /** Letters and digits, colons, underscores and dots. */
  predicate IsPlain(b: Byte) {
    IsDigit(b) || 0x41 <= b <= 0x5a || 0x61 <= b <= 0x7a || b == 0x3a || b == 0x5f || b == DOT
  }

  function HexDigit(value: nat): Byte
    requires value < 16
  {
    if value < 10 then 0x30 + value else 0x61 + value - 10
  }

  function HexValue(digit: Byte): Option<nat> {
    if IsDigit(digit) then Some(digit - 0x30)
    else if 0x61 <= digit <= 0x66 then Some(digit - 0x61 + 10)
    else if 0x41 <= digit <= 0x46 then Some(digit - 0x41 + 10)
    else None
  }

  function EscapeByte(b: Byte): Bytes {
    if IsPlain(b) then [b] else [BACKSLASH, X, HexDigit(b / 16), HexDigit(b % 16)]
  }

  function Escape(name: Bytes): Bytes {
    if name == [] then [] else EscapeByte(name[0]) + Escape(name[1..])
  }

  /** What's plain is kept as it is; every other byte is written as two hexadecimal digits. */
  lemma EscapesOnlyOthers(name: Bytes, b: Byte)
    ensures IsPlain(b)
      <==> var c := b as char; '0' <= c <= '9' || 'A' <= c <= 'Z' || 'a' <= c <= 'z' || c in {':', '_', '.'}
    ensures var digits := Ascii("0123456789abcdef");
      !IsPlain(b) ==> EscapeByte(b) == Ascii("\\x") + [digits[b / 16], digits[b % 16]]
    ensures Escape(name) == name <==> forall i :: 0 <= i < |name| ==> IsPlain(name[i])
  {
    HexDigits(b / 16);
    HexDigits(b % 16);
    PlainStays(name);
  }

  lemma HexDigits(value: nat)
    requires value < 16
    ensures HexDigit(value) == Ascii("0123456789abcdef")[value]
  {
  }

  lemma {:induction false} PlainStays(name: Bytes)
    ensures |Escape(name)| >= |name|
    ensures Escape(name) == name <==> forall i :: 0 <= i < |name| ==> IsPlain(name[i])
  {
    if name != [] {
      PlainStays(name[1..]);
      assert name == [name[0]] + name[1..];
      if IsPlain(name[0]) {
        assert Escape(name)[1..] == Escape(name[1..]);
        assert forall i :: 0 < i < |name| ==> name[i] == name[1..][i - 1];
      } else {
        assert |Escape(name)| > |name|;
      }
    }
  }

  method EscapeUnitName(name: Bytes) returns (escaped: Bytes)
    ensures escaped == Escape(name)
  {
    escaped := [];
    for i := 0 to |name|
      invariant escaped + Escape(name[i..]) == Escape(name)
    {
      ghost var before := escaped;
      if IsPlain(name[i]) {
        escaped := escaped + [name[i]];
      } else {
        escaped := escaped + [BACKSLASH, X, HexDigit(name[i] / 16), HexDigit(name[i] % 16)];
      }
      EscapeGoesOn(name, i, before, escaped);
    }
    assert Escape(name[|name|..]) == [];
  }

  lemma EscapeGoesOn(name: Bytes, i: nat, before: Bytes, escaped: Bytes)
    requires i < |name| && escaped == before + EscapeByte(name[i])
    ensures escaped + Escape(name[i + 1..]) == before + Escape(name[i..])
  {
    assert name[i..][1..] == name[i + 1..];
    Associates(before, EscapeByte(name[i]), Escape(name[i + 1..]));
  }

  /** What an escaped name stands for: a dash is a slash, and a byte may be given in hexadecimal. */
  function Unescape(escaped: Bytes): Option<Bytes> {
    if escaped == [] then Some([])
    else if escaped[0] == BACKSLASH then
      if |escaped| < 4 || escaped[1] != X || HexValue(escaped[2]).None? || HexValue(escaped[3]).None? then None
      else Before(HexValue(escaped[2]).value * 16 + HexValue(escaped[3]).value, Unescape(escaped[4..]))
    else Before(if escaped[0] == DASH then SLASH else escaped[0], Unescape(escaped[1..]))
  }

  function Before(first: nat, rest: Option<Bytes>): Option<Bytes> {
    if rest.None? || first > 0xff then None else Some([first] + rest.value)
  }

  lemma HexReadsBack(value: nat)
    requires value < 16
    ensures HexValue(HexDigit(value)) == Some(value)
  {
  }

  lemma UnescapeFirst(b: Byte, rest: Bytes)
    ensures Unescape(EscapeByte(b) + rest) == Before(b, Unescape(rest))
  {
    var escaped := EscapeByte(b) + rest;
    if IsPlain(b) {
      assert escaped[1..] == rest;
    } else {
      assert escaped == [BACKSLASH, X, HexDigit(b / 16), HexDigit(b % 16)] + rest;
      assert escaped[0] == BACKSLASH && escaped[1] == X && escaped[4..] == rest;
      assert escaped[2] == HexDigit(b / 16) && escaped[3] == HexDigit(b % 16);
      HexReadsBack(b / 16);
      HexReadsBack(b % 16);
      assert HexValue(escaped[2]).value * 16 + HexValue(escaped[3]).value == b;
    }
  }

  /** Unescaping undoes escaping, for every string of bytes. */
  lemma {:induction false} UnescapeUndoesEscape(name: Bytes)
    ensures Unescape(Escape(name)) == Some(name)
  {
    if name != [] {
      UnescapeFirst(name[0], Escape(name[1..]));
      UnescapeUndoesEscape(name[1..]);
      assert [name[0]] + name[1..] == name;
    }
  }

  /** What's escaped has no dash, and only what a unit's name may have. */
  lemma {:induction false} EscapedHasNoDash(name: Bytes)
    ensures DASH !in Escape(name) && forall b :: b in Escape(name) ==> IsPlain(b) || b == BACKSLASH
  {
    if name != [] {
      EscapedHasNoDash(name[1..]);
    }
  }

  // Numbers.

  function Decimal(value: nat): (digits: Bytes)
    ensures digits != [] && forall b :: b in digits ==> IsDigit(b)
  {
    (if value < 10 then [] else Decimal(value / 10)) + [0x30 + value % 10]
  }

  function Number(value: int): Bytes {
    if value < 0 then [DASH] + Decimal(-value) else Decimal(value)
  }

  function DecimalValue(digits: Bytes): nat {
    if digits == [] then 0
    else
      DecimalValue(digits[..|digits| - 1]) * 10
      + (if IsDigit(digits[|digits| - 1]) then digits[|digits| - 1] - 0x30 else 0)
  }

  function NumberValue(number: Bytes): int {
    if number != [] && number[0] == DASH then 0 - DecimalValue(number[1..]) else DecimalValue(number)
  }

  lemma {:induction false} DecimalReadsBack(value: nat)
    ensures DecimalValue(Decimal(value)) == value
  {
    if value < 10 {
      ValueWithLast([], value % 10);
    } else {
      ValueWithLast(Decimal(value / 10), value % 10);
      DecimalReadsBack(value / 10);
    }
  }

  lemma ValueWithLast(digits: Bytes, digit: nat)
    requires digit < 10
    ensures DecimalValue(digits + [0x30 + digit]) == DecimalValue(digits) * 10 + digit
  {
    assert (digits + [0x30 + digit])[..|digits|] == digits;
  }

  lemma NumberReadsBack(value: int)
    ensures NumberValue(Number(value)) == value
  {
    if value < 0 {
      DecimalReadsBack(-value);
      assert Number(value)[1..] == Decimal(-value);
    } else {
      DecimalReadsBack(value);
      assert Decimal(value)[0] in Decimal(value);
    }
  }

  // Unit names.

  /** "app-kestrel-" and ".scope". */
  const PREFIX: Bytes := [0x61, 0x70, 0x70, DASH, 0x6b, 0x65, 0x73, 0x74, 0x72, 0x65, 0x6c, DASH]
  const SUFFIX: Bytes := [DOT, 0x73, 0x63, 0x6f, 0x70, 0x65]

  function UnitName(base: Bytes, pid: int): Bytes {
    PREFIX + Escape(base) + [DASH] + Number(pid) + SUFFIX
  }

  lemma {:induction false} NoLeadingZero(value: nat)
    requires value > 0
    ensures Decimal(value)[0] != 0x30
  {
    if value >= 10 {
      NoLeadingZero(value / 10);
    }
  }

  lemma UnitNameSpelledOut(base: Bytes, pid: int)
    ensures UnitName(base, pid)
      == Ascii("app-kestrel-") + Escape(base) + Ascii("-") + Number(pid) + Ascii(".scope")
    ensures pid < 0 ==> Number(pid) == Ascii("-") + Number(-pid)
    ensures pid >= 0 ==> forall b :: b in Number(pid) ==> IsDigit(b)
    ensures pid > 0 ==> Number(pid)[0] != '0' as int
  {
    if pid > 0 {
      NoLeadingZero(pid);
    }
    assert PREFIX == Ascii("app-kestrel-") && SUFFIX == Ascii(".scope") && [DASH] == Ascii("-");
  }

  function UpToDash(bytes: Bytes): (length: nat)
    ensures length <= |bytes|
  {
    if bytes == [] || bytes[0] == DASH then 0 else 1 + UpToDash(bytes[1..])
  }

  lemma {:induction false} FirstDash(before: Bytes, after: Bytes)
    requires DASH !in before
    ensures UpToDash(before + [DASH] + after) == |before|
  {
    if before != [] {
      FirstDash(before[1..], after);
      assert (before + [DASH] + after)[1..] == before[1..] + [DASH] + after;
    }
  }

  datatype Scope = Scope(base: Bytes, pid: int)

  /** Reads a name back: what's between the prefix and the next dash, and the number after that. */
  function ReadUnitName(unit: Bytes): Option<Scope> {
    if |unit| < |PREFIX| + |SUFFIX| || unit[..|PREFIX|] != PREFIX || unit[|unit| - |SUFFIX|..] != SUFFIX then None
    else ReadMiddle(unit[|PREFIX|..|unit| - |SUFFIX|])
  }

  function ReadMiddle(middle: Bytes): Option<Scope> {
    var dash := UpToDash(middle);
    if dash == |middle| || Unescape(middle[..dash]).None? then None
    else Some(Scope(Unescape(middle[..dash]).value, NumberValue(middle[dash + 1..])))
  }

  /** A unit's name determines the base name and the process it was made of. */
  lemma UnitNameReadsBack(base: Bytes, pid: int)
    ensures ReadUnitName(UnitName(base, pid)) == Some(Scope(base, pid))
  {
    var middle := Escape(base) + [DASH] + Number(pid);
    assert UnitName(base, pid) == PREFIX + middle + SUFFIX;
    ReadsMiddle(middle);
    EscapedHasNoDash(base);
    UnescapeUndoesEscape(base);
    NumberReadsBack(pid);
    MiddleReadsBack(Escape(base), Number(pid));
  }

  lemma ReadsMiddle(middle: Bytes)
    ensures ReadUnitName(PREFIX + middle + SUFFIX) == ReadMiddle(middle)
  {
    Around(PREFIX, middle, SUFFIX);
  }

  lemma MiddleReadsBack(escaped: Bytes, number: Bytes)
    requires DASH !in escaped && Unescape(escaped).Some?
    ensures ReadMiddle(escaped + [DASH] + number) == Some(Scope(Unescape(escaped).value, NumberValue(number)))
  {
    var middle := escaped + [DASH] + number;
    FirstDash(escaped, number);
    assert middle[..|escaped|] == escaped && middle[|escaped| + 1..] == number;
  }

  lemma Around(before: Bytes, middle: Bytes, after: Bytes)
    ensures var all := before + middle + after;
      all[..|before|] == before && all[|all| - |after|..] == after && all[|before|..|all| - |after|] == middle
  {
  }

  lemma UnitNamesTellApart(base: Bytes, pid: int, otherBase: Bytes, otherPid: int)
    requires UnitName(base, pid) == UnitName(otherBase, otherPid)
    ensures base == otherBase && pid == otherPid
  {
    UnitNameReadsBack(base, pid);
    UnitNameReadsBack(otherBase, otherPid);
  }

  // Base names.

  /** "org.freedesktop.Unknown" and ".desktop". */
  const UNKNOWN: Bytes := [
    0x6f, 0x72, 0x67, DOT, 0x66, 0x72, 0x65, 0x65, 0x64, 0x65, 0x73, 0x6b, 0x74, 0x6f, 0x70, DOT,
    0x55, 0x6e, 0x6b, 0x6e, 0x6f, 0x77, 0x6e]
  const DESKTOP: Bytes := [DOT, 0x64, 0x65, 0x73, 0x6b, 0x74, 0x6f, 0x70]

  function BeforeSlashes(path: Bytes): (trimmed: Bytes)
    ensures trimmed <= path && (forall i :: |trimmed| <= i < |path| ==> path[i] == SLASH)
    ensures trimmed != [] ==> trimmed[|trimmed| - 1] != SLASH
  {
    if path != [] && path[|path| - 1] == SLASH then BeforeSlashes(path[..|path| - 1]) else path
  }

  function AfterSlash(path: Bytes): (last: Bytes)
    ensures |last| <= |path| && path[|path| - |last|..] == last && SLASH !in last
    ensures |last| < |path| ==> path[|path| - |last| - 1] == SLASH
  {
    if path == [] || path[|path| - 1] == SLASH then [] else AfterSlash(path[..|path| - 1]) + [path[|path| - 1]]
  }

  /** The last part of a path that isn't only slashes. */
  function PathBase(path: Bytes): Bytes {
    if BeforeSlashes(path) == [] then [SLASH] else AfterSlash(BeforeSlashes(path))
  }

  function BaseName(name: Option<Bytes>): Bytes {
    if name.None? then UNKNOWN
    else if name.value != [] && name.value[0] == SLASH then PathBase(name.value)
    else if |DESKTOP| <= |name.value| && name.value[|name.value| - |DESKTOP|..] == DESKTOP
    then name.value[..|name.value| - |DESKTOP|]
    else name.value
  }

  /** Without a name, there's one that says so. */
  lemma NoNameIsUnknown()
    ensures BaseName(None) == Ascii("org.freedesktop.Unknown")
  {
    assert UNKNOWN == Ascii("org.freedesktop.Unknown");
  }

  lemma EndingIsDesktop()
    ensures DESKTOP == Ascii(".desktop") && |DESKTOP| == 8
  {
  }

  /** A desktop file's name is what comes before its ending. */
  lemma DesktopFilesAreCut(name: Bytes)
    requires name == [] || name[0] != SLASH
    ensures BaseName(Some(name + Ascii(".desktop"))) == name
  {
    EndingIsDesktop();
    var file := name + DESKTOP;
    assert file[|file| - 8..] == DESKTOP && file[..|file| - 8] == name;
    assert file[0] != SLASH;
  }

  /** Any other name that's no path is itself. */
  lemma OtherNamesStay(name: Bytes)
    requires (name == [] || name[0] != SLASH) && forall stem: Bytes :: name != stem + Ascii(".desktop")
    ensures BaseName(Some(name)) == name
  {
    EndingIsDesktop();
    if 8 <= |name| && name[|name| - 8..] == DESKTOP {
      assert name == name[..|name| - 8] + DESKTOP;
    }
  }

  /** The root's name is one slash, however many there are. */
  lemma SlashesAreOne(path: Bytes)
    requires path != [] && forall b :: b in path ==> b == SLASH
    ensures BaseName(Some(path)) == Ascii("/")
  {
    assert path[0] in path;
    if BeforeSlashes(path) != [] {
      MoreThanSlashes(path);
    }
  }

  lemma MoreThanSlashes(path: Bytes)
    requires BeforeSlashes(path) != []
    ensures exists b :: b in path && b != SLASH
  {
    var trimmed := BeforeSlashes(path);
    var last := path[|trimmed| - 1];
    assert last == trimmed[|trimmed| - 1] && last in path;
  }

  /** A path is cut to its last part, without the slashes after that. */
  lemma PathsAreCut(folder: Bytes, file: Bytes, slashes: nat)
    requires folder != [] && folder[0] == SLASH && folder[|folder| - 1] == SLASH && file != [] && SLASH !in file
    ensures BaseName(Some(folder + file + Repeat(SLASH, slashes))) == file
  {
    var path := folder + file;
    assert path[|path| - 1] == file[|file| - 1] && file[|file| - 1] in file;
    SlashesAreTrimmed(path, slashes);
    LastPart(folder, file);
    assert (path + Repeat(SLASH, slashes))[0] == SLASH;
  }

  lemma {:induction false} SlashesAreTrimmed(path: Bytes, slashes: nat)
    requires path != [] && path[|path| - 1] != SLASH
    ensures BeforeSlashes(path + Repeat(SLASH, slashes)) == path
  {
    var all := path + Repeat(SLASH, slashes);
    if slashes == 0 {
      assert all == path;
    } else {
      assert all[..|all| - 1] == path + Repeat(SLASH, slashes - 1);
      SlashesAreTrimmed(path, slashes - 1);
    }
  }

  lemma {:induction false} LastPart(folder: Bytes, file: Bytes)
    requires folder != [] && folder[|folder| - 1] == SLASH && SLASH !in file
    ensures AfterSlash(folder + file) == file
  {
    if file == [] {
      assert folder + file == folder;
    } else {
      var most := file[..|file| - 1];
      LastPart(folder, most);
      assert (folder + file)[..|folder| + |most|] == folder + most && file[|file| - 1] in file;
      assert most + [file[|file| - 1]] == file;
    }
  }

  function Repeat(b: Byte, count: nat): (bytes: Bytes)
    ensures |bytes| == count && forall i :: 0 <= i < count ==> bytes[i] == b
  {
    seq(count, i requires 0 <= i < count => b)
  }

  method UnitNameOf(name: Option<Bytes>, pid: int) returns (unit: Bytes)
    ensures unit == UnitName(BaseName(name), pid)
  {
    var base;
    if name.None? {
      base := UNKNOWN;
    } else if name.value != [] && name.value[0] == SLASH {
      base := PathBase(name.value);
    } else if |DESKTOP| <= |name.value| && name.value[|name.value| - |DESKTOP|..] == DESKTOP {
      base := name.value[..|name.value| - |DESKTOP|];
    } else {
      base := name.value;
    }
    var escaped := EscapeUnitName(base);
    unit := PREFIX + escaped + [DASH] + Number(pid) + SUFFIX;
  }
}
