/** The TAR header check of src/container.rs: a stored octal checksum that agrees with the block's bytes. */
module Tar {
  import opened Options
  import opened Bytes

  const BLOCK: nat := 512
  const SPACE: byte := 0x20
  const INT64_MAX: int := 0x7FFF_FFFF_FFFF_FFFF

  predicate InChecksum(i: nat) { 148 <= i < 156 }

  /** A byte read as a two's-complement number. */
  function Signed(b: byte): (r: int)
    ensures -128 <= r < 128 && (r == b || r == b - 256)
  {
    if b >= 128 then b - 256 else b
  }

  /** What a header byte adds to the sum; the checksum field counts as eight spaces. */
  function Weight(i: nat, b: byte, signed: bool): int {
    if InChecksum(i) then SPACE else if signed then Signed(b) else b
  }

  function SumTo(header: seq<byte>, n: nat, signed: bool): int
    requires n <= |header|
  {
    if n == 0 then 0 else SumTo(header, n - 1, signed) + Weight(n - 1, header[n - 1], signed)
  }

  function Checksum(header: seq<byte>, signed: bool): int { SumTo(header, |header|, signed) }

  predicate IsOctal(b: byte) { 0x30 <= b <= 0x37 }
  predicate IsPadding(b: byte) { b == 0 || b == SPACE }

  ghost predicate Octals(digits: seq<byte>) { forall i | 0 <= i < |digits| :: IsOctal(digits[i]) }

  /** The number some octal digits spell. */
  function OctalValue(digits: seq<byte>): (value: nat)
    requires Octals(digits)
  {
    if digits == [] then 0
    else 8 * OctalValue(digits[..|digits| - 1]) + ((digits[|digits| - 1] as int) - 0x30)
  }

  /** Leading spaces, at least one octal digit, then NULs and spaces. */
  ghost predicate IsField(field: seq<byte>, start: nat, end: nat) {
    && start < end <= |field|
    && (forall i | 0 <= i < start :: field[i] == SPACE)
    && Octals(field[start..end])
    && (forall i | end <= i < |field| :: IsPadding(field[i]))
  }

  /** Where the spaces from `from` on end. */
  function SpacesEnd(field: seq<byte>, from: nat): (r: nat)
    requires from <= |field|
    ensures from <= r <= |field| && (forall i | from <= i < r :: field[i] == SPACE)
    ensures r < |field| ==> field[r] != SPACE
    decreases |field| - from
  {
    if from < |field| && field[from] == SPACE then SpacesEnd(field, from + 1) else from
  }

  /** Where the octal digits from `from` on end. */
  function DigitsEnd(field: seq<byte>, from: nat): (r: nat)
    requires from <= |field|
    ensures from <= r <= |field| && (forall i | from <= i < r :: IsOctal(field[i]))
    ensures r < |field| ==> !IsOctal(field[r])
    decreases |field| - from
  {
    if from < |field| && IsOctal(field[from]) then DigitsEnd(field, from + 1) else from
  }

  predicate Padded(field: seq<byte>, from: nat) { forall i | from <= i < |field| :: IsPadding(field[i]) }

  /** What a numeric field says, in the width it is computed in. */
  function Octal(field: seq<byte>): Option<nat> {
    var start := SpacesEnd(field, 0);
    var end := DigitsEnd(field, start);
    if start < end && Padded(field, end) && OctalValue(field[start..end]) <= INT64_MAX then
      Some(OctalValue(field[start..end]))
    else None
  }

  /** A number is read exactly where the field is one and its number fits. */
  lemma OctalMeaning(field: seq<byte>, value: nat)
    ensures Octal(field) == Some(value) <==>
      exists start: nat, end: nat ::
        IsField(field, start, end) && OctalValue(field[start..end]) == value < 0x8000_0000_0000_0000
  {
    if Octal(field) == Some(value) {
      var start := SpacesEnd(field, 0);
      assert IsField(field, start, DigitsEnd(field, start));
    }
    if start: nat, end: nat :| IsField(field, start, end) && OctalValue(field[start..end]) == value <= INT64_MAX {
      FieldEnds(field, start, end);
    }
  }

  /** The runs of a field end where its parts do. */
  lemma FieldEnds(field: seq<byte>, start: nat, end: nat)
    requires IsField(field, start, end)
    ensures SpacesEnd(field, 0) == start && DigitsEnd(field, start) == end
  {
    assert IsOctal(field[start]) by { assert field[start] == field[start..end][0]; }
    assert forall i | 0 <= i < start :: field[i] == SPACE;
    assert SpacesEnd(field, 0) == start;
    forall i | start <= i < end ensures IsOctal(field[i]) {
      assert field[i] == field[start..end][i - start];
    }
    assert end < |field| ==> IsPadding(field[end]);
    assert DigitsEnd(field, start) == end;
  }

  function CheckedAppend(value: nat, digit: nat): Option<nat> {
    if value * 8 > INT64_MAX || value * 8 + digit > INT64_MAX then None else Some(value * 8 + digit)
  }

  lemma OneMoreDigit(field: seq<byte>, start: nat, at: nat)
    requires start <= at < |field| && Octals(field[start..at]) && IsOctal(field[at])
    ensures Octals(field[start..at + 1])
    ensures OctalValue(field[start..at + 1]) == 8 * OctalValue(field[start..at]) + ((field[at] as int) - 0x30)
  {
    assert field[start..at + 1] == field[start..at] + [field[at]];
    OctalValueAppend(field[start..at], field[at]);
  }

  lemma {:induction false} DigitsGrow(field: seq<byte>, start: nat, at: nat, end: nat)
    requires start <= at <= end <= |field| && forall i | start <= i < end :: IsOctal(field[i])
    ensures OctalValue(field[start..at]) <= OctalValue(field[start..end])
    decreases end - at
  {
    if at < end {
      OneMoreDigit(field, start, at);
      DigitsGrow(field, start, at + 1, end);
    }
  }

  /** The digit loop, overflow checks and all, reads what the field says. */
  method ParseOctal(field: seq<byte>) returns (r: Option<nat>)
    ensures r == Octal(field)
  {
    var value: nat, digits, at := 0, 0, 0;
    while at < |field| && field[at] == SPACE
      invariant at <= |field| && SpacesEnd(field, at) == SpacesEnd(field, 0)
    {
      at := at + 1;
    }
    ghost var start, end := at, DigitsEnd(field, at);
    while at < |field|
      invariant start <= at <= end && digits == at - start && DigitsEnd(field, at) == end
      invariant Octals(field[start..at]) && value == OctalValue(field[start..at])
      invariant value <= INT64_MAX
    {
      if IsOctal(field[at]) {
        OneMoreDigit(field, start, at);
        var more := CheckedAppend(value, (field[at] as int) - 0x30);
        if more.None? {
          DigitsGrow(field, start, at + 1, end);
          return None;
        }
        value := more.value;
        digits := digits + 1;
      } else if IsPadding(field[at]) {
        break;
      } else {
        return None;
      }
      at := at + 1;
    }
    assert Padded(field, at) ==> at == end;
    return if Padded(field, at) && digits > 0 then Some(value) else None;
  }

  /** A value of at most twenty octal digits is in no danger of overflow, and a header's fields have at most twelve. */
  lemma {:induction false} ShortFieldsFit(digits: seq<byte>)
    requires |digits| <= 20 && Octals(digits)
    ensures OctalValue(digits) < Power8(|digits|) <= INT64_MAX
  {
    if digits != [] { ShortFieldsFit(digits[..|digits| - 1]); }
    Power8Grows(|digits|, 20);
    TwentyDigits();
  }

  lemma TwentyDigits()
    ensures Power8(20) == 0x1000_0000_0000_0000
  {
    assert Power8(4) == 4096;
    assert Power8(8) == 4096 * Power8(4);
    assert Power8(12) == 4096 * Power8(8);
    assert Power8(16) == 4096 * Power8(12);
    assert Power8(20) == 4096 * Power8(16);
  }

  function Power8(n: nat): nat { if n == 0 then 1 else 8 * Power8(n - 1) }

  lemma {:induction false} Power8Grows(m: nat, n: nat)
    requires m <= n
    ensures Power8(m) <= Power8(n)
  {
    if m < n { Power8Grows(m, n - 1); }
  }

  // ── the header ──

  predicate SizeField(field: seq<byte>) { field != [] && (field[0] >= 0x80 || Octal(field).Some?) }

  predicate TypeFlag(flag: byte) {
    flag == 0 || IsOctal(flag) || flag in Ascii("xgLKSVMDN")
  }

  predicate IsTar(prefix: seq<byte>) {
    && |prefix| >= BLOCK
    && var header := prefix[..BLOCK];
      && Octal(header[148..156]).Some?
      && header[0] != 0
      && SizeField(header[124..136])
      && TypeFlag(header[156])
      && Octal(header[148..156]).value in {Checksum(header, false), Checksum(header, true)}
  }

  lemma TarExtends(p: seq<byte>, q: seq<byte>)
    requires IsTar(p)
    ensures IsTar(p + q)
  {
    assert (p + q)[..BLOCK] == p[..BLOCK];
  }

  /** Bytes at or above 0x80 outside the checksum field. */
  function HighBytes(header: seq<byte>, n: nat): nat
    requires n <= |header|
  {
    if n == 0 then 0
    else HighBytes(header, n - 1) + if !InChecksum(n - 1) && header[n - 1] >= 0x80 then 1 else 0
  }

  lemma {:induction false} SumsDiffer(header: seq<byte>, n: nat)
    requires n <= |header|
    ensures SumTo(header, n, false) == SumTo(header, n, true) + 256 * HighBytes(header, n)
  {
    if n > 0 { SumsDiffer(header, n - 1); }
  }

  lemma {:induction false} SumChange(header: seq<byte>, i: nat, b: byte, n: nat, signed: bool)
    requires i < |header| && n <= |header|
    ensures SumTo(header[i := b], n, signed) ==
      SumTo(header, n, signed) + if i < n then Weight(i, b, signed) - Weight(i, header[i], signed) else 0
  {
    if n > 0 { SumChange(header, i, b, n - 1, signed); }
  }

  /** A changed byte never turns one sum into the other, so accepting two sums admits no single-byte change. */
  lemma SumsDoNotCross(header: seq<byte>, i: nat, b: byte, stored: int)
    requires i < |header| && !InChecksum(i) && b != header[i]
    requires stored == Checksum(header, false) || stored == Checksum(header, true)
    ensures stored != Checksum(header[i := b], false) && stored != Checksum(header[i := b], true)
  {
    SumsDiffer(header, |header|);
    SumsDiffer(header[i := b], |header|);
    SumChange(header, i, b, |header|, false);
    SumChange(header, i, b, |header|, true);
  }

  /** Any single-byte change of an accepted header outside its checksum field makes it rejected. */
  lemma OneByteChangeIsCaught(prefix: seq<byte>, i: nat, b: byte)
    requires IsTar(prefix) && i < BLOCK && !InChecksum(i) && b != prefix[i]
    ensures !IsTar(prefix[i := b])
  {
    var header := prefix[..BLOCK];
    assert prefix[i := b][..BLOCK] == header[i := b];
    assert header[i := b][148..156] == header[148..156];
    SumsDoNotCross(header, i, b, Octal(header[148..156]).value);
  }

  /** A number in `n` octal digits, leading zeros included. */
  function Digits(value: nat, n: nat): (r: seq<byte>)
    ensures |r| == n && Octals(r)
  {
    if n == 0 then [] else Digits(value / 8, n - 1) + [0x30 + value % 8]
  }

  lemma {:induction false} OctalValueAppend(digits: seq<byte>, digit: byte)
    requires Octals(digits) && IsOctal(digit)
    ensures Octals(digits + [digit]) && OctalValue(digits + [digit]) == 8 * OctalValue(digits) + ((digit as int) - 0x30)
  {
    assert (digits + [digit])[..|digits|] == digits;
  }

  /** What `n` digits can hold they spell. */
  lemma {:induction false} DigitsSpell(value: nat, n: nat)
    requires value < Power8(n)
    ensures OctalValue(Digits(value, n)) == value
  {
    if n > 0 {
      DigitsSpell(value / 8, n - 1);
      OctalValueAppend(Digits(value / 8, n - 1), 0x30 + value % 8);
    }
  }

  /** The checksum field as writers store it: six octal digits, a NUL and a space. */
  function Stored(sum: nat): seq<byte> { Digits(sum, 6) + [0, SPACE] }

  lemma {:induction false} SumBounds(header: seq<byte>, n: nat)
    requires n <= |header|
    ensures 0 <= SumTo(header, n, false) <= 255 * n
  {
    if n > 0 { SumBounds(header, n - 1); }
  }

  /** The field a writer stores either sum in reads back as that sum. */
  lemma StoredIsRead(header: seq<byte>, signed: bool)
    requires |header| == BLOCK && Checksum(header, signed) >= 0
    ensures Octal(Stored(Checksum(header, signed))) == Some(Checksum(header, signed))
  {
    SumBounds(header, BLOCK);
    SumsDiffer(header, BLOCK);
    var sum: nat := Checksum(header, signed);
    assert Power8(6) == 0x4_0000;
    DigitsSpell(sum, 6);
    var field := Stored(sum);
    assert field[0..6] == Digits(sum, 6);
    assert IsField(field, 0, 6);
    OctalMeaning(field, sum);
  }

  lemma {:induction false} SumIgnoresField(header: seq<byte>, other: seq<byte>, n: nat, signed: bool)
    requires n <= |header| == |other|
    requires forall i | 0 <= i < n && !InChecksum(i) :: header[i] == other[i]
    ensures SumTo(header, n, signed) == SumTo(other, n, signed)
  {
    if n > 0 { SumIgnoresField(header, other, n - 1, signed); }
  }

  /** A header with either of its own sums written into it is a TAR header. */
  lemma WrittenHeaderIsTar(header: seq<byte>, signed: bool)
    requires |header| == BLOCK && Checksum(header, signed) >= 0
    requires header[0] != 0 && SizeField(header[124..136]) && TypeFlag(header[156])
    ensures IsTar(header[..148] + Stored(Checksum(header, signed)) + header[156..])
  {
    StoredIsRead(header, signed);
    var field := Stored(Checksum(header, signed));
    var written := header[..148] + field + header[156..];
    SumIgnoresField(header, written, BLOCK, signed);
    assert written[..BLOCK] == written && written[148..156] == field && written[124..136] == header[124..136];
    assert written[0] == header[0] && written[156] == header[156];
  }

  // ── what is summed, and which headers are accepted ──

  /** The sum of some bytes. */
  function SumOf(bytes: seq<byte>): int { if bytes == [] then 0 else bytes[0] + SumOf(bytes[1..]) }

  /** The sum of some bytes as two's-complement numbers. */
  function SignedSumOf(bytes: seq<byte>): int {
    if bytes == [] then 0 else Signed(bytes[0]) + SignedSumOf(bytes[1..])
  }

  /** A header with eight spaces for the checksum it states, which lies behind its first 148 bytes. */
  function Blanked(header: seq<byte>): (r: seq<byte>)
    requires |header| >= 156
    ensures |r| == |header|
    ensures forall i | 0 <= i < |r| :: r[i] == if 148 <= i < 156 then 0x20 else header[i]
  {
    header[..148] + [0x20, 0x20, 0x20, 0x20, 0x20, 0x20, 0x20, 0x20] + header[156..]
  }

  lemma {:induction false} SumsOfLast(bytes: seq<byte>, b: byte)
    ensures SumOf(bytes + [b]) == SumOf(bytes) + b
    ensures SignedSumOf(bytes + [b]) == SignedSumOf(bytes) + Signed(b)
  {
    if bytes == [] {
      assert SumOf([b][1..]) == 0 && SignedSumOf([b][1..]) == 0;
    } else {
      assert (bytes + [b])[1..] == bytes[1..] + [b];
      SumsOfLast(bytes[1..], b);
    }
  }

  lemma {:induction false} SumsToHere(header: seq<byte>, n: nat)
    requires n <= |header| && |header| >= 156
    ensures SumTo(header, n, false) == SumOf(Blanked(header)[..n])
    ensures SumTo(header, n, true) == SignedSumOf(Blanked(header)[..n])
  {
    if n > 0 {
      SumsToHere(header, n - 1);
      assert Blanked(header)[..n] == Blanked(header)[..n - 1] + [Blanked(header)[n - 1]];
      SumsOfLast(Blanked(header)[..n - 1], Blanked(header)[n - 1]);
    }
  }

  /** The checksums are the sums of the header's bytes around eight spaces. */
  lemma ChecksumIsTheSum(header: seq<byte>)
    requires |header| >= 156
    ensures Checksum(header, false) == SumOf(Blanked(header))
    ensures Checksum(header, true) == SignedSumOf(Blanked(header))
  {
    SumsToHere(header, |header|);
    assert Blanked(header)[..|header|] == Blanked(header);
  }

  /** A numeric field of digits between leading spaces and trailing NULs and spaces. */
  ghost predicate States(field: seq<byte>, spaces: seq<byte>, digits: seq<byte>, padding: seq<byte>) {
    && field == spaces + digits + padding && digits != []
    && (forall i | 0 <= i < |spaces| :: spaces[i] == 0x20)
    && (forall i | 0 <= i < |digits| :: 0x30 <= digits[i] < 0x38)
    && (forall i | 0 <= i < |padding| :: padding[i] == 0 || padding[i] == 0x20)
  }

  ghost predicate StatesNumber(field: seq<byte>, value: int) {
    exists spaces, digits, padding :: States(field, spaces, digits, padding) && value == OctalValue(digits)
  }

  lemma StatedIsField(field: seq<byte>, spaces: seq<byte>, digits: seq<byte>, padding: seq<byte>)
    requires States(field, spaces, digits, padding)
    ensures IsField(field, |spaces|, |spaces| + |digits|)
    ensures field[|spaces|..|spaces| + |digits|] == digits
  {
    forall i | |spaces| + |digits| <= i < |field| ensures IsPadding(field[i]) {
      assert field[i] == padding[i - |spaces| - |digits|];
    }
  }

  lemma FieldIsStated(field: seq<byte>, start: nat, end: nat)
    requires IsField(field, start, end)
    ensures States(field, field[..start], field[start..end], field[end..])
  {
  }

  lemma OctalStates(field: seq<byte>)
    requires Octal(field).Some?
    ensures StatesNumber(field, Octal(field).value)
  {
    var value := Octal(field).value;
    OctalMeaning(field, value);
    var start: nat, end: nat :| IsField(field, start, end) && OctalValue(field[start..end]) == value;
    FieldIsStated(field, start, end);
  }

  lemma StatedIsOctal(field: seq<byte>, spaces: seq<byte>, digits: seq<byte>, padding: seq<byte>)
    requires |field| <= 20 && States(field, spaces, digits, padding)
    ensures Octal(field) == Some(OctalValue(digits))
  {
    StatedIsField(field, spaces, digits, padding);
    FieldEnds(field, |spaces|, |spaces| + |digits|);
    ShortFieldsFit(digits);
  }

  /** In fields as short as a header's, a number is read exactly where one is stated. */
  lemma OctalIsStated(field: seq<byte>, value: nat)
    requires |field| <= 20
    ensures Octal(field) == Some(value) <==> StatesNumber(field, value)
  {
    if Octal(field) == Some(value) { OctalStates(field); }
    if spaces, digits, padding :| States(field, spaces, digits, padding) && value == OctalValue(digits) {
      StatedIsOctal(field, spaces, digits, padding);
    }
  }

  lemma OctalsAreStated(field: seq<byte>)
    requires |field| <= 20
    ensures Octal(field).Some? <==> exists value: nat :: StatesNumber(field, value)
  {
    if Octal(field).Some? { OctalIsStated(field, Octal(field).value); }
    if value: nat :| StatesNumber(field, value) { OctalIsStated(field, value); }
  }

  /** The POSIX type flags, NUL and the digits, and the letters D, K, L, M, N, S, V, g and x. */
  lemma TypeFlagsAre(flag: byte)
    ensures TypeFlag(flag) <==>
      0x30 <= flag < 0x38 || flag in {0, 0x44, 0x4B, 0x4C, 0x4D, 0x4E, 0x53, 0x56, 0x67, 0x78}
  {
    var letters := Ascii("xgLKSVMDN");
    assert letters == [0x78, 0x67, 0x4C, 0x4B, 0x53, 0x56, 0x4D, 0x44, 0x4E];
  }

  /** The headers accepted: a name, a size of either encoding, a type, and the one sum or the other of the bytes around
      eight spaces stated in the checksum field. */
  lemma AcceptedExactly(header: seq<byte>)
    requires |header| == 512
    ensures IsTar(header) <==>
      && header[0] != 0
      && (header[124] >= 0x80 || exists size: nat :: StatesNumber(header[124..136], size))
      && (0x30 <= header[156] < 0x38 || header[156] in {0, 0x44, 0x4B, 0x4C, 0x4D, 0x4E, 0x53, 0x56, 0x67, 0x78})
      && (|| StatesNumber(header[148..156], SumOf(Blanked(header)))
          || StatesNumber(header[148..156], SignedSumOf(Blanked(header))))
  {
    ChecksumIsTheSum(header);
    TypeFlagsAre(header[156]);
    OctalsAreStated(header[124..136]);
    OctalsAreStated(header[148..156]);
    var field := header[148..156];
    assert header[..BLOCK] == header && header[124] == header[124..136][0];
    var plain, signed := SumOf(Blanked(header)), SignedSumOf(Blanked(header));
    StatedIsNatural(field, plain);
    StatedIsNatural(field, signed);
    if plain >= 0 { OctalIsStated(field, plain); }
    if signed >= 0 { OctalIsStated(field, signed); }
  }

  lemma StatedIsNatural(field: seq<byte>, value: int)
    ensures StatesNumber(field, value) ==> value >= 0
  {
  }

  /** Only the first block is looked at, and a file without a whole one is no archive. */
  lemma OneBlockDecides(prefix: seq<byte>)
    ensures IsTar(prefix) <==> |prefix| >= 512 && IsTar(prefix[..512])
  {
    if |prefix| >= 512 { assert prefix[..512][..512] == prefix[..512]; }
  }
}
