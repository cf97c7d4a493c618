/** Bytes, and the searches over them that the container checks and the declaration reader share. */
module Bytes {
  import opened Options

  type byte = b: int | 0 <= b < 256

  /** The bytes of an ASCII text. */
  function Ascii(text: string): (r: seq<byte>)
    ensures |r| == |text|
  {
    seq(|text|, i requires 0 <= i < |text| => if text[i] < 128 as char then text[i] as int else 0)
  }

  /** Space, tab, line feed, form feed, carriage return. */
  predicate IsSpace(b: byte) { b == 0x20 || b == 0x09 || b == 0x0A || b == 0x0C || b == 0x0D }

  lemma SpacesAreWritten(b: byte)
    ensures IsSpace(b) <==> b in [' ' as int, '\t' as int, '\n' as int, 0x0C, '\r' as int]
  {
  }

  predicate At(bytes: seq<byte>, k: nat, needle: seq<byte>) {
    k + |needle| <= |bytes| && bytes[k..k + |needle|] == needle
  }

  /** Where `needle` first stands at or after `from`. */
  function FindFrom(bytes: seq<byte>, needle: seq<byte>, from: nat): (r: Option<nat>)
    ensures r.Some? ==> from <= r.value && At(bytes, r.value, needle)
    ensures r.Some? ==> forall j | from <= j < r.value :: !At(bytes, j, needle)
    ensures r.None? ==> forall j | from <= j :: !At(bytes, j, needle)
    decreases |bytes| - from
  {
    if At(bytes, from, needle) then Some(from)
    else if from >= |bytes| then None
    else FindFrom(bytes, needle, from + 1)
  }

  function Find(bytes: seq<byte>, needle: seq<byte>): (r: Option<nat>)
    ensures r.Some? ==> At(bytes, r.value, needle)
    ensures r.Some? ==> forall j | 0 <= j < r.value :: !At(bytes, j, needle)
    ensures r.None? ==> forall j | 0 <= j :: !At(bytes, j, needle)
  {
    FindFrom(bytes, needle, 0)
  }

  /** More bytes behind do not move what stands inside. */
  lemma AtExtends(p: seq<byte>, q: seq<byte>, k: nat, needle: seq<byte>)
    requires k + |needle| <= |p|
    ensures At(p + q, k, needle) == At(p, k, needle)
  {
    assert (p + q)[k..k + |needle|] == p[k..k + |needle|];
  }

  lemma FindExtends(p: seq<byte>, q: seq<byte>, needle: seq<byte>)
    requires Find(p, needle).Some?
    ensures Find(p + q, needle) == Find(p, needle)
  {
    var k := Find(p, needle).value;
    AtExtends(p, q, k, needle);
    forall j | 0 <= j < k ensures !At(p + q, j, needle) {
      AtExtends(p, q, j, needle);
    }
  }

  /** The first byte at or after `from` that is not blank. */
  function SkipSpace(bytes: seq<byte>, from: nat): (r: nat)
    requires from <= |bytes|
    ensures from <= r <= |bytes|
    ensures forall j | from <= j < r :: IsSpace(bytes[j])
    ensures r < |bytes| ==> !IsSpace(bytes[r])
    decreases |bytes| - from
  {
    if from < |bytes| && IsSpace(bytes[from]) then SkipSpace(bytes, from + 1) else from
  }

  function TrimStart(bytes: seq<byte>): seq<byte> { bytes[SkipSpace(bytes, 0)..] }

  const BOM: seq<byte> := [0xEF, 0xBB, 0xBF]

  /** Past a UTF-8 byte order mark, where there is one. */
  function WithoutBom(bytes: seq<byte>): seq<byte> { if BOM <= bytes then bytes[3..] else bytes }

  /** The three bytes U+FEFF is in UTF-8, and no others, are passed over, and once. */
  lemma MarkIsPassed(bytes: seq<byte>)
    ensures WithoutBom([0xEF, 0xBB, 0xBF] + bytes) == bytes
    ensures !([0xEF, 0xBB, 0xBF] <= bytes) ==> WithoutBom(bytes) == bytes
  {
    assert ([0xEF, 0xBB, 0xBF] + bytes)[3..] == bytes;
  }

  /** The bytes from `from` up to `to`, where they are all there. */
  function Slice(bytes: seq<byte>, from: nat, to: nat): (r: Option<seq<byte>>)
    requires from <= to
    ensures r.Some? ==> |r.value| == to - from
  {
    if to <= |bytes| then Some(bytes[from..to]) else None
  }

  function BigEndian(bytes: seq<byte>): nat {
    if bytes == [] then 0 else 0x100 * BigEndian(bytes[..|bytes| - 1]) + (bytes[|bytes| - 1] as int)
  }

  function Power256(n: nat): nat { if n == 0 then 1 else 0x100 * Power256(n - 1) }

  /** A number in `n` bytes, most significant first. */
  function Octets(value: nat, n: nat): (r: seq<byte>)
    ensures |r| == n
  {
    if n == 0 then [] else Octets(value / 0x100, n - 1) + [value % 0x100]
  }

  lemma {:induction false} OctetsSpell(value: nat, n: nat)
    requires value < Power256(n)
    ensures BigEndian(Octets(value, n)) == value
  {
    if n > 0 {
      OctetsSpell(value / 0x100, n - 1);
      assert Octets(value, n)[..n - 1] == Octets(value / 0x100, n - 1);
    }
  }

  /** The bytes from `at` on start with a run. */
  ghost predicate Here(bytes: seq<byte>, at: nat, run: seq<byte>) {
    at + |run| <= |bytes| && forall i | 0 <= i < |run| :: bytes[at + i] == run[i]
  }

  lemma HereSlice(bytes: seq<byte>, at: nat, run: seq<byte>)
    requires Here(bytes, at, run)
    ensures bytes[at..at + |run|] == run
  {
  }

  lemma HereSplits(bytes: seq<byte>, at: nat, a: seq<byte>, b: seq<byte>)
    requires Here(bytes, at, a + b)
    ensures Here(bytes, at, a) && Here(bytes, at + |a|, b)
  {
    assert forall i | 0 <= i < |a| :: (a + b)[i] == a[i];
    assert forall i | 0 <= i < |b| :: (a + b)[|a| + i] == b[i];
  }

  lemma OneHere(bytes: seq<byte>, at: nat, b: byte)
    requires Here(bytes, at, [b])
    ensures bytes[at] == b
  {
    assert bytes[at + 0] == [b][0];
  }
}
