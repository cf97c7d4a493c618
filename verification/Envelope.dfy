/** The PKCS#7 check of src/container.rs: armor that opens the document, a MIME header block, or a DER ContentInfo. */
module Envelope {
  import opened Options
  import opened Bytes

  // ── armor ──

  /** The bytes start with the needle once a byte order mark and blanks are dropped. */
  predicate DocumentStartsWith(bytes: seq<byte>, needle: seq<byte>) { needle <= TrimStart(WithoutBom(bytes)) }

  lemma {:induction false} SkipSpaceExtends(p: seq<byte>, q: seq<byte>, from: nat)
    requires from <= |p| && SkipSpace(p, from) < |p|
    ensures SkipSpace(p + q, from) == SkipSpace(p, from)
    decreases |p| - from
  {
    if IsSpace(p[from]) { SkipSpaceExtends(p, q, from + 1); }
  }

  lemma TrimExtends(p: seq<byte>, q: seq<byte>, needle: seq<byte>)
    requires needle != [] && needle <= TrimStart(p)
    ensures needle <= TrimStart(p + q)
  {
    SkipSpaceExtends(p, q, 0);
    assert TrimStart(p + q) == TrimStart(p) + q;
  }

  /** True also where the mark itself is cut, because no needle starts with one. */
  lemma StartsWithExtends(p: seq<byte>, q: seq<byte>, needle: seq<byte>)
    requires needle != [] && needle[0] != BOM[0] && DocumentStartsWith(p, needle)
    ensures DocumentStartsWith(p + q, needle)
  {
    if BOM <= p {
      TrimExtends(p[3..], q, needle);
      assert (p + q)[3..] == p[3..] + q;
    } else {
      assert p[0] != BOM[0];
      assert (p + q)[0] == p[0];
      TrimExtends(p, q, needle);
    }
  }

  // ── MIME headers ──

  predicate IsNameByte(b: byte) {
    0x30 <= b <= 0x39 || 0x41 <= b <= 0x5A || 0x61 <= b <= 0x7A || b == 0x2D
  }

  function NameEnd(bytes: seq<byte>, from: nat): (r: nat)
    requires from <= |bytes|
    ensures from <= r <= |bytes|
    decreases |bytes| - from
  {
    if from < |bytes| && IsNameByte(bytes[from]) then NameEnd(bytes, from + 1) else from
  }

  const CRLF_CRLF: seq<byte> := [0x0D, 0x0A, 0x0D, 0x0A]
  const LF_LF: seq<byte> := [0x0A, 0x0A]

  /** Where the blank line that ends a header block starts. */
  function BlockEnd(bytes: seq<byte>): (r: nat)
    ensures r <= |bytes|
  {
    match Find(bytes, CRLF_CRLF)
    case Some(k) => k
    case None => match Find(bytes, LF_LF) case Some(k) => k case None => |bytes|
  }

  predicate StartsWithField(bytes: seq<byte>) {
    var name := NameEnd(bytes, 0);
    name > 0 && name < |bytes| && bytes[name] == 0x3A
  }

  /** The header block, or nothing where the first line is no header field. */
  function MimeHeaders(bytes: seq<byte>): seq<byte> {
    if StartsWithField(bytes) then bytes[..BlockEnd(bytes)] else []
  }

  function Lower(b: byte): byte { if 0x41 <= b <= 0x5A then b + 0x20 else b }

  predicate MatchesAt(bytes: seq<byte>, k: nat, needle: seq<byte>) {
    k + |needle| <= |bytes| && forall i | 0 <= i < |needle| :: Lower(bytes[k + i]) == Lower(needle[i])
  }

  predicate ContainsAsciiCase(bytes: seq<byte>, needle: seq<byte>) {
    exists k | 0 <= k <= |bytes| :: MatchesAt(bytes, k, needle)
  }

  lemma {:induction false} NameEndExtends(p: seq<byte>, q: seq<byte>, from: nat)
    requires from <= |p| && NameEnd(p, from) < |p|
    ensures NameEnd(p + q, from) == NameEnd(p, from)
    decreases |p| - from
  {
    if IsNameByte(p[from]) { NameEndExtends(p, q, from + 1); }
  }

  predicate IsLineBreak(b: byte) { b == 0x0D || b == 0x0A }

  /** A longer prefix moves the end of the block back by no more than bytes of a line break:
      the blank line found in it may start in the last bytes of the shorter one. */
  lemma BlockEndExtends(p: seq<byte>, q: seq<byte>)
    ensures forall i | BlockEnd(p + q) <= i < BlockEnd(p) :: IsLineBreak(p[i])
  {
    var whole := p + q;
    if Find(p, CRLF_CRLF).Some? {
      FindExtends(p, q, CRLF_CRLF);
    } else if Find(whole, CRLF_CRLF).Some? {
      var j := Find(whole, CRLF_CRLF).value;
      StraddlingBreak(p, q, j, CRLF_CRLF);
      if Find(p, LF_LF).Some? {
        var k := Find(p, LF_LF).value;
        assert whole[j..j + 4] == CRLF_CRLF && p[k..k + 2] == LF_LF;
        assert whole[j..j + 4][0] == whole[j] && whole[j..j + 4][1] == whole[j + 1];
        assert whole[j..j + 4][2] == whole[j + 2] && whole[j..j + 4][3] == whole[j + 3];
        assert p[k..k + 2][0] == whole[k] && p[k..k + 2][1] == whole[k + 1];
      }
    } else if Find(p, LF_LF).Some? {
      FindExtends(p, q, LF_LF);
    } else if Find(whole, LF_LF).Some? {
      StraddlingBreak(p, q, Find(whole, LF_LF).value, LF_LF);
    }
  }

  /** A blank line that is not in `p` but is in more of the file starts in bytes of a line break at its end. */
  lemma StraddlingBreak(p: seq<byte>, q: seq<byte>, j: nat, needle: seq<byte>)
    requires At(p + q, j, needle) && !At(p, j, needle)
    requires forall i | 0 <= i < |needle| :: IsLineBreak(needle[i])
    ensures |p| < j + |needle|
    ensures forall i | j <= i < |p| :: IsLineBreak(p[i])
  {
    var whole := p + q;
    if j + |needle| <= |p| { AtExtends(p, q, j, needle); }
    forall i | j <= i < |p| ensures IsLineBreak(p[i]) {
      assert whole[j..j + |needle|][i - j] == whole[i];
    }
  }

  /** A media type named in the headers of a prefix is named in the headers of the file. */
  lemma MimeExtends(p: seq<byte>, q: seq<byte>, needle: seq<byte>)
    requires needle != [] && forall i | 0 <= i < |needle| :: !IsLineBreak(Lower(needle[i]))
    requires ContainsAsciiCase(MimeHeaders(p), needle)
    ensures ContainsAsciiCase(MimeHeaders(p + q), needle)
  {
    var k :| 0 <= k <= |MimeHeaders(p)| && MatchesAt(MimeHeaders(p), k, needle);
    NameEndExtends(p, q, 0);
    BlockEndExtends(p, q);
    var end := BlockEnd(p + q);
    assert forall i | k <= i < k + |needle| :: MimeHeaders(p)[i] == p[i] && Lower(p[i]) == Lower(needle[i - k]);
    var last := k + |needle| - 1;
    assert Lower(p[last]) == Lower(needle[last - k]) && !IsLineBreak(p[last]);
    assert last < end;
    assert MatchesAt(MimeHeaders(p + q), k, needle);
  }

  // ── DER ──

  /** Where the contents of a TLV start and how long they say they are. */
  function TlvLength(bytes: seq<byte>): (r: Option<(nat, nat)>)
    ensures r.Some? ==> 2 <= r.value.0 <= |bytes|
  {
    if |bytes| < 2 then None
    else
      var first := bytes[1] as int;
      if first == 0x80 then Some((2, |bytes| - 2))
      else if first < 0x80 then Some((2, first))
      else
        var count := first % 0x80;
        if count == 0 || count > 4 then None
        else
          match Slice(bytes, 2, 2 + count)
          case None => None
          case Some(raw) => Some((2 + count, BigEndian(raw)))
  }

  /** The contents a leading `tag` announces, as far as there are bytes for them, and the bytes behind. */
  function Tlv(bytes: seq<byte>, tag: byte): Option<(seq<byte>, seq<byte>)> {
    if bytes == [] || bytes[0] != tag then None
    else
      match TlvLength(bytes)
      case None => None
      case Some((start, len)) =>
        var end := if start + len <= |bytes| then start + len else |bytes|;
        Some((bytes[start..end], bytes[end..]))
  }

  /** A cursor over DER that may be cut off anywhere. */
  class Der {
    var bytes: seq<byte>

    constructor (bytes: seq<byte>)
      ensures this.bytes == bytes
    {
      this.bytes := bytes;
    }

    method Tagged(tag: byte) returns (r: Option<seq<byte>>)
      modifies this
      ensures match Tlv(old(bytes), tag)
        case None => r == None && bytes == old(bytes)
        case Some((contents, rest)) => r == Some(contents) && bytes == rest
    {
      if bytes == [] || bytes[0] != tag || |bytes| < 2 { return None; }
      var first := bytes[1] as int;
      var start, len := 2, first;
      if first == 0x80 {
        len := |bytes| - 2;
      } else if first > 0x80 {
        var count := first % 0x80;
        if count == 0 || count > 4 || |bytes| < 2 + count { return None; }
        len := 0;
        start := 2 + count;
        for i := 0 to count
          invariant len == BigEndian(bytes[2..2 + i])
        {
          assert bytes[2..2 + i + 1][..i] == bytes[2..2 + i];
          len := len * 0x100 + bytes[2 + i] as int;
        }
      }
      var end := if start + len <= |bytes| then start + len else |bytes|;
      r := Some(bytes[start..end]);
      bytes := bytes[end..];
    }
  }

  const CMS_ARC: seq<byte> := [0x2A, 0x86, 0x48, 0x86, 0xF7, 0x0D, 0x01, 0x07]

  /** A sequence that opens with an object identifier of the CMS content types. */
  predicate DerContentInfo(bytes: seq<byte>) {
    match Tlv(bytes, 0x30)
    case None => false
    case Some((body, _)) =>
      match Tlv(body, 0x06)
      case None => false
      case Some((oid, _)) => |oid| > |CMS_ARC| && CMS_ARC <= oid
  }

  /** A length stays what it says; an indefinite one runs on. */
  lemma LengthExtends(p: seq<byte>, q: seq<byte>)
    requires TlvLength(p).Some?
    ensures TlvLength(p + q).Some? && TlvLength(p + q).value.0 == TlvLength(p).value.0
    ensures TlvLength(p).value.1 <= TlvLength(p + q).value.1
    ensures TlvLength(p + q) == TlvLength(p) || TlvLength(p).value.0 + TlvLength(p).value.1 == |p|
  {
    assert (p + q)[1] == p[1];
    var count := p[1] as int % 0x80;
    if p[1] > 0x80 {
      assert (p + q)[2..2 + count] == p[2..2 + count];
    }
  }

  /** Clamping is honest: what a prefix shows of the contents is what the file has, as far as it goes. */
  lemma TlvExtends(p: seq<byte>, q: seq<byte>, tag: byte)
    requires Tlv(p, tag).Some?
    ensures Tlv(p + q, tag).Some? && Tlv(p, tag).value.0 <= Tlv(p + q, tag).value.0
  {
    LengthExtends(p, q);
    assert (p + q)[0] == p[0];
    var (start, len) := TlvLength(p).value;
    var end := if start + len <= |p| then start + len else |p|;
    var (_, more) := TlvLength(p + q).value;
    SliceExtends(p, q, start, end, if start + more <= |p + q| then start + more else |p + q|);
  }

  lemma SliceExtends(p: seq<byte>, q: seq<byte>, start: nat, end: nat, later: nat)
    requires start <= end <= |p| && end <= later <= |p + q|
    ensures p[start..end] <= (p + q)[start..later]
  {
    assert forall i | start <= i < end :: (p + q)[i] == p[i];
  }

  lemma {:induction false} TlvMonotone(p: seq<byte>, longer: seq<byte>, tag: byte)
    requires p <= longer && Tlv(p, tag).Some?
    ensures Tlv(longer, tag).Some? && Tlv(p, tag).value.0 <= Tlv(longer, tag).value.0
  {
    TlvExtends(p, longer[|p|..], tag);
    assert p + longer[|p|..] == longer;
  }

  lemma DerExtends(p: seq<byte>, q: seq<byte>)
    requires DerContentInfo(p)
    ensures DerContentInfo(p + q)
  {
    TlvExtends(p, q, 0x30);
    TlvMonotone(Tlv(p, 0x30).value.0, Tlv(p + q, 0x30).value.0, 0x06);
  }

  /** A length in the short form, or in the long form with `count` octets. */
  function EncodeLength(n: nat, count: nat): seq<byte>
    requires if count == 0 then n < 0x80 else count <= 4 && n < Power256(count)
  {
    if count == 0 then [n] else [0x80 + count] + Octets(n, count)
  }

  /** Reading a TLV undoes writing it, in every form of the length the reader takes. */
  lemma TlvInverse(tag: byte, contents: seq<byte>, count: nat, rest: seq<byte>)
    requires if count == 0 then |contents| < 0x80 else count <= 4 && |contents| < Power256(count)
    ensures Tlv([tag] + EncodeLength(|contents|, count) + contents + rest, tag) == Some((contents, rest))
  {
    var length := EncodeLength(|contents|, count);
    var bytes := [tag] + length + contents + rest;
    LengthInverse(tag, |contents|, count, contents + rest);
    assert bytes == [tag] + length + (contents + rest);
    var start := 1 + |length|;
    assert bytes[start..start + |contents|] == contents && bytes[start + |contents|..] == rest;
  }

  lemma LengthInverse(tag: byte, n: nat, count: nat, after: seq<byte>)
    requires if count == 0 then n < 0x80 else count <= 4 && n < Power256(count)
    ensures var length := EncodeLength(n, count);
      TlvLength([tag] + length + after) == Some((1 + |length|, n))
  {
    if count == 0 {
      var bytes := [tag] + EncodeLength(n, 0) + after;
      assert bytes[1] == n;
    } else {
      LongLengthInverse(tag, n, count, after);
    }
  }

  lemma LongLengthInverse(tag: byte, n: nat, count: nat, after: seq<byte>)
    requires 0 < count <= 4 && n < Power256(count)
    ensures TlvLength([tag] + EncodeLength(n, count) + after) == Some((2 + count, n))
  {
    OctetsSpell(n, count);
    LongLength(tag, 0x80 + count, Octets(n, count), after);
    TwoAhead(tag, 0x80 + count, Octets(n, count), after);
  }

  lemma TwoAhead(a: byte, b: byte, c: seq<byte>, d: seq<byte>)
    ensures [a] + ([b] + c) + d == [a, b] + c + d
  {
  }

  lemma LongLength(tag: byte, first: byte, octets: seq<byte>, after: seq<byte>)
    requires 0 < |octets| <= 4 && first as int == 0x80 + |octets|
    ensures TlvLength([tag, first] + octets + after) == Some((2 + |octets|, BigEndian(octets)))
  {
    var bytes := [tag, first] + octets + after;
    assert bytes[1] == first && bytes[2..2 + |octets|] == octets;
    LongForm(bytes, |octets|);
  }

  /** The long form of a length: its first octet says how many follow. */
  lemma LongForm(bytes: seq<byte>, count: nat)
    requires 0 < count <= 4 && |bytes| >= 2 + count && bytes[1] as int == 0x80 + count
    ensures TlvLength(bytes) == Some((2 + count, BigEndian(bytes[2..2 + count])))
  {
    assert bytes[1] as int % 0x80 == count;
  }

  // ── the check ──

  predicate IsPkcs7(prefix: seq<byte>) {
    || DocumentStartsWith(prefix, Ascii("-----BEGIN PKCS7-----"))
    || DocumentStartsWith(prefix, Ascii("-----BEGIN CMS-----"))
    || ContainsAsciiCase(MimeHeaders(prefix), Ascii("application/pkcs7-mime"))
    || DerContentInfo(prefix)
  }

  lemma Pkcs7Extends(p: seq<byte>, q: seq<byte>)
    requires IsPkcs7(p)
    ensures IsPkcs7(p + q)
  {
    ArmorExtends(p, q, Ascii("-----BEGIN PKCS7-----"));
    ArmorExtends(p, q, Ascii("-----BEGIN CMS-----"));
    MediaTypeExtends(p, q);
    if DerContentInfo(p) { DerExtends(p, q); }
  }

  lemma MediaTypeExtends(p: seq<byte>, q: seq<byte>)
    ensures ContainsAsciiCase(MimeHeaders(p), Ascii("application/pkcs7-mime")) ==>
      ContainsAsciiCase(MimeHeaders(p + q), Ascii("application/pkcs7-mime"))
  {
    MediaTypeHasNoBreak("application/pkcs7-mime");
    if ContainsAsciiCase(MimeHeaders(p), Ascii("application/pkcs7-mime")) {
      MimeExtends(p, q, Ascii("application/pkcs7-mime"));
    }
  }

  lemma ArmorExtends(p: seq<byte>, q: seq<byte>, needle: seq<byte>)
    requires needle != [] && needle[0] != BOM[0]
    ensures DocumentStartsWith(p, needle) ==> DocumentStartsWith(p + q, needle)
  {
    if DocumentStartsWith(p, needle) { StartsWithExtends(p, q, needle); }
  }

  lemma MediaTypeHasNoBreak(text: string)
    requires forall i | 0 <= i < |text| :: ' ' < text[i] < 128 as char
    ensures forall i | 0 <= i < |text| :: !IsLineBreak(Lower(Ascii(text)[i]))
  {
  }

  // ── what is accepted ──

  /** White space in the ASCII sense. */
  ghost predicate Blanks(bytes: seq<byte>) {
    forall i | 0 <= i < |bytes| :: bytes[i] in {0x20, 0x09, 0x0A, 0x0C, 0x0D}
  }

  /** A file opens with a needle: blanks may stand before it, and a UTF-8 byte order mark before those. */
  ghost predicate Opens(file: seq<byte>, needle: seq<byte>) {
    exists spaces, rest :: Blanks(spaces) && OpensAfter(file, needle, spaces, rest)
  }

  predicate OpensAfter(file: seq<byte>, needle: seq<byte>, spaces: seq<byte>, rest: seq<byte>) {
    file == spaces + needle + rest || file == [0xEF, 0xBB, 0xBF] + (spaces + needle + rest)
  }

  lemma TrimsBlanks(spaces: seq<byte>, needle: seq<byte>, rest: seq<byte>)
    requires Blanks(spaces) && needle != [] && !Blanks(needle[..1])
    ensures needle <= TrimStart(spaces + needle + rest)
  {
    var bytes := spaces + needle + rest;
    var from := SkipSpace(bytes, 0);
    assert bytes[|spaces|] == needle[0] && needle[..1] == [needle[0]];
    assert forall i | 0 <= i < |spaces| :: bytes[i] == spaces[i];
    assert from == |spaces| && bytes[from..] == needle + rest;
  }

  lemma OpensWhereTrimmed(bytes: seq<byte>, needle: seq<byte>) returns (spaces: seq<byte>, rest: seq<byte>)
    requires needle <= TrimStart(bytes)
    ensures Blanks(spaces) && bytes == spaces + needle + rest
  {
    var from := SkipSpace(bytes, 0);
    spaces, rest := bytes[..from], bytes[from + |needle|..];
    assert bytes == bytes[..from] + bytes[from..] && bytes[from..][..|needle|] == needle;
  }

  /** Exactly the files that open with the needle do. */
  lemma OpensExactly(file: seq<byte>, needle: seq<byte>)
    requires needle != [] && !Blanks(needle[..1]) && needle[0] != 0xEF
    ensures DocumentStartsWith(file, needle) <==> Opens(file, needle)
  {
    if DocumentStartsWith(file, needle) {
      var spaces, rest := OpensWhereTrimmed(WithoutBom(file), needle);
      if BOM <= file { assert file == BOM + file[3..]; }
      assert OpensAfter(file, needle, spaces, rest);
    }
    if spaces, rest :| Blanks(spaces) && OpensAfter(file, needle, spaces, rest) {
      TrimsBlanks(spaces, needle, rest);
      var bytes := spaces + needle + rest;
      if file == bytes {
        assert bytes[0] == if spaces != [] then spaces[0] else needle[0];
        assert !(BOM <= file);
      } else {
        assert file[3..] == bytes;
      }
    }
  }

  /** An object identifier below 1.2.840.113549.1.7 (RFC 5652), and not that arc itself. */
  predicate IsContentType(oid: seq<byte>) {
    |oid| > 8 && oid[..8] == [0x2A, 0x86, 0x48, 0x86, 0xF7, 0x0D, 0x01, 0x07]
  }

  predicate CanWrite(contents: seq<byte>, count: nat) {
    if count == 0 then |contents| < 0x80 else count <= 4 && |contents| < Power256(count)
  }

  function WriteTlv(tag: byte, contents: seq<byte>, count: nat): seq<byte>
    requires CanWrite(contents, count)
  {
    [tag] + EncodeLength(|contents|, count) + contents
  }

  /** A sequence as it is written, its first child an object identifier, is a ContentInfo exactly where that is a
      content type, whatever follows and in whichever form the lengths are. */
  lemma WrittenContentInfo(oid: seq<byte>, inner: nat, more: seq<byte>, outer: nat, rest: seq<byte>)
    requires CanWrite(oid, inner) && CanWrite(WriteTlv(0x06, oid, inner) + more, outer)
    ensures DerContentInfo(WriteTlv(0x30, WriteTlv(0x06, oid, inner) + more, outer) + rest) <==> IsContentType(oid)
  {
    TlvInverse(0x06, oid, inner, more);
    TlvInverse(0x30, WriteTlv(0x06, oid, inner) + more, outer, rest);
  }

  /** And nothing but a sequence of an object identifier is one. */
  lemma ContentInfoIsASequence(bytes: seq<byte>)
    ensures DerContentInfo(bytes) ==> |bytes| >= 2 && bytes[0] == 0x30
  {
  }

  // ── the header block ──

  /** A blank line of either kind. */
  predicate BlankLineAt(bytes: seq<byte>, k: nat) {
    At(bytes, k, [0x0D, 0x0A, 0x0D, 0x0A]) || At(bytes, k, [0x0A, 0x0A])
  }

  /** A letter, a digit or a hyphen. */
  predicate IsFieldNameByte(b: byte) {
    || 'a' as int <= b <= 'z' as int || 'A' as int <= b <= 'Z' as int || '0' as int <= b <= '9' as int
    || b == '-' as int
  }

  /** The same text but for the case of its ASCII letters. */
  predicate SameButCase(a: seq<byte>, b: seq<byte>) {
    |a| == |b| && forall i | 0 <= i < |a| ::
      a[i] == b[i] || ('A' as int <= a[i] <= 'Z' as int && b[i] == a[i] + 32)
      || ('A' as int <= b[i] <= 'Z' as int && a[i] == b[i] + 32)
  }

  lemma {:induction false} NameRuns(bytes: seq<byte>, from: nat)
    requires from <= |bytes|
    ensures var r := NameEnd(bytes, from);
      (forall i | from <= i < r :: IsFieldNameByte(bytes[i])) && (r < |bytes| ==> !IsFieldNameByte(bytes[r]))
    decreases |bytes| - from
  {
    if from < |bytes| && IsNameByte(bytes[from]) { NameRuns(bytes, from + 1); }
  }

  lemma BlockEndsBlank(bytes: seq<byte>)
    ensures BlockEnd(bytes) < |bytes| ==> BlankLineAt(bytes, BlockEnd(bytes))
    ensures forall j: nat | At(bytes, j, [0x0D, 0x0A, 0x0D, 0x0A]) :: BlockEnd(bytes) <= j
    ensures Find(bytes, [0x0D, 0x0A, 0x0D, 0x0A]).None? ==>
      forall j: nat | At(bytes, j, [0x0A, 0x0A]) :: BlockEnd(bytes) <= j
  {
  }

  /** A file that opens with a header field, and names a type in whichever case before the first blank line, names
      it in its headers. */
  lemma NamedTypeIsFound(name: seq<byte>, before: seq<byte>, media: seq<byte>, rest: seq<byte>, needle: seq<byte>)
    requires name != [] && forall i | 0 <= i < |name| :: IsFieldNameByte(name[i])
    requires SameButCase(media, needle)
    requires var file := name + [0x3A] + before + media + rest;
      forall k: nat | BlankLineAt(file, k) :: k >= |file| - |rest|
    ensures ContainsAsciiCase(MimeHeaders(name + [0x3A] + before + media + rest), needle)
  {
    var file := name + [0x3A] + before + media + rest;
    assert forall i | 0 <= i < |name| :: file[i] == name[i];
    assert file[|name|] == 0x3A;
    NameRuns(file, 0);
    assert NameEnd(file, 0) == |name|;
    BlockEndsBlank(file);
    var k := |name| + 1 + |before|;
    assert forall i | 0 <= i < |media| :: file[k + i] == media[i];
    assert MatchesAt(MimeHeaders(file), k, needle);
  }

  /** What is named in the headers of a file that has a blank line stands before it, and the file opens with a field. */
  lemma FoundTypeIsNamed(file: seq<byte>, needle: seq<byte>) returns (k: nat)
    requires needle != [] && ContainsAsciiCase(MimeHeaders(file), needle)
    ensures k + |needle| <= |file| && SameButCase(file[k..k + |needle|], needle)
    ensures forall j: nat | At(file, j, [0x0D, 0x0A, 0x0D, 0x0A]) :: k + |needle| <= j
    ensures Find(file, [0x0D, 0x0A, 0x0D, 0x0A]).None? ==>
      forall j: nat | At(file, j, [0x0A, 0x0A]) :: k + |needle| <= j
    ensures IsFieldNameByte(file[0])
  {
    NameRuns(file, 0);
    BlockEndsBlank(file);
    k :| 0 <= k <= |MimeHeaders(file)| && MatchesAt(MimeHeaders(file), k, needle);
    var there := file[k..k + |needle|];
    forall i | 0 <= i < |needle|
      ensures there[i] == MimeHeaders(file)[k + i] && Lower(there[i]) == Lower(needle[i])
    {
    }
  }

  /** The check, in the words it looks for. */
  lemma Pkcs7Exactly(prefix: seq<byte>)
    ensures IsPkcs7(prefix) <==>
      || Opens(prefix, Ascii("-----BEGIN PKCS7-----"))
      || Opens(prefix, Ascii("-----BEGIN CMS-----"))
      || ContainsAsciiCase(MimeHeaders(prefix), Ascii("application/pkcs7-mime"))
      || DerContentInfo(prefix)
  {
    DashesOpen(prefix, Ascii("-----BEGIN PKCS7-----"));
    DashesOpen(prefix, Ascii("-----BEGIN CMS-----"));
  }

  lemma DashesOpen(file: seq<byte>, needle: seq<byte>)
    requires needle != [] && needle[0] == 0x2D
    ensures DocumentStartsWith(file, needle) <==> Opens(file, needle)
  {
    assert needle[..1][0] == 0x2D;
    OpensExactly(file, needle);
  }
}
