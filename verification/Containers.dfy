/** Which transport container a prefix is, and what cutting the prefix can change: src/container.rs `detect`. */
module Containers {
  import opened Options
  import opened Bytes
  import opened Tar
  import opened Envelope
  import opened OpenPgp
  import opened EbicsAttributes

  datatype ContainerKind = Zip | TarArchive | Pkcs7 | Pgp | EbicsEnvelope

  const ZIP_SIGNATURES: seq<seq<byte>> := [
    [0x50, 0x4B, 0x03, 0x04],
    [0x50, 0x4B, 0x05, 0x06],
    [0x50, 0x4B, 0x07, 0x08],
    [0x50, 0x4B, 0x06, 0x06],
    [0x50, 0x4B, 0x06, 0x07],
    [0x50, 0x4B, 0x30, 0x30]
  ]

  predicate IsZip(prefix: seq<byte>) { |prefix| >= 4 && prefix[..4] in ZIP_SIGNATURES }

  const PGP_ARMOR: seq<byte> := Ascii("-----BEGIN PGP MESSAGE-----")

  ghost predicate IsPgp(prefix: seq<byte>) { DocumentStartsWith(prefix, PGP_ARMOR) || PgpPackets(prefix) }

  ghost predicate Is(kind: ContainerKind, prefix: seq<byte>) {
    match kind
    case Zip => IsZip(prefix)
    case TarArchive => IsTar(prefix)
    case Pkcs7 => IsPkcs7(prefix)
    case Pgp => IsPgp(prefix)
    case EbicsEnvelope => IsEbics(prefix)
  }

  /** The order the kinds are tried in. */
  function Rank(kind: ContainerKind): nat {
    match kind case Zip => 0 case TarArchive => 1 case Pkcs7 => 2 case Pgp => 3 case EbicsEnvelope => 4
  }

  lemma TriedInOrder(kind: ContainerKind)
    ensures Rank(kind) < 5 && [Zip, TarArchive, Pkcs7, Pgp, EbicsEnvelope][Rank(kind)] == kind
  {
  }

  /** The first kind in the order whose check the prefix passes, or none where it passes none. */
  ghost predicate IsVerdict(r: Option<ContainerKind>, prefix: seq<byte>) {
    match r
    case Some(kind) => Is(kind, prefix) && forall other | Rank(other) < Rank(kind) :: !Is(other, prefix)
    case None => forall kind :: !Is(kind, prefix)
  }

  method Detect(prefix: seq<byte>) returns (r: Option<ContainerKind>)
    ensures IsVerdict(r, prefix)
  {
    if IsZip(prefix) { return Some(Zip); }
    if IsTar(prefix) { return Some(TarArchive); }
    if IsPkcs7(prefix) { return Some(Pkcs7); }
    var packets := Packets(prefix);
    if DocumentStartsWith(prefix, PGP_ARMOR) || packets { return Some(Pgp); }
    if IsEbics(prefix) { return Some(EbicsEnvelope); }
    return None;
  }

  /** Cutting a file to a prefix loses a check's answer and never invents one. */
  lemma CutNeverInvents(kind: ContainerKind, p: seq<byte>, q: seq<byte>)
    requires Is(kind, p)
    ensures Is(kind, p + q)
  {
    match kind
    case Zip => assert (p + q)[..4] == p[..4];
    case TarArchive => TarExtends(p, q);
    case Pkcs7 => Pkcs7Extends(p, q);
    case Pgp =>
      if DocumentStartsWith(p, PGP_ARMOR) {
        StartsWithExtends(p, q, PGP_ARMOR);
      } else {
        PacketsExtend(p, q);
      }
    case EbicsEnvelope => EbicsExtends(p, q);
  }

  /** A prefix is refused only where the file is, and by a check no earlier than the file's. */
  lemma VerdictOnlyLost(p: seq<byte>, q: seq<byte>, cut: Option<ContainerKind>, whole: Option<ContainerKind>)
    requires IsVerdict(cut, p) && IsVerdict(whole, p + q)
    ensures cut.Some? ==> whole.Some? && Rank(whole.value) <= Rank(cut.value)
  {
    if cut.Some? {
      CutNeverInvents(cut.value, p, q);
    }
  }

  /** The six record signatures of a ZIP file. */
  lemma ZipExactly(prefix: seq<byte>)
    ensures IsZip(prefix) <==>
      && |prefix| >= 4 && prefix[0] == 'P' as int && prefix[1] == 'K' as int
      && (prefix[2], prefix[3]) in {(3, 4), (5, 6), (7, 8), (6, 6), (6, 7), ('0' as int, '0' as int)}
  {
    if |prefix| >= 4 { assert prefix[..4] == [prefix[0], prefix[1], prefix[2], prefix[3]]; }
  }

  /** An encrypted message in armor opens the file, or its packets are one. */
  lemma PgpExactly(prefix: seq<byte>)
    ensures IsPgp(prefix) <==> Opens(prefix, Ascii("-----BEGIN PGP MESSAGE-----")) || PgpPackets(prefix)
  {
    DashesOpen(prefix, PGP_ARMOR);
  }
}
