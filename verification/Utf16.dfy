/** UTF-16LE as a byte automaton, against the encoding of a text it is to undo. */
module Utf16 {
  import opened Options
  import opened Bytes
  import opened Decoding
  import opened ByteInput

  /** A Unicode scalar value. */
  type scalar = u: int | 0 <= u < 0xD800 || 0xE000 <= u < 0x11_0000

  type unit = u: int | 0 <= u < 0x1_0000

  predicate IsHigh(u: unit) { 0xD800 <= u < 0xDC00 }
  predicate IsLow(u: unit) { 0xDC00 <= u < 0xE000 }

  /** The UTF-8 form of a scalar value. */
  function Utf8(u: scalar): (r: seq<byte>)
    ensures 1 <= |r| <= 4
  {
    if u < 0x80 then [u]
    else if u < 0x800 then [0xC0 + u / 0x40, 0x80 + u % 0x40]
    else if u < 0x1_0000 then [0xE0 + u / 0x1000, 0x80 + u / 0x40 % 0x40, 0x80 + u % 0x40]
    else [0xF0 + u / 0x4_0000, 0x80 + u / 0x1000 % 0x40, 0x80 + u / 0x40 % 0x40, 0x80 + u % 0x40]
  }

  /** The payload of a continuation byte. */
  function Tail(b: byte): int { b - 0x80 }

  /** Section 3 of RFC 3629: the number of bytes, what each of them looks like, and that their payloads together
      are the scalar value. */
  lemma Utf8Exactly(u: scalar)
    ensures var b := Utf8(u);
      && (forall i | 1 <= i < |b| :: 0x80 <= b[i] < 0xC0)
      && (u < 0x80 ==> b == [u])
      && (0x80 <= u < 0x800 ==> |b| == 2 && 0xC0 <= b[0] < 0xE0 && u == (b[0] - 0xC0) * 64 + Tail(b[1]))
      && (0x800 <= u < 0x1_0000 ==>
        |b| == 3 && 0xE0 <= b[0] < 0xF0 && u == (b[0] - 0xE0) * 4096 + Tail(b[1]) * 64 + Tail(b[2]))
      && (0x1_0000 <= u ==>
        && |b| == 4 && 0xF0 <= b[0] < 0xF8
        && u == (b[0] - 0xF0) * 262144 + Tail(b[1]) * 4096 + Tail(b[2]) * 64 + Tail(b[3]))
  {
    assert u / 0x1000 == u / 0x40 / 0x40 && u / 0x4_0000 == u / 0x1000 / 0x40;
  }

  function Utf8Text(text: seq<scalar>): seq<byte> {
    if text == [] then [] else Utf8(text[0]) + Utf8Text(text[1..])
  }

  function Unit(low: byte, high: byte): unit { (low as int) + 0x100 * (high as int) }

  function LittleEndian(u: unit): seq<byte> { [u % 0x100, u / 0x100] }

  /** The UTF-16LE form of a scalar value: one unit, or a surrogate pair. */
  function Encode(u: scalar): (r: seq<byte>)
    ensures |r| == 2 || |r| == 4
  {
    if u < 0x1_0000 then LittleEndian(u)
    else LittleEndian(0xD800 + (u - 0x1_0000) / 0x400) + LittleEndian(0xDC00 + (u - 0x1_0000) % 0x400)
  }

  function EncodeText(text: seq<scalar>): seq<byte> {
    if text == [] then [] else Encode(text[0]) + EncodeText(text[1..])
  }

  /** Between characters, after half a unit, after a high surrogate, or half a unit after one. */
  datatype State =
    | Idle
    | Half(low: byte)
    | Waiting(high: unit)
    | WaitingHalf(high: unit, low: byte)

  function Step(st: State, b: byte): Option<(State, seq<byte>)> {
    match st
    case Idle => Some((Half(b), []))
    case Waiting(high) => Some((WaitingHalf(high, b), []))
    case Half(low) =>
      var u := Unit(low, b);
      if IsHigh(u) then Some((Waiting(u), []))
      else if IsLow(u) then None
      else Some((Idle, Utf8(u)))
    case WaitingHalf(high, low) =>
      var u := Unit(low, b);
      if IsHigh(high) && IsLow(u) then Some((Idle, Utf8(Pair(high, u))))
      else None
  }

  function Flush(st: State): Option<seq<byte>> { if st.Idle? then Some([]) else None }

  const LE: Coder<State> := Coder(Idle, Step, Flush, 4)

  lemma LittleEndianIsNarrow()
    ensures Narrow(LE)
  {
  }

  lemma FeedTwo(st: State, a: byte, b: byte)
    requires Step(st, a).Some? && Step(Step(st, a).value.0, b).Some?
    ensures Feed(LE, st, [a, b])
      == Fed(Some(Step(Step(st, a).value.0, b).value.0), Step(st, a).value.1 + Step(Step(st, a).value.0, b).value.1)
  {
    var half, end := Step(st, a).value.0, Step(Step(st, a).value.0, b).value.0;
    assert [a, b][1..] == [b] && [b][1..] == [];
    assert Feed(LE, end, []) == Fed(Some(end), []);
    assert Feed(LE, half, [b]).text == Step(half, b).value.1 + [];
  }

  lemma UnitOfItsBytes(u: unit)
    ensures Unit(u % 0x100, u / 0x100) == u
  {
  }

  /** A unit that is no surrogate is a character, a high surrogate waits, and a low one behind it makes a pair. */
  lemma FeedUnit(u: unit)
    ensures !IsHigh(u) && !IsLow(u) ==> Feed(LE, Idle, LittleEndian(u)) == Fed(Some(Idle), Utf8(u))
    ensures IsHigh(u) ==> Feed(LE, Idle, LittleEndian(u)) == Fed(Some(Waiting(u)), [])
  {
    UnitOfItsBytes(u);
    if !IsLow(u) { FeedTwo(Idle, u % 0x100, u / 0x100); }
  }

  lemma FeedLow(high: unit, low: unit)
    requires IsHigh(high) && IsLow(low)
    ensures Feed(LE, Waiting(high), LittleEndian(low)) == Fed(Some(Idle), Utf8(Pair(high, low)))
  {
    UnitOfItsBytes(low);
    FeedTwo(Waiting(high), low % 0x100, low / 0x100);
  }

  lemma SurrogatesOf(u: scalar) returns (high: unit, low: unit)
    requires u >= 0x1_0000
    ensures IsHigh(high) && IsLow(low) && Pair(high, low) == u
    ensures Encode(u) == LittleEndian(high) + LittleEndian(low)
  {
    high, low := 0xD800 + (u - 0x1_0000) / 0x400, 0xDC00 + (u - 0x1_0000) % 0x400;
  }

  lemma FeedOne(u: scalar)
    ensures Feed(LE, Idle, Encode(u)) == Fed(Some(Idle), Utf8(u))
  {
    if u < 0x1_0000 {
      FeedUnit(u);
    } else {
      var high, low := SurrogatesOf(u);
      FeedUnit(high);
      FeedLow(high, low);
      FeedInPieces(LE, Idle, LittleEndian(high), LittleEndian(low));
    }
  }

  /** Decoding undoes encoding, for every text. */
  lemma {:induction false} RoundTrip(text: seq<scalar>)
    ensures Decode(LE, Idle, EncodeText(text)) == Decoded(Utf8Text(text), true)
  {
    if text != [] {
      FeedOne(text[0]);
      DecodeInPieces(LE, Idle, Encode(text[0]), EncodeText(text[1..]));
      RoundTrip(text[1..]);
    }
  }

  /** What is accepted where a unit may start, and is not over, starts with a unit. */
  lemma AcceptedStartsWithAUnit(st: State, raw: seq<byte>) returns (next: State)
    requires st.Idle? || st.Waiting?
    requires raw != [] && Decode(LE, st, raw).ok
    ensures |raw| >= 2 && (next.Idle? || next.Waiting?)
    ensures (Step(Step(st, raw[0]).value.0, raw[1])).Some? && next == Step(Step(st, raw[0]).value.0, raw[1]).value.0
    ensures Decode(LE, next, raw[2..]).ok
  {
    var half := Step(st, raw[0]).value.0;
    assert Feed(LE, half, []) == Fed(Some(half), []);
    assert Feed(LE, st, raw).st == Feed(LE, half, raw[1..]).st;
    assert raw[1..] != [];
    assert raw[1..][1..] == raw[2..];
    next := Step(half, raw[1]).value.0;
  }

  lemma UnitBack(low: byte, high: byte)
    ensures LittleEndian(Unit(low, high)) == [low, high]
  {
  }

  function Pair(high: unit, low: unit): scalar
    requires IsHigh(high) && IsLow(low)
  {
    0x1_0000 + (high - 0xD800) * 0x400 + (low - 0xDC00)
  }

  lemma PairBack(high: unit, low: unit)
    requires IsHigh(high) && IsLow(low)
    ensures Encode(Pair(high, low)) == LittleEndian(high) + LittleEndian(low)
  {
    assert (Pair(high, low) - 0x1_0000) / 0x400 == high - 0xD800;
  }

  /** What is accepted between characters starts with a whole character. */
  lemma AcceptedStartsWithACharacter(raw: seq<byte>) returns (u: scalar, rest: seq<byte>)
    requires raw != [] && Decode(LE, Idle, raw).ok
    ensures raw == Encode(u) + rest && Decode(LE, Idle, rest).ok
  {
    var first := AcceptedStartsWithAUnit(Idle, raw);
    UnitBack(raw[0], raw[1]);
    if first.Idle? {
      u, rest := Unit(raw[0], raw[1]), raw[2..];
    } else {
      assert raw[2..] != [];
      var second := AcceptedStartsWithAUnit(first, raw[2..]);
      assert raw[2..][2..] == raw[4..];
      rest := raw[4..];
      u := SecondUnit(raw, first.high);
    }
  }

  lemma SecondUnit(raw: seq<byte>, high: unit) returns (u: scalar)
    requires |raw| >= 4 && IsHigh(high) && LittleEndian(high) == raw[..2]
    requires Step(WaitingHalf(high, raw[2]), raw[3]).Some?
    ensures raw == Encode(u) + raw[4..]
  {
    UnitBack(raw[2], raw[3]);
    PairBack(high, Unit(raw[2], raw[3]));
    u := Pair(high, Unit(raw[2], raw[3]));
  }

  lemma {:induction false} AcceptedIsEncoding(raw: seq<byte>) returns (text: seq<scalar>)
    requires Decode(LE, Idle, raw).ok
    ensures raw == EncodeText(text)
    decreases |raw|
  {
    if raw == [] {
      text := [];
    } else {
      var u, rest := AcceptedStartsWithACharacter(raw);
      var more := AcceptedIsEncoding(rest);
      text := [u] + more;
      assert text[1..] == more;
    }
  }

  /** Nothing is substituted: the bytes accepted are exactly the encodings of texts. */
  lemma AcceptsOnlyEncodings(raw: seq<byte>)
    ensures Decode(LE, Idle, raw).ok <==> exists text: seq<scalar> :: raw == EncodeText(text)
  {
    if Decode(LE, Idle, raw).ok {
      var text := AcceptedIsEncoding(raw);
      assert raw == EncodeText(text);
    } else if text: seq<scalar> :| raw == EncodeText(text) {
      RoundTrip(text);
    }
  }

  const LE_MARK: seq<byte> := [0xFF, 0xFE]

  /** A file behind a UTF-16LE byte order mark reads as its text, and reads to the end exactly where it has one. */
  lemma MarkedFileIsItsText(raw: seq<byte>, declared: seq<byte> -> Declared<State>)
    requires declared(PrefixOf(LE_MARK + raw)) == Encoded(LE, |LE_MARK|)
    ensures TextOf(LE_MARK + raw, declared).ok <==> exists text: seq<scalar> :: raw == EncodeText(text)
    ensures forall text: seq<scalar> | raw == EncodeText(text) ::
      TextOf(LE_MARK + raw, declared) == Decoded(Utf8Text(text), true)
  {
    assert (LE_MARK + raw)[|LE_MARK|..] == raw;
    AcceptsOnlyEncodings(raw);
    forall text: seq<scalar> | raw == EncodeText(text)
      ensures TextOf(LE_MARK + raw, declared) == Decoded(Utf8Text(text), true)
    {
      RoundTrip(text);
    }
  }

  // ── text behind an error ──

  /** A letter, and half a surrogate pair with no other half. */
  const CUT_PAIR: seq<byte> := [0x41, 0x00, 0x00, 0xDC]

  lemma CutPairIsMalformed()
    ensures Feed(LE, Idle, CUT_PAIR) == Fed(None, [0x41]) && Decode(LE, Idle, CUT_PAIR) == Decoded([0x41], false)
  {
    FeedTwo(Idle, 0x41, 0x00);
    assert CUT_PAIR == [0x41, 0x00] + [0x00, 0xDC];
    FeedInPieces(LE, Idle, [0x41, 0x00], [0x00, 0xDC]);
    assert [0x00, 0xDC][1..] == [0xDC];
    assert Feed(LE, Half(0), [0xDC]) == Fed(None, []);
  }

  /** A new decoder that a read has brought all bytes of a file to at once. */
  method Brought(bytes: seq<byte>) returns (transcoder: Transcoder<State>, src: Peeked)
    requires |bytes| <= STAGING_BYTES
    ensures fresh(transcoder) && fresh(transcoder.raw) && fresh(transcoder.out) && fresh(src) && fresh(src.file)
    ensures transcoder.Valid(src) && transcoder.coder == LE && transcoder.st == Idle
    ensures !transcoder.failed && !transcoder.done && transcoder.outAt == transcoder.outEnd
    ensures transcoder.raw[transcoder.rawAt..transcoder.rawEnd] == bytes && src.Left() == []
  {
    var file := new File(bytes);
    file.at := |bytes|;
    src := new Peeked([], file);
    transcoder := new Transcoder<State>(LE);
    forall i | 0 <= i < |bytes| { transcoder.raw[i] := bytes[i]; }
    transcoder.rawAt, transcoder.rawEnd := 0, |bytes|;
    assert transcoder.raw[..|bytes|] == bytes;
    assert file.Left() == [] && src.Left() == [] + file.Left();
  }

  /** Behind an error, what is staged is handed out before the error comes again. */
  method ReadOn(transcoder: Transcoder<State>, src: Peeked, buf: array<byte>)
    returns (second: ReadResult, text: seq<byte>, third: ReadResult)
    requires transcoder.Valid(src) && transcoder.failed && buf != transcoder.raw && buf != transcoder.out
    requires |transcoder.Pending(src).text| == 1 && buf.Length > 0
    modifies transcoder, transcoder.raw, transcoder.out, src, src.file, buf
    ensures second.Got? && text == old(transcoder.Pending(src)).text && third.Malformed?
  {
    transcoder.StagedIsAll(src);
    second := transcoder.Read(src, buf);
    text := buf[..second.n];
    transcoder.StagedIsAll(src);
    third := transcoder.Read(src, buf);
  }

  lemma BroughtBadBytes(transcoder: Transcoder<State>, src: Peeked)
    requires transcoder.Valid(src) && transcoder.coder == LE && transcoder.st == Idle
    requires !transcoder.failed && !transcoder.done && transcoder.outAt == transcoder.outEnd
    requires transcoder.raw[transcoder.rawAt..transcoder.rawEnd] == CUT_PAIR && src.Left() == []
    ensures transcoder.AtBadBytes() && transcoder.Pending(src) == Decoded([0x41], false)
  {
    CutPairIsMalformed();
    transcoder.NothingOut(src);
    assert CUT_PAIR + [] == CUT_PAIR;
    assert transcoder.rawEnd - transcoder.rawAt == |CUT_PAIR|;
    StepsTimes(4, 5);
  }

  /** A decoder the four bytes have been brought to: its first read fails, the second hands out the letter, and
      only the third fails again. */
  method ReadsBehindAnError() returns (first: ReadResult, second: ReadResult, text: seq<byte>, third: ReadResult)
    ensures first.Malformed? && second.Got? && text == [0x41] && third.Malformed?
  {
    var transcoder, src := Brought(CUT_PAIR);
    BroughtBadBytes(transcoder, src);
    var buf := new byte[8];
    first := transcoder.Read(src, buf);
    second, text, third := ReadOn(transcoder, src, buf);
  }
}
