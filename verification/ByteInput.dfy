/**
  The bytes a reader sees: the magic a file was peeked at, the prefix its guard
  replayed, and then, where the file declares an encoding, text decoded through
  two staging buffers. src/lib.rs `Input` and src/encoding.rs `Transcoder`.
*/
module ByteInput {
  import opened Options
  import opened Bytes
  import opened Decoding

  const STAGING_BYTES: nat := 8192
  const PREFIX_BYTES: nat := 65536
  const GZIP_MAGIC: seq<byte> := [0x1f, 0x8b]

  datatype ReadResult = Got(n: nat) | IoError | Malformed

  /** What a read does to the bytes still to come: it moves some of them into the buffer,
      and moves none into a buffer with room only when there are none. */
  ghost predicate Moved(before: seq<byte>, buf: seq<byte>, n: nat, after: seq<byte>) {
    n <= |buf| && before == buf[..n] + after && (n == 0 && |buf| > 0 ==> after == [])
  }

  /** The failed reads of a file after a call: one more where the call ends in an error of the file, and else as
      many as before it. */
  function FailuresAfter(before: nat, failing: bool): nat { if failing then before + 1 else before }

  /** A file: a read takes as many bytes as it likes, or fails and takes none. */
  class File {
    const data: seq<byte>
    var at: nat
    /** How many of its reads have failed. */
    ghost var failures: nat

    constructor (data: seq<byte>)
      ensures this.data == data && at == 0 && failures == 0 && Valid()
    {
      this.data := data;
      at, failures := 0, 0;
    }

    ghost predicate Valid()
      reads this
    {
      at <= |data|
    }

    ghost function Left(): seq<byte>
      reads this
      requires Valid()
    {
      data[at..]
    }

    method Read(buf: array<byte>, start: nat) returns (r: ReadResult)
      requires Valid() && start <= buf.Length
      modifies this, buf
      ensures Valid() && !r.Malformed?
      ensures buf[..start] == old(buf[..start])
      ensures r.Got? ==> Moved(old(Left()), buf[start..], r.n, Left())
      ensures r.IoError? ==> Left() == old(Left())
      ensures failures == FailuresAfter(old(failures), r.IoError?)
    {
      var fails: bool := *;
      if fails {
        failures := failures + 1;
        return IoError;
      }
      var most := if buf.Length - start <= |data| - at then buf.Length - start else |data| - at;
      var n: nat :| n <= most && (n == 0 ==> most == 0);
      forall i | 0 <= i < n { buf[start + i] := data[at + i]; }
      assert buf[start..][..n] == data[at..at + n];
      at := at + n;
      return Got(n);
    }
  }

  /** The file behind the magic bytes already taken from it. */
  class Peeked {
    const magic: seq<byte>
    var at: nat
    const file: File

    constructor (magic: seq<byte>, file: File)
      requires file.Valid()
      ensures this.file == file && Valid() && Left() == magic + file.Left()
    {
      this.magic := magic;
      this.file := file;
      at := 0;
    }

    ghost predicate Valid()
      reads this, file
    {
      at <= |magic| && file.Valid()
    }

    ghost function Left(): seq<byte>
      reads this, file
      requires Valid()
    {
      magic[at..] + file.Left()
    }

    method Read(buf: array<byte>) returns (r: ReadResult)
      requires Valid()
      modifies this, file, buf
      ensures Valid() && !r.Malformed?
      ensures r.Got? ==> Moved(old(Left()), buf[..], r.n, Left())
      ensures r.IoError? ==> Left() == old(Left())
      ensures file.failures == FailuresAfter(old(file.failures), r.IoError?)
    {
      if at < |magic| {
        var n := if buf.Length <= |magic| - at then buf.Length else |magic| - at;
        forall i | 0 <= i < n { buf[i] := magic[at + i]; }
        assert buf[..n] == magic[at..at + n];
        at := at + n;
        return Got(n);
      }
      r := file.Read(buf, 0);
      assert buf[0..] == buf[..];
    }
  }

  /** Opens a file by its first two bytes, taken in as many reads as it needs and handed back. */
  method OpenSource(file: File) returns (bytes: Option<Peeked>, gzipped: bool)
    requires file.Valid()
    modifies file
    ensures bytes.Some? ==> fresh(bytes.value) && bytes.value.file == file && bytes.value.Valid()
    ensures bytes.Some? ==> bytes.value.Left() == old(file.Left())
    ensures bytes.Some? ==> (gzipped <==> [0x1f, 0x8b] <= old(file.Left()))
    ensures file.failures == FailuresAfter(old(file.failures), bytes.None?)
  {
    ghost var all := file.Left();
    var magic := new byte[2];
    var have := 0;
    while have < magic.Length
      invariant have <= magic.Length == 2
      invariant file.Valid() && all == magic[..have] + file.Left() && file.failures == old(file.failures)
      decreases magic.Length - have
    {
      var r := file.Read(magic, have);
      if r.IoError? { return None, false; }
      if r.n == 0 { break; }
      Joined(all, magic[..], have, r.n, file.Left());
      have := have + r.n;
    }
    MagicDecides(magic[..have], file.Left());
    gzipped := have == |GZIP_MAGIC| && magic[..have] == GZIP_MAGIC;
    var peeked := new Peeked(magic[..have], file);
    bytes := Some(peeked);
  }

  lemma Joined(all: seq<byte>, magic: seq<byte>, have: nat, n: nat, left: seq<byte>)
    requires have + n <= |magic| && all == magic[..have] + (magic[have..][..n] + left)
    ensures all == magic[..have + n] + left
  {
    assert magic[..have + n] == magic[..have] + magic[have..][..n];
  }

  lemma MagicDecides(head: seq<byte>, left: seq<byte>)
    requires |head| <= 2 && (|head| < 2 ==> left == [])
    ensures head == GZIP_MAGIC <==> GZIP_MAGIC <= head + left
  {
    if |head| == 2 {
      assert (head + left)[..2] == head;
    } else {
      assert head + left == head;
    }
  }

  // ── the decoder ──

  datatype DecoderResult = InputEmpty | OutputFull | MalformedInput

  /** One call of the decoder: it takes bytes of `src` and writes their text, until the bytes are
      out, the buffer has no room for one more step, or a sequence is malformed. */
  method DecodeToUtf8<S(!new)>(c: Coder<S>, st: S, src: seq<byte>, out: array<byte>, last: bool)
    returns (end: S, result: DecoderResult, read: nat, written: nat)
    requires Narrow(c)
    modifies out
    ensures read <= |src| && written <= out.Length
    ensures result.OutputFull? || (result.InputEmpty? && !last) ==>
      Feed(c, st, src[..read]) == Fed(Some(end), out[..written])
    ensures result.InputEmpty? ==> read == |src|
    ensures result.InputEmpty? && last ==> Decode(c, st, src) == Decoded(out[..written], true)
    ensures result.MalformedInput? ==>
      forall tail: seq<byte> | last ==> tail == [] :: Decode(c, st, src + tail) == Decoded(out[..written], false)
    ensures result.OutputFull? ==> written + c.width > out.Length
    ensures result.OutputFull? && !last ==> read < |src|
    ensures Feed(c, st, src).st.None? && Steps(c.width, |src| + 1) <= out.Length ==> result.MalformedInput?
    ensures result.MalformedInput? && !last ==> Feed(c, st, src).st.None?
  {
    end, result, read, written := st, InputEmpty, 0, 0;
    while read < |src|
      invariant read <= |src| && written <= out.Length
      invariant Feed(c, st, src[..read]) == Fed(Some(end), out[..written])
    {
      if written + c.width > out.Length {
        RoomIsEnough(c, st, src, read, written);
        return end, OutputFull, read, written;
      }
      var step := c.step(end, src[read]);
      FeedOneMore(c, st, src, read);
      read := read + 1;
      if step.None? {
        NoneFed(c, st, src, read);
        forall tail: seq<byte> ensures Decode(c, st, src + tail) == Decoded(out[..written], false) {
          assert src + tail == src[..read] + (src[read..] + tail);
          DecodeInPieces(c, st, src[..read], src[read..] + tail);
        }
        return end, MalformedInput, read, written;
      }
      ghost var before := out[..written];
      written := Copy(step.value.1, out, written);
      end := step.value.0;
    }
    assert src[..read] == src && src + [] == src;
    if last {
      if written + c.width > out.Length {
        return end, OutputFull, read, written;
      }
      match c.flush(end)
      case None => return end, MalformedInput, read, written;
      case Some(text) => written := Copy(text, out, written);
    }
  }

  method Copy(text: seq<byte>, out: array<byte>, at: nat) returns (end: nat)
    requires at + |text| <= out.Length
    modifies out
    ensures end == at + |text| && out[..end] == old(out[..at]) + text
  {
    forall i | 0 <= i < |text| { out[at + i] := text[i]; }
    end := at + |text|;
  }

  lemma FeedOneMore<S>(c: Coder<S>, st: S, src: seq<byte>, k: nat)
    requires k < |src|
    ensures var fed := Feed(c, st, src[..k]);
      fed.st.Some? ==>
        Feed(c, st, src[..k + 1]) ==
          match c.step(fed.st.value, src[k])
          case None => Fed(None, fed.text)
          case Some((st', text)) => Fed(Some(st'), fed.text + text)
  {
    assert src[..k + 1] == src[..k] + [src[k]];
    FeedInPieces(c, st, src[..k], [src[k]]);
    var fed := Feed(c, st, src[..k]);
    if fed.st.Some? && c.step(fed.st.value, src[k]).Some? {
      var end := c.step(fed.st.value, src[k]).value.0;
      assert [src[k]][1..] == [] && Feed(c, end, []) == Fed(Some(end), []);
    }
  }

  lemma NoneFed<S>(c: Coder<S>, st: S, src: seq<byte>, k: nat)
    requires k <= |src| && Feed(c, st, src[..k]).st.None?
    ensures Feed(c, st, src).st.None?
  {
    assert src == src[..k] + src[k..];
    FeedInPieces(c, st, src[..k], src[k..]);
  }

  /** The same call, by what it leaves of the text of all bytes to come. */
  method DecodeAhead<S(!new)>(
      c: Coder<S>, st: S, src: seq<byte>, out: array<byte>, last: bool, ghost left: seq<byte>)
    returns (end: S, result: DecoderResult, read: nat, written: nat)
    requires Narrow(c) && c.width <= out.Length && (last ==> left == [])
    modifies out
    ensures read <= |src| && written <= out.Length
    ensures Decode(c, st, src + left) ==
      if result.MalformedInput? then Decoded(out[..written], false)
      else if result.InputEmpty? && last then Decoded(out[..written], true)
      else Decode(c, end, src[read..] + left).After(out[..written])
    ensures result.InputEmpty? ==> read == |src|
    ensures result.OutputFull? ==> written > 0
    ensures Feed(c, st, src).st.None? && Steps(c.width, |src| + 1) <= out.Length ==> result.MalformedInput?
  {
    end, result, read, written := DecodeToUtf8(c, st, src, out, last);
    Staged(c, st, src, left, last, end, result, read, out[..written]);
  }

  /** A decoder between two buffers: bytes read and not decoded, text decoded and not handed out. */
  class Transcoder<S(!new)> {
    const coder: Coder<S>
    var st: S
    const raw: array<byte>
    var rawAt: nat
    var rawEnd: nat
    const out: array<byte>
    var outAt: nat
    var outEnd: nat
    var eof: bool
    var done: bool
    var failed: bool

    constructor (coder: Coder<S>)
      requires Narrow(coder) && coder.width <= STAGING_BYTES
      ensures this.coder == coder && st == coder.start && fresh(raw) && fresh(out) && raw != out
      ensures rawAt == rawEnd && outAt == outEnd && !eof && !done && !failed
      ensures InBounds() && raw.Length == out.Length == 8192
    {
      this.coder := coder;
      st := coder.start;
      raw := new byte[STAGING_BYTES];
      out := new byte[STAGING_BYTES];
      rawAt, rawEnd, outAt, outEnd := 0, 0, 0, 0;
      eof, done, failed := false, false, false;
    }

    ghost predicate InBounds()
      reads this
    {
      && raw != out && raw.Length == out.Length == STAGING_BYTES
      && rawAt <= rawEnd <= raw.Length
      && outAt <= outEnd <= out.Length
      && Narrow(coder) && coder.width <= STAGING_BYTES
    }

    ghost predicate Valid(src: Peeked)
      reads this, src, src.file
    {
      InBounds() && src.Valid() && (eof ==> src.Left() == [])
    }

    /** Bytes read or to be read, and not yet decoded. */
    ghost function Undecoded(src: Peeked): seq<byte>
      reads this, raw, src, src.file
      requires Valid(src)
    {
      raw[rawAt..rawEnd] + src.Left()
    }

    /** The text not yet staged. */
    ghost function Later(src: Peeked): Decoded
      reads this, raw, src, src.file
      requires Valid(src)
    {
      if failed then Decoded([], false)
      else if done then Decoded([], true)
      else Decode(coder, st, Undecoded(src))
    }

    /** The text this source still has to give: what is staged, then what is not. */
    ghost function Pending(src: Peeked): Decoded
      reads this, raw, out, src, src.file
      requires Valid(src)
    {
      Later(src).After(out[outAt..outEnd])
    }

    lemma NothingStaged(src: Peeked)
      requires Valid(src) && rawAt == rawEnd && outAt == outEnd && !failed && !done
      ensures Pending(src) == Decode(coder, st, src.Left())
    {
      assert Undecoded(src) == src.Left();
    }

    /** Decodes all of the prefix; the state keeps what an incomplete last character has told so far. */
    method DecodePrefix(prefix: seq<byte>) returns (text: Option<seq<byte>>)
      requires InBounds()
      modifies this`st
      ensures InBounds()
      ensures text.Some? ==> Feed(coder, old(st), prefix) == Fed(Some(st), text.value)
      ensures text.None? ==> Feed(coder, old(st), prefix).st.None?
      ensures text.None? ==> forall tail :: !Decode(coder, old(st), prefix + tail).ok
    {
      StepsTimes(coder.width, |prefix| + 1);
      var room := new byte[coder.width * (|prefix| + 1)];
      var end, result, read, written := DecodeToUtf8(coder, st, prefix, room, false);
      if result.MalformedInput? { return None; }
      if result.OutputFull? {
        RoomIsEnough(coder, st, prefix, read, written);
        assert false;
      }
      assert prefix[..read] == prefix;
      st := end;
      return Some(room[..written]);
    }

    /** Reads the file when nothing read is left to decode. */
    method Fill(src: Peeked) returns (r: ReadResult)
      requires Valid(src)
      modifies this`rawAt, this`rawEnd, this`eof, raw, src, src.file
      ensures Valid(src) && !r.Malformed? && Pending(src) == old(Pending(src))
      ensures src.file.failures == FailuresAfter(old(src.file.failures), r.IoError?)
      ensures r.Got? && old(rawAt == rawEnd && !eof) ==> |src.Left()| < old(|src.Left()|) || eof
      ensures r.Got? && old(rawAt < rawEnd || eof) ==>
        && src.Left() == old(src.Left()) && rawAt == old(rawAt) && rawEnd == old(rawEnd) && eof == old(eof)
        && raw[..] == old(raw[..])
      ensures old(rawAt < rawEnd) ==> r.Got?
      ensures r.Got? ==> rawAt < rawEnd || eof
    {
      if rawAt == rawEnd && !eof {
        assert Undecoded(src) == src.Left();
        r := src.Read(raw);
        if r.IoError? { return; }
        rawAt, rawEnd, eof := 0, r.n, r.n == 0;
      } else {
        r := Got(rawEnd - rawAt);
      }
    }

    /** What has been read is malformed, and there is room to find out in one step. */
    ghost predicate AtBadBytes()
      reads this, raw
      requires InBounds()
    {
      && rawAt < rawEnd && Steps(coder.width, rawEnd - rawAt + 1) <= STAGING_BYTES
      && Feed(coder, st, raw[rawAt..rawEnd]).st.None?
    }

    lemma NothingOut(src: Peeked)
      requires Valid(src) && outAt == outEnd && !failed && !done
      ensures Pending(src) == Decode(coder, st, raw[rawAt..rawEnd] + src.Left())
    {
    }

    /** What is still to come, of the text of some bytes, once its first piece is staged. */
    lemma StagedPending(src: Peeked, whole: Decoded)
      requires Valid(src) && outAt == 0
      requires var text := out[..outEnd];
        whole ==
          if failed then Decoded(text, false)
          else if done then Decoded(text, true)
          else Decode(coder, st, raw[rawAt..rawEnd] + src.Left()).After(text)
      ensures Pending(src) == whole
    {
      assert out[outAt..outEnd] == out[..outEnd];
      assert out[..outEnd] + [] == out[..outEnd];
    }

    /** Takes bytes that have been read and stages their text. */
    method StagePiece(src: Peeked) returns (result: DecoderResult)
      requires Valid(src) && outAt == outEnd == 0
      modifies this`st, this`rawAt, this`outEnd, out
      ensures Valid(src) && rawAt >= old(rawAt)
      ensures Decode(coder, old(st), old(raw[rawAt..rawEnd] + src.Left())) ==
        if result.MalformedInput? then Decoded(out[..outEnd], false)
        else if result.InputEmpty? && eof then Decoded(out[..outEnd], true)
        else Decode(coder, st, raw[rawAt..rawEnd] + src.Left()).After(out[..outEnd])
      ensures result.InputEmpty? ==> rawAt == rawEnd
      ensures result.OutputFull? ==> outEnd > 0
      ensures old(AtBadBytes()) ==> result.MalformedInput?
    {
      var bytes := raw[rawAt..rawEnd];
      var end, decoded, read, written := DecodeAhead(coder, st, bytes, out, eof, src.Left());
      assert raw[rawAt + read..rawEnd] == bytes[read..];
      rawAt, outEnd, st := rawAt + read, written, end;
      return decoded;
    }

    /** Decodes what has been read, as far as there is room for its text. */
    method DecodeStep(src: Peeked) returns (r: ReadResult)
      requires Valid(src) && outAt == outEnd == 0 && !failed && !done
      modifies this`st, this`rawAt, this`outEnd, this`done, this`failed, out
      ensures Valid(src) && Pending(src) == old(Pending(src)) && outAt == 0 && rawAt >= old(rawAt)
      ensures !r.IoError? && (r.Malformed? <==> failed)
      ensures r.Got? ==> r.n == outEnd
      ensures r.Got? && r.n == 0 ==> rawAt == rawEnd && done == eof
      ensures old(AtBadBytes()) ==> r.Malformed?
    {
      ghost var whole := Decode(coder, st, raw[rawAt..rawEnd] + src.Left());
      NothingOut(src);
      var result := StagePiece(src);
      failed := result.MalformedInput?;
      done := eof && result.InputEmpty?;
      StagedPending(src, whole);
      return if failed then Malformed else Got(outEnd);
    }

    /** After an error, what is staged is all there is. */
    lemma StagedIsAll(src: Peeked)
      requires Valid(src) && failed
      ensures Pending(src).text == out[outAt..outEnd]
    {
    }

    /** One turn of reading and decoding: it errs exactly when it fails the decoder, and all the text ahead
        of the bad bytes is staged then. */
    method Advance(src: Peeked) returns (r: ReadResult)
      requires Valid(src) && outAt == outEnd == 0 && !failed && !done
      modifies this`st, this`rawAt, this`rawEnd, this`eof, this`outEnd, this`done, this`failed, raw, out, src, src.file
      ensures Valid(src) && Pending(src) == old(Pending(src)) && outAt == 0
      ensures src.file.failures == FailuresAfter(old(src.file.failures), r.IoError?)
      ensures r.Malformed? <==> failed
      ensures failed ==> out[outAt..outEnd] == old(Pending(src)).text
      ensures old(AtBadBytes()) ==> r.Malformed?
      ensures r.Got? ==> r.n == outEnd
      ensures r.Got? && r.n == 0 ==>
        || |src.Left()| < old(|src.Left()|)
        || (|src.Left()| == old(|src.Left()|)
            && (rawEnd - rawAt < old(rawEnd - rawAt) || (rawEnd - rawAt == old(rawEnd - rawAt) && done)))
    {
      r := Fill(src);
      if r.IoError? { return; }
      r := DecodeStep(src);
      if failed { StagedIsAll(src); }
    }

    /** Stages the next piece of text; leaves none staged only where the text is over, and all of it, with an
        error beside it, where the bytes behind it are malformed. */
    method Refill(src: Peeked) returns (r: ReadResult)
      requires Valid(src) && outAt == outEnd
      modifies this, raw, out, src, src.file
      ensures Valid(src) && Pending(src) == old(Pending(src))
      ensures src.file.failures == FailuresAfter(old(src.file.failures), r.IoError?)
      ensures r.Got? ==> outAt < outEnd || (done && !failed)
      ensures r.Malformed? <==> failed
      ensures old(failed) ==> failed && outAt == outEnd
      ensures failed ==> out[outAt..outEnd] == old(Pending(src)).text
      ensures old(!failed && !done && AtBadBytes()) ==> r.Malformed?
    {
      ghost var pending, bad := Pending(src), !failed && !done && AtBadBytes();
      outAt, outEnd := 0, 0;
      if failed { return Malformed; }
      while !done
        invariant Valid(src) && outAt == outEnd == 0 && !failed && Pending(src) == pending
        invariant src.file.failures == old(src.file.failures)
        invariant bad ==> !done && AtBadBytes()
        decreases |src.Left()|, rawEnd - rawAt, !done
      {
        r := Advance(src);
        if !r.Got? || r.n > 0 { return; }
      }
      return Got(0);
    }

    method Read(src: Peeked, buf: array<byte>) returns (r: ReadResult)
      requires Valid(src) && buf != raw && buf != out
      modifies this, raw, out, src, src.file, buf
      ensures Valid(src)
      ensures Took(old(Pending(src)), buf[..], r, Pending(src))
      ensures src.file.failures == FailuresAfter(old(src.file.failures), r.IoError?)
      ensures (old(failed) ==> failed) && (r.Malformed? ==> failed)
      ensures r.Malformed? ==> out[outAt..outEnd] == old(Pending(src)).text
      ensures old(failed) && buf.Length > 0 ==> (r.Malformed? <==> old(outAt == outEnd))
      ensures old(failed) && buf.Length > 0 && !r.Malformed? ==> r.Got? && r.n > 0
      ensures old(!failed && !done && outAt == outEnd && AtBadBytes()) && buf.Length > 0 ==> r.Malformed?
    {
      if buf.Length == 0 { return Got(0); }
      if outAt == outEnd {
        r := Refill(src);
        if !r.Got? { return; }
      }
      r := HandOut(src, buf);
    }

    /** Hands out as much staged text as fits. */
    method HandOut(src: Peeked, buf: array<byte>) returns (r: ReadResult)
      requires Valid(src) && buf != raw && buf != out
      modifies this`outAt, buf
      ensures Valid(src) && r.Got? && r.n <= buf.Length
      ensures old(Pending(src)) == Pending(src).After(buf[..r.n])
      ensures r.n == 0 && buf.Length > 0 ==> outAt == outEnd && old(outAt) == outAt
    {
      ghost var later, bytes, staged := Later(src), Undecoded(src), out[outAt..outEnd];
      var n := if buf.Length <= outEnd - outAt then buf.Length else outEnd - outAt;
      forall i | 0 <= i < n { buf[i] := out[outAt + i]; }
      assert buf[..n] == staged[..n];
      outAt := outAt + n;
      assert out[outAt..outEnd] == staged[n..];
      assert staged == staged[..n] + staged[n..];
      assert Undecoded(src) == bytes && Later(src) == later;
      AfterAfter(Later(src), buf[..n], out[outAt..outEnd]);
      return Got(n);
    }
  }

  lemma AfterAfter(later: Decoded, a: seq<byte>, b: seq<byte>)
    ensures later.After(a + b) == later.After(b).After(a)
  {
    assert (a + b) + later.text == a + (b + later.text);
  }

  lemma AfterPiece(later: Decoded, text: seq<byte>, n: nat)
    requires n <= |text|
    ensures later.After(text) == later.After(text[n..]).After(text[..n])
  {
    assert text == text[..n] + text[n..];
    AfterAfter(later, text[..n], text[n..]);
  }

  /** Staging the text of some bytes leaves the decoding of the whole where it was. */
  lemma Staged<S(!new)>(c: Coder<S>, st: S, bytes: seq<byte>, left: seq<byte>, last: bool,
      end: S, result: DecoderResult, read: nat, text: seq<byte>)
    requires read <= |bytes|
    requires last ==> left == []
    requires result.OutputFull? || (result.InputEmpty? && !last) ==> Feed(c, st, bytes[..read]) == Fed(Some(end), text)
    requires result.InputEmpty? && last ==> Decode(c, st, bytes) == Decoded(text, true)
    requires result.MalformedInput? ==>
      forall tail: seq<byte> | last ==> tail == [] :: Decode(c, st, bytes + tail) == Decoded(text, false)
    ensures Decode(c, st, bytes + left) ==
      if result.MalformedInput? then Decoded(text, false)
      else if result.InputEmpty? && last then Decoded(text, true)
      else Decode(c, end, bytes[read..] + left).After(text)
  {
    if result.InputEmpty? && last {
      assert bytes + left == bytes;
    } else if !result.MalformedInput? {
      assert bytes + left == bytes[..read] + (bytes[read..] + left);
      DecodeInPieces(c, st, bytes[..read], bytes[read..] + left);
    }
  }

  /** A buffer of `width` bytes for each byte and one step more has room for the text of them all. */
  lemma RoomIsEnough<S(!new)>(c: Coder<S>, st: S, bytes: seq<byte>, read: nat, written: nat)
    requires Narrow(c) && read < |bytes| && |Feed(c, st, bytes[..read]).text| == written
    ensures written + c.width <= Steps(c.width, |bytes| + 1)
  {
    FeedIsNarrow(c, st, bytes[..read]);
    StepsGrow(c.width, read + 1, |bytes| + 1);
  }

  // ── the input ──

  /** What the prefix declares: UTF-8 or nothing, another encoding after a byte order mark, or one nobody knows. */
  datatype Declared<!S> = Utf8 | Encoded(coder: Coder<S>, bom: nat) | Unsupported

  datatype Settled = Ready | Unreadable | UnknownEncoding | BadPrefix

  /** The first 64 KiB. */
  function PrefixOf(all: seq<byte>): (r: seq<byte>)
    ensures r <= all && |r| == if |all| <= 65536 then |all| else 65536
  {
    if |all| <= PREFIX_BYTES then all else all[..PREFIX_BYTES]
  }

  /** The text of a whole file by what its prefix declares. */
  ghost function TextOf<S>(all: seq<byte>, declared: seq<byte> -> Declared<S>): Decoded {
    match declared(PrefixOf(all))
    case Encoded(coder, bom) => if bom <= |all| then Decode(coder, coder.start, all[bom..]) else Decoded([], false)
    case Utf8 => Decoded(all, true)
    case Unsupported => Decoded([], false)
  }

  /** The prefix declares an encoding its own bytes are not in, an incomplete last character aside. */
  ghost predicate MalformedPrefix<S>(all: seq<byte>, declared: seq<byte> -> Declared<S>) {
    var prefix := PrefixOf(all);
    match declared(prefix)
    case Encoded(coder, bom) => bom <= |prefix| && Feed(coder, coder.start, prefix[bom..]).st.None?
    case Utf8 => false
    case Unsupported => false
  }

  /** Then the file has no text. */
  lemma MalformedPrefixHasNoText<S(!new)>(all: seq<byte>, declared: seq<byte> -> Declared<S>)
    requires MalformedPrefix(all, declared)
    ensures !TextOf(all, declared).ok
  {
    var prefix := PrefixOf(all);
    var encoding := declared(prefix);
    var left := all[|prefix|..];
    assert all[encoding.bom..] == prefix[encoding.bom..] + left;
    DecodeInPieces(encoding.coder, encoding.coder.start, prefix[encoding.bom..], left);
  }

  class Input<S(!new)> {
    /** Set by the sniffer's guard: every read is an error. */
    var failed: bool
    var replay: seq<byte>
    var replayAt: nat
    const bytes: Peeked
    var transcoder: Option<Transcoder<S>>
    /** All the text there is, and how much of it the readers have had. */
    ghost var total: Decoded
    ghost var handed: seq<byte>

    constructor (bytes: Peeked)
      requires bytes.Valid()
      ensures this.bytes == bytes && Valid() && Untouched() && transcoder == None
      ensures total == Decoded(bytes.Left(), true)
    {
      this.bytes := bytes;
      failed, replay, replayAt, transcoder := false, [], 0, None;
      total, handed := Decoded(bytes.Left(), true), [];
    }

    ghost predicate Untouched()
      reads this
    {
      !failed && replay == [] && handed == []
    }

    ghost function Repr(): set<object>
      reads this
    {
      {this, bytes, bytes.file}
      + if transcoder.Some? then {transcoder.value, transcoder.value.raw, transcoder.value.out} else {}
    }

    ghost predicate InOrder()
      reads this, Repr()
    {
      && replayAt <= |replay|
      && bytes.Valid()
      && (transcoder.Some? ==> transcoder.value.Valid(bytes))
    }

    /** The text behind the replayed prefix. */
    ghost function Behind(): Decoded
      reads this, Repr()
      requires InOrder()
    {
      if transcoder.Some? then transcoder.value.Pending(bytes) else Decoded(bytes.Left(), true)
    }

    /** The text a reader has not had. */
    ghost function Pending(): Decoded
      reads this, Repr()
      requires InOrder()
    {
      Behind().After(replay[replayAt..])
    }

    /** What was handed out and what is to come are the whole text. */
    ghost predicate Valid()
      reads this, Repr()
    {
      InOrder() && (failed || total == Pending().After(handed))
    }

    lemma AllReplayed()
      requires InOrder() && replayAt >= |replay|
      ensures Pending() == Behind()
    {
      assert replay[replayAt..] == [] && [] + Behind().text == Behind().text;
    }

    /** Hands out the replayed prefix. */
    method ReadReplay(buf: array<byte>) returns (r: ReadResult)
      requires InOrder() && replayAt < |replay| && buf !in Repr()
      modifies this`replayAt, buf
      ensures InOrder() && Took(old(Pending()), buf[..], r, Pending()) && r.Got?
    {
      ghost var behind := Behind();
      assert Pending() == behind.After(replay[replayAt..]);
      var n := if buf.Length <= |replay| - replayAt then buf.Length else |replay| - replayAt;
      forall i | 0 <= i < n { buf[i] := replay[replayAt + i]; }
      assert buf[..][..n] == replay[replayAt..][..n];
      AfterPiece(behind, replay[replayAt..], n);
      replayAt := replayAt + n;
      assert Behind() == behind && replay[replayAt..] == old(replay[replayAt..])[n..];
      return Got(n);
    }

    /** Hands out what lies behind the prefix. */
    method ReadBehind(buf: array<byte>) returns (r: ReadResult)
      requires InOrder() && buf !in Repr()
      modifies Repr() - {this}, buf
      ensures InOrder() && Took(old(Behind()), buf[..], r, Behind())
      ensures bytes.file.failures == FailuresAfter(old(bytes.file.failures), r.IoError?)
    {
      if transcoder.Some? {
        r := transcoder.value.Read(bytes, buf);
      } else {
        r := bytes.Read(buf);
      }
      assert r.Got? ==> buf[..][..r.n] == buf[..r.n];
    }

    method ReadNext(buf: array<byte>) returns (r: ReadResult)
      requires InOrder() && buf !in Repr()
      modifies this`replayAt, Repr() - {this}, buf
      ensures InOrder() && Took(old(Pending()), buf[..], r, Pending())
      ensures bytes.file.failures == FailuresAfter(old(bytes.file.failures), r.IoError?)
    {
      if replayAt < |replay| {
        r := ReadReplay(buf);
      } else {
        AllReplayed();
        r := ReadBehind(buf);
        AllReplayed();
      }
    }

    /** Whatever the buffer and however the file is read, a read hands out the next of the text;
        it says the text is over only where it is, and never where it was malformed. */
    method Read(buf: array<byte>) returns (r: ReadResult)
      requires Valid() && buf !in Repr()
      modifies Repr(), buf
      ensures Valid() && Repr() == old(Repr()) && transcoder == old(transcoder)
      ensures total == old(total) && failed == old(failed) && replay == old(replay)
      ensures r.Got? ==> !failed && r.n <= buf.Length && handed == old(handed) + buf[..r.n]
      ensures !r.Got? ==> handed == old(handed)
      ensures r.Got? && r.n == 0 && buf.Length > 0 ==> handed == total.text && total.ok
      ensures r.Malformed? ==> failed || !total.ok
      ensures failed ==> r.Malformed?
      ensures bytes.file.failures == FailuresAfter(old(bytes.file.failures), r.IoError?)
    {
      if failed { return Malformed; }
      r := ReadNext(buf);
      if r.Got? {
        assert buf[..][..r.n] == buf[..r.n];
        AfterAfter(Pending(), handed, buf[..r.n]);
        handed := handed + buf[..r.n];
      }
    }

    /** After it, what there is to read is the file's text in its declared encoding. */
    method SettleEncoding(declared: seq<byte> -> Declared<S>) returns (r: Settled)
      requires Valid() && Untouched() && transcoder == None
      requires forall p :: declared(p).Encoded? ==>
        Narrow(declared(p).coder) && declared(p).coder.width <= STAGING_BYTES && declared(p).bom <= |p|
      modifies this, bytes, bytes.file
      ensures InOrder() && !failed
      ensures r.Ready? ==>
        Valid() && handed == [] && !failed && total == TextOf(old(bytes.Left()), declared)
        && (transcoder.Some? ==> fresh(transcoder.value) && fresh(transcoder.value.raw) && fresh(transcoder.value.out))
      ensures r.UnknownEncoding? <==> !r.Unreadable? && declared(PrefixOf(old(bytes.Left()))).Unsupported?
      ensures r.BadPrefix? <==> !r.Unreadable? && MalformedPrefix(old(bytes.Left()), declared)
      ensures r.BadPrefix? ==> !TextOf(old(bytes.Left()), declared).ok
      ensures bytes.file.failures == FailuresAfter(old(bytes.file.failures), r.Unreadable?)
    {
      ghost var all := bytes.Left();
      NothingHanded();
      var prefix, got := ReadPrefix();
      if !got { return Unreadable; }
      match declared(prefix)
      case Unsupported => return UnknownEncoding;
      case Utf8 =>
        KeepPrefix(prefix);
        return Ready;
      case Encoded(coder, bom) =>
        assert all[bom..] == prefix[bom..] + bytes.Left();
        var text := TakeOver(coder, prefix[bom..]);
        return if text then Ready else BadPrefix;
    }

    /** The prefix is what to read first, and the file what lies behind it. */
    method KeepPrefix(prefix: seq<byte>)
      requires InOrder() && Untouched() && transcoder == None
      modifies this
      ensures Valid() && !failed && handed == [] && transcoder == None
      ensures total == Decoded(prefix + bytes.Left(), true)
    {
      replay, replayAt, total := prefix, 0, Decoded(prefix + bytes.Left(), true);
      assert replay[replayAt..] == prefix && [] + total.text == total.text;
    }

    /** The sniffer's guard: it never refuses a file, and an encoding that cannot be settled is an error of every
        read instead. */
    method GuardForSniffer(declared: seq<byte> -> Declared<S>)
      requires Valid() && Untouched() && transcoder == None
      requires forall p :: declared(p).Encoded? ==>
        Narrow(declared(p).coder) && declared(p).coder.width <= STAGING_BYTES && declared(p).bom <= |p|
      modifies this, bytes, bytes.file
      ensures Valid()
      ensures !failed ==> handed == [] && total == TextOf(old(bytes.Left()), declared)
      ensures bytes.file.failures <= old(bytes.file.failures) + 1
      ensures failed <==>
        || bytes.file.failures == old(bytes.file.failures) + 1
        || declared(PrefixOf(old(bytes.Left()))).Unsupported?
        || MalformedPrefix(old(bytes.Left()), declared)
    {
      var r := SettleEncoding(declared);
      if !r.Ready? { failed := true; }
    }

    /** The prefix decoded is what a decoder of the whole file would have given by then. */
    method TakeOver(coder: Coder<S>, prefix: seq<byte>) returns (ok: bool)
      requires InOrder() && Untouched() && Narrow(coder) && coder.width <= STAGING_BYTES
      modifies this
      ensures InOrder() && !failed
      ensures ok <==> Feed(coder, coder.start, prefix).st.Some?
      ensures var whole := Decode(coder, coder.start, prefix + old(bytes.Left()));
        if ok then
          && Valid() && handed == [] && !failed && total == whole
          && transcoder.Some? && fresh(transcoder.value) && fresh(transcoder.value.raw) && fresh(transcoder.value.out)
        else !whole.ok
    {
      DecodeInPieces(coder, coder.start, prefix, bytes.Left());
      var decoder := new Transcoder(coder);
      var text := decoder.DecodePrefix(prefix);
      if text.None? { return false; }
      decoder.NothingStaged(bytes);
      PutBack(decoder, text.value);
      return true;
    }

    /** The decoded prefix is what to read first, and the decoder what lies behind it. */
    method PutBack(decoder: Transcoder<S>, text: seq<byte>)
      requires InOrder() && Untouched() && decoder.Valid(bytes)
      modifies this
      ensures InOrder() && Valid() && !failed && handed == [] && transcoder == Some(decoder)
      ensures total == old(decoder.Pending(bytes)).After(text)
    {
      ghost var behind := decoder.Pending(bytes);
      transcoder, replay, replayAt, total := Some(decoder), text, 0, behind.After(text);
      assert replay[replayAt..] == text && [] + total.text == total.text;
      assert Behind() == behind;
    }

    lemma NothingHanded()
      requires Valid() && Untouched() && transcoder == None
      ensures total == Decoded(bytes.Left(), true)
    {
      assert replay[replayAt..] == [] && [] + bytes.Left() == bytes.Left();
    }

    /** One read of at most so many bytes of a file nothing was settled about; none only at its end. */
    method ReadPiece(most: nat) returns (piece: seq<byte>, ok: bool)
      requires most > 0 && Valid() && !failed && replay == [] && transcoder == None && total.ok
      modifies this, bytes, bytes.file
      ensures Valid() && !failed && replay == [] && transcoder == None && total == old(total)
      ensures |piece| <= most
      ensures ok ==> handed == old(handed) + piece && (piece == [] ==> handed == total.text)
      ensures bytes.file.failures == FailuresAfter(old(bytes.file.failures), !ok)
    {
      var size: nat :| 0 < size <= most;
      var buf := new byte[size];
      var r := Read(buf);
      if !r.Got? { return [], false; }
      return buf[..r.n], true;
    }

    /** As much of the file as the guard looks at. */
    method ReadPrefix() returns (prefix: seq<byte>, ok: bool)
      requires Valid() && Untouched() && transcoder == None && total == Decoded(bytes.Left(), true)
      modifies this, bytes, bytes.file
      ensures InOrder() && Untouched() && transcoder == None
      ensures ok ==> prefix == PrefixOf(old(bytes.Left())) && old(bytes.Left()) == prefix + bytes.Left()
      ensures bytes.file.failures == FailuresAfter(old(bytes.file.failures), !ok)
    {
      prefix, ok := [], true;
      ghost var all := bytes.Left();
      var more := true;
      while more && |prefix| < PREFIX_BYTES
        invariant Valid() && transcoder == None && !failed && replay == []
        invariant |prefix| <= PREFIX_BYTES && handed == prefix && total == Decoded(all, true)
        invariant more || prefix == all
        invariant bytes.file.failures == old(bytes.file.failures)
        decreases PREFIX_BYTES - |prefix|, more
      {
        var piece, read := ReadPiece(PREFIX_BYTES - |prefix|);
        if !read {
          handed, ok := [], false;
          return;
        }
        prefix := prefix + piece;
        more := piece != [];
      }
      handed := [];
      PrefixRead(prefix, all);
    }

    lemma PrefixRead(prefix: seq<byte>, all: seq<byte>)
      requires InOrder() && transcoder == None && replay == [] && |prefix| <= PREFIX_BYTES
      requires Decoded(all, true) == Pending().After(prefix) && (|prefix| == PREFIX_BYTES || prefix == all)
      ensures prefix == PrefixOf(all) && all == prefix + bytes.Left()
    {
      assert replay[replayAt..] == [] && [] + bytes.Left() == bytes.Left();
      assert all == prefix + bytes.Left();
    }
  }

  /** What a read does to the text still to come. */
  ghost predicate Took(before: Decoded, buf: seq<byte>, r: ReadResult, after: Decoded) {
    && (r.Got? ==>
      && r.n <= |buf|
      && before == after.After(buf[..r.n])
      && (r.n == 0 && |buf| > 0 ==> after == Decoded([], true)))
    && (!r.Got? ==> after == before)
    && (r.Malformed? ==> !before.ok)
  }
}
