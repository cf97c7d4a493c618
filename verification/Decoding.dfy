/**
  What decoding a declared encoding to UTF-8 means: a decoder is a byte
  automaton, and its text does not depend on how the bytes are cut up.
  UTF-16LE is worked out in full.
*/
module Decoding {
  import opened Options

  import opened Bytes

  /** One byte at a time: a new state and the text the byte completes, or None where it is
      malformed; `flush` is what the end of the file completes. No step writes more than `width`. */
  datatype Coder<!S> = Coder(
    start: S,
    step: (S, byte) -> Option<(S, seq<byte>)>,
    flush: S -> Option<seq<byte>>,
    width: nat)

  ghost predicate Narrow<S(!new)>(c: Coder<S>) {
    && c.width > 0
    && (forall st, b | c.step(st, b).Some? :: |c.step(st, b).value.1| <= c.width)
    && (forall st | c.flush(st).Some? :: |c.flush(st).value| <= c.width)
  }

  /** The text of some bytes and the state after them; None once a byte was malformed. */
  datatype Fed<S> = Fed(st: Option<S>, text: seq<byte>)

  function Feed<S>(c: Coder<S>, st: S, raw: seq<byte>): Fed<S> {
    if raw == [] then Fed(Some(st), [])
    else
      match c.step(st, raw[0])
      case None => Fed(None, [])
      case Some((st', text)) =>
        var rest := Feed(c, st', raw[1..]);
        Fed(rest.st, text + rest.text)
  }

  /** The text of a byte source read to its end; `ok` is false where it stops at a malformed sequence. */
  datatype Decoded = Decoded(text: seq<byte>, ok: bool) {
    function After(earlier: seq<byte>): Decoded { Decoded(earlier + text, ok) }
  }

  function Decode<S>(c: Coder<S>, st: S, raw: seq<byte>): Decoded {
    var fed := Feed(c, st, raw);
    match fed.st
    case None => Decoded(fed.text, false)
    case Some(end) =>
      match c.flush(end)
      case None => Decoded(fed.text, false)
      case Some(text) => Decoded(fed.text + text, true)
  }

  /** Feeding in two pieces is feeding the whole. */
  lemma {:induction false} FeedInPieces<S>(c: Coder<S>, st: S, a: seq<byte>, b: seq<byte>)
    ensures var first := Feed(c, st, a);
      Feed(c, st, a + b) ==
        if first.st.None? then first
        else
          var second := Feed(c, first.st.value, b);
          Fed(second.st, first.text + second.text)
  {
    if a == [] {
      assert a + b == b;
    } else {
      assert (a + b)[0] == a[0] && (a + b)[1..] == a[1..] + b;
      match c.step(st, a[0])
      case None =>
      case Some((st', text)) =>
        FeedInPieces(c, st', a[1..], b);
    }
  }

  /** However a source is cut, the text of the first piece followed by the decoding of the rest is the decoding of
      the whole. */
  lemma DecodeInPieces<S>(c: Coder<S>, st: S, a: seq<byte>, b: seq<byte>)
    ensures var first := Feed(c, st, a);
      Decode(c, st, a + b) ==
        if first.st.None? then Decoded(first.text, false)
        else Decode(c, first.st.value, b).After(first.text)
  {
    FeedInPieces(c, st, a, b);
  }

  /** The room for so many steps. */
  function Steps(width: nat, count: nat): nat { if count == 0 then 0 else width + Steps(width, count - 1) }

  lemma {:induction false} StepsGrow(width: nat, a: nat, b: nat)
    requires a <= b
    ensures Steps(width, a) <= Steps(width, b)
  {
    if a < b { StepsGrow(width, a, b - 1); }
  }

  lemma {:induction false} StepsTimes(width: nat, count: nat)
    ensures Steps(width, count) == width * count
  {
    if count > 0 {
      StepsTimes(width, count - 1);
      assert width * count == width + width * (count - 1);
    }
  }

  lemma {:induction false} FeedIsNarrow<S(!new)>(c: Coder<S>, st: S, raw: seq<byte>)
    requires Narrow(c)
    ensures |Feed(c, st, raw).text| <= Steps(c.width, |raw|)
  {
    if raw != [] {
      match c.step(st, raw[0])
      case None =>
      case Some((st', _)) => FeedIsNarrow(c, st', raw[1..]);
    }
  }
}
