/** The OpenPGP check of src/container.rs: a chain of packet headers of RFC 9580, followed and not guessed. */
module OpenPgp {
  import opened Options
  import opened Bytes

  const PKESK: nat := 1
  const SKESK: nat := 3
  const SED: nat := 9
  const SEIPD: nat := 18

  /** A packet's tag, the offset of its body, and that of the header behind it if the length is definite. */
  datatype Packet = Packet(tag: nat, body: nat, next: Option<nat>)

  /** The newer header form, where the first length octet tells how many there are. */
  function NewHeader(prefix: seq<byte>, at: nat, tag: nat): Option<Packet> {
    if at + 1 >= |prefix| then None
    else
      var n := prefix[at + 1] as int;
      if n < 192 then Some(Packet(tag, at + 2, Some(at + 2 + n)))
      else if n < 224 then
        if at + 2 >= |prefix| then None
        else Some(Packet(tag, at + 3, Some(at + 3 + (n - 192) * 0x100 + (prefix[at + 2] as int) + 192)))
      else if n < 255 then Some(Packet(tag, at + 2, None))
      else
        match Slice(prefix, at + 2, at + 6)
        case None => None
        case Some(raw) => Some(Packet(tag, at + 6, Some(at + 6 + BigEndian(raw))))
  }

  /** The older header form, where the tag octet tells the number of length octets, or that there are none. */
  function OldHeader(prefix: seq<byte>, at: nat, tag: nat, kind: nat): Option<Packet> {
    if kind > 2 then Some(Packet(tag, at + 1, None))
    else
      var size := if kind == 0 then 1 else if kind == 1 then 2 else 4;
      match Slice(prefix, at + 1, at + 1 + size)
      case None => None
      case Some(raw) => Some(Packet(tag, at + 1 + size, Some(at + 1 + size + BigEndian(raw))))
  }

  function Header(prefix: seq<byte>, at: nat): (r: Option<Packet>)
    ensures r.Some? ==> at < r.value.body
    ensures r.Some? && r.value.next.Some? ==> r.value.body <= r.value.next.value
  {
    if at >= |prefix| || prefix[at] < 0x80 then None
    else if prefix[at] >= 0xC0 then NewHeader(prefix, at, prefix[at] as int - 0xC0)
    else OldHeader(prefix, at, (prefix[at] as int) / 4 % 16, (prefix[at] as int) % 4)
  }

  // ── the length encodings ──

  /** Section 4.2.1 of RFC 9580: the length forms of the new format, and how many octets each takes. */
  datatype NewLength = OneOctet | TwoOctet | FiveOctet

  predicate Holds(form: NewLength, n: nat) {
    match form
    case OneOctet => n < 192
    case TwoOctet => 192 <= n < 8384
    case FiveOctet => n < 0x1_0000_0000
  }

  function EncodeNew(form: NewLength, n: nat): seq<byte>
    requires Holds(form, n)
  {
    match form
    case OneOctet => [n]
    case TwoOctet => [192 + (n - 192) / 0x100, (n - 192) % 0x100]
    case FiveOctet => [255] + Octets(n, 4)
  }

  /** Reading undoes writing, for every tag and over the whole range of each length form. */
  lemma NewHeaderInverse(before: seq<byte>, after: seq<byte>, tag: nat, form: NewLength, n: nat)
    requires tag < 64 && Holds(form, n)
    ensures var written := [0xC0 + tag] + EncodeNew(form, n);
      Header(before + written + after, |before|)
        == Some(Packet(tag, |before| + |written|, Some(|before| + |written| + n)))
  {
    var length := EncodeNew(form, n);
    var prefix := before + ([0xC0 + tag] + length) + after;
    var at := |before|;
    assert prefix[at] == 0xC0 + tag;
    assert forall i | 0 <= i < |length| :: prefix[at + 1 + i] == length[i];
    if form.FiveOctet? {
      assert prefix[at + 2..at + 6] == Octets(n, 4);
      assert Power256(4) == 0x1_0000_0000;
      OctetsSpell(n, 4);
    }
  }

  /** Section 4.2.2 of RFC 9580: length types 0, 1 and 2 of the original format. */
  lemma OldHeaderInverse(before: seq<byte>, after: seq<byte>, tag: nat, kind: nat, n: nat)
    requires tag < 16 && kind <= 2
    requires n < Power256(if kind == 0 then 1 else if kind == 1 then 2 else 4)
    ensures var written := [0x80 + 4 * tag + kind] + Octets(n, if kind == 0 then 1 else if kind == 1 then 2 else 4);
      Header(before + written + after, |before|)
        == Some(Packet(tag, |before| + |written|, Some(|before| + |written| + n)))
  {
    var size := if kind == 0 then 1 else if kind == 1 then 2 else 4;
    var first: byte := 0x80 + 4 * tag + kind;
    var prefix := before + ([first] + Octets(n, size)) + after;
    var at := |before|;
    assert prefix[at] == first;
    assert prefix[at + 1..at + 1 + size] == Octets(n, size);
    OctetsSpell(n, size);
    OldTagBits(tag, kind);
  }

  lemma OldTagBits(tag: nat, kind: nat)
    requires tag < 16 && kind <= 2
    ensures (0x80 + 4 * tag + kind) / 4 % 16 == tag && (0x80 + 4 * tag + kind) % 4 == kind
  {
    assert (0x80 + 4 * tag + kind) / 4 == 32 + tag;
  }

  // ── the chain ──

  function Version(prefix: seq<byte>, packet: Packet): Option<byte> {
    if packet.body < |prefix| then Some(prefix[packet.body]) else None
  }

  /** A session-key packet whose body starts with a version that exists. */
  predicate KnownKey(prefix: seq<byte>, packet: Packet) {
    var version := Version(prefix, packet);
    || (packet.tag == PKESK && version.Some? && version.value in {3, 6})
    || (packet.tag == SKESK && version.Some? && 4 <= version.value <= 6)
  }

  /** The packet at `at` is the encrypted data of a message with `keys` key packets before it. */
  predicate EncryptedData(prefix: seq<byte>, at: nat, keys: nat) {
    match Header(prefix, at)
    case None => false
    case Some(packet) =>
      || (packet.tag == SED && keys > 0)
      || (packet.tag == SEIPD && Version(prefix, packet).Some? && Version(prefix, packet).value in {1, 2})
  }

  /** The packet at `at` is a key packet of definite length, and the next one starts at `next`. */
  predicate KeyStep(prefix: seq<byte>, at: nat, next: nat) {
    match Header(prefix, at)
    case None => false
    case Some(packet) => KnownKey(prefix, packet) && packet.next == Some(next)
  }

  /** A message: the places its packets start at, key packets first, encrypted data last. */
  ghost predicate IsMessage(prefix: seq<byte>, starts: seq<nat>) {
    && |starts| > 0
    && starts[0] == 0
    && (forall i | 0 <= i < |starts| - 1 :: KeyStep(prefix, starts[i], starts[i + 1]))
    && EncryptedData(prefix, starts[|starts| - 1], |starts| - 1)
  }

  /** Each header lies strictly behind the one before. */
  lemma ChainAdvances(prefix: seq<byte>, at: nat, next: nat)
    requires KeyStep(prefix, at, next)
    ensures at + 2 <= next && at < |prefix|
  {
  }

  /** A chain is forced at each step, so no message leads anywhere but where the walk leads. */
  lemma {:induction false} OneChain(prefix: seq<byte>, a: seq<nat>, b: seq<nat>, k: nat)
    requires |a| > k && |b| > k && a[0] == b[0]
    requires forall i | 0 <= i < k :: KeyStep(prefix, a[i], a[i + 1])
    requires forall i | 0 <= i < |b| - 1 :: KeyStep(prefix, b[i], b[i + 1])
    ensures a[k] == b[k]
  {
    if k > 0 { OneChain(prefix, a, b, k - 1); }
  }

  ghost predicate PgpPackets(prefix: seq<byte>) { exists starts :: IsMessage(prefix, starts) }

  /** The walk answers true for messages and for nothing else. */
  method Packets(prefix: seq<byte>) returns (r: bool)
    ensures r <==> PgpPackets(prefix)
  {
    var at, keys := 0, 0;
    ghost var starts: seq<nat> := [0];
    while true
      invariant |starts| == keys + 1 && starts[0] == 0 && starts[keys] == at
      invariant forall i | 0 <= i < keys :: KeyStep(prefix, starts[i], starts[i + 1])
      decreases |prefix| - at
    {
      WalkStops(prefix, starts, at);
      var header := Header(prefix, at);
      if header.None? { return false; }
      var packet := header.value;
      var version := Version(prefix, packet);
      if packet.tag == PKESK || packet.tag == SKESK {
        var known := version.Some? &&
          if packet.tag == PKESK then version.value in {3, 6} else 4 <= version.value <= 6;
        if packet.next.None? || !known { return false; }
        ChainAdvances(prefix, at, packet.next.value);
        at, keys := packet.next.value, keys + 1;
        starts := starts + [at];
      } else if packet.tag == SED {
        return keys > 0;
      } else {
        return packet.tag == SEIPD && version.Some? && version.value in {1, 2};
      }
    }
  }

  /** Where the walk can go no further, the packets so far are the message or there is none. */
  lemma WalkStops(prefix: seq<byte>, starts: seq<nat>, at: nat)
    requires |starts| > 0 && starts[0] == 0 && starts[|starts| - 1] == at
    requires forall i | 0 <= i < |starts| - 1 :: KeyStep(prefix, starts[i], starts[i + 1])
    ensures (forall next: nat :: !KeyStep(prefix, at, next)) ==>
      (PgpPackets(prefix) <==> EncryptedData(prefix, at, |starts| - 1))
  {
    if EncryptedData(prefix, at, |starts| - 1) {
      assert IsMessage(prefix, starts);
    }
    if (forall next: nat :: !KeyStep(prefix, at, next)) && PgpPackets(prefix) {
      var message :| IsMessage(prefix, message);
      MessageEndsHere(prefix, starts, at, message);
    }
  }

  /** Every message goes the way of the walk, and so ends where the walk stops. */
  lemma MessageEndsHere(prefix: seq<byte>, starts: seq<nat>, at: nat, message: seq<nat>)
    requires |starts| > 0 && starts[0] == 0 && starts[|starts| - 1] == at
    requires forall i | 0 <= i < |starts| - 1 :: KeyStep(prefix, starts[i], starts[i + 1])
    requires forall next: nat :: !KeyStep(prefix, at, next)
    requires IsMessage(prefix, message)
    ensures EncryptedData(prefix, at, |starts| - 1)
  {
    var k := if |starts| <= |message| then |starts| - 1 else |message| - 1;
    OneChain(prefix, starts, message, k);
    LastOrKey(prefix, message, k);
    if k < |starts| - 1 {
      KeyIsNotData(prefix, starts[k], starts[k + 1], k);
    }
  }

  lemma LastOrKey(prefix: seq<byte>, starts: seq<nat>, k: nat)
    requires IsMessage(prefix, starts) && k < |starts|
    ensures k == |starts| - 1 || exists next: nat :: KeyStep(prefix, starts[k], next)
  {
    if k < |starts| - 1 {
      assert KeyStep(prefix, starts[k], starts[k + 1]);
    }
  }

  lemma KeyIsNotData(prefix: seq<byte>, at: nat, next: nat, keys: nat)
    requires KeyStep(prefix, at, next)
    ensures !EncryptedData(prefix, at, keys)
  {
  }

  // ── a longer prefix ──

  lemma HeaderExtends(p: seq<byte>, q: seq<byte>, at: nat)
    requires Header(p, at).Some?
    ensures Header(p + q, at) == Header(p, at)
  {
    forall from: nat, to: nat | from <= to <= |p| ensures Slice(p + q, from, to) == Slice(p, from, to) {
      assert (p + q)[from..to] == p[from..to];
    }
  }

  /** A message stays one however much of the file follows. */
  lemma PacketsExtend(p: seq<byte>, q: seq<byte>)
    requires PgpPackets(p)
    ensures PgpPackets(p + q)
  {
    var starts :| IsMessage(p, starts);
    forall i | 0 <= i < |starts| ensures Header(p + q, starts[i]) == Header(p, starts[i]) {
      assert i < |starts| - 1 ==> KeyStep(p, starts[i], starts[i + 1]);
      HeaderExtends(p, q, starts[i]);
    }
    assert IsMessage(p + q, starts);
  }

  /** The headers of no definite length: partial lengths in the new format, length type 3 in the old. */
  lemma OpenLengths(before: seq<byte>, after: seq<byte>, tag: nat, n: byte)
    requires tag < 64 && 224 <= n < 255
    ensures Header(before + [0xC0 + tag, n] + after, |before|) == Some(Packet(tag, |before| + 2, None))
    ensures tag < 16 ==>
      Header(before + [0x80 + 4 * tag + 3] + after, |before|) == Some(Packet(tag, |before| + 1, None))
  {
    var partial := before + [0xC0 + tag, n] + after;
    assert partial[|before|] == 0xC0 + tag && partial[|before| + 1] == n;
    if tag < 16 {
      var first: byte := 0x80 + 4 * tag + 3;
      var open := before + [first] + after;
      assert open[|before|] == first;
      assert (first as int) / 4 % 16 == tag && (first as int) % 4 == 3;
    }
  }

  /** A byte without its high bit starts no packet. */
  lemma NoHeader(prefix: seq<byte>, at: nat)
    ensures Header(prefix, at).Some? ==> at < |prefix| && prefix[at] >= 0x80
  {
  }

  // ── every written message is found ──

  /** A session-key packet to write: public-key (tag 1) of version 3 or 6, or symmetric-key (tag 3) of version 4
      to 6, with the rest of its body. */
  datatype Key = Key(symmetric: bool, form: NewLength, version: byte, rest: seq<byte>)

  predicate CanWrite(key: Key) {
    && Holds(key.form, 1 + |key.rest|)
    && key.version in (if key.symmetric then {4, 5, 6} else {3, 6})
  }

  function WriteKey(key: Key): seq<byte>
    requires CanWrite(key)
  {
    [if key.symmetric then 0xC3 else 0xC1] + EncodeNew(key.form, 1 + |key.rest|) + ([key.version] + key.rest)
  }

  function WriteKeys(keys: seq<Key>): seq<byte>
    requires forall i | 0 <= i < |keys| :: CanWrite(keys[i])
  {
    if keys == [] then [] else WriteKeys(keys[..|keys| - 1]) + WriteKey(keys[|keys| - 1])
  }

  lemma WrittenKey(before: seq<byte>, key: Key, after: seq<byte>)
    requires CanWrite(key)
    ensures KeyStep(before + WriteKey(key) + after, |before|, |before| + |WriteKey(key)|)
  {
    var tag, n := if key.symmetric then 3 else 1, 1 + |key.rest|;
    var written, body := [0xC0 + tag as byte] + EncodeNew(key.form, n), [key.version] + key.rest;
    var prefix := before + WriteKey(key) + after;
    NewHeaderInverse(before, body + after, tag, key.form, n);
    assert WriteKey(key) == written + body;
    assert prefix == before + written + (body + after);
    assert prefix[|before| + |written|] == key.version;
  }

  ghost predicate KeysAt(prefix: seq<byte>, starts: seq<nat>, count: nat, end: nat) {
    && |starts| == count + 1 && starts[0] == 0 && starts[count] == end
    && forall i | 0 <= i < count :: KeyStep(prefix, starts[i], starts[i + 1])
  }

  lemma {:induction false} WrittenKeys(keys: seq<Key>, after: seq<byte>) returns (starts: seq<nat>)
    requires forall i | 0 <= i < |keys| :: CanWrite(keys[i])
    ensures KeysAt(WriteKeys(keys) + after, starts, |keys|, |WriteKeys(keys)|)
  {
    if keys == [] {
      starts := [0];
    } else {
      var front, last := keys[..|keys| - 1], keys[|keys| - 1];
      starts := WrittenKeys(front, WriteKey(last) + after);
      starts := OneKeyMore(WriteKeys(front), last, after, starts, |front|);
    }
  }

  lemma OneKeyMore(before: seq<byte>, key: Key, after: seq<byte>, starts: seq<nat>, count: nat)
    returns (more: seq<nat>)
    requires CanWrite(key) && KeysAt(before + (WriteKey(key) + after), starts, count, |before|)
    ensures KeysAt((before + WriteKey(key)) + after, more, count + 1, |before + WriteKey(key)|)
  {
    WrittenKey(before, key, after);
    assert before + (WriteKey(key) + after) == (before + WriteKey(key)) + after;
    StepsOn((before + WriteKey(key)) + after, starts, count, |before|, |before + WriteKey(key)|);
    more := starts + [|before + WriteKey(key)|];
  }

  lemma StepsOn(prefix: seq<byte>, starts: seq<nat>, count: nat, end: nat, next: nat)
    requires KeysAt(prefix, starts, count, end) && KeyStep(prefix, end, next)
    ensures KeysAt(prefix, starts + [next], count + 1, next)
  {
  }

  lemma DataBehindKeys(prefix: seq<byte>, starts: seq<nat>, count: nat, end: nat)
    requires KeysAt(prefix, starts, count, end) && EncryptedData(prefix, end, count)
    ensures PgpPackets(prefix)
  {
    assert IsMessage(prefix, starts);
  }

  lemma WrittenData(before: seq<byte>, data: seq<byte>, keys: nat, form: NewLength, n: nat, after: seq<byte>)
    requires Holds(form, n)
    requires data == [0xD2] + EncodeNew(form, n) + [1] || data == [0xD2] + EncodeNew(form, n) + [2]
      || (keys > 0 && data == [0xC9] + EncodeNew(form, n))
    ensures EncryptedData(before + data + after, |before|, keys)
  {
    var tag := if data[0] == 0xD2 then 18 else 9;
    var written := [0xC0 + tag as byte] + EncodeNew(form, n);
    var rest := data[|written|..];
    assert data == written + rest;
    var prefix := before + data + after;
    assert prefix == before + written + (rest + after);
    NewHeaderInverse(before, rest + after, tag, form, n);
    if tag == 18 { assert prefix[|before| + |written|] == rest[0]; }
  }

  lemma MessageBehind(before: seq<byte>, data: seq<byte>, after: seq<byte>, starts: seq<nat>, count: nat)
    requires KeysAt(before + (data + after), starts, count, |before|)
    requires EncryptedData(before + data + after, |before|, count)
    ensures PgpPackets(before + data + after)
  {
    assert before + (data + after) == before + data + after;
    DataBehindKeys(before + data + after, starts, count, |before|);
  }

  /** Session keys as they are written, any number of them, and encrypted data behind them (tag 18 of version 1 or
      2, or behind a key tag 9 without a version) are a message. */
  lemma WrittenMessage(keys: seq<Key>, data: seq<byte>, form: NewLength, n: nat, after: seq<byte>)
    requires forall i | 0 <= i < |keys| :: CanWrite(keys[i])
    requires Holds(form, n)
    requires data == [0xD2] + EncodeNew(form, n) + [1] || data == [0xD2] + EncodeNew(form, n) + [2]
      || (keys != [] && data == [0xC9] + EncodeNew(form, n))
    ensures PgpPackets(WriteKeys(keys) + data + after)
  {
    var starts := WrittenKeys(keys, data + after);
    WrittenData(WriteKeys(keys), data, |keys|, form, n, after);
    MessageBehind(WriteKeys(keys), data, after, starts, |keys|);
  }
}
