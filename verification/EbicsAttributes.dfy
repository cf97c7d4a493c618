/** Which namespaces the attributes of a root tag bind, and that text inside a value binds none. */
module EbicsAttributes {
  import opened Options
  import opened Bytes
  import opened Ebics

  /** Where the run of bytes with a property ends. */
  function RunEnd(bytes: seq<byte>, from: nat, p: byte -> bool): (r: nat)
    requires from <= |bytes|
    ensures from <= r <= |bytes|
    decreases |bytes| - from
  {
    if from < |bytes| && p(bytes[from]) then RunEnd(bytes, from + 1, p) else from
  }

  lemma {:induction false} RunEndMeaning(bytes: seq<byte>, from: nat, p: byte -> bool)
    requires from <= |bytes|
    ensures var r := RunEnd(bytes, from, p);
      (forall i | from <= i < r :: p(bytes[i])) && (r < |bytes| ==> !p(bytes[r]))
    decreases |bytes| - from
  {
    if from < |bytes| && p(bytes[from]) { RunEndMeaning(bytes, from + 1, p); }
  }

  predicate IsGap(b: byte) { IsSpace(b) || b == SLASH }
  predicate IsNameByte(b: byte) { b != EQUALS && !IsSpace(b) }

  function Not(quote: byte): byte -> bool { (b: byte) => b != quote }

  /** One turn of the walk: an attribute, a name without a value, or the end of what can be walked. */
  datatype Turn = Attribute(name: seq<byte>, value: seq<byte>, next: nat) | Bare(next: nat) | Stop

  function TurnAt(bytes: seq<byte>, at: nat): (r: Turn)
    requires at <= |bytes|
    ensures !r.Stop? ==> at < r.next
    ensures r.Bare? ==> r.next <= |bytes|
  {
    var start := RunEnd(bytes, at, IsGap);
    var end := RunEnd(bytes, start, IsNameByte);
    var sign := RunEnd(bytes, end, IsSpace);
    if end == start then Stop
    else if sign == |bytes| || bytes[sign] != EQUALS then Bare(sign)
    else ValueAt(bytes, sign + 1, bytes[start..end])
  }

  /** What follows the equals sign. */
  function ValueAt(bytes: seq<byte>, from: nat, name: seq<byte>): (r: Turn)
    requires from <= |bytes|
    ensures !r.Bare? && (r.Attribute? ==> from < r.next)
  {
    var quote := RunEnd(bytes, from, IsSpace);
    if quote == |bytes| || !IsQuote(bytes[quote]) then Stop
    else
      var close := RunEnd(bytes, quote + 1, Not(bytes[quote]));
      Attribute(name, bytes[quote + 1..close], close + 1)
  }

  const XMLNS: seq<byte> := Ascii("xmlns")
  const VERSIONED: seq<byte> := Ascii("urn:org:ebics:")
  const UNVERSIONED: seq<byte> := Ascii("http://www.ebics.org/")

  predicate BindsEbics(name: seq<byte>, value: seq<byte>) {
    XMLNS <= name && (VERSIONED <= value || UNVERSIONED <= value)
  }

  /** A namespace declaration, with or without a prefix, of the versioned schemas or the unversioned one. */
  lemma BindsExactly(name: seq<byte>, value: seq<byte>)
    ensures BindsEbics(name, value) <==>
      Ascii("xmlns") <= name && (Ascii("urn:org:ebics:") <= value || Ascii("http://www.ebics.org/") <= value)
  {
  }

  predicate HasNamespace(bytes: seq<byte>, at: nat)
    decreases |bytes| - at
  {
    at < |bytes| &&
    match TurnAt(bytes, at)
    case Stop => false
    case Bare(next) => HasNamespace(bytes, next)
    case Attribute(name, value, next) => BindsEbics(name, value) || HasNamespace(bytes, next)
  }

  method HasEbicsNamespace(attributes: seq<byte>) returns (r: bool)
    ensures r == HasNamespace(attributes, 0)
  {
    var at := 0;
    while at < |attributes|
      invariant HasNamespace(attributes, at) == HasNamespace(attributes, 0)
      decreases |attributes| - at
    {
      var turn := NextTurn(attributes, at);
      match turn
      case Stop => return false;
      case Bare(next) => at := next;
      case Attribute(name, value, next) =>
        if BindsEbics(name, value) { return true; }
        at := next;
    }
    return false;
  }

  /** One turn of the loop. */
  method NextTurn(attributes: seq<byte>, from: nat) returns (turn: Turn)
    requires from <= |attributes|
    ensures turn == TurnAt(attributes, from)
  {
    var start := SkipRun(attributes, from, IsGap);
    var end := SkipRun(attributes, start, IsNameByte);
    if end == start { return Stop; }
    var name := attributes[start..end];
    var at := SkipRun(attributes, end, IsSpace);
    if at == |attributes| || attributes[at] != EQUALS { return Bare(at); }
    turn := NextValue(attributes, at + 1, name);
  }

  method NextValue(attributes: seq<byte>, from: nat, name: seq<byte>) returns (turn: Turn)
    requires from <= |attributes|
    ensures turn == ValueAt(attributes, from, name)
  {
    var at := SkipRun(attributes, from, IsSpace);
    if at == |attributes| || !IsQuote(attributes[at]) { return Stop; }
    var quote := attributes[at];
    var valueStart := at + 1;
    at := SkipRun(attributes, valueStart, Not(quote));
    return Attribute(name, attributes[valueStart..at], at + 1);
  }

  /** The inner loops: past every byte with the property. */
  method SkipRun(bytes: seq<byte>, from: nat, p: byte -> bool) returns (at: nat)
    requires from <= |bytes|
    ensures at == RunEnd(bytes, from, p)
  {
    at := from;
    while at < |bytes| && p(bytes[at])
      invariant at <= |bytes| && RunEnd(bytes, at, p) == RunEnd(bytes, from, p)
    {
      at := at + 1;
    }
  }

  // ── what the walk finds ──

  /** An attribute as it is written, with the blanks XML allows around it. */
  datatype Written = Written(lead: seq<byte>, name: seq<byte>, left: seq<byte>, right: seq<byte>, quote: byte,
      value: seq<byte>)

  ghost predicate All(bytes: seq<byte>, p: byte -> bool) { forall i | 0 <= i < |bytes| :: p(bytes[i]) }

  ghost predicate IsAttribute(a: Written) {
    && All(a.lead, IsSpace) && All(a.left, IsSpace) && All(a.right, IsSpace)
    && a.name != [] && All(a.name, IsNameByte) && a.name[0] != SLASH
    && IsQuote(a.quote) && All(a.value, Not(a.quote))
  }

  function Spelled(a: Written): seq<byte> {
    a.lead + a.name + a.left + [EQUALS] + a.right + [a.quote] + a.value + [a.quote]
  }

  function SpelledAll(attributes: seq<Written>): seq<byte> {
    if attributes == [] then [] else Spelled(attributes[0]) + SpelledAll(attributes[1..])
  }

  lemma RunEndIs(bytes: seq<byte>, from: nat, run: seq<byte>, p: byte -> bool)
    requires Here(bytes, from, run) && All(run, p)
    requires from + |run| < |bytes| ==> !p(bytes[from + |run|])
    ensures RunEnd(bytes, from, p) == from + |run|
  {
    var end := RunEnd(bytes, from, p);
    RunEndMeaning(bytes, from, p);
    assert forall i | from <= i < from + |run| :: bytes[i] == run[i - from];
  }

  /** Where the parts of a written attribute of `length` bytes stand. */
  ghost predicate PartsAt(bytes: seq<byte>, at: nat, a: Written, length: nat) {
    var start := at + |a.lead|;
    var end := start + |a.name|;
    var sign := end + |a.left|;
    var quote := sign + 1 + |a.right|;
    var close := quote + 1 + |a.value|;
    && close + 1 == at + length <= |bytes|
    && Here(bytes, at, a.lead) && Here(bytes, start, a.name) && Here(bytes, end, a.left)
    && bytes[sign] == EQUALS && Here(bytes, sign + 1, a.right) && bytes[quote] == a.quote
    && Here(bytes, quote + 1, a.value) && bytes[close] == a.quote
    && !IsGap(bytes[start]) && !IsNameByte(bytes[end])
  }

  /** The walk reads one attribute as it was written. */
  lemma ReadsAttribute(bytes: seq<byte>, at: nat, a: Written, length: nat)
    requires IsAttribute(a) && PartsAt(bytes, at, a, length)
    ensures TurnAt(bytes, at) == Attribute(a.name, a.value, at + length)
  {
    var start, end, sign := at + |a.lead|, at + |a.lead| + |a.name|, at + |a.lead| + |a.name| + |a.left|;
    var quote := sign + 1 + |a.right|;
    NameSlice(bytes, at, a, length, start, end, sign);
    ValueSlice(bytes, at, a, length, sign, quote, at + length - 1);
    TurnReads(bytes, at, start, end, sign, quote, at + length, a.name, a.value);
  }

  /** A turn reads what stands between the runs. */
  lemma TurnReads(bytes: seq<byte>, at: nat, start: nat, end: nat, sign: nat, quote: nat, next: nat,
      name: seq<byte>, value: seq<byte>)
    requires at <= start < end <= sign < quote < next - 1 < |bytes| && bytes[sign] == EQUALS
    requires RunEnd(bytes, at, IsGap) == start && RunEnd(bytes, start, IsNameByte) == end
    requires RunEnd(bytes, end, IsSpace) == sign && bytes[start..end] == name
    requires RunEnd(bytes, sign + 1, IsSpace) == quote && IsQuote(bytes[quote])
    requires RunEnd(bytes, quote + 1, Not(bytes[quote])) == next - 1 && bytes[quote + 1..next - 1] == value
    ensures TurnAt(bytes, at) == Attribute(name, value, next)
  {
    TurnStep(bytes, at, start, end, sign, name);
    ValueStep(bytes, sign + 1, name, quote, next - 1, value);
  }

  /** The three runs an attribute's name lies between, and the name itself. */
  lemma NameSlice(bytes: seq<byte>, at: nat, a: Written, length: nat, start: nat, end: nat, sign: nat)
    requires IsAttribute(a) && PartsAt(bytes, at, a, length)
    requires start == at + |a.lead| && end == start + |a.name| && sign == end + |a.left|
    ensures start < end <= sign < |bytes| && bytes[sign] == EQUALS && bytes[start..end] == a.name
    ensures RunEnd(bytes, at, IsGap) == start && RunEnd(bytes, start, IsNameByte) == end
    ensures RunEnd(bytes, end, IsSpace) == sign
  {
    GapEnds(bytes, at, a, length);
    NameEnds(bytes, at, a, length);
    SignIsFound(bytes, at, a, length);
    HereSlice(bytes, start, a.name);
  }

  lemma TurnStep(bytes: seq<byte>, at: nat, start: nat, end: nat, sign: nat, name: seq<byte>)
    requires at <= start < end <= sign < |bytes| && bytes[sign] == EQUALS
    requires RunEnd(bytes, at, IsGap) == start
    requires RunEnd(bytes, start, IsNameByte) == end
    requires RunEnd(bytes, end, IsSpace) == sign && bytes[start..end] == name
    ensures TurnAt(bytes, at) == ValueAt(bytes, sign + 1, name)
  {
  }

  lemma GapEnds(bytes: seq<byte>, at: nat, a: Written, length: nat)
    requires IsAttribute(a) && PartsAt(bytes, at, a, length)
    ensures RunEnd(bytes, at, IsGap) == at + |a.lead|
  {
    RunEndIs(bytes, at, a.lead, IsGap);
  }

  lemma NameEnds(bytes: seq<byte>, at: nat, a: Written, length: nat)
    requires IsAttribute(a) && PartsAt(bytes, at, a, length)
    ensures RunEnd(bytes, at + |a.lead|, IsNameByte) == at + |a.lead| + |a.name|
  {
    RunEndIs(bytes, at + |a.lead|, a.name, IsNameByte);
  }

  lemma SignIsFound(bytes: seq<byte>, at: nat, a: Written, length: nat)
    requires IsAttribute(a) && PartsAt(bytes, at, a, length)
    ensures var end := at + |a.lead| + |a.name|;
      RunEnd(bytes, end, IsSpace) == end + |a.left| < |bytes| && bytes[end + |a.left|] == EQUALS
  {
    RunEndIs(bytes, at + |a.lead| + |a.name|, a.left, IsSpace);
  }

  lemma ValueStep(bytes: seq<byte>, from: nat, name: seq<byte>, quote: nat, close: nat, value: seq<byte>)
    requires from <= quote < close <= |bytes| && RunEnd(bytes, from, IsSpace) == quote && IsQuote(bytes[quote])
    requires RunEnd(bytes, quote + 1, Not(bytes[quote])) == close && bytes[quote + 1..close] == value
    ensures ValueAt(bytes, from, name) == Attribute(name, value, close + 1)
  {
  }

  /** The two runs an attribute's value lies between, and the value itself. */
  lemma ValueSlice(bytes: seq<byte>, at: nat, a: Written, length: nat, sign: nat, quote: nat, close: nat)
    requires IsAttribute(a) && PartsAt(bytes, at, a, length) && length > 0
    requires sign == at + |a.lead| + |a.name| + |a.left| && quote == sign + 1 + |a.right| && close == at + length - 1
    ensures sign < quote < close < |bytes| && bytes[quote] == a.quote && bytes[quote + 1..close] == a.value
    ensures RunEnd(bytes, sign + 1, IsSpace) == quote && RunEnd(bytes, quote + 1, Not(a.quote)) == close
  {
    RunEndIs(bytes, sign + 1, a.right, IsSpace);
    RunEndIs(bytes, quote + 1, a.value, Not(a.quote));
    HereSlice(bytes, quote + 1, a.value);
  }

  lemma Parts(bytes: seq<byte>, at: nat, a: Written)
    requires IsAttribute(a) && Here(bytes, at, Spelled(a))
    ensures PartsAt(bytes, at, a, |Spelled(a)|)
  {
    HereSplits(bytes, at, a.lead + a.name + a.left + [EQUALS] + a.right + [a.quote] + a.value, [a.quote]);
    HereSplits(bytes, at, a.lead + a.name + a.left + [EQUALS] + a.right + [a.quote], a.value);
    HereSplits(bytes, at, a.lead + a.name + a.left + [EQUALS] + a.right, [a.quote]);
    HereSplits(bytes, at, a.lead + a.name + a.left + [EQUALS], a.right);
    HereSplits(bytes, at, a.lead + a.name + a.left, [EQUALS]);
    HereSplits(bytes, at, a.lead + a.name, a.left);
    HereSplits(bytes, at, a.lead, a.name);
    OneHere(bytes, at + |a.lead| + |a.name| + |a.left|, EQUALS);
    OneHere(bytes, at + |a.lead| + |a.name| + |a.left| + 1 + |a.right|, a.quote);
    OneHere(bytes, at + |Spelled(a)| - 1, a.quote);
    assert bytes[at + |a.lead| + 0] == a.name[0];
    assert a.left != [] ==> bytes[at + |a.lead| + |a.name| + 0] == a.left[0];
  }

  ghost predicate AnyBinds(attributes: seq<Written>) {
    exists i | 0 <= i < |attributes| :: BindsEbics(attributes[i].name, attributes[i].value)
  }

  /** An EBICS namespace is found exactly where one of the attributes binds it; what the values
      quote, and attributes that declare no namespace, say nothing. */
  lemma {:induction false} FindsTheBinding(bytes: seq<byte>, at: nat, attributes: seq<Written>, tail: seq<byte>)
    requires forall i | 0 <= i < |attributes| :: IsAttribute(attributes[i])
    requires All(tail, IsGap)
    requires Here(bytes, at, SpelledAll(attributes) + tail) && |bytes| == at + |SpelledAll(attributes) + tail|
    ensures HasNamespace(bytes, at) <==> AnyBinds(attributes)
    decreases |attributes|
  {
    if attributes == [] {
      NoneToRead(bytes, at, tail);
    } else {
      var more := attributes[1..];
      var next := at + |Spelled(attributes[0])|;
      FirstAttribute(bytes, at, attributes[0], SpelledAll(more), tail);
      FindsTheBinding(bytes, next, more, tail);
      FirstOrLater(bytes, at, attributes, next);
    }
  }

  lemma NoneToRead(bytes: seq<byte>, at: nat, tail: seq<byte>)
    requires All(tail, IsGap) && Here(bytes, at, [] + tail) && |bytes| == at + |tail|
    ensures !HasNamespace(bytes, at)
  {
    assert [] + tail == tail;
    RunEndIs(bytes, at, tail, IsGap);
  }

  lemma FirstAttribute(bytes: seq<byte>, at: nat, a: Written, more: seq<byte>, tail: seq<byte>)
    requires IsAttribute(a) && Here(bytes, at, (Spelled(a) + more) + tail)
    ensures TurnAt(bytes, at) == Attribute(a.name, a.value, at + |Spelled(a)|)
    ensures Here(bytes, at + |Spelled(a)|, more + tail)
  {
    ReadsSpelled(bytes, at, a, more, tail);
    HereRegrouped(bytes, at, Spelled(a), more, tail);
  }

  lemma ReadsSpelled(bytes: seq<byte>, at: nat, a: Written, more: seq<byte>, tail: seq<byte>)
    requires IsAttribute(a) && Here(bytes, at, (Spelled(a) + more) + tail)
    ensures TurnAt(bytes, at) == Attribute(a.name, a.value, at + |Spelled(a)|)
  {
    HereSplits(bytes, at, Spelled(a) + more, tail);
    HereSplits(bytes, at, Spelled(a), more);
    Parts(bytes, at, a);
    ReadsAttribute(bytes, at, a, |Spelled(a)|);
  }

  lemma HereRegrouped(bytes: seq<byte>, at: nat, one: seq<byte>, more: seq<byte>, tail: seq<byte>)
    requires Here(bytes, at, (one + more) + tail)
    ensures Here(bytes, at + |one|, more + tail)
  {
    assert (one + more) + tail == one + (more + tail);
    HereSplits(bytes, at, one, more + tail);
  }

  lemma FirstOrLater(bytes: seq<byte>, at: nat, attributes: seq<Written>, next: nat)
    requires attributes != [] && at < |bytes|
    requires TurnAt(bytes, at) == Attribute(attributes[0].name, attributes[0].value, next)
    requires HasNamespace(bytes, next) <==> AnyBinds(attributes[1..])
    ensures HasNamespace(bytes, at) <==> AnyBinds(attributes)
  {
    if i :| 0 <= i < |attributes| && BindsEbics(attributes[i].name, attributes[i].value) {
      if i > 0 { assert attributes[1..][i - 1] == attributes[i]; }
    }
  }

  // ── the check ──

  predicate EndsName(b: byte) { IsSpace(b) || b == SLASH }

  predicate InName(b: byte) { !EndsName(b) }

  function NameEnd(tag: seq<byte>): (r: nat)
    ensures r <= |tag|
  {
    RunEnd(tag, 0, InName)
  }

  /** What follows the last colon. */
  function LocalName(name: seq<byte>): seq<byte> {
    if name == [] || name[|name| - 1] == COLON then []
    else LocalName(name[..|name| - 1]) + [name[|name| - 1]]
  }

  predicate IsEbics(prefix: seq<byte>) {
    match RootTag(prefix)
    case None => false
    case Some(tag) =>
      Ascii("ebics") <= LocalName(tag[..NameEnd(tag)]) && HasNamespace(tag[NameEnd(tag)..], 0)
  }

  lemma EbicsExtends(p: seq<byte>, q: seq<byte>)
    requires IsEbics(p)
    ensures IsEbics(p + q)
  {
    RootTagExtends(p, q);
  }

  lemma {:induction false} LocalNameIsAfterTheColon(prefix: seq<byte>, local: seq<byte>)
    requires COLON !in local
    ensures LocalName(local) == local && LocalName(prefix + [COLON] + local) == local
  {
    if local == [] {
      assert prefix + [COLON] + local == prefix + [COLON];
    } else {
      var front, last := local[..|local| - 1], local[|local| - 1];
      LocalNameIsAfterTheColon(prefix, front);
      assert (prefix + [COLON] + local)[..|prefix| + |local|] == prefix + [COLON] + front;
    }
  }

  /** A document whose root element is qualified or not, whatever stands before it and in its
      values, is an EBICS envelope exactly when its local name opens `ebics` and it binds an EBICS namespace. */
  lemma EnvelopeExactly(pieces: seq<Piece>, tag: seq<byte>, rest: seq<byte>,
      qualifier: seq<byte>, local: seq<byte>, attributes: seq<Written>, tail: seq<byte>)
    requires forall i | 0 <= i < |pieces| :: WellFormed(pieces[i])
    requires forall i | 0 <= i < |attributes| :: IsAttribute(attributes[i])
    requires All(tail, IsGap) && COLON !in local
    requires qualifier == [] || qualifier[|qualifier| - 1] == COLON
    requires forall b | b in qualifier + local :: !EndsName(b)
    requires attributes != [] ==> attributes[0].lead != []
    requires tag == (qualifier + local) + (SpelledAll(attributes) + tail) && IsTagText(tag)
    ensures IsEbics(Prolog(pieces) + ([LT] + tag + [GT] + rest)) <==> Ascii("ebics") <= local && AnyBinds(attributes)
  {
    var bound := SpelledAll(attributes) + tail;
    FindsTheRootTag(pieces, tag, rest);
    if attributes != [] {
      StartsWithLead(attributes, tail);
    } else {
      assert bound == tail;
    }
    TagDecides(Prolog(pieces) + ([LT] + tag + [GT] + rest), qualifier + local, bound);
    QualifiedName(qualifier, local);
    FindsTheBinding(bound, 0, attributes, tail);
  }

  lemma StartsWithLead(attributes: seq<Written>, tail: seq<byte>)
    requires attributes != [] && IsAttribute(attributes[0]) && attributes[0].lead != []
    ensures |SpelledAll(attributes)| > 0 && EndsName((SpelledAll(attributes) + tail)[0])
  {
    assert Spelled(attributes[0])[0] == attributes[0].lead[0];
  }

  lemma QualifiedName(qualifier: seq<byte>, local: seq<byte>)
    requires COLON !in local && (qualifier == [] || qualifier[|qualifier| - 1] == COLON)
    ensures LocalName(qualifier + local) == local
  {
    if qualifier == [] {
      assert qualifier + local == local;
      LocalNameIsAfterTheColon([], local);
    } else {
      var front := qualifier[..|qualifier| - 1];
      assert qualifier + local == front + [COLON] + local;
      LocalNameIsAfterTheColon(front, local);
    }
  }

  /** The tag is split where its name ends. */
  lemma TagDecides(bytes: seq<byte>, name: seq<byte>, bound: seq<byte>)
    requires RootTag(bytes) == Some(name + bound)
    requires forall b | b in name :: !EndsName(b)
    requires |bound| > 0 ==> EndsName(bound[0])
    ensures IsEbics(bytes) <==> Ascii("ebics") <= LocalName(name) && HasNamespace(bound, 0)
  {
    var tag := name + bound;
    RunEndIs(tag, 0, name, InName);
    assert tag[..|name|] == name && tag[|name|..] == bound;
  }
}
