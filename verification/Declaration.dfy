/** The encoding an XML declaration names (src/encoding.rs `declaration_label`), read off a bounded prefix. */
module Declaration {
  import opened Options
  import opened Bytes

  const DECLARATION_BYTES: nat := 512
  const XML_OPEN: seq<byte> := [0x3C, 0x3F, 0x78, 0x6D, 0x6C]
  const XML_CLOSE: seq<byte> := [0x3F, 0x3E]
  const ENCODING: seq<byte> := [0x65, 0x6E, 0x63, 0x6F, 0x64, 0x69, 0x6E, 0x67]
  const EQUALS: byte := 0x3D

  predicate IsQuote(b: byte) { b == 0x22 || b == 0x27 }

  lemma QuotesAreWritten(b: byte)
    ensures IsQuote(b) <==> b == '"' as int || b == '\'' as int
  {
  }

  /** What is looked for, as it is written, and how far. */
  lemma WordsAreWritten(file: seq<byte>)
    ensures XML_OPEN == Ascii("<?xml") && XML_CLOSE == Ascii("?>") && ENCODING == Ascii("encoding")
    ensures [EQUALS] == Ascii("=")
    ensures Head(file) == WithoutBom(if |file| <= 512 then file else file[..512])
  {
  }

  /** The first `b` from `from` on, or the end. */
  function IndexOf(bytes: seq<byte>, from: nat, b: byte): (r: nat)
    requires from <= |bytes|
    ensures from <= r <= |bytes| && (r < |bytes| ==> bytes[r] == b)
    ensures forall j | from <= j < r :: bytes[j] != b
    decreases |bytes| - from
  {
    if from == |bytes| || bytes[from] == b then from else IndexOf(bytes, from + 1, b)
  }

  /** A quoted value, past white space: where it starts and ends. */
  function Quoted(decl: seq<byte>, from: nat): (r: Option<(nat, nat)>)
    requires from <= |decl|
    ensures r.Some? ==> from < r.value.0 <= r.value.1 < |decl| && IsQuote(decl[r.value.1])
  {
    var quote := SkipSpace(decl, from);
    if quote == |decl| || !IsQuote(decl[quote]) then None
    else
      var close := IndexOf(decl, quote + 1, decl[quote]);
      if close == |decl| then None else Some((quote + 1, close))
  }

  /** An equals sign, past white space, and a quoted value behind it. */
  function Assigned(decl: seq<byte>, from: nat): (r: Option<(nat, nat)>)
    requires from <= |decl|
    ensures r.Some? ==> from < r.value.0 <= r.value.1 < |decl| && IsQuote(decl[r.value.1])
  {
    var sign := SkipSpace(decl, from);
    if sign == |decl| || decl[sign] != EQUALS then None else Quoted(decl, sign + 1)
  }

  /** The value assigned behind the first `encoding` of a declaration. */
  function ValueSpan(decl: seq<byte>): (r: Option<(nat, nat)>)
    ensures r.Some? ==> 0 < r.value.0 <= r.value.1 < |decl| && IsQuote(decl[r.value.1])
  {
    match Find(decl, ENCODING)
    case None => None
    case Some(k) => Assigned(decl, k + |ENCODING|)
  }

  function Declared(head: seq<byte>): seq<byte> {
    match Find(head, XML_CLOSE) case None => head case Some(k) => head[..k]
  }

  function Head(file: seq<byte>): seq<byte> {
    WithoutBom(if |file| <= DECLARATION_BYTES then file else file[..DECLARATION_BYTES])
  }

  function Label(file: seq<byte>): Option<seq<byte>> {
    var head := Head(file);
    if !(XML_OPEN <= head) then None
    else
      var decl := Declared(head);
      match ValueSpan(decl) case None => None case Some((start, end)) => Some(decl[start..end])
  }

  // ── more of the file never changes a label ──

  lemma SkipSpaceAgrees(a: seq<byte>, b: seq<byte>, from: nat)
    requires a <= b && from <= |a|
    ensures SkipSpace(a, from) < |a| ==> SkipSpace(b, from) == SkipSpace(a, from)
    ensures SkipSpace(b, from) < |a| ==> SkipSpace(a, from) == SkipSpace(b, from)
  {
  }

  lemma IndexOfAgrees(a: seq<byte>, b: seq<byte>, from: nat, x: byte)
    requires a <= b && from <= |a|
    ensures IndexOf(a, from, x) < |a| ==> IndexOf(b, from, x) == IndexOf(a, from, x)
    ensures IndexOf(b, from, x) < |a| ==> IndexOf(a, from, x) == IndexOf(b, from, x)
  {
  }

  lemma FindAgrees(a: seq<byte>, b: seq<byte>, needle: seq<byte>)
    requires a <= b
    ensures Find(a, needle).Some? ==> Find(b, needle) == Find(a, needle)
    ensures Find(b, needle).Some? && Find(b, needle).value + |needle| <= |a| ==> Find(a, needle) == Find(b, needle)
  {
    var more := b[|a|..];
    assert b == a + more;
    forall k: nat | k + |needle| <= |a| ensures At(b, k, needle) == At(a, k, needle) {
      AtExtends(a, more, k, needle);
    }
    if Find(a, needle).Some? { FindExtends(a, more, needle); }
  }

  lemma QuotedAgrees(a: seq<byte>, b: seq<byte>, from: nat)
    requires a <= b && from <= |a|
    ensures Quoted(a, from).Some? ==> Quoted(b, from) == Quoted(a, from)
    ensures Quoted(b, from).Some? && Quoted(b, from).value.1 < |a| ==> Quoted(a, from) == Quoted(b, from)
  {
    SkipSpaceAgrees(a, b, from);
    var quote := SkipSpace(a, from);
    if quote < |a| { IndexOfAgrees(a, b, quote + 1, a[quote]); }
  }

  lemma AssignedAgrees(a: seq<byte>, b: seq<byte>, from: nat)
    requires a <= b && from <= |a|
    ensures Assigned(a, from).Some? ==> Assigned(b, from) == Assigned(a, from)
    ensures Assigned(b, from).Some? && Assigned(b, from).value.1 < |a| ==> Assigned(a, from) == Assigned(b, from)
  {
    SkipSpaceAgrees(a, b, from);
    var sign := SkipSpace(a, from);
    if sign < |a| { QuotedAgrees(a, b, sign + 1); }
  }

  /** A span is found in a longer declaration where it was found. */
  lemma SpanExtends(a: seq<byte>, b: seq<byte>)
    requires a <= b && ValueSpan(a).Some?
    ensures ValueSpan(b) == ValueSpan(a)
  {
    FindAgrees(a, b, ENCODING);
    AssignedAgrees(a, b, Find(a, ENCODING).value + |ENCODING|);
  }

  /** And in a shorter one that still holds it. */
  lemma SpanIsLocal(a: seq<byte>, b: seq<byte>)
    requires a <= b && ValueSpan(b).Some? && ValueSpan(b).value.1 < |a|
    ensures ValueSpan(a) == ValueSpan(b)
  {
    FindAgrees(a, b, ENCODING);
    AssignedAgrees(a, b, Find(b, ENCODING).value + |ENCODING|);
  }

  /** A declaration that is not over yet ends, in more of the file, no earlier than before its last
      byte, and that byte is then the question mark of the end. */
  lemma DeclaredGrows(a: seq<byte>, b: seq<byte>)
    requires a <= b
    ensures Declared(a) <= Declared(b)
      || (Declared(a) == a != [] && a[|a| - 1] == XML_CLOSE[0] && Declared(b) == a[..|a| - 1])
  {
    FindAgrees(a, b, XML_CLOSE);
    if Find(a, XML_CLOSE).None? && Find(b, XML_CLOSE).Some? {
      var j := Find(b, XML_CLOSE).value;
      assert b[j..j + 2][0] == b[j];
      assert j + 2 > |a|;
      if j < |a| { assert b[..j] == a[..|a| - 1]; }
    }
  }

  lemma DeclaredExtends(a: seq<byte>, b: seq<byte>)
    requires a <= b && ValueSpan(Declared(a)).Some?
    ensures ValueSpan(Declared(b)) == ValueSpan(Declared(a))
    ensures Declared(b)[..ValueSpan(Declared(a)).value.1] == Declared(a)[..ValueSpan(Declared(a)).value.1]
  {
    DeclaredGrows(a, b);
    if Declared(a) <= Declared(b) {
      SpanExtends(Declared(a), Declared(b));
    } else {
      SpanIsLocal(Declared(b), a);
    }
  }

  /** A label found in some of a file is the label of the file. */
  lemma LabelExtends(p: seq<byte>, q: seq<byte>)
    requires Label(p).Some?
    ensures Label(p + q) == Label(p)
  {
    HeadExtends(p, q);
    DeclaredExtends(Head(p), Head(p + q));
    var (start, end) := ValueSpan(Declared(Head(p))).value;
    assert Declared(Head(p + q))[start..end] == Declared(Head(p + q))[..end][start..];
    assert Declared(Head(p))[start..end] == Declared(Head(p))[..end][start..];
  }

  lemma HeadExtends(p: seq<byte>, q: seq<byte>)
    requires XML_OPEN <= Head(p)
    ensures Head(p) <= Head(p + q)
  {
    var a := if |p| <= DECLARATION_BYTES then p else p[..DECLARATION_BYTES];
    var b := if |p + q| <= DECLARATION_BYTES then p + q else (p + q)[..DECLARATION_BYTES];
    assert a <= b;
    if !(BOM <= a) {
      assert a[0] == XML_OPEN[0] && b[0] == a[0];
    }
  }

  // ── every written declaration is read ──

  /** A declaration's value as it is written, with the white space XML allows around the sign. */
  function Written(left: seq<byte>, right: seq<byte>, quote: byte, value: seq<byte>): seq<byte> {
    left + ([EQUALS] + (right + ([quote] + (value + [quote]))))
  }

  ghost predicate Spaces(bytes: seq<byte>) { forall i | 0 <= i < |bytes| :: IsSpace(bytes[i]) }

  lemma SkipsSpaces(bytes: seq<byte>, from: nat, run: seq<byte>)
    requires Here(bytes, from, run) && Spaces(run)
    requires from + |run| < |bytes| && !IsSpace(bytes[from + |run|])
    ensures SkipSpace(bytes, from) == from + |run|
  {
    assert forall i | from <= i < from + |run| :: bytes[i] == run[i - from];
  }

  lemma QuotedWritten(bytes: seq<byte>, from: nat, right: seq<byte>, quote: byte, value: seq<byte>)
    requires IsQuote(quote) && quote !in value && Spaces(right)
    requires Here(bytes, from, right + ([quote] + (value + [quote])))
    ensures var start := from + |right| + 1;
      Quoted(bytes, from) == Some((start, start + |value|)) && bytes[start..start + |value|] == value
  {
    var mark, start := from + |right|, from + |right| + 1;
    HereSplits(bytes, from, right, [quote] + (value + [quote]));
    HereSplits(bytes, mark, [quote], value + [quote]);
    OneHere(bytes, mark, quote);
    HereSplits(bytes, start, value, [quote]);
    OneHere(bytes, start + |value|, quote);
    SkipsSpaces(bytes, from, right);
    assert forall i | start <= i < start + |value| :: bytes[i] == value[i - start];
    assert IndexOf(bytes, start, quote) == start + |value|;
  }

  lemma AssignedWritten(bytes: seq<byte>, from: nat, left: seq<byte>, right: seq<byte>, quote: byte, value: seq<byte>)
    requires IsQuote(quote) && quote !in value && Spaces(left) && Spaces(right)
    requires Here(bytes, from, Written(left, right, quote, value))
    ensures Assigned(bytes, from).Some?
    ensures var (start, end) := Assigned(bytes, from).value; bytes[start..end] == value
  {
    var quoted := right + ([quote] + (value + [quote]));
    HereSplits(bytes, from, left, [EQUALS] + quoted);
    HereSplits(bytes, from + |left|, [EQUALS], quoted);
    OneHere(bytes, from + |left|, EQUALS);
    SkipsSpaces(bytes, from, left);
    QuotedWritten(bytes, from + |left| + 1, right, quote, value);
  }

  /** Every declaration that assigns its encoding in the first 512 bytes is read: white space where XML
      allows it, either quote, and anything around that spells neither the word nor the end. */
  lemma WrittenLabelIsRead(file: seq<byte>, decl: seq<byte>, k: nat, left: seq<byte>, right: seq<byte>, quote: byte,
      value: seq<byte>, rest: seq<byte>)
    requires IsQuote(quote) && quote !in value && Spaces(left) && Spaces(right)
    requires XML_OPEN <= decl && Find(decl, ENCODING) == Some(k)
    requires Here(decl, k + |ENCODING|, Written(left, right, quote, value))
    requires Find(decl + XML_CLOSE, XML_CLOSE) == Some(|decl|)
    requires Head(file) == decl + XML_CLOSE
    ensures Label(file + rest) == Some(value)
  {
    assert (decl + XML_CLOSE)[..|decl|] == decl;
    AssignedWritten(decl, k + |ENCODING|, left, right, quote, value);
    LabelExtends(file, rest);
  }
}
