/** The EBICS check of src/container.rs: the root start tag of a prefix, and the namespaces bound on it. */
module Ebics {
  import opened Options
  import opened Bytes

  const LT: byte := 0x3C
  const GT: byte := 0x3E
  const SLASH: byte := 0x2F
  const EQUALS: byte := 0x3D
  const COLON: byte := 0x3A

  predicate IsQuote(b: byte) { b == 0x22 || b == 0x27 }

  lemma QuotesAreWritten(b: byte)
    ensures IsQuote(b) <==> b == '"' as int || b == '\'' as int
  {
  }

  /** The marks of the markup, as they are written. */
  lemma MarksAreWritten()
    ensures [LT, GT, SLASH, EQUALS, COLON] == Ascii("<>/=:")
    ensures COMMENT == Ascii("<!--") && COMMENT_END == Ascii("-->")
    ensures INSTRUCTION == Ascii("<?") && INSTRUCTION_END == Ascii("?>")
    ensures DECLARATION == Ascii("<!") && CLOSE == Ascii("</")
  {
  }

  // ── the end of a start tag ──

  function QuoteStep(quote: Option<byte>, b: byte): Option<byte> {
    match quote
    case Some(open) => if b == open then None else quote
    case None => if IsQuote(b) then Some(b) else None
  }

  /** The quote still open after the bytes from `from` up to `end`. */
  function QuoteAfter(bytes: seq<byte>, from: nat, end: nat): Option<byte>
    requires from <= end <= |bytes|
    decreases end
  {
    if end == from then None else QuoteStep(QuoteAfter(bytes, from, end - 1), bytes[end - 1])
  }

  /** The tag that starts at `bytes[0]` ends at `k`: a `>` outside every attribute value. */
  predicate EndsTag(bytes: seq<byte>, k: nat) {
    1 <= k < |bytes| && bytes[k] == GT && QuoteAfter(bytes, 1, k).None?
  }

  /** The first place the tag may end. */
  method TagEnd(bytes: seq<byte>) returns (r: Option<nat>)
    ensures r == FirstTagEnd(bytes, 1)
  {
    var quote: Option<byte> := None;
    var at := 1;
    while at < |bytes|
      invariant |bytes| < 1 || at <= |bytes|
      invariant |bytes| >= 1 ==> quote == QuoteAfter(bytes, 1, at)
      invariant FirstTagEnd(bytes, 1) == FirstTagEnd(bytes, at)
    {
      var b := bytes[at];
      if quote.Some? {
        if b == quote.value { quote := None; }
      } else if IsQuote(b) {
        quote := Some(b);
      } else if b == GT {
        return Some(at);
      }
      at := at + 1;
    }
    return None;
  }

  function FirstTagEnd(bytes: seq<byte>, from: nat): (r: Option<nat>)
    ensures r.Some? ==> from <= r.value && EndsTag(bytes, r.value)
    ensures r.Some? ==> forall j | from <= j < r.value :: !EndsTag(bytes, j)
    ensures r.None? ==> forall j | from <= j :: !EndsTag(bytes, j)
    decreases |bytes| - from
  {
    if from >= |bytes| then None else if EndsTag(bytes, from) then Some(from) else FirstTagEnd(bytes, from + 1)
  }

  lemma {:induction false} QuoteExtends(p: seq<byte>, q: seq<byte>, from: nat, end: nat)
    requires from <= end <= |p|
    ensures QuoteAfter(p + q, from, end) == QuoteAfter(p, from, end)
  {
    if from < end { QuoteExtends(p, q, from, end - 1); }
  }

  lemma TagEndExtends(p: seq<byte>, q: seq<byte>)
    requires FirstTagEnd(p, 1).Some?
    ensures FirstTagEnd(p + q, 1) == FirstTagEnd(p, 1)
  {
    var k := FirstTagEnd(p, 1).value;
    forall j | 1 <= j <= k ensures EndsTag(p + q, j) == EndsTag(p, j) {
      QuoteExtends(p, q, 1, j);
    }
  }

  // ── the end of a doctype ──

  /** How deep in the brackets of the internal subset the bytes before `to` leave off. */
  function DepthAfter(bytes: seq<byte>, to: nat): nat
    requires to <= |bytes|
  {
    if to == 0 then 0
    else
      var depth := DepthAfter(bytes, to - 1);
      if bytes[to - 1] == 0x5B then depth + 1
      else if bytes[to - 1] == 0x5D && depth > 0 then depth - 1
      else depth
  }

  predicate EndsDoctype(bytes: seq<byte>, k: nat) { k < |bytes| && bytes[k] == GT && DepthAfter(bytes, k) == 0 }

  function FirstDoctypeEnd(bytes: seq<byte>, from: nat): (r: Option<nat>)
    ensures r.Some? ==> from <= r.value && EndsDoctype(bytes, r.value)
    ensures r.Some? ==> forall j | from <= j < r.value :: !EndsDoctype(bytes, j)
    ensures r.None? ==> forall j | from <= j :: !EndsDoctype(bytes, j)
    decreases |bytes| - from
  {
    if from >= |bytes| then None else if EndsDoctype(bytes, from) then Some(from) else FirstDoctypeEnd(bytes, from + 1)
  }

  method DoctypeEnd(bytes: seq<byte>) returns (r: Option<nat>)
    ensures r == match FirstDoctypeEnd(bytes, 0) case None => None case Some(k) => Some(k + 1)
  {
    var depth := 0;
    for at := 0 to |bytes|
      invariant depth == DepthAfter(bytes, at)
      invariant FirstDoctypeEnd(bytes, 0) == FirstDoctypeEnd(bytes, at)
    {
      var b := bytes[at];
      if b == 0x5B {
        depth := depth + 1;
      } else if b == 0x5D {
        depth := if depth > 0 then depth - 1 else 0;
      } else if b == GT && depth == 0 {
        return Some(at + 1);
      }
    }
    return None;
  }

  lemma {:induction false} DepthExtends(p: seq<byte>, q: seq<byte>, to: nat)
    requires to <= |p|
    ensures DepthAfter(p + q, to) == DepthAfter(p, to)
  {
    if to > 0 { DepthExtends(p, q, to - 1); }
  }

  lemma DoctypeEndExtends(p: seq<byte>, q: seq<byte>)
    requires FirstDoctypeEnd(p, 0).Some?
    ensures FirstDoctypeEnd(p + q, 0) == FirstDoctypeEnd(p, 0)
  {
    var k := FirstDoctypeEnd(p, 0).value;
    forall j: nat | j <= k ensures EndsDoctype(p + q, j) == EndsDoctype(p, j) {
      DepthExtends(p, q, j);
    }
  }

  // ── the root tag ──

  const COMMENT: seq<byte> := [LT, 0x21, 0x2D, 0x2D]
  const COMMENT_END: seq<byte> := [0x2D, 0x2D, GT]
  const INSTRUCTION: seq<byte> := [LT, 0x3F]
  const INSTRUCTION_END: seq<byte> := [0x3F, GT]
  const DECLARATION: seq<byte> := [LT, 0x21]
  const CLOSE: seq<byte> := [LT, SLASH]

  /** What markup at `rest[0]` is: something of `length` bytes to step over, the root tag, or nothing that is whole. */
  datatype Markup = Skip(length: nat) | Root(tag: seq<byte>) | Nothing

  function MarkupAt(rest: seq<byte>): (r: Markup)
    requires |rest| > 0 && rest[0] == LT
    ensures r.Skip? ==> 0 < r.length <= |rest|
  {
    if COMMENT <= rest then
      match Find(rest[4..], COMMENT_END) case None => Nothing case Some(k) => Skip(4 + k + 3)
    else if INSTRUCTION <= rest then
      match Find(rest[2..], INSTRUCTION_END) case None => Nothing case Some(k) => Skip(2 + k + 2)
    else if DECLARATION <= rest then
      match FirstDoctypeEnd(rest[2..], 0) case None => Nothing case Some(k) => Skip(2 + k + 1)
    else if CLOSE <= rest then Nothing
    else
      match FirstTagEnd(rest, 1) case None => Nothing case Some(k) => Root(rest[1..k])
  }

  /** The first element start tag, angle brackets removed. */
  function RootTag(bytes: seq<byte>): Option<seq<byte>>
    decreases |bytes|
  {
    match Find(bytes, [LT])
    case None => None
    case Some(k) =>
      match MarkupAt(bytes[k..])
      case Nothing => None
      case Root(tag) => Some(tag)
      case Skip(length) => RootTag(bytes[k..][length..])
  }

  method RootStartTag(prefix: seq<byte>) returns (r: Option<seq<byte>>)
    ensures r == RootTag(prefix)
  {
    var at: nat, rest := 0, prefix;
    ghost var tag := RootTag(prefix);
    while true
      invariant at <= |prefix| && rest == prefix[at..] && RootTag(rest) == tag
      decreases |rest|
    {
      var lt := Find(rest, [LT]);
      if lt.None? { return None; }
      Later(prefix, at, lt.value);
      at, rest := at + lt.value, rest[lt.value..];
      var markup := ReadMarkup(rest);
      match markup {
        case Nothing => return None;
        case Root(found) => return Some(found);
        case Skip(length) =>
          Later(prefix, at, length);
          at, rest := at + length, rest[length..];
      }
    }
  }

  lemma Later(bytes: seq<byte>, at: nat, k: nat)
    requires at <= |bytes| && k <= |bytes[at..]|
    ensures at + k <= |bytes| && bytes[at..][k..] == bytes[at + k..]
  {
  }

  /** The markup one turn of the loop meets. */
  method ReadMarkup(rest: seq<byte>) returns (r: Markup)
    requires |rest| > 0 && rest[0] == LT
    ensures r == MarkupAt(rest)
  {
    if COMMENT <= rest {
      var end := Find(rest[4..], COMMENT_END);
      return if end.None? then Nothing else Skip(4 + end.value + 3);
    }
    if INSTRUCTION <= rest {
      var end := Find(rest[2..], INSTRUCTION_END);
      return if end.None? then Nothing else Skip(2 + end.value + 2);
    }
    if DECLARATION <= rest {
      var end := DoctypeEnd(rest[2..]);
      return if end.None? then Nothing else Skip(2 + end.value);
    }
    if CLOSE <= rest { return Nothing; }
    var end := TagEnd(rest);
    return if end.None? then Nothing else Root(rest[1..end.value]);
  }

  /** Markup that is whole is the same markup with more of the file behind it. */
  lemma MarkupExtends(p: seq<byte>, q: seq<byte>)
    requires |p| > 0 && p[0] == LT && !MarkupAt(p).Nothing?
    ensures MarkupAt(p + q) == MarkupAt(p)
  {
    if COMMENT <= p {
      assert (p + q)[4..] == p[4..] + q;
      FindExtends(p[4..], q, COMMENT_END);
    } else if INSTRUCTION <= p {
      assert (p + q)[2..] == p[2..] + q;
      FindExtends(p[2..], q, INSTRUCTION_END);
    } else if DECLARATION <= p {
      assert (p + q)[2..] == p[2..] + q;
      DoctypeEndExtends(p[2..], q);
      NotAComment(p, q);
    } else {
      TagEndExtends(p, q);
      assert |p| >= 2 && (p + q)[1] == p[1];
      var k := FirstTagEnd(p, 1).value;
      assert (p + q)[1..k] == p[1..k];
    }
  }

  /** A whole doctype is no comment cut short: no proper beginning of `<!--` has a `>` in it. */
  lemma NotAComment(p: seq<byte>, q: seq<byte>)
    requires DECLARATION <= p && !(COMMENT <= p) && FirstDoctypeEnd(p[2..], 0).Some?
    ensures !(COMMENT <= p + q)
  {
    var k := FirstDoctypeEnd(p[2..], 0).value;
    assert p[2 + k] == GT;
    if |p| >= 4 {
      assert (p + q)[..4] == p[..4];
    } else {
      assert (p + q)[2] == GT;
    }
  }

  lemma {:induction false} RootTagExtends(p: seq<byte>, q: seq<byte>)
    requires RootTag(p).Some?
    ensures RootTag(p + q) == RootTag(p)
    decreases |p|
  {
    var k := Find(p, [LT]).value;
    FirstMarkupExtends(p, q, k);
    var markup := MarkupAt(p[k..]);
    assert MarkupAt((p + q)[k..]) == markup;
    if markup.Skip? {
      assert (p + q)[k..][markup.length..] == p[k..][markup.length..] + q;
      RootTagExtends(p[k..][markup.length..], q);
    }
  }

  lemma FirstMarkupExtends(p: seq<byte>, q: seq<byte>, k: nat)
    requires Find(p, [LT]) == Some(k)
    ensures p[k..] != [] && p[k..][0] == LT && (p + q)[k..] == p[k..] + q
    ensures Find(p + q, [LT]) == Some(k)
    ensures !MarkupAt(p[k..]).Nothing? ==> MarkupAt((p + q)[k..]) == MarkupAt(p[k..])
  {
    FindExtends(p, q, [LT]);
    assert p[k..k + 1] == [LT] && p[k..][0] == LT;
    assert (p + q)[k..] == p[k..] + q;
    if !MarkupAt(p[k..]).Nothing? { MarkupExtends(p[k..], q); }
  }

  // ── what the scan steps over ──

  /** What may stand before the root tag: text, a comment, a processing instruction, a doctype. */
  datatype Piece =
    | Blank(text: seq<byte>)
    | Comment(body: seq<byte>)
    | Instruction(body: seq<byte>)
    | Doctype(body: seq<byte>)

  /** Each piece ends where its kind ends and not before. */
  predicate WellFormed(piece: Piece) {
    match piece
    case Blank(text) => forall i | 0 <= i < |text| :: text[i] != LT
    case Comment(body) => Find(body + COMMENT_END, COMMENT_END) == Some(|body|)
    case Instruction(body) => Find(body + INSTRUCTION_END, INSTRUCTION_END) == Some(|body|)
    case Doctype(body) => FirstDoctypeEnd(body + [GT], 0) == Some(|body|) && !([0x2D, 0x2D] <= body)
  }

  function Written(piece: Piece): seq<byte> {
    match piece
    case Blank(text) => text
    case Comment(body) => COMMENT + (body + COMMENT_END)
    case Instruction(body) => INSTRUCTION + (body + INSTRUCTION_END)
    case Doctype(body) => DECLARATION + (body + [GT])
  }

  function Prolog(pieces: seq<Piece>): seq<byte> {
    if pieces == [] then [] else Written(pieces[0]) + Prolog(pieces[1..])
  }

  /** A tag's text: it does not start like other markup, and ends where its quotes say. */
  predicate IsTagText(tag: seq<byte>) {
    && tag != [] && tag[0] !in {0x21, 0x3F, SLASH}
    && FirstTagEnd([LT] + tag + [GT], 1) == Some(|tag| + 1)
  }

  lemma MarkupFirst(markup: seq<byte>)
    requires |markup| > 0 && markup[0] == LT
    ensures Find(markup, [LT]) == Some(0) && markup[0..] == markup
  {
    assert markup[0..1] == [LT];
    assert At(markup, 0, [LT]);
  }

  lemma CommentIsSkipped(body: seq<byte>)
    requires WellFormed(Comment(body))
    ensures var written := Written(Comment(body)); written[0] == LT && MarkupAt(written) == Skip(|written|)
  {
    assert Written(Comment(body))[4..] == body + COMMENT_END;
  }

  lemma InstructionIsSkipped(body: seq<byte>)
    requires WellFormed(Instruction(body))
    ensures var written := Written(Instruction(body)); written[0] == LT && MarkupAt(written) == Skip(|written|)
  {
    var written := Written(Instruction(body));
    assert written[2..] == body + INSTRUCTION_END;
    assert written[1] == 0x3F;
  }

  lemma DoctypeIsSkipped(body: seq<byte>)
    requires WellFormed(Doctype(body))
    ensures var written := Written(Doctype(body)); written[0] == LT && MarkupAt(written) == Skip(|written|)
  {
    var written := Written(Doctype(body));
    assert written[2..] == body + [GT];
    assert written[1] == 0x21;
    NoComment(body);
  }

  lemma NoComment(body: seq<byte>)
    requires !([0x2D, 0x2D] <= body)
    ensures !(COMMENT <= DECLARATION + (body + [GT]))
  {
    var written := DECLARATION + (body + [GT]);
    if |body| >= 2 {
      assert written[2] == body[0] && written[3] == body[1];
      assert body[..2] == [body[0], body[1]];
      assert written[2] != 0x2D || written[3] != 0x2D;
    } else {
      assert written[2 + |body|] == GT;
    }
  }

  /** A comment, an instruction or a doctype is stepped over whole. */
  lemma PieceIsSkipped(piece: Piece)
    requires WellFormed(piece) && !piece.Blank?
    ensures var written := Written(piece); written[0] == LT && MarkupAt(written) == Skip(|written|)
  {
    match piece
    case Comment(body) => CommentIsSkipped(body);
    case Instruction(body) => InstructionIsSkipped(body);
    case Doctype(body) => DoctypeIsSkipped(body);
  }

  /** The scan starts at the first markup. */
  lemma FromMarkup(bytes: seq<byte>, k: nat)
    requires Find(bytes, [LT]) == Some(k)
    ensures RootTag(bytes) == RootTag(bytes[k..])
  {
    OneByteAt(bytes, k);
    MarkupFirst(bytes[k..]);
  }

  lemma BlankIsSkipped(text: seq<byte>, rest: seq<byte>)
    requires forall i | 0 <= i < |text| :: text[i] != LT
    requires Find(rest, [LT]).Some?
    ensures RootTag(text + rest) == RootTag(rest)
  {
    var k := Find(rest, [LT]).value;
    BlankShift(text, rest, k);
    FromMarkup(text + rest, |text| + k);
    FromMarkup(rest, k);
    assert (text + rest)[|text| + k..] == rest[k..];
  }

  lemma BlankShift(text: seq<byte>, rest: seq<byte>, k: nat)
    requires forall i | 0 <= i < |text| :: text[i] != LT
    requires Find(rest, [LT]) == Some(k)
    ensures Find(text + rest, [LT]) == Some(|text| + k)
  {
    var whole := text + rest;
    OneByteAt(rest, k);
    OneByteAt(whole, |text| + k);
    forall j: nat | j < |text| + k ensures !At(whole, j, [LT]) {
      OneByteAt(whole, j);
      if j >= |text| { OneByteAt(rest, j - |text|); }
    }
  }

  lemma OneByteAt(bytes: seq<byte>, k: nat)
    ensures At(bytes, k, [LT]) <==> k < |bytes| && bytes[k] == LT
  {
    if k < |bytes| { assert bytes[k..k + 1] == [bytes[k]]; }
  }

  /** Whatever stands before it, the scan finds the root tag and nothing else. */
  lemma FindsTheRootTag(pieces: seq<Piece>, tag: seq<byte>, rest: seq<byte>)
    requires IsTagText(tag)
    requires forall i | 0 <= i < |pieces| :: WellFormed(pieces[i])
    ensures RootTag(Prolog(pieces) + ([LT] + tag + [GT] + rest)) == Some(tag)
  {
    RootIsFound(tag, rest);
    PrologIsPassed(pieces, [LT] + tag + [GT] + rest);
  }

  lemma {:induction false} PrologIsPassed(pieces: seq<Piece>, root: seq<byte>)
    requires RootTag(root).Some?
    requires forall i | 0 <= i < |pieces| :: WellFormed(pieces[i])
    ensures RootTag(Prolog(pieces) + root) == RootTag(root)
  {
    if pieces == [] {
      assert Prolog(pieces) + root == root;
    } else {
      PrologIsPassed(pieces[1..], root);
      Regroup(Written(pieces[0]), Prolog(pieces[1..]), root);
      PieceIsPassed(pieces[0], Prolog(pieces[1..]) + root);
    }
  }

  lemma Regroup(a: seq<byte>, b: seq<byte>, c: seq<byte>)
    ensures (a + b) + c == a + (b + c)
  {
  }

  lemma RootIsFound(tag: seq<byte>, rest: seq<byte>)
    requires IsTagText(tag)
    ensures RootTag([LT] + tag + [GT] + rest) == Some(tag)
  {
    var whole := [LT] + tag + [GT];
    MarkupFirst(whole + rest);
    assert whole[1] == tag[0] && whole[1..|tag| + 1] == tag;
    assert MarkupAt(whole) == Root(tag);
    MarkupExtends(whole, rest);
  }

  /** The scan goes on behind a piece as if it were not there. */
  lemma PieceIsPassed(piece: Piece, behind: seq<byte>)
    requires WellFormed(piece) && RootTag(behind).Some?
    ensures RootTag(Written(piece) + behind) == RootTag(behind)
  {
    if piece.Blank? {
      BlankIsSkipped(piece.text, behind);
    } else {
      PieceIsSkipped(piece);
      MarkupIsPassed(Written(piece), behind);
    }
  }

  lemma MarkupIsPassed(written: seq<byte>, behind: seq<byte>)
    requires written != [] && written[0] == LT && MarkupAt(written) == Skip(|written|)
    ensures RootTag(written + behind) == RootTag(behind)
  {
    MarkupExtends(written, behind);
    MarkupFirst(written + behind);
    assert (written + behind)[|written|..] == behind;
  }
}
