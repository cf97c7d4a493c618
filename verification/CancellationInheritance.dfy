/** What a cancellation row inherits: which texts, of which level, and where a level's scope ends. */
module CancellationInheritance {
  import opened Options
  import opened Xml
  import opened TreeMachine
  import opened Cancellation
  import opened CancellationScopes

  // ── a level's columns are the last texts it heard ──

  /** The latest text at a leaf. */
  function Last<L(==)>(t: Texts<L>, leaf: L): Option<string> {
    match t
    case Silent => None
    case Spoke(l, text, _, earlier) => if l == leaf then Some(text) else Last(earlier, leaf)
  }

  lemma {:induction false} GroupMeaning(t: Texts<GroupLeaf>)
    ensures var g := GroupOf(t);
      && g.id == Last(t, GroupId) && g.cancellation == Last(t, GroupCancellation) && g.number == Last(t, GroupNumber)
      && g.message == Last(t, GroupMessage) && g.messageName == Last(t, GroupMessageName)
  {
    if t.Spoke? { GroupMeaning(t.earlier); }
  }

  lemma {:induction false} PaymentMeaning(t: Texts<PaymentLeaf>)
    ensures var p := PaymentOf(t);
      && p.id == Last(t, PaymentId) && p.cancellation == Last(t, PaymentCancellation)
      && p.message == Last(t, PaymentMessage) && p.messageName == Last(t, PaymentMessageName)
  {
    if t.Spoke? { PaymentMeaning(t.earlier); }
  }

  /** The references of a row below a group: the last text its payment group named, else the last its
      group named, else none. */
  predicate Refers(row: Row, group: Texts<GroupLeaf>, payment: Texts<PaymentLeaf>) {
    && row.originalMsgId == OrElse(Last(payment, PaymentMessage), Last(group, GroupMessage))
    && row.originalMsgNameId == OrElse(Last(payment, PaymentMessageName), Last(group, GroupMessageName))
    && row.originalPaymentInfoId == Last(payment, PaymentId)
  }

  /** So for transactions and for payment groups; a group's row has the last texts of its level. */
  lemma RowsRefer(tx: TxInf, a: Assignment, group: Texts<GroupLeaf>, payment: Texts<PaymentLeaf>)
    ensures var row := GroupRow(a, GroupOf(group));
      && row.originalMsgId == Last(group, GroupMessage) && row.originalMsgNameId == Last(group, GroupMessageName)
      && row.cancellationId == Last(group, GroupId) && row.groupCancellation == Last(group, GroupCancellation)
      && row.originalNumberOfTxs == Last(group, GroupNumber) && row.originalPaymentInfoId.None?
      && row.scope == GROUP && row.assignment == a && row.own.None?
    ensures var row := PaymentRow(a, GroupOf(group), PaymentOf(payment));
      && row.scope == PAYMENT_INFO && row.assignment == a && row.own.None?
      && row.cancellationId == Last(payment, PaymentCancellation)
      && row.groupCancellation.None? && row.originalNumberOfTxs.None?
    ensures var row := TxRow(tx, a, GroupOf(group), PaymentOf(payment));
      && row.scope == TRANSACTION && row.assignment == a && row.own == Some(tx.own) && row.cancellationId == tx.id
      && row.groupCancellation.None? && row.originalNumberOfTxs.None?
    ensures Refers(TxRow(tx, a, GroupOf(group), PaymentOf(payment)), group, payment)
    ensures Refers(PaymentRow(a, GroupOf(group), PaymentOf(payment)), group, payment)
  {
    GroupMeaning(group);
    PaymentMeaning(payment);
  }

  // ── boundaries ──

  /** The rows of a request owe nothing to what came before it. */
  lemma RequestStartsOver(parse: Stream -> TxInf, a: State, b: State, f: Forest)
    requires f.Elem? && IsRequest(f.name) && f.name != "TxInf" && a.path == b.path
    ensures WalkNode(Reader(parse), a, f) == WalkNode(Reader(parse), b, f)
  {
  }

  /** The rows of an Undrlyg owe nothing to the groups and payment groups before it. */
  lemma UndrlygStartsOver(parse: Stream -> TxInf, a: State, b: State, f: Forest)
    requires f.Elem? && f.name == "Undrlyg"
    requires b == a.(grp := b.grp, pmt := b.pmt)
    ensures WalkNode(Reader(parse), a, f) == WalkNode(Reader(parse), b, f)
  {
  }

  /** The rows of a payment group owe nothing to the payment group before it. */
  lemma PaymentGroupStartsOver(parse: Stream -> TxInf, a: State, b: State, f: Forest)
    requires f.Elem? && f.name == "OrgnlPmtInfAndCxl"
    requires b == a.(pmt := b.pmt)
    ensures WalkNode(Reader(parse), a, f) == WalkNode(Reader(parse), b, f)
  {
  }

  // ── inside an Undrlyg everything is its own ──

  function AskedAfter(f: Forest, asked: bool): bool
    decreases f
  {
    match f
    case Nil => asked
    case Elem(name, _, kids, next) =>
      AskedAfter(next,
        if name == "TxInf" && asked then asked else AskedAfter(kids, asked || IsRequest(name)) && !IsRequest(name))
    case Closed(_, _, next) => AskedAfter(next, asked)
    case Chars(_, next) => AskedAfter(next, asked)
    case Noise(next) => AskedAfter(next, asked)
  }

  predicate IsBlock(name: string) { name == "OrgnlGrpInfAndCxl" || name == "OrgnlPmtInfAndCxl" }

  /** In a request, every block and every transaction lies in an Undrlyg, and no Undrlyg or request in one. */
  predicate WellPlaced(f: Forest, inside: bool, asked: bool)
    decreases f
  {
    match f
    case Nil => true
    case Elem(name, _, kids, next) =>
      if name == "TxInf" && asked then inside && WellPlaced(next, inside, asked)
      else
        && (asked && IsBlock(name) ==> inside)
        && (inside ==> name != "Undrlyg" && !IsRequest(name))
        && WellPlaced(kids, inside || (asked && name == "Undrlyg"), asked || IsRequest(name))
        && WellPlaced(next, inside, AskedAfter(kids, asked || IsRequest(name)) && !IsRequest(name))
    case Closed(_, _, next) => WellPlaced(next, inside, asked)
    case Chars(_, next) => WellPlaced(next, inside, asked)
    case Noise(next) => WellPlaced(next, inside, asked)
  }

  lemma {:induction false} TellAsks(
      parse: Stream -> TxInf, ends: bool, path: seq<string>, block: nat, f: Forest, h: Heard)
    ensures Tell(parse, ends, path, block, f, h).heard.asked == AskedAfter(f, h.asked)
    decreases f
  {
    if !f.Nil? {
      if f.Elem? && !IsTx(f.name, h) {
        var begun := Opened(h, f.name);
        TellAsks(parse, ends, path + [f.name], BlockIn(f.name, block, begun), f.kids, begun);
      }
      TellAsks(parse, ends, path, block, f.next, TellNode(parse, ends, path, block, f, h).heard);
    }
  }

  /** Two hearings that differ at most in what the groups heard, and inside an Undrlyg not in that. */
  predicate Agree(h: Heard, k: Heard, inside: bool) {
    && h.assign == k.assign && h.asked == k.asked && h.saw == k.saw && h.blocks == k.blocks
    && (inside ==> h == k && h.asked)
  }

  lemma {:induction false} SameRows(
      parse: Stream -> TxInf, path: seq<string>, block: nat, f: Forest, h: Heard, k: Heard, inside: bool)
    requires Agree(h, k, inside) && WellPlaced(f, inside, h.asked)
    ensures var a, b := Tell(parse, false, path, block, f, h), Tell(parse, true, path, block, f, k);
      a.rows == b.rows && Agree(a.heard, b.heard, inside)
    decreases f, 1
  {
    if !f.Nil? {
      SameNodeRows(parse, path, block, f, h, k, inside);
      var one, other := TellNode(parse, false, path, block, f, h), TellNode(parse, true, path, block, f, k);
      SameRows(parse, path, block, f.next, one.heard, other.heard, inside);
    }
  }

  lemma {:induction false} SameNodeRows(
      parse: Stream -> TxInf, path: seq<string>, block: nat, f: Forest, h: Heard, k: Heard, inside: bool)
    requires Agree(h, k, inside) && WellPlaced(f, inside, h.asked) && !f.Nil?
    ensures var a, b := TellNode(parse, false, path, block, f, h), TellNode(parse, true, path, block, f, k);
      a.rows == b.rows && Agree(a.heard, b.heard, inside) && WellPlaced(f.next, inside, a.heard.asked)
    decreases f, 0
  {
    if f.Elem? && !IsTx(f.name, h) {
      var begun, other := Opened(h, f.name), Opened(k, f.name);
      var within := inside || (h.asked && f.name == "Undrlyg");
      OpenedAgree(f.name, h, k, inside);
      SameRows(parse, path + [f.name], BlockIn(f.name, block, begun), f.kids, begun, other, within);
      SameElement(parse, path, block, f, h, k, inside,
        Tell(parse, false, path + [f.name], BlockIn(f.name, block, begun), f.kids, begun),
        Tell(parse, true, path + [f.name], BlockIn(f.name, block, begun), f.kids, other));
    }
  }

  /** An element opens alike in two hearings; what an Undrlyg starts over need not agree before. */
  lemma OpenedAgree(name: string, h: Heard, k: Heard, inside: bool)
    requires Agree(h, k, inside) && (inside ==> name != "Undrlyg" && !IsRequest(name))
    ensures Agree(Opened(h, name), Opened(k, name), inside || (h.asked && name == "Undrlyg"))
    ensures BlockIn(name, 0, Opened(h, name)) == BlockIn(name, 0, Opened(k, name))
    ensures Opened(h, name).asked == (h.asked || IsRequest(name))
  {
  }

  lemma SameElement(
      parse: Stream -> TxInf, path: seq<string>, block: nat, f: Forest, h: Heard, k: Heard, inside: bool,
      inner: Told, other: Told)
    requires Agree(h, k, inside) && WellPlaced(f, inside, h.asked) && f.Elem? && !IsTx(f.name, h)
    requires var begun := Opened(h, f.name);
      && begun.asked == (h.asked || IsRequest(f.name)) && begun.blocks == Opened(k, f.name).blocks
      && inner == Tell(parse, false, path + [f.name], BlockIn(f.name, block, begun), f.kids, begun)
      && other == Tell(parse, true, path + [f.name], BlockIn(f.name, block, begun), f.kids, Opened(k, f.name))
    requires inner.rows == other.rows && Agree(inner.heard, other.heard, inside || (h.asked && f.name == "Undrlyg"))
    ensures var a, b := TellNode(parse, false, path, block, f, h), TellNode(parse, true, path, block, f, k);
      a.rows == b.rows && Agree(a.heard, b.heard, inside) && WellPlaced(f.next, inside, a.heard.asked)
  {
    var begun := Opened(h, f.name);
    TellAsks(parse, false, path + [f.name], BlockIn(f.name, block, begun), f.kids, begun);
    NotAskedInside(f.kids);
    assert IsBlock(f.name) ==> !IsRequest(f.name) by { BlocksAreNoRequests(); }
    SameEnd(f.name, inner.heard, other.heard, inside, inside || (h.asked && f.name == "Undrlyg"), h.asked);
  }

  /** A request is over at its end: none is open behind content that had none open ahead of it. */
  lemma {:induction false} NotAskedInside(f: Forest)
    ensures !AskedAfter(f, false)
    decreases f
  {
    match f
    case Nil =>
    case Elem(name, _, kids, next) =>
      if !IsRequest(name) { NotAskedInside(kids); }
      NotAskedInside(next);
    case Closed(_, _, next) => NotAskedInside(next);
    case Chars(_, next) => NotAskedInside(next);
    case Noise(next) => NotAskedInside(next);
  }

  lemma BlocksAreNoRequests()
    ensures !IsRequest("OrgnlGrpInfAndCxl") && !IsRequest("OrgnlPmtInfAndCxl")
  {
    assert "OrgnlPmtInfAndCxl"[0] == 'O' && "OrgnlGrpInfAndCxl"[0] == 'O' && "camt.055."[0] == 'c';
  }

  /** An element's end hands out the same row and leaves the two hearings agreeing as before it. */
  lemma SameEnd(name: string, h: Heard, k: Heard, inside: bool, within: bool, asked: bool)
    requires Agree(h, k, within) && within == (inside || (asked && name == "Undrlyg"))
    requires inside ==> name != "Undrlyg" && !IsRequest(name)
    requires h.asked && IsBlock(name) ==> inside
    ensures EndRow(name, h) == EndRow(name, k) && Agree(Ended(h, name, false), Ended(k, name, true), inside)
  {
  }

  /** In a file whose blocks and transactions lie in Undrlyg, each row inherits from the payment group
      around it and the Undrlyg around that, and from nothing else: the rows are the same if every
      Undrlyg takes what it heard with it at its end. */
  lemma InheritsFromAround(parse: Stream -> TxInf, f: Forest)
    requires WellPlaced(f, false, false)
    ensures Drain(Reader(parse), INITIAL, Onto(f, Eof)).rows == Tell(parse, true, [], 0, f, NOTHING_HEARD).rows
  {
    DrainIsTold(parse, f);
    SameRows(parse, [], 0, f, NOTHING_HEARD, NOTHING_HEARD, false);
  }

  // ── outside a payment group ──

  predicate NoRequest(f: Forest) {
    match f
    case Nil => true
    case Elem(name, _, kids, next) => !IsRequest(name) && NoRequest(kids) && NoRequest(next)
    case Closed(_, _, next) => NoRequest(next)
    case Chars(_, next) => NoRequest(next)
    case Noise(next) => NoRequest(next)
  }

  lemma EndsInside(path: seq<string>, outer: string, suffix: seq<string>)
    requires outer !in path && suffix != [] && suffix[0] == outer
    ensures !EndsWith(path, suffix)
  {
    assert |path| >= |suffix| ==> path[|path| - |suffix|..][0] in path;
  }

  lemma PaymentLeavesLieInside(path: seq<string>)
    requires "OrgnlPmtInfAndCxl" !in path
    ensures PaymentLeafAt(path).None?
  {
    var outer := "OrgnlPmtInfAndCxl";
    EndsInside(path, outer, [outer, "OrgnlPmtInfId"]);
    EndsInside(path, outer, [outer, "PmtInfCxlId"]);
    EndsInside(path, outer, [outer, "OrgnlGrpInf", "OrgnlMsgId"]);
    EndsInside(path, outer, [outer, "OrgnlGrpInf", "OrgnlMsgNmId"]);
    ReasonLeavesLieInside(path, outer);
  }

  lemma ReasonLeavesLieInside(path: seq<string>, outer: string)
    requires outer !in path
    ensures ReasonLeafAt(path, outer).None?
  {
    EndsInside(path, outer, [outer, "CxlRsnInf", "Rsn", "Cd"]);
    EndsInside(path, outer, [outer, "CxlRsnInf", "Rsn", "Prtry"]);
    EndsInside(path, outer, [outer, "CxlRsnInf", "AddtlInf"]);
    EndsInside(path, outer, [outer, "CxlRsnInf", "Orgtr", "Nm"]);
  }

  /** In a request and in no payment group, nothing is heard for one: a transaction there inherits from no
      payment group, whichever came before. */
  lemma {:induction false} NoPaymentAround(
      parse: Stream -> TxInf, ends: bool, path: seq<string>, block: nat, f: Forest, h: Heard)
    requires h.asked && h.payment.Silent? && "OrgnlPmtInfAndCxl" !in path && NoRequest(f)
    ensures var t := Tell(parse, ends, path, block, f, h); t.heard.payment.Silent? && t.heard.asked
    decreases f
  {
    if !f.Nil? {
      match f
      case Elem(name, _, kids, _) =>
        if !IsTx(name, h) {
          var begun := Opened(h, name);
          TellAsks(parse, ends, path + [name], BlockIn(name, block, begun), kids, begun);
          StillAsked(kids);
          if name != "OrgnlPmtInfAndCxl" {
            NoPaymentAround(parse, ends, path + [name], BlockIn(name, block, begun), kids, begun);
          }
        }
        NoPaymentAround(parse, ends, path, block, f.next, TellNode(parse, ends, path, block, f, h).heard);
      case Chars(text, next) =>
        PaymentLeavesLieInside(path);
        NoPaymentAround(parse, ends, path, block, next, Hears(h, path, block, text));
      case Closed(_, _, next) => NoPaymentAround(parse, ends, path, block, next, h);
      case Noise(next) => NoPaymentAround(parse, ends, path, block, next, h);
    }
  }

  lemma {:induction false} StillAsked(f: Forest)
    requires NoRequest(f)
    ensures AskedAfter(f, true)
  {
    match f
    case Nil =>
    case Elem(_, _, kids, next) =>
      StillAsked(kids);
      StillAsked(next);
    case _ => StillAsked(f.next);
  }

  // ── a transaction in no Undrlyg ──

  predicate Speaks<L(==)>(t: Texts<L>, leaf: L) { t.Spoke? && (t.leaf == leaf || Speaks(t.earlier, leaf)) }

  /** No inherited column has anything in it. */
  predicate InheritsNothing(row: Row, tx: TxInf) {
    && row.originalMsgId.None? && row.originalMsgNameId.None? && row.originalPaymentInfoId.None?
    && (tx.reasons == [] ==> row.reason == NO_REASON)
  }

  /** Nothing was said that a transaction takes over: no message, no payment group, and for a transaction
      without a reason of its own no reason of a group and no code or text of a payment group. */
  predicate NothingToInherit(tx: TxInf, group: Texts<GroupLeaf>, payment: Texts<PaymentLeaf>) {
    && !Speaks(group, GroupMessage) && !Speaks(group, GroupMessageName)
    && !Speaks(payment, PaymentMessage) && !Speaks(payment, PaymentMessageName) && !Speaks(payment, PaymentId)
    && (tx.reasons == [] ==>
        && !Speaks(group, GroupReason(Code)) && !Speaks(group, GroupReason(Info))
        && !Speaks(group, GroupReason(Originator))
        && !Speaks(payment, PaymentReason(Code)) && !Speaks(payment, PaymentReason(Info)))
  }

  lemma {:induction false} SpeaksIsLast<L>(t: Texts<L>, leaf: L)
    ensures Speaks(t, leaf) <==> Last(t, leaf).Some?
  {
    if t.Spoke? { SpeaksIsLast(t.earlier, leaf); }
  }

  lemma {:induction false} GroupReasonIsSpoken(t: Texts<GroupLeaf>)
    ensures var r := GroupOf(t).reason;
      && (r.code.Some? <==> Speaks(t, GroupReason(Code)))
      && (r.info != [] <==> Speaks(t, GroupReason(Info)))
      && (r.originator.Some? <==> Speaks(t, GroupReason(Originator)))
  {
    if t.Spoke? { GroupReasonIsSpoken(t.earlier); }
  }

  lemma {:induction false} PaymentReasonIsSpoken(t: Texts<PaymentLeaf>)
    ensures var r := PaymentOf(t).reason;
      && (r.code.Some? <==> Speaks(t, PaymentReason(Code)))
      && (r.info != [] <==> Speaks(t, PaymentReason(Info)))
  {
    if t.Spoke? { PaymentReasonIsSpoken(t.earlier); }
  }

  /** Wherever a transaction stands, it inherits nothing exactly where nothing was said since the last
      Undrlyg, payment group or request started that it takes over. */
  lemma InheritsExactly(tx: TxInf, a: Assignment, group: Texts<GroupLeaf>, payment: Texts<PaymentLeaf>)
    ensures InheritsNothing(TxRow(tx, a, GroupOf(group), PaymentOf(payment)), tx)
      <==> NothingToInherit(tx, group, payment)
  {
    RowsRefer(tx, a, group, payment);
    SpeaksIsLast(group, GroupMessage);
    SpeaksIsLast(group, GroupMessageName);
    SpeaksIsLast(payment, PaymentMessage);
    SpeaksIsLast(payment, PaymentMessageName);
    SpeaksIsLast(payment, PaymentId);
    GroupReasonIsSpoken(group);
    PaymentReasonIsSpoken(payment);
  }

  /** A transaction in a request and in no Undrlyg: what the last Undrlyg said still counts, and it inherits
      nothing exactly where that Undrlyg, and what stands between, said nothing to inherit. */
  lemma TransactionBehindAnUndrlyg(
      parse: Stream -> TxInf, path: seq<string>, block: nat, undrlyg: Forest, h: Heard, body: Forest,
      binds: Option<string>, between: Forest, after: Forest)
    requires h.asked && "OrgnlPmtInfAndCxl" !in path
    requires undrlyg.Elem? && undrlyg.name == "Undrlyg" && NoRequest(undrlyg.kids)
    requires NoRequest(between) && NoUndrlyg(between)
    ensures var inside := Tell(parse, false, path + ["Undrlyg"], block, undrlyg.kids, Opened(h, "Undrlyg")).heard;
      var last := Tell(parse, false, path, block, between, inside).heard;
      var tx := parse(Body("TxInf", body));
      var row := TxRow(tx, last.assign, GroupOf(last.group), NO_PAYMENT);
      && last == Tell(parse, false, path, block, between, TellNode(parse, false, path, block, undrlyg, h).heard).heard
      && TellNode(parse, false, path, block, Elem("TxInf", binds, body, after), last).rows == [row]
      && (InheritsNothing(row, tx) <==> NothingToInherit(tx, last.group, Silent))
      && Continues(inside.group, last.group)
  {
    var begun := Opened(h, "Undrlyg");
    var inside := Tell(parse, false, path + ["Undrlyg"], block, undrlyg.kids, begun).heard;
    NoPaymentAround(parse, false, path + ["Undrlyg"], block, undrlyg.kids, begun);
    assert !IsRequest("Undrlyg") by { assert "Undrlyg"[0] == 'U' && "camt.055."[0] == 'c'; }
    assert Ended(inside, "Undrlyg", false) == inside;
    NoPaymentAround(parse, false, path, block, between, inside);
    Continuing(parse, path, block, between, inside);
    var last := Tell(parse, false, path, block, between, inside).heard;
    InheritsExactly(parse(Body("TxInf", body)), last.assign, last.group, Silent);
  }

  predicate NoUndrlyg(f: Forest) {
    match f
    case Nil => true
    case Elem(name, _, kids, next) => name != "Undrlyg" && NoUndrlyg(kids) && NoUndrlyg(next)
    case Closed(_, _, next) => NoUndrlyg(next)
    case Chars(_, next) => NoUndrlyg(next)
    case Noise(next) => NoUndrlyg(next)
  }

  /** The later texts are the earlier ones and what was said since. */
  predicate Continues<L(==)>(earlier: Texts<L>, later: Texts<L>) {
    later == earlier || (later.Spoke? && Continues(earlier, later.earlier))
  }

  lemma {:induction false} ContinuesOn<L>(a: Texts<L>, b: Texts<L>, c: Texts<L>)
    requires Continues(a, b) && Continues(b, c)
    ensures Continues(a, c)
  {
    if c != b { ContinuesOn(a, b, c.earlier); }
  }

  lemma {:induction false} Continuing(parse: Stream -> TxInf, path: seq<string>, block: nat, f: Forest, h: Heard)
    requires NoRequest(f) && NoUndrlyg(f)
    ensures Continues(h.group, Tell(parse, false, path, block, f, h).heard.group)
    decreases f
  {
    if !f.Nil? {
      var one := TellNode(parse, false, path, block, f, h);
      if f.Elem? && !IsTx(f.name, h) {
        var begun := Opened(h, f.name);
        Continuing(parse, path + [f.name], BlockIn(f.name, block, begun), f.kids, begun);
      }
      Continuing(parse, path, block, f.next, one.heard);
      ContinuesOn(h.group, one.heard.group, Tell(parse, false, path, block, f, h).heard.group);
    }
  }
}
