/** The customer cancellation reader of src/camt055.rs: three levels of context, each inherited by the one below. */
module Cancellation {
  import opened Options
  import opened Xml
  import opened TreeMachine

  /** A reason as one block states it; it counts as stated when it has a code or a text. */
  datatype Reason = Reason(code: Option<string>, info: seq<string>, originator: Option<string>)

  const NO_REASON := Reason(None, [], None)

  predicate Given(r: Reason) { r.code.Some? || r.info != [] }

  datatype Assignment = Assignment(
    id: Option<string>, created: Option<string>, assigner: Option<string>, assignee: Option<string>)

  const NO_ASSIGNMENT := Assignment(None, None, None, None)

  datatype Group = Group(
    id: Option<string>, cancellation: Option<string>, number: Option<string>,
    message: Option<string>, messageName: Option<string>, reason: Reason)

  const NO_GROUP := Group(None, None, None, None, None, NO_REASON)

  datatype Payment = Payment(
    id: Option<string>, cancellation: Option<string>,
    message: Option<string>, messageName: Option<string>, reason: Reason)

  const NO_PAYMENT := Payment(None, None, None, None, NO_REASON)

  /** A transaction block as it is deserialized: every reason block it states, and in `own` every column
      taken from the block alone. */
  datatype TxInf = TxInf(id: Option<string>, reasons: seq<Reason>, own: Stream)

  function FirstOf(values: seq<Option<string>>): Option<string> {
    if values == [] then None else OrElse(values[0], FirstOf(values[1..]))
  }

  function Codes(reasons: seq<Reason>): seq<Option<string>> {
    seq(|reasons|, i requires 0 <= i < |reasons| => reasons[i].code)
  }

  function Originators(reasons: seq<Reason>): seq<Option<string>> {
    seq(|reasons|, i requires 0 <= i < |reasons| => reasons[i].originator)
  }

  function Infos(reasons: seq<Reason>): seq<string> {
    if reasons == [] then [] else reasons[0].info + Infos(reasons[1..])
  }

  /** One reason out of several: the first code, every text, the first originator. */
  function Collapse(reasons: seq<Reason>): Reason {
    Reason(FirstOf(Codes(reasons)), Infos(reasons), FirstOf(Originators(reasons)))
  }

  datatype Scope = GROUP | PAYMENT_INFO | TRANSACTION

  datatype Row = Row(
    scope: Scope,
    assignment: Assignment,
    cancellationId: Option<string>,
    groupCancellation: Option<string>,
    originalNumberOfTxs: Option<string>,
    originalMsgId: Option<string>,
    originalMsgNameId: Option<string>,
    originalPaymentInfoId: Option<string>,
    reason: Reason,
    own: Option<Stream>)

  datatype State = State(
    path: seq<string>,
    assign: Assignment,
    grp: Group,
    pmt: Payment,
    sawRequest: bool,
    inRequest: Option<nat>)

  const INITIAL := State([], NO_ASSIGNMENT, NO_GROUP, NO_PAYMENT, false, None)

  // ── rows ──

  /** The reason of a transaction: its own, else its payment group's, else the underlying group's. */
  function Inherited(tx: TxInf, grp: Group, pmt: Payment): Reason {
    if tx.reasons != [] then Collapse(tx.reasons) else if Given(pmt.reason) then pmt.reason else grp.reason
  }

  function TxRow(tx: TxInf, a: Assignment, grp: Group, pmt: Payment): Row {
    Row(TRANSACTION, a, tx.id, None, None,
      OrElse(pmt.message, grp.message), OrElse(pmt.messageName, grp.messageName), pmt.id,
      Inherited(tx, grp, pmt), Some(tx.own))
  }

  function GroupRow(a: Assignment, grp: Group): Row {
    Row(GROUP, a, grp.id, grp.cancellation, grp.number, grp.message, grp.messageName, None, grp.reason, None)
  }

  function PaymentRow(a: Assignment, grp: Group, pmt: Payment): Row {
    Row(PAYMENT_INFO, a, pmt.cancellation, None, None,
      OrElse(pmt.message, grp.message), OrElse(pmt.messageName, grp.messageName), pmt.id,
      pmt.reason, None)
  }

  // ── the steps ──

  predicate IsRequest(name: string) { name == "CstmrPmtCxlReq" || "camt.055." <= name }

  function Push(st: State, name: string): State {
    var asked :=
      if IsRequest(name) then State(st.path, NO_ASSIGNMENT, NO_GROUP, NO_PAYMENT, true, Some(|st.path|)) else st;
    var underlying := if name == "Undrlyg" then asked.(grp := NO_GROUP, pmt := NO_PAYMENT) else asked;
    var payment := if name == "OrgnlPmtInfAndCxl" then underlying.(pmt := NO_PAYMENT) else underlying;
    payment.(path := st.path + [name])
  }

  function Pop(st: State): State {
    var path := if st.path == [] then [] else st.path[..|st.path| - 1];
    st.(path := path, inRequest := if st.inRequest == Some(|path|) then None else st.inRequest)
  }

  function Leave(st: State, name: string): Out<State, Row> {
    if st.inRequest.None? then Out(Pop(st), None)
    else if name == "OrgnlGrpInfAndCxl" then Out(Pop(st), Some(GroupRow(st.assign, st.grp)))
    else if name == "OrgnlPmtInfAndCxl" then
      Out(Pop(st).(pmt := NO_PAYMENT), Some(PaymentRow(st.assign, st.grp, st.pmt)))
    else Out(Pop(st), None)
  }

  /** The assignment's leaves; None where the text is none of them. */
  function AssignmentAfter(a: Assignment, path: seq<string>, text: string): Option<Assignment> {
    if EndsWith(path, ["Assgnmt", "Id"]) then Some(a.(id := Some(text)))
    else if EndsWith(path, ["Assgnmt", "CreDtTm"]) then Some(a.(created := Some(text)))
    else if NamesSide(path, "Assgnr") then Some(a.(assigner := Some(text)))
    else if FillsSide(path, "Assgnr") then Some(a.(assigner := OrElse(a.assigner, Some(text))))
    else if NamesSide(path, "Assgne") then Some(a.(assignee := Some(text)))
    else if FillsSide(path, "Assgne") then Some(a.(assignee := OrElse(a.assignee, Some(text))))
    else if EndsWith(path, ["Assgnmt", "Assgnr"]) then Some(a.(assigner := Some(text)))
    else if EndsWith(path, ["Assgnmt", "Assgne"]) then Some(a.(assignee := Some(text)))
    else None
  }

  predicate NamesSide(path: seq<string>, side: string) {
    || EndsWith(path, [side, "Agt", "FinInstnId", "BICFI"])
    || EndsWith(path, [side, "Agt", "FinInstnId", "BIC"])
    || EndsWith(path, [side, "Pty", "Nm"])
  }

  /** An id that only fills a gap. */
  predicate FillsSide(path: seq<string>, side: string) {
    || EndsWith(path, [side, "Agt", "FinInstnId", "ClrSysMmbId", "MmbId"])
    || EndsWith(path, [side, "Pty", "Id", "OrgId", "AnyBIC"])
    || EndsWith(path, [side, "Pty", "Id", "OrgId", "BICOrBEI"])
  }

  /** The leaves of a reason under some block. */
  datatype ReasonLeaf = Code | Info | Originator

  function ReasonLeafAt(path: seq<string>, block: string): Option<ReasonLeaf> {
    if EndsWith(path, [block, "CxlRsnInf", "Rsn", "Cd"]) then Some(Code)
    else if EndsWith(path, [block, "CxlRsnInf", "Rsn", "Prtry"]) then Some(Code)
    else if EndsWith(path, [block, "CxlRsnInf", "AddtlInf"]) then Some(Info)
    else if EndsWith(path, [block, "CxlRsnInf", "Orgtr", "Nm"]) then Some(Originator)
    else None
  }

  function ReasonAfter(r: Reason, leaf: ReasonLeaf, text: string): Reason {
    match leaf
    case Code => r.(code := OrElse(r.code, Some(text)))
    case Info => r.(info := r.info + [text])
    case Originator => r.(originator := Some(text))
  }

  datatype GroupLeaf =
    | GroupId | GroupCancellation | GroupNumber | GroupMessage | GroupMessageName
    | GroupReason(leaf: ReasonLeaf)

  function GroupLeafAt(path: seq<string>): Option<GroupLeaf> {
    if EndsWith(path, ["OrgnlGrpInfAndCxl", "GrpCxlId"]) then Some(GroupId)
    else if EndsWith(path, ["OrgnlGrpInfAndCxl", "GrpCxl"]) then Some(GroupCancellation)
    else if EndsWith(path, ["OrgnlGrpInfAndCxl", "NbOfTxs"]) then Some(GroupNumber)
    else if EndsWith(path, ["OrgnlGrpInfAndCxl", "OrgnlMsgId"]) then Some(GroupMessage)
    else if EndsWith(path, ["OrgnlGrpInfAndCxl", "OrgnlMsgNmId"]) then Some(GroupMessageName)
    else match ReasonLeafAt(path, "OrgnlGrpInfAndCxl") case None => None case Some(leaf) => Some(GroupReason(leaf))
  }

  function GroupAfter(g: Group, leaf: GroupLeaf, text: string): Group {
    match leaf
    case GroupId => g.(id := Some(text))
    case GroupCancellation => g.(cancellation := Some(text))
    case GroupNumber => g.(number := Some(text))
    case GroupMessage => g.(message := Some(text))
    case GroupMessageName => g.(messageName := Some(text))
    case GroupReason(r) => g.(reason := ReasonAfter(g.reason, r, text))
  }

  datatype PaymentLeaf =
    | PaymentId | PaymentCancellation | PaymentMessage | PaymentMessageName
    | PaymentReason(leaf: ReasonLeaf)

  function PaymentLeafAt(path: seq<string>): Option<PaymentLeaf> {
    if EndsWith(path, ["OrgnlPmtInfAndCxl", "OrgnlPmtInfId"]) then Some(PaymentId)
    else if EndsWith(path, ["OrgnlPmtInfAndCxl", "PmtInfCxlId"]) then Some(PaymentCancellation)
    else if EndsWith(path, ["OrgnlPmtInfAndCxl", "OrgnlGrpInf", "OrgnlMsgId"]) then Some(PaymentMessage)
    else if EndsWith(path, ["OrgnlPmtInfAndCxl", "OrgnlGrpInf", "OrgnlMsgNmId"]) then Some(PaymentMessageName)
    else match ReasonLeafAt(path, "OrgnlPmtInfAndCxl") case None => None case Some(leaf) => Some(PaymentReason(leaf))
  }

  function PaymentAfter(p: Payment, leaf: PaymentLeaf, text: string): Payment {
    match leaf
    case PaymentId => p.(id := Some(text))
    case PaymentCancellation => p.(cancellation := Some(text))
    case PaymentMessage => p.(message := Some(text))
    case PaymentMessageName => p.(messageName := Some(text))
    case PaymentReason(r) => p.(reason := ReasonAfter(p.reason, r, text))
  }

  /** Which level a text speaks to. */
  datatype Leaf = OfAssignment | OfGroup(group: GroupLeaf) | OfPayment(payment: PaymentLeaf)

  function LeafAt(path: seq<string>): Option<Leaf> {
    if AssignmentAfter(NO_ASSIGNMENT, path, "").Some? then Some(OfAssignment)
    else
      match GroupLeafAt(path)
      case Some(leaf) => Some(OfGroup(leaf))
      case None => match PaymentLeafAt(path) case Some(leaf) => Some(OfPayment(leaf)) case None => None
  }

  function Capture(st: State, text: string): State {
    match AssignmentAfter(st.assign, st.path, text)
    case Some(assign) => st.(assign := assign)
    case None =>
      match LeafAt(st.path)
      case Some(OfGroup(leaf)) => st.(grp := GroupAfter(st.grp, leaf, text))
      case Some(OfPayment(leaf)) => st.(pmt := PaymentAfter(st.pmt, leaf, text))
      case _ => st
  }

  function EndOfInput(st: State): Ending {
    if st.path != [] then CutShort else if st.sawRequest then Finished else WrongFile
  }

  /** `parse` is the deserializer of one transaction block. */
  function Reader(parse: Stream -> TxInf): Machine<State, Row> {
    Machine(
      (st: State, name: string) => name == "TxInf" && st.inRequest.Some?,
      (st: State, name: string, body: Stream) => Out(st, Some(TxRow(parse(body), st.assign, st.grp, st.pmt))),
      (st: State, name: string, binds: Option<string>) => Push(st, name),
      (st: State, name: string, binds: Option<string>) => Out(st, None),
      (st: State, text: string) => Capture(st, text),
      (st: State, name: string) => Leave(st, name),
      EndOfInput)
  }

  lemma ReaderTracksDepth(parse: Stream -> TxInf)
    ensures TracksDepth(Reader(parse), (st: State) => |st.path|)
  {
  }

  /** A file cut inside its document is refused. */
  lemma CutRequestIsRefused(parse: Stream -> TxInf, f: Forest, s: Stream)
    requires Rooted(f)
    requires Prefix(s, Onto(f, Eof)) && Prolog(f) < Length(s) < Prolog(f) + RootLength(f)
    ensures Drain(Reader(parse), INITIAL, s).ending == CutShort
  {
    ReaderTracksDepth(parse);
    CutDocumentIsRefused(Reader(parse), (st: State) => |st.path|, INITIAL, f, s);
  }
}
