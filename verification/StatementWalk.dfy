/**
  The statement walk of src/camt.rs as a step machine over the event stream:
  which containers it opens, which of their children it hands out, and what
  context it hands out beside them.
*/
module StatementWalk {
  import opened Options
  import opened Xml
  import opened TreeMachine

  /** The three instances of the record trait. */
  datatype Grain = Entries | Balances | Statements

  function Tag(g: Grain): string {
    match g case Entries => "Ntry" case Balances => "Bal" case Statements => ""
  }

  function Skipped(g: Grain): string {
    match g case Entries => "Bal" case Balances => "Ntry" case Statements => ""
  }

  predicate EmptyIsRecord(g: Grain) { g.Balances? }

  predicate StatementRows(g: Grain) { g.Statements? }

  predicate IsStatement(name: string) {
    name == "Rpt" || name == "Stmt" || name == "Ntfctn"
  }

  // ── message identity ──

  function KnownFamily(family: Option<string>): Option<string> {
    if family == Some("camt.052") || family == Some("camt.053") || family == Some("camt.054") then family else None
  }

  predicate Digit(c: char) { '0' <= c <= '9' }

  /** `BkToCstmrStmtV01` is `BkToCstmrStmt`. */
  function StripVersionSuffix(name: string): string {
    var n := |name|;
    if n > 3 && name[n - 3] == 'V' && Digit(name[n - 2]) && Digit(name[n - 1]) then name[..n - 3] else name
  }

  /** `aaaa.nnn.nnn.nn`, the whole text and nothing around it. */
  predicate IsIdentifier(s: string) {
    && |s| == 15
    && (forall i | 0 <= i < 4 :: 'a' <= s[i] <= 'z')
    && s[4] == '.' && s[8] == '.' && s[12] == '.'
    && (forall i | 5 <= i < 15 && i != 8 && i != 12 :: Digit(s[i]))
  }

  function StatementFamily(name: string): Option<string> {
    var container := StripVersionSuffix(name);
    if container == "BkToCstmrAcctRpt" then Some("camt.052")
    else if container == "BkToCstmrStmt" then Some("camt.053")
    else if container == "BkToCstmrDbtCdtNtfctn" then Some("camt.054")
    else if IsIdentifier(name) then KnownFamily(Some(name[..8]))
    else None
  }

  function MessageDefinition(text: string): Option<string> {
    if IsIdentifier(text) && text[..5] != "head." then Some(text[..8]) else None
  }

  // ── the context a row repeats ──

  datatype Field =
    | StatementId | AccountIban | AccountCurrency
    | ElectronicSequence | LegalSequence | StatementCreated | FromDate | ToDate
    | CopyDuplicate | PageNumber | LastPage | AccountOwnerName | AccountServicerBic
    | SummaryEntries | SummarySum | SummaryNetAmount | SummaryNetCreditDebit
    | SummaryCreditEntries | SummaryCreditSum | SummaryDebitEntries | SummaryDebitSum

  datatype MessageField = MsgId | MessageCreated | MessagePage | MessageLastPage

  /** Where a text goes, and whether it replaces what is already there. */
  datatype Slot = Slot(field: Field, overwrites: bool)

  /** The field that owns a path below the statement. */
  function SlotAt(below: seq<string>): Option<Slot> {
    if below == ["Id"] then Some(Slot(StatementId, true))
    else if below == ["Acct", "Ccy"] then Some(Slot(AccountCurrency, true))
    else if below == ["Acct", "Id", "IBAN"] then Some(Slot(AccountIban, true))
    else if below == ["Acct", "Id", "Othr", "Id"] then Some(Slot(AccountIban, false))
    else if below == ["ElctrncSeqNb"] then Some(Slot(ElectronicSequence, true))
    else if below == ["LglSeqNb"] then Some(Slot(LegalSequence, true))
    else if below == ["CreDtTm"] then Some(Slot(StatementCreated, true))
    else if below == ["FrToDt", "FrDtTm"] then Some(Slot(FromDate, true))
    else if below == ["FrToDt", "ToDtTm"] then Some(Slot(ToDate, true))
    else if below == ["CpyDplctInd"] then Some(Slot(CopyDuplicate, true))
    else if below == ["StmtPgntn", "PgNb"] then Some(Slot(PageNumber, true))
    else if below == ["StmtPgntn", "LastPgInd"] then Some(Slot(LastPage, true))
    else if below == ["Acct", "Ownr", "Nm"] then Some(Slot(AccountOwnerName, true))
    else if below == ["Acct", "Svcr", "FinInstnId", "BICFI"] then Some(Slot(AccountServicerBic, true))
    else if below == ["Acct", "Svcr", "FinInstnId", "BIC"] then Some(Slot(AccountServicerBic, true))
    else if below == ["TxsSummry", "TtlNtries", "NbOfNtries"] then Some(Slot(SummaryEntries, true))
    else if below == ["TxsSummry", "TtlNtries", "Sum"] then Some(Slot(SummarySum, true))
    else if below == ["TxsSummry", "TtlNtries", "TtlNetNtry", "Amt"] then Some(Slot(SummaryNetAmount, true))
    else if below == ["TxsSummry", "TtlNtries", "TtlNetNtry", "CdtDbtInd"] then Some(Slot(SummaryNetCreditDebit, true))
    else if below == ["TxsSummry", "TtlCdtNtries", "NbOfNtries"] then Some(Slot(SummaryCreditEntries, true))
    else if below == ["TxsSummry", "TtlCdtNtries", "Sum"] then Some(Slot(SummaryCreditSum, true))
    else if below == ["TxsSummry", "TtlDbtNtries", "NbOfNtries"] then Some(Slot(SummaryDebitEntries, true))
    else if below == ["TxsSummry", "TtlDbtNtries", "Sum"] then Some(Slot(SummaryDebitSum, true))
    else None
  }

  function MessageSlotAt(path: seq<string>): Option<MessageField> {
    if EndsWith(path, ["GrpHdr", "MsgId"]) then Some(MsgId)
    else if EndsWith(path, ["GrpHdr", "CreDtTm"]) then Some(MessageCreated)
    else if EndsWith(path, ["GrpHdr", "MsgPgntn", "PgNb"]) then Some(MessagePage)
    else if EndsWith(path, ["GrpHdr", "MsgPgntn", "LastPgInd"]) then Some(MessageLastPage)
    else None
  }

  /** The tables the walk looks names up in. The walk treats every table the same way, so what is
      proved of it is proved for all of them; `ISO` is the one it is built with. */
  datatype Names = Names(
    slot: seq<string> -> Option<Slot>,
    messageSlot: seq<string> -> Option<MessageField>,
    family: string -> Option<string>,
    definition: string -> Option<string>)

  const ISO := Names(SlotAt, MessageSlotAt, StatementFamily, MessageDefinition)

  /** A field that no map entry names is NULL. */
  datatype Context = Context(
    message: map<MessageField, string>,
    kind: Option<string>,
    index: nat,
    fields: map<Field, string>,
    entries: nat,
    balances: nat)

  const NO_CONTEXT := Context(map[], None, 0, map[], 0, 0)

  datatype State = State(
    path: seq<string>,
    ctx: Context,
    family: Option<string>,
    messageAt: Option<nat>,
    statementAt: Option<nat>,
    envelope: Option<string>,
    header: Option<string>,
    sawStatement: bool,
    statements: nat,
    records: nat)

  const INITIAL := State([], NO_CONTEXT, None, None, None, None, None, false, 0, 0)

  // ── one event ──

  predicate AtRecord(st: State) {
    st.statementAt.Some? && |st.path| == st.statementAt.value + 1
  }

  function ResetMessage(st: State): State {
    st.(ctx := st.ctx.(message := map[]))
  }

  function OpensHeader(st: State, name: string): State {
    if name == "GrpHdr" && st.statementAt.None? then ResetMessage(st) else st
  }

  /** The family of the message this element would open, were none open. */
  function MessageOpened(n: Names, st: State, name: string, binds: Option<string>): Option<string> {
    if st.messageAt.Some? then None
    else if name == "Document" then KnownFamily(OrElse(OrElse(binds, st.envelope), st.header))
    else n.family(name)
  }

  function OpensMessage(n: Names, st: State, name: string, binds: Option<string>): State {
    var family := MessageOpened(n, st, name, binds);
    if family.Some? then ResetMessage(st).(family := family, messageAt := Some(|st.path|))
    else if st.envelope.None? then st.(envelope := binds)
    else st
  }

  function OpensStatement(st: State, name: string): State {
    if st.statementAt.None? && IsStatement(name) then
      st.(sawStatement := true, statementAt := Some(|st.path|), statements := st.statements + 1, records := 0,
          ctx := NO_CONTEXT.(message := st.ctx.message, kind := Some(name), index := st.statements + 1))
    else st
  }

  function Opens(n: Names, st: State, name: string, binds: Option<string>): State {
    OpensStatement(OpensMessage(n, OpensHeader(st, name), name, binds), name)
  }

  function Remembers(st: State, binds: Option<string>): State {
    if st.envelope.Some? then st else st.(envelope := binds)
  }

  function Put(n: Names, fields: map<Field, string>, below: seq<string>, text: string): map<Field, string> {
    match n.slot(below)
    case None => fields
    case Some(slot) => if slot.overwrites || slot.field !in fields then fields[slot.field := text] else fields
  }

  function PutMessage(n: Names, fields: map<MessageField, string>, path: seq<string>,
      text: string): map<MessageField, string> {
    match n.messageSlot(path)
    case None => fields
    case Some(field) => fields[field := text]
  }

  /** The path below the active statement. */
  function Below(st: State): seq<string> {
    if st.statementAt.Some? && st.statementAt.value < |st.path| then st.path[st.statementAt.value + 1..] else []
  }

  function Captures(n: Names, st: State, text: string): State {
    if st.statementAt.Some? then
      st.(ctx := st.ctx.(fields := Put(n, st.ctx.fields, Below(st), text)))
    else
      var names := st.header.None? && EndsWith(st.path, ["AppHdr", "MsgDefIdr"]);
      var header := if names then n.definition(text) else st.header;
      st.(header := header, ctx := st.ctx.(message := PutMessage(n, st.ctx.message, st.path, text)))
  }

  function Counts(st: State, name: string): State {
    if name == "Ntry" then st.(ctx := st.ctx.(entries := st.ctx.entries + 1))
    else st.(ctx := st.ctx.(balances := st.ctx.balances + 1))
  }

  function Popped(path: seq<string>): seq<string> {
    if path == [] then [] else path[..|path| - 1]
  }

  predicate ClosesStatement(st: State) { st.statementAt == Some(|Popped(st.path)|) }

  function Closes(st: State): State {
    var path := Popped(st.path);
    var st := st.(path := path, statementAt := if ClosesStatement(st) then None else st.statementAt);
    if st.messageAt == Some(|path|) then ResetMessage(st).(messageAt := None, family := None) else st
  }

  // ── the machine ──

  /** A record handed out: its number, the subtree it is parsed from, and the context beside it. */
  datatype Row = Row(index: nat, body: Stream, ctx: Context)

  /** The statement grain counts the repeated children of a statement; the others hand one kind out. */
  predicate Counted(g: Grain, st: State, name: string) {
    StatementRows(g) && AtRecord(st) && (name == "Ntry" || name == "Bal")
  }

  predicate IsRecord(g: Grain, st: State, name: string) {
    name == Tag(g) && AtRecord(st)
  }

  /** Whether an opening element is consumed with its whole subtree. */
  predicate Consumes(g: Grain, st: State, name: string) {
    Counted(g, st, name) || IsRecord(g, st, name) || name == Skipped(g)
  }

  function HandsOut(st: State, body: Stream): Out<State, Row> {
    Out(st.(records := st.records + 1), Some(Row(st.records + 1, body, st.ctx)))
  }

  function Consume(g: Grain, st: State, name: string, body: Stream): Out<State, Row> {
    if Counted(g, st, name) then Out(Counts(st, name), None)
    else if IsRecord(g, st, name) then HandsOut(st, body)
    else Out(st, None)
  }

  /** What an element's start changes, the path last. */
  function Enter(n: Names, st: State, name: string, binds: Option<string>): State {
    Opens(n, st, name, binds).(path := st.path + [name])
  }

  function SelfClosing(g: Grain, st: State, name: string, binds: Option<string>): Out<State, Row> {
    if StatementRows(g) && name == "Bal" && AtRecord(st) then Out(Counts(st, name), None)
    else if EmptyIsRecord(g) && name == Tag(g) && AtRecord(st) then HandsOut(st, Eof)
    else Out(Remembers(OpensHeader(st, name), binds), None)
  }

  /** One element closed: the row of a statement is handed out here, with the context it still has. */
  function Leave(g: Grain, st: State): Out<State, Row> {
    var after := Closes(st);
    Out(after, if ClosesStatement(st) && StatementRows(g) then Some(Row(after.statements, Eof, after.ctx)) else None)
  }

  function EndOfInput(st: State): Ending {
    if st.path != [] then CutShort else if st.sawStatement then Finished else WrongFile
  }

  function Camt(g: Grain, n: Names): Machine<State, Row> {
    Machine(
      (st, name) => Consumes(g, st, name),
      (st, name, body) => Consume(g, st, name, body),
      (st, name, binds) => Enter(n, st, name, binds),
      (st, name, binds) => SelfClosing(g, st, name, binds),
      (st, text) => Captures(n, st, text),
      (st, _) => Leave(g, st),
      st => EndOfInput(st))
  }
}
