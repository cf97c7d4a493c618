/**
  What the context beside a record can depend on: the fields of a statement on
  the texts of that statement alone, the fields of a message on the header that
  is open, and neither on anything that was closed before.
*/
module StatementContext {
  import opened Options
  import opened Xml
  import opened TreeMachine
  import opened StatementWalk
  import opened StatementTree

  // ── the statement's own fields ──

  /** The latest text at a path that overwrites `field`. */
  function LatestOver(n: Names, seen: Seen, field: Field): Option<string> {
    match seen
    case Nothing => None
    case Latest(leaf, earlier) =>
      if n.slot(leaf.path) == Some(Slot(field, true)) then Some(leaf.text) else LatestOver(n, earlier, field)
  }

  /** The earliest text at a path that only fills `field`. */
  function FirstFill(n: Names, seen: Seen, field: Field): Option<string> {
    match seen
    case Nothing => None
    case Latest(leaf, earlier) =>
      OrElse(FirstFill(n, earlier, field),
        if n.slot(leaf.path) == Some(Slot(field, false)) then Some(leaf.text) else None)
  }

  /** A field is its latest overwriting text, else its earliest filling one, else NULL: the
      account is the last IBAN stated, and an in-house number only where there is no IBAN. */
  lemma {:induction false} FieldMeaning(n: Names, seen: Seen, field: Field)
    ensures (if field in FieldsOf(n, seen) then Some(FieldsOf(n, seen)[field]) else None)
         == OrElse(LatestOver(n, seen, field), FirstFill(n, seen, field))
  {
    if seen.Latest? {
      FieldMeaning(n, seen.earlier, field);
    }
  }

  /** The path that states each field, below the statement. */
  function OwnPath(field: Field): seq<string> {
    match field
    case StatementId => ["Id"]
    case AccountIban => ["Acct", "Id", "IBAN"]
    case AccountCurrency => ["Acct", "Ccy"]
    case ElectronicSequence => ["ElctrncSeqNb"]
    case LegalSequence => ["LglSeqNb"]
    case StatementCreated => ["CreDtTm"]
    case FromDate => ["FrToDt", "FrDtTm"]
    case ToDate => ["FrToDt", "ToDtTm"]
    case CopyDuplicate => ["CpyDplctInd"]
    case PageNumber => ["StmtPgntn", "PgNb"]
    case LastPage => ["StmtPgntn", "LastPgInd"]
    case AccountOwnerName => ["Acct", "Ownr", "Nm"]
    case AccountServicerBic => ["Acct", "Svcr", "FinInstnId", "BICFI"]
    case SummaryEntries => ["TxsSummry", "TtlNtries", "NbOfNtries"]
    case SummarySum => ["TxsSummry", "TtlNtries", "Sum"]
    case SummaryNetAmount => ["TxsSummry", "TtlNtries", "TtlNetNtry", "Amt"]
    case SummaryNetCreditDebit => ["TxsSummry", "TtlNtries", "TtlNetNtry", "CdtDbtInd"]
    case SummaryCreditEntries => ["TxsSummry", "TtlCdtNtries", "NbOfNtries"]
    case SummaryCreditSum => ["TxsSummry", "TtlCdtNtries", "Sum"]
    case SummaryDebitEntries => ["TxsSummry", "TtlDbtNtries", "NbOfNtries"]
    case SummaryDebitSum => ["TxsSummry", "TtlDbtNtries", "Sum"]
  }

  /** Whether a slot belongs at a path: a field's own path sets it, the servicer alone has a second
      spelling, and the account alone a path that fills it where no IBAN has. */
  predicate Owns(below: seq<string>, slot: Slot) {
    if slot.overwrites then below == OwnPath(slot.field) || (slot.field.AccountServicerBic? && below == SECOND_BIC)
    else slot.field.AccountIban? && below == IN_HOUSE_ACCOUNT
  }

  lemma SlotsAreOwned(below: seq<string>)
    requires SlotAt(below).Some?
    ensures Owns(below, SlotAt(below).value)
  {
    if |below| < 3 {
      ShortSlotsAreOwned(below);
    } else if |below| == 3 {
      MiddleSlotsAreOwned(below);
    } else {
      LongSlotsAreOwned(below);
    }
  }

  lemma ShortSlotsAreOwned(below: seq<string>)
    requires |below| < 3 && SlotAt(below).Some?
    ensures Owns(below, SlotAt(below).value)
  {
  }

  lemma MiddleSlotsAreOwned(below: seq<string>)
    requires |below| == 3 && SlotAt(below).Some?
    ensures Owns(below, SlotAt(below).value)
  {
    if below[0] == "TxsSummry" { SummarySlotsAreOwned(below); } else { OtherSlotsAreOwned(below); }
  }

  lemma SummarySlotsAreOwned(below: seq<string>)
    requires |below| == 3 && below[0] == "TxsSummry" && SlotAt(below).Some?
    ensures Owns(below, SlotAt(below).value)
  {
  }

  lemma OtherSlotsAreOwned(below: seq<string>)
    requires |below| == 3 && below[0] != "TxsSummry" && SlotAt(below).Some?
    ensures Owns(below, SlotAt(below).value)
  {
  }

  lemma LongSlotsAreOwned(below: seq<string>)
    requires |below| > 3 && SlotAt(below).Some?
    ensures Owns(below, SlotAt(below).value)
  {
  }

  const SECOND_BIC := ["Acct", "Svcr", "FinInstnId", "BIC"]
  const IN_HOUSE_ACCOUNT := ["Acct", "Id", "Othr", "Id"]

  lemma OwnPathsHaveSlots(field: Field)
    ensures SlotAt(OwnPath(field)) == Some(Slot(field, true))
  {
    if OwnPath(field)[0] == "TxsSummry" {
      SummariesHaveSlots(field);
    } else if OwnPath(field)[0] == "Acct" {
      AccountsHaveSlots(field);
    } else {
      OthersHaveSlots(field);
    }
  }

  lemma SummariesHaveSlots(field: Field)
    requires OwnPath(field)[0] == "TxsSummry"
    ensures SlotAt(OwnPath(field)) == Some(Slot(field, true))
  {
  }

  lemma AccountsHaveSlots(field: Field)
    requires OwnPath(field)[0] == "Acct"
    ensures SlotAt(OwnPath(field)) == Some(Slot(field, true))
  {
  }

  lemma OthersHaveSlots(field: Field)
    requires OwnPath(field)[0] != "Acct" && OwnPath(field)[0] != "TxsSummry"
    ensures SlotAt(OwnPath(field)) == Some(Slot(field, true))
  {
  }

  /** A path below the statement has a slot exactly where a field owns it, and that slot. */
  lemma SlotsExactly(below: seq<string>, slot: Slot)
    ensures SlotAt(below) == Some(slot) <==> Owns(below, slot)
  {
    if SlotAt(below).Some? { SlotsAreOwned(below); }
    if Owns(below, slot) {
      OwnPathsHaveSlots(slot.field);
    }
    OtherPathsHaveSlots();
    OneOwner(below, slot);
  }

  lemma OtherPathsHaveSlots()
    ensures SlotAt(SECOND_BIC) == Some(Slot(AccountServicerBic, true))
    ensures SlotAt(IN_HOUSE_ACCOUNT) == Some(Slot(AccountIban, false))
  {
  }

  lemma OneOwner(below: seq<string>, slot: Slot)
    requires SlotAt(below).Some? ==> Owns(below, SlotAt(below).value)
    requires Owns(below, slot) ==> SlotAt(OwnPath(slot.field)) == Some(Slot(slot.field, true))
    requires SlotAt(SECOND_BIC) == Some(Slot(AccountServicerBic, true))
    requires SlotAt(IN_HOUSE_ACCOUNT) == Some(Slot(AccountIban, false))
    ensures SlotAt(below) == Some(slot) <==> Owns(below, slot)
  {
  }

  // ── the message's fields ──

  /** The path a message field is read from, wherever it lies. */
  function OwnMessagePath(field: MessageField): seq<string> {
    match field
    case MsgId => ["GrpHdr", "MsgId"]
    case MessageCreated => ["GrpHdr", "CreDtTm"]
    case MessagePage => ["GrpHdr", "MsgPgntn", "PgNb"]
    case MessageLastPage => ["GrpHdr", "MsgPgntn", "LastPgInd"]
  }

  /** A path is read for a message field exactly where it ends in that field's own. */
  lemma MessageSlotsExactly(path: seq<string>, field: MessageField)
    ensures MessageSlotAt(path) == Some(field) <==> EndsWith(path, OwnMessagePath(field))
  {
    forall f: MessageField ensures EndsWith(path, OwnMessagePath(f)) ==> LastIs(path, OwnMessagePath(f)) {
    }
  }

  /** The last name of a path is the last of what it ends in. */
  predicate LastIs(path: seq<string>, suffix: seq<string>) {
    path != [] && suffix != [] && path[|path| - 1] == suffix[|suffix| - 1]
  }

  /** Texts captured for the message, by the whole path. */
  function MessageOf(n: Names, seen: Seen): map<MessageField, string> {
    match seen
    case Nothing => map[]
    case Latest(leaf, earlier) => PutMessage(n, MessageOf(n, earlier), leaf.path, leaf.text)
  }

  lemma EntersDeeper(n: Names, st: State, name: string, binds: Option<string>)
    ensures Enter(n, st, name, binds).path == st.path + [name]
  {
  }

  lemma LeavesHigher(g: Grain, st: State)
    requires st.path != []
    ensures Leave(g, st).st.path == st.path[..|st.path| - 1]
  {
  }

  lemma OthersKeepPath(g: Grain, n: Names, st: State, name: string, binds: Option<string>, body: Stream, text: string)
    ensures Consume(g, st, name, body).st.path == st.path && SelfClosing(g, st, name, binds).st.path == st.path
    ensures Captures(n, st, text).path == st.path
  {
  }

  lemma CamtTracksDepth(g: Grain, n: Names)
    ensures TracksDepth(Camt(g, n), (st: State) => |st.path|)
  {
    var m, depth := Camt(g, n), (st: State) => |st.path|;
    forall st, name, body | m.consumes(st, name) ensures depth(m.consume(st, name, body).st) == depth(st) {
      OthersKeepPath(g, n, st, name, None, body, "");
    }
    forall st, name, binds ensures depth(m.enter(st, name, binds)) == depth(st) + 1 {
      EntersDeeper(n, st, name, binds);
    }
    forall st, name, binds ensures depth(m.empty(st, name, binds).st) == depth(st) {
      OthersKeepPath(g, n, st, name, binds, Eof, "");
    }
    forall st, text ensures depth(m.text(st, text)) == depth(st) {
      OthersKeepPath(g, n, st, "", None, Eof, text);
    }
    forall st, name | depth(st) > 0 ensures depth(m.leave(st, name).st) == depth(st) - 1 {
      LeavesHigher(g, st);
    }
  }

  /** A cut anywhere inside the root element of a statement file is refused at every grain. */
  lemma CutStatementFileIsRefused(g: Grain, n: Names, f: Forest, s: Stream)
    requires Rooted(f)
    requires Prefix(s, Onto(f, Eof)) && Prolog(f) < Length(s) < Prolog(f) + RootLength(f)
    ensures Drain(Camt(g, n), INITIAL, s).ending == CutShort
    ensures Drain(Camt(g, n), INITIAL, s).rows <= Drain(Camt(g, n), INITIAL, Onto(f, Eof)).rows
  {
    CamtTracksDepth(g, n);
    CutDocumentIsRefused(Camt(g, n), (st: State) => |st.path|, INITIAL, f, s);
    CutInputGivesFirstRows(Camt(g, n), INITIAL, s, Onto(f, Eof));
  }

  function Forgotten(st: State): State { ResetMessage(st) }

  /** Whether an element, self-closing or not, starts the message's own fields over. */
  predicate StartsOver(n: Names, st: State, f: Forest) {
    || ((f.Elem? || f.Closed?) && f.name == "GrpHdr" && st.statementAt.None?)
    || (f.Elem? && MessageOpened(n, st, f.name, f.binds).Some?)
  }

  /** Nothing stated before a group header, or before a message, reaches a record after it. */
  lemma NothingBeforeTheHeaderIsKept(g: Grain, n: Names, a: State, b: State, f: Forest)
    requires StartsOver(n, a, f) && (f.Elem? ==> !Consumes(g, a, f.name))
    requires Forgotten(a) == Forgotten(b)
    ensures Walk(Camt(g, n), a, f) == Walk(Camt(g, n), b, f)
  {
    if f.Elem? {
      assert Enter(n, a, f.name, f.binds) == Enter(n, b, f.name, f.binds);
      assert Consumes(g, a, f.name) == Consumes(g, b, f.name);
    } else {
      assert SelfClosing(g, a, f.name, f.binds) == SelfClosing(g, b, f.name, f.binds);
    }
  }

  /** An open message, and the statement in it, survive whatever closes below them. */
  ghost predicate KeepsScopes(m: Machine<State, Row>) { LeavesKeepScopes(m) && ElementsKeepScopes(m) }

  ghost predicate LeavesKeepScopes(m: Machine<State, Row>) {
    && (forall st, name, body | m.consumes(st, name) :: SameScopes(st, m.consume(st, name, body).st))
    && (forall st, name, binds :: SameScopes(st, m.empty(st, name, binds).st))
    && (forall st, text :: SameScopes(st, m.text(st, text)))
  }

  ghost predicate ElementsKeepScopes(m: Machine<State, Row>) {
    && (forall st: State, name, binds | st.messageAt.Some? :: m.enter(st, name, binds).messageAt == st.messageAt)
    && (forall st, name, binds :: m.enter(st, name, binds).path == st.path + [name])
    && (forall st: State, path, name | st.path == path + [name] ::
          var after := m.leave(st, name).st;
          after.path == path && (st.messageAt != Some(|path|) ==> after.messageAt == st.messageAt))
  }

  predicate SameScopes(a: State, b: State) { a.path == b.path && a.messageAt == b.messageAt }

  lemma OthersKeepScopes(g: Grain, n: Names, st: State, name: string, binds: Option<string>, body: Stream, text: string)
    ensures SameScopes(st, Consume(g, st, name, body).st) && SameScopes(st, SelfClosing(g, st, name, binds).st)
    ensures SameScopes(st, Captures(n, st, text))
  {
  }

  lemma CamtLeavesKeepScopes(g: Grain, n: Names)
    ensures LeavesKeepScopes(Camt(g, n))
  {
    var m := Camt(g, n);
    forall st, name, body | m.consumes(st, name) ensures SameScopes(st, m.consume(st, name, body).st) {
      OthersKeepScopes(g, n, st, name, None, body, "");
    }
    forall st, name, binds ensures SameScopes(st, m.empty(st, name, binds).st) {
      OthersKeepScopes(g, n, st, name, binds, Eof, "");
    }
    forall st, text ensures SameScopes(st, m.text(st, text)) {
      OthersKeepScopes(g, n, st, "", None, Eof, text);
    }
  }

  lemma CamtElementsKeepScopes(g: Grain, n: Names)
    ensures ElementsKeepScopes(Camt(g, n))
  {
  }

  lemma {:induction false} MessageStaysOpen(m: Machine<State, Row>, st: State, f: Forest)
    requires KeepsScopes(m) && st.messageAt.Some? && st.messageAt.value < |st.path|
    ensures SameScopes(st, Walk(m, st, f).st)
    decreases f, 1
  {
    if !f.Nil? {
      MessageStaysOpenNode(m, st, f);
      MessageStaysOpen(m, WalkNode(m, st, f).st, f.next);
    }
  }

  lemma {:induction false} MessageStaysOpenNode(m: Machine<State, Row>, st: State, f: Forest)
    requires KeepsScopes(m) && st.messageAt.Some? && st.messageAt.value < |st.path| && !f.Nil?
    ensures SameScopes(st, WalkNode(m, st, f).st)
    decreases f, 0
  {
    if f.Elem? && !m.consumes(st, f.name) {
      MessageStaysOpen(m, m.enter(st, f.name, f.binds), f.kids);
    }
  }

  /** The message's fields are NULL again once its element has closed. */
  lemma MessageIsForgottenAtItsClose(g: Grain, n: Names, st: State, f: Forest)
    requires f.Elem? && !Consumes(g, st, f.name) && MessageOpened(n, st, f.name, f.binds).Some?
    ensures var after := WalkNode(Camt(g, n), st, f).st;
            after.ctx.message == map[] && after.messageAt == None && after.path == st.path
  {
    var m := Camt(g, n);
    var inner := Enter(n, st, f.name, f.binds);
    CamtLeavesKeepScopes(g, n);
    CamtElementsKeepScopes(g, n);
    MessageStaysOpen(m, inner, f.kids);
    assert Popped(inner.path) == st.path;
  }
}
