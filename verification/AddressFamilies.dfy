/** Which family the address audit gives a message, and when that is the family that names the message itself. */
module AddressFamilies {
  import opened Options
  import opened Xml
  import opened TreeMachine
  import opened AddressWalk
  import opened AddressMessages
  import opened AddressFiles

  /** What names a scope itself: the binding of the Document around it, else the last header before it, else
      its container, or for a Document the outermost binding above it. */
  function OwnFamily(s: Opening): Option<string> {
    OrElse(OrElse(s.around.document, LastOf(s.headers)), OrElse(s.container, s.around.envelope))
  }

  /**
    When a scope is given its own family, by the Documents and headers before it:
    the Document around it binds a family, and the last Document to start binds the same one, or binds
    none and the first header, or without headers the container, names the same;
    or the Document around it binds none or there is none, and an earlier Document bound what the last
    header, or without headers the container, names;
    or neither binds one, and the first header of the file names what the last one before names, or without
    headers there is a container, or the first binding of the file is the outermost one above.
  */
  predicate NamedByItsOwn(s: Opening) {
    match s.around.document
    case Some(own) =>
      (match s.document
       case Some(last) => last == own
       case None => if s.headers != [] then s.headers[0] == own else NamesItself(s, s.envelope, own))
    case None =>
      (match s.document
       case Some(last) =>
         if s.headers != [] then s.headers[|s.headers| - 1] == last else NamesItself(s, s.around.envelope, last)
       case None =>
         if s.headers != [] then s.headers[0] == s.headers[|s.headers| - 1]
         else s.container.Some? || s.envelope == s.around.envelope)
  }

  /** The container names the family, or for a Document the envelope's binding does. */
  predicate NamesItself(s: Opening, envelope: Option<string>, family: string) {
    if s.container.Some? then s.container.value == family else envelope == Some(family)
  }

  lemma GivenIsOwn(s: Opening)
    ensures FamilyGiven(s) == OwnFamily(s) <==> NamedByItsOwn(s)
  {
  }

  /** A container always gives a family, and a Document exactly where it binds one, or a header or a binding
      before it names one. */
  lemma StartIsNamed(
      n: Names, depth: nat, name: string, binds: Option<string>, push: bool, inParty: bool, around: Around, t: Told)
    requires IsStart(n, t, name, push, inParty)
    ensures var start := AtStart(n, depth, name, binds, push, inParty, around, t).start;
      start.Some?
      && (FamilyGiven(start.value).Some?
          <==> name != "Document" || binds.Some? || t.headers != [] || t.envelope.Some?)
  {
  }

  // ── over a whole file ──

  /** A row's family is what its start gave or a later binding left, and a Document is the one around itself. */
  predicate ByItsStart(h: Handed) {
    && h.row.family == FamilyAt(h.start, h.bindings)
    && IsOpening(h.start)
  }

  predicate IsOpening(start: Option<Opening>) {
    start.Some? && start.value.container.None? ==> start.value.document == start.value.around.document
  }

  lemma TagOpens(
      n: Names, depth: nat, name: string, binds: Option<string>, push: bool, inParty: bool, around: Around, t: Told)
    requires IsOpening(t.start)
    ensures IsOpening(AtTag(n, depth, name, binds, push, inParty, around, t).start)
  {
  }

  lemma {:induction false} InsideOpens(n: Names, depth: nat, f: Forest, around: Around, t: Told)
    requires IsOpening(t.start)
    ensures IsOpening(Inside(n, depth, f, around, t).start)
    decreases f
  {
    match f
    case Nil =>
    case Elem(name, binds, kids, next) =>
      TagOpens(n, depth, name, binds, true, true, around, t);
      var tag := AtTag(n, depth, name, binds, true, true, around, t);
      InsideOpens(n, depth + 1, kids, AroundIn(around, tag, name, binds), tag);
      InsideOpens(n, depth, next, around,
        AtEnd(depth, Inside(n, depth + 1, kids, AroundIn(around, tag, name, binds), tag)));
    case Closed(name, binds, next) =>
      TagOpens(n, depth, name, binds, false, true, around, t);
      InsideOpens(n, depth, next, around, AtTag(n, depth, name, binds, false, true, around, t));
    case Chars(_, next) => InsideOpens(n, depth, next, around, t);
    case Noise(next) => InsideOpens(n, depth, next, around, t);
  }

  lemma {:induction false} RowsByTheirStarts(n: Names, path: seq<string>, f: Forest, around: Around, t: Told)
    requires IsOpening(t.start)
    ensures var told := Tell(n, path, f, around, t);
      IsOpening(told.told.start) && forall h | h in told.handed :: ByItsStart(h)
    decreases f, 1
  {
    if !f.Nil? {
      NodeByItsStart(n, path, f, around, t);
      RowsByTheirStarts(n, path, f.next, around, TellNode(n, path, f, around, t).told);
    }
  }

  lemma {:induction false} NodeByItsStart(n: Names, path: seq<string>, f: Forest, around: Around, t: Told)
    requires IsOpening(t.start) && !f.Nil?
    ensures var told := TellNode(n, path, f, around, t);
      IsOpening(told.told.start) && forall h | h in told.handed :: ByItsStart(h)
    decreases f, 0
  {
    match f
    case Elem(name, binds, kids, _) =>
      TagOpens(n, |path|, name, binds, true, false, around, t);
      var tag := AtRecordTag(n, |path|, name, AtTag(n, |path|, name, binds, true, false, around, t));
      if n.role(name).Some? {
        InsideOpens(n, |path| + 1, kids, AroundIn(around, tag, name, binds), tag);
      } else {
        RowsByTheirStarts(n, path + [name], kids, AroundIn(around, tag, name, binds), tag);
      }
    case Closed(name, binds, _) => TagOpens(n, |path|, name, binds, false, false, around, t);
    case Chars(_, _) =>
    case Noise(_) =>
  }

  /** In every file, a row whose scope something names carries the family that names the scope itself exactly
      where the Documents and headers before the scope say so; in a Document that binds a family and is itself
      the last to have started, always. */
  lemma FamilyIsItsOwn(n: Names, f: Forest)
    ensures forall h | h in Tell(n, [], f, NOTHING_AROUND, NOTHING_TOLD).handed && h.start.Some? ::
      var s := h.start.value;
      && (FamilyGiven(s).Some? ==> h.row.family == FamilyGiven(s))
      && (FamilyGiven(s).Some? ==> (h.row.family == OwnFamily(s) <==> NamedByItsOwn(s)))
      && (s.container.None? && s.document.Some? ==> h.row.family == OwnFamily(s))
  {
    RowsByTheirStarts(n, [], f, NOTHING_AROUND, NOTHING_TOLD);
    forall h | h in Tell(n, [], f, NOTHING_AROUND, NOTHING_TOLD).handed && h.start.Some?
      ensures FamilyGiven(h.start.value) == OwnFamily(h.start.value) <==> NamedByItsOwn(h.start.value)
    {
      GivenIsOwn(h.start.value);
    }
  }

  // ── a message under an earlier one's family ──

  /** A credit transfer in a Document that binds pacs.008, and behind it a status report in none. */
  function ReportBehindADocument(): Forest {
    var transfer := Elem("FIToFICstmrCdtTrf", None, Nil, Nil);
    var report := Elem("FIToFIPmtStsRpt", None, Elem("Dbtr", None, Nil, Nil), Nil);
    Elem("Document", Some("pacs.008"), transfer, Noise(report))
  }

  /** The report's party is handed out as one of a credit transfer, and its own family is pacs.002. */
  lemma ReportUnderTheTransfersFamily(n: Names)
    requires n.container("FIToFICstmrCdtTrf") == Some("pacs.008") && n.container("FIToFIPmtStsRpt") == Some("pacs.002")
    requires forall name | name in {"Document", "FIToFICstmrCdtTrf", "FIToFIPmtStsRpt"} ::
      n.role(name).None? && !n.isRecord(name)
    requires n.role("Dbtr") == Some(PARTY) && !n.isRecord("Dbtr")
    ensures var f := ReportBehindADocument();
      var rows, handed := Drain(Audit(n), INITIAL, Onto(f, Eof)).rows,
        Tell(n, [], f, NOTHING_AROUND, NOTHING_TOLD).handed;
      && |rows| == 1 && rows[0].party.role == "Dbtr" && rows[0].family == Some("pacs.008")
      && |handed| == 1 && handed[0].start.Some? && OwnFamily(handed[0].start.value) == Some("pacs.002")
  {
    TransferTells(n, ReportBehindADocument());
    ReportRow(n, ReportBehindADocument());
  }

  lemma ReportRow(n: Names, f: Forest)
    requires !f.Nil? && f.next.Noise? && f.next.next == Elem("FIToFIPmtStsRpt", None, Elem("Dbtr", None, Nil, Nil), Nil)
    requires n.container("FIToFIPmtStsRpt") == Some("pacs.002") && n.role("FIToFIPmtStsRpt").None?
    requires !n.isRecord("FIToFIPmtStsRpt") && n.role("Dbtr") == Some(PARTY) && !n.isRecord("Dbtr")
    requires var told := TellNode(n, [], f, NOTHING_AROUND, NOTHING_TOLD);
      told.handed == [] && BehindTheTransfer(told.told)
    ensures var rows, handed := Drain(Audit(n), INITIAL, Onto(f, Eof)).rows,
      Tell(n, [], f, NOTHING_AROUND, NOTHING_TOLD).handed;
      && |rows| == 1 && rows[0].party.role == "Dbtr" && rows[0].family == Some("pacs.008")
      && |handed| == 1 && handed[0].start.Some? && OwnFamily(handed[0].start.value) == Some("pacs.002")
  {
    DrainIsTold(n, f);
    ReportTells(n, f.next.next, TellNode(n, [], f, NOTHING_AROUND, NOTHING_TOLD).told);
    NoiseThenOne(n, f, NOTHING_TOLD);
  }

  lemma NoiseThenOne(n: Names, f: Forest, t: Told)
    requires !f.Nil? && f.next.Noise? && !f.next.next.Nil? && f.next.next.next.Nil?
    requires TellNode(n, [], f, NOTHING_AROUND, t).handed == []
    ensures Tell(n, [], f, NOTHING_AROUND, t).handed
      == TellNode(n, [], f.next.next, NOTHING_AROUND, TellNode(n, [], f, NOTHING_AROUND, t).told).handed
  {
    var told := TellNode(n, [], f, NOTHING_AROUND, t).told;
    var one := TellNode(n, [], f.next.next, NOTHING_AROUND, told);
    assert Tell(n, [], f.next.next.next, NOTHING_AROUND, one.told).handed == [];
    assert Tell(n, [], f.next.next, NOTHING_AROUND, told).handed == one.handed + [];
    assert Tell(n, [], f.next, NOTHING_AROUND, told).handed == [] + one.handed;
  }

  ghost predicate BehindTheTransfer(t: Told) {
    t.document == Some("pacs.008") && t.headers == [] && t.message.None? && !t.awaiting
  }

  lemma TransferTells(n: Names, f: Forest)
    requires f.Elem? && f.name == "Document" && f.binds == Some("pacs.008")
    requires f.kids.Elem? && f.kids.name == "FIToFICstmrCdtTrf" && f.kids.binds.None? && f.kids.kids.Nil?
      && f.kids.next.Nil?
    requires forall name | name in {"Document", "FIToFICstmrCdtTrf"} :: n.role(name).None? && !n.isRecord(name)
    requires n.container("FIToFICstmrCdtTrf").Some?
    ensures var told := TellNode(n, [], f, NOTHING_AROUND, NOTHING_TOLD);
      told.handed == [] && BehindTheTransfer(told.told)
  {
    var tag := AtTag(n, 0, "Document", f.binds, true, false, NOTHING_AROUND, NOTHING_TOLD);
    var within := AroundIn(NOTHING_AROUND, tag, "Document", f.binds);
    var there := [] + ["Document"];
    var inner := AtTag(n, 1, f.kids.name, None, true, false, within, tag);
    assert inner.message == Some(1) && inner.document == Some("pacs.008");
    assert Tell(n, there + [f.kids.name], Nil, AroundIn(within, inner, f.kids.name, None), inner) == Telling([], inner);
    assert TellNode(n, there, f.kids, within, tag) == Telling([], AtEnd(1, inner));
    assert Tell(n, there, Nil, within, AtEnd(1, inner)) == Telling([], AtEnd(1, inner));
    assert Tell(n, there, f.kids, within, tag).told == AtEnd(1, inner);
  }

  lemma ReportTells(n: Names, f: Forest, t: Told)
    requires BehindTheTransfer(t)
    requires f.Elem? && f.name == "FIToFIPmtStsRpt" && n.container(f.name) == Some("pacs.002")
    requires f.binds.None? && n.role(f.name).None? && !n.isRecord(f.name)
    requires f.kids == Elem("Dbtr", None, Nil, Nil) && n.role("Dbtr") == Some(PARTY) && !n.isRecord("Dbtr")
    ensures var handed := TellNode(n, [], f, NOTHING_AROUND, t).handed;
      && |handed| == 1 && handed[0].row.party.role == "Dbtr" && handed[0].row.family == Some("pacs.008")
      && handed[0].start.Some? && OwnFamily(handed[0].start.value) == Some("pacs.002")
  {
    var tag := AtTag(n, 0, f.name, None, true, false, NOTHING_AROUND, t);
    var within := AroundIn(NOTHING_AROUND, tag, f.name, None);
    assert FamilyAt(tag.start, tag.bindings) == Some("pacs.008");
    var inner := AtTag(n, 1, "Dbtr", None, true, false, within, tag);
    assert inner == tag;
    var party := TellNode(n, [] + [f.name], f.kids, within, tag);
    assert party.handed == [PartyHanded(tag, PartyIn(n, [] + [f.name], "Dbtr", PARTY, Nil, ScopeAt(tag)))];
    assert Tell(n, [] + [f.name], Nil, within, party.told).handed == [];
  }
}
