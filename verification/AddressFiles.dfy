/**
  The rows of a whole file of the address audit by recursion on the document:
  which Document or container each is of, and which family, id and number it
  is given.
*/
module AddressFiles {
  import opened Options
  import opened Xml
  import opened TreeMachine
  import opened AddressWalk
  import opened AddressRows
  import opened AddressMessages

  // ── what a file has told ──

  /** What stands around some content: the binding of its innermost Document, and the outermost binding
      above it outside the messages. */
  datatype Around = Around(document: Option<string>, envelope: Option<string>)

  const NOTHING_AROUND := Around(None, None)

  /** The start of a numbering scope: a Document, or a container outside every message, with what was known
      there: the binding of the last Document, every definition a header had named, and the first binding
      outside the messages. A Document has no container family. */
  datatype Opening = Opening(
    document: Option<string>,
    headers: seq<string>,
    envelope: Option<string>,
    container: Option<string>,
    around: Around)

  /**
    What the file has told by some place: the last start, the bindings and the id texts since then, how
    many records opened since then and the depth of the one at hand; the depth of the message that is
    open; the binding and the depth of the last Document, and whether its first child is still to come;
    the definitions that headers named; and the first binding outside the messages.
  */
  datatype Told = Told(
    start: Option<Opening>,
    bindings: seq<string>,
    ids: seq<string>,
    count: nat,
    record: Option<nat>,
    message: Option<nat>,
    document: Option<string>,
    at: Option<nat>,
    awaiting: bool,
    headers: seq<string>,
    envelope: Option<string>)

  const NOTHING_TOLD := Told(None, [], [], 0, None, None, None, None, false, [], None)

  function FirstOf(s: seq<string>): Option<string> { if s == [] then None else Some(s[0]) }

  function LastOf(s: seq<string>): Option<string> { if s == [] then None else Some(s[|s| - 1]) }

  /** The family a start gives: the last Document's binding, else the first header's definition, else the
      container's family, or for a Document the first binding of the file. */
  function FamilyGiven(s: Opening): Option<string> {
    OrElse(OrElse(s.document, FirstOf(s.headers)), OrElse(s.container, s.envelope))
  }

  /** The family at hand: what the last start gave, else the first binding since. */
  function FamilyAt(start: Option<Opening>, bindings: seq<string>): Option<string> {
    OrElse(if start.Some? then FamilyGiven(start.value) else None, FirstOf(bindings))
  }

  function ScopeAt(t: Told): Scope { Scope(t.count, t.record, FirstOf(t.ids)) }

  predicate IsNamed(t: Told) { t.document.Some? || t.headers != [] || t.envelope.Some? }

  /** The first child of a Document makes it the message, if something names it and no container will. */
  function AtFirstChild(n: Names, t: Told, name: string): Told {
    if !t.awaiting then t
    else
      var itself := IsNamed(t) && n.container(name).None? && t.message.None?;
      t.(awaiting := false, message := if itself then t.at else t.message)
  }

  /** An element starts a numbering scope. */
  predicate IsStart(n: Names, t: Told, name: string, push: bool, inParty: bool) {
    || name == "Document"
    || (push && !inParty && n.container(name).Some? && AtFirstChild(n, t, name).message.None?)
  }

  function Begins(t: Told, start: Opening, message: Option<nat>): Told {
    t.(start := Some(start), bindings := [], ids := [], count := 0, record := None, message := message)
  }

  function AtStart(
    n: Names, depth: nat, name: string, binds: Option<string>, push: bool, inParty: bool, around: Around, t: Told): Told
  {
    var t := AtFirstChild(n, t, name);
    if name == "Document" then
      var start := Opening(binds, t.headers, t.envelope, None, around.(document := binds));
      Begins(t.(document := binds, at := Some(depth), awaiting := true), start, None)
    else if IsStart(n, t, name, push, inParty) then
      Begins(t, Opening(t.document, t.headers, t.envelope, n.container(name), around), Some(depth))
    else t
  }

  function AtBinding(t: Told, name: string, binds: Option<string>): Told {
    if binds.None? then t
    else
      t.(bindings := t.bindings + [binds.value],
         envelope := if name != "Document" && t.message.None? then OrElse(t.envelope, binds) else t.envelope)
  }

  /** What an element's tag tells, but for records. */
  function AtTag(
    n: Names, depth: nat, name: string, binds: Option<string>, push: bool, inParty: bool, around: Around, t: Told): Told
  {
    AtBinding(AtStart(n, depth, name, binds, push, inParty, around, t), name, binds)
  }

  function AtRecordTag(n: Names, depth: nat, name: string, t: Told): Told {
    if n.isRecord(name) then t.(count := t.count + 1, record := Some(depth)) else t
  }

  /** What is around the content of an element, told of the element. */
  function AroundIn(around: Around, t: Told, name: string, binds: Option<string>): Around {
    if name == "Document" then around.(document := binds)
    else if t.message.None? then around.(envelope := OrElse(around.envelope, binds))
    else around
  }

  /** An element's end takes the record and the message of its depth with it. */
  function AtEnd(depth: nat, t: Told): Told {
    t.(record := if t.record.Some? && depth <= t.record.value then None else t.record,
       message := if t.message == Some(depth) then None else t.message)
  }

  function HeaderAt(n: Names, path: seq<string>, text: string): seq<string> {
    if EndsWith(path, ["AppHdr", "MsgDefIdr"]) then
      match n.definition(text) case None => [] case Some(d) => [d]
    else []
  }

  function IdAt(path: seq<string>, text: string): seq<string> { if IsMessageId(path) then [text] else [] }

  /** A text outside the parties. */
  function AtText(n: Names, path: seq<string>, text: string, t: Told): Told {
    t.(ids := t.ids + IdAt(path, text), headers := t.headers + HeaderAt(n, path, text))
  }

  // ── the rows of a file ──

  /** A row, and the start and the bindings since then that give it its family. */
  datatype Handed = Handed(row: Row, start: Option<Opening>, bindings: seq<string>)

  datatype Telling = Telling(handed: seq<Handed>, told: Told)

  /** What the content of a party tells: no records, no texts, and no message but a Document's. */
  function Inside(n: Names, depth: nat, f: Forest, around: Around, t: Told): Told
    decreases f
  {
    match f
    case Nil => t
    case Elem(name, binds, kids, next) =>
      var tag := AtTag(n, depth, name, binds, true, true, around, t);
      Inside(n, depth, next, around, AtEnd(depth, Inside(n, depth + 1, kids, AroundIn(around, tag, name, binds), tag)))
    case Closed(name, binds, next) =>
      Inside(n, depth, next, around, AtTag(n, depth, name, binds, false, true, around, t))
    case Chars(_, next) => Inside(n, depth, next, around, t)
    case Noise(next) => Inside(n, depth, next, around, t)
  }

  /** The rows of some content outside the parties, and what the file has told after it. */
  function Tell(n: Names, path: seq<string>, f: Forest, around: Around, t: Told): Telling
    decreases f, 1
  {
    if f.Nil? then Telling([], t)
    else
      var one := TellNode(n, path, f, around, t);
      var rest := Tell(n, path, f.next, around, one.told);
      Telling(one.handed + rest.handed, rest.told)
  }

  function TellNode(n: Names, path: seq<string>, f: Forest, around: Around, t: Told): Telling
    requires !f.Nil?
    decreases f, 0
  {
    match f
    case Elem(name, binds, kids, _) =>
      var tag := AtRecordTag(n, |path|, name, AtTag(n, |path|, name, binds, true, false, around, t));
      var within := AroundIn(around, tag, name, binds);
      (match n.role(name)
       case Some(kind) =>
         var told := Inside(n, |path| + 1, kids, within, tag);
         Telling([PartyHanded(told, PartyIn(n, path, name, kind, kids, ScopeAt(tag)))], AtEnd(|path|, told))
       case None =>
         var inner := Tell(n, path + [name], kids, within, tag);
         Telling(inner.handed, AtEnd(|path|, inner.told)))
    case Closed(name, binds, _) => Telling([], AtTag(n, |path|, name, binds, false, false, around, t))
    case Chars(text, _) => Telling([], AtText(n, path, text, t))
    case Noise(_) => Telling([], t)
  }

  /** A party's row is handed out at its end. */
  function PartyHanded(t: Told, party: Party): Handed {
    Handed(Row(FamilyAt(t.start, t.bindings), FirstOf(t.ids), party), t.start, t.bindings)
  }

  function RowsHanded(handed: seq<Handed>): seq<Row> {
    seq(|handed|, i requires 0 <= i < |handed| => handed[i].row)
  }

  lemma RowsHandedConcat(a: seq<Handed>, b: seq<Handed>)
    ensures RowsHanded(a + b) == RowsHanded(a) + RowsHanded(b)
  {
  }

  // ── the walk is that recursion ──

  ghost predicate At(st: State, t: Told) {
    && st.family == FamilyAt(t.start, t.bindings) && st.messageId == FirstOf(t.ids)
    && st.recordIndex == t.count && st.recordDepth == t.record
    && st.messageDepth == t.message
    && st.documentFamily == t.document && st.documentDepth == t.at && st.awaitingChild == t.awaiting
    && st.headerFamily == FirstOf(t.headers) && st.envelopeFamily == t.envelope
    && st.identified == (t.start.Some? || t.bindings != [])
  }

  lemma FirstChildTells(n: Names, st: State, name: string, t: Told)
    requires At(st, t)
    ensures var after := SeesChild(n, st, name);
      At(after, AtFirstChild(n, t, name)) && after.path == st.path && after.openParty == st.openParty
  {
  }

  /** A new scope, with what was known when it started. */
  lemma BeginTells(st: State, t: Told, start: Opening, message: Option<nat>)
    requires At(st, t)
    ensures At(BeginMessage(st.(identified := true), message, FamilyGiven(start)), Begins(t, start, message))
  {
  }

  lemma StartTells(n: Names, st: State, name: string, binds: Option<string>, push: bool, around: Around, t: Told)
    requires At(st, t)
    ensures var after := OpensMessage(n, SeesChild(n, st, name), name, binds, push);
      && At(after, AtStart(n, |st.path|, name, binds, push, st.openParty.Some?, around, t))
      && after.path == st.path && after.openParty == st.openParty
  {
    FirstChildTells(n, st, name, t);
    var seen, t := SeesChild(n, st, name), AtFirstChild(n, t, name);
    if name == "Document" {
      var start := Opening(binds, t.headers, t.envelope, None, around.(document := binds));
      var document := seen.(documentFamily := binds, documentDepth := Some(|st.path|), awaitingChild := true);
      var told := t.(document := binds, at := Some(|st.path|), awaiting := true);
      BeginTells(document, told, start, None);
      assert OpensMessage(n, seen, name, binds, push)
        == BeginMessage(document.(identified := true), None, FamilyGiven(start));
    } else if IsStart(n, t, name, push, st.openParty.Some?) {
      var start := Opening(t.document, t.headers, t.envelope, n.container(name), around);
      BeginTells(seen, t, start, Some(|st.path|));
      assert OpensMessage(n, seen, name, binds, push)
        == BeginMessage(seen.(identified := true), Some(|st.path|), FamilyGiven(start));
    }
  }

  lemma TagTells(n: Names, st: State, name: string, binds: Option<string>, push: bool, around: Around, t: Told)
    requires At(st, t)
    ensures var after := Announces(n, st, name, binds, push);
      && At(after, AtTag(n, |st.path|, name, binds, push, st.openParty.Some?, around, t))
      && after.path == st.path && after.openParty == st.openParty
  {
    StartTells(n, st, name, binds, push, around, t);
    BindingTells(OpensMessage(n, SeesChild(n, st, name), name, binds, push), name, binds,
      AtStart(n, |st.path|, name, binds, push, st.openParty.Some?, around, t));
  }

  lemma BindingTells(st: State, name: string, binds: Option<string>, t: Told)
    requires At(st, t)
    ensures var after := Binds(st, name, binds);
      At(after, AtBinding(t, name, binds)) && after.path == st.path && after.openParty == st.openParty
  {
  }

  lemma TextTells(n: Names, st: State, text: string, t: Told)
    requires At(st, t) && st.openParty.None?
    ensures At(Captures(n, st, text), AtText(n, st.path, text, t))
    ensures Captures(n, st, text).path == st.path && Captures(n, st, text).openParty.None?
  {
  }

  /** The end of an element, of a party or not. */
  lemma EndTells(st: State, inner: State, name: string, t: Told)
    requires At(inner, t) && inner.path == st.path + [name]
    ensures At(Pops(inner).st, AtEnd(|st.path|, t)) && Pops(inner).st.path == st.path
  {
  }

  // inside a party

  lemma {:induction false} InsideTells(
      n: Names, st: State, f: Forest, trail: seq<string>, around: Around, t: Told)
    requires At(st, t) && InParty(st, trail)
    ensures At(Walk(Audit(n), st, f).st, Inside(n, |st.path|, f, around, t))
    decreases f, 1
  {
    if !f.Nil? {
      InsideNode(n, st, f, trail);
      InsideNodeTells(n, st, f, trail, around, t);
      InsideTells(n, WalkNode(Audit(n), st, f).st, f.next, trail, around, InsideOne(n, |st.path|, f, around, t));
    }
  }

  /** The first node's part of `Inside`. */
  function InsideOne(n: Names, depth: nat, f: Forest, around: Around, t: Told): Told
    requires !f.Nil?
  {
    match f
    case Elem(name, binds, kids, _) =>
      var tag := AtTag(n, depth, name, binds, true, true, around, t);
      AtEnd(depth, Inside(n, depth + 1, kids, AroundIn(around, tag, name, binds), tag))
    case Closed(name, binds, _) => AtTag(n, depth, name, binds, false, true, around, t)
    case _ => t
  }

  lemma {:induction false} InsideNodeTells(
      n: Names, st: State, f: Forest, trail: seq<string>, around: Around, t: Told)
    requires At(st, t) && InParty(st, trail) && !f.Nil?
    ensures At(WalkNode(Audit(n), st, f).st, InsideOne(n, |st.path|, f, around, t))
    decreases f, 0
  {
    match f
    case Elem(name, binds, kids, _) =>
      var entered := Audit(n).enter(st, name, binds);
      var tag := AtTag(n, |st.path|, name, binds, true, true, around, t);
      EntersInPartyTells(n, st, name, binds, trail, around, t);
      InsideTells(n, entered, kids, trail + [name], AroundIn(around, tag, name, binds), tag);
      InsideWalk(n, entered, kids, trail + [name]);
      EndTells(st, Walk(Audit(n), entered, kids).st, name,
        Inside(n, |entered.path|, kids, AroundIn(around, tag, name, binds), tag));
    case Closed(name, binds, _) => ElementInPartyTells(n, st, name, binds, false, around, t);
    case Chars(_, _) =>
    case Noise(_) =>
  }

  lemma EntersInPartyTells(
      n: Names, st: State, name: string, binds: Option<string>, trail: seq<string>, around: Around, t: Told)
    requires At(st, t) && InParty(st, trail)
    ensures var entered := Audit(n).enter(st, name, binds);
      && At(entered, AtTag(n, |st.path|, name, binds, true, true, around, t))
      && InParty(entered, trail + [name]) && entered.path == st.path + [name]
  {
    var entered := Audit(n).enter(st, name, binds);
    ElementInParty(n, st, name, binds, true, trail);
    ElementInPartyTells(n, st, name, binds, true, around, t);
    assert From(entered.path, entered.openParty.value.depth) == trail + [name];
  }

  lemma ElementInPartyTells(n: Names, st: State, name: string, binds: Option<string>, push: bool, around: Around,
      t: Told)
    requires At(st, t) && st.openParty.Some?
    ensures At(Element(n, st, name, binds, push), AtTag(n, |st.path|, name, binds, push, true, around, t))
  {
    TagTells(n, st, name, binds, push, around, t);
  }

  // outside the parties

  lemma {:induction false} WalkTells(n: Names, st: State, f: Forest, around: Around, t: Told)
    requires At(st, t) && st.openParty.None?
    ensures var w, told := Walk(Audit(n), st, f), Tell(n, st.path, f, around, t);
      && w.rows == RowsHanded(told.handed) && At(w.st, told.told)
      && w.st.path == st.path && w.st.openParty.None?
    decreases f, 1
  {
    if !f.Nil? {
      NodeTells(n, st, f, around, t);
      var one, told := WalkNode(Audit(n), st, f), TellNode(n, st.path, f, around, t);
      WalkTells(n, one.st, f.next, around, told.told);
      RowsHandedConcat(told.handed, Tell(n, st.path, f.next, around, told.told).handed);
    }
  }

  lemma {:induction false} NodeTells(n: Names, st: State, f: Forest, around: Around, t: Told)
    requires At(st, t) && st.openParty.None? && !f.Nil?
    ensures var w, told := WalkNode(Audit(n), st, f), TellNode(n, st.path, f, around, t);
      && w.rows == RowsHanded(told.handed) && At(w.st, told.told)
      && w.st.path == st.path && w.st.openParty.None?
    decreases f, 0
  {
    match f
    case Elem(name, binds, kids, _) =>
      var tag := AtRecordTag(n, |st.path|, name, AtTag(n, |st.path|, name, binds, true, false, around, t));
      var entered, within := Audit(n).enter(st, name, binds), AroundIn(around, tag, name, binds);
      ElementTells(n, st, name, binds, around, t);
      if n.role(name).Some? {
        PartyTells(n, st, f, around, t);
      } else {
        WalkTells(n, entered, kids, within, tag);
        EndTells(st, Walk(Audit(n), entered, kids).st, name, Tell(n, entered.path, kids, within, tag).told);
        LeaveOutside(n, st, Walk(Audit(n), entered, kids).st, name);
      }
    case Closed(name, binds, _) => TagTells(n, st, name, binds, false, around, t);
    case Chars(text, _) => TextTells(n, st, text, t);
    case Noise(_) =>
  }

  lemma ElementTells(n: Names, st: State, name: string, binds: Option<string>, around: Around, t: Told)
    requires At(st, t) && st.openParty.None?
    ensures var entered := Audit(n).enter(st, name, binds);
      var tag := AtRecordTag(n, |st.path|, name, AtTag(n, |st.path|, name, binds, true, false, around, t));
      && At(entered, tag) && entered.path == st.path + [name]
      && (match n.role(name)
          case None => entered.openParty.None?
          case Some(kind) => entered.openParty == Some(PartyIn(n, st.path, name, kind, Nil, ScopeAt(tag))))
  {
    TagTells(n, st, name, binds, true, around, t);
    RecordTells(n, Announces(n, st, name, binds, true), name, AtTag(n, |st.path|, name, binds, true, false, around, t));
  }

  lemma RecordTells(n: Names, st: State, name: string, t: Told)
    requires At(st, t) && st.openParty.None?
    ensures var after, tag := OpensParty(n, CountsRecord(n, st, name), name), AtRecordTag(n, |st.path|, name, t);
      && At(after, tag) && after.path == st.path
      && (match n.role(name)
          case None => after.openParty.None?
          case Some(kind) => after.openParty == Some(PartyIn(n, st.path, name, kind, Nil, ScopeAt(tag))))
  {
  }

  lemma PartyTells(n: Names, st: State, f: Forest, around: Around, t: Told)
    requires At(st, t) && st.openParty.None? && f.Elem? && n.role(f.name).Some?
    ensures var w, told := WalkNode(Audit(n), st, f), TellNode(n, st.path, f, around, t);
      && w.rows == RowsHanded(told.handed) && At(w.st, told.told)
      && w.st.path == st.path && w.st.openParty.None?
  {
    var tag := AtRecordTag(n, |st.path|, f.name, AtTag(n, |st.path|, f.name, f.binds, true, false, around, t));
    var entered, within := Audit(n).enter(st, f.name, f.binds), AroundIn(around, tag, f.name, f.binds);
    ElementTells(n, st, f.name, f.binds, around, t);
    assert From(entered.path, |st.path|) == [f.name];
    InsideWalk(n, entered, f.kids, [f.name]);
    InsideTells(n, entered, f.kids, [f.name], within, tag);
    var inner := Walk(Audit(n), entered, f.kids).st;
    CloseParty(n, st, inner, f.name);
    EndTells(st, inner, f.name, Inside(n, |entered.path|, f.kids, within, tag));
  }

  /** The rows of a whole file, from its first event to its last, and its ending: the family, the id, the
      record number, the path and the facts of every party of every document, whatever Documents, messages,
      records and parties lie wherever in it. It is refused exactly where nothing started or was bound. */
  lemma DrainIsTold(n: Names, f: Forest)
    ensures var told := Tell(n, [], f, NOTHING_AROUND, NOTHING_TOLD);
      Drain(Audit(n), INITIAL, Onto(f, Eof))
        == Drained(RowsHanded(told.handed),
             if told.told.start.Some? || told.told.bindings != [] then Finished else WrongFile)
  {
    DrainIsWalk(Audit(n), INITIAL, f, Eof);
    WalkTells(n, INITIAL, f, NOTHING_AROUND, NOTHING_TOLD);
    var w := Walk(Audit(n), INITIAL, f);
    assert w.rows + [] == w.rows;
  }

  // ── a scope starts over ──

  /** Neither what a Document hands out nor what is told after it owes anything to the messages, records, ids
      and Documents before it: only to the headers and the first binding of the file. */
  lemma DocumentStartsOver(n: Names, path: seq<string>, f: Forest, around: Around, a: Told, b: Told)
    requires f.Elem? && f.name == "Document" && a.headers == b.headers && a.envelope == b.envelope
    ensures TellNode(n, path, f, around, a) == TellNode(n, path, f, around, b)
  {
  }

  /** What a container outside every message hands out owes the last Document's binding besides. */
  lemma ContainerStartsOver(n: Names, path: seq<string>, f: Forest, around: Around, a: Told, b: Told)
    requires f.Elem? && IsStart(n, a, f.name, true, false) && IsStart(n, b, f.name, true, false)
    requires a.headers == b.headers && a.envelope == b.envelope && a.document == b.document && a.at == b.at
    ensures TellNode(n, path, f, around, a) == TellNode(n, path, f, around, b)
  {
  }

  /** Inside a message with no Document in it, the rows are those of the message's own content. */
  lemma MessageRowsAreTold(n: Names, st: State, f: Forest, family: string, around: Around, t: Told)
    requires At(st, t) && InMessage(st, family) && st.openParty.None? && NoDocument(f)
    ensures RowsHanded(Tell(n, st.path, f, around, t).handed)
      == AddressMessages.Rows(n, family, st.path, f, ScopeAt(t)).rows
  {
    WalkTells(n, st, f, around, t);
    RowsAreTheMessages(n, st, f, family);
  }
}
