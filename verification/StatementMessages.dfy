/**
  The message columns of the statement walk, by recursion on the document: which
  group header's texts each row carries, with or without a message around its
  statement.
*/
module StatementMessages {
  import opened Options
  import opened Xml
  import opened TreeMachine
  import opened StatementWalk
  import opened StatementTree
  import opened StatementContext

  /** Outside every statement, at the children of one, or below those. */
  datatype Place = Outside | Child | Under

  function Deeper(place: Place, name: string): Place {
    if !place.Outside? then Under else if IsStatement(name) then Child else Outside
  }

  /** What has been said of the message: the texts read outside statements since its header or its
      element started, and the families an envelope and a header named. */
  datatype Told = Told(seen: Seen, envelope: Option<string>, header: Option<string>)

  const NOTHING_TOLD := Told(Nothing, None, None)

  /** The message an element opens where none is open. */
  function FamilyHere(n: Names, isOpen: bool, t: Told, name: string, binds: Option<string>): Option<string> {
    if isOpen then None
    else if name == "Document" then KnownFamily(OrElse(OrElse(binds, t.envelope), t.header))
    else n.family(name)
  }

  /** A group header starts the texts over, and so does a message. */
  function AtHeader(place: Place, t: Told, name: string): Told {
    if name == "GrpHdr" && place.Outside? then t.(seen := Nothing) else t
  }

  function AtStart(n: Names, place: Place, isOpen: bool, t: Told, name: string, binds: Option<string>): Told {
    if FamilyHere(n, isOpen, t, name, binds).Some? then t.(seen := Nothing)
    else AtHeader(place, t, name).(envelope := OrElse(t.envelope, binds))
  }

  function AtText(n: Names, place: Place, path: seq<string>, t: Told, text: string): Told {
    if !place.Outside? then t
    else
      var header := if t.header.None? && EndsWith(path, ["AppHdr", "MsgDefIdr"]) then n.definition(text) else t.header;
      t.(seen := Latest(Leaf(path, text), t.seen), header := header)
  }

  predicate Handed(g: Grain, place: Place, name: string) { place.Child? && name == Tag(g) }

  /** Elements that are not walked into. */
  predicate Taken(g: Grain, place: Place, name: string) {
    || (StatementRows(g) && place.Child? && (name == "Ntry" || name == "Bal"))
    || Handed(g, place, name)
    || name == Skipped(g)
  }

  /** The texts beside each row, and what has been said after it. */
  datatype Stamps = Stamps(rows: seq<Seen>, told: Told)

  function Stamp(g: Grain, n: Names, place: Place, isOpen: bool, path: seq<string>, f: Forest, t: Told): Stamps
    decreases f, 1
  {
    if f.Nil? then Stamps([], t)
    else
      var one := StampNode(g, n, place, isOpen, path, f, t);
      var rest := Stamp(g, n, place, isOpen, path, f.next, one.told);
      Stamps(one.rows + rest.rows, rest.told)
  }

  function StampNode(g: Grain, n: Names, place: Place, isOpen: bool, path: seq<string>, f: Forest, t: Told): Stamps
    requires !f.Nil?
    decreases f, 0
  {
    match f
    case Elem(name, binds, kids, _) =>
      if Taken(g, place, name) then Stamps(if Handed(g, place, name) then [t.seen] else [], t)
      else
        var opens := FamilyHere(n, isOpen, t, name, binds).Some?;
        var inner := Stamp(g, n, Deeper(place, name), isOpen || opens, path + [name], kids,
          AtStart(n, place, isOpen, t, name, binds));
        var after := if opens then inner.told.(seen := Nothing) else inner.told;
        Stamps(inner.rows + (if StatementRows(g) && place.Outside? && IsStatement(name) then [after.seen] else []),
            after)
    case Closed(name, binds, _) =>
      if place.Child? && StatementRows(g) && name == "Bal" then Stamps([], t)
      else if EmptyIsRecord(g) && Handed(g, place, name) then Stamps([t.seen], t)
      else Stamps([], AtHeader(place, t, name).(envelope := OrElse(t.envelope, binds)))
    case Chars(text, _) => Stamps([], AtText(n, place, path, t, text))
    case Noise(_) => Stamps([], t)
  }

  // ── the walk's message columns are those ──

  ghost predicate At(n: Names, st: State, place: Place, isOpen: bool, t: Told) {
    && st.ctx.message == MessageOf(n, t.seen) && st.envelope == t.envelope && st.header == t.header
    && isOpen == st.messageAt.Some? && (isOpen ==> st.messageAt.value < |st.path|)
    && match place
       case Outside => st.statementAt.None?
       case Child => st.statementAt.Some? && |st.path| == st.statementAt.value + 1
       case Under => st.statementAt.Some? && |st.path| > st.statementAt.value + 1
  }

  predicate SamePlace(a: State, b: State) {
    a.path == b.path && a.messageAt == b.messageAt && a.statementAt == b.statementAt
  }

  function MessagesOf(rows: seq<Row>): seq<map<MessageField, string>> {
    seq(|rows|, i requires 0 <= i < |rows| => rows[i].ctx.message)
  }

  function Columns(n: Names, seen: seq<Seen>): seq<map<MessageField, string>> {
    seq(|seen|, i requires 0 <= i < |seen| => MessageOf(n, seen[i]))
  }

  lemma ConcatColumns(n: Names, a: seq<Row>, b: seq<Row>, x: seq<Seen>, y: seq<Seen>)
    requires MessagesOf(a) == Columns(n, x) && MessagesOf(b) == Columns(n, y)
    ensures MessagesOf(a + b) == Columns(n, x + y)
  {
    assert |a| == |x| && |b| == |y|;
    assert forall i | 0 <= i < |a| :: a[i].ctx.message == MessagesOf(a)[i];
    assert forall i | 0 <= i < |b| :: b[i].ctx.message == MessagesOf(b)[i];
  }

  /** What one event's row and state are, told by the tree. */
  ghost predicate Follows(n: Names, st: State, rows: seq<Row>, after: State, place: Place, isOpen: bool, s: Stamps) {
    MessagesOf(rows) == Columns(n, s.rows) && At(n, after, place, isOpen, s.told) && SamePlace(st, after)
  }

  lemma TakenIsConsumed(g: Grain, n: Names, st: State, place: Place, isOpen: bool, t: Told, name: string)
    requires At(n, st, place, isOpen, t)
    ensures Consumes(g, st, name) == Taken(g, place, name)
  {
  }

  lemma TakenFollows(g: Grain, n: Names, st: State, place: Place, isOpen: bool, t: Told, name: string, body: Stream)
    requires At(n, st, place, isOpen, t) && Taken(g, place, name)
    ensures var out := Consume(g, st, name, body);
      Follows(n, st, Rows(out.row), out.st, place, isOpen, Stamps(if Handed(g, place, name) then [t.seen] else [], t))
  {
  }

  /** The state with a header and a message started, before the path and the statement are. */
  lemma MessageFollows(
      n: Names, st: State, place: Place, isOpen: bool, t: Told, name: string, binds: Option<string>)
    requires At(n, st, place, isOpen, t)
    ensures var begun := OpensMessage(n, OpensHeader(st, name), name, binds);
      var opens := FamilyHere(n, isOpen, t, name, binds).Some?;
      var started := AtStart(n, place, isOpen, t, name, binds);
      && begun.ctx.message == MessageOf(n, started.seen)
      && begun.envelope == started.envelope && begun.header == started.header
      && begun.messageAt == (if opens then Some(|st.path|) else st.messageAt)
      && begun.path == st.path && begun.statementAt == st.statementAt
  {
  }

  lemma EnterFollows(n: Names, st: State, place: Place, isOpen: bool, t: Told, name: string, binds: Option<string>)
    requires At(n, st, place, isOpen, t)
    ensures var inner := Enter(n, st, name, binds);
      var opens := FamilyHere(n, isOpen, t, name, binds).Some?;
      && At(n, inner, Deeper(place, name), isOpen || opens, AtStart(n, place, isOpen, t, name, binds))
      && inner.path == st.path + [name]
      && inner.messageAt == (if opens then Some(|st.path|) else st.messageAt)
      && inner.statementAt == (if place.Outside? && IsStatement(name) then Some(|st.path|) else st.statementAt)
  {
    MessageFollows(n, st, place, isOpen, t, name, binds);
    StatementFollows(OpensMessage(n, OpensHeader(st, name), name, binds), name);
  }

  lemma StatementFollows(st: State, name: string)
    ensures var after := OpensStatement(st, name);
      && after.ctx.message == st.ctx.message && after.envelope == st.envelope && after.header == st.header
      && after.messageAt == st.messageAt && after.path == st.path
      && after.statementAt == (if st.statementAt.None? && IsStatement(name) then Some(|st.path|) else st.statementAt)
  {
  }

  lemma LeaveFollows(g: Grain, n: Names, st: State, inner: State, place: Place, isOpen: bool, opens: bool,
      name: string, t: Told)
    requires At(n, inner, Deeper(place, name), isOpen || opens, t) && inner.path == st.path + [name]
    requires inner.messageAt == (if opens then Some(|st.path|) else st.messageAt)
    requires inner.statementAt == (if place.Outside? && IsStatement(name) then Some(|st.path|) else st.statementAt)
    requires isOpen == st.messageAt.Some? && (isOpen ==> st.messageAt.value < |st.path| && !opens)
    requires place.Outside? <==> st.statementAt.None?
    requires place.Child? ==> |st.path| == st.statementAt.value + 1
    requires place.Under? ==> |st.path| > st.statementAt.value + 1
    ensures var out := Leave(g, inner);
      var after := if opens then t.(seen := Nothing) else t;
      Follows(n, st, Rows(out.row), out.st, place, isOpen,
        Stamps(if StatementRows(g) && place.Outside? && IsStatement(name) then [after.seen] else [], after))
  {
    assert Popped(inner.path) == st.path;
  }

  lemma ClosedFollows(g: Grain, n: Names, st: State, place: Place, isOpen: bool, t: Told, f: Forest)
    requires At(n, st, place, isOpen, t) && f.Closed?
    ensures var out := SelfClosing(g, st, f.name, f.binds);
      Follows(n, st, Rows(out.row), out.st, place, isOpen, StampNode(g, n, place, isOpen, st.path, f, t))
  {
    if EmptyIsRecord(g) && Handed(g, place, f.name) {
      ClosedRecordFollows(g, n, st, place, isOpen, t, f.name);
    } else {
      HeaderFollows(n, st, place, isOpen, t, f.name, f.binds);
    }
  }

  lemma ClosedRecordFollows(g: Grain, n: Names, st: State, place: Place, isOpen: bool, t: Told, name: string)
    requires At(n, st, place, isOpen, t) && EmptyIsRecord(g) && Handed(g, place, name)
    ensures var out := HandsOut(st, Eof); Follows(n, st, Rows(out.row), out.st, place, isOpen, Stamps([t.seen], t))
    ensures AtRecord(st) && name == Tag(g)
  {
  }

  lemma HeaderFollows(n: Names, st: State, place: Place, isOpen: bool, t: Told, name: string, binds: Option<string>)
    requires At(n, st, place, isOpen, t)
    ensures Follows(n, st, [], Remembers(OpensHeader(st, name), binds), place, isOpen,
      Stamps([], AtHeader(place, t, name).(envelope := OrElse(t.envelope, binds))))
  {
  }

  lemma TextFollows(n: Names, st: State, place: Place, isOpen: bool, t: Told, text: string)
    requires At(n, st, place, isOpen, t)
    ensures Follows(n, st, [], Captures(n, st, text), place, isOpen, Stamps([], AtText(n, place, st.path, t, text)))
  {
  }

  lemma {:induction false} WalkFollows(g: Grain, n: Names, st: State, place: Place, isOpen: bool, f: Forest, t: Told)
    requires At(n, st, place, isOpen, t)
    ensures var w := Walk(Camt(g, n), st, f);
      Follows(n, st, w.rows, w.st, place, isOpen, Stamp(g, n, place, isOpen, st.path, f, t))
    decreases f, 1
  {
    if !f.Nil? {
      NodeFollows(g, n, st, place, isOpen, f, t);
      var one, s := WalkNode(Camt(g, n), st, f), StampNode(g, n, place, isOpen, st.path, f, t);
      WalkFollows(g, n, one.st, place, isOpen, f.next, s.told);
      ConcatColumns(n, one.rows, Walk(Camt(g, n), one.st, f.next).rows,
        s.rows, Stamp(g, n, place, isOpen, st.path, f.next, s.told).rows);
    }
  }

  /** What a node is told to hand out and to leave, and does. */
  ghost predicate NodeTold(g: Grain, n: Names, st: State, place: Place, isOpen: bool, f: Forest, t: Told)
    requires !f.Nil?
  {
    var w := WalkNode(Camt(g, n), st, f);
    Follows(n, st, w.rows, w.st, place, isOpen, StampNode(g, n, place, isOpen, st.path, f, t))
  }

  lemma {:induction false} NodeFollows(g: Grain, n: Names, st: State, place: Place, isOpen: bool, f: Forest, t: Told)
    requires At(n, st, place, isOpen, t) && !f.Nil?
    ensures NodeTold(g, n, st, place, isOpen, f, t)
    decreases f, 0
  {
    if !f.Elem? {
      LeafFollows(g, n, st, place, isOpen, f, t);
    } else if Taken(g, place, f.name) {
      TakenNodeFollows(g, n, st, place, isOpen, f, t);
    } else {
      var opens := FamilyHere(n, isOpen, t, f.name, f.binds).Some?;
      EnterFollows(n, st, place, isOpen, t, f.name, f.binds);
      WalkFollows(g, n, Enter(n, st, f.name, f.binds), Deeper(place, f.name), isOpen || opens, f.kids,
        AtStart(n, place, isOpen, t, f.name, f.binds));
      ElementFollows(g, n, st, place, isOpen, f, t, Walk(Camt(g, n), Enter(n, st, f.name, f.binds), f.kids));
      ElementWalked(g, n, st, place, isOpen, f, t);
    }
  }

  lemma LeafFollows(g: Grain, n: Names, st: State, place: Place, isOpen: bool, f: Forest, t: Told)
    requires At(n, st, place, isOpen, t) && !f.Nil? && !f.Elem?
    ensures NodeTold(g, n, st, place, isOpen, f, t)
  {
    if f.Closed? { ClosedFollows(g, n, st, place, isOpen, t, f); }
    if f.Chars? { TextFollows(n, st, place, isOpen, t, f.text); }
  }

  lemma TakenNodeFollows(g: Grain, n: Names, st: State, place: Place, isOpen: bool, f: Forest, t: Told)
    requires At(n, st, place, isOpen, t) && f.Elem? && Taken(g, place, f.name)
    ensures NodeTold(g, n, st, place, isOpen, f, t)
  {
    TakenIsConsumed(g, n, st, place, isOpen, t, f.name);
    TakenFollows(g, n, st, place, isOpen, t, f.name, Body(f.name, f.kids));
  }

  lemma ElementWalked(g: Grain, n: Names, st: State, place: Place, isOpen: bool, f: Forest, t: Told)
    requires At(n, st, place, isOpen, t) && f.Elem? && !Taken(g, place, f.name)
    ensures var w := Walk(Camt(g, n), Enter(n, st, f.name, f.binds), f.kids);
      WalkNode(Camt(g, n), st, f) == Walked(Leave(g, w.st).st, w.rows + Rows(Leave(g, w.st).row))
  {
    TakenIsConsumed(g, n, st, place, isOpen, t, f.name);
  }

  /** An element walked into: what its content followed, its end follows. */
  lemma ElementFollows(
      g: Grain, n: Names, st: State, place: Place, isOpen: bool, f: Forest, t: Told, w: Walked<State, Row>)
    requires At(n, st, place, isOpen, t) && f.Elem? && !Taken(g, place, f.name)
    requires var inner := Enter(n, st, f.name, f.binds);
      var opens := FamilyHere(n, isOpen, t, f.name, f.binds).Some?;
      && inner.path == st.path + [f.name]
      && inner.messageAt == (if opens then Some(|st.path|) else st.messageAt)
      && inner.statementAt == (if place.Outside? && IsStatement(f.name) then Some(|st.path|) else st.statementAt)
      && Follows(n, inner, w.rows, w.st, Deeper(place, f.name), isOpen || opens,
           Stamp(g, n, Deeper(place, f.name), isOpen || opens, st.path + [f.name], f.kids,
             AtStart(n, place, isOpen, t, f.name, f.binds)))
    ensures var out := Leave(g, w.st);
      Follows(n, st, w.rows + Rows(out.row), out.st, place, isOpen, StampNode(g, n, place, isOpen, st.path, f, t))
  {
    var opens := FamilyHere(n, isOpen, t, f.name, f.binds).Some?;
    var s := Stamp(g, n, Deeper(place, f.name), isOpen || opens, st.path + [f.name], f.kids,
      AtStart(n, place, isOpen, t, f.name, f.binds));
    LeaveFollows(g, n, st, w.st, place, isOpen, opens, f.name, s.told);
    var after := if opens then s.told.(seen := Nothing) else s.told;
    ConcatColumns(n, w.rows, Rows(Leave(g, w.st).row),
      s.rows, if StatementRows(g) && place.Outside? && IsStatement(f.name) then [after.seen] else []);
  }

  // ── whole documents ──

  /** The message columns of a document's rows, in order. */
  function DocumentColumns(g: Grain, n: Names, f: Forest): seq<map<MessageField, string>> {
    Columns(n, Stamp(g, n, Outside, false, [], f, NOTHING_TOLD).rows)
  }

  function WithColumns(rows: seq<Row>, columns: seq<map<MessageField, string>>): seq<Row>
    requires |rows| == |columns|
  {
    seq(|rows|, i requires 0 <= i < |rows| => rows[i].(ctx := rows[i].ctx.(message := columns[i])))
  }

  /** Every column of every row of every well-nested document, at each grain, by recursion on the document. */
  lemma DrainIsWholeDocument(g: Grain, n: Names, f: Forest)
    ensures |DocumentColumns(g, n, f)| == |DocumentRows(g, n, f)|
    ensures Drain(Camt(g, n), INITIAL, Onto(f, Eof))
      == Drained(WithColumns(DocumentRows(g, n, f), DocumentColumns(g, n, f)),
           if Containers(g, f) == [] then WrongFile else Finished)
  {
    var d := Drain(Camt(g, n), INITIAL, Onto(f, Eof));
    DrainIsDocument(g, n, f);
    DrainIsWalk(Camt(g, n), INITIAL, f, Eof);
    WalkFollows(g, n, INITIAL, Outside, false, f, NOTHING_TOLD);
    assert d.rows == Walk(Camt(g, n), INITIAL, f).rows;
    assert |MessagesOf(d.rows)| == |DocumentColumns(g, n, f)|;
    forall i | 0 <= i < |d.rows|
      ensures d.rows[i] == WithColumns(DocumentRows(g, n, f), DocumentColumns(g, n, f))[i]
    {
      assert DocumentRows(g, n, f)[i] == Scoped(d.rows[i]) && MessagesOf(d.rows)[i] == DocumentColumns(g, n, f)[i];
    }
  }

  /** The latest text at a message field's leaf. */
  function LatestAt(n: Names, seen: Seen, field: MessageField): Option<string> {
    match seen
    case Nothing => None
    case Latest(leaf, earlier) =>
      if n.messageSlot(leaf.path) == Some(field) then Some(leaf.text) else LatestAt(n, earlier, field)
  }

  /** A message column is the latest text at its leaf since the header or the message started. */
  lemma {:induction false} ColumnMeaning(n: Names, seen: Seen, field: MessageField)
    ensures (if field in MessageOf(n, seen) then Some(MessageOf(n, seen)[field]) else None) == LatestAt(n, seen, field)
  {
    if seen.Latest? { ColumnMeaning(n, seen.earlier, field); }
  }

  // ── inside a statement ──

  /** Something walked into opens a message, where none is open. */
  predicate OpensWithin(g: Grain, n: Names, place: Place, path: seq<string>, f: Forest, t: Told)
    decreases f, 1
  {
    !f.Nil? &&
    (OpensNode(g, n, place, path, f, t)
     || OpensWithin(g, n, place, path, f.next, StampNode(g, n, place, false, path, f, t).told))
  }

  predicate OpensNode(g: Grain, n: Names, place: Place, path: seq<string>, f: Forest, t: Told)
    requires !f.Nil?
    decreases f, 0
  {
    && f.Elem? && !Taken(g, place, f.name)
    && (FamilyHere(n, false, t, f.name, f.binds).Some?
        || OpensWithin(g, n, Deeper(place, f.name), path + [f.name], f.kids,
            AtStart(n, place, false, t, f.name, f.binds)))
  }

  /** The rows handed out before anything opens a message. */
  function RowsBefore(g: Grain, n: Names, path: seq<string>, f: Forest, t: Told): nat {
    if f.Nil? || OpensNode(g, n, Child, path, f, t) then 0
    else
      var one := StampNode(g, n, Child, false, path, f, t);
      |one.rows| + RowsBefore(g, n, path, f.next, one.told)
  }

  /** Below a child nothing is handed out, and the texts stay unless something opens a message. */
  lemma {:induction false} UnderKeeps(
      g: Grain, n: Names, isOpen: bool, path: seq<string>, f: Forest, t: Told)
    ensures var s := Stamp(g, n, Under, isOpen, path, f, t);
      && s.rows == []
      && s.told.seen == (if !isOpen && OpensWithin(g, n, Under, path, f, t) then Nothing else t.seen)
    ensures t.seen == Nothing ==> Stamp(g, n, Under, isOpen, path, f, t).told.seen == Nothing
    decreases f
  {
    if !f.Nil? {
      if f.Elem? && !Taken(g, Under, f.name) {
        var opens := FamilyHere(n, isOpen, t, f.name, f.binds).Some?;
        UnderKeeps(g, n, isOpen || opens, path + [f.name], f.kids, AtStart(n, Under, isOpen, t, f.name, f.binds));
      }
      UnderKeeps(g, n, isOpen, path, f.next, StampNode(g, n, Under, isOpen, path, f, t).told);
    }
  }

  lemma ChildKeeps(g: Grain, n: Names, isOpen: bool, path: seq<string>, f: Forest, t: Told)
    requires !f.Nil?
    ensures var one := StampNode(g, n, Child, isOpen, path, f, t);
      var opens := !isOpen && OpensNode(g, n, Child, path, f, t);
      KeptUntil(one, |one.rows|, opens, t.seen) && (opens ==> one.rows == [])
  {
    if f.Elem? && !Taken(g, Child, f.name) {
      var opens := FamilyHere(n, isOpen, t, f.name, f.binds).Some?;
      UnderKeeps(g, n, isOpen || opens, path + [f.name], f.kids, AtStart(n, Child, isOpen, t, f.name, f.binds));
    }
  }

  /** The first `k` rows carry these texts, the others none; a message that opened took them away. */
  predicate KeptUntil(s: Stamps, k: nat, opens: bool, seen: Seen) {
    && k <= |s.rows|
    && (forall i | 0 <= i < |s.rows| :: s.rows[i] == if i < k then seen else Nothing)
    && s.told.seen == (if opens then Nothing else seen)
    && (!opens ==> k == |s.rows|)
  }

  lemma ChildThenRest(one: Stamps, opens: bool, rest: Stamps, k: nat, later: bool, seen: Seen)
    requires KeptUntil(one, |one.rows|, opens, seen) && (opens ==> one.rows == [])
    requires KeptUntil(rest, k, later, one.told.seen)
    ensures KeptUntil(Stamps(one.rows + rest.rows, rest.told),
      if opens then 0 else |one.rows| + k, opens || later, seen)
  {
  }

  /** The rows of a statement carry the texts it opened with up to the first message opened in it,
      and none behind that. */
  lemma {:induction false} ChildrenKeep(
      g: Grain, n: Names, isOpen: bool, path: seq<string>, f: Forest, t: Told)
    ensures var s := Stamp(g, n, Child, isOpen, path, f, t);
      var opens := !isOpen && OpensWithin(g, n, Child, path, f, t);
      KeptUntil(s, if isOpen then |s.rows| else RowsBefore(g, n, path, f, t), opens, t.seen)
    decreases f
  {
    if !f.Nil? {
      var one := StampNode(g, n, Child, isOpen, path, f, t);
      var rest := Stamp(g, n, Child, isOpen, path, f.next, one.told);
      ChildKeeps(g, n, isOpen, path, f, t);
      ChildrenKeep(g, n, isOpen, path, f.next, one.told);
      ChildThenRest(one, !isOpen && OpensNode(g, n, Child, path, f, t), rest,
        if isOpen then |rest.rows| else RowsBefore(g, n, path, f.next, one.told),
        !isOpen && OpensWithin(g, n, Child, path, f.next, one.told), t.seen);
    }
  }

  // ── a statement, with or without a message around it ──

  predicate AllCarry(rows: seq<Row>, message: map<MessageField, string>) {
    forall i | 0 <= i < |rows| :: rows[i].ctx.message == message
  }

  /** The rows of a statement's content carry the columns it opened with up to the first message that
      opens inside it where none is open around it, and empty columns behind that. */
  lemma ContentColumns(g: Grain, n: Names, st: State, isOpen: bool, f: Forest, t: Told)
    requires At(n, st, Child, isOpen, t)
    ensures var w := Walk(Camt(g, n), st, f);
      var k := if isOpen then |w.rows| else RowsBefore(g, n, st.path, f, t);
      var opens := !isOpen && OpensWithin(g, n, Child, st.path, f, t);
      && k <= |w.rows| && (!opens ==> k == |w.rows|)
      && (forall i | 0 <= i < |w.rows| :: w.rows[i].ctx.message == if i < k then st.ctx.message else map[])
      && w.st.ctx.message == (if opens then map[] else st.ctx.message)
  {
    var w := Walk(Camt(g, n), st, f);
    var s := Stamp(g, n, Child, isOpen, st.path, f, t);
    WalkFollows(g, n, st, Child, isOpen, f, t);
    ChildrenKeep(g, n, isOpen, st.path, f, t);
    assert |MessagesOf(w.rows)| == |Columns(n, s.rows)|;
    forall i | 0 <= i < |w.rows| ensures w.rows[i].ctx.message == MessageOf(n, s.rows[i]) {
      assert MessagesOf(w.rows)[i] == Columns(n, s.rows)[i];
    }
  }

  /** The rows of a statement's content carry the columns it opened with, and it leaves them so. */
  predicate Kept(w: Walked<State, Row>, message: map<MessageField, string>) {
    AllCarry(w.rows, message) && w.st.ctx.message == message
  }

  lemma ContentKeepsItsColumns(g: Grain, n: Names, st: State, isOpen: bool, f: Forest, t: Told)
    requires At(n, st, Child, isOpen, t)
    ensures Kept(Walk(Camt(g, n), st, f), st.ctx.message)
      <==> (st.ctx.message == map[] || isOpen || !OpensWithin(g, n, Child, st.path, f, t))
  {
    ContentColumns(g, n, st, isOpen, f, t);
  }

  /** The rows alone: only a message opened ahead of one of them counts. */
  lemma RecordsKeepTheirColumns(g: Grain, n: Names, st: State, isOpen: bool, f: Forest, t: Told)
    requires At(n, st, Child, isOpen, t)
    ensures var rows := Walk(Camt(g, n), st, f).rows;
      var ahead := isOpen || RowsBefore(g, n, st.path, f, t) == |rows|;
      AllCarry(rows, st.ctx.message) <==> st.ctx.message == map[] || ahead
  {
    ContentColumns(g, n, st, isOpen, f, t);
    var rows := Walk(Camt(g, n), st, f).rows;
    if !isOpen && RowsBefore(g, n, st.path, f, t) < |rows| {
      assert rows[|rows| - 1].ctx.message == map[];
    }
  }

  /** A statement keeps the columns it opened with, in its rows and behind it, exactly where a message is
      open around it or nothing in it that is walked into opens one, or where there was nothing to lose. At
      the statement grain its one row decides: it is handed out behind everything in the statement. */
  lemma StatementKeepsItsColumns(g: Grain, n: Names, st: State, isOpen: bool, f: Forest, t: Told)
    requires At(n, st, Outside, isOpen, t) && f.Elem? && IsStatement(f.name) && n.family(f.name).None?
    ensures var keeps := st.ctx.message == map[] || isOpen
        || !OpensWithin(g, n, Child, st.path + [f.name], f.kids, t.(envelope := OrElse(t.envelope, f.binds)));
      && (Kept(WalkNode(Camt(g, n), st, f), st.ctx.message) <==> keeps)
      && (StatementRows(g) ==> (AllCarry(WalkNode(Camt(g, n), st, f).rows, st.ctx.message) <==> keeps))
  {
    var inner := Enter(n, st, f.name, f.binds);
    var started := t.(envelope := OrElse(t.envelope, f.binds));
    EnterFollows(n, st, Outside, isOpen, t, f.name, f.binds);
    assert AtStart(n, Outside, isOpen, t, f.name, f.binds) == started;
    ContentKeepsItsColumns(g, n, inner, isOpen, f.kids, started);
    StatementStays(g, n, st, isOpen, f, started);
    StatementEnds(g, n, st, isOpen, f, Walk(Camt(g, n), inner, f.kids));
    RowBehind(Walk(Camt(g, n), inner, f.kids), WalkNode(Camt(g, n), st, f), StatementRows(g), st.ctx.message);
  }

  /** The content of a statement leaves the walk where the statement put it. */
  lemma StatementStays(g: Grain, n: Names, st: State, isOpen: bool, f: Forest, started: Told)
    requires f.Elem? && At(n, Enter(n, st, f.name, f.binds), Child, isOpen, started)
    ensures SamePlace(Walk(Camt(g, n), Enter(n, st, f.name, f.binds), f.kids).st, Enter(n, st, f.name, f.binds))
  {
    WalkFollows(g, n, Enter(n, st, f.name, f.binds), Child, isOpen, f.kids, started);
  }

  /** What the end of a statement adds to its content. */
  ghost predicate EndsWithRow(w: Walked<State, Row>, node: Walked<State, Row>, row: bool) {
    && node.st.ctx.message == w.st.ctx.message && w.rows <= node.rows
    && (if row then |node.rows| == |w.rows| + 1 && node.rows[|w.rows|].ctx.message == w.st.ctx.message
        else node.rows == w.rows)
  }

  lemma RowBehind(w: Walked<State, Row>, node: Walked<State, Row>, row: bool, message: map<MessageField, string>)
    requires EndsWithRow(w, node, row)
    ensures Kept(node, message) <==> Kept(w, message)
    ensures row ==> (AllCarry(node.rows, message) <==> Kept(w, message))
  {
    assert forall i | 0 <= i < |w.rows| :: node.rows[i] == w.rows[i];
  }

  /** The end of a statement adds its row, if any, with the columns its content left. */
  lemma StatementEnds(g: Grain, n: Names, st: State, isOpen: bool, f: Forest, w: Walked<State, Row>)
    requires f.Elem? && IsStatement(f.name) && isOpen == st.messageAt.Some? && st.statementAt.None?
    requires isOpen ==> st.messageAt.value < |st.path|
    requires w == Walk(Camt(g, n), Enter(n, st, f.name, f.binds), f.kids)
    requires w.st.path == st.path + [f.name] && w.st.messageAt == st.messageAt && w.st.statementAt == Some(|st.path|)
    ensures EndsWithRow(w, WalkNode(Camt(g, n), st, f), StatementRows(g))
  {
    assert Popped(w.st.path) == st.path;
    StatementWalked(g, n, st, f);
  }

  lemma StatementWalked(g: Grain, n: Names, st: State, f: Forest)
    requires f.Elem? && IsStatement(f.name) && st.statementAt.None?
    ensures var w := Walk(Camt(g, n), Enter(n, st, f.name, f.binds), f.kids);
      WalkNode(Camt(g, n), st, f) == Walked(Leave(g, w.st).st, w.rows + Rows(Leave(g, w.st).row))
  {
  }

  // ── a header and what follows it ──

  /** Content in which nothing outside a statement starts the message over or adds to it, and where no
      message is open nothing opens one. */
  predicate Settled(g: Grain, n: Names, place: Place, isOpen: bool, path: seq<string>, f: Forest)
    decreases f
  {
    match f
    case Nil => true
    case Elem(name, _, kids, next) =>
      && (Taken(g, place, name) ||
          (&& (isOpen || (name != "Document" && n.family(name).None?))
           && (place.Outside? ==> name != "GrpHdr")
           && Settled(g, n, Deeper(place, name), isOpen, path + [name], kids)))
      && Settled(g, n, place, isOpen, path, next)
    case Closed(name, _, next) => (place.Outside? ==> name != "GrpHdr") && Settled(g, n, place, isOpen, path, next)
    case Chars(_, next) => (place.Outside? ==> n.messageSlot(path).None?) && Settled(g, n, place, isOpen, path, next)
    case Noise(next) => Settled(g, n, place, isOpen, path, next)
  }

  predicate AllTell(n: Names, s: Stamps, message: map<MessageField, string>) {
    && (forall i | 0 <= i < |s.rows| :: MessageOf(n, s.rows[i]) == message)
    && MessageOf(n, s.told.seen) == message
  }

  lemma {:induction false} SettledTells(
      g: Grain, n: Names, place: Place, isOpen: bool, path: seq<string>, f: Forest, t: Told)
    requires Settled(g, n, place, isOpen, path, f)
    ensures AllTell(n, Stamp(g, n, place, isOpen, path, f, t), MessageOf(n, t.seen))
    decreases f
  {
    if !f.Nil? {
      if f.Elem? && !Taken(g, place, f.name) {
        assert FamilyHere(n, isOpen, t, f.name, f.binds).None?;
        SettledTells(g, n, Deeper(place, f.name), isOpen, path + [f.name], f.kids,
            AtStart(n, place, isOpen, t, f.name, f.binds));
      }
      var one := StampNode(g, n, place, isOpen, path, f, t);
      SettledTells(g, n, place, isOpen, path, f.next, one.told);
    }
  }

  /** A group header that holds no header, message or statement of its own. */
  predicate PlainHeader(n: Names, isOpen: bool, f: Forest)
    decreases f
  {
    match f
    case Nil => true
    case Elem(name, _, kids, next) =>
      && name != "GrpHdr" && (isOpen || (name != "Document" && n.family(name).None?)) && !IsStatement(name)
      && PlainHeader(n, isOpen, kids) && PlainHeader(n, isOpen, next)
    case Closed(name, _, next) => name != "GrpHdr" && PlainHeader(n, isOpen, next)
    case _ => PlainHeader(n, isOpen, f.next)
  }

  /** The texts of a plain header, and nothing else, are added to what is known. */
  lemma {:induction false} HeaderTexts(g: Grain, n: Names, isOpen: bool, path: seq<string>, f: Forest, t: Told)
    requires PlainHeader(n, isOpen, f)
    ensures Stamp(g, n, Outside, isOpen, path, f, t).told.seen == Reading(g, path, f, t.seen)
    ensures Stamp(g, n, Outside, isOpen, path, f, t).rows == []
    decreases f
  {
    if !f.Nil? {
      if f.Elem? && !Taken(g, Outside, f.name) {
        HeaderTexts(g, n, isOpen, path + [f.name], f.kids, AtStart(n, Outside, isOpen, t, f.name, f.binds));
      }
      HeaderTexts(g, n, isOpen, path, f.next, StampNode(g, n, Outside, isOpen, path, f, t).told);
    }
  }

  predicate IsHeader(n: Names, isOpen: bool, f: Forest) {
    || (f.Elem? && f.name == "GrpHdr" && PlainHeader(n, isOpen, f.kids))
    || (f.Closed? && f.name == "GrpHdr")
  }

  /** What a header states; a self-closing one nothing. */
  function Stated(g: Grain, path: seq<string>, header: Forest): Seen {
    if header.Elem? then Reading(g, path + ["GrpHdr"], header.kids, Nothing) else Nothing
  }

  /** Every row behind a group header carries that header's texts and no other's, whatever white space, text
      and statements lie between, up to the next header or message: in a message and in none. */
  lemma RowsCarryTheirHeader(g: Grain, n: Names, st: State, isOpen: bool, f: Forest, t: Told)
    requires At(n, st, Outside, isOpen, t) && IsHeader(n, isOpen, f) && n.family("GrpHdr").None?
    requires Settled(g, n, Outside, isOpen, st.path, f.next)
    ensures AllCarry(Walk(Camt(g, n), st, f).rows, MessageOf(n, Stated(g, st.path, f)))
  {
    var path := st.path;
    if f.Elem? {
      HeaderTexts(g, n, isOpen, path + ["GrpHdr"], f.kids, AtStart(n, Outside, isOpen, t, "GrpHdr", f.binds));
    }
    var one := StampNode(g, n, Outside, isOpen, path, f, t);
    assert one.told.seen == Stated(g, path, f) && one.rows == [];
    SettledTells(g, n, Outside, isOpen, path, f.next, one.told);
    WalkFollows(g, n, st, Outside, isOpen, f, t);
    var rows := Walk(Camt(g, n), st, f).rows;
    var s := Stamp(g, n, Outside, isOpen, path, f, t);
    forall i | 0 <= i < |rows| ensures rows[i].ctx.message == MessageOf(n, Stated(g, path, f)) {
      assert MessagesOf(rows)[i] == Columns(n, s.rows)[i];
    }
  }

  // ── where a statement does lose its columns ──

  /** Two entries of one statement, and a message element between them. */
  function SplitEntries(): Forest {
    Elem("Ntry", None, Nil, Elem("BkToCstmrStmt", None, Nil, Elem("Ntry", None, Nil, Nil)))
  }

  /** The same in a file without a message. */
  function SplitStatement(): Forest {
    var id := Elem("MsgId", None, Chars("A", Nil), Nil);
    Elem("Doc", None, Elem("GrpHdr", None, id, Elem("Stmt", None, SplitEntries(), Nil)), Nil)
  }

  /** The first of them carries the message id its statement opened with, the second none. */
  lemma SplitStatementLosesItsMessage()
    ensures var rows := Drain(Camt(Entries, ISO), INITIAL, Onto(SplitStatement(), Eof)).rows;
      |rows| == 2 && rows[0].ctx.message == map[MsgId := "A"] && rows[1].ctx.message == map[]
  {
    SplitFamilies();
    SplitColumns(ISO);
    DrainIsWholeDocument(Entries, ISO, SplitStatement());
  }

  lemma SplitFamilies()
    ensures ISO.family("Doc").None? && ISO.family("GrpHdr").None? && ISO.family("MsgId").None?
      && ISO.family("Stmt").None?
    ensures ISO.family("BkToCstmrStmt").Some?
    ensures ISO.messageSlot(["Doc", "GrpHdr", "MsgId"]) == Some(MsgId)
  {
    assert ["Doc", "GrpHdr", "MsgId"][1..] == ["GrpHdr", "MsgId"];
  }

  lemma SplitEntriesStamps(n: Names, path: seq<string>, t: Told)
    requires n.family("BkToCstmrStmt").Some? && t == Told(t.seen, None, None)
    ensures Stamp(Entries, n, Child, false, path, SplitEntries(), t) == Stamps([t.seen, Nothing], NOTHING_TOLD)
  {
    var second := Elem("Ntry", None, Nil, Nil);
    var opener := Elem("BkToCstmrStmt", None, Nil, second);
    assert Stamp(Entries, n, Under, true, path + ["BkToCstmrStmt"], Nil, NOTHING_TOLD) == Stamps([], NOTHING_TOLD);
    assert StampNode(Entries, n, Child, false, path, opener, t) == Stamps([], NOTHING_TOLD);
    assert Stamp(Entries, n, Child, false, path, Nil, NOTHING_TOLD) == Stamps([], NOTHING_TOLD);
    assert StampNode(Entries, n, Child, false, path, second, NOTHING_TOLD) == Stamps([Nothing], NOTHING_TOLD);
    assert Stamp(Entries, n, Child, false, path, second, NOTHING_TOLD) == Stamps([Nothing], NOTHING_TOLD);
    assert Stamp(Entries, n, Child, false, path, opener, t) == Stamps([Nothing], NOTHING_TOLD);
    assert StampNode(Entries, n, Child, false, path, SplitEntries(), t) == Stamps([t.seen], t);
  }

  lemma HeaderStamps(n: Names, next: Forest)
    requires n.family("GrpHdr").None? && n.family("MsgId").None?
    ensures var seen := Latest(Leaf(["Doc", "GrpHdr", "MsgId"], "A"), Nothing);
      var header := Elem("GrpHdr", None, Elem("MsgId", None, Chars("A", Nil), Nil), next);
      StampNode(Entries, n, Outside, false, ["Doc"], header, NOTHING_TOLD) == Stamps([], Told(seen, None, None))
  {
    var path := ["Doc"] + ["GrpHdr"] + ["MsgId"];
    assert path == ["Doc", "GrpHdr", "MsgId"];
    var told := Told(Latest(Leaf(path, "A"), Nothing), None, None);
    assert !EndsWith(path, ["AppHdr", "MsgDefIdr"]) by { assert path[1..][0] == "GrpHdr"; }
    assert Stamp(Entries, n, Outside, false, path, Nil, told) == Stamps([], told);
    assert Stamp(Entries, n, Outside, false, path, Chars("A", Nil), NOTHING_TOLD) == Stamps([], told);
    var id := Elem("MsgId", None, Chars("A", Nil), Nil);
    assert StampNode(Entries, n, Outside, false, ["Doc"] + ["GrpHdr"], id, NOTHING_TOLD) == Stamps([], told);
    assert Stamp(Entries, n, Outside, false, ["Doc"] + ["GrpHdr"], Nil, told) == Stamps([], told);
    assert Stamp(Entries, n, Outside, false, ["Doc"] + ["GrpHdr"], id, NOTHING_TOLD) == Stamps([], told);
  }

  lemma StatementStamps(n: Names, f: Forest, told: Told)
    requires f.Elem? && f.name == "Stmt" && f.kids == SplitEntries() && f.next.Nil? && f.binds.None?
    requires told == Told(told.seen, None, None) && n.family("Stmt").None? && n.family("BkToCstmrStmt").Some?
    ensures Stamp(Entries, n, Outside, false, ["Doc"], f, told) == Stamps([told.seen, Nothing], NOTHING_TOLD)
  {
    SplitEntriesStamps(n, ["Doc"] + ["Stmt"], told);
    assert StampNode(Entries, n, Outside, false, ["Doc"], f, told) == Stamps([told.seen, Nothing], NOTHING_TOLD);
    assert Stamp(Entries, n, Outside, false, ["Doc"], Nil, NOTHING_TOLD) == Stamps([], NOTHING_TOLD);
  }

  lemma RootStamps(n: Names, f: Forest, s: Stamps)
    requires f.Elem? && f.name == "Doc" && f.next.Nil? && f.binds.None? && n.family("Doc").None?
    requires Stamp(Entries, n, Outside, false, ["Doc"], f.kids, NOTHING_TOLD) == s && s.told == NOTHING_TOLD
    ensures Stamp(Entries, n, Outside, false, [], f, NOTHING_TOLD) == s
  {
    assert [] + ["Doc"] == ["Doc"];
    assert StampNode(Entries, n, Outside, false, [], f, NOTHING_TOLD).rows == s.rows;
    assert Stamp(Entries, n, Outside, false, [], Nil, NOTHING_TOLD) == Stamps([], NOTHING_TOLD);
  }

  lemma SplitColumns(n: Names)
    requires n.family("Doc").None? && n.family("GrpHdr").None? && n.family("MsgId").None? && n.family("Stmt").None?
    requires n.family("BkToCstmrStmt").Some? && n.messageSlot(["Doc", "GrpHdr", "MsgId"]) == Some(MsgId)
    ensures DocumentColumns(Entries, n, SplitStatement()) == [map[MsgId := "A"], map[]]
  {
    var seen := Latest(Leaf(["Doc", "GrpHdr", "MsgId"], "A"), Nothing);
    var statement := Elem("Stmt", None, SplitEntries(), Nil);
    HeaderStamps(n, statement);
    StatementStamps(n, statement, Told(seen, None, None));
    assert Stamp(Entries, n, Outside, false, ["Doc"], SplitStatement().kids, NOTHING_TOLD)
      == Stamps([] + [seen, Nothing], NOTHING_TOLD);
    RootStamps(n, SplitStatement(), Stamps([seen, Nothing], NOTHING_TOLD));
    assert MessageOf(n, Nothing) == map[] && MessageOf(n, seen) == map[MsgId := "A"];
  }
}
