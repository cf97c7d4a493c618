/**
  What the statement walk means on a whole document: the containers of the
  tree, the records inside each, and the context each record is handed out
  with, defined without the machine and proved equal to it.
*/
module StatementTree {
  import opened Options
  import opened Xml
  import opened TreeMachine
  import opened StatementWalk

  // ── the document, without the machine ──

  /** A per-account container: its element name and its children. */
  datatype Container = Container(kind: string, kids: Forest)

  /** The outermost containers outside any skipped element, in document order. */
  function Containers(g: Grain, f: Forest): seq<Container>
    decreases f, 1
  {
    if f.Nil? then [] else ContainersOf(g, f) + Containers(g, f.next)
  }

  /** Those of the first node alone. */
  function ContainersOf(g: Grain, f: Forest): seq<Container>
    requires !f.Nil?
    decreases f, 0
  {
    if !f.Elem? || f.name == Skipped(g) then []
    else if IsStatement(f.name) then [Container(f.name, f.kids)]
    else Containers(g, f.kids)
  }

  /** A text and the path of elements above it. */
  datatype Leaf = Leaf(path: seq<string>, text: string)

  /** The texts read so far, the latest first. */
  datatype Seen = Nothing | Latest(leaf: Leaf, earlier: Seen)

  /** The texts under `path` that no skipped element hides, read after `seen`. */
  function Reading(g: Grain, path: seq<string>, f: Forest, seen: Seen): Seen
    decreases f, 1
  {
    if f.Nil? then seen else Reading(g, path, f.next, ReadingNode(g, path, f, seen))
  }

  /** The texts of the first node alone. */
  function ReadingNode(g: Grain, path: seq<string>, f: Forest, seen: Seen): Seen
    requires !f.Nil?
    decreases f, 0
  {
    match f
    case Elem(name, _, kids, _) => if name == Skipped(g) then seen else Reading(g, path + [name], kids, seen)
    case Chars(text, _) => Latest(Leaf(path, text), seen)
    case _ => seen
  }

  /** The fields those texts leave behind. */
  function FieldsOf(n: Names, seen: Seen): map<Field, string> {
    match seen
    case Nothing => map[]
    case Latest(leaf, earlier) => Put(n, FieldsOf(n, earlier), leaf.path, leaf.text)
  }

  /** What has been read of one container so far. */
  datatype Tally = Tally(seen: Seen, records: nat, entries: nat, balances: nat)

  const NOTHING_READ := Tally(Nothing, 0, 0, 0)

  /** The context of container number `index`, from its own content alone. */
  function ContextOf(n: Names, kind: string, index: nat, t: Tally): Context {
    Context(map[], Some(kind), index, FieldsOf(n, t.seen), t.entries, t.balances)
  }

  datatype Content = Content(rows: seq<Row>, tally: Tally)

  /** What one child of container number `index` adds: a row at most, and to the tally. */
  function ChildOf(g: Grain, n: Names, kind: string, index: nat, f: Forest, t: Tally): Content
    requires !f.Nil?
  {
    var record := t.(records := t.records + 1);
    match f
    case Elem(name, _, kids, _) =>
      if StatementRows(g) && name == "Ntry" then Content([], t.(entries := t.entries + 1))
      else if StatementRows(g) && name == "Bal" then Content([], t.(balances := t.balances + 1))
      else if name == Tag(g) then Content([Row(record.records, Body(name, kids), ContextOf(n, kind, index, t))], record)
      else Content([], t.(seen := ReadingNode(g, [], f, t.seen)))
    case Closed(name, _, _) =>
      if StatementRows(g) && name == "Bal" then Content([], t.(balances := t.balances + 1))
      else if EmptyIsRecord(g) && name == Tag(g) then
        Content([Row(record.records, Eof, ContextOf(n, kind, index, t))], record)
      else Content([], t)
    case _ => Content([], t.(seen := ReadingNode(g, [], f, t.seen)))
  }

  /** The rows of one container's children, numbered from the tally on. */
  function ContentOf(g: Grain, n: Names, kind: string, index: nat, f: Forest, t: Tally): Content {
    if f.Nil? then Content([], t)
    else
      var one := ChildOf(g, n, kind, index, f, t);
      var rest := ContentOf(g, n, kind, index, f.next, one.tally);
      Content(one.rows + rest.rows, rest.tally)
  }

  /** Every row of container number `index`: its records, and at the statement grain the container itself. */
  function ContainerRows(g: Grain, n: Names, c: Container, index: nat): seq<Row> {
    var content := ContentOf(g, n, c.kind, index, c.kids, NOTHING_READ);
    content.rows + if StatementRows(g) then [Row(index, Eof, ContextOf(n, c.kind, index, content.tally))] else []
  }

  /** Every row of a document, the first container of which is number `index`. */
  function RowsFrom(g: Grain, rowsOf: (Container, nat) -> seq<Row>, f: Forest, index: nat): seq<Row>
    decreases f, 1
  {
    if f.Nil? then []
    else RowsOfNode(g, rowsOf, f, index) + RowsFrom(g, rowsOf, f.next, index + |ContainersOf(g, f)|)
  }

  function RowsOfNode(g: Grain, rowsOf: (Container, nat) -> seq<Row>, f: Forest, index: nat): seq<Row>
    requires !f.Nil?
    decreases f, 0
  {
    if !f.Elem? || f.name == Skipped(g) then []
    else if IsStatement(f.name) then rowsOf(Container(f.name, f.kids), index)
    else RowsFrom(g, rowsOf, f.kids, index)
  }

  function DocumentRows(g: Grain, n: Names, f: Forest): seq<Row> {
    RowsFrom(g, ContainersRows(g, n), f, 1)
  }

  // ── the machine, as far as a container decides it ──

  /** A row with its message columns emptied. */
  function Scoped(row: Row): Row { row.(ctx := row.ctx.(message := map[])) }

  function ScopedRows(rows: seq<Row>): seq<Row> {
    seq(|rows|, i requires 0 <= i < |rows| => Scoped(rows[i]))
  }

  lemma ScopedConcat(a: seq<Row>, b: seq<Row>)
    ensures ScopedRows(a + b) == ScopedRows(a) + ScopedRows(b)
  {
  }

  /** The part of the state that message identity has no say in. */
  datatype Core = Core(
    path: seq<string>, statementAt: Option<nat>, sawStatement: bool, statements: nat, records: nat, ctx: Context)

  function CoreOf(st: State): Core {
    Core(st.path, st.statementAt, st.sawStatement, st.statements, st.records, st.ctx.(message := map[]))
  }

  /** The core at a child of container number `index`, after the tally. */
  predicate InContainer(n: Names, st: State, above: seq<string>, kind: string, index: nat, t: Tally) {
    CoreOf(st) == Core(above + [kind], Some(|above|), true, index, t.records, ContextOf(n, kind, index, t))
  }

  /** Inside the statement and below one of its children. */
  predicate BelowChild(st: State) {
    st.statementAt.Some? && |st.path| > st.statementAt.value + 1
  }

  /** What each event does below a child of the statement: push, pop, capture, or skip whole. */
  ghost predicate StepsBelowChild(g: Grain, n: Names, m: Machine<State, Row>) {
    LeavesBelowChild(g, m) && ElementsBelowChild(n, m)
  }

  ghost predicate LeavesBelowChild(g: Grain, m: Machine<State, Row>) {
    && (forall st, name | BelowChild(st) :: m.consumes(st, name) == (name == Skipped(g)))
    && (forall st, name, body | BelowChild(st) && name == Skipped(g) :: m.consume(st, name, body) == Out(st, None))
    && (forall st, name, binds | BelowChild(st) ::
          var out := m.empty(st, name, binds); CoreOf(out.st) == CoreOf(st) && out.row == None)
  }

  ghost predicate ElementsBelowChild(n: Names, m: Machine<State, Row>) {
    && (forall st, name, binds | BelowChild(st) ::
          CoreOf(m.enter(st, name, binds)) == CoreOf(st).(path := st.path + [name]))
    && (forall st, text | BelowChild(st) ::
          CoreOf(m.text(st, text)) == WithFields(CoreOf(st), Put(n, st.ctx.fields, Below(st), text)))
    && (forall st, path, name | BelowChild(st) && st.path == path + [name] && |path| > st.statementAt.value + 1 ::
          var out := m.leave(st, name); CoreOf(out.st) == CoreOf(st).(path := path) && out.row == None)
  }

  function WithFields(c: Core, fields: map<Field, string>): Core { c.(ctx := c.ctx.(fields := fields)) }

  /** No element opened inside a statement changes anything but the path, and message identity. */
  lemma EnterInside(n: Names, st: State, name: string, binds: Option<string>)
    requires st.statementAt.Some?
    ensures CoreOf(Enter(n, st, name, binds)) == CoreOf(st).(path := st.path + [name])
  {
  }

  lemma CloseInside(st: State, path: seq<string>, name: string)
    requires st.path == path + [name] && st.statementAt.Some? && |path| > st.statementAt.value
    ensures CoreOf(Closes(st)) == CoreOf(st).(path := path)
    ensures !ClosesStatement(st)
  {
  }

  lemma CamtLeavesBelowChild(g: Grain, n: Names)
    ensures LeavesBelowChild(g, Camt(g, n))
  {
  }

  lemma TextBelow(n: Names, st: State, text: string)
    requires BelowChild(st)
    ensures CoreOf(Captures(n, st, text)) == WithFields(CoreOf(st), Put(n, st.ctx.fields, Below(st), text))
  {
  }

  lemma LeaveBelow(g: Grain, st: State, path: seq<string>, name: string)
    requires BelowChild(st) && st.path == path + [name] && |path| > st.statementAt.value + 1
    ensures var out := Leave(g, st); CoreOf(out.st) == CoreOf(st).(path := path) && out.row == None
  {
    CloseInside(st, path, name);
  }

  lemma CamtElementsBelowChild(g: Grain, n: Names)
    ensures ElementsBelowChild(n, Camt(g, n))
  {
    var m := Camt(g, n);
    forall st, name, binds | BelowChild(st)
      ensures CoreOf(m.enter(st, name, binds)) == CoreOf(st).(path := st.path + [name])
    {
      EnterInside(n, st, name, binds);
    }
    forall st, text | BelowChild(st)
      ensures CoreOf(m.text(st, text)) == WithFields(CoreOf(st), Put(n, st.ctx.fields, Below(st), text))
    {
      TextBelow(n, st, text);
    }
    forall st, path, name | BelowChild(st) && st.path == path + [name] && |path| > st.statementAt.value + 1
      ensures var out := m.leave(st, name); CoreOf(out.st) == CoreOf(st).(path := path) && out.row == None
    {
      LeaveBelow(g, st, path, name);
    }
  }

  lemma CamtBelowChild(g: Grain, n: Names)
    ensures StepsBelowChild(g, n, Camt(g, n))
  {
    CamtLeavesBelowChild(g, n);
    CamtElementsBelowChild(g, n);
  }

  lemma BelowEntered(st: State, inner: State, name: string)
    requires BelowChild(st) && inner.statementAt == st.statementAt && inner.path == st.path + [name]
    ensures BelowChild(inner) && Below(inner) == Below(st) + [name]
  {
  }

  /** Below a child of the statement, the walk hands out nothing and only captures. */
  lemma {:induction false} WalkBelowChild(g: Grain, n: Names, m: Machine<State, Row>, st: State, f: Forest, seen: Seen)
    requires StepsBelowChild(g, n, m) && BelowChild(st) && st.ctx.fields == FieldsOf(n, seen)
    ensures Walk(m, st, f).rows == []
    ensures CoreOf(Walk(m, st, f).st) == WithFields(CoreOf(st), FieldsOf(n, Reading(g, Below(st), f, seen)))
    decreases f, 1
  {
    if !f.Nil? {
      WalkNodeBelowChild(g, n, m, st, f, seen);
      var one := WalkNode(m, st, f);
      WalkBelowChild(g, n, m, one.st, f.next, ReadingNode(g, Below(st), f, seen));
      BelowOneThenRest(g, n, m, st, f, seen, one, Walk(m, one.st, f.next));
    }
  }

  lemma BelowOneThenRest(
      g: Grain, n: Names, m: Machine<State, Row>, st: State, f: Forest, seen: Seen,
      one: Walked<State, Row>, rest: Walked<State, Row>)
    requires !f.Nil? && one == WalkNode(m, st, f) && rest == Walk(m, one.st, f.next)
    requires one.rows == [] && rest.rows == []
    requires CoreOf(one.st) == WithFields(CoreOf(st), FieldsOf(n, ReadingNode(g, Below(st), f, seen)))
    requires CoreOf(rest.st) == WithFields(CoreOf(one.st),
      FieldsOf(n, Reading(g, Below(st), f.next, ReadingNode(g, Below(st), f, seen))))
    ensures Walk(m, st, f).rows == []
    ensures CoreOf(Walk(m, st, f).st) == WithFields(CoreOf(st), FieldsOf(n, Reading(g, Below(st), f, seen)))
  {
  }

  lemma {:induction false} WalkNodeBelowChild(g: Grain, n: Names, m: Machine<State, Row>, st: State, f: Forest,
      seen: Seen)
    requires StepsBelowChild(g, n, m) && BelowChild(st) && st.ctx.fields == FieldsOf(n, seen) && !f.Nil?
    ensures WalkNode(m, st, f).rows == []
    ensures CoreOf(WalkNode(m, st, f).st) == WithFields(CoreOf(st), FieldsOf(n, ReadingNode(g, Below(st), f, seen)))
    decreases f, 0
  {
    if f.Elem? && f.name != Skipped(g) {
      var inner := m.enter(st, f.name, f.binds);
      BelowEntered(st, inner, f.name);
      WalkBelowChild(g, n, m, inner, f.kids, seen);
    }
  }

  /** One child of an open container: its rows and its effect are the container's own. */
  lemma WalkChild(
      g: Grain, n: Names, st: State, above: seq<string>, kind: string, index: nat, t: Tally, f: Forest)
    requires InContainer(n, st, above, kind, index, t) && !f.Nil?
    ensures var w := WalkNode(Camt(g, n), st, f);
            var c := ChildOf(g, n, kind, index, f, t);
            ScopedRows(w.rows) == c.rows && InContainer(n, w.st, above, kind, index, c.tally)
  {
    assert Below(st) == [];
    if f.Elem? && !Consumes(g, st, f.name) {
      CamtBelowChild(g, n);
      CamtIntoChild(g, n, st, f.name);
      WalkIntoChild(g, n, Camt(g, n), st, f, t.seen);
    }
  }

  /** Entering and leaving a child that is walked into move the path and nothing else of the core. */
  ghost predicate StepsIntoChild(m: Machine<State, Row>, st: State, name: string) {
    && (forall binds :: CoreOf(m.enter(st, name, binds)) == CoreOf(st).(path := st.path + [name]))
    && (forall inner: State | inner.path == st.path + [name] && inner.statementAt == st.statementAt ::
          var out := m.leave(inner, name); CoreOf(out.st) == CoreOf(inner).(path := st.path) && out.row == None)
  }

  lemma CamtIntoChild(g: Grain, n: Names, st: State, name: string)
    requires AtRecord(st)
    ensures StepsIntoChild(Camt(g, n), st, name)
  {
    forall binds ensures CoreOf(Camt(g, n).enter(st, name, binds)) == CoreOf(st).(path := st.path + [name]) {
      EnterInside(n, st, name, binds);
    }
    forall inner: State | inner.path == st.path + [name] && inner.statementAt == st.statementAt
      ensures var out := Camt(g, n).leave(inner, name);
        CoreOf(out.st) == CoreOf(inner).(path := st.path) && out.row == None
    {
      CloseInside(inner, st.path, name);
    }
  }

  lemma WalkIntoChild(g: Grain, n: Names, m: Machine<State, Row>, st: State, f: Forest, seen: Seen)
    requires StepsBelowChild(g, n, m)
    requires f.Elem? && StepsIntoChild(m, st, f.name) && !m.consumes(st, f.name) && f.name != Skipped(g)
    requires AtRecord(st) && st.ctx.fields == FieldsOf(n, seen)
    ensures WalkNode(m, st, f).rows == []
    ensures CoreOf(WalkNode(m, st, f).st) == WithFields(CoreOf(st), FieldsOf(n, ReadingNode(g, [], f, seen)))
  {
    var inner := m.enter(st, f.name, f.binds);
    assert Below(inner) == [] + [f.name];
    WalkBelowChild(g, n, m, inner, f.kids, seen);
  }

  /** The children of an open container, in order: their rows are the container's. */
  lemma {:induction false} WalkChildren(
      g: Grain, n: Names, st: State, above: seq<string>, kind: string, index: nat, t: Tally, f: Forest)
    requires InContainer(n, st, above, kind, index, t)
    ensures var w := Walk(Camt(g, n), st, f);
            var c := ContentOf(g, n, kind, index, f, t);
            ScopedRows(w.rows) == c.rows && InContainer(n, w.st, above, kind, index, c.tally)
    decreases f
  {
    if !f.Nil? {
      var one := WalkNode(Camt(g, n), st, f);
      WalkChild(g, n, st, above, kind, index, t, f);
      var t' := ChildOf(g, n, kind, index, f, t).tally;
      WalkChildren(g, n, one.st, above, kind, index, t', f.next);
      ScopedConcat(one.rows, Walk(Camt(g, n), one.st, f.next).rows);
    }
  }

  /** A container opened outside any other: its rows, and the state back outside. */
  lemma WalkContainer(g: Grain, n: Names, st: State, f: Forest)
    requires st.statementAt.None? && f.Elem? && IsStatement(f.name)
    ensures var w := WalkNode(Camt(g, n), st, f);
            && ScopedRows(w.rows) == ContainerRows(g, n, Container(f.name, f.kids), st.statements + 1)
            && BackOutside(st, w.st, 1)
  {
    var m := Camt(g, n);
    var index := st.statements + 1;
    assert !Consumes(g, st, f.name);
    var inner := Enter(n, st, f.name, f.binds);
    assert InContainer(n, inner, st.path, f.name, index, NOTHING_READ);
    WalkChildren(g, n, inner, st.path, f.name, index, NOTHING_READ, f.kids);
    var w := Walk(m, inner, f.kids);
    LeaveContainer(g, n, w.st, st.path, f.name, index, ContentOf(g, n, f.name, index, f.kids, NOTHING_READ).tally);
    ScopedConcat(w.rows, Rows(Leave(g, w.st).row));
  }

  /** Outside again where the walk was, `count` containers later. */
  predicate BackOutside(before: State, after: State, count: nat) {
    && after.statementAt == None
    && after.path == before.path
    && after.statements == before.statements + count
    && after.sawStatement == (before.sawStatement || count > 0)
  }

  lemma LeaveContainer(g: Grain, n: Names, st: State, above: seq<string>, kind: string, index: nat, t: Tally)
    requires InContainer(n, st, above, kind, index, t)
    ensures var out := Leave(g, st);
            && ScopedRows(Rows(out.row))
               == (if StatementRows(g) then [Row(index, Eof, ContextOf(n, kind, index, t))] else [])
            && out.st.statementAt == None && out.st.path == above && out.st.statements == index && out.st.sawStatement
  {
    assert Popped(st.path) == above;
  }

  // what each event does outside every container

  lemma EmptyOutside(g: Grain, st: State, name: string, binds: Option<string>)
    requires st.statementAt.None?
    ensures var out := SelfClosing(g, st, name, binds); BackOutside(st, out.st, 0) && out.row == None
  {
  }

  lemma TextOutside(n: Names, st: State, text: string)
    requires st.statementAt.None?
    ensures BackOutside(st, Captures(n, st, text), 0)
  {
  }

  lemma EnterOutside(n: Names, st: State, name: string, binds: Option<string>)
    requires st.statementAt.None? && !IsStatement(name)
    ensures BackOutside(st.(path := st.path + [name]), Enter(n, st, name, binds), 0)
  {
  }

  lemma LeaveOutside(g: Grain, st: State, path: seq<string>, name: string)
    requires st.statementAt.None? && st.path == path + [name]
    ensures var out := Leave(g, st); BackOutside(st.(path := path), out.st, 0) && out.row == None
  {
  }

  function ContainersRows(g: Grain, n: Names): (Container, nat) -> seq<Row> {
    (c, i: nat) => ContainerRows(g, n, c, i)
  }

  /** What some content hands out outside every container, and where it leaves the walk. */
  ghost predicate ContentOutside(g: Grain, n: Names, st: State, f: Forest, w: Walked<State, Row>) {
    && ScopedRows(w.rows) == RowsFrom(g, ContainersRows(g, n), f, st.statements + 1)
    && BackOutside(st, w.st, |Containers(g, f)|)
  }

  /** What one node hands out there. */
  ghost predicate NodeOutside(g: Grain, n: Names, st: State, f: Forest, w: Walked<State, Row>)
    requires !f.Nil?
  {
    && ScopedRows(w.rows) == RowsOfNode(g, ContainersRows(g, n), f, st.statements + 1)
    && BackOutside(st, w.st, |ContainersOf(g, f)|)
  }

  /** The whole walk outside every container: each outermost container in turn, numbered on. */
  lemma {:induction false} WalkOutside(g: Grain, n: Names, st: State, f: Forest)
    requires st.statementAt.None?
    ensures ContentOutside(g, n, st, f, Walk(Camt(g, n), st, f))
    decreases f, 1
  {
    if f.Nil? {
      assert ScopedRows([]) == [];
    } else {
      WalkNodeOutside(g, n, st, f);
      var one := WalkNode(Camt(g, n), st, f);
      WalkOutside(g, n, one.st, f.next);
      OneThenRest(g, n, st, f, one, Walk(Camt(g, n), one.st, f.next));
      WalkInTurn(Camt(g, n), st, f);
    }
  }

  lemma WalkInTurn(m: Machine<State, Row>, st: State, f: Forest)
    requires !f.Nil?
    ensures var one := WalkNode(m, st, f); Walk(m, st, f) == Walk(m, one.st, f.next).After(one.rows)
  {
  }

  lemma OneThenRest(
      g: Grain, n: Names, st: State, f: Forest, one: Walked<State, Row>, rest: Walked<State, Row>)
    requires !f.Nil? && NodeOutside(g, n, st, f, one) && ContentOutside(g, n, one.st, f.next, rest)
    ensures ContentOutside(g, n, st, f, rest.After(one.rows))
  {
    RowsOneByOne(g, ContainersRows(g, n), f, st.statements + 1, one.rows, rest.rows);
    BackTwice(g, f, st, one.st, rest.st);
  }

  lemma RowsOneByOne(
      g: Grain, rowsOf: (Container, nat) -> seq<Row>, f: Forest, index: nat, one: seq<Row>, rest: seq<Row>)
    requires !f.Nil? && ScopedRows(one) == RowsOfNode(g, rowsOf, f, index)
    requires ScopedRows(rest) == RowsFrom(g, rowsOf, f.next, index + |ContainersOf(g, f)|)
    ensures ScopedRows(one + rest) == RowsFrom(g, rowsOf, f, index)
  {
    ScopedConcat(one, rest);
  }

  lemma BackTwice(g: Grain, f: Forest, before: State, between: State, after: State)
    requires !f.Nil? && BackOutside(before, between, |ContainersOf(g, f)|)
    requires BackOutside(between, after, |Containers(g, f.next)|)
    ensures BackOutside(before, after, |Containers(g, f)|)
  {
  }

  lemma {:induction false} WalkNodeOutside(g: Grain, n: Names, st: State, f: Forest)
    requires st.statementAt.None? && !f.Nil?
    ensures NodeOutside(g, n, st, f, WalkNode(Camt(g, n), st, f))
    decreases f, 0
  {
    if !f.Elem? || f.name == Skipped(g) {
      LeafOutside(g, n, st, f);
    } else if IsStatement(f.name) {
      ContainerOutside(g, n, st, f);
    } else {
      EnterOutside(n, st, f.name, f.binds);
      WalkOutside(g, n, Enter(n, st, f.name, f.binds), f.kids);
      ElementOutside(g, n, st, f, Walk(Camt(g, n), Enter(n, st, f.name, f.binds), f.kids));
    }
  }

  lemma ContainerOutside(g: Grain, n: Names, st: State, f: Forest)
    requires st.statementAt.None? && f.Elem? && IsStatement(f.name) && f.name != Skipped(g)
    ensures NodeOutside(g, n, st, f, WalkNode(Camt(g, n), st, f))
  {
    WalkContainer(g, n, st, f);
    RowsOfContainer(g, n, f, st.statements + 1);
  }

  lemma RowsOfContainer(g: Grain, n: Names, f: Forest, index: nat)
    requires f.Elem? && IsStatement(f.name) && f.name != Skipped(g)
    ensures RowsOfNode(g, ContainersRows(g, n), f, index) == ContainerRows(g, n, Container(f.name, f.kids), index)
    ensures |ContainersOf(g, f)| == 1
  {
  }

  lemma LeafOutside(g: Grain, n: Names, st: State, f: Forest)
    requires st.statementAt.None? && !f.Nil? && (!f.Elem? || f.name == Skipped(g))
    ensures NodeOutside(g, n, st, f, WalkNode(Camt(g, n), st, f))
  {
    if f.Closed? { EmptyOutside(g, st, f.name, f.binds); }
    if f.Chars? { TextOutside(n, st, f.text); }
  }

  lemma ElementOutside(g: Grain, n: Names, st: State, f: Forest, w: Walked<State, Row>)
    requires st.statementAt.None? && f.Elem? && f.name != Skipped(g) && !IsStatement(f.name)
    requires BackOutside(st.(path := st.path + [f.name]), Enter(n, st, f.name, f.binds), 0)
    requires w == Walk(Camt(g, n), Enter(n, st, f.name, f.binds), f.kids)
    requires ContentOutside(g, n, Enter(n, st, f.name, f.binds), f.kids, w)
    ensures NodeOutside(g, n, st, f, WalkNode(Camt(g, n), st, f))
  {
    LeaveOutside(g, w.st, st.path, f.name);
    ElementWalk(g, n, st, f);
    ElementEnds(g, ContainersRows(g, n), st, f, w, Leave(g, w.st).st);
    assert w.rows + [] == w.rows;
  }

  lemma ElementEnds(
      g: Grain, rowsOf: (Container, nat) -> seq<Row>, st: State, f: Forest, w: Walked<State, Row>, end: State)
    requires st.statementAt.None? && f.Elem? && f.name != Skipped(g) && !IsStatement(f.name)
    requires ScopedRows(w.rows) == RowsFrom(g, rowsOf, f.kids, st.statements + 1)
    requires BackOutside(st.(path := st.path + [f.name]), w.st, |Containers(g, f.kids)|)
    requires BackOutside(w.st.(path := st.path), end, 0)
    ensures ScopedRows(w.rows) == RowsOfNode(g, rowsOf, f, st.statements + 1)
    ensures BackOutside(st, end, |ContainersOf(g, f)|)
  {
  }

  lemma ElementWalk(g: Grain, n: Names, st: State, f: Forest)
    requires st.statementAt.None? && f.Elem? && f.name != Skipped(g)
    ensures var w := Walk(Camt(g, n), Enter(n, st, f.name, f.binds), f.kids);
      WalkNode(Camt(g, n), st, f) == Walked(Leave(g, w.st).st, w.rows + Rows(Leave(g, w.st).row))
  {
  }

  // ── what a reader returns for a file ──

  /** For every well-nested document, at each grain: the rows are exactly the records of the
      outermost containers in document order, with the numbers and the context their own
      container gives them, and the file is refused exactly when it has no container. */
  lemma DrainIsDocument(g: Grain, n: Names, f: Forest)
    ensures var d := Drain(Camt(g, n), INITIAL, Onto(f, Eof));
            && ScopedRows(d.rows) == DocumentRows(g, n, f)
            && d.ending == if Containers(g, f) == [] then WrongFile else Finished
  {
    var w := Walk(Camt(g, n), INITIAL, f);
    WalkOutside(g, n, INITIAL, f);
    DrainIsWalk(Camt(g, n), INITIAL, f, Eof);
    EndOutside(g, n, f, w);
    assert w.rows + [] == w.rows;
  }

  lemma EndOutside(g: Grain, n: Names, f: Forest, w: Walked<State, Row>)
    requires ContentOutside(g, n, INITIAL, f, w)
    ensures ScopedRows(w.rows) == DocumentRows(g, n, f)
    ensures EndOfInput(w.st) == if Containers(g, f) == [] then WrongFile else Finished
  {
  }
}
