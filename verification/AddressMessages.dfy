/** Messages and records of the address audit: the id and the record number of a row are of its own message,
    and its family is the one the message was opened with. */
module AddressMessages {
  import opened Options
  import opened Xml
  import opened TreeMachine
  import opened AddressWalk
  import opened AddressRows

  /** What a message has established so far: how many records, the record at hand, and its id. */
  datatype Scope = Scope(index: nat, depth: Option<nat>, id: Option<string>)

  datatype Read = Read(rows: seq<Row>, scope: Scope)

  /** No Document starts in some content. */
  predicate NoDocument(f: Forest) {
    match f
    case Nil => true
    case Elem(name, _, kids, next) => name != "Document" && NoDocument(kids) && NoDocument(next)
    case Closed(name, _, next) => name != "Document" && NoDocument(next)
    case Chars(_, next) => NoDocument(next)
    case Noise(next) => NoDocument(next)
  }

  function AtRecord(n: Names, path: seq<string>, name: string, scope: Scope): Scope {
    if n.isRecord(name) then scope.(index := scope.index + 1, depth := Some(|path|)) else scope
  }

  /** After an element: a record that is no longer around is no longer at hand. */
  function AfterElement(path: seq<string>, scope: Scope): Scope {
    if scope.depth.Some? && |path| <= scope.depth.value then scope.(depth := None) else scope
  }

  function PartyIn(n: Names, path: seq<string>, name: string, kind: Kind, kids: Forest, scope: Scope): Party {
    Party(|path|, name, kind,
      (if scope.depth.Some? then From(path, scope.depth.value) else []) + [name],
      if scope.depth.Some? then Some(scope.index) else None,
      StatedIn(n, [name], kids, NOTHING))
  }

  /** The rows of some content of a message, and what the message has established after it. */
  function Rows(n: Names, family: string, path: seq<string>, f: Forest, scope: Scope): Read
    decreases f, 1
  {
    if f.Nil? then Read([], scope)
    else
      var one := RowsOfNode(n, family, path, f, scope);
      var more := Rows(n, family, path, f.next, one.scope);
      Read(one.rows + more.rows, more.scope)
  }

  function RowsOfNode(n: Names, family: string, path: seq<string>, f: Forest, scope: Scope): Read
    requires !f.Nil?
    decreases f, 0
  {
    match f
    case Elem(name, _, kids, _) =>
      var counted := AtRecord(n, path, name, scope);
      (match n.role(name)
       case Some(kind) =>
         Read([Row(Some(family), counted.id, PartyIn(n, path, name, kind, kids, counted))], AfterElement(path, counted))
       case None =>
         var inner := Rows(n, family, path + [name], kids, counted);
         Read(inner.rows, AfterElement(path, inner.scope)))
    case Chars(text, _) =>
      Read([], if scope.id.None? && path != [] && IsMessageId(path) then scope.(id := Some(text)) else scope)
    case _ => Read([], scope)
  }

  // ── the walk inside a message ──

  ghost predicate InMessage(st: State, family: string) {
    && st.messageDepth.Some? && st.messageDepth.value < |st.path|
    && st.family == Some(family) && !st.awaitingChild
    && OnPath(st)
  }

  function ScopeOf(st: State): Scope { Scope(st.recordIndex, st.recordDepth, st.messageId) }

  /** Nothing of the message changed but what is in its scope. */
  ghost predicate StaysInMessage(st: State, after: State, family: string) {
    InMessage(after, family) && after.path == st.path && after.messageDepth == st.messageDepth
  }

  lemma EntersInMessage(n: Names, st: State, name: string, binds: Option<string>, push: bool, family: string)
    requires InMessage(st, family) && name != "Document"
    ensures var announced := Announces(n, st, name, binds, push);
      && announced.path == st.path && announced.messageDepth == st.messageDepth && announced.family == st.family
      && !announced.awaitingChild && ScopeOf(announced) == ScopeOf(st) && announced.openParty == st.openParty
  {
  }

  lemma {:induction false} InsideKeepsScope(n: Names, st: State, f: Forest, family: string)
    requires InMessage(st, family) && st.openParty.Some? && NoDocument(f)
    ensures var after := Walk(Audit(n), st, f).st;
      && StaysInMessage(st, after, family) && ScopeOf(after) == ScopeOf(st)
      && after.openParty.Some? && after.openParty.value.depth == st.openParty.value.depth
    decreases f, 1
  {
    if !f.Nil? {
      InsideNodeKeepsScope(n, st, f, family);
      InsideKeepsScope(n, WalkNode(Audit(n), st, f).st, f.next, family);
    }
  }

  lemma {:induction false} InsideNodeKeepsScope(n: Names, st: State, f: Forest, family: string)
    requires InMessage(st, family) && st.openParty.Some? && NoDocument(f) && !f.Nil?
    ensures var after := WalkNode(Audit(n), st, f).st;
      && StaysInMessage(st, after, family) && ScopeOf(after) == ScopeOf(st)
      && after.openParty.Some? && after.openParty.value.depth == st.openParty.value.depth
    decreases f, 0
  {
    match f
    case Elem(name, binds, kids, _) =>
      EntersInMessage(n, st, name, binds, true, family);
      InsideKeepsScope(n, Audit(n).enter(st, name, binds), kids, family);
    case Closed(name, binds, _) => EntersInMessage(n, st, name, binds, false, family);
    case _ =>
  }

  /** Inside a message, wherever it stands and whatever came before it, the rows are those of its own content,
      all of the family it was opened with. */
  lemma {:induction false} RowsAreTheMessages(n: Names, st: State, f: Forest, family: string)
    requires InMessage(st, family) && st.openParty.None? && NoDocument(f)
    ensures var w, r := Walk(Audit(n), st, f), Rows(n, family, st.path, f, ScopeOf(st));
      w.rows == r.rows && ScopeOf(w.st) == r.scope && StaysInMessage(st, w.st, family) && w.st.openParty.None?
    decreases f, 1
  {
    if !f.Nil? {
      NodeRowsAreTheMessages(n, st, f, family);
      RowsAreTheMessages(n, WalkNode(Audit(n), st, f).st, f.next, family);
    }
  }

  lemma {:induction false} NodeRowsAreTheMessages(n: Names, st: State, f: Forest, family: string)
    requires InMessage(st, family) && st.openParty.None? && NoDocument(f) && !f.Nil?
    ensures var w, r := WalkNode(Audit(n), st, f), RowsOfNode(n, family, st.path, f, ScopeOf(st));
      w.rows == r.rows && ScopeOf(w.st) == r.scope && StaysInMessage(st, w.st, family) && w.st.openParty.None?
    decreases f, 0
  {
    match f
    case Elem(name, binds, kids, _) =>
      var entered := Audit(n).enter(st, name, binds);
      EntersRecordOrParty(n, st, name, binds, family);
      if n.role(name).Some? {
        assert From(entered.path, |st.path|) == [name];
        InsideWalk(n, entered, kids, [name]);
        InsideKeepsScope(n, entered, kids, family);
        LeavesParty(n, st, Walk(Audit(n), entered, kids).st, name, family);
      } else {
        RowsAreTheMessages(n, entered, kids, family);
        LeavesElement(n, st, Walk(Audit(n), entered, kids).st, name, family);
      }
    case Closed(name, binds, _) => EntersInMessage(n, st, name, binds, false, family);
    case _ =>
  }

  lemma EntersRecordOrParty(n: Names, st: State, name: string, binds: Option<string>, family: string)
    requires InMessage(st, family) && st.openParty.None? && name != "Document"
    ensures var entered := Audit(n).enter(st, name, binds);
      && InMessage(entered, family) && entered.path == st.path + [name] && entered.messageDepth == st.messageDepth
      && ScopeOf(entered) == AtRecord(n, st.path, name, ScopeOf(st))
      && (match n.role(name)
          case None => entered.openParty.None?
          case Some(kind) =>
            entered.openParty == Some(PartyIn(n, st.path, name, kind, Nil, AtRecord(n, st.path, name, ScopeOf(st)))))
  {
    EntersInMessage(n, st, name, binds, true, family);
  }

  lemma LeavesParty(n: Names, st: State, inner: State, name: string, family: string)
    requires InMessage(st, family)
    requires InMessage(inner, family) && inner.path == st.path + [name] && inner.messageDepth == st.messageDepth
    requires inner.openParty.Some? && inner.openParty.value.depth == |st.path|
    ensures var out := Audit(n).leave(inner, name);
      && out.row == Some(Row(Some(family), inner.messageId, inner.openParty.value))
      && ScopeOf(out.st) == AfterElement(st.path, ScopeOf(inner))
      && StaysInMessage(st, out.st, family) && out.st.openParty.None?
  {
  }

  lemma LeavesElement(n: Names, st: State, inner: State, name: string, family: string)
    requires InMessage(st, family)
    requires InMessage(inner, family) && inner.path == st.path + [name] && inner.messageDepth == st.messageDepth
    requires inner.openParty.None?
    ensures var out := Audit(n).leave(inner, name);
      && out.row.None? && ScopeOf(out.st) == AfterElement(st.path, ScopeOf(inner))
      && StaysInMessage(st, out.st, family) && out.st.openParty.None?
  {
  }

  // ── a container is a message ──

  /** The family of the message a container opens: what its Document bound, else what a header named, else the
      container's own. */
  function FamilyOf(n: Names, st: State, name: string): Option<string> {
    OrElse(OrElse(st.documentFamily, st.headerFamily), n.container(name))
  }

  /** A message starts at its outermost container with an empty scope: its records are numbered from 1, its id is
      its own, and once the container closes no message is open. */
  lemma ContainerIsAMessage(n: Names, st: State, f: Forest)
    requires OnPath(st) && st.openParty.None? && st.messageDepth.None?
    requires f.Elem? && f.name != "Document" && n.container(f.name).Some?
    requires n.role(f.name).None? && !n.isRecord(f.name) && NoDocument(f.kids)
    ensures var family := FamilyOf(n, st, f.name).value;
      && WalkNode(Audit(n), st, f).rows
        == Rows(n, family, st.path + [f.name], f.kids, Scope(0, None, None)).rows
      && WalkNode(Audit(n), st, f).st.messageDepth.None?
  {
    var family := FamilyOf(n, st, f.name).value;
    var entered := Audit(n).enter(st, f.name, f.binds);
    ContainerOpens(n, st, f.name, f.binds);
    RowsAreTheMessages(n, entered, f.kids, family);
  }

  lemma ContainerOpens(n: Names, st: State, name: string, binds: Option<string>)
    requires OnPath(st) && st.openParty.None? && st.messageDepth.None?
    requires name != "Document" && n.container(name).Some? && n.role(name).None? && !n.isRecord(name)
    ensures var entered := Audit(n).enter(st, name, binds);
      && InMessage(entered, FamilyOf(n, st, name).value) && entered.openParty.None?
      && entered.path == st.path + [name] && entered.messageDepth == Some(|st.path|)
      && ScopeOf(entered) == Scope(0, None, None)
  {
  }

  // ── record numbering ──

  /** A record element opens in some content, outside every party. */
  predicate HasRecord(n: Names, f: Forest) {
    match f
    case Nil => false
    case Elem(name, _, kids, next) =>
      n.isRecord(name) || (n.role(name).None? && HasRecord(n, kids)) || HasRecord(n, next)
    case Closed(_, _, next) => HasRecord(n, next)
    case Chars(_, next) => HasRecord(n, next)
    case Noise(next) => HasRecord(n, next)
  }

  /** Inside a record the record stays at hand exactly until a record nested in it has closed. */
  lemma {:induction false} RecordStaysAtHand(n: Names, family: string, path: seq<string>, f: Forest, scope: Scope)
    requires scope.depth.Some? && scope.depth.value < |path|
    ensures var after := Rows(n, family, path, f, scope).scope;
      && (after.depth.Some? <==> !HasRecord(n, f))
      && (!HasRecord(n, f) ==> after.depth == scope.depth && after.index == scope.index)
    decreases f, 0
  {
    if !f.Nil? {
      if f.Elem? && n.role(f.name).None? {
        RecordStaysAtHand(n, family, path + [f.name], f.kids, AtRecord(n, path, f.name, scope));
      }
      var one := RowsOfNode(n, family, path, f, scope);
      if one.scope.depth.Some? {
        RecordStaysAtHand(n, family, path, f.next, one.scope);
      } else {
        NothingAtHand(n, family, path, f.next, one.scope);
      }
    }
  }

  /** Outside every record none is at hand, before and after. */
  lemma {:induction false} NothingAtHand(n: Names, family: string, path: seq<string>, f: Forest, scope: Scope)
    requires scope.depth.None?
    ensures Rows(n, family, path, f, scope).scope.depth.None?
    decreases f, 0
  {
    if !f.Nil? {
      if f.Elem? && n.role(f.name).None? {
        if n.isRecord(f.name) {
          RecordOrNothing(n, family, path + [f.name], f.kids, AtRecord(n, path, f.name, scope));
        } else {
          NothingAtHand(n, family, path + [f.name], f.kids, scope);
        }
      }
      NothingAtHand(n, family, path, f.next, RowsOfNode(n, family, path, f, scope).scope);
    }
  }

  /** What is at hand after some content of a record is that record or nothing. */
  lemma RecordOrNothing(n: Names, family: string, path: seq<string>, f: Forest, scope: Scope)
    requires scope.depth.Some? && scope.depth.value < |path|
    ensures var after := Rows(n, family, path, f, scope).scope; after.depth.None? || after.depth == scope.depth
    decreases f, 1
  {
    RecordStaysAtHand(n, family, path, f, scope);
  }

  /** A record with no record in it: every party in it carries its number, the next one in the message. */
  lemma {:induction false} PartiesOfARecord(n: Names, family: string, path: seq<string>, f: Forest, scope: Scope)
    requires scope.depth.Some? && scope.depth.value < |path| && !HasRecord(n, f)
    ensures forall r | r in Rows(n, family, path, f, scope).rows :: r.party.recordIndex == Some(scope.index)
    decreases f
  {
    if !f.Nil? {
      if f.Elem? && n.role(f.name).None? {
        PartiesOfARecord(n, family, path + [f.name], f.kids, scope);
        RecordStaysAtHand(n, family, path + [f.name], f.kids, scope);
      }
      PartiesOfARecord(n, family, path, f.next, RowsOfNode(n, family, path, f, scope).scope);
    }
  }

  /** Parties outside every record carry none. */
  lemma {:induction false} PartiesOfNoRecord(n: Names, family: string, path: seq<string>, f: Forest, scope: Scope)
    requires scope.depth.None? && !HasRecord(n, f)
    ensures forall r | r in Rows(n, family, path, f, scope).rows :: r.party.recordIndex == None
    ensures Rows(n, family, path, f, scope).scope.depth.None?
    ensures Rows(n, family, path, f, scope).scope.index == scope.index
    decreases f
  {
    if !f.Nil? {
      if f.Elem? && n.role(f.name).None? {
        PartiesOfNoRecord(n, family, path + [f.name], f.kids, scope);
      }
      PartiesOfNoRecord(n, family, path, f.next, RowsOfNode(n, family, path, f, scope).scope);
    }
  }
}
