/** What the address audit says of a document: its parties and what each of them states. */
module AddressRows {
  import opened Options
  import opened Xml
  import opened TreeMachine
  import opened AddressWalk

  // ── what a party states ──

  /** A party's facts, read off its content. `trail` is the path from the party down to the content. */
  function StatedIn(n: Names, trail: seq<string>, f: Forest, stated: Stated): Stated
    requires trail != []
    decreases f
  {
    match f
    case Nil => stated
    case Elem(name, _, kids, next) =>
      StatedIn(n, trail, next, StatedIn(n, trail + [name], kids, AtElement(trail, name, stated)))
    case Closed(name, _, next) => StatedIn(n, trail, next, AtElement(trail, name, stated))
    case Chars(text, next) =>
      StatedIn(n, trail, next, Says(n, stated, "PstlAdr" in trail, trail[|trail| - 1], text))
    case Noise(next) => StatedIn(n, trail, next, stated)
  }

  function AtElement(trail: seq<string>, name: string, stated: Stated): Stated {
    if name == "AdrLine" && "PstlAdr" in trail then OpensLine(stated) else stated
  }

  datatype Fact = Fact(role: string, kind: Kind, stated: Stated)

  /** The outermost role elements of a document, in closing order. */
  function PartiesOf(n: Names, f: Forest): seq<Fact> {
    match f
    case Nil => []
    case Elem(name, _, kids, next) =>
      (match n.role(name)
       case Some(kind) => [Fact(name, kind, StatedIn(n, [name], kids, NOTHING))]
       case None => PartiesOf(n, kids))
      + PartiesOf(n, next)
    case Closed(_, _, next) => PartiesOf(n, next)
    case Chars(_, next) => PartiesOf(n, next)
    case Noise(next) => PartiesOf(n, next)
  }

  function FactOf(row: Row): Fact { Fact(row.party.role, row.party.kind, row.party.stated) }

  function Facts(rows: seq<Row>): seq<Fact> { seq(|rows|, i requires 0 <= i < |rows| => FactOf(rows[i])) }

  /** The state inside an open party whose content starts after `trail`. */
  ghost predicate InParty(st: State, trail: seq<string>) {
    && st.openParty.Some?
    && trail != []
    && |st.path| == st.openParty.value.depth + |trail|
    && From(st.path, st.openParty.value.depth) == trail
  }

  /** Inside a party the walk hands out nothing and keeps to the party's facts. */
  ghost predicate Kept(st: State, w: Walked<State, Row>, stated: Stated) {
    && st.openParty.Some? && w.rows == [] && w.st.path == st.path
    && w.st.openParty == Some(st.openParty.value.(stated := stated))
  }

  lemma {:induction false} InsideWalk(n: Names, st: State, f: Forest, trail: seq<string>)
    requires InParty(st, trail)
    ensures Kept(st, Walk(Audit(n), st, f), StatedIn(n, trail, f, st.openParty.value.stated))
    decreases f, 1
  {
    if !f.Nil? {
      InsideNode(n, st, f, trail);
      InsideWalk(n, WalkNode(Audit(n), st, f).st, f.next, trail);
    }
  }

  /** The first node's part of `StatedIn`. */
  function StatedInNode(n: Names, trail: seq<string>, f: Forest, stated: Stated): Stated
    requires trail != [] && !f.Nil?
  {
    match f
    case Elem(name, _, kids, _) => StatedIn(n, trail + [name], kids, AtElement(trail, name, stated))
    case Closed(name, _, _) => AtElement(trail, name, stated)
    case Chars(text, _) => Says(n, stated, "PstlAdr" in trail, trail[|trail| - 1], text)
    case Noise(_) => stated
  }

  lemma {:induction false} InsideNode(n: Names, st: State, f: Forest, trail: seq<string>)
    requires InParty(st, trail) && !f.Nil?
    ensures Kept(st, WalkNode(Audit(n), st, f), StatedInNode(n, trail, f, st.openParty.value.stated))
    decreases f, 0
  {
    match f
    case Elem(name, binds, kids, _) =>
      var entered := Audit(n).enter(st, name, binds);
      ElementInParty(n, st, name, binds, true, trail);
      assert From(entered.path, entered.openParty.value.depth) == trail + [name];
      InsideWalk(n, entered, kids, trail + [name]);
      LeaveInside(n, st, Walk(Audit(n), entered, kids).st, name);
    case Closed(name, binds, _) => ElementInParty(n, st, name, binds, false, trail);
    case _ =>
  }

  lemma ElementInParty(n: Names, st: State, name: string, binds: Option<string>, push: bool, trail: seq<string>)
    requires InParty(st, trail)
    ensures var after := Element(n, st, name, binds, push);
      && after.path == st.path
      && after.openParty == Some(st.openParty.value.(stated := AtElement(trail, name, st.openParty.value.stated)))
  {
  }

  lemma LeaveInside(n: Names, st: State, inner: State, name: string)
    requires st.openParty.Some? && st.openParty.value.depth < |st.path|
    requires inner.openParty.Some? && inner.openParty.value.depth == st.openParty.value.depth
    requires inner.path == st.path + [name]
    ensures var out := Audit(n).leave(inner, name);
      out.row.None? && out.st.path == st.path && out.st.openParty == inner.openParty
  {
  }

  // ── one row a party ──

  /** One row for each outermost role element that is not self-closing, in closing order, with what it
      states and nothing else: whatever was read before, and whatever messages lie in or around it. */
  lemma {:induction false} OneRowAParty(n: Names, st: State, f: Forest)
    requires st.openParty.None?
    ensures Facts(Walk(Audit(n), st, f).rows) == PartiesOf(n, f)
    ensures Walk(Audit(n), st, f).st.openParty.None? && Walk(Audit(n), st, f).st.path == st.path
    decreases f, 1
  {
    if !f.Nil? {
      OneRowANode(n, st, f);
      var one := WalkNode(Audit(n), st, f);
      OneRowAParty(n, one.st, f.next);
      FactsAppend(one.rows, Walk(Audit(n), one.st, f.next).rows);
    }
  }

  lemma FactsAppend(a: seq<Row>, b: seq<Row>)
    ensures Facts(a + b) == Facts(a) + Facts(b)
  {
  }

  function PartiesOfNode(n: Names, f: Forest): seq<Fact>
    requires !f.Nil?
  {
    if f.Elem? then
      match n.role(f.name)
      case Some(kind) => [Fact(f.name, kind, StatedIn(n, [f.name], f.kids, NOTHING))]
      case None => PartiesOf(n, f.kids)
    else []
  }

  lemma {:induction false} OneRowANode(n: Names, st: State, f: Forest)
    requires st.openParty.None? && !f.Nil?
    ensures Facts(WalkNode(Audit(n), st, f).rows) == PartiesOfNode(n, f)
    ensures WalkNode(Audit(n), st, f).st.openParty.None? && WalkNode(Audit(n), st, f).st.path == st.path
    decreases f, 0
  {
    if f.Elem? {
      var entered := Audit(n).enter(st, f.name, f.binds);
      EntersOrOpens(n, st, f.name, f.binds);
      if n.role(f.name).Some? {
        assert From(entered.path, |st.path|) == [f.name];
        InsideWalk(n, entered, f.kids, [f.name]);
        CloseParty(n, st, Walk(Audit(n), entered, f.kids).st, f.name);
      } else {
        OneRowAParty(n, entered, f.kids);
        LeaveOutside(n, st, Walk(Audit(n), entered, f.kids).st, f.name);
      }
    }
  }

  lemma EntersOrOpens(n: Names, st: State, name: string, binds: Option<string>)
    requires st.openParty.None?
    ensures var entered := Audit(n).enter(st, name, binds);
      && entered.path == st.path + [name]
      && (n.role(name).None? ==> entered.openParty.None?)
      && (n.role(name).Some? ==>
          entered.openParty.Some? && entered.openParty.value.depth == |st.path|
          && entered.openParty.value.role == name && entered.openParty.value.kind == n.role(name).value
          && entered.openParty.value.stated == NOTHING)
  {
  }

  lemma CloseParty(n: Names, st: State, inner: State, name: string)
    requires inner.openParty.Some? && inner.openParty.value.depth == |st.path| && inner.path == st.path + [name]
    ensures var out := Audit(n).leave(inner, name);
      && out.row == Some(Row(inner.family, inner.messageId, inner.openParty.value))
      && out.st.openParty.None? && out.st.path == st.path
  {
  }

  lemma LeaveOutside(n: Names, st: State, inner: State, name: string)
    requires inner.openParty.None? && inner.path == st.path + [name]
    ensures var out := Audit(n).leave(inner, name);
      out.row.None? && out.st.openParty.None? && out.st.path == st.path
  {
  }

  /** Draining a whole document hands out its parties. */
  lemma DrainIsParties(n: Names, f: Forest)
    ensures Facts(Drain(Audit(n), INITIAL, Onto(f, Eof)).rows) == PartiesOf(n, f)
  {
    DrainIsWalk(Audit(n), INITIAL, f, Eof);
    OneRowAParty(n, INITIAL, f);
    assert Drain(Audit(n), Walk(Audit(n), INITIAL, f).st, Eof).rows == [];
    assert Walk(Audit(n), INITIAL, f).rows + [] == Walk(Audit(n), INITIAL, f).rows;
  }
}
