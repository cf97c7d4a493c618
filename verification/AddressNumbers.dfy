/** Record numbers of the address audit over a whole file: which record of its scope each party is said to belong to. */
module AddressNumbers {
  import opened Options
  import opened Xml
  import opened TreeMachine
  import opened AddressWalk
  import opened AddressMessages
  import opened AddressFiles
  import opened AddressBoundaries

  // ── the numbers of the document ──

  /** The number of the innermost record around some content of an element: its own if it is a record, and
      none of those around it if a scope starts at it. */
  function NumberIn(n: Names, f: Forest, tag: Told, t: Told, around: Option<nat>): Option<nat>
    requires f.Elem?
  {
    if n.isRecord(f.name) then Some(tag.count) else if IsStart(n, t, f.name, true, false) then None else around
  }

  /** For each party the number of the innermost record around it in its scope. A scope is a message or a
      Document, named or not; its records are counted from 1 as they open. */
  function NumbersIn(
    n: Names, path: seq<string>, f: Forest, place: Around, t: Told, around: Option<nat>): seq<Option<nat>>
    decreases f, 1
  {
    if f.Nil? then []
    else
      NumbersOfNode(n, path, f, place, t, around)
      + NumbersIn(n, path, f.next, place, TellNode(n, path, f, place, t).told, around)
  }

  function NumbersOfNode(
    n: Names, path: seq<string>, f: Forest, place: Around, t: Told, around: Option<nat>): seq<Option<nat>>
    requires !f.Nil?
    decreases f, 0
  {
    if !f.Elem? then []
    else
      var tag := OpenedAt(n, |path|, f, place, t);
      var record := NumberIn(n, f, tag, t, around);
      if n.role(f.name).Some? then [record]
      else NumbersIn(n, path + [f.name], f.kids, AroundIn(place, tag, f.name, f.binds), tag, record)
  }

  /** A record opens in a node, at its own tag or outside the parties in it. */
  predicate OpensRecord(n: Names, f: Forest)
    requires !f.Nil?
  {
    f.Elem? && (n.isRecord(f.name) || (n.role(f.name).None? && HasRecord(n, f.kids)))
  }

  /** A node takes the record around it from what stands behind: a record opens in it, or a scope starts. */
  predicate TakesRecord(n: Names, path: seq<string>, f: Forest, place: Around, t: Told)
    requires !f.Nil?
  {
    OpensRecord(n, f) || StartsInNode(n, path, f, place, t)
  }

  /** The record around an element is not the one around its content: it is one itself, or starts a scope. */
  predicate IsAnew(n: Names, f: Forest, t: Told)
    requires f.Elem?
  {
    n.isRecord(f.name) || IsStart(n, t, f.name, true, false)
  }

  /** A party stands in a record, and behind something in that record that took it away. `behind` says that
      something did since the record around this content, if there is one, opened. */
  predicate BehindAnother(
    n: Names, path: seq<string>, f: Forest, place: Around, t: Told, inside: bool, behind: bool)
    decreases f, 1
  {
    !f.Nil?
    && (BehindInNode(n, path, f, place, t, inside, behind)
        || BehindAnother(n, path, f.next, place, TellNode(n, path, f, place, t).told, inside,
             behind || TakesRecord(n, path, f, place, t)))
  }

  predicate BehindInNode(
    n: Names, path: seq<string>, f: Forest, place: Around, t: Told, inside: bool, behind: bool)
    requires !f.Nil?
    decreases f, 0
  {
    f.Elem?
    && var tag, anew := OpenedAt(n, |path|, f, place, t), IsAnew(n, f, t);
       var within := n.isRecord(f.name) || (inside && !anew);
       if n.role(f.name).Some? then within && behind && !anew
       else
         BehindAnother(n, path + [f.name], f.kids, AroundIn(place, tag, f.name, f.binds), tag, within, behind && !anew)
  }

  // ── the numbers of the rows ──

  function Numbers(handed: seq<Handed>): seq<Option<nat>> {
    seq(|handed|, i requires 0 <= i < |handed| => handed[i].row.party.recordIndex)
  }

  /** The record at hand is the one around the content until something took it away. */
  ghost predicate AtHand(t: Told, path: seq<string>, around: Option<nat>, behind: bool) {
    if around.None? || behind then t.record.None?
    else t.record.Some? && t.record.value < |path| && around == Some(t.count)
  }

  /** Some numbers and those of the document: equal or not as `same` says, and where they differ the row has none. */
  ghost predicate Matches(actual: seq<Option<nat>>, own: seq<Option<nat>>, same: bool) {
    && |actual| == |own|
    && (actual == own <==> same)
    && forall i | 0 <= i < |own| :: actual[i] == own[i] || actual[i] == None
  }

  lemma MatchesBoth(
      a: seq<Option<nat>>, b: seq<Option<nat>>, c: seq<Option<nat>>, d: seq<Option<nat>>, same: bool, too: bool)
    requires Matches(a, b, same) && Matches(c, d, too)
    ensures Matches(a + c, b + d, same && too)
  {
    assert (a + c)[..|a|] == a && (b + d)[..|b|] == b;
    assert (a + c)[|a|..] == c && (b + d)[|b|..] == d;
  }

  /** What is at hand behind some content: the record around it, unless something in it took that away. */
  ghost predicate Leaves(t: Told, path: seq<string>, around: Option<nat>, behind: bool, told: Told) {
    AtHand(told, path, around, behind) && (told.record.None? || told.record == t.record)
  }

  lemma {:induction false} ContentIsNumbered(
      n: Names, path: seq<string>, f: Forest, place: Around, t: Told, around: Option<nat>, behind: bool)
    requires AtHand(t, path, around, behind)
    ensures var told := Tell(n, path, f, place, t);
      && Matches(Numbers(told.handed), NumbersIn(n, path, f, place, t, around),
           !BehindAnother(n, path, f, place, t, around.Some?, behind))
      && Leaves(t, path, around, behind || HasRecord(n, f) || StartsWithin(n, path, f, place, t), told.told)
    decreases f, 1
  {
    if f.Nil? {
      assert Numbers([]) == [];
    } else {
      NodeIsNumbered(n, path, f, place, t, around, behind);
      var one := TellNode(n, path, f, place, t);
      var lost := behind || TakesRecord(n, path, f, place, t);
      ContentIsNumbered(n, path, f.next, place, one.told, around, lost);
      BothAreNumbered(one.handed, Tell(n, path, f.next, place, one.told).handed,
        NumbersOfNode(n, path, f, place, t, around), NumbersIn(n, path, f.next, place, one.told, around),
        !BehindInNode(n, path, f, place, t, around.Some?, behind),
        !BehindAnother(n, path, f.next, place, one.told, around.Some?, lost));
      assert HasRecord(n, f) == (OpensRecord(n, f) || HasRecord(n, f.next));
    }
  }

  lemma BothAreNumbered(
      a: seq<Handed>, b: seq<Handed>, own: seq<Option<nat>>, more: seq<Option<nat>>, same: bool, too: bool)
    requires Matches(Numbers(a), own, same) && Matches(Numbers(b), more, too)
    ensures Matches(Numbers(a + b), own + more, same && too)
  {
    assert Numbers(a + b) == Numbers(a) + Numbers(b);
    MatchesBoth(Numbers(a), own, Numbers(b), more, same, too);
  }

  ghost predicate NumberedNode(
    n: Names, path: seq<string>, f: Forest, place: Around, t: Told, around: Option<nat>, behind: bool)
    requires !f.Nil?
  {
    var told := TellNode(n, path, f, place, t);
    && Matches(Numbers(told.handed), NumbersOfNode(n, path, f, place, t, around),
         !BehindInNode(n, path, f, place, t, around.Some?, behind))
    && Leaves(t, path, around, behind || TakesRecord(n, path, f, place, t), told.told)
  }

  lemma {:induction false} NodeIsNumbered(
      n: Names, path: seq<string>, f: Forest, place: Around, t: Told, around: Option<nat>, behind: bool)
    requires AtHand(t, path, around, behind) && !f.Nil?
    ensures NumberedNode(n, path, f, place, t, around, behind)
    decreases f, 0
  {
    if !f.Elem? {
      NoPartyIsNumbered(n, path, f, place, t, around, behind);
    } else {
      var tag := OpenedAt(n, |path|, f, place, t);
      var within, record := AroundIn(place, tag, f.name, f.binds), NumberIn(n, f, tag, t, around);
      var lost := behind && !IsAnew(n, f, t);
      TagIsAtHand(n, path, f, place, t, around, behind);
      if n.role(f.name).Some? {
        InsideKeepsRecord(n, |path| + 1, f.kids, within, tag);
        PartyIsNumbered(n, path, f, place, t, around, behind);
      } else {
        ContentIsNumbered(n, path + [f.name], f.kids, within, tag, record, lost);
        ElementIsNumbered(n, path, f, place, t, around, behind, Tell(n, path + [f.name], f.kids, within, tag));
      }
    }
  }

  lemma NoPartyIsNumbered(
      n: Names, path: seq<string>, f: Forest, place: Around, t: Told, around: Option<nat>, behind: bool)
    requires AtHand(t, path, around, behind) && !f.Nil? && !f.Elem?
    ensures NumberedNode(n, path, f, place, t, around, behind)
  {
    assert Numbers(TellNode(n, path, f, place, t).handed) == [];
  }

  /** What is at hand inside an element. */
  ghost predicate TagAtHand(
    n: Names, path: seq<string>, f: Forest, place: Around, t: Told, around: Option<nat>, behind: bool)
    requires f.Elem?
  {
    var tag := OpenedAt(n, |path|, f, place, t);
    && AtHand(tag, path + [f.name], NumberIn(n, f, tag, t, around), behind && !IsAnew(n, f, t))
    && (if n.isRecord(f.name) then tag.record == Some(|path|)
        else if IsAnew(n, f, t) then tag.record.None?
        else tag.record == t.record && tag.count == t.count)
  }

  lemma TagIsAtHand(
      n: Names, path: seq<string>, f: Forest, place: Around, t: Told, around: Option<nat>, behind: bool)
    requires AtHand(t, path, around, behind) && f.Elem?
    ensures TagAtHand(n, path, f, place, t, around, behind)
  {
  }

  /** In a party only a Document takes the record away, and nothing is counted. */
  lemma {:induction false} InsideKeepsRecord(n: Names, depth: nat, f: Forest, place: Around, t: Told)
    requires t.record.Some? ==> t.record.value < depth
    ensures var told := Inside(n, depth, f, place, t);
      if NoDocument(f) then told.record == t.record && told.count == t.count else told.record.None?
    decreases f
  {
    match f
    case Nil =>
    case Elem(name, binds, kids, next) =>
      var tag := AtTag(n, depth, name, binds, true, true, place, t);
      var inner := Inside(n, depth + 1, kids, AroundIn(place, tag, name, binds), tag);
      InsideKeepsRecord(n, depth + 1, kids, AroundIn(place, tag, name, binds), tag);
      InsideKeepsRecord(n, depth, next, place, AtEnd(depth, inner));
    case Closed(name, binds, next) =>
      InsideKeepsRecord(n, depth, next, place, AtTag(n, depth, name, binds, false, true, place, t));
    case Chars(_, next) => InsideKeepsRecord(n, depth, next, place, t);
    case Noise(next) => InsideKeepsRecord(n, depth, next, place, t);
  }

  lemma PartyIsNumbered(
      n: Names, path: seq<string>, f: Forest, place: Around, t: Told, around: Option<nat>, behind: bool)
    requires AtHand(t, path, around, behind) && f.Elem? && n.role(f.name).Some?
    requires TagAtHand(n, path, f, place, t, around, behind)
    requires var tag := OpenedAt(n, |path|, f, place, t);
      var told := Inside(n, |path| + 1, f.kids, AroundIn(place, tag, f.name, f.binds), tag);
      if NoDocument(f.kids) then told.record == tag.record && told.count == tag.count else told.record.None?
    ensures NumberedNode(n, path, f, place, t, around, behind)
  {
    var tag := OpenedAt(n, |path|, f, place, t);
    var number := if tag.record.Some? then Some(tag.count) else None;
    assert Numbers(TellNode(n, path, f, place, t).handed) == [number];
    assert [number][0] == number;
    assert NumbersOfNode(n, path, f, place, t, around) == [NumberIn(n, f, tag, t, around)];
  }

  lemma ElementIsNumbered(
      n: Names, path: seq<string>, f: Forest, place: Around, t: Told, around: Option<nat>, behind: bool, inner: Telling)
    requires AtHand(t, path, around, behind) && f.Elem? && n.role(f.name).None?
    requires TagAtHand(n, path, f, place, t, around, behind)
    requires var tag, anew := OpenedAt(n, |path|, f, place, t), IsAnew(n, f, t);
      var within, record := AroundIn(place, tag, f.name, f.binds), NumberIn(n, f, tag, t, around);
      && inner == Tell(n, path + [f.name], f.kids, within, tag)
      && Matches(Numbers(inner.handed), NumbersIn(n, path + [f.name], f.kids, within, tag, record),
           !BehindAnother(n, path + [f.name], f.kids, within, tag, record.Some?, behind && !anew))
      && Leaves(tag, path + [f.name], record,
           (behind && !anew) || HasRecord(n, f.kids) || StartsWithin(n, path + [f.name], f.kids, within, tag),
             inner.told)
    ensures NumberedNode(n, path, f, place, t, around, behind)
  {
  }

  /** In every file, no row carries the number of a record that is not its own, and all parties carry the
      number of the record around them exactly where none stands behind a record, a message or a Document in
      that record. */
  lemma FileIsNumbered(n: Names, f: Forest)
    ensures var told := Tell(n, [], f, NOTHING_AROUND, NOTHING_TOLD);
      && Drain(Audit(n), INITIAL, Onto(f, Eof)).rows == RowsHanded(told.handed)
      && Matches(Numbers(told.handed), NumbersIn(n, [], f, NOTHING_AROUND, NOTHING_TOLD, None),
           !BehindAnother(n, [], f, NOTHING_AROUND, NOTHING_TOLD, false, false))
  {
    DrainIsTold(n, f);
    ContentIsNumbered(n, [], f, NOTHING_AROUND, NOTHING_TOLD, None, false);
  }

  /** The numbers in a Document, or in a container outside every message, owe nothing to the records before it. */
  lemma ScopeNumbersFromOne(
      n: Names, path: seq<string>, f: Forest, place: Around, t: Told, around: Option<nat>)
    requires f.Elem? && IsStart(n, t, f.name, true, false) && n.role(f.name).None?
    ensures var tag := OpenedAt(n, |path|, f, place, t);
      && tag.count == (if n.isRecord(f.name) then 1 else 0)
      && NumbersOfNode(n, path, f, place, t, around) == NumbersOfNode(n, path, f, place, t, None)
  {
  }

  // ── two files ──

  /** A transaction with an item nested in it, and a creditor behind the item. */
  function NestedRecord(): Forest {
    var creditor := Elem("Cdtr", None, Nil, Nil);
    Elem("FIToFIPmtCxlReq", None, Elem("TxInf", None, Elem("Itm", None, Nil, creditor), Nil), Nil)
  }

  /** The creditor stands in the first record of its message and has no record number. */
  lemma NestedRecordLosesTheOuter(n: Names)
    requires forall name | name in {"TxInf", "Itm"} :: n.isRecord(name) && n.role(name).None? && n.container(name).None?
    requires n.container("FIToFIPmtCxlReq").Some? && !n.isRecord("FIToFIPmtCxlReq") && n.role("FIToFIPmtCxlReq").None?
    requires n.role("Cdtr").Some? && !n.isRecord("Cdtr") && n.container("Cdtr").None?
    ensures var rows := Drain(Audit(n), INITIAL, Onto(NestedRecord(), Eof)).rows;
      |rows| == 1 && rows[0].party.role == "Cdtr" && rows[0].party.recordIndex == None
    ensures NumbersIn(n, [], NestedRecord(), NOTHING_AROUND, NOTHING_TOLD, None) == [Some(1)]
  {
    var f := NestedRecord();
    var tag := OpenedAt(n, 0, f, NOTHING_AROUND, NOTHING_TOLD);
    var there, within := [] + [f.name], AroundIn(NOTHING_AROUND, tag, f.name, None);
    TransactionTells(n, there, f.kids, within, tag);
    OneOfOne(n, f);
    DrainIsTold(n, f);
  }

  lemma OneOfOne(n: Names, f: Forest)
    requires f.Elem? && f.next.Nil? && f.kids.Elem? && f.kids.next.Nil? && n.role(f.name).None? && f.binds.None?
    ensures var tag := OpenedAt(n, 0, f, NOTHING_AROUND, NOTHING_TOLD);
      var there, within := [] + [f.name], AroundIn(NOTHING_AROUND, tag, f.name, None);
      && Tell(n, [], f, NOTHING_AROUND, NOTHING_TOLD).handed == TellNode(n, there, f.kids, within, tag).handed
      && NumbersIn(n, [], f, NOTHING_AROUND, NOTHING_TOLD, None)
        == NumbersOfNode(n, there, f.kids, within, tag, NumberIn(n, f, tag, NOTHING_TOLD, None))
  {
    var tag := OpenedAt(n, 0, f, NOTHING_AROUND, NOTHING_TOLD);
    var there, within := [] + [f.name], AroundIn(NOTHING_AROUND, tag, f.name, None);
    var one, record := TellNode(n, there, f.kids, within, tag), NumberIn(n, f, tag, NOTHING_TOLD, None);
    assert Tell(n, there, f.kids, within, tag).handed == one.handed + [];
    assert Tell(n, [], f, NOTHING_AROUND, NOTHING_TOLD).handed == one.handed + [] + [];
    assert NumbersIn(n, there, f.kids, within, tag, record) == NumbersOfNode(n, there, f.kids, within, tag, record)
      + [];
    assert NumbersIn(n, [], Nil, NOTHING_AROUND, AtEnd(0, one.told), None) == [];
  }

  /** What is told behind an empty record in a record. */
  lemma ItemTells(n: Names, path: seq<string>, f: Forest, place: Around, t: Told)
    requires |path| == 2 && f.Elem? && f.binds.None? && f.kids.Nil? && n.role(f.name).None? && n.isRecord(f.name)
    requires t.message == Some(0) && !t.awaiting && f.name != "Document"
    ensures TellNode(n, path, f, place, t) == Telling([], t.(count := t.count + 1, record := None))
    ensures NumbersOfNode(n, path, f, place, t, Some(1)) == []
  {
    var item := OpenedAt(n, 2, f, place, t);
    assert Tell(n, path + [f.name], Nil, AroundIn(place, item, f.name, None), item) == Telling([], item);
  }

  lemma CreditorTells(n: Names, path: seq<string>, f: Forest, place: Around, t: Told)
    requires f == Elem("Cdtr", None, Nil, Nil) && n.role("Cdtr").Some? && !n.isRecord("Cdtr")
    requires t.message == Some(0) && !t.awaiting && t.record.None?
    ensures var handed := Tell(n, path, f, place, t).handed;
      |handed| == 1 && handed[0].row.party.role == "Cdtr" && handed[0].row.party.recordIndex == None
    ensures NumbersIn(n, path, f, place, t, Some(1)) == [Some(1)]
  {
    var party := TellNode(n, path, f, place, t);
    assert Tell(n, path, Nil, place, party.told).handed == [];
    assert NumbersIn(n, path, Nil, place, party.told, Some(1)) == [];
  }

  lemma TransactionTells(n: Names, path: seq<string>, f: Forest, place: Around, t: Told)
    requires |path| == 1 && f.Elem? && f.name == "TxInf" && f.binds.None? && n.role(f.name).None? && n.isRecord(f.name)
    requires f.kids == Elem("Itm", None, Nil, Elem("Cdtr", None, Nil, Nil)) && n.role("Itm").None? && n.isRecord("Itm")
    requires n.role("Cdtr").Some? && !n.isRecord("Cdtr") && t.message == Some(0) && !t.awaiting && t.count == 0
    ensures var handed := TellNode(n, path, f, place, t).handed;
      |handed| == 1 && handed[0].row.party.role == "Cdtr" && handed[0].row.party.recordIndex == None
    ensures NumbersOfNode(n, path, f, place, t, None) == [Some(1)]
  {
    var tag := OpenedAt(n, 1, f, place, t);
    var there, within := path + [f.name], AroundIn(place, tag, f.name, None);
    ItemTells(n, there, f.kids, within, tag);
    CreditorTells(n, there, f.kids.next, within, tag.(count := tag.count + 1, record := None));
  }
}
