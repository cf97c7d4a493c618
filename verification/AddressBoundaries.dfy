/** What a party carries of the messages before it: the id and the family told since the last of them started. */
module AddressBoundaries {
  import opened Options
  import opened Xml
  import opened TreeMachine
  import opened AddressWalk
  import opened AddressMessages
  import opened AddressFiles

  // ── what some content adds ──

  /** The id texts in some content, outside its parties. */
  function IdsIn(n: Names, path: seq<string>, f: Forest): seq<string>
    decreases f
  {
    match f
    case Nil => []
    case Elem(name, _, kids, next) =>
      (if n.role(name).Some? then [] else IdsIn(n, path + [name], kids)) + IdsIn(n, path, next)
    case Closed(_, _, next) => IdsIn(n, path, next)
    case Chars(text, next) => IdAt(path, text) + IdsIn(n, path, next)
    case Noise(next) => IdsIn(n, path, next)
  }

  function Bound(binds: Option<string>): seq<string> { match binds case None => [] case Some(family) => [family] }

  /** The families bound in some content, in its parties and on self-closing elements too. */
  function BindingsIn(f: Forest): seq<string> {
    match f
    case Nil => []
    case Elem(_, binds, kids, next) => Bound(binds) + BindingsIn(kids) + BindingsIn(next)
    case Closed(_, binds, next) => Bound(binds) + BindingsIn(next)
    case Chars(_, next) => BindingsIn(next)
    case Noise(next) => BindingsIn(next)
  }

  /** What has been told at an element's tag. */
  function OpenedAt(n: Names, depth: nat, f: Forest, around: Around, t: Told): Told
    requires f.Elem?
  {
    AtRecordTag(n, depth, f.name, AtTag(n, depth, f.name, f.binds, true, false, around, t))
  }

  /** A Document or a message starts in some content. */
  predicate StartsWithin(n: Names, path: seq<string>, f: Forest, around: Around, t: Told)
    decreases f, 1
  {
    !f.Nil?
    && (StartsInNode(n, path, f, around, t)
        || StartsWithin(n, path, f.next, around, TellNode(n, path, f, around, t).told))
  }

  predicate StartsInNode(n: Names, path: seq<string>, f: Forest, around: Around, t: Told)
    requires !f.Nil?
    decreases f, 0
  {
    match f
    case Elem(name, binds, kids, _) =>
      var tag := OpenedAt(n, |path|, f, around, t);
      || IsStart(n, t, name, true, false)
      || (if n.role(name).Some? then !NoDocument(kids)
          else StartsWithin(n, path + [name], kids, AroundIn(around, tag, name, binds), tag))
    case Closed(name, _, _) => name == "Document"
    case _ => false
  }

  /** One telling goes on from another in the same scope. */
  predicate Adds(t: Told, ids: seq<string>, bindings: seq<string>, after: Told) {
    after.start == t.start && after.ids == t.ids + ids && after.bindings == t.bindings + bindings
  }

  lemma AddsBoth(a: Told, ids: seq<string>, bindings: seq<string>, b: Told, ids': seq<string>,
      bindings': seq<string>, c: Told)
    requires Adds(a, ids, bindings, b) && Adds(b, ids', bindings', c)
    ensures Adds(a, ids + ids', bindings + bindings', c)
  {
    assert a.ids + ids + ids' == a.ids + (ids + ids');
    assert a.bindings + bindings + bindings' == a.bindings + (bindings + bindings');
  }

  lemma TagAdds(
      n: Names, depth: nat, name: string, binds: Option<string>, push: bool, inParty: bool, around: Around, t: Told)
    requires !IsStart(n, t, name, push, inParty)
    ensures Adds(t, [], Bound(binds), AtTag(n, depth, name, binds, push, inParty, around, t))
  {
    assert t.ids + [] == t.ids && t.bindings + [] == t.bindings;
  }

  lemma {:induction false} InsideAdds(n: Names, depth: nat, f: Forest, around: Around, t: Told)
    requires NoDocument(f)
    ensures Adds(t, [], BindingsIn(f), Inside(n, depth, f, around, t))
    decreases f
  {
    match f
    case Nil => assert t.ids + [] == t.ids && t.bindings + [] == t.bindings;
    case Elem(name, binds, kids, next) =>
      var tag := AtTag(n, depth, name, binds, true, true, around, t);
      var inner := Inside(n, depth + 1, kids, AroundIn(around, tag, name, binds), tag);
      TagAdds(n, depth, name, binds, true, true, around, t);
      InsideAdds(n, depth + 1, kids, AroundIn(around, tag, name, binds), tag);
      InsideAdds(n, depth, next, around, AtEnd(depth, inner));
      AddsBoth(t, [], Bound(binds), tag, [], BindingsIn(kids), inner);
      AddsBoth(t, [] + [], Bound(binds) + BindingsIn(kids), AtEnd(depth, inner), [], BindingsIn(next),
        Inside(n, depth, next, around, AtEnd(depth, inner)));
    case Closed(name, binds, next) =>
      var tag := AtTag(n, depth, name, binds, false, true, around, t);
      TagAdds(n, depth, name, binds, false, true, around, t);
      InsideAdds(n, depth, next, around, tag);
      AddsBoth(t, [], Bound(binds), tag, [], BindingsIn(next), Inside(n, depth, next, around, tag));
    case Chars(_, next) => InsideAdds(n, depth, next, around, t);
    case Noise(next) => InsideAdds(n, depth, next, around, t);
  }

  /** Content that starts nothing adds its id texts and its bindings to what was told, and nothing else does. */
  lemma {:induction false} ContentAdds(n: Names, path: seq<string>, f: Forest, around: Around, t: Told)
    requires !StartsWithin(n, path, f, around, t)
    ensures Adds(t, IdsIn(n, path, f), BindingsIn(f), Tell(n, path, f, around, t).told)
    decreases f, 1
  {
    if f.Nil? {
      assert t.ids + [] == t.ids && t.bindings + [] == t.bindings;
    } else {
      NodeAdds(n, path, f, around, t);
      var one := TellNode(n, path, f, around, t).told;
      ContentAdds(n, path, f.next, around, one);
      AddsBoth(t, NodeIds(n, path, f), NodeBindings(f), one, IdsIn(n, path, f.next), BindingsIn(f.next),
        Tell(n, path, f.next, around, one).told);
    }
  }

  function NodeIds(n: Names, path: seq<string>, f: Forest): seq<string>
    requires !f.Nil?
  {
    match f
    case Elem(name, _, kids, _) => if n.role(name).Some? then [] else IdsIn(n, path + [name], kids)
    case Chars(text, _) => IdAt(path, text)
    case _ => []
  }

  function NodeBindings(f: Forest): seq<string>
    requires !f.Nil?
  {
    match f
    case Elem(_, binds, kids, _) => Bound(binds) + BindingsIn(kids)
    case Closed(_, binds, _) => Bound(binds)
    case _ => []
  }

  lemma {:induction false} NodeAdds(n: Names, path: seq<string>, f: Forest, around: Around, t: Told)
    requires !f.Nil? && !StartsInNode(n, path, f, around, t)
    ensures Adds(t, NodeIds(n, path, f), NodeBindings(f), TellNode(n, path, f, around, t).told)
    decreases f, 0
  {
    assert t.ids + [] == t.ids && t.bindings + [] == t.bindings;
    match f
    case Elem(name, binds, kids, _) =>
      var tag := OpenedAt(n, |path|, f, around, t);
      var within := AroundIn(around, tag, name, binds);
      TagAdds(n, |path|, name, binds, true, false, around, t);
      if n.role(name).Some? {
        InsideAdds(n, |path| + 1, kids, within, tag);
        AddsBoth(t, [], Bound(binds), tag, [], BindingsIn(kids), Inside(n, |path| + 1, kids, within, tag));
      } else {
        ContentAdds(n, path + [name], kids, within, tag);
        AddsBoth(t, [], Bound(binds), tag, IdsIn(n, path + [name], kids), BindingsIn(kids),
          Tell(n, path + [name], kids, within, tag).told);
      }
    case Closed(name, binds, _) => TagAdds(n, |path|, name, binds, false, false, around, t);
    case Chars(_, _) =>
    case Noise(_) =>
  }

  // ── what a party carries ──

  /** A party at whose own tag nothing starts, and in which no Document does. */
  predicate IsPlainParty(n: Names, f: Forest, t: Told) {
    f.Elem? && n.role(f.name).Some? && !IsStart(n, t, f.name, true, false) && NoDocument(f.kids)
  }

  /** What a party carries, wherever it stands: the first id text since the last start, and the family that
      start gave, else the first binding since, one in the party included. It carries no id exactly where
      there is no such text, and no family exactly where there is neither. */
  lemma PartyCarries(n: Names, path: seq<string>, f: Forest, around: Around, t: Told)
    requires IsPlainParty(n, f, t)
    ensures var handed, bindings := TellNode(n, path, f, around, t).handed, t.bindings + NodeBindings(f);
      && |handed| == 1
      && handed[0].row.messageId == FirstOf(t.ids)
      && handed[0].row.family == FamilyAt(t.start, bindings)
      && (handed[0].row.messageId.None? <==> t.ids == [])
      && (handed[0].row.family.None? <==> (t.start.None? || FamilyGiven(t.start.value).None?) && bindings == [])
  {
    var tag := OpenedAt(n, |path|, f, around, t);
    var within := AroundIn(around, tag, f.name, f.binds);
    TagAdds(n, |path|, f.name, f.binds, true, false, around, t);
    InsideAdds(n, |path| + 1, f.kids, within, tag);
    AddsBoth(t, [], Bound(f.binds), tag, [], BindingsIn(f.kids), Inside(n, |path| + 1, f.kids, within, tag));
    assert t.ids + ([] + []) == t.ids;
  }

  /** An element that starts a scope, and in it nothing else starts one. */
  predicate IsLastStart(n: Names, path: seq<string>, f: Forest, around: Around, t: Told) {
    && f.Elem? && IsStart(n, t, f.name, true, false) && n.role(f.name).None?
    && (var tag := OpenedAt(n, |path|, f, around, t);
        !StartsWithin(n, path + [f.name], f.kids, AroundIn(around, tag, f.name, f.binds), tag))
  }

  /** Behind it, what is told is what its content told. */
  lemma ScopeTells(n: Names, path: seq<string>, f: Forest, around: Around, t: Told)
    requires IsLastStart(n, path, f, around, t)
    ensures var told := TellNode(n, path, f, around, t).told;
      && told.start == OpenedAt(n, |path|, f, around, t).start && told.start.Some?
      && told.ids == IdsIn(n, path + [f.name], f.kids)
      && told.bindings == Bound(f.binds) + BindingsIn(f.kids)
  {
    var tag := OpenedAt(n, |path|, f, around, t);
    ContentAdds(n, path + [f.name], f.kids, AroundIn(around, tag, f.name, f.binds), tag);
    assert [] + IdsIn(n, path + [f.name], f.kids) == IdsIn(n, path + [f.name], f.kids);
    assert tag.bindings == Bound(f.binds);
  }

  /** A party behind a message or a Document, whatever stands between that starts nothing: it carries the
      first id text of the message and of what stands between, and the family the message was given, or for
      a Document without one the first binding since. The end of a message takes neither away. */
  lemma PartyBehindAStart(
      n: Names, path: seq<string>, f: Forest, between: Forest, party: Forest, around: Around, t: Told)
    requires IsLastStart(n, path, f, around, t)
    requires !StartsWithin(n, path, between, around, TellNode(n, path, f, around, t).told)
    requires IsPlainParty(n, party, Tell(n, path, between, around, TellNode(n, path, f, around, t).told).told)
    ensures var told := Tell(n, path, between, around, TellNode(n, path, f, around, t).told).told;
      var handed := TellNode(n, path, party, around, told).handed;
      var given := FamilyGiven(OpenedAt(n, |path|, f, around, t).start.value);
      var ids := IdsIn(n, path + [f.name], f.kids) + IdsIn(n, path, between);
      var bindings := Bound(f.binds) + BindingsIn(f.kids) + BindingsIn(between) + NodeBindings(party);
      && |handed| == 1
      && handed[0].row.messageId == FirstOf(ids) && handed[0].row.family == OrElse(given, FirstOf(bindings))
      && (handed[0].row.messageId.None? <==> ids == [])
      && (handed[0].row.family.None? <==> given.None? && bindings == [])
  {
    var behind := TellNode(n, path, f, around, t).told;
    ScopeTells(n, path, f, around, t);
    ContentAdds(n, path, between, around, behind);
    PartyCarries(n, path, party, around, Tell(n, path, between, around, behind).told);
  }

  /** Before the first message and the first Document of a file, a party carries the first id text ahead of
      it, and the first binding ahead of it or in it. */
  lemma PartyBeforeAnyStart(n: Names, before: Forest, party: Forest)
    requires !StartsWithin(n, [], before, NOTHING_AROUND, NOTHING_TOLD)
    requires IsPlainParty(n, party, Tell(n, [], before, NOTHING_AROUND, NOTHING_TOLD).told)
    ensures var told := Tell(n, [], before, NOTHING_AROUND, NOTHING_TOLD).told;
      var handed := TellNode(n, [], party, NOTHING_AROUND, told).handed;
      && |handed| == 1
      && handed[0].row.messageId == FirstOf(IdsIn(n, [], before))
      && handed[0].row.family == FirstOf(BindingsIn(before) + NodeBindings(party))
  {
    ContentAdds(n, [], before, NOTHING_AROUND, NOTHING_TOLD);
    assert [] + IdsIn(n, [], before) == IdsIn(n, [], before) && [] + BindingsIn(before) == BindingsIn(before);
    PartyCarries(n, [], party, NOTHING_AROUND, Tell(n, [], before, NOTHING_AROUND, NOTHING_TOLD).told);
  }

  // ── a file with a party behind a message ──

  /** A report with an id, white space, and a party in no message. */
  function PartyBehindAReport(): Forest {
    var id := Elem("GrpHdr", None, Elem("MsgId", None, Chars("A", Nil), Nil), Nil);
    Elem("FIToFIPmtStsRpt", None, id, Noise(Elem("Dbtr", None, Nil, Nil)))
  }

  /** The party is handed out with the report's id and family. */
  lemma LoosePartyHasTheReportsId(n: Names)
    requires n.container("FIToFIPmtStsRpt") == Some("pacs.002")
    requires forall name | name in {"Dbtr", "GrpHdr", "MsgId"} :: n.container(name).None?
    requires forall name | name in {"FIToFIPmtStsRpt", "GrpHdr", "MsgId"} :: n.role(name).None?
    requires n.role("Dbtr").Some?
    ensures var rows := Drain(Audit(n), INITIAL, Onto(PartyBehindAReport(), Eof)).rows;
      |rows| == 1 && rows[0].messageId == Some("A") && rows[0].family == Some("pacs.002")
  {
    HeaderIds(n, PartyBehindAReport().kids);
    ReportRow(n, PartyBehindAReport());
  }

  lemma HeaderIds(n: Names, f: Forest)
    requires f == Elem("GrpHdr", None, Elem("MsgId", None, Chars("A", Nil), Nil), Nil)
    requires n.role("GrpHdr").None? && n.role("MsgId").None?
    requires n.container("GrpHdr").None? && n.container("MsgId").None?
    ensures StartsNothing(n, f) && HandsOutNothing(n, f)
    ensures IdsIn(n, [] + ["FIToFIPmtStsRpt"], f) == ["A"]
  {
    var path := [] + ["FIToFIPmtStsRpt"] + ["GrpHdr"] + ["MsgId"];
    assert path[1..] == ["GrpHdr", "MsgId"];
    assert StartsNothing(n, f.kids.kids) && HandsOutNothing(n, f.kids.kids);
    assert StartsNothing(n, f.kids) && HandsOutNothing(n, f.kids);
    assert IdsIn(n, path, f.kids.kids) == ["A"] + IdsIn(n, path, Nil);
    assert IdsIn(n, path[..2], f.kids) == ["A"] + IdsIn(n, path[..2], Nil);
    assert IdsIn(n, path[..1], f) == ["A"] + IdsIn(n, path[..1], Nil);
  }

  /** Nothing in some content is a Document or a container. */
  predicate StartsNothing(n: Names, f: Forest) {
    match f
    case Nil => true
    case Elem(name, _, kids, next) =>
      name != "Document" && n.container(name).None? && StartsNothing(n, kids) && StartsNothing(n, next)
    case Closed(name, _, next) => name != "Document" && StartsNothing(n, next)
    case Chars(_, next) => StartsNothing(n, next)
    case Noise(next) => StartsNothing(n, next)
  }

  lemma {:induction false} NothingStarts(n: Names, path: seq<string>, f: Forest, around: Around, t: Told)
    requires StartsNothing(n, f)
    ensures !StartsWithin(n, path, f, around, t) && NoDocument(f)
    decreases f
  {
    if !f.Nil? {
      if f.Elem? {
        var tag := OpenedAt(n, |path|, f, around, t);
        NothingStarts(n, path + [f.name], f.kids, AroundIn(around, tag, f.name, f.binds), tag);
      }
      NothingStarts(n, path, f.next, around, TellNode(n, path, f, around, t).told);
    }
  }

  lemma ReportAndParty(n: Names, f: Forest)
    requires f.Elem? && f.name == "FIToFIPmtStsRpt" && n.container(f.name) == Some("pacs.002") && n.role(f.name).None?
    requires StartsNothing(n, f.kids) && IdsIn(n, [] + [f.name], f.kids) == ["A"] && HandsOutNothing(n, f.kids)
    requires f.next.Noise? && f.next.next.Elem? && f.next.next.next.Nil? && n.role(f.next.next.name).Some?
    requires f.next.next.name != "Document" && n.container(f.next.next.name).None? && f.next.next.kids.Nil?
    ensures var handed := Tell(n, [], f, NOTHING_AROUND, NOTHING_TOLD).handed;
      |handed| == 1 && handed[0].row.messageId == Some("A") && handed[0].row.family == Some("pacs.002")
  {
    var tag := OpenedAt(n, 0, f, NOTHING_AROUND, NOTHING_TOLD);
    NothingStarts(n, [] + [f.name], f.kids, AroundIn(NOTHING_AROUND, tag, f.name, f.binds), tag);
    HandsNothing(n, [] + [f.name], f.kids, AroundIn(NOTHING_AROUND, tag, f.name, f.binds), tag);
    var behind := TellNode(n, [], f, NOTHING_AROUND, NOTHING_TOLD).told;
    assert Tell(n, [], Nil, NOTHING_AROUND, behind) == Telling([], behind);
    assert Tell(n, [], Noise(Nil), NOTHING_AROUND, behind) == Telling([], behind);
    PartyBehindAStart(n, [], f, Noise(Nil), f.next.next, NOTHING_AROUND, NOTHING_TOLD);
    var party := TellNode(n, [], f.next.next, NOTHING_AROUND, behind);
    assert Tell(n, [], f.next.next, NOTHING_AROUND, behind).handed == party.handed + [];
    assert Tell(n, [], f.next, NOTHING_AROUND, behind).handed == [] + party.handed;
    assert Tell(n, [], f, NOTHING_AROUND, NOTHING_TOLD).handed == [] + party.handed;
  }

  lemma ReportRow(n: Names, f: Forest)
    requires f.Elem? && f.name == "FIToFIPmtStsRpt" && n.container(f.name) == Some("pacs.002") && n.role(f.name).None?
    requires StartsNothing(n, f.kids) && IdsIn(n, [] + [f.name], f.kids) == ["A"] && HandsOutNothing(n, f.kids)
    requires f.next.Noise? && f.next.next.Elem? && f.next.next.next.Nil? && n.role(f.next.next.name).Some?
    requires f.next.next.name != "Document" && n.container(f.next.next.name).None? && f.next.next.kids.Nil?
    ensures var rows := Drain(Audit(n), INITIAL, Onto(f, Eof)).rows;
      |rows| == 1 && rows[0].messageId == Some("A") && rows[0].family == Some("pacs.002")
  {
    DrainIsTold(n, f);
    ReportAndParty(n, f);
  }

  predicate HandsOutNothing(n: Names, f: Forest) {
    match f
    case Nil => true
    case Elem(name, _, kids, next) => n.role(name).None? && HandsOutNothing(n, kids) && HandsOutNothing(n, next)
    case Closed(_, _, next) => HandsOutNothing(n, next)
    case Chars(_, next) => HandsOutNothing(n, next)
    case Noise(next) => HandsOutNothing(n, next)
  }

  lemma {:induction false} HandsNothing(n: Names, path: seq<string>, f: Forest, around: Around, t: Told)
    requires HandsOutNothing(n, f)
    ensures Tell(n, path, f, around, t).handed == []
    decreases f
  {
    if !f.Nil? {
      if f.Elem? {
        var tag := OpenedAt(n, |path|, f, around, t);
        HandsNothing(n, path + [f.name], f.kids, AroundIn(around, tag, f.name, f.binds), tag);
      }
      HandsNothing(n, path, f.next, around, TellNode(n, path, f, around, t).told);
    }
  }

  // ── a Document inside a message ──

  /** A Document ends the message around it, and with it the record at hand, the numbering and the ids:
      nothing of them is left for what is told behind the Document, named or not, whatever it holds. */
  lemma NestedDocumentEndsTheMessage(n: Names, path: seq<string>, f: Forest, around: Around, t: Told)
    requires f.Elem? && f.name == "Document"
    ensures TellNode(n, path, f, around, t)
      == TellNode(n, path, f, around, NOTHING_TOLD.(headers := t.headers, envelope := t.envelope))
  {
    DocumentStartsOver(n, path, f, around, t, NOTHING_TOLD.(headers := t.headers, envelope := t.envelope));
  }
}
