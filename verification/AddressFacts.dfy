/** A party's columns as questions about its subtree: how many lines, which text first, how many structured elements. */
module AddressFacts {
  import opened Options
  import opened Xml
  import opened TreeMachine
  import opened AddressWalk
  import opened AddressRows

  /** The address lines in some content, self-closing ones and nested ones included; `postal` says
      whether the content lies in the postal address. */
  function LineCount(f: Forest, postal: bool): nat {
    match f
    case Nil => 0
    case Elem(name, _, kids, next) =>
      (if name == "AdrLine" && postal then 1 else 0) + LineCount(kids, postal || name == "PstlAdr")
        + LineCount(next, postal)
    case Closed(name, _, next) => (if name == "AdrLine" && postal then 1 else 0) + LineCount(next, postal)
    case Chars(_, next) => LineCount(next, postal)
    case Noise(next) => LineCount(next, postal)
  }

  /** The texts of the leaves a question is about, in document order. */
  function Texts(f: Forest, postal: bool, last: string, asked: (bool, string) -> bool): seq<string> {
    match f
    case Nil => []
    case Elem(name, _, kids, next) =>
      Texts(kids, postal || name == "PstlAdr", name, asked) + Texts(next, postal, last, asked)
    case Closed(_, _, next) => Texts(next, postal, last, asked)
    case Chars(text, next) => (if asked(postal, last) then [text] else []) + Texts(next, postal, last, asked)
    case Noise(next) => Texts(next, postal, last, asked)
  }

  function First(texts: seq<string>): Option<string> { if texts == [] then None else Some(texts[0]) }

  predicate IsName(postal: bool, last: string) { !postal && last == "Nm" }
  predicate IsBic(postal: bool, last: string) { !postal && last in {"BICFI", "BIC", "AnyBIC"} }
  predicate IsTown(postal: bool, last: string) { postal && last == "TwnNm" }
  predicate IsCountry(postal: bool, last: string) { postal && last == "Ctry" }

  function IsStructured(n: Names): (bool, string) -> bool {
    (postal: bool, last: string) => postal && last != "AdrLine" && (last in {"TwnNm", "Ctry"} || n.isAddress(last))
  }

  /** `address_lines` counts line elements, with text or without, self-closing or not. */
  lemma {:induction false} LinesAreElements(n: Names, trail: seq<string>, f: Forest, stated: Stated)
    requires trail != []
    ensures |StatedIn(n, trail, f, stated).lines| == |stated.lines| + LineCount(f, "PstlAdr" in trail)
    decreases f
  {
    match f
    case Nil =>
    case Elem(name, _, kids, next) =>
      var line := AtElement(trail, name, stated);
      LinesAreElements(n, trail + [name], kids, line);
      LinesAreElements(n, trail, next, StatedIn(n, trail + [name], kids, line));
    case Closed(name, _, next) => LinesAreElements(n, trail, next, AtElement(trail, name, stated));
    case Chars(text, next) =>
      LinesAreElements(n, trail, next, Says(n, stated, "PstlAdr" in trail, trail[|trail| - 1], text));
    case Noise(next) => LinesAreElements(n, trail, next, stated);
  }

  /** What a field of a party is after one more text: kept once it is stated. */
  ghost predicate Columns(n: Names, stated: Stated, after: Stated, postal: bool, f: Forest, last: string) {
    && after.name == OrElse(stated.name, First(Texts(f, postal, last, IsName)))
    && after.bic == OrElse(stated.bic, First(Texts(f, postal, last, IsBic)))
    && after.town == OrElse(stated.town, First(Texts(f, postal, last, IsTown)))
    && after.country == OrElse(stated.country, First(Texts(f, postal, last, IsCountry)))
    && after.structured == stated.structured + |Texts(f, postal, last, IsStructured(n))|
  }

  /** Each column is the first text of its question: nothing from outside the postal address counts as
      address, nothing inside it as name or BIC, and no second answer replaces the first. */
  lemma {:induction false} ColumnsAreFirstTexts(n: Names, trail: seq<string>, f: Forest, stated: Stated)
    requires trail != []
    ensures Columns(n, stated, StatedIn(n, trail, f, stated), "PstlAdr" in trail, f, trail[|trail| - 1])
    decreases f
  {
    var postal, last := "PstlAdr" in trail, trail[|trail| - 1];
    match f
    case Nil =>
    case Elem(name, _, kids, next) =>
      var before := AtElement(trail, name, stated);
      var inner := StatedIn(n, trail + [name], kids, before);
      ColumnsAreFirstTexts(n, trail + [name], kids, before);
      ColumnsAreFirstTexts(n, trail, next, inner);
      ColumnsCompose(n, before, inner, StatedIn(n, trail, next, inner), postal || name == "PstlAdr", kids, name,
          postal, next, last);
      ElementSaysNothing(n, stated, before, StatedIn(n, trail, f, stated), postal, f, last);
    case Closed(name, _, next) =>
      ColumnsAreFirstTexts(n, trail, next, AtElement(trail, name, stated));
    case Chars(text, next) =>
      ColumnsAreFirstTexts(n, trail, next, Says(n, stated, postal, last, text));
      OneText(n, stated, postal, last, text, next, StatedIn(n, trail, f, stated));
    case Noise(next) => ColumnsAreFirstTexts(n, trail, next, stated);
  }

  lemma ColumnsCompose(n: Names, a: Stated, b: Stated, c: Stated, postal: bool, kids: Forest, name: string,
      outer: bool, next: Forest, last: string)
    requires Columns(n, a, b, postal, kids, name) && Columns(n, b, c, outer, next, last)
    requires postal == (outer || name == "PstlAdr")
    ensures forall binds :: Columns(n, a, c, outer, Elem(name, binds, kids, next), last)
  {
  }

  lemma ElementSaysNothing(n: Names, stated: Stated, before: Stated, after: Stated, postal: bool, f: Forest,
      last: string)
    requires Columns(n, before, after, postal, f, last)
    requires before == stated || before == OpensLine(stated)
    ensures Columns(n, stated, after, postal, f, last)
  {
  }

  function Answer(asked: bool, text: string): Option<string> { if asked then Some(text) else None }

  /** A text answers the questions it is asked by, and no other. */
  lemma SaysByQuestion(n: Names, stated: Stated, postal: bool, last: string, text: string)
    ensures var said := Says(n, stated, postal, last, text);
      && said.name == OrElse(stated.name, Answer(IsName(postal, last), text))
      && said.bic == OrElse(stated.bic, Answer(IsBic(postal, last), text))
      && said.town == OrElse(stated.town, Answer(IsTown(postal, last), text))
      && said.country == OrElse(stated.country, Answer(IsCountry(postal, last), text))
      && said.structured == stated.structured + if IsStructured(n)(postal, last) then 1 else 0
  {
  }

  lemma FirstOfMore(before: Option<string>, asked: (bool, string) -> bool, postal: bool, last: string, text: string,
      next: Forest)
    ensures OrElse(OrElse(before, Answer(asked(postal, last), text)), First(Texts(next, postal, last, asked)))
      == OrElse(before, First(Texts(Chars(text, next), postal, last, asked)))
  {
  }

  lemma OneText(n: Names, stated: Stated, postal: bool, last: string, text: string, next: Forest, after: Stated)
    requires Columns(n, Says(n, stated, postal, last, text), after, postal, next, last)
    ensures Columns(n, stated, after, postal, Chars(text, next), last)
  {
    SaysByQuestion(n, stated, postal, last, text);
    FirstOfMore(stated.name, IsName, postal, last, text, next);
    FirstOfMore(stated.bic, IsBic, postal, last, text, next);
    FirstOfMore(stated.town, IsTown, postal, last, text, next);
    FirstOfMore(stated.country, IsCountry, postal, last, text, next);
  }

  // ── populated elements ──

  /** The texts that stand in an element itself, one for each piece a comment or a CDATA section leaves. */
  function DirectTexts(f: Forest): nat {
    match f
    case Nil => 0
    case Chars(_, next) => 1 + DirectTexts(next)
    case Elem(_, _, _, next) => DirectTexts(next)
    case Closed(_, _, next) => DirectTexts(next)
    case Noise(next) => DirectTexts(next)
  }

  /** How many structured elements hold a text. */
  function Populated(n: Names, f: Forest, postal: bool): nat {
    match f
    case Nil => 0
    case Elem(name, _, kids, next) =>
      var inside := postal || name == "PstlAdr";
      (if IsStructured(n)(inside, name) && DirectTexts(kids) > 0 then 1 else 0)
      + Populated(n, kids, inside) + Populated(n, next, postal)
    case Closed(_, _, next) => Populated(n, next, postal)
    case Chars(_, next) => Populated(n, next, postal)
    case Noise(next) => Populated(n, next, postal)
  }

  /** No structured element holds its text in pieces. */
  predicate InOnePiece(n: Names, f: Forest, postal: bool) {
    match f
    case Nil => true
    case Elem(name, _, kids, next) =>
      var inside := postal || name == "PstlAdr";
      (IsStructured(n)(inside, name) ==> DirectTexts(kids) <= 1) && InOnePiece(n, kids, inside)
        && InOnePiece(n, next, postal)
    case Closed(_, _, next) => InOnePiece(n, next, postal)
    case Chars(_, next) => InOnePiece(n, next, postal)
    case Noise(next) => InOnePiece(n, next, postal)
  }

  lemma {:induction false} PiecesAndPopulated(n: Names, f: Forest, postal: bool, last: string)
    ensures var pieces := |Texts(f, postal, last, IsStructured(n))|;
      var own := if IsStructured(n)(postal, last) then DirectTexts(f) else 0;
      && pieces >= own + Populated(n, f, postal)
      && (pieces == own + Populated(n, f, postal) <==> InOnePiece(n, f, postal))
  {
    match f
    case Nil =>
    case Elem(name, _, kids, next) =>
      PiecesAndPopulated(n, kids, postal || name == "PstlAdr", name);
      PiecesAndPopulated(n, next, postal, last);
    case Closed(_, _, next) => PiecesAndPopulated(n, next, postal, last);
    case Chars(_, next) => PiecesAndPopulated(n, next, postal, last);
    case Noise(next) => PiecesAndPopulated(n, next, postal, last);
  }

  /** `structured_elements` is never below the number of populated structured elements of the party, and is
      that number exactly where each of them holds its text in one piece. */
  lemma StructuredIsPopulated(n: Names, role: string, kids: Forest)
    requires role != "PstlAdr"
    ensures var structured := StatedIn(n, [role], kids, NOTHING).structured;
      && structured >= Populated(n, kids, false)
      && (structured == Populated(n, kids, false) <==> InOnePiece(n, kids, false))
  {
    ColumnsAreFirstTexts(n, [role], kids, NOTHING);
    PiecesAndPopulated(n, kids, false, role);
  }

  /** A town with a comment in the middle of it. */
  function SplitTown(): Forest {
    Elem("PstlAdr", None, Elem("TwnNm", None, Chars("Zu", Noise(Chars("rich", Nil))), Nil), Nil)
  }

  /** One populated element, counted twice. */
  lemma SplitTownCountsTwice(container: string -> Option<string>, definition: string -> Option<string>)
    ensures var n := Iso(container, definition);
      var facts := Facts(Drain(Audit(n), INITIAL, Onto(Elem("Dbtr", None, SplitTown(), Nil), Eof)).rows);
      |facts| == 1 && facts[0].stated.structured == 2 && Populated(n, SplitTown(), false) == 1
  {
    TownOfAParty(Iso(container, definition), Elem("Dbtr", None, SplitTown(), Nil));
  }

  lemma TownOfAParty(n: Names, party: Forest)
    requires party == Elem("Dbtr", None, SplitTown(), Nil) && n.role("Dbtr") == Some(PARTY)
    ensures var facts := Facts(Drain(Audit(n), INITIAL, Onto(party, Eof)).rows);
      |facts| == 1 && facts[0].stated.structured == 2 && Populated(n, SplitTown(), false) == 1
  {
    DrainIsParties(n, party);
    var fact := Fact("Dbtr", PARTY, StatedIn(n, ["Dbtr"], SplitTown(), NOTHING));
    assert PartiesOf(n, party) == [fact] + PartiesOf(n, Nil);
    assert [fact] + [] == [fact];
    ColumnsAreFirstTexts(n, ["Dbtr"], SplitTown(), NOTHING);
    PiecesOfTown(n);
  }

  lemma PiecesOfTown(n: Names)
    ensures Texts(SplitTown(), false, "Dbtr", IsStructured(n)) == ["Zu", "rich"]
    ensures Populated(n, SplitTown(), false) == 1
  {
    var asked, town := IsStructured(n), Chars("Zu", Noise(Chars("rich", Nil)));
    assert Texts(town.next.next, true, "TwnNm", asked) == ["rich"] + Texts(Nil, true, "TwnNm", asked);
    assert Texts(town, true, "TwnNm", asked) == ["Zu"] + ["rich"];
    assert Texts(Nil, true, "PstlAdr", asked) == [];
    assert Texts(Elem("TwnNm", None, town, Nil), true, "PstlAdr", asked) == ["Zu", "rich"] + [];
    assert Texts(Nil, false, "Dbtr", asked) == [];
    assert Texts(SplitTown(), false, "Dbtr", asked) == ["Zu", "rich"] + [];
    assert Populated(n, town.next.next, true) == 0;
    assert Populated(n, town, true) == 0;
    assert DirectTexts(town.next.next) == 1;
    assert DirectTexts(town) == 2;
    assert Populated(n, Elem("TwnNm", None, town, Nil), true) == 1;
  }

  // ── what a line says ──

  /** The texts that stand in an element itself, end to end. */
  function Direct(f: Forest): string {
    match f
    case Nil => ""
    case Chars(text, next) => text + Direct(next)
    case Elem(_, _, _, next) => Direct(next)
    case Closed(_, _, next) => Direct(next)
    case Noise(next) => Direct(next)
  }

  /** No address line in an address line. */
  predicate Flat(f: Forest) {
    match f
    case Nil => true
    case Elem(name, _, kids, next) => Flat(kids) && Flat(next) && (name == "AdrLine" ==> LineCount(kids, true) == 0)
    case Closed(_, _, next) => Flat(next)
    case Chars(_, next) => Flat(next)
    case Noise(next) => Flat(next)
  }

  /** The address lines in order, each with the text it holds, put together again where it stands in pieces. */
  function LinesOf(f: Forest, postal: bool): seq<string> {
    match f
    case Nil => []
    case Elem(name, _, kids, next) =>
      (if name == "AdrLine" && postal then [Direct(kids)] else LinesOf(kids, postal || name == "PstlAdr"))
        + LinesOf(next, postal)
    case Closed(name, _, next) => (if name == "AdrLine" && postal then [""] else []) + LinesOf(next, postal)
    case Chars(_, next) => LinesOf(next, postal)
    case Noise(next) => LinesOf(next, postal)
  }

  /** The last line with more text on it. */
  function Filled(lines: seq<string>, text: string): seq<string>
    requires lines != []
  {
    lines[|lines| - 1 := lines[|lines| - 1] + text]
  }

  lemma FilledTwice(lines: seq<string>, a: string, b: string)
    requires lines != []
    ensures Filled(Filled(lines, a), b) == Filled(lines, a + b)
    ensures Filled(lines, "") == lines
  {
    var k := |lines| - 1;
    assert (lines[k] + a) + b == lines[k] + (a + b);
    assert lines[k] + "" == lines[k];
  }

  /** Inside a line: its texts go to it, and nothing else in it touches the lines. */
  lemma {:induction false} TextsFillTheLine(n: Names, trail: seq<string>, f: Forest, stated: Stated)
    requires trail != [] && "PstlAdr" in trail && trail[|trail| - 1] == "AdrLine"
    requires LineCount(f, true) == 0 && stated.lines != []
    ensures StatedIn(n, trail, f, stated).lines == Filled(stated.lines, Direct(f))
    decreases f
  {
    match f
    case Nil => FilledTwice(stated.lines, "", "");
    case Elem(name, _, kids, next) =>
      NoLines(n, trail + [name], kids, stated, true);
      TextsFillTheLine(n, trail, next, StatedIn(n, trail + [name], kids, stated));
    case Closed(_, _, next) => TextsFillTheLine(n, trail, next, stated);
    case Chars(text, next) =>
      FilledTwice(stated.lines, text, Direct(next));
      TextsFillTheLine(n, trail, next, Says(n, stated, true, trail[|trail| - 1], text));
    case Noise(next) => TextsFillTheLine(n, trail, next, stated);
  }

  /** Where lines do not nest, `address_text` is the lines' own texts in order, blank ones included. */
  lemma {:induction false} LinesAreTheirTexts(n: Names, trail: seq<string>, f: Forest, stated: Stated)
    requires trail != [] && Flat(f) && trail[|trail| - 1] != "AdrLine"
    ensures StatedIn(n, trail, f, stated).lines == stated.lines + LinesOf(f, "PstlAdr" in trail)
    decreases f
  {
    var postal := "PstlAdr" in trail;
    match f
    case Nil =>
    case Elem(name, _, kids, next) =>
      var line := AtElement(trail, name, stated);
      var inner := StatedIn(n, trail + [name], kids, line);
      if name == "AdrLine" {
        if postal {
          TextsFillTheLine(n, trail + [name], kids, line);
          assert "" + Direct(kids) == Direct(kids);
          assert inner.lines == stated.lines + [Direct(kids)];
        } else {
          NoLines(n, trail + [name], kids, stated, false);
        }
      } else {
        LinesAreTheirTexts(n, trail + [name], kids, line);
      }
      LinesAreTheirTexts(n, trail, next, inner);
    case Closed(name, _, next) => LinesAreTheirTexts(n, trail, next, AtElement(trail, name, stated));
    case Chars(text, next) => LinesAreTheirTexts(n, trail, next, Says(n, stated, postal, trail[|trail| - 1], text));
    case Noise(next) => LinesAreTheirTexts(n, trail, next, stated);
  }

  /** Content without a line element leaves the lines alone, unless it stands in a line itself. */
  lemma {:induction false} NoLines(n: Names, trail: seq<string>, f: Forest, stated: Stated, postal: bool)
    requires trail != [] && LineCount(f, true) == 0
    requires trail[|trail| - 1] == "AdrLine" ==> "PstlAdr" !in trail
    ensures StatedIn(n, trail, f, stated).lines == stated.lines && LinesOf(f, postal) == []
    decreases f
  {
    match f
    case Nil =>
    case Elem(name, _, kids, next) =>
      NoLines(n, trail + [name], kids, stated, postal || name == "PstlAdr");
      NoLines(n, trail, next, StatedIn(n, trail + [name], kids, stated), postal);
    case Closed(_, _, next) => NoLines(n, trail, next, stated, postal);
    case Chars(text, next) =>
      NoLines(n, trail, next, Says(n, stated, "PstlAdr" in trail, trail[|trail| - 1], text), postal);
    case Noise(next) => NoLines(n, trail, next, stated, postal);
  }
}
