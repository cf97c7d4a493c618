/** The address audit of src/addresses.rs as a step machine: one row per party on the wire. */
module AddressWalk {
  import opened Options
  import opened Xml
  import opened TreeMachine

  datatype Kind = PARTY | AGENT

  const PARTY_ROLES: set<string> := {"InitgPty", "Dbtr", "Cdtr", "UltmtDbtr", "UltmtCdtr", "Pyer", "Pyee"}

  const AGENT_ROLES: set<string> := {
    "InstgAgt", "InstdAgt", "DbtrAgt", "CdtrAgt", "DrwrAgt", "IntrmyAgt1", "IntrmyAgt2", "IntrmyAgt3",
    "PrvsInstgAgt1", "PrvsInstgAgt2", "PrvsInstgAgt3", "FwdgAgt"
  }

  const ADDRESS_ELEMS: set<string> := {
    "CareOf", "Dept", "SubDept", "StrtNm", "BldgNb", "BldgNm", "Flr", "UnitNb", "PstBx", "Room",
    "PstCd", "TwnNm", "TwnLctnNm", "DstrctNm", "CtrySubDvsn", "Ctry"
  }

  const RECORD_ELEMS: set<string> := {
    "Ntry", "CdtTrfTxInf", "CdtTrfTx", "DrctDbtTxInf", "TxInf", "TxInfAndSts", "Mndt",
    "UndrlygAmdmntDtls", "UndrlygCxlDtls", "UndrlygAccptncDtls", "Itm"
  }

  function RoleKind(name: string): Option<Kind> {
    if name in PARTY_ROLES then Some(PARTY) else if name in AGENT_ROLES then Some(AGENT) else None
  }

  /** The tables the walk looks names up in: what it proves of its rows holds for every table. */
  datatype Names = Names(
    role: string -> Option<Kind>,
    isRecord: string -> bool,
    isAddress: string -> bool,
    container: string -> Option<string>,
    definition: string -> Option<string>)

  /** The tables of the program, but for the two that name message families. */
  function Iso(container: string -> Option<string>, definition: string -> Option<string>): Names {
    Names(RoleKind, (name: string) => name in RECORD_ELEMS, (name: string) => name in ADDRESS_ELEMS,
      container, definition)
  }

  /** No name is a party and a record at once, and neither is part of an address: which of them an
      element is never depends on the order the walk asks in. */
  lemma RolesAreNoRecords(name: string)
    ensures RoleKind(name).Some? ==> name !in RECORD_ELEMS && name !in ADDRESS_ELEMS
    ensures RoleKind(name).Some? || name in RECORD_ELEMS ==> name !in {"Document", "PstlAdr", "AdrLine"}
    ensures name in PARTY_ROLES ==> name !in AGENT_ROLES
  {

  }

  /** What a party has stated so far. A line opens at its element, so a blank one counts. */
  datatype Stated = Stated(
    name: Option<string>,
    bic: Option<string>,
    town: Option<string>,
    country: Option<string>,
    structured: nat,
    lines: seq<string>)

  const NOTHING := Stated(None, None, None, None, 0, [])

  datatype Party = Party(
    depth: nat,
    role: string,
    kind: Kind,
    partyPath: seq<string>,
    recordIndex: Option<nat>,
    stated: Stated)

  datatype Row = Row(family: Option<string>, messageId: Option<string>, party: Party)

  datatype State = State(
    path: seq<string>,
    family: Option<string>,
    documentFamily: Option<string>,
    envelopeFamily: Option<string>,
    headerFamily: Option<string>,
    messageId: Option<string>,
    messageDepth: Option<nat>,
    documentDepth: Option<nat>,
    awaitingChild: bool,
    identified: bool,
    recordIndex: nat,
    recordDepth: Option<nat>,
    openParty: Option<Party>)

  const INITIAL := State([], None, None, None, None, None, None, None, false, false, 0, None, None)

  // ── one element start ──

  /** The first child of a Document: one the tables do not know leaves the Document itself the message. */
  function SeesChild(n: Names, st: State, name: string): State {
    if !st.awaitingChild then st
    else
      var named := st.documentFamily.Some? || st.headerFamily.Some? || st.envelopeFamily.Some?;
      var depth :=
        if named && n.container(name).None? && st.messageDepth.None? then st.documentDepth else st.messageDepth;
      st.(messageDepth := depth, awaitingChild := false)
  }

  /** A new message: its identity and its numbering start over. */
  function BeginMessage(st: State, depth: Option<nat>, family: Option<string>): State {
    st.(messageDepth := depth, family := family, messageId := None, recordIndex := 0, recordDepth := None)
  }

  function OpensMessage(n: Names, st: State, name: string, binds: Option<string>, push: bool): State {
    if name == "Document" then
      var family := OrElse(OrElse(binds, st.headerFamily), st.envelopeFamily);
      BeginMessage(
        st.(identified := true, awaitingChild := true, documentFamily := binds, documentDepth := Some(|st.path|)),
        None, family)
    else if push && st.openParty.None? && st.messageDepth.None? && n.container(name).Some? then
      var family := OrElse(OrElse(st.documentFamily, st.headerFamily), n.container(name));
      BeginMessage(st.(identified := true), Some(|st.path|), family)
    else st
  }

  /** Outside the messages the first binding is kept for the file; a message without a family takes any. */
  function Binds(st: State, name: string, binds: Option<string>): State {
    if binds.None? then st
    else
      var outside := name != "Document" && st.messageDepth.None?;
      var envelope := if outside && st.envelopeFamily.None? then binds else st.envelopeFamily;
      st.(identified := true, envelopeFamily := envelope, family := OrElse(st.family, binds))
  }

  /** The path from some depth on; all of the callers' depths lie on it. */
  function From(path: seq<string>, depth: nat): seq<string> { if depth <= |path| then path[depth..] else [] }

  predicate InPostalAddress(path: seq<string>, party: Party) { "PstlAdr" in From(path, party.depth) }

  function OpensLine(stated: Stated): Stated { stated.(lines := stated.lines + [""]) }

  /** An element inside a party changes nothing, unless it opens an address line. */
  function InsideParty(st: State, name: string): State
    requires st.openParty.Some?
  {
    var party := st.openParty.value;
    if name == "AdrLine" && InPostalAddress(st.path, party) then
      st.(openParty := Some(party.(stated := OpensLine(party.stated))))
    else st
  }

  function CountsRecord(n: Names, st: State, name: string): State {
    if n.isRecord(name) then st.(recordIndex := st.recordIndex + 1, recordDepth := Some(|st.path|)) else st
  }

  /** The names from the record at hand to the party, or the party's alone where no record is at hand. */
  function PartyPath(st: State, name: string): seq<string> {
    (if st.recordDepth.Some? then From(st.path, st.recordDepth.value) else []) + [name]
  }

  function OpensParty(n: Names, st: State, name: string): State {
    match n.role(name)
    case None => st
    case Some(kind) =>
      var index := if st.recordDepth.Some? then Some(st.recordIndex) else None;
      st.(openParty := Some(Party(|st.path|, name, kind, PartyPath(st, name), index, NOTHING)))
  }

  /** The message-level part of an element start. */
  function Announces(n: Names, st: State, name: string, binds: Option<string>, push: bool): State {
    Binds(OpensMessage(n, SeesChild(n, st, name), name, binds, push), name, binds)
  }

  function Element(n: Names, st: State, name: string, binds: Option<string>, push: bool): State {
    var st := Announces(n, st, name, binds, push);
    if st.openParty.Some? then InsideParty(st, name)
    else if !push then st
    else OpensParty(n, CountsRecord(n, st, name), name)
  }

  // ── text ──

  /** What a text in an element called `last` adds to a party, in or out of its postal address. */
  function Says(n: Names, stated: Stated, postal: bool, last: string, text: string): Stated {
    if postal then
      if last == "TwnNm" then stated.(structured := stated.structured + 1, town := OrElse(stated.town, Some(text)))
      else if last == "Ctry" then
        stated.(structured := stated.structured + 1, country := OrElse(stated.country, Some(text)))
      else if last == "AdrLine" then
        if stated.lines == [] then stated
        else stated.(lines := stated.lines[|stated.lines| - 1 := stated.lines[|stated.lines| - 1] + text])
      else if n.isAddress(last) then stated.(structured := stated.structured + 1)
      else stated
    else if last == "Nm" then stated.(name := OrElse(stated.name, Some(text)))
    else if last in {"BICFI", "BIC", "AnyBIC"} then stated.(bic := OrElse(stated.bic, Some(text)))
    else stated
  }

  predicate IsMessageId(path: seq<string>) {
    EndsWith(path, ["GrpHdr", "MsgId"]) || EndsWith(path, ["Assgnmt", "Id"]) || EndsWith(path, ["MsgHdr", "MsgId"])
  }

  function Captures(n: Names, st: State, text: string): State {
    if st.path == [] then st
    else
      match st.openParty
      case Some(party) =>
        st.(openParty := Some(party.(stated :=
          Says(n, party.stated, InPostalAddress(st.path, party), st.path[|st.path| - 1], text))))
      case None =>
        var id := if st.messageId.None? && IsMessageId(st.path) then Some(text) else st.messageId;
        var header :=
          if st.headerFamily.None? && EndsWith(st.path, ["AppHdr", "MsgDefIdr"]) then n.definition(text)
          else st.headerFamily;
        st.(messageId := id, headerFamily := header)
  }

  // ── one element end ──

  function Pops(st: State): Out<State, Row> {
    var path := if st.path == [] then [] else st.path[..|st.path| - 1];
    var closes := st.openParty.Some? && st.openParty.value.depth == |path|;
    var row := if closes then Some(Row(st.family, st.messageId, st.openParty.value)) else None;
    var depth := if st.recordDepth.Some? && |path| <= st.recordDepth.value then None else st.recordDepth;
    var message := if st.messageDepth == Some(|path|) then None else st.messageDepth;
    var party := if closes then None else st.openParty;
    Out(st.(path := path, openParty := party, recordDepth := depth, messageDepth := message), row)
  }

  function EndOfInput(st: State): Ending {
    if st.path != [] then CutShort else if st.identified then Finished else WrongFile
  }

  function Audit(n: Names): Machine<State, Row> {
    Machine(
      (st: State, name: string) => false,
      (st: State, name: string, body: Stream) => Out(st, None),
      (st: State, name: string, binds: Option<string>) =>
        Element(n, st, name, binds, true).(path := st.path + [name]),
      (st: State, name: string, binds: Option<string>) => Out(Element(n, st, name, binds, false), None),
      (st: State, text: string) => Captures(n, st, text),
      (st: State, name: string) => Pops(st),
      EndOfInput)
  }

  // ── every slice is in bounds ──

  /** What an open party and an open record point at is on the path. */
  predicate OnPath(st: State) {
    && (st.openParty.Some? ==> st.openParty.value.depth < |st.path|)
    && (st.recordDepth.Some? ==> st.recordDepth.value < |st.path|)
  }

  /** The two slices an element takes are of depths that lie on the path. */
  lemma ElementSlicesInBounds(n: Names, st: State, name: string, binds: Option<string>, push: bool)
    requires OnPath(st)
    ensures var announced := Announces(n, st, name, binds, push);
      && announced.path == st.path
      && (announced.openParty.Some? ==> announced.openParty.value.depth < |st.path|)
      && (announced.recordDepth.Some? ==> announced.recordDepth.value < |st.path|)
      && (var counted := CountsRecord(n, announced, name);
          counted.recordDepth.Some? ==> counted.recordDepth.value <= |st.path|)
  {
  }

  lemma PopsStaysOnPath(st: State)
    requires OnPath(st)
    ensures OnPath(Pops(st).st)
  {
  }

  /** Behind an element's own tag, its depth is the last that may be pointed at. */
  ghost predicate UpToPath(st: State) {
    && (st.openParty.Some? ==> st.openParty.value.depth <= |st.path|)
    && (st.recordDepth.Some? ==> st.recordDepth.value <= |st.path|)
  }

  /** An element itself leaves the path alone. */
  lemma ElementPath(n: Names, st: State, name: string, binds: Option<string>, push: bool)
    ensures Element(n, st, name, binds, push).path == st.path
  {
    AnnouncedPath(n, st, name, binds, push);
    OpensPath(n, Announces(n, st, name, binds, push), name);
  }

  lemma AnnouncedPath(n: Names, st: State, name: string, binds: Option<string>, push: bool)
    ensures Announces(n, st, name, binds, push).path == st.path
  {
  }

  lemma OpensPath(n: Names, st: State, name: string)
    ensures OpensParty(n, CountsRecord(n, st, name), name).path == st.path
    ensures st.openParty.Some? ==> InsideParty(st, name).path == st.path
  {
  }

  lemma AnnouncedOnPath(n: Names, st: State, name: string, binds: Option<string>, push: bool)
    requires OnPath(st)
    ensures OnPath(Announces(n, st, name, binds, push)) && Announces(n, st, name, binds, push).path == st.path
  {
  }

  lemma OpensUpToPath(n: Names, st: State, name: string)
    requires OnPath(st)
    ensures OnPath(if st.openParty.Some? then InsideParty(st, name) else st)
    ensures UpToPath(OpensParty(n, CountsRecord(n, st, name), name))
    ensures OpensParty(n, CountsRecord(n, st, name), name).path == st.path
  {
  }

  lemma ElementUpToPath(n: Names, st: State, name: string, binds: Option<string>, push: bool)
    requires OnPath(st)
    ensures var after := Element(n, st, name, binds, push);
      UpToPath(after) && after.path == st.path && (!push ==> OnPath(after))
  {
    AnnouncedOnPath(n, st, name, binds, push);
    OpensUpToPath(n, Announces(n, st, name, binds, push), name);
  }

  lemma EntersOnPath(n: Names, st: State, name: string, binds: Option<string>)
    requires OnPath(st)
    ensures OnPath(Audit(n).enter(st, name, binds)) && OnPath(Element(n, st, name, binds, false))
  {
    ElementUpToPath(n, st, name, binds, true);
    ElementUpToPath(n, st, name, binds, false);
  }

  /** No input, well nested or not, leads off the path. */
  lemma EveryStepStaysOnPath(n: Names, st: State, s: Stream)
    requires OnPath(st) && StepOn(Audit(n), st, s).Go?
    ensures OnPath(StepOn(Audit(n), st, s).out.st)
  {
    match s
    case More(Start(name, binds), _) => EntersOnPath(n, st, name, binds);
    case More(Empty(name, binds), _) => EntersOnPath(n, st, name, binds);
    case More(End(_), _) => PopsStaysOnPath(st);
    case _ =>
  }

  /** No input leads there over any number of steps, from any state on the path. */
  lemma {:induction false} EveryRunStaysOnPath(n: Names, st: State, s: Stream, steps: nat)
    requires OnPath(st)
    ensures OnPath(StateAfter(Audit(n), st, s, steps))
    decreases steps
  {
    if steps > 0 && StepOn(Audit(n), st, s).Go? {
      EveryStepStaysOnPath(n, st, s);
      var Go(out, rest) := StepOn(Audit(n), st, s);
      EveryRunStaysOnPath(n, out.st, rest, steps - 1);
    }
  }

  /** In every state a file leads to, the slices an element takes of the path are in bounds. */
  lemma ReachableSlicesInBounds(n: Names, s: Stream, steps: nat, name: string, binds: Option<string>, push: bool)
    ensures var st := StateAfter(Audit(n), INITIAL, s, steps);
      var announced := Announces(n, st, name, binds, push);
      && (announced.openParty.Some? ==> announced.openParty.value.depth <= |announced.path|)
      && (var counted := CountsRecord(n, announced, name);
          counted.recordDepth.Some? ==> counted.recordDepth.value <= |counted.path|)
  {
    EveryRunStaysOnPath(n, INITIAL, s, steps);
    ElementSlicesInBounds(n, StateAfter(Audit(n), INITIAL, s, steps), name, binds, push);
  }

  lemma AuditTracksDepth(n: Names)
    ensures TracksDepth(Audit(n), (st: State) => |st.path|)
  {
  }

  /** A file cut inside its document is refused, whatever parties were read by then. */
  lemma CutAuditIsRefused(n: Names, f: Forest, s: Stream)
    requires Rooted(f)
    requires Prefix(s, Onto(f, Eof)) && Prolog(f) < Length(s) < Prolog(f) + RootLength(f)
    ensures Drain(Audit(n), INITIAL, s).ending == CutShort
  {
    AuditTracksDepth(n);
    CutDocumentIsRefused(Audit(n), (st: State) => |st.path|, INITIAL, f, s);
  }
}
