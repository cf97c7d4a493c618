/** The address audit as the program runs it: fields that change event by event, and a queue of finished rows. */
module AddressReader {
  import opened Options
  import opened Xml
  import opened TreeMachine
  import opened AddressWalk

  datatype Outcome = Pulled(row: Row) | Ended(ending: Ending)

  class AddressStream {
    const names: Names
    var input: Stream
    var path: seq<string>
    /** The row of the party just closed; empty between two calls. */
    var queue: seq<Row>
    var family: Option<string>
    var documentFamily: Option<string>
    var envelopeFamily: Option<string>
    var headerFamily: Option<string>
    var messageId: Option<string>
    var messageDepth: Option<nat>
    var documentDepth: Option<nat>
    var awaitingChild: bool
    var identified: bool
    var recordIndex: nat
    var recordDepth: Option<nat>
    var openParty: Option<Party>

    function Snapshot(): State
      reads this
    {
      State(path, family, documentFamily, envelopeFamily, headerFamily, messageId, messageDepth,
        documentDepth, awaitingChild, identified, recordIndex, recordDepth, openParty)
    }

    constructor (input: Stream, names: Names)
      ensures Snapshot() == INITIAL && queue == [] && this.input == input && this.names == names
    {
      this.names, this.input := names, input;
      path, queue := [], [];
      family, documentFamily, envelopeFamily, headerFamily, messageId := None, None, None, None, None;
      messageDepth, documentDepth, recordDepth := None, None, None;
      awaitingChild, identified, recordIndex, openParty := false, false, 0, None;
    }

    /** The assignments of `BeginMessage`: no id, and no record counted yet. */
    method NewMessage(depth: Option<nat>, own: Option<string>)
      modifies this`messageDepth, this`family, this`messageId, this`recordIndex, this`recordDepth
      ensures Snapshot() == BeginMessage(old(Snapshot()), depth, own)
    {
      messageDepth, family, messageId := depth, own, None;
      recordIndex, recordDepth := 0, None;
    }

    /** The first child of a Document: one no table knows leaves the Document itself the message. */
    method SeeChild(name: string)
      modifies this`messageDepth, this`awaitingChild
      ensures Snapshot() == SeesChild(names, old(Snapshot()), name)
    {
      if awaitingChild {
        var named := documentFamily.Some? || headerFamily.Some? || envelopeFamily.Some?;
        if named && names.container(name).None? && messageDepth.None? {
          messageDepth := documentDepth;
        }
        awaitingChild := false;
      }
    }

    /** A Document starts over; the outermost container is the message. */
    method OpenMessage(name: string, binds: Option<string>, push: bool)
      modifies this
      ensures Snapshot() == OpensMessage(names, old(Snapshot()), name, binds, push)
      ensures input == old(input) && queue == old(queue)
    {
      if name == "Document" {
        identified, awaitingChild := true, true;
        documentFamily, documentDepth := binds, Some(|path|);
        NewMessage(None, OrElse(OrElse(documentFamily, headerFamily), envelopeFamily));
      } else if push && openParty.None? && messageDepth.None? {
        var container := names.container(name);
        if container.Some? {
          identified := true;
          NewMessage(Some(|path|), OrElse(OrElse(documentFamily, headerFamily), container));
        }
      }
    }

    /** Outside the messages the first binding is kept for the file; one without a family takes it anywhere. */
    method Bind(name: string, binds: Option<string>)
      modifies this`identified, this`envelopeFamily, this`family
      ensures Snapshot() == Binds(old(Snapshot()), name, binds)
    {
      if binds.Some? {
        identified := true;
        if name != "Document" && messageDepth.None? && envelopeFamily.None? {
          envelopeFamily := binds;
        }
        if family.None? {
          family := binds;
        }
      }
    }

    /** The message-level part of an element. */
    method Announce(name: string, binds: Option<string>, push: bool)
      modifies this
      ensures Snapshot() == Announces(names, old(Snapshot()), name, binds, push)
      ensures input == old(input) && queue == old(queue)
    {
      SeeChild(name);
      OpenMessage(name, binds, push);
      Bind(name, binds);
    }

    /** The assignments of `Element`, in the program's order. */
    method OnElement(name: string, binds: Option<string>, push: bool)
      modifies this
      ensures Snapshot() == Element(names, old(Snapshot()), name, binds, push)
      ensures input == old(input) && queue == old(queue)
    {
      Announce(name, binds, push);
      if openParty.Some? {
        if name == "AdrLine" && InPostalAddress(path, openParty.value) {
          var party := openParty.value;
          openParty := Some(party.(stated := OpensLine(party.stated)));
        }
        return;
      }
      if !push { return; }
      OpenParty(name);
    }

    /** The record and the party an element opens outside every party. */
    method OpenParty(name: string)
      modifies this`recordIndex, this`recordDepth, this`openParty
      ensures Snapshot() == OpensParty(names, CountsRecord(names, old(Snapshot()), name), name)
    {
      if names.isRecord(name) {
        recordIndex := recordIndex + 1;
        recordDepth := Some(|path|);
      }
      var kind := names.role(name);
      if kind.Some? {
        var index := if recordDepth.Some? then Some(recordIndex) else None;
        openParty := Some(Party(|path|, name, kind.value, PartyPath(Snapshot(), name), index, NOTHING));
      }
    }

    /** An element that has an end: it goes on the path. */
    method OnStart(name: string, binds: Option<string>)
      modifies this
      ensures Snapshot() == Element(names, old(Snapshot()), name, binds, true).(path := old(path) + [name])
      ensures input == old(input) && queue == old(queue)
    {
      ElementPath(names, Snapshot(), name, binds, true);
      OnElement(name, binds, true);
      path := path + [name];
    }

    /** The assignments of `Captures`: an open party hears the text alone. */
    method Capture(text: string)
      modifies this`openParty, this`messageId, this`headerFamily
      ensures Snapshot() == Captures(names, old(Snapshot()), text)
    {
      if path == [] { return; }
      if openParty.None? {
        if messageId.None? && IsMessageId(path) {
          messageId := Some(text);
        }
        if headerFamily.None? && EndsWith(path, ["AppHdr", "MsgDefIdr"]) {
          headerFamily := names.definition(text);
        }
        return;
      }
      var party := openParty.value;
      openParty := Some(party.(stated :=
        Says(names, party.stated, InPostalAddress(path, party), path[|path| - 1], text)));
    }

    /** The party that ends where the path now does is queued. */
    method EndParty()
      requires queue == []
      modifies this`queue, this`openParty
      ensures var ends := old(openParty).Some? && old(openParty).value.depth == |path|;
        && openParty == (if ends then None else old(openParty))
        && queue == (if ends then [Row(family, messageId, old(openParty).value)] else [])
    {
      if openParty.Some? && |path| == openParty.value.depth {
        queue := queue + [Row(family, messageId, openParty.value)];
        openParty := None;
      }
    }

    /** A closing tag: the party it ends is queued, and the record and message it ends are over. */
    method Pop()
      requires queue == []
      modifies this
      ensures Snapshot() == Pops(old(Snapshot())).st && input == old(input)
      ensures queue == Rows(Pops(old(Snapshot())).row)
    {
      if path != [] { path := path[..|path| - 1]; }
      EndParty();
      EndScopes();
    }

    /** The record and the message that end where the path now does are over. */
    method EndScopes()
      modifies this`recordDepth, this`messageDepth
      ensures recordDepth
        == if old(recordDepth).Some? && |path| <= old(recordDepth).value then None else old(recordDepth)
      ensures messageDepth == if old(messageDepth) == Some(|path|) then None else old(messageDepth)
    {
      if recordDepth.Some? && |path| <= recordDepth.value {
        recordDepth := None;
      }
      if messageDepth == Some(|path|) {
        messageDepth := None;
      }
    }

    /** One event. */
    method Step() returns (ended: Option<Ending>)
      requires queue == []
      modifies this
      ensures match StepOn(Audit(names), old(Snapshot()), old(input))
        case Halt(ending) => ended == Some(ending) && queue == []
        case Go(out, rest) => ended == None && Snapshot() == out.st && input == rest && queue == Rows(out.row)
    {
      ended := None;
      var event := input;
      match event {
        case Eof =>
          return Some(if path != [] then CutShort else if identified then Finished else WrongFile);
        case More(Start(name, binds), rest) =>
          input := rest;
          OnStart(name, binds);
        case More(Empty(name, binds), rest) =>
          input := rest;
          OnElement(name, binds, false);
        case More(End(_), rest) =>
          input := rest;
          Pop();
        case More(Text(text), rest) =>
          input := rest;
          Capture(text);
        case More(Misc, rest) =>
          input := rest;
      }
    }

    /** The next party, or how the scan ended. */
    method NextRow() returns (r: Outcome)
      requires queue == []
      modifies this
      ensures queue == []
      ensures match Next(Audit(names), old(Snapshot()), old(input))
        case Over(ending) => r == Ended(ending)
        case Pulled(row, st, rest) => r == Outcome.Pulled(row) && Snapshot() == st && input == rest
    {
      ghost var m := Audit(names);
      while true
        invariant m == Audit(names) && |queue| <= 1
        invariant queue == [] ==> Next(m, Snapshot(), input) == Next(m, old(Snapshot()), old(input))
        invariant queue != [] ==>
          Next(m, old(Snapshot()), old(input)) == TreeMachine.Pulled(queue[0], Snapshot(), input)
        decreases Length(input), |queue|
      {
        if queue != [] {
          r := Outcome.Pulled(queue[0]);
          queue := [];
          return;
        }
        var ended := Step();
        if ended.Some? { return Ended(ended.value); }
      }
    }
  }
}
