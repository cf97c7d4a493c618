/**
  The statement reader as the program runs it: a stream object whose fields
  change event by event, proved to compute the step machine.
*/
module StatementReader {
  import opened Options
  import opened Xml
  import opened TreeMachine
  import opened StatementWalk

  /** A record and its 1-based number, or how the scan ended. */
  datatype Outcome = Record(index: nat, body: Stream) | Ended(ending: Ending)

  /** Recorded events followed by a stream. */
  function Recorded(events: seq<Event>, s: Stream): Stream {
    if events == [] then s else Recorded(events[..|events| - 1], More(events[|events| - 1], s))
  }

  class StatementRecordStream {
    const grain: Grain
    const names: Names
    var input: Stream
    var path: seq<string>
    var ctx: Context
    var family: Option<string>
    var messageDepth: Option<nat>
    var statementDepth: Option<nat>
    var envelopeFamily: Option<string>
    var headerFamily: Option<string>
    var sawStatement: bool
    var statementIndex: nat
    var recordIndex: nat

    function Snapshot(): State
      reads this
    {
      State(path, ctx, family, messageDepth, statementDepth, envelopeFamily, headerFamily, sawStatement,
          statementIndex, recordIndex)
    }

    constructor (input: Stream, grain: Grain, names: Names)
      ensures Snapshot() == INITIAL && this.input == input && this.grain == grain && this.names == names
    {
      this.grain, this.names, this.input := grain, names, input;
      path, ctx, family := [], NO_CONTEXT, None;
      messageDepth, statementDepth := None, None;
      envelopeFamily, headerFamily := None, None;
      sawStatement, statementIndex, recordIndex := false, 0, 0;
    }

    /** Consume the subtree whose opening event was just read, keeping none of it. */
    method SkipSubtree(tag: string) returns (ok: bool)
      modifies this`input
      ensures ok == Subtree(tag, 1, old(input)).Some?
      ensures ok ==> input == Subtree(tag, 1, old(input)).value.rest
    {
      var depth := 1;
      while true
        invariant depth > 0
        invariant Subtree(tag, 1, old(input)).Some? == Subtree(tag, depth, input).Some?
        invariant Subtree(tag, depth, input).Some? ==>
                    Subtree(tag, 1, old(input)).value.rest == Subtree(tag, depth, input).value.rest
        decreases Length(input)
      {
        if input.Eof? { return false; }
        depth := DepthAfter(tag, depth, input.head);
        input := input.tail;
        if depth == 0 { return true; }
      }
    }

    /** Copy the subtree whose opening event was just read. */
    method RecordSubtree(tag: string) returns (body: Option<Stream>)
      modifies this`input
      ensures match Subtree(tag, 1, old(input))
              case None => body == None
              case Some(cut) => body == Some(cut.body) && input == cut.rest
    {
      var depth := 1;
      var w: seq<Event> := [];
      while true
        invariant depth > 0
        invariant Subtree(tag, 1, old(input))
               == match Subtree(tag, depth, input)
                  case None => None
                  case Some(cut) => Some(Cut(Recorded(w, cut.body), cut.rest))
        decreases Length(input)
      {
        if input.Eof? { return None; }
        var e := input.head;
        depth := DepthAfter(tag, depth, e);
        input := input.tail;
        assert forall s :: Recorded(w + [e], s) == Recorded(w, More(e, s)) by {
          assert (w + [e])[..|w|] == w;
        }
        w := w + [e];
        if depth == 0 { return Some(Recorded(w, Eof)); }
      }
    }

    /** Empties the message columns and nothing else. */
    method ResetMessageFields()
      modifies this`ctx
      ensures Snapshot() == ResetMessage(old(Snapshot()))
    {
      ctx := ctx.(message := map[]);
    }

    method OpenHeader(name: string)
      modifies this`ctx
      ensures Snapshot() == OpensHeader(old(Snapshot()), name)
    {
      if name == "GrpHdr" && statementDepth.None? {
        ResetMessageFields();
      }
    }

    /** The message an element may open, and the namespace it may declare. */
    method OpenMessage(name: string, own: Option<string>)
      modifies this`family, this`messageDepth, this`envelopeFamily, this`ctx
      ensures Snapshot() == OpensMessage(names, old(Snapshot()), name, own)
    {
      var openedMessage := false;
      if messageDepth.None? {
        var found: Option<string>;
        if name == "Document" {
          found := KnownFamily(OrElse(OrElse(own, envelopeFamily), headerFamily));
        } else {
          found := names.family(name);
        }
        if found.Some? {
          family := found;
          messageDepth := Some(|path|);
          ResetMessageFields();
          openedMessage := true;
        }
      }
      if envelopeFamily.None? && !openedMessage {
        envelopeFamily := own;
      }
    }

    /** Outside every statement a container opens one, and no column but the message's outlives that. */
    method OpenStatement(name: string)
      modifies this`sawStatement, this`statementDepth, this`statementIndex, this`recordIndex, this`ctx
      ensures Snapshot() == OpensStatement(old(Snapshot()), name)
    {
      if statementDepth.None? && IsStatement(name) {
        sawStatement := true;
        statementDepth := Some(|path|);
        statementIndex := statementIndex + 1;
        recordIndex := 0;
        ctx := NO_CONTEXT.(message := ctx.message, kind := Some(name), index := statementIndex);
      }
    }

    /** The assignments of `Opens`, in the program's order. */
    method Open(name: string, own: Option<string>)
      modifies this
      ensures Snapshot() == Opens(names, old(Snapshot()), name, own) && input == old(input)
    {
      OpenHeader(name);
      OpenMessage(name, own);
      OpenStatement(name);
    }

    method RememberNamespace(own: Option<string>)
      modifies this`envelopeFamily
      ensures Snapshot() == Remembers(old(Snapshot()), own)
    {
      if envelopeFamily.Some? { return; }
      envelopeFamily := own;
    }

    /** A leaf's text, to the path that owns it. */
    method Capture(text: string)
      modifies this`ctx, this`headerFamily
      ensures Snapshot() == Captures(names, old(Snapshot()), text)
    {
      if statementDepth.Some? {
        var below := if statementDepth.value < |path| then path[statementDepth.value + 1..] else [];
        var slot := names.slot(below);
        if slot.Some? && (slot.value.overwrites || slot.value.field !in ctx.fields) {
          ctx := ctx.(fields := ctx.fields[slot.value.field := text]);
        }
        return;
      }
      if headerFamily.None? && EndsWith(path, ["AppHdr", "MsgDefIdr"]) {
        headerFamily := names.definition(text);
      }
      var slot := names.messageSlot(path);
      if slot.Some? {
        ctx := ctx.(message := ctx.message[slot.value := text]);
      }
    }

    method CountChild(name: string)
      modifies this`ctx
      ensures Snapshot() == Counts(old(Snapshot()), name)
    {
      if name == "Ntry" {
        ctx := ctx.(entries := ctx.entries + 1);
      } else {
        ctx := ctx.(balances := ctx.balances + 1);
      }
    }

    /** The close of an element: whether it closed the active statement. */
    method Pop() returns (closesStatement: bool)
      modifies this
      ensures closesStatement == ClosesStatement(old(Snapshot()))
      ensures Snapshot() == Closes(old(Snapshot())) && input == old(input)
    {
      path := Popped(path);
      closesStatement := statementDepth == Some(|path|);
      if closesStatement {
        statementDepth := None;
      }
      if messageDepth == Some(|path|) {
        messageDepth := None;
        family := None;
        ResetMessageFields();
      }
    }

    /** An element start. A record is returned; None when there is none to hand out yet, and
        `cut` when the input ran out inside a subtree. */
    method OnStart(name: string, own: Option<string>) returns (row: Option<Outcome>, cut: bool)
      modifies this
      ensures var st := old(Snapshot());
              if !Consumes(grain, st, name) then
                !cut && row == None && Snapshot() == Enter(names, st, name, own) && input == old(input)
              else match Subtree(name, 1, old(input))
                case None => cut
                case Some(c) =>
                  var out := Consume(grain, st, name, c.body);
                  && !cut && Snapshot() == out.st && input == c.rest
                  && row == (if out.row.Some? then Some(Record(out.row.value.index, out.row.value.body)) else None)
                  && (out.row.Some? ==> ctx == out.row.value.ctx)
    {
      row, cut := None, false;
      var atRecord := statementDepth.Some? && |path| == statementDepth.value + 1;
      if StatementRows(grain) && atRecord && (name == "Ntry" || name == "Bal") {
        var ok := SkipSubtree(name);
        if !ok { return None, true; }
        CountChild(name);
        return;
      }
      if name == Tag(grain) && atRecord {
        row, cut := TakeRecord(name);
        return;
      }
      if name == Skipped(grain) {
        var ok := SkipSubtree(name);
        return None, !ok;
      }
      EnterElement(name, own);
    }

    /** An element that is walked into. */
    method EnterElement(name: string, own: Option<string>)
      modifies this
      ensures Snapshot() == Enter(names, old(Snapshot()), name, own) && input == old(input)
    {
      Open(name, own);
      path := path + [name];
    }

    /** A record handed out as its subtree. */
    method TakeRecord(name: string) returns (row: Option<Outcome>, cut: bool)
      modifies this`input, this`recordIndex
      ensures match Subtree(name, 1, old(input))
        case None => cut
        case Some(c) =>
          var out := HandsOut(old(Snapshot()), c.body);
          && !cut && Snapshot() == out.st && input == c.rest && ctx == out.row.value.ctx
          && row == Some(Record(out.row.value.index, out.row.value.body))
    {
      var body := RecordSubtree(name);
      if body.None? { return None, true; }
      recordIndex := recordIndex + 1;
      return Some(Record(recordIndex, body.value)), false;
    }

    /** A self-closing element. */
    method OnEmpty(name: string, own: Option<string>) returns (row: Option<Outcome>)
      modifies this
      ensures var out := SelfClosing(grain, old(Snapshot()), name, own);
              && Snapshot() == out.st && input == old(input)
              && row == (if out.row.Some? then Some(Record(out.row.value.index, out.row.value.body)) else None)
              && (out.row.Some? ==> ctx == out.row.value.ctx)
    {
      row := None;
      var atRecord := statementDepth.Some? && |path| == statementDepth.value + 1;
      if StatementRows(grain) && name == "Bal" && atRecord {
        CountChild(name);
        return;
      }
      if EmptyIsRecord(grain) && name == Tag(grain) && atRecord {
        recordIndex := recordIndex + 1;
        return Some(Record(recordIndex, Eof));
      }
      OpenHeader(name);
      RememberNamespace(own);
    }

    /** The next record, with the context that belongs to it, or how the scan ended. */
    method NextRecord() returns (r: Outcome)
      modifies this
      ensures match Next(Camt(grain, names), old(Snapshot()), old(input))
              case Over(ending) => r == Ended(ending)
              case Pulled(row, st, rest) =>
                r == Record(row.index, row.body) && ctx == row.ctx && Snapshot() == st && input == rest
    {
      ghost var m := Camt(grain, names);
      while true
        invariant m == Camt(grain, names)
        invariant Next(m, Snapshot(), input) == Next(m, old(Snapshot()), old(input))
        decreases Length(input)
      {
        ghost var st, s := Snapshot(), input;
        ghost var step := StepOn(m, st, s);
        var event := input;
        match event {
          case Eof =>
            return Ended(if path != [] then CutShort else if sawStatement then Finished else WrongFile);
          case More(Start(name, own), rest) =>
            input := rest;
            var row, cut := OnStart(name, own);
            if cut { return Ended(CutShort); }
            assert step == Go(step.out, input) && Snapshot() == step.out.st;
            if row.Some? { return row.value; }
          case More(Empty(name, own), rest) =>
            input := rest;
            var row := OnEmpty(name, own);
            assert step == Go(step.out, input) && Snapshot() == step.out.st;
            if row.Some? { return row.value; }
          case More(End(_), rest) =>
            input := rest;
            var closesStatement := Pop();
            assert step == Go(step.out, input) && Snapshot() == step.out.st;
            if closesStatement && StatementRows(grain) { return Record(statementIndex, Eof); }
          case More(Text(text), rest) =>
            input := rest;
            Capture(text);
            assert step == Go(step.out, input) && Snapshot() == step.out.st;
          case More(Misc, rest) =>
            input := rest;
            assert step == Go(step.out, input) && Snapshot() == step.out.st;
        }
      }
    }
  }
}
