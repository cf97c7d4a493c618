/** The customer cancellation reader as the program runs it. */
module CancellationReader {
  import opened Options
  import opened Xml
  import opened TreeMachine
  import opened Cancellation

  datatype Outcome = Pulled(row: Row) | Ended(ending: Ending)

  class CclStream {
    const parse: Stream -> TxInf
    var input: Stream
    var path: seq<string>
    var assign: Assignment
    var grp: Group
    var pmt: Payment
    var sawRequest: bool
    var inRequest: Option<nat>

    function Snapshot(): State
      reads this
    {
      State(path, assign, grp, pmt, sawRequest, inRequest)
    }

    constructor (input: Stream, parse: Stream -> TxInf)
      ensures Snapshot() == INITIAL && this.input == input && this.parse == parse
    {
      this.parse, this.input := parse, input;
      path, assign, grp, pmt := [], NO_ASSIGNMENT, NO_GROUP, NO_PAYMENT;
      sawRequest, inRequest := false, None;
    }

    method PushElement(name: string)
      modifies this
      ensures Snapshot() == Push(old(Snapshot()), name) && input == old(input)
    {
      if IsRequest(name) {
        sawRequest, inRequest := true, Some(|path|);
        assign, grp, pmt := NO_ASSIGNMENT, NO_GROUP, NO_PAYMENT;
      }
      if name == "Undrlyg" {
        grp, pmt := NO_GROUP, NO_PAYMENT;
      }
      if name == "OrgnlPmtInfAndCxl" {
        pmt := NO_PAYMENT;
      }
      path := path + [name];
    }

    method PopElement()
      modifies this`path, this`inRequest
      ensures Snapshot() == Pop(old(Snapshot()))
    {
      if path != [] { path := path[..|path| - 1]; }
      if inRequest == Some(|path|) { inRequest := None; }
    }

    /** A closing tag: a group and a payment group give a row, and the payment group's context ends with it. */
    method CloseElement(name: string) returns (row: Option<Row>)
      modifies this
      ensures Leave(old(Snapshot()), name) == Out(Snapshot(), row) && input == old(input)
    {
      var asked := inRequest.Some?;
      PopElement();
      if asked && name == "OrgnlGrpInfAndCxl" {
        return Some(GroupRow(assign, grp));
      }
      if asked && name == "OrgnlPmtInfAndCxl" {
        row := Some(PaymentRow(assign, grp, pmt));
        pmt := NO_PAYMENT;
        return;
      }
      return None;
    }

    /** The assignments of `Capture`. */
    method CaptureText(text: string)
      modifies this`assign, this`grp, this`pmt
      ensures Snapshot() == Capture(old(Snapshot()), text)
    {
      var own := AssignmentAfter(assign, path, text);
      if own.Some? {
        assign := own.value;
        return;
      }
      match LeafAt(path) {
        case Some(OfGroup(leaf)) => grp := GroupAfter(grp, leaf, text);
        case Some(OfPayment(leaf)) => pmt := PaymentAfter(pmt, leaf, text);
        case _ =>
      }
    }

    /** One event. */
    method Step() returns (row: Option<Row>, ended: Option<Ending>)
      modifies this
      ensures match StepOn(Reader(parse), old(Snapshot()), old(input))
        case Halt(ending) => ended == Some(ending)
        case Go(out, rest) => ended == None && row == out.row && Snapshot() == out.st && input == rest
    {
      row, ended := None, None;
      var event := input;
      match event {
        case Eof =>
          ended := Some(if path != [] then CutShort else if sawRequest then Finished else WrongFile);
        case More(Start(name, _), rest) =>
          if name == "TxInf" && inRequest.Some? {
            var cut := Subtree(name, 1, rest);
            if cut.None? { return None, Some(CutShort); }
            input := cut.value.rest;
            row := Some(TxRow(parse(cut.value.body), assign, grp, pmt));
          } else {
            input := rest;
            PushElement(name);
          }
        case More(End(name), rest) =>
          input := rest;
          row := CloseElement(name);
        case More(Text(text), rest) =>
          input := rest;
          CaptureText(text);
        case More(_, rest) =>
          input := rest;
      }
    }

    /** The next row, or how the scan ended. */
    method NextRow() returns (r: Outcome)
      modifies this
      ensures match Next(Reader(parse), old(Snapshot()), old(input))
        case Over(ending) => r == Ended(ending)
        case Pulled(row, st, rest) => r == Outcome.Pulled(row) && Snapshot() == st && input == rest
    {
      ghost var m := Reader(parse);
      while true
        invariant m == Reader(parse)
        invariant Next(m, Snapshot(), input) == Next(m, old(Snapshot()), old(input))
        decreases Length(input)
      {
        var row, ended := Step();
        if ended.Some? { return Ended(ended.value); }
        if row.Some? { return Outcome.Pulled(row.value); }
      }
    }
  }
}
