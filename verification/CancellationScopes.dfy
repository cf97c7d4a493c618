/**
  The rows of a cancellation file by recursion on the document, with what each
  level has heard by then, and where the scopes of the levels end.
*/
module CancellationScopes {
  import opened Options
  import opened Xml
  import opened TreeMachine
  import opened Cancellation

  // ── what a level has heard ──

  /** The texts at one level's leaves, the latest first, each with the reason block it stands in. */
  datatype Texts<L> = Silent | Spoke(leaf: L, text: string, block: nat, earlier: Texts<L>)

  function GroupOf(t: Texts<GroupLeaf>): Group {
    match t case Silent => NO_GROUP case Spoke(leaf, text, _, earlier) => GroupAfter(GroupOf(earlier), leaf, text)
  }

  function PaymentOf(t: Texts<PaymentLeaf>): Payment {
    match t case Silent => NO_PAYMENT case Spoke(leaf, text, _, earlier) => PaymentAfter(PaymentOf(earlier), leaf, text)
  }

  /** What the three levels have heard, whether a request is open, whether one was, and how many reason
      blocks have started. */
  datatype Heard = Heard(
    assign: Assignment,
    group: Texts<GroupLeaf>,
    payment: Texts<PaymentLeaf>,
    asked: bool,
    saw: bool,
    blocks: nat)

  const NOTHING_HEARD := Heard(NO_ASSIGNMENT, Silent, Silent, false, false, 0)

  function Hears(h: Heard, path: seq<string>, block: nat, text: string): Heard {
    HearsAt(h, AssignmentAfter(h.assign, path, text), LeafAt(path), block, text)
  }

  function HearsAt(h: Heard, assign: Option<Assignment>, leaf: Option<Leaf>, block: nat, text: string): Heard {
    if assign.Some? then h.(assign := assign.value)
    else
      match leaf
      case Some(OfGroup(leaf)) => h.(group := Spoke(leaf, text, block, h.group))
      case Some(OfPayment(leaf)) => h.(payment := Spoke(leaf, text, block, h.payment))
      case _ => h
  }

  /** An element that is walked into: a request starts everything over, an Undrlyg both groups, a payment
      group its own texts. */
  function Opened(h: Heard, name: string): Heard {
    var asked := if IsRequest(name) then Heard(NO_ASSIGNMENT, Silent, Silent, true, true, h.blocks) else h;
    var underlying := if name == "Undrlyg" then asked.(group := Silent, payment := Silent) else asked;
    var payment := if name == "OrgnlPmtInfAndCxl" then underlying.(payment := Silent) else underlying;
    if name == "CxlRsnInf" then payment.(blocks := payment.blocks + 1) else payment
  }

  /** Its end: a payment group takes its texts with it, and the innermost request is over. Where `ends`,
      so does an Undrlyg, which the program leaves to the start of the next one. */
  function Ended(h: Heard, name: string, ends: bool): Heard {
    var payment := if name == "OrgnlPmtInfAndCxl" && h.asked then h.(payment := Silent) else h;
    var underlying := if ends && name == "Undrlyg" then payment.(group := Silent, payment := Silent) else payment;
    underlying.(asked := h.asked && !IsRequest(name))
  }

  function BlockIn(name: string, block: nat, h: Heard): nat { if name == "CxlRsnInf" then h.blocks else block }

  predicate IsTx(name: string, h: Heard) { name == "TxInf" && h.asked }

  /** The row an element's end hands out. */
  function EndRow(name: string, h: Heard): seq<Row> {
    if !h.asked then []
    else if name == "OrgnlGrpInfAndCxl" then [GroupRow(h.assign, GroupOf(h.group))]
    else if name == "OrgnlPmtInfAndCxl" then [PaymentRow(h.assign, GroupOf(h.group), PaymentOf(h.payment))]
    else []
  }

  datatype Told = Told(rows: seq<Row>, heard: Heard)

  /** The rows of some content and what has been heard after it; `block` is the reason block around it. */
  function Tell(parse: Stream -> TxInf, ends: bool, path: seq<string>, block: nat, f: Forest, h: Heard): Told
    decreases f, 1
  {
    if f.Nil? then Told([], h)
    else
      var one := TellNode(parse, ends, path, block, f, h);
      var rest := Tell(parse, ends, path, block, f.next, one.heard);
      Told(one.rows + rest.rows, rest.heard)
  }

  function TellNode(parse: Stream -> TxInf, ends: bool, path: seq<string>, block: nat, f: Forest, h: Heard): Told
    requires !f.Nil?
    decreases f, 0
  {
    match f
    case Elem(name, _, kids, _) =>
      if IsTx(name, h) then
        Told([TxRow(parse(Body(name, kids)), h.assign, GroupOf(h.group), PaymentOf(h.payment))], h)
      else
        var begun := Opened(h, name);
        var inner := Tell(parse, ends, path + [name], BlockIn(name, block, begun), kids, begun);
        Told(inner.rows + EndRow(name, inner.heard), Ended(inner.heard, name, ends))
    case Chars(text, _) => Told([], Hears(h, path, block, text))
    case _ => Told([], h)
  }

  // ── the reader is that recursion ──

  ghost predicate At(st: State, h: Heard) {
    && st.assign == h.assign && st.grp == GroupOf(h.group) && st.pmt == PaymentOf(h.payment)
    && h.asked == st.inRequest.Some? && (h.asked ==> st.inRequest.value < |st.path|)
    && st.sawRequest == h.saw
  }

  lemma {:induction false} WalkTells(parse: Stream -> TxInf, st: State, block: nat, f: Forest, h: Heard)
    requires At(st, h)
    ensures var w, t := Walk(Reader(parse), st, f), Tell(parse, false, st.path, block, f, h);
      w.rows == t.rows && At(w.st, t.heard) && w.st.path == st.path
    ensures var t := Tell(parse, false, st.path, block, f, h);
      t.heard.asked ==> Walk(Reader(parse), st, f).st.inRequest == st.inRequest
    decreases f, 1
  {
    if !f.Nil? {
      NodeTells(parse, st, block, f, h);
      WalkTells(parse, WalkNode(Reader(parse), st, f).st, block, f.next,
          TellNode(parse, false, st.path, block, f, h).heard);
    }
  }

  lemma {:induction false} NodeTells(parse: Stream -> TxInf, st: State, block: nat, f: Forest, h: Heard)
    requires At(st, h) && !f.Nil?
    ensures var w, t := WalkNode(Reader(parse), st, f), TellNode(parse, false, st.path, block, f, h);
      w.rows == t.rows && At(w.st, t.heard) && w.st.path == st.path
    ensures var t := TellNode(parse, false, st.path, block, f, h);
      t.heard.asked ==> WalkNode(Reader(parse), st, f).st.inRequest == st.inRequest
    decreases f, 0
  {
    match f
    case Elem(name, _, kids, _) =>
      if !IsTx(name, h) {
        var begun, inner := Opened(h, name), Push(st, name);
        PushTells(st, h, name);
        WalkTells(parse, inner, BlockIn(name, block, begun), kids, begun);
        LeaveTells(st, Walk(Reader(parse), inner, kids).st, name,
          Tell(parse, false, inner.path, BlockIn(name, block, begun), kids, begun).heard, inner.inRequest);
      }
    case Chars(text, _) => TextTells(st, h, block, text);
    case _ =>
  }

  lemma PushTells(st: State, h: Heard, name: string)
    requires At(st, h)
    ensures At(Push(st, name), Opened(h, name)) && Push(st, name).path == st.path + [name]
    ensures Push(st, name).inRequest == if IsRequest(name) then Some(|st.path|) else st.inRequest
  {
  }

  lemma TextTells(st: State, h: Heard, block: nat, text: string)
    requires At(st, h)
    ensures At(Capture(st, text), Hears(h, st.path, block, text))
    ensures Capture(st, text).path == st.path && Capture(st, text).inRequest == st.inRequest
  {
  }

  lemma LeaveTells(st: State, inner: State, name: string, h: Heard, request: Option<nat>)
    requires At(inner, h) && inner.path == st.path + [name]
    requires request == (if IsRequest(name) then Some(|st.path|) else st.inRequest)
    requires h.asked ==> inner.inRequest == request
    requires st.inRequest.Some? ==> st.inRequest.value < |st.path|
    ensures var out := Leave(inner, name);
      && Rows(out.row) == EndRow(name, h) && At(out.st, Ended(h, name, false)) && out.st.path == st.path
      && (Ended(h, name, false).asked ==> out.st.inRequest == st.inRequest)
  {
    assert !IsRequest("OrgnlPmtInfAndCxl") && !IsRequest("OrgnlGrpInfAndCxl") by {
      assert "OrgnlPmtInfAndCxl"[0] == 'O' && "OrgnlGrpInfAndCxl"[0] == 'O' && "camt.055."[0] == 'c';
    }
  }

  /** The rows of a whole file, from its first event to its last, and its ending: all columns of every
      row, whatever requests, groups and transactions lie wherever in it. */
  lemma DrainIsTold(parse: Stream -> TxInf, f: Forest)
    ensures var t := Tell(parse, false, [], 0, f, NOTHING_HEARD);
      Drain(Reader(parse), INITIAL, Onto(f, Eof)) == Drained(t.rows, if t.heard.saw then Finished else WrongFile)
  {
    DrainIsWalk(Reader(parse), INITIAL, f, Eof);
    WalkTells(parse, INITIAL, 0, f, NOTHING_HEARD);
    var w := Walk(Reader(parse), INITIAL, f);
    assert w.rows + [] == w.rows;
  }
}
