/**
  The skeleton the XML readers share: a state machine over the event stream
  that may consume a subtree whole, may hand out a row at an event, and is
  judged when the input is over. Draining it on a well-nested document is a
  recursion on the document.
*/
module TreeMachine {
  import opened Options
  import opened Xml

  /** The state after an event, and the row the event hands out. */
  datatype Out<S, R> = Out(st: S, row: Option<R>)

  /** How a scan ends: all read, no message of the right kind in the file, or
      input that stops inside an element. */
  datatype Ending = Finished | WrongFile | CutShort

  datatype Machine<!S, !R> = Machine(
    consumes: (S, string) -> bool,
    consume: (S, string, Stream) -> Out<S, R>,
    enter: (S, string, Option<string>) -> S,
    empty: (S, string, Option<string>) -> Out<S, R>,
    text: (S, string) -> S,
    leave: (S, string) -> Out<S, R>,
    over: S -> Ending)

  datatype Step<S, R> = Halt(ending: Ending) | Go(out: Out<S, R>, rest: Stream)

  function StepOn<S, R>(m: Machine<S, R>, st: S, s: Stream): (r: Step<S, R>)
    ensures r.Go? ==> Length(r.rest) < Length(s)
  {
    match s
    case Eof => Halt(m.over(st))
    case More(Start(name, binds), rest) =>
      if m.consumes(st, name) then
        match Subtree(name, 1, rest)
        case None => Halt(CutShort)
        case Some(cut) => Go(m.consume(st, name, cut.body), cut.rest)
      else Go(Out(m.enter(st, name, binds), None), rest)
    case More(Empty(name, binds), rest) => Go(m.empty(st, name, binds), rest)
    case More(End(name), rest) => Go(m.leave(st, name), rest)
    case More(Text(text), rest) => Go(Out(m.text(st, text), None), rest)
    case More(Misc, rest) => Go(Out(st, None), rest)
  }

  datatype Pull<S, R> = Pulled(row: R, st: S, rest: Stream) | Over(ending: Ending)

  /** One call of the reader: step until a row comes out or the input is over. */
  function Next<S, R>(m: Machine<S, R>, st: S, s: Stream): (r: Pull<S, R>)
    ensures r.Pulled? ==> Length(r.rest) < Length(s)
    decreases Length(s)
  {
    match StepOn(m, st, s)
    case Halt(ending) => Over(ending)
    case Go(Out(st', Some(row)), rest) => Pulled(row, st', rest)
    case Go(Out(st', None), rest) => Next(m, st', rest)
  }

  datatype Drained<R> = Drained(rows: seq<R>, ending: Ending) {
    function After(earlier: seq<R>): Drained<R> { Drained(earlier + rows, ending) }
  }

  function Rows<R>(row: Option<R>): seq<R> {
    match row case None => [] case Some(r) => [r]
  }

  /** Everything a caller pulls by calling the reader until it stops. */
  function Drain<S, R>(m: Machine<S, R>, st: S, s: Stream): Drained<R>
    decreases Length(s)
  {
    match StepOn(m, st, s)
    case Halt(ending) => Drained([], ending)
    case Go(out, rest) => Drain(m, out.st, rest).After(Rows(out.row))
  }

  /** Draining is pulling one row and draining the rest. */
  lemma {:induction false} DrainIsRepeatedNext<S, R>(m: Machine<S, R>, st: S, s: Stream)
    ensures Drain(m, st, s)
         == match Next(m, st, s)
            case Over(ending) => Drained([], ending)
            case Pulled(row, st', rest) => Drain(m, st', rest).After([row])
    decreases Length(s)
  {
    match StepOn(m, st, s)
    case Halt(_) =>
    case Go(out, rest) =>
      if out.row.None? {
        DrainIsRepeatedNext(m, out.st, rest);
      }
  }

  // ── on a document ──

  datatype Walked<S, R> = Walked(st: S, rows: seq<R>) {
    function After(earlier: seq<R>): Walked<S, R> { Walked(st, earlier + rows) }
  }

  /** The content of an element, as the subtree copy hands it to the deserializer. */
  function Body(name: string, kids: Forest): Stream { Onto(kids, More(End(name), Eof)) }

  /** The machine by recursion on the document instead of event by event. */
  function Walk<S, R>(m: Machine<S, R>, st: S, f: Forest): Walked<S, R>
    decreases f, 1
  {
    if f.Nil? then Walked(st, [])
    else
      var one := WalkNode(m, st, f);
      Walk(m, one.st, f.next).After(one.rows)
  }

  /** The first node of the forest and everything in it. */
  function WalkNode<S, R>(m: Machine<S, R>, st: S, f: Forest): Walked<S, R>
    requires !f.Nil?
    decreases f, 0
  {
    match f
    case Elem(name, binds, kids, _) =>
      if m.consumes(st, name) then
        var out := m.consume(st, name, Body(name, kids));
        Walked(out.st, Rows(out.row))
      else
        var inner := Walk(m, m.enter(st, name, binds), kids);
        var out := m.leave(inner.st, name);
        Walked(out.st, inner.rows + Rows(out.row))
    case Closed(name, binds, _) =>
      var out := m.empty(st, name, binds);
      Walked(out.st, Rows(out.row))
    case Chars(text, _) => Walked(m.text(st, text), [])
    case Noise(_) => Walked(st, [])
  }

  lemma AfterAfter<R>(d: Drained<R>, a: seq<R>, b: seq<R>)
    ensures d.After(b).After(a) == d.After(a + b)
  {
    assert a + (b + d.rows) == (a + b) + d.rows;
  }

  /** Draining a document, from any state and whatever follows it, is the recursion. */
  lemma {:induction false} DrainIsWalk<S, R>(m: Machine<S, R>, st: S, f: Forest, rest: Stream)
    ensures Drain(m, st, Onto(f, rest)) == Drain(m, Walk(m, st, f).st, rest).After(Walk(m, st, f).rows)
    decreases f, 1
  {
    if !f.Nil? {
      var one := WalkNode(m, st, f);
      DrainIsWalkNode(m, st, f, rest);
      DrainIsWalk(m, one.st, f.next, rest);
      AfterAfter(Drain(m, Walk(m, one.st, f.next).st, rest), one.rows, Walk(m, one.st, f.next).rows);
    }
  }

  lemma {:induction false} DrainIsWalkNode<S, R>(m: Machine<S, R>, st: S, f: Forest, rest: Stream)
    requires !f.Nil?
    ensures Drain(m, st, Onto(f, rest))
         == Drain(m, WalkNode(m, st, f).st, Onto(f.next, rest)).After(WalkNode(m, st, f).rows)
    decreases f, 0
  {
    if f.Elem? {
      var tail := Onto(f.next, rest);
      if m.consumes(st, f.name) {
        SubtreeOfElement(f.name, f.kids, tail);
      } else {
        var inner := Walk(m, m.enter(st, f.name, f.binds), f.kids);
        var out := m.leave(inner.st, f.name);
        DrainIsWalk(m, m.enter(st, f.name, f.binds), f.kids, More(End(f.name), tail));
        AfterAfter(Drain(m, out.st, tail), inner.rows, Rows(out.row));
      }
    }
  }

  // ── truncated input ──

  /** Input that stops early, anywhere, has handed out nothing the whole input would not:
      its rows are the first rows of the whole. */
  lemma {:induction false} CutInputGivesFirstRows<S, R>(m: Machine<S, R>, st: S, s: Stream, t: Stream)
    requires Prefix(s, t)
    ensures Drain(m, st, s).rows <= Drain(m, st, t).rows
    decreases Length(s)
  {
    if s.More? && StepOn(m, st, s).Go? {
      var Go(out, rest) := StepOn(m, st, s);
      if s.head.Start? && m.consumes(st, s.head.name) {
        SubtreeExtends(s.head.name, 1, s.tail, t.tail);
      }
      CutInputGivesFirstRows(m, out.st, rest, StepOn(m, st, t).rest);
    }
  }

  /** The number of elements a state has open: what the path of every reader is. */
  ghost predicate TracksDepth<S(!new), R>(m: Machine<S, R>, depth: S -> nat) {
    && (forall st, name, body | m.consumes(st, name) :: depth(m.consume(st, name, body).st) == depth(st))
    && (forall st, name, binds :: depth(m.enter(st, name, binds)) == depth(st) + 1)
    && (forall st, name, binds :: depth(m.empty(st, name, binds).st) == depth(st))
    && (forall st, text :: depth(m.text(st, text)) == depth(st))
    && (forall st, name | depth(st) > 0 :: depth(m.leave(st, name).st) == depth(st) - 1)
    && (forall st :: m.over(st) == CutShort <==> depth(st) > 0)
  }

  lemma {:induction false} WalkKeepsDepth<S(!new), R>(m: Machine<S, R>, depth: S -> nat, st: S, f: Forest)
    requires TracksDepth(m, depth)
    ensures depth(Walk(m, st, f).st) == depth(st)
    decreases f, 1
  {
    if !f.Nil? {
      WalkNodeKeepsDepth(m, depth, st, f);
      WalkKeepsDepth(m, depth, WalkNode(m, st, f).st, f.next);
    }
  }

  lemma {:induction false} WalkNodeKeepsDepth<S(!new), R>(m: Machine<S, R>, depth: S -> nat, st: S, f: Forest)
    requires TracksDepth(m, depth) && !f.Nil?
    ensures depth(WalkNode(m, st, f).st) == depth(st)
    decreases f, 0
  {
    if f.Elem? && !m.consumes(st, f.name) {
      WalkKeepsDepth(m, depth, m.enter(st, f.name, f.binds), f.kids);
    }
  }

  /** A cut that falls after the last event of `f` reads all of `f` first. */
  lemma {:induction false} CutAfter(f: Forest, rest: Stream, s: Stream) returns (s': Stream)
    requires Prefix(s, Onto(f, rest)) && Length(s) >= Length(Onto(f, Eof))
    ensures s == Onto(f, s') && Prefix(s', rest)
    decreases f
  {
    match f
    case Nil => s' := s;
    case Elem(name, binds, kids, next) =>
      OntoLength(kids, More(End(name), Onto(next, Eof)));
      var afterKids := CutAfter(kids, More(End(name), Onto(next, rest)), s.tail);
      OntoLength(kids, afterKids);
      s' := CutAfter(next, rest, afterKids.tail);
    case _ => s' := CutAfter(f.next, rest, s.tail);
  }

  lemma {:induction false} OntoLength(f: Forest, rest: Stream)
    ensures Length(Onto(f, rest)) == Length(Onto(f, Eof)) + Length(rest)
    decreases f
  {
    if !f.Nil? {
      OntoLength(f.next, rest);
      if f.Elem? {
        OntoLength(f.kids, More(End(f.name), Onto(f.next, rest)));
        OntoLength(f.kids, More(End(f.name), Onto(f.next, Eof)));
      }
    }
  }

  /** Input that stops no later than the end of `f`, inside an open element, is cut short. */
  lemma {:induction false} CutInside<S(!new), R>(
      m: Machine<S, R>, depth: S -> nat, st: S, f: Forest, rest: Stream, s: Stream)
    requires TracksDepth(m, depth) && depth(st) > 0
    requires Prefix(s, Onto(f, rest)) && Length(s) <= Length(Onto(f, Eof))
    ensures Drain(m, st, s).ending == CutShort
    decreases f
  {
    if s.More? {
      var tail := Onto(f.next, rest);
      OntoLength(f.next, Eof);
      if !f.Elem? {
        CutInside(m, depth, WalkNode(m, st, f).st, f.next, rest, s.tail);
      } else if m.consumes(st, f.name) {
        CutInConsumed(m, st, f, rest, s);
        if Subtree(f.name, 1, s.tail).Some? {
          CutInside(m, depth, m.consume(st, f.name, Body(f.name, f.kids)).st, f.next, rest,
              Subtree(f.name, 1, s.tail).value.rest);
        }
      } else {
        var inner := m.enter(st, f.name, f.binds);
        OntoLength(f.kids, More(End(f.name), Onto(f.next, Eof)));
        if Length(s.tail) <= Length(Onto(f.kids, Eof)) {
          CutInside(m, depth, inner, f.kids, More(End(f.name), tail), s.tail);
        } else {
          var afterKids := CutAfter(f.kids, More(End(f.name), tail), s.tail);
          OntoLength(f.kids, afterKids);
          DrainIsWalk(m, inner, f.kids, afterKids);
          WalkKeepsDepth(m, depth, inner, f.kids);
          CutInside(m, depth, m.leave(Walk(m, inner, f.kids).st, f.name).st, f.next, rest, afterKids.tail);
        }
      }
    }
  }

  /** A cut inside a consumed subtree finds no End for it; a cut after it finds the End the whole input has. */
  lemma CutInConsumed<S, R>(m: Machine<S, R>, st: S, f: Forest, rest: Stream, s: Stream)
    requires f.Elem? && s.More? && Prefix(s, Onto(f, rest)) && Length(s) <= Length(Onto(f, Eof))
    ensures var cut := Subtree(f.name, 1, s.tail);
            cut.Some? ==>
              && cut.value.body == Body(f.name, f.kids)
              && Prefix(cut.value.rest, Onto(f.next, rest))
              && Length(cut.value.rest) <= Length(Onto(f.next, Eof))
  {
    var tail := Onto(f.next, rest);
    SubtreeOfElement(f.name, f.kids, tail);
    if Subtree(f.name, 1, s.tail).Some? {
      SubtreeExtends(f.name, 1, s.tail, Onto(f.kids, More(End(f.name), tail)));
      SubtreeLength(f.name, 1, s.tail);
      OntoLength(f.kids, More(End(f.name), Eof));
      OntoLength(f.kids, More(End(f.name), Onto(f.next, Eof)));
    }
  }

  /** Nothing but what is neither an element nor text. */
  predicate OnlyNoise(f: Forest) { f.Nil? || (f.Noise? && OnlyNoise(f.next)) }

  /** One root element, with declarations, comments and white space around it. */
  predicate Rooted(f: Forest)
    decreases f
  {
    if f.Noise? then Rooted(f.next) else f.Elem? && OnlyNoise(f.next)
  }

  function Root(f: Forest): (r: Forest)
    requires Rooted(f)
    ensures r.Elem? && OnlyNoise(r.next)
    decreases f
  {
    if f.Noise? then Root(f.next) else f
  }

  /** The events ahead of the root. */
  function Prolog(f: Forest): nat
    requires Rooted(f)
    decreases f
  {
    if f.Noise? then 1 + Prolog(f.next) else 0
  }

  /** The events of the root itself, its own End included. */
  function RootLength(f: Forest): nat
    requires Rooted(f)
  {
    var root := Root(f);
    2 + Length(Onto(root.kids, Eof))
  }

  /** A document cut anywhere after its root opened and before it closed is refused, never
      reported as a scan that finished. */
  lemma {:induction false} CutDocumentIsRefused<S(!new), R>(
      m: Machine<S, R>, depth: S -> nat, st: S, f: Forest, s: Stream)
    requires TracksDepth(m, depth) && depth(st) == 0 && Rooted(f)
    requires Prefix(s, Onto(f, Eof)) && Prolog(f) < Length(s) < Prolog(f) + RootLength(f)
    ensures Drain(m, st, s).ending == CutShort
    decreases f
  {
    if f.Noise? {
      CutDocumentIsRefused(m, depth, st, f.next, s.tail);
    } else {
      OntoLength(f.kids, More(End(f.name), Onto(f.next, Eof)));
      OntoLength(f.kids, More(End(f.name), Eof));
      if m.consumes(st, f.name) {
        CutRootConsumed(m, st, f, s);
      } else {
        CutInside(m, depth, m.enter(st, f.name, f.binds), f.kids, More(End(f.name), Onto(f.next, Eof)), s.tail);
      }
    }
  }

  /** A root taken whole shows no End before its last event. */
  lemma CutRootConsumed<S, R>(m: Machine<S, R>, st: S, f: Forest, s: Stream)
    requires f.Elem? && s.More? && m.consumes(st, f.name)
    requires Prefix(s, Onto(f, Eof)) && Length(s) < 2 + Length(Onto(f.kids, Eof))
    ensures Drain(m, st, s).ending == CutShort
  {
    OntoLength(f.kids, More(End(f.name), Eof));
    OntoLength(f.kids, More(End(f.name), Onto(f.next, Eof)));
    OntoLength(f.next, Eof);
    CutInConsumed(m, st, f, Eof, s);
    if Subtree(f.name, 1, s.tail).Some? {
      SubtreeLength(f.name, 1, s.tail);
    }
  }

  // ── reachable states ──

  /** The state some steps into a run; a run that has ended stays where it is. */
  function StateAfter<S, R>(m: Machine<S, R>, st: S, s: Stream, steps: nat): S
    decreases steps
  {
    if steps == 0 then st
    else
      match StepOn(m, st, s)
      case Halt(_) => st
      case Go(out, rest) => StateAfter(m, out.st, rest, steps - 1)
  }
}
