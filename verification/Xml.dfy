/**
  XML as the readers see it: the events of the pull parser, the document they
  linearise, and the depth-counting scan that consumes one subtree.

  Names are local names. `binds` is the message family that the namespace
  declarations of the element name, if they name one. Text is trimmed and
  never empty; what is neither an element nor text is `Misc`.
*/
module Xml {
  import opened Options

  datatype Event =
    | Start(name: string, binds: Option<string>)
    | Empty(name: string, binds: Option<string>)
    | End(name: string)
    | Text(text: string)
    | Misc

  /** What the parser has still to produce. */
  datatype Stream = Eof | More(head: Event, tail: Stream)

  function Length(s: Stream): nat {
    if s.Eof? then 0 else 1 + Length(s.tail)
  }

  /** A sequence of sibling nodes: the first one, its children, and its later siblings. */
  datatype Forest =
    | Nil
    | Elem(name: string, binds: Option<string>, kids: Forest, next: Forest)
    | Closed(name: string, binds: Option<string>, next: Forest)
    | Chars(text: string, next: Forest)
    | Noise(next: Forest)

  /** The events of a well-nested document, followed by `rest`. */
  function Onto(f: Forest, rest: Stream): Stream
    decreases f
  {
    match f
    case Nil => rest
    case Elem(name, binds, kids, next) => More(Start(name, binds), Onto(kids, More(End(name), Onto(next, rest))))
    case Closed(name, binds, next) => More(Empty(name, binds), Onto(next, rest))
    case Chars(text, next) => More(Text(text), Onto(next, rest))
    case Noise(next) => More(Misc, Onto(next, rest))
  }

  predicate EndsWith(path: seq<string>, suffix: seq<string>) {
    |path| >= |suffix| && path[|path| - |suffix|..] == suffix
  }

  /** A subtree cut out of a stream: its events up to its own End, and what follows. */
  datatype Cut = Cut(body: Stream, rest: Stream)

  /** The number of open elements called `tag` after one more event. */
  function DepthAfter(tag: string, depth: nat, e: Event): int {
    if e.Start? && e.name == tag then depth + 1
    else if e.End? && e.name == tag then depth - 1
    else depth
  }

  /** The cut that leaves `depth` open elements called `tag`, counting nothing but that
      name; None when the events run out first. */
  function Subtree(tag: string, depth: nat, s: Stream): (c: Option<Cut>)
    requires depth > 0
    ensures c.Some? ==> Length(c.value.rest) < Length(s)
    decreases s
  {
    if s.Eof? then None
    else if DepthAfter(tag, depth, s.head) == 0 then Some(Cut(More(s.head, Eof), s.tail))
    else match Subtree(tag, DepthAfter(tag, depth, s.head), s.tail)
      case None => None
      case Some(c) => Some(Cut(More(s.head, c.body), c.rest))
  }

  /** Whole nodes leave the count where it was, whatever they nest. */
  lemma {:induction false} SubtreeOverForest(tag: string, depth: nat, f: Forest, rest: Stream)
    requires depth > 0
    ensures Subtree(tag, depth, Onto(f, rest))
         == match Subtree(tag, depth, rest)
            case None => None
            case Some(c) => Some(Cut(Onto(f, c.body), c.rest))
    decreases f
  {
    if !f.Nil? {
      SubtreeOverForest(tag, depth, f.next, rest);
      if f.Elem? {
        var inner := DepthAfter(tag, depth, Start(f.name, f.binds));
        SubtreeOverForest(tag, inner, f.kids, More(End(f.name), Onto(f.next, rest)));
      }
    }
  }

  /** Counting one name only still cuts exactly the element's own content. */
  lemma SubtreeOfElement(tag: string, kids: Forest, rest: Stream)
    ensures Subtree(tag, 1, Onto(kids, More(End(tag), rest))) == Some(Cut(Onto(kids, More(End(tag), Eof)), rest))
  {
    SubtreeOverForest(tag, 1, kids, More(End(tag), rest));
  }

  /** `s` is the beginning of `t`, cut at some event. */
  predicate Prefix(s: Stream, t: Stream) {
    s.Eof? || (t.More? && s.head == t.head && Prefix(s.tail, t.tail))
  }

  /** More events never move the End that a shorter input already showed. */
  lemma {:induction false} SubtreeExtends(tag: string, depth: nat, s: Stream, t: Stream)
    requires depth > 0 && Prefix(s, t)
    requires Subtree(tag, depth, s).Some?
    ensures Subtree(tag, depth, t).Some?
    ensures Subtree(tag, depth, t).value.body == Subtree(tag, depth, s).value.body
    ensures Prefix(Subtree(tag, depth, s).value.rest, Subtree(tag, depth, t).value.rest)
    decreases s
  {
    if DepthAfter(tag, depth, s.head) != 0 {
      SubtreeExtends(tag, DepthAfter(tag, depth, s.head), s.tail, t.tail);
    }
  }

  /** A cut loses no event: its body and what follows are as long as the stream was. */
  lemma {:induction false} SubtreeLength(tag: string, depth: nat, s: Stream)
    requires depth > 0 && Subtree(tag, depth, s).Some?
    ensures var c := Subtree(tag, depth, s).value; Length(c.body) + Length(c.rest) == Length(s)
    decreases s
  {
    if DepthAfter(tag, depth, s.head) != 0 {
      SubtreeLength(tag, DepthAfter(tag, depth, s.head), s.tail);
    }
  }
}
