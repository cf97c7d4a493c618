/**
  The three grains of the statement walk over one document: they number the
  same containers the same way, and the close row counts what the other two
  number.
*/
module StatementGrains {
  import opened Options
  import opened Xml
  import opened TreeMachine
  import opened StatementWalk
  import opened StatementTree

  /** No container anywhere in the forest. */
  predicate NoContainer(f: Forest)
    decreases f
  {
    match f
    case Nil => true
    case Elem(name, _, kids, next) => !IsStatement(name) && NoContainer(kids) && NoContainer(next)
    case _ => NoContainer(f.next)
  }

  /** Elements have names, and no container hides inside an entry or a balance. */
  predicate Separable(f: Forest)
    decreases f
  {
    match f
    case Nil => true
    case Elem(name, _, kids, next) =>
      && name != ""
      && (name == "Ntry" || name == "Bal" ==> NoContainer(kids))
      && Separable(kids) && Separable(next)
    case _ => Separable(f.next)
  }

  lemma {:induction false} NoContainers(g: Grain, f: Forest)
    requires NoContainer(f)
    ensures Containers(g, f) == []
    decreases f
  {
    if !f.Nil? {
      NoContainers(g, f.next);
      if f.Elem? {
        NoContainers(g, f.kids);
      }
    }
  }

  /** Every grain sees the containers the statement grain sees, in the same places. */
  lemma {:induction false} SameContainers(g: Grain, f: Forest)
    requires Separable(f)
    ensures Containers(g, f) == Containers(Statements, f)
    decreases f
  {
    if !f.Nil? {
      SameContainers(g, f.next);
      if f.Elem? {
        SameContainers(g, f.kids);
        if f.name == Skipped(g) {
          NoContainers(Statements, f.kids);
        }
      }
    }
  }

  // ── inside one container ──

  /** Records are numbered on from the tally, one by one, and belong to their container. */
  lemma {:induction false} ContentIsNumbered(g: Grain, n: Names, kind: string, index: nat, f: Forest, t: Tally)
    ensures var c := ContentOf(g, n, kind, index, f, t);
            && c.tally.records == t.records + |c.rows|
            && forall j | 0 <= j < |c.rows| :: c.rows[j].index == t.records + 1 + j && c.rows[j].ctx.index == index
    decreases f
  {
    if !f.Nil? {
      ContentIsNumbered(g, n, kind, index, f.next, ChildOf(g, n, kind, index, f, t).tally);
    }
  }

  /** The statement grain counts an entry exactly where the entry grain hands one out, and a
      balance exactly where the balance grain does. */
  lemma {:induction false} ContentIsCounted(n: Names, kind: string, index: nat, f: Forest, t: Tally, u: Tally, v: Tally)
    ensures var c := ContentOf(Statements, n, kind, index, f, t).tally;
            && c.entries == t.entries + |ContentOf(Entries, n, kind, index, f, u).rows|
            && c.balances == t.balances + |ContentOf(Balances, n, kind, index, f, v).rows|
    decreases f
  {
    if !f.Nil? {
      var t' := ChildOf(Statements, n, kind, index, f, t);
      var u' := ChildOf(Entries, n, kind, index, f, u);
      var v' := ChildOf(Balances, n, kind, index, f, v);
      ContentIsCounted(n, kind, index, f.next, t'.tally, u'.tally, v'.tally);
    }
  }

  lemma {:induction false} StatementsHaveNoRecords(n: Names, kind: string, index: nat, f: Forest, t: Tally)
    requires Separable(f)
    ensures ContentOf(Statements, n, kind, index, f, t).rows == []
    decreases f
  {
    if !f.Nil? {
      StatementsHaveNoRecords(n, kind, index, f.next, ChildOf(Statements, n, kind, index, f, t).tally);
    }
  }

  // ── over a document ──

  /** Rows that are the records 1, 2, 3, … of statement `index`, all `count` of them. */
  predicate RecordsOf(rows: seq<Row>, index: nat, count: nat) {
    |rows| == count && forall j | 0 <= j < count :: rows[j].index == j + 1 && rows[j].ctx.index == index
  }

  /** One container at the three grains. */
  lemma OneContainerAgrees(n: Names, c: Container, index: nat)
    requires Separable(c.kids)
    ensures var close := ContainerRows(Statements, n, c, index);
            && |close| == 1 && close[0].ctx.index == index && close[0].ctx.kind == Some(c.kind)
            && RecordsOf(ContainerRows(Entries, n, c, index), index, close[0].ctx.entries)
            && RecordsOf(ContainerRows(Balances, n, c, index), index, close[0].ctx.balances)
  {
    StatementsHaveNoRecords(n, c.kind, index, c.kids, NOTHING_READ);
    ContentIsCounted(n, c.kind, index, c.kids, NOTHING_READ, NOTHING_READ, NOTHING_READ);
    ContentIsNumbered(Entries, n, c.kind, index, c.kids, NOTHING_READ);
    ContentIsNumbered(Balances, n, c.kind, index, c.kids, NOTHING_READ);
  }

  type RowsOf = (Container, nat) -> seq<Row>
  type CountIn = Row -> nat

  /** Rows that fall into one block per close row, in order: block number k is the records
      1, 2, 3, … of statement k, as many as its close row counts. */
  predicate InBlocks(rows: seq<Row>, closes: seq<Row>, count: CountIn, first: nat)
    decreases |closes|
  {
    if closes == [] then rows == []
    else
      var k := count(closes[0]);
      && closes[0].ctx.index == first
      && k <= |rows|
      && RecordsOf(rows[..k], first, k)
      && InBlocks(rows[k..], closes[1..], count, first + 1)
  }

  lemma {:induction false} BlocksConcat(
      a: seq<Row>, ca: seq<Row>, b: seq<Row>, cb: seq<Row>, count: CountIn, first: nat)
    requires InBlocks(a, ca, count, first) && InBlocks(b, cb, count, first + |ca|)
    ensures InBlocks(a + b, ca + cb, count, first)
    decreases |ca|
  {
    if ca == [] {
      assert a + b == b && ca + cb == cb;
    } else {
      var k := count(ca[0]);
      assert (a + b)[..k] == a[..k] && (a + b)[k..] == a[k..] + b;
      assert (ca + cb)[1..] == ca[1..] + cb;
      BlocksConcat(a[k..], ca[1..], b, cb, count, first + 1);
    }
  }

  lemma TwoParts(
      a: seq<Row>, ca: seq<Row>, b: seq<Row>, cb: seq<Row>, rows: seq<Row>, closes: seq<Row>, count: CountIn,
      first: nat)
    requires InBlocks(a, ca, count, first) && InBlocks(b, cb, count, first + |ca|)
    requires rows == a + b && closes == ca + cb
    ensures InBlocks(rows, closes, count, first) && |closes| == |ca| + |cb|
  {
    BlocksConcat(a, ca, b, cb, count, first);
  }

  /** One close row per container, and the records it counts. */
  ghost predicate ContainersAgree(rowsOf: RowsOf, closesOf: RowsOf, count: CountIn) {
    forall c: Container, index: nat | Separable(c.kids) ::
      |closesOf(c, index)| == 1 && InBlocks(rowsOf(c, index), closesOf(c, index), count, index)
  }

  lemma {:induction false} NoContainerNoRows(g: Grain, rowsOf: RowsOf, f: Forest, index: nat)
    requires NoContainer(f)
    ensures RowsFrom(g, rowsOf, f, index) == [] && Containers(g, f) == []
    decreases f
  {
    if !f.Nil? {
      NoContainerNoRows(g, rowsOf, f.next, index);
      if f.Elem? {
        NoContainerNoRows(g, rowsOf, f.kids, index);
      }
    }
  }

  /** What agrees inside every container agrees over the document. */
  lemma {:induction false} DocumentInBlocks(
      g: Grain, rowsOf: RowsOf, closesOf: RowsOf, count: CountIn, f: Forest, index: nat)
    requires Separable(f) && ContainersAgree(rowsOf, closesOf, count)
    ensures var closes := RowsFrom(Statements, closesOf, f, index);
            && |closes| == |Containers(Statements, f)|
            && InBlocks(RowsFrom(g, rowsOf, f, index), closes, count, index)
    decreases f, 1
  {
    if !f.Nil? {
      var next := index + |ContainersOf(Statements, f)|;
      NodeInBlocks(g, rowsOf, closesOf, count, f, index);
      DocumentInBlocks(g, rowsOf, closesOf, count, f.next, next);
      NodeFirst(g, rowsOf, f, index);
      NodeFirst(Statements, closesOf, f, index);
      TwoParts(
        RowsOfNode(g, rowsOf, f, index), RowsOfNode(Statements, closesOf, f, index),
        RowsFrom(g, rowsOf, f.next, next), RowsFrom(Statements, closesOf, f.next, next),
        RowsFrom(g, rowsOf, f, index), RowsFrom(Statements, closesOf, f, index), count, index);
    }
  }

  lemma NodeFirst(g: Grain, rowsOf: RowsOf, f: Forest, index: nat)
    requires !f.Nil?
    ensures RowsFrom(g, rowsOf, f, index)
      == RowsOfNode(g, rowsOf, f, index) + RowsFrom(g, rowsOf, f.next, index + |ContainersOf(g, f)|)
  {
  }

  lemma {:induction false} NodeInBlocks(
      g: Grain, rowsOf: RowsOf, closesOf: RowsOf, count: CountIn, f: Forest, index: nat)
    requires Separable(f) && ContainersAgree(rowsOf, closesOf, count) && !f.Nil?
    ensures var closes := RowsOfNode(Statements, closesOf, f, index);
            && |closes| == |ContainersOf(Statements, f)|
            && ContainersOf(g, f) == ContainersOf(Statements, f)
            && InBlocks(RowsOfNode(g, rowsOf, f, index), closes, count, index)
    decreases f, 0
  {
    if f.Elem? {
      SameContainers(g, f.kids);
      if f.name == Skipped(g) {
        NoContainerNoRows(Statements, closesOf, f.kids, index);
      } else if !IsStatement(f.name) {
        DocumentInBlocks(g, rowsOf, closesOf, count, f.kids, index);
      }
    }
  }

  const ENTRY_COUNT: CountIn := (close: Row) => close.ctx.entries
  const BALANCE_COUNT: CountIn := (close: Row) => close.ctx.balances

  lemma CamtContainersAgree(n: Names)
    ensures var closesOf := ContainersRows(Statements, n);
            && ContainersAgree(ContainersRows(Entries, n), closesOf, ENTRY_COUNT)
            && ContainersAgree(ContainersRows(Balances, n), closesOf, BALANCE_COUNT)
  {
    forall c: Container, index: nat | Separable(c.kids)
      ensures var closes := ContainerRows(Statements, n, c, index);
              && |closes| == 1
              && InBlocks(ContainerRows(Entries, n, c, index), closes, ENTRY_COUNT, index)
              && InBlocks(ContainerRows(Balances, n, c, index), closes, BALANCE_COUNT, index)
    {
      OneContainerAgrees(n, c, index);
      OneBlock(ContainerRows(Entries, n, c, index), ContainerRows(Statements, n, c, index), ENTRY_COUNT, index);
      OneBlock(ContainerRows(Balances, n, c, index), ContainerRows(Statements, n, c, index), BALANCE_COUNT, index);
    }
  }

  lemma OneBlock(rows: seq<Row>, closes: seq<Row>, count: CountIn, index: nat)
    requires |closes| == 1 && closes[0].ctx.index == index && RecordsOf(rows, index, count(closes[0]))
    ensures InBlocks(rows, closes, count, index)
  {
    assert rows[..|rows|] == rows;
  }

  /** The message columns have no say in the blocks. */
  lemma {:induction false} ScopedBlocks(rows: seq<Row>, closes: seq<Row>, count: CountIn, first: nat)
    requires InBlocks(ScopedRows(rows), ScopedRows(closes), count, first)
    requires forall close: Row :: count(Scoped(close)) == count(close)
    ensures InBlocks(rows, closes, count, first)
    decreases |closes|
  {
    if closes != [] {
      var k := count(closes[0]);
      assert ScopedRows(closes)[0] == Scoped(closes[0]) && count(ScopedRows(closes)[0]) == k;
      assert ScopedRows(rows)[..k] == ScopedRows(rows[..k]) && ScopedRows(rows)[k..] == ScopedRows(rows[k..]);
      assert ScopedRows(closes)[1..] == ScopedRows(closes[1..]);
      ScopedRecords(rows[..k], first, k);
      ScopedBlocks(rows[k..], closes[1..], count, first + 1);
    }
  }

  lemma ScopedRecords(rows: seq<Row>, index: nat, count: nat)
    requires RecordsOf(ScopedRows(rows), index, count)
    ensures RecordsOf(rows, index, count)
  {
    forall j | 0 <= j < count ensures rows[j].index == j + 1 && rows[j].ctx.index == index {
      assert ScopedRows(rows)[j] == Scoped(rows[j]);
    }
  }

  /** The join keys of the three grains agree on every document with no container inside an entry or
      a balance: close row k is statement k, and the entry grain and the balance grain hand out for
      statement k exactly the records 1, 2, 3, … up to the counts on that row. */
  lemma GrainsAgree(n: Names, f: Forest)
    requires Separable(f)
    ensures var closes := Drain(Camt(Statements, n), INITIAL, Onto(f, Eof)).rows;
            && |closes| == |Containers(Statements, f)|
            && InBlocks(Drain(Camt(Entries, n), INITIAL, Onto(f, Eof)).rows, closes, ENTRY_COUNT, 1)
            && InBlocks(Drain(Camt(Balances, n), INITIAL, Onto(f, Eof)).rows, closes, BALANCE_COUNT, 1)
  {
    ScopedGrainsAgree(n, f);
    var closes := Drain(Camt(Statements, n), INITIAL, Onto(f, Eof)).rows;
    ScopedBlocks(Drain(Camt(Entries, n), INITIAL, Onto(f, Eof)).rows, closes, ENTRY_COUNT, 1);
    ScopedBlocks(Drain(Camt(Balances, n), INITIAL, Onto(f, Eof)).rows, closes, BALANCE_COUNT, 1);
  }

  lemma ScopedGrainsAgree(n: Names, f: Forest)
    requires Separable(f)
    ensures var closes := ScopedRows(Drain(Camt(Statements, n), INITIAL, Onto(f, Eof)).rows);
            && |closes| == |Containers(Statements, f)|
            && InBlocks(ScopedRows(Drain(Camt(Entries, n), INITIAL, Onto(f, Eof)).rows), closes, ENTRY_COUNT, 1)
            && InBlocks(ScopedRows(Drain(Camt(Balances, n), INITIAL, Onto(f, Eof)).rows), closes, BALANCE_COUNT, 1)
  {
    var closesOf := ContainersRows(Statements, n);
    CamtContainersAgree(n);
    DrainIsDocument(Statements, n, f);
    DrainIsDocument(Entries, n, f);
    DrainIsDocument(Balances, n, f);
    DocumentInBlocks(Entries, ContainersRows(Entries, n), closesOf, ENTRY_COUNT, f, 1);
    DocumentInBlocks(Balances, ContainersRows(Balances, n), closesOf, BALANCE_COUNT, f, 1);
  }
}
