/** The readers that compose the statement walk with a cursor (src/camt_amount_details.rs, src/camt_remittance.rs). */
module EntryStreams {
  import opened Options
  import opened Xml
  import opened TreeMachine
  import opened StatementWalk
  import opened StatementReader
  import opened Entries
  import opened EntryCursors

  /** An entry the walk has handed out, with its index in its statement and the context around it. */
  datatype OpenEntry = OpenEntry(entry: Entry, index: nat, ctx: Context)

  /** One row: an item of an entry with the entry's index and context. */
  datatype ItemRow<T> = ItemRow(index: nat, ctx: Context, item: T)

  /** The rows end with the walk, or at an entry that does not deserialize. */
  datatype Closing = WalkOver(ending: Ending) | BadEntry

  datatype Listing<T> = Listing(rows: seq<ItemRow<T>>, closing: Closing) {
    function After(earlier: seq<ItemRow<T>>): Listing<T> { Listing(earlier + rows, closing) }
  }

  datatype Outcome<T> = Got(row: ItemRow<T>) | Stopped(closing: Closing)

  function Tagged<T>(open: OpenEntry, items: seq<T>): seq<ItemRow<T>> {
    seq(|items|, i requires 0 <= i < |items| => ItemRow(open.index, open.ctx, items[i]))
  }

  /** The rows of a walk: each entry's items in order, one entry after the other, up to one that does not
      deserialize. */
  function Listed<T>(walk: Drained<StatementWalk.Row>, parse: Stream -> Option<Entry>,
      items: Entry -> seq<T>): Listing<T>
    decreases |walk.rows|
  {
    if walk.rows == [] then Listing([], WalkOver(walk.ending))
    else
      var row := walk.rows[0];
      match parse(row.body)
      case None => Listing([], BadEntry)
      case Some(entry) =>
        var rest := Drained(walk.rows[1..], walk.ending);
        Listed(rest, parse, items).After(Tagged(OpenEntry(entry, row.index, row.ctx), items(entry)))
  }

  /** The items of some entries, one entry after the other. */
  function ItemsOf<T>(rows: seq<StatementWalk.Row>, parse: Stream -> Option<Entry>,
      items: Entry -> seq<T>): seq<ItemRow<T>>
    requires forall i | 0 <= i < |rows| :: parse(rows[i].body).Some?
  {
    if rows == [] then []
    else
      var entry := parse(rows[0].body).value;
      Tagged(OpenEntry(entry, rows[0].index, rows[0].ctx), items(entry)) + ItemsOf(rows[1..], parse, items)
  }

  /** How many entries deserialize before the first that does not. */
  function Readable(rows: seq<StatementWalk.Row>, parse: Stream -> Option<Entry>): (k: nat)
    ensures k <= |rows| && (k < |rows| ==> parse(rows[k].body).None?)
    ensures forall i | 0 <= i < k :: parse(rows[i].body).Some?
  {
    if rows == [] || parse(rows[0].body).None? then 0 else 1 + Readable(rows[1..], parse)
  }

  /** The items of all entries before one that does not deserialize, and the walk's ending exactly where
      there is no such entry. */
  lemma {:induction false} ListedIsItems<T>(
      walk: Drained<StatementWalk.Row>, parse: Stream -> Option<Entry>, items: Entry -> seq<T>)
    ensures var k := Readable(walk.rows, parse);
      && Listed(walk, parse, items).rows == ItemsOf(walk.rows[..k], parse, items)
      && Listed(walk, parse, items).closing == if k == |walk.rows| then WalkOver(walk.ending) else BadEntry
    decreases |walk.rows|
  {
    if walk.rows != [] && parse(walk.rows[0].body).Some? {
      var rest := Drained(walk.rows[1..], walk.ending);
      ListedIsItems(rest, parse, items);
      var k := Readable(walk.rows, parse);
      assert walk.rows[..k][0] == walk.rows[0] && walk.rows[..k][1..] == rest.rows[..k - 1];
    }
  }

  lemma ListedOne<T>(
      row: StatementWalk.Row, rest: Drained<StatementWalk.Row>, parse: Stream -> Option<Entry>, items: Entry -> seq<T>)
    ensures Listed(rest.After([row]), parse, items)
      == match parse(row.body)
         case None => Listing([], BadEntry)
         case Some(entry) =>
           Listed(rest, parse, items).After(Tagged(OpenEntry(entry, row.index, row.ctx), items(entry)))
  {
    assert ([row] + rest.rows)[1..] == rest.rows;
    assert Drained(rest.rows, rest.ending) == rest;
  }

  lemma TagHandsOut<T>(open: OpenEntry, before: seq<T>, item: T, after: seq<T>, more: Listing<T>)
    requires before == [item] + after
    ensures more.After(Tagged(open, before))
      == more.After(Tagged(open, after)).After([ItemRow(open.index, open.ctx, item)])
  {
    assert Tagged(open, before) == [ItemRow(open.index, open.ctx, item)] + Tagged(open, after);
  }

  lemma NothingTagged<T>(open: OpenEntry, items: seq<T>, more: Listing<T>)
    requires items == []
    ensures more.After(Tagged(open, items)) == more
  {
    assert [] + more.rows == more.rows;
  }

  class AmountDetailStream {
    const parse: Stream -> Option<Entry>
    const records: StatementRecordStream
    var current: Option<OpenEntry>
    var cursor: AmountCursor

    constructor (input: Stream, names: Names, parse: Stream -> Option<Entry>)
      ensures Valid() && fresh(records) && fresh(cursor) && fresh(cursor.tx)
      ensures Rest() == Listed(Drain(Camt(Entries, names), INITIAL, input), parse, Amounts)
    {
      this.parse, current := parse, None;
      records := new StatementRecordStream(input, Entries, names);
      cursor := new AmountCursor();
    }

    ghost predicate Valid()
      reads this, records, cursor, cursor.tx
    {
      records.grain == Entries && (current.Some? ==> cursor.Valid(current.value.entry))
    }

    /** What the walk has still to hand out. */
    ghost function Ahead(): Listing<AmountSite>
      reads this, records
    {
      Listed(Drain(Camt(Entries, records.names), records.Snapshot(), records.input), parse, Amounts)
    }

    ghost function Rest(): Listing<AmountSite>
      reads this, records, cursor, cursor.tx
      requires Valid()
    {
      if current.None? then Ahead() else Ahead().After(Tagged(current.value, cursor.Rest(current.value.entry)))
    }

    /** The next row of the entry at hand. */
    method NextOfEntry() returns (r: Option<ItemRow<AmountSite>>)
      requires Valid()
      modifies this`current, cursor, cursor.tx
      ensures Valid() && cursor == old(cursor)
      ensures match r
        case Some(row) => old(Rest()) == Rest().After([row])
        case None => current.None? && old(Rest()) == Rest()
    {
      if current.None? { return None; }
      var open := current.value;
      ghost var before, ahead := cursor.Rest(open.entry), Ahead();
      var site := cursor.Next(open.entry);
      if site.Some? {
        TagHandsOut(open, before, site.value, cursor.Rest(open.entry), ahead);
        return Some(ItemRow(open.index, open.ctx, site.value));
      }
      current := None;
      NothingTagged(open, before, ahead);
      return None;
    }

    /** Opens the next entry of the walk with a new cursor over it; None once it is open. */
    method OpenNext() returns (r: Option<Closing>)
      requires Valid() && current.None?
      modifies this, records
      ensures Valid() && (cursor == old(cursor) || (fresh(cursor) && fresh(cursor.tx)))
      ensures match r case Some(closing) => old(Rest()) == Listing([], closing) case None => old(Rest()) == Rest()
      ensures r.None? ==> Length(records.input) < old(Length(records.input))
    {
      ghost var m, st, s := Camt(Entries, records.names), records.Snapshot(), records.input;
      DrainIsRepeatedNext(m, st, s);
      var outcome := records.NextRecord();
      match outcome {
        case Ended(ending) =>
          return Some(WalkOver(ending));
        case Record(index, body) =>
          var entry := parse(body);
          ListedOne(Next(m, st, s).row, Drain(m, records.Snapshot(), records.input), parse, Amounts);
          if entry.None? { return Some(BadEntry); }
          current := Some(OpenEntry(entry.value, index, records.ctx));
          cursor := new AmountCursor();
          return None;
      }
    }

    /** The next row, or how the rows end. */
    method NextRow() returns (r: Outcome<AmountSite>)
      requires Valid()
      modifies this, records, cursor, cursor.tx
      ensures cursor == old(cursor) || (fresh(cursor) && fresh(cursor.tx))
      ensures match r
        case Got(row) => Valid() && old(Rest()) == Rest().After([row])
        case Stopped(closing) => old(Rest()) == Listing([], closing)
    {
      while true
        invariant Valid() && Rest() == old(Rest())
        invariant cursor == old(cursor) || (fresh(cursor) && fresh(cursor.tx))
        decreases Length(records.input)
      {
        var row := NextOfEntry();
        if row.Some? { return Got(row.value); }
        var closing := OpenNext();
        if closing.Some? { return Stopped(closing.value); }
      }
    }
  }

  class RemittanceStream {
    const parse: Stream -> Option<Entry>
    const records: StatementRecordStream
    var current: Option<OpenEntry>
    var cursor: RemittanceCursor

    constructor (input: Stream, names: Names, parse: Stream -> Option<Entry>)
      ensures Valid() && fresh(records) && fresh(cursor) && fresh(cursor.tx) && fresh(cursor.leaves)
      ensures Rest() == Listed(Drain(Camt(Entries, names), INITIAL, input), parse, Remittances)
    {
      this.parse, current := parse, None;
      records := new StatementRecordStream(input, Entries, names);
      cursor := new RemittanceCursor();
    }

    ghost predicate Valid()
      reads this, records, cursor, cursor.tx, cursor.leaves
    {
      records.grain == Entries && (current.Some? ==> cursor.Valid(current.value.entry))
    }

    /** What the walk has still to hand out. */
    ghost function Ahead(): Listing<RemittanceSite>
      reads this, records
    {
      Listed(Drain(Camt(Entries, records.names), records.Snapshot(), records.input), parse, Remittances)
    }

    ghost function Rest(): Listing<RemittanceSite>
      reads this, records, cursor, cursor.tx, cursor.leaves
      requires Valid()
    {
      if current.None? then Ahead() else Ahead().After(Tagged(current.value, cursor.Rest(current.value.entry)))
    }

    /** The next row of the entry at hand. */
    method NextOfEntry() returns (r: Option<ItemRow<RemittanceSite>>)
      requires Valid()
      modifies this`current, cursor, cursor.tx, cursor.leaves
      ensures Valid() && cursor == old(cursor)
      ensures match r
        case Some(row) => old(Rest()) == Rest().After([row])
        case None => current.None? && old(Rest()) == Rest()
    {
      if current.None? { return None; }
      var open := current.value;
      ghost var before, ahead := cursor.Rest(open.entry), Ahead();
      var site := cursor.Next(open.entry);
      if site.Some? {
        TagHandsOut(open, before, site.value, cursor.Rest(open.entry), ahead);
        return Some(ItemRow(open.index, open.ctx, site.value));
      }
      current := None;
      NothingTagged(open, before, ahead);
      return None;
    }

    /** Opens the next entry of the walk with a new cursor over it; None once it is open. */
    method OpenNext() returns (r: Option<Closing>)
      requires Valid() && current.None?
      modifies this, records
      ensures Valid() && (cursor == old(cursor) || (fresh(cursor) && fresh(cursor.tx) && fresh(cursor.leaves)))
      ensures match r case Some(closing) => old(Rest()) == Listing([], closing) case None => old(Rest()) == Rest()
      ensures r.None? ==> Length(records.input) < old(Length(records.input))
    {
      ghost var m, st, s := Camt(Entries, records.names), records.Snapshot(), records.input;
      DrainIsRepeatedNext(m, st, s);
      var outcome := records.NextRecord();
      match outcome {
        case Ended(ending) =>
          return Some(WalkOver(ending));
        case Record(index, body) =>
          var entry := parse(body);
          ListedOne(Next(m, st, s).row, Drain(m, records.Snapshot(), records.input), parse, Remittances);
          if entry.None? { return Some(BadEntry); }
          current := Some(OpenEntry(entry.value, index, records.ctx));
          cursor := new RemittanceCursor();
          return None;
      }
    }

    /** The next row, or how the rows end. */
    method NextRow() returns (r: Outcome<RemittanceSite>)
      requires Valid()
      modifies this, records, cursor, cursor.tx, cursor.leaves
      ensures cursor == old(cursor) || (fresh(cursor) && fresh(cursor.tx) && fresh(cursor.leaves))
      ensures match r
        case Got(row) => Valid() && old(Rest()) == Rest().After([row])
        case Stopped(closing) => old(Rest()) == Listing([], closing)
    {
      while true
        invariant Valid() && Rest() == old(Rest())
        invariant cursor == old(cursor) || (fresh(cursor) && fresh(cursor.tx) && fresh(cursor.leaves))
        decreases Length(records.input)
      {
        var row := NextOfEntry();
        if row.Some? { return Got(row.value); }
        var closing := OpenNext();
        if closing.Some? { return Stopped(closing.value); }
      }
    }
  }
}
