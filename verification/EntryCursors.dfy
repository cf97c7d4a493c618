/** The constant-space cursors of src/model.rs against the lists they never build. */
module EntryCursors {
  import opened Options
  import opened Entries

  /** What handing out one item does to the items still to come. */
  ghost predicate HandsOut<T>(before: seq<T>, r: Option<T>, after: seq<T>) {
    match r
    case None => before == [] && after == []
    case Some(item) => before == [item] + after
  }

  // ── transactions ──

  ghost function TxRest(entry: Entry, d: nat, t: nat): seq<TxSite>
    requires d < |entry.details| ==> t <= |entry.details[d].transactions|
  {
    if d < |entry.details| then TxsOf(entry, d, t) + TxsFrom(entry, d + 1) else []
  }

  /** Which details block, and which transaction inside it: two integers. */
  class TxCursor {
    var details: nat
    var tx: nat

    constructor ()
      ensures details == 0 && tx == 0
      ensures forall entry :: Valid(entry) && Rest(entry) == Transactions(entry)
    {
      details, tx := 0, 0;
    }

    ghost predicate Valid(entry: Entry)
      reads this
    {
      details < |entry.details| ==> tx <= |entry.details[details].transactions|
    }

    ghost function Rest(entry: Entry): seq<TxSite>
      reads this
      requires Valid(entry)
    {
      TxRest(entry, details, tx)
    }

    method Next(entry: Entry) returns (r: Option<TxSite>)
      requires Valid(entry)
      modifies this
      ensures Valid(entry) && HandsOut(old(Rest(entry)), r, Rest(entry))
      ensures r.Some? ==> IsTransaction(entry, r.value)
    {
      while details < |entry.details|
        invariant Valid(entry) && Rest(entry) == old(Rest(entry))
        decreases |entry.details| - details
      {
        r := Turn(entry);
        if r.Some? { return; }
      }
      return None;
    }

    /** The next transaction of the details block at hand, or on to the next block. */
    method Turn(entry: Entry) returns (r: Option<TxSite>)
      requires Valid(entry) && details < |entry.details|
      modifies this
      ensures Valid(entry)
      ensures r.Some? ==> HandsOut(old(Rest(entry)), r, Rest(entry)) && IsTransaction(entry, r.value)
      ensures r.None? ==> Rest(entry) == old(Rest(entry)) && details == old(details) + 1
    {
      if tx < |entry.details[details].transactions| {
        r := Some(TxSite(details + 1, tx + 1, entry.details[details].transactions[tx]));
        FirstTx(entry, details, tx, r.value);
        tx := tx + 1;
        return;
      }
      LastTx(entry, details);
      details := details + 1;
      tx := 0;
      return None;
    }
  }

  /** Past its last transaction a details block is the next one at its first. */
  lemma LastTx(entry: Entry, d: nat)
    requires d < |entry.details|
    ensures TxRest(entry, d, |entry.details[d].transactions|) == TxRest(entry, d + 1, 0)
  {
    assert TxsOf(entry, d, |entry.details[d].transactions|) == [];
    assert [] + TxsFrom(entry, d + 1) == TxsFrom(entry, d + 1);
  }

  lemma FirstTx(entry: Entry, d: nat, t: nat, site: TxSite)
    requires d < |entry.details| && t < |entry.details[d].transactions|
    requires site == TxSite(d + 1, t + 1, entry.details[d].transactions[t])
    ensures HandsOut(TxRest(entry, d, t), Some(site), TxRest(entry, d, t + 1)) && IsTransaction(entry, site)
  {
    assert TxsOf(entry, d, t) == [site] + TxsOf(entry, d, t + 1);
  }

  /** The transaction a site names is the one at its indexes. */
  predicate IsTransaction(entry: Entry, site: TxSite) {
    TransactionAt(entry, site.detailsIndex, site.index) == Some(site.tx)
  }

  function TransactionAt(entry: Entry, detailsIndex: nat, index: nat): Option<Transaction> {
    if 1 <= detailsIndex <= |entry.details| && 1 <= index <= |entry.details[detailsIndex - 1].transactions| then
      Some(entry.details[detailsIndex - 1].transactions[index - 1])
    else None
  }

  // ── amount blocks ──

  /** The sites still to come of the transaction a cursor stands at. */
  ghost function AmountsAt(entry: Entry, at: Option<(nat, nat)>, block: nat): seq<AmountSite> {
    match at
    case None => []
    case Some((d, t)) =>
      match TransactionAt(entry, d, t)
      case None => []
      case Some(tx) => SitesOf(TransactionScope(d, t), tx.amounts, block)
  }

  lemma HandsOutMore<T>(before: seq<T>, r: Option<T>, after: seq<T>, more: seq<T>)
    requires r.Some? && HandsOut(before, r, after)
    ensures HandsOut(before + more, r, after + more)
  {
  }

  /** The sites of the transactions to come start with those of the first one. */
  lemma FirstTxAmounts(entry: Entry, sites: seq<TxSite>, first: TxSite, rest: seq<TxSite>)
    requires sites == [first] + rest && IsTransaction(entry, first)
    ensures |rest| < |sites| && sites != []
    ensures TxAmounts(sites) == AmountsAt(entry, Some((first.detailsIndex, first.index)), 0) + TxAmounts(rest)
  {
    assert sites[1..] == rest;
  }

  function BlockAt(amounts: Option<AmountDetails>, at: nat): Option<(AmountKind, AmountDetail)> {
    match amounts case None => None case Some(a) => Block(a, at)
  }

  lemma FirstSite(scope: Scope, amounts: Option<AmountDetails>, at: nat)
    ensures SitesOf(scope, amounts, at) ==
      match BlockAt(amounts, at)
      case None => []
      case Some((kind, detail)) => [AmountSite(scope, kind, at + 1, detail)] + SitesOf(scope, amounts, at + 1)
  {
    if amounts.Some? { BlockIsIndexed(amounts.value, at); }
    FirstOfSites(scope, BlocksOf(amounts), at);
  }

  lemma FirstOfSites(scope: Scope, blocks: seq<(AmountKind, AmountDetail)>, at: nat)
    ensures at >= |blocks| ==> SitesFrom(scope, blocks, at) == []
    ensures at < |blocks| ==>
      SitesFrom(scope, blocks, at) == [AmountSite(scope, blocks[at].0, at + 1, blocks[at].1)]
        + SitesFrom(scope, blocks, at + 1)
  {
  }

  lemma FirstAmountAt(entry: Entry, d: nat, t: nat, tx: Transaction, block: nat)
    requires TransactionAt(entry, d, t) == Some(tx)
    ensures AmountsAt(entry, Some((d, t)), block) ==
      match BlockAt(tx.amounts, block)
      case None => []
      case Some((kind, detail)) =>
        [AmountSite(TransactionScope(d, t), kind, block + 1, detail)] + AmountsAt(entry, Some((d, t)), block + 1)
  {
    FirstSite(TransactionScope(d, t), tx.amounts, block);
  }

  class AmountCursor {
    /** Set once the entry's own blocks are done; the transactions are walked from then on. */
    var started: bool
    const tx: TxCursor
    var at: Option<(nat, nat)>
    var block: nat

    constructor ()
      ensures fresh(tx) && forall entry :: Valid(entry) && Rest(entry) == Amounts(entry)
    {
      started, at, block := false, None, 0;
      tx := new TxCursor();
    }

    ghost predicate Valid(entry: Entry)
      reads this, tx
    {
      tx.Valid(entry) && (!started ==> tx.Rest(entry) == Transactions(entry) && at == None)
    }

    ghost function Rest(entry: Entry): seq<AmountSite>
      reads this, tx
      requires Valid(entry)
    {
      (if started then AmountsAt(entry, at, block) else SitesOf(EntryScope, entry.amounts, block))
      + TxAmounts(tx.Rest(entry))
    }

    /** The next of the entry's own blocks. */
    method NextOfEntry(entry: Entry) returns (r: Option<AmountSite>)
      requires Valid(entry) && !started
      modifies this
      ensures Valid(entry) && (r.Some? <==> !started)
      ensures r.Some? ==> HandsOut(old(Rest(entry)), r, Rest(entry))
      ensures r.None? ==> Rest(entry) == old(Rest(entry))
    {
      FirstSite(EntryScope, entry.amounts, block);
      var found := BlockAt(entry.amounts, block);
      if found.None? {
        started, block := true, 0;
        return None;
      }
      ghost var sites, more := SitesOf(EntryScope, entry.amounts, block), TxAmounts(tx.Rest(entry));
      block := block + 1;
      r := Some(AmountSite(EntryScope, found.value.0, block, found.value.1));
      HandsOutMore(sites, r, SitesOf(EntryScope, entry.amounts, block), more);
    }

    /** The next block of the transaction the cursor stands at. */
    method NextOfTransaction(entry: Entry) returns (r: Option<AmountSite>)
      requires Valid(entry) && started
      modifies this`block
      ensures Valid(entry)
      ensures r.Some? ==> HandsOut(old(Rest(entry)), r, Rest(entry))
      ensures r.None? ==> AmountsAt(entry, at, block) == [] && block == old(block)
    {
      if at.None? { return None; }
      var (d, t) := at.value;
      var tx := TransactionAt(entry, d, t);
      if tx.None? { return None; }
      ghost var sites, more := AmountsAt(entry, at, block), TxAmounts(this.tx.Rest(entry));
      r := NextBlock(entry, d, t, tx.value);
      if r.Some? { HandsOutMore(sites, r, AmountsAt(entry, at, block), more); }
    }

    /** The next block of one transaction, as a site of it. */
    method NextBlock(entry: Entry, d: nat, t: nat, tx: Transaction) returns (r: Option<AmountSite>)
      requires TransactionAt(entry, d, t) == Some(tx)
      modifies this`block
      ensures r.None? ==> block == old(block) && AmountsAt(entry, Some((d, t)), block) == []
      ensures r.Some? ==>
        HandsOut(old(AmountsAt(entry, Some((d, t)), block)), r, AmountsAt(entry, Some((d, t)), block))
    {
      FirstAmountAt(entry, d, t, tx, block);
      var found := BlockAt(tx.amounts, block);
      if found.None? { return None; }
      block := block + 1;
      return Some(AmountSite(TransactionScope(d, t), found.value.0, block, found.value.1));
    }

    method Next(entry: Entry) returns (r: Option<AmountSite>)
      requires Valid(entry)
      modifies this, tx
      ensures Valid(entry) && HandsOut(old(Rest(entry)), r, Rest(entry))
    {
      if !started {
        r := NextOfEntry(entry);
        if r.Some? { return; }
      }
      while true
        invariant started && Valid(entry) && Rest(entry) == old(Rest(entry))
        decreases |tx.Rest(entry)|
      {
        r := NextOfTransaction(entry);
        if r.Some? { return; }
        var more := NextTransaction(entry);
        if !more { return; }
      }
    }

    /** Goes on to the next transaction, once the one at hand has no more blocks. */
    method NextTransaction(entry: Entry) returns (more: bool)
      requires Valid(entry) && started && AmountsAt(entry, at, block) == []
      modifies this`at, this`block, tx
      ensures Valid(entry) && Rest(entry) == old(Rest(entry))
      ensures if more then |tx.Rest(entry)| < old(|tx.Rest(entry)|) else Rest(entry) == []
    {
      ghost var sites := tx.Rest(entry);
      var next := tx.Next(entry);
      if next.None? { return false; }
      FirstTxAmounts(entry, sites, next.value, tx.Rest(entry));
      at := Some((next.value.detailsIndex, next.value.index));
      block := 0;
      return true;
    }
  }

  // ── remittance leaves ──

  /** Where the next leaf of one transaction is looked for. */
  datatype LeafSlot =
    | AtUnstructured(at: nat)
    | AtStructured(at: nat, documents: nat, reference: bool, additional: nat)

  /** The leaves at and after a slot. */
  ghost function LeavesFrom(r: Remittance, slot: LeafSlot): seq<Leaf> {
    match slot
    case AtUnstructured(at) => UnstructuredFrom(r.unstructured, at) + StructuredFrom(r, 0)
    case AtStructured(at, documents, reference, additional) =>
      if at >= |r.structured| then []
      else RestOfBlock(r.structured[at], at + 1, documents, reference, additional) + StructuredFrom(r, at + 1)
  }

  ghost function RestOfBlock(s: Structured, index: nat, documents: nat, reference: bool, additional: nat): seq<Leaf> {
    DocumentsFrom(s, index, documents)
    + ((if reference then Stated(CreditorReference, Some(index), s.reference) else [])
      + AdditionalFrom(s, index, if reference then 0 else additional))
  }

  /** How much a slot has yet to look at. */
  ghost function Ahead(r: Remittance, slot: LeafSlot): (nat, nat, nat, nat)
  {
    match slot
    case AtUnstructured(at) => (|r.structured| + 2, if at <= |r.unstructured| then |r.unstructured| - at else 0, 0, 0)
    case AtStructured(at, documents, reference, additional) =>
      if at >= |r.structured| then (0, 0, 0, 0)
      else
        var s := r.structured[at];
        (|r.structured| - at + 1,
         if documents <= |s.documents| then |s.documents| - documents else 0,
         if reference then 1 else 0,
         if additional <= |s.additional| then |s.additional| - additional else 0)
  }

  class LeafCursor {
    var slot: LeafSlot

    constructor ()
      ensures slot == AtUnstructured(0)
    {
      slot := AtUnstructured(0);
    }

    /** The next leaf that is not blank, past every slot looked at. */
    method Next(r: Remittance) returns (leaf: Option<Leaf>)
      modifies this
      ensures HandsOut(old(LeavesFrom(r, slot)), leaf, LeavesFrom(r, slot))
    {
      while true
        invariant LeavesFrom(r, slot) == old(LeavesFrom(r, slot))
        decreases Ahead(r, slot).0, Ahead(r, slot).1, Ahead(r, slot).2, Ahead(r, slot).3
      {
        TurnHandsOut(r, slot);
        StepAhead(r, slot);
        var stepped := Step(r);
        if stepped.Done? { return None; }
        if stepped.Found? { return Some(stepped.leaf); }
      }
    }

    /** One turn of the loop. */
    method Step(r: Remittance) returns (stepped: Stepped)
      modifies this
      ensures slot == Turn(r, old(slot)).0
      ensures stepped == if AtEnd(r, old(slot)) then Done else SteppedBy(Turn(r, old(slot)).1)
    {
      match slot
      case AtUnstructured(at) =>
        if at >= |r.unstructured| {
          slot := AtStructured(0, 0, true, 0);
          return Skipped;
        }
        slot := AtUnstructured(at + 1);
        return Looked(Unstructured, None, Some(r.unstructured[at]));
      case AtStructured(at, documents, reference, additional) =>
        if at >= |r.structured| { return Done; }
        var s := r.structured[at];
        if documents < |s.documents| {
          slot := AtStructured(at, documents + 1, reference, additional);
          return Looked(ReferredDocument, Some(at + 1), s.documents[documents]);
        }
        if reference {
          slot := AtStructured(at, documents, false, 0);
          return Looked(CreditorReference, Some(at + 1), s.reference);
        }
        if additional >= |s.additional| {
          slot := AtStructured(at + 1, 0, true, 0);
          return Skipped;
        }
        slot := AtStructured(at, documents, false, additional + 1);
        return Looked(Additional, Some(at + 1), Some(s.additional[additional]));
    }
  }

  /** The slot after this one, and what this one says. */
  function Turn(r: Remittance, slot: LeafSlot): (LeafSlot, seq<Leaf>) {
    match slot
    case AtUnstructured(at) =>
      if at >= |r.unstructured| then (AtStructured(0, 0, true, 0), [])
      else (AtUnstructured(at + 1), Stated(Unstructured, None, Some(r.unstructured[at])))
    case AtStructured(at, documents, reference, additional) =>
      if at >= |r.structured| then (slot, [])
      else
        var s := r.structured[at];
        if documents < |s.documents| then
          (AtStructured(at, documents + 1, reference, additional),
              Stated(ReferredDocument, Some(at + 1), s.documents[documents]))
        else if reference then
          (AtStructured(at, documents, false, 0), Stated(CreditorReference, Some(at + 1), s.reference))
        else if additional >= |s.additional| then (AtStructured(at + 1, 0, true, 0), [])
        else (AtStructured(at, documents, false, additional + 1),
            Stated(Additional, Some(at + 1), Some(s.additional[additional])))
  }

  ghost predicate AtEnd(r: Remittance, slot: LeafSlot) { slot.AtStructured? && slot.at >= |r.structured| }

  /** A turn says the first of the leaves to come, if its slot has one. */
  lemma StepLeaves(r: Remittance, slot: LeafSlot)
    ensures LeavesFrom(r, slot) == Turn(r, slot).1 + LeavesFrom(r, Turn(r, slot).0)
    ensures AtEnd(r, slot) ==> LeavesFrom(r, slot) == []
  {
    match slot
    case AtUnstructured(at) => StepUnstructured(r, at);
    case AtStructured(at, documents, reference, additional) =>
      if at < |r.structured| {
        StepInBlock(r, at, documents, reference, additional);
      }
  }

  lemma StepUnstructured(r: Remittance, at: nat)
    ensures var slot := AtUnstructured(at); LeavesFrom(r, slot) == Turn(r, slot).1 + LeavesFrom(r, Turn(r, slot).0)
  {
    if at >= |r.unstructured| {
      assert StructuredFrom(r, 0) == LeavesFrom(r, AtStructured(0, 0, true, 0));
    }
  }

  /** What a turn says comes first of the leaves to come, and where it says nothing they stay. */
  lemma TurnHandsOut(r: Remittance, slot: LeafSlot)
    ensures var stepped, after := SteppedBy(Turn(r, slot).1), LeavesFrom(r, Turn(r, slot).0);
      if AtEnd(r, slot) then LeavesFrom(r, slot) == []
      else if stepped.Found? then HandsOut(LeavesFrom(r, slot), Some(stepped.leaf), after)
      else LeavesFrom(r, slot) == after
  {
    StepLeaves(r, slot);
    SaysOne(r, slot);
    assert [] + LeavesFrom(r, Turn(r, slot).0) == LeavesFrom(r, Turn(r, slot).0);
  }

  lemma SaysOne(r: Remittance, slot: LeafSlot)
    ensures var said := Turn(r, slot).1; said != [] ==> said == [said[0]]
  {
  }

  lemma StepInBlock(r: Remittance, at: nat, documents: nat, reference: bool, additional: nat)
    requires at < |r.structured|
    ensures var slot := AtStructured(at, documents, reference, additional);
      LeavesFrom(r, slot) == Turn(r, slot).1 + LeavesFrom(r, Turn(r, slot).0)
  {
    var s := r.structured[at];
    if documents < |s.documents| {
      Together(r, at, documents, reference, additional, documents + 1, reference, additional,
        Stated(ReferredDocument, Some(at + 1), s.documents[documents]));
    } else if reference {
      Together(r, at, documents, reference, additional, documents, false, 0,
        Stated(CreditorReference, Some(at + 1), s.reference));
    } else if additional < |s.additional| {
      Together(r, at, documents, reference, additional, documents, false, additional + 1,
        Stated(Additional, Some(at + 1), Some(s.additional[additional])));
    } else {
      NextBlock(r, at, documents, additional);
    }
  }

  /** A turn inside a block, the blocks behind it staying as they are. */
  lemma Together(r: Remittance, at: nat, documents: nat, reference: bool, additional: nat,
      documents': nat, reference': bool, additional': nat, said: seq<Leaf>)
    requires at < |r.structured|
    requires RestOfBlock(r.structured[at], at + 1, documents, reference, additional)
      == said + RestOfBlock(r.structured[at], at + 1, documents', reference', additional')
    ensures LeavesFrom(r, AtStructured(at, documents, reference, additional))
      == said + LeavesFrom(r, AtStructured(at, documents', reference', additional'))
  {
    var s, tail := r.structured[at], StructuredFrom(r, at + 1);
    BlockThenTail(r, at, documents, reference, additional);
    BlockThenTail(r, at, documents', reference', additional');
    Regroup(said, RestOfBlock(s, at + 1, documents', reference', additional'), tail);
  }

  lemma BlockThenTail(r: Remittance, at: nat, documents: nat, reference: bool, additional: nat)
    requires at < |r.structured|
    ensures LeavesFrom(r, AtStructured(at, documents, reference, additional))
      == RestOfBlock(r.structured[at], at + 1, documents, reference, additional) + StructuredFrom(r, at + 1)
  {
  }

  lemma Regroup<T>(a: seq<T>, b: seq<T>, c: seq<T>)
    ensures (a + b) + c == a + (b + c)
  {
  }

  lemma NextBlock(r: Remittance, at: nat, documents: nat, additional: nat)
    requires at < |r.structured| && documents >= |r.structured[at].documents|
      && additional >= |r.structured[at].additional|
    ensures LeavesFrom(r, AtStructured(at, documents, false, additional))
      == LeavesFrom(r, AtStructured(at + 1, 0, true, 0))
  {
    assert RestOfBlock(r.structured[at], at + 1, documents, false, additional) == [];
  }

  /** A turn leaves less to look at. */
  lemma StepAhead(r: Remittance, slot: LeafSlot)
    ensures !AtEnd(r, slot) ==> Less(Ahead(r, Turn(r, slot).0), Ahead(r, slot))
  {
  }

  datatype Stepped = Done | Skipped | Found(leaf: Leaf)

  function Looked(slot: Slot, index: Option<nat>, text: Option<string>): Stepped {
    if text.Some? && !IsBlank(text.value) then Found(Leaf(slot, index, text.value)) else Skipped
  }

  function SteppedBy(said: seq<Leaf>): Stepped { if said == [] then Skipped else Found(said[0]) }

  ghost predicate Less(a: (nat, nat, nat, nat), b: (nat, nat, nat, nat)) {
    a.0 < b.0 || (a.0 == b.0 && (a.1 < b.1 || (a.1 == b.1 && (a.2 < b.2 || (a.2 == b.2 && a.3 < b.3)))))
  }

  ghost function LeavesAt(entry: Entry, at: Option<(nat, nat)>, slot: LeafSlot, emitted: nat): seq<RemittanceSite> {
    match at
    case None => []
    case Some((d, t)) =>
      match RemittanceAt(entry, d, t)
      case None => []
      case Some(r) => Numbered(d, t, LeavesFrom(r, slot), emitted)
  }

  function RemittanceAt(entry: Entry, d: nat, t: nat): Option<Remittance> {
    match TransactionAt(entry, d, t) case None => None case Some(tx) => tx.remittance
  }

  class RemittanceCursor {
    const tx: TxCursor
    var at: Option<(nat, nat)>
    const leaves: LeafCursor
    var emitted: nat

    constructor ()
      ensures fresh(tx) && fresh(leaves) && forall entry :: Valid(entry) && Rest(entry) == Remittances(entry)
    {
      at, emitted := None, 0;
      tx := new TxCursor();
      leaves := new LeafCursor();
    }

    ghost predicate Valid(entry: Entry)
      reads this, tx
    {
      tx.Valid(entry)
    }

    ghost function Rest(entry: Entry): seq<RemittanceSite>
      reads this, tx, leaves
      requires Valid(entry)
    {
      LeavesAt(entry, at, leaves.slot, emitted) + TxRemittances(tx.Rest(entry))
    }

    /** The next leaf of the transaction the cursor stands at. */
    method NextOfTransaction(entry: Entry) returns (r: Option<RemittanceSite>)
      requires Valid(entry)
      modifies this`emitted, leaves
      ensures Valid(entry)
      ensures r.Some? ==> HandsOut(old(Rest(entry)), r, Rest(entry))
      ensures r.None? ==> LeavesAt(entry, at, leaves.slot, emitted) == [] && Rest(entry) == old(Rest(entry))
    {
      if at.None? { return None; }
      var (d, t) := at.value;
      var found := RemittanceAt(entry, d, t);
      if found.None? { return None; }
      ghost var sites := Numbered(d, t, LeavesFrom(found.value, leaves.slot), emitted);
      ghost var more := TxRemittances(tx.Rest(entry));
      AtTransaction(entry, d, t, found.value, leaves.slot, emitted);
      r := NextLeaf(d, t, found.value);
      AtTransaction(entry, d, t, found.value, leaves.slot, emitted);
      if r.Some? {
        HandsOutMore(sites, r, Numbered(d, t, LeavesFrom(found.value, leaves.slot), emitted), more);
      }
    }

    /** The next leaf of one transaction's remittance, as a site of it. */
    method NextLeaf(d: nat, t: nat, remittance: Remittance) returns (r: Option<RemittanceSite>)
      modifies this`emitted, leaves
      ensures HandsOut(old(Numbered(d, t, LeavesFrom(remittance, leaves.slot), emitted)), r,
        Numbered(d, t, LeavesFrom(remittance, leaves.slot), emitted))
    {
      ghost var before := LeavesFrom(remittance, leaves.slot);
      var leaf := leaves.Next(remittance);
      if leaf.None? {
        NothingNumbered(d, t, emitted);
        return None;
      }
      r := Some(RemittanceSite(d, t, emitted + 1, leaf.value));
      FirstNumbered(d, t, before, leaf.value, LeavesFrom(remittance, leaves.slot), emitted, r.value);
      emitted := emitted + 1;
    }

    lemma AtTransaction(entry: Entry, d: nat, t: nat, r: Remittance, slot: LeafSlot, emitted: nat)
      requires RemittanceAt(entry, d, t) == Some(r)
      ensures LeavesAt(entry, Some((d, t)), slot, emitted) == Numbered(d, t, LeavesFrom(r, slot), emitted)
    {
    }

    method Next(entry: Entry) returns (r: Option<RemittanceSite>)
      requires Valid(entry)
      modifies this, tx, leaves
      ensures Valid(entry) && HandsOut(old(Rest(entry)), r, Rest(entry))
    {
      while true
        invariant Valid(entry) && Rest(entry) == old(Rest(entry))
        decreases |tx.Rest(entry)|
      {
        r := NextOfTransaction(entry);
        if r.Some? { return; }
        ghost var sites := tx.Rest(entry);
        var next := tx.Next(entry);
        if next.None? { return; }
        FirstTxRemittances(entry, sites, next.value, tx.Rest(entry));
        at := Some((next.value.detailsIndex, next.value.index));
        leaves.slot := AtUnstructured(0);
        emitted := 0;
      }
    }
  }

  lemma NothingNumbered(d: nat, t: nat, emitted: nat)
    ensures Numbered(d, t, [], emitted) == []
  {
  }

  lemma FirstNumbered(
      d: nat, t: nat, before: seq<Leaf>, leaf: Leaf, after: seq<Leaf>, emitted: nat, site: RemittanceSite)
    requires before == [leaf] + after && site == RemittanceSite(d, t, emitted + 1, leaf)
    ensures HandsOut(Numbered(d, t, before, emitted), Some(site), Numbered(d, t, after, emitted + 1))
  {
    assert Numbered(d, t, before, emitted) == [site] + Numbered(d, t, after, emitted + 1);
  }

  lemma FirstTxRemittances(entry: Entry, sites: seq<TxSite>, first: TxSite, rest: seq<TxSite>)
    requires sites == [first] + rest && IsTransaction(entry, first)
    ensures |rest| < |sites| && sites != []
    ensures TxRemittances(sites)
      == LeavesAt(entry, Some((first.detailsIndex, first.index)), AtUnstructured(0), 0) + TxRemittances(rest)
  {
    assert sites[1..] == rest;
  }
}
