/**
  One booked entry as the readers deserialize it (src/model.rs), and the flattened
  lists its cursors stand for without building them.
*/
module Entries {
  import opened Options
  import Decimal

  datatype AmountDetail = AmountDetail(amount: Option<string>, currency: Option<string>)

  /** The amount blocks of one `<AmtDtls>`: four fixed slots, then every proprietary one. */
  datatype AmountDetails = AmountDetails(
    instructed: Option<AmountDetail>,
    transaction: Option<AmountDetail>,
    counterValue: Option<AmountDetail>,
    announcedPosting: Option<AmountDetail>,
    proprietary: seq<AmountDetail>)

  datatype Structured = Structured(documents: seq<Option<string>>, reference: Option<string>, additional: seq<string>)

  datatype Remittance = Remittance(unstructured: seq<string>, structured: seq<Structured>)

  datatype Parties = Parties(
    debtor: Option<string>, debtorAccount: Option<string>, ultimateDebtor: Option<string>,
    creditor: Option<string>, creditorAccount: Option<string>, ultimateCreditor: Option<string>)

  datatype Transaction = Transaction(
    amounts: Option<AmountDetails>,
    remittance: Option<Remittance>,
    direction: Option<string>,
    endToEndId: Option<string>,
    parties: Option<Parties>,
    charges: seq<Option<string>>)

  datatype Details = Details(transactions: seq<Transaction>)

  datatype Entry = Entry(amounts: Option<AmountDetails>, direction: Option<string>, details: seq<Details>)

  // ── transactions ──

  datatype TxSite = TxSite(detailsIndex: nat, index: nat, tx: Transaction)

  /** The transactions of details block `d` from position `t` on, with their scoped 1-based indexes. */
  function TxsOf(entry: Entry, d: nat, t: nat): seq<TxSite>
    requires d < |entry.details| && t <= |entry.details[d].transactions|
  {
    seq(|entry.details[d].transactions| - t, i requires 0 <= i < |entry.details[d].transactions| - t =>
      TxSite(d + 1, t + i + 1, entry.details[d].transactions[t + i]))
  }

  /** Every transaction of the details blocks from `d` on. */
  function TxsFrom(entry: Entry, d: nat): seq<TxSite>
    decreases |entry.details| - d
  {
    if d >= |entry.details| then [] else TxsOf(entry, d, 0) + TxsFrom(entry, d + 1)
  }

  /** The entry's transactions in document order. */
  function Transactions(entry: Entry): seq<TxSite> { TxsFrom(entry, 0) }

  // ── amount blocks ──

  datatype AmountKind = Instructed | OfTransaction | CounterValue | AnnouncedPosting | Proprietary

  function Present(kind: AmountKind, block: Option<AmountDetail>): seq<(AmountKind, AmountDetail)> {
    match block case None => [] case Some(detail) => [(kind, detail)]
  }

  /** The fixed slots that are present, one after the other. */
  function FixedBlocks(a: AmountDetails): seq<(AmountKind, AmountDetail)> {
    Present(Instructed, a.instructed) + Present(OfTransaction, a.transaction)
    + Present(CounterValue, a.counterValue) + Present(AnnouncedPosting, a.announcedPosting)
  }

  /** All blocks: the fixed slots that are present, and the proprietary list behind them. */
  function Blocks(a: AmountDetails): seq<(AmountKind, AmountDetail)> {
    FixedBlocks(a) + seq(|a.proprietary|, i requires 0 <= i < |a.proprietary| => (Proprietary, a.proprietary[i]))
  }

  function BlocksOf(amounts: Option<AmountDetails>): seq<(AmountKind, AmountDetail)> {
    match amounts case None => [] case Some(a) => Blocks(a)
  }

  function FixedSlots(a: AmountDetails): seq<(AmountKind, Option<AmountDetail>)> {
    [(Instructed, a.instructed), (OfTransaction, a.transaction),
     (CounterValue, a.counterValue), (AnnouncedPosting, a.announcedPosting)]
  }

  /** The `k`th present slot from `from` on. */
  function NthPresent(slots: seq<(AmountKind, Option<AmountDetail>)>, from: nat, k: nat)
    : Option<(AmountKind, AmountDetail)>
    requires from <= |slots|
    decreases |slots| - from
  {
    if from == |slots| then None
    else
      match slots[from].1
      case None => NthPresent(slots, from + 1, k)
      case Some(detail) => if k == 0 then Some((slots[from].0, detail)) else NthPresent(slots, from + 1, k - 1)
  }

  function CountPresent(slots: seq<(AmountKind, Option<AmountDetail>)>, from: nat): nat
    requires from <= |slots|
    decreases |slots| - from
  {
    if from == |slots| then 0 else CountPresent(slots, from + 1) + if slots[from].1.Some? then 1 else 0
  }

  /** The block at an index by option checks and one subtraction, nothing collected. */
  function Block(a: AmountDetails, at: nat): Option<(AmountKind, AmountDetail)> {
    var present := CountPresent(FixedSlots(a), 0);
    if at >= present then
      if at - present < |a.proprietary| then Some((Proprietary, a.proprietary[at - present])) else None
    else NthPresent(FixedSlots(a), 0, at)
  }

  lemma {:induction false} PresentSlots(slots: seq<(AmountKind, Option<AmountDetail>)>, from: nat, k: nat)
    requires from <= |slots|
    ensures var present := Filtered(slots, from);
      && CountPresent(slots, from) == |present|
      && NthPresent(slots, from, k) == if k < |present| then Some(present[k]) else None
    decreases |slots| - from
  {
    if from < |slots| {
      if slots[from].1.None? {
        PresentSlots(slots, from + 1, k);
      } else {
        PresentSlots(slots, from + 1, if k == 0 then 0 else k - 1);
      }
    }
  }

  function Filtered(slots: seq<(AmountKind, Option<AmountDetail>)>, from: nat): seq<(AmountKind, AmountDetail)>
    requires from <= |slots|
    decreases |slots| - from
  {
    if from == |slots| then [] else Present(slots[from].0, slots[from].1) + Filtered(slots, from + 1)
  }

  lemma FilteredIsFixed(a: AmountDetails)
    ensures Filtered(FixedSlots(a), 0) == FixedBlocks(a)
  {
    var s := FixedSlots(a);
    assert Filtered(s, 3) == Present(AnnouncedPosting, a.announcedPosting);
    assert Filtered(s, 2) == Present(CounterValue, a.counterValue) + Filtered(s, 3);
    assert Filtered(s, 1) == Present(OfTransaction, a.transaction) + Filtered(s, 2);
    assert Filtered(s, 0) == Present(Instructed, a.instructed) + Filtered(s, 1);
  }

  /** The block at `at` is the `at`th of the list, so an absent one shifts those behind it, and the list ends where
      it does. */
  lemma BlockIsIndexed(a: AmountDetails, at: nat)
    ensures Block(a, at) == if at < |Blocks(a)| then Some(Blocks(a)[at]) else None
  {
    PresentSlots(FixedSlots(a), 0, at);
    FilteredIsFixed(a);
  }

  datatype Scope = EntryScope | TransactionScope(detailsIndex: nat, index: nat)

  datatype AmountSite = AmountSite(scope: Scope, kind: AmountKind, index: nat, detail: AmountDetail)

  /** The sites of some blocks from block `at` on, numbered from 1. */
  function SitesFrom(scope: Scope, blocks: seq<(AmountKind, AmountDetail)>, at: nat): seq<AmountSite> {
    if at >= |blocks| then []
    else
      seq(|blocks| - at, i requires 0 <= i < |blocks| - at =>
        AmountSite(scope, blocks[at + i].0, at + i + 1, blocks[at + i].1))
  }

  /** The sites of one `<AmtDtls>`. */
  function SitesOf(scope: Scope, amounts: Option<AmountDetails>, at: nat): seq<AmountSite> {
    SitesFrom(scope, BlocksOf(amounts), at)
  }

  function TxAmounts(sites: seq<TxSite>): seq<AmountSite> {
    if sites == [] then []
    else
      SitesOf(TransactionScope(sites[0].detailsIndex, sites[0].index), sites[0].tx.amounts, 0) + TxAmounts(sites[1..])
  }

  /** The entry's own blocks, then each transaction's. */
  function Amounts(entry: Entry): seq<AmountSite> {
    SitesOf(EntryScope, entry.amounts, 0) + TxAmounts(Transactions(entry))
  }

  // ── remittance leaves ──

  datatype Slot = Unstructured | ReferredDocument | CreditorReference | Additional

  datatype Leaf = Leaf(slot: Slot, structuredIndex: Option<nat>, text: string)

  predicate IsBlank(text: string) { Decimal.Trim(text) == "" }

  /** A leaf where the text is there and not blank. */
  function Stated(slot: Slot, index: Option<nat>, text: Option<string>): seq<Leaf> {
    if text.Some? && !IsBlank(text.value) then [Leaf(slot, index, text.value)] else []
  }

  /** A text that is there is a leaf, as it stands, exactly where some character of it is no white space. */
  lemma StatedExactly(slot: Slot, index: Option<nat>, text: Option<string>)
    ensures Stated(slot, index, text) ==
      if text.Some? && exists c | c in text.value :: !Decimal.IsSpace(c) then [Leaf(slot, index, text.value)] else []
  {
    if text.Some? { Decimal.TrimIsBlank(text.value); }
  }

  function UnstructuredFrom(texts: seq<string>, at: nat): seq<Leaf>
    decreases |texts| - at
  {
    if at >= |texts| then [] else Stated(Unstructured, None, Some(texts[at])) + UnstructuredFrom(texts, at + 1)
  }

  function DocumentsFrom(s: Structured, index: nat, at: nat): seq<Leaf>
    decreases |s.documents| - at
  {
    if at >= |s.documents| then []
    else Stated(ReferredDocument, Some(index), s.documents[at]) + DocumentsFrom(s, index, at + 1)
  }

  function AdditionalFrom(s: Structured, index: nat, at: nat): seq<Leaf>
    decreases |s.additional| - at
  {
    if at >= |s.additional| then []
    else Stated(Additional, Some(index), Some(s.additional[at])) + AdditionalFrom(s, index, at + 1)
  }

  /** One structured block: its document numbers, its creditor reference, its additional texts. */
  function BlockLeaves(s: Structured, index: nat): seq<Leaf> {
    DocumentsFrom(s, index, 0) + (Stated(CreditorReference, Some(index), s.reference) + AdditionalFrom(s, index, 0))
  }

  /** The structured blocks from `at` on; a block without a leaf still spends its ordinal. */
  function StructuredFrom(r: Remittance, at: nat): seq<Leaf>
    decreases |r.structured| - at
  {
    if at >= |r.structured| then [] else BlockLeaves(r.structured[at], at + 1) + StructuredFrom(r, at + 1)
  }

  /** Every supported leaf that is not blank, in slot order. */
  function Leaves(r: Remittance): seq<Leaf> { UnstructuredFrom(r.unstructured, 0) + StructuredFrom(r, 0) }

  function LeavesOf(tx: Transaction): seq<Leaf> {
    match tx.remittance case None => [] case Some(r) => Leaves(r)
  }

  datatype RemittanceSite = RemittanceSite(detailsIndex: nat, index: nat, leafIndex: nat, leaf: Leaf)

  /** Leaves numbered from `emitted + 1` on. */
  function Numbered(detailsIndex: nat, index: nat, leaves: seq<Leaf>, emitted: nat): seq<RemittanceSite> {
    seq(|leaves|, i requires 0 <= i < |leaves| => RemittanceSite(detailsIndex, index, emitted + i + 1, leaves[i]))
  }

  function TxRemittances(sites: seq<TxSite>): seq<RemittanceSite> {
    if sites == [] then []
    else Numbered(sites[0].detailsIndex, sites[0].index, LeavesOf(sites[0].tx), 0) + TxRemittances(sites[1..])
  }

  function Remittances(entry: Entry): seq<RemittanceSite> { TxRemittances(Transactions(entry)) }
}
