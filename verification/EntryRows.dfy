/** What the entry row and the transaction row say of the transactions of an entry
    (src/model.rs, src/camt_transactions.rs). */
module EntryRows {
  import opened Options
  import opened Entries
  import opened EntryCursors

  /** The number of leaves of a transaction, and its text if it has just one. */
  method CountLeaves(tx: Transaction) returns (count: nat, sole: Option<string>)
    ensures count == |LeavesOf(tx)|
    ensures sole == if count == 1 then Some(LeavesOf(tx)[0].text) else None
  {
    count, sole := 0, None;
    if tx.remittance.None? { return; }
    var r := tx.remittance.value;
    var cursor := new LeafCursor();
    ghost var seen: seq<Leaf>, rest: seq<Leaf> := [], LeavesFrom(r, cursor.slot);
    ghost var all := rest;
    while true
      invariant rest == LeavesFrom(r, cursor.slot) && seen + rest == all && count == |seen|
      invariant sole == if count == 1 then Some(seen[0].text) else None
      decreases |rest|
    {
      var leaf := cursor.Next(r);
      if leaf.None? { return; }
      rest := LeavesFrom(r, cursor.slot);
      Moved(seen, leaf.value, rest);
      seen := seen + [leaf.value];
      count := count + 1;
      sole := if count == 1 then Some(leaf.value.text) else None;
    }
  }

  lemma Moved<T>(seen: seq<T>, item: T, rest: seq<T>)
    ensures seen + ([item] + rest) == (seen + [item]) + rest
  {
  }

  /** The counts of the entry row, and its answers where one transaction gives them. */
  datatype Counts = Counts(transactions: nat, leaves: nat, sole: Option<Transaction>, text: Option<string>)

  /** The leaves of some transactions together. */
  function LeafTotal(sites: seq<TxSite>): nat {
    if sites == [] then 0 else |LeavesOf(sites[0].tx)| + LeafTotal(sites[1..])
  }

  /** The one leaf of the one transaction. */
  function SoleText(sites: seq<TxSite>): Option<string> {
    if |sites| == 1 && |LeavesOf(sites[0].tx)| == 1 then Some(LeavesOf(sites[0].tx)[0].text) else None
  }

  method CountEntry(entry: Entry) returns (c: Counts)
    ensures c.transactions == |Transactions(entry)|
    ensures c.leaves == LeafTotal(Transactions(entry))
    ensures c.sole == if c.transactions == 1 then Some(Transactions(entry)[0].tx) else None
    ensures c.text == SoleText(Transactions(entry))
  {
    var transactions, leaves := 0, 0;
    var sole: Option<Transaction>, text: Option<string> := None, None;
    ghost var seen: seq<TxSite> := [];
    for d := 0 to |entry.details|
      invariant seen + TxsFrom(entry, d) == Transactions(entry)
      invariant Tallied(seen, transactions, leaves, sole, text)
    {
      transactions, leaves, sole, text := CountDetails(entry, d, transactions, leaves, sole, text, seen);
      Regroup(seen, TxsOf(entry, d, 0), TxsFrom(entry, d + 1));
      seen := seen + TxsOf(entry, d, 0);
    }
    assert seen == Transactions(entry);
    if transactions != 1 { sole, text := None, None; }
    return Counts(transactions, leaves, sole, if leaves == 1 then text else None);
  }

  lemma Regroup<T>(a: seq<T>, b: seq<T>, c: seq<T>)
    ensures a + (b + c) == (a + b) + c
  {
  }

  /** The inner loop: the transactions of one details block. */
  method CountDetails(entry: Entry, d: nat, transactions0: nat, leaves0: nat, sole0: Option<Transaction>,
      text0: Option<string>, ghost before: seq<TxSite>)
    returns (transactions: nat, leaves: nat, sole: Option<Transaction>, text: Option<string>)
    requires d < |entry.details| && Tallied(before, transactions0, leaves0, sole0, text0)
    ensures Tallied(before + TxsOf(entry, d, 0), transactions, leaves, sole, text)
  {
    transactions, leaves, sole, text := transactions0, leaves0, sole0, text0;
    ghost var seen := before;
    for t := 0 to |entry.details[d].transactions|
      invariant seen + TxsOf(entry, d, t) == before + TxsOf(entry, d, 0)
      invariant Tallied(seen, transactions, leaves, sole, text)
    {
      var tx := entry.details[d].transactions[t];
      var count, found := CountLeaves(tx);
      ghost var site := TxSite(d + 1, t + 1, tx);
      OneSite(entry, d, t);
      Moved(seen, site, TxsOf(entry, d, t + 1));
      TallyOne(seen, site, transactions, leaves, sole, text, count, found);
      seen := seen + [site];
      transactions, leaves := transactions + 1, leaves + count;
      if transactions == 1 {
        sole, text := Some(tx), found;
      }
    }
    assert seen + TxsOf(entry, d, |entry.details[d].transactions|) == seen;
  }

  lemma OneSite(entry: Entry, d: nat, t: nat)
    requires d < |entry.details| && t < |entry.details[d].transactions|
    ensures TxsOf(entry, d, t) == [TxSite(d + 1, t + 1, entry.details[d].transactions[t])] + TxsOf(entry, d, t + 1)
  {
  }

  ghost predicate Tallied(seen: seq<TxSite>, transactions: nat, leaves: nat, sole: Option<Transaction>,
      text: Option<string>) {
    && transactions == |seen| && leaves == LeafTotal(seen)
    && (seen != [] ==> sole == Some(seen[0].tx) && text == SoleText(seen[..1]))
  }

  lemma TallyOne(seen: seq<TxSite>, site: TxSite, transactions: nat, leaves: nat,
      sole: Option<Transaction>, text: Option<string>, count: nat, found: Option<string>)
    requires Tallied(seen, transactions, leaves, sole, text)
    requires count == |LeavesOf(site.tx)| && found == SoleText([site])
    ensures Tallied(seen + [site], transactions + 1, leaves + count,
      if transactions == 0 then Some(site.tx) else sole, if transactions == 0 then found else text)
  {
    LeafTotalAppend(seen, site);
    if seen == [] {
      assert (seen + [site])[..1] == [site];
    } else {
      assert (seen + [site])[..1] == seen[..1];
    }
  }

  lemma {:induction false} LeafTotalAppend(sites: seq<TxSite>, last: TxSite)
    ensures LeafTotal(sites + [last]) == LeafTotal(sites) + |LeavesOf(last.tx)|
  {
    if sites == [] {
      assert ([] + [last])[1..] == [];
    } else {
      LeafTotalAppend(sites[1..], last);
      assert (sites + [last])[1..] == sites[1..] + [last];
    }
  }

  // ── the grains agree ──

  lemma {:induction false} TxRemittancesCount(sites: seq<TxSite>)
    ensures |TxRemittances(sites)| == LeafTotal(sites)
  {
    if sites != [] { TxRemittancesCount(sites[1..]); }
  }

  /** The entry row's count is what the remittance reader hands out for the entry, and the sum of
      what the transaction rows count; its text is there exactly where there is one of each, and is that leaf's. */
  lemma CountsAgree(entry: Entry)
    ensures LeafTotal(Transactions(entry)) == |Remittances(entry)|
    ensures |Transactions(entry)| == 1 ==>
      |Remittances(entry)| == |LeavesOf(Transactions(entry)[0].tx)|
      && (|Remittances(entry)| == 1 ==> Remittances(entry)[0].leaf == LeavesOf(Transactions(entry)[0].tx)[0])
  {
    TxRemittancesCount(Transactions(entry));
    if |Transactions(entry)| == 1 {
      var only := Transactions(entry)[0];
      assert Transactions(entry) == [only] && [only][1..] == [];
      assert TxRemittances([only]) == Numbered(only.detailsIndex, only.index, LeavesOf(only.tx), 0) + TxRemittances([]);
    }
  }

  // ── the counterparty ──

  /** One side of a payment: its name, its ultimate party's standing in, and its account. */
  datatype Side = Side(name: Option<string>, account: Option<string>)

  function DebtorSide(p: Parties): Side { Side(OrElse(p.debtor, p.ultimateDebtor), p.debtorAccount) }
  function CreditorSide(p: Parties): Side { Side(OrElse(p.creditor, p.ultimateCreditor), p.creditorAccount) }

  predicate Silent(s: Side) { s.name.None? && s.account.None? }

  /** Money in: the debtor is the other party; money out, or nothing said: the creditor. */
  function OtherSide(direction: Option<string>, p: Parties): Side {
    if direction == Some("CRDT") then DebtorSide(p) else CreditorSide(p)
  }

  function OwnSide(direction: Option<string>, p: Parties): Side {
    if direction == Some("CRDT") then CreditorSide(p) else DebtorSide(p)
  }

  /** One side's name and account together, the other party's first. */
  method Counterparty(direction: Option<string>, tx: Option<Transaction>)
    returns (name: Option<string>, account: Option<string>)
    ensures tx.None? || tx.value.parties.None? ==> name.None? && account.None?
    ensures tx.Some? && tx.value.parties.Some? ==>
      var p := tx.value.parties.value;
      Side(name, account) == if Silent(OtherSide(direction, p)) then OwnSide(direction, p) else OtherSide(direction, p)
  {
    if tx.None? || tx.value.parties.None? { return None, None; }
    var p := tx.value.parties.value;
    var credit := direction == Some("CRDT");
    var first, second := if credit then p.debtor else p.creditor, if credit then p.creditor else p.debtor;
    var firstAccount, secondAccount :=
      if credit then p.debtorAccount else p.creditorAccount, if credit then p.creditorAccount else p.debtorAccount;
    var ultimateFirst, ultimateSecond :=
      if credit then p.ultimateDebtor else p.ultimateCreditor, if credit then p.ultimateCreditor else p.ultimateDebtor;
    var sides := [(first, ultimateFirst, firstAccount), (second, ultimateSecond, secondAccount)];
    for i := 0 to |sides|
      invariant i > 0 ==> Silent(OtherSide(direction, p))
      invariant i > 1 ==> Silent(OwnSide(direction, p))
    {
      name := OrElse(sides[i].0, sides[i].1);
      account := sides[i].2;
      if name.Some? || account.Some? { return; }
    }
    return None, None;
  }

  /** What the entry row takes from below the entry. */
  datatype EntryRow = EntryRow(
    transactionCount: nat,
    remittanceCount: nat,
    endToEndId: Option<string>,
    counterpartyName: Option<string>,
    counterpartyAccount: Option<string>,
    remittanceInfo: Option<string>)

  /** Money in by the transaction's own word, and by the entry's where the transaction says nothing. */
  predicate MoneyIn(entry: Entry, tx: Transaction) {
    tx.direction == Some("CRDT") || (tx.direction.None? && entry.direction == Some("CRDT"))
  }

  /** The one side where it says anything, else the other. */
  function FirstToSpeak(first: Side, second: Side): Side { if Silent(first) then second else first }

  method RowFromEntry(entry: Entry) returns (row: EntryRow)
    ensures row.transactionCount == |Transactions(entry)|
    ensures row.remittanceCount == |Remittances(entry)|
    ensures row.remittanceInfo
      == if |Transactions(entry)| == 1 && |Remittances(entry)| == 1 then Some(Remittances(entry)[0].leaf.text) else None
    ensures |Transactions(entry)| != 1 ==>
      row.endToEndId.None? && row.counterpartyName.None? && row.counterpartyAccount.None?
    ensures |Transactions(entry)| == 1 ==>
      var tx := Transactions(entry)[0].tx;
      && row.endToEndId == tx.endToEndId
      && (tx.parties.None? ==> row.counterpartyName.None? && row.counterpartyAccount.None?)
      && (tx.parties.Some? ==>
        var debtor, creditor := DebtorSide(tx.parties.value), CreditorSide(tx.parties.value);
        Side(row.counterpartyName, row.counterpartyAccount) ==
          if MoneyIn(entry, tx) then FirstToSpeak(debtor, creditor) else FirstToSpeak(creditor, debtor))
  {
    var c := CountEntry(entry);
    CountsAgree(entry);
    var direction := if c.sole.Some? then OrElse(c.sole.value.direction, entry.direction) else entry.direction;
    var name, account := Counterparty(direction, c.sole);
    return EntryRow(c.transactions, c.leaves,
      if c.sole.Some? then c.sole.value.endToEndId else None, name, account, c.text);
  }

  // ── the charges of a transaction row ──

  /** Every stated total is parsed, and one that cannot be fails the row; the column is filled
      only where exactly one is stated. `parse` is the amount reader. */
  method SoleCharge(charges: seq<Option<string>>, parse: string -> Option<int>) returns (ok: bool, total: Option<int>)
    ensures ok <==> forall t | t in StatedOf(charges) :: parse(t).Some?
    ensures ok ==> total == if |StatedOf(charges)| == 1 then parse(StatedOf(charges)[0]) else None
  {
    var stated := 0;
    var sole: Option<int> := None;
    for i := 0 to |charges|
      invariant stated == |StatedOf(charges[..i])|
      invariant forall t | t in StatedOf(charges[..i]) :: parse(t).Some?
      invariant stated >= 1 ==> sole == parse(StatedOf(charges[..i])[0])
    {
      assert charges[..i + 1][..i] == charges[..i];
      StatedPrefix(charges, i + 1);
      if charges[i].Some? {
        var parsed := parse(charges[i].value);
        assert StatedOf(charges[..i + 1]) == StatedOf(charges[..i]) + [charges[i].value];
        if parsed.None? {
          ghost var t := StatedOf(charges)[|StatedOf(charges[..i])|];
          assert t == charges[i].value;
          return false, None;
        }
        stated := stated + 1;
        if stated == 1 { sole := parsed; }
      }
    }
    assert charges[..|charges|] == charges;
    return true, if stated == 1 then sole else None;
  }

  function StatedOf(charges: seq<Option<string>>): seq<string> {
    if charges == [] then []
    else
      StatedOf(charges[..|charges| - 1])
      + match charges[|charges| - 1] case None => [] case Some(t) => [t]
  }

  lemma {:induction false} StatedPrefix(charges: seq<Option<string>>, k: nat)
    requires k <= |charges|
    ensures StatedOf(charges[..k]) <= StatedOf(charges)
  {
    if k < |charges| {
      StatedPrefix(charges[..|charges| - 1], k);
      assert charges[..|charges| - 1][..k] == charges[..k];
    } else {
      assert charges[..k] == charges;
    }
  }
}
