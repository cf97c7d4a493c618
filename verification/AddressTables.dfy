/** The names the address audit knows: which elements are parties, records, parts of an address, and message ids. */
module AddressTables {
  import opened Options
  import opened Xml
  import opened TreeMachine
  import opened AddressWalk
  import opened AddressRows

  /** The parties of a payment and of a cheque. */
  const PARTIES: set<string> := {"InitgPty", "Dbtr", "Cdtr", "UltmtDbtr", "UltmtCdtr", "Pyer", "Pyee"}

  /** An agent's name: what it does, and the word for an agent, numbered where there may be three. */
  predicate NamesAgent(name: string) {
    || name in {"InstgAgt", "InstdAgt", "DbtrAgt", "CdtrAgt", "DrwrAgt", "FwdgAgt"}
    || (|name| > 0 && name[|name| - 1] in {'1', '2', '3'} && name[..|name| - 1] in {"IntrmyAgt", "PrvsInstgAgt"})
  }

  lemma NumberedAgents()
    ensures "IntrmyAgt1"[..9] == "IntrmyAgt" && "IntrmyAgt2"[..9] == "IntrmyAgt" && "IntrmyAgt3"[..9] == "IntrmyAgt"
    ensures "PrvsInstgAgt1"[..12] == "PrvsInstgAgt" && "PrvsInstgAgt2"[..12] == "PrvsInstgAgt"
    ensures "PrvsInstgAgt3"[..12] == "PrvsInstgAgt"
  {
  }

  lemma AgentsExactly(name: string)
    ensures name in AGENT_ROLES <==> NamesAgent(name)
  {
    NumberedAgents();
    if NamesAgent(name) && name !in {"InstgAgt", "InstdAgt", "DbtrAgt", "CdtrAgt", "DrwrAgt", "FwdgAgt"} {
      var front, last := name[..|name| - 1], name[|name| - 1];
      assert name == front + [last];
      assert "IntrmyAgt" + ['1'] == "IntrmyAgt1" && "IntrmyAgt" + ['2'] == "IntrmyAgt2";
      assert "IntrmyAgt" + ['3'] == "IntrmyAgt3" && "PrvsInstgAgt" + ['1'] == "PrvsInstgAgt1";
      assert "PrvsInstgAgt" + ['2'] == "PrvsInstgAgt2" && "PrvsInstgAgt" + ['3'] == "PrvsInstgAgt3";
    }
  }

  /** What kind a role is of; other names are none. */
  lemma RolesExactly(name: string)
    ensures RoleKind(name) == Some(PARTY) <==> name in PARTIES
    ensures RoleKind(name) == Some(AGENT) <==> NamesAgent(name)
  {
    AgentsExactly(name);
    RolesAreNoRecords(name);
  }

  /** A file that is one element gives one row where the element is a party or an agent, of its kind, and else the
      rows of its content. */
  lemma OneElementFile(container: string -> Option<string>, definition: string -> Option<string>, name: string,
      kids: Forest)
    ensures var n := Iso(container, definition);
      Facts(Drain(Audit(n), INITIAL, Onto(Elem(name, None, kids, Nil), Eof)).rows) ==
        if name in PARTIES then [Fact(name, PARTY, StatedIn(n, [name], kids, NOTHING))]
        else if NamesAgent(name) then [Fact(name, AGENT, StatedIn(n, [name], kids, NOTHING))]
        else PartiesOf(n, kids)
  {
    var n := Iso(container, definition);
    RolesExactly(name);
    DrainIsParties(n, Elem(name, None, kids, Nil));
    assert PartiesOf(n, Elem(name, None, kids, Nil)) ==
      (match n.role(name)
       case Some(kind) => [Fact(name, kind, StatedIn(n, [name], kids, NOTHING))]
       case None => PartiesOf(n, kids)) + PartiesOf(n, Nil);
  }

  /** The entries, transactions, mandates, cancellations, acceptances and cheque items that are numbered, and the
      elements of a postal address that are counted, of which its type is none. */
  lemma RecordsAndElements(container: string -> Option<string>, definition: string -> Option<string>, name: string)
    ensures var n := Iso(container, definition);
      && (n.isRecord(name) <==> name in {"Ntry", "CdtTrfTxInf", "CdtTrfTx", "DrctDbtTxInf", "TxInf", "TxInfAndSts",
            "Mndt", "UndrlygAmdmntDtls", "UndrlygCxlDtls", "UndrlygAccptncDtls", "Itm"})
      && (n.isAddress(name) <==> name in {"CareOf", "Dept", "SubDept", "StrtNm", "BldgNb", "BldgNm", "Flr", "UnitNb",
            "PstBx", "Room", "PstCd", "TwnNm", "TwnLctnNm", "DstrctNm", "CtrySubDvsn", "Ctry"})
      && !n.isAddress("AdrTp")
  {
  }

  /** A message's id is its group header's, its message header's, or its assignment's. */
  lemma MessageIdsExactly(path: seq<string>)
    ensures IsMessageId(path) <==>
      && |path| >= 2
      && (path[|path| - 2], path[|path| - 1]) in {("GrpHdr", "MsgId"), ("MsgHdr", "MsgId"), ("Assgnmt", "Id")}
  {
    if |path| >= 2 { assert path[|path| - 2..] == [path[|path| - 2], path[|path| - 1]]; }
  }
}
