/** The names the statement walk knows: containers, records, message elements and message-definition identifiers. */
module StatementTables {
  import opened Options
  import opened Xml
  import opened StatementWalk

  /** The accounts' containers, and of their children the records of each grain. */
  lemma NamesOfRecords(name: string)
    ensures IsStatement(name) <==> name in {"Rpt", "Stmt", "Ntfctn"}
    ensures forall st: State | AtRecord(st) ::
      && (IsRecord(Entries, st, name) <==> name == "Ntry")
      && (IsRecord(Balances, st, name) <==> name == "Bal")
      && (Counted(Statements, st, name) <==> name == "Ntry" || name == "Bal")
      && !Counted(Entries, st, name) && !Counted(Balances, st, name)
    ensures forall st: State | !AtRecord(st) && name != "" ::
      && (Consumes(Entries, st, name) <==> name == "Bal")
      && (Consumes(Balances, st, name) <==> name == "Ntry")
      && !Consumes(Statements, st, name)
  {
  }

  // ── identifiers ──

  ghost predicate Lower(s: string) { forall i | 0 <= i < |s| :: s[i] in "abcdefghijklmnopqrstuvwxyz" }
  ghost predicate Decimals(s: string) { forall i | 0 <= i < |s| :: s[i] in "0123456789" }

  lemma DigitsAre(c: char)
    ensures Digit(c) <==> c in "0123456789"
  {
    var all := "0123456789";
    if Digit(c) { assert c == all[c as int - '0' as int]; }
  }

  lemma LettersAre(c: char)
    ensures 'a' <= c <= 'z' <==> c in "abcdefghijklmnopqrstuvwxyz"
  {
    var all := "abcdefghijklmnopqrstuvwxyz";
    if 'a' <= c <= 'z' { assert c == all[c as int - 'a' as int]; }
  }

  /** A business area of four letters, a message of three digits, a variant of three and a version of two. */
  ghost predicate Identifies(s: string, area: string, message: string, variant: string, version: string) {
    && |area| == 4 && |message| == 3 && |variant| == 3 && |version| == 2
    && Lower(area) && Decimals(message) && Decimals(variant) && Decimals(version)
    && s == area + "." + message + "." + variant + "." + version
  }

  lemma IdentifierParts(s: string, area: string, message: string, variant: string, version: string)
    requires |area| == 4 && |message| == 3 && |variant| == 3 && |version| == 2
    requires s == area + "." + message + "." + variant + "." + version
    ensures |s| == 15 && s[4] == s[8] == s[12] == '.'
    ensures s[..4] == area && s[5..8] == message && s[9..12] == variant && s[13..] == version
    ensures s[..8] == area + "." + message
  {
  }

  lemma IdentifiersIdentify(s: string)
    requires IsIdentifier(s)
    ensures Identifies(s, s[..4], s[5..8], s[9..12], s[13..])
  {
    PutTogether(s);
    AllLower(s[..4]);
    AllDecimals(s[5..8]);
    AllDecimals(s[9..12]);
    AllDecimals(s[13..]);
  }

  lemma PutTogether(s: string)
    requires |s| == 15 && s[4] == s[8] == s[12] == '.'
    ensures s == s[..4] + "." + s[5..8] + "." + s[9..12] + "." + s[13..]
  {
    assert s[..5] == s[..4] + "." && s[..8] == s[..5] + s[5..8];
    assert s[..9] == s[..8] + "." && s[..12] == s[..9] + s[9..12];
    assert s[..13] == s[..12] + "." && s == s[..13] + s[13..];
  }

  lemma AllLower(s: string)
    requires forall i | 0 <= i < |s| :: 'a' <= s[i] <= 'z'
    ensures Lower(s)
  {
    forall i | 0 <= i < |s| ensures s[i] in "abcdefghijklmnopqrstuvwxyz" {
      LettersAre(s[i]);
    }
  }

  lemma AllDecimals(s: string)
    requires forall i | 0 <= i < |s| :: Digit(s[i])
    ensures Decimals(s)
  {
    forall i | 0 <= i < |s| ensures s[i] in "0123456789" {
      DigitsAre(s[i]);
    }
  }

  lemma IdentifiedIsIdentifier(s: string, area: string, message: string, variant: string, version: string)
    requires Identifies(s, area, message, variant, version)
    ensures IsIdentifier(s) && s[..8] == area + "." + message
  {
    IdentifierParts(s, area, message, variant, version);
    forall i | 0 <= i < 4 ensures 'a' <= s[i] <= 'z' {
      assert s[i] == area[i];
      LettersAre(s[i]);
    }
    forall i | 5 <= i < 15 && i != 8 && i != 12 ensures Digit(s[i]) {
      assert s[i] == if i < 8 then message[i - 5] else if i < 12 then variant[i - 9] else version[i - 13];
      DigitsAre(s[i]);
    }
  }

  /** A text is an identifier exactly where it has the four parts, whole and nothing around them. */
  lemma IdentifiersExactly(s: string)
    ensures IsIdentifier(s) <==>
      exists area, message, variant, version :: Identifies(s, area, message, variant, version)
  {
    if IsIdentifier(s) { IdentifiersIdentify(s); }
    if area, message, variant, version :| Identifies(s, area, message, variant, version) {
      IdentifiedIsIdentifier(s, area, message, variant, version);
    }
  }

  // ── message elements ──

  /** The element of each family. */
  function ElementOf(family: string): string {
    if family == "camt.052" then "BkToCstmrAcctRpt"
    else if family == "camt.053" then "BkToCstmrStmt"
    else if family == "camt.054" then "BkToCstmrDbtCdtNtfctn"
    else ""
  }

  const FAMILIES: set<string> := {"camt.052", "camt.053", "camt.054"}

  /** A family's element, with the version it may end in. */
  predicate Versioned(name: string, base: string) {
    || name == base
    || (|name| == |base| + 3 && name[..|base|] == base && name[|base|] == 'V'
        && name[|base| + 1] in "0123456789" && name[|base| + 2] in "0123456789")
  }

  lemma SuffixIsStripped(name: string, base: string)
    requires |base| > 3 && base[|base| - 3] != 'V'
    ensures StripVersionSuffix(name) == base <==> Versioned(name, base)
  {
    if |name| > 3 {
      DigitsAre(name[|name| - 1]);
      DigitsAre(name[|name| - 2]);
    }
  }

  lemma ElementsAreNamed(family: string)
    requires family in FAMILIES
    ensures |ElementOf(family)| > 3 && ElementOf(family)[|ElementOf(family)| - 3] != 'V'
  {
  }

  /** An element announces a family exactly where it is the family's own, in any version, or is itself an identifier
      of the family. */
  lemma FamiliesExactly(name: string, family: string)
    ensures StatementFamily(name) == Some(family) <==>
      && family in FAMILIES
      && (Versioned(name, ElementOf(family)) || (IsIdentifier(name) && name[..8] == family))
  {
    forall f | f in FAMILIES ensures StripVersionSuffix(name) == ElementOf(f) <==> Versioned(name, ElementOf(f)) {
      ElementsAreNamed(f);
      SuffixIsStripped(name, ElementOf(f));
    }
    if IsIdentifier(name) { IdentifierKeepsItsEnd(name); }
  }

  /** An identifier is no element's name. */
  lemma IdentifierKeepsItsEnd(name: string)
    requires IsIdentifier(name)
    ensures StripVersionSuffix(name) == name && forall f | f in FAMILIES :: name != ElementOf(f)
  {
    assert "BkToCstmrAcctRpt"[0] == 'B' && "BkToCstmrStmt"[0] == 'B' && "BkToCstmrDbtCdtNtfctn"[0] == 'B';
  }

  /** A header names a message exactly where it is an identifier of any business area but the header's own. */
  lemma DefinitionsExactly(text: string, family: string)
    ensures MessageDefinition(text) == Some(family) <==>
      exists area, message, variant, version ::
        Identifies(text, area, message, variant, version) && area != "head" && family == area + "." + message
  {
    if MessageDefinition(text) == Some(family) {
      IdentifiersIdentify(text);
      IdentifierParts(text, text[..4], text[5..8], text[9..12], text[13..]);
      assert text[..5] == text[..4] + ".";
    }
    if area, message, variant, version :|
      Identifies(text, area, message, variant, version) && area != "head" && family == area + "." + message {
      IdentifiedIsIdentifier(text, area, message, variant, version);
      assert text[..5][..4] == area && "head."[..4] == "head";
    }
  }

  /** Of what a Document is bound to, the three families count and no other. */
  lemma BindingsExactly(family: Option<string>)
    ensures KnownFamily(family) == if family.Some? && family.value in FAMILIES then family else None
  {
  }
}
