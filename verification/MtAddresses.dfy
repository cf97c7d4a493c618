/** The address audit over SWIFT MT (src/addresses.rs): party fields, and the paths that tell two of one
    message apart. */
module MtAddresses {
  import opened Options
  import opened AddressWalk
  import Decimal

  datatype Field = Field(tag: string, value: string)

  /** Which party a field is, by its number, its option letter, and whether the message is a direct debit. */
  function MtRole(number: Option<string>, tag: string): Option<(string, Kind)> {
    if |tag| < 2 then None
    else
      var debit := IsDebit(number);
      var two := tag[..2];
      if two == "50" then
        if |tag| > 2 && (tag[2] == 'C' || tag[2] == 'L') then Some(("InstructingParty", PARTY))
        else if debit then Some(("Creditor", PARTY))
        else Some(("OrderingCustomer", PARTY))
      else if two == "51" then Some(("SendingInstitution", AGENT))
      else if two == "52" then if debit then Some(("CreditorBank", AGENT)) else Some(("OrderingInstitution", AGENT))
      else if two == "53" then Some(("SendersCorrespondent", AGENT))
      else if two == "54" then Some(("ReceiversCorrespondent", AGENT))
      else if two == "55" then Some(("ThirdReimbursementInstitution", AGENT))
      else if two == "56" then Some(("IntermediaryInstitution", AGENT))
      else if two == "57" then if debit then Some(("DebtorBank", AGENT)) else Some(("AccountWithInstitution", AGENT))
      else if two == "58" then Some(("BeneficiaryInstitution", AGENT))
      else if two == "59" then if debit then Some(("Debtor", PARTY)) else Some(("Beneficiary", PARTY))
      else None
  }

  predicate IsDebit(number: Option<string>) { number == Some("104") || number == Some("107") }

  predicate NamesInstructor(tag: string) { |tag| > 2 && tag[..2] == "50" && (tag[2] == 'C' || tag[2] == 'L') }

  /** The role of a field in a credit transfer, and in a direct debit. */
  const ENDS: map<string, (string, string)> := map[
    "50" := ("OrderingCustomer", "Creditor"),
    "51" := ("SendingInstitution", "SendingInstitution"),
    "52" := ("OrderingInstitution", "CreditorBank"),
    "53" := ("SendersCorrespondent", "SendersCorrespondent"),
    "54" := ("ReceiversCorrespondent", "ReceiversCorrespondent"),
    "55" := ("ThirdReimbursementInstitution", "ThirdReimbursementInstitution"),
    "56" := ("IntermediaryInstitution", "IntermediaryInstitution"),
    "57" := ("AccountWithInstitution", "DebtorBank"),
    "58" := ("BeneficiaryInstitution", "BeneficiaryInstitution"),
    "59" := ("Beneficiary", "Debtor")
  ]

  /** Which tags are parties does not depend on the message, and neither does their kind; a direct debit
      swaps the ends of the payment, and no instructing party. */
  lemma DebitsRunTheOtherWay(credit: Option<string>, debit: Option<string>, tag: string)
    requires credit !in {Some("104"), Some("107")} && debit in {Some("104"), Some("107")} && |tag| >= 2
    ensures MtRole(credit, tag).Some? == MtRole(debit, tag).Some? == (tag[..2] in ENDS)
    ensures MtRole(credit, tag).Some? ==>
      var (a, b) := (MtRole(credit, tag).value, MtRole(debit, tag).value);
      && a.1 == b.1 && (a.1 == PARTY <==> tag[..2] in {"50", "59"})
      && (a.0, b.0) == (if NamesInstructor(tag) then ("InstructingParty", "InstructingParty") else ENDS[tag[..2]])
      && (a.0 != b.0 <==> tag[..2] in {"50", "52", "57", "59"} && !NamesInstructor(tag))
  {
  }

  // ── fields ──

  predicate IsDigit(c: char) { '0' <= c <= '9' }

  /** What the tokenizer yields as a tag. */
  predicate IsTag(tag: string) {
    2 <= |tag| <= 3 && IsDigit(tag[0]) && IsDigit(tag[1]) && (|tag| == 3 ==> 'A' <= tag[2] <= 'Z')
  }

  /** Where a line starts a field, the field's tag and the value on the line. */
  function SplitField(line: string): Option<(string, string)> {
    if |line| < 4 || line[0] != ':' || !IsDigit(line[1]) || !IsDigit(line[2]) then None
    else if line[3] == ':' then Some((line[1..3], line[4..]))
    else if |line| >= 5 && 'A' <= line[3] <= 'Z' && line[4] == ':' then Some((line[1..4], line[5..]))
    else None
  }

  /** A line starts a field exactly where it is a tag between colons and a value. */
  lemma FieldLines(line: string, tag: string, value: string)
    ensures SplitField(line) == Some((tag, value)) <==> IsTag(tag) && line == ":" + tag + ":" + value
  {
    if IsTag(tag) && line == ":" + tag + ":" + value {
      assert line[1..|tag| + 1] == tag && line[|tag| + 2..] == value;
    }
    if SplitField(line) == Some((tag, value)) {
      assert line == line[..1] + line[1..|tag| + 1] + line[|tag| + 1..|tag| + 2] + line[|tag| + 2..];
    }
  }

  function Decimals(n: nat): string
  {
    if n < 10 then [('0' as int + n) as char] else Decimals(n / 10) + [('0' as int + n % 10) as char]
  }

  lemma {:induction false} DecimalsSpell(n: nat)
    ensures Decimal.Digits(Decimals(n)) && Decimal.Number(Decimals(n)) == n
  {
    if n < 10 {
      assert Decimals(n)[..0] == "";
    } else {
      DecimalsSpell(n / 10);
      Decimal.NumberAppend(Decimals(n / 10), ('0' as int + n % 10) as char);
    }
  }

  /** Which tags are parties of a message. */
  type Roles = string -> Option<(string, Kind)>

  function RolesOf(number: Option<string>): Roles { (tag: string) => MtRole(number, tag) }

  /** How many of the first `k` fields are party fields with this tag. */
  function Occurrences(role: Roles, fields: seq<Field>, k: nat, tag: string): nat
    requires k <= |fields|
  {
    if k == 0 then 0
    else
      Occurrences(role, fields, k - 1, tag)
      + if fields[k - 1].tag == tag && role(tag).Some? then 1 else 0
  }

  function PathFor(tag: string, occurrence: nat): string {
    if occurrence == 1 then tag else tag + "#" + Decimals(occurrence)
  }

  datatype MtRow = MtRow(partyPath: string, role: string, kind: Kind, value: string)

  /** The rows of the first `k` fields: each party field in the order stated, named with its occurrence. */
  function RowsTo(role: Roles, fields: seq<Field>, k: nat): seq<MtRow>
    requires k <= |fields|
  {
    if k == 0 then []
    else
      var field := fields[k - 1];
      RowsTo(role, fields, k - 1) +
      match role(field.tag)
      case None => []
      case Some((name, kind)) =>
        [MtRow(PathFor(field.tag, Occurrences(role, fields, k, field.tag)), name, kind, field.value)]
  }

  predicate Listed(seen: seq<(string, nat)>, tag: string) { exists i | 0 <= i < |seen| :: seen[i].0 == tag }

  /** `seen` lists each tag met so far once, with how often it was met. */
  ghost predicate Tracks(role: Roles, fields: seq<Field>, k: nat, seen: seq<(string, nat)>)
    requires k <= |fields|
  {
    && (forall i | 0 <= i < |seen| :: seen[i].1 == Occurrences(role, fields, k, seen[i].0))
    && (forall i, j | 0 <= i < j < |seen| :: seen[i].0 != seen[j].0)
    && (forall tag | Occurrences(role, fields, k, tag) > 0 :: Listed(seen, tag))
  }

  method Load(number: Option<string>, fields: seq<Field>) returns (queue: seq<MtRow>)
    ensures queue == RowsTo(RolesOf(number), fields, |fields|)
  {
    queue := LoadBy(RolesOf(number), fields);
  }

  /** Repeated tags are told apart by a list of the tags met so far. */
  method LoadBy(role: Roles, fields: seq<Field>) returns (queue: seq<MtRow>)
    ensures queue == RowsTo(role, fields, |fields|)
  {
    queue := [];
    var seen: seq<(string, nat)> := [];
    for k := 0 to |fields|
      invariant queue == RowsTo(role, fields, k) && Tracks(role, fields, k, seen)
    {
      var field := fields[k];
      var found := role(field.tag);
      if found.None? {
        NoPartyField(role, fields, k, seen);
        continue;
      }
      var at := IndexOf(seen, field.tag);
      ghost var before := seen;
      var count := 1;
      if at < |seen| {
        count := seen[at].1 + 1;
        seen := seen[at := (field.tag, count)];
      } else {
        seen := seen + [(field.tag, 1)];
      }
      SeenAgain(role, fields, k, before, seen, at);
      queue := queue + [MtRow(PathFor(field.tag, count), found.value.0, found.value.1, field.value)];
    }
  }

  lemma NoPartyField(role: Roles, fields: seq<Field>, k: nat, seen: seq<(string, nat)>)
    requires k < |fields| && role(fields[k].tag).None? && Tracks(role, fields, k, seen)
    ensures Tracks(role, fields, k + 1, seen) && RowsTo(role, fields, k + 1) == RowsTo(role, fields, k)
  {
    assert forall tag :: Occurrences(role, fields, k + 1, tag) == Occurrences(role, fields, k, tag);
  }

  function IndexOf(seen: seq<(string, nat)>, tag: string): (r: nat)
    ensures r <= |seen| && (r < |seen| ==> seen[r].0 == tag)
    ensures forall i | 0 <= i < r :: seen[i].0 != tag
  {
    if seen == [] then 0
    else if seen[0].0 == tag then 0
    else
      var r := IndexOf(seen[1..], tag) + 1;
      assert forall i | 1 <= i < r :: seen[i].0 == seen[1..][i - 1].0;
      r
  }

  lemma SeenAgain(role: Roles, fields: seq<Field>, k: nat, before: seq<(string, nat)>,
      after: seq<(string, nat)>, at: nat)
    requires k < |fields| && role(fields[k].tag).Some? && at == IndexOf(before, fields[k].tag)
    requires Tracks(role, fields, k, before)
    requires after ==
      if at < |before| then before[at := (fields[k].tag, before[at].1 + 1)] else before + [(fields[k].tag, 1)]
    ensures Occurrences(role, fields, k + 1, fields[k].tag) == after[at].1
    ensures Tracks(role, fields, k + 1, after)
  {
    forall tag | Occurrences(role, fields, k + 1, tag) > 0 ensures Listed(after, tag) {
      if tag == fields[k].tag {
        assert after[at].0 == tag;
      } else {
        assert Occurrences(role, fields, k, tag) > 0;
        var i :| 0 <= i < |before| && before[i].0 == tag;
        assert after[i].0 == tag;
      }
    }
  }

  // ── the paths tell rows apart ──

  lemma PathIsInjective(a: string, m: nat, b: string, n: nat)
    requires '#' !in a && '#' !in b && PathFor(a, m) == PathFor(b, n)
    ensures a == b && m == n
  {
    DecimalsSpell(m);
    DecimalsSpell(n);
    var p := PathFor(a, m);
    MarkStands(a, m);
    MarkStands(b, n);
    if m != 1 { assert p[|a| + 1..] == Decimals(m); }
    if n != 1 { assert p[|b| + 1..] == Decimals(n); }
    assert a == p[..|a|] && b == p[..|b|];
  }

  /** The first mark in a path is the one after the tag, and a first occurrence has none. */
  lemma MarkStands(tag: string, n: nat)
    requires '#' !in tag
    ensures var p := PathFor(tag, n);
      && (forall j | 0 <= j < |tag| :: p[j] != '#')
      && (if n == 1 then |p| == |tag| else |p| > |tag| && p[|tag|] == '#')
  {
    var p := PathFor(tag, n);
    forall j | 0 <= j < |tag| ensures p[j] != '#' {
      assert p[j] == tag[j] && tag[j] in tag;
    }
  }

  /** The field a row is of, and which occurrence of its tag. */
  lemma {:induction false} RowIsOfField(role: Roles, fields: seq<Field>, k: nat, r: nat) returns (i: nat)
    requires k <= |fields| && r < |RowsTo(role, fields, k)|
    ensures i < k && role(fields[i].tag).Some?
    ensures |RowsTo(role, fields, i)| == r
    ensures RowsTo(role, fields, k)[r].partyPath
      == PathFor(fields[i].tag, Occurrences(role, fields, i + 1, fields[i].tag))
  {
    if r < |RowsTo(role, fields, k - 1)| {
      i := RowIsOfField(role, fields, k - 1, r);
    } else {
      i := k - 1;
    }
  }

  lemma {:induction false} OccurrencesGrow(role: Roles, fields: seq<Field>, i: nat, j: nat, tag: string)
    requires i <= j <= |fields|
    ensures Occurrences(role, fields, i, tag) <= Occurrences(role, fields, j, tag)
  {
    if i < j { OccurrencesGrow(role, fields, i, j - 1, tag); }
  }

  lemma {:induction false} RowsGrow(role: Roles, fields: seq<Field>, i: nat, j: nat)
    requires i <= j <= |fields|
    ensures |RowsTo(role, fields, i)| <= |RowsTo(role, fields, j)|
  {
    if i < j { RowsGrow(role, fields, i, j - 1); }
  }

  lemma TagHasNoMark(tag: string)
    requires IsTag(tag)
    ensures '#' !in tag
  {
  }

  function PathOf(role: Roles, fields: seq<Field>, i: nat): string
    requires i < |fields|
  {
    PathFor(fields[i].tag, Occurrences(role, fields, i + 1, fields[i].tag))
  }

  lemma FieldsHaveDistinctPaths(role: Roles, fields: seq<Field>, i: nat, j: nat)
    requires i < j < |fields| && IsTag(fields[i].tag) && IsTag(fields[j].tag) && role(fields[j].tag).Some?
    ensures PathOf(role, fields, i) != PathOf(role, fields, j)
  {
    TagHasNoMark(fields[i].tag);
    TagHasNoMark(fields[j].tag);
    if PathOf(role, fields, i) == PathOf(role, fields, j) {
      PathIsInjective(fields[i].tag, Occurrences(role, fields, i + 1, fields[i].tag),
        fields[j].tag, Occurrences(role, fields, j + 1, fields[j].tag));
      OccurrencesGrow(role, fields, i + 1, j, fields[i].tag);
      assert false;
    }
  }

  /** No two rows of one message have the same path, however often its fields repeat. */
  lemma PathsAreDistinct(role: Roles, fields: seq<Field>, r: nat, s: nat)
    requires forall i | 0 <= i < |fields| :: IsTag(fields[i].tag)
    requires r < s < |RowsTo(role, fields, |fields|)|
    ensures RowsTo(role, fields, |fields|)[r].partyPath != RowsTo(role, fields, |fields|)[s].partyPath
  {
    var i := RowIsOfField(role, fields, |fields|, r);
    var j := RowIsOfField(role, fields, |fields|, s);
    if j <= i { RowsGrow(role, fields, j, i); }
    FieldsHaveDistinctPaths(role, fields, i, j);
  }
}
