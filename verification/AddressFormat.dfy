/** The structured-address rule of src/addresses.rs applied to what a party states, and the rows of an MT message. */
module AddressFormat {
  import opened Options
  import opened AddressWalk

  datatype Format = NONE | STRUCTURED | HYBRID | UNSTRUCTURED

  datatype Fault =
    | NoTownNoCountry | LinesNoTown | LinesNoCountry | NoTown | NoCountry
    | TooManyLines(n: nat) | LineTooLong(n: nat)

  const HYBRID_LINES: nat := 2
  const HYBRID_LINE_CHARS: nat := 70

  const OUT_OF_SCOPE: set<string> := {"admi.024", "camt.025", "camt.052", "camt.053", "camt.054", "camt.060"}

  /** The longest line in characters. */
  function Longest(lines: seq<string>): (r: nat)
    ensures forall i | 0 <= i < |lines| :: |lines[i]| <= r
    ensures r == 0 || exists i | 0 <= i < |lines| :: |lines[i]| == r
  {
    if lines == [] then 0
    else
      var rest := Longest(lines[1..]);
      assert forall i | 1 <= i < |lines| :: lines[i] == lines[1..][i - 1];
      if |lines[0]| >= rest then |lines[0]| else rest
  }

  lemma LongestIsTooLong(lines: seq<string>)
    ensures Longest(lines) > 70 <==> LongLine(lines)
  {
  }

  predicate Located(p: Stated) { p.town.Some? && p.country.Some? }

  function FormatOf(p: Stated): Format {
    if p.lines == [] then if p.structured == 0 then NONE else STRUCTURED
    else if Located(p) then HYBRID
    else UNSTRUCTURED
  }

  /** Lines beside a town and a country are a hybrid, lines without both are not structured at all, and without
      a line any populated element makes an address structured. */
  lemma FormatsExactly(p: Stated)
    ensures FormatOf(p) == NONE <==> p.lines == [] && p.structured == 0
    ensures FormatOf(p) == STRUCTURED <==> p.lines == [] && p.structured > 0
    ensures FormatOf(p) == HYBRID <==> p.lines != [] && p.town.Some? && p.country.Some?
    ensures FormatOf(p) == UNSTRUCTURED <==> p.lines != [] && (p.town.None? || p.country.None?)
  {
  }

  predicate NoAddress(p: Stated) { p.lines == [] && p.structured == 0 }

  /** What the rule permits: town and country of their own, and at most two lines of at most 70 characters. */
  predicate Permitted(p: Stated) {
    && Located(p)
    && |p.lines| <= 2
    && forall i | 0 <= i < |p.lines| :: |p.lines[i]| <= 70
  }

  /** A fault where it applies. */
  function If(applies: bool, fault: Fault): seq<Fault> { if applies then [fault] else [] }

  predicate LongLine(lines: seq<string>) { exists i | 0 <= i < |lines| :: |lines[i]| > 70 }

  /** The faults of where an address says it is. */
  function Unlocated(lines: bool, town: bool, country: bool): seq<Fault> {
    If(lines && !town && !country, NoTownNoCountry) + If(lines && !town && country, LinesNoTown)
    + If(lines && town && !country, LinesNoCountry)
    + If(!lines && !town, NoTown) + If(!lines && !country, NoCountry)
  }

  /** Every fault that applies, in the order they are reported. */
  function Faults(p: Stated): seq<Fault> {
    Unlocated(p.lines != [], p.town.Some?, p.country.Some?)
    + (If(|p.lines| > 2, TooManyLines(|p.lines|)) + If(LongLine(p.lines), LineTooLong(Longest(p.lines))))
  }

  lemma UnlocatedOrNot(lines: bool, town: bool, country: bool)
    ensures Unlocated(lines, town, country) == [] <==> town && country
  {
  }

  lemma NoFaultIsPermitted(p: Stated)
    ensures Faults(p) == [] <==> Permitted(p)
  {
    UnlocatedOrNot(p.lines != [], p.town.Some?, p.country.Some?);
  }

  /** Why the rule would refuse the party, each fault exactly where it applies: nothing exactly where it has no address
      or one the rule permits. */
  method Finding(p: Stated) returns (faults: seq<Fault>)
    ensures faults == [] <==> NoAddress(p) || Permitted(p)
    ensures faults == if NoAddress(p) then [] else Faults(p)
  {
    NoFaultIsPermitted(p);
    if FormatOf(p) == NONE { return []; }
    faults := Misplaced(p);
    LongestIsTooLong(p.lines);
    if |p.lines| > HYBRID_LINES { faults := faults + [TooManyLines(|p.lines|)]; }
    if Longest(p.lines) > HYBRID_LINE_CHARS { faults := faults + [LineTooLong(Longest(p.lines))]; }
  }

  /** The first faults pushed: what the address does not say of where it is. */
  method Misplaced(p: Stated) returns (faults: seq<Fault>)
    requires FormatOf(p) != NONE
    ensures faults == Unlocated(p.lines != [], p.town.Some?, p.country.Some?)
  {
    if FormatOf(p) == UNSTRUCTURED {
      return [
        if p.town.None? && p.country.None? then NoTownNoCountry
        else if p.town.None? then LinesNoTown
        else LinesNoCountry
      ];
    }
    faults := [];
    if p.town.None? { faults := faults + [NoTown]; }
    if p.country.None? { faults := faults + [NoCountry]; }
  }

  /** A family the mandate does not reach has parties and no findings. */
  method VerdictOf(family: Option<string>, p: Stated) returns (finding: Option<seq<Fault>>)
    ensures finding.Some? ==> finding.value != []
    ensures finding.None? <==>
      || (family.Some? && family.value in
            {"admi.024", "camt.025", "camt.052", "camt.053", "camt.054", "camt.060"})
      || NoAddress(p)
      || Permitted(p)
  {
    var faults := Finding(p);
    if (family.Some? && family.value in OUT_OF_SCOPE) || faults == [] { return None; }
    return Some(faults);
  }
}
