/** Which path is which column of a cancellation row, and which files are cancellation requests. */
module CancellationLeaves {
  import opened Options
  import opened Xml
  import opened TreeMachine
  import opened Cancellation
  import opened CancellationScopes
  import opened CancellationInheritance
  import opened CancellationReasons

  // ── the paths of the levels' leaves ──

  function ReasonPaths(leaf: ReasonLeaf, block: string): seq<seq<string>> {
    match leaf
    case Code => [[block, "CxlRsnInf", "Rsn", "Cd"], [block, "CxlRsnInf", "Rsn", "Prtry"]]
    case Info => [[block, "CxlRsnInf", "AddtlInf"]]
    case Originator => [[block, "CxlRsnInf", "Orgtr", "Nm"]]
  }

  function GroupPaths(leaf: GroupLeaf): seq<seq<string>> {
    match leaf
    case GroupId => [["OrgnlGrpInfAndCxl", "GrpCxlId"]]
    case GroupCancellation => [["OrgnlGrpInfAndCxl", "GrpCxl"]]
    case GroupNumber => [["OrgnlGrpInfAndCxl", "NbOfTxs"]]
    case GroupMessage => [["OrgnlGrpInfAndCxl", "OrgnlMsgId"]]
    case GroupMessageName => [["OrgnlGrpInfAndCxl", "OrgnlMsgNmId"]]
    case GroupReason(reason) => ReasonPaths(reason, "OrgnlGrpInfAndCxl")
  }

  function PaymentPaths(leaf: PaymentLeaf): seq<seq<string>> {
    match leaf
    case PaymentId => [["OrgnlPmtInfAndCxl", "OrgnlPmtInfId"]]
    case PaymentCancellation => [["OrgnlPmtInfAndCxl", "PmtInfCxlId"]]
    case PaymentMessage => [["OrgnlPmtInfAndCxl", "OrgnlGrpInf", "OrgnlMsgId"]]
    case PaymentMessageName => [["OrgnlPmtInfAndCxl", "OrgnlGrpInf", "OrgnlMsgNmId"]]
    case PaymentReason(reason) => ReasonPaths(reason, "OrgnlPmtInfAndCxl")
  }

  /** The columns of the assignment. */
  datatype Column = AssignmentId | AssignmentCreated | Assigner | Assignee

  /** The paths whose text a column takes, whatever it holds. */
  function NamingPaths(column: Column): seq<seq<string>> {
    match column
    case AssignmentId => [["Assgnmt", "Id"]]
    case AssignmentCreated => [["Assgnmt", "CreDtTm"]]
    case Assigner => SidePaths("Assgnr")
    case Assignee => SidePaths("Assgne")
  }

  function SidePaths(side: string): seq<seq<string>> {
    [[side, "Agt", "FinInstnId", "BICFI"], [side, "Agt", "FinInstnId", "BIC"], [side, "Pty", "Nm"], ["Assgnmt", side]]
  }

  /** The paths whose text a column takes where it holds none. */
  function FillingPaths(column: Column): seq<seq<string>> {
    match column
    case AssignmentId => []
    case AssignmentCreated => []
    case Assigner => SideIdPaths("Assgnr")
    case Assignee => SideIdPaths("Assgne")
  }

  function SideIdPaths(side: string): seq<seq<string>> {
    [[side, "Agt", "FinInstnId", "ClrSysMmbId", "MmbId"], [side, "Pty", "Id", "OrgId", "AnyBIC"],
     [side, "Pty", "Id", "OrgId", "BICOrBEI"]]
  }

  /** A path ends like one of some others. */
  predicate EndsInOne(path: seq<string>, ends: seq<seq<string>>) {
    exists k | 0 <= k < |ends| :: EndsWith(path, ends[k])
  }

  // ── no path is two leaves ──

  /** The k-th name of a path from its end. */
  function FromEnd(path: seq<string>, k: nat): string { if k < |path| then path[|path| - 1 - k] else "" }

  lemma EndsOfTwo(path: seq<string>, a: string, b: string)
    ensures EndsWith(path, [a, b]) <==> |path| >= 2 && FromEnd(path, 1) == a && FromEnd(path, 0) == b
  {
    if |path| >= 2 { assert path[|path| - 2..] == [FromEnd(path, 1), FromEnd(path, 0)]; }
  }

  lemma EndsOfThree(path: seq<string>, a: string, b: string, c: string)
    ensures EndsWith(path, [a, b, c])
      <==> |path| >= 3 && FromEnd(path, 2) == a && FromEnd(path, 1) == b && FromEnd(path, 0) == c
  {
    if |path| >= 3 { assert path[|path| - 3..] == [FromEnd(path, 2), FromEnd(path, 1), FromEnd(path, 0)]; }
  }

  lemma EndsOfFour(path: seq<string>, a: string, b: string, c: string, d: string)
    ensures EndsWith(path, [a, b, c, d]) <==>
      && |path| >= 4 && FromEnd(path, 3) == a && FromEnd(path, 2) == b && FromEnd(path, 1) == c
      && FromEnd(path, 0) == d
  {
    if |path| >= 4 {
      assert path[|path| - 4..] == [FromEnd(path, 3), FromEnd(path, 2), FromEnd(path, 1), FromEnd(path, 0)];
    }
  }

  lemma OneEnd(path: seq<string>, end: seq<string>)
    ensures EndsInOne(path, [end]) <==> EndsWith(path, end)
  {
    assert [end][0] == end;
  }

  lemma MoreEnds(path: seq<string>, end: seq<string>, others: seq<seq<string>>)
    ensures EndsInOne(path, [end] + others) <==> EndsWith(path, end) || EndsInOne(path, others)
  {
    var all := [end] + others;
    assert all[0] == end && forall k | 0 <= k < |others| :: all[k + 1] == others[k];
  }

  lemma TwoEnds(path: seq<string>, a: seq<string>, b: seq<string>)
    ensures EndsInOne(path, [a, b]) <==> EndsWith(path, a) || EndsWith(path, b)
  {
    assert [a, b] == [a] + [b];
    MoreEnds(path, a, [b]);
    OneEnd(path, b);
  }

  lemma ReasonLeavesExactly(path: seq<string>, block: string, leaf: ReasonLeaf)
    ensures ReasonLeafAt(path, block) == Some(leaf) <==> EndsInOne(path, ReasonPaths(leaf, block))
  {
    TwoEnds(path, [block, "CxlRsnInf", "Rsn", "Cd"], [block, "CxlRsnInf", "Rsn", "Prtry"]);
    OneEnd(path, [block, "CxlRsnInf", "AddtlInf"]);
    OneEnd(path, [block, "CxlRsnInf", "Orgtr", "Nm"]);
    EndsOfFour(path, block, "CxlRsnInf", "Rsn", "Cd");
    EndsOfFour(path, block, "CxlRsnInf", "Rsn", "Prtry");
    EndsOfThree(path, block, "CxlRsnInf", "AddtlInf");
    EndsOfFour(path, block, "CxlRsnInf", "Orgtr", "Nm");
  }

  /** Where the block around a reason's leaf stands. */
  predicate ReasonOfBlock(path: seq<string>, block: string) {
    || (FromEnd(path, 0) in {"Cd", "Prtry"} && FromEnd(path, 3) == block)
    || (FromEnd(path, 0) == "AddtlInf" && FromEnd(path, 2) == block)
    || (FromEnd(path, 0) == "Nm" && FromEnd(path, 1) == "Orgtr" && FromEnd(path, 3) == block)
  }

  lemma ReasonEndsInBlock(path: seq<string>, block: string)
    ensures ReasonLeafAt(path, block).Some? ==> ReasonOfBlock(path, block)
  {
    EndsOfFour(path, block, "CxlRsnInf", "Rsn", "Cd");
    EndsOfFour(path, block, "CxlRsnInf", "Rsn", "Prtry");
    EndsOfThree(path, block, "CxlRsnInf", "AddtlInf");
    EndsOfFour(path, block, "CxlRsnInf", "Orgtr", "Nm");
  }

  lemma GroupNames(path: seq<string>)
    ensures GroupLeafAt(path) == Some(GroupId) <==> EndsWith(path, ["OrgnlGrpInfAndCxl", "GrpCxlId"])
    ensures GroupLeafAt(path) == Some(GroupCancellation) <==> EndsWith(path, ["OrgnlGrpInfAndCxl", "GrpCxl"])
    ensures GroupLeafAt(path) == Some(GroupNumber) <==> EndsWith(path, ["OrgnlGrpInfAndCxl", "NbOfTxs"])
    ensures GroupLeafAt(path) == Some(GroupMessage) <==> EndsWith(path, ["OrgnlGrpInfAndCxl", "OrgnlMsgId"])
    ensures GroupLeafAt(path) == Some(GroupMessageName) <==> EndsWith(path, ["OrgnlGrpInfAndCxl", "OrgnlMsgNmId"])
  {
    EndsOfTwo(path, "OrgnlGrpInfAndCxl", "GrpCxlId");
    EndsOfTwo(path, "OrgnlGrpInfAndCxl", "GrpCxl");
    EndsOfTwo(path, "OrgnlGrpInfAndCxl", "NbOfTxs");
    EndsOfTwo(path, "OrgnlGrpInfAndCxl", "OrgnlMsgId");
    EndsOfTwo(path, "OrgnlGrpInfAndCxl", "OrgnlMsgNmId");
  }

  lemma GroupReasonNames(path: seq<string>, leaf: ReasonLeaf)
    ensures GroupLeafAt(path) == Some(GroupReason(leaf)) <==> ReasonLeafAt(path, "OrgnlGrpInfAndCxl") == Some(leaf)
  {
    ReasonEndsInBlock(path, "OrgnlGrpInfAndCxl");
    EndsOfTwo(path, "OrgnlGrpInfAndCxl", "GrpCxlId");
    EndsOfTwo(path, "OrgnlGrpInfAndCxl", "GrpCxl");
    EndsOfTwo(path, "OrgnlGrpInfAndCxl", "NbOfTxs");
    EndsOfTwo(path, "OrgnlGrpInfAndCxl", "OrgnlMsgId");
    EndsOfTwo(path, "OrgnlGrpInfAndCxl", "OrgnlMsgNmId");
  }

  lemma GroupLeavesExactly(path: seq<string>, leaf: GroupLeaf)
    ensures GroupLeafAt(path) == Some(leaf) <==> EndsInOne(path, GroupPaths(leaf))
  {
    if leaf.GroupReason? {
      GroupReasonNames(path, leaf.leaf);
      ReasonLeavesExactly(path, "OrgnlGrpInfAndCxl", leaf.leaf);
    } else {
      OneEnd(path, GroupPaths(leaf)[0]);
      GroupNames(path);
    }
  }

  lemma PaymentNames(path: seq<string>)
    ensures PaymentLeafAt(path) == Some(PaymentId) <==> EndsWith(path, ["OrgnlPmtInfAndCxl", "OrgnlPmtInfId"])
    ensures PaymentLeafAt(path) == Some(PaymentCancellation) <==> EndsWith(path, ["OrgnlPmtInfAndCxl", "PmtInfCxlId"])
    ensures PaymentLeafAt(path) == Some(PaymentMessage)
      <==> EndsWith(path, ["OrgnlPmtInfAndCxl", "OrgnlGrpInf", "OrgnlMsgId"])
    ensures PaymentLeafAt(path) == Some(PaymentMessageName)
      <==> EndsWith(path, ["OrgnlPmtInfAndCxl", "OrgnlGrpInf", "OrgnlMsgNmId"])
  {
    EndsOfTwo(path, "OrgnlPmtInfAndCxl", "OrgnlPmtInfId");
    EndsOfTwo(path, "OrgnlPmtInfAndCxl", "PmtInfCxlId");
    EndsOfThree(path, "OrgnlPmtInfAndCxl", "OrgnlGrpInf", "OrgnlMsgId");
    EndsOfThree(path, "OrgnlPmtInfAndCxl", "OrgnlGrpInf", "OrgnlMsgNmId");
  }

  lemma PaymentReasonNames(path: seq<string>, leaf: ReasonLeaf)
    ensures PaymentLeafAt(path) == Some(PaymentReason(leaf)) <==> ReasonLeafAt(path, "OrgnlPmtInfAndCxl") == Some(leaf)
  {
    ReasonEndsInBlock(path, "OrgnlPmtInfAndCxl");
    EndsOfTwo(path, "OrgnlPmtInfAndCxl", "OrgnlPmtInfId");
    EndsOfTwo(path, "OrgnlPmtInfAndCxl", "PmtInfCxlId");
    EndsOfThree(path, "OrgnlPmtInfAndCxl", "OrgnlGrpInf", "OrgnlMsgId");
    EndsOfThree(path, "OrgnlPmtInfAndCxl", "OrgnlGrpInf", "OrgnlMsgNmId");
  }

  lemma PaymentLeavesExactly(path: seq<string>, leaf: PaymentLeaf)
    ensures PaymentLeafAt(path) == Some(leaf) <==> EndsInOne(path, PaymentPaths(leaf))
  {
    if leaf.PaymentReason? {
      PaymentReasonNames(path, leaf.leaf);
      ReasonLeavesExactly(path, "OrgnlPmtInfAndCxl", leaf.leaf);
    } else {
      OneEnd(path, PaymentPaths(leaf)[0]);
      PaymentNames(path);
    }
  }

  // ── the assignment ──

  lemma EndsOfFive(path: seq<string>, a: string, b: string, c: string, d: string, e: string)
    ensures EndsWith(path, [a, b, c, d, e]) <==>
      && |path| >= 5 && FromEnd(path, 4) == a && FromEnd(path, 3) == b && FromEnd(path, 2) == c
      && FromEnd(path, 1) == d && FromEnd(path, 0) == e
  {
    if |path| >= 5 {
      assert path[|path| - 5..]
        == [FromEnd(path, 4), FromEnd(path, 3), FromEnd(path, 2), FromEnd(path, 1), FromEnd(path, 0)];
    }
  }

  lemma SideNamed(path: seq<string>, side: string)
    ensures EndsInOne(path, SidePaths(side)) <==> NamesSide(path, side) || EndsWith(path, ["Assgnmt", side])
    ensures NamesSide(path, side) ==>
      || (FromEnd(path, 3) == side && FromEnd(path, 0) in {"BICFI", "BIC"})
      || (FromEnd(path, 2) == side && FromEnd(path, 1) == "Pty" && FromEnd(path, 0) == "Nm")
  {
    var a, b := [side, "Agt", "FinInstnId", "BICFI"], [side, "Agt", "FinInstnId", "BIC"];
    var c, d := [side, "Pty", "Nm"], ["Assgnmt", side];
    assert SidePaths(side) == [a] + ([b] + [c, d]);
    MoreEnds(path, a, [b] + [c, d]);
    MoreEnds(path, b, [c, d]);
    TwoEnds(path, c, d);
    EndsOfFour(path, side, "Agt", "FinInstnId", "BICFI");
    EndsOfFour(path, side, "Agt", "FinInstnId", "BIC");
    EndsOfThree(path, side, "Pty", "Nm");
  }

  lemma SideFilled(path: seq<string>, side: string)
    ensures EndsInOne(path, SideIdPaths(side)) <==> FillsSide(path, side)
    ensures FillsSide(path, side) ==>
      FromEnd(path, 4) == side && FromEnd(path, 0) in {"MmbId", "AnyBIC", "BICOrBEI"}
  {
    var a, b := [side, "Agt", "FinInstnId", "ClrSysMmbId", "MmbId"], [side, "Pty", "Id", "OrgId", "AnyBIC"];
    var c := [side, "Pty", "Id", "OrgId", "BICOrBEI"];
    assert SideIdPaths(side) == [a] + [b, c];
    MoreEnds(path, a, [b, c]);
    TwoEnds(path, b, c);
    EndsOfFive(path, side, "Agt", "FinInstnId", "ClrSysMmbId", "MmbId");
    EndsOfFive(path, side, "Pty", "Id", "OrgId", "AnyBIC");
    EndsOfFive(path, side, "Pty", "Id", "OrgId", "BICOrBEI");
  }

  function ColumnOf(a: Assignment, column: Column): Option<string> {
    match column
    case AssignmentId => a.id
    case AssignmentCreated => a.created
    case Assigner => a.assigner
    case Assignee => a.assignee
  }

  /** One column has been given a value, and the others are as they were. */
  ghost predicate Gives(a: Assignment, column: Column, value: Option<string>, after: Option<Assignment>) {
    && after.Some? && ColumnOf(after.value, column) == value
    && forall other: Column :: other != column ==> ColumnOf(after.value, other) == ColumnOf(a, other)
  }

  lemma AssignmentEnds(path: seq<string>)
    ensures EndsInOne(path, NamingPaths(AssignmentId)) <==> EndsWith(path, ["Assgnmt", "Id"])
    ensures EndsInOne(path, NamingPaths(AssignmentCreated)) <==> EndsWith(path, ["Assgnmt", "CreDtTm"])
    ensures EndsWith(path, ["Assgnmt", "Id"]) ==> FromEnd(path, 1) == "Assgnmt" && FromEnd(path, 0) == "Id"
    ensures EndsWith(path, ["Assgnmt", "CreDtTm"]) ==> FromEnd(path, 1) == "Assgnmt" && FromEnd(path, 0) == "CreDtTm"
    ensures EndsWith(path, ["Assgnmt", "Assgnr"]) ==> FromEnd(path, 1) == "Assgnmt" && FromEnd(path, 0) == "Assgnr"
    ensures EndsWith(path, ["Assgnmt", "Assgne"]) ==> FromEnd(path, 1) == "Assgnmt" && FromEnd(path, 0) == "Assgne"
  {
    OneEnd(path, ["Assgnmt", "Id"]);
    OneEnd(path, ["Assgnmt", "CreDtTm"]);
    EndsOfTwo(path, "Assgnmt", "Id");
    EndsOfTwo(path, "Assgnmt", "CreDtTm");
    EndsOfTwo(path, "Assgnmt", "Assgnr");
    EndsOfTwo(path, "Assgnmt", "Assgne");
  }

  predicate IsColumns(path: seq<string>, column: Column) {
    EndsInOne(path, NamingPaths(column)) || EndsInOne(path, FillingPaths(column))
  }

  lemma AssignmentIsNamed(a: Assignment, path: seq<string>, text: string)
    ensures EndsWith(path, ["Assgnmt", "Id"]) ==> AssignmentAfter(a, path, text) == Some(a.(id := Some(text)))
    ensures EndsWith(path, ["Assgnmt", "CreDtTm"]) ==>
      AssignmentAfter(a, path, text) == Some(a.(created := Some(text)))
  {
    AssignmentEnds(path);
  }

  lemma SidesAreNamed(a: Assignment, path: seq<string>, text: string)
    ensures EndsInOne(path, SidePaths("Assgnr")) ==>
      AssignmentAfter(a, path, text) == Some(a.(assigner := Some(text)))
    ensures EndsInOne(path, SidePaths("Assgne")) ==>
      AssignmentAfter(a, path, text) == Some(a.(assignee := Some(text)))
  {
    AssignmentEnds(path);
    SideNamed(path, "Assgnr");
    SideNamed(path, "Assgne");
    SideFilled(path, "Assgnr");
    SideFilled(path, "Assgne");
  }

  lemma SidesAreFilled(a: Assignment, path: seq<string>, text: string)
    ensures EndsInOne(path, SideIdPaths("Assgnr")) ==>
      AssignmentAfter(a, path, text) == Some(a.(assigner := OrElse(a.assigner, Some(text))))
    ensures EndsInOne(path, SideIdPaths("Assgne")) ==>
      AssignmentAfter(a, path, text) == Some(a.(assignee := OrElse(a.assignee, Some(text))))
  {
    AssignmentEnds(path);
    SideNamed(path, "Assgnr");
    SideNamed(path, "Assgne");
    SideFilled(path, "Assgnr");
    SideFilled(path, "Assgne");
  }

  /** A text at one of a column's naming paths is the column's new value, and one at a filling path its value where it
      had none. */
  lemma AssignmentTakes(a: Assignment, path: seq<string>, text: string, column: Column)
    ensures EndsInOne(path, NamingPaths(column)) ==>
      Gives(a, column, Some(text), AssignmentAfter(a, path, text))
    ensures EndsInOne(path, FillingPaths(column)) ==>
      Gives(a, column, OrElse(ColumnOf(a, column), Some(text)), AssignmentAfter(a, path, text))
  {
    AssignmentEnds(path);
    AssignmentIsNamed(a, path, text);
    SidesAreNamed(a, path, text);
    SidesAreFilled(a, path, text);
  }

  /** A text at neither of any column is no text of the assignment. */
  lemma AssignmentExactly(a: Assignment, path: seq<string>, text: string)
    ensures AssignmentAfter(a, path, text).Some? <==> exists c: Column :: IsColumns(path, c)
  {
    if c: Column :| IsColumns(path, c) { AssignmentTakes(a, path, text, c); }
    AssignmentEnds(path);
    SideNamed(path, "Assgnr");
    SideNamed(path, "Assgne");
    SideFilled(path, "Assgnr");
    SideFilled(path, "Assgne");
    if AssignmentAfter(a, path, text).Some? {
      assert IsColumns(path, AssignmentId) || IsColumns(path, AssignmentCreated) || IsColumns(path, Assigner)
        || IsColumns(path, Assignee);
    }
  }

  // ── no text speaks to two levels ──

  lemma GroupEnds(path: seq<string>)
    ensures GroupLeafAt(path).Some? ==>
      || (FromEnd(path, 1) == "OrgnlGrpInfAndCxl"
          && FromEnd(path, 0) in {"GrpCxlId", "GrpCxl", "NbOfTxs", "OrgnlMsgId", "OrgnlMsgNmId"})
      || ReasonOfBlock(path, "OrgnlGrpInfAndCxl")
  {
    EndsOfTwo(path, "OrgnlGrpInfAndCxl", "GrpCxlId");
    EndsOfTwo(path, "OrgnlGrpInfAndCxl", "GrpCxl");
    EndsOfTwo(path, "OrgnlGrpInfAndCxl", "NbOfTxs");
    EndsOfTwo(path, "OrgnlGrpInfAndCxl", "OrgnlMsgId");
    EndsOfTwo(path, "OrgnlGrpInfAndCxl", "OrgnlMsgNmId");
    ReasonEndsInBlock(path, "OrgnlGrpInfAndCxl");
  }

  lemma PaymentEnds(path: seq<string>)
    ensures PaymentLeafAt(path).Some? ==>
      || FromEnd(path, 0) in {"OrgnlPmtInfId", "PmtInfCxlId"}
      || (FromEnd(path, 1) == "OrgnlGrpInf" && FromEnd(path, 0) in {"OrgnlMsgId", "OrgnlMsgNmId"})
      || ReasonOfBlock(path, "OrgnlPmtInfAndCxl")
  {
    EndsOfTwo(path, "OrgnlPmtInfAndCxl", "OrgnlPmtInfId");
    EndsOfTwo(path, "OrgnlPmtInfAndCxl", "PmtInfCxlId");
    EndsOfThree(path, "OrgnlPmtInfAndCxl", "OrgnlGrpInf", "OrgnlMsgId");
    EndsOfThree(path, "OrgnlPmtInfAndCxl", "OrgnlGrpInf", "OrgnlMsgNmId");
    ReasonEndsInBlock(path, "OrgnlPmtInfAndCxl");
  }

  lemma NotBothBlocks(path: seq<string>)
    ensures !(GroupLeafAt(path).Some? && PaymentLeafAt(path).Some?)
  {
    GroupEnds(path);
    PaymentEnds(path);
  }

  /** How a text of the assignment ends. */
  predicate AssignmentLast(path: seq<string>) {
    || FromEnd(path, 0) in {"Id", "CreDtTm", "BICFI", "BIC", "MmbId", "AnyBIC", "BICOrBEI", "Assgnr", "Assgne"}
    || (FromEnd(path, 0) == "Nm" && FromEnd(path, 1) == "Pty")
  }

  lemma AssignmentEndsSo(path: seq<string>)
    ensures AssignmentAfter(NO_ASSIGNMENT, path, "").Some? ==> AssignmentLast(path)
  {
    AssignmentEnds(path);
    SideNamed(path, "Assgnr");
    SideNamed(path, "Assgne");
    SideFilled(path, "Assgnr");
    SideFilled(path, "Assgne");
  }

  lemma NoReasonEndsSo(path: seq<string>, block: string)
    ensures AssignmentLast(path) ==> !ReasonOfBlock(path, block)
  {
  }

  lemma AssignmentStandsAlone(path: seq<string>)
    ensures AssignmentAfter(NO_ASSIGNMENT, path, "").Some? ==> GroupLeafAt(path).None? && PaymentLeafAt(path).None?
  {
    AssignmentEndsSo(path);
    GroupEnds(path);
    PaymentEnds(path);
    NoReasonEndsSo(path, "OrgnlGrpInfAndCxl");
    NoReasonEndsSo(path, "OrgnlPmtInfAndCxl");
  }

  /** A text speaks to a level's leaf exactly where its path ends in one of the leaf's own. */
  lemma LeavesExactly(path: seq<string>, group: GroupLeaf, payment: PaymentLeaf)
    ensures LeafAt(path) == Some(OfGroup(group)) <==> EndsInOne(path, GroupPaths(group))
    ensures LeafAt(path) == Some(OfPayment(payment)) <==> EndsInOne(path, PaymentPaths(payment))
    ensures LeafAt(path) == Some(OfAssignment) <==> exists c: Column :: IsColumns(path, c)
  {
    AssignmentExactly(NO_ASSIGNMENT, path, "");
    AssignmentStandsAlone(path);
    NotBothBlocks(path);
    GroupLeavesExactly(path, group);
    PaymentLeavesExactly(path, payment);
  }

  // ── a file that names a message ──

  function MessageTexts(id: string, name: string): Forest {
    CancellationReasons.Leaf("OrgnlMsgId", id, CancellationReasons.Leaf("OrgnlMsgNmId", name, Nil))
  }

  /** One group of two texts, and a transaction. */
  function NamedGroup(id: string, name: string): Forest {
    Elem("CstmrPmtCxlReq", None,
      Elem("Undrlyg", None,
        Elem("OrgnlGrpInfAndCxl", None, MessageTexts(id, name), Elem("TxInf", None, Nil, Nil)), Nil), Nil)
  }

  lemma MessageLeaves()
    ensures LeafAt(IN_GROUP + ["OrgnlMsgId"]) == Some(OfGroup(GroupMessage))
    ensures LeafAt(IN_GROUP + ["OrgnlMsgNmId"]) == Some(OfGroup(GroupMessageName))
  {
    var id, name := IN_GROUP + ["OrgnlMsgId"], IN_GROUP + ["OrgnlMsgNmId"];
    assert id[|id| - 2..] == GroupPaths(GroupMessage)[0];
    assert name[|name| - 2..] == GroupPaths(GroupMessageName)[0];
    LeavesExactly(id, GroupMessage, PaymentId);
    LeavesExactly(name, GroupMessageName, PaymentId);
  }

  lemma MessageNamesArePlain()
    ensures IsPlain("OrgnlMsgId") && IsPlain("OrgnlMsgNmId")
  {
    assert "OrgnlMsgId"[0] == 'O' && "OrgnlMsgNmId"[0] == 'O' && "camt.055."[0] == 'c';
  }

  function MessageSpoken(id: string, name: string): Texts<GroupLeaf> {
    Spoke(GroupMessageName, name, 0, Spoke(GroupMessage, id, 0, Silent))
  }

  lemma MessageIsNamed(id: string, name: string)
    ensures GroupOf(MessageSpoken(id, name)) == NO_GROUP.(message := Some(id), messageName := Some(name))
  {
    assert GroupOf(Spoke(GroupMessage, id, 0, Silent)) == NO_GROUP.(message := Some(id));
  }

  lemma NamedGroupTells(parse: Stream -> TxInf, id: string, name: string, h: Heard)
    requires h.asked && h.group.Silent?
    ensures Tell(parse, false, IN_GROUP, 0, MessageTexts(id, name), h)
      == Told([], h.(group := MessageSpoken(id, name)))
  {
    var second := CancellationReasons.Leaf("OrgnlMsgNmId", name, Nil);
    var one := h.(group := Spoke(GroupMessage, id, 0, Silent));
    var both := one.(group := Spoke(GroupMessageName, name, 0, one.group));
    MessageLeaves();
    MessageNamesArePlain();
    LeafTells(parse, IN_GROUP, 0, "OrgnlMsgId", id, second, h, GroupMessage);
    LeafTells(parse, IN_GROUP, 0, "OrgnlMsgNmId", name, Nil, one, GroupMessageName);
    TwoThenNothing(parse, IN_GROUP, MessageTexts(id, name), h, one, both);
  }

  /** The group's row and the row of the transaction it is inherited by have either text in its own column. */
  lemma NamedGroupIsShown(parse: Stream -> TxInf, id: string, name: string)
    ensures var tx := parse(Body("TxInf", Nil));
      Drain(Reader(parse), INITIAL, Onto(NamedGroup(id, name), Eof)) == Drained(
        [Row(GROUP, NO_ASSIGNMENT, None, None, None, Some(id), Some(name), None, NO_REASON, None),
         Row(TRANSACTION, NO_ASSIGNMENT, tx.id, None, None, Some(id), Some(name), None,
             if tx.reasons == [] then NO_REASON else Collapse(tx.reasons), Some(tx.own))], Finished)
  {
    var h := Heard(NO_ASSIGNMENT, Silent, Silent, true, true, 0);
    var both := h.(group := MessageSpoken(id, name));
    NamedGroupTells(parse, id, name, h);
    ToldOfOneGroup(parse, NamedGroup(id, name), h, both);
    MessageIsNamed(id, name);
    FinishedExactly(parse, NamedGroup(id, name));
    DrainIsTold(parse, NamedGroup(id, name));
  }

  // ── which files are requests ──

  /** A request lies somewhere in some content. */
  predicate Requests(f: Forest) {
    match f
    case Nil => false
    case Elem(name, _, kids, next) =>
      name == "CstmrPmtCxlReq" || Versioned(name, "camt.055.") || Requests(kids) || Requests(next)
    case Closed(_, _, next) => Requests(next)
    case Chars(_, next) => Requests(next)
    case Noise(next) => Requests(next)
  }

  predicate Versioned(name: string, family: string) { |name| >= |family| && name[..|family|] == family }

  lemma {:induction false} SawExactly(
      parse: Stream -> TxInf, ends: bool, path: seq<string>, block: nat, f: Forest, h: Heard)
    requires h.asked ==> h.saw
    ensures var after := Tell(parse, ends, path, block, f, h).heard;
      (after.asked ==> after.saw) && (after.saw <==> h.saw || Requests(f))
    decreases f
  {
    if !f.Nil? {
      if f.Elem? && !IsTx(f.name, h) {
        var begun := Opened(h, f.name);
        SawExactly(parse, ends, path + [f.name], BlockIn(f.name, block, begun), f.kids, begun);
      }
      SawExactly(parse, ends, path, block, f.next, TellNode(parse, ends, path, block, f, h).heard);
    }
  }

  /** A file is read to its end exactly where an element of it is a request, whatever its version. */
  lemma FinishedExactly(parse: Stream -> TxInf, f: Forest)
    ensures Drain(Reader(parse), INITIAL, Onto(f, Eof)).ending == if Requests(f) then Finished else WrongFile
  {
    DrainIsTold(parse, f);
    SawExactly(parse, false, [], 0, f, NOTHING_HEARD);
  }
}
