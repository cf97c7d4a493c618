/** The three reason columns of a cancellation row, and when all three are one reason block's. */
module CancellationReasons {
  import opened Options
  import opened Xml
  import opened TreeMachine
  import opened Cancellation
  import opened CancellationScopes

  // ── a level's reason over its blocks ──

  function GroupReasons(t: Texts<GroupLeaf>): Texts<ReasonLeaf> {
    match t
    case Silent => Silent
    case Spoke(GroupReason(leaf), text, block, earlier) => Spoke(leaf, text, block, GroupReasons(earlier))
    case Spoke(_, _, _, earlier) => GroupReasons(earlier)
  }

  function PaymentReasons(t: Texts<PaymentLeaf>): Texts<ReasonLeaf> {
    match t
    case Silent => Silent
    case Spoke(PaymentReason(leaf), text, block, earlier) => Spoke(leaf, text, block, PaymentReasons(earlier))
    case Spoke(_, _, _, earlier) => PaymentReasons(earlier)
  }

  /** The reason some texts leave behind. */
  function ReasonOf(t: Texts<ReasonLeaf>): Reason {
    match t case Silent => NO_REASON case Spoke(leaf, text, _, earlier) => ReasonAfter(ReasonOf(earlier), leaf, text)
  }

  lemma {:induction false} GroupReasonOf(t: Texts<GroupLeaf>)
    ensures GroupOf(t).reason == ReasonOf(GroupReasons(t))
  {
    if t.Spoke? { GroupReasonOf(t.earlier); }
  }

  lemma {:induction false} PaymentReasonOf(t: Texts<PaymentLeaf>)
    ensures PaymentOf(t).reason == ReasonOf(PaymentReasons(t))
  {
    if t.Spoke? { PaymentReasonOf(t.earlier); }
  }

  /** The texts of one reason block alone. */
  function OfBlock(t: Texts<ReasonLeaf>, block: nat): Texts<ReasonLeaf> {
    match t
    case Silent => Silent
    case Spoke(leaf, text, b, earlier) =>
      if b == block then Spoke(leaf, text, b, OfBlock(earlier, block)) else OfBlock(earlier, block)
  }

  function FirstCode(t: Texts<ReasonLeaf>): Option<string> {
    match t
    case Silent => None
    case Spoke(leaf, text, _, earlier) => OrElse(FirstCode(earlier), if leaf.Code? then Some(text) else None)
  }

  function LastOriginator(t: Texts<ReasonLeaf>): Option<string> {
    match t
    case Silent => None
    case Spoke(leaf, text, _, earlier) => if leaf.Originator? then Some(text) else LastOriginator(earlier)
  }

  function InfoTexts(t: Texts<ReasonLeaf>): seq<string> {
    match t
    case Silent => []
    case Spoke(leaf, text, _, earlier) => InfoTexts(earlier) + if leaf.Info? then [text] else []
  }

  /** Every additional text stands in the block. */
  predicate InfosIn(t: Texts<ReasonLeaf>, block: nat) {
    t.Spoke? ==> (t.leaf.Info? ==> t.block == block) && InfosIn(t.earlier, block)
  }

  lemma {:induction false} ReasonMeaning(t: Texts<ReasonLeaf>)
    ensures ReasonOf(t) == Reason(FirstCode(t), InfoTexts(t), LastOriginator(t))
  {
    if t.Spoke? { ReasonMeaning(t.earlier); }
  }

  // ── the column of the additional texts ──

  /** The texts of a reason in one column, a blank between two of them. */
  function Column(texts: seq<string>): Option<string> { if texts == [] then None else Some(Joined(texts)) }

  function Joined(texts: seq<string>): string
    requires texts != []
  {
    if |texts| == 1 then texts[0] else texts[0] + " " + Joined(texts[1..])
  }

  /** The room some texts take in the column, each with a blank. */
  function Room(texts: seq<string>): nat { if texts == [] then 0 else |texts[0]| + 1 + Room(texts[1..]) }

  lemma {:induction false} RoomOfColumn(texts: seq<string>)
    ensures texts == [] <==> Room(texts) == 0
    ensures texts != [] ==> |Joined(texts)| + 1 == Room(texts)
  {
    if |texts| > 1 { RoomOfColumn(texts[1..]); }
  }

  /** Joining keeps the difference of lists that take different room. */
  lemma ColumnsDiffer(a: seq<string>, b: seq<string>)
    requires Room(a) != Room(b)
    ensures Column(a) != Column(b)
  {
    RoomOfColumn(a);
    RoomOfColumn(b);
  }

  lemma {:induction false} RoomOfBoth(a: seq<string>, b: seq<string>)
    ensures Room(a + b) == Room(a) + Room(b)
  {
    if a == [] {
      assert a + b == b;
    } else {
      assert (a + b)[1..] == a[1..] + b;
      RoomOfBoth(a[1..], b);
    }
  }

  /** A block's additional texts take no more room than its level's, and as much exactly where it has them all. */
  lemma {:induction false} InfosOfBlock(t: Texts<ReasonLeaf>, block: nat)
    ensures var all, own := InfoTexts(t), InfoTexts(OfBlock(t, block));
      if InfosIn(t, block) then own == all else Room(own) < Room(all)
  {
    if t.Spoke? {
      InfosOfBlock(t.earlier, block);
      var last := if t.leaf.Info? then [t.text] else [];
      RoomOfBoth(InfoTexts(t.earlier), last);
      RoomOfBoth(InfoTexts(OfBlock(t.earlier, block)), last);
      RoomOfColumn(last);
      assert InfoTexts(OfBlock(t.earlier, block)) + [] == InfoTexts(OfBlock(t.earlier, block));
    }
  }

  /** The three columns of a reason. */
  function Shown(r: Reason): (Option<string>, Option<string>, Option<string>) { (r.code, Column(r.info), r.originator) }

  /** What a block has to state for a level's three columns to be its own: the level's first code and last
      originator where there are any, and every additional text. */
  predicate SpeaksForAll(t: Texts<ReasonLeaf>, block: nat) {
    && FirstCode(OfBlock(t, block)) == FirstCode(t)
    && InfosIn(t, block)
    && LastOriginator(OfBlock(t, block)) == LastOriginator(t)
  }

  /** As columns and as lists of texts. */
  lemma LevelIsOneBlocks(t: Texts<ReasonLeaf>, block: nat)
    ensures ReasonOf(t) == ReasonOf(OfBlock(t, block)) <==> SpeaksForAll(t, block)
    ensures Shown(ReasonOf(t)) == Shown(ReasonOf(OfBlock(t, block))) <==> SpeaksForAll(t, block)
  {
    ReasonMeaning(t);
    ReasonMeaning(OfBlock(t, block));
    InfosOfBlock(t, block);
    if !InfosIn(t, block) { ColumnsDiffer(InfoTexts(t), InfoTexts(OfBlock(t, block))); }
  }

  /** All texts of a level stand in one block. */
  predicate Alone(t: Texts<ReasonLeaf>, block: nat) { t.Spoke? ==> t.block == block && Alone(t.earlier, block) }

  lemma {:induction false} AloneSpeaks(t: Texts<ReasonLeaf>, block: nat)
    requires Alone(t, block)
    ensures OfBlock(t, block) == t && SpeaksForAll(t, block)
  {
    if t.Spoke? { AloneSpeaks(t.earlier, block); }
  }

  // ── a transaction's own blocks ──

  /** No block but one states an additional text. */
  predicate OnlyInfos(reasons: seq<Reason>, k: nat) {
    forall j | 0 <= j < |reasons| && j != k :: reasons[j].info == []
  }

  lemma {:induction false} InfosOfOne(reasons: seq<Reason>, k: nat)
    requires k < |reasons|
    ensures if OnlyInfos(reasons, k) then Infos(reasons) == reasons[k].info
      else Room(Infos(reasons)) > Room(reasons[k].info)
  {
    if k == 0 {
      FirstInfos(reasons);
    } else {
      InfosOfOne(reasons[1..], k - 1);
      LaterInfos(reasons, k);
    }
  }

  lemma FirstInfos(reasons: seq<Reason>)
    requires reasons != []
    ensures if OnlyInfos(reasons, 0) then Infos(reasons) == reasons[0].info
      else Room(Infos(reasons)) > Room(reasons[0].info)
  {
    var rest := reasons[1..];
    NoInfos(rest);
    RoomOfBoth(reasons[0].info, Infos(rest));
    RoomOfColumn(Infos(rest));
    assert forall j | 1 <= j < |reasons| :: reasons[j] == rest[j - 1];
    assert reasons[0].info + [] == reasons[0].info;
  }

  lemma LaterInfos(reasons: seq<Reason>, k: nat)
    requires 0 < k < |reasons|
    requires var rest := reasons[1..];
      if OnlyInfos(rest, k - 1) then Infos(rest) == rest[k - 1].info else Room(Infos(rest)) > Room(rest[k - 1].info)
    ensures if OnlyInfos(reasons, k) then Infos(reasons) == reasons[k].info
      else Room(Infos(reasons)) > Room(reasons[k].info)
  {
    var rest := reasons[1..];
    RoomOfBoth(reasons[0].info, Infos(rest));
    RoomOfColumn(reasons[0].info);
    OnlyLater(reasons, k);
    assert [] + Infos(rest) == Infos(rest);
  }

  lemma OnlyLater(reasons: seq<Reason>, k: nat)
    requires 0 < k < |reasons|
    ensures OnlyInfos(reasons, k) <==> reasons[0].info == [] && OnlyInfos(reasons[1..], k - 1)
  {
    var rest := reasons[1..];
    assert forall j | 1 <= j < |reasons| :: reasons[j] == rest[j - 1];
    assert forall j | 0 <= j < |rest| :: rest[j] == reasons[j + 1];
  }

  lemma {:induction false} NoInfos(reasons: seq<Reason>)
    ensures Infos(reasons) == [] <==> forall j | 0 <= j < |reasons| :: reasons[j].info == []
  {
    if reasons != [] {
      NoInfos(reasons[1..]);
      assert forall j | 1 <= j < |reasons| :: reasons[j] == reasons[1..][j - 1];
    }
  }

  /** A block states the first code and the first originator there are, and no other states a text. */
  predicate CollapsesTo(reasons: seq<Reason>, k: nat)
    requires k < |reasons|
  {
    && FirstOf(Codes(reasons)) == reasons[k].code
    && FirstOf(Originators(reasons)) == reasons[k].originator
    && OnlyInfos(reasons, k)
  }

  /** As columns and as lists of texts. */
  lemma CollapsedIsOneBlocks(reasons: seq<Reason>, k: nat)
    requires k < |reasons|
    ensures Collapse(reasons) == reasons[k] <==> CollapsesTo(reasons, k)
    ensures Shown(Collapse(reasons)) == Shown(reasons[k]) <==> CollapsesTo(reasons, k)
  {
    InfosOfOne(reasons, k);
    if !OnlyInfos(reasons, k) { ColumnsDiffer(Infos(reasons), reasons[k].info); }
  }

  // ── a row's reason ──

  /** The level a transaction without a reason of its own takes its reason from. */
  function ReasonsInherited(group: Texts<GroupLeaf>, payment: Texts<PaymentLeaf>): Texts<ReasonLeaf> {
    if Given(PaymentOf(payment).reason) then PaymentReasons(payment) else GroupReasons(group)
  }

  /** A row shows a level's reason, and shows that of one of the level's blocks, in its three columns, exactly
      where the block speaks for all of them. */
  ghost predicate ShowsLevel(row: Row, t: Texts<ReasonLeaf>) {
    && row.reason == ReasonOf(t)
    && forall b: nat :: Shown(row.reason) == Shown(ReasonOf(OfBlock(t, b))) <==> SpeaksForAll(t, b)
  }

  lemma LevelShows(row: Row, t: Texts<ReasonLeaf>)
    requires row.reason == ReasonOf(t)
    ensures ShowsLevel(row, t)
  {
    forall b: nat ensures Shown(ReasonOf(t)) == Shown(ReasonOf(OfBlock(t, b))) <==> SpeaksForAll(t, b) {
      LevelIsOneBlocks(t, b);
    }
  }

  /** The three reason columns of a transaction row are one reason block's exactly where that block speaks for
      all blocks of its level: the transaction's own level where it states a reason, else its payment
      group's where that has a code or a text, else its group's. */
  lemma RowReasonIsOneBlocks(tx: TxInf, a: Assignment, group: Texts<GroupLeaf>, payment: Texts<PaymentLeaf>)
    ensures var row := TxRow(tx, a, GroupOf(group), PaymentOf(payment));
      if tx.reasons != [] then
        forall k: nat | k < |tx.reasons| :: Shown(row.reason) == Shown(tx.reasons[k]) <==> CollapsesTo(tx.reasons, k)
      else ShowsLevel(row, ReasonsInherited(group, payment))
  {
    if tx.reasons != [] {
      forall k: nat | k < |tx.reasons|
        ensures Shown(Collapse(tx.reasons)) == Shown(tx.reasons[k]) <==> CollapsesTo(tx.reasons, k)
      {
        CollapsedIsOneBlocks(tx.reasons, k);
      }
    } else {
      GroupReasonOf(group);
      PaymentReasonOf(payment);
      LevelShows(TxRow(tx, a, GroupOf(group), PaymentOf(payment)), ReasonsInherited(group, payment));
    }
  }

  /** A group's row and a payment group's row show their own level's reason alone. */
  lemma LevelRowReason(a: Assignment, group: Texts<GroupLeaf>, payment: Texts<PaymentLeaf>)
    ensures ShowsLevel(GroupRow(a, GroupOf(group)), GroupReasons(group))
    ensures ShowsLevel(PaymentRow(a, GroupOf(group), PaymentOf(payment)), PaymentReasons(payment))
  {
    GroupReasonOf(group);
    PaymentReasonOf(payment);
    LevelShows(GroupRow(a, GroupOf(group)), GroupReasons(group));
    LevelShows(PaymentRow(a, GroupOf(group), PaymentOf(payment)), PaymentReasons(payment));
  }

  lemma OneCollapses(r: Reason)
    ensures Collapse([r]) == r
  {
    assert Codes([r]) == [r.code] && [r.code][1..] == [] && FirstOf([r.code][1..]) == None;
    assert Originators([r]) == [r.originator] && [r.originator][1..] == [] && FirstOf([r.originator][1..]) == None;
    assert Infos([r][1..]) == [] && Infos([r]) == r.info + [];
    assert FirstOf([r.code]) == r.code && FirstOf([r.originator]) == r.originator;
  }

  lemma {:induction false} FirstOfBoth(a: seq<Option<string>>, b: seq<Option<string>>)
    ensures FirstOf(a + b) == OrElse(FirstOf(a), FirstOf(b))
  {
    if a == [] {
      assert a + b == b;
    } else {
      assert (a + b)[1..] == a[1..] + b;
      FirstOfBoth(a[1..], b);
    }
  }

  lemma {:induction false} InfosOfBoth(a: seq<Reason>, b: seq<Reason>)
    ensures Infos(a + b) == Infos(a) + Infos(b)
  {
    if a == [] {
      assert a + b == b;
    } else {
      assert (a + b)[1..] == a[1..] + b;
      InfosOfBoth(a[1..], b);
    }
  }

  /** Of two runs of blocks the earlier one's code and originator go first, and its texts stand first. */
  lemma CollapseOfBoth(a: seq<Reason>, b: seq<Reason>)
    ensures var first, second := Collapse(a), Collapse(b);
      Collapse(a + b) == Reason(
        if first.code.Some? then first.code else second.code,
        first.info + second.info,
        if first.originator.Some? then first.originator else second.originator)
  {
    assert Codes(a + b) == Codes(a) + Codes(b);
    assert Originators(a + b) == Originators(a) + Originators(b);
    FirstOfBoth(Codes(a), Codes(b));
    FirstOfBoth(Originators(a), Originators(b));
    InfosOfBoth(a, b);
  }

  /** Two runs of texts stand in the column one behind the other, with one blank between them. */
  lemma {:induction false} JoinedOfBoth(a: seq<string>, b: seq<string>)
    requires a != [] && b != []
    ensures Joined(a + b) == Joined(a) + " " + Joined(b)
  {
    assert (a + b)[1..] == a[1..] + b && (a + b)[0] == a[0];
    if |a| > 1 {
      JoinedOfBoth(a[1..], b);
    } else {
      assert a[1..] + b == b;
    }
  }

  /** A level with one reason block shows that block, in the rows of all that inherit from it and its own; so
      does a transaction with one. */
  lemma OneBlockShows(tx: TxInf, a: Assignment, group: Texts<GroupLeaf>, payment: Texts<PaymentLeaf>, block: nat)
    ensures var row := TxRow(tx, a, GroupOf(group), PaymentOf(payment));
      && (|tx.reasons| == 1 ==> row.reason == tx.reasons[0])
      && (tx.reasons == [] && Alone(ReasonsInherited(group, payment), block) ==>
          row.reason == ReasonOf(OfBlock(ReasonsInherited(group, payment), block)))
    ensures Alone(GroupReasons(group), block) ==>
      GroupRow(a, GroupOf(group)).reason == ReasonOf(OfBlock(GroupReasons(group), block))
  {
    GroupReasonOf(group);
    PaymentReasonOf(payment);
    if Alone(ReasonsInherited(group, payment), block) { AloneSpeaks(ReasonsInherited(group, payment), block); }
    if Alone(GroupReasons(group), block) { AloneSpeaks(GroupReasons(group), block); }
    if |tx.reasons| == 1 {
      assert tx.reasons == [tx.reasons[0]];
      OneCollapses(tx.reasons[0]);
    }
  }

  // ── a file whose reason is no block's ──

  /** A leaf element of a group. */
  function Leaf(name: string, text: string, next: Forest): Forest { Elem(name, None, Chars(text, Nil), next) }

  function FirstBlock(next: Forest): Forest {
    Elem("CxlRsnInf", None,
      Elem("Rsn", None, Leaf("Cd", "DUPL", Nil), Elem("Orgtr", None, Leaf("Nm", "A", Nil), Nil)), next)
  }

  function SecondBlock(): Forest {
    Elem("CxlRsnInf", None,
      Elem("Rsn", None, Leaf("Cd", "TECH", Nil),
        Leaf("AddtlInf", "text", Elem("Orgtr", None, Leaf("Nm", "B", Nil), Nil))), Nil)
  }

  /** One group with two reason blocks, and a transaction without one. */
  function TwoBlocks(): Forest {
    var tx := Elem("TxInf", None, Nil, Nil);
    Elem("CstmrPmtCxlReq", None,
      Elem("Undrlyg", None, Elem("OrgnlGrpInfAndCxl", None, FirstBlock(SecondBlock()), tx), Nil), Nil)
  }

  const MIXED := Reason(Some("DUPL"), ["text"], Some("B"))

  /** The transaction's row has the first block's code, the second's text, and the second's originator. */
  lemma TwoBlocksMix(parse: Stream -> TxInf)
    requires parse(Body("TxInf", Nil)).reasons == []
    ensures var rows := Drain(Reader(parse), INITIAL, Onto(TwoBlocks(), Eof)).rows;
      && |rows| == 2 && rows[1].scope == TRANSACTION && rows[1].reason == MIXED
      && MIXED != Reason(Some("DUPL"), [], Some("A")) && MIXED != Reason(Some("TECH"), ["text"], Some("B"))
  {
    DrainIsTold(parse, TwoBlocks());
    ToldOfTwoBlocks(parse);
  }

  const IN_GROUP: seq<string> := ["CstmrPmtCxlReq", "Undrlyg", "OrgnlGrpInfAndCxl"]

  /** Elements with no say in the levels. */
  predicate IsPlain(name: string) {
    && name !in {"TxInf", "Undrlyg", "OrgnlGrpInfAndCxl", "OrgnlPmtInfAndCxl", "CxlRsnInf"}
    && !IsRequest(name)
  }

  lemma LeafTells(
      parse: Stream -> TxInf, path: seq<string>, block: nat, name: string, text: string, next: Forest, h: Heard,
      leaf: GroupLeaf)
    requires h.asked && IsPlain(name) && LeafAt(path + [name]) == Some(OfGroup(leaf))
    ensures TellNode(parse, false, path, block, Leaf(name, text, next), h)
      == Told([], h.(group := Spoke(leaf, text, block, h.group)))
  {
    var there := path + [name];
    NotAssignments(h.assign, there, text);
    assert Tell(parse, false, there, block, Nil, Hears(h, there, block, text))
      == Told([], Hears(h, there, block, text));
    assert Tell(parse, false, there, block, Chars(text, Nil), h) == Told([], Hears(h, there, block, text));
  }

  lemma NotAssignments(a: Assignment, path: seq<string>, text: string)
    requires LeafAt(path).Some? && !LeafAt(path).value.OfAssignment?
    ensures AssignmentAfter(a, path, text).None?
  {
  }

  lemma PlainTells(parse: Stream -> TxInf, path: seq<string>, block: nat, name: string, kids: Forest, next: Forest,
      h: Heard, after: Heard)
    requires h.asked && after.asked && IsPlain(name)
    requires Tell(parse, false, path + [name], block, kids, h) == Told([], after)
    ensures TellNode(parse, false, path, block, Elem(name, None, kids, next), h) == Told([], after)
  {
  }

  lemma OneThenNext(parse: Stream -> TxInf, path: seq<string>, block: nat, f: Forest, h: Heard, one: Heard,
      after: Heard)
    requires !f.Nil? && TellNode(parse, false, path, block, f, h) == Told([], one)
    requires Tell(parse, false, path, block, f.next, one) == Told([], after)
    ensures Tell(parse, false, path, block, f, h) == Told([], after)
  {
  }

  /** An element with one leaf in it. */
  lemma NestedLeafTells(
      parse: Stream -> TxInf, path: seq<string>, block: nat, outer: string, name: string, text: string, next: Forest,
      h: Heard, leaf: GroupLeaf)
    requires h.asked && IsPlain(outer) && IsPlain(name) && LeafAt(path + [outer] + [name]) == Some(OfGroup(leaf))
    ensures TellNode(parse, false, path, block, Elem(outer, None, Leaf(name, text, Nil), next), h)
      == Told([], h.(group := Spoke(leaf, text, block, h.group)))
  {
    var after := h.(group := Spoke(leaf, text, block, h.group));
    LeafTells(parse, path + [outer], block, name, text, Nil, h, leaf);
    OneThenNext(parse, path + [outer], block, Leaf(name, text, Nil), h, after, after);
    PlainTells(parse, path, block, outer, Leaf(name, text, Nil), next, h, after);
  }

  // ── the leaves of a group's reason ──

  lemma SameEnd(path: seq<string>, suffix: seq<string>, k: nat)
    requires k < |suffix| <= |path| && EndsWith(path, suffix)
    ensures path[|path| - 1 - k] == suffix[|suffix| - 1 - k]
  {
    assert path[|path| - |suffix|..][|suffix| - 1 - k] == path[|path| - 1 - k];
  }

  lemma Differs(path: seq<string>, suffix: seq<string>, k: nat)
    requires k < |suffix| && k < |path| && path[|path| - 1 - k] != suffix[|suffix| - 1 - k]
    ensures !EndsWith(path, suffix)
  {
    if EndsWith(path, suffix) { SameEnd(path, suffix, k); }
  }

  lemma NoSide(path: seq<string>, side: string)
    requires |path| >= 2 && path[|path| - 1] in {"Cd", "AddtlInf", "Nm"} && path[|path| - 2] != "Pty"
    ensures !NamesSide(path, side) && !FillsSide(path, side)
  {
    Differs(path, [side, "Agt", "FinInstnId", "BICFI"], 0);
    Differs(path, [side, "Agt", "FinInstnId", "BIC"], 0);
    Differs(path, [side, "Pty", "Nm"], 1);
    Differs(path, [side, "Agt", "FinInstnId", "ClrSysMmbId", "MmbId"], 0);
    Differs(path, [side, "Pty", "Id", "OrgId", "AnyBIC"], 0);
    Differs(path, [side, "Pty", "Id", "OrgId", "BICOrBEI"], 0);
  }

  lemma NoAssignmentLeaf(path: seq<string>)
    requires |path| >= 2 && path[|path| - 1] in {"Cd", "AddtlInf", "Nm"} && path[|path| - 2] != "Pty"
    ensures AssignmentAfter(NO_ASSIGNMENT, path, "").None?
  {
    NoSide(path, "Assgnr");
    NoSide(path, "Assgne");
    Differs(path, ["Assgnmt", "Id"], 0);
    Differs(path, ["Assgnmt", "CreDtTm"], 0);
    Differs(path, ["Assgnmt", "Assgnr"], 0);
    Differs(path, ["Assgnmt", "Assgne"], 0);
  }

  /** What ends like a reason's leaf is no other leaf of the group. */
  lemma OnlyReason(path: seq<string>, leaf: ReasonLeaf)
    requires |path| >= 2 && path[|path| - 1] in {"Cd", "AddtlInf", "Nm"} && path[|path| - 2] != "Pty"
    requires ReasonLeafAt(path, "OrgnlGrpInfAndCxl") == Some(leaf)
    ensures LeafAt(path) == Some(OfGroup(GroupReason(leaf)))
  {
    NoAssignmentLeaf(path);
    Differs(path, ["OrgnlGrpInfAndCxl", "GrpCxlId"], 0);
    Differs(path, ["OrgnlGrpInfAndCxl", "GrpCxl"], 0);
    Differs(path, ["OrgnlGrpInfAndCxl", "NbOfTxs"], 0);
    Differs(path, ["OrgnlGrpInfAndCxl", "OrgnlMsgId"], 0);
    Differs(path, ["OrgnlGrpInfAndCxl", "OrgnlMsgNmId"], 0);
  }

  const IN_REASON: seq<string> := IN_GROUP + ["CxlRsnInf"]

  lemma CodeLeaf()
    ensures LeafAt(IN_REASON + ["Rsn"] + ["Cd"]) == Some(OfGroup(GroupReason(Code)))
  {
    var path := IN_REASON + ["Rsn"] + ["Cd"];
    assert path[|path| - 4..] == ["OrgnlGrpInfAndCxl", "CxlRsnInf", "Rsn", "Cd"];
    OnlyReason(path, Code);
  }

  lemma InfoLeaf()
    ensures LeafAt(IN_REASON + ["AddtlInf"]) == Some(OfGroup(GroupReason(Info)))
  {
    var path := IN_REASON + ["AddtlInf"];
    assert path[|path| - 3..] == ["OrgnlGrpInfAndCxl", "CxlRsnInf", "AddtlInf"];
    Differs(path, ["OrgnlGrpInfAndCxl", "CxlRsnInf", "Rsn", "Cd"], 0);
    Differs(path, ["OrgnlGrpInfAndCxl", "CxlRsnInf", "Rsn", "Prtry"], 0);
    OnlyReason(path, Info);
  }

  lemma OriginatorLeaf()
    ensures LeafAt(IN_REASON + ["Orgtr"] + ["Nm"]) == Some(OfGroup(GroupReason(Originator)))
  {
    var path := IN_REASON + ["Orgtr"] + ["Nm"];
    assert path[|path| - 4..] == ["OrgnlGrpInfAndCxl", "CxlRsnInf", "Orgtr", "Nm"];
    Differs(path, ["OrgnlGrpInfAndCxl", "CxlRsnInf", "Rsn", "Cd"], 0);
    Differs(path, ["OrgnlGrpInfAndCxl", "CxlRsnInf", "Rsn", "Prtry"], 0);
    Differs(path, ["OrgnlGrpInfAndCxl", "CxlRsnInf", "AddtlInf"], 0);
    OnlyReason(path, Originator);
  }

  lemma PlainNames()
    ensures IsPlain("Rsn") && IsPlain("Cd") && IsPlain("AddtlInf") && IsPlain("Orgtr") && IsPlain("Nm")
    ensures !IsRequest("CxlRsnInf") && !IsRequest("Undrlyg") && !IsRequest("OrgnlGrpInfAndCxl") && !IsRequest("TxInf")
  {
    var camt := "camt.055.";
    assert camt[0] == 'c';
    assert "Rsn"[0] == 'R' && "Cd"[0] == 'C' && "AddtlInf"[0] == 'A' && "Orgtr"[0] == 'O' && "Nm"[0] == 'N';
    assert "CxlRsnInf"[0] == 'C' && "Undrlyg"[0] == 'U' && "OrgnlGrpInfAndCxl"[0] == 'O' && "TxInf"[0] == 'T';
  }

  // ── the two blocks ──

  function Say(h: Heard, leaf: ReasonLeaf, text: string, block: nat): Heard {
    h.(group := Spoke(GroupReason(leaf), text, block, h.group))
  }

  lemma FirstBlockTells(parse: Stream -> TxInf, next: Forest, h: Heard)
    requires h.asked
    ensures var b := h.blocks + 1;
      TellNode(parse, false, IN_GROUP, 0, FirstBlock(next), h)
        == Told([], Say(Say(h.(blocks := b), Code, "DUPL", b), Originator, "A", b))
  {
    var b, begun := h.blocks + 1, h.(blocks := h.blocks + 1);
    var said := Say(begun, Code, "DUPL", b);
    var originator := Elem("Orgtr", None, Leaf("Nm", "A", Nil), Nil);
    var kids := Elem("Rsn", None, Leaf("Cd", "DUPL", Nil), originator);
    PlainNames();
    CodeLeaf();
    OriginatorLeaf();
    NestedLeafTells(parse, IN_REASON, b, "Rsn", "Cd", "DUPL", originator, begun, GroupReason(Code));
    NestedLeafTells(parse, IN_REASON, b, "Orgtr", "Nm", "A", Nil, said, GroupReason(Originator));
    OneThenNext(parse, IN_REASON, b, originator, said, Say(said, Originator, "A", b), Say(said, Originator, "A", b));
    OneThenNext(parse, IN_REASON, b, kids, begun, said, Say(said, Originator, "A", b));
    BlockTells(parse, IN_GROUP, FirstBlock(next), h, IN_REASON, Say(said, Originator, "A", b));
  }

  /** One element, what it opens and closes given. */
  lemma ElementTells(
      parse: Stream -> TxInf, path: seq<string>, block: nat, f: Forest, h: Heard,
      there: seq<string>, inside: nat, begun: Heard, inner: Told, row: seq<Row>)
    requires f.Elem? && !IsTx(f.name, h) && there == path + [f.name]
    requires begun == Opened(h, f.name) && inside == BlockIn(f.name, block, begun)
    requires inner == Tell(parse, false, there, inside, f.kids, begun)
    requires row == EndRow(f.name, inner.heard) && Ended(inner.heard, f.name, false) == inner.heard
    ensures TellNode(parse, false, path, block, f, h) == Told(inner.rows + row, inner.heard)
  {
  }

  lemma BlockStarts(h: Heard)
    requires h.asked
    ensures Opened(h, "CxlRsnInf") == h.(blocks := h.blocks + 1) && !IsTx("CxlRsnInf", h)
    ensures EndRow("CxlRsnInf", h) == [] && Ended(h, "CxlRsnInf", false) == h
  {
    PlainNames();
  }

  lemma BlockTells(parse: Stream -> TxInf, path: seq<string>, f: Forest, h: Heard, there: seq<string>, after: Heard)
    requires h.asked && after.asked && f.Elem? && f.name == "CxlRsnInf" && there == path + ["CxlRsnInf"]
    requires Tell(parse, false, there, h.blocks + 1, f.kids, h.(blocks := h.blocks + 1)) == Told([], after)
    ensures TellNode(parse, false, path, 0, f, h) == Told([], after)
  {
    BlockStarts(h);
    BlockStarts(after);
    ElementTells(parse, path, 0, f, h, there, h.blocks + 1, h.(blocks := h.blocks + 1), Told([], after), []);
  }

  lemma SecondBlockTells(parse: Stream -> TxInf, h: Heard)
    requires h.asked
    ensures var b := h.blocks + 1;
      TellNode(parse, false, IN_GROUP, 0, SecondBlock(), h)
        == Told([], Say(Say(Say(h.(blocks := b), Code, "TECH", b), Info, "text", b), Originator, "B", b))
  {
    var b, begun := h.blocks + 1, h.(blocks := h.blocks + 1);
    var said := Say(begun, Code, "TECH", b);
    var informed := Say(said, Info, "text", b);
    var all := Say(informed, Originator, "B", b);
    var originator := Elem("Orgtr", None, Leaf("Nm", "B", Nil), Nil);
    var info := Leaf("AddtlInf", "text", originator);
    var kids := Elem("Rsn", None, Leaf("Cd", "TECH", Nil), info);
    PlainNames();
    CodeLeaf();
    InfoLeaf();
    OriginatorLeaf();
    NestedLeafTells(parse, IN_REASON, b, "Rsn", "Cd", "TECH", info, begun, GroupReason(Code));
    LeafTells(parse, IN_REASON, b, "AddtlInf", "text", originator, said, GroupReason(Info));
    NestedLeafTells(parse, IN_REASON, b, "Orgtr", "Nm", "B", Nil, informed, GroupReason(Originator));
    OneThenNext(parse, IN_REASON, b, originator, informed, all, all);
    OneThenNext(parse, IN_REASON, b, info, said, informed, all);
    OneThenNext(parse, IN_REASON, b, kids, begun, said, all);
    BlockTells(parse, IN_GROUP, SecondBlock(), h, IN_REASON, all);
  }

  function Spoken(leaf: ReasonLeaf, text: string, block: nat, earlier: Texts<GroupLeaf>): Texts<GroupLeaf> {
    Spoke(GroupReason(leaf), text, block, earlier)
  }

  function FirstTexts(): Texts<GroupLeaf> { Spoken(Originator, "A", 1, Spoken(Code, "DUPL", 1, Silent)) }

  /** What the two blocks say together. */
  function BothTexts(): Texts<GroupLeaf> {
    Spoken(Originator, "B", 2, Spoken(Info, "text", 2, Spoken(Code, "TECH", 2, FirstTexts())))
  }

  lemma MixedReason()
    ensures GroupOf(BothTexts()).reason == MIXED
  {
    GroupReasonOf(BothTexts());
    var first := Spoke(Originator, "A", 1, Spoke(Code, "DUPL", 1, Silent));
    assert ReasonOf(first) == Reason(Some("DUPL"), [], Some("A"));
    assert [] + ["text"] == ["text"];
    assert ReasonOf(Spoke(Code, "TECH", 2, first)) == ReasonOf(first);
  }

  lemma TwoThenNothing(parse: Stream -> TxInf, path: seq<string>, f: Forest, h: Heard, one: Heard, after: Heard)
    requires !f.Nil? && !f.next.Nil? && f.next.next.Nil?
    requires TellNode(parse, false, path, 0, f, h) == Told([], one)
    requires TellNode(parse, false, path, 0, f.next, one) == Told([], after)
    ensures Tell(parse, false, path, 0, f, h) == Told([], after)
  {
    assert Tell(parse, false, path, 0, f.next.next, after) == Told([], after);
    OneThenNext(parse, path, 0, f.next, one, after, after);
    OneThenNext(parse, path, 0, f, h, one, after);
  }

  lemma FirstHeard(h: Heard)
    requires h.blocks == 0 && h.group.Silent?
    ensures Say(Say(h.(blocks := h.blocks + 1), Code, "DUPL", h.blocks + 1), Originator, "A", h.blocks + 1)
      == h.(blocks := 1, group := FirstTexts())
  {
  }

  lemma FirstBlockAndOne(parse: Stream -> TxInf, g: Forest, h: Heard, both: Heard)
    requires h.asked && h.blocks == 0 && h.group.Silent? && !g.Nil? && g.next.Nil?
    requires TellNode(parse, false, IN_GROUP, 0, g, h.(blocks := 1, group := FirstTexts())) == Told([], both)
    ensures Tell(parse, false, IN_GROUP, 0, FirstBlock(g), h) == Told([], both)
  {
    var f, first := FirstBlock(g), h.(blocks := 1, group := FirstTexts());
    assert TellNode(parse, false, IN_GROUP, 0, f, h) == Told([], first) by {
      FirstBlockTells(parse, g, h);
      FirstHeard(h);
    }
    assert f.next == g && !f.Nil?;
    TwoThenNothing(parse, IN_GROUP, f, h, first, both);
  }

  lemma BlocksTell(parse: Stream -> TxInf, h: Heard)
    requires h.asked && h.blocks == 0 && h.group.Silent?
    ensures Tell(parse, false, IN_GROUP, 0, FirstBlock(SecondBlock()), h)
      == Told([], h.(blocks := 2, group := BothTexts()))
  {
    SecondBlockTells(parse, h.(blocks := 1, group := FirstTexts()));
    FirstBlockAndOne(parse, SecondBlock(), h, h.(blocks := 2, group := BothTexts()));
  }

  lemma ToldOfTwoBlocks(parse: Stream -> TxInf)
    requires parse(Body("TxInf", Nil)).reasons == []
    ensures var rows := Tell(parse, false, [], 0, TwoBlocks(), NOTHING_HEARD).rows;
      |rows| == 2 && rows[1].scope == TRANSACTION && rows[1].reason == MIXED
  {
    var h := Heard(NO_ASSIGNMENT, Silent, Silent, true, true, 0);
    BlocksTell(parse, h);
    MixedReason();
    ToldOfOneGroup(parse, TwoBlocks(), h, h.(blocks := 2, group := BothTexts()));
  }

  /** A file that is one request with one Undrlyg, in it a group and a transaction. */
  lemma ToldOfOneGroup(parse: Stream -> TxInf, f: Forest, h: Heard, both: Heard)
    requires f.Elem? && f.name == "CstmrPmtCxlReq" && f.next.Nil?
    requires h == Heard(NO_ASSIGNMENT, Silent, Silent, true, true, 0) && both.asked && both.payment.Silent?
    requires f.kids.Elem? && f.kids.name == "Undrlyg" && f.kids.next.Nil?
    requires f.kids.kids.Elem? && f.kids.kids.name == "OrgnlGrpInfAndCxl" && f.kids.kids.binds.None?
    requires f.kids.kids.next == Elem("TxInf", None, Nil, Nil)
    requires Tell(parse, false, IN_GROUP, 0, f.kids.kids.kids, h) == Told([], both)
    ensures Tell(parse, false, [], 0, f, NOTHING_HEARD).rows
      == [GroupRow(both.assign, GroupOf(both.group)),
          TxRow(parse(Body("TxInf", Nil)), both.assign, GroupOf(both.group), PaymentOf(both.payment))]
  {
    UndrlygTells(parse, ["CstmrPmtCxlReq"], f.kids, h, both);
    var rows := [GroupRow(both.assign, GroupOf(both.group))]
      + [TxRow(parse(Body("TxInf", Nil)), both.assign, GroupOf(both.group), PaymentOf(both.payment))];
    RequestTells(parse, f, h, Told(rows, both));
  }

  /** A file that is one request. */
  lemma RequestTells(parse: Stream -> TxInf, f: Forest, h: Heard, inner: Told)
    requires f.Elem? && f.name == "CstmrPmtCxlReq" && f.next.Nil?
    requires h == Heard(NO_ASSIGNMENT, Silent, Silent, true, true, 0)
    requires Tell(parse, false, ["CstmrPmtCxlReq"], 0, f.kids, h) == inner
    ensures Tell(parse, false, [], 0, f, NOTHING_HEARD).rows == inner.rows
  {
    assert [] + ["CstmrPmtCxlReq"] == ["CstmrPmtCxlReq"];
    assert Opened(NOTHING_HEARD, "CstmrPmtCxlReq") == h;
    assert TellNode(parse, false, [], 0, f, NOTHING_HEARD).rows == inner.rows + [];
    assert inner.rows + [] + [] == inner.rows;
  }

  lemma GroupStarts(h: Heard)
    requires h.asked
    ensures Opened(h, "OrgnlGrpInfAndCxl") == h && !IsTx("OrgnlGrpInfAndCxl", h)
    ensures EndRow("OrgnlGrpInfAndCxl", h) == [GroupRow(h.assign, GroupOf(h.group))]
    ensures Ended(h, "OrgnlGrpInfAndCxl", false) == h
  {
    PlainNames();
  }

  lemma UndrlygStarts(h: Heard)
    requires h.asked
    ensures Opened(h, "Undrlyg") == h.(group := Silent, payment := Silent) && !IsTx("Undrlyg", h)
    ensures EndRow("Undrlyg", h) == [] && Ended(h, "Undrlyg", false) == h
  {
    PlainNames();
  }

  const IN_UNDRLYG: seq<string> := ["CstmrPmtCxlReq", "Undrlyg"]

  lemma GroupTells(parse: Stream -> TxInf, kids: Forest, next: Forest, h: Heard, after: Heard)
    requires h.asked && after.asked && Tell(parse, false, IN_GROUP, 0, kids, h) == Told([], after)
    ensures TellNode(parse, false, IN_UNDRLYG, 0, Elem("OrgnlGrpInfAndCxl", None, kids, next), h)
      == Told([GroupRow(after.assign, GroupOf(after.group))], after)
  {
    var row := [GroupRow(after.assign, GroupOf(after.group))];
    GroupStarts(h);
    GroupStarts(after);
    ElementTells(parse, IN_UNDRLYG, 0, Elem("OrgnlGrpInfAndCxl", None, kids, next), h, IN_GROUP, 0, h,
        Told([], after), row);
    assert [] + row == row;
  }

  lemma TxTells(parse: Stream -> TxInf, path: seq<string>, block: nat, h: Heard)
    requires h.asked
    ensures Tell(parse, false, path, block, Elem("TxInf", None, Nil, Nil), h)
      == Told([TxRow(parse(Body("TxInf", Nil)), h.assign, GroupOf(h.group), PaymentOf(h.payment))], h)
  {
    var tx := Elem("TxInf", None, Nil, Nil);
    assert Tell(parse, false, path, block, tx.next, h) == Told([], h);
  }

  lemma UndrlygTells(parse: Stream -> TxInf, path: seq<string>, f: Forest, h: Heard, both: Heard)
    requires h.asked && h.group.Silent? && h.payment.Silent? && both.asked && path + ["Undrlyg"] == IN_UNDRLYG
    requires f.Elem? && f.name == "Undrlyg" && f.next.Nil? && f.kids.Elem? && f.kids.name == "OrgnlGrpInfAndCxl"
    requires f.kids.binds == None && f.kids.next == Elem("TxInf", None, Nil, Nil)
    requires Tell(parse, false, IN_GROUP, 0, f.kids.kids, h) == Told([], both)
    ensures Tell(parse, false, path, 0, f, h)
      == Told([GroupRow(both.assign, GroupOf(both.group))]
              + [TxRow(parse(Body("TxInf", Nil)), both.assign, GroupOf(both.group), PaymentOf(both.payment))], both)
  {
    GroupTells(parse, f.kids.kids, f.kids.next, h, both);
    TxTells(parse, IN_UNDRLYG, 0, both);
    UndrlygAround(parse, path, f, h, IN_UNDRLYG, both,
      TellNode(parse, false, IN_UNDRLYG, 0, f.kids, h).rows, Tell(parse, false, IN_UNDRLYG, 0, f.kids.next, both).rows);
  }

  /** An Undrlyg of two parts. */
  lemma UndrlygAround(
      parse: Stream -> TxInf, path: seq<string>, f: Forest, h: Heard, there: seq<string>, after: Heard,
      first: seq<Row>, rest: seq<Row>)
    requires h.asked && h.group.Silent? && h.payment.Silent? && after.asked
    requires f.Elem? && f.name == "Undrlyg" && f.next.Nil? && f.kids.Elem? && there == path + ["Undrlyg"]
    requires TellNode(parse, false, there, 0, f.kids, h) == Told(first, after)
    requires Tell(parse, false, there, 0, f.kids.next, after) == Told(rest, after)
    ensures Tell(parse, false, path, 0, f, h) == Told(first + rest, after)
  {
    UndrlygStarts(h);
    UndrlygStarts(after);
    ElementTells(parse, path, 0, f, h, there, 0, h, Told(first + rest, after), []);
    assert first + rest + [] == first + rest;
  }
}
