/**
  The rest of the scan in src/lib.rs: which files a call reads, how many threads it
  gets, and the sequential scan the parallel one is measured against.
*/
module SequentialScan {
  import opened Options
  import opened ParallelScan
  import opened ParallelAnswers

  // ── which files ──

  /** Each name once, at its first place. */
  function FirstPlaces(names: seq<string>): seq<string> {
    if names == [] then []
    else
      var earlier := FirstPlaces(names[..|names| - 1]);
      if names[|names| - 1] in earlier then earlier else earlier + [names[|names| - 1]]
  }

  lemma FirstPlacesGrow(names: seq<string>, name: string)
    ensures FirstPlaces(names + [name])
      == if name in FirstPlaces(names) then FirstPlaces(names) else FirstPlaces(names) + [name]
  {
    assert (names + [name])[..|names|] == names;
  }

  /** Where a name first stands. */
  function IndexOf(names: seq<string>, name: string): (k: nat)
    requires name in names
    ensures k < |names| && names[k] == name && name !in names[..k]
    decreases |names|
  {
    if names[0] == name then 0
    else
      var k := IndexOf(names[1..], name) + 1;
      assert forall j | 1 <= j < k :: names[j] == names[1..][..k - 1][j - 1];
      k
  }

  /** No name is lost, made up or kept twice, and the order is that of the first places. */
  lemma {:induction false} FirstPlacesMeaning(names: seq<string>)
    ensures forall n :: n in FirstPlaces(names) <==> n in names
    ensures forall i, j | 0 <= i < j < |FirstPlaces(names)| ::
      IndexOf(names, FirstPlaces(names)[i]) < IndexOf(names, FirstPlaces(names)[j])
  {
    if names != [] {
      var front, last := names[..|names| - 1], names[|names| - 1];
      FirstPlacesMeaning(front);
      assert names == front + [last];
      forall n | n in front ensures IndexOf(names, n) == IndexOf(front, n) {
        IndexInFront(front, last, n);
      }
      if last !in front {
        assert IndexOf(names, last) == |front|;
      }
    }
  }

  lemma IndexInFront(front: seq<string>, last: string, name: string)
    requires name in front
    ensures IndexOf(front + [last], name) == IndexOf(front, name)
  {
    var whole := front + [last];
    var k := IndexOf(front, name);
    assert whole[k] == name && whole[..k] == front[..k];
  }

  /** Every name the patterns stand for up to the first pattern that cannot be resolved. */
  function Listed(patterns: seq<string>, resolve: string -> Option<seq<string>>): Option<seq<string>> {
    if patterns == [] then Some([])
    else
      match Listed(patterns[..|patterns| - 1], resolve)
      case None => None
      case Some(names) =>
        match resolve(patterns[|patterns| - 1])
        case None => None
        case Some(more) => Some(names + more)
  }

  lemma {:induction false} OneUnresolved(patterns: seq<string>, k: nat, resolve: string -> Option<seq<string>>)
    requires k < |patterns| && resolve(patterns[k]).None?
    ensures Listed(patterns, resolve).None?
  {
    if k < |patterns| - 1 {
      OneUnresolved(patterns[..|patterns| - 1], k, resolve);
    }
  }

  ghost predicate SameNames(seen: set<string>, files: seq<string>) { forall f :: f in seen <==> f in files }

  lemma ListedStep(patterns: seq<string>, p: nat, resolve: string -> Option<seq<string>>, names: seq<string>)
    requires p < |patterns| && Listed(patterns[..p], resolve) == Some(names)
    ensures Listed(patterns[..p + 1], resolve)
      == match resolve(patterns[p]) case None => None case Some(more) => Some(names + more)
  {
    assert patterns[..p + 1][..p] == patterns[..p];
  }

  /** The inner loop: the names of one pattern, each kept where it is new. */
  method AddNames(found: seq<string>, known: set<string>, kept: seq<string>, ghost names: seq<string>)
    returns (seen: set<string>, files: seq<string>)
    requires kept == FirstPlaces(names) && SameNames(known, kept)
    ensures files == FirstPlaces(names + found) && SameNames(seen, files)
  {
    seen, files := known, kept;
    assert names + found[..0] == names;
    for i := 0 to |found|
      invariant files == FirstPlaces(names + found[..i]) && SameNames(seen, files)
    {
      FirstPlacesGrow(names + found[..i], found[i]);
      assert names + found[..i + 1] == (names + found[..i]) + [found[i]];
      if found[i] !in seen {
        seen, files := seen + {found[i]}, files + [found[i]];
      }
    }
    assert found[..|found|] == found;
  }

  /** The files a call reads, `resolve` standing for the file system. */
  method ResolvePaths(patterns: seq<string>, resolve: string -> Option<seq<string>>) returns (r: Option<seq<string>>)
    ensures r.None? <==> Listed(patterns, resolve).None?
    ensures r.Some? ==> r.value == FirstPlaces(Listed(patterns, resolve).value)
  {
    var seen: set<string> := {};
    var files: seq<string> := [];
    ghost var names: seq<string> := [];
    for p := 0 to |patterns|
      invariant Listed(patterns[..p], resolve) == Some(names)
      invariant files == FirstPlaces(names)
      invariant SameNames(seen, files)
    {
      ListedStep(patterns, p, resolve, names);
      var resolved := resolve(patterns[p]);
      if resolved.None? {
        OneUnresolved(patterns, p, resolve);
        return None;
      }
      seen, files := AddNames(resolved.value, seen, files, names);
      names := names + resolved.value;
    }
    assert patterns[..|patterns|] == patterns;
    return Some(files);
  }

  // ── how many threads ──

  /** At most one thread a file; one or none means sequential. */
  function EffectiveThreads(requested: Option<int>, nfiles: nat, parallelism: nat): (threads: nat)
    ensures nfiles <= 1 ==> threads <= 1
    ensures threads <= 1 || threads <= nfiles
    ensures requested.None? ==> threads <= parallelism
    ensures requested.Some? && requested.value < 1 ==> threads == 1
    ensures requested.Some? && requested.value >= 1 ==>
      threads <= requested.value && threads <= 4 * parallelism
      && (threads == requested.value || threads == nfiles || threads == 4 * parallelism)
    ensures requested.None? && threads < nfiles ==> threads == parallelism
  {
    match requested
    case Some(n) => if n >= 1 then Min(Min(n, nfiles), parallelism * 4) else 1
    case None => Min(parallelism, nfiles)
  }

  function Min(a: nat, b: nat): nat { if a <= b then a else b }

  // ── one vector of rows at a time ──

  /** What a scan standing at row `at` of file `idx` can still hand out: the rows up to the
      end of the first file that does not finish. */
  function Ahead<T>(files: seq<File<T>>, idx: nat, at: nat): seq<T>
    decreases |files| - idx
  {
    if idx >= |files| then []
    else
      var rest := if at <= |files[idx].rows| then files[idx].rows[at..] else [];
      if files[idx].fate.Finishes? then rest + Ahead(files, idx + 1, 0) else rest
  }

  /** Every file from `idx` on can be read. */
  predicate Readable<T>(files: seq<File<T>>, idx: nat) {
    forall i | idx <= i < |files| :: files[i].fate.Finishes?
  }

  /** What a call hands out of the rows ahead: a full vector, the last few rows, or the failure behind them. */
  function Pull<T>(ahead: seq<T>, readable: bool): Seen<T> {
    if |ahead| >= VECTOR_SIZE then Rows(ahead[..VECTOR_SIZE])
    else if readable then Rows(ahead)
    else Failed
  }

  datatype NextRowResult<T> = Row(row: T) | End | Failure

  /** Where a sequential scan is: which file, and how many rows its open reader has handed out. */
  class ScanState {
    var idx: nat
    var cur: Option<nat>

    constructor ()
      ensures idx == 0 && cur == None
    {
      idx := 0;
      cur := None;
    }

    ghost function At(): nat
      reads this
    {
      if cur.Some? then cur.value else 0
    }

    ghost predicate Valid<T>(files: seq<File<T>>)
      reads this
    {
      cur.Some? ==> idx < |files| && cur.value <= |files[idx].rows|
    }

    ghost function Rest<T>(files: seq<File<T>>): seq<T>
      reads this
    {
      Ahead(files, idx, At())
    }

    ghost function Unread<T>(files: seq<File<T>>): nat
      reads this
      requires Valid(files)
    {
      if idx < |files| then |files[idx].rows| - At() else 0
    }

    /** The open reader's next row, the end of its file, or its failure. */
    method NextRow<T>(files: seq<File<T>>) returns (r: NextRowResult<T>)
      requires Valid(files) && cur.Some?
      modifies this`cur
      ensures Valid(files) && cur.Some?
      ensures r.Row? ==> old(Rest(files)) == [r.row] + Rest(files) && Unread(files) < old(Unread(files))
      ensures r.End? ==> old(Rest(files)) == Ahead(files, idx + 1, 0)
      ensures r.End? ==> Readable(files, idx) == Readable(files, idx + 1)
      ensures r.Failure? ==> old(Rest(files)) == [] && !Readable(files, idx)
    {
      var at := cur.value;
      AheadStep(files, idx, at);
      if at < |files[idx].rows| {
        cur := Some(at + 1);
        return Row(files[idx].rows[at]);
      }
      return if files[idx].fate.Finishes? then End else Failure;
    }

    /** Hands out the next vector of the rows ahead, from as many files as it takes. */
    method PullBatch<T>(files: seq<File<T>>) returns (r: Seen<T>)
      requires Valid(files)
      modifies this
      ensures Valid(files)
      ensures r == Pull(old(Rest(files)), old(Readable(files, idx)))
      ensures r.Rows? ==> old(Rest(files)) == r.rows + Rest(files)
      ensures r.Rows? ==> Readable(files, idx) == old(Readable(files, idx))
      ensures r.Rows? && |r.rows| < VECTOR_SIZE ==> idx >= |files|
    {
      var batch: seq<T> := [];
      ghost var ahead, readable := Rest(files), Readable(files, idx);
      ghost var rest := ahead;
      while |batch| < VECTOR_SIZE
        invariant Valid(files)
        invariant |batch| <= VECTOR_SIZE
        invariant rest == Rest(files) && ahead == batch + rest
        invariant Readable(files, idx) == readable
        decreases |files| - idx, Unread(files)
      {
        if cur.None? {
          if idx >= |files| { break; }
          cur := Some(0);
        }
        var next := NextRow(files);
        match next
        case Row(row) =>
          rest := Rest(files);
          Regrouped(batch, row, rest);
          batch := batch + [row];
        case End =>
          cur := None;
          idx := idx + 1;
        case Failure =>
          return Failed;
      }
      PullIsFront(batch, Rest(files), readable, idx >= |files|);
      return Rows(batch);
    }
  }

  lemma Regrouped<T>(batch: seq<T>, row: T, rest: seq<T>)
    ensures batch + ([row] + rest) == (batch + [row]) + rest
  {
  }

  lemma AheadStep<T>(files: seq<File<T>>, idx: nat, at: nat)
    requires idx < |files| && at <= |files[idx].rows|
    ensures at < |files[idx].rows| ==> Ahead(files, idx, at) == [files[idx].rows[at]] + Ahead(files, idx, at + 1)
    ensures at == |files[idx].rows| && files[idx].fate.Finishes? ==>
      Ahead(files, idx, at) == Ahead(files, idx + 1, 0) && Readable(files, idx) == Readable(files, idx + 1)
    ensures at == |files[idx].rows| && !files[idx].fate.Finishes? ==>
      Ahead(files, idx, at) == [] && !Readable(files, idx)
  {
    var rows := files[idx].rows;
    if at < |rows| {
      SplitRow(rows, at, if files[idx].fate.Finishes? then Ahead(files, idx + 1, 0) else []);
      assert rows[at..] + [] == rows[at..] && rows[at + 1..] + [] == rows[at + 1..];
    } else {
      assert rows[at..] == [] && [] + Ahead(files, idx + 1, 0) == Ahead(files, idx + 1, 0);
    }
  }

  lemma SplitRow<T>(rows: seq<T>, at: nat, tail: seq<T>)
    requires at < |rows|
    ensures rows[at..] + tail == [rows[at]] + (rows[at + 1..] + tail)
  {
  }

  lemma PullIsFront<T>(batch: seq<T>, rest: seq<T>, readable: bool, over: bool)
    requires |batch| == VECTOR_SIZE || (|batch| < VECTOR_SIZE && over && rest == [] && readable)
    ensures Pull(batch + rest, readable) == Rows(batch)
  {
    if |batch| == VECTOR_SIZE {
      assert (batch + rest)[..VECTOR_SIZE] == batch;
    }
  }

  /** The batches of a scan with these rows ahead, to the first empty vector or the first error. */
  function Batches<T>(ahead: seq<T>, readable: bool): seq<Seen<T>>
    decreases |ahead|
  {
    var r := Pull(ahead, readable);
    if r.Failed? || |r.rows| == 0 then [r] else [r] + Batches(ahead[|r.rows|..], readable)
  }

  function RowsSeen<T>(batches: seq<Seen<T>>): seq<T> {
    if |batches| == 0 then []
    else (match batches[0] case Rows(rows) => rows case Failed => []) + RowsSeen(batches[1..])
  }

  /** Repeated pulls hand out the rows ahead in order, in vectors none of which is empty before
      the end; where a file cannot be read they end in the error, never in an empty vector. */
  lemma {:induction false} BatchesInOrder<T>(ahead: seq<T>, readable: bool)
    ensures RowsSeen(Batches(ahead, readable)) <= ahead
    ensures readable ==> RowsSeen(Batches(ahead, readable)) == ahead
    ensures var b := Batches(ahead, readable);
      && b[|b| - 1] == (if readable then Rows([]) else Failed)
      && (forall k | 0 <= k < |b| - 1 :: b[k].Rows? && 0 < |b[k].rows| <= 2048)
      && (forall k | 0 <= k < |b| - 2 :: |b[k].rows| == 2048)
    decreases |ahead|
  {
    var r := Pull(ahead, readable);
    if r.Rows? && |r.rows| > 0 {
      var rest := ahead[|r.rows|..];
      BatchesInOrder(rest, readable);
      assert Batches(ahead, readable)[1..] == Batches(rest, readable);
      assert ahead == r.rows + rest;
    } else {
      assert Batches(ahead, readable)[1..] == [];
    }
  }

  lemma {:induction false} AheadIsConcatenated<T>(files: seq<File<T>>, idx: nat)
    requires Readable(files, 0) && idx <= |files|
    ensures Concatenated(files) == Concatenated(files[..idx]) + Ahead(files, idx, 0)
    decreases |files| - idx
  {
    if idx == |files| {
      assert files[..idx] == files;
    } else {
      AheadIsConcatenated(files, idx + 1);
      assert files[..idx + 1][..idx] == files[..idx];
    }
  }

  /** The sequential scan of readable files is their rows in argument order. */
  lemma SequentialIsArgumentOrder<T>(files: seq<File<T>>)
    requires Readable(files, 0)
    ensures RowsSeen(Batches(Ahead(files, 0, 0), true)) == Concatenated(files)
  {
    AheadIsConcatenated(files, 0);
    BatchesInOrder(Ahead(files, 0, 0), true);
  }

  /** However the workers interleave, a consumer that listens to the end receives a
      permutation of what the sequential scan hands out. */
  lemma ParallelIsSequential<T>(files: seq<File<T>>, threads: nat, actions: seq<Action>)
    requires Readable(files, 0) && threads > 0 && Drop !in actions
    requires Run(files, Initial(files, threads), actions).Some?
    requires forall a: Action | !a.Drop? :: Act(files, Run(files, Initial(files, threads), actions).value, a).None?
    ensures multiset(RowsAnswered(Answers(files, Initial(files, threads), actions)))
      == multiset(RowsSeen(Batches(Ahead(files, 0, 0), true)))
  {
    EndsQuietlyExactlyWhenReadable(files, threads, actions);
    NoSilentLoss(files, threads, actions);
    SequentialIsArgumentOrder(files);
  }

  /** Both scans report an error on exactly the same file lists. */
  lemma BothFailTogether<T>(files: seq<File<T>>, threads: nat, actions: seq<Action>)
    requires threads > 0 && Drop !in actions
    requires Run(files, Initial(files, threads), actions).Some?
    requires forall a: Action | !a.Drop? :: Act(files, Run(files, Initial(files, threads), actions).value, a).None?
    ensures AnswersFailure(Answers(files, Initial(files, threads), actions))
      <==> Failed in Batches(Ahead(files, 0, 0), Readable(files, 0))
  {
    EndsQuietlyExactlyWhenReadable(files, threads, actions);
    FailedIsLast(Ahead(files, 0, 0), Readable(files, 0));
  }

  lemma FailedIsLast<T>(ahead: seq<T>, readable: bool)
    ensures Failed in Batches(ahead, readable) <==> !readable
  {
    BatchesInOrder(ahead, readable);
    var b := Batches(ahead, readable);
    if !readable {
      assert b[|b| - 1] == Failed;
    }
  }
}
