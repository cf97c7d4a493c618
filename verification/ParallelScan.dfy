/**
  The parallel scan of src/lib.rs as a transition system: each worker
  takes the number of its next file off one counter and sends the rows in
  batches over a bounded channel to one consumer, who may stop at any time.
*/
module ParallelScan {
  import opened Options

  /** Rows in a full batch. */
  const VECTOR_SIZE: nat := 2048

  /** How reading a file ends once its rows are out; one that does not open has none and fails. */
  datatype Fate = Finishes | Fails | Panics

  datatype File<T> = File(rows: seq<T>, fate: Fate)

  datatype Message<T> = Batch(file: nat, rows: seq<T>) | Error(file: nat)

  /** What a worker thread is doing. `at` counts the rows read of its file, `batch` holds those not yet sent. */
  datatype Worker<T> =
    | Claiming
    | Scanning(file: nat, at: nat, batch: seq<T>)
    | SendingFull(file: nat, at: nat, batch: seq<T>)
    | SendingLast(file: nat, batch: seq<T>)
    | SendingError(file: nat)
    | Exited

  /** Where a file stands. No step reads this: it is the history the invariant speaks of. */
  datatype Status = Unclaimed | Held(worker: nat) | Delivered | Broken | Abandoned

  /** `log` is every message ever sent; the first `taken` have been received and, while the
      receiver is `alive`, the others are in the channel. */
  datatype State<T> = State(
    next: nat,
    workers: seq<Worker<T>>,
    log: seq<Message<T>>,
    taken: nat,
    alive: bool,
    hand: Option<Message<T>>,
    status: seq<Status>)

  function Initial<T>(files: seq<File<T>>, threads: nat): State<T> {
    State(0, seq(threads, _ => Claiming), [], 0, true, None, seq(|files|, _ => Unclaimed))
  }

  function Capacity<T>(s: State<T>): nat { 2 * |s.workers| }

  function Queued<T>(s: State<T>): int { if s.alive then |s.log| - s.taken else 0 }

  // ── the steps ──

  datatype Action = Work(worker: nat) | Receive | Release | Drop

  function Becomes<T>(s: State<T>, w: nat, worker: Worker<T>): State<T>
    requires w < |s.workers|
  {
    s.(workers := s.workers[w := worker])
  }

  function Mark<T>(s: State<T>, file: nat, status: Status): State<T> {
    if file < |s.status| then s.(status := s.status[file := status]) else s
  }

  function Claim<T>(files: seq<File<T>>, s: State<T>, w: nat): State<T>
    requires w < |s.workers|
  {
    var claimed := s.(next := s.next + 1);
    if s.next < |files| then Mark(Becomes(claimed, w, Scanning(s.next, 0, [])), s.next, Held(w))
    else Becomes(claimed, w, Exited)
  }

  /** One row pulled, or the end of the file met. A panic loses the rows not yet sent, and is caught. */
  function Read<T>(files: seq<File<T>>, s: State<T>, w: nat): State<T>
    requires w < |s.workers| && s.workers[w].Scanning? && s.workers[w].file < |files|
  {
    var Scanning(i, at, batch) := s.workers[w];
    if at < |files[i].rows| then
      var more := batch + [files[i].rows[at]];
      Becomes(s, w, if |more| == VECTOR_SIZE then SendingFull(i, at + 1, more) else Scanning(i, at + 1, more))
    else if !files[i].fate.Finishes? then Becomes(s, w, SendingError(i))
    else if |batch| == 0 then Mark(Becomes(s, w, Claiming), i, Delivered)
    else Becomes(s, w, SendingLast(i, batch))
  }

  predicate Sending<T>(w: Worker<T>) { w.SendingFull? || w.SendingLast? || w.SendingError? }

  /** A send that succeeds, that fails because the receiver is gone, or that waits for room. */
  function Send<T>(s: State<T>, w: nat): Option<State<T>>
    requires w < |s.workers|
    requires Sending(s.workers[w])
  {
    var i := s.workers[w].file;
    if !s.alive then Some(Mark(Becomes(s, w, Exited), i, Abandoned))
    else if Queued(s) >= Capacity(s) then None
    else
      Some(match s.workers[w]
        case SendingFull(_, at, batch) => Becomes(s, w, Scanning(i, at, [])).(log := s.log + [Batch(i, batch)])
        case SendingLast(_, batch) => Mark(Becomes(s, w, Claiming), i, Delivered).(log := s.log + [Batch(i, batch)])
        case _ => Mark(Becomes(s, w, Exited), i, Broken).(log := s.log + [Error(i)]))
  }

  /** The state an action leads to; None when it is not enabled. */
  function Act<T>(files: seq<File<T>>, s: State<T>, a: Action): Option<State<T>> {
    match a
    case Work(w) =>
      if w >= |s.workers| then None
      else (match s.workers[w]
        case Exited => None
        case Claiming => Some(Claim(files, s, w))
        case Scanning(i, _, _) => if i < |files| then Some(Read(files, s, w)) else None
        case _ => Send(s, w))
    case Receive =>
      if s.alive && s.hand.None? && s.taken < |s.log| then
        Some(s.(taken := s.taken + 1, hand := Some(s.log[s.taken])))
      else None
    case Release => if s.hand.Some? then Some(s.(hand := None)) else None
    case Drop => if s.alive then Some(s.(alive := false)) else None
  }

  /** A run: every action enabled where it is taken. */
  function Run<T>(files: seq<File<T>>, s: State<T>, actions: seq<Action>): Option<State<T>>
    decreases |actions|
  {
    if actions == [] then Some(s)
    else match Act(files, s, actions[0])
      case None => None
      case Some(s') => Run(files, s', actions[1..])
  }

  // ── what is delivered ──

  /** The rows of one file among the messages, in the order they were sent. */
  function RowsOf<T>(log: seq<Message<T>>, file: nat): seq<T> {
    if |log| == 0 then []
    else
      var m := log[|log| - 1];
      RowsOf(log[..|log| - 1], file) + if m.Batch? && m.file == file then m.rows else []
  }

  predicate HasError<T>(log: seq<Message<T>>) { exists k | 0 <= k < |log| :: log[k].Error? }

  // ── the invariant ──

  function FileOf<T>(w: Worker<T>): Option<nat> {
    if w.Claiming? || w.Exited? then None else Some(w.file)
  }

  /** The rows a worker has read and not sent, and how many it has read in all. */
  function Unsent<T>(w: Worker<T>): seq<T> {
    if w.Scanning? || w.SendingFull? || w.SendingLast? then w.batch else []
  }

  ghost predicate WorkerOk<T>(files: seq<File<T>>, s: State<T>, w: nat)
    requires w < |s.workers|
  {
    match s.workers[w]
    case Claiming => true
    case Scanning(i, at, batch) => i < |files| && at <= |files[i].rows| && |batch| < VECTOR_SIZE
    case SendingFull(i, at, batch) => i < |files| && at <= |files[i].rows| && |batch| == VECTOR_SIZE
    case SendingLast(i, batch) => i < |files| && 0 < |batch| < VECTOR_SIZE && files[i].fate.Finishes?
    case SendingError(i) => i < |files| && !files[i].fate.Finishes?
    case Exited => !s.alive || HasError(s.log) || s.next > |files|
  }

  /** What a held file's worker has sent and still holds is what it has read, from the first row on. */
  ghost predicate HeldOk<T>(file: File<T>, sent: seq<T>, w: Worker<T>) {
    match w
    case Scanning(_, at, batch) => at <= |file.rows| && sent + batch == file.rows[..at]
    case SendingFull(_, at, batch) => at <= |file.rows| && sent + batch == file.rows[..at]
    case SendingLast(_, batch) => sent + batch == file.rows
    case SendingError(_) => sent <= file.rows
    case _ => false
  }

  ghost predicate FileOk<T>(files: seq<File<T>>, s: State<T>, i: nat)
    requires i < |files| == |s.status|
  {
    var sent := RowsOf(s.log, i);
    match s.status[i]
    case Unclaimed => i >= s.next && sent == []
    case Held(w) =>
      i < s.next && w < |s.workers| && FileOf(s.workers[w]) == Some(i) && HeldOk(files[i], sent, s.workers[w])
    case Delivered => i < s.next && sent == files[i].rows && files[i].fate.Finishes?
    case Broken => i < s.next && sent <= files[i].rows && Error(i) in s.log
    case Abandoned => i < s.next && sent <= files[i].rows && !s.alive
  }

  ghost predicate MessageOk<T>(files: seq<File<T>>, s: State<T>, m: Message<T>) {
    && m.file < |files|
    && m.file < s.next
    && (m.Batch? ==> 0 < |m.rows| <= VECTOR_SIZE)
    && (m.Error? ==> !files[m.file].fate.Finishes?)
  }

  ghost predicate Inv<T>(files: seq<File<T>>, s: State<T>) {
    && |s.status| == |files|
    && s.taken <= |s.log|
    && Queued(s) <= Capacity(s)
    && (s.hand.Some? ==> s.hand.value in s.log)
    && (forall k | 0 <= k < |s.log| :: MessageOk(files, s, s.log[k]))
    && (forall w | 0 <= w < |s.workers| :: WorkerOk(files, s, w))
    && (forall w | 0 <= w < |s.workers| && FileOf(s.workers[w]).Some? :: Holds(files, s, w))
    && (forall i | 0 <= i < |files| :: FileOk(files, s, i))
  }

  /** A worker's file says so. */
  ghost predicate Holds<T>(files: seq<File<T>>, s: State<T>, w: nat)
    requires w < |s.workers| && FileOf(s.workers[w]).Some?
  {
    var i := FileOf(s.workers[w]).value;
    i < |s.status| && s.status[i] == Held(w)
  }

  lemma RowsOfSent<T>(log: seq<Message<T>>, m: Message<T>, file: nat)
    ensures RowsOf(log + [m], file) == RowsOf(log, file) + if m.Batch? && m.file == file then m.rows else []
  {
    assert (log + [m])[..|log|] == log;
  }

  lemma InitialInv<T>(files: seq<File<T>>, threads: nat)
    ensures Inv(files, Initial(files, threads))
  {
  }

  // ── every step keeps it ──

  /** A step of worker `w` away from file `i`: the other workers and the other files stay as they were. */
  ghost predicate Elsewhere<T>(s: State<T>, t: State<T>, w: nat, i: nat) {
    && w < |s.workers| == |t.workers|
    && |s.status| == |t.status|
    && s.next <= t.next
    && s.alive == t.alive
    && (forall v | 0 <= v < |s.workers| && v != w :: t.workers[v] == s.workers[v])
    && (forall j | 0 <= j < |s.status| && j != i :: t.status[j] == s.status[j])
  }

  /** Where the log does not change for the other files, what held of them still does. */
  lemma OthersKept<T>(files: seq<File<T>>, s: State<T>, t: State<T>, w: nat, i: nat)
    requires Inv(files, s) && Elsewhere(s, t, w, i)
    requires
      || (FileOf(s.workers[w]) == Some(i) && t.next == s.next)
      || (FileOf(s.workers[w]) == None && i == s.next && t.next == s.next + 1)
    requires s.log == t.log || exists m: Message<T> :: m.file == i && t.log == s.log + [m]
    ensures forall j | 0 <= j < |files| && j != i :: FileOk(files, t, j)
    ensures forall v | 0 <= v < |s.workers| && v != w :: WorkerOk(files, t, v)
    ensures forall v | 0 <= v < |s.workers| && v != w && FileOf(t.workers[v]).Some? :: Holds(files, t, v)
  {
    assert forall j | 0 <= j < |files| :: FileOk(files, s, j);
    forall j | 0 <= j < |files| && j != i ensures FileOk(files, t, j) {
      assert FileOk(files, s, j);
      if s.log != t.log {
        var m: Message<T> :| m.file == i && t.log == s.log + [m];
        RowsOfSent(s.log, m, j);
      }
      assert s.status[j].Held? ==> s.status[j].worker != w;
    }
    forall v | 0 <= v < |s.workers| && v != w ensures WorkerOk(files, t, v) {
      assert WorkerOk(files, s, v);
      assert forall k | 0 <= k < |s.log| :: t.log[k] == s.log[k];
    }
    forall v | 0 <= v < |s.workers| && v != w && FileOf(t.workers[v]).Some? ensures Holds(files, t, v) {
      assert Holds(files, s, v);
      assert FileOk(files, s, FileOf(s.workers[v]).value);
    }
  }

  /** What is left to show of a step once the other workers and files are out of the way. */
  lemma StepInv<T>(files: seq<File<T>>, s: State<T>, t: State<T>, w: nat, i: nat)
    requires Inv(files, s) && Elsewhere(s, t, w, i)
    requires
      || (FileOf(s.workers[w]) == Some(i) && t.next == s.next)
      || (FileOf(s.workers[w]) == None && i == s.next && t.next == s.next + 1)
    requires s.log == t.log || exists m: Message<T> :: m.file == i && t.log == s.log + [m]
    requires s.taken == t.taken && s.hand == t.hand && Queued(t) <= Capacity(t)
    requires |t.log| > |s.log| ==> MessageOk(files, t, t.log[|s.log|])
    requires i < |files| ==> FileOk(files, t, i)
    requires WorkerOk(files, t, w)
    requires FileOf(t.workers[w]).Some? ==> Holds(files, t, w)
    ensures Inv(files, t)
  {
    OthersKept(files, s, t, w, i);
    forall k | 0 <= k < |t.log| ensures MessageOk(files, t, t.log[k]) {
      if k < |s.log| {
        assert MessageOk(files, s, s.log[k]);
        assert t.log[k] == s.log[k];
      }
    }
  }

  lemma ClaimInv<T>(files: seq<File<T>>, s: State<T>, w: nat)
    requires Inv(files, s) && w < |s.workers| && s.workers[w].Claiming?
    ensures Inv(files, Claim(files, s, w))
  {
    if s.next < |files| {
      assert FileOk(files, s, s.next);
    }
    StepInv(files, s, Claim(files, s, w), w, s.next);
  }

  /** A worker that has read one row more still holds what it has not sent. */
  lemma OneMoreRow<T>(file: File<T>, sent: seq<T>, at: nat, batch: seq<T>)
    requires at < |file.rows| && sent + batch == file.rows[..at]
    ensures sent + (batch + [file.rows[at]]) == file.rows[..at + 1]
  {
    assert sent + (batch + [file.rows[at]]) == (sent + batch) + [file.rows[at]];
  }

  /** Reading keeps what is said of the worker and of the file it holds. */
  lemma ReadKeeps<T>(files: seq<File<T>>, s: State<T>, w: nat, i: nat)
    requires w < |s.workers| && s.workers[w].Scanning? && s.workers[w].file == i
    requires i < |files| == |s.status|
    requires WorkerOk(files, s, w) && Holds(files, s, w) && FileOk(files, s, i)
    ensures var t := Read(files, s, w);
      WorkerOk(files, t, w) && FileOk(files, t, i) && (FileOf(t.workers[w]).Some? ==> Holds(files, t, w))
  {
    var Scanning(_, at, batch) := s.workers[w];
    if at < |files[i].rows| {
      OneMoreRow(files[i], RowsOf(s.log, i), at, batch);
    } else {
      assert files[i].rows[..at] == files[i].rows;
    }
  }

  lemma ReadInv<T>(files: seq<File<T>>, s: State<T>, w: nat)
    requires Inv(files, s) && w < |s.workers| && s.workers[w].Scanning?
    ensures s.workers[w].file < |files| && Inv(files, Read(files, s, w))
  {
    var i := s.workers[w].file;
    assert WorkerOk(files, s, w) && Holds(files, s, w) && FileOk(files, s, i);
    ReadKeeps(files, s, w, i);
    StepInv(files, s, Read(files, s, w), w, i);
  }

  lemma SendInv<T>(files: seq<File<T>>, s: State<T>, w: nat)
    requires Inv(files, s) && w < |s.workers| && Sending(s.workers[w]) && Send(s, w).Some?
    ensures Inv(files, Send(s, w).value)
  {
    var i := s.workers[w].file;
    var t := Send(s, w).value;
    assert WorkerOk(files, s, w) && Holds(files, s, w) && FileOk(files, s, i);
    if s.alive {
      var m := t.log[|s.log|];
      assert t.log == s.log + [m] && m.file == i;
      RowsOfSent(s.log, m, i);
      if m.Error? {
        assert t.log[|s.log|] == Error(i);
      }
    }
    StepInv(files, s, t, w, i);
  }

  lemma ActInv<T>(files: seq<File<T>>, s: State<T>, a: Action)
    requires Inv(files, s) && Act(files, s, a).Some?
    ensures Inv(files, Act(files, s, a).value)
  {
    var t := Act(files, s, a).value;
    if a.Work? {
      match s.workers[a.worker]
      case Claiming => ClaimInv(files, s, a.worker);
      case Scanning(_, _, _) => ReadInv(files, s, a.worker);
      case _ => SendInv(files, s, a.worker);
    } else {
      forall k | 0 <= k < |t.log| ensures MessageOk(files, t, t.log[k]) {
        assert MessageOk(files, s, s.log[k]);
      }
      forall w | 0 <= w < |t.workers| ensures WorkerOk(files, t, w) {
        assert WorkerOk(files, s, w);
      }
      forall w | 0 <= w < |t.workers| && FileOf(t.workers[w]).Some? ensures Holds(files, t, w) {
        assert Holds(files, s, w);
      }
      forall i | 0 <= i < |files| ensures FileOk(files, t, i) {
        assert FileOk(files, s, i);
      }
    }
  }

  /** The invariant holds over every run, whatever fails or panics and whoever stops listening. */
  lemma {:induction false} RunInv<T>(files: seq<File<T>>, s: State<T>, actions: seq<Action>)
    requires Inv(files, s) && Run(files, s, actions).Some?
    ensures Inv(files, Run(files, s, actions).value)
    decreases |actions|
  {
    if |actions| > 0 {
      ActInv(files, s, actions[0]);
      RunInv(files, Act(files, s, actions[0]).value, actions[1..]);
    }
  }

  // ── what the consumer may rely on ──

  /** What the consumer sees when it asks for a batch: rows, an error, or an empty
      vector once every worker has gone and nothing is left; None while it waits. */
  datatype Seen<T> = Rows(rows: seq<T>) | Failed

  function Recv<T>(s: State<T>): Option<Seen<T>> {
    if s.taken < |s.log| then
      (match s.log[s.taken] case Batch(_, rows) => Some(Rows(rows)) case Error(_) => Some(Failed))
    else if AllExited(s) then Some(Rows([]))
    else None
  }

  predicate AllExited<T>(s: State<T>) { forall w | 0 <= w < |s.workers| :: s.workers[w].Exited? }

  /** The rows of every file, in argument order. */
  function Concatenated<T>(files: seq<File<T>>): seq<T> {
    if |files| == 0 then [] else Concatenated(files[..|files| - 1]) + files[|files| - 1].rows
  }

  /** The rows of every message, in the order sent. */
  function RowsIn<T>(log: seq<Message<T>>): seq<T> {
    if |log| == 0 then []
    else
      var m := log[|log| - 1];
      RowsIn(log[..|log| - 1]) + if m.Batch? then m.rows else []
  }

  /** The first `n` parts end to end. */
  ghost function Joined<T>(parts: nat -> seq<T>, n: nat): seq<T> {
    if n == 0 then [] else Joined(parts, n - 1) + parts(n - 1)
  }

  /** The messages' rows regrouped by file. */
  ghost function ByFile<T>(log: seq<Message<T>>, n: nat): seq<T> {
    Joined((i: nat) => RowsOf(log, i), n)
  }

  lemma {:induction false} OnePartGrows<T>(f: nat -> seq<T>, g: nat -> seq<T>, n: nat, k: nat, rows: seq<T>)
    requires g(k) == f(k) + rows
    requires forall i: nat | i != k :: g(i) == f(i)
    ensures multiset(Joined(g, n)) == multiset(Joined(f, n)) + multiset(if k < n then rows else [])
  {
    if n > 0 { OnePartGrows(f, g, n - 1, k, rows); }
  }

  lemma ByFileSent<T>(log: seq<Message<T>>, m: Message<T>, n: nat)
    requires m.file < n
    ensures multiset(ByFile(log + [m], n)) == multiset(ByFile(log, n)) + multiset(if m.Batch? then m.rows else [])
  {
    forall i: nat
      ensures RowsOf(log + [m], i) == RowsOf(log, i) + if m.Batch? && m.file == i then m.rows else []
    {
      RowsOfSent(log, m, i);
    }
    var f := (i: nat) => RowsOf(log, i);
    var g := (i: nat) => RowsOf(log + [m], i);
    OnePartGrows(f, g, n, m.file, if m.Batch? then m.rows else []);
  }

  /** Regrouping loses no row and makes none. */
  lemma {:induction false} RegroupedByFile<T>(log: seq<Message<T>>, n: nat)
    requires forall k | 0 <= k < |log| :: log[k].file < n
    ensures multiset(RowsIn(log)) == multiset(ByFile(log, n))
  {
    if |log| == 0 {
      NothingByFile<T>(n);
    } else {
      var front := log[..|log| - 1];
      RegroupedByFile(front, n);
      ByFileSent(front, log[|log| - 1], n);
      assert log == front + [log[|log| - 1]];
    }
  }

  lemma NothingByFile<T>(n: nat)
    ensures ByFile<T>([], n) == []
  {
    AllPartsEmpty((i: nat) => RowsOf<T>([], i), n);
  }

  lemma {:induction false} AllPartsEmpty<T>(parts: nat -> seq<T>, n: nat)
    requires forall i: nat :: parts(i) == []
    ensures Joined(parts, n) == []
  {
    if n > 0 { AllPartsEmpty(parts, n - 1); }
  }

  lemma {:induction false} PartsConcatenated<T>(parts: nat -> seq<T>, files: seq<File<T>>)
    requires forall i | 0 <= i < |files| :: parts(i) == files[i].rows
    ensures Joined(parts, |files|) == Concatenated(files)
  {
    if |files| > 0 {
      var front := files[..|files| - 1];
      assert forall i | 0 <= i < |front| :: front[i] == files[i];
      PartsConcatenated(parts, front);
    }
  }

  /** The scan is over, and no error was among the messages received. */
  ghost predicate LogQuiet<T>(s: State<T>) {
    s.alive && s.taken <= |s.log| && Recv(s) == Some(Rows([])) && !HasError(s.log[..s.taken])
  }

  /** In a reachable state an empty vector is the end of the scan and nothing else. */
  lemma EmptyIsTheEnd<T>(files: seq<File<T>>, s: State<T>)
    requires Inv(files, s)
    ensures Recv(s) == Some(Rows([])) <==> AllExited(s) && s.taken == |s.log|
    ensures forall rows :: Recv(s) == Some(Rows(rows)) ==> |rows| <= 2048
  {
    if s.taken < |s.log| {
      assert MessageOk(files, s, s.log[s.taken]);
    }
  }

  lemma QuietMeansDelivered<T>(files: seq<File<T>>, s: State<T>, i: nat)
    requires Inv(files, s) && LogQuiet(s) && |s.workers| > 0 && i < |files|
    ensures files[i].fate.Finishes? && RowsOf(s.log, i) == files[i].rows
  {
    EmptyIsTheEnd(files, s);
    assert s.log[..s.taken] == s.log;
    assert WorkerOk(files, s, 0) && FileOk(files, s, i);
  }

  /** Whatever the streams did, where a scan is over with no error received, the messages hold every row
      of every file, each file's in file order. */
  lemma LogIsComplete<T>(files: seq<File<T>>, threads: nat, actions: seq<Action>)
    requires threads > 0
    requires Run(files, Initial(files, threads), actions).Some?
    requires LogQuiet(Run(files, Initial(files, threads), actions).value)
    ensures var log := Run(files, Initial(files, threads), actions).value.log;
      && (forall i | 0 <= i < |files| :: files[i].fate.Finishes? && RowsOf(log, i) == files[i].rows)
      && multiset(RowsIn(log)) == multiset(Concatenated(files))
  {
    var s := Run(files, Initial(files, threads), actions).value;
    InitialInv(files, threads);
    RunInv(files, Initial(files, threads), actions);
    WorkersStay(files, Initial(files, threads), actions);
    forall i | 0 <= i < |files| ensures files[i].fate.Finishes? && RowsOf(s.log, i) == files[i].rows {
      QuietMeansDelivered(files, s, i);
    }
    forall k | 0 <= k < |s.log| ensures s.log[k].file < |files| {
      assert MessageOk(files, s, s.log[k]);
    }
    RegroupedByFile(s.log, |files|);
    PartsConcatenated((i: nat) => RowsOf(s.log, i), files);
  }

  lemma {:induction false} WorkersStay<T>(files: seq<File<T>>, s: State<T>, actions: seq<Action>)
    requires Run(files, s, actions).Some?
    ensures |Run(files, s, actions).value.workers| == |s.workers|
    decreases |actions|
  {
    if |actions| > 0 {
      WorkersStay(files, Act(files, s, actions[0]).value, actions[1..]);
    }
  }

  /** Where every file can be read, no scan reports an error. */
  lemma NoFalseAlarm<T>(files: seq<File<T>>, s: State<T>)
    requires Inv(files, s) && forall i | 0 <= i < |files| :: files[i].fate.Finishes?
    ensures Recv(s) != Some(Failed)
  {
    if s.taken < |s.log| {
      assert MessageOk(files, s, s.log[s.taken]);
    }
  }

  lemma {:induction false} RowsOfPrefix<T>(log: seq<Message<T>>, k: nat, file: nat)
    requires k <= |log|
    ensures RowsOf(log[..k], file) <= RowsOf(log, file)
  {
    if k < |log| {
      RowsOfPrefix(log[..|log| - 1], k, file);
      assert log[..|log| - 1][..k] == log[..k];
    } else {
      assert log[..k] == log;
    }
  }

  /** At any moment the messages received of a file hold an initial piece of its rows, in file order. */
  lemma LogInFileOrder<T>(files: seq<File<T>>, s: State<T>, i: nat)
    requires Inv(files, s) && i < |files|
    ensures RowsOf(s.log[..s.taken], i) <= files[i].rows
  {
    assert FileOk(files, s, i);
    RowsOfPrefix(s.log, s.taken, i);
  }

  /** No file is in two workers' hands. */
  lemma ClaimedOnce<T>(files: seq<File<T>>, s: State<T>, v: nat, w: nat)
    requires Inv(files, s) && v < |s.workers| && w < |s.workers|
    requires FileOf(s.workers[v]).Some? && FileOf(s.workers[v]) == FileOf(s.workers[w])
    ensures v == w
  {
    assert Holds(files, s, v) && Holds(files, s, w);
  }

  // ── bounds ──

  /** Batches alive in the first `n` workers. */
  function HeldBatches<T>(workers: seq<Worker<T>>, n: nat): nat
    requires n <= |workers|
  {
    if n == 0 then 0
    else HeldBatches(workers, n - 1) + if FileOf(workers[n - 1]).Some? then 1 else 0
  }

  /** Batches alive anywhere: with the workers, in the channel, with the consumer. */
  function LiveBatches<T>(s: State<T>): int {
    HeldBatches(s.workers, |s.workers|) + Queued(s) + if s.hand.Some? then 1 else 0
  }

  /** A message received is alive with the consumer until it releases it, and there is one at a time. */
  lemma AliveUntilReleased<T>(files: seq<File<T>>, s: State<T>)
    ensures var t := Act(files, s, Receive);
      t.Some? ==> LiveBatches(t.value) == LiveBatches(s) && t.value.hand == Some(s.log[t.value.taken - 1])
    ensures var t := Act(files, s, Release);
      t.Some? ==> LiveBatches(t.value) == LiveBatches(s) - 1 && t.value.hand.None?
    ensures Act(files, s, Receive).Some? ==> Act(files, s, Release).None?
  {
  }

  lemma {:induction false} HeldBatchesBound<T>(workers: seq<Worker<T>>, n: nat)
    requires n <= |workers|
    ensures HeldBatches(workers, n) <= n
  {
    if n > 0 { HeldBatchesBound(workers, n - 1); }
  }

  /** A worker with something to send waits exactly where two messages for each thread are in the channel, and any
      other worker that is not gone never waits. */
  lemma WaitsExactlyWhenFull<T>(files: seq<File<T>>, threads: nat, actions: seq<Action>, w: nat)
    requires Run(files, Initial(files, threads), actions).Some? && w < threads
    ensures var s := Run(files, Initial(files, threads), actions).value;
      && |s.workers| == threads
      && (!s.workers[w].Exited? ==>
          (Act(files, s, Work(w)).None? <==> Sending(s.workers[w]) && s.alive && |s.log| - s.taken >= 2 * threads))
  {
    InitialInv(files, threads);
    RunInv(files, Initial(files, threads), actions);
    WorkersStay(files, Initial(files, threads), actions);
    assert WorkerOk(files, Run(files, Initial(files, threads), actions).value, w);
  }

  /** The heap stays within 3 · threads + 1 batches of at most 2048 rows. */
  lemma Bounded<T>(files: seq<File<T>>, threads: nat, actions: seq<Action>)
    requires Run(files, Initial(files, threads), actions).Some?
    ensures var s := Run(files, Initial(files, threads), actions).value;
      && Queued(s) <= 2 * threads
      && LiveBatches(s) <= 3 * threads + 1
      && (forall w | 0 <= w < |s.workers| :: |Unsent(s.workers[w])| <= 2048)
      && (forall k | 0 <= k < |s.log| && s.log[k].Batch? :: 0 < |s.log[k].rows| <= 2048)
  {
    var s := Run(files, Initial(files, threads), actions).value;
    InitialInv(files, threads);
    RunInv(files, Initial(files, threads), actions);
    WorkersStay(files, Initial(files, threads), actions);
    HeldBatchesBound(s.workers, |s.workers|);
    forall w | 0 <= w < |s.workers| ensures |Unsent(s.workers[w])| <= VECTOR_SIZE {
      assert WorkerOk(files, s, w);
    }
    forall k | 0 <= k < |s.log| && s.log[k].Batch? ensures 0 < |s.log[k].rows| <= VECTOR_SIZE {
      assert MessageOk(files, s, s.log[k]);
    }
  }

  // ── progress ──

  /** A worker that is neither gone nor waiting for room can step; when all wait, the consumer can. */
  lemma NotStuck<T>(files: seq<File<T>>, s: State<T>)
    requires Inv(files, s) && !AllExited(s)
    ensures
      || (exists w :: Act(files, s, Work(w)).Some?)
      || Act(files, s, Receive).Some? || Act(files, s, Release).Some?
    ensures !s.alive ==> exists w :: Act(files, s, Work(w)).Some?
  {
    var w: nat :| w < |s.workers| && !s.workers[w].Exited?;
    assert WorkerOk(files, s, w);
    assert Act(files, s, Work(w)).None? ==> s.alive && Queued(s) >= Capacity(s);
  }

  function Left<T>(files: seq<File<T>>, i: nat, at: nat): nat {
    if i < |files| && at <= |files[i].rows| then |files[i].rows| - at else 0
  }

  function WorkerWeight<T>(files: seq<File<T>>, w: Worker<T>): nat {
    match w
    case Exited => 0
    case Claiming => 1
    case Scanning(i, at, _) => 6 * Left(files, i, at) + 5
    case SendingFull(i, at, _) => 6 * Left(files, i, at) + 8
    case SendingLast(_, _) => 4
    case SendingError(_) => 3
  }

  function WorkersWeight<T>(files: seq<File<T>>, workers: seq<Worker<T>>, n: nat): nat
    requires n <= |workers|
  {
    if n == 0 then 0 else WorkersWeight(files, workers, n - 1) + WorkerWeight(files, workers[n - 1])
  }

  function UnclaimedWeight<T>(files: seq<File<T>>, next: nat): nat
    decreases |files| - next
  {
    if next >= |files| then 0 else 6 * |files[next].rows| + 5 + UnclaimedWeight(files, next + 1)
  }

  function ChannelWeight<T>(s: State<T>): int {
    2 * Queued(s) + (if s.hand.Some? then 1 else 0) + if s.alive then 1 else 0
  }

  /** What is left to do: unclaimed files, unread rows, batches to send, receive and release. */
  function Measure<T>(files: seq<File<T>>, s: State<T>): int {
    UnclaimedWeight(files, s.next) + WorkersWeight(files, s.workers, |s.workers|) + ChannelWeight(s)
  }

  lemma {:induction false} WeightChange<T>(files: seq<File<T>>, workers: seq<Worker<T>>, w: nat, x: Worker<T>, n: nat)
    requires w < |workers| && n <= |workers|
    ensures WorkersWeight(files, workers[w := x], n)
      == WorkersWeight(files, workers, n)
        + if w < n then WorkerWeight(files, x) - WorkerWeight(files, workers[w]) else 0
  {
    if n > 0 { WeightChange(files, workers, w, x, n - 1); }
  }

  /** A worker's step lightens it by more than it adds to the channel. */
  lemma WorkDecreases<T>(files: seq<File<T>>, s: State<T>, w: nat)
    requires Inv(files, s) && Act(files, s, Work(w)).Some?
    ensures Measure(files, Act(files, s, Work(w)).value) < Measure(files, s)
  {
    var t := Act(files, s, Work(w)).value;
    assert WorkerOk(files, s, w);
    assert t.workers == s.workers[w := t.workers[w]];
    WeightChange(files, s.workers, w, t.workers[w], |s.workers|);
    if s.workers[w].Claiming? {
      assert UnclaimedWeight(files, s.next) + 1 > UnclaimedWeight(files, t.next) + WorkerWeight(files, t.workers[w]);
    } else {
      WorkerLightens(files, s, w);
    }
  }

  lemma WorkerLightens<T>(files: seq<File<T>>, s: State<T>, w: nat)
    requires w < |s.workers| && WorkerOk(files, s, w) && !s.workers[w].Claiming?
    requires Act(files, s, Work(w)).Some?
    ensures var t := Act(files, s, Work(w)).value;
      && t.next == s.next
      && |t.workers| == |s.workers|
      && WorkerWeight(files, t.workers[w]) + ChannelWeight(t) < WorkerWeight(files, s.workers[w]) + ChannelWeight(s)
  {
  }

  /** Every step leaves strictly less to do, workers meeting only empty files after the drop included. */
  lemma ActDecreases<T>(files: seq<File<T>>, s: State<T>, a: Action)
    requires Inv(files, s) && Act(files, s, a).Some?
    ensures 0 <= Measure(files, Act(files, s, a).value) < Measure(files, s)
  {
    ActInv(files, s, a);
    if a.Work? {
      WorkDecreases(files, s, a.worker);
    }
  }

  /** Every run is finite: no interleaving takes more steps than the files, rows and workers allow. */
  lemma {:induction false} RunsAreBounded<T>(files: seq<File<T>>, s: State<T>, actions: seq<Action>)
    requires Inv(files, s) && Run(files, s, actions).Some?
    ensures |actions| + Measure(files, Run(files, s, actions).value) <= Measure(files, s)
    decreases |actions|
  {
    if |actions| > 0 {
      ActInv(files, s, actions[0]);
      ActDecreases(files, s, actions[0]);
      RunsAreBounded(files, Act(files, s, actions[0]).value, actions[1..]);
    }
  }

  /** A run that nobody can continue, the consumer draining or gone, is one where all workers have exited. */
  lemma MaximalRunsFinish<T>(files: seq<File<T>>, threads: nat, actions: seq<Action>)
    requires Run(files, Initial(files, threads), actions).Some?
    requires forall a: Action | !a.Drop? :: Act(files, Run(files, Initial(files, threads), actions).value, a).None?
    ensures AllExited(Run(files, Initial(files, threads), actions).value)
    ensures |actions| <= Measure(files, Initial(files, threads))
  {
    var s := Run(files, Initial(files, threads), actions).value;
    InitialInv(files, threads);
    RunInv(files, Initial(files, threads), actions);
    RunsAreBounded(files, Initial(files, threads), actions);
    if !AllExited(s) {
      NotStuck(files, s);
    }
  }

  lemma {:induction false} AliveUntilDropped<T>(files: seq<File<T>>, s: State<T>, actions: seq<Action>)
    requires Run(files, s, actions).Some? && s.alive && Drop !in actions
    ensures Run(files, s, actions).value.alive
    decreases |actions|
  {
    if |actions| > 0 {
      AliveUntilDropped(files, Act(files, s, actions[0]).value, actions[1..]);
    }
  }

  /** Where the consumer listens to the end, no message is left, and none is an error exactly when every file
      can be read. */
  lemma LogQuietExactlyWhenReadable<T>(files: seq<File<T>>, threads: nat, actions: seq<Action>)
    requires threads > 0 && Drop !in actions
    requires Run(files, Initial(files, threads), actions).Some?
    requires forall a: Action | !a.Drop? :: Act(files, Run(files, Initial(files, threads), actions).value, a).None?
    ensures var s := Run(files, Initial(files, threads), actions).value;
      && (LogQuiet(s) <==> forall i | 0 <= i < |files| :: files[i].fate.Finishes?)
      && s.taken == |s.log|
      && (LogQuiet(s) <==> !HasError(s.log))
  {
    var s := Run(files, Initial(files, threads), actions).value;
    InitialInv(files, threads);
    RunInv(files, Initial(files, threads), actions);
    MaximalRunsFinish(files, threads, actions);
    AliveUntilDropped(files, Initial(files, threads), actions);
    assert Act(files, s, Release).None? && Act(files, s, Receive).None?;
    if LogQuiet(s) {
      LogIsComplete(files, threads, actions);
    } else {
      var k :| 0 <= k < |s.log| && s.log[k].Error?;
      assert MessageOk(files, s, s.log[k]);
    }
  }
}
