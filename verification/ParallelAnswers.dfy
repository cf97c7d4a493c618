/** What the consumer of the parallel scan is handed, call by call, over whole runs. */
module ParallelAnswers {
  import opened Options
  import opened ParallelScan

  // ── the answers of a run ──

  /** What one call handed out, and which file it was of. */
  datatype Answer<T> = Answer(file: nat, seen: Seen<T>)

  /** What a step hands the consumer: only receiving a message does. */
  function AnswerTo<T>(s: State<T>, a: Action): seq<Answer<T>> {
    if !a.Receive? || s.taken >= |s.log| then []
    else match Recv(s) case None => [] case Some(seen) => [Answer(s.log[s.taken].file, seen)]
  }

  /** All answers of a run, in order. */
  function Answers<T>(files: seq<File<T>>, s: State<T>, actions: seq<Action>): seq<Answer<T>>
    decreases |actions|
  {
    if actions == [] then []
    else
      match Act(files, s, actions[0])
      case None => []
      case Some(s') => AnswerTo(s, actions[0]) + Answers(files, s', actions[1..])
  }

  /** The rows handed out, in order. */
  function RowsAnswered<T>(answers: seq<Answer<T>>): seq<T> {
    if answers == [] then []
    else
      var last := answers[|answers| - 1].seen;
      RowsAnswered(answers[..|answers| - 1]) + match last case Rows(rows) => rows case Failed => []
  }

  /** Those of one file. */
  function RowsAnsweredOf<T>(answers: seq<Answer<T>>, file: nat): seq<T> {
    if answers == [] then []
    else
      var last := answers[|answers| - 1];
      RowsAnsweredOf(answers[..|answers| - 1], file)
      + if last.file == file && last.seen.Rows? then last.seen.rows else []
  }

  predicate AnswersFailure<T>(answers: seq<Answer<T>>) { exists k | 0 <= k < |answers| :: answers[k].seen.Failed? }

  // ── answers are the messages ──

  /** What a call is to answer a message with: all its rows, or the failure. */
  ghost predicate Tells<T>(answer: Answer<T>, m: Message<T>) {
    answer == Answer(m.file, match m case Batch(_, rows) => Rows(rows) case Error(_) => Failed)
  }

  /** One answer for each message received, in the order sent, and nothing left out of it. */
  lemma {:induction false} AnswersAreMessages<T>(files: seq<File<T>>, s: State<T>, actions: seq<Action>)
    requires Run(files, s, actions).Some? && s.taken <= |s.log|
    ensures var t, answers := Run(files, s, actions).value, Answers(files, s, actions);
      && s.log <= t.log && s.taken <= t.taken <= |t.log|
      && |answers| == t.taken - s.taken
      && forall k | 0 <= k < |answers| :: Tells(answers[k], t.log[s.taken + k])
    decreases |actions|
  {
    if actions != [] {
      var next := Act(files, s, actions[0]).value;
      StepAnswers(files, s, actions[0]);
      AnswersAreMessages(files, next, actions[1..]);
      var t, first, rest := Run(files, s, actions).value, AnswerTo(s, actions[0]), Answers(files, next, actions[1..]);
      assert Answers(files, s, actions) == first + rest;
      forall k | 0 <= k < |first + rest| ensures Tells((first + rest)[k], t.log[s.taken + k]) {
        if k < |first| {
          assert t.log[s.taken] == next.log[s.taken];
        } else {
          assert (first + rest)[k] == rest[k - |first|];
        }
      }
    }
  }

  lemma StepAnswers<T>(files: seq<File<T>>, s: State<T>, a: Action)
    requires Act(files, s, a).Some? && s.taken <= |s.log|
    ensures var t := Act(files, s, a).value;
      && s.log <= t.log && t.taken == s.taken + |AnswerTo(s, a)| <= |t.log|
      && (AnswerTo(s, a) != [] ==> s.taken < |s.log| && Tells(AnswerTo(s, a)[0], s.log[s.taken]))
  {
  }

  lemma {:induction false} AnsweredRows<T>(answers: seq<Answer<T>>, log: seq<Message<T>>, file: nat)
    requires |answers| == |log| && forall k | 0 <= k < |log| :: Tells(answers[k], log[k])
    ensures RowsAnswered(answers) == RowsIn(log) && RowsAnsweredOf(answers, file) == RowsOf(log, file)
    ensures AnswersFailure(answers) <==> HasError(log)
  {
    if log != [] { AnsweredRows(answers[..|log| - 1], log[..|log| - 1], file); }
  }

  /** The answers of a run from its start, against the messages received. */
  lemma RunAnswers<T>(files: seq<File<T>>, threads: nat, actions: seq<Action>, file: nat)
    requires Run(files, Initial(files, threads), actions).Some?
    ensures var s, answers := Run(files, Initial(files, threads), actions).value,
        Answers(files, Initial(files, threads), actions);
      && s.taken <= |s.log|
      && RowsAnswered(answers) == RowsIn(s.log[..s.taken])
      && RowsAnsweredOf(answers, file) == RowsOf(s.log[..s.taken], file)
      && (AnswersFailure(answers) <==> HasError(s.log[..s.taken]))
  {
    AnswersAreMessages(files, Initial(files, threads), actions);
    var s := Run(files, Initial(files, threads), actions).value;
    AnsweredRows(Answers(files, Initial(files, threads), actions), s.log[..s.taken], file);
  }

  // ── what the consumer is handed ──

  /** The consumer is told that the scan is over, and was told of no failure. */
  ghost predicate EndsQuietly<T>(files: seq<File<T>>, threads: nat, actions: seq<Action>) {
    && Run(files, Initial(files, threads), actions).Some?
    && Run(files, Initial(files, threads), actions).value.alive
    && Recv(Run(files, Initial(files, threads), actions).value) == Some(Rows([]))
    && !AnswersFailure(Answers(files, Initial(files, threads), actions))
  }

  /** At any moment what was handed out of a file is an initial piece of its rows, in file order. */
  lemma AnsweredInFileOrder<T>(files: seq<File<T>>, threads: nat, actions: seq<Action>, i: nat)
    requires Run(files, Initial(files, threads), actions).Some? && i < |files|
    ensures RowsAnsweredOf(Answers(files, Initial(files, threads), actions), i) <= files[i].rows
  {
    InitialInv(files, threads);
    RunInv(files, Initial(files, threads), actions);
    RunAnswers(files, threads, actions, i);
    LogInFileOrder(files, Run(files, Initial(files, threads), actions).value, i);
  }

  /** No silent short result: a consumer told that the scan is over, and of no failure, was handed every row
      of every file, each file's in file order, and nothing else. */
  lemma NoSilentLoss<T>(files: seq<File<T>>, threads: nat, actions: seq<Action>)
    requires threads > 0 && EndsQuietly(files, threads, actions)
    ensures var answers := Answers(files, Initial(files, threads), actions);
      && (forall i | 0 <= i < |files| :: files[i].fate.Finishes? && RowsAnsweredOf(answers, i) == files[i].rows)
      && multiset(RowsAnswered(answers)) == multiset(Concatenated(files))
  {
    var s := Run(files, Initial(files, threads), actions).value;
    RunAnswers(files, threads, actions, 0);
    LogIsComplete(files, threads, actions);
    InitialInv(files, threads);
    RunInv(files, Initial(files, threads), actions);
    EmptyIsTheEnd(files, s);
    assert s.log[..s.taken] == s.log;
    forall i | 0 <= i < |files|
      ensures RowsAnsweredOf(Answers(files, Initial(files, threads), actions), i) == files[i].rows
    {
      RunAnswers(files, threads, actions, i);
    }
  }

  /** With a consumer that listens to the end, every interleaving ends quietly if and only if every file can
      be read, and a failure is handed out if and only if one cannot. */
  lemma EndsQuietlyExactlyWhenReadable<T>(files: seq<File<T>>, threads: nat, actions: seq<Action>)
    requires threads > 0 && Drop !in actions
    requires Run(files, Initial(files, threads), actions).Some?
    requires forall a: Action | !a.Drop? :: Act(files, Run(files, Initial(files, threads), actions).value, a).None?
    ensures EndsQuietly(files, threads, actions) <==> forall i | 0 <= i < |files| :: files[i].fate.Finishes?
    ensures AnswersFailure(Answers(files, Initial(files, threads), actions))
      <==> exists i | 0 <= i < |files| :: !files[i].fate.Finishes?
  {
    var s := Run(files, Initial(files, threads), actions).value;
    RunAnswers(files, threads, actions, 0);
    LogQuietExactlyWhenReadable(files, threads, actions);
    MaximalRunsFinish(files, threads, actions);
    AliveUntilDropped(files, Initial(files, threads), actions);
    InitialInv(files, threads);
    RunInv(files, Initial(files, threads), actions);
    EmptyIsTheEnd(files, s);
    assert s.log[..s.taken] == s.log;
  }
}
