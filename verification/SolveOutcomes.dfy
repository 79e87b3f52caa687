/** Exactly what a whole solve shows and stores when the host hands tasks back in order: each
    iteration's answer is determined by its own input, its own run and its own stored result. */
module SolveOutcomes {
  import opened Wrappers
  import opened ResultPairing

  /** What is on record for an iteration. */
  function OnRecord(s: State, i: nat): Option<Emission> {
    if i in s.results then Some(Emission(i, s.results[i].work, s.results[i].result)) else None
  }

  /** What one iteration should show: nothing without an input; in manual mode the result of this run
      generation; otherwise what its run produced, or for a run that ended without a result and
      without a fault the stored result, if the quality retains it. */
  function Answer(s: State, i: nat, item: Item, quality: Quality, tasks: bool): Option<Emission> {
    if item.input == None then None
    else if quality.execution == Manual && i in s.results && s.results[i].runGeneration == quality.runGeneration then
      OnRecord(s, i)
    else match if tasks then item.queued else item.direct
      case Produces(id) => Some(Emission(i, item.input.value, Outcome(id, i, item.input.value)))
      case Escapes => None
      case _ => if quality.retainStaleResult then OnRecord(s, i) else None
  }

  /** The iteration runs and its run produces a result. */
  predicate Renewed(s: State, i: nat, item: Item, quality: Quality, tasks: bool) {
    && item.input.Some?
    && !(quality.execution == Manual && i in s.results && s.results[i].runGeneration == quality.runGeneration)
    && (if tasks then item.queued else item.direct).Produces?
  }

  /** Afterwards a renewed iteration has its own answer on record, under the current run
      generation; any other has what it had. */
  predicate RecordedAs(s: State, t: State, i: nat, item: Item, quality: Quality, tasks: bool) {
    if Renewed(s, i, item, quality, tasks) then
      && i in t.results && t.results[i].runGeneration == quality.runGeneration
      && OnRecord(t, i) == Answer(s, i, item, quality, tasks)
    else SameEntry(s, t, i)
  }

  function Listed(answer: Option<Emission>): seq<Emission> {
    if answer == None then [] else [answer.value]
  }

  lemma StepAnswers(s: State, t: State, i: nat, item: Item, quality: Quality, tasks: bool)
    requires SameEntry(s, t, i)
    requires if tasks then Runs(s, i, item, quality) ==> OwnTask(t, t.fetched, i, item) else t.tasks == []
    ensures var u := PostStep(InOrder, t, i, item, quality);
      && u.emitted == t.emitted + Listed(Answer(s, i, item, quality, tasks))
      && RecordedAs(s, u, i, item, quality, tasks)
  {
  }

  /** The emissions of the first `n` iterations are their answers in iteration order. */
  predicate ShowsAnswers(s: State, items: seq<Item>, quality: Quality, tasks: bool, n: nat, shown: seq<Emission>)
    requires n <= |items|
  {
    && (forall k :: 0 <= k < |shown| ==>
          shown[k].iteration < n
          && Answer(s, shown[k].iteration, items[shown[k].iteration], quality, tasks) == Some(shown[k]))
    && (forall i :: 0 <= i < n && Answer(s, i, items[i], quality, tasks).Some?
                    ==> Answer(s, i, items[i], quality, tasks).value in shown)
    && (forall j, k :: 0 <= j < k < |shown| ==> shown[j].iteration < shown[k].iteration)
  }

  lemma OneMoreAnswer(s: State, items: seq<Item>, quality: Quality, tasks: bool, n: nat, shown: seq<Emission>)
    requires n < |items| && ShowsAnswers(s, items, quality, tasks, n, shown)
    ensures ShowsAnswers(s, items, quality, tasks, n + 1, shown + Listed(Answer(s, n, items[n], quality, tasks)))
  {
    var answer := Answer(s, n, items[n], quality, tasks);
    if answer.Some? { AnswerIsOwn(s, n, items[n], quality, tasks); }
    var after := shown + Listed(answer);
    hide Answer;
    forall i | 0 <= i < n + 1 && Answer(s, i, items[i], quality, tasks).Some?
      ensures Answer(s, i, items[i], quality, tasks).value in after
    {
      if i < n {
        assert Answer(s, i, items[i], quality, tasks).value in shown;
      } else {
        assert after[|shown|] == answer.value;
      }
    }
  }

  lemma AnswerIsOwn(s: State, i: nat, item: Item, quality: Quality, tasks: bool)
    requires Answer(s, i, item, quality, tasks).Some?
    ensures Answer(s, i, item, quality, tasks).value.iteration == i
  {
  }

  /** What is handed to an iteration when tasks come back in order. */
  lemma HandedInOrder(s: State, items: seq<Item>, quality: Quality, tasks: bool, n: nat)
    requires n < |items|
    ensures var t := PostAll(InOrder, s, items, quality, tasks, n);
      && SameEntry(s, t, n)
      && (if tasks then Runs(s, n, items[n], quality) ==> OwnTask(t, t.fetched, n, items[n]) else t.tasks == [])
  {
    hide PostAll, PreAll, PostStep, Runs, SameEntry;
    SecondPhase(InOrder, s, items, quality, tasks, n);
    QueuedTasks(s, items, quality, |items|);
  }

  lemma {:induction false} PhaseAnswers(s: State, items: seq<Item>, quality: Quality, tasks: bool, n: nat)
    returns (shown: seq<Emission>)
    requires n <= |items|
    ensures PostAll(InOrder, s, items, quality, tasks, n).emitted == s.emitted + shown
    ensures ShowsAnswers(s, items, quality, tasks, n, shown)
    ensures forall i :: 0 <= i < n ==> RecordedAs(s, PostAll(InOrder, s, items, quality, tasks, n), i, items[i], quality, tasks)
  {
    hide PostStep, Answer, Runs;
    if n == 0 {
      QueuedTasks(s, items, quality, |items|);
      shown := [];
    } else {
      var before := PhaseAnswers(s, items, quality, tasks, n - 1);
      var t, item := PostAll(InOrder, s, items, quality, tasks, n - 1), items[n - 1];
      HandedInOrder(s, items, quality, tasks, n - 1);
      StepAnswers(s, t, n - 1, item, quality, tasks);
      OneMoreAnswer(s, items, quality, tasks, n - 1, before);
      PostStepFrame(InOrder, t, n - 1, item, quality);
      var u := PostStep(InOrder, t, n - 1, item, quality);
      shown := before + Listed(Answer(s, n - 1, item, quality, tasks));
      assert u.emitted == s.emitted + shown;
      forall i | 0 <= i < n ensures RecordedAs(s, u, i, items[i], quality, tasks) {
        if i < n - 1 {
          assert SameEntry(t, u, i);
          RecordStays(s, t, u, i, items[i], quality, tasks);
        }
      }
    }
  }

  lemma RecordStays(s: State, t: State, u: State, i: nat, item: Item, quality: Quality, tasks: bool)
    requires RecordedAs(s, t, i, item, quality, tasks) && SameEntry(t, u, i)
    ensures RecordedAs(s, u, i, item, quality, tasks)
  {
    hide Answer, Renewed;
  }

  /** A whole solve with an in-order host: it emits the iterations' answers, each once and in
      iteration order, and nothing else; and exactly the renewed iterations' records change. */
  lemma SolveAnswers(s: State, items: seq<Item>, quality: Quality, tasks: bool) returns (shown: seq<Emission>)
    ensures var t := Solve(InOrder, s, items, quality, tasks);
      && t.emitted == s.emitted + shown
      && ShowsAnswers(s, items, quality, tasks, |items|, shown)
      && (forall i :: 0 <= i < |items| ==> RecordedAs(s, t, i, items[i], quality, tasks))
      && (forall i: nat :: i >= |items| ==> SameEntry(s, t, i))
  {
    hide PostAll, Answer, Renewed;
    shown := PhaseAnswers(s, items, quality, tasks, |items|);
    SecondPhase(InOrder, s, items, quality, tasks, |items|);
  }

  /** So an iteration that ran without a result still shows its stored one, if that is retained. */
  lemma RetainedIsShown(s: State, items: seq<Item>, quality: Quality, tasks: bool, i: nat)
    requires i < |items| && items[i].input.Some? && i in s.results && quality.retainStaleResult
    requires var run := if tasks then items[i].queued else items[i].direct; !run.Produces? && !run.Escapes?
    ensures var t := Solve(InOrder, s, items, quality, tasks);
      && |s.emitted| <= |t.emitted|
      && Emission(i, s.results[i].work, s.results[i].result) in t.emitted[|s.emitted|..]
  {
    hide Solve;
    var shown := SolveAnswers(s, items, quality, tasks);
    assert (s.emitted + shown)[|s.emitted|..] == shown;
    assert Answer(s, i, items[i], quality, tasks) == Some(Emission(i, s.results[i].work, s.results[i].result));
  }
}
