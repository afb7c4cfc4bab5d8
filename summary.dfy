// The execution loop of `main` (one result record per selected task, in
// order) and the summary it ends with: the success count and the per-level
// `{total, success}` statistics.
module Summary {

  import opened Wrappers
  import opened Text
  import opened Tasks
  import opened Execution
  import TaskFormat
  import TaskFilter
  import Selection
  import Tally
  import WebsiteFilename

  /**
   * One result record: the task's fields merged with its outcome. The
   * timestamp is left out.
   */
  datatype TaskResult = TaskResult(
    index: int,
    originalIndex: nat,
    taskInput: string,
    confirmedTask: string,
    website: string,
    taskLength: nat,
    level: string,
    outcome: Outcome)

  /** The `index` recorded for the i-th run task: the chosen task index when one was given. */
  function ResultIndex(pinned: Option<int>, i: nat): int {
    pinned.GetOr(i)
  }

  function ResultOf(index: int, f: FilteredTask, s: Stream): TaskResult {
    TaskResult(index, f.originalIndex, TaskFormat.FormatTaskInput(f.task), f.task.confirmedTask,
               f.task.website, f.taskLength, LevelName(f.task), RealtimeOutcome(s))
  }

  /** The results of running `selected`, where the i-th agent run behaves as `streams[i]`. */
  function Results(selected: seq<FilteredTask>, pinned: Option<int>, streams: seq<Stream>): seq<TaskResult>
    requires |streams| == |selected|
  {
    seq(|selected|, i requires 0 <= i < |selected| => ResultOf(ResultIndex(pinned, i), selected[i], streams[i]))
  }

  /**
   * The execution loop: for each selected task, in order, format its
   * instruction, launch the agent on it and append the merged record. The
   * agent's behaviour on the i-th launch is `streams[i]`. An interrupted
   * task is recorded and the loop goes on to the next one.
   */
  method RunTasks(selected: seq<FilteredTask>, pinned: Option<int>, debug: bool, streams: seq<Stream>)
    returns (commands: seq<seq<string>>, results: seq<TaskResult>)
    requires |streams| == |selected|
    ensures results == Results(selected, pinned, streams)
    ensures |commands| == |results|
    ensures forall i :: 0 <= i < |results| ==> commands[i] == Command(results[i].taskInput, debug)
  {
    commands := [];
    results := [];
    for i := 0 to |selected|
      invariant |commands| == |results| == i
      invariant forall k :: 0 <= k < i ==> commands[k] == Command(results[k].taskInput, debug)
      invariant forall k :: 0 <= k < i ==>
        results[k] == ResultOf(ResultIndex(pinned, k), selected[k], streams[k])
    {
      var taskData := selected[i];
      var taskInput := TaskFormat.FormatTaskInput(taskData.task);
      var taskIndex := if pinned.Some? then pinned.value else i;
      commands := commands + [Command(taskInput, debug)];
      var outcome := RealtimeOutcome(streams[i]);
      var result := TaskResult(taskIndex, taskData.originalIndex, taskInput, taskData.task.confirmedTask,
                               taskData.task.website, taskData.taskLength, LevelName(taskData.task), outcome);
      assert result == ResultOf(ResultIndex(pinned, i), taskData, streams[i]);
      results := results + [result];
    }
  }

  /**
   * The results of a run follow the selection: one per task, in the same
   * order, so their `original_index` values rise strictly when the selection
   * is faithful to the source; each records its own text length and an
   * instruction containing its text; every outcome has `success` exactly
   * when its return code is 0; and indexes are unique when a chosen index
   * pins a run of at most one task.
   */
  lemma ResultsFollowSelection(selected: seq<FilteredTask>, pinned: Option<int>, streams: seq<Stream>, source: seq<Task>)
    requires |streams| == |selected|
    requires FaithfulTo(selected, source)
    requires pinned.Some? ==> |selected| <= 1
    ensures var rs := Results(selected, pinned, streams);
      && |rs| == |selected|
      && (forall j, k :: 0 <= j < k < |rs| ==> rs[j].originalIndex < rs[k].originalIndex)
      && (forall j, k :: 0 <= j < k < |rs| ==> rs[j].index != rs[k].index)
      && (forall k :: 0 <= k < |rs| ==>
            && rs[k].taskLength == |rs[k].confirmedTask|
            && Contains(rs[k].taskInput, rs[k].confirmedTask)
            && Consistent(rs[k].outcome))
  {
  }

  /**
   * From the candidates to the results: whatever the options, a run that
   * gets past selection records at most as many results as there are
   * candidates, in source order, with unique indexes, each for the source
   * record at its `original_index`.
   */
  lemma RunFollowsSource(useSample: bool, split: seq<Task>, cfg: TaskFilter.FilterConfig,
                         opts: Selection.RunOptions, streams: seq<Stream>)
    requires Selection.SelectTasks(Selection.Candidates(useSample, split, cfg), opts).Ok?
    requires |streams| == |Selection.SelectTasks(Selection.Candidates(useSample, split, cfg), opts).value|
    ensures var source := if useSample then Selection.SampleTasks() else split;
      var candidates := Selection.Candidates(useSample, split, cfg);
      var rs := Results(Selection.SelectTasks(candidates, opts).value, opts.taskIndex, streams);
      && |rs| <= |candidates|
      && (forall j, k :: 0 <= j < k < |rs| ==> rs[j].originalIndex < rs[k].originalIndex)
      && (forall j, k :: 0 <= j < k < |rs| ==> rs[j].index != rs[k].index)
      && (forall k :: 0 <= k < |rs| ==>
            rs[k].originalIndex < |source| && rs[k].confirmedTask == source[rs[k].originalIndex].confirmedTask)
  {
    var source := if useSample then Selection.SampleTasks() else split;
    var candidates := Selection.Candidates(useSample, split, cfg);
    var selected := Selection.SelectTasks(candidates, opts).value;
    Selection.CandidatesFaithful(useSample, split, cfg);
    Selection.SelectionIsContiguous(candidates, opts, source);
    ResultsFollowSelection(selected, opts.taskIndex, streams, source);
  }

  function MarksOf(results: seq<TaskResult>): (marks: seq<Tally.Mark>)
    ensures |marks| == |results|
    ensures forall k :: 0 <= k < |results| ==> marks[k] == Tally.Mark(results[k].level, results[k].outcome.success)
  {
    seq(|results|, k requires 0 <= k < |results| => Tally.Mark(results[k].level, results[k].outcome.success))
  }

  /**
   * The summary loops: count the successful results, then build the
   * per-level `{total, success}` statistics in order of first appearance.
   */
  method Summarize(results: seq<TaskResult>) returns (successful: nat, levelStats: seq<Tally.LevelStat>)
    ensures successful == Tally.Successes(MarksOf(results))
    ensures levelStats == Tally.Stats(MarksOf(results))
  {
    var marks := MarksOf(results);
    successful := 0;
    for i := 0 to |results|
      invariant successful == Tally.Successes(marks[..i])
    {
      assert marks[..i + 1][..i] == marks[..i];
      if results[i].outcome.success {
        successful := successful + 1;
      }
    }
    levelStats := [];
    for i := 0 to |results|
      invariant levelStats == Tally.Stats(marks[..i])
    {
      assert marks[..i + 1][..i] == marks[..i];
      levelStats := Tally.Record(levelStats, results[i].level, results[i].outcome.success);
    }
    assert marks[..|results|] == marks;
  }

  /**
   * What the summary reports: the totals per level add up to the number of
   * results, each level listed once and counting exactly its results; the
   * successes per level add up to the overall success count and never
   * exceed that level's total.
   */
  lemma SummaryAddsUp(results: seq<TaskResult>)
    ensures var stats := Tally.Stats(MarksOf(results));
      && Tally.Total(Tally.Totals(stats)) == |results|
      && Tally.DistinctKeys(Tally.Totals(stats))
      && (forall level :: Tally.CountOf(Tally.Totals(stats), level) == Tally.Occurrences(Tally.LevelsOfMarks(MarksOf(results)), level))
      && Tally.SumSuccesses(stats) == Tally.Successes(MarksOf(results))
      && (forall level :: Tally.SuccessOf(stats, level) == Tally.SuccessesAt(MarksOf(results), level))
      && Tally.SuccessWithinTotal(stats)
  {
    Tally.StatsSummarize(MarksOf(results));
    Tally.HistogramCounts(Tally.LevelsOfMarks(MarksOf(results)));
  }

  /**
   * The results file: named after the website when the auto-filename option
   * is set and exactly one task ran, otherwise the path given.
   */
  function OutputFile(autoFilename: bool, results: seq<TaskResult>, output: string): (path: string)
    ensures !(autoFilename && |results| == 1) ==> path == output
    ensures autoFilename && |results| == 1 ==>
      && StartsWith(path, "./results/mind2web_")
      && EndsWith(path, "_results.json")
      && OccursAt(path, WebsiteFilename.GenerateWebsiteFilename(results[0].website), |"./results/mind2web_"|)
      && |path| == |"./results/mind2web_"| + |WebsiteFilename.GenerateWebsiteFilename(results[0].website)| + |"_results.json"|
  {
    if autoFilename && |results| == 1 then WebsiteFilename.AutoOutputFile(results[0].website) else output
  }
}
