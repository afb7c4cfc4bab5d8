// The records the runner moves between its stages.
module Tasks {

  import opened Wrappers

  /**
   * One dataset record. A missing `confirmed_task` or `website` reads as the
   * empty string (`task.get(key, '')`); a missing `level` is `None`.
   */
  datatype Task = Task(confirmedTask: string, website: string, level: Option<string>)

  /**
   * A record as the filter hands it on: its position in the source sequence
   * (`original_index`) and the length of its text (`task_length`) added to
   * the record's own fields.
   */
  datatype FilteredTask = FilteredTask(originalIndex: nat, taskLength: nat, task: Task)

  function Annotate(i: nat, t: Task): FilteredTask {
    FilteredTask(i, |t.confirmedTask|, t)
  }

  /** Every record annotated with its own position. */
  function AnnotateAll(tasks: seq<Task>): seq<FilteredTask> {
    seq(|tasks|, i requires 0 <= i < |tasks| => Annotate(i, tasks[i]))
  }

  /** `task.get('level', 'unknown')` */
  function LevelName(t: Task): string {
    t.level.GetOr("unknown")
  }

  function LevelsOf(fs: seq<FilteredTask>): (levels: seq<string>)
    ensures |levels| == |fs|
    ensures forall k :: 0 <= k < |fs| ==> levels[k] == LevelName(fs[k].task)
  {
    seq(|fs|, k requires 0 <= k < |fs| => LevelName(fs[k].task))
  }

  /**
   * `fs` lists records of `source` in source order, each carrying its own
   * position and the length of its own text.
   */
  predicate FaithfulTo(fs: seq<FilteredTask>, source: seq<Task>) {
    && (forall k :: 0 <= k < |fs| ==>
          && fs[k].originalIndex < |source|
          && fs[k].task == source[fs[k].originalIndex]
          && fs[k].taskLength == |fs[k].task.confirmedTask|)
    && (forall j, k :: 0 <= j < k < |fs| ==> fs[j].originalIndex < fs[k].originalIndex)
  }
}
