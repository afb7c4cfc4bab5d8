// Which tasks a run executes: the candidate list (the built-in sample tasks
// or the filtered dataset) and the choice among them by index, by slice, or
// all of them.
module Selection {

  import opened Wrappers
  import opened Tasks
  import TaskFilter

  /** The three built-in sample tasks used when the dataset is not loaded. */
  function SampleTasks(): seq<Task> {
    [ Task("Search for wireless headphones under $50", "https://www.amazon.com", None),
      Task("Find the latest iPhone reviews", "https://www.cnet.com", None),
      Task("Look up weather forecast for New York", "https://weather.com", None) ]
  }

  /**
   * The candidates: in sample mode each sample task annotated with its
   * position and length (no filter applies); otherwise the filtered split.
   */
  function Candidates(useSample: bool, split: seq<Task>, cfg: TaskFilter.FilterConfig): seq<FilteredTask> {
    if useSample then AnnotateAll(SampleTasks()) else TaskFilter.Filtered(split, cfg)
  }

  /** The run options that choose among the candidates. */
  datatype RunOptions = RunOptions(taskIndex: Option<int>, useSample: bool, start: nat, end: Option<nat>)

  /** Why a run stops before executing anything. */
  datatype SelectError = NoMatchingTasks | IndexOutOfRange(index: int, count: nat)

  /**
   * The tasks to run: none when there are no candidates; with a task index,
   * exactly the candidate at that index, or an error when it is out of
   * range; otherwise, outside sample mode, the candidates from `start` up to
   * `min(end, count)`; in sample mode, all of them.
   */
  function SelectTasks(filtered: seq<FilteredTask>, opts: RunOptions): (r: Result<seq<FilteredTask>, SelectError>)
    ensures filtered == [] <==> r == Err(NoMatchingTasks)
    ensures filtered != [] && opts.taskIndex.Some? ==>
      var i := opts.taskIndex.value;
      && (r.Ok? <==> 0 <= i < |filtered|)
      && (r.Ok? ==> r.value == [filtered[i]])
      && (r.Err? ==> r.error == IndexOutOfRange(i, |filtered|))
    ensures filtered != [] && opts.taskIndex.None? ==> r.Ok?
    ensures filtered != [] && opts.taskIndex.None? && opts.useSample ==> r.value == filtered
    ensures filtered != [] && opts.taskIndex.None? && !opts.useSample ==>
      var stop := if opts.end.Some? && opts.end.value < |filtered| then opts.end.value else |filtered|;
      && |r.value| == (if opts.start < stop then stop - opts.start else 0)
      && forall k :: 0 <= k < |r.value| ==> r.value[k] == filtered[opts.start + k]
  {
    if filtered == [] then Err(NoMatchingTasks)
    else if opts.taskIndex.Some? then
      var i := opts.taskIndex.value;
      if 0 <= i < |filtered| then Ok([filtered[i]]) else Err(IndexOutOfRange(i, |filtered|))
    else if !opts.useSample then
      var stop := if opts.end.Some? && opts.end.value < |filtered| then opts.end.value else |filtered|;
      if opts.start < stop then Ok(filtered[opts.start..stop]) else Ok([])
    else Ok(filtered)
  }

  /** `sel` is the run of `filtered` that starts at `lo`. */
  predicate IsRunAt(sel: seq<FilteredTask>, filtered: seq<FilteredTask>, lo: nat) {
    lo + |sel| <= |filtered| && sel == filtered[lo..lo + |sel|]
  }

  /**
   * What is selected is a contiguous run of the candidates, so it is never
   * longer than they are and keeps their order: a selection from a list
   * faithful to the source is itself faithful to the source.
   */
  lemma {:induction false} SelectionIsContiguous(filtered: seq<FilteredTask>, opts: RunOptions, source: seq<Task>)
    requires FaithfulTo(filtered, source)
    ensures SelectTasks(filtered, opts).Ok? ==>
      var sel := SelectTasks(filtered, opts).value;
      && |sel| <= |filtered|
      && (exists lo: nat :: IsRunAt(sel, filtered, lo))
      && FaithfulTo(sel, source)
  {
    var r := SelectTasks(filtered, opts);
    if r.Ok? {
      var sel := r.value;
      var lo: nat;
      if opts.taskIndex.Some? {
        lo := opts.taskIndex.value;
      } else if !opts.useSample && sel != [] {
        lo := opts.start;
      } else {
        lo := 0;
      }
      assert IsRunAt(sel, filtered, lo);
      RunFaithful(sel, filtered, lo, source);
    }
  }

  /** A run of a list faithful to the source is itself faithful to it. */
  lemma RunFaithful(sel: seq<FilteredTask>, filtered: seq<FilteredTask>, lo: nat, source: seq<Task>)
    requires IsRunAt(sel, filtered, lo)
    requires FaithfulTo(filtered, source)
    ensures FaithfulTo(sel, source)
  {
  }

  /**
   * The candidates are always faithful to their source: the sample tasks in
   * place, the filtered split in source order.
   */
  lemma CandidatesFaithful(useSample: bool, split: seq<Task>, cfg: TaskFilter.FilterConfig)
    ensures useSample ==> FaithfulTo(Candidates(useSample, split, cfg), SampleTasks())
    ensures !useSample ==> FaithfulTo(Candidates(useSample, split, cfg), split)
  {
    if useSample {
      TaskFilter.NoFilterKeepsAll(SampleTasks());
      TaskFilter.FilteredKeepsSourceOrder(SampleTasks(), TaskFilter.NoFilter);
    } else {
      TaskFilter.FilteredKeepsSourceOrder(split, cfg);
    }
  }
}
