// `filter_tasks`: walks the dataset in order, keeps the records that pass every
// active predicate, annotates them, stops once `max_tasks` are kept, and
// builds the level histogram of what it kept.
module TaskFilter {

  import opened Text
  import opened Tasks
  import Tally
  import opened Wrappers

  /**
   * The filter's options. Each is tested for Python truthiness, so `None`,
   * `0` and `""` all mean "no constraint": an integer option is unset when it
   * is 0, a string option when it is empty.
   */
  datatype FilterConfig = FilterConfig(
    lengthMin: int,
    lengthMax: int,
    level: string,
    websiteFilter: string,
    maxTasks: int)

  const NoFilter := FilterConfig(0, 0, "", "", 0)

  predicate PassesLength(cfg: FilterConfig, t: Task) {
    && (cfg.lengthMin == 0 || |t.confirmedTask| >= cfg.lengthMin)
    && (cfg.lengthMax == 0 || |t.confirmedTask| <= cfg.lengthMax)
  }

  /** A record without a level differs from every requested level. */
  predicate PassesLevel(cfg: FilterConfig, t: Task) {
    cfg.level == "" || t.level == Some(cfg.level)
  }

  /** Case-insensitive substring test on the website. */
  predicate PassesWebsite(cfg: FilterConfig, t: Task) {
    cfg.websiteFilter == "" || Contains(Lower(t.website), Lower(cfg.websiteFilter))
  }

  predicate Passes(cfg: FilterConfig, t: Task) {
    PassesLength(cfg, t) && PassesLevel(cfg, t) && PassesWebsite(cfg, t)
  }

  /** Every passing record of `tasks`, annotated, in source order, with no limit. */
  function AllMatches(tasks: seq<Task>, cfg: FilterConfig): seq<FilteredTask> {
    if tasks == [] then []
    else
      var n := |tasks| - 1;
      AllMatches(tasks[..n], cfg) + (if Passes(cfg, tasks[n]) then [Annotate(n, tasks[n])] else [])
  }

  /**
   * How many records a truthy `max_tasks` lets through. The test
   * `len(filtered_tasks) >= max_tasks` runs only after an append, so a
   * negative value still lets the first match through.
   */
  function Cap(maxTasks: int): nat
    requires maxTasks != 0
  {
    if maxTasks >= 1 then maxTasks else 1
  }

  function Capped(matches: seq<FilteredTask>, maxTasks: int): seq<FilteredTask> {
    if maxTasks == 0 || |matches| <= Cap(maxTasks) then matches else matches[..Cap(maxTasks)]
  }

  /** What `filter_tasks` returns. */
  function Filtered(tasks: seq<Task>, cfg: FilterConfig): seq<FilteredTask> {
    Capped(AllMatches(tasks, cfg), cfg.maxTasks)
  }

  /**
   * The filter loop. `checked` is `total_checked`: every record when the loop
   * runs to the end, and up to and including the last kept record when
   * `max_tasks` stops it early. `levelCounts` is the `level_counts` histogram
   * of the kept records (empty when nothing is kept).
   */
  method FilterTasks(tasks: seq<Task>, cfg: FilterConfig)
    returns (filtered: seq<FilteredTask>, checked: nat, levelCounts: seq<Tally.Count>)
    ensures filtered == Filtered(tasks, cfg)
    ensures checked == if cfg.maxTasks != 0 && |filtered| == Cap(cfg.maxTasks)
                       then filtered[|filtered| - 1].originalIndex + 1
                       else |tasks|
    ensures levelCounts == Tally.Histogram(LevelsOf(filtered))
  {
    filtered := [];
    checked := 0;
    for i := 0 to |tasks|
      invariant checked == i
      invariant filtered == AllMatches(tasks[..i], cfg)
      invariant cfg.maxTasks != 0 ==> |filtered| < Cap(cfg.maxTasks)
    {
      checked := checked + 1;
      var task := tasks[i];
      var taskLength := |task.confirmedTask|;
      AllMatchesStep(tasks, cfg, i);
      if cfg.lengthMin != 0 && taskLength < cfg.lengthMin {
        continue;
      }
      if cfg.lengthMax != 0 && taskLength > cfg.lengthMax {
        continue;
      }
      if cfg.level != "" && task.level != Some(cfg.level) {
        continue;
      }
      if cfg.websiteFilter != "" && !Contains(Lower(task.website), Lower(cfg.websiteFilter)) {
        continue;
      }
      filtered := filtered + [Annotate(i, task)];
      if cfg.maxTasks != 0 && |filtered| >= cfg.maxTasks {
        AllMatchesPrefix(tasks, cfg, i + 1);
        break;
      }
    }
    assert tasks[..|tasks|] == tasks;
    levelCounts := [];
    if filtered != [] {
      levelCounts := CountLevels(filtered);
    }
  }

  /** The `level_counts` loop over the kept records. */
  method CountLevels(filtered: seq<FilteredTask>) returns (levelCounts: seq<Tally.Count>)
    ensures levelCounts == Tally.Histogram(LevelsOf(filtered))
  {
    var levels := LevelsOf(filtered);
    levelCounts := [];
    for i := 0 to |levels|
      invariant levelCounts == Tally.Histogram(levels[..i])
    {
      assert levels[..i + 1][..i] == levels[..i];
      levelCounts := Tally.Bump(levelCounts, levels[i]);
    }
    assert levels[..|levels|] == levels;
  }

  lemma AllMatchesStep(tasks: seq<Task>, cfg: FilterConfig, i: nat)
    requires i < |tasks|
    ensures AllMatches(tasks[..i + 1], cfg)
            == AllMatches(tasks[..i], cfg) + (if Passes(cfg, tasks[i]) then [Annotate(i, tasks[i])] else [])
  {
    assert tasks[..i + 1][..i] == tasks[..i];
  }

  lemma {:induction false} AllMatchesPrefix(tasks: seq<Task>, cfg: FilterConfig, i: nat)
    requires i <= |tasks|
    ensures AllMatches(tasks[..i], cfg) <= AllMatches(tasks, cfg)
    decreases |tasks|
  {
    if i < |tasks| {
      var n := |tasks| - 1;
      assert tasks[..n][..i] == tasks[..i];
      AllMatchesPrefix(tasks[..n], cfg, i);
    } else {
      assert tasks[..i] == tasks;
    }
  }

  /** Each match is the annotated record at its own position, and it passes. */
  lemma {:induction false} AllMatchesSound(tasks: seq<Task>, cfg: FilterConfig)
    ensures FaithfulTo(AllMatches(tasks, cfg), tasks)
    ensures forall k :: 0 <= k < |AllMatches(tasks, cfg)| ==> Passes(cfg, AllMatches(tasks, cfg)[k].task)
  {
    if tasks != [] {
      var n := |tasks| - 1;
      var front := tasks[..n];
      AllMatchesSound(front, cfg);
      var ms := AllMatches(tasks, cfg);
      var fs := AllMatches(front, cfg);
      forall k | 0 <= k < |ms|
        ensures ms[k].originalIndex < |tasks| && ms[k].task == tasks[ms[k].originalIndex]
      {
        if k < |fs| {
          assert ms[k] == fs[k];
        }
      }
    }
  }

  /** Every passing record is among the matches. */
  lemma {:induction false} AllMatchesComplete(tasks: seq<Task>, cfg: FilterConfig, j: nat)
    requires j < |tasks| && Passes(cfg, tasks[j])
    ensures Annotate(j, tasks[j]) in AllMatches(tasks, cfg)
  {
    var n := |tasks| - 1;
    if j < n {
      AllMatchesComplete(tasks[..n], cfg, j);
    }
  }

  /**
   * Every kept record passes each active predicate: its length is within the
   * truthy bounds, its level is the requested one, and its lower-cased
   * website contains the lower-cased website filter.
   */
  lemma FilteredPassesActivePredicates(tasks: seq<Task>, cfg: FilterConfig)
    ensures forall f :: f in Filtered(tasks, cfg) ==>
      && (cfg.lengthMin != 0 ==> f.taskLength >= cfg.lengthMin)
      && (cfg.lengthMax != 0 ==> f.taskLength <= cfg.lengthMax)
      && (cfg.level != "" ==> f.task.level == Some(cfg.level))
      && (cfg.websiteFilter != "" ==> Contains(Lower(f.task.website), Lower(cfg.websiteFilter)))
  {
    AllMatchesSound(tasks, cfg);
    var ms := AllMatches(tasks, cfg);
    forall f | f in Filtered(tasks, cfg)
      ensures Passes(cfg, f.task) && f.taskLength == |f.task.confirmedTask|
    {
      var k :| 0 <= k < |Filtered(tasks, cfg)| && Filtered(tasks, cfg)[k] == f;
      assert ms[k] == f;
    }
  }

  /**
   * The kept records keep source order, and each carries its own position
   * (`original_index`, strictly increasing) and its own text length
   * (`task_length`).
   */
  lemma FilteredKeepsSourceOrder(tasks: seq<Task>, cfg: FilterConfig)
    ensures FaithfulTo(Filtered(tasks, cfg), tasks)
  {
    AllMatchesSound(tasks, cfg);
    var ms := AllMatches(tasks, cfg);
    var r := Filtered(tasks, cfg);
    assert forall k :: 0 <= k < |r| ==> r[k] == ms[k];
  }

  /**
   * A truthy `max_tasks` bounds the number of kept records (by 1 when it is
   * negative), and while the bound is not reached nothing that passes is
   * dropped: every passing record is kept, and every kept record passes.
   */
  lemma FilteredBoundedAndComplete(tasks: seq<Task>, cfg: FilterConfig)
    ensures cfg.maxTasks > 0 ==> |Filtered(tasks, cfg)| <= cfg.maxTasks
    ensures cfg.maxTasks < 0 ==> |Filtered(tasks, cfg)| <= 1
    ensures cfg.maxTasks == 0 || |Filtered(tasks, cfg)| < Cap(cfg.maxTasks) ==>
      forall j :: 0 <= j < |tasks| ==>
        (Passes(cfg, tasks[j]) <==> Annotate(j, tasks[j]) in Filtered(tasks, cfg))
  {
    var r := Filtered(tasks, cfg);
    if cfg.maxTasks == 0 || |r| < Cap(cfg.maxTasks) {
      AllMatchesSound(tasks, cfg);
      forall j | 0 <= j < |tasks|
        ensures Passes(cfg, tasks[j]) <==> Annotate(j, tasks[j]) in r
      {
        if Passes(cfg, tasks[j]) {
          AllMatchesComplete(tasks, cfg, j);
        }
        if Annotate(j, tasks[j]) in r {
          var k :| 0 <= k < |r| && r[k] == Annotate(j, tasks[j]);
        }
      }
    }
  }

  /** With no predicate active every record is kept, annotated in place. */
  lemma {:induction false} NoFilterKeepsAll(tasks: seq<Task>)
    ensures Filtered(tasks, NoFilter) == AnnotateAll(tasks)
  {
    if tasks != [] {
      var n := |tasks| - 1;
      NoFilterKeepsAll(tasks[..n]);
      assert AnnotateAll(tasks) == AnnotateAll(tasks[..n]) + [Annotate(n, tasks[n])];
    }
  }

  /** The level histogram of the kept records adds up to the number kept. */
  lemma LevelCountsSumToLength(tasks: seq<Task>, cfg: FilterConfig)
    ensures Tally.Total(Tally.Histogram(LevelsOf(Filtered(tasks, cfg)))) == |Filtered(tasks, cfg)|
  {
    Tally.HistogramCounts(LevelsOf(Filtered(tasks, cfg)));
  }
}
