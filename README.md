# Mind2Web runner for Agent TARS — verified model of its core

The runner script loads Online Mind2Web benchmark tasks, filters them, picks
the ones to run, turns each into an instruction for the Agent TARS
command-line agent, records one outcome per run, and summarises the successes
overall and per difficulty level. This project models the deterministic core
of that script in Dafny:

- **Task filter** (`filter_tasks`): a loop over the dataset that keeps the
  records passing every active predicate, annotates each with
  `original_index` and `task_length`, stops after `max_tasks` matches and
  builds the `level_counts` histogram (`filter.dfy`, `tally.dfy`).
- **Instruction formatter** (`format_task_input`, `format.dfy`).
- **Website filename** (`generate_website_filename` and the auto-generated
  results path, `filename.dfy`), over a stand-in for the part of `urlparse`
  it relies on.
- **Run selection** in `main`: the sample tasks or the filtered split, then
  one task by index, a `start`/`end` slice, or everything (`selection.dfy`).
- **Outcome records** of `run_agent_tars_realtime` and `run_agent_tars`, and
  the agent's command line (`execution.dfy`).
- **Execution loop and summary** in `main`: one merged result record per
  task, the success count and the `level_stats` dictionary (`summary.dfy`).

Modelling choices:

- Python truthiness decides whether a filter option is active, so `None`, `0`
  and `""` all mean "no constraint". Integer options are `int`s that are
  unset at 0; string options are unset when empty. A negative `max_tasks` is
  truthy: the early-stop test only runs after an append, so it lets exactly
  one match through (`TaskFilter.Cap`).
- `level_counts` and `level_stats` are Python dicts, which keep insertion
  order; they are modelled as association lists with distinct keys, in order
  of first appearance.
- The child process is not modelled. A streamed run is given as the lines it
  printed plus how it ended: exited with a code, interrupted, or raised an
  exception. A captured run is given as completed, timed out, or raised.
- Lower-casing folds ASCII letters only.

Behaviour of the script that the model keeps:

- A user interrupt during a streamed run is caught inside
  `run_agent_tars_realtime` and recorded as return code -2; the loop in
  `main` then goes on to the next task (`Summary.RunTasks`).
- The streamed path that `main` uses has no timeout. The only timeout
  outcome (-1 with a message naming the seconds) is in `run_agent_tars`,
  which `main` does not call; it is modelled as `Execution.CapturedOutcome`.
- Filter options are tested for truthiness, not for presence (see above).

## Model

| member | source | states |
|---|---|---|
| TaskFilter.FilterTasks | scripts/run_mind2web_with_agent_tars.py:37-103 | The loop returns exactly the first `max_tasks` (one when negative) passing records, annotated, in source order, or all of them when `max_tasks` is falsy; `total_checked` is every record, or up to the last kept one after an early stop; `level_counts` is the level histogram of what was kept |
| TaskFilter.CountLevels | scripts/run_mind2web_with_agent_tars.py:94-97 | The `level_counts` loop yields the histogram of the kept records' levels (`unknown` when absent) |
| TaskFilter.AllMatchesSound | scripts/run_mind2web_with_agent_tars.py:54-81 | Every match passes the predicates, is the record at its own `original_index`, and carries that record's text length |
| TaskFilter.AllMatchesComplete | scripts/run_mind2web_with_agent_tars.py:54-81 | Every record that passes the predicates is among the matches, annotated with its position |
| TaskFilter.AllMatchesPrefix | scripts/run_mind2web_with_agent_tars.py:81-85 | The matches kept before an early stop are a prefix of all matches |
| TaskFilter.FilteredPassesActivePredicates | scripts/run_mind2web_with_agent_tars.py:61-73 | Every kept record meets each truthy predicate: length at least the minimum, at most the maximum, the requested level, and the lower-cased filter a substring of the lower-cased website |
| TaskFilter.FilteredKeepsSourceOrder | scripts/run_mind2web_with_agent_tars.py:54-81 | Kept records are in source order with strictly increasing `original_index`, each equal to its source record and with `task_length` its text length |
| TaskFilter.FilteredBoundedAndComplete | scripts/run_mind2web_with_agent_tars.py:81-85 | A positive `max_tasks` bounds the result (a negative one bounds it by 1); when the bound is not reached, a record is kept if and only if it passes the predicates |
| TaskFilter.NoFilterKeepsAll | scripts/run_mind2web_with_agent_tars.py:341-345 | With no predicate active, the filter keeps every record annotated with its position, which is how sample mode annotates the sample tasks |
| TaskFilter.LevelCountsSumToLength | scripts/run_mind2web_with_agent_tars.py:94-97 | The per-level counts of the kept records add up to the number kept |
| Tally.HistogramTotal | scripts/run_mind2web_with_agent_tars.py:95-97 | The counts of the level histogram add up to the number of levels counted |
| Tally.HistogramDistinct | scripts/run_mind2web_with_agent_tars.py:95-97 | The histogram lists each level at most once |
| Tally.HistogramKeys | scripts/run_mind2web_with_agent_tars.py:95-97 | The histogram's keys are exactly the levels seen |
| Tally.HistogramPositive | scripts/run_mind2web_with_agent_tars.py:95-97 | Every count in the histogram is positive |
| Tally.HistogramCountOf | scripts/run_mind2web_with_agent_tars.py:95-97 | The count the histogram gives a level is its number of occurrences (0 when absent) |
| Tally.StatsSummarize | scripts/run_mind2web_with_agent_tars.py:480-487 | The `total` column of `level_stats` is the level histogram of the results; the successes add up to the success count, count each level's successful results, and never exceed the level's total |
| TaskFormat.FormatTaskInput | scripts/run_mind2web_with_agent_tars.py:122-139 | An empty website gives the task text unchanged; otherwise the instruction starts with the template lead, names the website right after it, contains the task text and ends with the fixed directives |
| TaskFormat.TaskTextRoundTrip | scripts/run_mind2web_with_agent_tars.py:122-139 | Given the website, the task text is read back exactly from the instruction |
| TaskFormat.SameWebsiteSameInstruction | scripts/run_mind2web_with_agent_tars.py:122-139 | Two tasks for the same website with equal instructions have equal task texts |
| WebsiteFilename.DomainName | scripts/run_mind2web_with_agent_tars.py:265-271 | The name is the lower-cased text of the domain, less a leading `www.`, up to its first dot; it has no dot and no upper-case letter |
| WebsiteFilename.FallbackName | scripts/run_mind2web_with_agent_tars.py:272-276 | The fallback name is the lower-cased text of the website, with every `https://`, `http://` and `www.` removed, up to its first `.` or `/`; so it has no dot, no slash and no upper-case letter |
| WebsiteFilename.GenerateWebsiteFilename | scripts/run_mind2web_with_agent_tars.py:256-276 | An empty website gives `unknown`; any other gives a lower-case name with no dot, so a leading `www.` never survives |
| WebsiteFilename.UrlSplit | scripts/run_mind2web_with_agent_tars.py:264-265 | The parsed network location stops before any `/`, `?` or `#`, the path before any `?` or `#`; parsing fails only on a bracket in the URL |
| WebsiteFilename.UrlSplitWithScheme | scripts/run_mind2web_with_agent_tars.py:264-265 | `scheme://host/...` parses to the lower-cased scheme, the host as network location, and the rest up to `?` or `#` as path |
| WebsiteFilename.WebsiteFilenameWithScheme | scripts/run_mind2web_with_agent_tars.py:264-271 | For `scheme://host/...` the name is the domain name of the host: lower-cased, less a leading `www.`, up to the first dot |
| WebsiteFilename.WebsiteFilenameWithoutScheme | scripts/run_mind2web_with_agent_tars.py:264-271 | A website without `:` and not starting with `//` is all path, and the name is the domain name of its text up to any `?` or `#` |
| WebsiteFilename.AmazonWebsiteName | scripts/run_mind2web_with_agent_tars.py:256-271 | `https://www.amazon.com`, the first sample task's website, is filed under `amazon` |
| WebsiteFilename.AutoOutputFile | scripts/run_mind2web_with_agent_tars.py:463-464 | The auto-generated path is `./results/mind2web_` then the website's name then `_results.json` |
| Summary.OutputFile | scripts/run_mind2web_with_agent_tars.py:459-464 | The results path is exactly `./results/mind2web_<name>_results.json`, with the website's name, when auto-filename is set and exactly one task ran, otherwise the given path |
| Selection.SelectTasks | scripts/run_mind2web_with_agent_tars.py:364-386 | No candidates stops the run; an index gives exactly that candidate, or an out-of-range error that stops the run; otherwise, outside sample mode, the candidates from `start` to `min(end, len)`; in sample mode all of them |
| Selection.SelectionIsContiguous | scripts/run_mind2web_with_agent_tars.py:371-386 | The selection is a contiguous run of the candidates, no longer than they are, and keeps their source order |
| Selection.CandidatesFaithful | scripts/run_mind2web_with_agent_tars.py:338-361 | The candidates, sample or filtered, are in source order, each at its own `original_index` with its own `task_length` |
| Execution.Command | scripts/run_mind2web_with_agent_tars.py:189-192 | The command is `agent-tars run --input <instruction>`, followed by `--debug` exactly when debug is on |
| Execution.RealtimeOutcome | scripts/run_mind2web_with_agent_tars.py:200-254 | `success` holds exactly when the return code is 0; a normal exit keeps all output and the child's code; an interrupt keeps the output so far with -2; an exception gives -1, no output and the exception text |
| Execution.RealtimeEndingRecoverable | scripts/run_mind2web_with_agent_tars.py:224-254 | The ending of a streamed run can be read back from its outcome even when the child exits with -1 or -2, and an interrupted outcome contains every line read before the interrupt |
| Execution.CapturedOutcome | scripts/run_mind2web_with_agent_tars.py:155-184 | `success` holds exactly when the return code is 0; completion keeps both streams; a timeout or an exception gives -1 with no output and a message |
| Execution.TimeoutMessageNamesTimeout | scripts/run_mind2web_with_agent_tars.py:171-177 | The timeout message names exactly the configured number of seconds |
| Text.ConcatContainsEach | scripts/run_mind2web_with_agent_tars.py:230 | Joining the captured lines keeps each of them in the output |
| Text.IntDecimalRoundTrip | scripts/run_mind2web_with_agent_tars.py:175 | The decimal text of an integer reads back as that integer |
| Text.BeforeFirst | scripts/run_mind2web_with_agent_tars.py:270 | `split(c)[0]` is the longest prefix without `c`: a prefix, free of `c`, followed by `c` or by the end |
| Text.RemoveAll | scripts/run_mind2web_with_agent_tars.py:274 | Removing a pattern never lengthens the text and introduces no new character |
| Text.RemoveAllSkip | scripts/run_mind2web_with_agent_tars.py:274 | A stretch in which no occurrence starts is kept as it is, and removal goes on after it; with `Text.RemoveAllLeading` this is left-to-right, non-overlapping removal of every occurrence met |
| Text.RemoveAllAbsent | scripts/run_mind2web_with_agent_tars.py:274 | A text without the pattern is left unchanged |
| Text.RemoveAllLeading | scripts/run_mind2web_with_agent_tars.py:274 | An occurrence of the pattern at the front of the text is removed |
| Summary.RunTasks | scripts/run_mind2web_with_agent_tars.py:408-439 | One merged record per selected task, in order: the task's fields, its formatted instruction, its outcome, and its index (the chosen task index when one was given); one launch per record, carrying exactly the instruction that record holds |
| Summary.ResultsFollowSelection | scripts/run_mind2web_with_agent_tars.py:408-439 | Results keep the selection's order (strictly increasing `original_index`), have unique indexes, record their own text length and an instruction containing their text, and have `success` exactly when the return code is 0 |
| Summary.RunFollowsSource | scripts/run_mind2web_with_agent_tars.py:338-439 | Past selection, a run records at most as many results as candidates, in source order, with unique indexes, each for the source record at its `original_index` |
| Summary.Summarize | scripts/run_mind2web_with_agent_tars.py:471-487 | The summary loops count the successful results and build the per-level `{total, success}` dictionary in first-seen order |
| Summary.SummaryAddsUp | scripts/run_mind2web_with_agent_tars.py:471-487 | The level totals add up to the number of results and count each level's results; the level successes add up to the success count, count each level's successes and never exceed the level's total |

## Left out

- Dataset loading and the `datasets` dependency check, with their exits: foreign library and network I/O. The split is an input.
- Command-line parsing: the options are inputs. The defaults (`max_tasks` 10, `start` 0, timeout 300) are not modelled.
- Negative `start` or `end`: Python's negative slicing is not modelled. `start` and `end` are natural numbers.
- Launching and reading the child process, `poll`, `terminate`, `wait`: OS process plumbing. How a run ended is an input.
- An interrupt during `process.wait()` or during the pause between tasks escapes the runner uncaught: asynchronous signal delivery is not modelled.
- All printing: the filter report (length range, website count), the preview, dry-run display, progress and summary lines. It does not change any returned value.
- Success-rate percentages: floating point. Only the integer counts are modelled.
- Writing the results file and creating its directory: file I/O.
- The per-result timestamp and the pause between tasks: clock.
- `WebsiteFilename.UrlSplit` models only part of `urlparse`, as recent Python releases parse it: the scheme must start with a letter. Older releases differ: under 3.8, `localhost:8080` has no scheme and is all path; under 3.9.0, any run of scheme characters before the first `:` is a scheme, so `1a:b` has scheme `1a`, where the model reads it all as path. Not modelled: stripping of leading whitespace and control characters, removal of tab and newline characters, `;` parameters, validation of bracketed hosts, and the Unicode check on the network location.
- Lower-casing of non-ASCII letters: only ASCII letters are folded.
- Dataset fields other than `confirmed_task`, `website` and `level` are not modelled. The script copies them through unchanged, and apart from `original_index` and `task_length` (next line) none of the modelled logic reads them.
- Records that carry their own `original_index` or `task_length`: the script merges the record after its annotation, so such a field would replace the annotation, and `main` reads these keys back. The model assumes records carry neither key, so `TaskFilter.FilteredKeepsSourceOrder`, `Selection.CandidatesFaithful` and `Summary.RunFollowsSource` describe only such records.
- A `level` key present with value `None` is not modelled: a record either has a level string or no level.
