// The two per-level dictionaries the runner builds: the level histogram of
// the filtered tasks (`level_counts`) and the `{total, success}` statistics of
// the results (`level_stats`). A Python dict keeps its keys in insertion
// order, so each is an association list with distinct keys, first-seen first.
module Tally {

  /** One entry of `level_counts`. */
  datatype Count = Count(key: string, n: nat)

  /** `counts[key] = counts.get(key, 0) + 1` */
  function Bump(counts: seq<Count>, key: string): seq<Count> {
    if counts == [] then [Count(key, 1)]
    else if counts[0].key == key then [Count(key, counts[0].n + 1)] + counts[1..]
    else [counts[0]] + Bump(counts[1..], key)
  }

  /** The dictionary built by bumping each key of `keys` in turn. */
  function Histogram(keys: seq<string>): seq<Count> {
    if keys == [] then [] else Bump(Histogram(keys[..|keys| - 1]), keys[|keys| - 1])
  }

  /** The sum of the dictionary's values. */
  function Total(counts: seq<Count>): nat {
    if counts == [] then 0 else counts[0].n + Total(counts[1..])
  }

  /** `counts.get(key, 0)` */
  function CountOf(counts: seq<Count>, key: string): nat {
    if counts == [] then 0
    else if counts[0].key == key then counts[0].n
    else CountOf(counts[1..], key)
  }

  function KeySet(counts: seq<Count>): set<string> {
    set e | e in counts :: e.key
  }

  predicate DistinctKeys(counts: seq<Count>) {
    forall i, j :: 0 <= i < j < |counts| ==> counts[i].key != counts[j].key
  }

  /** How many times `key` occurs in `keys`. */
  function Occurrences(keys: seq<string>, key: string): nat {
    if keys == [] then 0
    else Occurrences(keys[..|keys| - 1], key) + (if keys[|keys| - 1] == key then 1 else 0)
  }

  lemma {:induction false} BumpTotal(counts: seq<Count>, key: string)
    ensures Total(Bump(counts, key)) == Total(counts) + 1
  {
    if counts != [] && counts[0].key != key {
      BumpTotal(counts[1..], key);
    }
  }

  lemma {:induction false} BumpCountOf(counts: seq<Count>, key: string, other: string)
    ensures CountOf(Bump(counts, key), other) == CountOf(counts, other) + (if other == key then 1 else 0)
  {
    if counts != [] && counts[0].key != key {
      BumpCountOf(counts[1..], key, other);
    }
  }

  lemma {:induction false} BumpKeys(counts: seq<Count>, key: string)
    ensures KeySet(Bump(counts, key)) == KeySet(counts) + {key}
    ensures forall e :: e in Bump(counts, key) ==> e.n > 0 || e in counts
  {
    assert counts != [] ==> counts == [counts[0]] + counts[1..];
    if counts != [] && counts[0].key != key {
      BumpKeys(counts[1..], key);
      assert KeySet(counts) == {counts[0].key} + KeySet(counts[1..]);
      assert KeySet(Bump(counts, key)) == {counts[0].key} + KeySet(Bump(counts[1..], key));
    } else if counts != [] {
      assert KeySet(counts) == {counts[0].key} + KeySet(counts[1..]);
      assert KeySet(Bump(counts, key)) == {key} + KeySet(counts[1..]);
    }
  }

  lemma {:induction false} BumpDistinct(counts: seq<Count>, key: string)
    requires DistinctKeys(counts)
    ensures DistinctKeys(Bump(counts, key))
  {
    if counts != [] && counts[0].key != key {
      var tail := counts[1..];
      BumpDistinct(tail, key);
      BumpKeys(tail, key);
      var b := Bump(counts, key);
      assert b == [counts[0]] + Bump(tail, key);
      forall j | 0 < j < |b|
        ensures b[j].key != counts[0].key
      {
        assert b[j] in Bump(tail, key);
        assert b[j].key in KeySet(tail) + {key};
        if b[j].key in KeySet(tail) {
          var e :| e in tail && e.key == b[j].key;
          var i :| 0 <= i < |tail| && tail[i] == e;
          assert counts[i + 1] == e;
        }
      }
    }
  }

  lemma {:induction false} HistogramTotal(keys: seq<string>)
    ensures Total(Histogram(keys)) == |keys|
  {
    if keys != [] {
      HistogramTotal(keys[..|keys| - 1]);
      BumpTotal(Histogram(keys[..|keys| - 1]), keys[|keys| - 1]);
    }
  }

  lemma {:induction false} HistogramDistinct(keys: seq<string>)
    ensures DistinctKeys(Histogram(keys))
  {
    if keys != [] {
      HistogramDistinct(keys[..|keys| - 1]);
      BumpDistinct(Histogram(keys[..|keys| - 1]), keys[|keys| - 1]);
    }
  }

  lemma {:induction false} HistogramKeys(keys: seq<string>)
    ensures KeySet(Histogram(keys)) == set k | k in keys
  {
    if keys != [] {
      var front := keys[..|keys| - 1];
      var last := keys[|keys| - 1];
      HistogramKeys(front);
      BumpKeys(Histogram(front), last);
      assert keys == front + [last];
      assert (set k | k in keys) == (set k | k in front) + {last};
    }
  }

  lemma {:induction false} HistogramPositive(keys: seq<string>)
    ensures forall e :: e in Histogram(keys) ==> e.n > 0
  {
    if keys != [] {
      HistogramPositive(keys[..|keys| - 1]);
      BumpKeys(Histogram(keys[..|keys| - 1]), keys[|keys| - 1]);
    }
  }

  lemma {:induction false} HistogramCountOf(keys: seq<string>, key: string)
    ensures CountOf(Histogram(keys), key) == Occurrences(keys, key)
  {
    if keys != [] {
      HistogramCountOf(keys[..|keys| - 1], key);
      BumpCountOf(Histogram(keys[..|keys| - 1]), keys[|keys| - 1], key);
    }
  }

  /**
   * The histogram of a sequence of levels: one entry per distinct level, in
   * order of first appearance, counting its occurrences; the counts add up to
   * the number of levels counted.
   */
  lemma HistogramCounts(keys: seq<string>)
    ensures Total(Histogram(keys)) == |keys|
    ensures DistinctKeys(Histogram(keys))
    ensures KeySet(Histogram(keys)) == set k | k in keys
    ensures forall key :: CountOf(Histogram(keys), key) == Occurrences(keys, key)
    ensures forall e :: e in Histogram(keys) ==> e.n > 0
  {
    HistogramTotal(keys);
    HistogramDistinct(keys);
    HistogramKeys(keys);
    HistogramPositive(keys);
    forall key
      ensures CountOf(Histogram(keys), key) == Occurrences(keys, key)
    {
      HistogramCountOf(keys, key);
    }
  }

  /** One entry of `level_stats`. */
  datatype LevelStat = LevelStat(level: string, total: nat, success: nat)

  /** One executed task as the summary sees it: its level and whether it succeeded. */
  datatype Mark = Mark(level: string, ok: bool)

  /**
   * Creates the level's entry with zero counts if it is missing, then adds
   * one to its total and, for a success, one to its successes.
   */
  function Record(stats: seq<LevelStat>, level: string, ok: bool): seq<LevelStat> {
    if stats == [] then [LevelStat(level, 1, if ok then 1 else 0)]
    else if stats[0].level == level then
      [LevelStat(level, stats[0].total + 1, stats[0].success + if ok then 1 else 0)] + stats[1..]
    else [stats[0]] + Record(stats[1..], level, ok)
  }

  /** The statistics built by recording each mark in turn. */
  function Stats(marks: seq<Mark>): seq<LevelStat> {
    if marks == [] then []
    else
      var last := marks[|marks| - 1];
      Record(Stats(marks[..|marks| - 1]), last.level, last.ok)
  }

  /** The `total` column, read as a level histogram. */
  function Totals(stats: seq<LevelStat>): seq<Count> {
    if stats == [] then [] else [Count(stats[0].level, stats[0].total)] + Totals(stats[1..])
  }

  function SumSuccesses(stats: seq<LevelStat>): nat {
    if stats == [] then 0 else stats[0].success + SumSuccesses(stats[1..])
  }

  /** `stats[level]['success']`, or 0 when the level has no entry. */
  function SuccessOf(stats: seq<LevelStat>, level: string): nat {
    if stats == [] then 0
    else if stats[0].level == level then stats[0].success
    else SuccessOf(stats[1..], level)
  }

  function LevelsOfMarks(marks: seq<Mark>): (levels: seq<string>)
    ensures |levels| == |marks|
    ensures forall k :: 0 <= k < |marks| ==> levels[k] == marks[k].level
  {
    seq(|marks|, k requires 0 <= k < |marks| => marks[k].level)
  }

  /** How many marks are successes. */
  function Successes(marks: seq<Mark>): nat {
    if marks == [] then 0
    else Successes(marks[..|marks| - 1]) + (if marks[|marks| - 1].ok then 1 else 0)
  }

  /** How many marks of `level` are successes. */
  function SuccessesAt(marks: seq<Mark>, level: string): nat {
    if marks == [] then 0
    else
      var last := marks[|marks| - 1];
      SuccessesAt(marks[..|marks| - 1], level) + (if last.level == level && last.ok then 1 else 0)
  }

  predicate SuccessWithinTotal(stats: seq<LevelStat>) {
    forall e :: e in stats ==> e.success <= e.total
  }

  lemma {:induction false} RecordTotals(stats: seq<LevelStat>, level: string, ok: bool)
    ensures Totals(Record(stats, level, ok)) == Bump(Totals(stats), level)
  {
    if stats != [] && stats[0].level != level {
      RecordTotals(stats[1..], level, ok);
    }
  }

  lemma {:induction false} RecordSuccesses(stats: seq<LevelStat>, level: string, ok: bool, other: string)
    ensures SumSuccesses(Record(stats, level, ok)) == SumSuccesses(stats) + (if ok then 1 else 0)
    ensures SuccessOf(Record(stats, level, ok), other) == SuccessOf(stats, other) + (if other == level && ok then 1 else 0)
  {
    if stats != [] && stats[0].level != level {
      RecordSuccesses(stats[1..], level, ok, other);
    }
  }

  lemma {:induction false} RecordKeepsBound(stats: seq<LevelStat>, level: string, ok: bool)
    requires SuccessWithinTotal(stats)
    ensures SuccessWithinTotal(Record(stats, level, ok))
  {
    var r := Record(stats, level, ok);
    if stats != [] {
      assert stats == [stats[0]] + stats[1..];
      assert SuccessWithinTotal(stats[1..]);
      if stats[0].level != level {
        RecordKeepsBound(stats[1..], level, ok);
        assert r == [stats[0]] + Record(stats[1..], level, ok);
      } else {
        forall e | e in r
          ensures e.success <= e.total
        {
          if e != r[0] {
            assert e in stats[1..];
          }
        }
      }
    }
  }

  /**
   * The per-level statistics: the totals are the level histogram of the
   * marks (so they add up to the number of marks and each level appears
   * once), the successes add up to the number of successful marks, each
   * level's successes count that level's successful marks, and no level has
   * more successes than tasks.
   */
  lemma {:induction false} StatsSummarize(marks: seq<Mark>)
    ensures Totals(Stats(marks)) == Histogram(LevelsOfMarks(marks))
    ensures SumSuccesses(Stats(marks)) == Successes(marks)
    ensures forall level :: SuccessOf(Stats(marks), level) == SuccessesAt(marks, level)
    ensures SuccessWithinTotal(Stats(marks))
  {
    if marks != [] {
      var front := marks[..|marks| - 1];
      var last := marks[|marks| - 1];
      StatsSummarize(front);
      RecordTotals(Stats(front), last.level, last.ok);
      RecordKeepsBound(Stats(front), last.level, last.ok);
      forall level
        ensures SuccessOf(Stats(marks), level) == SuccessesAt(marks, level)
      {
        RecordSuccesses(Stats(front), last.level, last.ok, level);
      }
      RecordSuccesses(Stats(front), last.level, last.ok, last.level);
      assert LevelsOfMarks(marks)[..|marks| - 1] == LevelsOfMarks(front);
    }
  }
}
