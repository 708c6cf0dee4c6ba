/** Dropping old samples: line graphs and sparklines both cut a series that has grown past four
    times their width (termui/linegraph.go, termui/sparkline.go). */
module Pruning {
  import opened GoInt
  import opened Sequences

  function Prune<T>(data: seq<T>, dx: int): seq<T>
    requires dx >= 1
  {
    if |data| > 4 * dx then data[dx - 1..] else data
  }

  /** pruned keeps the newest samples of full, and if it lost any, it still has more than three
      widths of the narrowest view. */
  predicate Keeps<T(==)>(pruned: seq<T>, full: seq<T>, narrowest: int) {
    IsSuffix(pruned, full) && (pruned == full || |pruned| >= 3 * narrowest + 2)
  }

  lemma AppendKeeps<T>(pruned: seq<T>, full: seq<T>, narrowest: int, sample: T)
    requires Keeps(pruned, full, narrowest)
    ensures Keeps(pruned + [sample], full + [sample], narrowest)
  {
    assert pruned + [sample] == (full + [sample])[|full| - |pruned|..];
  }

  /** The narrowest view that cuts anything off, if no view is narrower than the given width: at width
      one the cut starts with the first sample. */
  function NarrowestCut(narrowest: int): int {
    Max(2, narrowest)
  }

  lemma PruneKeeps<T>(pruned: seq<T>, full: seq<T>, narrowest: int, dx: int)
    requires Keeps(pruned, full, NarrowestCut(narrowest)) && 1 <= narrowest <= dx
    ensures Keeps(Prune(pruned, dx), full, NarrowestCut(narrowest))
  {
    var cut := Prune(pruned, dx);
    if dx == 1 {
      assert cut == pruned;
    } else if |pruned| > 4 * dx {
      assert cut == full[|full| - |cut|..];
    }
  }

  /** The samples left after bursts of samples with one draw behind each burst. */
  function AfterBursts<T>(start: seq<T>, dx: int, bursts: seq<seq<T>>): seq<T>
    requires dx >= 1
  {
    if bursts == [] then start
    else Prune(AfterBursts(start, dx, bursts[..|bursts| - 1]) + bursts[|bursts| - 1], dx)
  }

  /** As long as fewer than a width of samples arrive between draws, four widths are never exceeded. */
  lemma {:induction false} BoundedSeries<T>(start: seq<T>, dx: int, bursts: seq<seq<T>>)
    requires dx >= 2 && |start| <= 4 * dx
    requires forall i :: 0 <= i < |bursts| ==> |bursts[i]| <= dx - 1
    ensures |AfterBursts(start, dx, bursts)| <= 4 * dx
  {
    if bursts != [] {
      BoundedSeries(start, dx, bursts[..|bursts| - 1]);
    }
  }

  function Concat<T>(parts: seq<seq<T>>): seq<T> {
    if parts == [] then [] else Concat(parts[..|parts| - 1]) + parts[|parts| - 1]
  }

  /** A view one cell wide cuts nothing off, so there the series grow without bound. */
  lemma {:induction false} NarrowestNeverPrunes<T>(start: seq<T>, bursts: seq<seq<T>>)
    ensures AfterBursts(start, 1, bursts) == start + Concat(bursts)
  {
    if bursts != [] {
      NarrowestNeverPrunes(start, bursts[..|bursts| - 1]);
    }
  }
}
