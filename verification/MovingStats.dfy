/** Statistics over a moving window, kept in bins (packages/graph-node/graph/src/util/stats.rs). Times and durations
    are in nanoseconds. */
module MovingStatistics {

  const MILLISECOND: nat := 1_000_000

  /** The longest duration that can be represented. */
  const MAX_DURATION: nat := 0xFFFF_FFFF_FFFF_FFFF * 1_000_000_000 + 999_999_999

  datatype Bin = Bin(start: nat, duration: nat, count: nat) {
    function Add(d: nat): Bin {
      Bin(start, duration + d, count + 1)
    }
  }

  /** One measurement, for saying what the bins stand for. */
  datatype Sample = Sample(time: nat, duration: nat)

  function Total(samples: seq<Sample>): nat {
    if samples == [] then 0 else Total(samples[..|samples| - 1]) + samples[|samples| - 1].duration
  }

  lemma {:induction false} TotalConcat(a: seq<Sample>, b: seq<Sample>)
    ensures Total(a + b) == Total(a) + Total(b)
  {
    if b == [] {
      assert a + b == a;
    } else {
      TotalConcat(a, b[..|b| - 1]);
      assert (a + b)[..|a + b| - 1] == a + b[..|b| - 1];
    }
  }

  /** The samples that a window of length `length` ending at `now` contains. */
  function Within(samples: seq<Sample>, now: nat, length: int): seq<Sample> {
    if samples == [] then [] else
    var rest, last := Within(samples[..|samples| - 1], now, length), samples[|samples| - 1];
    if last.time + length > now then rest + [last] else rest
  }

  function Concat(parts: seq<seq<Sample>>): seq<Sample> {
    if parts == [] then [] else parts[0] + Concat(parts[1..])
  }

  lemma {:induction false} ConcatSnoc(parts: seq<seq<Sample>>, last: seq<Sample>)
    ensures Concat(parts + [last]) == Concat(parts) + last
  {
    if parts == [] {
      assert parts + [last] == [last];
    } else {
      assert (parts + [last])[1..] == parts[1..] + [last];
      ConcatSnoc(parts[1..], last);
    }
  }

  lemma {:induction false} WithinConcat(a: seq<Sample>, b: seq<Sample>, now: nat, length: int)
    ensures Within(a + b, now, length) == Within(a, now, length) + Within(b, now, length)
  {
    if b == [] {
      assert a + b == a;
    } else {
      WithinConcat(a, b[..|b| - 1], now, length);
      assert (a + b)[..|a + b| - 1] == a + b[..|b| - 1];
    }
  }

  lemma {:induction false} WithinAll(samples: seq<Sample>, now: nat, length: int)
    requires forall s :: s in samples ==> s.time + length > now
    ensures Within(samples, now, length) == samples
  {
    if samples != [] {
      WithinAll(samples[..|samples| - 1], now, length);
      assert samples[|samples| - 1] in samples;
    }
  }

  lemma {:induction false} WithinNone(samples: seq<Sample>, now: nat, length: int)
    requires forall s :: s in samples ==> s.time + length <= now
    ensures Within(samples, now, length) == []
  {
    if samples != [] {
      WithinNone(samples[..|samples| - 1], now, length);
      assert samples[|samples| - 1] in samples;
    }
  }

  lemma {:induction false} WithinTotal(samples: seq<Sample>, now: nat, length: int)
    ensures Total(Within(samples, now, length)) <= Total(samples) && |Within(samples, now, length)| <= |samples|
  {
    if samples != [] { WithinTotal(samples[..|samples| - 1], now, length); }
  }

  /** A bin and the samples that were added to it. */
  ghost predicate Stands(b: Bin, samples: seq<Sample>, binSize: nat) {
    && b.duration == Total(samples) && b.count == |samples|
    && forall s :: s in samples ==> b.start <= s.time < b.start + binSize
  }

  lemma {:induction false} InConcat(parts: seq<seq<Sample>>, s: Sample)
    requires s in Concat(parts)
    ensures exists i :: 0 <= i < |parts| && s in parts[i]
  {
    if s in parts[0] {
    } else {
      InConcat(parts[1..], s);
      var i :| 0 <= i < |parts[1..]| && s in parts[1..][i];
      assert s in parts[i + 1];
    }
  }

  /** The bins, oldest first, each with its samples, a bin size or more apart. */
  ghost predicate Binned(bins: seq<Bin>, contents: seq<seq<Sample>>, binSize: nat) {
    && |contents| == |bins|
    && (forall i :: 0 <= i < |bins| ==> Stands(bins[i], contents[i], binSize))
    && (forall i :: 0 < i < |bins| ==> bins[i - 1].start + binSize <= bins[i].start)
  }

  lemma {:induction false} Spacing(bins: seq<Bin>, contents: seq<seq<Sample>>, binSize: nat, i: nat, j: nat)
    requires Binned(bins, contents, binSize) && i <= j < |bins|
    ensures bins[i].start + (j - i) * binSize <= bins[j].start
  {
    if i < j { Spacing(bins, contents, binSize, i, j - 1); }
  }

  lemma {:induction false} InOrder(bins: seq<Bin>, contents: seq<seq<Sample>>, binSize: nat, i: nat, j: nat)
    requires Binned(bins, contents, binSize) && i <= j < |bins|
    ensures bins[i].start <= bins[j].start
  {
    if i < j { InOrder(bins, contents, binSize, i, j - 1); }
  }

  ghost predicate Sums(total: Bin, contents: seq<seq<Sample>>) {
    total.duration == Total(Concat(contents)) && total.count == |Concat(contents)|
  }

  /** No more bins than fit: the number is at most the window size divided by the bin size, rounded up. */
  lemma BinCount(bins: seq<Bin>, contents: seq<seq<Sample>>, binSize: nat, windowSize: nat, now: nat)
    requires Binned(bins, contents, binSize) && 0 < binSize
    requires forall i :: 0 <= i < |bins| ==> bins[i].start <= now < bins[i].start + windowSize
    ensures |bins| <= (windowSize + binSize - 1) / binSize
  {
    if bins != [] {
      Spacing(bins, contents, binSize, 0, |bins| - 1);
      RoundedUp(|bins| - 1, binSize, windowSize);
    }
  }

  lemma RoundedUp(n: nat, b: nat, w: nat)
    requires 0 < b && n * b < w
    ensures n + 1 <= (w + b - 1) / b
  {
    var q := (w + b - 1) / b;
    assert w + b - 1 == q * b + (w + b - 1) % b;
    if q <= n { MultiplyBoth(q, n, b); }
  }

  lemma MultiplyBoth(q: nat, n: nat, b: nat)
    requires q <= n
    ensures q * b <= n * b
  {}

  /** A new bin for a sample that comes a bin size or more after the start of the latest one. */
  lemma BinAdded(bins: seq<Bin>, contents: seq<seq<Sample>>, binSize: nat, now: nat, total: Bin)
    requires Binned(bins, contents, binSize) && Sums(total, contents)
    requires bins != [] ==> bins[|bins| - 1].start + binSize <= now
    ensures Binned(bins + [Bin(now, 0, 0)], contents + [[]], binSize) && Sums(total, contents + [[]])
    ensures Concat(contents + [[]]) == Concat(contents)
  {
    ConcatSnoc(contents, []);
    assert Concat(contents) + [] == Concat(contents);
  }

  lemma FirstBinGone(bins: seq<Bin>, contents: seq<seq<Sample>>, binSize: nat, total: Bin)
    requires Binned(bins, contents, binSize) && Sums(total, contents) && bins != []
    ensures Binned(bins[1..], contents[1..], binSize)
    ensures bins[0].duration <= total.duration && bins[0].count <= total.count
    ensures Sums(Bin(total.start, total.duration - bins[0].duration, total.count - bins[0].count), contents[1..])
    ensures forall expired :: expired + Concat(contents) == (expired + contents[0]) + Concat(contents[1..])
  {
    TotalConcat(contents[0], Concat(contents[1..]));
  }

  lemma LastBinStands(bins: seq<Bin>, contents: seq<seq<Sample>>, binSize: nat, s: Sample)
    requires Binned(bins, contents, binSize) && bins != []
    requires bins[|bins| - 1].start <= s.time < bins[|bins| - 1].start + binSize
    ensures var last := |bins| - 1;
            Binned(bins[last := bins[last].Add(s.duration)], contents[last := contents[last] + [s]], binSize)
    ensures var last := |bins| - 1;
            forall i :: 0 <= i < |bins| ==> bins[last := bins[last].Add(s.duration)][i].start == bins[i].start
  {
    var last := |bins| - 1;
    TotalSnoc(contents[last], s);
    assert Stands(bins[last], contents[last], binSize);
    assert Stands(bins[last].Add(s.duration), contents[last] + [s], binSize);
  }

  lemma LastBinGrown(contents: seq<seq<Sample>>, total: Bin, s: Sample)
    requires Sums(total, contents) && contents != []
    ensures var last := |contents| - 1;
            var contents' := contents[last := contents[last] + [s]];
            Concat(contents') == Concat(contents) + [s] && Sums(total.Add(s.duration), contents')
  {
    var last := |contents| - 1;
    var init, end := contents[..last], contents[last];
    assert contents == init + [end];
    assert contents[last := end + [s]] == init + [end + [s]];
    ConcatSnoc(init, end);
    ConcatSnoc(init, end + [s]);
    TotalSnoc(Concat(contents), s);
  }

  /** Samples of an expired bin are older than the window less one bin; the others are inside the window. So what is
      kept lies between what the two windows contain. */
  lemma WindowSums(expired: seq<Sample>, kept: seq<Sample>, now: nat, windowSize: nat, binSize: nat)
    requires binSize < windowSize
    requires forall s :: s in expired ==> s.time + windowSize < now + binSize
    requires forall s :: s in kept ==> now < s.time + windowSize
    ensures var inner := Within(expired + kept, now, windowSize - binSize + 1);
            var outer := Within(expired + kept, now, windowSize);
            && Total(inner) <= Total(kept) <= Total(outer)
            && |inner| <= |kept| <= |outer|
  {
    var innerLength := windowSize - binSize + 1;
    WithinConcat(expired, kept, now, innerLength);
    WithinConcat(expired, kept, now, windowSize);
    WithinNone(expired, now, innerLength);
    WithinAll(kept, now, windowSize);
    WithinTotal(kept, now, innerLength);
    TotalConcat(Within(expired, now, windowSize), kept);
    TotalConcat([], Within(kept, now, innerLength));
  }

  lemma KeptInWindow(bins: seq<Bin>, contents: seq<seq<Sample>>, binSize: nat, windowSize: nat, now: nat)
    requires Binned(bins, contents, binSize)
    requires forall i :: 0 <= i < |bins| ==> now < bins[i].start + windowSize
    ensures forall s :: s in Concat(contents) ==> now < s.time + windowSize
  {
    forall s | s in Concat(contents)
      ensures now < s.time + windowSize
    {
      InConcat(contents, s);
      var i :| 0 <= i < |contents| && s in contents[i];
      assert Stands(bins[i], contents[i], binSize);
    }
  }

  lemma AllYoung(bins: seq<Bin>, contents: seq<seq<Sample>>, binSize: nat, windowSize: nat, now: nat)
    requires Binned(bins, contents, binSize) && bins != []
    requires now < bins[0].start + windowSize && bins[|bins| - 1].start <= now
    ensures forall i :: 0 <= i < |bins| ==> bins[i].start <= now < bins[i].start + windowSize
  {
    forall i | 0 <= i < |bins|
      ensures bins[i].start <= now < bins[i].start + windowSize
    {
      InOrder(bins, contents, binSize, 0, i);
      InOrder(bins, contents, binSize, i, |bins| - 1);
    }
  }

  class MovingStats {
    const windowSize: nat
    const binSize: nat
    var bins: seq<Bin>
    var total: Bin
    /** The samples of expired bins, and the ones of each bin that is left. */
    ghost var expired: seq<Sample>
    ghost var contents: seq<seq<Sample>>
    /** The time of the latest sample. */
    ghost var latest: nat

    /** Everything that was ever added. */
    ghost function Samples(): seq<Sample>
      reads this
    {
      expired + Concat(contents)
    }

    ghost predicate Valid()
      reads this
    {
      && 0 < binSize < windowSize
      && Binned(bins, contents, binSize) && Sums(total, contents)
      && (forall i :: 0 <= i < |bins| ==> bins[i].start <= latest < bins[i].start + windowSize)
      && (forall s :: s in expired ==> s.time + windowSize < latest + binSize)
    }

    constructor (windowSize: nat, binSize: nat)
      requires windowSize / MILLISECOND > 0 && binSize / MILLISECOND > 0 && windowSize > binSize
      ensures Valid() && Samples() == [] && bins == [] && latest == 0
      ensures this.windowSize == windowSize && this.binSize == binSize
    {
      this.windowSize, this.binSize := windowSize, binSize;
      bins, total := [], Bin(0, 0, 0);
      expired, contents, latest := [], [], 0;
    }

    /** Whether the average of the current window is above `duration`; a product too large to represent counts as more
        than any sum. */
    predicate AverageGt(duration: nat)
      reads this
    {
      duration * total.count <= MAX_DURATION && total.duration > duration * total.count
    }

    /** Adds a measurement. Afterwards the running total is at least the sum over a window that is one bin shorter, and
        at most the sum over the full window, and there are never more bins than fit into it. */
    method AddAt(now: nat, duration: nat)
      requires Valid() && latest <= now
      modifies this
      ensures Valid() && latest == now
      ensures Samples() == old(Samples()) + [Sample(now, duration)]
      ensures Total(Within(Samples(), now, windowSize - binSize + 1)) <= total.duration
              <= Total(Within(Samples(), now, windowSize))
      ensures |Within(Samples(), now, windowSize - binSize + 1)| <= total.count <= |Within(Samples(), now, windowSize)|
      ensures 0 < |bins| <= (windowSize + binSize - 1) / binSize
    {
      if bins == [] || now - bins[|bins| - 1].start >= binSize {
        BinAdded(bins, contents, binSize, now, total);
        bins, contents := bins + [Bin(now, 0, 0)], contents + [[]];
      }
      ExpireBins(now);
      AddToLast(now, duration);
      WindowBounds(this);
    }

    /** There is a bin to add to: the latest one is younger than the window. */
    method AddToLast(now: nat, duration: nat)
      requires Valid() && latest == now && bins != []
      requires bins[|bins| - 1].start <= now < bins[|bins| - 1].start + binSize
      modifies this`bins, this`total, this`contents
      ensures Valid() && bins != [] && Samples() == old(Samples()) + [Sample(now, duration)]
    {
      var last := |bins| - 1;
      ghost var sample := Sample(now, duration);
      LastBinStands(bins, contents, binSize, sample);
      LastBinGrown(contents, total, sample);
      contents := contents[last := contents[last] + [sample]];
      bins := bins[last := bins[last].Add(duration)];
      total := total.Add(duration);
      assert expired + Concat(contents) == (expired + Concat(old(contents))) + [sample];
    }

    method ExpireBins(now: nat)
      requires 0 < binSize < windowSize && latest <= now
      requires Binned(bins, contents, binSize) && Sums(total, contents)
      requires bins != [] && bins[|bins| - 1].start <= now < bins[|bins| - 1].start + binSize
      requires forall s :: s in expired ==> s.time + windowSize < latest + binSize
      modifies this`bins, this`total, this`expired, this`contents, this`latest
      ensures Valid() && latest == now && Samples() == old(Samples())
      ensures bins != [] && bins[|bins| - 1] == old(bins)[|old(bins)| - 1]
    {
      ghost var all, newest := Samples(), bins[|bins| - 1];
      while bins != [] && now - bins[0].start >= windowSize
        invariant Binned(bins, contents, binSize) && Sums(total, contents)
        invariant bins != [] && bins[|bins| - 1] == newest
        invariant forall s :: s in expired ==> s.time + windowSize < now + binSize
        invariant Samples() == all
        decreases |bins|
      {
        var oldest := bins[0];
        FirstBinGone(bins, contents, binSize, total);
        assert Stands(oldest, contents[0], binSize);
        assert |bins| > 1;
        total := Bin(total.start, total.duration - oldest.duration, total.count - oldest.count);
        expired, contents, bins := expired + contents[0], contents[1..], bins[1..];
      }
      latest := now;
      AllYoung(bins, contents, binSize, windowSize, now);
    }
  }

  lemma TotalSnoc(samples: seq<Sample>, s: Sample)
    ensures Total(samples + [s]) == Total(samples) + s.duration
  {
    assert (samples + [s])[..|samples|] == samples;
  }

  /** What the comparison with an average tells: the full window holds more than that much time for each sample of the
      shorter one, or else the shorter one holds no more than that for each sample of the full one. */
  lemma AverageMeaning(m: MovingStats, duration: nat)
    requires m.Valid()
    ensures var inner := Within(m.Samples(), m.latest, m.windowSize - m.binSize + 1);
            var outer := Within(m.Samples(), m.latest, m.windowSize);
            if m.AverageGt(duration) then Total(outer) > duration * |inner|
            else duration * m.total.count <= MAX_DURATION ==> Total(inner) <= duration * |outer|
  {
    WindowBounds(m);
    var inner := Within(m.Samples(), m.latest, m.windowSize - m.binSize + 1);
    var outer := Within(m.Samples(), m.latest, m.windowSize);
    MultiplyCounts(duration, |inner|, m.total.count);
    MultiplyCounts(duration, m.total.count, |outer|);
  }

  lemma MultiplyCounts(duration: nat, a: nat, b: nat)
    requires a <= b
    ensures duration * a <= duration * b
  {}

  /** What the running total tells about the samples, at the time of the latest one. */
  lemma WindowBounds(m: MovingStats)
    requires m.Valid()
    ensures Total(Within(m.Samples(), m.latest, m.windowSize - m.binSize + 1)) <= m.total.duration
    ensures m.total.duration <= Total(Within(m.Samples(), m.latest, m.windowSize))
    ensures |Within(m.Samples(), m.latest, m.windowSize - m.binSize + 1)| <= m.total.count
    ensures m.total.count <= |Within(m.Samples(), m.latest, m.windowSize)|
    ensures |m.bins| <= (m.windowSize + m.binSize - 1) / m.binSize
  {
    KeptInWindow(m.bins, m.contents, m.binSize, m.windowSize, m.latest);
    WindowSums(m.expired, Concat(m.contents), m.latest, m.windowSize, m.binSize);
    BinCount(m.bins, m.contents, m.binSize, m.windowSize, m.latest);
  }
}
