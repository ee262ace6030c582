/** The rollup table keeps its means to two decimals: how far that moves an answer. */
module RollupRounding {
  import opened Options
  import opened Groups
  import opened Rationals
  import opened RollupCoverage
  import opened RollupRead

  /** `stored` are the rows as the table keeps them: every mean within `error` of the one written. */
  ghost predicate Rounded(rows: seq<Row>, stored: seq<Row>, error: real) {
    |stored| == |rows| && forall i :: 0 <= i < |rows| ==> RoundedRow(rows[i], stored[i], error)
  }

  ghost predicate RoundedRow(r: Row, s: Row, error: real) {
    s.slot == r.slot && s.samples == r.samples && (s.avg.Some? <==> r.avg.Some?) &&
    (r.avg.Some? ==> Within(r.avg.value, s.avg.value, error))
  }

  lemma RoundedRowClose(r: Row, s: Row, error: real)
    requires RoundedRow(r, s, error) && error >= 0.0
    ensures RowWeight(s) == RowWeight(r) && Within(RowWeighted(r), RowWeighted(s), error * RowWeight(r) as real)
  {
    if r.avg.Some? {
      ScaleError(r.avg.value, s.avg.value, error, r.samples as real);
    }
  }

  /** Two sums of `n` samples whose means are at most `error` apart. */
  ghost predicate SumsWithin(x: real, y: real, error: real, n: int) {
    exists bound: real :: bound == error * n as real && Within(x, y, bound)
  }

  lemma NothingOff(error: real)
    ensures SumsWithin(0.0, 0.0, error, 0)
  {
    assert error * 0 as real == 0.0;
    assert Within(0.0, 0.0, 0.0);
  }

  lemma RoundedNext(a: real, b: real, m: int, r: Row, s: Row, error: real, x: real, y: real, n: int)
    requires RoundedRow(r, s, error) && error >= 0.0 && SumsWithin(a, b, error, m)
    requires x == a + RowWeighted(r) && y == b + RowWeighted(s) && n == m + RowWeight(r)
    ensures RowWeight(s) == RowWeight(r) && SumsWithin(x, y, error, n)
  {
    RoundedRowClose(r, s, error);
    AddError(a, b, m, RowWeighted(r), RowWeighted(s), RowWeight(r), error);
  }

  lemma {:induction false} RoundedSumClose(rows: seq<Row>, stored: seq<Row>, error: real)
    requires Rounded(rows, stored, error) && error >= 0.0
    ensures Weight(stored) == Weight(rows) && SumsWithin(Weighted(rows), Weighted(stored), error, Weight(rows))
  {
    if rows == [] {
      NothingOff(error);
    } else {
      var last := |rows| - 1;
      RoundedSumClose(rows[..last], stored[..last], error);
      RoundedNext(Weighted(rows[..last]), Weighted(stored[..last]), Weight(rows[..last]), rows[last], stored[last], error,
                  Weighted(rows), Weighted(stored), Weight(rows));
    }
  }

  lemma {:induction false} RoundedPick(rows: seq<Row>, stored: seq<Row>, error: real, resolution: int, bucket: int)
    requires Rounded(rows, stored, error) && resolution > 0
    ensures Rounded(Pick(rows, RowBucket(resolution), bucket), Pick(stored, RowBucket(resolution), bucket), error)
  {
    if rows != [] {
      RoundedPick(rows[..|rows| - 1], stored[..|rows| - 1], error, resolution, bucket);
      assert RoundedRow(rows[|rows| - 1], stored[|rows| - 1], error);
    }
  }

  lemma RoundedMeanClose(rows: seq<Row>, stored: seq<Row>, error: real)
    requires Rounded(rows, stored, error) && error >= 0.0
    ensures WeightedMean(stored).Some? <==> WeightedMean(rows).Some?
    ensures WeightedMean(rows).Some? ==> Within(WeightedMean(rows).value, WeightedMean(stored).value, error)
  {
    RoundedSumClose(rows, stored, error);
    if Weight(rows) > 0 {
      DivideError(Weighted(rows), Weighted(stored), error, Weight(rows) as real);
    }
  }

  /** Rounding the stored means moves a bucket's answer by no more than it moves one mean. */
  lemma RoundedReadClose(rows: seq<Row>, stored: seq<Row>, error: real, resolution: int, bucket: int)
    requires Rounded(rows, stored, error) && error >= 0.0 && resolution > 0
    ensures ReadRollup(stored, resolution, bucket).Some? <==> ReadRollup(rows, resolution, bucket).Some?
    ensures ReadRollup(rows, resolution, bucket).Some? ==>
              Within(ReadRollup(rows, resolution, bucket).value, ReadRollup(stored, resolution, bucket).value, error)
  {
    RoundedPick(rows, stored, error, resolution, bucket);
    RoundedMeanClose(Pick(rows, RowBucket(resolution), bucket), Pick(stored, RowBucket(resolution), bucket), error);
  }

  /** With even coverage, what the table's two decimals leave of the rollup is within 0.005 of the raw mean. */
  lemma EvenIsClose(samples: seq<Sample>, stored: seq<Row>, resolution: int, bucket: int)
    requires resolution > 0 && resolution % SLOT_SECONDS == 0 && Rounded(BuildRollup(samples), stored, 0.005)
    requires EvenCoverage(Pick(samples, SampleBucket(resolution), bucket))
    ensures ReadRollup(stored, resolution, bucket).Some? <==> ReadRaw(samples, resolution, bucket).Some?
    ensures ReadRaw(samples, resolution, bucket).Some? ==>
              Within(ReadRaw(samples, resolution, bucket).value, ReadRollup(stored, resolution, bucket).value, 0.005)
  {
    BucketRows(samples, resolution, bucket);
    EvenIsExact(Pick(samples, SampleBucket(resolution), bucket));
    RoundedReadClose(BuildRollup(samples), stored, 0.005, resolution, bucket);
  }
}
