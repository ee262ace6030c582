/**
 * One client's signal history, read from the raw snapshots and from the five-minute rollup
 * (`queryClientSignalHistoryUncached`; the RF and AP-health reads use the same two expressions).
 */
module RollupRead {
  import opened Options
  import opened Totals
  import opened Groups
  import opened Arith

  /** A snapshot row of the client asked about: `signal` is any averaged column, `rate` any maximum. */
  datatype Sample = Sample(at: int, ap: int, signal: Option<int>, rate: Option<int>)

  /** The rollup's key for one client. */
  datatype Slot = Slot(start: int, ap: int)

  /** A rollup row. `samples` counts every snapshot of the slot, as the maintainer writes it. */
  datatype Row = Row(slot: Slot, avg: Option<real>, max: Option<int>, samples: nat)

  const SLOT_SECONDS := 300

  function FloorTo(at: int, seconds: int): int
    requires seconds > 0
  {
    at / seconds * seconds
  }

  function SlotOf(s: Sample): Slot {
    Slot(FloorTo(s.at, SLOT_SECONDS), s.ap)
  }

  function SampleBucket(resolution: int): Sample -> int
    requires resolution > 0
  {
    (s: Sample) => FloorTo(s.at, resolution)
  }

  function RowBucket(resolution: int): Row -> int
    requires resolution > 0
  {
    (r: Row) => FloorTo(r.slot.start, resolution)
  }

  function Signal(s: Sample): int {
    if s.signal.Some? then s.signal.value else 0
  }

  function Reading(s: Sample): int {
    if s.signal.Some? then 1 else 0
  }

  /** `AVG`: the mean of the non-null values, null without any. */
  function Mean(samples: seq<Sample>): Option<real> {
    var n := Total(samples, Reading);
    if n == 0 then None else Some(Total(samples, Signal) as real / n as real)
  }

  function MaxOption(a: Option<int>, b: Option<int>): Option<int> {
    if a.None? then b
    else if b.None? || a.value >= b.value then a
    else b
  }

  /** `MAX` of the non-null values. */
  function Maximum<T>(s: seq<T>, m: T -> Option<int>): Option<int> {
    if s == [] then None else MaxOption(Maximum(s[..|s| - 1], m), m(s[|s| - 1]))
  }

  function Rate(s: Sample): Option<int> {
    s.rate
  }

  function RowMax(r: Row): Option<int> {
    r.max
  }

  // ── the rollup maintainer ──────────────────────────────────────────────

  function BuildRow(samples: seq<Sample>, slot: Slot): Row {
    var group := Pick(samples, SlotOf, slot);
    Row(slot, Mean(group), Maximum(group, Rate), |group|)
  }

  function BuildRows(samples: seq<Sample>, slots: seq<Slot>): seq<Row> {
    if slots == [] then [] else
    BuildRows(samples, slots[..|slots| - 1]) + [BuildRow(samples, slots[|slots| - 1])]
  }

  function BuildRollup(samples: seq<Sample>): seq<Row> {
    BuildRows(samples, Keys(samples, SlotOf))
  }

  // ── the two reads of one bucket ────────────────────────────────────────

  function RowWeighted(r: Row): real {
    if r.avg.None? then 0.0 else r.avg.value * r.samples as real
  }

  function RowWeight(r: Row): nat {
    if r.avg.None? then 0 else r.samples
  }

  function Weighted(rows: seq<Row>): real {
    if rows == [] then 0.0 else Weighted(rows[..|rows| - 1]) + RowWeighted(rows[|rows| - 1])
  }

  function Weight(rows: seq<Row>): nat {
    if rows == [] then 0 else Weight(rows[..|rows| - 1]) + RowWeight(rows[|rows| - 1])
  }

  function WeightedMean(rows: seq<Row>): Option<real> {
    if Weight(rows) == 0 then None else Some(Weighted(rows) / Weight(rows) as real)
  }

  function ReadRollup(rows: seq<Row>, resolution: int, bucket: int): Option<real>
    requires resolution > 0
  {
    WeightedMean(Pick(rows, RowBucket(resolution), bucket))
  }

  function ReadRaw(samples: seq<Sample>, resolution: int, bucket: int): Option<real>
    requires resolution > 0
  {
    Mean(Pick(samples, SampleBucket(resolution), bucket))
  }

  function ReadRollupMax(rows: seq<Row>, resolution: int, bucket: int): Option<int>
    requires resolution > 0
  {
    Maximum(Pick(rows, RowBucket(resolution), bucket), RowMax)
  }

  function ReadRawMax(samples: seq<Sample>, resolution: int, bucket: int): Option<int>
    requires resolution > 0
  {
    Maximum(Pick(samples, SampleBucket(resolution), bucket), Rate)
  }

  // ── nested floors ──────────────────────────────────────────────────────

  /** Flooring to a slot first does not move a sample to another bucket. */
  lemma NestedFloor(at: int, resolution: int)
    requires resolution > 0 && resolution % SLOT_SECONDS == 0
    ensures FloorTo(FloorTo(at, SLOT_SECONDS), resolution) == FloorTo(at, resolution)
  {
    var k, q, slot := resolution / SLOT_SECONDS, at / resolution, at / SLOT_SECONDS;
    DivisionBounds(at, resolution);
    assert resolution * q == SLOT_SECONDS * (k * q);
    assert k * q <= slot < k * q + k;
    QuotientUnique(slot * SLOT_SECONDS, resolution, q);
  }

  /** The raw read and the rollup read see the same snapshots exactly for slot-aligned windows. */
  lemma SameWindowIff(since: int, until: int)
    requires since < until
    ensures (forall at: int :: since <= at < until <==> since <= FloorTo(at, SLOT_SECONDS) < until)
            <==> since % SLOT_SECONDS == 0 && until % SLOT_SECONDS == 0
  {
    if since % SLOT_SECONDS == 0 && until % SLOT_SECONDS == 0 {
      forall at: int
        ensures since <= at < until <==> since <= FloorTo(at, SLOT_SECONDS) < until
      {
        assert since == since / SLOT_SECONDS * SLOT_SECONDS;
        assert until == until / SLOT_SECONDS * SLOT_SECONDS;
      }
    } else {
      var at := if since % SLOT_SECONDS != 0 then since else until;
      assert (since <= at < until) != (since <= FloorTo(at, SLOT_SECONDS) < until);
    }
  }

  // ── a bucket's rollup rows are the rollup of the bucket's samples ───────

  lemma {:induction false} PickWithin(samples: seq<Sample>, resolution: int, bucket: int, slot: Slot)
    requires resolution > 0 && resolution % SLOT_SECONDS == 0
    requires FloorTo(slot.start, resolution) == bucket
    ensures Pick(Pick(samples, SampleBucket(resolution), bucket), SlotOf, slot) == Pick(samples, SlotOf, slot)
  {
    if samples != [] {
      var s := samples[|samples| - 1];
      var c := samples[..|samples| - 1];
      PickWithin(c, resolution, bucket, slot);
      NestedFloor(s.at, resolution);
      var inner := Pick(c, SampleBucket(resolution), bucket);
      if SampleBucket(resolution)(s) == bucket {
        assert (inner + [s])[..|inner|] == inner;
      }
    }
  }

  predicate InBucket(resolution: int, bucket: int, slot: Slot)
    requires resolution > 0
  {
    FloorTo(slot.start, resolution) == bucket
  }

  function KeepSlots(slots: seq<Slot>, resolution: int, bucket: int): (r: seq<Slot>)
    requires resolution > 0
    ensures forall k :: k in r <==> k in slots && InBucket(resolution, bucket, k)
  {
    if slots == [] then [] else
    var k := slots[|slots| - 1];
    var r := KeepSlots(slots[..|slots| - 1], resolution, bucket);
    assert slots == slots[..|slots| - 1] + [k];
    if InBucket(resolution, bucket, k) then r + [k] else r
  }

  lemma {:induction false} KeysWithin(samples: seq<Sample>, resolution: int, bucket: int)
    requires resolution > 0 && resolution % SLOT_SECONDS == 0
    ensures Keys(Pick(samples, SampleBucket(resolution), bucket), SlotOf)
            == KeepSlots(Keys(samples, SlotOf), resolution, bucket)
  {
    if samples != [] {
      var s := samples[|samples| - 1];
      var c := samples[..|samples| - 1];
      KeysWithin(c, resolution, bucket);
      NestedFloor(s.at, resolution);
      var inner := Pick(c, SampleBucket(resolution), bucket);
      var ks := Keys(c, SlotOf);
      assert (inner + [s])[..|inner|] == inner;
      assert (ks + [SlotOf(s)])[..|ks|] == ks;
    }
  }

  lemma {:induction false} RowsWithin(samples: seq<Sample>, slots: seq<Slot>, resolution: int, bucket: int)
    requires resolution > 0 && resolution % SLOT_SECONDS == 0
    ensures Pick(BuildRows(samples, slots), RowBucket(resolution), bucket)
            == BuildRows(Pick(samples, SampleBucket(resolution), bucket), KeepSlots(slots, resolution, bucket))
  {
    if slots != [] {
      var k := slots[|slots| - 1];
      var c := slots[..|slots| - 1];
      RowsWithin(samples, c, resolution, bucket);
      var rows := BuildRows(samples, c);
      assert (rows + [BuildRow(samples, k)])[..|rows|] == rows;
      if InBucket(resolution, bucket, k) {
        PickWithin(samples, resolution, bucket, k);
        var kept := KeepSlots(c, resolution, bucket);
        assert (kept + [k])[..|kept|] == kept;
      }
    }
  }

  lemma BucketRows(samples: seq<Sample>, resolution: int, bucket: int)
    requires resolution > 0 && resolution % SLOT_SECONDS == 0
    ensures Pick(BuildRollup(samples), RowBucket(resolution), bucket)
            == BuildRollup(Pick(samples, SampleBucket(resolution), bucket))
  {
    RowsWithin(samples, Keys(samples, SlotOf), resolution, bucket);
    KeysWithin(samples, resolution, bucket);
  }

  // ── maxima ─────────────────────────────────────────────────────────────

  lemma MaximumAppend<T>(s: seq<T>, x: T, m: T -> Option<int>)
    ensures Maximum(s + [x], m) == MaxOption(Maximum(s, m), m(x))
  {
    assert (s + [x])[..|s|] == s;
  }

  /** One more sample changes the row of its own slot only. */
  lemma RowOfSample(samples: seq<Sample>, s: Sample, k: Slot)
    ensures BuildRow(samples + [s], k).max
            == if k == SlotOf(s) then MaxOption(BuildRow(samples, k).max, s.rate) else BuildRow(samples, k).max
  {
    assert (samples + [s])[..|samples|] == samples;
    MaximumAppend(Pick(samples, SlotOf, k), s, Rate);
  }

  lemma MaxSwaps(a: Option<int>, b: Option<int>, c: Option<int>)
    ensures MaxOption(MaxOption(a, b), c) == MaxOption(MaxOption(a, c), b) == MaxOption(a, MaxOption(b, c))
  {
  }

  lemma LastSlot(slots: seq<Slot>, k: Slot)
    requires slots != [] && forall i, j :: 0 <= i < j < |slots| ==> slots[i] != slots[j]
    ensures k in slots <==> k in slots[..|slots| - 1] || k == slots[|slots| - 1]
    ensures slots[|slots| - 1] !in slots[..|slots| - 1]
  {
    assert slots == slots[..|slots| - 1] + [slots[|slots| - 1]];
  }

  lemma {:induction false} MaximumFromGroups(samples: seq<Sample>, s: Sample, slots: seq<Slot>)
    requires forall i, j :: 0 <= i < j < |slots| ==> slots[i] != slots[j]
    ensures Maximum(BuildRows(samples + [s], slots), RowMax)
            == if SlotOf(s) in slots then MaxOption(Maximum(BuildRows(samples, slots), RowMax), s.rate)
               else Maximum(BuildRows(samples, slots), RowMax)
  {
    if slots != [] {
      var c, k := slots[..|slots| - 1], slots[|slots| - 1];
      LastSlot(slots, SlotOf(s));
      MaximumFromGroups(samples, s, c);
      var rows, row := BuildRows(samples, c), BuildRow(samples, k);
      MaximumAppend(rows, row, RowMax);
      MaximumAppend(BuildRows(samples + [s], c), BuildRow(samples + [s], k), RowMax);
      RowOfSample(samples, s, k);
      MaxSwaps(Maximum(rows, RowMax), row.max, s.rate);
    }
  }

  lemma {:induction false} EmptyRowMaximum(slots: seq<Slot>)
    ensures Maximum(BuildRows([], slots), RowMax) == None
  {
    if slots != [] {
      var c := slots[..|slots| - 1];
      EmptyRowMaximum(c);
      var rows := BuildRows([], c);
      assert (rows + [BuildRow([], slots[|slots| - 1])])[..|rows|] == rows;
    }
  }

  lemma {:induction false} MaximumOfRows(samples: seq<Sample>, slots: seq<Slot>)
    requires forall i, j :: 0 <= i < j < |slots| ==> slots[i] != slots[j]
    requires forall s :: s in samples ==> SlotOf(s) in slots
    ensures Maximum(BuildRows(samples, slots), RowMax) == Maximum(samples, Rate)
  {
    if samples == [] {
      EmptyRowMaximum(slots);
    } else {
      var c := samples[..|samples| - 1];
      var s := samples[|samples| - 1];
      assert samples == c + [s];
      MaximumOfRows(c, slots);
      MaximumFromGroups(c, s, slots);
    }
  }

  /** The maxima of the rollup read are exactly the raw maxima, nulls or not. */
  lemma RollupMaxExact(samples: seq<Sample>, resolution: int, bucket: int)
    requires resolution > 0 && resolution % SLOT_SECONDS == 0
    ensures ReadRollupMax(BuildRollup(samples), resolution, bucket) == ReadRawMax(samples, resolution, bucket)
  {
    BucketRows(samples, resolution, bucket);
    var group := Pick(samples, SampleBucket(resolution), bucket);
    assert forall s :: s in group ==> SlotOf(s) in Keys(group, SlotOf);
    MaximumOfRows(group, Keys(group, SlotOf));
  }

  // ── what the two reads answer ──────────────────────────────────────────

  /** A bucket holds the times from its start up to the next bucket. */
  lemma BucketTimes(at: int, resolution: int, bucket: int)
    requires resolution > 0
    ensures FloorTo(at, resolution) == bucket <==> bucket % resolution == 0 && bucket <= at < bucket + resolution
  {
    FloorIs(at, resolution, bucket);
  }

  lemma {:induction false} MaximumIs<T(!new)>(s: seq<T>, m: T -> Option<int>)
    ensures Maximum(s, m).None? ==> forall x :: x in s ==> m(x).None?
    ensures Maximum(s, m).Some? ==> exists x :: x in s && m(x) == Maximum(s, m)
    ensures forall x :: x in s && m(x).Some? ==> Maximum(s, m).Some? && m(x).value <= Maximum(s, m).value
  {
    if s != [] {
      var c, last := s[..|s| - 1], s[|s| - 1];
      assert s == c + [last];
      assert forall x :: x in s <==> x in c || x == last;
      MaximumIs(c, m);
      if Maximum(s, m) != m(last) {
        assert Maximum(s, m) == Maximum(c, m);
      }
    }
  }

  /** The raw read answers the largest rate of the bucket's snapshots, and null exactly without any rate. */
  lemma RawMaxIs(samples: seq<Sample>, resolution: int, bucket: int)
    requires resolution > 0 && bucket % resolution == 0
    ensures ReadRawMax(samples, resolution, bucket).None? <==>
            forall s :: s in samples && bucket <= s.at < bucket + resolution ==> s.rate.None?
    ensures ReadRawMax(samples, resolution, bucket).Some? ==>
              exists s :: s in samples && bucket <= s.at < bucket + resolution && s.rate == ReadRawMax(samples, resolution, bucket)
    ensures forall s :: s in samples && bucket <= s.at < bucket + resolution && s.rate.Some? ==>
              ReadRawMax(samples, resolution, bucket).Some? && s.rate.value <= ReadRawMax(samples, resolution, bucket).value
  {
    forall s: Sample
      ensures SampleBucket(resolution)(s) == bucket <==> bucket <= s.at < bucket + resolution
    {
      BucketTimes(s.at, resolution, bucket);
    }
    MaximumIs(Pick(samples, SampleBucket(resolution), bucket), Rate);
  }

  /** And so does the read of the rollup, for a resolution of whole slots. */
  lemma RollupMaxIs(samples: seq<Sample>, resolution: int, bucket: int)
    requires resolution > 0 && resolution % SLOT_SECONDS == 0 && bucket % resolution == 0
    ensures ReadRollupMax(BuildRollup(samples), resolution, bucket).None? <==>
            forall s :: s in samples && bucket <= s.at < bucket + resolution ==> s.rate.None?
    ensures ReadRollupMax(BuildRollup(samples), resolution, bucket).Some? ==>
              exists s :: s in samples && bucket <= s.at < bucket + resolution &&
                          s.rate == ReadRollupMax(BuildRollup(samples), resolution, bucket)
    ensures forall s :: s in samples && bucket <= s.at < bucket + resolution && s.rate.Some? ==>
              ReadRollupMax(BuildRollup(samples), resolution, bucket).Some? &&
              s.rate.value <= ReadRollupMax(BuildRollup(samples), resolution, bucket).value
  {
    RollupMaxExact(samples, resolution, bucket);
    RawMaxIs(samples, resolution, bucket);
  }

  /** The raw read answers the mean of the readings of the bucket's snapshots, and null exactly without any. */
  lemma RawMeanIs(samples: seq<Sample>, resolution: int, bucket: int)
    requires resolution > 0 && bucket % resolution == 0
    ensures var n := Total(samples, (s: Sample) => if bucket <= s.at < bucket + resolution && s.signal.Some? then 1 else 0);
            var sum := Total(samples, (s: Sample) =>
              if bucket <= s.at < bucket + resolution && s.signal.Some? then s.signal.value else 0);
            ReadRaw(samples, resolution, bucket) == if n == 0 then None else Some(sum as real / n as real)
  {
    forall s: Sample
      ensures SampleBucket(resolution)(s) == bucket <==> bucket <= s.at < bucket + resolution
    {
      BucketTimes(s.at, resolution, bucket);
    }
    GroupTotalIs(samples, SampleBucket(resolution), Reading, bucket,
                 (s: Sample) => if bucket <= s.at < bucket + resolution && s.signal.Some? then 1 else 0);
    GroupTotalIs(samples, SampleBucket(resolution), Signal, bucket, (s: Sample) =>
      if bucket <= s.at < bucket + resolution && s.signal.Some? then s.signal.value else 0);
  }

  lemma {:induction false} BuiltRows(samples: seq<Sample>, slots: seq<Slot>, r: Row)
    ensures r in BuildRows(samples, slots) <==> r.slot in slots && r == BuildRow(samples, r.slot)
  {
    if slots != [] {
      assert slots == slots[..|slots| - 1] + [slots[|slots| - 1]];
      BuiltRows(samples, slots[..|slots| - 1], r);
    }
  }

  /** The rollup holds a row for every slot and access point with a snapshot; its `samples` counts them all. */
  lemma RollupRowIs(samples: seq<Sample>, start: int, ap: int)
    requires start % 300 == 0
    ensures (exists r :: r in BuildRollup(samples) && r.slot == Slot(start, ap)) <==>
            exists s :: s in samples && start <= s.at < start + 300 && s.ap == ap
    ensures forall r :: r in BuildRollup(samples) && r.slot == Slot(start, ap) ==>
              r.samples == Total(samples, (s: Sample) => if start <= s.at < start + 300 && s.ap == ap then 1 else 0)
  {
    var k := Slot(start, ap);
    forall s: Sample
      ensures SlotOf(s) == k <==> start <= s.at < start + 300 && s.ap == ap
    {
      BucketTimes(s.at, 300, start);
    }
    forall r: Row
      ensures r in BuildRollup(samples) <==> r.slot in Keys(samples, SlotOf) && r == BuildRow(samples, r.slot)
    {
      BuiltRows(samples, Keys(samples, SlotOf), r);
    }
    if k in Keys(samples, SlotOf) {
      var s := KeyOwner(samples, SlotOf, k);
      assert BuildRow(samples, k) in BuildRollup(samples);
    }
    GroupTotalIs(samples, SlotOf, One, k, (s: Sample) => if start <= s.at < start + 300 && s.ap == ap then 1 else 0);
    TotalOne(Pick(samples, SlotOf, k));
  }
}
