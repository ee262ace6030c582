/** Exactly when the rollup read of a client's history is the raw read. */
module RollupExact {
  import opened Options
  import opened Totals
  import opened Groups
  import opened Arith
  import opened Rationals
  import opened RollupCoverage
  import opened RollupRead

  // Readings that expose uneven coverage: 1 in one slot, 0 in every other.

  ghost function Spike(samples: seq<Sample>, slot: Slot): (r: seq<Sample>)
    ensures SameShape(samples, r)
  {
    seq(|samples|, i requires 0 <= i < |samples| =>
      samples[i].(signal := if samples[i].signal.None? then None
                            else Some(if SlotOf(samples[i]) == slot then 1 else 0)))
  }

  lemma {:induction false} SpikeGroup(samples: seq<Sample>, slot: Slot, k: Slot)
    ensures Total(Pick(Spike(samples, slot), SlotOf, k), Signal)
            == if k == slot then Total(Pick(samples, SlotOf, k), Reading) else 0
  {
    if samples != [] {
      var c := samples[..|samples| - 1];
      SpikeGroup(c, slot, k);
      assert Spike(samples, slot)[..|samples| - 1] == Spike(c, slot);
      TotalConcat(Pick(Spike(c, slot), SlotOf, k), [Spike(samples, slot)[|samples| - 1]], Signal);
      TotalConcat(Pick(c, SlotOf, k), [samples[|samples| - 1]], Reading);
    }
  }

  lemma {:induction false} SpikeWeighted(samples: seq<Sample>, slots: seq<Slot>, slot: Slot)
    requires forall i, j :: 0 <= i < j < |slots| ==> slots[i] != slots[j]
    requires Readings(samples, slot) > 0
    ensures Weighted(BuildRows(Spike(samples, slot), slots))
            == if slot in slots then Count(samples, slot) as real else 0.0
  {
    if slots != [] {
      var k := slots[|slots| - 1];
      var c := slots[..|slots| - 1];
      assert slots == c + [k];
      SpikeWeighted(samples, c, slot);
      SpikeRow(samples, slot, k);
      var spike := Spike(samples, slot);
      var rows := BuildRows(spike, c);
      assert (rows + [BuildRow(spike, k)])[..|rows|] == rows;
    }
  }

  lemma SpikeSums(samples: seq<Sample>, slot: Slot, k: Slot)
    ensures var own := Pick(Spike(samples, slot), SlotOf, k);
            |own| == Count(samples, k) && Total(own, Reading) == Readings(samples, k) &&
            Total(own, Signal) == if k == slot then Readings(samples, k) else 0
  {
    var spike := Spike(samples, slot);
    SpikeGroup(samples, slot, k);
    ShapePick(samples, spike, SlotOf, k);
    ShapeReadings(Pick(samples, SlotOf, k), Pick(spike, SlotOf, k));
  }

  lemma SpikeRow(samples: seq<Sample>, slot: Slot, k: Slot)
    requires Readings(samples, slot) > 0
    ensures RowWeighted(BuildRow(Spike(samples, slot), k)) == if k == slot then Count(samples, slot) as real else 0.0
  {
    var n, c := Readings(samples, k), Count(samples, k);
    SpikeSums(samples, slot, k);
    UnitMean(n, c);
    RowOfSums(Pick(Spike(samples, slot), SlotOf, k), k, if k == slot then n else 0, n, c);
  }

  lemma RowOfSums(own: seq<Sample>, k: Slot, sum: int, n: int, c: nat)
    requires Total(own, Signal) == sum && Total(own, Reading) == n && |own| == c
    ensures RowWeighted(Row(k, Mean(own), Maximum(own, Rate), |own|))
            == if n == 0 then 0.0 else sum as real / n as real * c as real
  {
  }

  lemma {:induction false} SpikeTotal(samples: seq<Sample>, slot: Slot)
    ensures Total(Spike(samples, slot), Signal) == Readings(samples, slot)
  {
    if samples != [] {
      var c := samples[..|samples| - 1];
      SpikeTotal(c, slot);
      assert Spike(samples, slot)[..|samples| - 1] == Spike(c, slot);
      TotalConcat(Pick(c, SlotOf, slot), [samples[|samples| - 1]], Reading);
    }
  }

  lemma {:induction false} ShapeWeight(a: seq<Sample>, b: seq<Sample>, slots: seq<Slot>)
    requires SameShape(a, b)
    ensures Weight(BuildRows(a, slots)) == Weight(BuildRows(b, slots))
  {
    if slots != [] {
      var k := slots[|slots| - 1];
      var c := slots[..|slots| - 1];
      ShapeWeight(a, b, c);
      ShapePick(a, b, SlotOf, k);
      ShapeReadings(Pick(a, SlotOf, k), Pick(b, SlotOf, k));
      var x, y := BuildRows(a, c), BuildRows(b, c);
      assert (x + [BuildRow(a, k)])[..|x|] == x;
      assert (y + [BuildRow(b, k)])[..|y|] == y;
    }
  }

  /** If the spike at `slot` reads exactly, the slot's share of rows is its share of readings. */
  lemma SpikeShare(samples: seq<Sample>, slot: Slot)
    requires slot in Keys(samples, SlotOf) && Readings(samples, slot) > 0
    requires WeightedMean(BuildRollup(Spike(samples, slot))) == Mean(Spike(samples, slot))
    ensures Count(samples, slot) * Total(samples, Reading)
            == Readings(samples, slot) * Weight(BuildRollup(samples))
  {
    var spike := Spike(samples, slot);
    var slots := Keys(samples, SlotOf);
    ShapeKeys(samples, spike);
    ShapeReadings(samples, spike);
    ShapeWeight(samples, spike, slots);
    SpikeWeighted(samples, slots, slot);
    SpikeTotal(samples, slot);
    SomeReading(samples, slot);
    var c, n := Count(samples, slot), Readings(samples, slot);
    var w, total := Weight(BuildRollup(samples)), Total(samples, Reading);
    assert c as real / w as real == n as real / total as real;
    CrossMultiply(c, w, n, total);
  }

  lemma ExactIsEven(samples: seq<Sample>)
    requires forall other :: SameShape(samples, other) ==> WeightedMean(BuildRollup(other)) == Mean(other)
    ensures EvenCoverage(samples)
  {
    var slots := Keys(samples, SlotOf);
    forall j, k | j in slots && k in slots
      ensures SameShare(PartOf(samples, j), PartOf(samples, k))
    {
      if Readings(samples, j) > 0 && Readings(samples, k) > 0 {
        SpikeShare(samples, j);
        SpikeShare(samples, k);
        SomeReading(samples, j);
        CancelTotal(Count(samples, j), Readings(samples, j), Count(samples, k), Readings(samples, k),
                    Total(samples, Reading), Weight(BuildRollup(samples)));
      }
    }
  }

  /**
   * The rollup read of a bucket equals the raw read, whatever the readings, exactly when the
   * bucket's slots that have readings all have the same share of null readings. The source calls
   * the re-average exact without that condition.
   */
  lemma RollupExactIff(samples: seq<Sample>, resolution: int, bucket: int)
    requires resolution > 0 && resolution % SLOT_SECONDS == 0
    ensures (forall other :: SameShape(samples, other) ==>
               ReadRollup(BuildRollup(other), resolution, bucket) == ReadRaw(other, resolution, bucket))
            <==> EvenCoverage(Pick(samples, SampleBucket(resolution), bucket))
  {
    var key := SampleBucket(resolution);
    var group := Pick(samples, key, bucket);
    if EvenCoverage(group) {
      forall other | SameShape(samples, other)
        ensures ReadRollup(BuildRollup(other), resolution, bucket) == ReadRaw(other, resolution, bucket)
      {
        BucketRows(other, resolution, bucket);
        ShapePick(samples, other, key, bucket);
        EvenCoverageOfShape(group, Pick(other, key, bucket));
        EvenIsExact(Pick(other, key, bucket));
      }
    }
    if forall other :: SameShape(samples, other) ==>
         ReadRollup(BuildRollup(other), resolution, bucket) == ReadRaw(other, resolution, bucket)
    {
      forall part | SameShape(group, part)
        ensures WeightedMean(BuildRollup(part)) == Mean(part)
      {
        var other := Replace(samples, key, bucket, part);
        BucketRows(other, resolution, bucket);
      }
      ExactIsEven(group);
    }
  }

  lemma EvenCoverageOfShape(a: seq<Sample>, b: seq<Sample>)
    requires SameShape(a, b) && EvenCoverage(a)
    ensures EvenCoverage(b)
  {
    ShapeKeys(a, b);
    forall j, k | j in Keys(b, SlotOf) && k in Keys(b, SlotOf)
      ensures SameShare(PartOf(b, j), PartOf(b, k))
    {
      ShapePart(a, b, j);
      ShapePart(a, b, k);
      ShareIgnoresSums(PartOf(a, j), PartOf(a, k), PartOf(b, j).sum, PartOf(b, k).sum);
    }
  }

  lemma ShapePart(a: seq<Sample>, b: seq<Sample>, slot: Slot)
    requires SameShape(a, b)
    ensures PartOf(b, slot) == PartOf(a, slot).(sum := PartOf(b, slot).sum)
  {
    ShapePick(a, b, SlotOf, slot);
    ShapeReadings(Pick(a, SlotOf, slot), Pick(b, SlotOf, slot));
  }

  lemma ShareIgnoresSums(p: Part, q: Part, sum: int, other: int)
    requires SameShare(p, q)
    ensures SameShare(p.(sum := sum), q.(sum := other))
  {
  }

  /** Puts other readings into one bucket's samples and leaves the rest alone. */
  lemma {:induction false} Replace(samples: seq<Sample>, key: Sample -> int, bucket: int, part: seq<Sample>)
    returns (other: seq<Sample>)
    requires PlaceKey(key) && SameShape(Pick(samples, key, bucket), part)
    ensures SameShape(samples, other) && Pick(other, key, bucket) == part
  {
    if samples == [] {
      return [];
    }
    var c, s := samples[..|samples| - 1], samples[|samples| - 1];
    assert samples == c + [s];
    PickLast(c, s, key, bucket);
    if key(s) == bucket {
      var rest, t := ShapeLast(Pick(c, key, bucket), s, part);
      var changed := Replace(c, key, bucket, rest);
      other := changed + [t];
      ShapeAppend(c, changed, s, t);
      PickLast(changed, t, key, bucket);
    } else {
      var changed := Replace(c, key, bucket, part);
      other := changed + [s];
      ShapeAppend(c, changed, s, s);
      PickLast(changed, s, key, bucket);
    }
  }

  lemma PickLast(samples: seq<Sample>, s: Sample, key: Sample -> int, bucket: int)
    ensures Pick(samples + [s], key, bucket) == Pick(samples, key, bucket) + if key(s) == bucket then [s] else []
  {
    assert (samples + [s])[..|samples|] == samples;
  }

  // A quarter hour of one client: readings -40 and null in one slot, -80 in the next.

  const LOST := Sample(0, 1, Some(-40), None)
  const MISSED := Sample(5, 1, None, None)
  const FAR := Sample(300, 1, Some(-80), None)

  lemma ExampleRollup()
    ensures BuildRollup([LOST, MISSED, FAR])
            == [Row(Slot(0, 1), Some(-40.0), None, 2), Row(Slot(300, 1), Some(-80.0), None, 1)]
  {
    var samples := [LOST, MISSED, FAR];
    assert samples[..2] == [LOST, MISSED] && [LOST, MISSED][..1] == [LOST] && [LOST][..0] == [];
    var first, second := Slot(0, 1), Slot(300, 1);
    assert Keys([LOST], SlotOf) == [first];
    assert Keys([LOST, MISSED], SlotOf) == [first];
    assert Keys(samples, SlotOf) == [first, second];
    assert Pick([LOST], SlotOf, first) == [LOST];
    assert Pick([LOST, MISSED], SlotOf, first) == [LOST, MISSED];
    assert Pick([LOST], SlotOf, second) == [];
    assert Pick([LOST, MISSED], SlotOf, second) == [];
    assert Pick(samples, SlotOf, first) == [LOST, MISSED];
    assert Pick(samples, SlotOf, second) == [FAR];
    TotalPair(LOST, MISSED, Signal);
    TotalPair(LOST, MISSED, Reading);
    TotalSingle(FAR, Signal);
    TotalSingle(FAR, Reading);
    assert [LOST][..0] == [] && [FAR][..0] == [];
    assert Maximum([LOST], Rate) == None && Maximum([FAR], Rate) == None;
    assert BuildRow(samples, first) == Row(first, Some(-40.0), None, 2);
    assert BuildRow(samples, second) == Row(second, Some(-80.0), None, 1);
    assert [first, second][..1] == [first] && [first][..0] == [];
    assert BuildRows(samples, [first]) == [BuildRow(samples, first)];
  }

  lemma ExampleFromRollup()
    ensures ReadRollup([Row(Slot(0, 1), Some(-40.0), None, 2), Row(Slot(300, 1), Some(-80.0), None, 1)], 900, 0)
            == Some(-160.0 / 3.0)
  {
    var x, y := Row(Slot(0, 1), Some(-40.0), None, 2), Row(Slot(300, 1), Some(-80.0), None, 1);
    assert [x, y][..1] == [x] && [x][..0] == [];
    assert Pick([x], RowBucket(900), 0) == [x];
    assert Pick([x, y], RowBucket(900), 0) == [x, y];
    assert Weight([x]) == 2 && Weighted([x]) == -80.0;
    assert Weight([x, y]) == 3 && Weighted([x, y]) == -160.0;
  }

  lemma ExampleFromRaw()
    ensures ReadRaw([LOST, MISSED, FAR], 900, 0) == Some(-60.0)
  {
    var samples := [LOST, MISSED, FAR];
    PickAll(samples, SampleBucket(900), 0);
    assert samples[..2] == [LOST, MISSED];
    TotalPair(LOST, MISSED, Signal);
    TotalPair(LOST, MISSED, Reading);
    assert Total(samples, Signal) == -120 && Total(samples, Reading) == 2;
  }

  /** A quarter hour in which one slot lost a reading: the rollup says -53.3 dBm, the snapshots say -60. */
  lemma RollupNotExact()
    ensures ReadRollup(BuildRollup([LOST, MISSED, FAR]), 900, 0) == Some(-160.0 / 3.0)
    ensures ReadRaw([LOST, MISSED, FAR], 900, 0) == Some(-60.0)
  {
    ExampleRollup();
    ExampleFromRollup();
    ExampleFromRaw();
  }
}
