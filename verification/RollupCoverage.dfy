/** The averages: slots with equal shares of missing readings re-average to the raw mean. */
module RollupCoverage {
  import opened Options
  import opened Totals
  import opened Groups
  import opened Rationals
  import opened RollupRead

  function Count(samples: seq<Sample>, slot: Slot): nat {
    |Pick(samples, SlotOf, slot)|
  }

  function Readings(samples: seq<Sample>, slot: Slot): int {
    GroupTotal(samples, SlotOf, Reading)(slot)
  }

  /** What a slot contributes to the two reads: its rows, its readings, their sum. */
  datatype Part = Part(count: int, readings: int, sum: int)

  function PartOf(samples: seq<Sample>, slot: Slot): Part {
    Part(Count(samples, slot), Readings(samples, slot), GroupTotal(samples, SlotOf, Signal)(slot))
  }

  /** Cross-multiplied: the two parts have the same share of null readings, or one has only nulls. */
  predicate SameShare(p: Part, q: Part) {
    p.readings > 0 && q.readings > 0 ==> p.count * q.readings == q.count * p.readings
  }

  /** Every slot that has a reading has the same share of null readings. */
  ghost predicate EvenCoverage(samples: seq<Sample>) {
    forall j, k :: j in Keys(samples, SlotOf) && k in Keys(samples, SlotOf)
      ==> SameShare(PartOf(samples, j), PartOf(samples, k))
  }

  /** The same snapshots, null where the others are, with any readings elsewhere. */
  ghost predicate SameShape(a: seq<Sample>, b: seq<Sample>) {
    |a| == |b| &&
    forall i :: 0 <= i < |a| ==>
      a[i].at == b[i].at && a[i].ap == b[i].ap && a[i].signal.Some? == b[i].signal.Some?
  }

  ghost predicate SamePlace(s: Sample, t: Sample) {
    s.at == t.at && s.ap == t.ap && s.signal.Some? == t.signal.Some?
  }

  lemma ShapeAppend(a: seq<Sample>, b: seq<Sample>, s: Sample, t: Sample)
    requires SameShape(a, b) && SamePlace(s, t)
    ensures SameShape(a + [s], b + [t])
  {
  }

  lemma ShapeLast(a: seq<Sample>, s: Sample, b: seq<Sample>) returns (c: seq<Sample>, t: Sample)
    requires SameShape(a + [s], b)
    ensures b == c + [t] && SameShape(a, c) && SamePlace(s, t)
  {
    c, t := b[..|a|], b[|a|];
    assert (a + [s])[|a|] == s;
    assert forall i :: 0 <= i < |a| ==> (a + [s])[i] == a[i];
  }

  ghost predicate PlaceKey<K(!new)>(key: Sample -> K) {
    forall s: Sample, t: Sample :: s.at == t.at && s.ap == t.ap ==> key(s) == key(t)
  }

  lemma {:induction false} ShapePick<K(!new)>(a: seq<Sample>, b: seq<Sample>, key: Sample -> K, k: K)
    requires SameShape(a, b) && PlaceKey(key)
    ensures SameShape(Pick(a, key, k), Pick(b, key, k))
  {
    if a != [] {
      ShapePick(a[..|a| - 1], b[..|b| - 1], key, k);
      assert key(a[|a| - 1]) == key(b[|b| - 1]);
    }
  }

  lemma {:induction false} ShapeKeys(a: seq<Sample>, b: seq<Sample>)
    requires SameShape(a, b)
    ensures Keys(a, SlotOf) == Keys(b, SlotOf)
  {
    if a != [] {
      ShapeKeys(a[..|a| - 1], b[..|b| - 1]);
    }
  }

  lemma {:induction false} ShapeReadings(a: seq<Sample>, b: seq<Sample>)
    requires SameShape(a, b)
    ensures Total(a, Reading) == Total(b, Reading)
  {
    if a != [] {
      ShapeReadings(a[..|a| - 1], b[..|b| - 1]);
    }
  }

  lemma {:induction false} ReadingRange(s: seq<Sample>)
    ensures 0 <= Total(s, Reading) <= |s|
    ensures Total(s, Reading) == 0 ==> Total(s, Signal) == 0
  {
    if s != [] {
      ReadingRange(s[..|s| - 1]);
    }
  }

  ghost function Parts(samples: seq<Sample>, slots: seq<Slot>): seq<Part> {
    if slots == [] then [] else Parts(samples, slots[..|slots| - 1]) + [PartOf(samples, slots[|slots| - 1])]
  }

  function PartWeight(p: Part): int {
    if p.readings == 0 then 0 else p.count
  }

  function PartReadings(p: Part): int {
    p.readings
  }

  function PartSum(p: Part): int {
    p.sum
  }

  function PartWeighted(p: Part): real {
    if p.readings == 0 then 0.0 else p.sum as real / p.readings as real * p.count as real
  }

  ghost function AllWeighted(parts: seq<Part>): real {
    if parts == [] then 0.0 else AllWeighted(parts[..|parts| - 1]) + PartWeighted(parts[|parts| - 1])
  }

  lemma {:induction false} RowsAreParts(samples: seq<Sample>, slots: seq<Slot>)
    ensures Weight(BuildRows(samples, slots)) == Total(Parts(samples, slots), PartWeight)
    ensures Weighted(BuildRows(samples, slots)) == AllWeighted(Parts(samples, slots))
    ensures Total(Parts(samples, slots), PartReadings) == Total(slots, GroupTotal(samples, SlotOf, Reading))
    ensures Total(Parts(samples, slots), PartSum) == Total(slots, GroupTotal(samples, SlotOf, Signal))
  {
    if slots != [] {
      var k := slots[|slots| - 1];
      var c := slots[..|slots| - 1];
      RowsAreParts(samples, c);
      var rows, parts := BuildRows(samples, c), Parts(samples, c);
      assert (rows + [BuildRow(samples, k)])[..|rows|] == rows;
      assert (parts + [PartOf(samples, k)])[..|parts|] == parts;
    }
  }

  lemma {:induction false} PartsAt(samples: seq<Sample>, slots: seq<Slot>)
    ensures |Parts(samples, slots)| == |slots|
    ensures forall i :: 0 <= i < |slots| ==> Parts(samples, slots)[i] == PartOf(samples, slots[i])
  {
    if slots != [] {
      PartsAt(samples, slots[..|slots| - 1]);
    }
  }

  ghost predicate Scaled(p: Part, factor: real) {
    p.readings >= 0 && (p.readings == 0 ==> p.sum == 0) &&
    (p.readings > 0 ==> p.count as real == factor * p.readings as real)
  }

  lemma ScaledPart(p: Part, factor: real)
    requires Scaled(p, factor)
    ensures PartWeight(p) as real == factor * p.readings as real
    ensures PartWeighted(p) == factor * p.sum as real
  {
    if p.readings > 0 {
      CancelCount(p.sum as real, p.readings as real, factor);
    }
  }

  ghost predicate AllScaled(parts: seq<Part>, factor: real) {
    forall i :: 0 <= i < |parts| ==> Scaled(parts[i], factor)
  }

  lemma NextWeight(weight: int, readings: int, p: Part, factor: real)
    requires Scaled(p, factor) && weight as real == factor * readings as real
    ensures (weight + PartWeight(p)) as real == factor * (readings + p.readings) as real
  {
    ScaledPart(p, factor);
    AddScaled(weight as real, PartWeight(p) as real, readings, p.readings, factor);
  }

  lemma {:induction false} ScaledWeights(parts: seq<Part>, factor: real)
    requires AllScaled(parts, factor)
    ensures Total(parts, PartWeight) as real == factor * Total(parts, PartReadings) as real
  {
    if parts != [] {
      var c, p := parts[..|parts| - 1], parts[|parts| - 1];
      ScaledWeights(c, factor);
      NextWeight(Total(c, PartWeight), Total(c, PartReadings), p, factor);
    }
  }

  lemma NextSum(weighted: real, sum: int, p: Part, factor: real)
    requires Scaled(p, factor) && weighted == factor * sum as real
    ensures weighted + PartWeighted(p) == factor * (sum + p.sum) as real
  {
    ScaledPart(p, factor);
    AddScaled(weighted, PartWeighted(p), sum, p.sum, factor);
  }

  lemma {:induction false} ScaledSums(parts: seq<Part>, factor: real)
    requires AllScaled(parts, factor)
    ensures AllWeighted(parts) == factor * Total(parts, PartSum) as real
  {
    if parts != [] {
      var c, p := parts[..|parts| - 1], parts[|parts| - 1];
      ScaledSums(c, factor);
      NextSum(AllWeighted(c), Total(c, PartSum), p, factor);
    }
  }

  /** With even coverage, weights are the reading counts scaled by one common factor. */
  lemma ScaledParts(parts: seq<Part>, factor: real)
    requires AllScaled(parts, factor)
    ensures Total(parts, PartWeight) as real == factor * Total(parts, PartReadings) as real
    ensures AllWeighted(parts) == factor * Total(parts, PartSum) as real
  {
    ScaledWeights(parts, factor);
    ScaledSums(parts, factor);
  }

  /** Scaled parts read as their plain mean. */
  lemma ScaledMean(parts: seq<Part>, factor: real)
    requires AllScaled(parts, factor)
    requires factor > 0.0 && Total(parts, PartReadings) > 0
    ensures Total(parts, PartWeight) > 0
    ensures AllWeighted(parts) / Total(parts, PartWeight) as real
            == Total(parts, PartSum) as real / Total(parts, PartReadings) as real
  {
    ScaledParts(parts, factor);
    SameQuotient(AllWeighted(parts), Total(parts, PartWeight), Total(parts, PartSum),
                 Total(parts, PartReadings), factor);
  }

  lemma ShareScales(p: Part, p0: Part)
    requires p0.readings > 0 && p.readings >= 0 && (p.readings == 0 ==> p.sum == 0)
    requires SameShare(p, p0)
    ensures Scaled(p, p0.count as real / p0.readings as real)
  {
    if p.readings > 0 {
      RatioScales(p.count, p.readings, p0.count, p0.readings);
    }
  }

  lemma EvenIsExact(samples: seq<Sample>)
    requires EvenCoverage(samples)
    ensures WeightedMean(BuildRollup(samples)) == Mean(samples)
  {
    var slots := Keys(samples, SlotOf);
    var parts := Parts(samples, slots);
    RowsAreParts(samples, slots);
    PartsAt(samples, slots);
    Partition(samples, SlotOf, Reading);
    Partition(samples, SlotOf, Signal);
    if k0 :| k0 in slots && Readings(samples, k0) > 0 {
      var p0 := PartOf(samples, k0);
      SomeReading(samples, k0);
      ReadingRange(Pick(samples, SlotOf, k0));
      PartsScale(samples, slots, p0);
      PositiveRatio(p0.count, p0.readings);
      ScaledMean(parts, p0.count as real / p0.readings as real);
    } else {
      NoReadings(samples);
    }
  }

  lemma PartsScale(samples: seq<Sample>, slots: seq<Slot>, p0: Part)
    requires p0.readings > 0 && forall k :: k in slots ==> SameShare(PartOf(samples, k), p0)
    ensures AllScaled(Parts(samples, slots), p0.count as real / p0.readings as real)
  {
    var parts := Parts(samples, slots);
    PartsAt(samples, slots);
    forall i | 0 <= i < |parts|
      ensures Scaled(parts[i], p0.count as real / p0.readings as real)
    {
      assert slots[i] in slots;
      ReadingRange(Pick(samples, SlotOf, slots[i]));
      ShareScales(parts[i], p0);
    }
  }

  lemma NoReadings(samples: seq<Sample>)
    requires forall k :: k in Keys(samples, SlotOf) ==> Readings(samples, k) <= 0
    ensures Total(samples, Reading) == 0 && Weight(BuildRollup(samples)) == 0
  {
    var slots := Keys(samples, SlotOf);
    RowsAreParts(samples, slots);
    PartsAt(samples, slots);
    Partition(samples, SlotOf, Reading);
    forall k | k in slots
      ensures GroupTotal(samples, SlotOf, Reading)(k) == 0
    {
      ReadingRange(Pick(samples, SlotOf, k));
      assert Readings(samples, k) <= 0;
    }
    AllZero(slots, GroupTotal(samples, SlotOf, Reading));
    AllZero(Parts(samples, slots), PartWeight);
  }

  lemma {:induction false} AllZero<K>(ks: seq<K>, f: K -> int)
    requires forall k :: k in ks ==> f(k) == 0
    ensures Total(ks, f) == 0
  {
    if ks != [] {
      assert ks == ks[..|ks| - 1] + [ks[|ks| - 1]];
      AllZero(ks[..|ks| - 1], f);
    }
  }

  lemma SomeReading(samples: seq<Sample>, slot: Slot)
    requires slot in Keys(samples, SlotOf) && Readings(samples, slot) > 0
    ensures Total(samples, Reading) > 0
  {
    var slots := Keys(samples, SlotOf);
    Partition(samples, SlotOf, Reading);
    var f := GroupTotal(samples, SlotOf, Reading);
    forall k | k in slots
      ensures f(k) >= 0
    {
      ReadingRange(Pick(samples, SlotOf, k));
    }
    var i :| 0 <= i < |slots| && slots[i] == slot;
    TotalAtLeast(slots, f, i);
  }
}
