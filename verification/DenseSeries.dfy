/** Dense traffic series: every slot of the plan, per collector, and the protocol totals of its buckets. */
module DenseSeries {
  import opened Options
  import opened Totals
  import opened Groups
  import opened Sorting
  import opened Arith

  datatype Counters = Counters(bytesIn: nat, bytesOut: nat, packetsIn: nat, packetsOut: nat)

  datatype Column = BytesIn | BytesOut | PacketsIn | PacketsOut

  const ZERO := Counters(0, 0, 0, 0)

  function Read(c: Counters, column: Column): nat {
    match column
    case BytesIn => c.bytesIn
    case BytesOut => c.bytesOut
    case PacketsIn => c.packetsIn
    case PacketsOut => c.packetsOut
  }

  function Plus(a: Counters, b: Counters): Counters {
    Counters(a.bytesIn + b.bytesIn, a.bytesOut + b.bytesOut, a.packetsIn + b.packetsIn, a.packetsOut + b.packetsOut)
  }

  /** `SUM` of the four columns. */
  function Sum<T>(rows: seq<T>, counters: T -> Counters): Counters {
    if rows == [] then ZERO else Plus(Sum(rows[..|rows| - 1], counters), counters(rows[|rows| - 1]))
  }

  function ColumnOf<T>(counters: T -> Counters, column: Column): T -> int {
    (x: T) => Read(counters(x), column)
  }

  lemma ColumnIs<T>(counters: T -> Counters, column: Column, x: T)
    ensures ColumnOf(counters, column)(x) == Read(counters(x), column)
  {
  }

  lemma {:induction false} SumColumn<T>(rows: seq<T>, counters: T -> Counters, column: Column)
    ensures Read(Sum(rows, counters), column) == Total(rows, ColumnOf(counters, column))
  {
    if rows != [] {
      SumColumn(rows[..|rows| - 1], counters, column);
    }
  }

  // ── the plan and its slots ─────────────────────────────────────────────

  datatype Plan = Plan(width: nat, effSince: int, effUntil: int, first: int, last: int)

  datatype Slot = Slot(index: int, start: int, end: int, seconds: int)

  function CeilTo(sec: int, grain: int): int
    requires grain > 0
  {
    (sec + grain - 1) / grain * grain
  }

  function Min(a: int, b: int): int {
    if a <= b then a else b
  }

  function Max(a: int, b: int): int {
    if a >= b then a else b
  }

  function PlanFor(grain: nat, width: nat, since: int, until: int, now: int, dataUntil: Option<int>): Plan
    requires grain > 0 && width > 0
  {
    var effSince := CeilTo(since, grain);
    var ceiling := Min(CeilTo(until, grain), now);
    var effUntil := if dataUntil.Some? then Min(ceiling, dataUntil.value) else ceiling;
    var first := effSince / width;
    Plan(width, effSince, effUntil, first, if effUntil > effSince then (effUntil - 1) / width else first - 1)
  }

  function SlotAt(plan: Plan, i: int): Slot {
    var start := i * plan.width;
    var seconds := Min(start + plan.width, plan.effUntil) - Max(start, plan.effSince);
    Slot(i, start, start + plan.width, Max(1, seconds))
  }

  method DenseSlots(plan: Plan) returns (slots: seq<Slot>)
    ensures |slots| == Max(0, plan.last - plan.first + 1)
    ensures forall i :: 0 <= i < |slots| ==> slots[i] == SlotAt(plan, plan.first + i)
  {
    slots := [];
    var i := plan.first;
    while i <= plan.last
      invariant plan.first <= i && (i <= plan.last + 1 || i == plan.first)
      invariant |slots| == i - plan.first
      invariant forall j :: 0 <= j < |slots| ==> slots[j] == SlotAt(plan, plan.first + j)
    {
      slots := slots + [SlotAt(plan, i)];
      i := i + 1;
    }
  }

  function SecondsOf(slot: Slot): int {
    slot.seconds
  }

  lemma {:induction false} SecondsUpTo(plan: Plan, slots: seq<Slot>)
    requires plan.width > 0 && plan.effSince < plan.effUntil && slots != []
    requires plan.first == plan.effSince / plan.width && plan.last == (plan.effUntil - 1) / plan.width
    requires |slots| <= plan.last - plan.first + 1
    requires forall i :: 0 <= i < |slots| ==> slots[i] == SlotAt(plan, plan.first + i)
    ensures Total(slots, SecondsOf) == Min(plan.width * (plan.first + |slots|), plan.effUntil) - plan.effSince
  {
    var c, i := slots[..|slots| - 1], plan.first + |slots| - 1;
    SlotBounds(plan, i);
    if c != [] {
      SecondsUpTo(plan, c);
    } else {
      assert Total(c, SecondsOf) == 0;
    }
  }

  lemma SlotBounds(plan: Plan, i: int)
    requires plan.width > 0 && plan.effSince < plan.effUntil
    requires plan.first == plan.effSince / plan.width && plan.last == (plan.effUntil - 1) / plan.width
    requires plan.first <= i <= plan.last
    ensures i * plan.width == plan.width * i && plan.width * (i + 1) == plan.width * i + plan.width
    ensures plan.width * i < plan.effUntil && plan.effSince < plan.width * i + plan.width
    ensures i == plan.first ==> plan.width * i <= plan.effSince
    ensures i > plan.first ==> plan.effSince < plan.width * i
  {
    DivisionBounds(plan.effSince, plan.width);
    DivisionBounds(plan.effUntil - 1, plan.width);
    Distribute(plan.width, i, 1);
    ScaleOrder(i, plan.last, plan.width);
    ScaleOrder(plan.first, i, plan.width);
    ScaleOrder(plan.first + 1, i, plan.width);
    Distribute(plan.width, plan.first, 1);
  }

  /** The slots' seconds add up to the time the series covers, so its rates are those of the whole window. */
  lemma SecondsCoverWindow(plan: Plan, slots: seq<Slot>)
    requires plan.width > 0 && plan.effSince < plan.effUntil
    requires plan.first == plan.effSince / plan.width && plan.last == (plan.effUntil - 1) / plan.width
    requires |slots| == plan.last - plan.first + 1
    requires forall i :: 0 <= i < |slots| ==> slots[i] == SlotAt(plan, plan.first + i)
    ensures Total(slots, SecondsOf) == plan.effUntil - plan.effSince
  {
    FloorMonotone(plan.effSince, plan.effUntil - 1, plan.width);
    SecondsUpTo(plan, slots);
    DivisionBounds(plan.effUntil - 1, plan.width);
    Distribute(plan.width, plan.last, 1);
  }

  lemma CeilIs(sec: int, grain: int)
    requires grain > 0
    ensures CeilTo(sec, grain) % grain == 0 && sec <= CeilTo(sec, grain) < sec + grain
  {
    FloorIs(sec + grain - 1, grain, CeilTo(sec, grain));
  }

  /**
   * The window a plan covers: it begins at the first multiple of the grain from `since` on, and ends at such a
   * multiple for `until`, now, or where the data ends, whichever comes first.
   */
  lemma PlanWindow(grain: nat, width: nat, since: int, until: int, now: int, dataUntil: Option<int>)
    requires grain > 0 && width > 0
    ensures var p := PlanFor(grain, width, since, until, now, dataUntil);
            p.width == width && p.effSince % grain == 0 && since <= p.effSince < since + grain &&
            p.effUntil <= now && p.effUntil < until + grain && (dataUntil.Some? ==> p.effUntil <= dataUntil.value) &&
            (p.effUntil == now || dataUntil == Some(p.effUntil) || (p.effUntil % grain == 0 && until <= p.effUntil))
  {
    CeilIs(since, grain);
    CeilIs(until, grain);
  }

  predicate Between(t: int, from: int, to: int) {
    from <= t < to
  }

  lemma SecondOfSlot(plan: Plan, i: int) returns (t: int)
    requires plan.width > 0 && plan.effSince < plan.effUntil
    requires plan.first == plan.effSince / plan.width && plan.last == (plan.effUntil - 1) / plan.width
    requires plan.first <= i <= plan.last
    ensures Between(t, plan.effSince, plan.effUntil) && Between(t, i * plan.width, i * plan.width + plan.width)
  {
    SlotBounds(plan, i);
    t := Max(plan.effSince, i * plan.width);
  }

  lemma SlotOfSecond(plan: Plan, i: int, t: int)
    requires plan.width > 0
    requires Between(t, plan.effSince, plan.effUntil) && Between(t, i * plan.width, i * plan.width + plan.width)
    ensures plan.effSince / plan.width <= i <= (plan.effUntil - 1) / plan.width
  {
    QuotientUnique(t, plan.width, i);
    FloorMonotone(plan.effSince, t, plan.width);
    FloorMonotone(t, plan.effUntil - 1, plan.width);
  }

  /** A plan's slots are exactly those with a second of its window in them. */
  lemma PlanSlots(grain: nat, width: nat, since: int, until: int, now: int, dataUntil: Option<int>, i: int)
    requires grain > 0 && width > 0
    ensures var p := PlanFor(grain, width, since, until, now, dataUntil);
            p.first <= i <= p.last <==>
            exists t :: Between(t, p.effSince, p.effUntil) && Between(t, i * p.width, i * p.width + p.width)
  {
    var p := PlanFor(grain, width, since, until, now, dataUntil);
    if p.first <= i <= p.last {
      var t := SecondOfSlot(p, i);
    }
    if t :| Between(t, p.effSince, p.effUntil) && Between(t, i * p.width, i * p.width + p.width) {
      SlotOfSecond(p, i, t);
    }
  }

  function Stretch(from: int, to: int): set<int> {
    set t: int | from <= t < to && Between(t, from, to)
  }

  lemma {:induction false} StretchSize(a: int, b: int)
    requires a <= b
    ensures |Stretch(a, b)| == b - a
    decreases b - a
  {
    if a < b {
      StretchSize(a, b - 1);
      assert Stretch(a, b) == Stretch(a, b - 1) + {b - 1};
    } else {
      assert Stretch(a, b) == {};
    }
  }

  /** A slot runs from its start to that of the next one and holds the times with its index. */
  lemma SlotTimes(plan: Plan, i: int, t: int)
    requires plan.width > 0
    ensures SlotAt(plan, i).index == i && SlotAt(plan, i).end == SlotAt(plan, i + 1).start
    ensures SlotAt(plan, i).start <= t < SlotAt(plan, i).end <==> t / plan.width == i
  {
    DivisionBounds(t, plan.width);
    Distribute(plan.width, i, 1);
    if i * plan.width <= t < i * plan.width + plan.width {
      QuotientUnique(t, plan.width, i);
    }
  }

  lemma StretchesMeet(a: int, b: int, c: int, d: int)
    ensures Stretch(a, b) * Stretch(c, d) == Stretch(Max(a, c), Min(b, d))
  {
  }

  /** Its seconds are those of the window in it. */
  lemma SlotSeconds(plan: Plan, i: int)
    requires plan.width > 0 && plan.effSince < plan.effUntil
    requires plan.first == plan.effSince / plan.width && plan.last == (plan.effUntil - 1) / plan.width
    requires plan.first <= i <= plan.last
    ensures SlotAt(plan, i).seconds
            == |Stretch(SlotAt(plan, i).start, SlotAt(plan, i).end) * Stretch(plan.effSince, plan.effUntil)| > 0
  {
    var slot := SlotAt(plan, i);
    SlotBounds(plan, i);
    StretchesMeet(slot.start, slot.end, plan.effSince, plan.effUntil);
    StretchSize(Max(slot.start, plan.effSince), Min(slot.end, plan.effUntil));
  }

  // ── the sums the query returns ─────────────────────────────────────────

  /** A stored row; the key is the collector, or `None` when collectors are aggregated. */
  datatype Stored = Stored(at: nat, key: Option<int>, counters: Counters)

  function CountersOf(r: Stored): Counters {
    r.counters
  }

  function KeyOf(r: Stored): Option<int> {
    r.key
  }

  function IndexOf(width: nat): Stored -> int
    requires width > 0
  {
    (r: Stored) => r.at / width
  }

  /** The time bounds of the query. */
  predicate InWindow(plan: Plan, since: int, until: int, r: Stored) {
    Max(since, plan.effSince) <= r.at < Min(until, plan.effUntil)
  }

  type Sums = map<int, map<Option<int>, Counters>>

  function ByKey(rows: seq<Stored>): map<Option<int>, Counters> {
    map k | k in Keys(rows, KeyOf) :: Sum(Pick(rows, KeyOf, k), CountersOf)
  }

  function SumsOf(rows: seq<Stored>, width: nat): Sums
    requires width > 0
  {
    map i | i in Keys(rows, IndexOf(width)) :: ByKey(Pick(rows, IndexOf(width), i))
  }

  function Value(sums: Sums, index: int, key: Option<int>): Counters {
    if index in sums && key in sums[index] then sums[index][key] else ZERO
  }

  // ── the dense fill ─────────────────────────────────────────────────────

  datatype TrafficRow = TrafficRow(collectorId: Option<int>, slot: Slot, counters: Counters)

  function RowCounters(r: TrafficRow): Counters {
    r.counters
  }

  function SlotRows(sums: Sums, slot: Slot, keys: seq<Option<int>>): seq<TrafficRow> {
    if keys == [] then [] else
    var k := keys[|keys| - 1];
    SlotRows(sums, slot, keys[..|keys| - 1]) + [TrafficRow(k, slot, Value(sums, slot.index, k))]
  }

  function DenseRows(sums: Sums, slots: seq<Slot>, keys: seq<Option<int>>): seq<TrafficRow> {
    if slots == [] then [] else
    DenseRows(sums, slots[..|slots| - 1], keys) + SlotRows(sums, slots[|slots| - 1], keys)
  }

  method DenseFill(sums: Sums, slots: seq<Slot>, keys: seq<Option<int>>) returns (rows: seq<TrafficRow>)
    ensures rows == DenseRows(sums, slots, keys)
  {
    rows := [];
    for i := 0 to |slots|
      invariant rows == DenseRows(sums, slots[..i], keys)
    {
      assert slots[..i + 1][..i] == slots[..i];
      var slot := slots[i];
      ghost var before := rows;
      for j := 0 to |keys|
        invariant rows == before + SlotRows(sums, slot, keys[..j])
      {
        assert keys[..j + 1][..j] == keys[..j];
        var key := keys[j];
        var counters := ZERO;
        if slot.index in sums && key in sums[slot.index] {
          counters := sums[slot.index][key];
        }
        rows := rows + [TrafficRow(key, slot, counters)];
      }
      assert keys[..|keys|] == keys;
    }
    assert slots[..|slots|] == slots;
  }

  function KeyRank(k: Option<int>): int {
    if k.Some? then k.value else 0
  }

  ghost predicate Seen(sums: Sums, k: Option<int>) {
    exists i :: i in sums && k in sums[i]
  }

  ghost predicate NoRepeat(keys: seq<Option<int>>) {
    forall i, j :: 0 <= i < j < |keys| ==> keys[i] != keys[j]
  }

  /** The series' keys: one aggregate, or every collector seen in the window by number, or one zero series. */
  method SeriesKeys(sums: Sums, aggregateCollectors: bool) returns (keys: seq<Option<int>>)
    ensures aggregateCollectors ==> keys == [None]
    ensures !aggregateCollectors && (forall k :: !Seen(sums, k)) ==> keys == [None]
    ensures !aggregateCollectors && (exists k :: Seen(sums, k)) ==>
              NoRepeat(keys) && (forall k :: k in keys <==> Seen(sums, k)) &&
              forall i, j :: 0 <= i < j < |keys| && keys[i].Some? && keys[j].Some? ==> keys[i].value < keys[j].value
  {
    if aggregateCollectors {
      return [None];
    }
    var indexes := ListOf(sums.Keys);
    var seen: set<Option<int>> := {};
    for n := 0 to |indexes|
      invariant forall k :: k in seen <==> exists m :: 0 <= m < n && k in sums[indexes[m]]
    {
      assert indexes[n] in indexes;
      seen := seen + sums[indexes[n]].Keys;
    }
    forall k
      ensures k in seen <==> Seen(sums, k)
    {
      if k in seen {
        var m :| 0 <= m < |indexes| && k in sums[indexes[m]];
        var i := indexes[m];
        assert i in sums && k in sums[i];
      }
      if Seen(sums, k) {
        var i :| i in sums && k in sums[i];
        var m :| 0 <= m < |indexes| && indexes[m] == i;
        assert k in sums[indexes[m]];
      }
    }
    if seen == {} {
      return [None];
    }
    var list := ListOf(seen);
    keys := Sort(list, KeyRank);
    KeysAscend(list);
  }

  method ListOf<T(==, !new)>(s: set<T>) returns (list: seq<T>)
    ensures forall i, j :: 0 <= i < j < |list| ==> list[i] != list[j]
    ensures forall k :: k in list <==> k in s
  {
    list := [];
    var rest := s;
    while rest != {}
      invariant rest <= s
      invariant forall i, j :: 0 <= i < j < |list| ==> list[i] != list[j]
      invariant forall k :: k in list <==> k in s && k !in rest
    {
      var k :| k in rest;
      rest := rest - {k};
      list := list + [k];
    }
  }

  lemma KeysAscend(list: seq<Option<int>>)
    requires NoRepeat(list)
    ensures var keys := Sort(list, KeyRank);
            NoRepeat(keys) && (forall k :: k in keys <==> k in list) &&
            forall i, j :: 0 <= i < j < |keys| && keys[i].Some? && keys[j].Some? ==> keys[i].value < keys[j].value
  {
    var itself := (k: Option<int>) => k;
    var keys := Sort(list, KeyRank);
    SortSorts(list, KeyRank);
    Reordered(list, keys, itself);
    assert forall i :: 0 <= i < |keys| ==> itself(keys[i]) == keys[i];
    forall i, j | 0 <= i < j < |keys| && keys[i].Some? && keys[j].Some?
      ensures keys[i].value < keys[j].value
    {
      assert KeyRank(keys[i]) <= KeyRank(keys[j]);
    }
  }

  // ── one row per slot and key ───────────────────────────────────────────

  lemma {:induction false} SlotRowAt(sums: Sums, slot: Slot, keys: seq<Option<int>>)
    ensures |SlotRows(sums, slot, keys)| == |keys|
    ensures forall j :: 0 <= j < |keys| ==>
              SlotRows(sums, slot, keys)[j] == TrafficRow(keys[j], slot, Value(sums, slot.index, keys[j]))
  {
    if keys != [] {
      SlotRowAt(sums, slot, keys[..|keys| - 1]);
    }
  }

  /** The series is the full grid: slot by slot, key by key, zero where nothing was stored. */
  lemma {:induction false} OneRowPerSlotAndKey(sums: Sums, slots: seq<Slot>, keys: seq<Option<int>>, i: nat, j: nat)
    requires i < |slots| && j < |keys|
    ensures |DenseRows(sums, slots, keys)| == |keys| * |slots|
    ensures |keys| * i + j < |keys| * |slots|
    ensures DenseRows(sums, slots, keys)[|keys| * i + j]
            == TrafficRow(keys[j], slots[i], Value(sums, slots[i].index, keys[j]))
  {
    var c := slots[..|slots| - 1];
    DenseLength(sums, c, keys);
    DenseLength(sums, slots, keys);
    SlotRowAt(sums, slots[|slots| - 1], keys);
    GridIndex(i, |slots|, j, |keys|);
    if i < |c| {
      OneRowPerSlotAndKey(sums, c, keys, i, j);
    }
  }

  lemma GridIndex(i: nat, n: nat, j: nat, k: nat)
    requires i < n && j < k
    ensures k * i + j < k * n
    ensures i < n - 1 ==> k * i + j < k * (n - 1)
  {
    Distribute(k, i, 1);
    ScaleOrder(i + 1, n, k);
    ScaleOrder(i + 1, n - 1, k);
  }

  lemma {:induction false} DenseLength(sums: Sums, slots: seq<Slot>, keys: seq<Option<int>>)
    ensures |DenseRows(sums, slots, keys)| == |keys| * |slots|
  {
    if slots != [] {
      DenseLength(sums, slots[..|slots| - 1], keys);
      SlotRowAt(sums, slots[|slots| - 1], keys);
      Distribute(|keys|, |slots| - 1, 1);
    }
  }

  // ── conservation ───────────────────────────────────────────────────────

  function KeyValue(sums: Sums, index: int, column: Column): Option<int> -> int {
    (k: Option<int>) => Read(Value(sums, index, k), column)
  }

  function SlotValue(sums: Sums, keys: seq<Option<int>>, column: Column): Slot -> int {
    (slot: Slot) => Total(keys, KeyValue(sums, slot.index, column))
  }

  lemma {:induction false} SlotRowTotal(sums: Sums, slot: Slot, keys: seq<Option<int>>, column: Column)
    ensures Total(SlotRows(sums, slot, keys), ColumnOf(RowCounters, column))
            == Total(keys, KeyValue(sums, slot.index, column))
  {
    if keys != [] {
      var c := keys[..|keys| - 1];
      SlotRowTotal(sums, slot, c, column);
      var k := keys[|keys| - 1];
      var row := TrafficRow(k, slot, Value(sums, slot.index, k));
      TotalConcat(SlotRows(sums, slot, c), [row], ColumnOf(RowCounters, column));
      TotalSingle(row, ColumnOf(RowCounters, column));
      assert SlotRows(sums, slot, keys) == SlotRows(sums, slot, c) + [row];
      ColumnIs(RowCounters, column, row);
    }
  }

  lemma {:induction false} DenseTotal(sums: Sums, slots: seq<Slot>, keys: seq<Option<int>>, column: Column)
    ensures Total(DenseRows(sums, slots, keys), ColumnOf(RowCounters, column))
            == Total(slots, SlotValue(sums, keys, column))
  {
    if slots != [] {
      var c, last := slots[..|slots| - 1], slots[|slots| - 1];
      DenseTotal(sums, c, keys, column);
      SlotRowTotal(sums, last, keys, column);
      TotalConcat(DenseRows(sums, c, keys), SlotRows(sums, last, keys), ColumnOf(RowCounters, column));
    }
  }

  function Indexes(slots: seq<Slot>): seq<int> {
    if slots == [] then [] else Indexes(slots[..|slots| - 1]) + [slots[|slots| - 1].index]
  }

  lemma {:induction false} IndexesAt(slots: seq<Slot>)
    ensures |Indexes(slots)| == |slots|
    ensures forall i :: 0 <= i < |slots| ==> Indexes(slots)[i] == slots[i].index
  {
    if slots != [] {
      IndexesAt(slots[..|slots| - 1]);
    }
  }

  ghost predicate Covers(keys: seq<Option<int>>, rows: seq<Stored>) {
    NoRepeat(keys) && forall r :: r in rows ==> r.key in keys
  }

  /** One cell of the sparse map, read with its zero default. */
  lemma CellValue(rows: seq<Stored>, width: nat, index: int, k: Option<int>, column: Column)
    requires width > 0
    ensures KeyValue(SumsOf(rows, width), index, column)(k)
            == GroupTotal(Pick(rows, IndexOf(width), index), KeyOf, ColumnOf(CountersOf, column))(k)
  {
    var own := Pick(rows, IndexOf(width), index);
    SumColumn(Pick(own, KeyOf, k), CountersOf, column);
    if index !in SumsOf(rows, width) {
      PickNone(rows, IndexOf(width), index);
    } else if k !in Keys(own, KeyOf) {
      PickNone(own, KeyOf, k);
    }
  }

  /** A cell holds, column by column, the sums of the rows stored in its slot for its collector. */
  lemma CellIs(rows: seq<Stored>, width: nat, index: int, k: Option<int>)
    requires width > 0
    ensures var c := Value(SumsOf(rows, width), index, k);
            c.bytesIn == Total(rows, (r: Stored) => if r.at / width == index && r.key == k then r.counters.bytesIn else 0) &&
            c.bytesOut == Total(rows, (r: Stored) => if r.at / width == index && r.key == k then r.counters.bytesOut else 0) &&
            c.packetsIn == Total(rows, (r: Stored) => if r.at / width == index && r.key == k then r.counters.packetsIn else 0) &&
            c.packetsOut == Total(rows, (r: Stored) => if r.at / width == index && r.key == k then r.counters.packetsOut else 0)
  {
    CellColumn(rows, width, index, k, BytesIn, (r: Stored) =>
      if r.at / width == index && r.key == k then r.counters.bytesIn else 0);
    CellColumn(rows, width, index, k, BytesOut, (r: Stored) =>
      if r.at / width == index && r.key == k then r.counters.bytesOut else 0);
    CellColumn(rows, width, index, k, PacketsIn, (r: Stored) =>
      if r.at / width == index && r.key == k then r.counters.packetsIn else 0);
    CellColumn(rows, width, index, k, PacketsOut, (r: Stored) =>
      if r.at / width == index && r.key == k then r.counters.packetsOut else 0);
  }

  lemma CellColumn(rows: seq<Stored>, width: nat, index: int, k: Option<int>, column: Column, f: Stored -> int)
    requires width > 0
    requires forall r: Stored :: f(r) == if r.at / width == index && r.key == k then Read(r.counters, column) else 0
    ensures Read(Value(SumsOf(rows, width), index, k), column) == Total(rows, f)
  {
    CellValue(rows, width, index, k, column);
    forall r: Stored
      ensures f(r) == if IndexOf(width)(r) == index && KeyOf(r) == k then ColumnOf(CountersOf, column)(r) else 0
    {
      ColumnIs(CountersOf, column, r);
    }
    GroupWithinIs(rows, IndexOf(width), index, KeyOf, k, ColumnOf(CountersOf, column), f);
  }

  /** The cells of one slot hold what was stored in it. */
  lemma SlotHolds(rows: seq<Stored>, width: nat, keys: seq<Option<int>>, index: int, column: Column)
    requires width > 0 && Covers(keys, rows)
    ensures Total(keys, KeyValue(SumsOf(rows, width), index, column))
            == GroupTotal(rows, IndexOf(width), ColumnOf(CountersOf, column))(index)
  {
    var own := Pick(rows, IndexOf(width), index);
    forall k | k in keys
      ensures KeyValue(SumsOf(rows, width), index, column)(k)
              == GroupTotal(own, KeyOf, ColumnOf(CountersOf, column))(k)
    {
      CellValue(rows, width, index, k, column);
    }
    TotalSame(keys, KeyValue(SumsOf(rows, width), index, column),
              GroupTotal(own, KeyOf, ColumnOf(CountersOf, column)));
    GroupsCover(own, KeyOf, ColumnOf(CountersOf, column), keys);
  }

  lemma {:induction false} SlotsHold(rows: seq<Stored>, width: nat, keys: seq<Option<int>>, slots: seq<Slot>, column: Column)
    requires width > 0 && Covers(keys, rows)
    ensures Total(slots, SlotValue(SumsOf(rows, width), keys, column))
            == Total(Indexes(slots), GroupTotal(rows, IndexOf(width), ColumnOf(CountersOf, column)))
  {
    if slots != [] {
      var c, last := slots[..|slots| - 1], slots[|slots| - 1];
      SlotsHold(rows, width, keys, c, column);
      SlotHolds(rows, width, keys, last.index, column);
      assert Indexes(slots)[..|Indexes(slots)| - 1] == Indexes(c);
    }
  }

  /** Every row the query reads lies in a slot of the plan. */
  lemma RowsLieInSlots(plan: Plan, since: int, until: int, r: Stored, grain: nat, now: int, dataUntil: Option<int>)
    requires grain > 0 && plan.width > 0
    requires plan == PlanFor(grain, plan.width, since, until, now, dataUntil)
    requires InWindow(plan, since, until, r)
    ensures plan.first <= IndexOf(plan.width)(r) <= plan.last
  {
    FloorMonotone(plan.effSince, r.at, plan.width);
    FloorMonotone(r.at, plan.effUntil - 1, plan.width);
  }

  /**
   * End to end: the dense series sums, per column, to exactly the stored rows of the query's time
   * bounds, for any tier, width, window and freshness, aggregated or per collector.
   */
  lemma SeriesConserves(stored: seq<Stored>, plan: Plan, grain: nat, since: int, until: int, now: int,
                        dataUntil: Option<int>, slots: seq<Slot>, keys: seq<Option<int>>, column: Column)
    requires grain > 0 && plan.width > 0
    requires plan == PlanFor(grain, plan.width, since, until, now, dataUntil)
    requires forall r :: r in stored ==> InWindow(plan, since, until, r)
    requires |slots| == Max(0, plan.last - plan.first + 1)
    requires forall i :: 0 <= i < |slots| ==> slots[i] == SlotAt(plan, plan.first + i)
    requires Covers(keys, stored)
    ensures Total(DenseRows(SumsOf(stored, plan.width), slots, keys), ColumnOf(RowCounters, column))
            == Total(stored, ColumnOf(CountersOf, column))
  {
    var indexes := Indexes(slots);
    DenseTotal(SumsOf(stored, plan.width), slots, keys, column);
    SlotsHold(stored, plan.width, keys, slots, column);
    IndexesAt(slots);
    forall r | r in stored
      ensures IndexOf(plan.width)(r) in indexes
    {
      RowsLieInSlots(plan, since, until, r, grain, now, dataUntil);
      assert indexes[IndexOf(plan.width)(r) - plan.first] == IndexOf(plan.width)(r);
    }
    GroupsCover(stored, IndexOf(plan.width), ColumnOf(CountersOf, column), indexes);
  }

  /** A stored key is seen in the sums, so the series' keys cover the rows. */
  lemma StoredIsSeen(stored: seq<Stored>, width: nat, r: Stored)
    requires width > 0 && r in stored
    ensures Seen(SumsOf(stored, width), r.key)
  {
    var i := IndexOf(width)(r);
    assert i in SumsOf(stored, width) && SumsOf(stored, width)[i] == ByKey(Pick(stored, IndexOf(width), i));
    assert r in Pick(stored, IndexOf(width), i);
    KeyIsSummed(Pick(stored, IndexOf(width), i), r);
  }

  lemma KeyIsSummed(rows: seq<Stored>, r: Stored)
    requires r in rows
    ensures r.key in ByKey(rows)
  {
    assert KeyOf(r) in Keys(rows, KeyOf);
  }

  predicate HasKey(stored: seq<Stored>, k: Option<int>) {
    exists r :: r in stored && r.key == k
  }

  /** The keys of the sums are those of the rows. */
  lemma SeenAreStored(stored: seq<Stored>, width: nat)
    requires width > 0
    ensures forall k :: Seen(SumsOf(stored, width), k) <==> HasKey(stored, k)
    ensures stored != [] ==> Seen(SumsOf(stored, width), stored[0].key)
  {
    forall k
      ensures Seen(SumsOf(stored, width), k) <==> HasKey(stored, k)
    {
      if HasKey(stored, k) {
        var r :| r in stored && r.key == k;
        StoredIsSeen(stored, width, r);
      }
      if Seen(SumsOf(stored, width), k) {
        var i :| i in SumsOf(stored, width) && k in SumsOf(stored, width)[i];
        var r := KeyOwner(Pick(stored, IndexOf(width), i), KeyOf, k);
      }
    }
    if stored != [] {
      StoredIsSeen(stored, width, stored[0]);
    }
  }

  /** The query and its dense fill: whatever was stored in the window is in the series, column by column. */
  method TrafficSeries(stored: seq<Stored>, aggregateCollectors: bool, grain: nat, width: nat, since: int, until: int,
                       now: int, dataUntil: Option<int>)
    returns (rows: seq<TrafficRow>, slots: seq<Slot>, keys: seq<Option<int>>)
    requires grain > 0 && width > 0
    requires forall r :: r in stored ==> InWindow(PlanFor(grain, width, since, until, now, dataUntil), since, until, r)
    requires forall r :: r in stored ==> (r.key.None? <==> aggregateCollectors)
    ensures rows == DenseRows(SumsOf(stored, width), slots, keys)
    ensures var plan := PlanFor(grain, width, since, until, now, dataUntil);
            |slots| == Max(0, plan.last - plan.first + 1) &&
            forall i :: 0 <= i < |slots| ==> slots[i] == SlotAt(plan, plan.first + i)
    ensures NoRepeat(keys) && (aggregateCollectors || stored == [] ==> keys == [None])
    ensures !aggregateCollectors && stored != [] ==> forall k :: k in keys <==> HasKey(stored, k)
    ensures forall column :: Total(rows, ColumnOf(RowCounters, column)) == Total(stored, ColumnOf(CountersOf, column))
  {
    var plan := PlanFor(grain, width, since, until, now, dataUntil);
    var sums := SumsOf(stored, width);
    slots := DenseSlots(plan);
    keys := SeriesKeys(sums, aggregateCollectors);
    rows := DenseFill(sums, slots, keys);
    SeenAreStored(stored, width);
    assert forall r :: r in stored ==> HasKey(stored, r.key);
    forall column: Column
      ensures Total(rows, ColumnOf(RowCounters, column)) == Total(stored, ColumnOf(CountersOf, column))
    {
      SeriesConserves(stored, plan, grain, since, until, now, dataUntil, slots, keys, column);
    }
  }

  // ── protocol totals ────────────────────────────────────────────────────

  /** One protocol of one bucket. */
  datatype Entry = Entry(protocol: string, counters: Counters)

  function ProtocolOf(e: Entry): string {
    e.protocol
  }

  function EntryCounters(e: Entry): Counters {
    e.counters
  }

  function SumEntries(entries: seq<Entry>): Counters {
    Sum(entries, EntryCounters)
  }

  function Flatten(buckets: seq<seq<Entry>>): seq<Entry> {
    if buckets == [] then [] else Flatten(buckets[..|buckets| - 1]) + buckets[|buckets| - 1]
  }

  function AddEntry(m: map<string, Counters>, e: Entry): map<string, Counters> {
    m[e.protocol := Plus(if e.protocol in m then m[e.protocol] else ZERO, e.counters)]
  }

  function AddName(order: seq<string>, m: map<string, Counters>, e: Entry): seq<string> {
    if e.protocol in m then order else order + [e.protocol]
  }

  lemma EntryStep(entries: seq<Entry>, e: Entry, m: map<string, Counters>, order: seq<string>)
    requires Mapped(entries, ProtocolOf, SumEntries, m, order)
    ensures Mapped(entries + [e], ProtocolOf, SumEntries, AddEntry(m, e), AddName(order, m, e))
  {
    var own := Pick(entries, ProtocolOf, e.protocol);
    if e.protocol !in m {
      MappedMissing(entries, ProtocolOf, SumEntries, m, order, e.protocol);
    }
    assert (own + [e])[..|own|] == own;
    assert SumEntries(own + [e]) == Plus(SumEntries(own), e.counters);
    MappedNext(entries, e, ProtocolOf, SumEntries, m, order, SumEntries(own + [e]));
  }

  /** `before` and the first `j` entries of a bucket. */
  ghost function Extended(before: seq<Entry>, bucket: seq<Entry>, j: nat): seq<Entry>
    requires j <= |bucket|
  {
    if j == 0 then before else Extended(before, bucket, j - 1) + [bucket[j - 1]]
  }

  lemma {:induction false} ExtendedIs(before: seq<Entry>, bucket: seq<Entry>, j: nat)
    requires j <= |bucket|
    ensures Extended(before, bucket, j) == before + bucket[..j]
  {
    if j > 0 {
      ExtendedIs(before, bucket, j - 1);
    }
  }

  method AddBucket(ghost before: seq<Entry>, bucket: seq<Entry>, m: map<string, Counters>, keys: seq<string>)
    returns (aggregated: map<string, Counters>, order: seq<string>)
    requires Mapped(before, ProtocolOf, SumEntries, m, keys)
    ensures Mapped(Extended(before, bucket, |bucket|), ProtocolOf, SumEntries, aggregated, order)
  {
    aggregated, order := m, keys;
    for j := 0 to |bucket|
      invariant Mapped(Extended(before, bucket, j), ProtocolOf, SumEntries, aggregated, order)
    {
      EntryStep(Extended(before, bucket, j), bucket[j], aggregated, order);
      order := AddName(order, aggregated, bucket[j]);
      aggregated := AddEntry(aggregated, bucket[j]);
    }
  }

  /** The per-protocol totals, summed over the buckets that hold the protocol. */
  method AggregateProtocols(buckets: seq<seq<Entry>>) returns (aggregated: map<string, Counters>, order: seq<string>)
    ensures Mapped(Flatten(buckets), ProtocolOf, SumEntries, aggregated, order)
  {
    aggregated, order := map[], [];
    for i := 0 to |buckets|
      invariant Mapped(Flatten(buckets[..i]), ProtocolOf, SumEntries, aggregated, order)
    {
      assert buckets[..i + 1][..i] == buckets[..i];
      ExtendedIs(Flatten(buckets[..i]), buckets[i], |buckets[i]|);
      assert buckets[i][..|buckets[i]|] == buckets[i];
      aggregated, order := AddBucket(Flatten(buckets[..i]), buckets[i], aggregated, order);
    }
    assert buckets[..|buckets|] == buckets;
  }

  function ProtocolValue(m: map<string, Counters>, column: Column): string -> int {
    (p: string) => if p in m then Read(m[p], column) else 0
  }

  function BucketValue(column: Column): seq<Entry> -> int {
    (bucket: seq<Entry>) => Total(bucket, ColumnOf(EntryCounters, column))
  }

  lemma {:induction false} FlattenTotal(buckets: seq<seq<Entry>>, column: Column)
    ensures Total(Flatten(buckets), ColumnOf(EntryCounters, column)) == Total(buckets, BucketValue(column))
  {
    if buckets != [] {
      var c := buckets[..|buckets| - 1];
      FlattenTotal(c, column);
      TotalConcat(Flatten(c), buckets[|buckets| - 1], ColumnOf(EntryCounters, column));
    }
  }

  /** Summing protocols over buckets, or buckets over protocols, gives the same bytes and packets. */
  lemma Transposed(buckets: seq<seq<Entry>>, aggregated: map<string, Counters>, order: seq<string>, column: Column)
    requires Mapped(Flatten(buckets), ProtocolOf, SumEntries, aggregated, order)
    ensures Total(order, ProtocolValue(aggregated, column)) == Total(buckets, BucketValue(column))
  {
    var entries := Flatten(buckets);
    forall p | p in order
      ensures ProtocolValue(aggregated, column)(p) == GroupTotal(entries, ProtocolOf, ColumnOf(EntryCounters, column))(p)
    {
      SumColumn(Pick(entries, ProtocolOf, p), EntryCounters, column);
    }
    TotalSame(order, ProtocolValue(aggregated, column), GroupTotal(entries, ProtocolOf, ColumnOf(EntryCounters, column)));
    Partition(entries, ProtocolOf, ColumnOf(EntryCounters, column));
    FlattenTotal(buckets, column);
  }

  /** A protocol's totals: the sums of its entries over all buckets. */
  lemma ProtocolTotalsAre(buckets: seq<seq<Entry>>, aggregated: map<string, Counters>, order: seq<string>, p: string)
    requires Mapped(Flatten(buckets), ProtocolOf, SumEntries, aggregated, order)
    ensures p in aggregated <==> exists e :: e in Flatten(buckets) && e.protocol == p
    ensures p in aggregated ==>
              var c, entries := aggregated[p], Flatten(buckets);
              c.bytesIn == Total(entries, (e: Entry) => if e.protocol == p then e.counters.bytesIn else 0) &&
              c.bytesOut == Total(entries, (e: Entry) => if e.protocol == p then e.counters.bytesOut else 0) &&
              c.packetsIn == Total(entries, (e: Entry) => if e.protocol == p then e.counters.packetsIn else 0) &&
              c.packetsOut == Total(entries, (e: Entry) => if e.protocol == p then e.counters.packetsOut else 0)
  {
    var entries := Flatten(buckets);
    if p in aggregated {
      var e := KeyOwner(entries, ProtocolOf, p);
    }
    ProtocolColumn(entries, p, BytesIn, (e: Entry) => if e.protocol == p then e.counters.bytesIn else 0);
    ProtocolColumn(entries, p, BytesOut, (e: Entry) => if e.protocol == p then e.counters.bytesOut else 0);
    ProtocolColumn(entries, p, PacketsIn, (e: Entry) => if e.protocol == p then e.counters.packetsIn else 0);
    ProtocolColumn(entries, p, PacketsOut, (e: Entry) => if e.protocol == p then e.counters.packetsOut else 0);
  }

  lemma ProtocolColumn(entries: seq<Entry>, p: string, column: Column, f: Entry -> int)
    requires forall e: Entry :: f(e) == if e.protocol == p then Read(e.counters, column) else 0
    ensures Read(SumEntries(Pick(entries, ProtocolOf, p)), column) == Total(entries, f)
  {
    SumColumn(Pick(entries, ProtocolOf, p), EntryCounters, column);
    forall e: Entry
      ensures f(e) == if ProtocolOf(e) == p then ColumnOf(EntryCounters, column)(e) else 0
    {
      ColumnIs(EntryCounters, column, e);
    }
    GroupTotalIs(entries, ProtocolOf, ColumnOf(EntryCounters, column), p, f);
  }

  /** The entries counted are those of the buckets. */
  lemma {:induction false} EntriesAre(buckets: seq<seq<Entry>>, e: Entry)
    ensures e in Flatten(buckets) <==> exists b :: b in buckets && e in b
  {
    if buckets != [] {
      assert buckets == buckets[..|buckets| - 1] + [buckets[|buckets| - 1]];
      EntriesAre(buckets[..|buckets| - 1], e);
    }
  }
}
