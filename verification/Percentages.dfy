/** Shares of a total, rounded to a tenth of a percent (`withPercentages`, `percentageOf`, top devices). */
module Percentages {
  import opened Options
  import opened Totals
  import opened Sorting
  import opened Arith

  /** `Math.round(part / total * 1000)`: tenths of a percent, halves up, on exact quotients. */
  function Tenths(part: nat, total: nat): nat {
    if total == 0 then 0 else (2000 * part + total) / (2 * total)
  }

  /** Within half a tenth of the exact share, up or down, and never outside 0 to 100 percent. */
  lemma TenthsClose(part: nat, total: nat)
    requires 0 < total && part <= total
    ensures Tenths(part, total) <= 1000
    ensures 2000 * part - total < (2 * total) * Tenths(part, total) <= 2000 * part + total
  {
    DivisionBounds(2000 * part + total, 2 * total);
    AtMost(Tenths(part, total), total);
  }

  lemma AtMost(t: int, total: int)
    requires total > 0 && (2 * total) * t <= 2001 * total
    ensures t <= 1000
  {
    if t >= 1001 {
      ScaleOrder(1001, t, 2 * total);
    }
  }

  lemma TenthsMonotone(a: nat, b: nat, total: nat)
    requires a <= b
    ensures Tenths(a, total) <= Tenths(b, total)
  {
    if total > 0 {
      FloorMonotone(2000 * a + total, 2000 * b + total, 2 * total);
    }
  }

  function Share(total: nat): nat -> int {
    (part: nat) => Tenths(part, total)
  }

  function Itself(n: nat): int {
    n
  }

  lemma {:induction false} ShareSumWithin(parts: seq<nat>, total: nat)
    requires total > 0 && forall p :: p in parts ==> p <= total
    ensures (2 * total) * Total(parts, Share(total)) <= 2000 * Total(parts, Itself) + total * |parts|
    ensures 2000 * Total(parts, Itself) - total * |parts| <= (2 * total) * Total(parts, Share(total))
    ensures parts != [] ==> 2000 * Total(parts, Itself) - total * |parts| < (2 * total) * Total(parts, Share(total))
  {
    if parts != [] {
      var c, p := parts[..|parts| - 1], parts[|parts| - 1];
      assert parts == c + [p];
      assert forall q :: q in c ==> q in parts;
      assert p in parts;
      ShareSumWithin(c, total);
      TenthsClose(p, total);
      Distribute(2 * total, Total(c, Share(total)), Tenths(p, total));
      Distribute(total, |c|, 1);
    }
  }

  lemma {:induction false} PartsWithinSum(parts: seq<nat>)
    ensures forall p :: p in parts ==> p <= Total(parts, Itself)
  {
    forall p | p in parts
      ensures p <= Total(parts, Itself)
    {
      var i :| 0 <= i < |parts| && parts[i] == p;
      TotalAtLeast(parts, Itself, i);
    }
  }

  /**
   * The rounded percentages of a list with a nonzero total sum to 100 within 0.05 per entry:
   * in tenths, `1000 - n/2 < sum <= 1000 + n/2`.
   */
  lemma SharesSumTo100(parts: seq<nat>)
    requires Total(parts, Itself) > 0
    ensures 2000 - |parts| < 2 * Total(parts, Share(Total(parts, Itself))) <= 2000 + |parts|
  {
    var total: nat := Total(parts, Itself);
    PartsWithinSum(parts);
    ShareSumWithin(parts, total);
    CancelTotal(Total(parts, Share(total)), |parts|, total);
  }

  lemma CancelTotal(sum: int, n: int, total: int)
    requires total > 0
    requires 2000 * total - total * n < (2 * total) * sum <= 2000 * total + total * n
    ensures 2000 - n < 2 * sum <= 2000 + n
  {
    assert (2 * total) * sum == total * (2 * sum);
    assert 2000 * total + total * n == total * (2000 + n);
    assert 2000 * total - total * n == total * (2000 - n);
    if 2 * sum > 2000 + n {
      ScaleOrder(2000 + n + 1, 2 * sum, total);
      Distribute(total, 2000 + n, 1);
    }
    if 2 * sum <= 2000 - n {
      ScaleOrder(2 * sum, 2000 - n, total);
    }
  }

  // ── the protocol breakdown ─────────────────────────────────────────────

  datatype Entry = Entry(protocol: string, bytesIn: nat, bytesOut: nat, tenths: nat)

  function Bytes(e: Entry): nat {
    e.bytesIn + e.bytesOut
  }

  function BytesOf(e: Entry): int {
    Bytes(e)
  }

  function AllBytes(rows: seq<Entry>): seq<nat> {
    if rows == [] then [] else AllBytes(rows[..|rows| - 1]) + [Bytes(rows[|rows| - 1])]
  }

  lemma {:induction false} AllBytesAt(rows: seq<Entry>)
    ensures |AllBytes(rows)| == |rows|
    ensures forall i :: 0 <= i < |rows| ==> AllBytes(rows)[i] == Bytes(rows[i])
    ensures Total(AllBytes(rows), Itself) == Total(rows, BytesOf)
  {
    if rows != [] {
      AllBytesAt(rows[..|rows| - 1]);
      var c := AllBytes(rows[..|rows| - 1]);
      assert AllBytes(rows)[..|rows| - 1] == c;
    }
  }

  /** The rows come with `percentage` 0; a zero total leaves it there. */
  method WithPercentages(rows: seq<Entry>) returns (entries: seq<Entry>)
    requires forall e :: e in rows ==> e.tenths == 0
    ensures |entries| == |rows|
    ensures Total(rows, BytesOf) >= 0
    ensures forall i :: 0 <= i < |rows| ==>
              entries[i] == rows[i].(tenths := Tenths(rows[i].bytesIn + rows[i].bytesOut, Total(rows, BytesOf)))
  {
    var total: nat := 0;
    for i := 0 to |rows|
      invariant total == Total(rows[..i], BytesOf)
    {
      TotalNext(rows, BytesOf, i);
      total := total + rows[i].bytesIn + rows[i].bytesOut;
    }
    assert rows[..|rows|] == rows;
    entries := rows;
    if total == 0 {
      assert forall i :: 0 <= i < |rows| ==> rows[i] in rows;
      return;
    }
    for i := 0 to |rows|
      invariant |entries| == |rows|
      invariant forall j :: i <= j < |rows| ==> entries[j] == rows[j]
      invariant forall j :: 0 <= j < i ==> entries[j] == rows[j].(tenths := Tenths(Bytes(rows[j]), total))
    {
      entries := entries[i := entries[i].(tenths := Tenths(entries[i].bytesIn + entries[i].bytesOut, total))];
    }
  }

  /** All bytes are those received and those sent. */
  lemma BytesAre(rows: seq<Entry>)
    ensures Total(rows, BytesOf) == Total(rows, (e: Entry) => e.bytesIn + e.bytesOut)
  {
    TotalSame(rows, BytesOf, (e: Entry) => e.bytesIn + e.bytesOut);
  }

  function TenthsOf(e: Entry): int {
    e.tenths
  }

  /** What the loop writes sums to 100 percent within 0.05 per protocol, unless there are no bytes. */
  lemma EntriesSumTo100(rows: seq<Entry>, entries: seq<Entry>)
    requires Total(rows, BytesOf) > 0 && |entries| == |rows|
    requires forall i :: 0 <= i < |rows| ==>
               entries[i] == rows[i].(tenths := Tenths(Bytes(rows[i]), Total(rows, BytesOf)))
    ensures 2000 - |rows| < 2 * Total(entries, TenthsOf) <= 2000 + |rows|
    ensures forall i, j :: 0 <= i < |rows| && 0 <= j < |rows| && Bytes(rows[i]) <= Bytes(rows[j])
              ==> entries[i].tenths <= entries[j].tenths
  {
    AllBytesAt(rows);
    SharesSumTo100(AllBytes(rows));
    SameTotals(entries, AllBytes(rows), Total(rows, BytesOf));
    forall i, j | 0 <= i < |rows| && 0 <= j < |rows| && Bytes(rows[i]) <= Bytes(rows[j])
      ensures entries[i].tenths <= entries[j].tenths
    {
      TenthsMonotone(Bytes(rows[i]), Bytes(rows[j]), Total(rows, BytesOf));
    }
  }

  lemma {:induction false} SameTotals(entries: seq<Entry>, parts: seq<nat>, total: nat)
    requires |entries| == |parts|
    requires forall i :: 0 <= i < |parts| ==> entries[i].tenths == Tenths(parts[i], total)
    ensures Total(entries, TenthsOf) == Total(parts, Share(total))
  {
    if parts != [] {
      SameTotals(entries[..|parts| - 1], parts[..|parts| - 1], total);
    }
  }

  function Busy(e: Entry): int {
    0 - Bytes(e)
  }

  function NameRank(collate: string -> int): Entry -> int {
    (e: Entry) => collate(e.protocol)
  }

  /** Busiest first, equal totals by name in the locale's order. */
  lemma BusiestFirst(entries: seq<Entry>, collate: string -> int)
    ensures multiset(SortByTwo(entries, Busy, NameRank(collate))) == multiset(entries)
    ensures var r := SortByTwo(entries, Busy, NameRank(collate));
            forall i, j :: 0 <= i < j < |r| ==>
              r[i].bytesIn + r[i].bytesOut > r[j].bytesIn + r[j].bytesOut ||
              (r[i].bytesIn + r[i].bytesOut == r[j].bytesIn + r[j].bytesOut && collate(r[i].protocol) <= collate(r[j].protocol))
  {
    SortByTwoSorts(entries, Busy, NameRank(collate));
    var r := SortByTwo(entries, Busy, NameRank(collate));
    forall i, j | 0 <= i < j < |r|
      ensures Bytes(r[i]) > Bytes(r[j]) || (Bytes(r[i]) == Bytes(r[j]) && collate(r[i].protocol) <= collate(r[j].protocol))
    {
      assert Busy(r[i]) <= Busy(r[j]);
      if Busy(r[i]) == Busy(r[j]) {
        assert NameRank(collate)(r[i]) <= NameRank(collate)(r[j]);
      }
    }
  }

  /** And the percentages, rounded shares of one total, descend with the bytes. */
  lemma PercentagesDescend(entries: seq<Entry>, collate: string -> int, total: nat)
    requires forall e :: e in entries ==> e.tenths == Tenths(Bytes(e), total)
    ensures var r := SortByTwo(entries, Busy, NameRank(collate));
            forall i, j :: 0 <= i < j < |r| ==> r[i].tenths >= r[j].tenths
  {
    BusiestFirst(entries, collate);
    var r := SortByTwo(entries, Busy, NameRank(collate));
    forall e | e in r
      ensures e in entries
    {
      assert e in multiset(r);
    }
    forall i, j | 0 <= i < j < |r|
      ensures r[i].tenths >= r[j].tenths
    {
      assert r[i] in r && r[j] in r;
      TenthsMonotone(Bytes(r[j]), Bytes(r[i]), total);
    }
  }

  /** Sorting moves neither the bytes nor the percentages' sum. */
  lemma SortedSums(rows: seq<Entry>, entries: seq<Entry>, collate: string -> int)
    requires |entries| == |rows| && Total(rows, BytesOf) >= 0
    requires forall i :: 0 <= i < |rows| ==>
               entries[i] == rows[i].(tenths := Tenths(rows[i].bytesIn + rows[i].bytesOut, Total(rows, BytesOf)))
    ensures var r := SortByTwo(entries, Busy, NameRank(collate));
            Total(r, BytesOf) == Total(rows, BytesOf) &&
            (Total(rows, BytesOf) > 0 ==> 2000 - |rows| < 2 * Total(r, TenthsOf) <= 2000 + |rows|)
  {
    SortByTwoTotal(entries, Busy, NameRank(collate), BytesOf);
    SortByTwoTotal(entries, Busy, NameRank(collate), TenthsOf);
    SameBytes(rows, entries);
    if Total(rows, BytesOf) > 0 {
      EntriesSumTo100(rows, entries);
    }
  }

  lemma AllShares(rows: seq<Entry>, entries: seq<Entry>)
    requires |entries| == |rows| && Total(rows, BytesOf) >= 0
    requires forall i :: 0 <= i < |rows| ==>
               entries[i] == rows[i].(tenths := Tenths(rows[i].bytesIn + rows[i].bytesOut, Total(rows, BytesOf)))
    ensures forall e :: e in entries ==> e.tenths == Tenths(Bytes(e), Total(rows, BytesOf))
  {
  }

  /** The breakdown of a response: shares, then busiest first. */
  method Breakdown(rows: seq<Entry>, collate: string -> int) returns (protocols: seq<Entry>)
    requires forall e :: e in rows ==> e.tenths == 0
    ensures Total(rows, BytesOf) >= 0 && Total(protocols, BytesOf) == Total(rows, BytesOf)
    ensures forall i, j :: 0 <= i < j < |protocols| ==>
              protocols[i].bytesIn + protocols[i].bytesOut >= protocols[j].bytesIn + protocols[j].bytesOut &&
              protocols[i].tenths >= protocols[j].tenths
    ensures Total(rows, BytesOf) > 0 ==> 2000 - |rows| < 2 * Total(protocols, TenthsOf) <= 2000 + |rows|
  {
    var entries := WithPercentages(rows);
    protocols := SortByTwo(entries, Busy, NameRank(collate));
    BusiestFirst(entries, collate);
    AllShares(rows, entries);
    PercentagesDescend(entries, collate, Total(rows, BytesOf));
    SortedSums(rows, entries, collate);
  }

  lemma {:induction false} SameBytes(rows: seq<Entry>, entries: seq<Entry>)
    requires |entries| == |rows| && forall i :: 0 <= i < |rows| ==> Bytes(entries[i]) == Bytes(rows[i])
    ensures Total(entries, BytesOf) == Total(rows, BytesOf)
  {
    if rows != [] {
      SameBytes(rows[..|rows| - 1], entries[..|rows| - 1]);
    }
  }

  // ── the busiest devices of a protocol, and the rest folded into one ─────

  datatype Device = Device(mac: string, bytesIn: nat, bytesOut: nat)

  function DeviceBytes(d: Device): int {
    d.bytesIn + d.bytesOut
  }

  function DeviceIn(d: Device): int {
    d.bytesIn
  }

  function DeviceOut(d: Device): int {
    d.bytesOut
  }

  datatype Other = Other(deviceCount: nat, bytesIn: int, bytesOut: int, totalBytes: int, tenths: nat)

  datatype TopDevices = TopDevices(totalBytes: int, shown: seq<(Device, nat)>, other: Option<Other>)

  method TopDevicesOf(devices: seq<Device>, limit: nat) returns (r: TopDevices)
    ensures r.totalBytes == Total(devices, DeviceBytes) >= 0
    ensures |r.shown| == if limit < |devices| then limit else |devices|
    ensures forall i :: 0 <= i < |r.shown| ==>
              r.shown[i] == (devices[i], Tenths(devices[i].bytesIn + devices[i].bytesOut, r.totalBytes))
    ensures r.other.None? <==> |devices| <= limit
    ensures r.other.Some? ==>
              var rest := devices[limit..];
              var bytes := Total(rest, DeviceBytes);
              bytes >= 0 &&
              r.other.value == Other(|rest|, Total(rest, DeviceIn), Total(rest, DeviceOut), bytes, Tenths(bytes, r.totalBytes))
  {
    var total := SumBytes(devices);
    var cut := if limit < |devices| then limit else |devices|;
    var shown: seq<(Device, nat)> := [];
    for i := 0 to cut
      invariant |shown| == i
      invariant forall j :: 0 <= j < i ==>
                  shown[j] == (devices[j], Tenths(devices[j].bytesIn + devices[j].bytesOut, total))
    {
      shown := shown + [(devices[i], Tenths(devices[i].bytesIn + devices[i].bytesOut, total))];
    }
    var rest := devices[cut..];
    if |rest| > 0 {
      var bytes := SumBytes(rest);
      r := TopDevices(total, shown,
                      Some(Other(|rest|, Total(rest, DeviceIn), Total(rest, DeviceOut), bytes, Tenths(bytes, total))));
    } else {
      r := TopDevices(total, shown, None);
    }
  }

  method SumBytes(devices: seq<Device>) returns (sum: nat)
    ensures sum == Total(devices, DeviceBytes)
  {
    sum := 0;
    for i := 0 to |devices|
      invariant sum == Total(devices[..i], DeviceBytes)
    {
      TotalNext(devices, DeviceBytes, i);
      sum := sum + devices[i].bytesIn + devices[i].bytesOut;
    }
    assert devices[..|devices|] == devices;
  }

  /** The sums of the rest entry, and of all devices. */
  lemma DeviceTotalsAre(devices: seq<Device>)
    ensures Total(devices, DeviceIn) == Total(devices, (d: Device) => d.bytesIn)
    ensures Total(devices, DeviceOut) == Total(devices, (d: Device) => d.bytesOut)
    ensures Total(devices, DeviceBytes) == Total(devices, (d: Device) => d.bytesIn + d.bytesOut)
  {
    TotalSame(devices, DeviceIn, (d: Device) => d.bytesIn);
    TotalSame(devices, DeviceOut, (d: Device) => d.bytesOut);
    TotalSame(devices, DeviceBytes, (d: Device) => d.bytesIn + d.bytesOut);
  }

  /** The byte counts the answer shows: one per shown device and one for the rest. */
  function ShownBytes(devices: seq<Device>, limit: nat): seq<nat> {
    if |devices| <= limit then DeviceList(devices)
    else DeviceList(devices[..limit]) + [RestBytes(devices[limit..])]
  }

  function DeviceList(devices: seq<Device>): seq<nat> {
    if devices == [] then [] else
    DeviceList(devices[..|devices| - 1]) + [devices[|devices| - 1].bytesIn + devices[|devices| - 1].bytesOut]
  }

  function RestBytes(devices: seq<Device>): nat {
    if devices == [] then 0 else
    RestBytes(devices[..|devices| - 1]) + devices[|devices| - 1].bytesIn + devices[|devices| - 1].bytesOut
  }

  lemma {:induction false} DeviceListAt(devices: seq<Device>)
    ensures |DeviceList(devices)| == |devices|
    ensures forall i :: 0 <= i < |devices| ==> DeviceList(devices)[i] == devices[i].bytesIn + devices[i].bytesOut
  {
    if devices != [] {
      DeviceListAt(devices[..|devices| - 1]);
    }
  }

  lemma {:induction false} DeviceSums(devices: seq<Device>)
    ensures Total(DeviceList(devices), Itself) == Total(devices, DeviceBytes) == RestBytes(devices)
  {
    if devices != [] {
      var c, d := devices[..|devices| - 1], devices[|devices| - 1];
      var bytes: nat := d.bytesIn + d.bytesOut;
      DeviceSums(c);
      TotalConcat(DeviceList(c), [bytes], Itself);
      TotalSingle(bytes, Itself);
    }
  }

  /** The shown devices and the rest hold every byte, and their percentages sum to 100 the same way. */
  lemma TopDevicesSumTo100(devices: seq<Device>, limit: nat)
    requires Total(devices, DeviceBytes) > 0
    ensures Total(ShownBytes(devices, limit), Itself) == Total(devices, DeviceBytes)
    ensures var total: nat := Total(devices, DeviceBytes);
            var n := |ShownBytes(devices, limit)|;
            n == (if |devices| <= limit then |devices| else limit + 1)
            && 2000 - n < 2 * Total(ShownBytes(devices, limit), Share(total)) <= 2000 + n
  {
    DeviceSums(devices);
    DeviceListAt(devices);
    if |devices| > limit {
      ShownSplits(devices, limit);
    }
    SharesSumTo100(ShownBytes(devices, limit));
  }

  lemma ShownSplits(devices: seq<Device>, limit: nat)
    requires |devices| > limit
    ensures Total(ShownBytes(devices, limit), Itself) == Total(devices, DeviceBytes)
    ensures |ShownBytes(devices, limit)| == limit + 1
  {
    var a, b := devices[..limit], devices[limit..];
    assert devices == a + b;
    DeviceListAt(a);
    SplitBytes(a, b);
  }

  lemma SplitBytes(a: seq<Device>, b: seq<Device>)
    ensures Total(DeviceList(a) + [RestBytes(b)], Itself) == Total(a + b, DeviceBytes)
  {
    TotalConcat(a, b, DeviceBytes);
    DeviceSums(a);
    DeviceSums(b);
    TotalConcat(DeviceList(a), [RestBytes(b)], Itself);
    TotalSingle(RestBytes(b), Itself);
  }
}
