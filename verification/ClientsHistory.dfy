/** Distinct Wi-Fi clients per bucket (`clientsHistory`): parts per band and AP, clamped totals. */
module ClientsHistory {
  import opened Options
  import opened Totals
  import opened Groups
  import opened Sorting
  import opened Arith

  /** A row of the parts query; `bucket` is `None` when its start does not convert to a time. */
  datatype Part = Part(bucket: Option<int>, band: Option<string>, apName: Option<string>, count: nat)

  /** A row of the distinct query. */
  datatype Distinct = Distinct(bucket: Option<int>, count: nat)

  datatype Bucket = Bucket(bands: map<string, int>, aps: map<string, int>, total: int)

  function OrElse(name: Option<string>, fallback: string): string {
    if name.None? || name.value == "" then fallback else name.value
  }

  function BandName(p: Part): string {
    OrElse(p.band, "Unknown")
  }

  function ApName(p: Part): string {
    OrElse(p.apName, "Unknown AP")
  }

  function PartBucket(p: Part): Option<int> {
    p.bucket
  }

  function Count(p: Part): int {
    p.count
  }

  function Min(a: int, b: int): int {
    if a <= b then a else b
  }

  // ── specification ──────────────────────────────────────────────────────

  function SumsBy(rows: seq<Part>, name: Part -> string): map<string, int> {
    map x | x in Keys(rows, name) :: GroupTotal(rows, name, Count)(x)
  }

  /** The last distinct row of a bucket: a `Map` keeps the last value set. */
  function DistinctOf(rows: seq<Distinct>, bucket: int): Option<int> {
    if rows == [] then None else
    var r := rows[|rows| - 1];
    if r.bucket == Some(bucket) then Some(r.count) else DistinctOf(rows[..|rows| - 1], bucket)
  }

  function Clamped(sum: int, distinct: Option<int>): int {
    if distinct.None? then sum else Min(sum, distinct.value)
  }

  function MergedBucket(rows: seq<Part>, distinctRows: seq<Distinct>, bucket: int): Bucket {
    var own := Pick(rows, PartBucket, Some(bucket));
    Bucket(SumsBy(own, BandName), SumsBy(own, ApName), Clamped(Total(own, Count), DistinctOf(distinctRows, bucket)))
  }

  function Starts(rows: seq<Part>): set<int> {
    set p | p in rows && p.bucket.Some? :: p.bucket.value
  }

  function Unclamped(rows: seq<Part>, bucket: int): Bucket {
    MergedBucket(rows, [], bucket)
  }

  // ── the handler's loops ────────────────────────────────────────────────

  /** `bands[band] = (bands[band] ?? 0) + count`. */
  function AddTo(m: map<string, int>, key: string, n: int): map<string, int> {
    m[key := (if key in m then m[key] else 0) + n]
  }

  lemma SumAt(rows: seq<Part>, p: Part, name: Part -> string, x: string)
    requires x in SumsBy(rows + [p], name)
    ensures x in AddTo(SumsBy(rows, name), name(p), p.count)
    ensures SumsBy(rows + [p], name)[x] == AddTo(SumsBy(rows, name), name(p), p.count)[x]
  {
    assert (rows + [p])[..|rows|] == rows;
    GroupNext(rows, p, name, Count, x);
    if x !in SumsBy(rows, name) {
      GroupNone(rows, name, Count, x);
    }
  }

  lemma SumsNext(rows: seq<Part>, p: Part, name: Part -> string)
    ensures SumsBy(rows + [p], name) == AddTo(SumsBy(rows, name), name(p), p.count)
  {
    assert (rows + [p])[..|rows|] == rows;
    var added, after := AddTo(SumsBy(rows, name), name(p), p.count), SumsBy(rows + [p], name);
    assert added.Keys == after.Keys;
    forall x | x in after
      ensures after[x] == added[x]
    {
      SumAt(rows, p, name, x);
    }
  }

  lemma PartAdded(rows: seq<Part>, p: Part, bucket: int)
    ensures p.bucket != Some(bucket) ==> Unclamped(rows + [p], bucket) == Unclamped(rows, bucket)
    ensures p.bucket == Some(bucket) ==> Unclamped(rows + [p], bucket) == AddPart(Unclamped(rows, bucket), p)
  {
    assert (rows + [p])[..|rows|] == rows;
    PickNext(rows + [p], PartBucket, Some(bucket), |rows|);
    assert (rows + [p])[..|rows| + 1] == rows + [p];
    if p.bucket == Some(bucket) {
      var own := Pick(rows, PartBucket, Some(bucket));
      SumsNext(own, p, BandName);
      SumsNext(own, p, ApName);
      TotalConcat(own, [p], Count);
      TotalSingle(p, Count);
    }
  }

  lemma NoPart(rows: seq<Part>, bucket: int)
    requires bucket !in Starts(rows)
    ensures Unclamped(rows, bucket) == Bucket(map[], map[], 0)
  {
    PickNone(rows, PartBucket, Some(bucket));
  }

  method CollectDistinct(distinctRows: seq<Distinct>) returns (distinctByBucket: map<int, int>)
    ensures forall b :: b in distinctByBucket <==> DistinctOf(distinctRows, b).Some?
    ensures forall b :: b in distinctByBucket ==> DistinctOf(distinctRows, b) == Some(distinctByBucket[b])
  {
    distinctByBucket := map[];
    for i := 0 to |distinctRows|
      invariant forall b :: b in distinctByBucket <==> DistinctOf(distinctRows[..i], b).Some?
      invariant forall b :: b in distinctByBucket ==> DistinctOf(distinctRows[..i], b) == Some(distinctByBucket[b])
    {
      var row := distinctRows[i];
      assert distinctRows[..i + 1][..i] == distinctRows[..i];
      if row.bucket.Some? {
        distinctByBucket := distinctByBucket[row.bucket.value := row.count];
      }
    }
    assert distinctRows[..|distinctRows|] == distinctRows;
  }

  ghost predicate Collected(rows: seq<Part>, buckets: map<int, Bucket>) {
    buckets.Keys == Starts(rows) && forall b :: b in buckets ==> buckets[b] == Unclamped(rows, b)
  }

  ghost predicate ListsOnce(order: seq<int>, all: set<int>) {
    (forall j, k :: 0 <= j < k < |order| ==> order[j] != order[k]) && forall b :: b in order <==> b in all
  }

  lemma StartsNext(rows: seq<Part>, p: Part)
    ensures Starts(rows + [p]) == Starts(rows) + if p.bucket.Some? then {p.bucket.value} else {}
  {
    forall b: int
      ensures b in Starts(rows + [p]) <==> b in Starts(rows) || p.bucket == Some(b)
    {
      if p.bucket == Some(b) {
        assert p in rows + [p];
      } else if b in Starts(rows) {
        var q :| q in rows && q.bucket == Some(b);
        assert q in rows + [p];
      }
    }
  }

  function AddPart(bucket: Bucket, p: Part): Bucket {
    Bucket(AddTo(bucket.bands, BandName(p), p.count), AddTo(bucket.aps, ApName(p), p.count), bucket.total + p.count)
  }

  lemma PartSkipped(rows: seq<Part>, p: Part, buckets: map<int, Bucket>)
    requires Collected(rows, buckets) && p.bucket.None?
    ensures Collected(rows + [p], buckets)
  {
    StartsNext(rows, p);
    forall b | b in buckets
      ensures buckets[b] == Unclamped(rows + [p], b)
    {
      PartAdded(rows, p, b);
    }
  }

  lemma PartCountedAt(rows: seq<Part>, p: Part, buckets: map<int, Bucket>, at: int)
    requires Collected(rows, buckets) && p.bucket.Some?
    ensures at == p.bucket.value ==>
              Unclamped(rows + [p], at) == AddPart(if at in buckets then buckets[at] else Bucket(map[], map[], 0), p)
    ensures at in buckets && at != p.bucket.value ==> Unclamped(rows + [p], at) == buckets[at]
  {
    PartAdded(rows, p, at);
    if at !in buckets {
      NoPart(rows, at);
    }
  }

  lemma PartCounted(rows: seq<Part>, p: Part, buckets: map<int, Bucket>, after: map<int, Bucket>)
    requires Collected(rows, buckets) && p.bucket.Some?
    requires var b := p.bucket.value;
             after == buckets[b := AddPart(if b in buckets then buckets[b] else Bucket(map[], map[], 0), p)]
    ensures Collected(rows + [p], after)
  {
    StartsNext(rows, p);
    assert after.Keys == Starts(rows + [p]);
    forall c | c in after
      ensures after[c] == Unclamped(rows + [p], c)
    {
      PartCountedAt(rows, p, buckets, c);
    }
  }

  /** One row of the loop. */
  method CollectPart(ghost before: seq<Part>, p: Part, buckets: map<int, Bucket>, order: seq<int>)
    returns (after: map<int, Bucket>, listed: seq<int>)
    requires Collected(before, buckets) && ListsOnce(order, buckets.Keys)
    ensures Collected(before + [p], after) && ListsOnce(listed, after.Keys)
  {
    after, listed := buckets, order;
    if p.bucket.Some? {
      var b := p.bucket.value;
      var bucket := if b in buckets then buckets[b] else Bucket(map[], map[], 0);
      after := buckets[b := AddPart(bucket, p)];
      PartCounted(before, p, buckets, after);
      if b !in buckets {
        listed := order + [b];
      }
    } else {
      PartSkipped(before, p, buckets);
    }
  }

  method CollectParts(rows: seq<Part>) returns (buckets: map<int, Bucket>, order: seq<int>)
    ensures Collected(rows, buckets) && ListsOnce(order, buckets.Keys)
  {
    buckets, order := map[], [];
    for i := 0 to |rows|
      invariant Collected(rows[..i], buckets) && ListsOnce(order, buckets.Keys)
    {
      PrefixNext(rows, i);
      buckets, order := CollectPart(rows[..i], rows[i], buckets, order);
    }
    assert rows[..|rows|] == rows;
  }

  method Clamp(buckets: map<int, Bucket>, order: seq<int>, distinctByBucket: map<int, int>)
    returns (clamped: map<int, Bucket>)
    requires ListsOnce(order, buckets.Keys)
    ensures clamped.Keys == buckets.Keys
    ensures forall b :: b in buckets ==>
              clamped[b] == if b in distinctByBucket
                            then buckets[b].(total := Min(buckets[b].total, distinctByBucket[b]))
                            else buckets[b]
  {
    clamped := buckets;
    assert forall j :: 0 <= j < |order| ==> order[j] in order;
    for i := 0 to |order|
      invariant clamped.Keys == buckets.Keys
      invariant forall j :: i <= j < |order| ==> order[j] in buckets && clamped[order[j]] == buckets[order[j]]
      invariant forall j :: 0 <= j < i ==>
                  order[j] in buckets &&
                  clamped[order[j]] == if order[j] in distinctByBucket
                                       then buckets[order[j]].(total := Min(buckets[order[j]].total, distinctByBucket[order[j]]))
                                       else buckets[order[j]]
    {
      var b := order[i];
      if b in distinctByBucket {
        clamped := clamped[b := clamped[b].(total := Min(clamped[b].total, distinctByBucket[b]))];
      }
    }
  }

  lemma ClampedIsMerged(rows: seq<Part>, distinctRows: seq<Distinct>, bucket: int)
    ensures MergedBucket(rows, distinctRows, bucket)
            == Unclamped(rows, bucket).(total := Clamped(Unclamped(rows, bucket).total, DistinctOf(distinctRows, bucket)))
  {
  }

  /** The bucket series of a request, ascending by time. */
  method MergeHistory(rows: seq<Part>, distinctRows: seq<Distinct>)
    returns (buckets: map<int, Bucket>, series: seq<int>)
    ensures buckets.Keys == Starts(rows)
    ensures forall b :: b in buckets ==> buckets[b] == MergedBucket(rows, distinctRows, b)
    ensures forall i, j :: 0 <= i < j < |series| ==> series[i] < series[j]
    ensures forall b :: b in series <==> exists p :: p in rows && p.bucket == Some(b)
  {
    var distinctByBucket := CollectDistinct(distinctRows);
    var merged, order := CollectParts(rows);
    buckets := Clamp(merged, order, distinctByBucket);
    forall b | b in buckets
      ensures buckets[b] == MergedBucket(rows, distinctRows, b)
    {
      ClampedIsMerged(rows, distinctRows, b);
    }
    series := Sort(order, Identity);
    SortSorts(order, Identity);
    SortedDistinct(order, series);
  }

  function Identity(n: int): int {
    n
  }

  lemma SortedDistinct(order: seq<int>, sorted: seq<int>)
    requires forall j, k :: 0 <= j < k < |order| ==> order[j] != order[k]
    requires multiset(sorted) == multiset(order) && Ascending(sorted, Identity)
    ensures forall i, j :: 0 <= i < j < |sorted| ==> sorted[i] < sorted[j]
    ensures forall b :: b in sorted <==> b in order
  {
    Reordered(order, sorted, Identity);
  }

  // ── the raw path: parts and totals counted from the same snapshots ──────

  datatype Snapshot = Snapshot(at: int, ap: nat, band: Option<string>, mac: string)

  datatype PartKey = PartKey(bucket: int, band: Option<string>, ap: nat)

  function KeyOf(resolution: int): Snapshot -> PartKey
    requires resolution > 0
  {
    (s: Snapshot) => PartKey(s.at / resolution * resolution, s.band, s.ap)
  }

  function SnapshotBucket(resolution: int): Snapshot -> int
    requires resolution > 0
  {
    (s: Snapshot) => s.at / resolution * resolution
  }

  function Macs(s: seq<Snapshot>): set<string> {
    set x | x in s :: x.mac
  }

  function PartRow(snapshots: seq<Snapshot>, resolution: int, names: nat -> Option<string>, k: PartKey): Part
    requires resolution > 0
  {
    Part(Some(k.bucket), k.band, names(k.ap), |Macs(Pick(snapshots, KeyOf(resolution), k))|)
  }

  function PartRows(snapshots: seq<Snapshot>, resolution: int, names: nat -> Option<string>, ks: seq<PartKey>)
    : seq<Part>
    requires resolution > 0
  {
    if ks == [] then [] else
    PartRows(snapshots, resolution, names, ks[..|ks| - 1]) + [PartRow(snapshots, resolution, names, ks[|ks| - 1])]
  }

  /** The parts query: `COUNT(DISTINCT mac)` per bucket, band and AP. */
  function PartsQuery(snapshots: seq<Snapshot>, resolution: int, names: nat -> Option<string>): seq<Part>
    requires resolution > 0
  {
    PartRows(snapshots, resolution, names, Keys(snapshots, KeyOf(resolution)))
  }

  function DistinctRowsOf(snapshots: seq<Snapshot>, resolution: int, buckets: seq<int>): seq<Distinct>
    requires resolution > 0
  {
    if buckets == [] then [] else
    var b := buckets[|buckets| - 1];
    DistinctRowsOf(snapshots, resolution, buckets[..|buckets| - 1])
    + [Distinct(Some(b), |Macs(Pick(snapshots, SnapshotBucket(resolution), b))|)]
  }

  /** The distinct query: `COUNT(DISTINCT mac)` per bucket. */
  function DistinctQuery(snapshots: seq<Snapshot>, resolution: int): seq<Distinct>
    requires resolution > 0
  {
    DistinctRowsOf(snapshots, resolution, Keys(snapshots, SnapshotBucket(resolution)))
  }

  /** The clients of the parts among `ks` that lie in `bucket`. */
  function Union(snapshots: seq<Snapshot>, resolution: int, ks: seq<PartKey>, bucket: int): set<string>
    requires resolution > 0
  {
    if ks == [] then {} else
    var k := ks[|ks| - 1];
    Union(snapshots, resolution, ks[..|ks| - 1], bucket)
    + if k.bucket == bucket then Macs(Pick(snapshots, KeyOf(resolution), k)) else {}
  }

  lemma {:induction false} UnionMembers(snapshots: seq<Snapshot>, resolution: int, ks: seq<PartKey>, bucket: int, mac: string)
    requires resolution > 0
    ensures mac in Union(snapshots, resolution, ks, bucket)
            <==> exists k :: k in ks && k.bucket == bucket && mac in Macs(Pick(snapshots, KeyOf(resolution), k))
  {
    if ks != [] {
      UnionMembers(snapshots, resolution, ks[..|ks| - 1], bucket, mac);
      assert forall k :: k in ks <==> k in ks[..|ks| - 1] || k == ks[|ks| - 1];
    }
  }

  /** Every snapshot of a bucket is in exactly the parts of that bucket. */
  lemma UnionIsBucket(snapshots: seq<Snapshot>, resolution: int, bucket: int)
    requires resolution > 0
    ensures Union(snapshots, resolution, Keys(snapshots, KeyOf(resolution)), bucket)
            == Macs(Pick(snapshots, SnapshotBucket(resolution), bucket))
  {
    var ks := Keys(snapshots, KeyOf(resolution));
    forall mac
      ensures mac in Union(snapshots, resolution, ks, bucket)
              <==> mac in Macs(Pick(snapshots, SnapshotBucket(resolution), bucket))
    {
      UnionMembers(snapshots, resolution, ks, bucket, mac);
      if mac in Macs(Pick(snapshots, SnapshotBucket(resolution), bucket)) {
        var x :| x in Pick(snapshots, SnapshotBucket(resolution), bucket) && x.mac == mac;
        var k := KeyOf(resolution)(x);
        assert k in ks && x in Pick(snapshots, KeyOf(resolution), k);
      }
    }
  }

  predicate Apart(snapshots: seq<Snapshot>, resolution: int, j: PartKey, k: PartKey)
    requires resolution > 0
  {
    Macs(Pick(snapshots, KeyOf(resolution), j)) !! Macs(Pick(snapshots, KeyOf(resolution), k))
  }

  /** No client is in two parts of the bucket. */
  ghost predicate NobodyTwice(snapshots: seq<Snapshot>, resolution: int, ks: seq<PartKey>, bucket: int)
    requires resolution > 0
  {
    forall i, j :: 0 <= i < j < |ks| && ks[i].bucket == bucket && ks[j].bucket == bucket
      ==> Apart(snapshots, resolution, ks[i], ks[j])
  }

  function RowsIn(snapshots: seq<Snapshot>, resolution: int, names: nat -> Option<string>, ks: seq<PartKey>, bucket: int)
    : int
    requires resolution > 0
  {
    Total(Pick(PartRows(snapshots, resolution, names, ks), PartBucket, Some(bucket)), Count)
  }

  lemma RowsInNext(snapshots: seq<Snapshot>, resolution: int, names: nat -> Option<string>, c: seq<PartKey>, k: PartKey,
                   bucket: int)
    requires resolution > 0
    ensures RowsIn(snapshots, resolution, names, c + [k], bucket)
            == RowsIn(snapshots, resolution, names, c, bucket)
               + if k.bucket == bucket then |Macs(Pick(snapshots, KeyOf(resolution), k))| else 0
  {
    assert (c + [k])[..|c|] == c;
    var rows := PartRows(snapshots, resolution, names, c);
    var row := PartRow(snapshots, resolution, names, k);
    assert (rows + [row])[..|rows|] == rows;
    TotalConcat(Pick(rows, PartBucket, Some(bucket)), [row], Count);
    TotalSingle(row, Count);
  }

  lemma SumOfSizes<T>(a: set<T>, b: set<T>)
    ensures |a + b| == |a| + |b| - |a * b|
  {
  }

  /** The union bound, with its equality case. */
  lemma {:induction false} UnionBound(snapshots: seq<Snapshot>, resolution: int, names: nat -> Option<string>,
                                      ks: seq<PartKey>, bucket: int)
    requires resolution > 0
    ensures |Union(snapshots, resolution, ks, bucket)| <= RowsIn(snapshots, resolution, names, ks, bucket)
    ensures |Union(snapshots, resolution, ks, bucket)| == RowsIn(snapshots, resolution, names, ks, bucket)
            <==> NobodyTwice(snapshots, resolution, ks, bucket)
  {
    if ks != [] {
      var c, k := ks[..|ks| - 1], ks[|ks| - 1];
      assert ks == c + [k];
      UnionBound(snapshots, resolution, names, c, bucket);
      RowsInNext(snapshots, resolution, names, c, k, bucket);
      if k.bucket == bucket {
        SumOfSizes(Union(snapshots, resolution, c, bucket), Macs(Pick(snapshots, KeyOf(resolution), k)));
        OneMoreApart(snapshots, resolution, c, k, bucket);
      } else {
        ElsewhereApart(snapshots, resolution, c, k, bucket);
      }
    }
  }

  lemma ElsewhereApart(snapshots: seq<Snapshot>, resolution: int, c: seq<PartKey>, k: PartKey, bucket: int)
    requires resolution > 0 && k.bucket != bucket
    ensures NobodyTwice(snapshots, resolution, c + [k], bucket) <==> NobodyTwice(snapshots, resolution, c, bucket)
  {
    var all := c + [k];
    assert forall i :: 0 <= i < |c| ==> all[i] == c[i];
    if NobodyTwice(snapshots, resolution, all, bucket) {
      forall i, j | 0 <= i < j < |c| && c[i].bucket == bucket && c[j].bucket == bucket
        ensures Apart(snapshots, resolution, c[i], c[j])
      {
        assert all[i].bucket == bucket && all[j].bucket == bucket;
      }
    }
  }

  lemma OneMoreApart(snapshots: seq<Snapshot>, resolution: int, c: seq<PartKey>, k: PartKey, bucket: int)
    requires resolution > 0 && k.bucket == bucket
    ensures NobodyTwice(snapshots, resolution, c + [k], bucket)
            <==> NobodyTwice(snapshots, resolution, c, bucket)
                 && |Union(snapshots, resolution, c, bucket) * Macs(Pick(snapshots, KeyOf(resolution), k))| == 0
  {
    var all := c + [k];
    var a, b := Union(snapshots, resolution, c, bucket), Macs(Pick(snapshots, KeyOf(resolution), k));
    assert forall i :: 0 <= i < |c| ==> all[i] == c[i];
    if NobodyTwice(snapshots, resolution, all, bucket) {
      forall i, j | 0 <= i < j < |c| && c[i].bucket == bucket && c[j].bucket == bucket
        ensures Apart(snapshots, resolution, c[i], c[j])
      {
        assert all[i].bucket == bucket && all[j].bucket == bucket;
      }
      forall mac | mac in a
        ensures mac !in b
      {
        UnionMembers(snapshots, resolution, c, bucket, mac);
        var j :| j in c && j.bucket == bucket && mac in Macs(Pick(snapshots, KeyOf(resolution), j));
        var i :| 0 <= i < |c| && c[i] == j;
        assert all[i] == j && all[|c|] == k;
        assert Apart(snapshots, resolution, all[i], all[|c|]);
      }
      assert a * b == {};
    }
    if NobodyTwice(snapshots, resolution, c, bucket) && |a * b| == 0 {
      forall i, j | 0 <= i < j < |all| && all[i].bucket == bucket && all[j].bucket == bucket
        ensures Apart(snapshots, resolution, all[i], all[j])
      {
        if j == |c| {
          assert all[i] in c;
          forall mac | mac in Macs(Pick(snapshots, KeyOf(resolution), all[i]))
            ensures mac !in b
          {
            UnionMembers(snapshots, resolution, c, bucket, mac);
            assert mac in b ==> mac in a * b;
          }
        } else {
          assert all[i] == c[i] && all[j] == c[j];
        }
      }
    }
  }

  lemma {:induction false} DistinctFound(snapshots: seq<Snapshot>, resolution: int, buckets: seq<int>, bucket: int)
    requires resolution > 0
    ensures DistinctOf(DistinctRowsOf(snapshots, resolution, buckets), bucket)
            == if bucket in buckets then Some(|Macs(Pick(snapshots, SnapshotBucket(resolution), bucket))|) else None
  {
    if buckets != [] {
      var c := buckets[..|buckets| - 1];
      assert buckets == c + [buckets[|buckets| - 1]];
      DistinctFound(snapshots, resolution, c, bucket);
      var rows := DistinctRowsOf(snapshots, resolution, c);
      assert DistinctRowsOf(snapshots, resolution, buckets)[..|rows|] == rows;
    }
  }

  lemma {:induction false} RowOfSnapshot(snapshots: seq<Snapshot>, resolution: int, names: nat -> Option<string>,
                                         ks: seq<PartKey>)
    requires resolution > 0
    ensures |PartRows(snapshots, resolution, names, ks)| == |ks|
    ensures forall i :: 0 <= i < |ks|
              ==> PartRows(snapshots, resolution, names, ks)[i] == PartRow(snapshots, resolution, names, ks[i])
  {
    if ks != [] {
      RowOfSnapshot(snapshots, resolution, names, ks[..|ks| - 1]);
    }
  }

  lemma PartWithin(snapshots: seq<Snapshot>, resolution: int, ks: seq<PartKey>, k: PartKey)
    requires resolution > 0 && k in ks
    ensures |Macs(Pick(snapshots, KeyOf(resolution), k))| <= |Union(snapshots, resolution, ks, k.bucket)|
  {
    var own, all := Macs(Pick(snapshots, KeyOf(resolution), k)), Union(snapshots, resolution, ks, k.bucket);
    forall mac | mac in own
      ensures mac in all
    {
      UnionMembers(snapshots, resolution, ks, k.bucket, mac);
    }
    SubsetSize(own, all);
  }

  lemma BucketSeen(snapshots: seq<Snapshot>, resolution: int, names: nat -> Option<string>, s: Snapshot)
    requires resolution > 0 && s in snapshots
    ensures SnapshotBucket(resolution)(s) in Starts(PartsQuery(snapshots, resolution, names))
  {
    var ks := Keys(snapshots, KeyOf(resolution));
    RowOfSnapshot(snapshots, resolution, names, ks);
    var at :| 0 <= at < |ks| && ks[at] == KeyOf(resolution)(s);
    assert PartsQuery(snapshots, resolution, names)[at] in PartsQuery(snapshots, resolution, names);
  }

  /** The distinct clients of a bucket. */
  function Clients(snapshots: seq<Snapshot>, resolution: int, bucket: int): nat
    requires resolution > 0
  {
    |Macs(Pick(snapshots, SnapshotBucket(resolution), bucket))|
  }

  /**
   * On the raw path the clamped total of every bucket is the exact number of distinct clients, and
   * at least every part; the parts alone sum to it exactly when no client is in two of them.
   */
  lemma RawTotalExact(snapshots: seq<Snapshot>, resolution: int, names: nat -> Option<string>, bucket: int)
    requires resolution > 0
    requires exists s :: s in snapshots && SnapshotBucket(resolution)(s) == bucket
    ensures bucket in Starts(PartsQuery(snapshots, resolution, names))
    ensures MergedBucket(PartsQuery(snapshots, resolution, names), DistinctQuery(snapshots, resolution), bucket).total
            == Clients(snapshots, resolution, bucket)
    ensures forall p :: p in PartsQuery(snapshots, resolution, names) && p.bucket == Some(bucket)
              ==> p.count <= Clients(snapshots, resolution, bucket)
    ensures Unclamped(PartsQuery(snapshots, resolution, names), bucket).total == Clients(snapshots, resolution, bucket)
            <==> NobodyTwice(snapshots, resolution, Keys(snapshots, KeyOf(resolution)), bucket)
  {
    var s :| s in snapshots && SnapshotBucket(resolution)(s) == bucket;
    BucketSeen(snapshots, resolution, names, s);
    TotalIsClients(snapshots, resolution, names, bucket);
    forall p | p in PartsQuery(snapshots, resolution, names) && p.bucket == Some(bucket)
      ensures p.count <= Clients(snapshots, resolution, bucket)
    {
      PartAtMost(snapshots, resolution, names, p);
    }
  }

  lemma PartAtMost(snapshots: seq<Snapshot>, resolution: int, names: nat -> Option<string>, p: Part)
    requires resolution > 0
    requires p in PartsQuery(snapshots, resolution, names) && p.bucket.Some?
    ensures p.count <= Clients(snapshots, resolution, p.bucket.value)
  {
    var ks := Keys(snapshots, KeyOf(resolution));
    RowOfSnapshot(snapshots, resolution, names, ks);
    var i :| 0 <= i < |ks| && PartRow(snapshots, resolution, names, ks[i]) == p;
    PartWithin(snapshots, resolution, ks, ks[i]);
    UnionIsBucket(snapshots, resolution, p.bucket.value);
  }

  lemma TotalIsClients(snapshots: seq<Snapshot>, resolution: int, names: nat -> Option<string>, bucket: int)
    requires resolution > 0
    requires exists s :: s in snapshots && SnapshotBucket(resolution)(s) == bucket
    ensures MergedBucket(PartsQuery(snapshots, resolution, names), DistinctQuery(snapshots, resolution), bucket).total
            == Clients(snapshots, resolution, bucket)
    ensures Unclamped(PartsQuery(snapshots, resolution, names), bucket).total == Clients(snapshots, resolution, bucket)
            <==> NobodyTwice(snapshots, resolution, Keys(snapshots, KeyOf(resolution)), bucket)
  {
    UnionIsBucket(snapshots, resolution, bucket);
    UnionBound(snapshots, resolution, names, Keys(snapshots, KeyOf(resolution)), bucket);
    DistinctFound(snapshots, resolution, Keys(snapshots, SnapshotBucket(resolution)), bucket);
  }

  lemma {:induction false} SubsetSize<T(!new)>(a: set<T>, b: set<T>)
    requires a <= b
    ensures |a| <= |b|
  {
    assert b == a + (b - a);
    assert |a + (b - a)| == |a| + |b - a|;
  }

  function ValueIn(m: map<string, int>): string -> int {
    (k: string) => if k in m then m[k] else 0
  }

  /** Bands and APs split the same sum, which the clamped total never exceeds. */
  lemma PartsConserve(rows: seq<Part>, distinctRows: seq<Distinct>, bucket: int)
    ensures var b := MergedBucket(rows, distinctRows, bucket);
            var own := Pick(rows, PartBucket, Some(bucket));
            Total(Keys(own, BandName), ValueIn(b.bands)) == Total(own, Count)
            && Total(Keys(own, ApName), ValueIn(b.aps)) == Total(own, Count)
            && b.total <= Total(own, Count)
  {
    var b := MergedBucket(rows, distinctRows, bucket);
    var own := Pick(rows, PartBucket, Some(bucket));
    Partition(own, BandName, Count);
    Partition(own, ApName, Count);
    TotalSame(Keys(own, BandName), ValueIn(b.bands), GroupTotal(own, BandName, Count));
    TotalSame(Keys(own, ApName), ValueIn(b.aps), GroupTotal(own, ApName, Count));
  }

  // ── what a bucket of the answer holds ──────────────────────────────────

  predicate IsLastOf(rows: seq<Distinct>, bucket: int, i: nat)
    requires i < |rows|
  {
    rows[i].bucket == Some(bucket) && forall j :: i < j < |rows| ==> rows[j].bucket != Some(bucket)
  }

  /** The distinct count of a bucket is that of its last row. */
  lemma {:induction false} LastDistinctCounts(rows: seq<Distinct>, bucket: int)
    ensures DistinctOf(rows, bucket).None? <==> forall r :: r in rows ==> r.bucket != Some(bucket)
    ensures forall i :: 0 <= i < |rows| && IsLastOf(rows, bucket, i) ==> DistinctOf(rows, bucket) == Some(rows[i].count)
  {
    if rows != [] {
      var c := rows[..|rows| - 1];
      assert rows == c + [rows[|rows| - 1]];
      LastDistinctCounts(c, bucket);
      forall i | 0 <= i < |rows| - 1 && IsLastOf(rows, bucket, i)
        ensures DistinctOf(rows, bucket) == Some(rows[i].count)
      {
        assert IsLastOf(c, bucket, i);
      }
    }
  }

  /** A sum by name within a bucket, read off all rows. */
  lemma SumIs(rows: seq<Part>, bucket: int, name: Part -> string, x: string, f: Part -> int)
    requires forall p: Part :: f(p) == if p.bucket == Some(bucket) && name(p) == x then p.count else 0
    ensures var own := Pick(rows, PartBucket, Some(bucket));
            (x in SumsBy(own, name) <==> exists p :: p in rows && p.bucket == Some(bucket) && name(p) == x) &&
            (x in SumsBy(own, name) ==> SumsBy(own, name)[x] == Total(rows, f))
  {
    var own := Pick(rows, PartBucket, Some(bucket));
    GroupWithinIs(rows, PartBucket, Some(bucket), name, x, Count, f);
    if x in Keys(own, name) {
      var p := KeyOwner(own, name, x);
    }
  }

  /** A band's count: of the bucket's parts in that band, those of no band under `Unknown`. */
  lemma BandIs(rows: seq<Part>, distinctRows: seq<Distinct>, bucket: int, x: string)
    ensures var bands := MergedBucket(rows, distinctRows, bucket).bands;
            x in bands <==> exists p :: p in rows && p.bucket == Some(bucket) &&
                                        x == if p.band.Some? && p.band.value != "" then p.band.value else "Unknown"
    ensures var bands := MergedBucket(rows, distinctRows, bucket).bands;
            x in bands ==> bands[x] == Total(rows, (p: Part) =>
              if p.bucket == Some(bucket) && x == (if p.band.Some? && p.band.value != "" then p.band.value else "Unknown")
              then p.count else 0)
  {
    SumIs(rows, bucket, BandName, x, (p: Part) =>
      if p.bucket == Some(bucket) && x == (if p.band.Some? && p.band.value != "" then p.band.value else "Unknown")
      then p.count else 0);
  }

  /** An access point's count, those without a name under `Unknown AP`. */
  lemma ApIs(rows: seq<Part>, distinctRows: seq<Distinct>, bucket: int, x: string)
    ensures var aps := MergedBucket(rows, distinctRows, bucket).aps;
            x in aps <==> exists p :: p in rows && p.bucket == Some(bucket) &&
                                      x == if p.apName.Some? && p.apName.value != "" then p.apName.value else "Unknown AP"
    ensures var aps := MergedBucket(rows, distinctRows, bucket).aps;
            x in aps ==> aps[x] == Total(rows, (p: Part) =>
              if p.bucket == Some(bucket) && x == (if p.apName.Some? && p.apName.value != "" then p.apName.value else "Unknown AP")
              then p.count else 0)
  {
    SumIs(rows, bucket, ApName, x, (p: Part) =>
      if p.bucket == Some(bucket) && x == (if p.apName.Some? && p.apName.value != "" then p.apName.value else "Unknown AP")
      then p.count else 0);
  }

  /** The total: the sum of the bucket's parts, or its distinct count where that is smaller. */
  lemma TotalIs(rows: seq<Part>, distinctRows: seq<Distinct>, bucket: int)
    ensures var total, sum := MergedBucket(rows, distinctRows, bucket).total,
                              Total(rows, (p: Part) => if p.bucket == Some(bucket) then p.count else 0);
            match DistinctOf(distinctRows, bucket)
            case None => total == sum
            case Some(n) => total <= sum && total <= n && (total == sum || total == n)
  {
    GroupTotalIs(rows, PartBucket, Count, Some(bucket), (p: Part) => if p.bucket == Some(bucket) then p.count else 0);
  }

  /** The distinct clients of a bucket are those seen between its start and the next one's. */
  lemma ClientsAre(snapshots: seq<Snapshot>, resolution: int, bucket: int)
    requires resolution > 0 && bucket % resolution == 0
    ensures Clients(snapshots, resolution, bucket)
            == |set s | s in snapshots && bucket <= s.at < bucket + resolution :: s.mac|
  {
    forall s: Snapshot
      ensures SnapshotBucket(resolution)(s) == bucket <==> bucket <= s.at < bucket + resolution
    {
      FloorIs(s.at, resolution, bucket);
    }
    assert Macs(Pick(snapshots, SnapshotBucket(resolution), bucket))
        == set s | s in snapshots && bucket <= s.at < bucket + resolution :: s.mac;
  }

  /** The clients seen in a bucket on one band of one access point. */
  function SeenIn(snapshots: seq<Snapshot>, resolution: int, bucket: int, band: Option<string>, ap: nat): set<string> {
    set s | s in snapshots && bucket <= s.at < bucket + resolution && s.band == band && s.ap == ap :: s.mac
  }

  lemma MacsAre(snapshots: seq<Snapshot>, resolution: int, k: PartKey)
    requires resolution > 0 && k.bucket % resolution == 0
    ensures Macs(Pick(snapshots, KeyOf(resolution), k)) == SeenIn(snapshots, resolution, k.bucket, k.band, k.ap)
  {
    forall s: Snapshot
      ensures s.at / resolution * resolution == k.bucket <==> k.bucket <= s.at < k.bucket + resolution
    {
      FloorIs(s.at, resolution, k.bucket);
    }
  }

  lemma KeyListed(snapshots: seq<Snapshot>, resolution: int, k: PartKey)
    requires resolution > 0 && k.bucket % resolution == 0
    requires SeenIn(snapshots, resolution, k.bucket, k.band, k.ap) != {}
    ensures k in Keys(snapshots, KeyOf(resolution))
  {
    var s :| s in snapshots && k.bucket <= s.at < k.bucket + resolution && s.band == k.band && s.ap == k.ap;
    FloorIs(s.at, resolution, k.bucket);
    assert KeyOf(resolution)(s) == k;
  }

  /** The parts query has a row for every bucket, band and access point with a snapshot, and counts its clients. */
  lemma PartListed(snapshots: seq<Snapshot>, resolution: int, names: nat -> Option<string>, bucket: int,
                   band: Option<string>, ap: nat)
    requires resolution > 0 && bucket % resolution == 0 && SeenIn(snapshots, resolution, bucket, band, ap) != {}
    ensures Part(Some(bucket), band, names(ap), |SeenIn(snapshots, resolution, bucket, band, ap)|)
            in PartsQuery(snapshots, resolution, names)
  {
    var ks, k := Keys(snapshots, KeyOf(resolution)), PartKey(bucket, band, ap);
    KeyListed(snapshots, resolution, k);
    MacsAre(snapshots, resolution, k);
    RowOfSnapshot(snapshots, resolution, names, ks);
    var i :| 0 <= i < |ks| && ks[i] == k;
    assert PartsQuery(snapshots, resolution, names)[i] == PartRow(snapshots, resolution, names, k);
  }

  /** And it has no other rows. */
  lemma OnlySeenListed(snapshots: seq<Snapshot>, resolution: int, names: nat -> Option<string>, p: Part)
    returns (bucket: int, ap: nat)
    requires resolution > 0 && p in PartsQuery(snapshots, resolution, names)
    ensures bucket % resolution == 0 && SeenIn(snapshots, resolution, bucket, p.band, ap) != {}
    ensures p == Part(Some(bucket), p.band, names(ap), |SeenIn(snapshots, resolution, bucket, p.band, ap)|)
  {
    var ks := Keys(snapshots, KeyOf(resolution));
    RowOfSnapshot(snapshots, resolution, names, ks);
    var i :| 0 <= i < |ks| && p == PartRow(snapshots, resolution, names, ks[i]);
    var s := KeyOwner(snapshots, KeyOf(resolution), ks[i]);
    bucket, ap := ks[i].bucket, ks[i].ap;
    FloorIs(s.at, resolution, bucket);
    MacsAre(snapshots, resolution, ks[i]);
    assert s.mac in SeenIn(snapshots, resolution, bucket, p.band, ap);
  }
}
