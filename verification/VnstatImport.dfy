/** Running the vnstat backfill: the cutoff, the inserts, a crash between two of them, and a second run. */
module VnstatImport {
  import opened Options
  import opened Calendar
  import opened VnstatPlan

  /** The stored buckets by their unique key; times are wall-clock milliseconds of the process zone. */
  datatype BucketKey = BucketKey(collector: nat, mac: string, start: int)

  datatype Bucket = Bucket(bytesIn: nat, bytesOut: nat)

  type Buckets = map<BucketKey, Bucket>

  /** One `INSERT IGNORE`. */
  datatype Insert = Insert(key: BucketKey, bucket: Bucket)

  /** The device the rows are imported for. */
  datatype Device = Device(collector: nat, mac: string)

  function InsertOf(r: Row, d: Device): Insert
    requires Planned(r)
  {
    Insert(BucketKey(d.collector, d.mac, Start(r.date)), Bucket(r.bytesIn, r.bytesOut))
  }

  function Inserts(plan: seq<Row>, d: Device): (s: seq<Insert>)
    requires AllPlanned(plan)
    ensures |s| == |plan| && forall i :: 0 <= i < |s| ==> s[i] == InsertOf(plan[i], d)
  {
    if plan == [] then [] else Inserts(plan[..|plan| - 1], d) + [InsertOf(plan[|plan| - 1], d)]
  }

  function Ignoring(t: Buckets, i: Insert): Buckets {
    if i.key in t then t else t[i.key := i.bucket]
  }

  /** The table after the first `n` inserts. */
  function Inserted(t: Buckets, inserts: seq<Insert>, n: nat): Buckets
    requires n <= |inserts|
  {
    if n == 0 then t else Ignoring(Inserted(t, inserts, n - 1), inserts[n - 1])
  }

  /** The earliest stored bucket of any device, or now for an empty table. */
  ghost predicate IsCutoff(t: Buckets, now: int, cutoff: int) {
    if t == map[] then cutoff == now
    else (exists k :: k in t && k.start == cutoff) && forall k :: k in t ==> cutoff <= k.start
  }

  method FindEarliest(t: Buckets, now: int) returns (cutoff: int)
    ensures IsCutoff(t, now, cutoff)
  {
    if t == map[] {
      return now;
    }
    var first :| first in t;
    cutoff := first.start;
    var rest := t.Keys - {first};
    while rest != {}
      invariant rest <= t.Keys
      invariant exists k :: k in t && k.start == cutoff
      invariant forall k :: k in t && k !in rest ==> cutoff <= k.start
      decreases |rest|
    {
      var k :| k in rest;
      if k.start < cutoff {
        cutoff := k.start;
      }
      rest := rest - {k};
    }
  }

  method MakePlan(months: seq<Entry>, days: seq<Entry>, cutoff: int) returns (plan: seq<Row>)
    requires ProperAll(months, Month) && ProperAll(days, Day)
    ensures plan == Plan(months, days, cutoff)
  {
    var rows := SelectRows(months, days, cutoff);
    plan := SortByText(rows);
  }

  class Database {
    var buckets: Buckets

    /** The insert loop, dying after `survives` statements at the latest; counts the rows that were not ignored. */
    method InsertRows(inserts: seq<Insert>, survives: nat) returns (inserted: nat)
      requires forall n :: 0 <= n < |inserts| ==> inserts[n].key !in Inserted(buckets, inserts, n)
      modifies this
      ensures inserted == (if survives < |inserts| then survives else |inserts|)
      ensures buckets == Inserted(old(buckets), inserts, inserted)
    {
      inserted := 0;
      var n := 0;
      while n < |inserts| && n < survives
        invariant inserted == n <= |inserts| && n <= survives
        invariant buckets == Inserted(old(buckets), inserts, n)
      {
        if inserts[n].key !in buckets {
          buckets := buckets[inserts[n].key := inserts[n].bucket];
          inserted := inserted + 1;
        }
        n := n + 1;
      }
    }

    /** One run of the script. */
    method Backfill(months: seq<Entry>, days: seq<Entry>, now: int, d: Device, survives: nat)
      returns (cutoff: int, inserted: nat)
      requires Records(months, days)
      modifies this
      ensures IsCutoff(old(buckets), now, cutoff)
      ensures AllPlanned(Plan(months, days, cutoff))
      ensures inserted == (if survives < |Plan(months, days, cutoff)| then survives else |Plan(months, days, cutoff)|)
      ensures buckets == Inserted(old(buckets), Inserts(Plan(months, days, cutoff), d), inserted)
    {
      cutoff := FindEarliest(buckets, now);
      var plan := MakePlan(months, days, cutoff);
      FirstIsEarliest(months, days, cutoff);
      forall n | 0 <= n < |plan|
        ensures Inserts(plan, d)[n].key !in Inserted(buckets, Inserts(plan, d), n)
      {
        NothingIsIgnored(buckets, months, days, now, cutoff, n, d);
      }
      inserted := InsertRows(Inserts(plan, d), survives);
    }
  }

  // ── what the inserts do ────────────────────────────────────────────────

  /** The keys stored after `n` inserts; what was stored stays as it was. */
  lemma {:induction false} InsertedKeys(t: Buckets, inserts: seq<Insert>, n: nat, k: BucketKey)
    requires n <= |inserts|
    ensures k in Inserted(t, inserts, n) <==> k in t || exists i :: 0 <= i < n && inserts[i].key == k
    ensures k in t ==> Inserted(t, inserts, n)[k] == t[k]
  {
    if n > 0 {
      InsertedKeys(t, inserts, n - 1, k);
    }
  }

  /** What is stored stays as it is. */
  lemma {:induction false} StaysStored(t: Buckets, inserts: seq<Insert>, a: nat, b: nat, k: BucketKey)
    requires a <= b <= |inserts| && k in Inserted(t, inserts, a)
    ensures k in Inserted(t, inserts, b) && Inserted(t, inserts, b)[k] == Inserted(t, inserts, a)[k]
    decreases b
  {
    if a < b {
      StaysStored(t, inserts, a, b - 1, k);
    }
  }

  lemma Lasts(r: Row)
    requires Planned(r)
    ensures End(r) > Start(r.date)
  {
  }

  /** The plan's starts ascend strictly, from the first one up to below the cutoff. */
  lemma FirstIsEarliest(months: seq<Entry>, days: seq<Entry>, cutoff: int)
    requires Records(months, days)
    ensures AllPlanned(Plan(months, days, cutoff))
    ensures var plan := Plan(months, days, cutoff);
            forall i :: 0 <= i < |plan| ==> Start(plan[0].date) <= Start(plan[i].date) < cutoff
    ensures var plan := Plan(months, days, cutoff);
            forall i, j :: 0 <= i < j < |plan| ==> Start(plan[i].date) < Start(plan[j].date)
  {
    PlanIsDisjoint(months, days, cutoff);
    var plan := Plan(months, days, cutoff);
    forall i, j | 0 <= i < j < |plan|
      ensures Start(plan[i].date) < Start(plan[j].date)
    {
      Lasts(plan[i]);
      assert End(plan[i]) <= Start(plan[j].date);
    }
  }

  /** The stored rows and the planned ones never meet: no insert is ignored. */
  lemma NothingIsIgnored(t: Buckets, months: seq<Entry>, days: seq<Entry>, now: int, cutoff: int, n: nat, d: Device)
    requires Records(months, days) && IsCutoff(t, now, cutoff) && n < |Plan(months, days, cutoff)|
    ensures AllPlanned(Plan(months, days, cutoff))
    ensures var inserts := Inserts(Plan(months, days, cutoff), d);
            inserts[n].key !in Inserted(t, inserts, n)
  {
    FirstIsEarliest(months, days, cutoff);
    var inserts := Inserts(Plan(months, days, cutoff), d);
    InsertedKeys(t, inserts, n, inserts[n].key);
  }

  lemma InsertStores(t: Buckets, inserts: seq<Insert>, i: nat)
    requires i < |inserts| && inserts[i].key !in Inserted(t, inserts, i)
    ensures var after := Inserted(t, inserts, |inserts|);
            inserts[i].key !in t && inserts[i].key in after && after[inserts[i].key] == inserts[i].bucket
  {
    InsertedKeys(t, inserts, i, inserts[i].key);
    assert Inserted(t, inserts, i + 1) == Inserted(t, inserts, i)[inserts[i].key := inserts[i].bucket];
    StaysStored(t, inserts, i + 1, |inserts|, inserts[i].key);
  }

  /** What the inserts find they leave. */
  lemma InsertsKeep(t: Buckets, inserts: seq<Insert>)
    ensures forall k :: k in t ==> k in Inserted(t, inserts, |inserts|) && Inserted(t, inserts, |inserts|)[k] == t[k]
  {
    forall k | k in t
      ensures k in Inserted(t, inserts, |inserts|) && Inserted(t, inserts, |inserts|)[k] == t[k]
    {
      StaysStored(t, inserts, 0, |inserts|, k);
    }
  }

  /** A finished run stores every planned row, for the device, at its start and with its bytes. */
  lemma BackfillStores(t: Buckets, months: seq<Entry>, days: seq<Entry>, now: int, cutoff: int, d: Device, i: nat)
    requires Records(months, days) && IsCutoff(t, now, cutoff) && i < |Plan(months, days, cutoff)|
    ensures AllPlanned(Plan(months, days, cutoff))
    ensures var r, inserts := Plan(months, days, cutoff)[i], Inserts(Plan(months, days, cutoff), d);
            var after, key := Inserted(t, inserts, |inserts|), BucketKey(d.collector, d.mac, Start(r.date));
            key !in t && key in after && after[key] == Bucket(r.bytesIn, r.bytesOut)
  {
    FirstIsEarliest(months, days, cutoff);
    NothingIsIgnored(t, months, days, now, cutoff, i, d);
    InsertStores(t, Inserts(Plan(months, days, cutoff), d), i);
  }

  /** After at least one insert the cutoff of the next run is the start of the first planned row. */
  lemma NextCutoff(t: Buckets, months: seq<Entry>, days: seq<Entry>, now: int, cutoff: int, n: nat, d: Device,
                   later: int, next: int)
    requires Records(months, days) && IsCutoff(t, now, cutoff) && 0 < n <= |Plan(months, days, cutoff)|
    requires AllPlanned(Plan(months, days, cutoff))
    requires IsCutoff(Inserted(t, Inserts(Plan(months, days, cutoff), d), n), later, next)
    ensures next == Start(Plan(months, days, cutoff)[0].date)
  {
    FirstIsEarliest(months, days, cutoff);
    var inserts := Inserts(Plan(months, days, cutoff), d);
    InsertedKeys(t, inserts, n, inserts[0].key);
    assert inserts[0].key in Inserted(t, inserts, n);
    var k :| k in Inserted(t, inserts, n) && k.start == next;
    InsertedKeys(t, inserts, n, k);
  }

  /** Rows the lower cutoff still selects were selected before. */
  lemma LowerCutoffSelectsLess(months: seq<Entry>, days: seq<Entry>, low: int, high: int, r: Row)
    requires Records(months, days) && low <= high && r in Plan(months, days, low)
    ensures r in Plan(months, days, high)
  {
    PlanHolds(months, days, low, r);
    PlanHolds(months, days, high, r);
    if i :| Makes(days, Day, low, i, r) {
      assert Makes(days, Day, high, i, r);
    } else {
      var i :| Makes(months, Month, low, i, r) && MonthKey(months[i]) !in DailyMonths(days);
      assert Makes(months, Month, high, i, r);
    }
  }

  /**
   * A second run on the same vnstat data plans nothing, whether the first one completed or died after at least
   * one insert.
   */
  lemma SecondRunAddsNothing(t: Buckets, months: seq<Entry>, days: seq<Entry>, now: int, cutoff: int, n: nat, d: Device,
                             later: int, next: int)
    requires Records(months, days) && IsCutoff(t, now, cutoff) && 0 < n <= |Plan(months, days, cutoff)|
    requires AllPlanned(Plan(months, days, cutoff))
    requires IsCutoff(Inserted(t, Inserts(Plan(months, days, cutoff), d), n), later, next)
    ensures Plan(months, days, next) == []
  {
    NextCutoff(t, months, days, now, cutoff, n, d, later, next);
    FirstIsEarliest(months, days, cutoff);
    FirstIsEarliest(months, days, next);
    var plan, again := Plan(months, days, cutoff), Plan(months, days, next);
    if again != [] {
      LowerCutoffSelectsLess(months, days, next, cutoff, again[0]);
      assert false;
    }
  }

  ghost predicate AllStored(t: Buckets, inserts: seq<Insert>) {
    forall i :: 0 <= i < |inserts| ==> inserts[i].key in t
  }

  lemma AllInserted(t: Buckets, inserts: seq<Insert>)
    ensures AllStored(Inserted(t, inserts, |inserts|), inserts)
  {
    forall i | 0 <= i < |inserts|
      ensures inserts[i].key in Inserted(t, inserts, |inserts|)
    {
      InsertedKeys(t, inserts, |inserts|, inserts[i].key);
    }
  }

  /** A higher cutoff plans whatever a lower one does, so its run stores those rows too. */
  lemma HigherCutoffStoresAll(t: Buckets, months: seq<Entry>, days: seq<Entry>, low: int, high: int, d: Device)
    requires Records(months, days) && low <= high
    ensures AllPlanned(Plan(months, days, low)) && AllPlanned(Plan(months, days, high))
    ensures var rest := Inserts(Plan(months, days, high), d);
            AllStored(Inserted(t, rest, |rest|), Inserts(Plan(months, days, low), d))
  {
    FirstIsEarliest(months, days, low);
    FirstIsEarliest(months, days, high);
    var plan, all := Plan(months, days, low), Plan(months, days, high);
    var rest := Inserts(all, d);
    AllInserted(t, rest);
    forall i | 0 <= i < |plan|
      ensures InsertOf(plan[i], d).key in Inserted(t, rest, |rest|)
    {
      LowerCutoffSelectsLess(months, days, low, high, plan[i]);
      var j :| 0 <= j < |all| && all[j] == plan[i];
      assert rest[j].key == InsertOf(plan[i], d).key;
    }
  }

  /**
   * After a run that died behind `n` inserts and a re-run that finished, on the same data and no earlier: all rows
   * of the first plan are stored exactly when the first run had inserted none of them, or all.
   */
  lemma CompleteIffNoneOrAll(t: Buckets, months: seq<Entry>, days: seq<Entry>, now: int, cutoff: int, n: nat, d: Device,
                             later: int, next: int)
    requires Records(months, days) && IsCutoff(t, now, cutoff) && n <= |Plan(months, days, cutoff)| && now <= later
    requires AllPlanned(Plan(months, days, cutoff))
    requires IsCutoff(Inserted(t, Inserts(Plan(months, days, cutoff), d), n), later, next)
    ensures AllPlanned(Plan(months, days, next))
    ensures var inserts, rest := Inserts(Plan(months, days, cutoff), d), Inserts(Plan(months, days, next), d);
            AllStored(Inserted(Inserted(t, inserts, n), rest, |rest|), inserts) <==> n == 0 || n == |inserts|
  {
    var inserts := Inserts(Plan(months, days, cutoff), d);
    if n == 0 {
      HigherCutoffStoresAll(t, months, days, cutoff, next, d);
    } else {
      SecondRunAddsNothing(t, months, days, now, cutoff, n, d, later, next);
      if n < |inserts| {
        NothingIsIgnored(t, months, days, now, cutoff, n, d);
        assert inserts[n].key !in Inserted(t, inserts, n);
      } else {
        AllInserted(t, inserts);
      }
    }
  }

  const SECOND := Date(2024, 1, 2)

  const RECORD := Entry(2024, 1, Some(2), 5, 6)

  lemma SortOne(row: Row)
    ensures SortByText([row]) == [row]
  {
    assert [row][..0] == [] && SortByText([]) == [];
  }

  lemma OneDayPlan(cutoff: int)
    requires Start(SECOND) < cutoff
    ensures Proper(StartDate(RECORD, Day)) && Plan([], [RECORD], cutoff) == [ToRow(RECORD, Day)]
  {
    var row := ToRow(RECORD, Day);
    assert SelectMonths([], DailyMonths([RECORD]), cutoff) == [];
    assert [RECORD][..0] == [] && SelectDays([], cutoff) == [];
    assert SelectDays([RECORD], cutoff) == [row];
    assert Selected([], [RECORD], cutoff) == [row];
    SortOne(row);
  }

  /** Native data that begins at noon: the planned row of that day reaches twelve hours into it. */
  lemma DayOfTheCutoffOverlaps()
    ensures var noon := Start(SECOND) + DAY / 2;
            Records([], [RECORD]) && |Plan([], [RECORD], noon)| == 1 &&
            Planned(Plan([], [RECORD], noon)[0]) && End(Plan([], [RECORD], noon)[0]) == noon + DAY / 2
  {
    OneDayPlan(Start(SECOND) + DAY / 2);
  }
}
