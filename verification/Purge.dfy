/** `collectors:purge`: batched deletes under lock contention, concurrent writers, crashes and re-runs. */
module Purge {
  import opened Options

  /** The tables with a cascading foreign key to the collectors, the fifteen the command sweeps first. */
  datatype Table =
    | ProtocolRaw | TrafficRaw | Protocol5m | Traffic5m | ProtocolHourly | TrafficHourly | ProtocolDaily | TrafficDaily
    | PeerHourly | ServiceRaw | Service5m | ServiceHourly | DestinationHourly | TopPeers | Identities
    | GatewayHosts | GatewayObservations | UpnpMappings | UpnpEvents | GatewayBackups | UpdateDevices | RolloutDevices

  const CHILD_TABLES: seq<Table> :=
    [ProtocolRaw, TrafficRaw, Protocol5m, Traffic5m, ProtocolHourly, TrafficHourly, ProtocolDaily, TrafficDaily,
     PeerHourly, ServiceRaw, Service5m, ServiceHourly, DestinationHourly, TopPeers, Identities]

  const BATCH_SIZE := 50000

  const LOCK_RETRIES := 3

  const MAX_GRACE_SECONDS := 60

  datatype Row = Row(collector: nat, key: nat)

  type Rows = map<Table, set<Row>>

  datatype Collector = Collector(enabled: bool, pollIntervalSeconds: int)

  /** How the database answers a statement. */
  datatype Answer = Done(limitHonoured: bool) | LockContention | OtherError

  /**
   * One step of the run: the rows others write meanwhile, with the time of each, and how the database answers.
   * The first step is the wait for a running poll, which has no answer to heed; every later one is a statement.
   */
  datatype Event = Event(written: map<Table, map<Row, int>>, answer: Answer)

  function Own(rows: set<Row>, id: nat): set<Row> {
    set r | r in rows && r.collector == id
  }

  function Others(rows: set<Row>, id: nat): set<Row> {
    set r | r in rows && r.collector != id
  }

  /** The rows a step adds to a table. */
  function Landing(e: Event, t: Table): set<Row> {
    if t in e.written then e.written[t].Keys else {}
  }

  function Landed(rows: Rows, e: Event): Rows {
    map t | t in rows :: rows[t] + Landing(e, t)
  }

  /** The rows written between two points of the run. */
  function Arrived(events: seq<Event>, t: Table, first: nat, last: nat): set<Row>
    requires first <= last <= |events|
    decreases last
  {
    if first == last then {} else Arrived(events, t, first, last - 1) + Landing(events[last - 1], t)
  }

  lemma {:induction false} ArrivedSplit(events: seq<Event>, t: Table, a: nat, b: nat, c: nat)
    requires a <= b <= c <= |events|
    ensures Arrived(events, t, a, c) == Arrived(events, t, a, b) + Arrived(events, t, b, c)
    decreases c
  {
    if b < c {
      ArrivedSplit(events, t, a, b, c - 1);
    }
  }

  /** From a step on, no row of the collector is written any more. */
  ghost predicate Quiet(events: seq<Event>, id: nat, since: nat) {
    forall i, t :: since <= i < |events| ==> Own(Landing(events[i], t), id) == {}
  }

  lemma {:induction false} QuietArrivals(events: seq<Event>, t: Table, id: nat, first: nat, last: nat)
    requires Quiet(events, id, first) && first <= last <= |events|
    ensures Own(Arrived(events, t, first, last), id) == {}
    decreases last
  {
    if first < last {
      QuietArrivals(events, t, id, first, last - 1);
      assert Own(Landing(events[last - 1], t), id) == {};
    }
  }

  /** The poll that was running ends with the wait: the collector's own rows are all written by then. */
  ghost predicate PollOver(events: seq<Event>, id: nat, end: int) {
    (forall i, t, r :: 1 <= i < |events| && r in Landing(events[i], t) ==> events[i].written[t][r] > end) &&
    forall i, t, r :: 0 <= i < |events| && r in Landing(events[i], t) && r.collector == id ==> events[i].written[t][r] <= end
  }

  /** A poll that ends within the wait writes nothing behind the sweep, however much it wrote during the wait. */
  lemma GraceMakesQuiet(events: seq<Event>, id: nat, end: int)
    requires PollOver(events, id, end)
    ensures Quiet(events, id, 1)
  {
    forall i, t | 1 <= i < |events|
      ensures Own(Landing(events[i], t), id) == {}
    {
      assert forall r :: r in Landing(events[i], t) ==> r.collector != id;
    }
  }

  /** Every statement from a step on succeeds. */
  predicate AllDone(events: seq<Event>, since: nat) {
    forall i :: since <= i < |events| ==> events[i].answer.Done?
  }

  /** How a batch ends: after which event, and whether it deleted, threw, or the process died first. */
  datatype Ending = Deleted | Threw | Died

  function BatchEnding(events: seq<Event>, step: nat, attempt: nat): (Ending, nat)
    requires step <= |events| && 1 <= attempt <= LOCK_RETRIES
    decreases LOCK_RETRIES - attempt
  {
    if step == |events| then (Died, step) else
    match events[step].answer
    case Done(_) => (Deleted, step + 1)
    case OtherError => (Threw, step + 1)
    case LockContention =>
      if attempt == LOCK_RETRIES then (Threw, step + 1) else BatchEnding(events, step + 1, attempt + 1)
  }

  /**
   * Sweeping table `t` between two points of the run: other tables only gain what was written, and of `t` only
   * rows of the collector are gone.
   */
  ghost predicate Carried(before: Rows, after: Rows, t: Table, events: seq<Event>, id: nat, first: nat, last: nat)
    requires first <= last <= |events|
  {
    (forall u: Table :: u in before && u in after) &&
    (forall u: Table :: u != t ==> after[u] == before[u] + Arrived(events, u, first, last)) &&
    Others(after[t], id) == Others(before[t] + Arrived(events, t, first, last), id) &&
    Own(after[t], id) <= Own(before[t] + Arrived(events, t, first, last), id)
  }

  lemma CarriedOn(x: Rows, y: Rows, z: Rows, t: Table, events: seq<Event>, id: nat, a: nat, b: nat, c: nat)
    requires a <= b <= c <= |events|
    requires Carried(x, y, t, events, id, a, b) && Carried(y, z, t, events, id, b, c)
    ensures Carried(x, z, t, events, id, a, c)
  {
    forall u: Table
      ensures Arrived(events, u, a, c) == Arrived(events, u, a, b) + Arrived(events, u, b, c)
    {
      ArrivedSplit(events, u, a, b, c);
    }
    forall u: Table | u != t
      ensures z[u] == x[u] + Arrived(events, u, a, c)
    {
      assert y[u] == x[u] + Arrived(events, u, a, b);
    }
    var w := x[t] + Arrived(events, t, a, c);
    assert Others(z[t], id) == Others(w, id) by {
      assert Others(z[t], id) == Others(y[t], id) + Others(Arrived(events, t, b, c), id);
    }
    forall r | r in Own(z[t], id)
      ensures r in w
    {
      assert r in Own(y[t], id) || r in Arrived(events, t, b, c);
    }
  }

  datatype Outcome = NoId | NoCollector | Failed | Crashed | Finished(total: nat)

  class Database {
    var rows: Rows
    var collectors: map<nat, Collector>
    var clock: int
    /** How many rows the delete statements have removed. */
    ghost var removed: nat

    ghost predicate Valid()
      reads this
    {
      forall t: Table :: t in rows
    }

    constructor (rows: Rows, collectors: map<nat, Collector>)
      requires forall t: Table :: t in rows
      ensures Valid() && this.rows == rows && this.collectors == collectors
    {
      this.rows, this.collectors, clock, removed := rows, collectors, 0, 0;
    }

    /** One statement: what was written before it, then a delete of at most a batch, or a rollback. */
    method Statement(t: Table, events: seq<Event>, id: nat, step: nat) returns (n: nat)
      requires Valid() && step < |events|
      modifies this`rows, this`removed
      ensures Valid()
      ensures forall u: Table :: u != t ==> rows[u] == old(rows[u]) + Landing(events[step], u)
      ensures Others(rows[t], id) == Others(old(rows[t]) + Landing(events[step], t), id)
      ensures Own(rows[t], id) <= Own(old(rows[t]) + Landing(events[step], t), id)
      ensures !events[step].answer.Done? ==> n == 0 && rows[t] == old(rows[t]) + Landing(events[step], t)
      ensures events[step].answer.Done? && n < BATCH_SIZE ==> Own(rows[t], id) == {}
      ensures n == |Own(old(rows[t]) + Landing(events[step], t), id)| - |Own(rows[t], id)|
      ensures removed == old(removed) + n
    {
      var before := rows[t] + Landing(events[step], t);
      rows := map u: Table | u in rows :: rows[u] + Landing(events[step], u);
      n := 0;
      if events[step].answer.Done? {
        var gone := Own(before, id);
        if events[step].answer.limitHonoured {
          gone := TakeAny(gone, BATCH_SIZE);
        }
        n := |gone|;
        rows := rows[t := before - gone];
        DeleteOwn(before, gone, id);
      }
      removed := removed + n;
    }

    /** A statement, as its table's sweep sees it. */
    method Attempt(t: Table, events: seq<Event>, id: nat, step: nat) returns (n: nat)
      requires Valid() && step < |events|
      modifies this`rows, this`removed
      ensures Valid() && Carried(old(rows), rows, t, events, id, step, step + 1)
      ensures events[step].answer.Done? && n < BATCH_SIZE ==> Own(rows[t], id) == {}
      ensures !events[step].answer.Done? ==> n == 0
      ensures removed == old(removed) + n
      ensures Quiet(events, id, step) ==> n == |Own(old(rows[t]), id)| - |Own(rows[t], id)|
    {
      n := Statement(t, events, id, step);
      StatementCarries(old(rows), rows, t, events, id, step);
      QuietStatement(old(rows), t, events, id, step);
    }

    /** One batch: up to three attempts while the lock is contended; any other error is thrown. */
    method DeleteBatch(t: Table, events: seq<Event>, id: nat, start: nat)
      returns (ending: Ending, n: nat, step: nat)
      requires Valid() && start <= |events|
      modifies this`rows, this`removed
      ensures Valid() && start <= step <= |events| && (ending, step) == BatchEnding(events, start, 1)
      ensures Carried(old(rows), rows, t, events, id, start, step)
      ensures ending.Deleted? ==> step > start && (n < BATCH_SIZE ==> Own(rows[t], id) == {})
      ensures !ending.Deleted? ==> n == 0
      ensures removed == old(removed) + n
      ensures Quiet(events, id, start) ==> n == |Own(old(rows[t]), id)| - |Own(rows[t], id)|
    {
      step, n := start, 0;
      var attempt := 1;
      CarriedNothing(rows, t, events, id, start);
      while step < |events|
        invariant 1 <= attempt <= LOCK_RETRIES && start <= step <= |events| && n == 0 && Valid()
        invariant BatchEnding(events, start, 1) == BatchEnding(events, step, attempt)
        invariant Carried(old(rows), rows, t, events, id, start, step)
        invariant removed == old(removed)
        invariant Quiet(events, id, start) ==> |Own(rows[t], id)| == |Own(old(rows[t]), id)|
        decreases |events| - step
      {
        ghost var before := rows;
        n := Attempt(t, events, id, step);
        CarriedOn(old(rows), before, rows, t, events, id, start, step, step + 1);
        step := step + 1;
        match events[step - 1].answer {
          case Done(_) => return Deleted, n, step;
          case OtherError => return Threw, n, step;
          case LockContention =>
            if attempt >= LOCK_RETRIES {
              return Threw, n, step;
            }
        }
        attempt := attempt + 1;
      }
      ending := Died;
    }

    /**
     * A whole table: batches until one comes back short. With nothing in its way it takes at most one statement
     * per full batch and one more, whether or not the limit is honoured.
     */
    method PurgeTable(t: Table, events: seq<Event>, id: nat, start: nat)
      returns (ending: Ending, deleted: nat, step: nat)
      requires Valid() && start <= |events|
      modifies this`rows, this`removed
      ensures Valid() && start <= step <= |events|
      ensures Carried(old(rows), rows, t, events, id, start, step)
      ensures ending.Deleted? ==> step > start && Own(rows[t], id) == {}
      ensures removed == old(removed) + deleted
      ensures Quiet(events, id, start) ==> deleted == |Own(old(rows[t]), id)| - |Own(rows[t], id)|
      ensures ending.Died? ==> step == |events|
      ensures Undisturbed(events, id, start, Statements(old(rows[t]), id)) ==>
                ending.Deleted? && step <= start + Statements(old(rows[t]), id)
    {
      step, deleted := start, 0;
      CarriedNothing(rows, t, events, id, start);
      while true
        invariant start <= step <= |events| && Valid()
        invariant Carried(old(rows), rows, t, events, id, start, step)
        invariant removed == old(removed) + deleted
        invariant Quiet(events, id, start) ==> deleted == |Own(old(rows[t]), id)| - |Own(rows[t], id)|
        invariant AllDone(events, start) ==> BATCH_SIZE * (step - start) <= deleted
        decreases |events| - step
      {
        ghost var before, since := rows, step;
        var n;
        ending, n, step := DeleteBatch(t, events, id, step);
        CarriedOn(old(rows), before, rows, t, events, id, start, since, step);
        deleted := deleted + n;
        if !ending.Deleted? || n < BATCH_SIZE {
          BatchDies(events, since, 1);
          return;
        }
      }
    }

    /** The next child table, as the sweep goes. */
    method SweepNext(events: seq<Event>, id: nat, i: nat, since: nat, ghost origin: Rows, ghost swept: map<Table, nat>)
      returns (ending: Ending, deleted: nat, step: nat)
      requires Valid() && i < |CHILD_TABLES| && 0 < since <= |events| && Sweeping(origin, rows, i, swept, events, id, since)
      modifies this`rows, this`removed
      ensures Valid() && since <= step <= |events| && removed == old(removed) + deleted
      ensures OthersKept(origin, rows, events, id, step)
      ensures ending.Deleted? ==> Sweeping(origin, rows, i + 1, swept[CHILD_TABLES[i] := step], events, id, step)
      ensures Due(events, id, since, old(rows[CHILD_TABLES[i]]), ending, deleted, step)
    {
      ghost var before := rows;
      ending, deleted, step := PurgeTable(CHILD_TABLES[i], events, id, since);
      OthersNext(origin, before, rows, CHILD_TABLES[i], events, id, since, step);
      if ending.Deleted? {
        SweptNext(origin, before, rows, i, swept, events, id, since, step);
      }
    }

    /** The sweep of all child tables; `swept` are the points at which each of them was clear. */
    method Sweep(events: seq<Event>, id: nat, start: nat, ghost origin: Rows)
      returns (ending: Ending, total: nat, step: nat, ghost swept: map<Table, nat>)
      requires Valid() && 0 < start <= |events| && Sweeping(origin, rows, 0, map[], events, id, start)
      modifies this`rows, this`removed
      ensures Valid() && start <= step <= |events| && removed == old(removed) + total
      ensures OthersKept(origin, rows, events, id, step)
      ensures ending.Deleted? ==> Sweeping(origin, rows, |CHILD_TABLES|, swept, events, id, step)
      ensures ending.Deleted? ==> OnPace(old(rows), events, id, start, |CHILD_TABLES|, step, total)
      ensures !ending.Deleted? ==> !Undisturbed(events, id, start, StatementsInChildren(old(rows), id, |CHILD_TABLES|))
    {
      ending, total, step, swept := Deleted, 0, start, map[];
      ghost var begin := rows;
      for i := 0 to |CHILD_TABLES|
        invariant Valid() && start <= step <= |events| && removed == old(removed) + total
        invariant Sweeping(origin, rows, i, swept, events, id, step)
        invariant OnPace(begin, events, id, start, i, step, total)
        invariant ending == Deleted
      {
        ghost var before, since, sofar := rows, step, total;
        var deleted;
        ending, deleted, step := SweepNext(events, id, i, step, origin, swept);
        total := total + deleted;
        QuietSwept(origin, begin, before, i, swept, events, id, start, since);
        PaceNext(begin, before, events, id, start, i, since, sofar, ending, deleted, step);
        if !ending.Deleted? {
          return;
        }
        swept := swept[CHILD_TABLES[i] := step];
      }
    }

    /** The dry run: one count per child table. */
    method CountChildren(id: nat) returns (total: nat)
      requires Valid()
      ensures total == OwnInChildren(rows, id, |CHILD_TABLES|)
    {
      total := 0;
      for i := 0 to |CHILD_TABLES|
        invariant total == OwnInChildren(rows, id, i)
      {
        total := total + |Own(rows[CHILD_TABLES[i]], id)|;
      }
    }

    /** Takes the collector out of service and waits for a running poll, which may still write, or dies waiting. */
    method Quiesce(id: nat, grace: Option<int>, events: seq<Event>) returns (alive: bool)
      requires Valid() && id in collectors
      modifies this`rows, this`collectors, this`clock
      ensures Valid() && collectors == old(collectors)[id := old(collectors[id]).(enabled := false)]
      ensures var asked := if grace.Some? then grace.value else old(collectors[id]).pollIntervalSeconds;
              clock == old(clock) + if asked <= 0 then 0 else if asked <= 60 then asked else 60
      ensures alive <==> events != []
      ensures rows == if alive then Landed(old(rows), events[0]) else old(rows)
    {
      var c := collectors[id];
      if c.enabled {
        c := c.(enabled := false);
        collectors := collectors[id := c];
      }
      var seconds := if grace.Some? then grace.value else c.pollIntervalSeconds;
      if seconds > MAX_GRACE_SECONDS {
        seconds := MAX_GRACE_SECONDS;
      }
      if seconds > 0 {
        clock := clock + seconds;
      }
      alive := events != [];
      if alive {
        rows := Landed(rows, events[0]);
      }
    }

    /** Deletes the collector's row; the foreign keys take whatever still refers to it. */
    method DeleteCollector(e: Event, id: nat) returns (done: bool, ghost leftover: Rows)
      requires Valid() && id in collectors
      modifies this`rows, this`collectors
      ensures Valid() && (done <==> e.answer.Done?)
      ensures !done ==> collectors == old(collectors) && rows == Landed(old(rows), e)
      ensures done ==> collectors == old(collectors) - {id}
      ensures done ==> rows == OthersOf(Landed(old(rows), e), id) && leftover == OwnOf(Landed(old(rows), e), id)
    {
      rows := Landed(rows, e);
      leftover := map[];
      done := e.answer.Done?;
      if done {
        leftover := OwnOf(rows, id);
        rows := OthersOf(rows, id);
        collectors := collectors - {id};
      }
    }

    /** The final delete, seen from before the wait. */
    method Finish(events: seq<Event>, id: nat, step: nat, ghost origin: Rows, ghost swept: map<Table, nat>)
      returns (done: bool, next: nat, ghost leftover: Rows)
      requires Valid() && step < |events| && id in collectors
      requires Sweeping(origin, rows, |CHILD_TABLES|, swept, events, id, step)
      modifies this`rows, this`collectors
      ensures Valid() && next == step + 1 && (done <==> events[step].answer.Done?)
      ensures OthersKept(origin, rows, events, id, next)
      ensures !done ==> collectors == old(collectors)
      ensures done ==> collectors == old(collectors) - {id} && Purged(origin, rows, events, id, next)
      ensures done ==> Leftover(origin, leftover, swept, events, id, next)
    {
      next := step + 1;
      ghost var full := Landed(rows, events[step]);
      LandedKeeps(origin, rows, events, id, step);
      LandedSwept(origin, rows, |CHILD_TABLES|, swept, events, id, step);
      OthersTwice(origin, full, events, id, next);
      LeftoverIs(origin, full, swept, events, id, next);
      done, leftover := DeleteCollector(events[step], id);
    }

    /** Sweep and final delete, after the wait. */
    method Remove(events: seq<Event>, id: nat, ghost origin: Rows)
      returns (outcome: Outcome, step: nat, ghost leftover: Rows, ghost swept: map<Table, nat>)
      requires Valid() && id in collectors && events != [] && Sweeping(origin, rows, 0, map[], events, id, 1)
      modifies this`rows, this`collectors, this`removed
      ensures Valid() && step <= |events| && (outcome.Failed? || outcome.Crashed? || outcome.Finished?)
      ensures OthersKept(origin, rows, events, id, step)
      ensures !outcome.Finished? ==> collectors == old(collectors)
      ensures outcome.Finished? ==>
                collectors == old(collectors) - {id} && outcome.total == removed - old(removed) &&
                Purged(origin, rows, events, id, step) && Leftover(origin, leftover, swept, events, id, step) &&
                (Quiet(events, id, 1) ==> outcome.total == OwnInChildren(old(rows), id, |CHILD_TABLES|))
      ensures Undisturbed(events, id, 1, StatementsInChildren(old(rows), id, |CHILD_TABLES|) + 1) ==> outcome.Finished?
    {
      leftover := map[];
      var ending, total;
      ending, total, step, swept := Sweep(events, id, 1, origin);
      assert AllDone(events, 1) && step < |events| ==> events[step].answer.Done?;
      if ending.Threw? {
        return Failed, step, leftover, swept;
      }
      if ending.Died? || step == |events| {
        return Crashed, step, leftover, swept;
      }
      var done;
      done, step, leftover := Finish(events, id, step, origin, swept);
      outcome := if done then Finished(total) else Failed;
    }

    /** Everything after the wait, seen from before it. */
    method RemoveAfterWait(events: seq<Event>, id: nat, ghost origin: Rows)
      returns (outcome: Outcome, step: nat, ghost leftover: Rows, ghost swept: map<Table, nat>)
      requires Valid() && id in collectors && events != [] && AllTables(origin) && rows == Landed(origin, events[0])
      modifies this`rows, this`collectors, this`removed
      ensures Valid() && step <= |events| && (outcome.Failed? || outcome.Crashed? || outcome.Finished?)
      ensures OthersKept(origin, rows, events, id, step)
      ensures !outcome.Finished? ==> collectors == old(collectors)
      ensures outcome.Finished? ==>
                collectors == old(collectors) - {id} && outcome.total == removed - old(removed) &&
                Purged(origin, rows, events, id, step) && Leftover(origin, leftover, swept, events, id, step) &&
                (PollOver(events, id, clock) ==> ExactlyPurged(old(rows), leftover, outcome.total, id))
      ensures PollOver(events, id, clock) && NothingFails(old(rows), events, id) ==> outcome.Finished?
    {
      ghost var waited := rows;
      WaitLands(origin, events, id);
      outcome, step, leftover, swept := Remove(events, id, origin);
      PollResult(origin, waited, leftover, swept, events, id, step, clock, outcome);
    }

    /** A run for a collector that exists: quiesce, then remove. */
    method Execute(id: nat, grace: Option<int>, events: seq<Event>)
      returns (outcome: Outcome, step: nat, ghost leftover: Rows, ghost swept: map<Table, nat>)
      requires Valid() && id in collectors
      modifies this
      ensures Valid() && step <= |events| && (outcome.Failed? || outcome.Crashed? || outcome.Finished?)
      ensures var asked := if grace.Some? then grace.value else old(collectors[id]).pollIntervalSeconds;
              clock == old(clock) + if asked <= 0 then 0 else if asked <= 60 then asked else 60
      ensures OthersKept(old(rows), rows, events, id, step)
      ensures !outcome.Finished? ==> collectors == old(collectors)[id := old(collectors[id]).(enabled := false)]
      ensures outcome.Finished? ==>
                collectors == old(collectors) - {id} && outcome.total == removed - old(removed) && events != [] &&
                Purged(old(rows), rows, events, id, step) && Leftover(old(rows), leftover, swept, events, id, step) &&
                (PollOver(events, id, clock) ==> ExactlyPurged(Landed(old(rows), events[0]), leftover, outcome.total, id))
      ensures events != [] && PollOver(events, id, clock) && NothingFails(Landed(old(rows), events[0]), events, id) ==>
                outcome.Finished?
    {
      ghost var origin := rows;
      var alive := Quiesce(id, grace, events);
      if !alive {
        NothingArrived(origin, events, id);
        outcome, step, leftover, swept := Crashed, 0, map[], map[];
      } else {
        outcome, step, leftover, swept := RemoveAfterWait(events, id, origin);
      }
    }

    /**
     * The command. `leftover` is what the final delete's cascade still found. A run that does not finish
     * leaves the collector in place, disabled, with no row of any other collector missing. When the poll that
     * was running ends with the wait, the run takes exactly the rows there were after it; and it finishes if
     * no statement fails and it is not killed.
     */
    method Run(id: Option<nat>, dryRun: bool, grace: Option<int>, events: seq<Event>)
      returns (outcome: Outcome, step: nat, ghost leftover: Rows, ghost swept: map<Table, nat>)
      requires Valid()
      modifies this
      ensures Valid() && step <= |events|
      ensures outcome.NoId? <==> id.None?
      ensures outcome.NoCollector? <==> id.Some? && id.value !in old(collectors)
      ensures dryRun || outcome.NoId? || outcome.NoCollector? ==>
                rows == old(rows) && collectors == old(collectors) && removed == old(removed)
      ensures dryRun && id.Some? && id.value in old(collectors) ==>
                outcome == Finished(OwnInChildren(old(rows), id.value, |CHILD_TABLES|))
      ensures !dryRun && id.Some? && id.value in old(collectors) ==>
                OthersKept(old(rows), rows, events, id.value, step) &&
                var asked := if grace.Some? then grace.value else old(collectors[id.value]).pollIntervalSeconds;
                clock == old(clock) + if asked <= 0 then 0 else if asked <= 60 then asked else 60
      ensures outcome.Failed? || outcome.Crashed? ==>
                id.Some? && id.value in old(collectors) &&
                collectors == old(collectors)[id.value := old(collectors[id.value]).(enabled := false)]
      ensures !dryRun && outcome.Finished? ==>
                collectors == old(collectors) - {id.value} && outcome.total == removed - old(removed) && events != [] &&
                Purged(old(rows), rows, events, id.value, step) &&
                Leftover(old(rows), leftover, swept, events, id.value, step) &&
                (PollOver(events, id.value, clock) ==>
                   ExactlyPurged(Landed(old(rows), events[0]), leftover, outcome.total, id.value))
      ensures !dryRun && outcome.Finished? && grace.None? && 0 <= old(collectors[id.value]).pollIntervalSeconds <= 60 &&
              PollOver(events, id.value, old(clock) + old(collectors[id.value]).pollIntervalSeconds) ==>
                ExactlyPurged(Landed(old(rows), events[0]), leftover, outcome.total, id.value)
      ensures !dryRun && id.Some? && id.value in old(collectors) && events != [] && PollOver(events, id.value, clock) ==>
                (NothingFails(Landed(old(rows), events[0]), events, id.value) ==> outcome.Finished?)
    {
      step, leftover, swept := 0, map[], map[];
      if id.None? {
        return NoId, step, leftover, swept;
      }
      if id.value !in collectors {
        return NoCollector, step, leftover, swept;
      }
      if dryRun {
        var count := CountChildren(id.value);
        return Finished(count), step, leftover, swept;
      }
      outcome, step, leftover, swept := Execute(id.value, grace, events);
    }
  }

  /** Deleting own rows leaves the others alone. */
  lemma DeleteOwn(rows: set<Row>, gone: set<Row>, id: nat)
    requires gone <= Own(rows, id)
    ensures Others(rows - gone, id) == Others(rows, id)
    ensures Own(rows - gone, id) == Own(rows, id) - gone
    ensures |Own(rows - gone, id)| == |Own(rows, id)| - |gone|
    ensures gone == Own(rows, id) ==> Own(rows - gone, id) == {}
  {
    assert Own(rows - gone, id) == Own(rows, id) - gone;
    assert |Own(rows, id) - gone| == |Own(rows, id)| - |gone|;
  }

  lemma StatementCarries(before: Rows, after: Rows, t: Table, events: seq<Event>, id: nat, step: nat)
    requires step < |events| && (forall u: Table :: u in before && u in after)
    requires forall u: Table :: u != t ==> after[u] == before[u] + Landing(events[step], u)
    requires Others(after[t], id) == Others(before[t] + Landing(events[step], t), id)
    requires Own(after[t], id) <= Own(before[t] + Landing(events[step], t), id)
    ensures Carried(before, after, t, events, id, step, step + 1)
  {
    forall u: Table
      ensures Arrived(events, u, step, step + 1) == Landing(events[step], u)
    {
      assert Arrived(events, u, step, step) == {};
    }
  }

  lemma CarriedNothing(rows: Rows, t: Table, events: seq<Event>, id: nat, step: nat)
    requires step <= |events| && forall u: Table :: u in rows
    ensures Carried(rows, rows, t, events, id, step, step)
  {
    forall u: Table
      ensures rows[u] + Arrived(events, u, step, step) == rows[u]
    {
      assert Arrived(events, u, step, step) == {};
    }
  }

  lemma QuietStatement(before: Rows, t: Table, events: seq<Event>, id: nat, step: nat)
    requires step < |events| && t in before
    ensures Quiet(events, id, step) ==> Own(before[t] + Landing(events[step], t), id) == Own(before[t], id)
  {
    var landing := Landing(events[step], t);
    assert Own(before[t] + landing, id) == Own(before[t], id) + Own(landing, id);
  }

  lemma {:induction false} BatchDies(events: seq<Event>, step: nat, attempt: nat)
    requires step <= |events| && 1 <= attempt <= LOCK_RETRIES
    ensures BatchEnding(events, step, attempt).0.Died? ==> BatchEnding(events, step, attempt).1 == |events|
    decreases LOCK_RETRIES - attempt
  {
    if step < |events| && events[step].answer.LockContention? && attempt < LOCK_RETRIES {
      BatchDies(events, step + 1, attempt + 1);
    }
  }

  method TakeAny(s: set<Row>, limit: nat) returns (taken: set<Row>)
    ensures taken <= s && |taken| <= limit && (|taken| < limit ==> taken == s)
  {
    taken := {};
    while |taken| < limit && taken != s
      invariant taken <= s && |taken| <= limit
      decreases |s| - |taken|
    {
      assert s - taken != {};
      var r :| r in s - taken;
      assert |s - taken| == |s| - |taken|;
      taken := taken + {r};
    }
  }

  // ── what a sweep leaves ────────────────────────────────────────────────

  lemma ChildrenDistinct(i: nat, j: nat)
    requires i < j < |CHILD_TABLES|
    ensures CHILD_TABLES[i] != CHILD_TABLES[j]
  {
  }

  /** Rows of the collector in the first `n` child tables. */
  function OwnInChildren(rows: Rows, id: nat, n: nat): nat
    requires n <= |CHILD_TABLES| && forall t: Table :: t in rows
  {
    if n == 0 then 0 else OwnInChildren(rows, id, n - 1) + |Own(rows[CHILD_TABLES[n - 1]], id)|
  }

  /** Delete statements that clear a table: one per full batch, and the one that comes back short. */
  function Statements(rows: set<Row>, id: nat): nat {
    |Own(rows, id)| / BATCH_SIZE + 1
  }

  function StatementsInChildren(rows: Rows, id: nat, n: nat): nat
    requires n <= |CHILD_TABLES| && forall t: Table :: t in rows
  {
    if n == 0 then 0 else StatementsInChildren(rows, id, n - 1) + Statements(rows[CHILD_TABLES[n - 1]], id)
  }

  lemma {:induction false} StatementsFit(rows: Rows, id: nat, n: nat)
    requires n <= |CHILD_TABLES| && forall t: Table :: t in rows
    ensures StatementsInChildren(rows, id, n) <= StatementsInChildren(rows, id, |CHILD_TABLES|)
    decreases |CHILD_TABLES| - n
  {
    if n < |CHILD_TABLES| {
      StatementsFit(rows, id, n + 1);
    }
  }

  /** From a step on, no row of the collector is written, no statement fails and `needed` of them can be made. */
  ghost predicate Undisturbed(events: seq<Event>, id: nat, since: nat, needed: nat) {
    Quiet(events, id, since) && AllDone(events, since) && since + needed <= |events|
  }

  /** While the collector is quiet the sweep counts what there was, and while nothing fails it needs no more than due. */
  ghost predicate OnPace(begin: Rows, events: seq<Event>, id: nat, start: nat, i: nat, step: nat, total: nat)
    requires AllTables(begin) && i <= |CHILD_TABLES|
  {
    (Quiet(events, id, start) ==> total == OwnInChildren(begin, id, i)) &&
    (Undisturbed(events, id, start, StatementsInChildren(begin, id, |CHILD_TABLES|)) ==>
       step <= start + StatementsInChildren(begin, id, i))
  }

  /** What a table's sweep makes of a quiet collector, and of an undisturbed run. */
  ghost predicate Due(events: seq<Event>, id: nat, since: nat, before: set<Row>, ending: Ending, deleted: nat, step: nat) {
    (ending.Deleted? && Quiet(events, id, since) ==> deleted == |Own(before, id)|) &&
    (Undisturbed(events, id, since, Statements(before, id)) ==> ending.Deleted? && step <= since + Statements(before, id))
  }

  lemma PaceNext(begin: Rows, before: Rows, events: seq<Event>, id: nat, start: nat, i: nat, since: nat, total: nat,
                 ending: Ending, deleted: nat, step: nat)
    requires AllTables(begin) && AllTables(before) && i < |CHILD_TABLES| && start <= since
    requires Quiet(events, id, start) ==> Own(before[CHILD_TABLES[i]], id) == Own(begin[CHILD_TABLES[i]], id)
    requires OnPace(begin, events, id, start, i, since, total)
    requires Due(events, id, since, before[CHILD_TABLES[i]], ending, deleted, step)
    ensures ending.Deleted? ==> OnPace(begin, events, id, start, i + 1, step, total + deleted)
    ensures !ending.Deleted? ==> !Undisturbed(events, id, start, StatementsInChildren(begin, id, |CHILD_TABLES|))
  {
    StatementsFit(begin, id, i + 1);
    if Quiet(events, id, start) {
      assert Quiet(events, id, since);
      if Undisturbed(events, id, start, StatementsInChildren(begin, id, |CHILD_TABLES|)) {
        assert AllDone(events, since);
        assert Undisturbed(events, id, since, Statements(before[CHILD_TABLES[i]], id));
      }
    }
  }

  /** No statement fails and the process lives to make the deletes of every table and of the collector. */
  ghost predicate NothingFails(waited: Rows, events: seq<Event>, id: nat)
    requires forall t: Table :: t in waited
  {
    AllDone(events, 1) && 1 + StatementsInChildren(waited, id, |CHILD_TABLES|) + 1 <= |events|
  }

  ghost predicate AllTables(rows: Rows) {
    forall t: Table :: t in rows
  }

  /** The tables with what is written to them between two points of the run. */
  function Accrued(rows: Rows, events: seq<Event>, first: nat, last: nat): Rows
    requires first <= last <= |events|
  {
    map t | t in rows :: rows[t] + Arrived(events, t, first, last)
  }

  function OthersOf(rows: Rows, id: nat): Rows {
    map t | t in rows :: Others(rows[t], id)
  }

  /** Every row of another collector is still there, and what others wrote has been added. */
  ghost predicate OthersKept(before: Rows, after: Rows, events: seq<Event>, id: nat, step: nat)
    requires step <= |events|
  {
    AllTables(before) && AllTables(after) && OthersOf(after, id) == OthersOf(Accrued(before, events, 0, step), id)
  }

  lemma KeptAt(before: Rows, after: Rows, events: seq<Event>, id: nat, step: nat, t: Table)
    requires step <= |events| && OthersKept(before, after, events, id, step)
    ensures t in before && t in after && Others(after[t], id) == Others(before[t] + Arrived(events, t, 0, step), id)
  {
    assert OthersOf(after, id)[t] == OthersOf(Accrued(before, events, 0, step), id)[t];
  }

  lemma KeptEverywhere(before: Rows, after: Rows, events: seq<Event>, id: nat, step: nat)
    requires step <= |events| && AllTables(before) && AllTables(after)
    requires forall t: Table :: Others(after[t], id) == Others(before[t] + Arrived(events, t, 0, step), id)
    ensures OthersKept(before, after, events, id, step)
  {
    assert OthersOf(after, id) == OthersOf(Accrued(before, events, 0, step), id);
  }

  /** A swept table holds of the collector only what was written after its sweep; the others are untouched. */
  ghost predicate Swept(before: Rows, after: Rows, n: nat, swept: map<Table, nat>, events: seq<Event>, id: nat, step: nat)
    requires n <= |CHILD_TABLES| && step <= |events|
  {
    AllTables(before) && AllTables(after) && (forall t: Table :: t in swept <==> t in CHILD_TABLES[..n]) &&
    forall t: Table :: SweptAt(before, after, swept, events, id, step, t)
  }

  ghost predicate SweptAt(before: Rows, after: Rows, swept: map<Table, nat>, events: seq<Event>, id: nat, step: nat, t: Table)
    requires step <= |events| && t in before && t in after
  {
    if t in swept then 1 <= swept[t] <= step && Own(after[t], id) == Own(Arrived(events, t, swept[t], step), id)
    else after[t] == before[t] + Arrived(events, t, 0, step)
  }

  ghost predicate Sweeping(before: Rows, after: Rows, n: nat, swept: map<Table, nat>, events: seq<Event>, id: nat, step: nat)
    requires n <= |CHILD_TABLES| && step <= |events|
  {
    Swept(before, after, n, swept, events, id, step) && OthersKept(before, after, events, id, step)
  }

  /** Before the first statement the tables have only gained what was written during the wait. */
  lemma WaitLands(origin: Rows, events: seq<Event>, id: nat)
    requires events != [] && forall t: Table :: t in origin
    ensures Sweeping(origin, Landed(origin, events[0]), 0, map[], events, id, 1)
  {
    forall t: Table
      ensures Arrived(events, t, 0, 1) == Landing(events[0], t)
    {
      assert Arrived(events, t, 0, 0) == {};
    }
    KeptEverywhere(origin, Landed(origin, events[0]), events, id, 1);
  }

  lemma NothingArrived(rows: Rows, events: seq<Event>, id: nat)
    requires forall t: Table :: t in rows
    ensures OthersKept(rows, rows, events, id, 0)
  {
    forall t: Table
      ensures rows[t] + Arrived(events, t, 0, 0) == rows[t]
    {
    }
    KeptEverywhere(rows, rows, events, id, 0);
  }

  lemma OwnUnion(a: set<Row>, b: set<Row>, id: nat)
    ensures Own(a + b, id) == Own(a, id) + Own(b, id)
    ensures Others(a + b, id) == Others(a, id) + Others(b, id)
  {
  }

  lemma SweptNext(start: Rows, before: Rows, after: Rows, i: nat, swept: map<Table, nat>, events: seq<Event>, id: nat,
                  a: nat, b: nat)
    requires i < |CHILD_TABLES| && a <= b <= |events| && b > 0
    requires Swept(start, before, i, swept, events, id, a)
    requires Carried(before, after, CHILD_TABLES[i], events, id, a, b)
    requires Own(after[CHILD_TABLES[i]], id) == {}
    ensures Swept(start, after, i + 1, swept[CHILD_TABLES[i] := b], events, id, b)
  {
    var swept' := swept[CHILD_TABLES[i] := b];
    assert CHILD_TABLES[..i + 1] == CHILD_TABLES[..i] + [CHILD_TABLES[i]];
    forall t: Table
      ensures SweptAt(start, after, swept', events, id, b, t)
    {
      assert SweptAt(start, before, swept, events, id, a, t);
      if t == CHILD_TABLES[i] {
        assert Arrived(events, t, b, b) == {};
      } else if t in swept {
        LateRows(before[t], after[t], t, events, id, swept[t], a, b);
      } else {
        ArrivedSplit(events, t, 0, a, b);
      }
    }
  }

  lemma LateRows(before: set<Row>, after: set<Row>, t: Table, events: seq<Event>, id: nat, since: nat, a: nat, b: nat)
    requires since <= a <= b <= |events|
    requires Own(before, id) == Own(Arrived(events, t, since, a), id)
    requires after == before + Arrived(events, t, a, b)
    ensures Own(after, id) == Own(Arrived(events, t, since, b), id)
  {
    ArrivedSplit(events, t, since, a, b);
    OwnUnion(before, Arrived(events, t, a, b), id);
    OwnUnion(Arrived(events, t, since, a), Arrived(events, t, a, b), id);
  }

  lemma OthersNext(start: Rows, before: Rows, after: Rows, t: Table, events: seq<Event>, id: nat, a: nat, b: nat)
    requires a <= b <= |events|
    requires OthersKept(start, before, events, id, a) && Carried(before, after, t, events, id, a, b)
    ensures OthersKept(start, after, events, id, b)
  {
    forall u: Table
      ensures Others(after[u], id) == Others(start[u] + Arrived(events, u, 0, b), id)
    {
      KeptAt(start, before, events, id, a, u);
      ArrivedSplit(events, u, 0, a, b);
      OthersGrow(start[u], before[u], after[u], Arrived(events, u, 0, a), Arrived(events, u, a, b), id);
    }
    KeptEverywhere(start, after, events, id, b);
  }

  lemma OthersGrow(start: set<Row>, before: set<Row>, after: set<Row>, x: set<Row>, y: set<Row>, id: nat)
    requires Others(before, id) == Others(start + x, id) && Others(after, id) == Others(before + y, id)
    ensures Others(after, id) == Others(start + (x + y), id)
  {
    OwnUnion(before, y, id);
    OwnUnion(start + x, y, id);
    assert start + (x + y) == (start + x) + y;
  }

  /** Before its sweep a table still holds exactly the collector's rows it had when the sweep began. */
  lemma QuietSwept(origin: Rows, start: Rows, before: Rows, i: nat, swept: map<Table, nat>, events: seq<Event>, id: nat,
                   first: nat, step: nat)
    requires i < |CHILD_TABLES| && first <= step <= |events| && Swept(origin, before, i, swept, events, id, step)
    requires Swept(origin, start, 0, map[], events, id, first)
    ensures Quiet(events, id, first) ==> Own(before[CHILD_TABLES[i]], id) == Own(start[CHILD_TABLES[i]], id)
    ensures Quiet(events, id, first) ==> Quiet(events, id, step)
  {
    var t := CHILD_TABLES[i];
    NotYetSwept(i);
    assert SweptAt(origin, before, swept, events, id, step, t) && SweptAt(origin, start, map[], events, id, first, t);
    if Quiet(events, id, first) {
      QuietArrivals(events, t, id, first, step);
      ArrivedSplit(events, t, 0, first, step);
      OwnUnion(start[t], Arrived(events, t, first, step), id);
      assert before[t] == start[t] + Arrived(events, t, first, step);
    }
  }

  lemma NotYetSwept(i: nat)
    requires i < |CHILD_TABLES|
    ensures CHILD_TABLES[i] !in CHILD_TABLES[..i] && CHILD_TABLES[i] !in CHILD_TABLES[..0]
  {
    forall j | 0 <= j < i
      ensures CHILD_TABLES[j] != CHILD_TABLES[i]
    {
      ChildrenDistinct(j, i);
    }
  }

  lemma LandedKeeps(start: Rows, before: Rows, events: seq<Event>, id: nat, step: nat)
    requires step < |events| && OthersKept(start, before, events, id, step)
    ensures OthersKept(start, Landed(before, events[step]), events, id, step + 1)
  {
    var after := Landed(before, events[step]);
    forall t: Table
      ensures Others(after[t], id) == Others(start[t] + Arrived(events, t, 0, step + 1), id)
    {
      KeptAt(start, before, events, id, step, t);
      OthersGrow(start[t], before[t], after[t], Arrived(events, t, 0, step), Landing(events[step], t), id);
    }
    KeptEverywhere(start, after, events, id, step + 1);
  }

  lemma LandedSwept(start: Rows, before: Rows, n: nat, swept: map<Table, nat>, events: seq<Event>, id: nat, step: nat)
    requires step < |events| && n <= |CHILD_TABLES| && Swept(start, before, n, swept, events, id, step)
    ensures Swept(start, Landed(before, events[step]), n, swept, events, id, step + 1)
  {
    var after, next := Landed(before, events[step]), step + 1;
    forall t: Table
      ensures SweptAt(start, after, swept, events, id, next, t)
    {
      assert SweptAt(start, before, swept, events, id, step, t);
      OwnUnion(before[t], Landing(events[step], t), id);
      if t in swept {
        OwnUnion(Arrived(events, t, swept[t], step), Landing(events[step], t), id);
      } else {
        assert after[t] == start[t] + Arrived(events, t, 0, step) + Landing(events[step], t);
      }
    }
  }

  /** After a finished run every table holds exactly the rows of the others. */
  ghost predicate Purged(before: Rows, after: Rows, events: seq<Event>, id: nat, step: nat)
    requires step <= |events|
  {
    AllTables(before) && AllTables(after) && after == OthersOf(Accrued(before, events, 0, step), id)
  }

  lemma OthersTwice(start: Rows, full: Rows, events: seq<Event>, id: nat, step: nat)
    requires step <= |events| && OthersKept(start, full, events, id, step)
    ensures Purged(start, OthersOf(full, id), events, id, step)
    ensures OthersKept(start, OthersOf(full, id), events, id, step)
  {
    forall t: Table
      ensures Others(OthersOf(full, id)[t], id) == Others(full[t], id)
    {
    }
    assert OthersOf(OthersOf(full, id), id) == OthersOf(full, id);
  }

  function OwnOf(rows: Rows, id: nat): Rows {
    map t | t in rows :: Own(rows[t], id)
  }

  /** What the cascade finds: late rows in the swept tables, everything in the tables the sweep does not know. */
  function LeftoverOf(before: Rows, swept: map<Table, nat>, events: seq<Event>, id: nat, step: nat): Rows
    requires step <= |events| && forall t :: t in swept ==> swept[t] <= step
  {
    map t | t in before ::
      Own(if t in swept then Arrived(events, t, swept[t], step) else before[t] + Arrived(events, t, 0, step), id)
  }

  /** The points at which the listed tables were clear: after the wait, and within the run. */
  ghost predicate SweptPoints(swept: map<Table, nat>, step: nat) {
    (forall t: Table :: t in swept <==> t in CHILD_TABLES) && forall t :: t in swept ==> 1 <= swept[t] <= step
  }

  ghost predicate Leftover(before: Rows, leftover: Rows, swept: map<Table, nat>, events: seq<Event>, id: nat, step: nat)
    requires step <= |events|
  {
    AllTables(before) && SweptPoints(swept, step) && leftover == LeftoverOf(before, swept, events, id, step)
  }

  lemma LeftoverIs(start: Rows, full: Rows, swept: map<Table, nat>, events: seq<Event>, id: nat, step: nat)
    requires step <= |events| && Swept(start, full, |CHILD_TABLES|, swept, events, id, step)
    ensures Leftover(start, OwnOf(full, id), swept, events, id, step)
  {
    assert CHILD_TABLES[..|CHILD_TABLES|] == CHILD_TABLES;
    forall t | t in swept
      ensures 1 <= swept[t] <= step
    {
      assert SweptAt(start, full, swept, events, id, step, t);
    }
    forall t: Table
      ensures OwnOf(full, id)[t] == LeftoverOf(start, swept, events, id, step)[t]
    {
      assert SweptAt(start, full, swept, events, id, step, t);
    }
    assert OwnOf(full, id) == LeftoverOf(start, swept, events, id, step);
  }

  // ── the main results ───────────────────────────────────────────────────

  /**
   * The comment's promise that the sweep leaves the cascade nothing to do, whoever writes meanwhile: it holds
   * exactly when no row of the collector is written to a listed table after that table's sweep, and none is in,
   * or is written to, the cascading tables outside the list.
   */
  lemma NothingCascadesIff(before: Rows, leftover: Rows, swept: map<Table, nat>, events: seq<Event>, id: nat, step: nat)
    requires step <= |events| && Leftover(before, leftover, swept, events, id, step)
    ensures (forall t: Table :: leftover[t] == {}) <==>
            (forall t: Table :: t in CHILD_TABLES ==> Own(Arrived(events, t, swept[t], step), id) == {}) &&
            (forall t: Table :: t !in CHILD_TABLES ==> Own(before[t] + Arrived(events, t, 0, step), id) == {})
  {
    forall t: Table
      ensures leftover[t] == if t in CHILD_TABLES then Own(Arrived(events, t, swept[t], step), id)
                             else Own(before[t] + Arrived(events, t, 0, step), id)
    {
    }
  }

  /** What the collector owns outside the listed tables. */
  function Unlisted(rows: Rows, id: nat): Rows {
    map t | t in rows :: if t in CHILD_TABLES then {} else Own(rows[t], id)
  }

  /**
   * What a run does to the tables as they are when the wait is over: the total counts exactly the collector's rows
   * in the listed tables, and the cascade finds none there.
   */
  ghost predicate ExactlyPurged(waited: Rows, leftover: Rows, total: nat, id: nat) {
    AllTables(waited) && leftover == Unlisted(waited, id) && total == OwnInChildren(waited, id, |CHILD_TABLES|)
  }

  /** What the wait buys. */
  lemma PollResult(origin: Rows, waited: Rows, leftover: Rows, swept: map<Table, nat>, events: seq<Event>, id: nat,
                   step: nat, end: int, outcome: Outcome)
    requires events != [] && AllTables(origin) && waited == Landed(origin, events[0]) && step <= |events|
    requires outcome.Finished? ==> Leftover(origin, leftover, swept, events, id, step)
    requires outcome.Finished? && Quiet(events, id, 1) ==> outcome.total == OwnInChildren(waited, id, |CHILD_TABLES|)
    requires Undisturbed(events, id, 1, StatementsInChildren(waited, id, |CHILD_TABLES|) + 1) ==> outcome.Finished?
    ensures outcome.Finished? && PollOver(events, id, end) ==> ExactlyPurged(waited, leftover, outcome.total, id)
    ensures PollOver(events, id, end) && NothingFails(waited, events, id) ==> outcome.Finished?
  {
    if PollOver(events, id, end) {
      GraceMakesQuiet(events, id, end);
      if outcome.Finished? {
        assert ProtocolRaw in CHILD_TABLES by {
          assert CHILD_TABLES[0] == ProtocolRaw;
        }
        QuietLeftover(origin, leftover, swept, events, id, step);
      }
    }
  }

  /** So the cascade then has nothing to do exactly when the collector owns no row outside the listed tables. */
  lemma ListIsCompleteIff(waited: Rows, leftover: Rows, total: nat, id: nat)
    requires ExactlyPurged(waited, leftover, total, id)
    ensures (forall t: Table :: leftover[t] == {}) <==>
            (forall t: Table :: t !in CHILD_TABLES ==> Own(waited[t], id) == {})
  {
    forall t: Table
      ensures leftover[t] == if t in CHILD_TABLES then {} else Own(waited[t], id)
    {
    }
  }

  lemma QuietLeftover(before: Rows, leftover: Rows, swept: map<Table, nat>, events: seq<Event>, id: nat, step: nat)
    requires 1 <= step <= |events| && Quiet(events, id, 1) && Leftover(before, leftover, swept, events, id, step)
    ensures leftover == Unlisted(Landed(before, events[0]), id)
  {
    forall t: Table
      ensures leftover[t] == Unlisted(Landed(before, events[0]), id)[t]
    {
      if t in CHILD_TABLES {
        assert Quiet(events, id, swept[t]);
        QuietArrivals(events, t, id, swept[t], step);
      } else {
        ArrivedSplit(events, t, 0, 1, step);
        assert Arrived(events, t, 0, 0) == {};
        QuietArrivals(events, t, id, 1, step);
        OwnUnion(before[t] + Landing(events[0], t), Arrived(events, t, 1, step), id);
        assert before[t] + Arrived(events, t, 0, step) == before[t] + Landing(events[0], t) + Arrived(events, t, 1, step);
      }
    }
    assert leftover == Unlisted(Landed(before, events[0]), id);
  }

  /** Only the gateway inventory holds a row of the collector. */
  const ONE_HOST: Rows := map t: Table | true :: if t == GatewayHosts then {Row(2, 1)} else {}

  /** The wait, a delete for each listed table, the collector's own delete. */
  const NO_TROUBLE: seq<Event> := seq(17, i => Event(map[], Done(true)))

  lemma {:induction false} OneHostCounts(n: nat)
    requires n <= |CHILD_TABLES|
    ensures StatementsInChildren(ONE_HOST, 2, n) == n && OwnInChildren(ONE_HOST, 2, n) == 0
  {
    if n > 0 {
      OneHostCounts(n - 1);
      assert Own(ONE_HOST[CHILD_TABLES[n - 1]], 2) == {};
    }
  }

  lemma NothingWritten(end: int)
    ensures |NO_TROUBLE| == 17 && AllDone(NO_TROUBLE, 1) && PollOver(NO_TROUBLE, 2, end)
    ensures forall t :: Landing(NO_TROUBLE[0], t) == {}
  {
  }

  lemma HostRunFinishes()
    ensures AllTables(ONE_HOST) && |NO_TROUBLE| == 17
    ensures 1 + StatementsInChildren(ONE_HOST, 2, |CHILD_TABLES|) + 1 <= |NO_TROUBLE|
  {
    OneHostCounts(|CHILD_TABLES|);
  }

  lemma NothingLands(rows: Rows, e: Event)
    requires e.written == map[]
    ensures Landed(rows, e) == rows
  {
    forall t | t in rows
      ensures rows[t] + Landing(e, t) == rows[t]
    {
    }
  }

  lemma HostIsUnlisted()
    ensures GatewayHosts in Unlisted(ONE_HOST, 2) && Unlisted(ONE_HOST, 2)[GatewayHosts] == {Row(2, 1)}
  {
    assert ONE_HOST[GatewayHosts] == {Row(2, 1)};
    assert Own({Row(2, 1)}, 2) == {Row(2, 1)};
  }

  /** Seventeen undisturbed steps purge collector 2, and its one host row is left to the cascade. */
  method GatewayHostCascades() returns (outcome: Outcome, ghost leftover: Rows)
    ensures outcome == Finished(0) && GatewayHosts in leftover && leftover[GatewayHosts] == {Row(2, 1)}
  {
    var d := new Database(ONE_HOST, map[2 := Collector(true, 5)]);
    var step;
    ghost var swept;
    outcome, step, leftover, swept := d.Run(Some(2), false, None, NO_TROUBLE);
    NothingWritten(d.clock);
    HostRunFinishes();
    NothingLands(ONE_HOST, NO_TROUBLE[0]);
    HostIsUnlisted();
    OneHostCounts(|CHILD_TABLES|);
  }

  lemma {:induction false} ArrivedPrefix(e1: seq<Event>, e2: seq<Event>, t: Table, last: nat)
    requires last <= |e1|
    ensures Arrived(e1 + e2, t, 0, last) == Arrived(e1, t, 0, last)
  {
    if last > 0 {
      ArrivedPrefix(e1, e2, t, last - 1);
    }
  }

  lemma {:induction false} ArrivedShift(e1: seq<Event>, e2: seq<Event>, t: Table, last: nat)
    requires last <= |e2|
    ensures Arrived(e1 + e2, t, |e1|, |e1| + last) == Arrived(e2, t, 0, last)
  {
    if last > 0 {
      ArrivedShift(e1, e2, t, last - 1);
    }
  }

  /** What was written during one run and then during the next. */
  lemma ArrivedInTurn(e1: seq<Event>, e2: seq<Event>, t: Table, a: nat, b: nat)
    requires a <= |e1| && b <= |e2|
    ensures Arrived(e1[..a] + e2, t, 0, a + b) == Arrived(e1, t, 0, a) + Arrived(e2, t, 0, b)
  {
    ArrivedSplit(e1[..a] + e2, t, 0, a, a + b);
    ArrivedPrefix(e1[..a], e2, t, a);
    ArrivedShift(e1[..a], e2, t, b);
    assert e1[..a] + e1[a..] == e1;
    ArrivedPrefix(e1[..a], e1[a..], t, a);
  }

  /** Interrupted runs add up like one longer run. */
  lemma KeptInTurn(s0: Rows, s1: Rows, s2: Rows, e1: seq<Event>, e2: seq<Event>, id: nat, a: nat, b: nat)
    requires a <= |e1| && b <= |e2|
    requires OthersKept(s0, s1, e1, id, a) && OthersKept(s1, s2, e2, id, b)
    ensures OthersKept(s0, s2, e1[..a] + e2, id, a + b)
  {
    forall t: Table
      ensures Others(s2[t], id) == Others(s0[t] + Arrived(e1[..a] + e2, t, 0, a + b), id)
    {
      KeptAt(s0, s1, e1, id, a, t);
      KeptAt(s1, s2, e2, id, b, t);
      ArrivedInTurn(e1, e2, t, a, b);
      OthersGrow(s0[t], s1[t], s2[t], Arrived(e1, t, 0, a), Arrived(e2, t, 0, b), id);
    }
    KeptEverywhere(s0, s2, e1[..a] + e2, id, a + b);
  }

  /** A run that failed or crashed anywhere, then a full one: the state one uninterrupted run would have reached. */
  lemma RerunAfterCrash(s0: Rows, s1: Rows, s2: Rows, e1: seq<Event>, e2: seq<Event>, id: nat, a: nat, b: nat)
    requires a <= |e1| && b <= |e2|
    requires OthersKept(s0, s1, e1, id, a) && Purged(s1, s2, e2, id, b)
    ensures Purged(s0, s2, e1[..a] + e2, id, a + b)
  {
    forall t: Table
      ensures Others(s2[t], id) == s2[t]
    {
      assert s2[t] == Others(Accrued(s1, e2, 0, b)[t], id);
    }
    assert OthersOf(s2, id) == s2;
    KeptInTurn(s0, s1, s2, e1, e2, id, a, b);
  }

  /** With three answers to come, a batch deletes exactly when the first that is no lock contention is a success. */
  lemma BatchDeletesIff(events: seq<Event>, start: nat)
    requires start + 3 <= |events|
    ensures BatchEnding(events, start, 1).0.Deleted? <==>
            exists k :: start <= k < start + 3 && events[k].answer.Done? &&
              forall j :: start <= j < k ==> events[j].answer.LockContention?
    ensures !BatchEnding(events, start, 1).0.Died?
  {
    var a0, a1, a2 := events[start].answer, events[start + 1].answer, events[start + 2].answer;
    if a0.LockContention? {
      assert BatchEnding(events, start, 1) == BatchEnding(events, start + 1, 2);
      if a1.LockContention? {
        assert BatchEnding(events, start, 1) == BatchEnding(events, start + 2, 3);
      }
    }
  }

  // ── row by row ─────────────────────────────────────────────────────────

  /** Row `r` is written to table `t` between two points of the run. */
  ghost predicate WrittenTo(events: seq<Event>, t: Table, r: Row, first: nat, last: nat)
    requires first <= last <= |events|
  {
    exists i :: first <= i < last && t in events[i].written && r in events[i].written[t]
  }

  lemma {:induction false} ArrivedIff(events: seq<Event>, t: Table, r: Row, first: nat, last: nat)
    requires first <= last <= |events|
    ensures r in Arrived(events, t, first, last) <==> WrittenTo(events, t, r, first, last)
    decreases last
  {
    if first < last {
      ArrivedIff(events, t, r, first, last - 1);
      if r in Landing(events[last - 1], t) {
        assert WrittenTo(events, t, r, first, last);
      }
    }
  }

  /** At any point of a run the other collectors have the rows they had and those written for them, and no others. */
  lemma KeptIff(before: Rows, after: Rows, events: seq<Event>, id: nat, step: nat)
    requires step <= |events| && AllTables(before) && AllTables(after)
    ensures OthersKept(before, after, events, id, step) <==>
            forall t: Table, r: Row :: r.collector != id ==>
              (r in after[t] <==> r in before[t] || WrittenTo(events, t, r, 0, step))
  {
    forall t: Table, r: Row
      ensures r in Arrived(events, t, 0, step) <==> WrittenTo(events, t, r, 0, step)
    {
      ArrivedIff(events, t, r, 0, step);
    }
    var accrued := Accrued(before, events, 0, step);
    if OthersKept(before, after, events, id, step) {
      forall t: Table, r: Row | r.collector != id
        ensures r in after[t] <==> r in before[t] || WrittenTo(events, t, r, 0, step)
      {
        KeptAt(before, after, events, id, step, t);
        assert r in Others(after[t], id) <==> r in after[t];
        assert r in Others(accrued[t], id) <==> r in accrued[t];
      }
    }
    if forall t: Table, r: Row :: r.collector != id ==>
         (r in after[t] <==> r in before[t] || WrittenTo(events, t, r, 0, step)) {
      forall t: Table
        ensures Others(after[t], id) == Others(before[t] + Arrived(events, t, 0, step), id)
      {
      }
      KeptEverywhere(before, after, events, id, step);
    }
  }

  /** A finished run leaves no row of the collector, and of the others the rows they had and those written for them. */
  lemma PurgedIff(before: Rows, after: Rows, events: seq<Event>, id: nat, step: nat)
    requires step <= |events| && AllTables(before) && AllTables(after)
    ensures Purged(before, after, events, id, step) <==>
            forall t: Table, r: Row ::
              r in after[t] <==> r.collector != id && (r in before[t] || WrittenTo(events, t, r, 0, step))
  {
    forall t: Table, r: Row
      ensures r in Arrived(events, t, 0, step) <==> WrittenTo(events, t, r, 0, step)
    {
      ArrivedIff(events, t, r, 0, step);
    }
    var others := OthersOf(Accrued(before, events, 0, step), id);
    forall t: Table, r: Row
      ensures r in others[t] <==> r.collector != id && (r in before[t] || WrittenTo(events, t, r, 0, step))
    {
      assert others[t] == Others(before[t] + Arrived(events, t, 0, step), id);
    }
    SameTables(after, others);
  }

  lemma SameTables(a: Rows, b: Rows)
    requires AllTables(a) && AllTables(b)
    ensures a == b <==> forall t: Table, r: Row :: r in a[t] <==> r in b[t]
  {
    if forall t: Table, r: Row :: r in a[t] <==> r in b[t] {
      forall t: Table
        ensures a[t] == b[t]
      {
        assert forall r :: r in a[t] <==> r in b[t];
      }
      assert a == b;
    }
  }

  predicate IsListed(t: Table) {
    t in CHILD_TABLES
  }

  /** The tables a purge does not sweep. */
  lemma UnlistedTables(t: Table)
    ensures !IsListed(t) <==>
            t.GatewayHosts? || t.GatewayObservations? || t.UpnpMappings? || t.UpnpEvents? || t.GatewayBackups? ||
            t.UpdateDevices? || t.RolloutDevices?
  {
    if t in CHILD_TABLES {
      var i :| 0 <= i < |CHILD_TABLES| && CHILD_TABLES[i] == t;
    } else {
      forall i | 0 <= i < 15
        ensures CHILD_TABLES[i] != t
      {
      }
    }
  }

  /** The collector's rows in the listed tables, each with its table. */
  function Listed(rows: Rows, id: nat): set<(Table, Row)>
    requires forall t: Table :: t in rows
  {
    set t, r | t in CHILD_TABLES && r in rows[t] && r.collector == id :: (t, r)
  }

  function ListedUpTo(rows: Rows, id: nat, n: nat): set<(Table, Row)>
    requires n <= |CHILD_TABLES| && forall t: Table :: t in rows
  {
    set t, r | t in CHILD_TABLES[..n] && r in rows[t] && r.collector == id :: (t, r)
  }

  lemma {:induction false} PairsCount(t: Table, s: set<Row>)
    ensures |set r | r in s :: (t, r)| == |s|
    decreases |s|
  {
    if s == {} {
      assert (set r | r in s :: (t, r)) == {};
    } else {
      var x :| x in s;
      PairsCount(t, s - {x});
      assert (set r | r in s :: (t, r)) == (set r | r in s - {x} :: (t, r)) + {(t, x)};
    }
  }

  lemma ListedNext(rows: Rows, id: nat, n: nat)
    requires 0 < n <= |CHILD_TABLES| && forall t: Table :: t in rows
    ensures |ListedUpTo(rows, id, n)| == |ListedUpTo(rows, id, n - 1)| + |Own(rows[CHILD_TABLES[n - 1]], id)|
  {
    var t := CHILD_TABLES[n - 1];
    NotYetSwept(n - 1);
    PairsCount(t, Own(rows[t], id));
    var these := set r | r in Own(rows[t], id) :: (t, r);
    PrefixWithNext(CHILD_TABLES, n - 1);
    assert ListedUpTo(rows, id, n) == ListedUpTo(rows, id, n - 1) + these;
    assert ListedUpTo(rows, id, n - 1) !! these;
  }

  lemma PrefixWithNext(s: seq<Table>, i: nat)
    requires i < |s|
    ensures s[..i + 1] == s[..i] + [s[i]]
  {
  }

  lemma {:induction false} CountUpTo(rows: Rows, id: nat, n: nat)
    requires n <= |CHILD_TABLES| && forall t: Table :: t in rows
    ensures OwnInChildren(rows, id, n) == |ListedUpTo(rows, id, n)|
  {
    if n > 0 {
      CountUpTo(rows, id, n - 1);
      ListedNext(rows, id, n);
    } else {
      assert ListedUpTo(rows, id, 0) == {};
    }
  }

  /** The total of a dry run, and of a run whose poll ended with the wait, is the number of these rows. */
  lemma TotalCountsRows(rows: Rows, id: nat)
    requires forall t: Table :: t in rows
    ensures OwnInChildren(rows, id, |CHILD_TABLES|) == |Listed(rows, id)|
  {
    CountUpTo(rows, id, |CHILD_TABLES|);
    assert CHILD_TABLES[..|CHILD_TABLES|] == CHILD_TABLES;
    assert ListedUpTo(rows, id, |CHILD_TABLES|) == Listed(rows, id);
  }

  lemma UnlistedAt(waited: Rows, id: nat, t: Table, r: Row)
    requires AllTables(waited)
    ensures t in Unlisted(waited, id)
    ensures r in Unlisted(waited, id)[t] <==> r in waited[t] && r.collector == id && !IsListed(t)
  {
  }

  /** What such a run leaves to the cascade, row by row. */
  lemma UnlistedIff(waited: Rows, leftover: Rows, id: nat)
    requires AllTables(waited) && AllTables(leftover)
    ensures leftover == Unlisted(waited, id) <==>
            forall t: Table, r: Row :: r in leftover[t] <==> r in waited[t] && r.collector == id && !IsListed(t)
  {
    SameTables(leftover, Unlisted(waited, id));
    if leftover == Unlisted(waited, id) {
      forall t: Table, r: Row
        ensures r in leftover[t] <==> r in waited[t] && r.collector == id && !IsListed(t)
      {
        UnlistedAt(waited, id, t, r);
      }
    } else {
      var t: Table, r: Row :| !(r in leftover[t] <==> r in Unlisted(waited, id)[t]);
      UnlistedAt(waited, id, t, r);
      assert !(r in leftover[t] <==> r in waited[t] && r.collector == id && !IsListed(t));
    }
  }
}
