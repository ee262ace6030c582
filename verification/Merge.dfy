/** `collectors:merge`: flags off, one transaction with retries, flags restored, signals held back. */
module Merge {
  import opened Options

  const LOCK_RETRIES := 3

  const MIN_DEFAULT_GRACE_SECONDS := 15

  const MAX_GRACE_SECONDS := 60

  datatype Collector = Collector(enabled: bool, pollIntervalSeconds: int, identity: string, createdAt: int)

  /** The two sides of a plan as they were when it was made. */
  datatype Side = Side(id: nat, enabled: bool)

  datatype Plan = Plan(from: Side, into: Side, survivorId: nat, removedId: nat, refusals: seq<string>, policyKnown: bool)

  predicate Pairs(p: Plan) {
    p.from.id != p.into.id && {p.survivorId, p.removedId} == {p.from.id, p.into.id}
  }

  datatype Fault = MergeError | LockContention | OtherError

  datatype Planned = Ready(plan: Plan) | Rejected

  /** One await of the run: the signals that arrive meanwhile, and the error it ends with. */
  datatype Await = Await(signals: nat, fault: Option<Fault>)

  const UNDISTURBED := Await(0, None)

  function AwaitAt(awaits: seq<Await>, step: nat): Await {
    if step < |awaits| then awaits[step] else UNDISTURBED
  }

  /** The signals of the first `step` awaits. */
  function Signals(awaits: seq<Await>, step: nat): nat {
    if step == 0 then 0 else Signals(awaits, step - 1) + AwaitAt(awaits, step - 1).signals
  }

  type Collectors = map<nat, Collector>

  datatype Store<H> = Store(collectors: Collectors, history: H)

  datatype Effect<H> = Committed(store: Store<H>) | RolledBack(fault: Fault)

  function Earlier(a: int, b: int): int {
    if a < b then a else b
  }

  /** The merge transaction; `fold` is what it does to the rows of the history tables. */
  function Execute<H>(p: Plan, s: Store<H>, fold: (Plan, H) -> H): Effect<H> {
    if p.refusals != [] || !p.policyKnown then RolledBack(MergeError) else
    if p.survivorId !in s.collectors || p.removedId !in s.collectors then RolledBack(MergeError) else
    var survivor, removed := s.collectors[p.survivorId], s.collectors[p.removedId];
    var createdAt := Earlier(survivor.createdAt, removed.createdAt);
    var named := if p.into.id == p.removedId then removed else survivor;
    Committed(Store((s.collectors - {p.removedId})[p.survivorId := named.(enabled := p.into.enabled, createdAt := createdAt)],
                    fold(p, s.history)))
  }

  /** How the attempts end: after which await, and with which error if any. */
  function AttemptsEnding(awaits: seq<Await>, step: nat, attempt: nat, body: Option<Fault>): (Option<Fault>, nat)
    requires 1 <= attempt <= LOCK_RETRIES
    decreases LOCK_RETRIES - attempt
  {
    var fault := if AwaitAt(awaits, step).fault.Some? then AwaitAt(awaits, step).fault else body;
    if fault == Some(LockContention) && attempt < LOCK_RETRIES
    then AttemptsEnding(awaits, step + 1, attempt + 1, body)
    else (fault, step + 1)
  }

  /** `enabled` switched to a given value on one collector, if it is there. */
  function WithFlag(c: Collectors, id: nat, enabled: bool): Collectors {
    if id in c then c[id := c[id].(enabled := enabled)] else c
  }

  function WithFlags(c: Collectors, p: Plan): Collectors {
    WithFlag(WithFlag(c, p.from.id, p.from.enabled), p.into.id, p.into.enabled)
  }

  /** Only the flags of the two sides may differ. */
  ghost predicate FlagsOnly(a: Collectors, b: Collectors, p: Plan) {
    a.Keys == b.Keys &&
    (forall id :: id in a && id != p.from.id && id != p.into.id ==> b[id] == a[id]) &&
    forall id :: id in a ==> b[id] == a[id].(enabled := b[id].enabled)
  }

  predicate Faultless(awaits: seq<Await>, first: nat, count: nat) {
    forall i :: first <= i < first + count ==> AwaitAt(awaits, i).fault == None
  }

  function SaveAwaits(c: Collectors, id: nat): nat {
    if id in c && c[id].enabled then 1 else 0
  }

  function Saves(c: Collectors, p: Plan): nat {
    SaveAwaits(c, p.from.id) + SaveAwaits(c, p.into.id)
  }

  lemma FaultlessSplit(awaits: seq<Await>, first: nat, m: nat, n: nat)
    ensures Faultless(awaits, first, m + n) <==> Faultless(awaits, first, m) && Faultless(awaits, first + m, n)
  {
  }

  function Longer(seconds: int, c: Collectors, id: nat): int {
    if id in c && c[id].pollIntervalSeconds > seconds then c[id].pollIntervalSeconds else seconds
  }

  /** The longer poll interval, at least 15 s, unless asked otherwise; at most 60 s. */
  function GraceSeconds(c: Collectors, p: Plan, grace: Option<int>): int {
    var longest := Longer(Longer(MIN_DEFAULT_GRACE_SECONDS, c, p.from.id), c, p.into.id);
    var asked := if grace.Some? then grace.value else longest;
    if asked < MAX_GRACE_SECONDS then asked else MAX_GRACE_SECONDS
  }

  /** A query, a save per enabled collector, and the grace period if there is one. */
  function QuiesceAwaits(c: Collectors, p: Plan, grace: Option<int>): nat {
    1 + (Saves(c, p) + if GraceSeconds(c, p, grace) > 0 then 1 else 0)
  }

  /** The error the transaction itself would raise. */
  function BodyFault<H>(p: Plan, s: Store<H>, fold: (Plan, H) -> H): Option<Fault> {
    var body := Execute(p, s, fold);
    if body.RolledBack? then Some(body.fault) else None
  }

  /** When the merge takes effect: an undisturbed quiesce, then an attempt that commits. */
  ghost predicate Succeeds<H>(p: Plan, s: Store<H>, awaits: seq<Await>, start: nat, grace: Option<int>, fold: (Plan, H) -> H) {
    var q := QuiesceAwaits(s.collectors, p, grace);
    Faultless(awaits, start, q) && AttemptsEnding(awaits, start + q, 1, BodyFault(p, s, fold)).0 == None
  }

  datatype Outcome =
    | Refused
    | DryRunDone
    | Merged(attempts: nat)
    | Failed(fault: Fault)
    | RestoreFailed(fault: Fault)
    | Exited

  class Command<H> {
    var store: Store<H>
    /** Whether the signal handlers are installed. */
    var holding: bool
    var received: nat
    var step: nat
    /** Seconds. */
    var clock: int
    const awaits: seq<Await>
    const grace: Option<int>
    const fold: (Plan, H) -> H

    constructor (store: Store<H>, awaits: seq<Await>, grace: Option<int>, fold: (Plan, H) -> H)
      ensures this.store == store && this.awaits == awaits && this.grace == grace && this.fold == fold
      ensures !holding && received == 0 && step == 0
    {
      this.store, this.awaits, this.grace, this.fold := store, awaits, grace, fold;
      holding, received, step, clock := false, 0, 0, 0;
    }

    ghost predicate Counted()
      reads this
    {
      received == Signals(awaits, step)
    }

    /** Waits for something: the second signal ends the process. */
    method Wait() returns (exited: bool, fault: Option<Fault>)
      requires Counted()
      modifies this`received, this`step
      ensures Counted() && step == old(step) + 1
      ensures exited <==> received >= 2
      ensures fault == AwaitAt(awaits, old(step)).fault
    {
      var a := AwaitAt(awaits, step);
      received, step := received + a.signals, step + 1;
      exited, fault := received >= 2, a.fault;
    }

    /** Switches one collector off, if it is there and on. */
    method Disable(id: nat) returns (exited: bool, fault: Option<Fault>)
      requires Counted() && received < 2
      modifies this`store, this`received, this`step
      ensures Counted() && store.history == old(store.history) && (exited <==> received >= 2)
      ensures store.collectors == old(store.collectors) || store.collectors == WithFlag(old(store.collectors), id, false)
      ensures fault.None? && !exited ==> store.collectors == WithFlag(old(store.collectors), id, false)
      ensures step == old(step) + SaveAwaits(old(store.collectors), id)
      ensures fault.None? <==> Faultless(awaits, old(step), SaveAwaits(old(store.collectors), id))
    {
      exited, fault := false, None;
      if id in store.collectors && store.collectors[id].enabled {
        exited, fault := Wait();
        if !exited && fault.None? {
          store := store.(collectors := WithFlag(store.collectors, id, false));
        }
      }
    }

    /** Switches both off, the old one first. */
    method DisableBoth(p: Plan) returns (exited: bool, fault: Option<Fault>)
      requires Counted() && received < 2 && Pairs(p)
      modifies this`store, this`received, this`step
      ensures Counted() && store.history == old(store.history) && (exited <==> received >= 2)
      ensures FlagsOnly(old(store.collectors), store.collectors, p)
      ensures fault.None? && !exited ==>
                store.collectors == WithFlag(WithFlag(old(store.collectors), p.from.id, false), p.into.id, false) &&
                step == old(step) + Saves(old(store.collectors), p)
      ensures !exited ==> (fault.None? <==> Faultless(awaits, old(step), Saves(old(store.collectors), p)))
    {
      ghost var start, first := store.collectors, step;
      exited, fault := Disable(p.from.id);
      FaultlessSplit(awaits, first, SaveAwaits(start, p.from.id), SaveAwaits(start, p.into.id));
      if exited || fault.Some? { return; }
      exited, fault := Disable(p.into.id);
    }

    /** Both collectors off, then the grace period. */
    method Quiesce(p: Plan) returns (exited: bool, fault: Option<Fault>)
      requires Counted() && received < 2 && Pairs(p)
      modifies this`store, this`received, this`step, this`clock
      ensures Counted() && store.history == old(store.history) && (exited <==> received >= 2)
      ensures FlagsOnly(old(store.collectors), store.collectors, p)
      ensures fault.None? && !exited ==>
                store.collectors == WithFlag(WithFlag(old(store.collectors), p.from.id, false), p.into.id, false) &&
                step == old(step) + QuiesceAwaits(old(store.collectors), p, grace)
      ensures !exited ==> (fault.None? <==> Faultless(awaits, old(step), QuiesceAwaits(old(store.collectors), p, grace)))
      ensures fault.None? && !exited && grace.Some? ==>
                clock == old(clock) + if grace.value <= 0 then 0 else if grace.value <= 60 then grace.value else 60
      ensures fault.None? && !exited && grace.None? ==>
                old(clock) + 15 <= clock <= old(clock) + 60 &&
                forall id :: id in {p.from.id, p.into.id} && id in old(store.collectors) ==>
                  clock == old(clock) + 60 || clock >= old(clock) + old(store.collectors)[id].pollIntervalSeconds
    {
      var seconds := GraceSeconds(store.collectors, p, grace);
      ghost var first, saves, last := step, Saves(store.collectors, p), if seconds > 0 then 1 else 0;
      FaultlessSplit(awaits, first, 1, saves + last);
      FaultlessSplit(awaits, first + 1, saves, last);
      exited, fault := Wait();
      if exited || fault.Some? { return; }
      exited, fault := DisableBoth(p);
      if exited || fault.Some? { return; }
      if seconds > 0 {
        exited, fault := Wait();
        clock := clock + seconds;
      }
    }

    /** The transaction, up to three times while its locks are contended. */
    method ExecuteWithRetries(p: Plan) returns (exited: bool, fault: Option<Fault>, attempts: nat)
      requires Counted() && received < 2
      modifies this`store, this`received, this`step
      ensures Counted() && (exited <==> received >= 2) && 1 <= attempts <= LOCK_RETRIES
      ensures exited || fault.Some? ==> store == old(store)
      ensures !exited && fault.None? ==>
                var done := Execute(p, old(store), fold); done.Committed? && store == done.store
      ensures !exited ==> (fault, step) == AttemptsEnding(awaits, old(step), 1, BodyFault(p, old(store), fold))
      ensures attempts == step - old(step)
    {
      attempts := 1;
      var body := Execute(p, store, fold);
      ghost var own := BodyFault(p, store, fold);
      while true
        invariant Counted() && received < 2 && store == old(store) && 1 <= attempts <= LOCK_RETRIES
        invariant attempts == step - old(step) + 1
        invariant AttemptsEnding(awaits, old(step), 1, own) == AttemptsEnding(awaits, step, attempts, own)
        decreases LOCK_RETRIES - attempts
      {
        exited, fault := Wait();
        if exited { return; }
        if fault.None? {
          if body.Committed? {
            store := body.store;
            return;
          }
          fault := Some(body.fault);
        }
        if attempts >= LOCK_RETRIES || fault.value != LockContention { return; }
        attempts := attempts + 1;
      }
    }

    /** One side back to its planned flag: a lookup, and a save when it differs. */
    method RestoreSide(side: Side) returns (exited: bool, fault: Option<Fault>)
      requires Counted() && received < 2
      modifies this`store, this`received, this`step
      ensures Counted() && store.history == old(store.history) && (exited <==> received >= 2)
      ensures store.collectors == old(store.collectors) ||
              store.collectors == WithFlag(old(store.collectors), side.id, side.enabled)
      ensures fault.None? && !exited ==> store.collectors == WithFlag(old(store.collectors), side.id, side.enabled)
    {
      exited, fault := Wait();
      if exited || fault.Some? { return; }
      if side.id in store.collectors && store.collectors[side.id].enabled != side.enabled {
        exited, fault := Wait();
        if exited || fault.Some? { return; }
        store := store.(collectors := WithFlag(store.collectors, side.id, side.enabled));
      }
    }

    method RestoreFlags(p: Plan) returns (exited: bool, fault: Option<Fault>)
      requires Counted() && received < 2
      modifies this`store, this`received, this`step
      ensures Counted() && store.history == old(store.history) && (exited <==> received >= 2)
      ensures FlagsOnly(old(store.collectors), store.collectors, p)
      ensures fault.None? && !exited ==> store.collectors == WithFlags(old(store.collectors), p)
    {
      exited, fault := RestoreSide(p.from);
      if exited || fault.Some? { return; }
      exited, fault := RestoreSide(p.into);
    }

    /** The guarded block: quiesce, then merge. */
    method Try(p: Plan) returns (exited: bool, fault: Option<Fault>, attempts: nat)
      requires Counted() && received < 2 && Pairs(p)
      modifies this`store, this`received, this`step, this`clock
      ensures Counted() && (exited <==> received >= 2) && attempts <= LOCK_RETRIES
      ensures exited || fault.Some? ==>
                store.history == old(store.history) && FlagsOnly(old(store.collectors), store.collectors, p)
      ensures !exited ==> (fault.None? <==> Succeeds(p, old(store), awaits, old(step), grace, fold))
      ensures !exited && fault.None? ==>
                store.history == fold(p, old(store.history)) && MergedCollectors(old(store.collectors), store.collectors, p)
    {
      attempts := 0;
      ghost var start := store;
      exited, fault := Quiesce(p);
      if exited || fault.Some? { return; }
      ghost var quiesced := store;
      SameFault(p, start, quiesced, fold);
      exited, fault, attempts := ExecuteWithRetries(p);
      ExecuteMerges(p, start, quiesced, fold);
    }

    /** The part of the run that changes anything, with the handlers installed. */
    method Guarded(p: Plan) returns (outcome: Outcome)
      requires Counted() && received < 2 && Pairs(p)
      modifies this
      ensures Counted() && (outcome == Exited <==> received >= 2)
      ensures !outcome.Refused? && !outcome.DryRunDone?
      ensures !outcome.Exited? ==> !holding
      ensures !outcome.Merged? ==> store.history == old(store.history) && FlagsOnly(old(store.collectors), store.collectors, p)
      ensures outcome.Failed? ==> store.collectors == WithFlags(old(store.collectors), p)
      ensures !outcome.Exited? ==> (outcome.Merged? <==> Succeeds(p, old(store), awaits, old(step), grace, fold))
      ensures outcome.Merged? ==>
                outcome.attempts <= LOCK_RETRIES && store.history == fold(p, old(store.history)) &&
                MergedCollectors(old(store.collectors), store.collectors, p)
    {
      holding := true;
      ghost var before := store.collectors;
      var exited, fault, attempts := Try(p);
      if exited { return Exited; }
      if fault.None? {
        holding := false;
        return Merged(attempts);
      }
      ghost var middle := store.collectors;
      var gone, again := RestoreFlags(p);
      FlagsOnlyTwice(before, middle, store.collectors, p);
      FlagsForgotten(before, middle, p);
      if gone { return Exited; }
      holding := false;
      if again.Some? { return RestoreFailed(again.value); }
      return Failed(fault.value);
    }

    /** The command. */
    method Run(planned: Planned, dryRun: bool) returns (outcome: Outcome)
      requires Counted() && received == 0 && !holding
      requires planned.Ready? ==> Pairs(planned.plan)
      modifies this
      ensures Counted() && (outcome.Exited? <==> received >= 2) && (!outcome.Exited? ==> !holding)
      ensures outcome.Refused? <==> planned.Rejected? || planned.plan.refusals != []
      ensures outcome.DryRunDone? <==> planned.Ready? && planned.plan.refusals == [] && dryRun
      ensures outcome.Refused? || outcome.DryRunDone? ==> store == old(store) && step == old(step)
      ensures !outcome.Merged? ==> store.history == old(store.history)
      ensures !outcome.Merged? && planned.Ready? ==> FlagsOnly(old(store.collectors), store.collectors, planned.plan)
      ensures outcome.Failed? ==> planned.Ready? && store.collectors == WithFlags(old(store.collectors), planned.plan)
      ensures !outcome.Exited? && !outcome.Refused? && !outcome.DryRunDone? ==>
                (outcome.Merged? <==> Succeeds(planned.plan, old(store), awaits, old(step), grace, fold))
      ensures outcome.Merged? ==>
                planned.Ready? && outcome.attempts <= LOCK_RETRIES &&
                store.history == fold(planned.plan, old(store.history)) &&
                MergedCollectors(old(store.collectors), store.collectors, planned.plan)
    {
      if planned.Rejected? || planned.plan.refusals != [] {
        return Refused;
      }
      if dryRun {
        return DryRunDone;
      }
      outcome := Guarded(planned.plan);
    }
  }

  /** One collector is left of the two: the planned row, under the successor's name and flag; the rest is as it was. */
  ghost predicate MergedCollectors(before: Collectors, after: Collectors, p: Plan) {
    p.from.id in before && p.into.id in before && p.survivorId in before && p.removedId in before &&
    after.Keys == before.Keys - {p.removedId} && p.survivorId in after &&
    after[p.survivorId].enabled == p.into.enabled &&
    after[p.survivorId].pollIntervalSeconds == before[p.into.id].pollIntervalSeconds &&
    after[p.survivorId].identity == before[p.into.id].identity &&
    after[p.survivorId].createdAt <= before[p.from.id].createdAt &&
    after[p.survivorId].createdAt <= before[p.into.id].createdAt &&
    after[p.survivorId].createdAt in {before[p.from.id].createdAt, before[p.into.id].createdAt} &&
    forall id :: id in after && id != p.survivorId ==> after[id] == before[id]
  }

  /** The committed store, seen from before the flags were switched off. */
  lemma ExecuteMerges<H>(p: Plan, start: Store<H>, quiesced: Store<H>, fold: (Plan, H) -> H)
    requires Pairs(p) && FlagsOnly(start.collectors, quiesced.collectors, p) && quiesced.history == start.history
    ensures var done := Execute(p, quiesced, fold);
            done.Committed? ==> done.store.history == fold(p, start.history) &&
                                MergedCollectors(start.collectors, done.store.collectors, p)
  {
    var before, now := start.collectors, quiesced.collectors;
    if p.survivorId in now && p.removedId in now {
      assert now[p.survivorId] == before[p.survivorId].(enabled := now[p.survivorId].enabled);
      assert now[p.removedId] == before[p.removedId].(enabled := now[p.removedId].enabled);
    }
  }

  /** Whether the transaction can run does not depend on the flags. */
  lemma SameFault<H>(p: Plan, a: Store<H>, b: Store<H>, fold: (Plan, H) -> H)
    requires a.collectors.Keys == b.collectors.Keys
    ensures BodyFault(p, a, fold) == BodyFault(p, b, fold)
  {
  }

  lemma FlagsOnlyTwice(a: Collectors, b: Collectors, c: Collectors, p: Plan)
    requires FlagsOnly(a, b, p) && FlagsOnly(b, c, p)
    ensures FlagsOnly(a, c, p)
  {
    forall id | id in a
      ensures c[id] == a[id].(enabled := c[id].enabled)
    {
      assert b[id] == a[id].(enabled := b[id].enabled);
    }
  }

  /** Setting both flags forgets what they were in between. */
  lemma FlagsForgotten(a: Collectors, b: Collectors, p: Plan)
    requires FlagsOnly(a, b, p)
    ensures WithFlags(b, p) == WithFlags(a, p)
  {
    var x, y := WithFlags(a, p), WithFlags(b, p);
    assert x.Keys == y.Keys;
    forall id | id in x
      ensures x[id] == y[id]
    {
      assert b[id] == a[id].(enabled := b[id].enabled);
    }
  }

  /** When the plan's flags are still what the database holds, a failed merge leaves the collectors as they were. */
  lemma RestoredIsUnchanged(before: Collectors, p: Plan)
    requires p.from.id in before ==> before[p.from.id].enabled == p.from.enabled
    requires p.into.id in before ==> before[p.into.id].enabled == p.into.enabled
    ensures WithFlags(before, p) == before
  {
  }

  lemma {:induction false} SameEnding(a: seq<Await>, b: seq<Await>, step: nat, attempt: nat, body: Option<Fault>)
    requires 1 <= attempt <= LOCK_RETRIES && forall i: nat :: AwaitAt(a, i).fault == AwaitAt(b, i).fault
    ensures AttemptsEnding(a, step, attempt, body) == AttemptsEnding(b, step, attempt, body)
    decreases LOCK_RETRIES - attempt
  {
    if attempt < LOCK_RETRIES {
      SameEnding(a, b, step + 1, attempt + 1, body);
    }
  }

  /** Signals have no say in whether a merge succeeds: a first one is only remembered. */
  lemma FirstSignalIsHeld<H>(p: Plan, s: Store<H>, a: seq<Await>, b: seq<Await>, start: nat, grace: Option<int>,
                             fold: (Plan, H) -> H)
    requires forall i: nat :: AwaitAt(a, i).fault == AwaitAt(b, i).fault
    ensures Succeeds(p, s, a, start, grace, fold) <==> Succeeds(p, s, b, start, grace, fold)
  {
    SameEnding(a, b, start + QuiesceAwaits(s.collectors, p, grace), 1, BodyFault(p, s, fold));
  }

  /** The wait: what was asked, or the longer of 15 s and the two poll intervals, and never more than 60 s. */
  lemma GraceIs(c: Collectors, p: Plan, grace: Option<int>)
    ensures GraceSeconds(c, p, grace) <= 60
    ensures grace.Some? && grace.value <= 60 ==> GraceSeconds(c, p, grace) == grace.value
    ensures grace.Some? && grace.value > 60 ==> GraceSeconds(c, p, grace) == 60
    ensures grace.None? ==>
              GraceSeconds(c, p, grace) >= 15 &&
              (forall id :: id in {p.from.id, p.into.id} && id in c ==>
                 GraceSeconds(c, p, grace) == 60 || GraceSeconds(c, p, grace) >= c[id].pollIntervalSeconds) &&
              (GraceSeconds(c, p, grace) in {15, 60} ||
               exists id :: id in {p.from.id, p.into.id} && id in c && GraceSeconds(c, p, grace) == c[id].pollIntervalSeconds)
  {
  }

  /** The attempts succeed exactly when the body raises nothing and the first of three awaits without lock contention has no fault. */
  lemma AttemptsSucceedIff(awaits: seq<Await>, step: nat, body: Option<Fault>)
    ensures AttemptsEnding(awaits, step, 1, body).0 == None <==>
            body == None && exists k :: step <= k < step + 3 && AwaitAt(awaits, k).fault == None &&
                                        forall j :: step <= j < k ==> AwaitAt(awaits, j).fault == Some(LockContention)
  {
    var f0, f1 := AwaitAt(awaits, step).fault, AwaitAt(awaits, step + 1).fault;
    if f0 == Some(LockContention) {
      assert AttemptsEnding(awaits, step, 1, body) == AttemptsEnding(awaits, step + 1, 2, body);
      if f1 == Some(LockContention) {
        assert AttemptsEnding(awaits, step, 1, body) == AttemptsEnding(awaits, step + 2, 3, body);
      }
    }
  }

  predicate SignalAt(awaits: seq<Await>, i: nat) {
    AwaitAt(awaits, i).signals > 0
  }

  lemma {:induction false} AnySignal(awaits: seq<Await>, n: nat)
    ensures Signals(awaits, n) == 0 <==> forall i: nat :: i < n ==> !SignalAt(awaits, i)
  {
    if n > 0 {
      AnySignal(awaits, n - 1);
      assert SignalAt(awaits, n - 1) <==> Signals(awaits, n) > Signals(awaits, n - 1);
    }
  }

  /** The process has been told to exit when two signals have come, during one await or two. */
  lemma {:induction false} SecondSignalIff(awaits: seq<Await>, n: nat)
    ensures Signals(awaits, n) >= 2 <==>
            (exists i: nat :: i < n && AwaitAt(awaits, i).signals >= 2) ||
            (exists i: nat, j: nat :: i < j < n && SignalAt(awaits, i) && SignalAt(awaits, j))
  {
    if n > 0 {
      SecondSignalIff(awaits, n - 1);
      AnySignal(awaits, n - 1);
      if Signals(awaits, n) >= 2 && Signals(awaits, n - 1) < 2 && AwaitAt(awaits, n - 1).signals < 2 {
        var i: nat :| i < n - 1 && SignalAt(awaits, i);
        assert SignalAt(awaits, n - 1);
      }
    }
  }
}
