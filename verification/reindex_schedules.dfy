/** The reindex scheduler of ee/models/tenant_reindex_schedules.rs: setting, clearing and ticking schedules. */
module ReindexSchedules {
  import opened Common
  import opened ReindexInterval
  import IntervalWeights

  type Tenant = Id
  type Workspace = Id

  /** Times are integers; a second has this many units. */
  const SECOND: int := 1_000_000_000
  const MIN_INTERVAL_SECONDS: int := 300

  datatype Schedule = Schedule(interval: string, timezone: Option<string>, due: Option<int>, updated: int)

  /** `outbox` counts the reindex jobs recorded for each workspace of a tenant. */
  datatype Store = Store(schedules: map<Tenant, Schedule>, active: set<Tenant>, homes: map<Workspace, Tenant>,
                         outbox: multiset<(Tenant, Workspace)>)

  /** One interval after `now`, unless the text is no interval, is too short or leaves the range of times. */
  ghost function NextDue(interval: string, now: int, latest: int): (due: Option<int>)
    ensures due.Some? ==> due.value >= now + MIN_INTERVAL_SECONDS * SECOND
  {
    match IntervalOf(interval)
    case None => None
    case Some(n) =>
      if n < MIN_INTERVAL_SECONDS || now + n * SECOND > latest then None else Some(now + n * SECOND)
  }

  method ComputeNextDue(interval: string, now: int, latest: int) returns (due: Option<int>)
    ensures due == NextDue(interval, now, latest)
  {
    var every := ParseInterval(interval);
    if every.None? { return None; }
    if every.value < MIN_INTERVAL_SECONDS { return None; }
    if now + every.value * SECOND > latest { return None; }
    return Some(now + every.value * SECOND);
  }

  // ---------------------------------------------------------------- one tick

  datatype Ownership = Acquired | HeldByAnother | Unavailable

  /** How the operations that a tick depends on turn out. */
  datatype Weather = Weather(ownership: Ownership, begins: bool, lists: bool, checks: Tenant -> bool, finds: Tenant -> bool,
                             resolves: Workspace -> bool, updates: Tenant -> bool, dispatches: Workspace -> bool,
                             commits: bool, releases: bool, latest: int)

  predicate IsDue(s: Schedule, now: int)
  {
    s.due.Some? && s.due.value <= now
  }

  function Due(st: Store, now: int): set<Tenant>
  {
    set t | t in st.schedules && IsDue(st.schedules[t], now)
  }

  /** The tenants a tick acts on: due and not disabled. */
  function Firing(st: Store, now: int): set<Tenant>
  {
    set t | t in Due(st, now) && t in st.active
  }

  function WorkspacesOf(st: Store, t: Tenant): set<Workspace>
  {
    set w | w in st.homes && st.homes[w] == t
  }

  function Pairs(st: Store, tenants: set<Tenant>): set<(Tenant, Workspace)>
  {
    set w | w in st.homes && st.homes[w] in tenants :: (st.homes[w], w)
  }

  /** Everything the tick does for one due tenant succeeds. */
  ghost predicate TenantOk(st: Store, now: int, w: Weather, t: Tenant)
    requires t in st.schedules
  {
    w.checks(t) && (t in st.active ==>
      && NextDue(st.schedules[t].interval, now, w.latest).Some? && w.finds(t) && w.updates(t)
      && forall x :: x in WorkspacesOf(st, t) ==> w.resolves(x))
  }

  /** The transaction of the tick commits. */
  ghost predicate Commits(st: Store, now: int, w: Weather)
  {
    && w.ownership == Acquired && w.begins && w.lists && w.commits
    && (forall t :: t in Due(st, now) ==> TenantOk(st, now, w, t))
    && (forall p :: p in Pairs(st, Firing(st, now)) ==> w.dispatches(p.1))
  }

  /** The schedules after the tenants in `done`. */
  ghost function Moved(st: Store, now: int, w: Weather, done: set<Tenant>): map<Tenant, Schedule>
  {
    map t | t in st.schedules ::
      if t in done then st.schedules[t].(due := NextDue(st.schedules[t].interval, now, w.latest), updated := now)
      else st.schedules[t]
  }

  /** A committed tick: every firing schedule is one interval ahead, and each of its workspaces has one more job. */
  ghost function Advanced(st: Store, now: int, w: Weather): Store
  {
    st.(schedules := Moved(st, now, w, Firing(st, now)), outbox := st.outbox + multiset(Pairs(st, Firing(st, now))))
  }

  /** What a tick leaves: its work, or nothing of it. */
  ghost function AfterTick(st: Store, now: int, w: Weather): Store
  {
    if Commits(st, now, w) then Advanced(st, now, w) else st
  }

  /** When a tick answers Ok: another owner is at work, or it committed and gave ownership back. */
  ghost predicate AnswersOk(st: Store, now: int, w: Weather)
  {
    w.ownership == HeldByAnother || (Commits(st, now, w) && w.releases)
  }

  lemma {:induction false} PairsGrow(st: Store, done: set<Tenant>, t: Tenant)
    requires t !in done
    ensures Pairs(st, done + {t}) == Pairs(st, done) + Pairs(st, {t}) && Pairs(st, done) !! Pairs(st, {t})
    ensures multiset(Pairs(st, done + {t})) == multiset(Pairs(st, done)) + multiset(Pairs(st, {t}))
  {
    var all, a, b := Pairs(st, done + {t}), Pairs(st, done), Pairs(st, {t});
    assert all == a + b && a !! b;
  }

  /** What considering one tenant adds: nothing, or its moved row and the dispatches of its workspaces. */
  ghost predicate Adds(st: Store, now: int, w: Weather, t: Tenant, rows: map<Tenant, Schedule>, queued: seq<(Tenant,
                       Workspace)>)
    requires t in st.schedules
  {
    if t in Firing(st, now) then
      && rows == map[t := st.schedules[t].(due := NextDue(st.schedules[t].interval, now, w.latest), updated := now)]
      && multiset(queued) == multiset(Pairs(st, {t}))
    else rows == map[] && queued == []
  }

  /** The work of the loop when the tenants in `left` remain. */
  ghost predicate Considered(st: Store, now: int, w: Weather, left: set<Tenant>, rows: map<Tenant, Schedule>,
                             queued: seq<(Tenant, Workspace)>)
  {
    var fired := Firing(st, now) - left;
    && rows == Moved(st, now, w, fired) && multiset(queued) == multiset(Pairs(st, fired))
    && forall t :: t in Due(st, now) && t !in left ==> TenantOk(st, now, w, t)
  }

  lemma {:induction false} NothingMoved(st: Store, now: int, w: Weather)
    ensures Moved(st, now, w, {}) == st.schedules && Pairs(st, {}) == {}
  {
  }

  lemma {:induction false} FiringAreScheduled(st: Store, now: int)
    ensures Due(st, now) <= st.schedules.Keys && Firing(st, now) - st.schedules.Keys == {}
  {
  }

  lemma {:induction false} NothingConsidered(st: Store, now: int, w: Weather)
    ensures Considered(st, now, w, st.schedules.Keys, st.schedules, [])
  {
    FiringAreScheduled(st, now);
    NothingMoved(st, now, w);
  }

  lemma {:induction false} MovedGrows(st: Store, now: int, w: Weather, fired: set<Tenant>, t: Tenant)
    requires t in st.schedules
    ensures Moved(st, now, w, fired + {t})
         == Moved(st, now, w, fired)
            + map[t := st.schedules[t].(due := NextDue(st.schedules[t].interval, now, w.latest), updated := now)]
  {
  }

  lemma {:induction false} OneMoreConsidered(st: Store, now: int, w: Weather, left: set<Tenant>, rows: map<Tenant, Schedule>,
                          queued: seq<(Tenant, Workspace)>, t: Tenant, row: map<Tenant, Schedule>, more: seq<(Tenant, Workspace)>)
    requires Considered(st, now, w, left, rows, queued) && t in left && t in st.schedules
    requires (t in Due(st, now) ==> TenantOk(st, now, w, t)) && Adds(st, now, w, t, row, more)
    ensures Considered(st, now, w, left - {t}, rows + row, queued + more)
  {
    var fired := Firing(st, now) - left;
    if t in Firing(st, now) {
      assert Firing(st, now) - (left - {t}) == fired + {t};
      MovedGrows(st, now, w, fired, t);
      PairsGrow(st, fired, t);
    } else {
      assert Firing(st, now) - (left - {t}) == fired;
      assert rows + map[] == rows && queued + [] == queued;
    }
  }

  class Scheduler {
    var store: Store

    constructor (st: Store)
      ensures store == st
    {
      store := st;
    }

    /** `set`: the first run is one interval from now; a refused text changes nothing. */
    method Set(tenant: Tenant, interval: string, timezone: Option<string>, now: int, latest: int, known: string -> bool)
      returns (r: Result<()>)
      modifies this
      ensures r.Ok? <==> SetOk(interval, timezone, now, latest, known)
      ensures r.Err? ==> r.error == Validation
      ensures store == if r.Ok? then AfterSet(old(store), tenant, interval, timezone, now, latest) else old(store)
    {
      if Trim(interval) == [] { return Err(Validation); }
      if timezone.Some? && !known(Trim(timezone.value)) { return Err(Validation); }
      var due := ComputeNextDue(interval, now, latest);
      if due.None? { return Err(Validation); }
      var zone := if timezone.Some? then Some(Trim(timezone.value)) else None;
      store := store.(schedules := store.schedules[tenant := Schedule(interval, zone, due, now)]);
      return Ok(());
    }

    method Clear(tenant: Tenant)
      modifies this
      ensures store == old(store).(schedules := old(store).schedules - {tenant})
    {
      store := store.(schedules := store.schedules - {tenant});
    }

    /** The workspaces of one tenant are queued for dispatch, unless a worker class cannot be resolved. */
    method QueueWorkspaces(t: Tenant, w: Weather) returns (r: Result<seq<(Tenant, Workspace)>>)
      ensures r.Ok? <==> forall x :: x in WorkspacesOf(store, t) ==> w.resolves(x)
      ensures r.Ok? ==> multiset(r.value) == multiset(Pairs(store, {t}))
    {
      var left := WorkspacesOf(store, t);
      var queued: seq<(Tenant, Workspace)> := [];
      ghost var done: set<(Tenant, Workspace)> := {};
      while left != {}
        invariant left <= WorkspacesOf(store, t)
        invariant forall x :: x in WorkspacesOf(store, t) && x !in left ==> w.resolves(x)
        invariant multiset(queued) == multiset(done)
        invariant forall p :: p in done <==> p.0 == t && p.1 in WorkspacesOf(store, t) && p.1 !in left
        decreases left
      {
        var x :| x in left;
        if !w.resolves(x) { return Err(Internal); }
        left := left - {x};
        queued := queued + [(t, x)];
        done := done + {(t, x)};
      }
      assert done == Pairs(store, {t});
      return Ok(queued);
    }

    /** What the loop does for one schedule: the next due time and the dispatches of a firing tenant. */
    method Consider(t: Tenant, now: int, w: Weather) returns (r: Result<(map<Tenant, Schedule>, seq<(Tenant, Workspace)>)>)
      requires t in store.schedules
      ensures r.Ok? <==> (t in Due(store, now) ==> TenantOk(store, now, w, t))
      ensures r.Ok? ==> Adds(store, now, w, t, r.value.0, r.value.1)
    {
      var s := store.schedules[t];
      if s.due.None? || !IsDue(s, now) { return Ok((map[], [])); }
      if !w.checks(t) { return Err(Internal); }
      if t !in store.active { return Ok((map[], [])); }
      var next := ComputeNextDue(s.interval, now, w.latest);
      if next.None? { return Err(Internal); }
      if !w.finds(t) { return Err(Internal); }
      var queued := QueueWorkspaces(t, w);
      if queued.Err? { return Err(Internal); }
      if !w.updates(t) { return Err(Internal); }
      return Ok((map[t := s.(due := next, updated := now)], queued.value));
    }

    /** The loop over all schedules. */
    method ConsiderAll(now: int, w: Weather) returns (r: Result<(map<Tenant, Schedule>, seq<(Tenant, Workspace)>)>)
      ensures r.Ok? <==> forall t :: t in Due(store, now) ==> TenantOk(store, now, w, t)
      ensures r.Ok? ==> r.value.0 == Moved(store, now, w, Firing(store, now))
      ensures r.Ok? ==> multiset(r.value.1) == multiset(Pairs(store, Firing(store, now)))
    {
      var left := store.schedules.Keys;
      var rows: map<Tenant, Schedule> := store.schedules;
      var queued: seq<(Tenant, Workspace)> := [];
      NothingConsidered(store, now, w);
      while left != {}
        invariant left <= store.schedules.Keys && Considered(store, now, w, left, rows, queued)
        decreases left
      {
        var t :| t in left;
        var step := Consider(t, now, w);
        if step.Err? { return Err(Internal); }
        OneMoreConsidered(store, now, w, left, rows, queued, t, step.value.0, step.value.1);
        left := left - {t};
        rows := rows + step.value.0;
        queued := queued + step.value.1;
      }
      assert Firing(store, now) - {} == Firing(store, now);
      return Ok((rows, queued));
    }

    /** `dispatch_reindex_batch` inside the transaction: the recorded jobs, and whether any failed. */
    method DispatchBatch(queued: seq<(Tenant, Workspace)>, w: Weather) returns (failures: nat, outbox: multiset<(Tenant,
                         Workspace)>)
      ensures failures == 0 <==> forall p :: p in queued ==> w.dispatches(p.1)
      ensures failures == 0 ==> outbox == store.outbox + multiset(queued)
    {
      failures, outbox := 0, store.outbox;
      for k := 0 to |queued|
        invariant failures == 0 <==> forall j :: 0 <= j < k ==> w.dispatches(queued[j].1)
        invariant failures == 0 ==> outbox == store.outbox + multiset(queued[..k])
      {
        assert queued[..k + 1] == queued[..k] + [queued[k]];
        if w.dispatches(queued[k].1) {
          outbox := outbox + multiset{queued[k]};
        } else {
          failures := failures + 1;
        }
      }
      assert queued[..|queued|] == queued;
    }

    /** `tick` is all or nothing. It answers Ok when another owner holds the scheduler, or when it has committed and
        given ownership back. */
    method Tick(now: int, w: Weather) returns (r: Result<()>)
      modifies this
      ensures store == AfterTick(old(store), now, w)
      ensures r.Ok? <==> AnswersOk(old(store), now, w)
    {
      if w.ownership == HeldByAnother { return Ok(()); }
      if w.ownership == Unavailable { return Err(Internal); }
      if !w.begins || !w.lists { return Err(Internal); }
      var planned := ConsiderAll(now, w);
      if planned.Err? { return Err(Internal); }
      var failures, outbox := DispatchBatch(planned.value.1, w);
      SameMembers(planned.value.1, Pairs(store, Firing(store, now)));
      if failures != 0 { return Err(Internal); }
      if !w.commits { return Err(Internal); }
      store := store.(schedules := planned.value.0, outbox := outbox);
      if !w.releases { return Err(Internal); }
      return Ok(());
    }
  }

  lemma {:induction false} SameMembers(s: seq<(Tenant, Workspace)>, pairs: set<(Tenant, Workspace)>)
    requires multiset(s) == multiset(pairs)
    ensures forall p :: p in s <==> p in pairs
  {
    forall p ensures p in s <==> p in pairs { assert p in multiset(s) <==> p in multiset(pairs); }
  }

  ghost predicate SetOk(interval: string, timezone: Option<string>, now: int, latest: int, known: string -> bool)
  {
    (timezone.Some? ==> known(Trim(timezone.value))) && NextDue(interval, now, latest).Some?
  }

  ghost function AfterSet(st: Store, tenant: Tenant, interval: string, timezone: Option<string>, now: int, latest: int): Store
  {
    var zone := if timezone.Some? then Some(Trim(timezone.value)) else None;
    st.(schedules := st.schedules[tenant := Schedule(interval, zone, NextDue(interval, now, latest), now)])
  }

  // ---------------------------------------------------------------- what a tick means

  /** A committed tick moves every firing schedule past itself, gives each of its workspaces exactly one more job, and
      leaves every other schedule and workspace alone. */
  lemma {:induction false} CommittedTick(st: Store, now: int, w: Weather)
    requires Commits(st, now, w)
    ensures var after := Advanced(st, now, w);
            && after.schedules.Keys == st.schedules.Keys
            && (forall t :: t in Firing(st, now) ==>
                  after.schedules[t].due.Some? && after.schedules[t].due.value >= now + MIN_INTERVAL_SECONDS * SECOND)
            && (forall t :: t in st.schedules && t !in Firing(st, now) ==> after.schedules[t] == st.schedules[t])
            && (forall t, x :: after.outbox[(t, x)] == st.outbox[(t, x)]
                  + if t in Firing(st, now) && x in WorkspacesOf(st, t) then 1 else 0)
  {
    var after := Advanced(st, now, w);
    forall t | t in Firing(st, now) ensures after.schedules[t].due.Some? { assert TenantOk(st, now, w, t); }
    forall t, x
      ensures after.outbox[(t, x)] == st.outbox[(t, x)] + if t in Firing(st, now) && x in WorkspacesOf(st, t) then 1 else 0
    { assert (t, x) in Pairs(st, Firing(st, now)) <==> t in Firing(st, now) && x in WorkspacesOf(st, t); }
  }

  /** A tick that answers with an error has nevertheless changed the tables exactly if it committed work and only the
      release of ownership failed; a caller that retries on error then finds the schedules already advanced. */
  lemma {:induction false} ErrorAfterCommitExactlyWhen(st: Store, now: int, w: Weather)
    ensures !AnswersOk(st, now, w) && AfterTick(st, now, w) != st
       <==> Commits(st, now, w) && !w.releases && Firing(st, now) != {}
  {
    if Commits(st, now, w) {
      if Firing(st, now) == {} {
        NothingMoved(st, now, w);
      } else {
        CommittedTick(st, now, w);
        var t :| t in Firing(st, now);
        assert AfterTick(st, now, w).schedules[t].due != st.schedules[t].due;
      }
    }
  }

  /** A schedule that is due. */
  function DueWith(interval: string): Store
  {
    Store(map[1 := Schedule(interval, None, Some(0), 0)], {1}, map[2 := 1], multiset{})
  }

  /** Everything succeeds except giving ownership back. */
  function ReleaseFails(): Weather
  {
    Weather(Acquired, true, true, _ => true, _ => true, _ => true, _ => true, _ => true, true, false, 1_000_000 * SECOND)
  }

  lemma {:induction false} ReleaseAloneFails(interval: string)
    requires IntervalOf(interval) == Some(86_400)
    ensures var st, w := DueWith(interval), ReleaseFails();
            && !AnswersOk(st, 0, w) && 1 in AfterTick(st, 0, w).schedules
            && AfterTick(st, 0, w).schedules[1].due == Some(86_400 * SECOND) && AfterTick(st, 0, w).outbox[(1, 2)] == 1
  {
    var st, w := DueWith(interval), ReleaseFails();
    assert Due(st, 0) == {1} && Firing(st, 0) == {1};
    assert TenantOk(st, 0, w, 1);
    assert Commits(st, 0, w);
    CommittedTick(st, 0, w);
    assert 2 in WorkspacesOf(st, 1);
  }

  /** The tick answers with an error, and yet the daily schedule has advanced by a day and the workspace has a job. */
  lemma {:induction false} ErrorHidesACommittedTick()
    ensures var st, w := DueWith("P1D"), ReleaseFails();
            && !AnswersOk(st, 0, w) && 1 in AfterTick(st, 0, w).schedules
            && AfterTick(st, 0, w).schedules[1].due == Some(86_400 * SECOND) && AfterTick(st, 0, w).outbox[(1, 2)] == 1
  {
    IntervalWeights.OneDay();
    ReleaseAloneFails("P1D");
  }

  // ---------------------------------------------------------------- runs

  datatype Step =
    | SetStep(tenant: Tenant, interval: string, timezone: Option<string>, latest: int, known: string -> bool)
    | ClearStep(tenant: Tenant)
    | TickStep(weather: Weather)
    | Others(active: set<Tenant>, homes: map<Workspace, Tenant>)

  /** A step and the time at which it happens. */
  datatype Event = Event(now: int, step: Step)

  ghost function Apply(st: Store, e: Event): Store
  {
    match e.step
    case SetStep(tenant, interval, timezone, latest, known) =>
      if SetOk(interval, timezone, e.now, latest, known) then AfterSet(st, tenant, interval, timezone, e.now, latest) else st
    case ClearStep(tenant) => st.(schedules := st.schedules - {tenant})
    case TickStep(w) => AfterTick(st, e.now, w)
    case Others(active, homes) => st.(active := active, homes := homes)
  }

  /** A step of a run is a call of the scheduler: what a run does is what these calls leave. */
  method Perform(scheduler: Scheduler, e: Event)
    requires !e.step.Others?
    modifies scheduler
    ensures scheduler.store == Apply(old(scheduler.store), e)
  {
    match e.step
    case SetStep(tenant, interval, timezone, latest, known) => { var r := scheduler.Set(tenant, interval, timezone, e.now, latest, known); }
    case ClearStep(tenant) => { scheduler.Clear(tenant); }
    case TickStep(w) => { var r := scheduler.Tick(e.now, w); }
  }

  ghost function After(st: Store, events: seq<Event>): Store
    decreases |events|
  {
    if events == [] then st else After(Apply(st, events[0]), events[1..])
  }

  ghost predicate InOrder(events: seq<Event>)
  {
    forall j, k :: 0 <= j < k < |events| ==> events[j].now <= events[k].now
  }

  /** The event is a tick that dispatches for the tenant. */
  ghost predicate Fires(st: Store, e: Event, t: Tenant)
  {
    e.step.TickStep? && Commits(st, e.now, e.step.weather) && t in Firing(st, e.now)
  }

  /** The tenant is not due again before `soonest`. */
  predicate RestsUntil(st: Store, t: Tenant, soonest: int)
  {
    t in st.schedules && st.schedules[t].due.Some? ==> st.schedules[t].due.value >= soonest
  }

  lemma {:induction false} StepKeepsRest(st: Store, e: Event, t: Tenant, fired: int)
    requires RestsUntil(st, t, fired + MIN_INTERVAL_SECONDS * SECOND) && fired <= e.now
    ensures RestsUntil(Apply(st, e), t, fired + MIN_INTERVAL_SECONDS * SECOND)
  {
  }

  lemma {:induction false} RunKeepsRest(st: Store, events: seq<Event>, t: Tenant, fired: int)
    requires RestsUntil(st, t, fired + MIN_INTERVAL_SECONDS * SECOND)
    requires forall k :: 0 <= k < |events| ==> fired <= events[k].now
    ensures RestsUntil(After(st, events), t, fired + MIN_INTERVAL_SECONDS * SECOND)
    decreases |events|
  {
    if events != [] {
      StepKeepsRest(st, events[0], t, fired);
      RunKeepsRest(Apply(st, events[0]), events[1..], t, fired);
    }
  }

  lemma {:induction false} FiringRests(st: Store, e: Event, t: Tenant)
    requires Fires(st, e, t)
    ensures RestsUntil(Apply(st, e), t, e.now + MIN_INTERVAL_SECONDS * SECOND)
  {
    CommittedTick(st, e.now, e.step.weather);
  }

  lemma {:induction false} OrderedAfterTheFirst(first: Event, between: seq<Event>, second: Event)
    requires InOrder([first] + between + [second])
    ensures forall k :: 0 <= k < |between| ==> first.now <= between[k].now
  {
    var all := [first] + between + [second];
    forall k | 0 <= k < |between| ensures first.now <= between[k].now { assert all[0] == first && all[k + 1] == between[k]; }
  }

  /** Whatever is set, cleared or changed in between, two ticks that dispatch for one tenant are at least 300 seconds
      apart as long as the clock never runs backwards. */
  lemma {:induction false} DispatchesAreSpaced(st: Store, first: Event, between: seq<Event>, second: Event, t: Tenant)
    requires InOrder([first] + between + [second])
    requires Fires(st, first, t) && Fires(After(Apply(st, first), between), second, t)
    ensures second.now - first.now >= MIN_INTERVAL_SECONDS * SECOND
  {
    OrderedAfterTheFirst(first, between, second);
    FiringRests(st, first, t);
    RunKeepsRest(Apply(st, first), between, t, first.now);
    assert IsDue(After(Apply(st, first), between).schedules[t], second.now);
  }

  // ---------------------------------------------------------------- the same in seconds and rows

  /** The interval is at least five minutes and, in nanoseconds from `now`, stays in the range of times. */
  ghost predicate IsUsable(interval: string, now: int, latest: int, n: nat)
  {
    IntervalOf(interval) == Some(n) && n >= 300 && now + n * 1_000_000_000 <= latest
  }

  lemma {:induction false} NextDueMeans(interval: string, now: int, latest: int)
    ensures NextDue(interval, now, latest).Some? <==> exists n: nat :: IsUsable(interval, now, latest, n)
    ensures forall n: nat :: IsUsable(interval, now, latest, n) ==> NextDue(interval, now, latest) == Some(now + n * 1_000_000_000)
  {
    if NextDue(interval, now, latest).Some? { assert IsUsable(interval, now, latest, IntervalOf(interval).value); }
  }

  /** A schedule is stored exactly for a known zone and a usable interval; it is due one interval from now, and no other
      schedule changes. */
  lemma {:induction false} SetMeans(st: Store, tenant: Tenant, interval: string, timezone: Option<string>, now: int, latest: int,
                                    known: string -> bool)
    ensures SetOk(interval, timezone, now, latest, known) <==>
              (timezone == None || known(Trim(timezone.value))) && exists n: nat :: IsUsable(interval, now, latest, n)
    ensures var after := AfterSet(st, tenant, interval, timezone, now, latest);
            && after.active == st.active && after.homes == st.homes && after.outbox == st.outbox
            && (forall t :: t in after.schedules <==> t in st.schedules || t == tenant)
            && (forall t :: t in st.schedules && t != tenant ==> after.schedules[t] == st.schedules[t])
            && after.schedules[tenant].interval == interval && after.schedules[tenant].updated == now
            && after.schedules[tenant].timezone == (if timezone == None then None else Some(Trim(timezone.value)))
            && forall n: nat :: IsUsable(interval, now, latest, n) ==>
                 after.schedules[tenant].due == Some(now + n * 1_000_000_000)
  {
    NextDueMeans(interval, now, latest);
  }

  /** The tenant's schedule has come due, and the tenant is not disabled. */
  predicate ComesDue(st: Store, now: int, t: Tenant)
  {
    t in st.schedules && st.schedules[t].due != None && st.schedules[t].due.value <= now
  }

  /** The tick does its work: it owns the scheduler, its transaction begins, reads and commits, and for every schedule that
      has come due the tenant can be checked; and if it is not disabled, the interval is usable, its workspaces are found,
      resolved and dispatched, and the row is updated. */
  ghost predicate Works(st: Store, now: int, w: Weather)
  {
    && w.ownership.Acquired? && w.begins && w.lists && w.commits
    && (forall t :: ComesDue(st, now, t) ==> w.checks(t))
    && (forall t :: ComesDue(st, now, t) && t in st.active ==>
          w.finds(t) && w.updates(t) && exists n: nat :: IsUsable(st.schedules[t].interval, now, w.latest, n))
    && (forall x :: x in st.homes && ComesDue(st, now, st.homes[x]) && st.homes[x] in st.active ==> w.resolves(x) && w.dispatches(x))
  }

  lemma {:induction false} WorksIsCommits(st: Store, now: int, w: Weather)
    ensures Commits(st, now, w) <==> Works(st, now, w)
  {
    forall t ensures ComesDue(st, now, t) <==> t in Due(st, now) { }
    if Commits(st, now, w) {
      forall t | ComesDue(st, now, t) ensures TenantOk(st, now, w, t) { assert t in Due(st, now); }
      forall t | ComesDue(st, now, t) && t in st.active ensures exists n: nat :: IsUsable(st.schedules[t].interval, now, w.latest, n) {
        NextDueMeans(st.schedules[t].interval, now, w.latest);
      }
      forall x | x in st.homes && ComesDue(st, now, st.homes[x]) && st.homes[x] in st.active ensures w.resolves(x) && w.dispatches(x) {
        assert x in WorkspacesOf(st, st.homes[x]);
        assert (st.homes[x], x) in Pairs(st, Firing(st, now));
      }
    }
    if Works(st, now, w) {
      forall t | t in Due(st, now) ensures TenantOk(st, now, w, t) {
        if t in st.active { NextDueMeans(st.schedules[t].interval, now, w.latest); }
      }
      forall p | p in Pairs(st, Firing(st, now)) ensures w.dispatches(p.1) { }
    }
  }

  /** The row of a schedule after the tick: one interval ahead if its tenant came due and is not disabled. */
  ghost predicate TicksTo(st: Store, now: int, latest: int, t: Tenant, row: Schedule)
    requires t in st.schedules
  {
    var s := st.schedules[t];
    if ComesDue(st, now, t) && t in st.active
    then row.interval == s.interval && row.timezone == s.timezone && row.updated == now
         && exists n: nat :: IsUsable(s.interval, now, latest, n) && row.due == Some(now + n * 1_000_000_000)
    else row == s
  }

  /** After a tick that does its work, every schedule that came due for a tenant that is not disabled is one interval
      ahead, and the others are as they were. */
  lemma {:induction false} WorkingTickMovesSchedules(st: Store, now: int, w: Weather)
    requires Works(st, now, w)
    ensures AfterTick(st, now, w).schedules.Keys == st.schedules.Keys
    ensures forall t :: t in st.schedules ==> TicksTo(st, now, w.latest, t, AfterTick(st, now, w).schedules[t])
  {
    WorksIsCommits(st, now, w);
    forall t | t in st.schedules ensures TicksTo(st, now, w.latest, t, AfterTick(st, now, w).schedules[t]) {
      NextDueMeans(st.schedules[t].interval, now, w.latest);
      assert t in Firing(st, now) <==> ComesDue(st, now, t) && t in st.active;
    }
  }

  /** After a tick that does its work, each workspace of such a tenant has exactly one more job, and nobody else has. */
  lemma {:induction false} WorkingTickDispatches(st: Store, now: int, w: Weather, t: Tenant, x: Workspace)
    requires Works(st, now, w)
    ensures AfterTick(st, now, w).outbox[(t, x)] == st.outbox[(t, x)]
              + if x in st.homes && st.homes[x] == t && ComesDue(st, now, t) && t in st.active then 1 else 0
  {
    WorksIsCommits(st, now, w);
    CommittedTick(st, now, w);
    assert t in Firing(st, now) <==> ComesDue(st, now, t) && t in st.active;
    assert x in WorkspacesOf(st, t) <==> x in st.homes && st.homes[x] == t;
  }

  /** A tick that does not do all its work leaves everything as it was. It answers Ok if another owner holds the scheduler, or
      if it did its work and gave ownership back. */
  lemma {:induction false} TickIsAllOrNothing(st: Store, now: int, w: Weather)
    ensures !Works(st, now, w) ==> AfterTick(st, now, w) == st
    ensures AfterTick(st, now, w).active == st.active && AfterTick(st, now, w).homes == st.homes
    ensures AnswersOk(st, now, w) <==> w.ownership == HeldByAnother || (Works(st, now, w) && w.releases)
  {
    WorksIsCommits(st, now, w);
  }

  /** The spacing of two dispatching ticks, in nanoseconds. */
  lemma {:induction false} FiveMinutesBetweenDispatches(st: Store, first: Event, between: seq<Event>, second: Event, t: Tenant)
    requires InOrder([first] + between + [second]) && first.step.TickStep? && second.step.TickStep?
    requires Works(st, first.now, first.step.weather) && ComesDue(st, first.now, t) && t in st.active
    requires var then' := After(Apply(st, first), between);
             Works(then', second.now, second.step.weather) && ComesDue(then', second.now, t) && t in then'.active
    ensures second.now - first.now >= 300_000_000_000
  {
    WorksIsCommits(st, first.now, first.step.weather);
    WorksIsCommits(After(Apply(st, first), between), second.now, second.step.weather);
    DispatchesAreSpaced(st, first, between, second, t);
  }
}
