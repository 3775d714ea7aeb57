/**
 * The stop protocol of `NetworkInstanceManager`: instance threads, one stop task per watched
 * instance, daemon guards, and the single waiter parked on a one-permit notifier. Every step
 * below is one atomic action of one thread; a run is any interleaving of steps.
 */
module InstanceWait {
  import opened Prelude

  /** The instance thread: `instance_alive`, then the store of `false`, then its notify. */
  datatype Worker = Running | Stopped | Signalled

  /**
   * The stop task: not requested, requested but not spawned, parked on the instance's notifier,
   * past it, past `stop_check_notifier.notify_one()`, ended, aborted, or never spawned because
   * the instance had left the map.
   */
  datatype Watcher = Never | Planned | Waiting | Woken | Notified | Ended | Aborted | Failed

  datatype Instance = Instance(id: nat, inMap: bool, worker: Worker, watcher: Watcher)

  /** `wait`: between iterations, scanning the map, committed to waiting, parked, returned. */
  datatype Waiter =
    | Idle
    | Scanning(seen: set<nat>, toVisit: set<nat>)
    | Committed
    | Parked
    | Returned

  /** Instances are named by start order; `id` is the configured one and may recur. */
  datatype State = State(
    instances: map<nat, Instance>,
    tasks: map<nat, nat>,        // instance_stop_tasks: id to the instance whose task it holds
    guards: nat,                 // live DaemonGuards
    dropping: nat,               // guards released, notify still to come
    permit: bool,                // the permit stored in stop_check_notifier
    waiter: Waiter)

  const INIT: State := State(map[], map[], 0, 0, false, Idle)

  datatype Event =
    | Start(g: nat, id: nat, watch: bool)
    | SpawnWatcher(g: nat)
    | WorkerStop(g: nat)
    | WorkerSignal(g: nat)
    | WatcherWake(g: nat)
    | WatcherNotify(g: nat)
    | WatcherRemove(g: nat)
    | Delete(g: nat)
    | GuardRegister
    | GuardDrop
    | GuardNotify
    | NotifyStopCheck
    | BeginScan
    | ScanRead(g: nat)
    | ScanEnd
    | Park
    | Wake

  predicate Alive(s: State, g: nat) {
    g in s.instances && s.instances[g].inMap && s.instances[g].worker == Running
  }

  predicate IdInMap(s: State, id: nat) {
    exists g :: g in s.instances && s.instances[g].inMap && s.instances[g].id == id
  }

  function WithWorker(s: State, g: nat, worker: Worker): State
    requires g in s.instances
  {
    s.(instances := s.instances[g := s.instances[g].(worker := worker)])
  }

  function WithWatcher(s: State, g: nat, watcher: Watcher): State
    requires g in s.instances
  {
    s.(instances := s.instances[g := s.instances[g].(watcher := watcher)])
  }

  /** Dropping the handle of a stop task aborts it if it is parked at its only `await`. */
  function DropHandle(s: State, id: nat): State {
    if id in s.tasks && s.tasks[id] in s.instances && s.instances[s.tasks[id]].watcher == Waiting
    then WithWatcher(s, s.tasks[id], Aborted) else s
  }

  function Keys(s: State): set<nat> {
    set g | g in s.instances && s.instances[g].inMap
  }

  /** One atomic action, or `None` when it is not enabled. */
  function Step(s: State, ev: Event): (r: Option<State>) {
    match ev
    case Start(g, id, watch) =>
      if g in s.instances || IdInMap(s, id) then None
      else Some(s.(instances := s.instances[g := Instance(id, true, Running, if watch then Planned else Never)]))
    case SpawnWatcher(g) =>
      if g !in s.instances || s.instances[g].watcher != Planned then None
      else if !s.instances[g].inMap then Some(WithWatcher(s, g, Failed))
      else
        var dropped := DropHandle(s, s.instances[g].id);
        Some(WithWatcher(dropped, g, Waiting).(tasks := s.tasks[s.instances[g].id := g]))
    case WorkerStop(g) =>
      if g in s.instances && s.instances[g].worker == Running then Some(WithWorker(s, g, Stopped)) else None
    case WorkerSignal(g) =>
      if g in s.instances && s.instances[g].worker == Stopped then Some(WithWorker(s, g, Signalled)) else None
    case WatcherWake(g) =>
      if g in s.instances && s.instances[g].watcher == Waiting && s.instances[g].worker == Signalled
      then Some(WithWatcher(s, g, Woken)) else None
    case WatcherNotify(g) =>
      if g in s.instances && s.instances[g].watcher == Woken then Some(WithWatcher(s, g, Notified).(permit := true))
        else None
    case WatcherRemove(g) =>
      if g !in s.instances || s.instances[g].watcher != Notified then None
      else Some(WithWatcher(DropHandle(s, s.instances[g].id), g, Ended).(tasks := s.tasks - {s.instances[g].id}))
    case Delete(g) =>  // removal drops the launcher, which joins the instance thread
      if g in s.instances && s.instances[g].inMap && s.instances[g].worker == Signalled
      then Some(s.(instances := s.instances[g := s.instances[g].(inMap := false)])) else None
    case GuardRegister => Some(s.(guards := s.guards + 1))
    case GuardDrop => if s.guards == 0 then None else Some(s.(guards := s.guards - 1, dropping := s.dropping + 1))
    case GuardNotify => if s.dropping == 0 then None else Some(s.(dropping := s.dropping - 1, permit := true))
    case NotifyStopCheck => Some(s.(permit := true))
    case BeginScan => if s.waiter.Idle? then Some(s.(waiter := Scanning(Keys(s), Keys(s)))) else None
    case ScanRead(g) =>
      if !s.waiter.Scanning? || !(g in s.waiter.toVisit || Alive(s, g)) then None
      else if Alive(s, g) then Some(s.(waiter := Committed))
      else Some(s.(waiter := Scanning(s.waiter.seen, s.waiter.toVisit - {g})))
    case ScanEnd =>
      if !s.waiter.Scanning? || s.waiter.toVisit != {} then None
      else Some(s.(waiter := if s.guards > 0 then Committed else Returned))
    case Park =>
      if !s.waiter.Committed? then None
      else if s.permit then Some(s.(waiter := Idle, permit := false))
      else Some(s.(waiter := Parked))
    case Wake => if s.waiter.Parked? && s.permit then Some(s.(waiter := Idle, permit := false)) else None
  }

  function Run(s: State, evs: seq<Event>): (r: Option<State>)
    decreases |evs|
  {
    if evs == [] then Some(s)
    else
      match Step(s, evs[0])
      case None => None
      case Some(s1) => Run(s1, evs[1..])
  }

  // --- How the manager is used ---

  /** Which uses are allowed besides watched instances with fresh ids. */
  datatype Discipline = Discipline(unwatched: bool, reuseIds: bool, earlyDelete: bool)

  const STRICT: Discipline := Discipline(false, false, false)

  predicate Allowed(d: Discipline, s: State, ev: Event) {
    match ev
    case Start(_, id, watch) =>
      && (watch || d.unwatched)
      && (d.reuseIds || forall g :: g in s.instances ==> s.instances[g].id != id)
    case Delete(g) => d.earlyDelete || (g in s.instances ==> s.instances[g].watcher != Planned)
    case _ => true
  }

  predicate AllowedRun(d: Discipline, s: State, evs: seq<Event>)
    decreases |evs|
  {
    evs != [] ==> Allowed(d, s, evs[0]) && (Step(s, evs[0]).Some? ==> AllowedRun(d, Step(s, evs[0]).value, evs[1..]))
  }

  // --- The invariant ---

  /** A stop task that has still to notify the waiter. */
  predicate Owing(w: Watcher) {
    w == Planned || w == Waiting || w == Woken
  }

  predicate Sane(i: Instance) {
    && (i.worker == Running ==> i.watcher == Planned || i.watcher == Waiting)
    && (i.watcher == Planned ==> i.inMap)
    && i.watcher != Never && i.watcher != Aborted && i.watcher != Failed
    && (i.watcher == Woken ==> i.worker == Signalled)
  }

  ghost predicate Inv(s: State) {
    && (forall g :: g in s.instances ==> Sane(s.instances[g]))
    && (forall g, h :: g in s.instances && h in s.instances && g != h ==> s.instances[g].id != s.instances[h].id)
    && (forall id :: id in s.tasks ==> s.tasks[id] in s.instances && s.instances[s.tasks[id]].id == id)
    && (s.waiter.Committed? || s.waiter.Parked? ==>
          s.permit || s.guards > 0 || s.dropping > 0 || exists g :: g in s.instances && Owing(s.instances[g].watcher))
    && (s.waiter.Scanning? ==>
          && s.waiter.toVisit <= s.waiter.seen <= s.instances.Keys
          && forall g :: g in s.waiter.seen && g !in s.waiter.toVisit ==> !Alive(s, g))
  }

  /** A witness for the owing clause survives a step on another instance. */
  lemma OwingKept(s: State, s': State, g: nat)
    requires Inv(s) && g in s.instances && s'.instances.Keys == s.instances.Keys
    requires forall h :: h in s.instances && h != g ==> s'.instances[h] == s.instances[h]
    requires Owing(s.instances[g].watcher) ==> Owing(s'.instances[g].watcher) || s'.permit
    requires s'.waiter == s.waiter && (s.permit ==> s'.permit)
    requires s'.guards == s.guards && s'.dropping == s.dropping
    ensures s'.waiter.Committed? || s'.waiter.Parked? ==>
              || s'.permit || s'.guards > 0 || s'.dropping > 0
              || exists h :: h in s'.instances && Owing(s'.instances[h].watcher)
  {
    if (s.waiter.Committed? || s.waiter.Parked?) && !s'.permit && s.guards == 0 && s.dropping == 0 {
      var h :| h in s.instances && Owing(s.instances[h].watcher);
      assert Owing(s'.instances[h].watcher);
    }
  }

  lemma InstanceStep(s: State, s': State, g: nat)
    requires Inv(s) && g in s.instances
    requires g in s'.instances && s'.instances == s.instances[g := s'.instances[g]]
             && s'.instances[g].id == s.instances[g].id
    requires Sane(s'.instances[g]) && (s'.instances[g].worker == Running ==> s.instances[g].worker == Running)
    requires s'.instances[g].inMap ==> s.instances[g].inMap
    requires Owing(s.instances[g].watcher) ==> Owing(s'.instances[g].watcher) || s'.permit
    requires s'.waiter == s.waiter && (s.permit ==> s'.permit)
    requires s'.guards == s.guards && s'.dropping == s.dropping
    requires forall id :: id in s'.tasks ==>
             (id in s.tasks && s'.tasks[id] == s.tasks[id]) || (id == s.instances[g].id && s'.tasks[id] == g)
    ensures Inv(s')
  {
    OwingKept(s, s', g);
  }

  lemma StartStep(s: State, s': State, g: nat, id: nat)
    requires Inv(s) && g !in s.instances && (forall h :: h in s.instances ==> s.instances[h].id != id)
    requires s' == s.(instances := s.instances[g := Instance(id, true, Running, Planned)])
    ensures Inv(s')
  {
    assert Owing(s'.instances[g].watcher);
  }

  lemma WaiterStep(s: State, ev: Event)
    requires Inv(s) && Step(s, ev).Some?
    requires ev.BeginScan? || ev.ScanRead? || ev.ScanEnd? || ev.Park? || ev.Wake?
    ensures Inv(Step(s, ev).value)
  {
    if ev.ScanRead? && Alive(s, ev.g) {
      assert Owing(s.instances[ev.g].watcher);
    }
  }

  lemma SpawnKeepsInv(s: State, g: nat)
    requires Inv(s) && Step(s, SpawnWatcher(g)).Some?
    ensures Inv(Step(s, SpawnWatcher(g)).value)
  {
    OwnHandle(s, g);
    InstanceStep(s, Step(s, SpawnWatcher(g)).value, g);
  }

  lemma RemoveKeepsInv(s: State, g: nat)
    requires Inv(s) && Step(s, WatcherRemove(g)).Some?
    ensures Inv(Step(s, WatcherRemove(g)).value)
  {
    OwnHandle(s, g);
    InstanceStep(s, Step(s, WatcherRemove(g)).value, g);
  }

  lemma WorkerKeepsInv(s: State, ev: Event)
    requires Inv(s) && Allowed(STRICT, s, ev) && Step(s, ev).Some?
    requires ev.WorkerStop? || ev.WorkerSignal? || ev.WatcherWake? || ev.WatcherNotify? || ev.Delete?
    ensures Inv(Step(s, ev).value)
  {
    InstanceStep(s, Step(s, ev).value, ev.g);
  }

  lemma GuardKeepsInv(s: State, ev: Event)
    requires Inv(s) && Step(s, ev).Some?
    requires ev.GuardRegister? || ev.GuardDrop? || ev.GuardNotify? || ev.NotifyStopCheck?
    ensures Inv(Step(s, ev).value)
  {
  }

  /** Every allowed step keeps the invariant. */
  lemma StepKeepsInv(s: State, ev: Event)
    requires Inv(s) && Allowed(STRICT, s, ev) && Step(s, ev).Some?
    ensures Inv(Step(s, ev).value)
  {
    match ev {
      case Start(g, id, watch) => StartStep(s, Step(s, ev).value, g, id);
      case SpawnWatcher(g) => SpawnKeepsInv(s, g);
      case WatcherRemove(g) => RemoveKeepsInv(s, g);
      case WorkerStop(_) => WorkerKeepsInv(s, ev);
      case WorkerSignal(_) => WorkerKeepsInv(s, ev);
      case WatcherWake(_) => WorkerKeepsInv(s, ev);
      case WatcherNotify(_) => WorkerKeepsInv(s, ev);
      case Delete(_) => WorkerKeepsInv(s, ev);
      case GuardRegister => GuardKeepsInv(s, ev);
      case GuardDrop => GuardKeepsInv(s, ev);
      case GuardNotify => GuardKeepsInv(s, ev);
      case NotifyStopCheck => GuardKeepsInv(s, ev);
      case _ => WaiterStep(s, ev);
    }
  }

  lemma {:induction false} RunKeepsInv(s: State, evs: seq<Event>)
    requires Inv(s) && AllowedRun(STRICT, s, evs) && Run(s, evs).Some?
    ensures Inv(Run(s, evs).value)
    decreases |evs|
  {
    if evs != [] {
      StepKeepsInv(s, evs[0]);
      RunKeepsInv(Step(s, evs[0]).value, evs[1..]);
    }
  }

  // --- No lost wake-up ---

  predicate AllQuiet(s: State) {
    s.guards == 0 && forall g :: g in s.instances ==> s.instances[g].worker != Running
  }

  /** A wake-up is stored, or a step that will store one is still to come. */
  ghost predicate WakeUpComing(s: State) {
    s.permit || s.dropping > 0 || exists g :: g in s.instances && Owing(s.instances[g].watcher)
  }

  /** The waiter sleeps and nothing will ever wake it. */
  ghost predicate Stuck(s: State) {
    s.waiter.Parked? && AllQuiet(s) && !WakeUpComing(s)
  }

  /**
   * In every interleaving: once everything has stopped, a waiter that has decided to wait, parked
   * or not, has a wake-up stored or still coming.
   */
  lemma NoLostWakeUp(evs: seq<Event>)
    requires AllowedRun(STRICT, INIT, evs) && Run(INIT, evs).Some?
    ensures var s := Run(INIT, evs).value;
            (s.waiter.Committed? || s.waiter.Parked?) && AllQuiet(s) ==> WakeUpComing(s)
  {
    RunKeepsInv(INIT, evs);
  }

  /** `wait` returns only with no guard held and every instance it set out to visit stopped. */
  lemma ReturnIsJustified(evs: seq<Event>, ev: Event)
    requires AllowedRun(STRICT, INIT, evs) && Run(INIT, evs).Some?
    requires var s := Run(INIT, evs).value;
             !s.waiter.Returned? && Step(s, ev).Some? && Step(s, ev).value.waiter.Returned?
    ensures var s := Run(INIT, evs).value;
            s.waiter.Scanning? && s.guards == 0 && forall g :: g in s.waiter.seen ==> !Alive(s, g)
  {
    RunKeepsInv(INIT, evs);
  }

  // --- And the waiter does come back ---

  function WorkerRank(w: Worker): nat {
    match w case Running => 2 case Stopped => 1 case Signalled => 0
  }

  function WatcherRank(w: Watcher): nat {
    match w
    case Planned => 4
    case Waiting => 3
    case Woken => 2
    case Notified => 1
    case _ => 0
  }

  function InstanceRank(i: Instance): nat {
    WorkerRank(i.worker) + WatcherRank(i.watcher) + if i.inMap then 1 else 0
  }

  ghost function SumRank(m: map<nat, Instance>): nat
    decreases |m|
  {
    if m == map[] then 0
    else
      var g :| g in m;
      assert |m - {g}| < |m| by {
        assert (m - {g}).Keys == m.Keys - {g};
        assert |m - {g}| == |(m - {g}).Keys| && |m| == |m.Keys|;
      }
      InstanceRank(m[g]) + SumRank(m - {g})
  }

  lemma {:induction false} SumRankPick(m: map<nat, Instance>, g: nat)
    requires g in m
    ensures SumRank(m) == InstanceRank(m[g]) + SumRank(m - {g})
    decreases |m|
  {
    var h :| h in m && SumRank(m) == InstanceRank(m[h]) + SumRank(m - {h});
    if h != g {
      assert (m - {h}).Keys == m.Keys - {h};
      assert |m - {h}| == |(m - {h}).Keys| && |m| == |m.Keys|;
      assert (m - {g}).Keys == m.Keys - {g};
      SumRankPick(m - {h}, g);
      assert (m - {h}) - {g} == (m - {g}) - {h};
      assert |m - {g}| == |(m - {g}).Keys|;
      SumRankPick(m - {g}, h);
    }
  }

  lemma SumRankUpdate(m: map<nat, Instance>, g: nat, i: Instance)
    requires g in m
    ensures SumRank(m[g := i]) == SumRank(m) - InstanceRank(m[g]) + InstanceRank(i)
  {
    SumRankPick(m, g);
    SumRankPick(m[g := i], g);
    assert m[g := i] - {g} == m - {g};
  }

  ghost function WaiterRank(s: State): nat {
    match s.waiter
    case Returned => 0
    case Scanning(_, toVisit) => 1 + |toVisit|
    case Idle => 2 + |s.instances|
    case Parked => 3 + |s.instances|
    case Committed => 4 + |s.instances|
  }

  ghost function Rank(s: State): nat {
    SumRank(s.instances) + s.dropping + WaiterRank(s)
  }

  /** The steps left once nothing new is started: no new instance, guard or outside notify. */
  predicate Closing(ev: Event) {
    !ev.Start? && !ev.GuardRegister? && !ev.NotifyStopCheck?
  }

  /** The closing steps that the threads and tasks take by themselves; nobody has to delete an instance. */
  predicate Obliged(ev: Event) {
    Closing(ev) && !ev.Delete? && !ev.GuardDrop?
  }

  lemma InstanceRankDrops(s: State, s': State, g: nat)
    requires g in s.instances && g in s'.instances && s'.instances == s.instances[g := s'.instances[g]]
    requires InstanceRank(s'.instances[g]) < InstanceRank(s.instances[g])
    requires s'.dropping == s.dropping && s'.waiter == s.waiter
    ensures Rank(s') < Rank(s)
  {
    SumRankUpdate(s.instances, g, s'.instances[g]);
    assert s'.instances.Keys == s.instances.Keys;
    assert |s'.instances| == |s'.instances.Keys| && |s.instances| == |s.instances.Keys|;
  }

  lemma BeginScanRankDrops(s: State)
    requires Step(s, BeginScan).Some?
    ensures Rank(Step(s, BeginScan).value) < Rank(s)
  {
    SubsetSize(Keys(s), s.instances.Keys);
    assert |s.instances| == |s.instances.Keys|;
  }

  lemma ScanReadRankDrops(s: State, g: nat)
    requires AllQuiet(s) && Step(s, ScanRead(g)).Some?
    ensures Rank(Step(s, ScanRead(g)).value) < Rank(s)
  {
    assert g in s.waiter.toVisit;
    assert s.waiter.toVisit == (s.waiter.toVisit - {g}) + {g};
  }

  lemma WaiterRankDrops(s: State, ev: Event)
    requires AllQuiet(s) && Step(s, ev).Some?
    requires ev.BeginScan? || ev.ScanRead? || ev.ScanEnd? || ev.Park? || ev.Wake?
    ensures Rank(Step(s, ev).value) < Rank(s)
  {
    if ev.BeginScan? {
      BeginScanRankDrops(s);
    } else if ev.ScanRead? {
      ScanReadRankDrops(s, ev.g);
    }
  }

  lemma {:induction false} SubsetSize(a: set<nat>, b: set<nat>)
    requires a <= b
    ensures |a| <= |b|
    decreases |a|
  {
    if a != {} {
      var x :| x in a;
      SubsetSize(a - {x}, b - {x});
    }
  }

  /** With unique ids the handle of a stop task is only ever dropped by that stop task. */
  lemma OwnHandle(s: State, g: nat)
    requires Inv(s) && g in s.instances && s.instances[g].watcher != Waiting
    ensures DropHandle(s, s.instances[g].id) == s
  {
  }

  lemma QuietKept(s: State, ev: Event)
    requires Inv(s) && AllQuiet(s) && Closing(ev) && Step(s, ev).Some?
    ensures AllQuiet(Step(s, ev).value)
  {
    if ev.SpawnWatcher? || ev.WatcherRemove? {
      OwnHandle(s, ev.g);
    }
  }

  lemma InstanceStepRank(s: State, ev: Event)
    requires Inv(s) && AllQuiet(s) && Step(s, ev).Some? && Allowed(STRICT, s, ev)
    requires ev.SpawnWatcher? || ev.WorkerSignal? || ev.WatcherWake? || ev.WatcherNotify? || ev.WatcherRemove?
             || ev.Delete?
    ensures Rank(Step(s, ev).value) < Rank(s)
  {
    if ev.SpawnWatcher? || ev.WatcherRemove? {
      OwnHandle(s, ev.g);
    }
    InstanceRankDrops(s, Step(s, ev).value, ev.g);
  }

  /** While everything is quiet each closing step makes progress and keeps it quiet. */
  lemma ClosingStepProgresses(s: State, ev: Event)
    requires Inv(s) && AllQuiet(s) && Closing(ev) && Allowed(STRICT, s, ev) && Step(s, ev).Some?
    ensures AllQuiet(Step(s, ev).value) && Inv(Step(s, ev).value)
    ensures Rank(Step(s, ev).value) < Rank(s)
  {
    StepKeepsInv(s, ev);
    QuietKept(s, ev);
    if ev.BeginScan? || ev.ScanRead? || ev.ScanEnd? || ev.Park? || ev.Wake? {
      WaiterRankDrops(s, ev);
    } else if !ev.GuardNotify? {
      InstanceStepRank(s, ev);
    }
  }

  /** While everything is quiet and `wait` has not returned, some obliged step is enabled. */
  lemma ClosingStepEnabled(s: State) returns (ev: Event)
    requires Inv(s) && AllQuiet(s) && !s.waiter.Returned?
    ensures Obliged(ev) && Allowed(STRICT, s, ev) && Step(s, ev).Some?
  {
    match s.waiter {
      case Idle => ev := BeginScan;
      case Scanning(seen, toVisit) =>
        if toVisit == {} {
          ev := ScanEnd;
        } else {
          var g :| g in toVisit;
          ev := ScanRead(g);
        }
      case Committed => ev := Park;
      case Parked =>
        if s.permit {
          ev := Wake;
        } else if s.dropping > 0 {
          ev := GuardNotify;
        } else {
          var g :| g in s.instances && Owing(s.instances[g].watcher);
          var i := s.instances[g];
          assert Sane(i);
          if i.watcher == Planned {
            ev := SpawnWatcher(g);
          } else if i.watcher == Woken {
            ev := WatcherNotify(g);
          } else {
            ev := if i.worker == Signalled then WatcherWake(g) else WorkerSignal(g);
          }
        }
    }
  }

  /**
   * From every reachable quiet state, however the remaining steps are scheduled, `wait` returns: a
   * run of closing steps has at most `Rank` steps, and once no obliged step is left `wait` has
   * returned, whether or not stopped instances were deleted.
   */
  lemma {:induction false} WaitReturns(s: State, evs: seq<Event>)
    requires Inv(s) && AllQuiet(s) && AllowedRun(STRICT, s, evs) && Run(s, evs).Some?
    requires forall i :: 0 <= i < |evs| ==> Closing(evs[i])
    ensures |evs| <= Rank(s)
    ensures (forall ev :: Obliged(ev) && Allowed(STRICT, Run(s, evs).value, ev) ==>
              Step(Run(s, evs).value, ev).None?) ==>
              Run(s, evs).value.waiter.Returned?
    decreases |evs|
  {
    if evs == [] {
      if !s.waiter.Returned? {
        var ev := ClosingStepEnabled(s);
      }
    } else {
      ClosingStepProgresses(s, evs[0]);
      WaitReturns(Step(s, evs[0]).value, evs[1..]);
    }
  }

  // --- Exactly which uses are safe ---

  ghost predicate NeverStuck(d: Discipline) {
    forall evs :: AllowedRun(d, INIT, evs) && Run(INIT, evs).Some? ==> !Stuck(Run(INIT, evs).value)
  }

  /** The run is allowed, possible, and ends stuck. */
  ghost predicate EndsStuck(d: Discipline, s: State, evs: seq<Event>) {
    AllowedRun(d, s, evs) && Run(s, evs).Some? && Stuck(Run(s, evs).value)
  }

  lemma Prepend(d: Discipline, s: State, ev: Event, s': State, rest: seq<Event>)
    requires Allowed(d, s, ev) && Step(s, ev) == Some(s') && EndsStuck(d, s', rest)
    ensures EndsStuck(d, s, [ev] + rest)
  {
    assert ([ev] + rest)[1..] == rest;
  }

  /** The scan sees `g` alive. */
  lemma ScanCommits(s: State, g: nat)
    requires s.waiter.Idle? && Alive(s, g)
    ensures Step(s, BeginScan).Some? && Step(Step(s, BeginScan).value, ScanRead(g)) == Some(s.(waiter := Committed))
  {
  }

  /** Commit, then park or use up the permit, ahead of a run that ends stuck. */
  lemma PrependScan(d: Discipline, s: State, g: nat, rest: seq<Event>)
    requires s.waiter.Idle? && Alive(s, g)
    requires EndsStuck(d, if s.permit then s.(permit := false) else s.(waiter := Parked), rest)
    ensures EndsStuck(d, s, [BeginScan] + ([ScanRead(g)] + ([Park] + rest)))
  {
    ScanCommits(s, g);
    var s2 := s.(waiter := Committed);
    var s3 := if s.permit then s.(permit := false) else s.(waiter := Parked);
    assert Step(s2, Park) == Some(s3);
    Prepend(d, s2, Park, s3, rest);
    Prepend(d, Step(s, BeginScan).value, ScanRead(g), s2, [Park] + rest);
    Prepend(d, s, BeginScan, Step(s, BeginScan).value, [ScanRead(g)] + ([Park] + rest));
  }

  /** The thread of `g` stops and signals, ahead of a run that ends stuck. */
  lemma PrependStop(d: Discipline, s: State, g: nat, rest: seq<Event>)
    requires g in s.instances && s.instances[g].worker == Running && EndsStuck(d, WithWorker(s, g, Signalled), rest)
    ensures EndsStuck(d, s, [WorkerStop(g)] + ([WorkerSignal(g)] + rest))
  {
    var s1, s2 := WithWorker(s, g, Stopped), WithWorker(s, g, Signalled);
    assert WithWorker(s1, g, Signalled) == s2;
    Prepend(d, s1, WorkerSignal(g), s2, rest);
    Prepend(d, s, WorkerStop(g), s1, [WorkerSignal(g)] + rest);
  }

  /** An instance no stop task looks after is seen alive, and then stops unheard. */
  lemma UnheardStop(d: Discipline, s: State, g: nat) returns (evs: seq<Event>)
    requires s.waiter.Idle? && Alive(s, g) && !s.permit && s.guards == 0 && s.dropping == 0
    requires forall h :: h in s.instances ==>
             !Owing(s.instances[h].watcher) && (h != g ==> s.instances[h].worker != Running)
    ensures EndsStuck(d, s, evs)
  {
    var parked := s.(waiter := Parked);
    assert Stuck(WithWorker(parked, g, Signalled));
    assert EndsStuck(d, WithWorker(parked, g, Signalled), []);
    PrependStop(d, parked, g, []);
    evs := [WorkerStop(g)] + ([WorkerSignal(g)] + []);
    PrependScan(d, s, g, evs);
    evs := [BeginScan] + ([ScanRead(g)] + ([Park] + evs));
  }

  lemma UnwatchedSticks(d: Discipline) returns (evs: seq<Event>)
    requires d.unwatched
    ensures EndsStuck(d, INIT, evs)
  {
    var s := INIT.(instances := map[0 := Instance(0, true, Running, Never)]);
    evs := UnheardStop(d, s, 0);
    assert Step(INIT, Start(0, 0, false)) == Some(s);
    Prepend(d, INIT, Start(0, 0, false), s, evs);
    evs := [Start(0, 0, false)] + evs;
  }

  /** Deleted between the map insert and the spawn of its stop task. */
  lemma EarlyDeleteSticks(d: Discipline) returns (evs: seq<Event>)
    requires d.earlyDelete
    ensures EndsStuck(d, INIT, evs)
  {
    var s := INIT.(instances := map[0 := Instance(0, true, Running, Planned)]);
    var parked := s.(waiter := Parked);
    var stopped := WithWorker(parked, 0, Signalled);
    var gone := stopped.(instances := map[0 := Instance(0, false, Signalled, Planned)]);
    var failed := gone.(instances := map[0 := Instance(0, false, Signalled, Failed)]);
    assert Stuck(failed) && EndsStuck(d, failed, []);
    assert WithWatcher(gone, 0, Failed).instances == failed.instances;
    assert Step(gone, SpawnWatcher(0)) == Some(failed);
    Prepend(d, gone, SpawnWatcher(0), failed, []);
    assert stopped.instances[0 := stopped.instances[0].(inMap := false)] == gone.instances;
    assert Step(stopped, Delete(0)) == Some(gone);
    Prepend(d, stopped, Delete(0), gone, [SpawnWatcher(0)] + []);
    evs := [Delete(0)] + ([SpawnWatcher(0)] + []);
    PrependStop(d, parked, 0, evs);
    evs := [WorkerStop(0)] + ([WorkerSignal(0)] + evs);
    PrependScan(d, s, 0, evs);
    evs := [BeginScan] + ([ScanRead(0)] + ([Park] + evs));
    assert Step(INIT, Start(0, 0, true)) == Some(s);
    Prepend(d, INIT, Start(0, 0, true), s, evs);
    evs := [Start(0, 0, true)] + evs;
  }

  /** The old stop task, past its notify, removes and so aborts the new instance's task. */
  lemma ReuseSticks(d: Discipline) returns (evs: seq<Event>)
    requires d.reuseIds
    ensures EndsStuck(d, INIT, evs)
  {
    var ended := INIT.(instances := map[0 := Instance(0, false, Signalled, Ended),
                                        1 := Instance(0, true, Running, Aborted)]);
    var noisy := ended.(permit := true);
    evs := UnheardStop(d, ended, 1);
    PrependScan(d, noisy, 1, evs);
    evs := [BeginScan] + ([ScanRead(1)] + ([Park] + evs));
    var both := noisy.(instances := map[0 := Instance(0, false, Signalled, Notified),
                                        1 := Instance(0, true, Running, Waiting)], tasks := map[0 := 1]);
    assert Step(both, WatcherRemove(0)) == Some(noisy) by {
      assert DropHandle(both, 0) == WithWatcher(both, 1, Aborted);
      assert WithWatcher(DropHandle(both, 0), 0, Ended).instances == noisy.instances;
      assert both.tasks - {0} == map[];
    }
    Prepend(d, both, WatcherRemove(0), noisy, evs);
    evs := SecondLife(d, [WatcherRemove(0)] + evs);
  }

  /** The deleted instance's id is taken by a new one, whose stop task replaces the old handle. */
  lemma SecondLife(d: Discipline, rest: seq<Event>) returns (evs: seq<Event>)
    requires d.reuseIds
    requires EndsStuck(d, State(map[0 := Instance(0, false, Signalled, Notified),
                                    1 := Instance(0, true, Running, Waiting)],
                                map[0 := 1], 0, 0, true, Idle), rest)
    ensures EndsStuck(d, INIT, evs)
  {
    var both := State(map[0 := Instance(0, false, Signalled, Notified), 1 := Instance(0, true, Running, Waiting)],
                      map[0 := 1], 0, 0, true, Idle);
    var planned := both.(instances := map[0 := Instance(0, false, Signalled, Notified),
                                          1 := Instance(0, true, Running, Planned)], tasks := map[0 := 0]);
    assert Step(planned, SpawnWatcher(1)) == Some(both) by {
      assert DropHandle(planned, 0) == planned;
      assert WithWatcher(planned, 1, Waiting).instances == both.instances;
      assert planned.tasks[0 := 1] == both.tasks;
    }
    Prepend(d, planned, SpawnWatcher(1), both, rest);
    evs := [SpawnWatcher(1)] + rest;
    var deleted := planned.(instances := map[0 := Instance(0, false, Signalled, Notified)]);
    assert Step(deleted, Start(1, 0, true)) == Some(planned);
    Prepend(d, deleted, Start(1, 0, true), planned, evs);
    evs := FirstLife(d, [Start(1, 0, true)] + evs);
  }

  /** One watched instance, from start to deletion, its stop task just past its notify. */
  lemma FirstLife(d: Discipline, rest: seq<Event>) returns (evs: seq<Event>)
    requires EndsStuck(d, State(map[0 := Instance(0, false, Signalled, Notified)], map[0 := 0], 0, 0, true, Idle), rest)
    ensures EndsStuck(d, INIT, evs)
  {
    var running := State(map[0 := Instance(0, true, Running, Waiting)], map[0 := 0], 0, 0, false, Idle);
    evs := FirstStop(d, rest);
    var planned := INIT.(instances := map[0 := Instance(0, true, Running, Planned)]);
    assert WithWatcher(planned, 0, Waiting).instances == running.instances;
    assert Step(planned, SpawnWatcher(0)) == Some(running);
    Prepend(d, planned, SpawnWatcher(0), running, evs);
    evs := [SpawnWatcher(0)] + evs;
    assert Step(INIT, Start(0, 0, true)) == Some(planned);
    Prepend(d, INIT, Start(0, 0, true), planned, evs);
    evs := [Start(0, 0, true)] + evs;
  }

  lemma FirstStop(d: Discipline, rest: seq<Event>) returns (evs: seq<Event>)
    requires EndsStuck(d, State(map[0 := Instance(0, false, Signalled, Notified)], map[0 := 0], 0, 0, true, Idle), rest)
    ensures EndsStuck(d, State(map[0 := Instance(0, true, Running, Waiting)], map[0 := 0], 0, 0, false, Idle), evs)
  {
    var deleted := State(map[0 := Instance(0, false, Signalled, Notified)], map[0 := 0], 0, 0, true, Idle);
    var notified := deleted.(instances := map[0 := Instance(0, true, Signalled, Notified)]);
    assert notified.instances[0 := notified.instances[0].(inMap := false)] == deleted.instances;
    assert Step(notified, Delete(0)) == Some(deleted);
    Prepend(d, notified, Delete(0), deleted, rest);
    evs := [Delete(0)] + rest;
    var woken := notified.(instances := map[0 := Instance(0, true, Signalled, Woken)], permit := false);
    assert WithWatcher(woken, 0, Notified).instances == notified.instances;
    assert Step(woken, WatcherNotify(0)) == Some(notified);
    Prepend(d, woken, WatcherNotify(0), notified, evs);
    evs := FirstWake(d, [WatcherNotify(0)] + evs);
  }

  lemma FirstWake(d: Discipline, rest: seq<Event>) returns (evs: seq<Event>)
    requires EndsStuck(d, State(map[0 := Instance(0, true, Signalled, Woken)], map[0 := 0], 0, 0, false, Idle), rest)
    ensures EndsStuck(d, State(map[0 := Instance(0, true, Running, Waiting)], map[0 := 0], 0, 0, false, Idle), evs)
  {
    var woken := State(map[0 := Instance(0, true, Signalled, Woken)], map[0 := 0], 0, 0, false, Idle);
    var waiting := woken.(instances := map[0 := Instance(0, true, Signalled, Waiting)]);
    assert WithWatcher(waiting, 0, Woken).instances == woken.instances;
    assert Step(waiting, WatcherWake(0)) == Some(woken);
    Prepend(d, waiting, WatcherWake(0), woken, rest);
    evs := [WatcherWake(0)] + rest;
    var running := waiting.(instances := map[0 := Instance(0, true, Running, Waiting)]);
    assert WithWorker(running, 0, Signalled) == waiting;
    PrependStop(d, running, 0, evs);
    evs := [WorkerStop(0)] + ([WorkerSignal(0)] + evs);
  }

  /**
   * Wake-ups are never lost if and only if every instance is watched, ids are not reused, and no
   * instance is deleted before its stop task is spawned.
   */
  lemma NeverStuckExactly(d: Discipline)
    ensures NeverStuck(d) <==> d == STRICT
  {
    if d == STRICT {
      forall evs | AllowedRun(d, INIT, evs) && Run(INIT, evs).Some? ensures !Stuck(Run(INIT, evs).value) {
        NoLostWakeUp(evs);
      }
    } else if d.unwatched {
      var evs := UnwatchedSticks(d);
    } else if d.reuseIds {
      var evs := ReuseSticks(d);
    } else {
      var evs := EarlyDeleteSticks(d);
    }
  }

  // --- What a state records of the run that led to it ---

  ghost predicate Happened(done: seq<Event>, g: nat) {
    WorkerStop(g) in done || WorkerSignal(g) in done || Delete(g) in done
  }

  /** What the state holds of instance `g` is what has happened to it. */
  ghost predicate InstanceTold(s: State, done: seq<Event>, g: nat) {
    && (g in s.instances <==> exists id, watch :: Start(g, id, watch) in done)
    && (forall id, watch :: Start(g, id, watch) in done ==>
          g in s.instances && s.instances[g].id == id && (watch <==> s.instances[g].watcher != Never))
    && (Happened(done, g) ==> g in s.instances)
    && (g in s.instances ==>
          && (s.instances[g].inMap <==> Delete(g) !in done)
          && (s.instances[g].worker == Running <==> WorkerStop(g) !in done)
          && (s.instances[g].worker == Signalled <==> WorkerSignal(g) in done))
  }

  ghost predicate GuardsTold(s: State, done: seq<Event>) {
    && s.guards + multiset(done)[GuardDrop] == multiset(done)[GuardRegister]
    && s.dropping + multiset(done)[GuardNotify] == multiset(done)[GuardDrop]
  }

  ghost predicate Told(s: State, done: seq<Event>) {
    GuardsTold(s, done) && forall g :: InstanceTold(s, done, g)
  }

  /** How one event bears on instance `g`. */
  ghost predicate Recorded(s: State, s': State, ev: Event, g: nat) {
    && (g in s'.instances <==> g in s.instances || (ev.Start? && ev.g == g))
    && (ev in {WorkerStop(g), WorkerSignal(g), Delete(g)} ==> g in s.instances)
    && (ev.Start? && ev.g == g ==>
          g !in s.instances && s'.instances[g] == Instance(ev.id, true, Running, if ev.watch then Planned else Never))
    && (g in s.instances ==>
          var i, i' := s.instances[g], s'.instances[g];
          && i'.id == i.id && (i'.watcher == Never <==> i.watcher == Never)
          && (i'.inMap <==> i.inMap && ev != Delete(g))
          && (i'.worker == Running <==> i.worker == Running && ev != WorkerStop(g))
          && (i'.worker == Signalled <==> i.worker == Signalled || ev == WorkerSignal(g)))
  }

  lemma TaskRecords(s: State, ev: Event, g: nat)
    requires Step(s, ev).Some? && (ev.SpawnWatcher? || ev.WatcherRemove?)
    ensures Recorded(s, Step(s, ev).value, ev, g)
  {
  }

  lemma OtherRecords(s: State, ev: Event, g: nat)
    requires Step(s, ev).Some? && !ev.SpawnWatcher? && !ev.WatcherRemove?
    ensures Recorded(s, Step(s, ev).value, ev, g)
  {
  }

  lemma StepRecords(s: State, ev: Event, g: nat)
    requires Step(s, ev).Some?
    ensures Recorded(s, Step(s, ev).value, ev, g)
  {
    if ev.SpawnWatcher? || ev.WatcherRemove? { TaskRecords(s, ev, g); } else { OtherRecords(s, ev, g); }
  }

  lemma InstanceToldStep(s: State, s': State, done: seq<Event>, ev: Event, g: nat)
    requires InstanceTold(s, done, g) && Recorded(s, s', ev, g)
    ensures InstanceTold(s', done + [ev], g)
  {
    var done' := done + [ev];
    assert forall e :: e in done' <==> e in done || e == ev;
    if ev.Start? && ev.g == g { assert Start(g, ev.id, ev.watch) in done'; }
    if id, watch :| Start(g, id, watch) in done { assert Start(g, id, watch) in done'; }
  }

  lemma GuardsToldStep(s: State, done: seq<Event>, ev: Event)
    requires GuardsTold(s, done) && Step(s, ev).Some?
    ensures GuardsTold(Step(s, ev).value, done + [ev])
  {
    assert multiset(done + [ev]) == multiset(done) + multiset{ev};
  }

  lemma ToldStep(s: State, done: seq<Event>, ev: Event)
    requires Told(s, done) && Step(s, ev).Some?
    ensures Told(Step(s, ev).value, done + [ev])
  {
    GuardsToldStep(s, done, ev);
    forall g ensures InstanceTold(Step(s, ev).value, done + [ev], g) {
      StepRecords(s, ev, g);
      InstanceToldStep(s, Step(s, ev).value, done, ev, g);
    }
  }

  lemma {:induction false} ToldRun(s: State, done: seq<Event>, evs: seq<Event>)
    requires Told(s, done) && Run(s, evs).Some?
    ensures Told(Run(s, evs).value, done + evs)
    decreases |evs|
  {
    if evs == [] {
      assert done + evs == done;
    } else {
      ToldStep(s, done, evs[0]);
      ToldRun(Step(s, evs[0]).value, done + [evs[0]], evs[1..]);
      assert done + [evs[0]] + evs[1..] == done + evs;
    }
  }

  /** After every run, guards and instances are in the state that the events of the run put them in. */
  lemma RunIsTold(evs: seq<Event>)
    requires Run(INIT, evs).Some?
    ensures Told(Run(INIT, evs).value, evs)
  {
    assert Told(INIT, []);
    ToldRun(INIT, [], evs);
    assert [] + evs == evs;
  }

  // --- Permits ---

  predicate Notifies(ev: Event) {
    ev.WatcherNotify? || ev.GuardNotify? || ev.NotifyStopCheck?
  }

  /** A permit appears with a notification and goes only with the waiter taking it. */
  lemma PermitExactly(s: State, ev: Event)
    requires Step(s, ev).Some?
    ensures Step(s, ev).value.permit <==> Notifies(ev) || (s.permit && !ev.Wake? && !ev.Park?)
  {
  }

  /** After a notification, and whatever else happens meanwhile, a parked waiter can wake. */
  lemma {:induction false} NotifiedWakes(s: State, evs: seq<Event>)
    requires s.waiter.Parked? && Run(s, evs).Some? && Wake !in evs
    requires s.permit || exists i :: 0 <= i < |evs| && Notifies(evs[i])
    ensures Step(Run(s, evs).value, Wake) == Some(Run(s, evs).value.(waiter := Idle, permit := false))
    decreases |evs|
  {
    if evs != [] {
      assert evs[0] in evs;
      PermitExactly(s, evs[0]);
      assert forall i :: 0 <= i < |evs[1..]| ==> evs[1..][i] == evs[i + 1];
      NotifiedWakes(Step(s, evs[0]).value, evs[1..]);
    }
  }

  // --- What holds of every run, whatever the manager is used for ---

  /** Ids in the map are distinct, and an instance leaves it only after its thread has ended. */
  ghost predicate MapSound(s: State) {
    && (forall g, h ::
          g in s.instances && h in s.instances && g != h && s.instances[g].inMap && s.instances[h].inMap ==>
          s.instances[g].id != s.instances[h].id)
    && (forall g :: g in s.instances && !s.instances[g].inMap ==> s.instances[g].worker == Signalled)
  }

  lemma MapSoundStep(s: State, ev: Event)
    requires MapSound(s) && Step(s, ev).Some?
    ensures MapSound(Step(s, ev).value)
  {
    var s' := Step(s, ev).value;
    forall g, h | g in s'.instances && h in s'.instances && g != h && s'.instances[g].inMap && s'.instances[h].inMap
      ensures s'.instances[g].id != s'.instances[h].id
    {
      StepRecords(s, ev, g);
      StepRecords(s, ev, h);
      StartIsNew(s, ev);
    }
    forall g | g in s'.instances && !s'.instances[g].inMap ensures s'.instances[g].worker == Signalled {
      StepRecords(s, ev, g);
      DeleteIsJoined(s, ev);
    }
  }

  lemma StartIsNew(s: State, ev: Event)
    requires Step(s, ev).Some?
    ensures ev.Start? ==> forall g :: g in s.instances && s.instances[g].inMap ==> s.instances[g].id != ev.id
  {
  }

  lemma DeleteIsJoined(s: State, ev: Event)
    requires Step(s, ev).Some?
    ensures ev.Delete? ==> s.instances[ev.g].worker == Signalled
  {
  }

  /** After every run, ids in the map are distinct and whatever left the map has ended. */
  lemma {:induction false} RunKeepsMapSound(s: State, evs: seq<Event>)
    requires MapSound(s) && Run(s, evs).Some?
    ensures MapSound(Run(s, evs).value)
    decreases |evs|
  {
    if evs != [] {
      MapSoundStep(s, evs[0]);
      RunKeepsMapSound(Step(s, evs[0]).value, evs[1..]);
    }
  }

  /** A scan sets out to visit exactly the instances of the map. */
  lemma ScanVisitsMap(s: State, g: nat)
    requires s.waiter.Idle?
    ensures var waiter := Step(s, BeginScan).value.waiter;
            && waiter.Scanning? && waiter.seen == waiter.toVisit
            && (g in waiter.toVisit <==> g in s.instances && s.instances[g].inMap)
  {
  }

  /** During a scan any running instance of the map may be read, new ones too, and reading one means waiting. */
  lemma RunningIsSeen(s: State, g: nat)
    requires s.waiter.Scanning? && Alive(s, g)
    ensures Step(s, ScanRead(g)) == Some(s.(waiter := Committed))
  {
  }
}
