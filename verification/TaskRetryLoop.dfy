// The scheduler of backend-shared/util/task_retry_loop.go: one goroutine owns the state below,
// starts runner goroutines, and handles one message at a time.
module TaskRetryLoops {
  import opened Wrappers
  import opened ExponentialBackoffs
  import opened RetryLog

  datatype WaitingTask = WaitingTask(name: TaskName, task: nat, backoff: Backoff, retryAt: Option<real>)
  datatype ActiveTask = ActiveTask(name: TaskName, task: nat, backoff: Backoff, startedAt: real)
  datatype Message =
    | AddTask(name: TaskName, task: nat, backoff: Backoff)
    | WorkCompleted(name: TaskName, shouldRetry: bool)
    | Tick

  // ---- what one scheduling pass is for ----

  predicate Eligible(t: WaitingTask, active: set<TaskName>, now: real) {
    (t.retryAt.Some? ==> t.retryAt.value < now) && t.name !in active
  }

  function EligibleTasks(ts: seq<WaitingTask>, active: set<TaskName>, now: real): seq<WaitingTask> {
    if ts == [] then []
    else
      var rest, t := EligibleTasks(ts[..|ts| - 1], active, now), ts[|ts| - 1];
      if Eligible(t, active, now) then rest + [t] else rest
  }

  // The first `free` eligible tasks in order of arrival.
  function TasksToStart(ts: seq<WaitingTask>, active: set<TaskName>, now: real, free: nat): seq<WaitingTask> {
    var eligible := EligibleTasks(ts, active, now);
    if |eligible| <= free then eligible else eligible[..free]
  }

  function Names(ts: seq<WaitingTask>): set<TaskName> {
    set t | t in ts :: t.name
  }

  // Those of `ts` whose name is not in `gone`, in the same order.
  function Without(ts: seq<WaitingTask>, gone: set<TaskName>): seq<WaitingTask> {
    if ts == [] then []
    else
      var rest, t := Without(ts[..|ts| - 1], gone), ts[|ts| - 1];
      if t.name in gone then rest else rest + [t]
  }

  function StartRecords(ts: seq<WaitingTask>, now: real): seq<Record> {
    if ts == [] then [] else StartRecords(ts[..|ts| - 1], now) + [Started(ts[|ts| - 1].name, now)]
  }

  ghost predicate DistinctNames(ts: seq<WaitingTask>) {
    forall i, j :: 0 <= i < j < |ts| ==> ts[i].name != ts[j].name
  }

  // The map by name and the ordered list hold the same tasks.
  ghost predicate SameTasks(byName: map<TaskName, WaitingTask>, ts: seq<WaitingTask>) {
    && DistinctNames(ts)
    && byName.Keys == Names(ts)
    && forall t :: t in ts ==> t.name in byName && byName[t.name] == t
  }

  ghost predicate NothingRunnable(ts: seq<WaitingTask>, active: set<TaskName>, now: real) {
    forall t :: t in ts ==> t.name in active || (t.retryAt.Some? && t.retryAt.value >= now)
  }

  // ---- facts about that specification ----

  lemma NamesOfMore(ts: seq<WaitingTask>)
    requires ts != []
    ensures Names(ts) == Names(ts[..|ts| - 1]) + {ts[|ts| - 1].name}
    ensures DistinctNames(ts) ==> DistinctNames(ts[..|ts| - 1]) && ts[|ts| - 1].name !in Names(ts[..|ts| - 1])
  {
    assert ts == ts[..|ts| - 1] + [ts[|ts| - 1]];
  }

  lemma {:induction false} EligibleTasksAre(ts: seq<WaitingTask>, active: set<TaskName>, now: real)
    ensures forall t :: t in EligibleTasks(ts, active, now) <==>
              t in ts && t.name !in active && (t.retryAt.None? || t.retryAt.value < now)
    ensures DistinctNames(ts) ==> DistinctNames(EligibleTasks(ts, active, now))
  {
    if ts != [] {
      var n := |ts| - 1;
      EligibleTasksAre(ts[..n], active, now);
      assert ts == ts[..n] + [ts[n]];
      if DistinctNames(ts) {
        assert DistinctNames(ts[..n]);
        assert forall t :: t in EligibleTasks(ts[..n], active, now) ==> t.name != ts[n].name;
      }
    }
  }

  // Eligible tasks keep their relative order, so the first ones are those that arrived first.
  lemma {:induction false} EligibleTasksKeepOrder(ts: seq<WaitingTask>, active: set<TaskName>, now: real, i: nat, j: nat)
    requires i < j < |ts| && Eligible(ts[i], active, now) && Eligible(ts[j], active, now)
    ensures exists a, b :: 0 <= a < b < |EligibleTasks(ts, active, now)|
              && EligibleTasks(ts, active, now)[a] == ts[i] && EligibleTasks(ts, active, now)[b] == ts[j]
  {
    var n := |ts| - 1;
    var rest := EligibleTasks(ts[..n], active, now);
    if j < n {
      EligibleTasksKeepOrder(ts[..n], active, now, i, j);
      var a, b :| 0 <= a < b < |rest| && rest[a] == ts[..n][i] && rest[b] == ts[..n][j];
      assert EligibleTasks(ts, active, now)[a] == ts[i] && EligibleTasks(ts, active, now)[b] == ts[j];
    } else {
      EligibleTasksAre(ts[..n], active, now);
      assert ts[..n][i] in ts[..n];
      var a :| 0 <= a < |rest| && rest[a] == ts[i];
      assert EligibleTasks(ts, active, now)[a] == ts[i] && EligibleTasks(ts, active, now)[|rest|] == ts[j];
    }
  }

  lemma {:induction false} WithoutKeeps(ts: seq<WaitingTask>, gone: set<TaskName>)
    ensures forall t :: t in Without(ts, gone) <==> t in ts && t.name !in gone
    ensures DistinctNames(ts) ==> DistinctNames(Without(ts, gone))
  {
    if ts != [] {
      var n := |ts| - 1;
      WithoutKeeps(ts[..n], gone);
      assert ts == ts[..n] + [ts[n]];
    }
  }

  // Tasks that stay keep their relative order.
  lemma {:induction false} WithoutKeepsOrder(ts: seq<WaitingTask>, gone: set<TaskName>, i: nat, j: nat)
    requires i < j < |ts| && ts[i].name !in gone && ts[j].name !in gone
    ensures exists a, b :: 0 <= a < b < |Without(ts, gone)| && Without(ts, gone)[a] == ts[i] && Without(ts, gone)[b] == ts[j]
  {
    var n := |ts| - 1;
    var rest := Without(ts[..n], gone);
    if j < n {
      WithoutKeepsOrder(ts[..n], gone, i, j);
      var a, b :| 0 <= a < b < |rest| && rest[a] == ts[..n][i] && rest[b] == ts[..n][j];
      assert Without(ts, gone)[a] == ts[i] && Without(ts, gone)[b] == ts[j];
    } else {
      WithoutKeeps(ts[..n], gone);
      assert ts[..n][i] in ts[..n];
      var a :| 0 <= a < |rest| && rest[a] == ts[i];
      assert Without(ts, gone)[a] == ts[i] && Without(ts, gone)[|rest|] == ts[j];
    }
  }

  lemma {:induction false} WithoutUnseen(ts: seq<WaitingTask>, gone: set<TaskName>, name: TaskName)
    requires name !in Names(ts)
    ensures Without(ts, gone + {name}) == Without(ts, gone)
  {
    if ts != [] {
      assert ts[|ts| - 1] in ts;
      assert Names(ts[..|ts| - 1]) <= Names(ts);
      WithoutUnseen(ts[..|ts| - 1], gone, name);
    }
  }

  lemma WithoutNothing(ts: seq<WaitingTask>)
    ensures Without(ts, {}) == ts
  {
    if ts != [] {
      WithoutNothing(ts[..|ts| - 1]);
    }
  }

  lemma {:induction false} NamesSize(ts: seq<WaitingTask>)
    requires DistinctNames(ts)
    ensures |Names(ts)| == |ts|
  {
    if ts != [] {
      NamesOfMore(ts);
      NamesSize(ts[..|ts| - 1]);
    }
  }

  lemma SizeWith(active: set<TaskName>, ts: seq<WaitingTask>)
    requires DistinctNames(ts) && Names(ts) !! active
    ensures |active + Names(ts)| == |active| + |ts|
  {
    NamesSize(ts);
  }

  // After a pass either every slot is taken or nobody who could run is left waiting.
  lemma PassLeavesNothingRunnable(ts: seq<WaitingTask>, active: set<TaskName>, now: real, free: nat)
    requires DistinctNames(ts)
    ensures var started := TasksToStart(ts, active, now, free);
            var after := active + Names(started);
            && |after| == |active| + |started|
            && |started| <= free
            && DistinctNames(started) && Names(started) !! active
            && (|started| == free || NothingRunnable(Without(ts, Names(started)), after, now))
  {
    var started := TasksToStart(ts, active, now, free);
    EligibleTasksAre(ts, active, now);
    WithoutKeeps(ts, Names(started));
    assert DistinctNames(started);
    assert forall t :: t in started ==> t in EligibleTasks(ts, active, now);
    assert active !! Names(started);
    SizeWith(active, started);
    if |started| < free {
      forall t | t in Without(ts, Names(started)) ensures !Eligible(t, active + Names(started), now) {
        assert t !in started;
      }
    }
  }

  lemma StartedSoFar(ts: seq<WaitingTask>, i: nat, active: set<TaskName>, now: real, free: nat)
    requires DistinctNames(ts) && i < |ts|
    ensures var started := TasksToStart(ts[..i], active, now, free);
            ts[i].name !in Names(started) && ts[i].name !in Names(ts[..i]) && DistinctNames(started) && Names(started) !! active
  {
    var started := TasksToStart(ts[..i], active, now, free);
    EligibleTasksAre(ts[..i], active, now);
    assert forall t :: t in started ==> t in EligibleTasks(ts[..i], active, now);
  }

  // One turn of the loop of a pass, in terms of the specification.
  lemma StepOfPass(ts: seq<WaitingTask>, i: nat, active: set<TaskName>, now: real, free: nat,
                   started: seq<WaitingTask>, left: seq<WaitingTask>)
    requires DistinctNames(ts) && i < |ts|
    requires started == TasksToStart(ts[..i], active, now, free) && left == Without(ts[..i], Names(started))
    ensures ts[i].name !in Names(started) && DistinctNames(started) && Names(started) !! active
    ensures Eligible(ts[i], active, now) && |started| < free ==>
              && started + [ts[i]] == TasksToStart(ts[..i + 1], active, now, free)
              && left == Without(ts[..i + 1], Names(started + [ts[i]]))
    ensures !(Eligible(ts[i], active, now) && |started| < free) ==>
              && started == TasksToStart(ts[..i + 1], active, now, free)
              && left + [ts[i]] == Without(ts[..i + 1], Names(started))
  {
    StartedSoFar(ts, i, active, now, free);
    assert ts[..i + 1][..i] == ts[..i];
    if Eligible(ts[i], active, now) && |started| < free {
      NamesOfMore(started + [ts[i]]);
      assert (started + [ts[i]])[..|started|] == started;
      WithoutUnseen(ts[..i], Names(started), ts[i].name);
    }
  }

  ghost predicate QueuedAs(log: seq<Record>, t: WaitingTask) {
    var last := LastQueued(log, t.name);
    last.Some? && last.value.backoff == t.backoff && last.value.due == t.retryAt
  }

  ghost predicate StartedWith(log: seq<Record>, t: ActiveTask) {
    var last := LastQueued(log, t.name);
    last.Some? && last.value.backoff == t.backoff
  }

  // One runner goroutine for every active task, and room for all of them.
  ghost predicate SlotsAgree(active: map<TaskName, ActiveTask>, runners: multiset<TaskName>) {
    && |active.Keys| <= MAX_ACTIVE_RUNNERS
    && runners == multiset(active.Keys)
    && forall n :: n in active ==> active[n].name == n
  }

  ghost predicate NamesAgree(active: set<TaskName>, waiting: set<TaskName>, log: seq<Record>) {
    Legal(log) && !Unsettled(log) && Waiting(log) == waiting && Running(log) == active
  }

  // Every task carries the backoff and the schedule with which it was queued last.
  ghost predicate TasksAgree(active: map<TaskName, ActiveTask>, byName: map<TaskName, WaitingTask>, log: seq<Record>) {
    && (forall n :: n in byName ==> byName[n].name == n && QueuedAs(log, byName[n]))
    && (forall n :: n in active && n !in byName ==> active[n].name == n && StartedWith(log, active[n]))
  }

  lemma StartAgrees(active: map<TaskName, ActiveTask>, runners: multiset<TaskName>, t: ActiveTask)
    requires SlotsAgree(active, runners) && t.name !in active && |active.Keys| < MAX_ACTIVE_RUNNERS
    ensures SlotsAgree(active[t.name := t], runners + multiset{t.name})
    ensures active[t.name := t].Keys == active.Keys + {t.name}
  {
    assert active[t.name := t].Keys == active.Keys + {t.name};
  }

  lemma StartIsAllowed(active: set<TaskName>, waiting: set<TaskName>, log: seq<Record>, name: TaskName, now: real)
    requires NamesAgree(active, waiting, log)
    requires name in waiting && name !in active && |active| < MAX_ACTIVE_RUNNERS && DueBefore(LastQueued(log, name), now)
    ensures NamesAgree(active + {name}, waiting - {name}, log + [Started(name, now)])
  {
    Extended(log, Started(name, now));
  }

  lemma StartKeepsTasks(active: map<TaskName, ActiveTask>, byName: map<TaskName, WaitingTask>, log: seq<Record>,
                        t: WaitingTask, started: ActiveTask)
    requires TasksAgree(active, byName, log) && t.name in byName && byName[t.name] == t
    requires started.name == t.name && started.backoff == t.backoff
    ensures TasksAgree(active[t.name := started], byName - {t.name}, log + [Started(t.name, started.startedAt)])
  {
    var log' := log + [Started(t.name, started.startedAt)];
    Extended(log, Started(t.name, started.startedAt));
    forall n | n in active[t.name := started] && n !in byName - {t.name}
      ensures active[t.name := started][n].name == n && StartedWith(log', active[t.name := started][n])
    {
      assert n != t.name ==> n in active && n !in byName;
    }
  }

  // The scheduler's maps, runners and log at one moment.
  datatype Tables = Tables(active: map<TaskName, ActiveTask>, byName: map<TaskName, WaitingTask>,
                           runners: multiset<TaskName>, log: seq<Record>)

  function AfterStart(s: Tables, t: WaitingTask, now: real): Tables {
    Tables(s.active[t.name := ActiveTask(t.name, t.task, t.backoff, now)], s.byName - {t.name},
           s.runners + multiset{t.name}, s.log + [Started(t.name, now)])
  }

  ghost predicate Good(s: Tables) {
    && SlotsAgree(s.active, s.runners)
    && NamesAgree(s.active.Keys, s.byName.Keys, s.log)
    && TasksAgree(s.active, s.byName, s.log)
  }

  lemma StartKeepsGood(s: Tables, t: WaitingTask, now: real)
    requires Good(s) && t.name in s.byName && s.byName[t.name] == t
    requires t.name !in s.active && |s.active.Keys| < MAX_ACTIVE_RUNNERS
    requires t.retryAt.Some? ==> t.retryAt.value < now
    ensures Good(AfterStart(s, t, now))
  {
    StartAgrees(s.active, s.runners, ActiveTask(t.name, t.task, t.backoff, now));
    StartIsAllowed(s.active.Keys, s.byName.Keys, s.log, t.name, now);
    StartKeepsTasks(s.active, s.byName, s.log, t, ActiveTask(t.name, t.task, t.backoff, now));
    assert (s.byName - {t.name}).Keys == s.byName.Keys - {t.name};
  }

  function AfterStarts(s: Tables, ts: seq<WaitingTask>, now: real): Tables {
    if ts == [] then s else AfterStart(AfterStarts(s, ts[..|ts| - 1], now), ts[|ts| - 1], now)
  }

  // What starting several tasks does to the tables.
  lemma {:induction false} AfterStartsIs(s: Tables, ts: seq<WaitingTask>, now: real)
    ensures AfterStarts(s, ts, now).active.Keys == s.active.Keys + Names(ts)
    ensures AfterStarts(s, ts, now).byName.Keys == s.byName.Keys - Names(ts)
  {
    if ts != [] {
      var n := |ts| - 1;
      NamesOfMore(ts);
      AfterStartsIs(s, ts[..n], now);
      OneStartIs(AfterStarts(s, ts[..n], now), ts[n], now);
    }
  }

  lemma OneStartIs(s: Tables, t: WaitingTask, now: real)
    ensures AfterStart(s, t, now).active.Keys == s.active.Keys + {t.name}
    ensures AfterStart(s, t, now).byName.Keys == s.byName.Keys - {t.name}
  {
  }

  // Starts are logged in the order of arrival.
  lemma {:induction false} AfterStartsLog(s: Tables, ts: seq<WaitingTask>, now: real)
    ensures AfterStarts(s, ts, now).log == s.log + StartRecords(ts, now)
  {
    if ts != [] {
      AfterStartsLog(s, ts[..|ts| - 1], now);
    }
  }

  lemma {:induction false} AfterStartsGood(s: Tables, ts: seq<WaitingTask>, now: real)
    requires Good(s) && DistinctNames(ts) && Names(ts) !! s.active.Keys
    requires |s.active.Keys| + |ts| <= MAX_ACTIVE_RUNNERS
    requires forall t :: t in ts ==> t.name in s.byName && s.byName[t.name] == t && (t.retryAt.Some? ==> t.retryAt.value < now)
    ensures Good(AfterStarts(s, ts, now))
  {
    if ts != [] {
      var n := |ts| - 1;
      NamesOfMore(ts);
      assert ts[n] in ts && forall t :: t in ts[..n] ==> t in ts;
      AfterStartsGood(s, ts[..n], now);
      AfterStartsIs(s, ts[..n], now);
      AfterStartsEntries(s, ts[..n], now, ts[n].name);
      SizeWith(s.active.Keys, ts[..n]);
      StartKeepsGood(AfterStarts(s, ts[..n], now), ts[n], now);
    }
  }

  // Every started task is active with its own task and backoff; nobody else's entry is touched.
  lemma {:induction false} AfterStartsEntries(s: Tables, ts: seq<WaitingTask>, now: real, name: TaskName)
    requires DistinctNames(ts)
    ensures var s' := AfterStarts(s, ts, now);
            && (forall i :: 0 <= i < |ts| && ts[i].name == name ==>
                 name in s'.active && s'.active[name] == ActiveTask(name, ts[i].task, ts[i].backoff, now))
            && (name !in Names(ts) && name in s.active ==> name in s'.active && s'.active[name] == s.active[name])
            && (name !in Names(ts) && name in s.byName ==> name in s'.byName && s'.byName[name] == s.byName[name])
  {
    if ts != [] {
      NamesOfMore(ts);
      AfterStartsEntries(s, ts[..|ts| - 1], now, name);
    }
  }

  lemma NothingToStart(ts: seq<WaitingTask>, active: set<TaskName>, now: real, free: nat)
    requires ts == [] || free == 0
    ensures TasksToStart(ts, active, now, free) == [] && Without(ts, Names([])) == ts
  {
    WithoutNothing(ts);
    assert Names([]) == {};
  }

  lemma NamesWithout(ts: seq<WaitingTask>, gone: set<TaskName>)
    ensures Names(Without(ts, gone)) == Names(ts) - gone
  {
    WithoutKeeps(ts, gone);
    forall n | n in Names(ts) - gone ensures n in Names(Without(ts, gone)) {
      var t :| t in ts && t.name == n;
      assert t in Without(ts, gone);
    }
  }

  // The list left by a pass holds the same tasks as the map left by it.
  lemma PassKeepsSameTasks(s: Tables, ts: seq<WaitingTask>, now: real, after: Tables, left: seq<WaitingTask>)
    requires SameTasks(s.byName, ts) && |s.active.Keys| <= MAX_ACTIVE_RUNNERS
    requires var started := TasksToStart(ts, s.active.Keys, now, MAX_ACTIVE_RUNNERS - |s.active.Keys|);
             after == AfterStarts(s, started, now) && left == Without(ts, Names(started))
    ensures SameTasks(after.byName, left)
  {
    var free := MAX_ACTIVE_RUNNERS - |s.active.Keys|;
    var started := TasksToStart(ts, s.active.Keys, now, free);
    PassLeavesNothingRunnable(ts, s.active.Keys, now, free);
    AfterStartsIs(s, started, now);
    NamesWithout(ts, Names(started));
    WithoutKeeps(ts, Names(started));
    forall t | t in left ensures t.name in after.byName && after.byName[t.name] == t {
      AfterStartsEntries(s, started, now, t.name);
    }
  }

  // The tasks started and those left waiting once the first i tasks of a pass were looked at.
  ghost predicate InPass(before: Tables, ts: seq<WaitingTask>, now: real, i: nat, started: seq<WaitingTask>, left: seq<WaitingTask>)
    requires i <= |ts| && |before.active.Keys| <= MAX_ACTIVE_RUNNERS
  {
    && started == TasksToStart(ts[..i], before.active.Keys, now, MAX_ACTIVE_RUNNERS - |before.active.Keys|)
    && left == Without(ts[..i], Names(started))
  }

  lemma TurnOfPass(before: Tables, ts: seq<WaitingTask>, now: real, i: nat, started: seq<WaitingTask>, left: seq<WaitingTask>)
    requires |before.active.Keys| <= MAX_ACTIVE_RUNNERS && SameTasks(before.byName, ts) && i < |ts|
    requires InPass(before, ts, now, i, started, left)
    ensures var s := AfterStarts(before, started, now);
            && ts[i].name in s.byName && s.byName[ts[i].name] == ts[i]
            && (Eligible(ts[i], s.active.Keys, now) && |s.active.Keys| < MAX_ACTIVE_RUNNERS ==>
                 InPass(before, ts, now, i + 1, started + [ts[i]], left))
            && (!(Eligible(ts[i], s.active.Keys, now) && |s.active.Keys| < MAX_ACTIVE_RUNNERS) ==>
                 InPass(before, ts, now, i + 1, started, left + [ts[i]]))
  {
    assert ts[i] in ts;
    StepOfPass(ts, i, before.active.Keys, now, MAX_ACTIVE_RUNNERS - |before.active.Keys|, started, left);
    SameDecision(before, ts[i], now, started);
    AfterStartsEntries(before, started, now, ts[i].name);
  }

  lemma OneMoreStart(before: Tables, started: seq<WaitingTask>, t: WaitingTask, now: real)
    ensures AfterStarts(before, started + [t], now) == AfterStart(AfterStarts(before, started, now), t, now)
  {
    assert (started + [t])[..|started|] == started;
  }

  // Deciding on the current tables is the same as deciding on those at the start of the pass.
  lemma SameDecision(before: Tables, t: WaitingTask, now: real, started: seq<WaitingTask>)
    requires DistinctNames(started) && Names(started) !! before.active.Keys && t.name !in Names(started)
    ensures var s := AfterStarts(before, started, now);
            && (Eligible(t, s.active.Keys, now) <==> Eligible(t, before.active.Keys, now))
            && |s.active.Keys| == |before.active.Keys| + |started|
            && s.byName.Keys == before.byName.Keys - Names(started)
  {
    AfterStartsIs(before, started, now);
    SizeWith(before.active.Keys, started);
  }

  lemma StartChangesSizes(s: Tables, t: WaitingTask, now: real)
    requires t.name in s.byName && t.name !in s.active
    ensures |AfterStart(s, t, now).active.Keys| == |s.active.Keys| + 1
    ensures |AfterStart(s, t, now).byName.Keys| == |s.byName.Keys| - 1
  {
    OneStartIs(s, t, now);
  }

  // What one pass is to do: start the first eligible tasks there is room for, keep the others in
  // order, and leave nothing behind that could run.
  ghost predicate PassResult(before: Tables, ts: seq<WaitingTask>, now: real, after: Tables, left: seq<WaitingTask>) {
    |before.active.Keys| <= MAX_ACTIVE_RUNNERS &&
    var started := TasksToStart(ts, before.active.Keys, now, MAX_ACTIVE_RUNNERS - |before.active.Keys|);
    && after == AfterStarts(before, started, now)
    && left == Without(ts, Names(started))
    && (|after.active.Keys| == MAX_ACTIVE_RUNNERS || NothingRunnable(left, after.active.Keys, now))
  }

  // The pass is over once all tasks were looked at.
  lemma EndOfPass(before: Tables, ts: seq<WaitingTask>, now: real, s: Tables, started: seq<WaitingTask>, left: seq<WaitingTask>)
    requires DistinctNames(ts) && |before.active.Keys| <= MAX_ACTIVE_RUNNERS
    requires InPass(before, ts, now, |ts|, started, left) && s == AfterStarts(before, started, now)
    ensures PassResult(before, ts, now, s, left)
  {
    assert ts[..|ts|] == ts;
    NothingRunnableAfter(before, ts, now, MAX_ACTIVE_RUNNERS - |before.active.Keys|);
  }

  // The i-th task is due: it was never tried or its time is past, and it is not running.
  ghost predicate DueAt(ts: seq<WaitingTask>, i: nat, active: set<TaskName>, now: real)
    requires i < |ts|
  {
    ts[i].name !in active && (ts[i].retryAt.None? || ts[i].retryAt.value < now)
  }

  // Who runs after a pass: of the tasks that are due, all if fewer than twenty run then, and always
  // the first of them; nobody else is started, and who is not started goes on waiting.
  ghost predicate Fair(ts: seq<WaitingTask>, active: set<TaskName>, now: real, after: set<TaskName>, left: seq<WaitingTask>) {
    && (forall i :: 0 <= i < |ts| && DueAt(ts, i, active, now) && |after| < 20 ==> ts[i].name in after)
    && (forall i, j :: 0 <= i < j < |ts| && DueAt(ts, i, active, now) && DueAt(ts, j, active, now) ==>
         (ts[j].name in after ==> ts[i].name in after))
    && (forall i :: 0 <= i < |ts| && DueAt(ts, i, active, now) ==> (ts[i].name in after <==> ts[i] !in left))
    && (forall i :: 0 <= i < |ts| && !DueAt(ts, i, active, now) ==> (ts[i].name in after <==> ts[i].name in active) && ts[i] in left)
  }

  lemma StartedIff(ts: seq<WaitingTask>, active: set<TaskName>, now: real, free: nat, i: nat)
    requires DistinctNames(ts) && i < |ts|
    ensures var started := TasksToStart(ts, active, now, free);
            && (ts[i].name in Names(started) <==> ts[i] in started)
            && (ts[i] in started ==> DueAt(ts, i, active, now))
            && (ts[i] in Without(ts, Names(started)) <==> ts[i] !in started)
            && (|started| < free && DueAt(ts, i, active, now) ==> ts[i] in started)
  {
    var started := TasksToStart(ts, active, now, free);
    EligibleTasksAre(ts, active, now);
    WithoutKeeps(ts, Names(started));
    forall t | t in started ensures t in ts {
      assert t in EligibleTasks(ts, active, now);
    }
    assert ts[i] in started ==> ts[i] in EligibleTasks(ts, active, now);
    if t :| t in started && t.name == ts[i].name {
      assert t in ts;
      var j :| 0 <= j < |ts| && ts[j] == t;
    }
  }

  lemma FirstDueStart(ts: seq<WaitingTask>, active: set<TaskName>, now: real, free: nat, i: nat, j: nat)
    requires DistinctNames(ts) && i < j < |ts| && DueAt(ts, i, active, now) && DueAt(ts, j, active, now)
    requires ts[j] in TasksToStart(ts, active, now, free)
    ensures ts[i] in TasksToStart(ts, active, now, free)
  {
    var es, started := EligibleTasks(ts, active, now), TasksToStart(ts, active, now, free);
    EligibleTasksKeepOrder(ts, active, now, i, j);
    var a, b :| 0 <= a < b < |EligibleTasks(ts, active, now)|
      && EligibleTasks(ts, active, now)[a] == ts[i] && EligibleTasks(ts, active, now)[b] == ts[j];
    EligibleTasksAre(ts, active, now);
    var k :| 0 <= k < |started| && started[k] == ts[j];
    assert es[k] == ts[j];
    assert started[a] == ts[i];
  }

  lemma PassIsFair(before: Tables, ts: seq<WaitingTask>, now: real, after: Tables, left: seq<WaitingTask>)
    requires DistinctNames(ts) && PassResult(before, ts, now, after, left)
    ensures Fair(ts, before.active.Keys, now, after.active.Keys, left)
  {
    var active, free := before.active.Keys, MAX_ACTIVE_RUNNERS - |before.active.Keys|;
    var started := TasksToStart(ts, active, now, free);
    PassLeavesNothingRunnable(ts, active, now, free);
    AfterStartsIs(before, started, now);
    forall i | 0 <= i < |ts|
      ensures (ts[i].name in Names(started) <==> ts[i] in started) && (ts[i] in started ==> DueAt(ts, i, active, now))
              && (ts[i] in left <==> ts[i] !in started) && (|started| < free && DueAt(ts, i, active, now) ==> ts[i] in started)
    {
      StartedIff(ts, active, now, free, i);
    }
    forall i, j | 0 <= i < j < |ts| && DueAt(ts, i, active, now) && DueAt(ts, j, active, now) && ts[j] in started
      ensures ts[i] in started
    {
      FirstDueStart(ts, active, now, free, i, j);
    }
  }

  lemma PassKeepsBounds(before: Tables, ts: seq<WaitingTask>, now: real, after: Tables, left: seq<WaitingTask>)
    requires DistinctNames(ts) && PassResult(before, ts, now, after, left)
    ensures |after.active.Keys| <= 20 && forall t :: t in left ==> t in ts
  {
    var free := MAX_ACTIVE_RUNNERS - |before.active.Keys|;
    var started := TasksToStart(ts, before.active.Keys, now, free);
    PassLeavesNothingRunnable(ts, before.active.Keys, now, free);
    AfterStartsIs(before, started, now);
    WithoutKeeps(ts, Names(started));
  }

  lemma NotLeftNotWaiting(byName: map<TaskName, WaitingTask>, ts: seq<WaitingTask>, left: seq<WaitingTask>, t: WaitingTask)
    requires DistinctNames(ts) && SameTasks(byName, left) && forall u :: u in left ==> u in ts
    requires t in ts && t !in left
    ensures t.name !in byName
  {
  }

  // After a pass twenty tasks run, or whatever was not running and was never tried or is past its
  // time does, and waits no longer.
  lemma DueTasksStart(before: Tables, ts: seq<WaitingTask>, now: real, after: Tables, left: seq<WaitingTask>)
    requires SameTasks(before.byName, ts) && PassResult(before, ts, now, after, left) && SameTasks(after.byName, left)
    ensures forall t :: t in ts && t.name !in before.active && (t.retryAt.None? || t.retryAt.value < now) ==>
              |after.active.Keys| == 20 || (t.name in after.active && t.name !in after.byName)
  {
    PassIsFair(before, ts, now, after, left);
    PassKeepsBounds(before, ts, now, after, left);
    AllDueRun(ts, before.active.Keys, now, after, left);
  }

  lemma AllDueRun(ts: seq<WaitingTask>, active: set<TaskName>, now: real, after: Tables, left: seq<WaitingTask>)
    requires DistinctNames(ts) && SameTasks(after.byName, left) && forall u :: u in left ==> u in ts
    requires Fair(ts, active, now, after.active.Keys, left) && |after.active.Keys| <= 20
    ensures forall t :: t in ts && t.name !in active && (t.retryAt.None? || t.retryAt.value < now) ==>
              |after.active.Keys| == 20 || (t.name in after.active && t.name !in after.byName)
  {
    forall t | t in ts && t.name !in active && (t.retryAt.None? || t.retryAt.value < now) && |after.active.Keys| < 20
      ensures t.name in after.active && t.name !in after.byName
    {
      var i :| 0 <= i < |ts| && ts[i] == t;
      assert DueAt(ts, i, active, now);
      NotLeftNotWaiting(after.byName, ts, left, t);
    }
  }

  lemma NothingRunnableAfter(s: Tables, ts: seq<WaitingTask>, now: real, free: nat)
    requires DistinctNames(ts) && free + |s.active.Keys| == MAX_ACTIVE_RUNNERS
    ensures var started := TasksToStart(ts, s.active.Keys, now, free);
            var after := AfterStarts(s, started, now).active.Keys;
            |after| == MAX_ACTIVE_RUNNERS || NothingRunnable(Without(ts, Names(started)), after, now)
  {
    PassLeavesNothingRunnable(ts, s.active.Keys, now, free);
    AfterStartsIs(s, TasksToStart(ts, s.active.Keys, now, free), now);
  }

  lemma PassKeepsGood(s: Tables, ts: seq<WaitingTask>, now: real, after: Tables)
    requires Good(s) && SameTasks(s.byName, ts)
    requires after == AfterStarts(s, TasksToStart(ts, s.active.Keys, now, MAX_ACTIVE_RUNNERS - |s.active.Keys|), now)
    ensures Good(after)
  {
    var free := MAX_ACTIVE_RUNNERS - |s.active.Keys|;
    var started := TasksToStart(ts, s.active.Keys, now, free);
    PassLeavesNothingRunnable(ts, s.active.Keys, now, free);
    EligibleTasksAre(ts, s.active.Keys, now);
    assert forall t :: t in started ==> t in EligibleTasks(ts, s.active.Keys, now);
    AfterStartsGood(s, started, now);
  }

  lemma PassKeepsTables(before: Tables, ts: seq<WaitingTask>, now: real, after: Tables, left: seq<WaitingTask>)
    requires Good(before) && SameTasks(before.byName, ts) && PassResult(before, ts, now, after, left)
    ensures Good(after) && SameTasks(after.byName, left)
  {
    PassKeepsGood(before, ts, now, after);
    PassKeepsSameTasks(before, ts, now, after, left);
  }

  lemma PassWithNothingToDo(s: Tables, ts: seq<WaitingTask>, now: real)
    requires Good(s) && SameTasks(s.byName, ts) && (ts == [] || |s.active.Keys| == MAX_ACTIVE_RUNNERS)
    ensures PassResult(s, ts, now, s, ts)
  {
    assert ts[..|ts|] == ts;
    NothingToStart(ts, s.active.Keys, now, MAX_ACTIVE_RUNNERS - |s.active.Keys|);
    EndOfPass(s, ts, now, s, [], ts);
  }

  // ---- what the messages do ----

  // Queue a task unless one of its name is already waiting.
  function AfterAdd(s: Tables, t: WaitingTask, r: Record): Tables {
    if t.name in s.byName then s.(log := s.log + [Duplicate(t.name)])
    else s.(byName := s.byName[t.name := t], log := s.log + [r])
  }

  function ListAfterAdd(s: Tables, ts: seq<WaitingTask>, t: WaitingTask): seq<WaitingTask> {
    if t.name in s.byName then ts else ts + [t]
  }

  function FirstRecord(name: TaskName, backoff: Backoff, now: real): Record {
    Queued(name, 0, backoff, 0.0, now, None)
  }

  // The tables between the two halves of a completion message.
  function AfterRemoval(s: Tables, name: TaskName, shouldRetry: bool): Tables {
    s.(active := s.active - {name}, runners := s.runners - multiset{name}, log := s.log + [Completed(name, shouldRetry)])
  }

  function RetryTask(t: ActiveTask, now: real, rand: real): WaitingTask {
    var backoff := Increased(t.backoff, rand);
    WaitingTask(t.name, t.task, backoff, Some(now + backoff.curr.value))
  }

  function RetryRecord(log: seq<Record>, t: ActiveTask, now: real, rand: real): Record {
    var last := LastQueued(log, t.name);
    var tries := if last.Some? then last.value.tries + 1 else 1;
    Queued(t.name, tries, RetryTask(t, now, rand).backoff, rand, now, RetryTask(t, now, rand).retryAt)
  }

  function AfterCompletion(s: Tables, name: TaskName, shouldRetry: bool, now: real, rand: real): Tables
    requires name in s.active
  {
    var removed := AfterRemoval(s, name, shouldRetry);
    if !shouldRetry then removed
    else AfterAdd(removed, RetryTask(s.active[name], now, rand), RetryRecord(s.log, s.active[name], now, rand))
  }

  lemma AddKeepsSameTasks(s: Tables, ts: seq<WaitingTask>, t: WaitingTask, r: Record)
    requires SameTasks(s.byName, ts)
    ensures SameTasks(AfterAdd(s, t, r).byName, ListAfterAdd(s, ts, t))
  {
    if t.name !in s.byName {
      assert (ts + [t])[..|ts|] == ts;
      NamesOfMore(ts + [t]);
      assert forall u :: u in ts ==> u.name in Names(ts);
    }
  }

  // The part of an addition that concerns the entries: a queued task carries its own record.
  lemma AddKeepsTasks(s: Tables, t: WaitingTask, r: Record)
    requires TasksAgree(s.active, s.byName, s.log)
    requires r.Queued? && r.name == t.name && r.backoff == t.backoff && r.due == t.retryAt
    ensures TasksAgree(s.active, AfterAdd(s, t, r).byName, AfterAdd(s, t, r).log)
  {
    var s' := AfterAdd(s, t, r);
    Extended(s.log, if t.name in s.byName then Duplicate(t.name) else r);
    forall n | n in s'.byName ensures s'.byName[n].name == n && QueuedAs(s'.log, s'.byName[n]) {
      assert n != t.name ==> n in s.byName && s'.byName[n] == s.byName[n];
    }
    forall n | n in s.active && n !in s'.byName ensures StartedWith(s'.log, s.active[n]) {
      assert n !in s.byName && n != t.name && s.active[n].name == n;
    }
  }

  lemma AddIsAllowed(active: set<TaskName>, waiting: set<TaskName>, log: seq<Record>, r: Record)
    requires NamesAgree(active, waiting, log) && r.Queued? && r.tries == 0 && r.due.None?
    ensures NamesAgree(active, waiting + {r.name}, log + [if r.name in waiting then Duplicate(r.name) else r])
  {
    Extended(log, if r.name in waiting then Duplicate(r.name) else r);
  }

  lemma AddTaskKeepsGood(s: Tables, t: WaitingTask, now: real)
    requires Good(s) && t.retryAt.None?
    ensures Good(AfterAdd(s, t, FirstRecord(t.name, t.backoff, now)))
  {
    var r := FirstRecord(t.name, t.backoff, now);
    AddIsAllowed(s.active.Keys, s.byName.Keys, s.log, r);
    AddKeepsTasks(s, t, r);
    AddedKeys(s, t, r);
  }

  lemma AddedKeys(s: Tables, t: WaitingTask, r: Record)
    ensures AfterAdd(s, t, r).byName.Keys == s.byName.Keys + {t.name}
  {
    assert s.byName[t.name := t].Keys == s.byName.Keys + {t.name};
  }

  lemma WithoutOneRunner(names: set<TaskName>, name: TaskName)
    requires name in names
    ensures multiset(names - {name}) == multiset(names) - multiset{name}
  {
  }

  lemma RemovalFreesSlot(s: Tables, name: TaskName, shouldRetry: bool)
    requires SlotsAgree(s.active, s.runners) && name in s.active
    ensures AfterRemoval(s, name, shouldRetry).active.Keys == s.active.Keys - {name}
    ensures SlotsAgree(AfterRemoval(s, name, shouldRetry).active, AfterRemoval(s, name, shouldRetry).runners)
  {
    assert (s.active - {name}).Keys == s.active.Keys - {name};
    WithoutOneRunner(s.active.Keys, name);
    CardinalityOfSubset(s.active.Keys - {name}, s.active.Keys);
  }

  lemma RemovalAgrees(s: Tables, name: TaskName, shouldRetry: bool)
    requires Good(s) && name in s.active
    ensures var s' := AfterRemoval(s, name, shouldRetry);
            && TasksAgree(s'.active, s'.byName, s'.log)
            && Legal(s'.log) && Waiting(s'.log) == s'.byName.Keys && Running(s'.log) == s.active.Keys - {name}
            && LastQueued(s'.log, name) == LastQueued(s.log, name)
  {
    var s' := AfterRemoval(s, name, shouldRetry);
    Extended(s.log, Completed(name, shouldRetry));
    forall n | n in s'.active && n !in s'.byName ensures s'.active[n].name == n && StartedWith(s'.log, s'.active[n]) {
      assert n in s.active && s'.active[n] == s.active[n];
    }
  }

  lemma RetryIsAllowed(s: Tables, name: TaskName, now: real, rand: real)
    requires NamesAgree(s.active.Keys, s.byName.Keys, s.log) && name in s.active && 0.0 <= rand < 1.0
    requires s.active[name].name == name && (name !in s.byName ==> StartedWith(s.log, s.active[name]))
    ensures NamesAgree(s.active.Keys - {name}, s.byName.Keys + {name}, AfterCompletion(s, name, true, now, rand).log)
  {
    CompletedAndQueuedAgain(s.active.Keys, s.byName.Keys, s.log, name, RetryRecord(s.log, s.active[name], now, rand));
  }

  lemma CompletedAndQueuedAgain(active: set<TaskName>, waiting: set<TaskName>, log: seq<Record>, name: TaskName, r: Record)
    requires NamesAgree(active, waiting, log) && name in active
    requires r.Queued? && r.name == name && r.tries > 0 && (name !in waiting ==> RetryOf(LastQueued(log, name), r))
    ensures NamesAgree(active - {name}, waiting + {name},
                       log + [Completed(name, true)] + [if name in waiting then Duplicate(name) else r])
  {
    var last := if name in waiting then Duplicate(name) else r;
    Extended(log, Completed(name, true));
    Extended(log + [Completed(name, true)], last);
  }

  lemma CompletionKeepsGood(s: Tables, name: TaskName, shouldRetry: bool, now: real, rand: real)
    requires Good(s) && name in s.active && 0.0 <= rand < 1.0
    ensures Good(AfterCompletion(s, name, shouldRetry, now, rand))
  {
    RemovalFreesSlot(s, name, shouldRetry);
    RemovalAgrees(s, name, shouldRetry);
    if shouldRetry {
      RetryIsAllowed(s, name, now, rand);
      AddedKeys(AfterRemoval(s, name, true), RetryTask(s.active[name], now, rand), RetryRecord(s.log, s.active[name], now, rand));
      AddKeepsTasks(AfterRemoval(s, name, true), RetryTask(s.active[name], now, rand), RetryRecord(s.log, s.active[name], now, rand));
    }
  }

  function ListAfterCompletion(s: Tables, ts: seq<WaitingTask>, name: TaskName, shouldRetry: bool, now: real, rand: real): seq<WaitingTask>
    requires name in s.active
  {
    if shouldRetry then ListAfterAdd(s, ts, RetryTask(s.active[name], now, rand)) else ts
  }

  lemma CompletionKeepsSameTasks(s: Tables, ts: seq<WaitingTask>, name: TaskName, shouldRetry: bool, now: real, rand: real)
    requires SameTasks(s.byName, ts) && name in s.active && s.active[name].name == name
    ensures SameTasks(AfterCompletion(s, name, shouldRetry, now, rand).byName, ListAfterCompletion(s, ts, name, shouldRetry, now, rand))
    ensures name !in AfterCompletion(s, name, shouldRetry, now, rand).active
    ensures shouldRetry ==> name in AfterCompletion(s, name, shouldRetry, now, rand).byName
  {
    if shouldRetry {
      AddKeepsSameTasks(AfterRemoval(s, name, true), ts, RetryTask(s.active[name], now, rand), RetryRecord(s.log, s.active[name], now, rand));
    }
  }

  // A completion frees the slot of its task; a retry comes last in the list, with the task as it
  // was, unless its name waits already.
  lemma CompletionRequeues(s: Tables, ts: seq<WaitingTask>, name: TaskName, shouldRetry: bool, now: real, rand: real)
    requires name in s.active && s.active[name].name == name
    ensures AfterCompletion(s, name, shouldRetry, now, rand).active == s.active - {name}
    ensures var run := s.active[name]; var backoff := Increased(run.backoff, rand);
            ListAfterCompletion(s, ts, name, shouldRetry, now, rand) ==
              if shouldRetry && name !in s.byName then ts + [WaitingTask(name, run.task, backoff, Some(now + backoff.curr.value))]
              else ts
  {
  }

  // Every task asked for by the first i messages waits, or was started since.
  ghost predicate AllServed(log: seq<Record>, start: nat, msgs: seq<Message>, i: nat) {
    forall j :: 0 <= j < i && j < |msgs| && msgs[j].AddTask? ==> Served(log, start, msgs[j].name)
  }

  lemma OneMoreServed(before: seq<Record>, log: seq<Record>, start: nat, msgs: seq<Message>, i: nat)
    requires AllServed(before, start, msgs, i) && Legal(log) && start <= |before| && before <= log && i < |msgs|
    requires msgs[i].AddTask? ==> Served(log, |before|, msgs[i].name)
    ensures AllServed(log, start, msgs, i + 1)
  {
    forall j | 0 <= j < i && msgs[j].AddTask? ensures Served(log, start, msgs[j].name) {
      ServedStays(before, log, start, msgs[j].name);
    }
  }

  lemma AddIsServed(s: Tables, t: WaitingTask, now: real)
    requires Good(AfterAdd(s, t, FirstRecord(t.name, t.backoff, now)))
    ensures Served(AfterAdd(s, t, FirstRecord(t.name, t.backoff, now)).log, |s.log|, t.name)
  {
    var s', k := AfterAdd(s, t, FirstRecord(t.name, t.backoff, now)), |s.log|;
    assert s'.log[k].name == t.name && (s'.log[k].Queued? || s'.log[k].Duplicate?);
    assert t.name in s'.byName.Keys;
  }

  lemma ServedSince(log: seq<Record>, start: nat, later: nat, name: TaskName)
    requires Served(log, later, name) && start <= later
    ensures Served(log, start, name)
  {
  }

  // ---- what the log says of completions ----

  lemma {:induction false} StartsAreNoReports(s: Tables, ts: seq<WaitingTask>, now: real)
    ensures Tally(s.log, AfterStarts(s, ts, now).log, 0, 0)
  {
    if ts != [] {
      var before, last := AfterStarts(s, ts[..|ts| - 1], now), ts[|ts| - 1];
      StartsAreNoReports(s, ts[..|ts| - 1], now);
      TallyOne(before.log, Started(last.name, now));
    }
  }

  lemma AddIsNoReport(s: Tables, t: WaitingTask, r: Record)
    requires r.Queued?
    ensures Tally(s.log, AfterAdd(s, t, r).log, 0, 0)
  {
    TallyOne(s.log, if t.name in s.byName then Duplicate(t.name) else r);
  }

  lemma CompletionIsOneReport(s: Tables, name: TaskName, shouldRetry: bool, now: real, rand: real)
    requires name in s.active
    ensures Tally(s.log, AfterCompletion(s, name, shouldRetry, now, rand).log, 1, 0)
  {
    TallyOne(s.log, Completed(name, shouldRetry));
    AddIsNoReport(AfterRemoval(s, name, shouldRetry), RetryTask(s.active[name], now, rand),
                  RetryRecord(s.log, s.active[name], now, rand));
  }

  // A completion of a task that is not running is only logged.
  function AfterStray(s: Tables, name: TaskName): Tables {
    s.(log := s.log + [NotFound(name)])
  }

  lemma StrayIsHandled(s: Tables, name: TaskName)
    requires Good(s) && name !in s.active
    ensures Good(AfterStray(s, name)) && Tally(s.log, AfterStray(s, name).log, 1, 1)
    ensures name !in s.runners
  {
    Extended(s.log, NotFound(name));
    TallyOne(s.log, NotFound(name));
  }

  lemma CompletionIsHandled(s: Tables, ts: seq<WaitingTask>, name: TaskName, shouldRetry: bool, now: real, rand: real)
    requires Good(s) && SameTasks(s.byName, ts) && name in s.active && 0.0 <= rand < 1.0
    ensures var s' := AfterCompletion(s, name, shouldRetry, now, rand);
            && Good(s') && SameTasks(s'.byName, ListAfterCompletion(s, ts, name, shouldRetry, now, rand))
            && Tally(s.log, s'.log, 1, 0) && name !in s'.active && (shouldRetry ==> name in s'.byName)
    ensures name in s.runners && s.active[name].name == name
  {
    CompletionIsOneReport(s, name, shouldRetry, now, rand);
    CompletionKeepsGood(s, name, shouldRetry, now, rand);
    CompletionKeepsSameTasks(s, ts, name, shouldRetry, now, rand);
  }

  // The completions among the first i messages.
  function CompletionsIn(msgs: seq<Message>, i: nat): nat
    requires i <= |msgs|
  {
    if i == 0 then 0 else CompletionsIn(msgs, i - 1) + if msgs[i - 1].WorkCompleted? then 1 else 0
  }

  lemma PassExtendsLog(before: Tables, ts: seq<WaitingTask>, now: real, after: Tables, left: seq<WaitingTask>)
    requires PassResult(before, ts, now, after, left)
    ensures before.log <= after.log && Tally(before.log, after.log, 0, 0)
  {
    StartsAreNoReports(before, TasksToStart(ts, before.active.Keys, now, MAX_ACTIVE_RUNNERS - |before.active.Keys|), now);
    AfterStartsLog(before, TasksToStart(ts, before.active.Keys, now, MAX_ACTIVE_RUNNERS - |before.active.Keys|), now);
  }

  class TaskRetryLoop {
    var active: map<TaskName, ActiveTask>
    var waitingByName: map<TaskName, WaitingTask>
    var waiting: seq<WaitingTask>
    var severe: nat                   // "SEVERE" and "task not found" lines logged so far

    ghost var runners: multiset<TaskName> // runner goroutines that have not reported back
    ghost var log: seq<Record>

    ghost predicate Valid()
      reads this
    {
      Good(CurrentTables()) && SameTasks(waitingByName, waiting)
    }

    ghost function CurrentTables(): Tables
      reads this
    {
      Tables(active, waitingByName, runners, log)
    }

    constructor ()
      ensures Valid() && active == map[] && waiting == [] && log == [] && severe == 0
    {
      active, waitingByName, waiting, severe := map[], map[], [], 0;
      runners, log := multiset{}, [];
    }

    method StartNewTask(task: WaitingTask, now: real)
      modifies this
      ensures CurrentTables() == AfterStart(old(CurrentTables()), task, now)
      ensures waiting == old(waiting) && severe == old(severe)
    {
      waitingByName := waitingByName - {task.name};
      active := active[task.name := ActiveTask(task.name, task.task, task.backoff, now)];
      runners := runners + multiset{task.name};
      log := log + [Started(task.name, now)];
    }

    // The checks of the two map sizes around a start never fire.
    method StartWithSanityChecks(task: WaitingTask, now: real)
      requires task.name in waitingByName && task.name !in active
      modifies this
      ensures CurrentTables() == AfterStart(old(CurrentTables()), task, now)
      ensures waiting == old(waiting) && severe == old(severe)
    {
      var prevActive, prevWaiting := |active.Keys|, |waitingByName.Keys|;
      StartChangesSizes(CurrentTables(), task, now);
      StartNewTask(task, now);
      var activeDidNotGrow := |active.Keys| != prevActive + 1;
      var waitingDidNotShrink := |waitingByName.Keys| != prevWaiting - 1;
      severe := severe + (if activeDidNotGrow then 1 else 0) + (if waitingDidNotShrink then 1 else 0);
    }

    // Whether a task is due and not running.
    method ShouldStart(task: WaitingTask, now: real) returns (startTask: bool)
      ensures startTask <==> Eligible(task, active.Keys, now)
    {
      startTask := false;
      if task.retryAt.None? {
        startTask := true;
      } else if now > task.retryAt.value {
        startTask := true;
      }
      if task.name in active {
        startTask := false;
      }
    }

    // The scan of a pass: start what can be started and collect what has to keep waiting.
    method ScanWaiting(now: real) returns (updatedWaiting: seq<WaitingTask>)
      requires Valid()
      modifies this
      ensures waiting == old(waiting) && severe == old(severe)
      ensures PassResult(old(CurrentTables()), waiting, now, CurrentTables(), updatedWaiting)
    {
      ghost var before := CurrentTables();
      ghost var started: seq<WaitingTask> := [];
      updatedWaiting := [];
      for idx := 0 to |waiting|
        invariant waiting == old(waiting) && severe == old(severe)
        invariant CurrentTables() == AfterStarts(before, started, now)
        invariant InPass(before, waiting, now, idx, started, updatedWaiting)
      {
        var task := waiting[idx];
        TurnOfPass(before, waiting, now, idx, started, updatedWaiting);
        var startTask := ShouldStart(task, now);
        if startTask && |active.Keys| < MAX_ACTIVE_RUNNERS {
          OneMoreStart(before, started, task, now);
          StartWithSanityChecks(task, now);
          started := started + [task];
        } else {
          updatedWaiting := updatedWaiting + [task];
        }
      }
      EndOfPass(before, waiting, now, CurrentTables(), started, updatedWaiting);
    }

    // Start every waiting task that is due, while there is room.
    method SchedulePass(now: real)
      requires Valid()
      modifies this
      ensures Valid()
      ensures PassResult(old(CurrentTables()), old(waiting), now, CurrentTables(), waiting)
      ensures Fair(old(waiting), old(active).Keys, now, active.Keys, waiting)
      ensures forall t :: t in old(waiting) && t.name !in old(active) && (t.retryAt.None? || t.retryAt.value < now) ==>
                |active.Keys| == 20 || (t.name in active && t.name !in waitingByName)
      ensures severe == old(severe)
    {
      if |waiting| > 0 && |active.Keys| < MAX_ACTIVE_RUNNERS {
        waiting := ScanWaiting(now);
      } else {
        PassWithNothingToDo(CurrentTables(), waiting, now);
      }
      PassKeepsTables(old(CurrentTables()), old(waiting), now, CurrentTables(), waiting);
      PassIsFair(old(CurrentTables()), old(waiting), now, CurrentTables(), waiting);
      DueTasksStart(old(CurrentTables()), old(waiting), now, CurrentTables(), waiting);
    }

    method AddWaiting(t: WaitingTask, ghost r: Record)
      modifies this
      ensures CurrentTables() == AfterAdd(old(CurrentTables()), t, r)
      ensures waiting == ListAfterAdd(old(CurrentTables()), old(waiting), t)
      ensures severe == old(severe)
    {
      if t.name in waitingByName {
        log := log + [Duplicate(t.name)];
        return;
      }
      waiting := waiting + [t];
      waitingByName := waitingByName[t.name := t];
      log := log + [r];
    }

    // After the message the name is waiting, whether or not it already was.
    method HandleAddTask(name: TaskName, task: nat, backoff: Backoff, now: real)
      requires Valid()
      modifies this
      ensures Valid() && severe == old(severe)
      ensures CurrentTables() == AfterAdd(old(CurrentTables()), WaitingTask(name, task, backoff, None), FirstRecord(name, backoff, now))
      ensures waiting == ListAfterAdd(old(CurrentTables()), old(waiting), WaitingTask(name, task, backoff, None))
      ensures active == old(active)
      ensures waiting == if name in old(waitingByName) then old(waiting) else old(waiting) + [WaitingTask(name, task, backoff, None)]
      ensures name in waitingByName && old(log) <= log && Served(log, |old(log)|, name) && Tally(old(log), log, 0, 0)
    {
      var t := WaitingTask(name, task, backoff, None);
      AddTaskKeepsGood(CurrentTables(), t, now);
      AddIsServed(CurrentTables(), t, now);
      AddIsNoReport(CurrentTables(), t, FirstRecord(name, backoff, now));
      AddKeepsSameTasks(CurrentTables(), waiting, t, FirstRecord(name, backoff, now));
      AddWaiting(t, FirstRecord(name, backoff, now));
    }

    method RemoveActive(name: TaskName, ghost shouldRetry: bool)
      modifies `active, `runners, `log
      ensures CurrentTables() == AfterRemoval(old(CurrentTables()), name, shouldRetry)
    {
      active := active - {name};
      runners := runners - multiset{name};
      log := log + [Completed(name, shouldRetry)];
    }

    method Complete(name: TaskName, shouldRetry: bool, now: real, rand: real)
      requires name in active && active[name].name == name
      modifies this
      ensures CurrentTables() == AfterCompletion(old(CurrentTables()), name, shouldRetry, now, rand)
      ensures waiting == ListAfterCompletion(old(CurrentTables()), old(waiting), name, shouldRetry, now, rand)
      ensures severe == old(severe)
    {
      var entry := active[name];
      ghost var r := RetryRecord(log, entry, now, rand);
      RemoveActive(name, shouldRetry);
      if shouldRetry {
        var backoff, delay := NextDelay(entry.backoff, rand);
        AddWaiting(WaitingTask(entry.name, entry.task, backoff, Some(now + delay)), r);
      }
    }

    // A completion of a runner finds its entry, frees its slot and, when asked to, leaves the
    // name waiting; a completion of a task that has no runner is only logged.
    method HandleWorkCompleted(name: TaskName, shouldRetry: bool, now: real, rand: real)
      requires Valid() && 0.0 <= rand < 1.0
      modifies this
      ensures Valid()
      ensures name in old(runners) <==> name in old(active)
      ensures name in old(active) ==>
                && CurrentTables() == AfterCompletion(old(CurrentTables()), name, shouldRetry, now, rand)
                && waiting == ListAfterCompletion(old(CurrentTables()), old(waiting), name, shouldRetry, now, rand)
                && severe == old(severe) && name !in active && (shouldRetry ==> name in waitingByName)
      ensures name !in old(active) ==>
                && CurrentTables() == AfterStray(old(CurrentTables()), name) && waiting == old(waiting)
                && severe == old(severe) + 1
      ensures old(log) <= log && Tally(old(log), log, 1, severe - old(severe))
    {
      if name !in active || active[name].name != name {
        StrayIsHandled(CurrentTables(), name);
        severe := severe + 1;
        log := log + [NotFound(name)];
      } else {
        CompletionIsHandled(CurrentTables(), waiting, name, shouldRetry, now, rand);
        Complete(name, shouldRetry, now, rand);
      }
    }

    static method NextDelay(b: Backoff, rand: real) returns (next: Backoff, delay: real)
      ensures next == Increased(b, rand) && Some(delay) == next.curr
    {
      var backoff := new ExponentialBackoff(b);
      delay := backoff.IncreaseAndReturnNewDuration(rand);
      next := backoff.Value();
    }

    // One turn of the loop.
    method HandleMessage(msg: Message, now: real, rand: real)
      requires Valid() && 0.0 <= rand < 1.0
      modifies this
      ensures Valid() && old(log) <= log
      ensures msg.AddTask? ==> msg.name in waitingByName && Served(log, |old(log)|, msg.name)
      ensures Tally(old(log), log, if msg.WorkCompleted? then 1 else 0, severe - old(severe))
    {
      ghost var before := CurrentTables();
      SchedulePass(now);
      PassExtendsLog(before, old(waiting), now, CurrentTables(), waiting);
      ghost var between := log;
      match msg
      case AddTask(name, task, backoff) =>
        HandleAddTask(name, task, backoff, now);
        ServedSince(log, |old(log)|, |between|, name);
      case WorkCompleted(name, shouldRetry) => HandleWorkCompleted(name, shouldRetry, now, rand);
      case Tick =>
    }

    // The endless loop, run over the messages the channel delivers: every task that was asked for
    // waits, or was started since; every completion is logged; and errors are logged only for
    // completions of tasks that were not running, one for each.
    method Run(msgs: seq<Message>, clock: seq<real>, rands: seq<real>)
      requires Valid() && |clock| == |rands| == |msgs| && Draws(rands)
      modifies this
      ensures Valid() && old(log) <= log
      ensures AllServed(log, |old(log)|, msgs, |msgs|)
      ensures Tally(old(log), log, CompletionsIn(msgs, |msgs|), severe - old(severe))
    {
      for i := 0 to |msgs|
        invariant Valid() && old(log) <= log
        invariant AllServed(log, |old(log)|, msgs, i)
        invariant Tally(old(log), log, CompletionsIn(msgs, i), severe - old(severe))
      {
        ghost var before := log;
        HandleMessage(msgs[i], clock[i], rands[i]);
        OneMoreServed(before, log, |old(log)|, msgs, i);
      }
    }
  }
}
