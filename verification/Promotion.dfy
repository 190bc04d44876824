// The PromotionRun reconciler as a state machine over API writes.
module Promotion {
  import opened Wrappers

  // Objects of all namespaces: the gate lists the runs of all of them.
  datatype Key = Key(namespace: Name, name: Name)

  datatype RunState = NoState | Active | Waiting | Complete
  datatype Result = NoResult | Success | Failure

  // `uid` tells two objects apart that had the same key; `created` is the creation timestamp.
  datatype Run = Run(uid: nat, created: nat, application: Name, automated: bool, environment: Option<Name>,
                     snapshot: Name, state: RunState, activeBindings: seq<Name>, started: Option<real>, result: Result)
  datatype Binding = Binding(application: Name, environment: Name, snapshot: Name)

  const TIME_OUT_LIMIT := 10.0  // minutes

  // An empty status is NoSync or NoHealth.
  datatype Sync = NoSync | UnknownSync | Synced | OutOfSync
  datatype Health = NoHealth | UnknownHealth | Healthy | Progressing | Degraded | Suspended | MissingHealth
  datatype Deployment = Deployment(sync: Sync, health: Health)

  // Where the worker is; `r` is its copy of run k, `bd` its copy of binding b.
  datatype Job =
    | Idle
    | Located(k: Key, r: Run, b: Key, bd: Binding)     // passed the gate, has a binding
    | Activated(k: Key, r: Run, b: Key, bd: Binding)   // run is Active
    | Written(k: Key, r: Run, b: Key)                  // binding has the snapshot
    | Recorded(k: Key, r: Run, b: Key)                 // run names the binding
    | Looking(k: Key, r: Run, b: Key, rest: seq<Option<Deployment>>, lagging: bool) // at the deployments
    | Refreshing(k: Key, r: Run, b: Key, lagging: bool)  // about to read the run again

  // A write of the binding by the run `uid`.
  datatype Write = Write(uid: nat, created: nat, application: Name, binding: Key)

  // What never changes about a run; `births[uid]` is the birth of the run `uid`.
  datatype Birth = Birth(key: Key, created: nat, application: Name, automated: bool, environment: Option<Name>,
                         snapshot: Name)

  // `clock` is the last creation time, `births` what was ever created, `log` the writes of bindings.
  datatype World = World(runs: map<Key, Run>, bindings: map<Key, Binding>, job: Job,
                         clock: nat, births: seq<Birth>, log: seq<Write>)

  // ---- decisions ----

  predicate Incomplete(runs: map<Key, Run>, k: Key) {
    k in runs && runs[k].state != Complete
  }

  // No incomplete run of the application was created earlier.
  predicate Gate(runs: map<Key, Run>, application: Name, created: nat) {
    forall k :: k in runs && Incomplete(runs, k) && runs[k].application == application ==> runs[k].created >= created
  }

  predicate Passes(runs: map<Key, Run>, k: Key) {
    Incomplete(runs, k) && Gate(runs, runs[k].application, runs[k].created)
  }

  // Automated promotion is not supported, and a manual one needs an environment.
  predicate Unsupported(r: Run) {
    r.automated || r.environment.None?
  }

  predicate Overdue(r: Run, now: real) {
    r.started.Some? && now - r.started.value > TIME_OUT_LIMIT
  }

  function BirthOf(k: Key, r: Run): Birth {
    Birth(k, r.created, r.application, r.automated, r.environment, r.snapshot)
  }

  predicate Targets(r: Run, namespace: Name, b: Key, bd: Binding) {
    b.namespace == namespace && bd.application == r.application && r.environment == Some(bd.environment)
  }

  // What the worker is told when it asks: whether the snapshot exists, how many components the binding
  // has, and the deployments that its status lists, None for one that cannot be read.
  datatype Answers = Answers(snapshotExists: bool, components: nat, deployments: seq<Option<Deployment>>, now: real)

  // The only deployments that are waited for.
  predicate Blocks(d: Deployment) {
    d.sync == Synced && d.health != Healthy
  }

  // ---- one reconcile ----

  function Logged(w: World, r: Run, b: Key): World {
    w.(log := w.log + [Write(r.uid, r.created, r.application, b)])
  }

  function Cut(w: World): World {
    w.(job := Idle)
  }

  // A status write: it succeeds only while the run is still the one read.
  function WriteRun(w: World, k: Key, r: Run, r': Run, next: Job): World {
    if k in w.runs && w.runs[k] == r then w.(runs := w.runs[k := r'], job := next) else Cut(w)
  }

  // `pick` is the first binding in the list for the run's application and environment, if there is
  // one; otherwise one named `generated` is created, unless the application has no components.
  function Begin(w: World, k: Key, pick: Option<Key>, generated: Name, components: bool): World {
    if !w.job.Idle? || !Passes(w.runs, k) then w
    else
      var r := w.runs[k];
      if Unsupported(r) then w
      else if exists b :: b in w.bindings && Targets(r, k.namespace, b, w.bindings[b]) then
        if pick.Some? && pick.value in w.bindings && Targets(r, k.namespace, pick.value, w.bindings[pick.value])
        then w.(job := Located(k, r, pick.value, w.bindings[pick.value]))
        else w
      else
        var b := Key(k.namespace, generated);
        var bd := Binding(r.application, r.environment.value, r.snapshot);
        if !components || b in w.bindings then w
        else Logged(w.(bindings := w.bindings[b := bd], job := Located(k, r, b, bd)), r, b)
  }

  function SetSnapshot(w: World, k: Key, r: Run, b: Key, bd: Binding, snapshotExists: bool): World {
    if (exists n :: n in r.activeBindings && n != b.name) || !snapshotExists then Cut(w)
    else if bd.snapshot == r.snapshot && r.activeBindings != [] then w.(job := Recorded(k, r, b))
    else if b !in w.bindings || w.bindings[b] != bd then Cut(w)
    else Logged(w.(bindings := w.bindings[b := bd.(snapshot := r.snapshot)], job := Written(k, r, b)), r, b)
  }

  // One turn of the loop over the deployments; every one that is waited for is reported by a write.
  function LookAtNext(w: World, k: Key, r: Run, b: Key, rest: seq<Option<Deployment>>, lagging: bool): World {
    if rest == [] then w.(job := Refreshing(k, r, b, lagging))
    else if rest[0].None? then Cut(w)
    else if Blocks(rest[0].value) then
      var r' := r.(state := Waiting);
      WriteRun(w, k, r, r', Looking(k, r', b, rest[1..], true))
    else w.(job := Looking(k, r, b, rest[1..], lagging))
  }

  // The run is read again by its key, whichever run that is now.
  function Finish(w: World, k: Key, b: Key, lagging: bool, now: real): World {
    if k !in w.runs then Cut(w)
    else
      var r := w.runs[k];
      if Overdue(r, now)
      then WriteRun(w, k, r, r.(state := Complete, result := Failure), Idle)
      else if lagging then WriteRun(w, k, r, r.(state := Waiting), Idle)
      else WriteRun(w, k, r, r.(state := Complete, result := Success, activeBindings := [b.name]), Idle)
  }

  function StepJob(w: World, seen: Answers): World {
    match w.job
    case Idle => w
    case Located(k, r, b, bd) =>
      if r.state == Active then w.(job := Activated(k, r, b, bd))
      else WriteRun(w, k, r, r.(state := Active), Activated(k, r.(state := Active), b, bd))
    case Activated(k, r, b, bd) => SetSnapshot(w, k, r, b, bd, seen.snapshotExists)
    case Written(k, r, b) =>
      var r' := r.(activeBindings := [b.name], started := if r.started.None? then Some(seen.now) else r.started);
      WriteRun(w, k, r, r', Recorded(k, r', b))
    case Recorded(k, r, b) =>
      if |seen.deployments| != seen.components then Cut(w)
      else w.(job := Looking(k, r, b, seen.deployments, false))
    case Looking(k, r, b, rest, lagging) => LookAtNext(w, k, r, b, rest, lagging)
    case Refreshing(k, r, b, lagging) => Finish(w, k, b, lagging, seen.now)
  }

  // ---- runs of the whole system ----

  datatype Action =
    | Begins(k: Key, pick: Option<Key>, generated: Name, components: bool)
    | Steps(seen: Answers)
    | IsCut
    | UserCreatesRun(k: Key, at: nat, application: Name, automated: bool, environment: Option<Name>, snapshot: Name)
    | UserDeletesRun(k: Key)
    | BindingChanges(k: Key, bd: Option<Binding>)

  function Step(w: World, a: Action): World {
    match a
    case Begins(k, pick, generated, components) => Begin(w, k, pick, generated, components)
    case Steps(seen) => StepJob(w, seen)
    case IsCut => Cut(w)
    case UserCreatesRun(k, at, application, automated, environment, snapshot) =>
      if k in w.runs || at < w.clock then w
      else
        var r := Run(|w.births|, at, application, automated, environment, snapshot, NoState, [], None, NoResult);
        w.(runs := w.runs[k := r], clock := at, births := w.births + [BirthOf(k, r)])
    case UserDeletesRun(k) => w.(runs := w.runs - {k})
    case BindingChanges(b, bd) => w.(bindings := if bd.Some? then w.bindings[b := bd.value] else w.bindings - {b})
  }

  function Exec(w: World, run: seq<Action>): World
    decreases |run|
  {
    if run == [] then w else Exec(Step(w, run[0]), run[1..])
  }

  const INITIAL := World(map[], map[], Idle, 0, [], [])

  lemma {:induction false} ExecInParts(w: World, first: seq<Action>, second: seq<Action>)
    ensures Exec(w, first + second) == Exec(Exec(w, first), second)
    decreases |first|
  {
    if first == [] {
      assert first + second == second;
    } else {
      assert (first + second)[1..] == first[1..] + second;
      ExecInParts(Step(w, first[0]), first[1..], second);
    }
  }

  lemma ExecOne(w: World, a: Action)
    ensures Exec(w, [a]) == Step(w, a)
  {
    assert [a][1..] == [];
    assert Exec(Step(w, a), []) == Step(w, a);
  }
}
