// What a completed promotion run says about what was promoted, and how runs of different namespaces
// get in each other's way.
module PromotionResults {
  import opened Wrappers
  import opened Promotion
  import opened PromotionOrder
  import opened PromotionProgress

  // ---- what is written, and where ----

  // Binding b is in the namespace and is for the application and the environment.
  ghost predicate IsFor(b: Key, bd: Binding, namespace: Name, application: Name, environment: Option<Name>) {
    b.namespace == namespace && bd.application == application && Some(bd.environment) == environment
  }

  // Until it has written, the worker has a binding of the environment of its run.
  ghost predicate JobIsFor(job: Job) {
    job.Located? || job.Activated? ==> IsFor(job.b, job.bd, job.k.namespace, job.r.application, job.r.environment)
  }

  lemma StepIsFor(w: World, a: Action)
    requires JobIsFor(w.job)
    ensures JobIsFor(Step(w, a).job)
  {
  }

  lemma {:induction false} AlwaysIsFor(w: World, run: seq<Action>)
    requires JobIsFor(w.job)
    ensures JobIsFor(Exec(w, run).job)
    decreases |run|
  {
    if run != [] {
      StepIsFor(w, run[0]);
      AlwaysIsFor(Step(w, run[0]), run[1..]);
    }
  }

  // The step writes what the run that was born as `birth` promotes, and nothing but its binding.
  ghost predicate Promotes(w: World, w': World, x: Write, birth: Birth) {
    && birth.environment.Some?
    && x.binding.namespace == birth.key.namespace && x.application == birth.application
    && w'.bindings == w.bindings[x.binding := Binding(birth.application, birth.environment.value, birth.snapshot)]
  }

  // The namespace has no binding for the run.
  ghost predicate NoneIsFor(w: World, birth: Birth) {
    forall b :: b in w.bindings ==> !IsFor(b, w.bindings[b], birth.key.namespace, birth.application, birth.environment)
  }

  lemma BeginPromotes(w: World, a: Action, x: Write)
    requires Inv(w) && a.Begins? && Step(w, a).log == w.log + [x]
    ensures x.uid < |w.births| && Promotes(w, Step(w, a), x, w.births[x.uid]) && NoneIsFor(w, w.births[x.uid])
  {
    assert Step(w, a).log[|w.log|] == x;
    assert Born(w.births, a.k, w.runs[a.k]);
    forall b | b in w.bindings
      ensures !IsFor(b, w.bindings[b], a.k.namespace, w.runs[a.k].application, w.runs[a.k].environment)
    {
      assert !Targets(w.runs[a.k], a.k.namespace, b, w.bindings[b]);
    }
  }

  lemma StepPromotes(w: World, a: Action, x: Write)
    requires Inv(w) && JobIsFor(w.job) && a.Steps? && Step(w, a).log == w.log + [x]
    ensures x.uid < |w.births| && Promotes(w, Step(w, a), x, w.births[x.uid])
    ensures x.binding in w.bindings && IsFor(x.binding, w.bindings[x.binding], w.births[x.uid].key.namespace,
                                             w.births[x.uid].application, w.births[x.uid].environment)
  {
    assert Step(w, a).log[|w.log|] == x;
    OnlySetSnapshotLogs(w, a.seen);
    assert Born(w.births, w.job.k, w.job.r);
  }

  lemma OnlySetSnapshotLogs(w: World, seen: Answers)
    ensures !w.job.Activated? ==> StepJob(w, seen).log == w.log && StepJob(w, seen).bindings == w.bindings
    ensures StepJob(w, seen).log == w.log ==> StepJob(w, seen).bindings == w.bindings
  {
  }

  // In every run of the system, a step of the worker that writes a binding makes it exactly the
  // binding of the run's application and environment, in the run's namespace, with the run's snapshot.
  // It creates one only if there is none for them, and otherwise writes one that is for them; and it
  // touches no other binding, and none without a write being recorded.
  lemma BindingIsOfRun(run: seq<Action>, a: Action)
    ensures var w := Exec(INITIAL, run); var w' := Step(w, a);
            if w'.log == w.log then a.BindingChanges? || w'.bindings == w.bindings
            else
              && |w'.log| == |w.log| + 1
              && var x := w'.log[|w.log|];
                 && x.uid < |w.births| && Promotes(w, w', x, w.births[x.uid])
                 && (NoneIsFor(w, w.births[x.uid])
                     || (x.binding in w.bindings
                         && IsFor(x.binding, w.bindings[x.binding], w.births[x.uid].key.namespace,
                                  w.births[x.uid].application, w.births[x.uid].environment)))
  {
    var w := Exec(INITIAL, run);
    var w' := Step(w, a);
    InvAlways(INITIAL, run);
    AlwaysIsFor(INITIAL, run);
    StepWrites(w, a);
    if w'.log != w.log {
      var x :| w'.log == w.log + [x] && MayWrite(w, x);
      if a.Begins? {
        BeginPromotes(w, a, x);
      } else {
        StepPromotes(w, a, x);
      }
    } else if a.Steps? {
      OnlySetSnapshotLogs(w, a.seen);
    }
  }

  // A run is let through: it is not Complete, and neither is an older one of an application of the name.
  ghost predicate LetThrough(runs: map<Key, Run>, k: Key) {
    && k in runs && runs[k].state != Complete
    && forall j :: j in runs && runs[j].state != Complete && runs[j].application == runs[k].application ==>
         runs[j].created >= runs[k].created
  }

  // How a reconcile begins: a run that is not let through or not supported is left alone; one that is
  // goes on with the binding for it that comes first, and without one has it created, unless its
  // application has no components or the generated name is taken.
  lemma BeginDecides(w: World, k: Key, pick: Option<Key>, generated: Name, components: bool)
    requires w.job.Idle?
    ensures var w' := Begin(w, k, pick, generated, components);
            if !LetThrough(w.runs, k) || w.runs[k].automated || w.runs[k].environment == None then w' == w
            else
              var r := w.runs[k];
              if exists b :: b in w.bindings && IsFor(b, w.bindings[b], k.namespace, r.application, r.environment) then
                match pick
                case Some(b) =>
                  w' == if b in w.bindings && IsFor(b, w.bindings[b], k.namespace, r.application, r.environment)
                        then w.(job := Located(k, r, b, w.bindings[b])) else w
                case None => w' == w
              else
                var b := Key(k.namespace, generated);
                var bd := Binding(r.application, r.environment.value, r.snapshot);
                w' == if !components || b in w.bindings then w
                      else w.(bindings := w.bindings[b := bd], job := Located(k, r, b, bd),
                              log := w.log + [Write(r.uid, r.created, r.application, b)])
  {
    if k in w.runs {
      assert Gate(w.runs, w.runs[k].application, w.runs[k].created) <==>
        forall j :: j in w.runs && w.runs[j].state != Complete && w.runs[j].application == w.runs[k].application ==>
          w.runs[j].created >= w.runs[k].created;
      forall b | b in w.bindings
        ensures Targets(w.runs[k], k.namespace, b, w.bindings[b]) <==>
                IsFor(b, w.bindings[b], k.namespace, w.runs[k].application, w.runs[k].environment)
      {
      }
    }
  }

  // ---- Success without a promotion ----

  // The run `uid` has written binding b.
  ghost predicate Wrote(log: seq<Write>, uid: nat, b: Key) {
    exists i :: 0 <= i < |log| && log[i].uid == uid && log[i].binding == b
  }

  // Run r at k has written every binding that it names.
  ghost predicate WroteNamed(log: seq<Write>, k: Key, r: Run) {
    forall n :: n in r.activeBindings ==> Wrote(log, r.uid, Key(k.namespace, n))
  }

  ghost predicate RunsWrote(w: World) {
    forall k :: Incomplete(w.runs, k) ==> WroteNamed(w.log, k, w.runs[k])
  }

  predicate PastWrite(job: Job) {
    job.Written? || job.Recorded? || job.Looking? || job.Refreshing?
  }

  // The worker has written its binding once it is past that, and a run that took the place of the
  // one it is at has written nothing.
  ghost predicate JobWrote(w: World) {
    !w.job.Idle? ==>
      && w.job.b.namespace == w.job.k.namespace
      && WroteNamed(w.log, w.job.k, w.job.r)
      && (PastWrite(w.job) ==> Wrote(w.log, w.job.r.uid, w.job.b))
      && (w.job.k in w.runs && w.runs[w.job.k].uid != w.job.r.uid ==> Silent(w.log, 0, w.runs[w.job.k].uid))
  }

  lemma WroteStays(log: seq<Write>, log': seq<Write>, uid: nat, b: Key)
    requires log <= log' && Wrote(log, uid, b)
    ensures Wrote(log', uid, b)
  {
    var i :| 0 <= i < |log| && log[i].uid == uid && log[i].binding == b;
    assert log'[i] == log[i];
  }

  lemma WroteNamedStays(log: seq<Write>, log': seq<Write>, k: Key, r: Run, r': Run)
    requires log <= log' && WroteNamed(log, k, r) && r'.uid == r.uid && forall n :: n in r'.activeBindings ==> n in r.activeBindings
    ensures WroteNamed(log', k, r')
  {
    forall n | n in r'.activeBindings ensures Wrote(log', r'.uid, Key(k.namespace, n)) {
      WroteStays(log, log', r.uid, Key(k.namespace, n));
    }
  }

  // What the run at k names after a step: nothing, or what it named, or the binding just written.
  ghost predicate NamesKept(w: World, w': World, k: Key) {
    Incomplete(w'.runs, k) ==>
      var r' := w'.runs[k];
      || r'.activeBindings == []
      || (Incomplete(w.runs, k) && r'.uid == w.runs[k].uid && r'.activeBindings == w.runs[k].activeBindings)
      || (w.job.Written? && k == w.job.k && r'.uid == w.job.r.uid && r'.activeBindings == [w.job.b.name])
  }

  lemma WriteRunNames(w: World, k: Key, r: Run, r': Run, next: Job, j: Key)
    requires k in w.runs && w.runs[k] == r ==> r.state != Complete && r'.uid == r.uid
    requires r'.activeBindings == r.activeBindings || r'.state == Complete
    ensures NamesKept(w, WriteRun(w, k, r, r', next), j)
  {
  }

  lemma JobNames(w: World, seen: Answers, j: Key)
    requires JobOk(w)
    ensures NamesKept(w, StepJob(w, seen), j)
  {
    match w.job
    case Located(k, r, b, bd) => WriteRunNames(w, k, r, r.(state := Active), Activated(k, r.(state := Active), b, bd), j);
    case Looking(k, r, b, rest, lagging) =>
      if rest != [] {
        WriteRunNames(w, k, r, r.(state := Waiting), Looking(k, r.(state := Waiting), b, rest[1..], true), j);
      }
    case Refreshing(k, r, b, lagging) =>
      if k in w.runs {
        var now := w.runs[k];
        WriteRunNames(w, k, now, now.(state := Complete, result := Failure), Idle, j);
        WriteRunNames(w, k, now, now.(state := Waiting), Idle, j);
        WriteRunNames(w, k, now, now.(state := Complete, result := Success, activeBindings := [b.name]), Idle, j);
      }
    case _ =>
  }

  lemma StepNames(w: World, a: Action, k: Key)
    requires Inv(w)
    ensures NamesKept(w, Step(w, a), k)
  {
    if a.Steps? {
      JobNames(w, a.seen, k);
    }
  }

  lemma StepKeepsRuns(w: World, a: Action)
    requires Inv(w) && RunsWrote(w) && JobWrote(w)
    ensures RunsWrote(Step(w, a))
  {
    var w' := Step(w, a);
    StepGrowsLog(w, a);
    forall k | Incomplete(w'.runs, k) ensures WroteNamed(w'.log, k, w'.runs[k]) {
      StepNames(w, a, k);
      if w.job.Written? && k == w.job.k && w'.runs[k].uid == w.job.r.uid && w'.runs[k].activeBindings == [w.job.b.name] {
        WroteStays(w.log, w'.log, w.job.r.uid, w.job.b);
      } else if w'.runs[k].activeBindings != [] {
        WroteNamedStays(w.log, w'.log, k, w.runs[k], w'.runs[k]);
      }
    }
  }

  // What a step makes of the worker's copy of the run.
  lemma StepCopies(w: World, seen: Answers)
    requires !w.job.Idle?
    ensures var job, log := StepJob(w, seen).job, StepJob(w, seen).log;
            !job.Idle? ==>
              && job.k == w.job.k && job.r.uid == w.job.r.uid && job.b == w.job.b
              && (job.r.activeBindings == w.job.r.activeBindings || (w.job.Written? && job.r.activeBindings == [w.job.b.name]))
              && (PastWrite(job) ==>
                   || PastWrite(w.job)
                   || (w.job.r.activeBindings != [] && forall n :: n in w.job.r.activeBindings ==> n == job.b.name)
                   || (log == w.log + [Write(job.r.uid, w.job.r.created, w.job.r.application, job.b)]))
  {
  }

  lemma StepKeepsCopy(w: World, a: Action)
    requires Inv(w) && JobWrote(w) && a.Steps?
    ensures JobWrote(Step(w, a))
  {
    if !w.job.Idle? && !Step(w, a).job.Idle? {
      var w' := Step(w, a);
      StepCopies(w, a.seen);
      StepGrowsLog(w, a);
      StepKeepsUid(w, a);
      StepJobWrites(w, a.seen);
      if PastWrite(w.job) {
        WroteStays(w.log, w'.log, w.job.r.uid, w.job.b);
      } else if PastWrite(w'.job) && w.job.r.activeBindings != [] && w'.log == w.log {
        assert w.job.r.activeBindings[0] in w.job.r.activeBindings;
      } else if PastWrite(w'.job) {
        assert w'.log[|w.log|].uid == w'.job.r.uid;
      }
      if w'.job.r.activeBindings == w.job.r.activeBindings {
        WroteNamedStays(w.log, w'.log, w.job.k, w.job.r, w'.job.r);
      }
    }
  }

  lemma OthersKeepCopy(w: World, a: Action)
    requires Inv(w) && RunsWrote(w) && JobWrote(w) && !a.Steps?
    ensures JobWrote(Step(w, a))
  {
    if a.Begins? && w.job.Idle? {
      BeginWrote(w, a);
    }
  }

  lemma BeginWrote(w: World, a: Action)
    requires Inv(w) && RunsWrote(w) && w.job.Idle? && a.Begins?
    ensures JobWrote(Step(w, a))
  {
    var w' := Step(w, a);
    if !w'.job.Idle? {
      StepGrowsLog(w, a);
      WroteNamedStays(w.log, w'.log, a.k, w.runs[a.k], w'.job.r);
    }
  }

  lemma {:induction false} WroteAlways(w: World, run: seq<Action>)
    requires Inv(w) && RunsWrote(w) && JobWrote(w)
    ensures RunsWrote(Exec(w, run)) && JobWrote(Exec(w, run))
    decreases |run|
  {
    if run != [] {
      var a := run[0];
      StepKeeps(w, a);
      StepKeepsRuns(w, a);
      if a.Steps? {
        StepKeepsCopy(w, a);
      } else {
        OthersKeepCopy(w, a);
      }
      WroteAlways(Step(w, a), run[1..]);
    }
  }

  // The step completes run k with Success.
  ghost predicate Completes(w: World, a: Action, k: Key) {
    && k in Step(w, a).runs && Step(w, a).runs[k].state == Complete && Step(w, a).runs[k].result == Success
    && !(k in w.runs && w.runs[k].state == Complete)
  }

  lemma CompletingStep(w: World, a: Action, k: Key)
    requires Inv(w) && Completes(w, a, k)
    ensures w.job.Refreshing? && w.job.k == k && k in w.runs && Step(w, a).log == w.log
    ensures Step(w, a).runs[k].uid == w.runs[k].uid && Step(w, a).runs[k].activeBindings == [w.job.b.name]
  {
  }

  // In every run of the system, a promotion run that is completed with Success has written the
  // binding that its status names exactly if the worker's run still is the one at its key. If that
  // one was deleted and another created under its name, the other is completed and never writes
  // anything, whatever happens later.
  lemma SuccessIsPromotedIff(run: seq<Action>, a: Action, later: seq<Action>, k: Key)
    ensures var w := Exec(INITIAL, run);
            Completes(w, a, k) ==>
              && w.job.Refreshing? && w.job.k == k && k in w.runs
              && var r := Step(w, a).runs[k];
                 var log := Exec(Step(w, a), later).log;
                 && ((exists b :: Wrote(log, r.uid, b)) <==> w.runs[k].uid == w.job.r.uid)
                 && (w.runs[k].uid == w.job.r.uid ==> WroteNamed(log, k, r) && r.activeBindings != [])
  {
    var w := Exec(INITIAL, run);
    InvAlways(INITIAL, run);
    WroteAlways(INITIAL, run);
    if Completes(w, a, k) {
      var w' := Step(w, a);
      var log, uid := Exec(w', later).log, w'.runs[k].uid;
      CompletingStep(w, a, k);
      StepKeeps(w, a);
      LogOnlyGrows(w', later);
      CompleteIsTheEnd(w', later, k);
      if uid == w.job.r.uid {
        WroteStays(w.log, log, uid, w.job.b);
      } else {
        assert forall i :: 0 <= i < |log| ==> log[i].uid != uid by {
          forall i | 0 <= i < |log| ensures log[i].uid != uid {
            assert i < |w.log| ==> log[i] == w.log[i];
          }
        }
      }
    }
  }

  // The last steps of a worker whose binding has no components, up to where it reads the run again.
  lemma GetsToRefresh(w: World, k: Key, r: Run, b: Key, now: real)
    requires w.job == Written(k, r, b) && k in w.runs && w.runs[k] == r
    ensures Again(w, Steps(Answers(true, 0, [], now)), 3) ==
              w.(runs := w.runs[k := Naming(r, b, now)], job := Refreshing(k, Naming(r, b, now), b, false))
  {
    var x, r' := Answers(true, 0, [], now), Naming(r, b, now);
    RunIsRecorded(w, k, r, b, x);
    var w1 := Step(w, Steps(x));
    AgainFirst(w, Steps(x), 2);
    assert Step(w1, Steps(x)) == w1.(job := Looking(k, r', b, [], false));
    AgainFirst(w1, Steps(x), 1);
    AgainFirst(Step(w1, Steps(x)), Steps(x), 0);
  }

  function FirstRun(app: Name, env: Name, s: Name): Run {
    Run(0, 0, app, false, Some(env), s, NoState, [], None, NoResult)
  }

  function FirstWorld(app: Name, env: Name, k: Key, b: Key, s: Name, other: Name): World {
    World(map[k := FirstRun(app, env, s)], map[b := Binding(app, env, other)], Idle, 0, [BirthOf(k, FirstRun(app, env, s))], [])
  }

  lemma FirstRunIsCreated(app: Name, env: Name, k: Key, b: Key, s: Name, other: Name) returns (run: seq<Action>)
    ensures Exec(INITIAL, run) == FirstWorld(app, env, k, b, s, other)
  {
    var a1 := UserCreatesRun(k, 0, app, false, Some(env), s);
    var a2 := BindingChanges(b, Some(Binding(app, env, other)));
    run := [a1] + [a2];
    ExecInParts(INITIAL, [a1], [a2]);
    ExecOne(INITIAL, a1);
    ExecOne(Step(INITIAL, a1), a2);
  }

  // The worker is at that run and about to read it again.
  lemma FirstRunIsRefreshed(app: Name, env: Name, k: Key, b: Key, s: Name, other: Name)
    requires k.namespace == b.namespace && s != other
    ensures var r := FirstRun(app, env, s).(state := Active, activeBindings := [b.name], started := Some(0.0));
            Reconcile(FirstWorld(app, env, k, b, s, other), k, b, Answers(true, 0, [], 0.0), 5) ==
              World(map[k := r], map[b := Binding(app, env, s)], Refreshing(k, r, b, false), 0,
                    [BirthOf(k, r)], [Write(0, 0, app, b)])
  {
    var w1, x := FirstWorld(app, env, k, b, s, other), Answers(true, 0, [], 0.0);
    assert Ready(w1, k, b);
    ReadyRunWrites(w1, k, b, x);
    ReconcileGoesOn(w1, k, b, x, 2, 3);
    var w2 := SnapshotWritten(w1, k, b);
    GetsToRefresh(w2, k, w2.runs[k], b, 0.0);
  }

  // Run k is deleted, and another is created under its name, which the worker then finishes.
  lemma AnotherIsFinished(w: World, k: Key, r: Run, b: Key, other: Name) returns (run: seq<Action>)
    requires w.job == Refreshing(k, r, b, false) && k in w.runs
    ensures var w' := Exec(w, run);
            && k in w'.runs && w'.runs[k].uid == |w.births| && w'.runs[k].snapshot == other
            && w'.runs[k].state == Complete && w'.runs[k].result == Success
            && w'.bindings == w.bindings && w'.log == w.log
  {
    var delete, create := UserDeletesRun(k), UserCreatesRun(k, w.clock, r.application, false, r.environment, other);
    var finish := Steps(Answers(true, 0, [], 0.0));
    var w1 := Step(w, delete);
    var w2 := Step(w1, create);
    run := [delete] + [create] + [finish];
    ExecInParts(w, [delete], [create]);
    ExecInParts(w, [delete] + [create], [finish]);
    ExecOne(w, delete);
    ExecOne(w1, create);
    ExecOne(w2, finish);
  }

  // It happens: a run created again under its name completes with Success, while its binding has the
  // snapshot of the deleted one, and it has not written anything.
  lemma ReusedRunSucceeds(app: Name, env: Name, k: Key, b: Key, s: Name, other: Name) returns (run: seq<Action>)
    requires k.namespace == b.namespace && s != other
    ensures var w := Exec(INITIAL, run);
            && k in w.runs && w.runs[k].state == Complete && w.runs[k].result == Success && w.runs[k].snapshot == other
            && w.bindings == map[b := Binding(app, env, s)] && Silent(w.log, 0, w.runs[k].uid)
  {
    var setup := FirstRunIsCreated(app, env, k, b, s, other);
    var w0, x := FirstWorld(app, env, k, b, s, other), Answers(true, 0, [], 0.0);
    var reconcile := ReconcileActions(k, b, x, 5);
    FirstRunIsRefreshed(app, env, k, b, s, other);
    ReconcileIsExec(w0, k, b, x, 5);
    var w := Exec(w0, reconcile);
    var rest := AnotherIsFinished(w, k, w.job.r, b, other);
    run := setup + reconcile + rest;
    ExecInParts(INITIAL, setup, reconcile);
    ExecInParts(INITIAL, setup + reconcile, rest);
  }

  // ---- runs of other namespaces ----

  // Run j is older than k, and of an application of the same name.
  predicate Older(runs: map<Key, Run>, j: Key, k: Key) {
    Incomplete(runs, j) && k in runs && runs[j].application == runs[k].application && runs[j].created < runs[k].created
  }

  // As long as an unsupported older run is there, in whatever namespace, a run stays as it is.
  lemma {:induction false} KeptOut(w: World, run: seq<Action>, j: Key, k: Key)
    requires Inv(w) && Incomplete(w.runs, k) && Older(w.runs, j, k) && Unsupported(w.runs[j])
    requires w.job.Idle? || (w.job.k != j && w.job.k != k)
    requires UserDeletesRun(j) !in run && UserDeletesRun(k) !in run
    ensures k in Exec(w, run).runs && Exec(w, run).runs[k] == w.runs[k]
    decreases |run|
  {
    if run != [] {
      StepKeeps(w, run[0]);
      UnsupportedStays(w, run[0], j);
      KeptOutStep(w, run[0], j, k);
      assert forall a :: a in run[1..] ==> a in run;
      KeptOut(Step(w, run[0]), run[1..], j, k);
    }
  }

  lemma KeptOutStep(w: World, a: Action, j: Key, k: Key)
    requires Inv(w) && Incomplete(w.runs, k) && Older(w.runs, j, k)
    requires (w.job.Idle? || w.job.k != k) && a != UserDeletesRun(k)
    ensures var w' := Step(w, a); k in w'.runs && w'.runs[k] == w.runs[k] && (w'.job.Idle? || w'.job.k != k)
  {
    if a.Steps? && !w.job.Idle? {
      StepJobWrites(w, a.seen);
      StepKeepsUid(w, a);
    }
  }

  // Nobody deletes a run of another namespace.
  ghost predicate StaysIn(run: seq<Action>, namespace: Name) {
    forall j :: UserDeletesRun(j) in run ==> j.namespace == namespace
  }

  // An older run of another namespace will never complete.
  ghost predicate BlockedFromOutside(runs: map<Key, Run>, k: Key) {
    exists j: Key :: j.namespace != k.namespace && Older(runs, j, k) && Unsupported(runs[j])
  }

  // Applications of one name in two namespaces share one gate. In every reachable state in which the
  // worker is free, a supported run can still complete without a run of another namespace being
  // deleted exactly if no unsupported one there is older.
  lemma CanCompleteWithinIff(w: World, k: Key)
    requires Inv(w) && w.job.Idle? && Incomplete(w.runs, k) && !Unsupported(w.runs[k])
    ensures (exists run :: CompletedBy(w, run, k) && StaysIn(run, k.namespace)) <==> !BlockedFromOutside(w.runs, k)
  {
    if j: Key :| j.namespace != k.namespace && Older(w.runs, j, k) && Unsupported(w.runs[j]) {
      forall run | UserDeletesRun(k) !in run && StaysIn(run, k.namespace) ensures !CompletedBy(w, run, k) {
        KeptOut(w, run, j, k);
      }
    } else {
      var run := WayWithin(w, k);
    }
  }

  // Some older run is the oldest, and so is let through.
  lemma OldestPasses(runs: map<Key, Run>, k: Key, older: set<Key>) returns (j: Key)
    requires Incomplete(runs, k) && older == set i | i in runs && Older(runs, i, k)
    requires older != {}
    ensures j in older && Passes(runs, j)
  {
    j :| j in older;
    var left := older;
    while left != {}
      invariant j in older
      invariant forall i :: i in older - left ==> runs[i].created >= runs[j].created
    {
      var i :| i in left;
      if runs[i].created < runs[j].created {
        j := i;
      }
      left := left - {i};
    }
  }

  lemma OneLessOlder(runs: map<Key, Run>, runs': map<Key, Run>, j: Key, k: Key)
    requires Older(runs, j, k) && k != j && !Incomplete(runs', j)
    requires forall i :: i != j ==> (i in runs' <==> i in runs) && (i in runs ==> runs'[i] == runs[i])
    ensures forall i :: Older(runs', i, k) <==> i != j && Older(runs, i, k)
    ensures (set i | i in runs' && Older(runs', i, k)) == (set i | i in runs && Older(runs, i, k)) - {j}
  {
  }

  // The oldest run is deleted if it is of the namespace, and completed otherwise.
  lemma WayPast(w: World, j: Key, k: Key) returns (run: seq<Action>)
    requires Inv(w) && w.job.Idle? && Incomplete(w.runs, k) && Older(w.runs, j, k) && Passes(w.runs, j)
    requires j.namespace != k.namespace ==> !Unsupported(w.runs[j])
    ensures UserDeletesRun(k) !in run && StaysIn(run, k.namespace)
    ensures var w' := Exec(w, run);
            && Inv(w') && w'.job.Idle? && !Incomplete(w'.runs, j)
            && forall i :: i != j ==> (i in w'.runs <==> i in w.runs) && (i in w.runs ==> w'.runs[i] == w.runs[i])
  {
    if j.namespace == k.namespace {
      run := [UserDeletesRun(j)];
      StepKeeps(w, UserDeletesRun(j));
      ExecOne(w, UserDeletesRun(j));
    } else {
      run := WayFromGate(w, j);
    }
  }

  lemma WayWithin(w: World, k: Key) returns (run: seq<Action>)
    requires Inv(w) && w.job.Idle? && Incomplete(w.runs, k) && !Unsupported(w.runs[k]) && !BlockedFromOutside(w.runs, k)
    ensures CompletedBy(w, run, k) && StaysIn(run, k.namespace)
    decreases |set i | i in w.runs && Older(w.runs, i, k)|
  {
    var older := set i | i in w.runs && Older(w.runs, i, k);
    if older == {} {
      assert Passes(w.runs, k) by {
        forall i | Incomplete(w.runs, i) && w.runs[i].application == w.runs[k].application
          ensures w.runs[i].created >= w.runs[k].created {
          assert i !in older;
        }
      }
      run := WayFromGate(w, k);
    } else {
      var j := OldestPasses(w.runs, k, older);
      var first := WayPast(w, j, k);
      var w' := Exec(w, first);
      OneLessOlder(w.runs, w'.runs, j, k);
      var rest := WayWithin(w', k);
      run := first + rest;
      ExecInParts(w, first, rest);
    }
  }
}
