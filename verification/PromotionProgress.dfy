// When promotion runs complete: what one reconcile achieves, what keeps a run waiting, and which
// runs can complete at all.
module PromotionProgress {
  import opened Wrappers
  import opened Promotion
  import opened PromotionOrder

  // ---- one reconcile that nothing interferes with ----

  // The same action n times.
  function Again(w: World, a: Action, n: nat): World {
    if n == 0 then w else Step(Again(w, a, n - 1), a)
  }

  function Reconcile(w: World, k: Key, b: Key, x: Answers, n: nat): World {
    Again(Step(w, Begins(k, Some(b), b.name, true)), Steps(x), n)
  }

  function ReconcileActions(k: Key, b: Key, x: Answers, n: nat): seq<Action> {
    if n == 0 then [Begins(k, Some(b), b.name, true)] else ReconcileActions(k, b, x, n - 1) + [Steps(x)]
  }

  lemma {:induction false} ReconcileIsExec(w: World, k: Key, b: Key, x: Answers, n: nat)
    ensures Reconcile(w, k, b, x, n) == Exec(w, ReconcileActions(k, b, x, n))
  {
    if n == 0 {
      ExecOne(w, Begins(k, Some(b), b.name, true));
    } else {
      ReconcileIsExec(w, k, b, x, n - 1);
      ExecInParts(w, ReconcileActions(k, b, x, n - 1), [Steps(x)]);
      ExecOne(Reconcile(w, k, b, x, n - 1), Steps(x));
    }
  }

  lemma {:induction false} AgainInParts(w: World, a: Action, m: nat, n: nat)
    ensures Again(w, a, m + n) == Again(Again(w, a, m), a, n)
  {
    if n > 0 {
      AgainInParts(w, a, m, n - 1);
    }
  }

  lemma AgainFirst(w: World, a: Action, n: nat)
    ensures Again(w, a, n + 1) == Again(Step(w, a), a, n)
  {
    AgainInParts(w, a, 1, n);
    assert Again(w, a, 1) == Step(Again(w, a, 0), a);
  }

  lemma {:induction false} IdleStays(w: World, x: Answers, n: nat)
    requires w.job.Idle?
    ensures Again(w, Steps(x), n) == w
  {
    if n > 0 {
      IdleStays(w, x, n - 1);
    }
  }

  // Run k passes the gate and finds binding b of its environment, the one it has promoted so far.
  ghost predicate Ready(w: World, k: Key, b: Key) {
    && w.job.Idle? && Passes(w.runs, k) && !Unsupported(w.runs[k]) && b in w.bindings
    && b.namespace == k.namespace && w.bindings[b].application == w.runs[k].application
    && w.runs[k].environment == Some(w.bindings[b].environment)
    && |w.runs[k].activeBindings| <= 1 && forall n :: n in w.runs[k].activeBindings ==> n == b.name
  }

  // The binding is written unless the run has done that already and it still has the snapshot.
  predicate NeedsWrite(r: Run, bd: Binding) {
    bd.snapshot != r.snapshot || r.activeBindings == []
  }

  function SnapshotWritten(w: World, k: Key, b: Key): World
    requires k in w.runs && b in w.bindings
  {
    var r := w.runs[k].(state := Active);
    w.(runs := w.runs[k := r], bindings := w.bindings[b := w.bindings[b].(snapshot := r.snapshot)],
       log := w.log + [Write(r.uid, r.created, r.application, b)], job := Written(k, r, b))
  }

  lemma ReadyRunIsActivated(w: World, k: Key, b: Key, x: Answers)
    requires Ready(w, k, b)
    ensures var r := w.runs[k].(state := Active);
            Reconcile(w, k, b, x, 1) == w.(runs := w.runs[k := r], job := Activated(k, r, b, w.bindings[b]))
  {
    var r, bd := w.runs[k], w.bindings[b];
    assert Step(w, Begins(k, Some(b), b.name, true)) == w.(job := Located(k, r, b, bd));
    assert Again(w.(job := Located(k, r, b, bd)), Steps(x), 0) == w.(job := Located(k, r, b, bd));
    assert r.state == Active ==> r.(state := Active) == r && w.runs[k := r] == w.runs;
  }

  // A run let through becomes Active, and sets its snapshot in its binding if that is needed and
  // the snapshot is there.
  lemma ReadyRunWrites(w: World, k: Key, b: Key, x: Answers)
    requires Ready(w, k, b)
    ensures var r := w.runs[k].(state := Active);
            Reconcile(w, k, b, x, 2) ==
              if !x.snapshotExists then w.(runs := w.runs[k := r])
              else if NeedsWrite(r, w.bindings[b]) then SnapshotWritten(w, k, b)
              else w.(runs := w.runs[k := r], job := Recorded(k, r, b))
  {
    ReadyRunIsActivated(w, k, b, x);
  }

  // The run as it names its binding.
  function Naming(r: Run, b: Key, now: real): Run {
    r.(activeBindings := [b.name], started := if r.started.None? then Some(now) else r.started)
  }

  lemma RunIsRecorded(w: World, k: Key, r: Run, b: Key, x: Answers)
    requires w.job == Written(k, r, b) && k in w.runs && w.runs[k] == r
    ensures Step(w, Steps(x)) == w.(runs := w.runs[k := Naming(r, b, x.now)], job := Recorded(k, Naming(r, b, x.now), b))
  {
  }

  // ---- what the deployments lead to ----

  predicate Readable(ds: seq<Option<Deployment>>) {
    forall i :: 0 <= i < |ds| ==> ds[i].Some?
  }

  predicate SomeBlock(ds: seq<Option<Deployment>>) {
    exists i :: 0 <= i < |ds| && ds[i].Some? && Blocks(ds[i].value)
  }

  predicate AllCreated(x: Answers) {
    |x.deployments| == x.components && Readable(x.deployments)
  }

  // The run once the deployments were looked at, up to the first that cannot be read.
  function LookedAt(r: Run, ds: seq<Option<Deployment>>): Run
    decreases |ds|
  {
    if ds == [] || ds[0].None? then r
    else LookedAt(if Blocks(ds[0].value) then r.(state := Waiting) else r, ds[1..])
  }

  function JobAfterLooking(k: Key, r: Run, b: Key, ds: seq<Option<Deployment>>, lagging: bool): Job {
    if Readable(ds) then Looking(k, LookedAt(r, ds), b, [], lagging || SomeBlock(ds)) else Idle
  }

  lemma {:induction false} LookingEnds(w: World, k: Key, r: Run, b: Key, ds: seq<Option<Deployment>>, lagging: bool, x: Answers)
    requires w.job == Looking(k, r, b, ds, lagging) && k in w.runs && w.runs[k] == r
    ensures Again(w, Steps(x), |ds|) == w.(runs := w.runs[k := LookedAt(r, ds)], job := JobAfterLooking(k, r, b, ds, lagging))
    decreases |ds|
  {
    assert w.runs[k := r] == w.runs;
    if ds == [] {
    } else {
      var rest := ds[1..];
      assert ds == [ds[0]] + rest;
      var w1 := Step(w, Steps(x));
      AgainFirst(w, Steps(x), |rest|);
      if ds[0].None? {
        IdleStays(w1, x, |rest|);
      } else {
        var r1 := if Blocks(ds[0].value) then r.(state := Waiting) else r;
        var late := lagging || Blocks(ds[0].value);
        assert w1 == w.(runs := w.runs[k := r1], job := Looking(k, r1, b, rest, late));
        LookingEnds(w1, k, r1, b, rest, late, x);
        assert w1.runs[k := LookedAt(r1, rest)] == w.runs[k := LookedAt(r1, rest)];
        BlocksInParts(ds);
      }
    }
  }

  lemma BlocksInParts(ds: seq<Option<Deployment>>)
    requires ds != [] && ds[0].Some?
    ensures Readable(ds) <==> Readable(ds[1..])
    ensures SomeBlock(ds) <==> Blocks(ds[0].value) || SomeBlock(ds[1..])
  {
    if i :| 0 <= i < |ds| && ds[i].Some? && Blocks(ds[i].value) && i > 0 {
      assert ds[1..][i - 1] == ds[i];
    }
    if !Readable(ds) {
      var i :| 0 <= i < |ds| && ds[i].None?;
      assert ds[1..][i - 1] == ds[i];
    }
  }

  lemma {:induction false} LookingChangesState(r: Run, ds: seq<Option<Deployment>>)
    ensures LookedAt(r, ds).(state := r.state) == r
    decreases |ds|
  {
    if ds != [] && ds[0].Some? {
      LookingChangesState(if Blocks(ds[0].value) then r.(state := Waiting) else r, ds[1..]);
    }
  }

  // What a reconcile of a run that has named its binding makes of it.
  function Verdict(r: Run, b: Key, x: Answers): Run {
    if |x.deployments| != x.components then r
    else if !Readable(x.deployments) then LookedAt(r, x.deployments)
    else if Overdue(r, x.now) then r.(state := Complete, result := Failure)
    else if SomeBlock(x.deployments) then r.(state := Waiting)
    else r.(state := Complete, result := Success, activeBindings := [b.name])
  }

  // The run as the worker leaves it once it has read it again.
  function Concluded(r: Run, b: Key, lagging: bool, now: real): Run {
    if Overdue(r, now) then r.(state := Complete, result := Failure)
    else if lagging then r.(state := Waiting)
    else r.(state := Complete, result := Success, activeBindings := [b.name])
  }

  lemma LookedRunIsConcluded(w: World, k: Key, r: Run, b: Key, lagging: bool, x: Answers)
    requires w.job == Looking(k, r, b, [], lagging) && k in w.runs && w.runs[k] == r
    ensures Again(w, Steps(x), 2) == w.(runs := w.runs[k := Concluded(r, b, lagging, x.now)], job := Idle)
  {
    AgainFirst(w, Steps(x), 1);
    assert Step(w, Steps(x)) == w.(job := Refreshing(k, r, b, lagging));
    AgainFirst(Step(w, Steps(x)), Steps(x), 0);
  }

  lemma VerdictIsConcluded(r: Run, b: Key, x: Answers)
    requires AllCreated(x)
    ensures Concluded(LookedAt(r, x.deployments), b, SomeBlock(x.deployments), x.now) == Verdict(r, b, x)
  {
    LookingChangesState(r, x.deployments);
  }

  lemma ReadableIsJudged(w: World, k: Key, r: Run, b: Key, x: Answers)
    requires w.job == Looking(k, LookedAt(r, x.deployments), b, [], SomeBlock(x.deployments)) && AllCreated(x)
    requires k in w.runs && w.runs[k] == LookedAt(r, x.deployments)
    ensures Again(w, Steps(x), 2) == w.(runs := w.runs[k := Verdict(r, b, x)], job := Idle)
  {
    LookedRunIsConcluded(w, k, LookedAt(r, x.deployments), b, SomeBlock(x.deployments), x);
    VerdictIsConcluded(r, b, x);
  }

  lemma LookedIsJudged(w: World, w': World, k: Key, r: Run, b: Key, x: Answers)
    requires k in w.runs && |x.deployments| == x.components
    requires w' == w.(runs := w.runs[k := LookedAt(r, x.deployments)],
                      job := JobAfterLooking(k, r, b, x.deployments, false))
    ensures Again(w', Steps(x), 2) == w.(runs := w.runs[k := Verdict(r, b, x)], job := Idle)
  {
    if Readable(x.deployments) {
      ReadableIsJudged(w', k, r, b, x);
      assert w'.runs[k := Verdict(r, b, x)] == w.runs[k := Verdict(r, b, x)];
    } else {
      IdleStays(w', x, 2);
    }
  }

  lemma LookingIsJudged(w: World, k: Key, r: Run, b: Key, x: Answers)
    requires w.job == Looking(k, r, b, x.deployments, false) && k in w.runs && w.runs[k] == r
    requires |x.deployments| == x.components
    ensures Again(w, Steps(x), |x.deployments| + 2) == w.(runs := w.runs[k := Verdict(r, b, x)], job := Idle)
  {
    LookingEnds(w, k, r, b, x.deployments, false, x);
    LookedIsJudged(w, Again(w, Steps(x), |x.deployments|), k, r, b, x);
    AgainInParts(w, Steps(x), |x.deployments|, 2);
  }

  lemma RecordedRunIsJudged(w: World, k: Key, r: Run, b: Key, x: Answers)
    requires w.job == Recorded(k, r, b) && k in w.runs && w.runs[k] == r
    ensures Again(w, Steps(x), |x.deployments| + 3) == w.(runs := w.runs[k := Verdict(r, b, x)], job := Idle)
  {
    assert w.runs[k := r] == w.runs;
    var w1 := Step(w, Steps(x));
    AgainFirst(w, Steps(x), |x.deployments| + 2);
    if |x.deployments| != x.components {
      IdleStays(w1, x, |x.deployments| + 2);
    } else {
      LookingIsJudged(w1, k, r, b, x);
    }
  }

  // The state in which an uninterrupted reconcile of a run that gets to its deployments leaves it.
  function Judged(w: World, k: Key, b: Key, x: Answers): World
    requires k in w.runs && b in w.bindings
  {
    var r := w.runs[k].(state := Active);
    if NeedsWrite(r, w.bindings[b])
    then SnapshotWritten(w, k, b).(runs := w.runs[k := Verdict(Naming(r, b, x.now), b, x)], job := Idle)
    else w.(runs := w.runs[k := Verdict(r, b, x)])
  }

  // How many steps a reconcile takes at most.
  function Length(x: Answers): nat {
    |x.deployments| + 6
  }

  lemma WrittenRunIsJudged(w: World, k: Key, r: Run, b: Key, x: Answers)
    requires w.job == Written(k, r, b) && k in w.runs && w.runs[k] == r
    ensures Again(w, Steps(x), |x.deployments| + 4) == w.(runs := w.runs[k := Verdict(Naming(r, b, x.now), b, x)], job := Idle)
  {
    var r' := Naming(r, b, x.now);
    RunIsRecorded(w, k, r, b, x);
    AgainFirst(w, Steps(x), |x.deployments| + 3);
    RecordedRunIsJudged(Step(w, Steps(x)), k, r', b, x);
    assert w.runs[k := r'][k := Verdict(r', b, x)] == w.runs[k := Verdict(r', b, x)];
  }

  lemma ReconcileGoesOn(w: World, k: Key, b: Key, x: Answers, m: nat, n: nat)
    ensures Reconcile(w, k, b, x, m + n) == Again(Reconcile(w, k, b, x, m), Steps(x), n)
  {
    AgainInParts(Step(w, Begins(k, Some(b), b.name, true)), Steps(x), m, n);
  }

  lemma ReconcileJudgesWritten(w: World, k: Key, b: Key, x: Answers)
    requires k in w.runs && b in w.bindings && NeedsWrite(w.runs[k], w.bindings[b])
    ensures Again(SnapshotWritten(w, k, b), Steps(x), |x.deployments| + 4) == Judged(w, k, b, x)
  {
    var r, w2 := w.runs[k].(state := Active), SnapshotWritten(w, k, b);
    WrittenRunIsJudged(w2, k, r, b, x);
    assert w2.runs[k := Verdict(Naming(r, b, x.now), b, x)] == w.runs[k := Verdict(Naming(r, b, x.now), b, x)];
  }

  lemma ReconcileJudgesUnwritten(w: World, k: Key, b: Key, x: Answers)
    requires w.job.Idle? && k in w.runs && b in w.bindings && !NeedsWrite(w.runs[k], w.bindings[b])
    ensures var r := w.runs[k].(state := Active);
            Again(w.(runs := w.runs[k := r], job := Recorded(k, r, b)), Steps(x), |x.deployments| + 4) == Judged(w, k, b, x)
  {
    var r := w.runs[k].(state := Active);
    var w2 := w.(runs := w.runs[k := r], job := Recorded(k, r, b));
    RecordedRunIsJudged(w2, k, r, b, x);
    assert w2.runs[k := Verdict(r, b, x)] == w.runs[k := Verdict(r, b, x)];
    IdleStays(Again(w2, Steps(x), |x.deployments| + 3), x, 1);
    AgainInParts(w2, Steps(x), |x.deployments| + 3, 1);
  }

  lemma ReconcileJudges(w: World, k: Key, b: Key, x: Answers)
    requires Ready(w, k, b) && x.snapshotExists
    ensures Reconcile(w, k, b, x, Length(x)) == Judged(w, k, b, x)
  {
    ReadyRunWrites(w, k, b, x);
    ReconcileGoesOn(w, k, b, x, 2, |x.deployments| + 4);
    if NeedsWrite(w.runs[k], w.bindings[b]) {
      ReconcileJudgesWritten(w, k, b, x);
    } else {
      ReconcileJudgesUnwritten(w, k, b, x);
    }
  }

  lemma DeploymentsAre(ds: seq<Option<Deployment>>)
    ensures Readable(ds) <==> forall d :: d in ds ==> d.Some?
    ensures SomeBlock(ds) <==> exists d :: d in ds && d.Some? && d.value.sync == Synced && d.value.health != Healthy
  {
    if d :| d in ds && d.Some? && d.value.sync == Synced && d.value.health != Healthy {
      var i :| 0 <= i < |ds| && ds[i] == d;
      assert Blocks(ds[i].value);
    }
  }

  // An uninterrupted reconcile of a run that is let through completes it exactly if its snapshot
  // exists, all its deployments exist and can be read, and none of them is Synced and not Healthy or
  // the time is up: with Failure if the time is up, else with Success. So the time limit does nothing
  // for a run whose snapshot or deployments are missing.
  lemma ReconcileCompletesIff(w: World, k: Key, b: Key, x: Answers)
    requires Ready(w, k, b)
    ensures var w', r := Reconcile(w, k, b, x, Length(x)), w.runs[k];
            var late := r.started.Some? && x.now - r.started.value > 10.0;
            && w'.job.Idle? && k in w'.runs && w'.runs[k].uid == r.uid
            && (w'.runs[k].state == Complete <==>
                 && x.snapshotExists && |x.deployments| == x.components
                 && (forall d :: d in x.deployments ==> d.Some?)
                 && (late || forall d :: d in x.deployments && d.Some? && d.value.sync == Synced ==> d.value.health == Healthy))
            && (w'.runs[k].state == Complete ==>
                 w' == Judged(w, k, b, x) && w'.runs[k].result == if late then Failure else Success)
  {
    DeploymentsAre(x.deployments);
    var r := w.runs[k].(state := Active);
    if x.snapshotExists {
      ReconcileJudges(w, k, b, x);
      assert Overdue(Naming(r, b, x.now), x.now) <==> Overdue(r, x.now);
      NotJudgedComplete(r, b, x);
      NotJudgedComplete(Naming(r, b, x.now), b, x);
    } else {
      ReadyRunWrites(w, k, b, x);
      ReconcileGoesOn(w, k, b, x, 2, |x.deployments| + 4);
      IdleStays(Reconcile(w, k, b, x, 2), x, |x.deployments| + 4);
    }
  }

  lemma NotJudgedComplete(r: Run, b: Key, x: Answers)
    requires r.state != Complete
    ensures Verdict(r, b, x).uid == r.uid
    ensures Verdict(r, b, x).state == Complete <==> AllCreated(x) && (!SomeBlock(x.deployments) || Overdue(r, x.now))
    ensures Verdict(r, b, x).state == Complete ==> Verdict(r, b, x).result == if Overdue(r, x.now) then Failure else Success
  {
    LookingChangesState(r, x.deployments);
    NeverLookedComplete(r, x.deployments);
  }

  lemma {:induction false} NeverLookedComplete(r: Run, ds: seq<Option<Deployment>>)
    requires r.state != Complete
    ensures LookedAt(r, ds).state != Complete
    decreases |ds|
  {
    if ds != [] && ds[0].Some? {
      NeverLookedComplete(if Blocks(ds[0].value) then r.(state := Waiting) else r, ds[1..]);
    }
  }

  // ---- what Success says ----

  ghost predicate AllSynced(ds: seq<Option<Deployment>>) {
    forall d :: d in ds ==> d.Some? && d.value.sync == Synced
  }

  ghost predicate AllFine(ds: seq<Option<Deployment>>) {
    forall d :: d in ds ==> d.Some? && d.value == Deployment(Synced, Healthy)
  }

  // Success is meant to say that every deployment is Synced and Healthy. It says so exactly if every
  // one is Synced: the health of the others is never looked at.
  lemma SuccessIsTrueIff(w: World, k: Key, b: Key, x: Answers)
    requires Ready(w, k, b)
    ensures var w' := Reconcile(w, k, b, x, Length(x));
            k in w'.runs && w'.runs[k].state == Complete && w'.runs[k].result == Success ==>
              (AllFine(x.deployments) <==> AllSynced(x.deployments))
  {
    ReconcileCompletesIff(w, k, b, x);
    var ds := x.deployments;
    if Readable(ds) && !SomeBlock(ds) && AllSynced(ds) {
      forall d | d in ds ensures d.Some? && d.value == Deployment(Synced, Healthy) {
        var i :| 0 <= i < |ds| && ds[i] == d;
        assert !Blocks(ds[i].value);
      }
    }
  }

  // A run in time whose only deployment is neither Synced nor Healthy completes with Success.
  lemma UnhealthyRunSucceeds(w: World, k: Key, b: Key, x: Answers)
    requires Ready(w, k, b) && x.snapshotExists && !Overdue(w.runs[k], x.now)
    requires x.components == 1 && x.deployments == [Some(Deployment(OutOfSync, Degraded))]
    ensures var w' := Reconcile(w, k, b, x, Length(x));
            k in w'.runs && w'.runs[k].state == Complete && w'.runs[k].result == Success && !AllFine(x.deployments)
  {
    ReconcileCompletesIff(w, k, b, x);
    assert x.deployments[0] in x.deployments;
  }

  // ---- what keeps a run waiting ----

  // What can fail to be there: the snapshot, a deployment, or the health of those that are Synced
  // before the time is up.
  datatype Missing = TheSnapshot | ADeployment | TheirHealth

  // What the worker is told about its run when it asks for what is missing.
  predicate Lacks(w: World, x: Answers, m: Missing) {
    match m
    case TheSnapshot => w.job.Activated? ==> !x.snapshotExists
    case ADeployment => w.job.Recorded? ==> !AllCreated(x)
    case TheirHealth =>
      && (w.job.Recorded? ==> !AllCreated(x) || SomeBlock(x.deployments))
      && (w.job.Refreshing? && w.job.k in w.runs ==> !Overdue(w.runs[w.job.k], x.now))
  }

  // Whenever the worker asks about run k, it is missing.
  ghost predicate AlwaysLacks(w: World, run: seq<Action>, k: Key, m: Missing)
    decreases |run|
  {
    run == [] ||
    ((run[0].Steps? && !w.job.Idle? && w.job.k == k ==> Lacks(w, run[0].seen, m))
     && AlwaysLacks(Step(w, run[0]), run[1..], k, m))
  }

  // The worker has not got past what is missing.
  predicate Short(job: Job, m: Missing) {
    match m
    case TheSnapshot => job.Idle? || job.Located? || job.Activated?
    case ADeployment => !job.Refreshing? && (job.Looking? ==> !Readable(job.rest))
    case TheirHealth =>
      && (job.Looking? ==> job.lagging || !Readable(job.rest) || SomeBlock(job.rest))
      && (job.Refreshing? ==> job.lagging)
  }

  // What is at k is incomplete, and cannot be completed by what the worker knows.
  ghost predicate Behind(w: World, k: Key, m: Missing) {
    && (k in w.runs ==> w.runs[k].state != Complete)
    && (!w.job.Idle? && w.job.k == k ==> Short(w.job, m))
  }

  lemma StepStaysBehind(w: World, a: Action, k: Key, m: Missing)
    requires Inv(w) && Behind(w, k, m)
    requires a.Steps? && !w.job.Idle? && w.job.k == k ==> Lacks(w, a.seen, m)
    ensures Behind(Step(w, a), k, m)
  {
    if a.Steps? && !w.job.Idle? && w.job.k == k {
      OwnStepStaysBehind(w, a.seen, m);
    } else if a.Steps? && !w.job.Idle? {
      StepJobWrites(w, a.seen);
      StepKeepsUid(w, a);
    }
  }

  lemma OwnStepStaysBehind(w: World, x: Answers, m: Missing)
    requires JobOk(w) && !w.job.Idle? && Behind(w, w.job.k, m) && Lacks(w, x, m)
    ensures Behind(StepJob(w, x), w.job.k, m)
  {
    if w.job.Looking? {
      LookingStaysBehind(w, w.job.k, w.job.r, w.job.b, w.job.rest, w.job.lagging, m);
    }
  }

  lemma LookingStaysBehind(w: World, k: Key, r: Run, b: Key, ds: seq<Option<Deployment>>, lagging: bool, m: Missing)
    requires (k in w.runs ==> w.runs[k].state != Complete) && Short(Looking(k, r, b, ds, lagging), m)
    ensures var w' := LookAtNext(w, k, r, b, ds, lagging);
            (k in w'.runs ==> w'.runs[k].state != Complete) && Short(w'.job, m)
  {
    if ds != [] && ds[0].Some? {
      BlocksInParts(ds);
    }
  }

  // As long as its snapshot is missing whenever the worker asks for it, or one of its deployments is,
  // or one of them is Synced and not Healthy and the time is not up, a run does not complete, whatever
  // else happens; in the first two cases however long it takes.
  lemma {:induction false} MissingKeepsWaiting(w: World, run: seq<Action>, k: Key, m: Missing)
    requires Inv(w) && w.job.Idle? && Incomplete(w.runs, k) && AlwaysLacks(w, run, k, m)
    ensures k in Exec(w, run).runs ==> Exec(w, run).runs[k].state != Complete
  {
    BehindForGood(w, run, k, m);
  }

  lemma {:induction false} BehindForGood(w: World, run: seq<Action>, k: Key, m: Missing)
    requires Inv(w) && Behind(w, k, m) && AlwaysLacks(w, run, k, m)
    ensures Behind(Exec(w, run), k, m)
    decreases |run|
  {
    if run != [] {
      StepKeeps(w, run[0]);
      StepStaysBehind(w, run[0], k, m);
      BehindForGood(Step(w, run[0]), run[1..], k, m);
    }
  }

  // ---- which runs can complete ----

  // A run that is not supported never completes, so until it is deleted no younger run of its
  // application gets through.
  lemma {:induction false} UnsupportedRunBlocks(w: World, run: seq<Action>, k: Key, j: Key)
    requires Inv(w) && Incomplete(w.runs, k) && Unsupported(w.runs[k])
    requires !w.job.Idle? ==> w.job.k != k
    requires UserDeletesRun(k) !in run
    ensures var runs := Exec(w, run).runs;
            && k in runs && runs[k] == w.runs[k]
            && (Incomplete(runs, j) && runs[j].application == runs[k].application && runs[j].created > runs[k].created ==>
                 !Passes(runs, j))
    decreases |run|
  {
    if run != [] {
      var a := run[0];
      StepKeeps(w, a);
      UnsupportedStays(w, a, k);
      assert forall b :: b in run[1..] ==> b in run;
      UnsupportedRunBlocks(Step(w, a), run[1..], k, j);
    }
  }

  lemma UnsupportedStays(w: World, a: Action, k: Key)
    requires Inv(w) && Incomplete(w.runs, k) && Unsupported(w.runs[k]) && a != UserDeletesRun(k)
    requires !w.job.Idle? ==> w.job.k != k
    ensures var w' := Step(w, a);
            k in w'.runs && w'.runs[k] == w.runs[k] && (!w'.job.Idle? ==> w'.job.k != k)
  {
    if a.Steps? && !w.job.Idle? {
      StepJobWrites(w, a.seen);
      StepKeepsUid(w, a);
    }
  }

  // Run k is Complete after the actions, and has not been deleted meanwhile.
  ghost predicate CompletedBy(w: World, run: seq<Action>, k: Key)
    requires k in w.runs
  {
    && UserDeletesRun(k) !in run
    && k in Exec(w, run).runs && Exec(w, run).runs[k].uid == w.runs[k].uid && Exec(w, run).runs[k].state == Complete
  }

  // In every reachable state in which the worker is free, an incomplete run can still complete
  // exactly if it is a manual promotion that names an environment.
  lemma CanCompleteIff(w: World, k: Key)
    requires Inv(w) && w.job.Idle? && Incomplete(w.runs, k)
    ensures (exists run :: CompletedBy(w, run, k)) <==> !w.runs[k].automated && w.runs[k].environment.Some?
  {
    if Unsupported(w.runs[k]) {
      forall run | UserDeletesRun(k) !in run ensures !CompletedBy(w, run, k) {
        UnsupportedRunBlocks(w, run, k, k);
      }
    } else {
      var run := WayToComplete(w, k);
    }
  }

  // Older runs are deleted until the gate opens.
  lemma WayThroughGate(w: World, k: Key) returns (run: seq<Action>)
    requires Inv(w) && w.job.Idle? && Incomplete(w.runs, k)
    ensures UserDeletesRun(k) !in run
    ensures var w' := Exec(w, run);
            Inv(w') && w'.job.Idle? && Passes(w'.runs, k) && w'.runs[k] == w.runs[k]
    decreases |w.runs.Keys|
  {
    if Passes(w.runs, k) {
      run := [];
    } else {
      var j :| j in w.runs && Incomplete(w.runs, j) && w.runs[j].application == w.runs[k].application
        && w.runs[j].created < w.runs[k].created;
      var a := UserDeletesRun(j);
      StepKeeps(w, a);
      assert Step(w, a).runs.Keys == w.runs.Keys - {j};
      var rest := WayThroughGate(Step(w, a), k);
      run := [a] + rest;
      assert run[1..] == rest;
    }
  }

  // A supported run that the gate lets through can complete without anything being deleted.
  lemma WayFromGate(w: World, k: Key) returns (run: seq<Action>)
    requires Inv(w) && w.job.Idle? && Passes(w.runs, k) && !Unsupported(w.runs[k])
    ensures forall j :: UserDeletesRun(j) !in run
    ensures var w' := Exec(w, run);
            && Inv(w') && w'.job.Idle? && k in w'.runs && w'.runs == w.runs[k := w'.runs[k]]
            && w'.runs[k].uid == w.runs[k].uid && w'.runs[k].state == Complete
  {
    var r := w.runs[k];
    var b := Key(k.namespace, if r.activeBindings == [] then k.name else r.activeBindings[0]);
    var a := BindingChanges(b, Some(Binding(r.application, r.environment.value, r.snapshot)));
    var w1 := Step(w, a);
    assert Born(w.births, k, r);
    assert Ready(w1, k, b);
    var x := Answers(true, 0, [], 0.0);
    var reconcile := ReconcileActions(k, b, x, Length(x));
    ReconcileCompletesIff(w1, k, b, x);
    ReconcileIsExec(w1, k, b, x, Length(x));
    forall j ensures UserDeletesRun(j) !in reconcile {
      NoDeletions(j, k, b, x, Length(x));
    }
    run := [a] + reconcile;
    ExecInParts(w, [a], reconcile);
    ExecOne(w, a);
    InvAlways(w, run);
  }

  lemma WayToComplete(w: World, k: Key) returns (run: seq<Action>)
    requires Inv(w) && w.job.Idle? && Incomplete(w.runs, k) && !Unsupported(w.runs[k])
    ensures CompletedBy(w, run, k)
  {
    var first := WayThroughGate(w, k);
    var second := WayFromGate(Exec(w, first), k);
    run := first + second;
    ExecInParts(w, first, second);
  }

  lemma {:induction false} NoDeletions(j: Key, k: Key, b: Key, x: Answers, n: nat)
    ensures UserDeletesRun(j) !in ReconcileActions(k, b, x, n)
  {
    if n > 0 {
      NoDeletions(j, k, b, x, n - 1);
    }
  }

  // ---- what the gate does not prevent ----

  // Two runs of one application, created at the same time, and a binding for both.
  function Twins(app: Name, env: Name, s1: Name, s2: Name): (Run, Run) {
    (Run(0, 0, app, false, Some(env), s1, NoState, [], None, NoResult),
     Run(1, 0, app, false, Some(env), s2, NoState, [], None, NoResult))
  }

  lemma TwinsAreCreated(app: Name, env: Name, one: Key, two: Key, b: Key, s1: Name, s2: Name) returns (run: seq<Action>)
    requires one != two
    ensures var twins := Twins(app, env, s1, s2);
            Exec(INITIAL, run) == World(map[one := twins.0, two := twins.1], map[b := Binding(app, env, s2)], Idle, 0,
                                        [BirthOf(one, twins.0), BirthOf(two, twins.1)], [])
  {
    var a1 := UserCreatesRun(one, 0, app, false, Some(env), s1);
    var a2 := UserCreatesRun(two, 0, app, false, Some(env), s2);
    var a3 := BindingChanges(b, Some(Binding(app, env, s2)));
    run := [a1] + [a2] + [a3];
    ExecInParts(INITIAL, [a1], [a2]);
    ExecInParts(INITIAL, [a1] + [a2], [a3]);
    ExecOne(INITIAL, a1);
    ExecOne(Step(INITIAL, a1), a2);
    ExecOne(Step(Step(INITIAL, a1), a2), a3);
  }

  lemma CutAfterWrite(w: World, k: Key, b: Key, x: Answers)
    requires Ready(w, k, b) && x.snapshotExists && NeedsWrite(w.runs[k], w.bindings[b])
    ensures Exec(w, ReconcileActions(k, b, x, 2) + [IsCut]) == SnapshotWritten(w, k, b).(job := Idle)
  {
    ReadyRunWrites(w, k, b, x);
    ReconcileIsExec(w, k, b, x, 2);
    ExecInParts(w, ReconcileActions(k, b, x, 2), [IsCut]);
    ExecOne(SnapshotWritten(w, k, b), IsCut);
  }

  // Creation times need not be distinct: with equal ones, the writes of two runs can overlap.
  lemma EqualTimesOverlap(app: Name, env: Name, one: Key, two: Key, b: Key, s1: Name, s2: Name) returns (run: seq<Action>)
    requires one != two && one.namespace == two.namespace == b.namespace && s1 != s2
    ensures var log := Exec(INITIAL, run).log;
            |log| == 3 && log[0].uid == log[2].uid && log[0].uid != log[1].uid && log[0].application == log[1].application
  {
    var x := Answers(true, 0, [], 0.0);
    var setup := TwinsAreCreated(app, env, one, two, b, s1, s2);
    var w0 := Exec(INITIAL, setup);
    var first, second := ReconcileActions(one, b, x, 2) + [IsCut], ReconcileActions(two, b, x, 2) + [IsCut];
    CutAfterWrite(w0, one, b, x);
    var w1 := Exec(w0, first);
    CutAfterWrite(w1, two, b, x);
    var w2 := Exec(w1, second);
    CutAfterWrite(w2, one, b, x);
    run := setup + first + second + first;
    ExecInParts(INITIAL, setup, first);
    ExecInParts(INITIAL, setup + first, second);
    ExecInParts(INITIAL, setup + first + second, first);
  }

  // Nor does the worker look again before it writes: a run that was deleted after it was let through
  // still sets its snapshot.
  lemma DeletedRunWrites(app: Name, env: Name, k: Key, b: Key, s: Name, other: Name) returns (run: seq<Action>)
    requires k.namespace == b.namespace && s != other
    ensures var w := Exec(INITIAL, run);
            w.runs == map[] && |w.log| == 1 && w.log[0].binding == b && w.bindings == map[b := Binding(app, env, s)]
  {
    var a1 := UserCreatesRun(k, 0, app, false, Some(env), s);
    var a2 := BindingChanges(b, Some(Binding(app, env, other)));
    var x, delete := Answers(true, 0, [], 0.0), UserDeletesRun(k);
    var w1 := Step(Step(INITIAL, a1), a2);
    assert Ready(w1, k, b);
    ReadyRunIsActivated(w1, k, b, x);
    var w2 := Reconcile(w1, k, b, x, 1);
    var w3 := Step(Step(w2, delete), Steps(x));
    ReconcileIsExec(w1, k, b, x, 1);
    var begun := ReconcileActions(k, b, x, 1);
    run := [a1] + [a2] + begun + [delete] + [Steps(x)];
    ExecInParts(INITIAL, [a1], [a2]);
    ExecInParts(INITIAL, [a1] + [a2], begun);
    ExecInParts(INITIAL, [a1] + [a2] + begun, [delete]);
    ExecInParts(INITIAL, [a1] + [a2] + begun + [delete], [Steps(x)]);
    ExecOne(INITIAL, a1);
    ExecOne(Step(INITIAL, a1), a2);
    ExecOne(w2, delete);
    ExecOne(Step(w2, delete), Steps(x));
    assert Exec(INITIAL, run) == w3;
  }
}
