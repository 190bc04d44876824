// Which promotion runs write bindings, and in what order, for every run of the system.
module PromotionOrder {
  import opened Wrappers
  import opened Promotion

  // ---- the invariant ----

  // Run r is, or was, the object at k that was created under its uid.
  ghost predicate Born(births: seq<Birth>, k: Key, r: Run) {
    r.uid < |births| && births[r.uid] == BirthOf(k, r)
  }

  ghost predicate RunsOk(w: World) {
    forall k :: k in w.runs ==>
      w.runs[k].created <= w.clock && Born(w.births, k, w.runs[k]) && |w.runs[k].activeBindings| <= 1
  }

  ghost predicate WriteOk(w: World, x: Write) {
    && x.created <= w.clock && x.uid < |w.births|
    && w.births[x.uid].created == x.created && w.births[x.uid].application == x.application
    && Gate(w.runs, x.application, x.created)
  }

  // No incomplete run of an application is older than a run that has written.
  ghost predicate LogOk(w: World) {
    && (forall i :: 0 <= i < |w.log| ==> WriteOk(w, w.log[i]))
    && (forall i, j :: 0 <= i < j < |w.log| && w.log[i].application == w.log[j].application ==>
         w.log[i].created <= w.log[j].created)
  }

  // A worker that got through the gate with run r is still allowed through, and after everything
  // written so far.
  ghost predicate Entitled(w: World, k: Key, r: Run) {
    && r.created <= w.clock && Born(w.births, k, r) && |r.activeBindings| <= 1 && r.state != Complete && !Unsupported(r)
    && Gate(w.runs, r.application, r.created)
    && forall i :: 0 <= i < |w.log| && w.log[i].application == r.application ==> w.log[i].created <= r.created
  }

  ghost predicate JobOk(w: World) {
    !w.job.Idle? ==>
      && Entitled(w, w.job.k, w.job.r)
      && (w.job.k in w.runs ==> w.runs[w.job.k].state != Complete)
  }

  ghost predicate Inv(w: World) {
    RunsOk(w) && LogOk(w) && JobOk(w)
  }

  // The runs change only in ways that keep every gate open that was: incomplete ones stay, complete,
  // or vanish, and new ones are younger.
  ghost predicate Ages(w: World, w': World) {
    && w.clock <= w'.clock && |w.births| <= |w'.births|
    && (forall u :: 0 <= u < |w.births| ==> w'.births[u] == w.births[u])
    && forall k :: Incomplete(w'.runs, k) ==>
         w'.runs[k].created >= w.clock
         || (Incomplete(w.runs, k) && w'.runs[k].created == w.runs[k].created && w'.runs[k].application == w.runs[k].application)
  }

  lemma GateStaysOpen(w: World, w': World, application: Name, created: nat)
    requires Ages(w, w') && Gate(w.runs, application, created) && created <= w.clock
    ensures Gate(w'.runs, application, created)
  {
  }

  // A run keeps its identity, and is only written while it is incomplete.
  ghost predicate OneRunWritten(w: World, w': World, k: Key) {
    || w'.runs == w.runs
    || (&& k in w.runs && w.runs[k].state != Complete && k in w'.runs && w'.runs == w.runs[k := w'.runs[k]]
        && w'.runs[k].uid == w.runs[k].uid && BirthOf(k, w'.runs[k]) == BirthOf(k, w.runs[k])
        && |w'.runs[k].activeBindings| <= 1)
  }

  // Only run k is written, if any, and nothing is created.
  ghost predicate WritesRun(w: World, w': World, k: Key) {
    OneRunWritten(w, w', k) && w'.clock == w.clock && w'.births == w.births
  }

  lemma WriteRunWrites(w: World, k: Key, r: Run, r': Run, next: Job)
    requires r.state != Complete && r'.uid == r.uid && BirthOf(k, r') == BirthOf(k, r) && |r'.activeBindings| <= 1
    ensures WritesRun(w, WriteRun(w, k, r, r', next), k)
  {
  }

  lemma LookAtNextWrites(w: World, k: Key, r: Run, b: Key, rest: seq<Option<Deployment>>, lagging: bool)
    requires r.state != Complete && |r.activeBindings| <= 1
    ensures WritesRun(w, LookAtNext(w, k, r, b, rest, lagging), k)
  {
    if rest != [] && rest[0].Some? && Blocks(rest[0].value) {
      WriteRunWrites(w, k, r, r.(state := Waiting), Looking(k, r.(state := Waiting), b, rest[1..], true));
    }
  }

  lemma FinishWrites(w: World, k: Key, b: Key, lagging: bool, now: real)
    requires RunsOk(w) && (k in w.runs ==> w.runs[k].state != Complete)
    ensures WritesRun(w, Finish(w, k, b, lagging, now), k)
  {
    if k in w.runs {
      var r := w.runs[k];
      WriteRunWrites(w, k, r, r.(state := Complete, result := Failure), Idle);
      WriteRunWrites(w, k, r, r.(state := Waiting), Idle);
      WriteRunWrites(w, k, r, r.(state := Complete, result := Success, activeBindings := [b.name]), Idle);
    }
  }

  lemma StepJobWrites(w: World, seen: Answers)
    requires RunsOk(w) && JobOk(w) && !w.job.Idle?
    ensures WritesRun(w, StepJob(w, seen), w.job.k)
  {
    match w.job
    case Idle =>
    case Located(k, r, b, bd) => WriteRunWrites(w, k, r, r.(state := Active), Activated(k, r.(state := Active), b, bd));
    case Activated(k, r, b, bd) =>
    case Written(k, r, b) =>
      var r' := r.(activeBindings := [b.name], started := if r.started.None? then Some(seen.now) else r.started);
      WriteRunWrites(w, k, r, r', Recorded(k, r', b));
    case Recorded(k, r, b) =>
    case Looking(k, r, b, rest, lagging) => LookAtNextWrites(w, k, r, b, rest, lagging);
    case Refreshing(k, r, b, lagging) => FinishWrites(w, k, b, lagging, seen.now);
  }

  lemma WrittenAges(w: World, w': World, k: Key)
    requires RunsOk(w) && WritesRun(w, w', k)
    ensures Ages(w, w') && RunsOk(w')
  {
  }

  lemma StepAges(w: World, a: Action)
    requires Inv(w)
    ensures Ages(w, Step(w, a)) && RunsOk(Step(w, a))
  {
    if a.Steps? && !w.job.Idle? {
      StepJobWrites(w, a.seen);
      WrittenAges(w, Step(w, a), w.job.k);
    }
  }

  // ---- who writes ----

  // A write for the run that was let through: that run is the oldest incomplete one of its
  // application, exactly unless it has been deleted since it was let through.
  ghost predicate MayWrite(w: World, x: Write) {
    && WriteOk(w, x)
    && (forall i :: 0 <= i < |w.log| && w.log[i].application == x.application ==> w.log[i].created <= x.created)
    && var k := w.births[x.uid].key;
       Passes(w.runs, k) && w.runs[k].uid == x.uid <==> exists j :: j in w.runs && w.runs[j].uid == x.uid
  }

  ghost predicate Writes(w: World, w': World) {
    w'.log == w.log || (exists x :: w'.log == w.log + [x] && w'.runs == w.runs && MayWrite(w, x))
  }

  lemma LoggedMayWrite(w: World, w': World, k: Key, r: Run, b: Key)
    requires RunsOk(w) && Entitled(w, k, r) && (k in w.runs ==> w.runs[k].state != Complete)
    requires w'.runs == w.runs && w'.log == w.log + [Write(r.uid, r.created, r.application, b)]
    ensures Writes(w, w')
  {
    var x := Write(r.uid, r.created, r.application, b);
    if j :| j in w.runs && w.runs[j].uid == x.uid {
      assert Born(w.births, j, w.runs[j]) && j == k;
    }
    assert MayWrite(w, x);
  }

  lemma BeginWrites(w: World, k: Key, pick: Option<Key>, generated: Name, components: bool)
    requires Inv(w)
    ensures Writes(w, Begin(w, k, pick, generated, components))
  {
    var w' := Begin(w, k, pick, generated, components);
    if w'.log != w.log {
      LoggedMayWrite(w, w', k, w.runs[k], Key(k.namespace, generated));
    }
  }

  lemma StepWrites(w: World, a: Action)
    requires Inv(w)
    ensures Writes(w, Step(w, a))
  {
    match a
    case Begins(k, pick, generated, components) => BeginWrites(w, k, pick, generated, components);
    case Steps(seen) =>
      if w.job.Activated? && Step(w, a).log != w.log {
        LoggedMayWrite(w, Step(w, a), w.job.k, w.job.r, w.job.b);
      }
    case _ =>
  }

  // ---- every step keeps the invariant ----

  lemma LogStaysOk(w: World, a: Action)
    requires Inv(w)
    ensures LogOk(Step(w, a))
  {
    StepAges(w, a);
    StepWrites(w, a);
    LogGrowsOk(w, Step(w, a));
  }

  lemma LogGrowsOk(w: World, w': World)
    requires LogOk(w) && Ages(w, w') && Writes(w, w')
    ensures LogOk(w')
  {
    forall i | 0 <= i < |w.log| ensures WriteOk(w', w.log[i]) {
      GateStaysOpen(w, w', w.log[i].application, w.log[i].created);
    }
  }

  lemma EntitledStays(w: World, w': World, k: Key, r: Run)
    requires Ages(w, w') && Entitled(w, k, r) && w'.log == w.log
    ensures Entitled(w', k, r)
  {
    GateStaysOpen(w, w', r.application, r.created);
  }

  lemma BeginKeepsJob(w: World, a: Action)
    requires Inv(w) && a.Begins?
    ensures JobOk(Step(w, a))
  {
  }

  lemma OthersKeepJob(w: World, a: Action)
    requires Inv(w) && !a.Begins? && !a.Steps?
    ensures JobOk(Step(w, a))
  {
    StepAges(w, a);
    if !w.job.Idle? && !a.IsCut? {
      EntitledStays(w, Step(w, a), w.job.k, w.job.r);
    }
  }

  lemma StepKeepsJob(w: World, a: Action)
    requires Inv(w) && a.Steps?
    ensures JobOk(Step(w, a))
  {
    if w.job.Activated? {
      EntitledWriterStays(w, a);
    } else if !w.job.Idle? {
      StepAges(w, a);
      EntitledStays(w, Step(w, a), w.job.k, w.job.r);
      EntitledJobMovesOn(w, a);
    }
  }

  lemma EntitledJobMovesOn(w: World, a: Action)
    requires Inv(w) && a.Steps? && !w.job.Idle? && !w.job.Activated?
    requires Entitled(Step(w, a), w.job.k, w.job.r)
    ensures JobOk(Step(w, a))
  {
  }

  lemma EntitledWriterStays(w: World, a: Action)
    requires Inv(w) && a.Steps? && w.job.Activated?
    ensures JobOk(Step(w, a))
  {
  }

  lemma StepKeeps(w: World, a: Action)
    requires Inv(w)
    ensures Inv(Step(w, a))
  {
    StepAges(w, a);
    LogStaysOk(w, a);
    match a
    case Begins(k, pick, generated, components) => BeginKeepsJob(w, a);
    case Steps(seen) => StepKeepsJob(w, a);
    case _ => OthersKeepJob(w, a);
  }

  lemma {:induction false} InvAlways(w: World, run: seq<Action>)
    requires Inv(w)
    ensures Inv(Exec(w, run))
    decreases |run|
  {
    if run != [] {
      StepKeeps(w, run[0]);
      InvAlways(Step(w, run[0]), run[1..]);
    }
  }

  // ---- the main results ----

  // Whatever happened before, a binding is written only for a run that the gate lets through at that
  // moment, and so the oldest incomplete one of its application, or for one that has been deleted
  // since it was let through; then too no older one is incomplete.
  lemma OnlyTheOldestWrites(run: seq<Action>, a: Action)
    ensures var w := Exec(INITIAL, run); var w' := Step(w, a);
            w'.log == w.log || (|w'.log| == |w.log| + 1 && w'.log[..|w.log|] == w.log &&
              var x := w'.log[|w.log|];
              && (forall j :: j in w.runs && w.runs[j].state != Complete && w.runs[j].application == x.application ==>
                   w.runs[j].created >= x.created)
              && ((exists k :: Passes(w.runs, k) && w.runs[k].uid == x.uid && w.runs[k].application == x.application)
                  <==> exists j :: j in w.runs && w.runs[j].uid == x.uid))
  {
    var w := Exec(INITIAL, run);
    InvAlways(INITIAL, run);
    StepWrites(w, a);
    if Step(w, a).log != w.log {
      var x :| Step(w, a).log == w.log + [x] && MayWrite(w, x);
      if j :| j in w.runs && w.runs[j].uid == x.uid {
        var k := w.births[x.uid].key;
        assert Passes(w.runs, k) && Born(w.births, k, w.runs[k]);
      }
    }
  }

  // Over any run of the system, the runs that write bindings for one application do so in the order
  // of their creation; and whatever is incomplete afterwards is not older than any of them.
  lemma PromotionsAreOrdered(run: seq<Action>, i: nat, j: nat)
    requires i < j < |Exec(INITIAL, run).log|
    ensures var log := Exec(INITIAL, run).log;
            log[i].application == log[j].application ==>
              && log[i].created <= log[j].created
              && Gate(Exec(INITIAL, run).runs, log[j].application, log[j].created)
  {
    InvAlways(INITIAL, run);
    assert WriteOk(Exec(INITIAL, run), Exec(INITIAL, run).log[j]);
  }

  // If a run writes, then another one of its application, and then the first one again, whichever
  // bindings they write, both were created at the same time.
  lemma PromotionsDoNotOverlap(run: seq<Action>, i: nat, j: nat, k: nat)
    requires i < j < k < |Exec(INITIAL, run).log|
    ensures var log := Exec(INITIAL, run).log;
            log[i].application == log[j].application && log[i].uid == log[k].uid ==> log[j].created == log[i].created
  {
    InvAlways(INITIAL, run);
    var w := Exec(INITIAL, run);
    assert WriteOk(w, w.log[i]) && WriteOk(w, w.log[k]);
  }

  // ---- Complete is the end ----

  // No write of the run `uid` from position `start` on.
  ghost predicate Silent(log: seq<Write>, start: nat, uid: nat) {
    start <= |log| && forall i :: start <= i < |log| ==> log[i].uid != uid
  }

  // Whatever is left of the run `uid` is Complete, and the worker is not at it.
  ghost predicate Finished(w: World, uid: nat) {
    && uid < |w.births|
    && (forall k :: k in w.runs && w.runs[k].uid == uid ==> w.runs[k].state == Complete)
    && (!w.job.Idle? ==> w.job.r.uid != uid)
  }

  // All that is left of the run `uid` is r at k.
  ghost predicate AtMost(runs: map<Key, Run>, uid: nat, k: Key, r: Run) {
    forall j :: j in runs && runs[j].uid == uid ==> j == k && runs[j] == r
  }

  lemma CompleteIsFinished(w: World, k: Key)
    requires Inv(w) && k in w.runs && w.runs[k].state == Complete
    ensures Finished(w, w.runs[k].uid)
  {
    forall j | j in w.runs && w.runs[j].uid == w.runs[k].uid ensures j == k {
      assert Born(w.births, j, w.runs[j]) && Born(w.births, k, w.runs[k]);
    }
    assert Born(w.births, k, w.runs[k]);
  }

  lemma FinishedStays(w: World, a: Action, uid: nat)
    requires Inv(w) && Finished(w, uid)
    ensures Finished(Step(w, a), uid)
    ensures Silent(Step(w, a).log, |w.log|, uid)
    ensures forall k, r :: AtMost(w.runs, uid, k, r) ==> AtMost(Step(w, a).runs, uid, k, r)
  {
    if a.Steps? && !w.job.Idle? {
      StepJobWrites(w, a.seen);
      StepKeepsUid(w, a);
    }
  }

  // The worker goes on with the run that it was at.
  lemma StepKeepsUid(w: World, a: Action)
    requires a.Steps?
    ensures var job := Step(w, a).job;
            !job.Idle? ==> !w.job.Idle? && job.k == w.job.k && job.r.uid == w.job.r.uid
    ensures forall uid :: (w.job.Activated? && w.job.r.uid == uid) || Silent(Step(w, a).log, |w.log|, uid)
  {
  }

  // A run that is Complete never changes again and never writes again.
  lemma {:induction false} CompleteIsTheEnd(w: World, run: seq<Action>, k: Key)
    requires Inv(w) && k in w.runs && w.runs[k].state == Complete
    ensures var w', uid := Exec(w, run), w.runs[k].uid;
            AtMost(w'.runs, uid, k, w.runs[k]) && Silent(w'.log, |w.log|, uid)
  {
    CompleteIsFinished(w, k);
    forall j | j in w.runs && w.runs[j].uid == w.runs[k].uid ensures j == k {
      assert Born(w.births, j, w.runs[j]) && Born(w.births, k, w.runs[k]);
    }
    FinishedForGood(w, run, k, w.runs[k]);
  }

  lemma {:induction false} FinishedForGood(w: World, run: seq<Action>, k: Key, r: Run)
    requires Inv(w) && Finished(w, r.uid) && AtMost(w.runs, r.uid, k, r)
    ensures AtMost(Exec(w, run).runs, r.uid, k, r) && Silent(Exec(w, run).log, |w.log|, r.uid)
    decreases |run|
  {
    if run != [] {
      var w1 := Step(w, run[0]);
      StepKeeps(w, run[0]);
      FinishedStays(w, run[0], r.uid);
      FinishedForGood(w1, run[1..], k, r);
      LogOnlyGrows(w1, run[1..]);
      StillSilent(w1.log, Exec(w1, run[1..]).log, |w.log|, r.uid);
    }
  }

  lemma StillSilent(log: seq<Write>, log': seq<Write>, start: nat, uid: nat)
    requires Silent(log, start, uid) && log <= log' && Silent(log', |log|, uid)
    ensures Silent(log', start, uid)
  {
  }

  lemma StepGrowsLog(w: World, a: Action)
    requires Inv(w)
    ensures w.log <= Step(w, a).log
  {
    StepWrites(w, a);
  }

  lemma {:induction false} LogOnlyGrows(w: World, run: seq<Action>)
    requires Inv(w)
    ensures w.log <= Exec(w, run).log
    decreases |run|
  {
    if run != [] {
      StepKeeps(w, run[0]);
      StepGrowsLog(w, run[0]);
      LogOnlyGrows(Step(w, run[0]), run[1..]);
    }
  }

  // ---- the gate ----

  // Two runs of one application are both let through exactly if no incomplete run is older than
  // either and they have the same creation time.
  lemma BothPassIff(runs: map<Key, Run>, j: Key, k: Key)
    requires Incomplete(runs, j) && Incomplete(runs, k) && runs[j].application == runs[k].application
    ensures Passes(runs, j) && Passes(runs, k) <==>
              && runs[j].created == runs[k].created
              && forall i :: i in runs && runs[i].state != Complete && runs[i].application == runs[j].application ==>
                   runs[i].created >= runs[j].created
  {
    assert Gate(runs, runs[j].application, runs[j].created) <==>
      forall i :: i in runs && runs[i].state != Complete && runs[i].application == runs[j].application ==>
        runs[i].created >= runs[j].created;
  }
}
