// When claims and targets lose the finalizers that protect them, for every run of the protocol.
module ClaimRelease {
  import opened Wrappers
  import opened DeploymentTargets
  import opened ClaimProtocol
  import opened ClaimSafety

  ghost predicate HasBinder(s: Cluster, n: Name) {
    n in s.claims && Binder in s.claims[n].finalizers
  }

  // Claim n, done binding, names d, and d is gone or released: its reference is cleared, its phase is
  // Released, and it is marked for deletion if its class says Delete.
  ghost predicate LetGoNow(s: Cluster, n: Name, d: Name) {
    && n in s.claims && s.claims[n].bindComplete && s.claims[n].targetName == Some(d)
    && (d in s.targets ==> s.targets[d].claimRef.None? && s.targets[d].phase == TargetReleased && Marked(s, d))
  }

  ghost predicate LetGoBefore(classes: map<Name, Class>, run: seq<Action>, n: Name, d: Name) {
    exists k :: 0 <= k <= |run| && LetGoNow(Exec(Initial(classes), run[..k]).s, n, d)
  }

  lemma LetGoStays(classes: map<Name, Class>, run: seq<Action>, a: Action, n: Name, d: Name)
    requires LetGoBefore(classes, run, n, d)
    ensures LetGoBefore(classes, run + [a], n, d)
  {
    var k :| 0 <= k <= |run| && LetGoNow(Exec(Initial(classes), run[..k]).s, n, d);
    assert (run + [a])[..k] == run[..k];
  }

  lemma LetGoAtEnd(classes: map<Name, Class>, run: seq<Action>, n: Name, d: Name)
    requires LetGoNow(Exec(Initial(classes), run).s, n, d)
    ensures LetGoBefore(classes, run, n, d)
  {
    assert run[..|run|] == run;
  }

  // The worker has seen the target of a bound claim let go.
  predicate Seen(job: ClaimJob) {
    (job.DropFinalizer? && IsBound(job.c)) || (job.Release? && job.t.phase == TargetReleased)
  }

  lemma ReachingSeen(w: World, a: Action)
    requires Inv(w) && NoReuse(w, a) && Seen(Step(w, a).claimJob) && !Seen(w.claimJob)
    ensures var job := Step(w, a).claimJob; job.c.targetName.Some? && LetGoNow(Step(w, a).s, job.n, job.c.targetName.value)
  {
    StepKeeps(w, a);
    if !OfClaimWorker(a) {
      OthersAreQuiet(w, a);
    } else if w.claimJob.Main? {
      assert Settled(w.s, w.claimJob.n);
    }
  }

  lemma SeenStays(w: World, a: Action)
    requires Inv(w) && NoReuse(w, a) && Seen(Step(w, a).claimJob) && Seen(w.claimJob)
    ensures Step(w, a).claimJob.n == w.claimJob.n && Step(w, a).claimJob.c == w.claimJob.c
  {
    if !OfClaimWorker(a) {
      OthersAreQuiet(w, a);
    }
  }

  lemma {:induction false} SeenHistory(classes: map<Name, Class>, run: seq<Action>)
    requires NoReuseIn(Initial(classes), run)
    ensures var job := Exec(Initial(classes), run).claimJob;
            Seen(job) ==> job.c.targetName.Some? && LetGoBefore(classes, run, job.n, job.c.targetName.value)
  {
    if run != [] {
      var before, a := run[..|run| - 1], run[|run| - 1];
      var w := Exec(Initial(classes), before);
      SeenHistory(classes, before);
      InvAlways(classes, before);
      assert run == before + [a];
      var job := Step(w, a).claimJob;
      if Seen(job) {
        if Seen(w.claimJob) {
          SeenStays(w, a);
          LetGoStays(classes, before, a, job.n, job.c.targetName.value);
        } else {
          ReachingSeen(w, a);
          LetGoAtEnd(classes, run, job.n, job.c.targetName.value);
        }
      }
    }
  }

  lemma ClaimStepsKeepBinder(w: World, pick: Option<Name>, generated: Name, n: Name)
    requires JobInv(w.s, w.claimJob) && HasBinder(w.s, n) && !w.claimJob.DropFinalizer?
    ensures HasBinder(StepClaim(w, pick, generated).s, n)
  {
  }

  lemma OnlyDropFinalizerDrops(w: World, a: Action, n: Name)
    requires Inv(w) && NoReuse(w, a)
    ensures HasBinder(w.s, n) && !HasBinder(Step(w, a).s, n) ==>
              w.claimJob.DropFinalizer? && w.claimJob.n == n && ClaimUnchanged(w.s, n, w.claimJob.c)
  {
    if !OfClaimWorker(a) {
      OthersAreQuiet(w, a);
    } else if a.ClaimSteps? && !w.claimJob.DropFinalizer? && HasBinder(w.s, n) {
      ClaimStepsKeepBinder(w, a.pick, a.generated, n);
    }
  }

  lemma DropIsLetGo(s: Cluster, job: ClaimJob)
    requires JobInv(s, job) && job.DropFinalizer? && IsBound(job.c)
    ensures job.c.targetName.Some? && LetGo(s, job.c.targetName.value)
  {
  }

  // Release order: a bound claim loses its finalizer only once its target is absent, or unreferenced,
  // Released (or Failed since) and marked for deletion under a Delete policy; and there was a
  // moment, with the claim still naming the target, at which it was absent or Released.
  lemma ReleaseOrder(classes: map<Name, Class>, run: seq<Action>, a: Action, n: Name)
    requires NoReuseIn(Initial(classes), run)
    ensures var w := Exec(Initial(classes), run);
            NoReuse(w, a) && HasBinder(w.s, n) && IsBound(w.s.claims[n]) && !HasBinder(Step(w, a).s, n) ==>
              var name := w.s.claims[n].targetName;
              name.Some? && LetGo(w.s, name.value) && LetGoBefore(classes, run, n, name.value)
  {
    var w := Exec(Initial(classes), run);
    InvAlways(classes, run);
    if NoReuse(w, a) && HasBinder(w.s, n) && IsBound(w.s.claims[n]) && !HasBinder(Step(w, a).s, n) {
      OnlyDropFinalizerDrops(w, a, n);
      assert Seen(w.claimJob);
      SeenHistory(classes, run);
      DropIsLetGo(w.s, w.claimJob);
    }
  }

  predicate HasTargetFinalizer(s: Cluster, d: Name) {
    d in s.targets && TargetFinalizer in s.targets[d].finalizers
  }

  lemma PutTargetKeeps(s: Cluster, e: Name, t: Target, d: Name)
    requires HasTargetFinalizer(s, d) && (e == d ==> TargetFinalizer in t.finalizers)
    ensures HasTargetFinalizer(PutTarget(s, e, t), d)
  {
  }

  lemma SetTargetPhaseKeepsFinalizer(w: World, e: Name, t: Target, phase: TargetPhase, next: ClaimJob, d: Name)
    requires HasTargetFinalizer(w.s, d)
    ensures HasTargetFinalizer(SetTargetPhase(w, e, t, phase, next).s, d)
  {
    if TargetUnchanged(w.s, e, t) {
      PutTargetKeeps(w.s, e, t.(phase := phase), d);
    }
  }

  lemma ClaimWorkerKeepsTargetFinalizer(w: World, pick: Option<Name>, generated: Name, d: Name)
    requires HasTargetFinalizer(w.s, d)
    ensures HasTargetFinalizer(StepClaim(w, pick, generated).s, d)
  {
    match w.claimJob
    case Main(n, c) => StartDeletionKeepsFinalizer(w, n, c, d);
    case HandleBound(n, c) =>
      var bound := BoundTarget(w.s, n, c);
      if bound.Found? && bound.name in w.s.targets {
        SetTargetPhaseKeepsFinalizer(w, bound.name, w.s.targets[bound.name], TargetBound, RepeatClaimBound(n, c), d);
      }
    case BindTarget(n, c, e, t) => SetTargetPhaseKeepsFinalizer(w, e, t, TargetBound, Annotate(n, c, e), d);
    case MarkTarget(n, c, e, t) => if e in w.s.targets { PutTargetKeeps(w.s, e, w.s.targets[e].(deleting := true), d); }
    case ClearRef(n, c, e) => if e in w.s.targets { PutTargetKeeps(w.s, e, w.s.targets[e].(claimRef := None), d); }
    case Release(n, c, e, t) => SetTargetPhaseKeepsFinalizer(w, e, t, TargetReleased, DropFinalizer(n, c, Some(e)), d);
    case _ =>
  }

  lemma StartDeletionKeepsFinalizer(w: World, n: Name, c: Claim, d: Name)
    requires HasTargetFinalizer(w.s, d)
    ensures HasTargetFinalizer(StartDeletion(w, n, c).s, d)
  {
  }

  lemma OnlyTargetReconcilerDrops(w: World, a: Action, d: Name)
    requires HasTargetFinalizer(w.s, d)
    ensures HasTargetFinalizer(Step(w, a).s, d) ||
              (a.TargetSteps? && w.targetJob.TargetMain? && w.targetJob.d == d && TargetUnchanged(w.s, d, w.targetJob.t))
  {
    match a
    case ClaimSteps(pick, generated) => ClaimWorkerKeepsTargetFinalizer(w, pick, generated, d);
    case UserDeletesTarget(e) => if e in w.s.targets { PutTargetKeeps(w.s, e, w.s.targets[e].(deleting := true), d); }
    case ForeignTargetFinalizer(e, id) =>
      if e in w.s.targets {
        PutTargetKeeps(w.s, e, w.s.targets[e].(finalizers := w.s.targets[e].finalizers - {Foreign(id)}), d);
      }
    case _ =>
  }

  lemma DropNeedsNoSpace(w: World, pick: Name, timedOut: bool)
    requires w.targetJob.TargetMain? && TargetUnchanged(w.s, w.targetJob.d, w.targetJob.t)
    requires HasTargetFinalizer(w.s, w.targetJob.d) && !HasTargetFinalizer(StepTarget(w, pick, timedOut).s, w.targetJob.d)
    ensures var TargetMain(d, t) := w.targetJob; var cls := ClassOf(w.s, t.className);
            t.deleting && cls.Some? && (cls.value.policy == DeletePolicy ==> !HasSpace(w.s, d, t))
  {
  }

  // A target loses its finalizer only when it is being deleted and, under a Delete policy, when no
  // environment-tier SpaceRequest carries its label, nor, if no request carries it, the label of
  // the claim it references.
  lemma TargetFinalizerOrder(w: World, a: Action, d: Name)
    requires HasTargetFinalizer(w.s, d)
    ensures !HasTargetFinalizer(Step(w, a).s, d) ==>
              var t := w.s.targets[d]; var cls := ClassOf(w.s, t.className);
              && t.deleting && cls.Some?
              && (cls.value.policy == DeletePolicy ==>
                   && (forall r :: LabelledWith(w.s, r, d) ==> !w.s.requests[r].environmentTier)
                   && ((forall r :: !LabelledWith(w.s, r, d)) && t.claimRef.Some? ==>
                        forall r :: ClaimedBy(w.s, r, t.claimRef.value) ==> !w.s.requests[r].environmentTier))
  {
    OnlyTargetReconcilerDrops(w, a, d);
    if !HasTargetFinalizer(Step(w, a).s, d) {
      DropNeedsNoSpace(w, a.request, a.timedOut);
      var t := w.s.targets[d];
      if ClassOf(w.s, t.className).value.policy == DeletePolicy {
        forall r | r in w.s.requests && w.s.requests[r].environmentTier ensures !RequestsFor(w.s, d, t, r) {
        }
      }
    }
  }
}
