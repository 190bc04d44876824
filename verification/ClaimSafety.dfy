// Exclusive binding and safe release, for every run of the protocol.
module ClaimSafety {
  import opened Wrappers
  import opened DeploymentTargets
  import opened ClaimProtocol

  // Two claims that completed their binding never name the same existing target.
  ghost predicate Exclusive(s: Cluster) {
    forall n, m :: n in s.claims && m in s.claims && n != m && s.claims[n].bindComplete && s.claims[m].bindComplete
      && s.claims[n].targetName == s.claims[m].targetName && s.claims[n].targetName.Some?
      ==> s.claims[n].targetName.value !in s.targets
  }

  // The assumption on runs: a target name is not used again while a claim names it.
  ghost predicate NoReuse(w: World, a: Action) {
    forall d :: d in Step(w, a).s.targets && d !in w.s.targets && d in w.s.everTargets ==> !Named(w.s, d)
  }

  ghost predicate Named(s: Cluster, d: Name) {
    exists n :: n in s.claims && s.claims[n].targetName == Some(d)
  }

  ghost predicate NoReuseIn(w: World, run: seq<Action>) {
    run == [] || (NoReuseIn(w, run[..|run| - 1]) && NoReuse(Exec(w, run[..|run| - 1]), run[|run| - 1]))
  }

  // ---- the invariant ----

  // Nobody but claim n can have, or get, target d.
  ghost predicate Held(s: Cluster, n: Name, d: Name) {
    d in s.targets ==>
      && !Free(s.targets[d].phase)
      && (s.targets[d].claimRef.None? || s.targets[d].claimRef == Some(n))
      && forall m :: m in s.claims && m != n && s.claims[m].bindComplete ==> s.claims[m].targetName != Some(d)
  }

  ghost predicate Settled(s: Cluster, n: Name)
    requires n in s.claims
  {
    var c := s.claims[n];
    c.bindComplete ==> c.targetName.Some? && c.targetName.value in s.everTargets && Held(s, n, c.targetName.value)
  }

  ghost predicate ClusterInv(s: Cluster) {
    && s.targets.Keys <= s.everTargets
    && forall n :: n in s.claims ==> Settled(s, n)
  }

  // The claim the worker is busy with is still there, and says what the worker's copy says.
  ghost predicate Owns(s: Cluster, n: Name, c: Claim) {
    && n in s.claims
    && Binder in s.claims[n].finalizers && Binder in c.finalizers
    && s.claims[n].targetName == c.targetName
    && s.claims[n].bindComplete == c.bindComplete
  }

  ghost predicate CanTake(n: Name, t: Target) {
    t.claimRef == Some(n) || (t.claimRef.None? && Free(t.phase))
  }

  ghost predicate Marked(s: Cluster, d: Name) {
    d in s.targets ==>
      var cls := ClassOf(s, s.targets[d].className);
      cls.Some? && cls.value.policy == DeletePolicy ==> s.targets[d].deleting
  }

  ghost predicate Cleared(s: Cluster, d: Name) {
    d in s.targets ==> s.targets[d].claimRef.None?
  }

  ghost predicate HasBeenReleased(s: Cluster, d: Name) {
    d in s.targets ==> s.targets[d].phase == TargetReleased || s.targets[d].phase == TargetFailed
  }

  ghost predicate LetGo(s: Cluster, d: Name) {
    Cleared(s, d) && HasBeenReleased(s, d) && Marked(s, d)
  }

  ghost predicate Wants(s: Cluster, n: Name, c: Claim, d: Name) {
    Owns(s, n, c) && c.targetName == Some(d) && d in s.everTargets
  }

  ghost predicate JobInv(s: Cluster, job: ClaimJob) {
    match job
    case Idle => true
    case Main(n, c) => Owns(s, n, c)
    case Provisioned(n, c) => Owns(s, n, c)
    case HandleBound(n, c) => Owns(s, n, c) && c.bindComplete
    case RepeatClaimBound(n, c) => Owns(s, n, c) && c.bindComplete
    case AwaitProvisioner(n, c) => Owns(s, n, c)
    case BindClaim(n, c, d, t) =>
      Wants(s, n, c, d) && !c.bindComplete && (if t.phase == TargetBound then Held(s, n, d) else CanTake(n, t))
    case BindTarget(n, c, d, t) =>
      Wants(s, n, c, d) && !c.bindComplete && (if t.phase == TargetBound then Held(s, n, d) else CanTake(n, t))
    case Annotate(n, c, d) => Wants(s, n, c, d) && !c.bindComplete && Held(s, n, d)
    case MarkTarget(n, c, d, t) =>
      Wants(s, n, c, d) && c.bindComplete && (d in s.targets ==> s.targets[d].className == t.className)
    case ClearRef(n, c, d) => Wants(s, n, c, d) && c.bindComplete && Marked(s, d)
    case Release(n, c, d, t) =>
      && Wants(s, n, c, d) && c.bindComplete && Marked(s, d) && Cleared(s, d) && t.claimRef.None?
      && (t.phase == TargetReleased ==> HasBeenReleased(s, d))
    case DropFinalizer(n, c, released) =>
      && Owns(s, n, c) && (released.Some? ==> c.targetName == released)
      && (IsBound(c) ==> c.targetName.Some? && Wants(s, n, c, c.targetName.value) && LetGo(s, c.targetName.value))
  }

  ghost predicate Inv(w: World) {
    && ClusterInv(w.s)
    && JobInv(w.s, w.claimJob)
    && (w.requestJob.Created? ==> w.requestJob.t.phase == TargetNoPhase)
  }

  // ---- the steps of everybody but the claim worker ----

  // How a target may change under them: its reference is only ever cleared, a phase that is no
  // longer free never becomes free again, and a deletion is never taken back.
  ghost predicate Evolves(t: Target, t': Target) {
    && t'.className == t.className
    && (t'.claimRef == t.claimRef || t'.claimRef.None?)
    && (t.deleting ==> t'.deleting)
    && (t'.phase == t.phase || (t.phase == TargetNoPhase && t'.phase == TargetAvailable) || t'.phase == TargetFailed)
  }

  ghost predicate ClaimsKept(s: Cluster, s': Cluster) {
    && (forall n :: n in s.claims && Binder in s.claims[n].finalizers ==> n in s'.claims && Binder in s'.claims[n].finalizers)
    && (forall n :: n in s'.claims ==>
         if n in s.claims
         then s'.claims[n].targetName == s.claims[n].targetName && s'.claims[n].bindComplete == s.claims[n].bindComplete
         else !s'.claims[n].bindComplete)
  }

  ghost predicate TargetsKept(s: Cluster, s': Cluster) {
    && s.everTargets <= s'.everTargets && s'.targets.Keys <= s'.everTargets
    && (forall d :: d in s'.targets ==>
         if d in s.targets then Evolves(s.targets[d], s'.targets[d]) else d in s.everTargets ==> !Named(s, d))
  }

  ghost predicate Quiet(s: Cluster, s': Cluster) {
    ClaimsKept(s, s') && TargetsKept(s, s') && s'.classes == s.classes
  }

  lemma QuietKeepsHeld(s: Cluster, s': Cluster, n: Name, d: Name)
    requires Quiet(s, s') && Held(s, n, d) && n in s.claims && s.claims[n].targetName == Some(d) && d in s.everTargets
    ensures Held(s', n, d)
  {
    assert Named(s, d);
  }

  lemma QuietKeepsCluster(s: Cluster, s': Cluster)
    requires Quiet(s, s') && ClusterInv(s)
    ensures ClusterInv(s')
  {
    forall n | n in s'.claims ensures Settled(s', n) {
      if s'.claims[n].bindComplete {
        QuietKeepsHeld(s, s', n, s.claims[n].targetName.value);
      }
    }
  }

  lemma QuietKeepsTarget(s: Cluster, s': Cluster, n: Name, d: Name)
    requires Quiet(s, s') && n in s.claims && s.claims[n].targetName == Some(d) && d in s.everTargets
    ensures d in s'.targets ==> d in s.targets && Evolves(s.targets[d], s'.targets[d])
    ensures Marked(s, d) ==> Marked(s', d)
    ensures Cleared(s, d) ==> Cleared(s', d)
    ensures HasBeenReleased(s, d) ==> HasBeenReleased(s', d)
  {
    assert Named(s, d);
  }

  lemma QuietKeepsJob(s: Cluster, s': Cluster, job: ClaimJob)
    requires Quiet(s, s') && JobInv(s, job)
    ensures JobInv(s', job)
  {
    match job
    case BindClaim(n, c, d, t) => if t.phase == TargetBound { QuietKeepsHeld(s, s', n, d); }
    case BindTarget(n, c, d, t) => if t.phase == TargetBound { QuietKeepsHeld(s, s', n, d); }
    case Annotate(n, c, d) => QuietKeepsHeld(s, s', n, d);
    case MarkTarget(n, c, d, t) => QuietKeepsTarget(s, s', n, d);
    case ClearRef(n, c, d) => QuietKeepsTarget(s, s', n, d);
    case Release(n, c, d, t) => QuietKeepsTarget(s, s', n, d);
    case DropFinalizer(n, c, released) => if IsBound(c) { QuietKeepsTarget(s, s', n, c.targetName.value); }
    case _ =>
  }

  predicate OfClaimWorker(a: Action) {
    a.ClaimBegins? || a.ClaimSteps? || a.ClaimCut?
  }

  lemma RequestWritesAreQuiet(s: Cluster, s': Cluster)
    requires s.targets.Keys <= s.everTargets && s' == s.(requests := s'.requests)
    ensures Quiet(s, s')
  {
  }

  lemma ClaimWriteIsQuiet(s: Cluster, n: Name, c: Claim)
    requires s.targets.Keys <= s.everTargets
    requires if n in s.claims
             then c.targetName == s.claims[n].targetName && c.bindComplete == s.claims[n].bindComplete
                  && (Binder in s.claims[n].finalizers ==> Binder in c.finalizers)
             else !c.bindComplete
    ensures Quiet(s, PutClaim(s, n, c))
  {
  }

  lemma TargetWriteIsQuiet(s: Cluster, d: Name, t: Target)
    requires s.targets.Keys <= s.everTargets
    requires if d in s.targets then Evolves(s.targets[d], t) else d in s.everTargets ==> !Named(s, d)
    ensures Quiet(s, PutTarget(s, d, t))
  {
  }

  lemma NewTarget(w: World, a: Action, d: Name, t: Target)
    requires NoReuse(w, a) && d !in w.s.targets && !t.deleting && Step(w, a).s == PutTarget(w.s, d, t)
    requires w.s.targets.Keys <= w.s.everTargets
    ensures Quiet(w.s, Step(w, a).s)
  {
    assert d in Step(w, a).s.targets;
    TargetWriteIsQuiet(w.s, d, t);
  }

  lemma TargetReconcilerIsQuiet(w: World, a: Action)
    requires Inv(w) && (a.TargetBegins? || a.TargetSteps? || a.TargetCut?)
    ensures Quiet(w.s, Step(w, a).s)
  {
    var s' := Step(w, a).s;
    if a.TargetBegins? && s' != w.s {
      TargetWriteIsQuiet(w.s, a.n, w.s.targets[a.n].(finalizers := w.s.targets[a.n].finalizers + {TargetFinalizer}));
    } else if a.TargetSteps? {
      match w.targetJob
      case TargetIdle => RequestWritesAreQuiet(w.s, s');
      case TargetMain(d, t) =>
        if TargetUnchanged(w.s, d, t) {
          TargetWriteIsQuiet(w.s, d, t.(claimRef := None));
          TargetWriteIsQuiet(w.s, d, t.(finalizers := t.finalizers - {TargetFinalizer}));
        }
        TargetMainWrites(w, a.request, a.timedOut);
        if s'.targets == w.s.targets && s' == w.s.(requests := s'.requests) {
          RequestWritesAreQuiet(w.s, s');
        }
      case TargetSpace(d, t, r, q) =>
        if TargetUnchanged(w.s, d, t) {
          TargetWriteIsQuiet(w.s, d, t.(phase := TargetFailed));
        }
        TargetSpaceWrites(w, a.request, a.timedOut);
        if s' == w.s.(requests := s'.requests) {
          RequestWritesAreQuiet(w.s, s');
        }
    } else {
      RequestWritesAreQuiet(w.s, s');
    }
  }

  // The only writes of a target reconcile after its finalizer is in place.
  lemma TargetMainWrites(w: World, pick: Name, timedOut: bool)
    requires w.targetJob.TargetMain?
    ensures var TargetMain(d, t) := w.targetJob; var s' := StepTarget(w, pick, timedOut).s;
            || s' == w.s.(requests := s'.requests)
            || (TargetUnchanged(w.s, d, t) && s' == PutTarget(w.s, d, t.(claimRef := None)))
            || (TargetUnchanged(w.s, d, t) && s' == PutTarget(w.s, d, t.(finalizers := t.finalizers - {TargetFinalizer})))
  {
  }

  lemma TargetSpaceWrites(w: World, pick: Name, timedOut: bool)
    requires w.targetJob.TargetSpace?
    ensures var TargetSpace(d, t, r, q) := w.targetJob; var s' := StepTarget(w, pick, timedOut).s;
            || s' == w.s.(requests := s'.requests)
            || (TargetUnchanged(w.s, d, t) && s' == PutTarget(w.s, d, t.(phase := TargetFailed)))
  {
  }

  lemma RequestReconcilerIsQuiet(w: World, a: Action)
    requires Inv(w) && NoReuse(w, a) && (a.RequestBegins? || a.RequestSteps? || a.RequestCut?)
    ensures Quiet(w.s, Step(w, a).s)
    ensures Step(w, a).requestJob.Created? ==> Step(w, a).requestJob.t.phase == TargetNoPhase
  {
    var w' := Step(w, a);
    if a.RequestBegins? && w'.requestJob.Created? && !w.requestJob.Created? {
      var t := w'.requestJob.t;
      NewTarget(w, a, w'.requestJob.d, t);
    } else if a.RequestSteps? && w.requestJob.Created? {
      var Created(r, q, d, t) := w.requestJob;
      if TargetUnchanged(w.s, d, t) {
        TargetWriteIsQuiet(w.s, d, t.(phase := TargetAvailable));
      } else {
        RequestWritesAreQuiet(w.s, w'.s);
      }
    } else {
      RequestWritesAreQuiet(w.s, w'.s);
    }
  }

  lemma UsersAreQuiet(w: World, a: Action)
    requires Inv(w) && NoReuse(w, a)
    requires a.UserCreatesClaim? || a.UserDeletesClaim? || a.UserCreatesTarget? || a.UserDeletesTarget?
    ensures Quiet(w.s, Step(w, a).s)
  {
    match a
    case UserCreatesClaim(n, className, targetName, finalizers) =>
      if n !in w.s.claims {
        ClaimWriteIsQuiet(w.s, n, Claim(className, targetName, ClaimNoPhase, false, false, None, finalizers, false));
      }
    case UserDeletesClaim(n) => if n in w.s.claims { ClaimWriteIsQuiet(w.s, n, w.s.claims[n].(deleting := true)); }
    case UserCreatesTarget(d, className, claimRef, credentials, finalizers) =>
      if d !in w.s.targets {
        NewTarget(w, a, d, Target(className, claimRef, credentials, TargetNoPhase, finalizers, false));
      }
    case UserDeletesTarget(d) => if d in w.s.targets { TargetWriteIsQuiet(w.s, d, w.s.targets[d].(deleting := true)); }
    case _ =>
  }

  lemma ForeignersAreQuiet(w: World, a: Action)
    requires Inv(w) && (a.RequestChanges? || a.ForeignClaimFinalizer? || a.ForeignTargetFinalizer?)
    ensures Quiet(w.s, Step(w, a).s)
  {
    match a
    case ForeignClaimFinalizer(n, id) =>
      if n in w.s.claims {
        ClaimWriteIsQuiet(w.s, n, w.s.claims[n].(finalizers := w.s.claims[n].finalizers - {Foreign(id)}));
      }
    case ForeignTargetFinalizer(d, id) =>
      if d in w.s.targets {
        TargetWriteIsQuiet(w.s, d, w.s.targets[d].(finalizers := w.s.targets[d].finalizers - {Foreign(id)}));
      }
    case _ => RequestWritesAreQuiet(w.s, Step(w, a).s);
  }

  lemma OthersAreQuiet(w: World, a: Action)
    requires Inv(w) && NoReuse(w, a) && !OfClaimWorker(a)
    ensures Quiet(w.s, Step(w, a).s) && Step(w, a).claimJob == w.claimJob
    ensures Step(w, a).requestJob.Created? ==> Step(w, a).requestJob.t.phase == TargetNoPhase
  {
    if a.TargetBegins? || a.TargetSteps? || a.TargetCut? {
      TargetReconcilerIsQuiet(w, a);
    } else if a.RequestBegins? || a.RequestSteps? || a.RequestCut? {
      RequestReconcilerIsQuiet(w, a);
    } else if a.RequestChanges? || a.ForeignClaimFinalizer? || a.ForeignTargetFinalizer? {
      ForeignersAreQuiet(w, a);
    } else {
      UsersAreQuiet(w, a);
    }
  }

  // ---- the steps of the claim worker ----

  lemma ClaimWriteKeepsCluster(s: Cluster, n: Name, c: Claim, c': Claim)
    requires ClusterInv(s) && ClaimUnchanged(s, n, c) && c'.bindComplete == c.bindComplete
    requires c.bindComplete ==> c'.targetName == c.targetName
    ensures ClusterInv(PutClaim(s, n, c'))
  {
    var s' := PutClaim(s, n, c');
    forall m | m in s'.claims ensures Settled(s', m) {
      assert Settled(s, m);
    }
  }

  // A phase that is not free never becomes free, and the reference stays or is cleared.
  lemma TargetWriteKeepsCluster(s: Cluster, d: Name, t': Target)
    requires ClusterInv(s) && d in s.targets && (!Free(s.targets[d].phase) ==> !Free(t'.phase))
    requires t'.claimRef == s.targets[d].claimRef || t'.claimRef.None?
    ensures ClusterInv(PutTarget(s, d, t'))
  {
    var s' := PutTarget(s, d, t');
    forall m | m in s'.claims ensures Settled(s', m) {
      assert Settled(s, m);
    }
  }

  // A target that claim n can take, or already holds, is held by n once its phase is not free.
  lemma TakenTargetIsHeld(s: Cluster, n: Name, d: Name)
    requires ClusterInv(s) && n in s.claims && d in s.targets && CanTake(n, s.targets[d])
    ensures forall m :: m in s.claims && m != n && s.claims[m].bindComplete ==> s.claims[m].targetName != Some(d)
  {
    forall m | m in s.claims && m != n && s.claims[m].bindComplete ensures s.claims[m].targetName != Some(d) {
      assert Settled(s, m);
    }
  }

  lemma CompletionKeepsCluster(s: Cluster, n: Name, c: Claim, d: Name)
    requires ClusterInv(s) && ClaimUnchanged(s, n, c) && Wants(s, n, c, d) && Held(s, n, d)
    ensures ClusterInv(PutClaim(s, n, c.(bindComplete := true)))
  {
    var s' := PutClaim(s, n, c.(bindComplete := true));
    forall m | m in s'.claims ensures Settled(s', m) {
      if m != n {
        assert Settled(s, m);
      }
    }
  }

  lemma BeginClaimKeeps(w: World, n: Name)
    requires Inv(w)
    ensures Inv(BeginClaim(w, n))
  {
    if n in w.s.claims {
      var c := w.s.claims[n];
      ClaimWriteKeepsCluster(w.s, n, c, c.(finalizers := c.finalizers + {Binder}));
    }
  }

  lemma SetClaimPhaseKeeps(w: World, n: Name, c: Claim, phase: ClaimPhase, next: ClaimJob)
    requires ClusterInv(w.s) && Owns(w.s, n, c)
    ensures var s' := SetClaimPhase(w, n, c, phase, next).s;
            && ClusterInv(s') && Owns(s', n, c) && s'.targets == w.s.targets && s'.everTargets == w.s.everTargets
            && forall m :: m in s'.claims ==> m in w.s.claims && s'.claims[m].targetName == w.s.claims[m].targetName
                                              && s'.claims[m].bindComplete == w.s.claims[m].bindComplete
  {
    if c.phase != phase && ClaimUnchanged(w.s, n, c) {
      ClaimWriteKeepsCluster(w.s, n, c, c.(phase := phase));
    }
  }

  lemma MainKeeps(w: World, generated: Name)
    requires Inv(w) && w.claimJob.Main?
    ensures Inv(StepClaim(w, None, generated))
  {
    var Main(n, c) := w.claimJob;
    if c.deleting {
      StartDeletionKeeps(w, n, c);
    } else {
      RequestWritesAreQuiet(w.s, Provision(w, n, c, generated).s);
      QuietKeepsCluster(w.s, Provision(w, n, c, generated).s);
    }
  }

  lemma StartDeletionKeeps(w: World, n: Name, c: Claim)
    requires Inv(w) && Owns(w.s, n, c)
    ensures Inv(StartDeletion(w, n, c))
  {
    if IsBound(c) {
      assert Settled(w.s, n);
      var d := c.targetName.value;
      if d in w.s.targets {
        var t := w.s.targets[d];
        TargetWriteKeepsCluster(w.s, d, t.(finalizers := t.finalizers + {TargetFinalizer}));
      }
    }
  }

  lemma ProvisionedKeeps(w: World, pick: Option<Name>, generated: Name)
    requires Inv(w) && w.claimJob.Provisioned?
    ensures Inv(StepClaim(w, pick, generated))
  {
    var Provisioned(n, c) := w.claimJob;
    if ClaimUnchanged(w.s, n, c) {
      ClaimWriteKeepsCluster(w.s, n, c, c.(provisioner := c.className));
    }
    if !c.bindComplete {
      if c.targetName.None? {
        FindTargetKeeps(w, n, c, pick);
      } else {
        UseNamedTargetKeeps(w, n, c, c.targetName.value);
      }
    }
  }

  lemma FindTargetKeeps(w: World, n: Name, c: Claim, pick: Option<Name>)
    requires Inv(w) && Owns(w.s, n, c) && !c.bindComplete && w.claimJob == Provisioned(n, c)
    ensures Inv(FindTarget(w, n, c, pick))
  {
    SetClaimPhaseKeeps(w, n, c, ClaimPending, Idle);
    if ClaimUnchanged(w.s, n, c) {
      ClaimWriteKeepsCluster(w.s, n, c, c.(provisioner := c.className));
      if pick.Some? {
        ClaimWriteKeepsCluster(w.s, n, c, c.(targetName := pick, boundByController := true));
      }
    }
  }

  lemma UseNamedTargetKeeps(w: World, n: Name, c: Claim, d: Name)
    requires Inv(w) && Owns(w.s, n, c) && !c.bindComplete && c.targetName == Some(d)
    ensures Inv(UseNamedTarget(w, n, c, d))
  {
    SetClaimPhaseKeeps(w, n, c, ClaimPending, Idle);
    if d in w.s.targets && w.s.targets[d].claimRef == Some(n) {
      TakenTargetIsHeld(w.s, n, d);
    }
  }

  lemma HandleBoundKeeps(w: World)
    requires Inv(w) && w.claimJob.HandleBound?
    ensures Inv(RepeatTargetBound(w, w.claimJob.n, w.claimJob.c))
  {
    var HandleBound(n, c) := w.claimJob;
    assert Settled(w.s, n);
    SetClaimPhaseKeeps(w, n, c, ClaimLost, Idle);
    var d := c.targetName.value;
    if d in w.s.targets {
      TargetWriteKeepsCluster(w.s, d, w.s.targets[d].(phase := TargetBound));
    }
  }

  lemma BindClaimKeeps(w: World, pick: Option<Name>, generated: Name)
    requires Inv(w) && w.claimJob.BindClaim?
    ensures Inv(StepClaim(w, pick, generated))
  {
    var BindClaim(n, c, d, t) := w.claimJob;
    SetClaimPhaseKeeps(w, n, c, ClaimBound, BindTarget(n, c.(phase := ClaimBound), d, t));
  }

  lemma BindTargetKeeps(w: World, pick: Option<Name>, generated: Name)
    requires Inv(w) && w.claimJob.BindTarget?
    ensures Inv(StepClaim(w, pick, generated))
  {
    var BindTarget(n, c, d, t) := w.claimJob;
    if t.phase != TargetBound && TargetUnchanged(w.s, d, t) {
      TakenTargetIsHeld(w.s, n, d);
      TargetWriteKeepsCluster(w.s, d, t.(phase := TargetBound));
    }
  }

  lemma AnnotateKeeps(w: World, pick: Option<Name>, generated: Name)
    requires Inv(w) && w.claimJob.Annotate?
    ensures Inv(StepClaim(w, pick, generated))
  {
    var Annotate(n, c, d) := w.claimJob;
    if ClaimUnchanged(w.s, n, c) {
      CompletionKeepsCluster(w.s, n, c, d);
    }
  }

  lemma MarkTargetKeeps(w: World, pick: Option<Name>, generated: Name)
    requires Inv(w) && w.claimJob.MarkTarget?
    ensures Inv(StepClaim(w, pick, generated))
  {
    var d := w.claimJob.d;
    if d in w.s.targets {
      TargetWriteKeepsCluster(w.s, d, w.s.targets[d].(deleting := true));
    }
  }

  lemma ClearRefKeeps(w: World, pick: Option<Name>, generated: Name)
    requires Inv(w) && w.claimJob.ClearRef?
    ensures Inv(StepClaim(w, pick, generated))
  {
    var d := w.claimJob.d;
    if d in w.s.targets {
      TargetWriteKeepsCluster(w.s, d, w.s.targets[d].(claimRef := None));
    }
  }

  lemma ReleaseKeeps(w: World, pick: Option<Name>, generated: Name)
    requires Inv(w) && w.claimJob.Release?
    ensures Inv(StepClaim(w, pick, generated))
  {
    var Release(n, c, d, t) := w.claimJob;
    if TargetUnchanged(w.s, d, t) {
      TargetWriteKeepsCluster(w.s, d, t.(phase := TargetReleased));
    }
  }

  lemma DropFinalizerKeeps(w: World, pick: Option<Name>, generated: Name)
    requires Inv(w) && w.claimJob.DropFinalizer?
    ensures Inv(StepClaim(w, pick, generated))
  {
    var DropFinalizer(n, c, released) := w.claimJob;
    if ClaimUnchanged(w.s, n, c) {
      ClaimWriteKeepsCluster(w.s, n, c, c.(finalizers := c.finalizers - {Binder}));
    }
  }

  lemma ClaimWorkerKeeps(w: World, pick: Option<Name>, generated: Name)
    requires Inv(w)
    ensures Inv(StepClaim(w, pick, generated))
  {
    match w.claimJob
    case Idle =>
    case Main(n, c) => MainKeeps(w, generated);
    case Provisioned(n, c) => ProvisionedKeeps(w, pick, generated);
    case HandleBound(n, c) => HandleBoundKeeps(w);
    case RepeatClaimBound(n, c) => SetClaimPhaseKeeps(w, n, c, ClaimBound, Idle);
    case AwaitProvisioner(n, c) => SetClaimPhaseKeeps(w, n, c, ClaimPending, Idle);
    case BindClaim(n, c, d, t) => BindClaimKeeps(w, pick, generated);
    case BindTarget(n, c, d, t) => BindTargetKeeps(w, pick, generated);
    case Annotate(n, c, d) => AnnotateKeeps(w, pick, generated);
    case DropFinalizer(n, c, released) => DropFinalizerKeeps(w, pick, generated);
    case MarkTarget(n, c, d, t) => MarkTargetKeeps(w, pick, generated);
    case ClearRef(n, c, d) => ClearRefKeeps(w, pick, generated);
    case Release(n, c, d, t) => ReleaseKeeps(w, pick, generated);
  }

  // ---- all runs ----

  lemma OthersKeep(w: World, a: Action)
    requires Inv(w) && NoReuse(w, a) && !OfClaimWorker(a)
    ensures Inv(Step(w, a))
  {
    OthersAreQuiet(w, a);
    QuietKeepsCluster(w.s, Step(w, a).s);
    QuietKeepsJob(w.s, Step(w, a).s, w.claimJob);
  }

  lemma StepKeeps(w: World, a: Action)
    requires Inv(w) && NoReuse(w, a)
    ensures Inv(Step(w, a))
  {
    match a
    case ClaimBegins(n) => BeginClaimKeeps(w, n);
    case ClaimSteps(pick, generated) => ClaimWorkerKeeps(w, pick, generated);
    case ClaimCut =>
    case _ => OthersKeep(w, a);
  }

  lemma {:induction false} InvAlways(classes: map<Name, Class>, run: seq<Action>)
    requires NoReuseIn(Initial(classes), run)
    ensures Inv(Exec(Initial(classes), run))
  {
    if run != [] {
      var k := |run| - 1;
      InvAlways(classes, run[..k]);
      StepKeeps(Exec(Initial(classes), run[..k]), run[k]);
    }
  }

  // In every run, whatever is interleaved and wherever reconciles are cut off.
  lemma ExclusiveBinding(classes: map<Name, Class>, run: seq<Action>)
    requires NoReuseIn(Initial(classes), run)
    ensures Exclusive(Exec(Initial(classes), run).s)
  {
    InvAlways(classes, run);
    var s := Exec(Initial(classes), run).s;
    forall n, m | n in s.claims && m in s.claims && n != m && s.claims[n].bindComplete && s.claims[m].bindComplete
                  && s.claims[n].targetName == s.claims[m].targetName && s.claims[n].targetName.Some?
      ensures s.claims[n].targetName.value !in s.targets
    {
      assert Settled(s, n);
    }
  }
}
