// Dynamic provisioning from an unbound claim to its target, and back to nothing, by reconciles that
// are not interfered with.
module ClaimProvisioning {
  import opened Wrappers
  import opened DeploymentTargets
  import opened ClaimProtocol
  import opened ClaimProgress

  // All reconcilers are at rest.
  predicate AtRest(w: World) {
    w.claimJob.Idle? && w.targetJob.TargetIdle? && w.requestJob.RequestIdle?
  }

  ghost predicate NoCandidate(s: Cluster, n: Name, c: Claim) {
    forall d :: d in s.targets ==> !Suits(s, n, c, d)
  }

  lemma SearchMarks(w: World, n: Name, c: Claim, generated: Name)
    requires w.claimJob == Provisioned(n, c) && ClaimUnchanged(w.s, n, c) && NoCandidate(w.s, n, c)
    requires !c.deleting && !c.bindComplete && c.targetName.None? && c.className.Some?
    ensures StepClaim(StepClaim(w, None, generated), None, generated) ==
              w.(s := w.s.(claims := w.s.claims[n := c.(provisioner := c.className, phase := ClaimPending)]), claimJob := Idle)
  {
    CandidatesSuit(w.s, n, c);
    var c1 := c.(provisioner := c.className);
    var s1 := w.s.(claims := w.s.claims[n := c1]);
    assert StepClaim(w, None, generated) == w.(s := s1, claimJob := AwaitProvisioner(n, c1));
    var c2 := c1.(phase := ClaimPending);
    assert s1.claims[n := c2] == w.s.claims[n := c2];
    assert c1.phase == ClaimPending ==> c1 == c2;
  }

  // Without a target that matches, the claim is marked for provisioning and waits.
  lemma ClaimIsMarked(w: World, n: Name, generated: Name)
    requires w.claimJob.Idle? && n in w.s.claims
    requires var c := w.s.claims[n];
             && !c.deleting && !c.bindComplete && c.targetName.None? && c.className.Some?
             && NothingToProvision(w.s, n, c) && NoCandidate(w.s, n, c)
    ensures var c := w.s.claims[n];
            Reconcile(w, n, None, generated, 3) ==
              w.(s := w.s.(claims := w.s.claims[n := c.(finalizers := c.finalizers + {Binder}, provisioner := c.className,
                                                        phase := ClaimPending)]))
  {
    GetsToSearch(w, n, None, generated);
    var w1 := Reconcile(w, n, None, generated, 1);
    var c := w1.s.claims[n];
    forall d | d in w1.s.targets ensures !Suits(w1.s, n, c, d) {
      assert !Suits(w.s, n, w.s.claims[n], d);
    }
    SearchMarks(w1, n, c, generated);
    assert Reconcile(w, n, None, generated, 2) == StepClaim(w1, None, generated);
    var c' := c.(provisioner := c.className, phase := ClaimPending);
    assert w1.s.claims[n := c'] == w.s.claims[n := c'];
  }

  // A claim that is marked for provisioning by the dev sandbox and Pending.
  ghost predicate Awaits(w: World, n: Name) {
    && n in w.s.claims
    && var c := w.s.claims[n];
       && !c.deleting && c.phase == ClaimPending && c.provisioner.Some?
       && c.className.Some? && c.className.value in w.s.classes && w.s.classes[c.className.value].devsandbox
  }

  function NewRequest(n: Name): SpaceRequest {
    SpaceRequest(true, Some(n), None, NoReadyCondition, 0, {}, false)
  }

  lemma RequestIsMade(w: World, n: Name, generated: Name)
    requires w.claimJob.Idle? && Awaits(w, n) && generated !in w.s.requests
    requires forall r :: r in w.s.requests && ClaimedBy(w.s, r, n) ==> !w.s.requests[r].environmentTier
    ensures var c := w.s.claims[n].(finalizers := w.s.claims[n].finalizers + {Binder});
            Reconcile(w, n, None, generated, 1) ==
              w.(s := w.s.(claims := w.s.claims[n := c], requests := w.s.requests[generated := NewRequest(n)]),
                 claimJob := Provisioned(n, c))
  {
    FinalizerIsAdded(w, n);
    var w0 := BeginClaim(w, n);
    assert forall r :: ClaimedBy(w0.s, r, n) <==> ClaimedBy(w.s, r, n);
    assert Reconcile(w, n, None, generated, 1) == StepClaim(w0, None, generated);
  }

  // A claim that waits and has no SpaceRequest gets one, whatever target it names; if it names none
  // and there is none for it, it goes on waiting.
  lemma RequestIsCreated(w: World, n: Name, generated: Name)
    requires w.claimJob.Idle? && Awaits(w, n) && generated !in w.s.requests
    requires forall r :: r in w.s.requests && ClaimedBy(w.s, r, n) ==> !w.s.requests[r].environmentTier
    ensures var c := w.s.claims[n].(finalizers := w.s.claims[n].finalizers + {Binder});
            var s1 := w.s.(claims := w.s.claims[n := c], requests := w.s.requests[generated := NewRequest(n)]);
            && Reconcile(w, n, None, generated, 1) == w.(s := s1, claimJob := Provisioned(n, c))
            && (!c.bindComplete && c.targetName.None? && NoCandidate(w.s, n, c) ==>
                 Reconcile(w, n, None, generated, 3) ==
                   w.(s := s1.(claims := w.s.claims[n := c.(provisioner := c.className)])))
  {
    RequestIsMade(w, n, generated);
    var c := w.s.claims[n].(finalizers := w.s.claims[n].finalizers + {Binder});
    var w1 := Reconcile(w, n, None, generated, 1);
    if !c.bindComplete && c.targetName.None? && NoCandidate(w.s, n, c) {
      assert NoCandidate(w1.s, n, c);
      SearchMarks(w1, n, c, generated);
      assert Reconcile(w, n, None, generated, 2) == StepClaim(w1, None, generated);
      var c' := c.(provisioner := c.className);
      assert c.(provisioner := c.className, phase := ClaimPending) == c';
      assert w1.s.claims[n := c'] == w.s.claims[n := c'];
    }
  }

  // What the SpaceRequest reconciler makes of a request that has become ready.
  function RequestReconcile(w: World, r: Name, cls: Name, pick: Option<Name>, credentials: bool): World {
    StepRequest(StepRequest(BeginRequest(w, r, cls, pick, credentials)))
  }

  // A ready request of a claim without a target gets an available target that references the claim,
  // of its class and with the credentials of the request, and is labelled with it.
  lemma TargetIsCreated(w: World, n: Name, r: Name, cls: Name, credentials: bool)
    requires w.requestJob.RequestIdle? && n in w.s.claims && r in w.s.requests
    requires var q := w.s.requests[r];
             && !q.deleting && q.claimLabel == Some(n) && q.namespaces == 1 && q.ready == ReadyTrue
             && (q.targetLabel.Some? ==> q.targetLabel.value !in w.s.targets)
    requires cls in w.s.classes && w.s.classes[cls].devsandbox
    requires TargetNameFor(n) !in w.s.targets && forall d :: d in w.s.targets ==> w.s.targets[d].claimRef != Some(n)
    ensures var d := TargetNameFor(n);
            var t := Target(w.s.claims[n].className, Some(n), credentials, TargetAvailable, {}, false);
            RequestReconcile(w, r, cls, None, credentials) ==
              w.(s := w.s.(targets := w.s.targets[d := t], everTargets := w.s.everTargets + {d},
                           requests := w.s.requests[r := w.s.requests[r].(targetLabel := Some(d))]))
  {
    var d, q := TargetNameFor(n), w.s.requests[r];
    var t := Target(w.s.claims[n].className, Some(n), credentials, TargetNoPhase, {}, false);
    assert q.targetLabel == Some(d) ==> w.s.requests[r := q.(targetLabel := Some(d))] == w.s.requests;
    var s1 := w.s.(targets := w.s.targets[d := t], everTargets := w.s.everTargets + {d});
    assert BeginRequest(w, r, cls, None, credentials) == w.(s := s1, requestJob := Created(r, q, d, t));
    var s2 := s1.(targets := s1.targets[d := t.(phase := TargetAvailable)]);
    assert s1.everTargets + {d} == s1.everTargets;
    assert s2.targets == w.s.targets[d := t.(phase := TargetAvailable)];
    assert StepRequest(w.(s := s1, requestJob := Created(r, q, d, t))) == w.(s := s2, requestJob := LabelRequest(r, q, d));
  }

  // From an unbound claim to a bound one, once the operator has made the request ready.
  function Provisioning(w: World, n: Name, generated: Name, cls: Name): World {
    var asked := Reconcile(Reconcile(w, n, None, generated, 3), n, None, generated, 3);
    Reconcile(Made(asked, n, generated, cls), n, Some(TargetNameFor(n)), generated, 5)
  }

  // A claim of a dev sandbox class that nothing matches ends up bound, by way of a SpaceRequest, to a
  // target created for it; no other object is touched.
  lemma DynamicProvisioningBinds(w: World, n: Name, generated: Name, cls: Name)
    requires AtRest(w) && n in w.s.claims && generated !in w.s.requests && cls in w.s.classes && w.s.classes[cls].devsandbox
    requires var c := w.s.claims[n];
             && !c.deleting && !c.bindComplete && c.targetName.None? && c.className == Some(cls)
             && c.phase == ClaimNoPhase && NoCandidate(w.s, n, c)
    requires forall r :: r in w.s.requests && ClaimedBy(w.s, r, n) ==> !w.s.requests[r].environmentTier
    requires TargetNameFor(n) !in w.s.targets && forall d :: d in w.s.targets ==> w.s.targets[d].claimRef != Some(n)
    ensures var c, d := w.s.claims[n], TargetNameFor(n);
            Provisioning(w, n, generated, cls) ==
              w.(s := w.s.(
                claims := w.s.claims[n := c.(finalizers := c.finalizers + {Binder}, provisioner := Some(cls),
                                             targetName := Some(d), boundByController := true,
                                             phase := ClaimBound, bindComplete := true)],
                targets := w.s.targets[d := Target(Some(cls), Some(n), true, TargetBound, {}, false)],
                everTargets := w.s.everTargets + {d},
                requests := w.s.requests[generated := NewRequest(n).(ready := ReadyTrue, namespaces := 1,
                                                                     targetLabel := Some(d))]))
  {
    var c, d := w.s.claims[n], TargetNameFor(n);
    ClaimIsMarked(w, n, generated);
    var w1 := Reconcile(w, n, None, generated, 3);
    var c1 := w1.s.claims[n];
    assert NoCandidate(w1.s, n, c1) by {
      forall e | e in w1.s.targets ensures !Suits(w1.s, n, c1, e) {
        assert w.s.targets[e].claimRef != Some(n);
      }
    }
    RequestIsCreated(w1, n, generated);
    assert c1.finalizers + {Binder} == c1.finalizers && c1.(provisioner := c1.className) == c1;
    assert w1.s.claims[n := c1] == w1.s.claims;
    AskedIsBound(w, Reconcile(w1, n, None, generated, 3), n, generated, cls);
  }

  // The request has become ready, and its target has been created.
  function Made(asked: World, n: Name, generated: Name, cls: Name): World {
    var q := NewRequest(n).(ready := ReadyTrue, namespaces := 1);
    RequestReconcile(Step(asked, RequestChanges(generated, Some(q))), generated, cls, None, true)
  }

  lemma AskedIsMade(asked: World, n: Name, generated: Name, cls: Name)
    requires AtRest(asked) && Awaits(asked, n) && asked.s.claims[n].className == Some(cls)
    requires TargetNameFor(n) !in asked.s.targets && forall d :: d in asked.s.targets ==> asked.s.targets[d].claimRef != Some(n)
    ensures var d := TargetNameFor(n);
            Made(asked, n, generated, cls) ==
              asked.(s := asked.s.(
                targets := asked.s.targets[d := Target(Some(cls), Some(n), true, TargetAvailable, {}, false)],
                everTargets := asked.s.everTargets + {d},
                requests := asked.s.requests[generated := NewRequest(n).(ready := ReadyTrue, namespaces := 1,
                                                                         targetLabel := Some(d))]))
  {
    var q := NewRequest(n).(ready := ReadyTrue, namespaces := 1);
    var ready := Step(asked, RequestChanges(generated, Some(q)));
    TargetIsCreated(ready, n, generated, cls, true);
    var q' := q.(targetLabel := Some(TargetNameFor(n)));
    assert ready.s.requests[generated := q'] == asked.s.requests[generated := q'];
  }

  lemma AskedIsBound(w: World, asked: World, n: Name, generated: Name, cls: Name)
    requires AtRest(w) && n in w.s.claims && generated !in w.s.requests
    requires TargetNameFor(n) !in w.s.targets && forall d :: d in w.s.targets ==> w.s.targets[d].claimRef != Some(n)
    requires asked == w.(s := w.s.(claims := asked.s.claims, requests := w.s.requests[generated := NewRequest(n)]))
    requires Awaits(asked, n) && asked.s.claims[n].className == Some(cls) && Binder in asked.s.claims[n].finalizers
    requires !asked.s.claims[n].bindComplete && asked.s.claims[n].targetName.None?
    ensures var d, c := TargetNameFor(n), asked.s.claims[n];
            Reconcile(Made(asked, n, generated, cls), n, Some(d), generated, 5) ==
              w.(s := w.s.(
                claims := asked.s.claims[n := c.(targetName := Some(d), boundByController := true, phase := ClaimBound,
                                                 bindComplete := true)],
                targets := w.s.targets[d := Target(Some(cls), Some(n), true, TargetBound, {}, false)],
                everTargets := w.s.everTargets + {d},
                requests := w.s.requests[generated := NewRequest(n).(ready := ReadyTrue, namespaces := 1,
                                                                     targetLabel := Some(d))]))
  {
    var d, c := TargetNameFor(n), asked.s.claims[n];
    AskedIsMade(asked, n, generated, cls);
    var made := Made(asked, n, generated, cls);
    assert ClaimedBy(made.s, generated, n) && made.s.requests[generated].environmentTier;
    FreeTargetIsBound(made, n, d, generated);
    assert c.finalizers + {Binder} == c.finalizers;
    var t := Target(Some(cls), Some(n), true, TargetBound, {}, false);
    assert made.s.targets[d := t] == w.s.targets[d := t];
    var q := NewRequest(n).(ready := ReadyTrue, namespaces := 1, targetLabel := Some(d));
    assert made.s.requests == w.s.requests[generated := q];
  }

  // ---- the way back ----

  // A reconcile of target d, cut after k steps.
  function TargetReconcile(w: World, d: Name, pick: Name, timedOut: bool, k: nat): World {
    if k == 0 then BeginTarget(w, d) else StepTarget(TargetReconcile(w, d, pick, timedOut, k - 1), pick, timedOut)
  }

  ghost predicate DeletingWithClass(w: World, d: Name, policy: ReclaimPolicy) {
    && d in w.s.targets && w.s.targets[d].deleting && TargetFinalizer in w.s.targets[d].finalizers
    && ClassOf(w.s, w.s.targets[d].className).Some? && ClassOf(w.s, w.s.targets[d].className).value.policy == policy
  }

  // A deleting target under a Delete policy has its SpaceRequest protected, then deleted, and stays.
  lemma SpaceRequestIsDeleted(w: World, d: Name, r: Name, timedOut: bool)
    requires w.targetJob.TargetIdle? && DeletingWithClass(w, d, DeletePolicy)
    requires RequestsFor(w.s, d, w.s.targets[d], r) && w.s.requests[r].environmentTier && !w.s.requests[r].deleting
    requires !w.s.requests[r].ready.NoReadyCondition?
    ensures var q := w.s.requests[r];
            TargetReconcile(w, d, r, timedOut, 2) ==
              w.(s := w.s.(requests := w.s.requests[r := q.(finalizers := q.finalizers + {RequestFinalizer}, deleting := true)]))
  {
    var t, q := w.s.targets[d], w.s.requests[r];
    var q' := q.(finalizers := q.finalizers + {RequestFinalizer});
    assert HasSpace(w.s, d, t);
    assert RequestFinalizer in q.finalizers ==> q' == q;
    var s1 := w.s.(requests := w.s.requests[r := q']);
    assert RequestFinalizer in q.finalizers ==> s1.requests == w.s.requests;
    assert TargetReconcile(w, d, r, timedOut, 0) == w.(targetJob := TargetMain(d, t));
    assert TargetReconcile(w, d, r, timedOut, 1) == w.(s := s1, targetJob := TargetSpace(d, t, r, q'));
    assert s1.requests[r := q'.(deleting := true)] == w.s.requests[r := q'.(deleting := true)];
  }

  // While it is being deleted, only a termination failure that lasts makes the target Failed.
  lemma LastingFailureIsReported(w: World, d: Name, r: Name, timedOut: bool)
    requires w.targetJob.TargetIdle? && DeletingWithClass(w, d, DeletePolicy)
    requires RequestsFor(w.s, d, w.s.targets[d], r) && w.s.requests[r].environmentTier && w.s.requests[r].deleting
    requires RequestFinalizer in w.s.requests[r].finalizers && d in w.s.everTargets
    ensures var t, q := w.s.targets[d], w.s.requests[r];
            TargetReconcile(w, d, r, timedOut, 2) ==
              if timedOut && q.ready == ReadyFalse(true)
              then w.(s := w.s.(targets := w.s.targets[d := t.(phase := TargetFailed)]))
              else w
  {
    var t, q := w.s.targets[d], w.s.requests[r];
    assert HasSpace(w.s, d, t);
    assert w.s.everTargets + {d} == w.s.everTargets;
    assert TargetReconcile(w, d, r, timedOut, 0) == w.(targetJob := TargetMain(d, t));
    assert TargetReconcile(w, d, r, timedOut, 1) == w.(targetJob := TargetSpace(d, t, r, q));
    assert t.phase == TargetFailed ==> w.s.targets[d := t.(phase := TargetFailed)] == w.s.targets;
  }

  // The target goes with its last SpaceRequest; under a Retain policy it goes at once.
  lemma DeletedTargetGoes(w: World, d: Name, pick: Name, timedOut: bool)
    requires w.targetJob.TargetIdle? && d in w.s.everTargets
    requires DeletingWithClass(w, d, RetainPolicy) || (DeletingWithClass(w, d, DeletePolicy) && !HasSpace(w.s, d, w.s.targets[d]))
    ensures var t := w.s.targets[d];
            TargetReconcile(w, d, pick, timedOut, 1) ==
              w.(s := w.s.(targets := if t.finalizers == {TargetFinalizer} then w.s.targets - {d}
                                      else w.s.targets[d := t.(finalizers := t.finalizers - {TargetFinalizer})]))
  {
    var t := w.s.targets[d];
    assert w.s.everTargets + {d} == w.s.everTargets;
    assert TargetReconcile(w, d, pick, timedOut, 0) == w.(targetJob := TargetMain(d, t));
    assert t.finalizers - {TargetFinalizer} == {} <==> t.finalizers == {TargetFinalizer};
  }

  // Claim n is bound to target d, which was provisioned for it by SpaceRequest r under a Delete policy,
  // and nothing else has to do with d.
  ghost predicate Provided(w: World, n: Name, d: Name, r: Name) {
    && AtRest(w) && n in w.s.claims && d in w.s.targets && d in w.s.everTargets && r in w.s.requests
    && w.s.targets.Keys <= w.s.everTargets
    && IsBound(w.s.claims[n]) && w.s.claims[n].targetName == Some(d) && w.s.claims[n].finalizers == {Binder}
    && w.s.targets[d].claimRef == Some(n) && !w.s.targets[d].deleting && w.s.targets[d].finalizers == {}
    && ClassOf(w.s, w.s.targets[d].className).Some?
    && ClassOf(w.s, w.s.targets[d].className).value.policy == DeletePolicy
    && w.s.requests[r].environmentTier && !w.s.requests[r].deleting && !w.s.requests[r].ready.NoReadyCondition?
    && forall q :: q in w.s.requests ==> (LabelledWith(w.s, q, d) <==> q == r)
  }

  // The user deletes the claim, and it and its target are reconciled, the operator removing the
  // SpaceRequest in between.
  function Deprovisioning(w: World, n: Name, d: Name, r: Name): World {
    var released := Reconcile(Step(w, UserDeletesClaim(n)), n, None, r, 5);
    var removed := Step(TargetReconcile(released, d, r, false, 2), RequestChanges(r, None));
    TargetReconcile(removed, d, r, false, 1)
  }

  lemma DeletedClaimLetsGo(w: World, n: Name, d: Name, r: Name)
    requires Provided(w, n, d, r)
    ensures var t := w.s.targets[d].(claimRef := None, phase := TargetReleased, finalizers := {TargetFinalizer}, deleting := true);
            Reconcile(Step(w, UserDeletesClaim(n)), n, None, r, 5) ==
              w.(s := w.s.(claims := w.s.claims - {n}, targets := w.s.targets[d := t]))
  {
    var w1 := Step(w, UserDeletesClaim(n));
    var c := w.s.claims[n].(deleting := true);
    assert w1 == w.(s := w.s.(claims := w.s.claims[n := c]));
    BoundTargetIsReleased(w1, n, d, r);
    assert {} + {TargetFinalizer} == {TargetFinalizer};
    assert w.s.claims[n := c] - {n} == w.s.claims - {n};
  }

  lemma ReleasedTargetGoes(w: World, d: Name, r: Name)
    requires w.targetJob.TargetIdle? && DeletingWithClass(w, d, DeletePolicy) && d in w.s.everTargets
    requires w.s.targets[d].claimRef.None? && w.s.targets[d].finalizers == {TargetFinalizer}
    requires r in w.s.requests && w.s.requests[r].environmentTier && !w.s.requests[r].deleting
    requires !w.s.requests[r].ready.NoReadyCondition?
    requires forall q :: q in w.s.requests ==> (LabelledWith(w.s, q, d) <==> q == r)
    ensures var removed := Step(TargetReconcile(w, d, r, false, 2), RequestChanges(r, None));
            TargetReconcile(removed, d, r, false, 1) ==
              w.(s := w.s.(targets := w.s.targets - {d}, requests := w.s.requests - {r}))
  {
    SpaceRequestIsDeleted(w, d, r, false);
    var asked := TargetReconcile(w, d, r, false, 2);
    var removed := Step(asked, RequestChanges(r, None));
    assert asked.s.requests - {r} == w.s.requests - {r};
    assert forall q :: q in removed.s.requests ==> !LabelledWith(removed.s, q, d) by {
      forall q | q in removed.s.requests ensures !LabelledWith(removed.s, q, d) {
        assert q != r && !LabelledWith(w.s, q, d);
      }
    }
    DeletedTargetGoes(removed, d, r, false);
  }

  // Deleting the claim takes target and SpaceRequest away and leaves everything else alone.
  lemma DeprovisioningRemovesAll(w: World, n: Name, d: Name, r: Name)
    requires Provided(w, n, d, r)
    ensures Deprovisioning(w, n, d, r) ==
              w.(s := w.s.(claims := w.s.claims - {n}, targets := w.s.targets - {d}, requests := w.s.requests - {r}))
  {
    DeletedClaimLetsGo(w, n, d, r);
    var released := Reconcile(Step(w, UserDeletesClaim(n)), n, None, r, 5);
    assert forall q :: q in released.s.requests ==> (LabelledWith(released.s, q, d) <==> LabelledWith(w.s, q, d));
    ReleasedTargetGoes(released, d, r);
    assert released.s.targets - {d} == w.s.targets - {d};
  }

  // The round trip: a claim that is provisioned dynamically under a Delete policy, bound and deleted
  // leaves targets and SpaceRequests exactly as they were.
  lemma ProvisioningRoundTrip(w: World, n: Name, generated: Name, cls: Name)
    requires AtRest(w) && n in w.s.claims && generated !in w.s.requests && w.s.targets.Keys <= w.s.everTargets
    requires cls in w.s.classes && w.s.classes[cls] == Class(DeletePolicy, true)
    requires var c := w.s.claims[n];
             && !c.deleting && !c.bindComplete && c.targetName.None? && c.className == Some(cls)
             && c.phase == ClaimNoPhase && c.finalizers <= {Binder} && NoCandidate(w.s, n, c)
    requires forall r :: r in w.s.requests ==>
               (ClaimedBy(w.s, r, n) ==> !w.s.requests[r].environmentTier) && !LabelledWith(w.s, r, TargetNameFor(n))
    requires TargetNameFor(n) !in w.s.targets && forall d :: d in w.s.targets ==> w.s.targets[d].claimRef != Some(n)
    ensures var d := TargetNameFor(n);
            Deprovisioning(Provisioning(w, n, generated, cls), n, d, generated) ==
              w.(s := w.s.(claims := w.s.claims - {n}, everTargets := w.s.everTargets + {d}))
  {
    var d := TargetNameFor(n);
    DynamicProvisioningBinds(w, n, generated, cls);
    var bound := Provisioning(w, n, generated, cls);
    assert w.s.claims[n].finalizers + {Binder} == {Binder};
    forall q | q in bound.s.requests ensures LabelledWith(bound.s, q, d) <==> q == generated {
      if q != generated {
        assert q in w.s.requests && !LabelledWith(w.s, q, d);
      }
    }
    DeprovisioningRemovesAll(bound, n, d, generated);
    assert bound.s.claims - {n} == w.s.claims - {n};
    assert bound.s.targets - {d} == w.s.targets;
    assert bound.s.requests - {generated} == w.s.requests;
  }
}
