// What reconciles of targets and of SpaceRequests come to, told by the fields of the objects.
module TargetOutcomes {
  import opened Wrappers
  import opened DeploymentTargets
  import opened ClaimProtocol
  import opened ClaimProvisioning

  function WithTarget(w: World, d: Name, t: Target): World {
    w.(s := w.s.(targets := w.s.targets[d := t]))
  }

  function WithRequest(w: World, r: Name, q: SpaceRequest): World {
    w.(s := w.s.(requests := w.s.requests[r := q]))
  }

  // The class of target d says Retain, or Delete.
  ghost predicate Says(s: Cluster, d: Name, policy: ReclaimPolicy) {
    && d in s.targets && s.targets[d].className.Some? && s.targets[d].className.value in s.classes
    && s.classes[s.targets[d].className.value].policy == policy
  }

  ghost predicate TargetAtRest(w: World, d: Name) {
    w.targetJob.TargetIdle? && d in w.s.targets && d in w.s.everTargets
  }

  // ---- targets ----

  // A target that is not being deleted gets its finalizer; it loses its reference exactly if its
  // class says Retain and the claim that it references is gone.
  lemma LiveTargetIsFreedIff(w: World, d: Name, pick: Name, timedOut: bool)
    requires TargetAtRest(w, d) && !w.s.targets[d].deleting
    ensures var t := w.s.targets[d].(finalizers := w.s.targets[d].finalizers + {TargetFinalizer});
            TargetReconcile(w, d, pick, timedOut, 2) ==
              if Says(w.s, d, RetainPolicy) && t.claimRef.Some? && t.claimRef.value !in w.s.claims
              then WithTarget(w, d, t.(claimRef := None)) else WithTarget(w, d, t)
  {
    var t := w.s.targets[d].(finalizers := w.s.targets[d].finalizers + {TargetFinalizer});
    assert w.s.everTargets + {d} == w.s.everTargets;
    assert TargetFinalizer in w.s.targets[d].finalizers ==> t == w.s.targets[d] && w.s.targets[d := t] == w.s.targets;
    var w0 := WithTarget(w, d, t).(targetJob := TargetMain(d, t));
    assert TargetReconcile(w, d, pick, timedOut, 0) == w0;
    assert w.s.targets[d := t][d := t.(claimRef := None)] == w.s.targets[d := t.(claimRef := None)];
    assert TargetReconcile(w, d, pick, timedOut, 1) == StepTarget(w0, pick, timedOut);
  }

  // A request of the environment tier that stands for target d: labelled with it, or, if none is,
  // with the claim that it references.
  ghost predicate StandsFor(s: Cluster, r: Name, d: Name) {
    && d in s.targets && r in s.requests && s.requests[r].environmentTier
    && (s.requests[r].targetLabel == Some(d)
        || (&& (forall x :: x in s.requests ==> s.requests[x].targetLabel != Some(d))
            && s.targets[d].claimRef.Some? && s.requests[r].claimLabel == s.targets[d].claimRef))
  }

  lemma RequestsStand(s: Cluster, d: Name, r: Name)
    requires d in s.targets
    ensures StandsFor(s, r, d) <==> RequestsFor(s, d, s.targets[d], r) && s.requests[r].environmentTier
  {
    if x :| x in s.requests && s.requests[x].targetLabel == Some(d) {
      assert LabelledWith(s, x, d);
    }
    if x :| x in s.requests && LabelledWith(s, x, d) {
      assert s.requests[x].targetLabel == Some(d);
    }
  }

  // A deleted target loses its finalizer, and goes with its last one, exactly if its class says Retain,
  // or says Delete and no request stands for it any more.
  lemma DeletedTargetGoesIff(w: World, d: Name, pick: Name, timedOut: bool)
    requires TargetAtRest(w, d) && w.s.targets[d].deleting && !(Says(w.s, d, DeletePolicy) && exists r :: StandsFor(w.s, r, d))
    ensures var t := w.s.targets[d];
            TargetReconcile(w, d, pick, timedOut, 2) ==
              if TargetFinalizer !in t.finalizers || !(Says(w.s, d, RetainPolicy) || Says(w.s, d, DeletePolicy)) then w
              else if t.finalizers == {TargetFinalizer} then w.(s := w.s.(targets := w.s.targets - {d}))
              else WithTarget(w, d, t.(finalizers := t.finalizers - {TargetFinalizer}))
  {
    var t := w.s.targets[d];
    forall r ensures StandsFor(w.s, r, d) <==> RequestsFor(w.s, d, t, r) && w.s.requests[r].environmentTier {
      RequestsStand(w.s, d, r);
    }
    assert HasSpace(w.s, d, t) ==> exists r :: StandsFor(w.s, r, d);
    assert w.s.everTargets + {d} == w.s.everTargets;
    assert t.finalizers - {TargetFinalizer} == {} && TargetFinalizer in t.finalizers <==> t.finalizers == {TargetFinalizer};
    assert TargetReconcile(w, d, pick, timedOut, 1) == StepTarget(BeginTarget(w, d), pick, timedOut);
  }

  // A deleted target whose class says Delete waits for the request r that stands for it. The request is
  // protected; one that has reported on itself is deleted; and when it has reported that it cannot be
  // terminated, and the time is up, the target is Failed.
  lemma DeletedTargetWaits(w: World, d: Name, r: Name, timedOut: bool)
    requires TargetAtRest(w, d) && w.s.targets[d].deleting && TargetFinalizer in w.s.targets[d].finalizers
    requires Says(w.s, d, DeletePolicy) && StandsFor(w.s, r, d)
    ensures var t, q := w.s.targets[d], w.s.requests[r];
            var q' := q.(finalizers := q.finalizers + {RequestFinalizer});
            TargetReconcile(w, d, r, timedOut, 2) ==
              if q.deleting && RequestFinalizer !in q.finalizers then w
              else if q.ready == NoReadyCondition then WithRequest(w, r, q')
              else if !q.deleting then WithRequest(w, r, q'.(deleting := true))
              else if timedOut && q.ready == ReadyFalse(true) then WithTarget(w, d, t.(phase := TargetFailed))
              else w
  {
    var t, q := w.s.targets[d], w.s.requests[r];
    var q' := q.(finalizers := q.finalizers + {RequestFinalizer});
    RequestsStand(w.s, d, r);
    assert HasSpace(w.s, d, t);
    assert w.s.everTargets + {d} == w.s.everTargets;
    assert RequestFinalizer in q.finalizers ==> q' == q && w.s.requests[r := q'] == w.s.requests;
    assert TargetReconcile(w, d, r, timedOut, 0) == w.(targetJob := TargetMain(d, t));
    var w1 := TargetReconcile(w, d, r, timedOut, 1);
    if !(q.deleting && RequestFinalizer !in q.finalizers) {
      assert w1 == WithRequest(w, r, q').(targetJob := TargetSpace(d, t, r, q'));
      assert w.s.requests[r := q'][r := q'.(deleting := true)] == w.s.requests[r := q'.(deleting := true)];
      assert t.phase == TargetFailed ==> w.s.targets[d := t.(phase := TargetFailed)] == w.s.targets;
    }
  }

  // ---- SpaceRequests ----

  // A request that can have a target: not being deleted, of a claim, under a dev sandbox class, ready,
  // and with one namespace.
  ghost predicate Usable(s: Cluster, r: Name, cls: Name) {
    && r in s.requests && !s.requests[r].deleting && s.requests[r].claimLabel.Some?
    && cls in s.classes && s.classes[cls].devsandbox
    && s.requests[r].ready == ReadyTrue && s.requests[r].namespaces == 1
  }

  // The request of a claim that is gone, under a dev sandbox class that says Delete.
  ghost predicate Abandoned(s: Cluster, r: Name, cls: Name) {
    && r in s.requests && !s.requests[r].deleting
    && s.requests[r].claimLabel.Some? && s.requests[r].claimLabel.value !in s.claims
    && cls in s.classes && s.classes[cls].devsandbox && s.classes[cls].policy == DeletePolicy
  }

  ghost predicate HasLabelledTarget(s: Cluster, r: Name) {
    r in s.requests && s.requests[r].targetLabel.Some? && s.requests[r].targetLabel.value in s.targets
  }

  // A request that is neither abandoned nor usable is left alone; an abandoned one is deleted.
  lemma RequestIsDeletedIff(w: World, r: Name, cls: Name, pick: Option<Name>, credentials: bool)
    requires w.requestJob.RequestIdle? && r in w.s.requests && (Abandoned(w.s, r, cls) || !Usable(w.s, r, cls))
    ensures var q := w.s.requests[r];
            RequestReconcile(w, r, cls, pick, credentials) ==
              if !Abandoned(w.s, r, cls) then w
              else if q.finalizers == {} then w.(s := w.s.(requests := w.s.requests - {r}))
              else WithRequest(w, r, q.(deleting := true))
  {
  }

  // A usable request is labelled with the target of its claim, which is created if there is none:
  // available, of the claim's class, referencing the claim and with the credentials of the request.
  // `pick` is the first target that references the claim; None if there is none.
  lemma UsableRequestGetsTarget(w: World, r: Name, cls: Name, pick: Option<Name>, credentials: bool)
    requires w.requestJob.RequestIdle? && Usable(w.s, r, cls) && !Abandoned(w.s, r, cls)
    requires w.s.targets.Keys <= w.s.everTargets
    ensures var q := w.s.requests[r]; var n := q.claimLabel.value; var w' := RequestReconcile(w, r, cls, pick, credentials);
            if HasLabelledTarget(w.s, r) || n !in w.s.claims then w' == w
            else
              match pick
              case Some(d) =>
                w' == if d in w.s.targets && w.s.targets[d].claimRef == Some(n) then WithRequest(w, r, q.(targetLabel := Some(d))) else w
              case None =>
                var d := Name(n.text + "-dt");
                w' == if d in w.s.targets || (exists x :: x in w.s.targets && w.s.targets[x].claimRef == Some(n)) then w
                      else
                        var t := Target(w.s.claims[n].className, Some(n), credentials, TargetAvailable, {}, false);
                        WithRequest(w, r, q.(targetLabel := Some(d))).(s :=
                          w.s.(targets := w.s.targets[d := t], everTargets := w.s.everTargets + {d},
                               requests := w.s.requests[r := q.(targetLabel := Some(d))]))
  {
    var q := w.s.requests[r];
    var n := q.claimLabel.value;
    assert forall d :: q.targetLabel == Some(d) ==> w.s.requests[r := q.(targetLabel := Some(d))] == w.s.requests;
    if !HasLabelledTarget(w.s, r) && n in w.s.claims && pick.None? && TargetNameFor(n) !in w.s.targets
       && forall x :: x in w.s.targets ==> w.s.targets[x].claimRef != Some(n) {
      TargetIsCreated(w, n, r, cls, credentials);
    }
  }
}
