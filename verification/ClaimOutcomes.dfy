// What reconciles of claims come to, told by the fields of the claim and of the targets, and which
// targets are ever named, for every run of the protocol.
module ClaimOutcomes {
  import opened Wrappers
  import opened DeploymentTargets
  import opened ClaimProtocol
  import opened ClaimProgress
  import opened ClaimProvisioning

  // ---- a claim that names no target ----

  function Protected(c: Claim): Claim {
    c.(finalizers := c.finalizers + {Binder})
  }

  function Settling(w: World, n: Name, c: Claim): World {
    w.(s := w.s.(claims := w.s.claims[n := c]))
  }

  lemma {:induction false} RestIsStill(w: World, n: Name, pick: Option<Name>, generated: Name, k: nat, m: nat)
    requires k <= m
    requires StepClaim(Reconcile(w, n, pick, generated, k), pick, generated) == Reconcile(w, n, pick, generated, k)
    ensures Reconcile(w, n, pick, generated, m) == Reconcile(w, n, pick, generated, k)
  {
    if k < m {
      RestIsStill(w, n, pick, generated, k, m - 1);
    }
  }

  // The claim is free to search for a target.
  ghost predicate Searches(w: World, n: Name) {
    && w.claimJob.Idle? && n in w.s.claims && w.s.targets.Keys <= w.s.everTargets
    && (forall d :: d in w.s.targets ==> IsKept(w.s.targets[d]))
    && !w.s.claims[n].deleting && !w.s.claims[n].bindComplete && NothingToProvision(w.s, n, w.s.claims[n])
  }

  lemma WrongPickIsStuck(w: World, n: Name, pick: Option<Name>, generated: Name)
    requires Searches(w, n) && w.s.claims[n].targetName == None
    requires match pick
             case Some(d) => !Suits(w.s, n, w.s.claims[n], d)
             case None => exists d :: Suits(w.s, n, w.s.claims[n], d)
    ensures Reconcile(w, n, pick, generated, 5) ==
              Settling(w, n, Protected(w.s.claims[n])).(claimJob := Provisioned(n, Protected(w.s.claims[n])))
  {
    GetsToSearch(w, n, pick, generated);
    var w1, c := Reconcile(w, n, pick, generated, 1), Protected(w.s.claims[n]);
    CandidatesSuit(w1.s, n, c);
    assert forall d :: Suits(w1.s, n, c, d) <==> Suits(w.s, n, w.s.claims[n], d);
    assert FindTarget(w1, n, c, pick) == w1;
    RestIsStill(w, n, pick, generated, 1, 5);
  }

  lemma NoneIsPending(w: World, n: Name, generated: Name)
    requires Searches(w, n) && w.s.claims[n].targetName == None && forall d :: !Suits(w.s, n, w.s.claims[n], d)
    ensures var c := Protected(w.s.claims[n]);
            Reconcile(w, n, None, generated, 5) ==
              Settling(w, n, c.(phase := ClaimPending, provisioner := if c.className.Some? then c.className else c.provisioner))
  {
    CandidatesSuit(w.s, n, w.s.claims[n]);
    if w.s.claims[n].className.Some? {
      ClaimIsMarked(w, n, generated);
      RestIsStill(w, n, None, generated, 3, 5);
    } else {
      ClasslessIsPending(w, n, generated);
      RestIsStill(w, n, None, generated, 2, 5);
    }
  }

  lemma ClasslessIsPending(w: World, n: Name, generated: Name)
    requires Searches(w, n) && w.s.claims[n].targetName == None && forall d :: !Suits(w.s, n, w.s.claims[n], d)
    requires w.s.claims[n].className.None?
    ensures Reconcile(w, n, None, generated, 2) == Settling(w, n, Protected(w.s.claims[n]).(phase := ClaimPending))
  {
    GetsToSearch(w, n, None, generated);
    var w1, c := Reconcile(w, n, None, generated, 1), Protected(w.s.claims[n]);
    CandidatesSuit(w1.s, n, c);
    assert forall d :: Suits(w1.s, n, c, d) <==> Suits(w.s, n, w.s.claims[n], d);
    assert Reconcile(w, n, None, generated, 2) == SetClaimPhase(w1, n, c, ClaimPending, Idle);
    assert w1.s.claims[n := c.(phase := ClaimPending)] == w.s.claims[n := c.(phase := ClaimPending)];
    assert c.phase == ClaimPending ==> c.(phase := ClaimPending) == c;
  }

  // An uninterrupted reconcile of a claim that names no target ends with the claim bound to d exactly
  // if d suits it and the search yields d. The search yields a target exactly if one suits; without
  // one the reconcile ends with the claim unbound and Pending, and marked for provisioning if it has a
  // class. Nothing else is touched.
  lemma SearchBindsIff(w: World, n: Name, pick: Option<Name>, generated: Name)
    requires Searches(w, n) && w.s.claims[n].targetName == None
    ensures var c, w' := Protected(w.s.claims[n]), Reconcile(w, n, pick, generated, 5);
            match pick
            case Some(d) =>
              && (w'.claimJob.Idle? <==> Suits(w.s, n, w.s.claims[n], d))
              && (w'.claimJob.Idle? ==>
                   w' == w.(s := w.s.(
                     claims := w.s.claims[n := c.(targetName := Some(d), boundByController := true, phase := ClaimBound,
                                                  bindComplete := true)],
                     targets := w.s.targets[d := w.s.targets[d].(phase := TargetBound)])))
            case None =>
              && (w'.claimJob.Idle? <==> forall d :: !Suits(w.s, n, w.s.claims[n], d))
              && (w'.claimJob.Idle? ==>
                   w' == Settling(w, n, c.(phase := ClaimPending,
                                           provisioner := if c.className.Some? then c.className else c.provisioner)))
  {
    CandidatesSuit(w.s, n, w.s.claims[n]);
    match pick
    case Some(d) =>
      if Suits(w.s, n, w.s.claims[n], d) {
        FreeTargetIsBound(w, n, d, generated);
      } else {
        WrongPickIsStuck(w, n, pick, generated);
      }
    case None =>
      if d :| Suits(w.s, n, w.s.claims[n], d) {
        WrongPickIsStuck(w, n, pick, generated);
      } else {
        NoneIsPending(w, n, generated);
      }
  }

  // ---- provisioning ----

  // The claim is Pending, marked for provisioning, and names a class.
  ghost predicate AsksForSpace(c: Claim) {
    c.phase == ClaimPending && c.provisioner.Some? && c.className.Some?
  }

  ghost predicate HasRequest(s: Cluster, n: Name) {
    exists r :: r in s.requests && s.requests[r].claimLabel == Some(n) && s.requests[r].environmentTier
  }

  // What comes first in the reconcile of a claim that is not being deleted: one that asks for space of a
  // class that is not there is given up for now; one whose class is of the dev sandbox gets a
  // SpaceRequest unless it has one; any other goes on at once.
  lemma ProvisioningDecides(w: World, n: Name, pick: Option<Name>, generated: Name)
    requires w.claimJob.Idle? && n in w.s.claims && !w.s.claims[n].deleting
    ensures var c, w' := Protected(w.s.claims[n]), Reconcile(w, n, pick, generated, 1);
            var goesOn := Settling(w, n, c).(claimJob := Provisioned(n, c));
            if !AsksForSpace(c) then w' == goesOn
            else if c.className.value !in w.s.classes then w' == Settling(w, n, c)
            else if !w.s.classes[c.className.value].devsandbox || HasRequest(w.s, n) then w' == goesOn
            else if generated in w.s.requests then w' == Settling(w, n, c)
            else
              w' == goesOn.(s := goesOn.s.(requests := w.s.requests[
                generated := SpaceRequest(true, Some(n), None, NoReadyCondition, 0, {}, false)]))
  {
    FinalizerIsAdded(w, n);
    var w0 := BeginClaim(w, n);
    assert Reconcile(w, n, pick, generated, 1) == StepClaim(w0, pick, generated);
    if r :| r in w.s.requests && ClaimedBy(w0.s, r, n) && w.s.requests[r].environmentTier {
      assert w.s.requests[r].claimLabel == Some(n);
    }
    if r :| r in w.s.requests && w.s.requests[r].claimLabel == Some(n) && w.s.requests[r].environmentTier {
      assert ClaimedBy(w0.s, r, n);
    }
  }

  // ---- a claim that names its target ----

  // The claim can have the target that it names: one that references it, or one that is free, usable,
  // of its class and unreferenced.
  ghost predicate MayHave(s: Cluster, n: Name, c: Claim, d: Name) {
    && d in s.targets
    && (s.targets[d].claimRef == Some(n)
        || (&& s.targets[d].claimRef == None && s.targets[d].className == c.className && s.targets[d].hasCredentials
            && (s.targets[d].phase == TargetNoPhase || s.targets[d].phase == TargetAvailable)))
  }

  // An uninterrupted reconcile of a claim that names target d ends with the two bound exactly if it
  // may have it. Otherwise the claim ends Pending if there is no such target or it references another
  // claim, and as it was, apart from its finalizer, if it references none.
  lemma NamedTargetIsBoundIff(w: World, n: Name, d: Name, generated: Name)
    requires Searches(w, n) && w.s.claims[n].targetName == Some(d)
    ensures var c, w' := Protected(w.s.claims[n]), Reconcile(w, n, None, generated, 5);
            if MayHave(w.s, n, w.s.claims[n], d) then
              w' == w.(s := w.s.(claims := w.s.claims[n := c.(phase := ClaimBound, bindComplete := true)],
                                 targets := w.s.targets[d := w.s.targets[d].(phase := TargetBound)]))
            else if d !in w.s.targets || w.s.targets[d].claimRef != None then w' == Settling(w, n, c.(phase := ClaimPending))
            else w' == Settling(w, n, c)
  {
    GetsToSearch(w, n, None, generated);
    var w1, c := Reconcile(w, n, None, generated, 1), Protected(w.s.claims[n]);
    if MayHave(w.s, n, w.s.claims[n], d) {
      NamedTargetIsTaken(w, n, d, generated);
    } else if d !in w.s.targets || w.s.targets[d].claimRef != None {
      ClaimWaitsForNamedTarget(w, n, d, generated);
      RestIsStill(w, n, None, generated, 2, 5);
    } else {
      assert Reconcile(w, n, None, generated, 2) == Cut(w1);
      RestIsStill(w, n, None, generated, 2, 5);
    }
  }

  lemma NamedTargetIsTaken(w: World, n: Name, d: Name, generated: Name)
    requires Searches(w, n) && w.s.claims[n].targetName == Some(d) && MayHave(w.s, n, w.s.claims[n], d)
    ensures Reconcile(w, n, None, generated, 5) ==
              w.(s := w.s.(claims := w.s.claims[n := Protected(w.s.claims[n]).(phase := ClaimBound, bindComplete := true)],
                           targets := w.s.targets[d := w.s.targets[d].(phase := TargetBound)]))
  {
    GetsToSearch(w, n, None, generated);
    var w1, c, t := Reconcile(w, n, None, generated, 1), Protected(w.s.claims[n]), w.s.targets[d];
    var w2 := w1.(claimJob := BindClaim(n, c, d, t));
    assert Reconcile(w, n, None, generated, 2) == w2;
    NamedTargetIsBound(w2, n, c, d, t, None, generated);
    assert Reconcile(w, n, None, generated, 3) == StepClaim(w2, None, generated);
    assert Reconcile(w, n, None, generated, 4) == StepClaim(Reconcile(w, n, None, generated, 3), None, generated);
    var c' := c.(phase := ClaimBound, bindComplete := true);
    assert w2.s.claims[n := c'] == w.s.claims[n := c'];
  }

  // A claim that is done binding stays as it is, up to its annotation, while the target it names
  // references another claim.
  lemma ConflictChangesNothing(w: World, n: Name, d: Name, generated: Name)
    requires w.claimJob.Idle? && n in w.s.claims && d in w.s.targets
    requires var c := w.s.claims[n];
             !c.deleting && c.bindComplete && c.targetName == Some(d) && NothingToProvision(w.s, n, c)
    requires w.s.targets[d].claimRef != None && w.s.targets[d].claimRef != Some(n)
    ensures Reconcile(w, n, None, generated, 3) == Settling(w, n, Annotated(Protected(w.s.claims[n])))
  {
    GetsToSearch(w, n, None, generated);
    var w1, c := Reconcile(w, n, None, generated, 1), Protected(w.s.claims[n]);
    assert w1.s.claims[n := Annotated(c)] == w.s.claims[n := Annotated(c)];
    assert Reconcile(w, n, None, generated, 2) == Settling(w, n, Annotated(c)).(claimJob := HandleBound(n, Annotated(c)));
  }

  // Target d, and no other, references the claim.
  ghost predicate OnlyReference(s: Cluster, n: Name, d: Name) {
    d in s.targets && s.targets[d].claimRef == Some(n)
    && forall e :: e in s.targets && s.targets[e].claimRef == Some(n) ==> e == d
  }

  lemma ReferencesDecide(s: Cluster, n: Name, c: Claim)
    requires c.targetName == None
    ensures forall d :: OnlyReference(s, n, d) ==> BoundTarget(s, n, c) == Found(d)
    ensures (forall d :: d in s.targets ==> s.targets[d].claimRef != Some(n)) ==> BoundTarget(s, n, c) == Absent
    ensures (exists d, e :: d in s.targets && e in s.targets && d != e
               && s.targets[d].claimRef == Some(n) && s.targets[e].claimRef == Some(n)) ==> BoundTarget(s, n, c) == LookupError
  {
    var referencing := set d | d in s.targets && s.targets[d].claimRef == Some(n);
    forall d | OnlyReference(s, n, d) ensures BoundTarget(s, n, c) == Found(d) {
      assert referencing == {d};
    }
    if d, e :| d in s.targets && e in s.targets && d != e
               && s.targets[d].claimRef == Some(n) && s.targets[e].claimRef == Some(n) {
      RetainsTwo(referencing, d, e);
    }
  }

  lemma RetainsTwo(names: set<Name>, d: Name, e: Name)
    requires d in names && e in names && d != e
    ensures |names| > 1
  {
    assert names == {d, e} + (names - {d, e});
  }

  lemma FollowsReference(w: World, n: Name, c: Claim, generated: Name)
    requires w.claimJob == HandleBound(n, c) && ClaimUnchanged(w.s, n, c) && w.s.targets.Keys <= w.s.everTargets && !c.deleting
    requires forall e :: e in w.s.targets ==> IsKept(w.s.targets[e])
    ensures var w' := StepClaim(StepClaim(w, None, generated), None, generated);
            match BoundTarget(w.s, n, c)
            case Absent => w' == Settling(w, n, c.(phase := ClaimLost)).(claimJob := Idle)
            case LookupError => w' == Cut(w)
            case Found(d) =>
              d in w.s.targets ==>
                w' == w.(s := w.s.(claims := w.s.claims[n := c.(phase := ClaimBound)],
                                   targets := w.s.targets[d := w.s.targets[d].(phase := TargetBound)]), claimJob := Idle)
  {
    match BoundTarget(w.s, n, c)
    case Found(d) =>
      if d in w.s.targets {
        var t := w.s.targets[d];
        var s1 := w.s.(targets := w.s.targets[d := t.(phase := TargetBound)]);
        assert w.s.everTargets + {d} == w.s.everTargets;
        assert t.phase == TargetBound ==> s1.targets == w.s.targets;
        assert StepClaim(w, None, generated) == w.(s := s1, claimJob := RepeatClaimBound(n, c));
        assert c.phase == ClaimBound ==> w.s.claims[n := c.(phase := ClaimBound)] == w.s.claims;
      }
    case _ =>
      assert c.phase == ClaimLost ==> w.s.claims[n := c.(phase := ClaimLost)] == w.s.claims;
  }

  // The claim is done binding, and names no target.
  ghost predicate Unnamed(w: World, n: Name) {
    && w.claimJob.Idle? && n in w.s.claims && w.s.targets.Keys <= w.s.everTargets
    && !w.s.claims[n].deleting && w.s.claims[n].bindComplete && w.s.claims[n].targetName == None
    && NothingToProvision(w.s, n, w.s.claims[n])
    && forall e :: e in w.s.targets ==> IsKept(w.s.targets[e])
  }

  lemma UnnamedGoes(w: World, n: Name, generated: Name)
    requires Unnamed(w, n)
    ensures var c, w' := Annotated(Protected(w.s.claims[n])), Reconcile(w, n, None, generated, 4);
            match BoundTarget(w.s, n, w.s.claims[n])
            case Absent => w' == Settling(w, n, c.(phase := ClaimLost))
            case LookupError => w' == Settling(w, n, c)
            case Found(d) =>
              d in w.s.targets ==>
                w' == w.(s := w.s.(claims := w.s.claims[n := c.(phase := ClaimBound)],
                                   targets := w.s.targets[d := w.s.targets[d].(phase := TargetBound)]))
  {
    GetsToSearch(w, n, None, generated);
    var w1, c := Reconcile(w, n, None, generated, 1), Annotated(Protected(w.s.claims[n]));
    assert w1.s.claims[n := c] == w.s.claims[n := c];
    var w2 := Settling(w, n, c).(claimJob := HandleBound(n, c));
    assert Reconcile(w, n, None, generated, 2) == w2;
    assert Reconcile(w, n, None, generated, 3) == StepClaim(w2, None, generated);
    FollowsReference(w2, n, c, generated);
    assert BoundTarget(w2.s, n, c) == BoundTarget(w.s, n, w.s.claims[n]);
    assert w2.s.claims[n := c.(phase := ClaimBound)] == w.s.claims[n := c.(phase := ClaimBound)];
    assert w2.s.claims[n := c.(phase := ClaimLost)] == w.s.claims[n := c.(phase := ClaimLost)];
  }

  // A claim that is done binding and names no target follows the only one that references it: both
  // are Bound again. Without one it is Lost, and with several it stays, up to its annotation.
  lemma ReferenceIsFollowed(w: World, n: Name, generated: Name)
    requires Unnamed(w, n)
    ensures var c, w' := Annotated(Protected(w.s.claims[n])), Reconcile(w, n, None, generated, 4);
            && (forall d :: OnlyReference(w.s, n, d) ==>
                 w' == w.(s := w.s.(claims := w.s.claims[n := c.(phase := ClaimBound)],
                                    targets := w.s.targets[d := w.s.targets[d].(phase := TargetBound)])))
            && ((forall e :: e in w.s.targets ==> w.s.targets[e].claimRef != Some(n)) ==>
                 w' == Settling(w, n, c.(phase := ClaimLost)))
            && ((exists e, f :: e in w.s.targets && f in w.s.targets && e != f
                   && w.s.targets[e].claimRef == Some(n) && w.s.targets[f].claimRef == Some(n)) ==> w' == Settling(w, n, c))
  {
    UnnamedGoes(w, n, generated);
    ReferencesDecide(w.s, n, w.s.claims[n]);
  }

  // ---- a claim that is being deleted ----

  // A deleted claim that is not done binding, or not Bound, lets go at once and touches no target.
  lemma UnboundClaimLetsGo(w: World, n: Name, pick: Option<Name>, generated: Name)
    requires w.claimJob.Idle? && n in w.s.claims && w.s.claims[n].deleting && Binder in w.s.claims[n].finalizers
    requires !w.s.claims[n].bindComplete || w.s.claims[n].phase != ClaimBound
    ensures var c := w.s.claims[n];
            Reconcile(w, n, pick, generated, 2) ==
              w.(s := w.s.(claims := if c.finalizers == {Binder} then w.s.claims - {n}
                                     else w.s.claims[n := c.(finalizers := c.finalizers - {Binder})]))
  {
    var c := w.s.claims[n];
    assert Reconcile(w, n, pick, generated, 0) == w.(claimJob := Main(n, c));
    assert Reconcile(w, n, pick, generated, 1) == w.(claimJob := DropFinalizer(n, c, None));
    assert c.finalizers - {Binder} == {} <==> c.finalizers == {Binder};
  }

  // The target that a deleted claim names can be let go: it references no other claim, its class is
  // there, and it has its finalizer or can still get it.
  ghost predicate Releasable(s: Cluster, n: Name, d: Name) {
    && d in s.targets
    && (s.targets[d].claimRef == None || s.targets[d].claimRef == Some(n))
    && s.targets[d].className.Some? && s.targets[d].className.value in s.classes
    && (s.targets[d].deleting ==> TargetFinalizer in s.targets[d].finalizers)
  }

  // An uninterrupted reconcile of a deleted claim that is Bound to the target it names takes its
  // finalizer exactly if the target is gone or is let go. Then the target is unreferenced, Released,
  // protected by its finalizer, and deleted if it was or its class says Delete; otherwise both stay
  // as they are.
  lemma BoundClaimLetsGoIff(w: World, n: Name, d: Name, generated: Name)
    requires w.claimJob.Idle? && n in w.s.claims && w.s.targets.Keys <= w.s.everTargets
    requires w.s.claims[n].deleting && Binder in w.s.claims[n].finalizers
    requires w.s.claims[n].bindComplete && w.s.claims[n].phase == ClaimBound && w.s.claims[n].targetName == Some(d)
    ensures var c, w' := w.s.claims[n], Reconcile(w, n, None, generated, 5);
            var claims := if c.finalizers == {Binder} then w.s.claims - {n}
                          else w.s.claims[n := c.(finalizers := c.finalizers - {Binder})];
            if d !in w.s.targets then w' == w.(s := w.s.(claims := claims))
            else if Releasable(w.s, n, d) then
              var t := w.s.targets[d];
              w' == w.(s := w.s.(
                claims := claims,
                targets := w.s.targets[d := t.(claimRef := None, phase := TargetReleased,
                                               finalizers := t.finalizers + {TargetFinalizer},
                                               deleting := t.deleting || w.s.classes[t.className.value].policy == DeletePolicy)]))
            else w' == w
  {
    var c := w.s.claims[n];
    assert Reconcile(w, n, None, generated, 0) == w.(claimJob := Main(n, c));
    if d !in w.s.targets {
      assert Reconcile(w, n, None, generated, 1) == w.(claimJob := DropFinalizer(n, c, None));
      assert c.finalizers - {Binder} == {} <==> c.finalizers == {Binder};
      RestIsStill(w, n, None, generated, 2, 5);
    } else if Releasable(w.s, n, d) {
      BoundTargetIsReleased(w, n, d, generated);
    } else {
      assert Reconcile(w, n, None, generated, 1) == w;
      RestIsStill(w, n, None, generated, 1, 5);
    }
  }

  // ---- every run ----

  ghost predicate SameName(s: Cluster, s': Cluster, n: Name) {
    n in s.claims && n in s'.claims ==> s'.claims[n].targetName == s.claims[n].targetName
  }

  lemma WriteKeepsName(w: World, n: Name, c: Claim, c': Claim, next: ClaimJob, m: Name)
    requires c'.targetName == c.targetName
    ensures SameName(w.s, WriteClaim(w, n, c, c', next).s, m)
  {
  }

  lemma PhaseKeepsName(w: World, n: Name, c: Claim, phase: ClaimPhase, next: ClaimJob, m: Name)
    ensures SameName(w.s, SetClaimPhase(w, n, c, phase, next).s, m)
  {
  }

  // All steps of the claim worker but the search for a target.
  lemma OtherStepsKeepName(w: World, pick: Option<Name>, generated: Name, m: Name)
    requires !w.claimJob.Provisioned?
    ensures SameName(w.s, StepClaim(w, pick, generated).s, m)
  {
    match w.claimJob
    case HandleBound(n, c) => PhaseKeepsName(w, n, c, ClaimLost, Idle, m);
    case RepeatClaimBound(n, c) => PhaseKeepsName(w, n, c, ClaimBound, Idle, m);
    case AwaitProvisioner(n, c) => PhaseKeepsName(w, n, c, ClaimPending, Idle, m);
    case BindClaim(n, c, d, t) => PhaseKeepsName(w, n, c, ClaimBound, BindTarget(n, c.(phase := ClaimBound), d, t), m);
    case Annotate(n, c, d) => WriteKeepsName(w, n, c, c.(bindComplete := true), Idle, m);
    case DropFinalizer(n, c, released) => WriteKeepsName(w, n, c, c.(finalizers := c.finalizers - {Binder}), Idle, m);
    case _ =>
  }

  // What a search writes is a target that suits at that moment.
  ghost predicate NamesSuited(s: Cluster, s': Cluster, n: Name) {
    n in s.claims && n in s'.claims && s'.claims[n].targetName != s.claims[n].targetName ==>
      && s.claims[n].targetName == None && !s.claims[n].bindComplete
      && s'.claims[n].targetName.Some? && Suits(s, n, s.claims[n], s'.claims[n].targetName.value)
  }

  lemma SearchNamesSuited(w: World, n: Name, c: Claim, pick: Option<Name>, m: Name)
    requires c.targetName == None && !c.bindComplete
    ensures NamesSuited(w.s, FindTarget(w, n, c, pick).s, m)
  {
    CandidatesSuit(w.s, n, c);
    if pick.None? {
      PhaseKeepsName(w, n, c, ClaimPending, Idle, m);
    }
  }

  lemma ProvisionedNamesSuited(w: World, n: Name, c: Claim, pick: Option<Name>, generated: Name, m: Name)
    requires w.claimJob == Provisioned(n, c)
    ensures NamesSuited(w.s, StepClaim(w, pick, generated).s, m)
  {
    if c.bindComplete {
      WriteKeepsName(w, n, c, c.(provisioner := c.className), HandleBound(n, c.(provisioner := c.className)), m);
    } else if c.targetName.None? {
      SearchNamesSuited(w, n, c, pick, m);
    } else {
      PhaseKeepsName(w, n, c, ClaimPending, Idle, m);
    }
  }

  lemma OthersKeepName(w: World, a: Action, m: Name)
    requires !a.ClaimSteps?
    ensures SameName(w.s, Step(w, a).s, m)
  {
  }

  // Whatever happened before, and whatever is done next: a claim that is there before and after only
  // ever comes to name a target that suits it at that moment, and what it names never changes again.
  lemma OnlySuitableIsNamed(w: World, a: Action, n: Name)
    requires n in w.s.claims && n in Step(w, a).s.claims
    ensures var c, c' := w.s.claims[n], Step(w, a).s.claims[n];
            c'.targetName != c.targetName ==>
              c.targetName == None && !c.bindComplete && c'.targetName.Some? && Suits(w.s, n, c, c'.targetName.value)
  {
    if !a.ClaimSteps? {
      OthersKeepName(w, a, n);
    } else if w.claimJob.Provisioned? {
      ProvisionedNamesSuited(w, w.claimJob.n, w.claimJob.c, a.pick, a.generated, n);
    } else {
      OtherStepsKeepName(w, a.pick, a.generated, n);
    }
  }
}
