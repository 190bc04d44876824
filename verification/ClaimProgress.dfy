// What reconciles of a claim achieve when nothing interferes, and why runs must not reuse names.
module ClaimProgress {
  import opened Wrappers
  import opened DeploymentTargets
  import opened ClaimProtocol
  import opened ClaimSafety

  // A reconcile of claim n, cut after k steps.
  function Reconcile(w: World, n: Name, pick: Option<Name>, generated: Name, k: nat): World {
    if k == 0 then BeginClaim(w, n) else StepClaim(Reconcile(w, n, pick, generated, k - 1), pick, generated)
  }

  function ReconcileActions(n: Name, pick: Option<Name>, generated: Name, k: nat): seq<Action> {
    if k == 0 then [ClaimBegins(n)] else ReconcileActions(n, pick, generated, k - 1) + [ClaimSteps(pick, generated)]
  }

  lemma {:induction false} ReconcileIsExec(w: World, n: Name, pick: Option<Name>, generated: Name, k: nat)
    ensures Reconcile(w, n, pick, generated, k) == Exec(w, ReconcileActions(n, pick, generated, k))
  {
    var run := ReconcileActions(n, pick, generated, k);
    if k == 0 {
      assert run[..0] == [];
    } else {
      ReconcileIsExec(w, n, pick, generated, k - 1);
      assert run[..|run| - 1] == ReconcileActions(n, pick, generated, k - 1);
    }
  }

  // Target d is free, usable, of the claim's class, and referenced by no other claim; for a claim that
  // is marked for provisioning it is one that was made for it.
  ghost predicate Suits(s: Cluster, n: Name, c: Claim, d: Name) {
    && d in s.targets
    && s.targets[d].className == c.className
    && (s.targets[d].phase == TargetNoPhase || s.targets[d].phase == TargetAvailable)
    && s.targets[d].hasCredentials
    && (s.targets[d].claimRef == Some(n) || (s.targets[d].claimRef == None && c.provisioner == None))
  }

  lemma CandidatesSuit(s: Cluster, n: Name, c: Claim)
    requires c.targetName == None
    ensures forall d :: d in s.targets ==> (Candidate(n, c, d, s.targets[d]) <==> Suits(s, n, c, d))
  {
  }

  ghost predicate ReferencesNoOther(s: Cluster, n: Name, d: Name)
    requires d in s.targets
  {
    s.targets[d].claimRef == None || s.targets[d].claimRef == Some(n)
  }

  // A target that is being deleted is there only as long as it has finalizers.
  predicate IsKept(t: Target) {
    t.deleting ==> t.finalizers != {}
  }

  // No SpaceRequest has to be created for the claim first.
  ghost predicate NothingToProvision(s: Cluster, n: Name, c: Claim) {
    || c.phase != ClaimPending || c.provisioner.None? || c.className.None?
    || (var cls := ClassOf(s, c.className);
        cls.Some? && (!cls.value.devsandbox ||
                      exists r :: r in s.requests && ClaimedBy(s, r, n) && s.requests[r].environmentTier))
  }

  lemma NothingIsProvisioned(w: World, n: Name, c: Claim, generated: Name)
    requires NothingToProvision(w.s, n, c)
    ensures Provision(w, n, c, generated) == w.(claimJob := Provisioned(n, c))
  {
  }

  lemma FinalizerIsAdded(w: World, n: Name)
    requires w.claimJob.Idle? && n in w.s.claims && !w.s.claims[n].deleting
    ensures var c := w.s.claims[n].(finalizers := w.s.claims[n].finalizers + {Binder});
            BeginClaim(w, n) == w.(s := w.s.(claims := w.s.claims[n := c]), claimJob := Main(n, c))
  {
    var c := w.s.claims[n];
    assert Binder in c.finalizers ==> c.(finalizers := c.finalizers + {Binder}) == c && w.s.claims[n := c] == w.s.claims;
  }

  // Up to the point at which the worker looks at the claim's target.
  lemma GetsToSearch(w: World, n: Name, pick: Option<Name>, generated: Name)
    requires w.claimJob.Idle? && n in w.s.claims
    requires !w.s.claims[n].deleting && NothingToProvision(w.s, n, w.s.claims[n])
    ensures var c := w.s.claims[n].(finalizers := w.s.claims[n].finalizers + {Binder});
            Reconcile(w, n, pick, generated, 1) == w.(s := w.s.(claims := w.s.claims[n := c]), claimJob := Provisioned(n, c))
  {
    var c := w.s.claims[n].(finalizers := w.s.claims[n].finalizers + {Binder});
    FinalizerIsAdded(w, n);
    var w0 := BeginClaim(w, n);
    assert NothingToProvision(w0.s, n, c) by {
      if r :| r in w.s.requests && ClaimedBy(w.s, r, n) && w.s.requests[r].environmentTier {
        assert ClaimedBy(w0.s, r, n);
      }
    }
    NothingIsProvisioned(w0, n, c, generated);
  }

  lemma MatchIsNamed(w: World, n: Name, d: Name, generated: Name)
    requires w.claimJob.Idle? && n in w.s.claims && d in w.s.targets
    requires var c := w.s.claims[n];
             && !c.deleting && !c.bindComplete && c.targetName.None? && NothingToProvision(w.s, n, c)
             && Suits(w.s, n, c, d)
    ensures var c := w.s.claims[n];
            var c' := c.(targetName := Some(d), boundByController := true, finalizers := c.finalizers + {Binder});
            Reconcile(w, n, Some(d), generated, 2) ==
              w.(s := w.s.(claims := w.s.claims[n := c']), claimJob := BindClaim(n, c', d, w.s.targets[d]))
  {
    CandidatesSuit(w.s, n, w.s.claims[n]);
    GetsToSearch(w, n, Some(d), generated);
    var w1 := Reconcile(w, n, Some(d), generated, 1);
    var c0 := w1.s.claims[n];
    var c1 := c0.(targetName := Some(d), boundByController := true);
    assert w1.s.claims[n := c1] == w.s.claims[n := c1];
  }

  lemma NamedTargetIsBound(w: World, n: Name, c: Claim, d: Name, t: Target, pick: Option<Name>, generated: Name)
    requires w.claimJob == BindClaim(n, c, d, t) && ClaimUnchanged(w.s, n, c) && TargetUnchanged(w.s, d, t)
    requires !c.deleting && IsKept(t) && d in w.s.everTargets
    ensures StepClaim(StepClaim(StepClaim(w, pick, generated), pick, generated), pick, generated) ==
              w.(s := w.s.(claims := w.s.claims[n := c.(phase := ClaimBound, bindComplete := true)],
                           targets := w.s.targets[d := t.(phase := TargetBound)]),
                 claimJob := Idle)
  {
    var c2 := c.(phase := ClaimBound);
    var s3 := w.s.(claims := w.s.claims[n := c2]);
    assert c2 == c ==> s3.claims == w.s.claims;
    assert StepClaim(w, pick, generated) == w.(s := s3, claimJob := BindTarget(n, c2, d, t));
    var s4 := s3.(targets := s3.targets[d := t.(phase := TargetBound)]);
    assert t.phase == TargetBound ==> s4.targets == s3.targets;
    assert s3.everTargets + {d} == s3.everTargets;
    assert s4.claims[n := c2.(bindComplete := true)] == w.s.claims[n := c2.(bindComplete := true)];
  }

  // An unbound claim that finds a matching target d ends up bound to it in one reconcile.
  lemma FreeTargetIsBound(w: World, n: Name, d: Name, generated: Name)
    requires w.claimJob.Idle? && n in w.s.claims && d in w.s.targets && IsKept(w.s.targets[d])
    requires var c := w.s.claims[n];
             && !c.deleting && !c.bindComplete && c.targetName.None? && NothingToProvision(w.s, n, c)
             && Suits(w.s, n, c, d)
    requires d in w.s.everTargets
    ensures var c, t := w.s.claims[n], w.s.targets[d];
            var c' := c.(targetName := Some(d), boundByController := true, phase := ClaimBound, bindComplete := true,
                         finalizers := c.finalizers + {Binder});
            Reconcile(w, n, Some(d), generated, 5) ==
              w.(s := w.s.(claims := w.s.claims[n := c'], targets := w.s.targets[d := t.(phase := TargetBound)]))
  {
    MatchIsNamed(w, n, d, generated);
    var w2 := Reconcile(w, n, Some(d), generated, 2);
    var c := w2.s.claims[n];
    NamedTargetIsBound(w2, n, c, d, w.s.targets[d], Some(d), generated);
    assert Reconcile(w, n, Some(d), generated, 3) == StepClaim(w2, Some(d), generated);
    assert Reconcile(w, n, Some(d), generated, 4) == StepClaim(Reconcile(w, n, Some(d), generated, 3), Some(d), generated);
    var c' := c.(phase := ClaimBound, bindComplete := true);
    assert w2.s.claims[n := c'] == w.s.claims[n := c'];
  }

  // A claim that completed its binding follows its target: Lost without it, and Bound, as the target
  // is again, with it. A provisioner annotation follows the claim's class.
  lemma CompleteClaimFollowsTarget(w: World, n: Name, d: Name, generated: Name)
    requires w.claimJob.Idle? && n in w.s.claims && w.s.targets.Keys <= w.s.everTargets
    requires var c := w.s.claims[n];
             !c.deleting && c.bindComplete && c.targetName == Some(d) && NothingToProvision(w.s, n, c)
    requires d in w.s.targets ==> ReferencesNoOther(w.s, n, d) && IsKept(w.s.targets[d])
    ensures var c := Annotated(w.s.claims[n].(finalizers := w.s.claims[n].finalizers + {Binder}));
            Reconcile(w, n, None, generated, 4) ==
              if d in w.s.targets
              then w.(s := w.s.(targets := w.s.targets[d := w.s.targets[d].(phase := TargetBound)],
                                claims := w.s.claims[n := c.(phase := ClaimBound)]))
              else w.(s := w.s.(claims := w.s.claims[n := c.(phase := ClaimLost)]))
  {
    var c := w.s.claims[n].(finalizers := w.s.claims[n].finalizers + {Binder});
    var c' := Annotated(c);
    GetsToSearch(w, n, None, generated);
    var s1 := w.s.(claims := w.s.claims[n := c]);
    assert Reconcile(w, n, None, generated, 1) == w.(s := s1, claimJob := Provisioned(n, c));
    assert s1.claims[n := c'] == w.s.claims[n := c'];
    var w2 := w.(s := w.s.(claims := w.s.claims[n := c']), claimJob := HandleBound(n, c'));
    assert Reconcile(w, n, None, generated, 2) == w2;
    FollowsTarget(w2, n, c', d, generated);
    assert w2.s.claims[n := c'.(phase := ClaimBound)] == w.s.claims[n := c'.(phase := ClaimBound)];
    assert w2.s.claims[n := c'.(phase := ClaimLost)] == w.s.claims[n := c'.(phase := ClaimLost)];
  }

  function Annotated(c: Claim): Claim {
    if c.provisioner.Some? then c.(provisioner := c.className) else c
  }

  // A claim that names a target it cannot have, because there is none or because the target
  // references another claim, waits as Pending and touches nothing else.
  lemma ClaimWaitsForNamedTarget(w: World, n: Name, d: Name, generated: Name)
    requires w.claimJob.Idle? && n in w.s.claims
    requires var c := w.s.claims[n];
             !c.deleting && !c.bindComplete && c.targetName == Some(d) && NothingToProvision(w.s, n, c)
    requires d in w.s.targets ==> w.s.targets[d].claimRef.Some? && w.s.targets[d].claimRef != Some(n)
    ensures var c := w.s.claims[n];
            Reconcile(w, n, None, generated, 2) ==
              w.(s := w.s.(claims := w.s.claims[n := c.(finalizers := c.finalizers + {Binder}, phase := ClaimPending)]))
  {
    var c := w.s.claims[n].(finalizers := w.s.claims[n].finalizers + {Binder});
    GetsToSearch(w, n, None, generated);
    var s1 := w.s.(claims := w.s.claims[n := c]);
    assert Reconcile(w, n, None, generated, 1) == w.(s := s1, claimJob := Provisioned(n, c));
    assert s1.claims[n := c.(phase := ClaimPending)] == w.s.claims[n := c.(phase := ClaimPending)];
  }

  lemma FollowsTarget(w: World, n: Name, c: Claim, d: Name, generated: Name)
    requires w.claimJob == HandleBound(n, c) && ClaimUnchanged(w.s, n, c) && w.s.targets.Keys <= w.s.everTargets
    requires !c.deleting && c.targetName == Some(d)
    requires d in w.s.targets ==> ReferencesNoOther(w.s, n, d) && IsKept(w.s.targets[d])
    ensures StepClaim(StepClaim(w, None, generated), None, generated) ==
              if d in w.s.targets
              then w.(s := w.s.(targets := w.s.targets[d := w.s.targets[d].(phase := TargetBound)],
                                claims := w.s.claims[n := c.(phase := ClaimBound)]), claimJob := Idle)
              else w.(s := w.s.(claims := w.s.claims[n := c.(phase := ClaimLost)]), claimJob := Idle)
  {
    if d in w.s.targets {
      var t := w.s.targets[d];
      var s1 := w.s.(targets := w.s.targets[d := t.(phase := TargetBound)]);
      assert w.s.everTargets + {d} == w.s.everTargets;
      assert t.phase == TargetBound ==> s1.targets == w.s.targets;
      assert StepClaim(w, None, generated) == w.(s := s1, claimJob := RepeatClaimBound(n, c));
    }
    assert c.phase == ClaimBound ==> w.s.claims[n := c.(phase := ClaimBound)] == w.s.claims;
    assert c.phase == ClaimLost ==> w.s.claims[n := c.(phase := ClaimLost)] == w.s.claims;
  }

  lemma DeletionMarks(w: World, n: Name, d: Name, generated: Name)
    requires w.claimJob.Idle? && n in w.s.claims && d in w.s.targets && w.s.targets.Keys <= w.s.everTargets
    requires var c, t := w.s.claims[n], w.s.targets[d];
             && c.deleting && c.bindComplete && c.phase == ClaimBound && Binder in c.finalizers
             && c.targetName == Some(d) && ReferencesNoOther(w.s, n, d)
             && ClassOf(w.s, t.className).Some? && (t.deleting ==> TargetFinalizer in t.finalizers)
    ensures var c, t := w.s.claims[n], w.s.targets[d];
            var t' := t.(finalizers := t.finalizers + {TargetFinalizer},
                         deleting := t.deleting || ClassOf(w.s, t.className).value.policy == DeletePolicy);
            Reconcile(w, n, None, generated, 2) ==
              w.(s := w.s.(targets := w.s.targets[d := t']), claimJob := ClearRef(n, c, d))
  {
    var c, t := w.s.claims[n], w.s.targets[d];
    var t0 := t.(finalizers := t.finalizers + {TargetFinalizer});
    assert w.s.everTargets + {d} == w.s.everTargets;
    assert TargetFinalizer in t.finalizers ==> t0 == t;
    assert Reconcile(w, n, None, generated, 0) == w.(claimJob := Main(n, c));
    var s1 := w.s.(targets := w.s.targets[d := t0]);
    assert TargetFinalizer in t.finalizers ==> s1.targets == w.s.targets;
    assert Reconcile(w, n, None, generated, 1) == w.(s := s1, claimJob := MarkTarget(n, c, d, t0));
  }

  lemma RefIsCleared(w: World, n: Name, c: Claim, d: Name, pick: Option<Name>, generated: Name)
    requires w.claimJob == ClearRef(n, c, d) && d in w.s.targets && TargetFinalizer in w.s.targets[d].finalizers
    requires d in w.s.everTargets
    ensures var t' := w.s.targets[d].(claimRef := None, phase := TargetReleased);
            StepClaim(StepClaim(w, pick, generated), pick, generated) ==
              w.(s := w.s.(targets := w.s.targets[d := t']), claimJob := DropFinalizer(n, c, Some(d)))
  {
    var t2 := w.s.targets[d].(claimRef := None);
    var t3 := t2.(phase := TargetReleased);
    assert w.s.everTargets + {d} == w.s.everTargets;
    var s3 := w.s.(targets := w.s.targets[d := t2]);
    assert StepClaim(w, pick, generated) == w.(s := s3, claimJob := Release(n, c, d, t2));
    assert t3 == t2 ==> s3.targets[d := t3] == s3.targets;
    assert s3.targets[d := t3] == w.s.targets[d := t3];
  }

  lemma MarkedTargetIsReleased(w: World, n: Name, c: Claim, d: Name, pick: Option<Name>, generated: Name)
    requires w.claimJob == ClearRef(n, c, d) && ClaimUnchanged(w.s, n, c) && c.deleting && Binder in c.finalizers
    requires d in w.s.targets && TargetFinalizer in w.s.targets[d].finalizers && d in w.s.everTargets
    ensures StepClaim(StepClaim(StepClaim(w, pick, generated), pick, generated), pick, generated) ==
              w.(s := w.s.(targets := w.s.targets[d := w.s.targets[d].(claimRef := None, phase := TargetReleased)],
                           claims := if c.finalizers == {Binder} then w.s.claims - {n}
                                     else w.s.claims[n := c.(finalizers := c.finalizers - {Binder})]),
                 claimJob := Idle)
  {
    RefIsCleared(w, n, c, d, pick, generated);
    assert c.finalizers - {Binder} == {} <==> c.finalizers == {Binder};
  }

  // A claim that is being deleted lets its target go in one reconcile: unreferenced, Released, and
  // marked for deletion exactly if it was or its class says Delete.
  lemma BoundTargetIsReleased(w: World, n: Name, d: Name, generated: Name)
    requires w.claimJob.Idle? && n in w.s.claims && d in w.s.targets && w.s.targets.Keys <= w.s.everTargets
    requires var c, t := w.s.claims[n], w.s.targets[d];
             && c.deleting && c.bindComplete && c.phase == ClaimBound && Binder in c.finalizers
             && c.targetName == Some(d) && ReferencesNoOther(w.s, n, d)
             && ClassOf(w.s, t.className).Some? && (t.deleting ==> TargetFinalizer in t.finalizers)
    ensures var c, t := w.s.claims[n], w.s.targets[d];
            var cls := ClassOf(w.s, t.className).value;
            var t' := t.(claimRef := None, phase := TargetReleased, finalizers := t.finalizers + {TargetFinalizer},
                         deleting := t.deleting || cls.policy == DeletePolicy);
            Reconcile(w, n, None, generated, 5) ==
              w.(s := w.s.(targets := w.s.targets[d := t'],
                           claims := if c.finalizers == {Binder} then w.s.claims - {n}
                                     else w.s.claims[n := c.(finalizers := c.finalizers - {Binder})]))
  {
    var c := w.s.claims[n];
    DeletionMarks(w, n, d, generated);
    var w2 := Reconcile(w, n, None, generated, 2);
    MarkedTargetIsReleased(w2, n, c, d, None, generated);
    assert Reconcile(w, n, None, generated, 3) == StepClaim(w2, None, generated);
    assert Reconcile(w, n, None, generated, 4) == StepClaim(Reconcile(w, n, None, generated, 3), None, generated);
    var t2 := w2.s.targets[d];
    assert w2.s.targets[d := t2.(claimRef := None, phase := TargetReleased)]
        == w.s.targets[d := t2.(claimRef := None, phase := TargetReleased)];
  }

  lemma {:induction false} ExecAppends(w: World, first: seq<Action>, second: seq<Action>)
    ensures Exec(w, first + second) == Exec(Exec(w, first), second)
  {
    if second == [] {
      assert first + second == first;
    } else {
      var k := |second| - 1;
      ExecAppends(w, first, second[..k]);
      assert (first + second)[..|first + second| - 1] == first + second[..k];
    }
  }

  lemma ExecAction(w: World, a: Action)
    ensures Exec(w, [a]) == Step(w, a)
  {
    assert [a][..0] == [];
  }

  lemma SetupRuns(w: World, a: Action, b: Action)
    ensures Exec(w, [a] + [b]) == Step(Step(w, a), b)
  {
    ExecAppends(w, [a], [b]);
    ExecAction(w, a);
    ExecAction(Step(w, a), b);
  }

  lemma AgainRuns(w: World, a: Action, b: Action, c: Action)
    ensures Exec(w, [a] + [b] + [c]) == Step(Step(Step(w, a), b), c)
  {
    SetupRuns(w, a, b);
    ExecAppends(w, [a] + [b], [c]);
    ExecAction(Step(Step(w, a), b), c);
  }

  const PLAIN_TARGET := Target(None, None, true, TargetNoPhase, {}, false)
  const PLAIN_CLAIM := Claim(None, None, ClaimNoPhase, false, false, None, {}, false)

  // What is left of PLAIN_TARGET d and PLAIN_CLAIM n once they are bound.
  function BoundTo(d: Name): Claim {
    Claim(None, Some(d), ClaimBound, true, true, None, {Binder}, false)
  }

  lemma PlainPairBinds(claims: map<Name, Claim>, n: Name, d: Name)
    requires n !in claims
    ensures var s := Cluster(claims[n := PLAIN_CLAIM], map[d := PLAIN_TARGET], map[], map[], {d});
            Exec(World(s, Idle, TargetIdle, RequestIdle), ReconcileActions(n, Some(d), d, 5)) ==
              World(s.(claims := claims[n := BoundTo(d)], targets := map[d := PLAIN_TARGET.(phase := TargetBound)]),
                    Idle, TargetIdle, RequestIdle)
  {
    var s := Cluster(claims[n := PLAIN_CLAIM], map[d := PLAIN_TARGET], map[], map[], {d});
    var w := World(s, Idle, TargetIdle, RequestIdle);
    FreeTargetIsBound(w, n, d, d);
    ReconcileIsExec(w, n, Some(d), d, 5);
    assert {Binder} == {} + {Binder};
    assert s.claims[n := BoundTo(d)] == claims[n := BoundTo(d)];
    assert s.targets[d := PLAIN_TARGET.(phase := TargetBound)] == map[d := PLAIN_TARGET.(phase := TargetBound)];
  }

  const NO_CLAIMS: map<Name, Claim> := map[]

  // A world at rest whose only target is d.
  function OneTarget(claims: map<Name, Claim>, d: Name, t: Target): World {
    World(Cluster(claims, map[d := t], map[], map[], {d}), Idle, TargetIdle, RequestIdle)
  }

  lemma Setup(a: Name, d: Name, run: seq<Action>)
    requires run == [UserCreatesClaim(a, None, None, {})] + [UserCreatesTarget(d, None, None, true, {})]
    ensures Exec(Initial(map[]), run) == OneTarget(NO_CLAIMS[a := PLAIN_CLAIM], d, PLAIN_TARGET)
  {
    SetupRuns(Initial(map[]), UserCreatesClaim(a, None, None, {}), UserCreatesTarget(d, None, None, true, {}));
    assert {d} == {} + {d};
  }

  lemma Again(claims: map<Name, Claim>, t: Target, b: Name, d: Name, run: seq<Action>)
    requires b !in claims && t.finalizers == {}
    requires run == [UserDeletesTarget(d)] + [UserCreatesTarget(d, None, None, true, {})] + [UserCreatesClaim(b, None, None, {})]
    ensures Exec(OneTarget(claims, d, t), run) == OneTarget(claims[b := PLAIN_CLAIM], d, PLAIN_TARGET)
  {
    AgainRuns(OneTarget(claims, d, t), UserDeletesTarget(d), UserCreatesTarget(d, None, None, true, {}),
              UserCreatesClaim(b, None, None, {}));
    assert {d} == {d} + {d};
    assert map[d := t] - {d} == map[];
  }

  lemma FourParts(w: World, p: seq<Action>, q: seq<Action>, r: seq<Action>, s: seq<Action>)
    ensures Exec(w, p + q + r + s) == Exec(Exec(Exec(Exec(w, p), q), r), s)
  {
    ExecAppends(w, p, q);
    ExecAppends(w, p + q, r);
    ExecAppends(w, p + q + r, s);
  }

  lemma BothAreBound(a: Name, b: Name, d: Name, t: Target)
    requires a != b
    ensures !Exclusive(OneTarget(NO_CLAIMS[a := BoundTo(d)][b := BoundTo(d)], d, t).s)
  {
    var s := OneTarget(NO_CLAIMS[a := BoundTo(d)][b := BoundTo(d)], d, t).s;
    assert s.claims[a] == BoundTo(d) && s.claims[b] == BoundTo(d);
  }

  // The assumption of ExclusiveBinding is needed: delete a bound target and create it again, and a
  // second claim binds to it.
  lemma ReuseBreaksExclusion(a: Name, b: Name, d: Name) returns (run: seq<Action>)
    requires a != b
    ensures !Exclusive(Exec(Initial(map[]), run).s)
  {
    var create := UserCreatesTarget(d, None, None, true, {});
    var setup := [UserCreatesClaim(a, None, None, {})] + [create];
    var again := [UserDeletesTarget(d)] + [create] + [UserCreatesClaim(b, None, None, {})];
    var bindA, bindB := ReconcileActions(a, Some(d), d, 5), ReconcileActions(b, Some(d), d, 5);
    var t := PLAIN_TARGET.(phase := TargetBound);
    run := setup + bindA + again + bindB;
    FourParts(Initial(map[]), setup, bindA, again, bindB);
    Setup(a, d, setup);
    PlainPairBinds(NO_CLAIMS, a, d);
    Again(NO_CLAIMS[a := BoundTo(d)], t, b, d, again);
    PlainPairBinds(NO_CLAIMS[a := BoundTo(d)], b, d);
    BothAreBound(a, b, d, t);
  }
}
