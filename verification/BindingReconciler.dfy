// The reconciler of SnapshotEnvironmentBindings at work on the GitOpsDeployments of its namespace.
module BindingReconcilers {
  import opened Wrappers
  import opened AppStudioLabels
  import opened BindingReconcile

  datatype Outcome =
    | RepoNotReady
    | WaitingForComponents
    | DuplicateComponents
    | GenerationFailed
    | DeleteFailed
    | ProcessingFailed
    | Done

  // A deployment can be generated for each component.
  predicate CanGenerate(b: Binding, destination: Option<Destination>) {
    DistinctComponents(b) && LabelsFit(b) && (b.components == [] || destination.Some?)
  }

  // Only matters where there are components.
  function Resolved(destination: Option<Destination>): Destination {
    if destination.Some? then destination.value else Destination(BLANK, BLANK)
  }

  // The expected deployments of some components, by name.
  ghost predicate Covers(expected: map<Text, Expected>, b: Binding, components: seq<Component>,
                         destination: Destination, hash: string -> string) {
    && expected.Keys == NamesOf(components)
    && forall c :: c in components ==> expected[c.name] == ExpectedOf(b, destination, hash, c)
  }

  // One more component can be generated exactly if its name is new and its labels fit.
  lemma NotYetCovered(b: Binding, i: nat, destination: Option<Destination>)
    requires i < |b.components| && CanGenerate(b.(components := b.components[..i]), destination)
    ensures var c := b.components[i];
            && (c.name in NamesOf(b.components[..i]) ==> !DistinctComponents(b))
            && (CanGenerate(b.(components := b.components[..i + 1]), destination) <==>
                 && c.name !in NamesOf(b.components[..i]) && destination.Some?
                 && Fits(b.application) && Fits(b.environment) && Fits(c.name))
            && (CanGenerate(b, destination) ==> CanGenerate(b.(components := b.components[..i + 1]), destination))
  {
    var before, more, c := b.components[..i], b.components[..i + 1], b.components[i];
    assert more == before + [c];
    if c.name in NamesOf(before) {
      var d :| d in before && d.name == c.name;
      var j :| 0 <= j < |before| && before[j] == d;
      assert more[j] == b.components[j] && b.components[j].name == c.name && more[i] == c;
    } else {
      assert forall j :: 0 <= j < i ==> before[j] in before && more[j] == before[j];
    }
    assert c in more;
  }

  // What is left of the expected deployments when those whose API calls fail are skipped.
  ghost predicate Reachable(done: seq<Expected>, all: seq<Expected>, broken: set<Text>) {
    forall e :: e in done <==> e in all && e.name !in broken
  }

  // The deployments of all components but those left have been visited, each once, and processed
  // unless their API calls fail.
  ghost predicate Visited(done: seq<Expected>, expected: map<Text, Expected>, left: set<Text>, broken: set<Text>, b: Binding) {
    && (forall e :: e in done <==> exists k :: k in expected && k !in left && expected[k] == e && e.name !in broken)
    && WellFormed(b, expected.Keys, done)
  }

  lemma VisitedOneMore(done: seq<Expected>, expected: map<Text, Expected>, left: set<Text>, broken: set<Text>, b: Binding, k: Text)
    requires Visited(done, expected, left, broken, b) && k in left && left <= expected.Keys
    requires forall k :: k in expected ==> ComponentOf(expected[k].deployment) == k
    requires Only(expected[k].deployment.labels, false) == map[] && COMPONENT_KEY in expected[k].deployment.labels
    ensures Visited(if expected[k].name in broken then done else done + [expected[k]], expected, left - {k}, broken, b)
  {
    forall i | 0 <= i < |done| ensures ComponentOf(done[i].deployment) != k {
      assert done[i] in done;
    }
  }

  // Among those visited, none has API calls that fail.
  ghost predicate NoneBroken(expected: map<Text, Expected>, left: set<Text>, broken: set<Text>) {
    forall k :: k in expected && k !in left ==> expected[k].name !in broken
  }

  lemma AllVisited(s: Store, done: seq<Expected>, expected: map<Text, Expected>, broken: set<Text>, b: Binding, all: seq<Expected>)
    requires Visited(done, expected, {}, broken, b)
    requires forall e :: e in all <==> exists k :: k in expected && expected[k] == e
    ensures Reachable(done, all, broken)
    ensures NoneBroken(expected, {}, broken) <==> forall e :: e in all ==> e.name !in broken
    ensures DistinctNames(all) ==> forall e :: e in all && e.name !in broken ==> InPlace(ProcessedAll(s, done), e)
  {
    if NoneBroken(expected, {}, broken) {
      forall e | e in all ensures e.name !in broken {
        var k :| k in expected && expected[k] == e;
      }
    } else {
      var k :| k in expected && expected[k].name in broken;
      assert expected[k] in all;
    }
    if DistinctNames(all) {
      ProcessingPutsInPlace(s, b, expected.Keys, done);
    }
  }

  // What processing them has done so far.
  ghost predicate Progress(s: Store, now: Store, order: seq<Expected>, writes: nat) {
    && now == ProcessedAll(s, order)
    && (writes == 0 <==> forall e :: e in order ==> InPlace(s, e))
    && (writes == 0 ==> now == s)
  }

  lemma ProgressOneMore(s: Store, now: Store, order: seq<Expected>, writes: nat, e: Expected)
    requires Progress(s, now, order, writes) && Only(e.deployment.labels, false) == map[]
    ensures Progress(s, Processed(now, e), order + [e], if InPlace(now, e) then writes else writes + 1)
  {
    ProcessedOneMore(s, order, e);
    ProcessedIsInPlace(now, e);
    assert forall f :: f in order + [e] <==> f in order || f == e;
  }

  // The state of the loop over the expected deployments: s was there before the reconcile, s0 when
  // the loop began, and `now` is there.
  ghost predicate SoFar(s: Store, s0: Store, now: Store, b: Binding, expected: map<Text, Expected>, all: seq<Expected>,
                        broken: set<Text>, left: set<Text>, done: seq<Expected>, ok: bool, writes: nat) {
    && Frame(s, now, b, expected.Keys, all)
    && (ok <==> NoneBroken(expected, left, broken))
    && Visited(done, expected, left, broken, b)
    && Progress(s0, now, done, writes)
  }

  lemma OneMore(s: Store, s0: Store, now: Store, b: Binding, expected: map<Text, Expected>, all: seq<Expected>,
                broken: set<Text>, left: set<Text>, done: seq<Expected>, ok: bool, writes: nat, k: Text)
    requires SoFar(s, s0, now, b, expected, all, broken, left, done, ok, writes)
    requires forall k :: k in expected ==> ComponentOf(expected[k].deployment) == k
    requires k in left && left <= expected.Keys && expected[k] in all && WellFormed(b, expected.Keys, all)
    ensures var e := expected[k];
            if e.name in broken then SoFar(s, s0, now, b, expected, all, broken, left - {k}, done, false, writes)
            else SoFar(s, s0, Processed(now, e), b, expected, all, broken, left - {k}, done + [e], ok,
                       if InPlace(now, e) then writes else writes + 1)
  {
    var e := expected[k];
    VisitedOneMore(done, expected, left, broken, b, k);
    assert NoneBroken(expected, left - {k}, broken) <==> NoneBroken(expected, left, broken) && e.name !in broken;
    if e.name !in broken {
      ProcessingKeepsFrame(s, now, b, expected.Keys, all, e);
      ProgressOneMore(s0, now, done, writes, e);
    }
  }

  class GitOpsDeployments {
    var deployments: Store

    // `broken` are the names for which API calls fail.
    method DeleteUnmatchedDeployments(b: Binding, keep: set<Text>, broken: set<Text>) returns (ok: bool, writes: nat)
      modifies this
      ensures ok ==> deployments == WithoutUnmatched(old(deployments), b, keep)
      ensures ok ==> (writes == 0 <==> deployments == old(deployments))
      ensures !ok ==> exists n :: n in old(deployments) && n in broken && Unmatched(b, keep, old(deployments)[n])
      ensures forall n :: n in deployments ==> n in old(deployments) && deployments[n] == old(deployments)[n]
      ensures forall n :: n in old(deployments) && n !in deployments ==> Unmatched(b, keep, old(deployments)[n])
    {
      writes := 0;
      var left := deployments.Keys;
      while left != {}
        invariant left <= old(deployments).Keys
        invariant forall n :: n in deployments <==>
                    n in old(deployments) && (n in left || !Unmatched(b, keep, old(deployments)[n]))
        invariant forall n :: n in deployments ==> deployments[n] == old(deployments)[n]
        invariant writes == 0 <==> deployments.Keys == old(deployments).Keys
      {
        var n :| n in left;
        left := left - {n};
        if Unmatched(b, keep, deployments[n]) {
          if n in broken {
            return false, writes;
          }
          deployments := deployments - {n};
          writes := writes + 1;
          assert n in old(deployments) && n !in deployments;
        }
      }
      return true, writes;
    }

    method ProcessExpectedDeployment(e: Expected, broken: set<Text>) returns (ok: bool, wrote: bool)
      requires Only(e.deployment.labels, false) == map[]
      modifies this
      ensures ok <==> e.name !in broken
      ensures ok ==> deployments == Processed(old(deployments), e)
      ensures !ok ==> deployments == old(deployments) && !wrote
      ensures ok ==> (wrote <==> !InPlace(old(deployments), e))
      ensures ok ==> (wrote <==> !(&& e.name in old(deployments) && old(deployments)[e.name].spec == e.deployment.spec
                                   && SameAppStudio(old(deployments)[e.name].labels, e.deployment.labels)))
      ensures ok ==> && e.name in deployments && deployments[e.name].spec == e.deployment.spec
                     && SameAppStudio(deployments[e.name].labels, e.deployment.labels)
    {
      if e.name in broken {
        return false, false;
      }
      ProcessedHasWhatIsExpected(deployments, e);
      InPlaceIff(deployments, e);
      if e.name !in deployments {
        deployments := deployments[e.name := e.deployment];
        return true, true;
      }
      var actual := deployments[e.name];
      var equal := AreLabelsEqual(e.deployment.labels, actual.labels);
      if e.deployment.spec == actual.spec && equal {
        return true, false;
      }
      var labels := UpdateWithExpected(actual.labels, e.deployment.labels);
      deployments := deployments[e.name := actual.(spec := e.deployment.spec, labels := labels)];
      return true, true;
    }

    // Deployments by component; the first component that is a duplicate or cannot be generated ends it.
    method GenerateExpected(b: Binding, destination: Option<Destination>, hash: string -> string)
      returns (duplicate: bool, expected: Option<map<Text, Expected>>)
      ensures expected.Some? <==> CanGenerate(b, destination)
      ensures duplicate ==> expected.None? && !DistinctComponents(b)
      ensures expected.Some? ==>
                Covers(expected.value, b, b.components, Resolved(destination), hash)
    {
      var deployments: map<Text, Expected> := map[];
      for i := 0 to |b.components|
        invariant Covers(deployments, b, b.components[..i], Resolved(destination), hash)
        invariant CanGenerate(b.(components := b.components[..i]), destination)
      {
        var c := b.components[i];
        assert b.components[..i + 1] == b.components[..i] + [c];
        NotYetCovered(b, i, destination);
        if c.name in deployments {
          return true, None;
        }
        if destination.None? {
          return false, None;
        }
        var labels := GenerateLabels(b.labels, b.application, c.name, b.environment);
        if labels.None? {
          return false, None;
        }
        var spec := Spec(c.url, c.path, c.branch, Automated, destination.value);
        deployments := deployments[c.name := Expected(NameFor(b, c.name, hash), Deployment(spec, labels.value, {b.uid}))];
      }
      assert b.components[..|b.components|] == b.components;
      return false, Some(deployments);
    }

    // Creates or updates every deployment that is not as expected, carrying on after errors.
    method ProcessAll(expected: map<Text, Expected>, broken: set<Text>,
                      ghost s: Store, ghost b: Binding, ghost all: seq<Expected>)
      returns (ok: bool, writes: nat, ghost done: seq<Expected>)
      requires forall e :: e in all <==> exists k :: k in expected && expected[k] == e
      requires forall k :: k in expected ==> ComponentOf(expected[k].deployment) == k
      requires WellFormed(b, expected.Keys, all) && Frame(s, deployments, b, expected.Keys, all)
      modifies this
      ensures Frame(s, deployments, b, expected.Keys, all)
      ensures ok <==> forall e :: e in all ==> e.name !in broken
      ensures Reachable(done, all, broken) && WellFormed(b, expected.Keys, done)
      ensures deployments == ProcessedAll(old(deployments), done)
      ensures DistinctNames(all) ==> forall e :: e in all && e.name !in broken ==> InPlace(deployments, e)
      ensures writes == 0 <==> forall e :: e in done ==> InPlace(old(deployments), e)
      ensures writes == 0 ==> deployments == old(deployments)
    {
      ok, writes, done := true, 0, [];
      var left := expected.Keys;
      while left != {}
        invariant left <= expected.Keys
        invariant SoFar(s, old(deployments), deployments, b, expected, all, broken, left, done, ok, writes)
      {
        var k :| k in left;
        var e := expected[k];
        OneMore(s, old(deployments), deployments, b, expected, all, broken, left, done, ok, writes, k);
        var processed, wrote := ProcessExpectedDeployment(e, broken);
        done := if processed then done + [e] else done;
        ok := ok && processed;
        writes := if wrote then writes + 1 else writes;
        left := left - {k};
      }
      AllVisited(old(deployments), done, expected, broken, b, all);
    }

    // `destination` is where the environment deploys to, None if that cannot be found out.
    method Reconcile(b: Binding, destination: Option<Destination>, hash: string -> string, broken: set<Text>)
      returns (r: Outcome, writes: nat)
      modifies this
      ensures r.RepoNotReady? <==> b.repo.RepoFalse?
      ensures r.RepoNotReady? || r.DuplicateComponents? || r.GenerationFailed? ==> deployments == old(deployments) && writes == 0
      ensures r.WaitingForComponents? ==>
                b.repo.NoCondition? && b.components == [] && deployments == WithoutUnmatched(old(deployments), b, {})
      ensures r.DuplicateComponents? ==> !DistinctComponents(b)
      ensures r.GenerationFailed? ==> !CanGenerate(b, destination)
      ensures r.DeleteFailed? || r.ProcessingFailed? || r.Done? ==>
                Frame(old(deployments), deployments, b, NamesOf(b.components), AllExpected(b, Resolved(destination), hash))
      ensures broken == {} ==> !r.DeleteFailed? && !r.ProcessingFailed?
      ensures r.ProcessingFailed? || r.Done? ==>
                && CanGenerate(b, destination)
                && NoStrangers(deployments, b, NamesOf(b.components))
                && var all := AllExpected(b, Resolved(destination), hash);
                   && (r.Done? <==> forall e :: e in all ==> e.name !in broken)
                   && (DistinctNames(all) ==> forall e :: e in all && e.name !in broken ==> InPlace(deployments, e))
      ensures (r.ProcessingFailed? || r.Done?) && DistinctNames(AllExpected(b, Resolved(destination), hash)) ==>
                forall c :: c in b.components && NameFor(b, c.name, hash) !in broken ==>
                  destination.Some? && Deployed(deployments, b, c, destination.value, NameFor(b, c.name, hash))
      ensures r.Done? ==>
                && (Converged(deployments, b, NamesOf(b.components), AllExpected(b, Resolved(destination), hash)) <==>
                     DistinctNames(AllExpected(b, Resolved(destination), hash)))
                && (writes == 0 <==>
                     Converged(old(deployments), b, NamesOf(b.components), AllExpected(b, Resolved(destination), hash)))
                && (writes == 0 ==> deployments == old(deployments))
    {
      if b.repo.RepoFalse? {
        return RepoNotReady, 0;
      }
      var ok;
      if b.repo.NoCondition? && b.components == [] {
        ok, writes := DeleteUnmatchedDeployments(b, {}, broken);
        assert NamesOf(b.components) == {};
        return if ok then WaitingForComponents else DeleteFailed, writes;
      }
      var duplicate, expected := GenerateExpected(b, destination, hash);
      if expected.None? {
        return if duplicate then DuplicateComponents else GenerationFailed, 0;
      }
      ghost var all := AllExpected(b, Resolved(destination), hash);
      GeneratedIsWellFormed(b, Resolved(destination), hash);
      ok, writes := DeleteUnmatchedDeployments(b, expected.value.Keys, broken);
      if !ok {
        return DeleteFailed, writes;
      }
      ghost var s1 := deployments;
      var processWrites;
      ghost var done;
      ExpectedAreAll(b, Resolved(destination), hash, expected.value);
      ok, processWrites, done := ProcessAll(expected.value, broken, old(deployments), b, all);
      NoStrangersAfter(s1, b, expected.value.Keys, done);
      if DistinctNames(all) {
        AllAreDeployed(deployments, b, Resolved(destination), hash, broken);
      }
      if !ok {
        return ProcessingFailed, writes + processWrites;
      }
      ReconcileConvergesIff(old(deployments), b, expected.value.Keys, done, done);
      return Done, writes + processWrites;
    }
  }

  lemma ExpectedAreAll(b: Binding, destination: Destination, hash: string -> string, expected: map<Text, Expected>)
    requires Covers(expected, b, b.components, destination, hash)
    ensures var all := AllExpected(b, destination, hash);
            forall e :: e in all <==> exists k :: k in expected && expected[k] == e
    ensures forall k :: k in expected ==> ComponentOf(expected[k].deployment) == k
  {
    var all := AllExpected(b, destination, hash);
    forall e | e in all ensures exists k :: k in expected && expected[k] == e {
      var i :| 0 <= i < |all| && all[i] == e;
      assert b.components[i].name in expected;
    }
    forall k | k in expected ensures expected[k] in all && ComponentOf(expected[k].deployment) == k {
      var c :| c in b.components && c.name == k;
      var i :| 0 <= i < |b.components| && b.components[i] == c;
      assert all[i] == expected[k];
      GeneratedAreAppStudio(b.labels, b.application, k, b.environment);
    }
  }
}
