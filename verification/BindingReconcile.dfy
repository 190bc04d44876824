// The reconcile of a SnapshotEnvironmentBinding: it brings the GitOpsDeployments it owns in line
// with its components.
module BindingReconcile {
  import opened Wrappers
  import opened AppStudioLabels
  import opened DeploymentNames

  datatype Destination = Destination(environment: Text, namespace: Text)
  datatype SpecType = Automated | Manual
  datatype Spec = Spec(url: Text, path: Text, branch: Text, specType: SpecType, destination: Destination)

  // `owners` are the UIDs in the owner references.
  datatype Deployment = Deployment(spec: Spec, labels: Labels, owners: set<nat>)
  type Store = map<Text, Deployment>

  datatype Component = Component(name: Text, url: Text, path: Text, branch: Text)
  datatype RepoCondition = NoCondition | RepoFalse | RepoTrue | RepoUnknown

  // `components` is the list in the binding's status; `repo` the last condition of the GitOps repository.
  datatype Binding = Binding(name: Text, uid: nat, application: Text, environment: Text, labels: Labels,
                             components: seq<Component>, repo: RepoCondition)

  // ---- what is expected ----

  function NameFor(b: Binding, component: Text, hash: string -> string): Text {
    Text(DeploymentName(PartsOf(b), component.chars, hash))
  }

  function PartsOf(b: Binding): Parts {
    Parts(b.name.chars, b.application.chars, b.environment.chars)
  }

  function ExpectedFor(b: Binding, c: Component, destination: Destination): Deployment {
    var labels := Generated(b.labels, b.application, c.name, b.environment);
    Deployment(Spec(c.url, c.path, c.branch, Automated, destination), labels, {b.uid})
  }

  // An expected deployment and its name.
  datatype Expected = Expected(name: Text, deployment: Deployment)

  function ExpectedOf(b: Binding, destination: Destination, hash: string -> string, c: Component): Expected {
    Expected(NameFor(b, c.name, hash), ExpectedFor(b, c, destination))
  }

  predicate DistinctComponents(b: Binding) {
    forall i, j :: 0 <= i < j < |b.components| ==> b.components[i].name != b.components[j].name
  }

  predicate LabelsFit(b: Binding) {
    b.components == [] || (Fits(b.application) && Fits(b.environment) && forall c :: c in b.components ==> Fits(c.name))
  }

  // ---- the steps on the store ----

  predicate Labelled(b: Binding, d: Deployment) {
    && APPLICATION_KEY in d.labels && d.labels[APPLICATION_KEY] == b.application
    && ENVIRONMENT_KEY in d.labels && d.labels[ENVIRONMENT_KEY] == b.environment
  }

  function ComponentOf(d: Deployment): Text {
    if COMPONENT_KEY in d.labels then d.labels[COMPONENT_KEY] else BLANK
  }

  // Owned by the binding, labelled with its application and environment, for no component to keep.
  predicate Unmatched(b: Binding, keep: set<Text>, d: Deployment) {
    b.uid in d.owners && Labelled(b, d) && ComponentOf(d) !in keep
  }

  // Owned by the binding, with its application and environment on the labels, and, on a third one, no
  // component that is kept; a missing label counts as an empty one.
  ghost predicate StaleOf(b: Binding, keep: set<Text>, d: Deployment) {
    && b.uid in d.owners
    && (APPLICATION_KEY in d.labels && d.labels[APPLICATION_KEY] == b.application)
    && (ENVIRONMENT_KEY in d.labels && d.labels[ENVIRONMENT_KEY] == b.environment)
    && (if COMPONENT_KEY in d.labels then d.labels[COMPONENT_KEY] !in keep else Text("") !in keep)
  }

  function WithoutUnmatched(s: Store, b: Binding, keep: set<Text>): Store {
    map n | n in s && !Unmatched(b, keep, s[n]) :: s[n]
  }

  // What is deleted are the stale deployments, and what stays stays as it is.
  lemma StaleAreDeleted(s: Store, b: Binding, keep: set<Text>, n: Text)
    ensures n in WithoutUnmatched(s, b, keep) <==> n in s && !StaleOf(b, keep, s[n])
    ensures n in WithoutUnmatched(s, b, keep) ==> WithoutUnmatched(s, b, keep)[n] == s[n]
  {
  }

  predicate AsExpected(actual: Deployment, e: Deployment) {
    e.spec == actual.spec && LabelsEqual(e.labels, actual.labels)
  }

  function Processed(s: Store, e: Expected): Store {
    if e.name !in s then s[e.name := e.deployment]
    else if AsExpected(s[e.name], e.deployment) then s
    else s[e.name := s[e.name].(spec := e.deployment.spec, labels := Merged(s[e.name].labels, e.deployment.labels))]
  }

  function ProcessedAll(s: Store, expected: seq<Expected>): Store
    decreases |expected|
  {
    if expected == [] then s else ProcessedAll(Processed(s, expected[0]), expected[1..])
  }

  // ---- convergence ----

  ghost predicate InPlace(s: Store, e: Expected) {
    e.name in s && AsExpected(s[e.name], e.deployment)
  }

  ghost predicate NoStrangers(s: Store, b: Binding, keep: set<Text>) {
    forall n :: n in s ==> !Unmatched(b, keep, s[n])
  }

  // Every component has its deployment as expected, and nothing is left for other components.
  ghost predicate Converged(s: Store, b: Binding, keep: set<Text>, expected: seq<Expected>) {
    NoStrangers(s, b, keep) && forall e :: e in expected ==> InPlace(s, e)
  }

  // What generation guarantees: labels are AppStudio labels, with those of the binding, and each
  // expected deployment is for a component of its own, which is kept.
  ghost predicate WellFormed(b: Binding, keep: set<Text>, expected: seq<Expected>) {
    && (forall e :: e in expected ==>
         Only(e.deployment.labels, false) == map[] && ComponentOf(e.deployment) in keep && COMPONENT_KEY in e.deployment.labels)
    && (forall i, j :: 0 <= i < j < |expected| ==> ComponentOf(expected[i].deployment) != ComponentOf(expected[j].deployment))
  }

  ghost predicate DistinctNames(expected: seq<Expected>) {
    forall e, f :: e in expected && f in expected && e.name == f.name ==> e == f
  }

  lemma ProcessedIsInPlace(s: Store, e: Expected)
    requires Only(e.deployment.labels, false) == map[]
    ensures InPlace(Processed(s, e), e)
    ensures Processed(s, e) == s <==> InPlace(s, e)
  {
    if e.name in s {
      MergingMakesEqual(s[e.name].labels, e.deployment.labels);
    }
  }

  // Two maps have the same AppStudio labels.
  ghost predicate SameAppStudio(x: Labels, y: Labels) {
    forall k :: IsAppStudio(k) ==> (k in x <==> k in y) && (k in x && k in y ==> x[k] == y[k])
  }

  lemma LabelsEqualIff(x: Labels, y: Labels)
    ensures LabelsEqual(x, y) <==> SameAppStudio(x, y)
  {
    if LabelsEqual(x, y) {
      forall k | IsAppStudio(k) ensures (k in x <==> k in y) && (k in x && k in y ==> x[k] == y[k]) {
        assert k in x <==> k in Only(x, true);
        assert k in y <==> k in Only(y, true);
      }
    }
  }

  // A processed deployment has the spec and the AppStudio labels that are expected, and the labels of
  // others that it had; it is written exactly if it was not there or had another spec or other
  // AppStudio labels.
  lemma ProcessedHasWhatIsExpected(s: Store, e: Expected)
    requires Only(e.deployment.labels, false) == map[]
    ensures e.name in Processed(s, e) && Processed(s, e)[e.name].spec == e.deployment.spec
    ensures SameAppStudio(Processed(s, e)[e.name].labels, e.deployment.labels)
    ensures e.name in s ==> forall k :: !IsAppStudio(k) ==>
              (k in Processed(s, e)[e.name].labels <==> k in s[e.name].labels)
              && (k in s[e.name].labels ==> Processed(s, e)[e.name].labels[k] == s[e.name].labels[k])
    ensures Processed(s, e) == s <==>
              e.name in s && s[e.name].spec == e.deployment.spec && SameAppStudio(s[e.name].labels, e.deployment.labels)
    ensures forall n :: n != e.name ==> (n in Processed(s, e) <==> n in s) && (n in s ==> Processed(s, e)[n] == s[n])
  {
    ProcessedIsInPlace(s, e);
    LabelsEqualIff(e.deployment.labels, Processed(s, e)[e.name].labels);
    AllAppStudio(e.deployment.labels);
    if e.name in s {
      LabelsEqualIff(e.deployment.labels, s[e.name].labels);
    }
  }

  // In place means: there, with the expected spec and AppStudio labels.
  lemma InPlaceIff(s: Store, e: Expected)
    ensures InPlace(s, e) <==>
              e.name in s && s[e.name].spec == e.deployment.spec && SameAppStudio(s[e.name].labels, e.deployment.labels)
  {
    if e.name in s {
      LabelsEqualIff(e.deployment.labels, s[e.name].labels);
    }
  }

  lemma ProcessedIsNoStranger(s: Store, b: Binding, keep: set<Text>, e: Expected)
    requires NoStrangers(s, b, keep) && ComponentOf(e.deployment) in keep && COMPONENT_KEY in e.deployment.labels
    ensures NoStrangers(Processed(s, e), b, keep)
  {
  }

  lemma {:induction false} ProcessingPutsInPlace(s: Store, b: Binding, keep: set<Text>, expected: seq<Expected>)
    requires WellFormed(b, keep, expected) && DistinctNames(expected)
    ensures forall e :: e in expected ==> InPlace(ProcessedAll(s, expected), e)
    decreases |expected|
  {
    if expected != [] {
      var e, rest := expected[0], expected[1..];
      ProcessedIsInPlace(s, e);
      assert expected == [e] + rest;
      ProcessingPutsInPlace(Processed(s, e), b, keep, rest);
      forall k | 0 <= k < |rest| ensures rest[k].name != e.name {
        assert rest[k] == expected[k + 1] && ComponentOf(rest[k].deployment) != ComponentOf(e.deployment);
      }
      OthersUntouched(Processed(s, e), rest, e.name);
    }
  }

  lemma ProcessingConverges(s: Store, b: Binding, keep: set<Text>, expected: seq<Expected>)
    requires WellFormed(b, keep, expected) && DistinctNames(expected) && NoStrangers(s, b, keep)
    ensures Converged(ProcessedAll(s, expected), b, keep, expected)
  {
    ProcessingPutsInPlace(s, b, keep, expected);
    NoStrangersAfter(s, b, keep, expected);
  }

  lemma {:induction false} OthersUntouched(s: Store, expected: seq<Expected>, n: Text)
    requires forall k :: 0 <= k < |expected| ==> expected[k].name != n
    ensures n in ProcessedAll(s, expected) <==> n in s
    ensures n in s ==> ProcessedAll(s, expected)[n] == s[n]
    decreases |expected|
  {
    if expected != [] {
      OthersUntouched(Processed(s, expected[0]), expected[1..], n);
    }
  }

  lemma {:induction false} NoStrangersAfter(s: Store, b: Binding, keep: set<Text>, expected: seq<Expected>)
    requires WellFormed(b, keep, expected) && NoStrangers(s, b, keep)
    ensures NoStrangers(ProcessedAll(s, expected), b, keep)
    decreases |expected|
  {
    if expected != [] {
      assert expected == [expected[0]] + expected[1..];
      ProcessedIsNoStranger(s, b, keep, expected[0]);
      NoStrangersAfter(Processed(s, expected[0]), b, keep, expected[1..]);
    }
  }

  // A store in which deployments of two components have one name cannot be as expected for both.
  lemma ConvergedNamesAreDistinct(s: Store, b: Binding, keep: set<Text>, expected: seq<Expected>)
    requires WellFormed(b, keep, expected) && Converged(s, b, keep, expected)
    ensures DistinctNames(expected)
  {
    forall e, f | e in expected && f in expected && e.name == f.name ensures e == f {
      ComponentIsExpected(s, e);
      ComponentIsExpected(s, f);
      var i :| 0 <= i < |expected| && expected[i] == e;
      var j :| 0 <= j < |expected| && expected[j] == f;
      assert ComponentOf(expected[i].deployment) == ComponentOf(expected[j].deployment);
    }
  }

  lemma ComponentIsExpected(s: Store, e: Expected)
    requires InPlace(s, e) && COMPONENT_KEY in e.deployment.labels
    ensures ComponentOf(s[e.name]) == ComponentOf(e.deployment)
  {
    OwnKeysAreAppStudio();
    assert Only(e.deployment.labels, true)[COMPONENT_KEY] == e.deployment.labels[COMPONENT_KEY];
  }

  lemma {:induction false} ConvergedIsStill(s: Store, expected: seq<Expected>)
    requires forall e :: e in expected ==> InPlace(s, e)
    ensures ProcessedAll(s, expected) == s
  {
    if expected != [] {
      assert expected[0] in expected && forall e :: e in expected[1..] ==> e in expected;
      ConvergedIsStill(s, expected[1..]);
    }
  }

  // The whole effect of a reconcile without errors.
  function Reconciled(s: Store, b: Binding, keep: set<Text>, expected: seq<Expected>): Store {
    ProcessedAll(WithoutUnmatched(s, b, keep), expected)
  }

  // A reconcile brings any store to convergence exactly if the generated names are distinct, and
  // then a second one, in whatever order it goes through the components, leaves it as it is.
  lemma ReconcileConvergesIff(s: Store, b: Binding, keep: set<Text>, expected: seq<Expected>, again: seq<Expected>)
    requires WellFormed(b, keep, expected) && forall e :: e in again ==> e in expected
    ensures Converged(Reconciled(s, b, keep, expected), b, keep, expected) <==> DistinctNames(expected)
    ensures DistinctNames(expected) ==>
              Reconciled(Reconciled(s, b, keep, expected), b, keep, again) == Reconciled(s, b, keep, expected)
  {
    var s1 := WithoutUnmatched(s, b, keep);
    var s2 := Reconciled(s, b, keep, expected);
    if DistinctNames(expected) {
      ProcessingConverges(s1, b, keep, expected);
      assert WithoutUnmatched(s2, b, keep) == s2;
      ConvergedIsStill(s2, again);
    }
    if Converged(s2, b, keep, expected) {
      ConvergedNamesAreDistinct(s2, b, keep, expected);
    }
  }

  lemma {:induction false} ProcessedOneMore(s: Store, done: seq<Expected>, e: Expected)
    ensures ProcessedAll(s, done + [e]) == Processed(ProcessedAll(s, done), e)
    decreases |done|
  {
    if done == [] {
      assert [e][1..] == [];
      assert ProcessedAll(Processed(s, e), []) == Processed(s, e);
    } else {
      assert (done + [e])[1..] == done[1..] + [e];
      ProcessedOneMore(Processed(s, done[0]), done[1..], e);
    }
  }

  // ---- what every reconcile leaves alone, also one that fails half-way ----

  // Only unmatched deployments go, only expected names change or appear, and a deployment that was
  // not unmatched keeps its owners and the labels of others.
  ghost predicate Frame(s: Store, s': Store, b: Binding, keep: set<Text>, expected: seq<Expected>) {
    && (forall n :: n in s && !Unmatched(b, keep, s[n]) ==>
         && n in s' && s'[n].owners == s[n].owners && Only(s'[n].labels, false) == Only(s[n].labels, false)
         && (s'[n] != s[n] ==> Named(expected, n)))
    && (forall n :: n in s' && n !in s ==> Named(expected, n))
  }

  ghost predicate Named(expected: seq<Expected>, n: Text) {
    exists e :: e in expected && e.name == n
  }

  lemma ProcessingKeepsFrame(s: Store, s1: Store, b: Binding, keep: set<Text>, expected: seq<Expected>, e: Expected)
    requires Frame(s, s1, b, keep, expected) && e in expected && Only(e.deployment.labels, false) == map[]
    ensures Frame(s, Processed(s1, e), b, keep, expected)
  {
    var s2 := Processed(s1, e);
    assert Named(expected, e.name);
    if e.name in s1 {
      AllAppStudio(e.deployment.labels);
      MergingKeepsOthersIff(s1[e.name].labels, e.deployment.labels);
    }
  }

  // ---- what the components ask for ----

  function NamesOf(components: seq<Component>): set<Text> {
    set c | c in components :: c.name
  }

  function AllExpected(b: Binding, destination: Destination, hash: string -> string): seq<Expected> {
    seq(|b.components|, i requires 0 <= i < |b.components| => ExpectedOf(b, destination, hash, b.components[i]))
  }

  lemma GeneratedIsWellFormed(b: Binding, destination: Destination, hash: string -> string)
    requires DistinctComponents(b)
    ensures WellFormed(b, NamesOf(b.components), AllExpected(b, destination, hash))
  {
    var all := AllExpected(b, destination, hash);
    forall i | 0 <= i < |all|
      ensures Only(all[i].deployment.labels, false) == map[] && COMPONENT_KEY in all[i].deployment.labels
              && ComponentOf(all[i].deployment) == b.components[i].name
    {
      GeneratedAreAppStudio(b.labels, b.application, b.components[i].name, b.environment);
    }
  }

  // Component c of the binding has its deployment: as the component says, automated, sent to the
  // destination, and labelled with application, component and environment.
  ghost predicate Deployed(s: Store, b: Binding, c: Component, destination: Destination, name: Text) {
    && name in s
    && s[name].spec == Spec(c.url, c.path, c.branch, Automated, destination)
    && APPLICATION_KEY in s[name].labels && s[name].labels[APPLICATION_KEY] == b.application
    && COMPONENT_KEY in s[name].labels && s[name].labels[COMPONENT_KEY] == c.name
    && ENVIRONMENT_KEY in s[name].labels && s[name].labels[ENVIRONMENT_KEY] == b.environment
  }

  lemma InPlaceIsDeployed(s: Store, b: Binding, c: Component, destination: Destination, hash: string -> string)
    requires InPlace(s, ExpectedOf(b, destination, hash, c))
    ensures Deployed(s, b, c, destination, NameFor(b, c.name, hash))
  {
    var e := ExpectedOf(b, destination, hash, c);
    InPlaceIff(s, e);
    OwnKeysAreAppStudio();
    GeneratedAreAppStudio(b.labels, b.application, c.name, b.environment);
  }

  lemma AllAreDeployed(s: Store, b: Binding, destination: Destination, hash: string -> string, broken: set<Text>)
    requires forall e :: e in AllExpected(b, destination, hash) && e.name !in broken ==> InPlace(s, e)
    ensures forall c :: c in b.components && NameFor(b, c.name, hash) !in broken ==>
              Deployed(s, b, c, destination, NameFor(b, c.name, hash))
  {
    forall c | c in b.components && NameFor(b, c.name, hash) !in broken
      ensures Deployed(s, b, c, destination, NameFor(b, c.name, hash))
    {
      ExpectedIsIn(b, destination, hash, c);
      InPlaceIsDeployed(s, b, c, destination, hash);
    }
  }

  function LongOf(b: Binding, c: Component): string {
    LongName(PartsOf(b), c.name.chars)
  }

  // The digests of the names are digests, and different for different names.
  ghost predicate GoodHash(b: Binding, hash: string -> string) {
    && (forall c :: c in b.components ==> IsDigest(hash(LongOf(b, c))))
    && (forall c, d :: c in b.components && d in b.components ==>
         (hash(LongOf(b, c)) == hash(LongOf(b, d)) ==> LongOf(b, c) == LongOf(b, d)))
  }

  // Component d is named like the end of the long name of c, while its own is too long.
  predicate ConfusedIn(b: Binding, c: Component, d: Component) {
    Confused(PartsOf(b), c.name.chars, d.name.chars)
  }

  lemma NamesMeetIff(b: Binding, destination: Destination, hash: string -> string, c: Component, d: Component)
    requires LabelsFit(b) && GoodHash(b, hash) && c in b.components && d in b.components
    ensures ExpectedOf(b, destination, hash, c).name == ExpectedOf(b, destination, hash, d).name <==>
              c.name == d.name || ConfusedIn(b, c, d) || ConfusedIn(b, d, c)
  {
    NamesCollideIff(PartsOf(b), c.name.chars, d.name.chars, hash);
  }

  lemma ExpectedTellsName(b: Binding, destination: Destination, hash: string -> string, c: Component, d: Component)
    requires ExpectedOf(b, destination, hash, c) == ExpectedOf(b, destination, hash, d)
    ensures c.name == d.name
  {
    GeneratedAreAppStudio(b.labels, b.application, c.name, b.environment);
    GeneratedAreAppStudio(b.labels, b.application, d.name, b.environment);
  }

  // No component is confused with itself.
  lemma ConfusedDiffer(b: Binding, c: Component, d: Component)
    requires ConfusedIn(b, c, d)
    ensures c.name != d.name
  {
  }

  lemma AllExpectedAt(b: Binding, destination: Destination, hash: string -> string, e: Expected) returns (c: Component)
    requires e in AllExpected(b, destination, hash)
    ensures c in b.components && e == ExpectedOf(b, destination, hash, c)
  {
    var i :| 0 <= i < |b.components| && AllExpected(b, destination, hash)[i] == e;
    c := b.components[i];
  }

  lemma ExpectedIsIn(b: Binding, destination: Destination, hash: string -> string, c: Component)
    requires c in b.components
    ensures ExpectedOf(b, destination, hash, c) in AllExpected(b, destination, hash)
  {
    var i :| 0 <= i < |b.components| && b.components[i] == c;
    assert AllExpected(b, destination, hash)[i] == ExpectedOf(b, destination, hash, c);
  }

  lemma SameNameSameComponent(b: Binding, c: Component, d: Component)
    requires DistinctComponents(b) && c in b.components && d in b.components && c.name == d.name
    ensures c == d
  {
  }

  // So the names of a binding's deployments are distinct, and its reconcile converges, exactly if no
  // two components are confused.
  lemma NamesAreDistinctIff(b: Binding, destination: Destination, hash: string -> string)
    requires DistinctComponents(b) && LabelsFit(b) && GoodHash(b, hash)
    ensures DistinctNames(AllExpected(b, destination, hash)) <==>
              forall c, d :: c in b.components && d in b.components ==> !ConfusedIn(b, c, d)
  {
    var all := AllExpected(b, destination, hash);
    if DistinctNames(all) {
      forall c, d | c in b.components && d in b.components ensures !ConfusedIn(b, c, d) {
        if ConfusedIn(b, c, d) {
          NamesMeetIff(b, destination, hash, c, d);
          ExpectedIsIn(b, destination, hash, c);
          ExpectedIsIn(b, destination, hash, d);
          ExpectedTellsName(b, destination, hash, c, d);
          ConfusedDiffer(b, c, d);
        }
      }
    }
    if forall c, d :: c in b.components && d in b.components ==> !ConfusedIn(b, c, d) {
      forall e, f | e in all && f in all && e.name == f.name ensures e == f {
        var c := AllExpectedAt(b, destination, hash, e);
        var d := AllExpectedAt(b, destination, hash, f);
        NamesMeetIff(b, destination, hash, c, d);
        SameNameSameComponent(b, c, d);
      }
    }
  }
}
