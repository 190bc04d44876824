// Two SnapshotEnvironmentBindings of one namespace that are reconciled in turn.
module BindingPairs {
  import opened Wrappers
  import opened AppStudioLabels
  import opened DeploymentNames
  import opened BindingReconcile

  // A binding with what it keeps and expects.
  datatype Side = Side(b: Binding, keep: set<Text>, expected: seq<Expected>)

  // What generation guarantees, for components whose names are not confused.
  ghost predicate IsSide(x: Side) {
    && WellFormed(x.b, x.keep, x.expected) && DistinctNames(x.expected)
    && forall e :: e in x.expected ==> e.deployment.owners == {x.b.uid}
  }

  function ReconcileSide(s: Store, x: Side): Store {
    Reconciled(s, x.b, x.keep, x.expected)
  }

  ghost predicate ConvergedFor(s: Store, x: Side) {
    Converged(s, x.b, x.keep, x.expected)
  }

  // Where both expect a deployment of one name, they expect the same.
  ghost predicate Agree(x: Side, y: Side) {
    forall e, f :: e in x.expected && f in y.expected && e.name == f.name ==> AsExpected(f.deployment, e.deployment)
  }

  // What is there of the expected deployments is as expected.
  ghost predicate NothingWrong(s: Store, x: Side) {
    forall e :: e in x.expected && e.name in s ==> InPlace(s, e)
  }

  // ---- one reconcile, name by name ----

  lemma {:induction false} ProcessedAt(s: Store, x: Side, expected: seq<Expected>, e: Expected)
    requires WellFormed(x.b, x.keep, expected) && DistinctNames(expected) && e in expected
    ensures e.name in ProcessedAll(s, expected) && ProcessedAll(s, expected)[e.name] == Processed(s, e)[e.name]
    decreases |expected|
  {
    var first, rest := expected[0], expected[1..];
    assert expected == [first] + rest;
    if e == first {
      forall k | 0 <= k < |rest| ensures rest[k].name != e.name {
        assert rest[k] == expected[k + 1] && ComponentOf(rest[k].deployment) != ComponentOf(e.deployment);
      }
      OthersUntouched(Processed(s, first), rest, e.name);
    } else {
      ProcessedAt(Processed(s, first), x, rest, e);
    }
  }

  // What a reconcile leaves under the name n: the processed deployment of an expected name, and
  // otherwise what was there, unless it was unmatched.
  lemma ReconciledAt(s: Store, x: Side, n: Text)
    requires IsSide(x)
    ensures forall e :: e in x.expected && e.name == n ==>
              n in ReconcileSide(s, x) && ReconcileSide(s, x)[n] == Processed(WithoutUnmatched(s, x.b, x.keep), e)[n]
    ensures !Named(x.expected, n) ==>
              && (n in ReconcileSide(s, x) <==> n in s && !Unmatched(x.b, x.keep, s[n]))
              && (n in ReconcileSide(s, x) ==> ReconcileSide(s, x)[n] == s[n])
  {
    var s1 := WithoutUnmatched(s, x.b, x.keep);
    forall e | e in x.expected && e.name == n
      ensures n in ReconcileSide(s, x) && ReconcileSide(s, x)[n] == Processed(s1, e)[n]
    {
      ProcessedAt(s1, x, x.expected, e);
    }
    if !Named(x.expected, n) {
      forall k | 0 <= k < |x.expected| ensures x.expected[k].name != n {
        assert x.expected[k] in x.expected;
      }
      OthersUntouched(s1, x.expected, n);
    }
  }

  lemma SideConverges(s: Store, x: Side)
    requires IsSide(x)
    ensures ConvergedFor(ReconcileSide(s, x), x)
  {
    ReconcileConvergesIff(s, x.b, x.keep, x.expected, x.expected);
  }

  lemma ConvergedSideIsStill(s: Store, x: Side)
    requires ConvergedFor(s, x)
    ensures ReconcileSide(s, x) == s
  {
    assert WithoutUnmatched(s, x.b, x.keep) == s;
    ConvergedIsStill(s, x.expected);
  }

  // ---- what one reconcile does to the other binding ----

  lemma NothingGoesWrong(s: Store, x: Side, y: Side)
    requires IsSide(y) && Agree(x, y) && NothingWrong(s, x)
    ensures NothingWrong(ReconcileSide(s, y), x)
  {
    var s' := ReconcileSide(s, y);
    SideConverges(s, y);
    forall e | e in x.expected && e.name in s' ensures InPlace(s', e) {
      ReconciledAt(s, y, e.name);
      if Named(y.expected, e.name) {
        var f :| f in y.expected && f.name == e.name;
        assert InPlace(s', f) && AsExpected(f.deployment, e.deployment);
      }
    }
  }

  // A reconcile that finds nothing wrong only creates, and what it creates is its own.
  lemma NoStrangersForOther(s: Store, x: Side, y: Side)
    requires IsSide(x) && x.b.uid != y.b.uid && NothingWrong(s, x) && NoStrangers(s, y.b, y.keep)
    ensures NoStrangers(ReconcileSide(s, x), y.b, y.keep)
  {
    var s' := ReconcileSide(s, x);
    forall n | n in s' ensures !Unmatched(y.b, y.keep, s'[n]) {
      ReconciledAt(s, x, n);
      if Named(x.expected, n) {
        var e :| e in x.expected && e.name == n;
        NewOrSame(s, x, e);
      }
    }
  }

  lemma NewOrSame(s: Store, x: Side, e: Expected)
    requires IsSide(x) && NothingWrong(s, x) && e in x.expected
    ensures var s1 := WithoutUnmatched(s, x.b, x.keep);
            Processed(s1, e)[e.name] == if e.name in s1 then s[e.name] else e.deployment
  {
  }

  lemma NothingVanishes(s: Store, x: Side, e: Expected)
    requires NoStrangers(s, x.b, x.keep) && IsSide(x) && e.name in s
    ensures e.name in ReconcileSide(s, x)
  {
    ReconciledAt(s, x, e.name);
    if Named(x.expected, e.name) {
      var f :| f in x.expected && f.name == e.name;
    }
  }

  // ---- in turn ----

  function Round(s: Store, x: Side, y: Side): Store {
    ReconcileSide(ReconcileSide(s, x), y)
  }

  function Rounds(s: Store, x: Side, y: Side, n: nat): Store {
    if n == 0 then s else Round(Rounds(s, x, y, n - 1), x, y)
  }

  lemma SecondRoundSettles(s: Store, x: Side, y: Side)
    requires IsSide(x) && IsSide(y) && x.b.uid != y.b.uid && Agree(x, y) && Agree(y, x)
    requires ConvergedFor(s, y) && NothingWrong(s, x)
    ensures ConvergedFor(Round(s, x, y), x) && ConvergedFor(Round(s, x, y), y)
  {
    var s1 := ReconcileSide(s, x);
    SideConverges(s, x);
    NothingGoesWrong(s, y, x);
    NoStrangersForOther(s, x, y);
    var s2 := ReconcileSide(s1, y);
    SideConverges(s1, y);
    NothingGoesWrong(s1, x, y);
    NoStrangersForOther(s1, y, x);
    forall e | e in x.expected ensures InPlace(s2, e) {
      NothingVanishes(s1, y, e);
    }
  }

  lemma TwoRoundsSettle(s: Store, x: Side, y: Side)
    requires IsSide(x) && IsSide(y) && x.b.uid != y.b.uid && Agree(x, y)
    ensures ConvergedFor(Rounds(s, x, y, 2), x) && ConvergedFor(Rounds(s, x, y, 2), y)
  {
    assert Agree(y, x);
    var s1 := ReconcileSide(s, x);
    SideConverges(s, x);
    NothingGoesWrong(s1, x, y);
    SideConverges(s1, y);
    var r1 := Rounds(s, x, y, 1);
    assert r1 == Round(Rounds(s, x, y, 0), x, y);
    SecondRoundSettles(r1, x, y);
    assert Rounds(s, x, y, 2) == Round(r1, x, y);
  }

  lemma {:induction false} SettledForGood(s: Store, x: Side, y: Side, n: nat)
    requires ConvergedFor(Rounds(s, x, y, 2), x) && ConvergedFor(Rounds(s, x, y, 2), y)
    ensures Rounds(s, x, y, n + 2) == Rounds(s, x, y, 2)
  {
    if n > 0 {
      SettledForGood(s, x, y, n - 1);
      ConvergedSideIsStill(Rounds(s, x, y, 2), x);
      ConvergedSideIsStill(Rounds(s, x, y, 2), y);
    }
  }

  lemma ConvergedSidesAgree(s: Store, x: Side, y: Side)
    requires ConvergedFor(s, x) && ConvergedFor(s, y)
    ensures Agree(x, y)
  {
    forall e, f | e in x.expected && f in y.expected && e.name == f.name ensures AsExpected(f.deployment, e.deployment) {
      assert InPlace(s, e) && InPlace(s, f);
    }
  }

  // Two bindings that are reconciled in turn, without errors, settle exactly if they expect the same
  // wherever they expect a deployment of one name: then two rounds bring any store to convergence for
  // both, for good; and otherwise no store whatever is as both expect.
  lemma PairConvergesIff(s: Store, x: Side, y: Side, n: nat)
    requires IsSide(x) && IsSide(y) && x.b.uid != y.b.uid
    ensures Agree(x, y) ==>
              && ConvergedFor(Rounds(s, x, y, 2), x) && ConvergedFor(Rounds(s, x, y, 2), y)
              && Rounds(s, x, y, n + 2) == Rounds(s, x, y, 2)
    ensures (exists t :: ConvergedFor(t, x) && ConvergedFor(t, y)) <==> Agree(x, y)
  {
    if Agree(x, y) {
      TwoRoundsSettle(s, x, y);
      SettledForGood(s, x, y, n);
    }
    if t :| ConvergedFor(t, x) && ConvergedFor(t, y) {
      ConvergedSidesAgree(t, x, y);
    }
  }

  // ---- it happens ----

  // Deployments of two bindings with one name are not the same if the components, applications or
  // environments differ.
  lemma DifferentLabelsDisagree(b: Binding, c: Component, b': Binding, c': Component, destination: Destination, destination': Destination)
    requires b.application != b'.application || b.environment != b'.environment || c.name != c'.name
    ensures !AsExpected(ExpectedFor(b', c', destination'), ExpectedFor(b, c, destination))
  {
    var labels, labels' := ExpectedFor(b, c, destination).labels, ExpectedFor(b', c', destination').labels;
    GeneratedAreAppStudio(b.labels, b.application, c.name, b.environment);
    GeneratedAreAppStudio(b'.labels, b'.application, c'.name, b'.environment);
    OwnKeysAreAppStudio();
    assert Only(labels, true)[APPLICATION_KEY] == b.application && Only(labels', true)[APPLICATION_KEY] == b'.application;
    assert Only(labels, true)[ENVIRONMENT_KEY] == b.environment && Only(labels', true)[ENVIRONMENT_KEY] == b'.environment;
    assert Only(labels, true)[COMPONENT_KEY] == c.name && Only(labels', true)[COMPONENT_KEY] == c'.name;
  }

  // The side of a binding whose deployments are all generated.
  function SideOf(b: Binding, destination: Destination, hash: string -> string): Side {
    Side(b, NamesOf(b.components), AllExpected(b, destination, hash))
  }

  // All deployments can be generated, under distinct names.
  ghost predicate Generates(b: Binding, hash: string -> string) {
    && DistinctComponents(b) && LabelsFit(b) && GoodHash(b, hash)
    && forall c, d :: c in b.components && d in b.components ==> !ConfusedIn(b, c, d)
  }

  lemma GeneratedIsSide(b: Binding, destination: Destination, hash: string -> string)
    requires Generates(b, hash)
    ensures IsSide(SideOf(b, destination, hash))
  {
    GeneratedIsWellFormed(b, destination, hash);
    NamesAreDistinctIff(b, destination, hash);
  }

  // So two bindings without confused components settle exactly if, wherever components of theirs get
  // one name, what is generated for these is the same up to the labels of others.
  lemma GeneratedPairConvergesIff(s: Store, b: Binding, b': Binding, destination: Destination, destination': Destination,
                                  hash: string -> string, n: nat)
    requires b.uid != b'.uid && Generates(b, hash) && Generates(b', hash)
    ensures var x, y := SideOf(b, destination, hash), SideOf(b', destination', hash);
            var settled := ConvergedFor(Rounds(s, x, y, 2), x) && ConvergedFor(Rounds(s, x, y, 2), y)
                           && Rounds(s, x, y, n + 2) == Rounds(s, x, y, 2);
            settled <==>
              forall c, c' :: c in b.components && c' in b'.components && NameFor(b, c.name, hash) == NameFor(b', c'.name, hash) ==>
                AsExpected(ExpectedFor(b', c', destination'), ExpectedFor(b, c, destination))
  {
    var x, y := SideOf(b, destination, hash), SideOf(b', destination', hash);
    GeneratedIsSide(b, destination, hash);
    GeneratedIsSide(b', destination', hash);
    PairConvergesIff(s, x, y, n);
    GeneratedAgreeIff(b, b', destination, destination', hash);
  }

  lemma GeneratedAgreeIff(b: Binding, b': Binding, destination: Destination, destination': Destination, hash: string -> string)
    ensures Agree(SideOf(b, destination, hash), SideOf(b', destination', hash)) <==>
              forall c, c' :: c in b.components && c' in b'.components && NameFor(b, c.name, hash) == NameFor(b', c'.name, hash) ==>
                AsExpected(ExpectedFor(b', c', destination'), ExpectedFor(b, c, destination))
  {
    var x, y := SideOf(b, destination, hash), SideOf(b', destination', hash);
    if Agree(x, y) {
      forall c, c' | c in b.components && c' in b'.components && NameFor(b, c.name, hash) == NameFor(b', c'.name, hash)
        ensures AsExpected(ExpectedFor(b', c', destination'), ExpectedFor(b, c, destination))
      {
        ExpectedIsIn(b, destination, hash, c);
        ExpectedIsIn(b', destination', hash, c');
        assert ExpectedOf(b, destination, hash, c).name == ExpectedOf(b', destination', hash, c').name;
      }
    } else {
      var e, f :| e in x.expected && f in y.expected && e.name == f.name && !AsExpected(f.deployment, e.deployment);
      var c := AllExpectedAt(b, destination, hash, e);
      var c' := AllExpectedAt(b', destination', hash, f);
      assert NameFor(b, c.name, hash) == NameFor(b', c'.name, hash);
    }
  }

  // Two bindings whose components get one name never settle if these differ in anything but their
  // bindings' names.
  lemma SharedNameNeverSettles(b: Binding, c: Component, b': Binding, c': Component,
                               destination: Destination, destination': Destination, hash: string -> string)
    requires c in b.components && c' in b'.components && NameFor(b, c.name, hash) == NameFor(b', c'.name, hash)
    requires b.application != b'.application || b.environment != b'.environment || c.name != c'.name
    ensures !exists t :: ConvergedFor(t, SideOf(b, destination, hash)) && ConvergedFor(t, SideOf(b', destination', hash))
  {
    var x, y := SideOf(b, destination, hash), SideOf(b', destination', hash);
    var e, f := ExpectedOf(b, destination, hash, c), ExpectedOf(b', destination', hash, c');
    ExpectedIsIn(b, destination, hash, c);
    ExpectedIsIn(b', destination', hash, c');
    DifferentLabelsDisagree(b, c, b', c', destination, destination');
    assert e in x.expected && f in y.expected && e.name == f.name && !AsExpected(f.deployment, e.deployment);
    if t :| ConvergedFor(t, x) && ConvergedFor(t, y) {
      ConvergedSidesAgree(t, x, y);
    }
  }

  // Such bindings are easily found: "x" and "x-a".
  lemma NeighboursNeverSettle(b: Binding, c: Component, b': Binding, c': Component,
                              destination: Destination, destination': Destination, hash: string -> string)
    requires c in b.components && c' in b'.components
    requires b'.name.chars == b.name.chars + "-" + b.application.chars && b'.application == b.environment
    requires c.name.chars == b'.environment.chars + "-" + c'.name.chars
    requires |b.name.chars| + |b.application.chars| + |b.environment.chars| + |c.name.chars| + 3 <= MAX_NAME_LENGTH
    ensures !exists t :: ConvergedFor(t, SideOf(b, destination, hash)) && ConvergedFor(t, SideOf(b', destination', hash))
  {
    NamesCollideAcross(b.name.chars, b.application.chars, b.environment.chars, b'.environment.chars, c'.name.chars, hash);
    assert |c.name.chars| > |c'.name.chars|;
    SharedNameNeverSettles(b, c, b', c', destination, destination', hash);
  }
}
