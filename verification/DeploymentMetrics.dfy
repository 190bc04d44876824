// The gauges of active and of failing GitOpsDeployments.
module DeploymentMetrics {
  import opened Wrappers

  const MAX_TRACKED_DEPLOYMENTS: nat := 5000

  function InError(tracked: map<Text, bool>): set<Text> {
    set k | k in tracked && tracked[k]
  }

  // The tracked deployments once one more has been reported.
  function Added(tracked: map<Text, bool>, key: Text): map<Text, bool> {
    if key in tracked || |tracked.Keys| > MAX_TRACKED_DEPLOYMENTS then tracked else tracked[key := false]
  }

  function AddedAll(tracked: map<Text, bool>, keys: seq<Text>): map<Text, bool> {
    if keys == [] then tracked else Added(AddedAll(tracked, keys[..|keys| - 1]), keys[|keys| - 1])
  }

  // The limit that the constant names is kept exactly if the key is tracked already or there is
  // still room below the limit.
  lemma StaysWithinLimitIff(tracked: map<Text, bool>, key: Text)
    requires |tracked.Keys| <= MAX_TRACKED_DEPLOYMENTS
    ensures |Added(tracked, key).Keys| <= MAX_TRACKED_DEPLOYMENTS <==>
              key in tracked || |tracked.Keys| < MAX_TRACKED_DEPLOYMENTS
  {
    KeysWith(tracked.Keys, key);
    assert key !in tracked ==> Added(tracked, key).Keys == tracked.Keys + {key};
  }

  ghost predicate NoRepeats(keys: seq<Text>) {
    forall i, j :: 0 <= i < j < |keys| ==> keys[i] != keys[j]
  }

  // Of distinct deployments, all are tracked up to one more than the limit.
  lemma {:induction false} DistinctKeysFill(keys: seq<Text>)
    requires NoRepeats(keys)
    ensures |AddedAll(map[], keys).Keys| ==
              if |keys| <= MAX_TRACKED_DEPLOYMENTS then |keys| else MAX_TRACKED_DEPLOYMENTS + 1
    ensures forall k :: k in AddedAll(map[], keys) ==> k in keys
  {
    if keys == [] {
    } else {
      var before, last := keys[..|keys| - 1], keys[|keys| - 1];
      DistinctKeysFill(before);
      var tracked := AddedAll(map[], before);
      assert last !in before;
      KeysWith(tracked.Keys, last);
      assert tracked[last := false].Keys == tracked.Keys + {last};
    }
  }

  function Repeated(n: nat): Text {
    Text(seq(n, _ => 'x'))
  }

  // So 5,001 are reached, from an empty set.
  lemma LimitIsExceeded() returns (keys: seq<Text>)
    ensures |keys| == 5001 && |AddedAll(map[], keys).Keys| == 5001
  {
    keys := seq(5001, i requires 0 <= i => Repeated(i));
    forall i, j | 0 <= i < j < |keys| ensures keys[i] != keys[j] {
      assert |keys[i].chars| == i && |keys[j].chars| == j;
    }
    DistinctKeysFill(keys);
  }

  lemma KeysWith(keys: set<Text>, k: Text)
    ensures |keys + {k}| == |keys| + (if k in keys then 0 else 1)
    ensures |keys - {k}| == |keys| - (if k in keys then 1 else 0)
  {
    if k in keys {
      assert keys + {k} == keys;
      assert keys == (keys - {k}) + {k};
    } else {
      assert keys - {k} == keys;
    }
  }

  // ---- the set and its gauges ----

  datatype Metrics = Metrics(tracked: map<Text, bool>, active: int, failures: int)

  // The calls that hold the mutex while they change the set and its gauges.
  datatype Call = AddOrUpdate(key: Text) | Remove(key: Text) | SetErrorState(key: Text, inError: bool)

  function Called(m: Metrics, c: Call): Metrics {
    match c
    case AddOrUpdate(key) =>
      var tracked := Added(m.tracked, key);
      Metrics(tracked, |tracked.Keys|, m.failures)
    case Remove(key) =>
      var tracked := m.tracked - {key};
      Metrics(tracked, |tracked.Keys|, if key in m.tracked && m.tracked[key] then m.failures - 1 else m.failures)
    case SetErrorState(key, inError) =>
      if key !in m.tracked || m.tracked[key] == inError then m
      else Metrics(m.tracked[key := inError], m.active, if inError then m.failures + 1 else m.failures - 1)
  }

  function CalledAll(m: Metrics, calls: seq<Call>): Metrics {
    if calls == [] then m else Called(CalledAll(m, calls[..|calls| - 1]), calls[|calls| - 1])
  }

  // How far the gauge of failures is off.
  function Drift(m: Metrics): int {
    m.failures - |InError(m.tracked)|
  }

  ghost predicate Right(m: Metrics) {
    m.active == |m.tracked.Keys| && Drift(m) == 0
  }

  predicate Within(m: Metrics) {
    |m.tracked.Keys| <= MAX_TRACKED_DEPLOYMENTS + 1
  }

  lemma AddKeeps(m: Metrics, key: Text)
    ensures InError(Added(m.tracked, key)) == InError(m.tracked)
    ensures |m.tracked.Keys| <= MAX_TRACKED_DEPLOYMENTS + 1 ==> |Added(m.tracked, key).Keys| <= MAX_TRACKED_DEPLOYMENTS + 1
  {
    KeysWith(m.tracked.Keys, key);
    if Added(m.tracked, key) != m.tracked {
      assert m.tracked[key := false].Keys == m.tracked.Keys + {key};
    }
  }

  lemma RemoveKeeps(m: Metrics, key: Text)
    ensures |InError(m.tracked - {key})| == |InError(m.tracked)| - if key in m.tracked && m.tracked[key] then 1 else 0
    ensures |(m.tracked - {key}).Keys| <= |m.tracked.Keys|
  {
    KeysWith(m.tracked.Keys, key);
    KeysWith(InError(m.tracked), key);
    assert InError(m.tracked - {key}) == InError(m.tracked) - {key};
    assert (m.tracked - {key}).Keys == m.tracked.Keys - {key};
  }

  lemma SetKeeps(m: Metrics, key: Text, inError: bool)
    requires key in m.tracked && m.tracked[key] != inError
    ensures |InError(m.tracked[key := inError])| == |InError(m.tracked)| + if inError then 1 else -1
    ensures m.tracked[key := inError].Keys == m.tracked.Keys
  {
    KeysWith(InError(m.tracked), key);
    assert InError(m.tracked[key := inError]) == if inError then InError(m.tracked) + {key} else InError(m.tracked) - {key};
  }

  // No call changes how far the gauge of failures is off, and only those that add or remove set the
  // other one.
  lemma CallKeeps(m: Metrics, c: Call)
    ensures Drift(Called(m, c)) == Drift(m)
    ensures if c.SetErrorState? then |Called(m, c).tracked.Keys| == |m.tracked.Keys| && Called(m, c).active == m.active
            else Called(m, c).active == |Called(m, c).tracked.Keys|
    ensures Within(m) ==> Within(Called(m, c))
  {
    match c
    case AddOrUpdate(key) => AddKeeps(m, key);
    case Remove(key) => RemoveKeeps(m, key);
    case SetErrorState(key, inError) =>
      if key in m.tracked && m.tracked[key] != inError {
        SetKeeps(m, key, inError);
      }
  }

  // Calls that leave the gauge of tracked deployments alone.
  predicate OnlyStates(calls: seq<Call>) {
    forall i :: 0 <= i < |calls| ==> calls[i].SetErrorState?
  }

  // Whatever is called, the gauge of failures stays as far off as it is; the other one is right after
  // the first call that adds or removes.
  lemma {:induction false} CallsKeep(m: Metrics, calls: seq<Call>)
    ensures Drift(CalledAll(m, calls)) == Drift(m)
    ensures OnlyStates(calls) ==> CalledAll(m, calls).active == m.active
                                  && |CalledAll(m, calls).tracked.Keys| == |m.tracked.Keys|
    ensures !OnlyStates(calls) ==> CalledAll(m, calls).active == |CalledAll(m, calls).tracked.Keys|
    ensures Within(m) ==> Within(CalledAll(m, calls))
  {
    if calls != [] {
      var n := |calls| - 1;
      CallsKeep(m, calls[..n]);
      CallKeeps(CalledAll(m, calls[..n]), calls[n]);
      assert OnlyStates(calls) <==> OnlyStates(calls[..n]) && calls[n].SetErrorState?;
    }
  }

  // What a clear leaves: it sets one gauge and then the other to zero before it takes the mutex, so
  // that there may be `first` calls between the two, and `second` ones before it empties the set.
  function Cleared(m: Metrics, first: seq<Call>, second: seq<Call>): Metrics {
    BeforeEmptied(m, first, second).(tracked := map[])
  }

  function FailuresZeroed(m: Metrics, first: seq<Call>): Metrics {
    CalledAll(m.(active := 0), first).(failures := 0)
  }

  function BeforeEmptied(m: Metrics, first: seq<Call>, second: seq<Call>): Metrics {
    CalledAll(FailuresZeroed(m, first), second)
  }

  // A clear leaves the gauges right exactly if no call in between adds or removes, or nothing is
  // tracked any more when the set is emptied, and as many deployments are in error then as when the
  // failures were set to zero. Otherwise the gauge of failures stays wrong, whatever is called
  // afterwards.
  lemma ClearIsRightIff(m: Metrics, first: seq<Call>, second: seq<Call>, later: seq<Call>)
    ensures var zeroed, last := FailuresZeroed(m, first), BeforeEmptied(m, first, second);
            && (Right(Cleared(m, first, second)) <==>
                 && ((OnlyStates(first) && OnlyStates(second)) || last.tracked == map[])
                 && |InError(last.tracked)| == |InError(zeroed.tracked)|)
            && Drift(CalledAll(Cleared(m, first, second), later)) == |InError(last.tracked)| - |InError(zeroed.tracked)|
  {
    var zeroed, last := FailuresZeroed(m, first), BeforeEmptied(m, first, second);
    CallsKeep(m.(active := 0), first);
    CallsKeep(zeroed, second);
    CallsKeep(Cleared(m, first, second), later);
    assert InError(map[]) == {};
    assert last.tracked == map[] <==> |last.tracked.Keys| == 0;
  }

  // It happens: a deployment that fails while the metrics are cleared is counted for good.
  lemma FailureOutlivesClear(key: Text, later: seq<Call>)
    ensures var cleared := Cleared(Metrics(map[key := false], 1, 0), [], [SetErrorState(key, true)]);
            cleared.tracked == map[] && Drift(CalledAll(cleared, later)) == 1
  {
    var m := Metrics(map[key := false], 1, 0);
    ClearIsRightIff(m, [], [SetErrorState(key, true)], later);
    var zeroed := FailuresZeroed(m, []);
    assert InError(zeroed.tracked) == {};
    assert [SetErrorState(key, true)][..0] == [];
    assert BeforeEmptied(m, [], [SetErrorState(key, true)]) == Called(zeroed, SetErrorState(key, true));
    assert InError(map[key := true]) == {key};
    assert zeroed.tracked[key := true] == map[key := true];
  }

  class ActiveDeployments {
    // Tracked deployments, and whether each is in an error state.
    var gitOpsDeployments: map<Text, bool>
    var activeGauge: int
    var failureGauge: int

    ghost function Current(): Metrics
      reads this
    {
      Metrics(gitOpsDeployments, activeGauge, failureGauge)
    }

    // The gauges agree with the set, which stays bounded, by one more than the constant says.
    ghost predicate Valid()
      reads this
    {
      Right(Current()) && Within(Current())
    }

    constructor ()
      ensures Valid() && gitOpsDeployments == map[]
    {
      gitOpsDeployments, activeGauge, failureGauge := map[], 0, 0;
    }

    method AddOrUpdate(key: Text)
      modifies this
      ensures Current() == Called(old(Current()), Call.AddOrUpdate(key))
      ensures gitOpsDeployments == Added(old(gitOpsDeployments), key)
      ensures old(Valid()) ==> Valid()
    {
      CallKeeps(Current(), Call.AddOrUpdate(key));
      if |gitOpsDeployments.Keys| <= MAX_TRACKED_DEPLOYMENTS {
        if key !in gitOpsDeployments {
          gitOpsDeployments := gitOpsDeployments[key := false];
        }
      }
      activeGauge := |gitOpsDeployments.Keys|;
    }

    // Reports a list of deployments one by one.
    method AddAll(keys: seq<Text>)
      requires Valid()
      modifies this
      ensures Valid() && gitOpsDeployments == AddedAll(old(gitOpsDeployments), keys)
    {
      for i := 0 to |keys|
        invariant Valid() && gitOpsDeployments == AddedAll(old(gitOpsDeployments), keys[..i])
      {
        assert keys[..i + 1][..i] == keys[..i];
        AddOrUpdate(keys[i]);
      }
      assert keys[..|keys|] == keys;
    }

    // From an empty set, the gauge gets to 5,001.
    static method Overfill(keys: seq<Text>) returns (d: ActiveDeployments)
      requires NoRepeats(keys) && |keys| > MAX_TRACKED_DEPLOYMENTS
      ensures fresh(d) && d.Valid() && d.activeGauge == 5001
    {
      d := new ActiveDeployments();
      d.AddAll(keys);
      DistinctKeysFill(keys);
    }

    method Remove(key: Text)
      modifies this
      ensures Current() == Called(old(Current()), Call.Remove(key))
      ensures gitOpsDeployments == old(gitOpsDeployments) - {key}
      ensures old(Valid()) ==> Valid()
    {
      CallKeeps(Current(), Call.Remove(key));
      if key in gitOpsDeployments && gitOpsDeployments[key] {
        failureGauge := failureGauge - 1;
      }
      gitOpsDeployments := gitOpsDeployments - {key};
      activeGauge := |gitOpsDeployments.Keys|;
    }

    method SetErrorState(key: Text, newInErrorState: bool)
      modifies this
      ensures Current() == Called(old(Current()), Call.SetErrorState(key, newInErrorState))
      ensures gitOpsDeployments == if key in old(gitOpsDeployments) then old(gitOpsDeployments)[key := newInErrorState]
                                   else old(gitOpsDeployments)
      ensures old(Valid()) ==> Valid()
    {
      CallKeeps(Current(), Call.SetErrorState(key, newInErrorState));
      if key !in gitOpsDeployments {
        return;
      }
      var inErrorState := gitOpsDeployments[key];
      assert inErrorState == newInErrorState ==> gitOpsDeployments[key := newInErrorState] == gitOpsDeployments;
      gitOpsDeployments := gitOpsDeployments[key := newInErrorState];
      if inErrorState && !newInErrorState {
        failureGauge := failureGauge - 1;
      } else if !inErrorState && newInErrorState {
        failureGauge := failureGauge + 1;
      }
    }

    // What other goroutines call while this one is between two of its steps.
    method Others(calls: seq<Call>)
      modifies this
      ensures Current() == CalledAll(old(Current()), calls)
    {
      for i := 0 to |calls|
        invariant Current() == CalledAll(old(Current()), calls[..i])
      {
        assert calls[..i + 1][..i] == calls[..i];
        match calls[i] {
          case AddOrUpdate(key) => AddOrUpdate(key);
          case Remove(key) => Remove(key);
          case SetErrorState(key, inError) => SetErrorState(key, inError);
        }
      }
      assert calls[..|calls|] == calls;
    }

    // Sets both gauges, and only then takes the mutex.
    method Clear(first: seq<Call>, second: seq<Call>)
      modifies this
      ensures Current() == Cleared(old(Current()), first, second)
      ensures first == second == [] ==> Valid() && gitOpsDeployments == map[]
    {
      activeGauge := 0;
      Others(first);
      failureGauge := 0;
      Others(second);
      gitOpsDeployments := map[];
    }
  }
}
