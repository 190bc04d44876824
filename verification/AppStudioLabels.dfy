// Labels whose keys contain "appstudio.openshift.io": what is generated for a GitOpsDeployment, how
// its labels are compared with what is expected, and how they are brought in line.
module AppStudioLabels {
  import opened Wrappers

  const APPSTUDIO_LABEL_KEY := "appstudio.openshift.io"
  const APPLICATION_KEY := Text(APPSTUDIO_LABEL_KEY + "/application")
  const COMPONENT_KEY := Text(APPSTUDIO_LABEL_KEY + "/component")
  const ENVIRONMENT_KEY := Text(APPSTUDIO_LABEL_KEY + "/environment")
  const MAX_LABEL_LENGTH := 63

  // A nil map and an empty one are the same here.
  type Labels = map<Text, Text>

  predicate Contains(s: string, part: string) {
    part <= s || (s != [] && Contains(s[1..], part))
  }

  predicate IsAppStudio(key: Text) {
    Contains(key.chars, APPSTUDIO_LABEL_KEY)
  }

  lemma {:induction false} ContainedSomewhere(s: string, part: string) returns (before: string, after: string)
    requires Contains(s, part)
    ensures s == before + part + after
  {
    if part <= s {
      before, after := "", s[|part|..];
    } else {
      before, after := ContainedSomewhere(s[1..], part);
      before := [s[0]] + before;
    }
  }

  lemma {:induction false} Contained(before: string, part: string, after: string)
    ensures Contains(before + part + after, part)
  {
    if before == "" {
      assert "" + part + after == part + after;
    } else {
      assert (before + part + after)[1..] == before[1..] + part + after;
      Contained(before[1..], part, after);
    }
  }

  // A label is AppStudio's exactly if its key has "appstudio.openshift.io" in it.
  lemma IsAppStudioIff(key: Text)
    ensures IsAppStudio(key) <==> exists before, after :: key.chars == before + "appstudio.openshift.io" + after
  {
    if IsAppStudio(key) {
      var before, after := ContainedSomewhere(key.chars, APPSTUDIO_LABEL_KEY);
    }
    if before, after :| key.chars == before + "appstudio.openshift.io" + after {
      Contained(before, APPSTUDIO_LABEL_KEY, after);
    }
  }

  lemma OwnKeysAreAppStudio()
    ensures IsAppStudio(APPLICATION_KEY) && IsAppStudio(COMPONENT_KEY) && IsAppStudio(ENVIRONMENT_KEY)
    ensures APPLICATION_KEY != COMPONENT_KEY && COMPONENT_KEY != ENVIRONMENT_KEY && ENVIRONMENT_KEY != APPLICATION_KEY
  {
    SuffixesDiffer("/application", "/component");
    SuffixesDiffer("/component", "/environment");
    SuffixesDiffer("/environment", "/application");
  }

  lemma SuffixesDiffer(one: string, other: string)
    requires one != other
    ensures APPSTUDIO_LABEL_KEY + one != APPSTUDIO_LABEL_KEY + other
  {
    assert (APPSTUDIO_LABEL_KEY + one)[|APPSTUDIO_LABEL_KEY|..] == one;
    assert (APPSTUDIO_LABEL_KEY + other)[|APPSTUDIO_LABEL_KEY|..] == other;
  }

  // ---- the maps ----

  function Only(labels: Labels, appStudio: bool): Labels {
    map k | k in labels && IsAppStudio(k) == appStudio :: labels[k]
  }

  predicate LabelsEqual(x: Labels, y: Labels) {
    Only(x, true) == Only(y, true)
  }

  function Merged(actual: Labels, expected: Labels): Labels {
    Only(actual, false) + expected
  }

  // Removes the AppStudio labels from a map, or all the others.
  method RemoveLabels(labels: Labels, appStudio: bool) returns (rest: Labels)
    ensures rest == Only(labels, !appStudio)
  {
    rest := labels;
    var left := labels.Keys;
    while left != {}
      invariant left <= labels.Keys
      invariant forall k :: k in rest <==> k in labels && (k in left || IsAppStudio(k) != appStudio)
      invariant forall k :: k in rest ==> rest[k] == labels[k]
    {
      var k :| k in left;
      if IsAppStudio(k) == appStudio {
        rest := rest - {k};
      }
      left := left - {k};
    }
  }

  method AreLabelsEqual(x: Labels, y: Labels) returns (equal: bool)
    ensures equal <==> LabelsEqual(x, y)
  {
    var newX := RemoveLabels(x, false);
    var newY := RemoveLabels(y, false);
    equal := newX == newY;
  }

  method UpdateWithExpected(actual: Labels, expected: Labels) returns (labels: Labels)
    ensures labels == Merged(actual, expected)
  {
    labels := RemoveLabels(actual, true);
    var left := expected.Keys;
    while left != {}
      invariant left <= expected.Keys
      invariant forall k :: k in labels <==> (k in expected && k !in left) || k in Only(actual, false)
      invariant forall k :: k in labels ==>
                  labels[k] == if k in expected && k !in left then expected[k] else Only(actual, false)[k]
    {
      var k :| k in left;
      labels := labels[k := expected[k]];
      left := left - {k};
    }
  }

  // ---- merging agrees with comparing ----

  // Merging makes the comparison succeed; it changes nothing exactly if that succeeded already.
  lemma MergingMakesEqual(actual: Labels, expected: Labels)
    requires Only(expected, false) == map[]
    ensures LabelsEqual(expected, Merged(actual, expected))
    ensures LabelsEqual(expected, actual) <==> Merged(actual, expected) == actual
    ensures Merged(Merged(actual, expected), expected) == Merged(actual, expected)
  {
    AllAppStudio(expected);
    var merged := Merged(actual, expected);
    assert Only(merged, true) == expected;
    assert Only(expected, true) == expected;
    assert Only(merged, false) == Only(actual, false);
    if LabelsEqual(expected, actual) {
      assert actual == Only(actual, false) + Only(actual, true);
    }
  }

  lemma AllAppStudio(labels: Labels)
    requires Only(labels, false) == map[]
    ensures forall k :: k in labels ==> IsAppStudio(k)
  {
    forall k | k in labels ensures IsAppStudio(k) {
      assert !IsAppStudio(k) ==> k in Only(labels, false);
    }
  }

  // Merging leaves the labels of others alone exactly if what is expected says nothing new about them.
  lemma MergingKeepsOthersIff(actual: Labels, expected: Labels)
    ensures Only(Merged(actual, expected), false) == Only(actual, false) <==>
              forall k :: k in expected && !IsAppStudio(k) ==> k in actual && actual[k] == expected[k]
  {
    var merged := Merged(actual, expected);
    if forall k :: k in expected && !IsAppStudio(k) ==> k in actual && actual[k] == expected[k] {
      assert Only(merged, false) == Only(actual, false);
    }
    if Only(merged, false) == Only(actual, false) {
      forall k | k in expected && !IsAppStudio(k) ensures k in actual && actual[k] == expected[k] {
        assert k in Only(merged, false) && Only(merged, false)[k] == expected[k];
      }
    }
  }

  // AppStudio labels that are not expected are gone.
  lemma MergingRemovesStale(actual: Labels, expected: Labels, k: Text)
    requires IsAppStudio(k)
    ensures k in Merged(actual, expected) <==> k in expected
  {
    assert k !in Only(actual, false);
  }

  // ---- generation ----

  function Generated(bindingLabels: Labels, application: Text, component: Text, environment: Text): Labels {
    Only(bindingLabels, true)[APPLICATION_KEY := application][COMPONENT_KEY := component][ENVIRONMENT_KEY := environment]
  }

  predicate Fits(value: Text) {
    |value.chars| <= MAX_LABEL_LENGTH
  }

  // The labels of the GitOpsDeployment of one component; None if a value is too long for a label.
  method GenerateLabels(bindingLabels: Labels, application: Text, component: Text, environment: Text)
    returns (labels: Option<Labels>)
    ensures labels == if Fits(application) && Fits(component) && Fits(environment)
                      then Some(Generated(bindingLabels, application, component, environment)) else None
    ensures labels.Some? <==> |application.chars| <= 63 && |component.chars| <= 63 && |environment.chars| <= 63
    ensures labels.Some? ==> Only(labels.value, false) == map[]
    ensures labels.Some? ==> forall k :: IsAppStudio(k) && k !in {APPLICATION_KEY, COMPONENT_KEY, ENVIRONMENT_KEY} ==>
              (k in labels.value <==> k in bindingLabels) && (k in bindingLabels ==> labels.value[k] == bindingLabels[k])
  {
    var result: Labels := map[];
    var left := bindingLabels.Keys;
    while left != {}
      invariant left <= bindingLabels.Keys
      invariant forall k :: k in result <==> k in bindingLabels && k !in left && IsAppStudio(k)
      invariant forall k :: k in result ==> result[k] == bindingLabels[k]
    {
      var k :| k in left;
      if IsAppStudio(k) {
        result := result[k := bindingLabels[k]];
      }
      left := left - {k};
    }
    assert result == Only(bindingLabels, true);
    if !Fits(application) || !Fits(component) || !Fits(environment) {
      return None;
    }
    result := result[APPLICATION_KEY := application];
    result := result[COMPONENT_KEY := component];
    result := result[ENVIRONMENT_KEY := environment];
    GeneratedAreAppStudio(bindingLabels, application, component, environment);
    result := RemoveLabels(result, false);
    return Some(result);
  }

  lemma GeneratedAreAppStudio(bindingLabels: Labels, application: Text, component: Text, environment: Text)
    ensures var labels := Generated(bindingLabels, application, component, environment);
            && Only(labels, true) == labels && Only(labels, false) == map[]
            && labels[APPLICATION_KEY] == application && labels[COMPONENT_KEY] == component
            && labels[ENVIRONMENT_KEY] == environment
  {
    OwnKeysAreAppStudio();
  }
}
