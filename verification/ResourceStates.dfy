// The states of the resources of an Argo CD application: how they are collected from the
// application's status and its last sync, and how states of one resource are grouped.
module ResourceStates {
  import opened Wrappers

  datatype Id = Id(group: Text, kind: Text, namespace: Text, name: Text)

  // What the application's status says of a resource, and what its last sync did to one.
  datatype ResourceStatus = ResourceStatus(id: Id, status: Text, health: Option<Text>)
  datatype SyncResult = SyncResult(id: Id, hookPhase: Text, status: Text, hookType: Text, message: Text)

  datatype Field = Status | Health | Hook | Message
  datatype Fields = Fields(status: Text, health: Text, hook: Text, message: Text) {
    function Get(f: Field): Text {
      match f
      case Status => status
      case Health => health
      case Hook => hook
      case Message => message
    }
  }
  datatype State = State(id: Id, fields: Fields)

  function Key(id: Id): Text {
    Text(id.group.chars + "/" + id.kind.chars + "/" + id.namespace.chars + "/" + id.name.chars)
  }

  // ---- merging ----

  // The last value that is not blank; blank if there is none.
  function LastNonBlank(values: seq<Text>): Text {
    if values == [] then BLANK
    else if values[|values| - 1] != BLANK then values[|values| - 1]
    else LastNonBlank(values[..|values| - 1])
  }

  lemma {:induction false} LastNonBlankIsLast(values: seq<Text>)
    ensures LastNonBlank(values) == BLANK <==> forall v :: v in values ==> v == BLANK
    ensures LastNonBlank(values) != BLANK ==>
              exists k :: 0 <= k < |values| && values[k] == LastNonBlank(values)
                          && forall j :: k < j < |values| ==> values[j] == BLANK
  {
    if values == [] {
    } else if values[|values| - 1] == BLANK {
      var before := values[..|values| - 1];
      LastNonBlankIsLast(before);
      assert values == before + [BLANK];
      if LastNonBlank(before) != BLANK {
        var k :| 0 <= k < |before| && before[k] == LastNonBlank(before) && forall j :: k < j < |before| ==> before[j] == BLANK;
        assert values[k] == LastNonBlank(values) && values[k] in values;
      }
    } else {
      assert values[|values| - 1] in values;
    }
  }

  // The values of a field in the states with a key.
  function Values(states: seq<State>, key: Text, f: Field): seq<Text> {
    if states == [] then []
    else
      var before, last := Values(states[..|states| - 1], key, f), states[|states| - 1];
      if Key(last.id) == key then before + [last.fields.Get(f)] else before
  }

  // The fields that a group of states comes down to.
  function Grouped(states: seq<State>, key: Text): Fields {
    Fields(LastNonBlank(Values(states, key, Status)), LastNonBlank(Values(states, key, Health)),
           LastNonBlank(Values(states, key, Hook)), LastNonBlank(Values(states, key, Message)))
  }

  function Over(old_: Text, new_: Text): Text {
    if new_ != BLANK then new_ else old_
  }

  function Merged(a: Fields, b: Fields): Fields {
    Fields(Over(a.status, b.status), Over(a.health, b.health), Over(a.hook, b.hook), Over(a.message, b.message))
  }

  ghost predicate HasKey(states: seq<State>, key: Text) {
    exists i :: 0 <= i < |states| && Key(states[i].id) == key
  }

  lemma OneMoreValue(states: seq<State>, i: nat, key: Text, f: Field)
    requires i < |states|
    ensures LastNonBlank(Values(states[..i + 1], key, f)) ==
              if Key(states[i].id) == key then Over(LastNonBlank(Values(states[..i], key, f)), states[i].fields.Get(f))
              else LastNonBlank(Values(states[..i], key, f))
  {
    assert states[..i + 1][..i] == states[..i];
    var values := Values(states[..i], key, f);
    assert (values + [states[i].fields.Get(f)])[..|values|] == values;
  }

  lemma OneMoreState(states: seq<State>, i: nat, key: Text)
    requires i < |states|
    ensures HasKey(states[..i + 1], key) <==> HasKey(states[..i], key) || Key(states[i].id) == key
    ensures Grouped(states[..i + 1], key) ==
              if Key(states[i].id) == key then Merged(Grouped(states[..i], key), states[i].fields) else Grouped(states[..i], key)
  {
    OneMoreValue(states, i, key, Status);
    OneMoreValue(states, i, key, Health);
    OneMoreValue(states, i, key, Hook);
    OneMoreValue(states, i, key, Message);
    var before, more := states[..i], states[..i + 1];
    if HasKey(before, key) {
      var j :| 0 <= j < |before| && Key(before[j].id) == key;
      assert more[j] == before[j];
    }
    assert more[i] == states[i];
  }

  lemma NoStates(states: seq<State>, key: Text)
    requires !HasKey(states, key)
    ensures Grouped(states, key) == Fields(BLANK, BLANK, BLANK, BLANK)
  {
    forall f ensures Values(states, key, f) == [] {
      NoValues(states, key, f);
    }
  }

  lemma {:induction false} NoValues(states: seq<State>, key: Text, f: Field)
    requires !HasKey(states, key)
    ensures Values(states, key, f) == []
  {
    if states != [] {
      var before := states[..|states| - 1];
      forall j | 0 <= j < |before| ensures Key(before[j].id) != key {
        assert states[j] == before[j];
      }
      assert Key(states[|states| - 1].id) != key;
      NoValues(before, key, f);
    }
  }

  class ResourceState {
    const id: Id
    var status: Text
    var health: Text
    var hook: Text
    var message: Text

    constructor (id: Id, fields: Fields)
      ensures this.id == id && Now() == State(id, fields)
    {
      this.id := id;
      status, health, hook, message := fields.status, fields.health, fields.hook, fields.message;
    }

    function Now(): State
      reads this
    {
      State(id, Fields(status, health, hook, message))
    }

    // Every field takes the new value unless that is blank; tells whether a field changed.
    method Merge(newState: ResourceState) returns (updated: bool)
      requires newState != this
      modifies this
      ensures Now().fields == Merged(old(Now()).fields, newState.Now().fields)
      ensures updated <==> Now() != old(Now())
    {
      updated := false;
      if newState.status != BLANK && status != newState.status {
        status, updated := newState.status, true;
      }
      if newState.health != BLANK && health != newState.health {
        health, updated := newState.health, true;
      }
      if newState.hook != BLANK && hook != newState.hook {
        hook, updated := newState.hook, true;
      }
      if newState.message != BLANK && message != newState.message {
        message, updated := newState.message, true;
      }
    }
  }

  ghost function Snapshot(states: seq<ResourceState>): seq<State>
    reads states
  {
    seq(|states|, i requires 0 <= i < |states| reads states => states[i].Now())
  }

  ghost predicate Distinct(states: seq<ResourceState>) {
    forall i, j :: 0 <= i < j < |states| ==> states[i] != states[j]
  }

  // `groups` has one entry for each key of the states: the fields that they come down to.
  ghost predicate Groups(groups: map<Text, Fields>, states: seq<State>) {
    && (forall key :: key in groups <==> HasKey(states, key))
    && (forall key :: key in groups ==> groups[key] == Grouped(states, key))
  }

  lemma GroupsGrow(groups: map<Text, Fields>, states: seq<State>, i: nat)
    requires i < |states| && Groups(groups, states[..i])
    ensures var k, fields := Key(states[i].id), states[i].fields;
            Groups(groups[k := if k in groups then Merged(groups[k], fields) else fields], states[..i + 1])
  {
    var k, fields := Key(states[i].id), states[i].fields;
    var groups' := groups[k := if k in groups then Merged(groups[k], fields) else fields];
    if k !in groups {
      NoStates(states[..i], k);
    }
    forall key ensures (key in groups' <==> HasKey(states[..i + 1], key))
                    && (key in groups' ==> groups'[key] == Grouped(states[..i + 1], key)) {
      OneMoreState(states, i, key);
    }
  }

  ghost function FieldsOf(resStates: map<Text, ResourceState>): map<Text, Fields>
    reads resStates.Values
  {
    map key | key in resStates :: resStates[key].Now().fields
  }

  // The objects in the map are objects of the list, under their keys.
  ghost predicate Indexed(resStates: map<Text, ResourceState>, states: seq<ResourceState>) {
    forall key :: key in resStates ==> resStates[key] in states && Key(resStates[key].id) == key
  }

  // Takes one more state into its group.
  method Include(resStates: map<Text, ResourceState>, seen: seq<ResourceState>, result: ResourceState)
    returns (resStates': map<Text, ResourceState>)
    requires Indexed(resStates, seen) && result !in seen
    modifies seen
    ensures Indexed(resStates', seen + [result])
    ensures var k, groups, fields := Key(result.id), old(FieldsOf(resStates)), result.Now().fields;
            FieldsOf(resStates') == groups[k := if k in groups then Merged(groups[k], fields) else fields]
  {
    var k := Key(result.id);
    resStates' := resStates;
    if k in resStates {
      var prev := resStates[k];
      assert forall key :: key in resStates && key != k ==> resStates[key] != prev;
      var _ := prev.Merge(result);
    } else {
      resStates' := resStates[k := result];
    }
  }

  // One state for each key; each of its fields is the last value of that field that is not blank.
  method GroupResourceStates(states: seq<ResourceState>) returns (resStates: map<Text, ResourceState>)
    requires Distinct(states)
    modifies states
    ensures Indexed(resStates, states) && Groups(FieldsOf(resStates), old(Snapshot(states)))
  {
    resStates := map[];
    ghost var was := Snapshot(states);
    for i := 0 to |states|
      invariant forall j :: i <= j < |states| ==> states[j].Now() == was[j]
      invariant Indexed(resStates, states[..i])
      invariant Groups(FieldsOf(resStates), was[..i])
    {
      GroupsGrow(FieldsOf(resStates), was, i);
      assert forall j :: i < j < |states| ==> states[j] !in states[..i];
      assert states[..i + 1] == states[..i] + [states[i]] && states[i] !in states[..i];
      resStates := Include(resStates, states[..i], states[i]);
    }
    assert was[..|states|] == was && states[..|states|] == states;
  }

  // ---- collecting ----

  // The last entry for a resource: a later one replaces an earlier one in the map by key.
  function Find(resources: seq<ResourceStatus>, id: Id): (r: Option<ResourceStatus>)
    ensures r.Some? ==> r.value in resources && r.value.id == id
    ensures r.None? ==> forall res :: res in resources ==> res.id != id
  {
    if resources == [] then None
    else
      var last, before := resources[|resources| - 1], resources[..|resources| - 1];
      assert resources == before + [last];
      if last.id == id then Some(last) else Find(before, id)
  }

  function HealthOf(res: ResourceStatus): Text {
    if res.health.Some? then res.health.value else BLANK
  }

  // A result that is no hook reports the live state of its resource, the first time.
  function ResultState(res: SyncResult, live: Option<ResourceStatus>): State {
    if live.Some? && res.hookType == BLANK
    then State(res.id, Fields(live.value.status, HealthOf(live.value), res.hookType, res.message))
    else State(res.id, Fields(res.hookPhase, res.status, res.hookType, res.message))
  }

  function LiveState(res: ResourceStatus): State {
    State(res.id, Fields(res.status, HealthOf(res), BLANK, BLANK))
  }

  ghost predicate Reported(results: seq<SyncResult>, id: Id) {
    exists k :: 0 <= k < |results| && results[k].id == id
  }

  // What is left in the map by key once some results have been dealt with.
  ghost function Unreported(resources: seq<ResourceStatus>, results: seq<SyncResult>, id: Id): Option<ResourceStatus> {
    if Reported(results, id) then None else Find(resources, id)
  }

  ghost predicate Remaining(byKey: map<Id, ResourceStatus>, resources: seq<ResourceStatus>, results: seq<SyncResult>) {
    forall id :: Unreported(resources, results, id) == if id in byKey then Some(byKey[id]) else None
  }

  lemma OneMoreReported(results: seq<SyncResult>, i: nat, id: Id)
    requires i < |results|
    ensures Reported(results[..i + 1], id) <==> Reported(results[..i], id) || results[i].id == id
  {
    if Reported(results[..i], id) {
      var k :| 0 <= k < i && results[..i][k].id == id;
      assert results[..i + 1][k].id == id;
    }
    assert results[..i + 1][i] == results[i];
  }

  method IndexByKey(resources: seq<ResourceStatus>) returns (byKey: map<Id, ResourceStatus>)
    ensures Remaining(byKey, resources, [])
  {
    byKey := map[];
    for i := 0 to |resources|
      invariant Remaining(byKey, resources[..i], [])
    {
      ghost var before, seen := byKey, resources[..i + 1];
      byKey := byKey[resources[i].id := resources[i]];
      assert seen[..i] == resources[..i];
      forall id ensures Unreported(seen, [], id) == if id in byKey then Some(byKey[id]) else None {
        assert Unreported(resources[..i], [], id) == if id in before then Some(before[id]) else None;
      }
    }
    assert resources[..|resources|] == resources;
  }

  // First the results of the last sync, in order, then one state for each other resource.
  ghost predicate Collected(states: seq<State>, resources: seq<ResourceStatus>, results: seq<SyncResult>) {
    && |states| >= |results|
    && (forall i :: 0 <= i < |results| ==>
         states[i] == ResultState(results[i], Unreported(resources, results[..i], results[i].id)))
    && (forall i :: |results| <= i < |states| ==>
         Unreported(resources, results, states[i].id).Some?
         && states[i] == LiveState(Unreported(resources, results, states[i].id).value))
    && (forall i, j :: |results| <= i < j < |states| ==> states[i].id != states[j].id)
    && (forall id :: Unreported(resources, results, id).Some? ==> exists i :: 0 <= i < |states| && states[i].id == id)
  }

  method CollectResults(byKey0: map<Id, ResourceStatus>, ghost resources: seq<ResourceStatus>, results: seq<SyncResult>)
    returns (byKey: map<Id, ResourceStatus>, states: seq<State>)
    requires Remaining(byKey0, resources, [])
    ensures Remaining(byKey, resources, results) && |states| == |results|
    ensures forall i :: 0 <= i < |results| ==>
              states[i] == ResultState(results[i], Unreported(resources, results[..i], results[i].id))
  {
    byKey, states := byKey0, [];
    assert results[..0] == [];
    for k := 0 to |results|
      invariant Remaining(byKey, resources, results[..k]) && |states| == k
      invariant forall i :: 0 <= i < k ==>
                  states[i] == ResultState(results[i], Unreported(resources, results[..i], results[i].id))
    {
      var id := results[k].id;
      assert Unreported(resources, results[..k], id) == if id in byKey then Some(byKey[id]) else None;
      states := states + [ResultState(results[k], if id in byKey then Some(byKey[id]) else None)];
      ghost var before := byKey;
      byKey := byKey - {id};
      forall x ensures Unreported(resources, results[..k + 1], x) == if x in byKey then Some(byKey[x]) else None {
        OneMoreReported(results, k, x);
        assert Unreported(resources, results[..k], x) == if x in before then Some(before[x]) else None;
      }
    }
    assert results[..|results|] == results;
  }

  method CollectStates(resources: seq<ResourceStatus>, results: seq<SyncResult>) returns (states: seq<State>)
    ensures Collected(states, resources, results)
  {
    var byKey := IndexByKey(resources);
    byKey, states := CollectResults(byKey, resources, results);
    var left := byKey.Keys;
    while left != {}
      invariant left <= byKey.Keys && |results| <= |states|
      invariant forall i :: 0 <= i < |results| ==>
                  states[i] == ResultState(results[i], Unreported(resources, results[..i], results[i].id))
      invariant forall i :: |results| <= i < |states| ==>
                  states[i].id in byKey && states[i].id !in left && states[i] == LiveState(byKey[states[i].id])
      invariant forall i, j :: |results| <= i < j < |states| ==> states[i].id != states[j].id
      invariant forall id :: id in byKey && id !in left ==> exists i :: 0 <= i < |states| && states[i].id == id
    {
      var id :| id in left;
      ghost var before := states;
      states := states + [LiveState(byKey[id])];
      left := left - {id};
      assert states[|before|].id == id;
      forall x | x in byKey && x !in left ensures exists i :: 0 <= i < |states| && states[i].id == x {
        if x != id {
          var i :| 0 <= i < |before| && before[i].id == x;
          assert states[i].id == x;
        }
      }
    }
  }

  // The k-th entry is the last one for a resource.
  ghost predicate LastFor(resources: seq<ResourceStatus>, k: nat, id: Id) {
    k < |resources| && resources[k].id == id && forall j :: k < j < |resources| ==> resources[j].id != id
  }

  // No earlier result is for the resource of the i-th one.
  ghost predicate FirstFor(results: seq<SyncResult>, i: nat) {
    i < |results| && forall j :: 0 <= j < i ==> results[j].id != results[i].id
  }

  ghost predicate NotAmong(resources: seq<ResourceStatus>, id: Id) {
    forall k :: 0 <= k < |resources| ==> resources[k].id != id
  }

  lemma {:induction false} FindIsLast(resources: seq<ResourceStatus>, k: nat, id: Id)
    requires LastFor(resources, k, id)
    ensures Find(resources, id) == Some(resources[k])
  {
    var n := |resources| - 1;
    if k < n {
      assert resources[n].id != id;
      FindIsLast(resources[..n], k, id);
    }
  }

  // What is collected of a sync result: its hook and message, and, if it is the first result of its
  // resource, no hook, and the resource is in the status, the live status and health of that; in any
  // other case its own phase and status.
  lemma ResultIsCollected(states: seq<State>, resources: seq<ResourceStatus>, results: seq<SyncResult>, i: nat)
    requires Collected(states, resources, results) && i < |results|
    ensures i < |states| && states[i].id == results[i].id
    ensures states[i].fields.hook == results[i].hookType && states[i].fields.message == results[i].message
    ensures results[i].hookType == Text("") && FirstFor(results, i) ==> forall k: nat :: LastFor(resources, k, results[i].id) ==>
              && states[i].fields.status == resources[k].status
              && states[i].fields.health == if resources[k].health.Some? then resources[k].health.value else Text("")
    ensures results[i].hookType != Text("") || !FirstFor(results, i) || NotAmong(resources, results[i].id) ==>
              states[i].fields.status == results[i].hookPhase && states[i].fields.health == results[i].status
  {
    forall k: nat | LastFor(resources, k, results[i].id) ensures Find(resources, results[i].id) == Some(resources[k]) {
      FindIsLast(resources, k, results[i].id);
    }
    if j :| 0 <= j < i && results[j].id == results[i].id {
      assert results[..i][j].id == results[i].id;
    }
  }

  // What is collected of any other resource: its live status and health, and no hook or message.
  lemma RestIsCollected(states: seq<State>, resources: seq<ResourceStatus>, results: seq<SyncResult>, i: nat, k: nat)
    requires Collected(states, resources, results) && |results| <= i < |states| && LastFor(resources, k, states[i].id)
    ensures states[i].fields.status == resources[k].status
    ensures states[i].fields.health == if resources[k].health.Some? then resources[k].health.value else Text("")
    ensures states[i].fields.hook == Text("") && states[i].fields.message == Text("")
  {
    FindIsLast(resources, k, states[i].id);
  }

  // A state is collected for exactly the resources of the application's status and of its last sync.
  lemma CollectedAreAll(states: seq<State>, resources: seq<ResourceStatus>, results: seq<SyncResult>, id: Id)
    requires Collected(states, resources, results)
    ensures (exists i :: 0 <= i < |states| && states[i].id == id) <==>
              Reported(results, id) || exists res :: res in resources && res.id == id
  {
    forall i | 0 <= i < |states| ensures Reported(results, states[i].id) || Find(resources, states[i].id).Some? {
      if i < |results| {
        assert results[i].id == states[i].id;
      }
    }
    if Reported(results, id) {
      var k :| 0 <= k < |results| && results[k].id == id;
      assert states[k].id == id;
    } else if Find(resources, id).Some? {
      assert Unreported(resources, results, id).Some?;
    }
  }

  // ---- selection ----

  function Selected(states: seq<State>, selected: Id -> bool): seq<State> {
    if states == [] then []
    else if selected(states[0].id) then [states[0]] + Selected(states[1..], selected)
    else Selected(states[1..], selected)
  }

  // The list shrinks in place, from its end.
  method FilterSelected(states0: seq<State>, selected: Id -> bool) returns (states: seq<State>)
    ensures states == Selected(states0, selected)
  {
    states := states0;
    var i := |states|;
    assert states0 == states0[..i] + [];
    while i > 0
      invariant 0 <= i <= |states0|
      invariant states == states0[..i] + Selected(states0[i..], selected)
    {
      i := i - 1;
      assert states0[i..][1..] == states0[i + 1..];
      assert states[..i] == states0[..i] && states[i] == states0[i];
      assert states[i + 1..] == Selected(states0[i + 1..], selected);
      if !selected(states[i].id) {
        states := states[..i] + states[i + 1..];
      }
    }
    assert states0[0..] == states0;
  }

  // ---- all together ----

  // The states of an application, grouped: without a selection, one group for each resource of its
  // status or its last sync.
  method GroupApplication(resources: seq<ResourceStatus>, results: seq<SyncResult>, selection: Option<Id -> bool>)
    returns (resStates: map<Text, ResourceState>)
    ensures exists states :: Collected(states, resources, results)
              && Groups(FieldsOf(resStates), if selection.Some? then Selected(states, selection.value) else states)
    ensures selection.None? ==> forall id ::
              Reported(results, id) || (exists res :: res in resources && res.id == id) ==> Key(id) in resStates
  {
    var collected := CollectStates(resources, results);
    var states := collected;
    if selection.Some? {
      states := FilterSelected(collected, selection.value);
    }
    var objects: seq<ResourceState> := [];
    for i := 0 to |states|
      invariant |objects| == i && Distinct(objects) && fresh(objects)
      invariant forall j :: 0 <= j < i ==> objects[j].Now() == states[j]
    {
      var o := new ResourceState(states[i].id, states[i].fields);
      objects := objects + [o];
    }
    assert Snapshot(objects) == states;
    resStates := GroupResourceStates(objects);
    if selection.None? {
      forall id | Reported(results, id) || exists res :: res in resources && res.id == id ensures Key(id) in resStates {
        CollectedAreAll(states, resources, results, id);
        var i :| 0 <= i < |states| && states[i].id == id;
        assert HasKey(states, Key(id));
        assert Key(id) in FieldsOf(resStates);
      }
    }
  }

  // ---- keys ----

  predicate SlashFree(t: Text) {
    '/' !in t.chars
  }

  // Keys tell resources apart if groups, kinds and namespaces have no slash in them, as those of
  // Kubernetes have not.
  lemma KeyIdentifies(a: Id, b: Id)
    requires SlashFree(a.group) && SlashFree(a.kind) && SlashFree(a.namespace)
    requires SlashFree(b.group) && SlashFree(b.kind) && SlashFree(b.namespace)
    requires Key(a) == Key(b)
    ensures a == b
  {
    var restA := a.namespace.chars + "/" + a.name.chars;
    var restB := b.namespace.chars + "/" + b.name.chars;
    var kindA, kindB := a.kind.chars + "/" + restA, b.kind.chars + "/" + restB;
    assert Key(a).chars == a.group.chars + "/" + kindA;
    assert Key(b).chars == b.group.chars + "/" + kindB;
    FirstSlash(a.group.chars, kindA, b.group.chars, kindB);
    FirstSlash(a.kind.chars, restA, b.kind.chars, restB);
    FirstSlash(a.namespace.chars, a.name.chars, b.namespace.chars, b.name.chars);
  }

  lemma FirstSlash(p: string, q: string, r: string, s: string)
    requires '/' !in p && '/' !in r && p + "/" + q == r + "/" + s
    ensures p == r && q == s
  {
    var whole := p + "/" + q;
    assert whole[|p|] == '/' && forall i :: 0 <= i < |p| ==> whole[i] == p[i] && p[i] in p;
    assert whole == r + "/" + s;
    assert whole[|r|] == '/' && forall i :: 0 <= i < |r| ==> whole[i] == r[i] && r[i] in r;
    assert |p| == |r|;
    assert whole[..|p|] == p && whole[..|p|] == r;
    assert whole[|p| + 1..] == q && whole[|p| + 1..] == s;
  }
}
