// The controller event loop: it shards events by workspace id.
module ControllerRouters {
  import opened Wrappers

  datatype Event = Event(workspace: Name, namespace: Name, payload: nat)

  // A workspace event loop, started for a namespace, and the messages sent to it so far.
  datatype WorkspaceLoop = WorkspaceLoop(namespace: Name, messages: seq<Event>)

  // The events of one workspace, in the order in which they came.
  function Addressed(input: seq<Event>, w: Name): seq<Event> {
    if input == [] then []
    else
      var last, before := input[|input| - 1], Addressed(input[..|input| - 1], w);
      if last.workspace == w then before + [last] else before
  }

  // Each workspace that has events has one loop, started once, which got exactly those events.
  ghost predicate ShardOf(input: seq<Event>, w: Name, loops: map<Name, WorkspaceLoop>, starts: multiset<Name>) {
    var mine := Addressed(input, w);
    if mine == [] then w !in loops && starts[w] == 0
    else w in loops && starts[w] == 1 && loops[w] == WorkspaceLoop(mine[0].namespace, mine)
  }

  lemma OneMoreEvent(input: seq<Event>, i: nat, w: Name)
    requires i < |input|
    ensures Addressed(input[..i + 1], w) ==
              if input[i].workspace == w then Addressed(input[..i], w) + [input[i]] else Addressed(input[..i], w)
  {
    assert input[..i + 1][..i] == input[..i];
  }

  // What the endless loop has done once it has received `input`; `starts` counts the loops started.
  method RouteAll(input: seq<Event>) returns (workspaceEntries: map<Name, WorkspaceLoop>, starts: multiset<Name>)
    ensures forall w :: ShardOf(input, w, workspaceEntries, starts)
  {
    workspaceEntries, starts := map[], multiset{};
    for i := 0 to |input|
      invariant forall w :: ShardOf(input[..i], w, workspaceEntries, starts)
    {
      var event := input[i];
      ghost var entries0, starts0 := workspaceEntries, starts;
      assert ShardOf(input[..i], event.workspace, entries0, starts0);
      if event.workspace !in workspaceEntries {
        workspaceEntries := workspaceEntries[event.workspace := WorkspaceLoop(event.namespace, [])];
        starts := starts + multiset{event.workspace};
      }
      var entry := workspaceEntries[event.workspace];
      workspaceEntries := workspaceEntries[event.workspace := entry.(messages := entry.messages + [event])];
      ghost var received := input[..i + 1];
      forall w ensures ShardOf(received, w, workspaceEntries, starts) {
        OneMoreEvent(input, i, w);
        assert ShardOf(input[..i], w, entries0, starts0);
      }
    }
    assert input[..|input|] == input;
  }

  // Two events of one workspace reach its loop in the order in which they came.
  lemma {:induction false} AddressedKeepsOrder(input: seq<Event>, i: nat, j: nat) returns (k: nat, l: nat)
    requires i < j < |input| && input[i].workspace == input[j].workspace
    ensures var mine := Addressed(input, input[i].workspace);
            k < l < |mine| && mine[k] == input[i] && mine[l] == input[j]
  {
    var n := |input| - 1;
    var before := input[..n];
    assert before[i] == input[i];
    if j < n {
      assert before[j] == input[j];
      k, l := AddressedKeepsOrder(before, i, j);
    } else {
      k := AddressedHas(before, i);
      l := |Addressed(before, input[i].workspace)|;
    }
  }

  lemma {:induction false} AddressedHas(input: seq<Event>, i: nat) returns (k: nat)
    requires i < |input|
    ensures var mine := Addressed(input, input[i].workspace); k < |mine| && mine[k] == input[i]
  {
    var n := |input| - 1;
    var before := input[..n];
    if i < n {
      assert before[i] == input[i];
      k := AddressedHas(before, i);
    } else {
      k := |Addressed(before, input[i].workspace)|;
    }
  }
}
