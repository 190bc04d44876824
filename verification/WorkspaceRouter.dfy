// The workspace event loop: the state it updates in place, and its message handlers.
module WorkspaceRouters {
  import opened Wrappers
  import opened EventRouting

  lemma AddMessage(messages: set<Message>, m: Message)
    requires m !in messages
    ensures multiset(messages + {m}) == multiset(messages) + multiset{m}
  {
  }

  function RequeuedOf(held: map<Name, Event>, names: set<Name>): set<Message>
    requires names <= held.Keys
  {
    set n | n in names :: EventMessage(false, Some(held[n]))
  }

  class WorkspaceRouter {
    // Messages sent to the router and not received by it yet, by whichever goroutine.
    var input: multiset<Message>
    // GitOpsDeployment name -> SyncRun name -> last event that referenced it.
    var orphanedResources: map<Name, map<Name, Event>>
    // GitOpsDeployment name -> application loop.
    var applicationMap: map<Name, nat>
    // The deployments that application loops were started for.
    var started: seq<Name>
    ghost var ledger: Ledger

    ghost function State(): Router
      reads this
    {
      Router(input, orphanedResources, applicationMap, started, ledger)
    }

    ghost predicate Valid()
      reads this
    {
      Conserved(State())
    }

    constructor ()
      ensures Valid() && State() == NewRouter()
    {
      input, orphanedResources, applicationMap, started, ledger := multiset{}, map[], map[], [], map[];
    }

    method SendMessage(m: Message)
      requires Valid() && (m.EventMessage? && m.event.Some? ==> m.event.value.id !in ledger)
      modifies this
      ensures Valid() && State() == Arrive(old(State()), m)
    {
      ArriveConserves(State(), m);
      input := input + multiset{m};
      if m.EventMessage? && m.event.Some? {
        ledger := ledger[m.event.value.id := Entry(m.event.value, InFlight)];
      }
    }

    // Receives one of the messages sent; `a` is what the outside world answers meanwhile.
    method ProcessMessage(m: Message, a: Answers)
      requires Valid() && m in input
      modifies this
      ensures Valid() && State() == Handle(old(State()), m, a)
    {
      HandleConserves(State(), m, a);
      ghost var before := State();
      input := input - multiset{m};
      match m
      case EventMessage(workComplete, event) =>
        if event.Some? {
          TakenOff(before, m, event.value);
          HandleEventMessage(m, event.value, a);
        }
      case EnvironmentProcessed(_) =>
      case StatusTicker => CheckStatus(a.alive);
    }

    method HandleEventMessage(m: Message, e: Event, a: Answers)
      requires m.EventMessage? && m.event == Some(e) && Handling(State(), e)
      modifies this
      ensures State() == HandleEvent(old(State()), e, m, a)
    {
      if m.workComplete {
        ledger := ledger[e.id := Entry(e, Dropped(WorkComplete))];
        return;
      }
      if e.resource.Deployment? {
        UnorphanResources(e, a.readable);
      }
      if e.resource.RepositoryCredential? || e.resource.ManagedEnvironment? {
        ledger := ledger[e.id := Entry(e, Delegated)];
        return;
      }
      var name: Option<Name> := None;
      if e.resource.Deployment? {
        name := Some(e.name);
      } else if e.resource.SyncRun? {
        name := CheckIfOrphaned(e, a);
        if name.None? {
          return;
        }
      }
      if name.None? {
        ledger := ledger[e.id := Entry(e, Dropped(NoDeploymentName))];
        return;
      }
      DeliverTo(name.value, m, e, a);
    }

    method DeliverTo(d: Name, m: Message, e: Event, a: Answers)
      modifies this
      ensures State() == Deliver(old(State()), e, d, m, a)
    {
      if d !in applicationMap {
        if !a.starts {
          ledger := ledger[e.id := Entry(e, Dropped(LoopNotStarted))];
          return;
        }
        applicationMap := applicationMap[d := |started|];
        started := started + [d];
      }
      if a.accepts {
        ledger := ledger[e.id := Entry(e, Accepted(applicationMap[d]))];
      } else {
        applicationMap := applicationMap - {d};
        input := input + multiset{m};
      }
    }

    // The deployment that a SyncRun event is for; None if there is nothing to send it to.
    method CheckIfOrphaned(e: Event, a: Answers) returns (name: Option<Name>)
      requires e.resource.SyncRun?
      modifies this`orphanedResources, this`ledger
      ensures match a.syncRun
              case Gone(Some(d)) => name == Some(d) && State() == old(State())
              case Refers(d, Exists) => name == Some(d) && State() == old(State())
              case Refers(d, Missing) => name.None? && State() == Hold(old(State()), e, d)
              case Refers(d, ReadError) => name.None? && State() == Settle(old(State()), e, Dropped(DeploymentUnreadable))
              case Gone(None) => name.None? && State() == Settle(old(State()), e, Dropped(SyncRunUnknown))
              case Unreadable => name.None? && State() == Settle(old(State()), e, Dropped(SyncRunUnreadable))
    {
      match a.syncRun
      case Gone(recorded) =>
        if recorded.None? {
          ledger := ledger[e.id := Entry(e, Dropped(SyncRunUnknown))];
        }
        return recorded;
      case Unreadable =>
        ledger := ledger[e.id := Entry(e, Dropped(SyncRunUnreadable))];
        return None;
      case Refers(d, found) =>
        if found.Exists? {
          return Some(d);
        }
        if found.ReadError? {
          ledger := ledger[e.id := Entry(e, Dropped(DeploymentUnreadable))];
          return None;
        }
        var deployments := if d in orphanedResources then orphanedResources[d] else map[];
        if e.name in deployments {
          ledger := ledger[deployments[e.name].id := Entry(deployments[e.name], Superseded(e.id))];
        }
        orphanedResources := orphanedResources[d := deployments[e.name := e]];
        ledger := ledger[e.id := Entry(e, Held(d))];
        return None;
    }

    method UnorphanResources(e: Event, readable: bool)
      requires e.resource.Deployment? && SlotsOk(orphanedResources)
      modifies this`input, this`orphanedResources, this`ledger
      ensures State() == Unorphan(old(State()), e, readable)
    {
      ghost var before := State();
      if e.name !in orphanedResources || !readable {
        return;
      }
      var held := orphanedResources[e.name];
      var requeue: multiset<Message> := multiset{};
      var left := held.Keys;
      while left != {}
        invariant left <= held.Keys && State() == before
        invariant requeue == multiset(RequeuedOf(held, held.Keys - left))
      {
        var n :| n in left;
        var m := EventMessage(false, Some(held[n]));
        assert forall k :: k in held.Keys - left ==> held[k].name != held[n].name;
        AddMessage(RequeuedOf(held, held.Keys - left), m);
        assert RequeuedOf(held, held.Keys - (left - {n})) == RequeuedOf(held, held.Keys - left) + {m};
        requeue := requeue + multiset{m};
        left := left - {n};
      }
      assert RequeuedOf(held, held.Keys - left) == Requeued(held);
      orphanedResources := orphanedResources - {e.name};
      input := input + requeue;
      ledger := map id | id in ledger ::
                  if ledger[id].place == Held(e.name) then Entry(ledger[id].event, InFlight) else ledger[id];
      assert ledger == Unorphan(before, e, readable).ledger;
    }

    // Application loops that do not accept a status check leave the map.
    method CheckStatus(alive: set<Name>)
      modifies this`applicationMap
      ensures applicationMap == map d | d in old(applicationMap) && d in alive :: old(applicationMap)[d]
    {
      var names := applicationMap.Keys;
      var left := names;
      while left != {}
        invariant left <= names
        invariant forall d :: d in applicationMap <==> d in names && (d in left || d in alive)
        invariant forall d :: d in applicationMap ==> applicationMap[d] == old(applicationMap)[d]
      {
        var d :| d in left;
        if d !in alive {
          applicationMap := applicationMap - {d};
        }
        left := left - {d};
      }
    }
  }
}
