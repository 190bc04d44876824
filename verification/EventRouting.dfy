// Where a workspace router takes each event, as a transition system, and conservation of events
// over every run: whatever arrives, in whatever order messages are delivered, and whatever the
// cluster, the database and the application loops answer.
module EventRouting {
  import opened Wrappers

  datatype Resource = Deployment | SyncRun | RepositoryCredential | ManagedEnvironment | OtherResource

  // `id` tells apart two events about the same resource.
  datatype Event = Event(id: nat, resource: Resource, name: Name)

  datatype Message =
    | EventMessage(workComplete: bool, event: Option<Event>)
    | EnvironmentProcessed(event: Option<Event>)
    | StatusTicker

  datatype Reason = WorkComplete | NoDeploymentName | SyncRunUnreadable | SyncRunUnknown | DeploymentUnreadable | LoopNotStarted

  datatype Place =
    | InFlight                  // queued, or on its way back to the queue
    | Accepted(loop: nat)
    | Held(deployment: Name)    // a SyncRun waiting for its GitOpsDeployment
    | Superseded(later: nat)       // by a later event of the same SyncRun
    | Delegated                 // handled by the workspace resource loop
    | Dropped(reason: Reason)

  // What the API server and the database say about the SyncRun of an event.
  datatype SyncRunAnswer =
    | Gone(recorded: Option<Name>)  // deployment named by its SyncOperation, if there is one
    | Unreadable
    | Refers(deployment: Name, found: DeploymentAnswer)
  datatype DeploymentAnswer = Exists | Missing | ReadError

  // `exists`: reading the GitOpsDeployment that an event is about succeeds; `alive`: the names whose
  // application loops accept a status check.
  datatype Answers = Answers(readable: bool, syncRun: SyncRunAnswer, starts: bool, accepts: bool, alive: set<Name>)

  // `loops[k]` is the deployment that the k-th application loop was started for.
  datatype Router = Router(inFlight: multiset<Message>, orphaned: map<Name, map<Name, Event>>,
                           applications: map<Name, nat>, loops: seq<Name>, ledger: map<nat, Entry>)

  // An event that reached the router, and where it is now.
  datatype Entry = Entry(event: Event, place: Place)

  // ---- one message ----

  function Settle(r: Router, e: Event, p: Place): Router {
    r.(ledger := r.ledger[e.id := Entry(e, p)])
  }

  function HeldFor(r: Router, d: Name): map<Name, Event> {
    if d in r.orphaned then r.orphaned[d] else map[]
  }

  function Requeued(held: map<Name, Event>): set<Message> {
    set n | n in held :: EventMessage(false, Some(held[n]))
  }

  // An event about a GitOpsDeployment that exists puts the SyncRuns waiting for it back in the queue.
  function Unorphan(r: Router, e: Event, readable: bool): Router {
    if e.resource.Deployment? && e.name in r.orphaned && readable then
      r.(inFlight := r.inFlight + multiset(Requeued(r.orphaned[e.name])),
         orphaned := r.orphaned - {e.name},
         ledger := map id | id in r.ledger ::
                     if r.ledger[id].place == Held(e.name) then Entry(r.ledger[id].event, InFlight) else r.ledger[id])
    else r
  }

  function Hold(r: Router, e: Event, d: Name): Router {
    var held := HeldFor(r, d);
    var r' := if e.name in held then Settle(r, held[e.name], Superseded(e.id)) else r;
    Settle(r'.(orphaned := r.orphaned[d := held[e.name := e]]), e, Held(d))
  }

  // An event that is not accepted goes back to the queue, and its loop leaves the map.
  function Deliver(r: Router, e: Event, d: Name, m: Message, a: Answers): Router {
    if d !in r.applications && !a.starts then Settle(r, e, Dropped(LoopNotStarted))
    else
      var loop := if d in r.applications then r.applications[d] else |r.loops|;
      var loops := if d in r.applications then r.loops else r.loops + [d];
      if a.accepts then Settle(r.(applications := r.applications[d := loop], loops := loops), e, Accepted(loop))
      else r.(applications := r.applications - {d}, loops := loops, inFlight := r.inFlight + multiset{m})
  }

  datatype Decision = SendTo(deployment: Name) | HoldFor(deployment: Name) | SettleAt(place: Place)

  function Decide(e: Event, a: Answers): (d: Decision)
    ensures d.SettleAt? ==> Final(d.place) && !d.place.Superseded? && !d.place.Accepted?
    ensures d.HoldFor? ==> e.resource.SyncRun?
  {
    match e.resource
    case RepositoryCredential => SettleAt(Delegated)
    case ManagedEnvironment => SettleAt(Delegated)
    case OtherResource => SettleAt(Dropped(NoDeploymentName))
    case Deployment => SendTo(e.name)
    case SyncRun =>
      match a.syncRun
      case Gone(None) => SettleAt(Dropped(SyncRunUnknown))
      case Gone(Some(d)) => SendTo(d)
      case Unreadable => SettleAt(Dropped(SyncRunUnreadable))
      case Refers(d, Exists) => SendTo(d)
      case Refers(d, Missing) => HoldFor(d)
      case Refers(d, ReadError) => SettleAt(Dropped(DeploymentUnreadable))
  }

  // The places an event never leaves.
  predicate Final(p: Place) {
    !p.InFlight? && !p.Held?
  }

  function Route(r: Router, e: Event, m: Message, a: Answers): Router {
    match Decide(e, a)
    case SendTo(d) => Deliver(r, e, d, m, a)
    case HoldFor(d) => Hold(r, e, d)
    case SettleAt(p) => Settle(r, e, p)
  }

  function HandleEvent(r: Router, e: Event, m: Message, a: Answers): Router {
    if m.EventMessage? && m.workComplete then Settle(r, e, Dropped(WorkComplete))
    else Route(Unorphan(r, e, a.readable), e, m, a)
  }

  function Handle(r: Router, m: Message, a: Answers): Router {
    if m !in r.inFlight then r
    else
      var r' := r.(inFlight := r.inFlight - multiset{m});
      match m
      case StatusTicker => r'.(applications := map d | d in r.applications && d in a.alive :: r.applications[d])
      case EnvironmentProcessed(_) => r'
      case EventMessage(_, None) => r'
      case EventMessage(_, Some(e)) => HandleEvent(r', e, m, a)
  }

  // Something new is sent to the router.
  function Arrive(r: Router, m: Message): Router {
    if m.EventMessage? && m.event.Some? then
      var e := m.event.value;
      if e.id in r.ledger then r else Settle(r.(inFlight := r.inFlight + multiset{m}), e, InFlight)
    else r.(inFlight := r.inFlight + multiset{m})
  }

  // ---- conservation ----

  function Copies(q: multiset<Message>, e: Event): nat {
    q[EventMessage(false, Some(e))] + q[EventMessage(true, Some(e))]
  }

  type Ledger = map<nat, Entry>
  type Orphans = map<Name, map<Name, Event>>

  ghost predicate At(ledger: Ledger, e: Event, p: Place) {
    e.id in ledger && ledger[e.id] == Entry(e, p)
  }

  ghost predicate Slot(orphaned: Orphans, d: Name, e: Event) {
    d in orphaned && e.name in orphaned[d] && orphaned[d][e.name] == e
  }

  // An event has one copy in flight exactly if that is its place.
  ghost predicate FlightOk(q: multiset<Message>, ledger: Ledger) {
    forall e :: Copies(q, e) == if At(ledger, e, InFlight) then 1 else 0
  }

  ghost predicate HeldOk(orphaned: Orphans, ledger: Ledger) {
    forall d, e :: At(ledger, e, Held(d)) <==> Slot(orphaned, d, e)
  }

  ghost predicate SlotsOk(orphaned: Orphans) {
    forall d, n :: d in orphaned && n in orphaned[d] ==> orphaned[d][n].name == n && orphaned[d][n].resource.SyncRun?
  }

  ghost predicate SettledOk(ledger: Ledger, loops: seq<Name>, e: Event, p: Place) {
    match p
    case Superseded(later) =>
      && later in ledger && later != e.id && e.resource.SyncRun?
      && ledger[later].event.resource.SyncRun? && ledger[later].event.name == e.name
    case Accepted(loop) =>
      && loop < |loops| && (e.resource.Deployment? || e.resource.SyncRun?)
      && (e.resource.Deployment? ==> loops[loop] == e.name)
    case Delegated => e.resource.RepositoryCredential? || e.resource.ManagedEnvironment?
    case Dropped(reason) =>
      && (reason.NoDeploymentName? ==> e.resource.OtherResource?)
      && (reason.SyncRunUnreadable? || reason.SyncRunUnknown? || reason.DeploymentUnreadable? ==> e.resource.SyncRun?)
    case _ => true
  }

  ghost predicate LedgerOk(ledger: Ledger, loops: seq<Name>) {
    forall id :: id in ledger ==> ledger[id].event.id == id && SettledOk(ledger, loops, ledger[id].event, ledger[id].place)
  }

  ghost predicate LoopsOk(applications: map<Name, nat>, loops: seq<Name>) {
    forall d :: d in applications ==> applications[d] < |loops| && loops[applications[d]] == d
  }

  // Every event that reached the router is in exactly one place, and is really there.
  ghost predicate Conserved(r: Router) {
    && LedgerOk(r.ledger, r.loops) && FlightOk(r.inFlight, r.ledger)
    && HeldOk(r.orphaned, r.ledger) && SlotsOk(r.orphaned) && LoopsOk(r.applications, r.loops)
  }

  function NewRouter(): Router {
    Router(multiset{}, map[], map[], [], map[])
  }

  // ---- each operation conserves ----

  // Event e is being handled: it has been taken off the queue and put nowhere yet.
  ghost predicate Handling(r: Router, e: Event) {
    && LedgerOk(r.ledger, r.loops) && FlightBut(r.inFlight, r.ledger, e) && At(r.ledger, e, InFlight)
    && HeldOk(r.orphaned, r.ledger) && SlotsOk(r.orphaned) && LoopsOk(r.applications, r.loops)
  }

  ghost predicate FlightBut(q: multiset<Message>, ledger: Ledger, e: Event) {
    forall f :: Copies(q, f) == if f != e && At(ledger, f, InFlight) then 1 else 0
  }

  lemma OneMore(q: multiset<Message>, m: Message, e: Event)
    requires m.EventMessage? && m.event == Some(e)
    ensures forall f :: Copies(q + multiset{m}, f) == Copies(q, f) + if f == e then 1 else 0
    ensures m in q ==> forall f :: Copies(q - multiset{m}, f) == Copies(q, f) - if f == e then 1 else 0
  {
  }

  lemma OtherMessage(q: multiset<Message>, m: Message)
    requires m.EventMessage? ==> m.event.None?
    ensures forall f :: Copies(q + multiset{m}, f) == Copies(q, f) && Copies(q - multiset{m}, f) == Copies(q, f)
  {
  }

  lemma TakenOff(r: Router, m: Message, e: Event)
    requires Conserved(r) && m in r.inFlight && m.EventMessage? && m.event == Some(e)
    ensures Handling(r.(inFlight := r.inFlight - multiset{m}), e)
  {
    assert Copies(r.inFlight, e) == 1;
    OneMore(r.inFlight, m, e);
  }

  lemma EntryKeepsLedger(ledger: Ledger, loops: seq<Name>, e: Event, p: Place)
    requires LedgerOk(ledger, loops) && SettledOk(ledger, loops, e, p)
    requires e.id in ledger ==> ledger[e.id].event == e
    ensures LedgerOk(ledger[e.id := Entry(e, p)], loops)
  {
    var ledger' := ledger[e.id := Entry(e, p)];
    forall id | id in ledger' ensures SettledOk(ledger', loops, ledger'[id].event, ledger'[id].place) {
      assert id != e.id ==> SettledOk(ledger, loops, ledger[id].event, ledger[id].place);
    }
  }

  lemma SettleConserves(r: Router, e: Event, p: Place)
    requires Handling(r, e) && !p.InFlight? && !p.Held? && SettledOk(r.ledger, r.loops, e, p)
    ensures Conserved(Settle(r, e, p))
  {
    EntryKeepsLedger(r.ledger, r.loops, e, p);
    EntryMovesOne(r.ledger, e, p);
  }

  lemma EntryMovesOne(ledger: Ledger, e: Event, p: Place)
    requires e.id in ledger ==> ledger[e.id].event == e
    ensures forall f, q :: At(ledger[e.id := Entry(e, p)], f, q) <==> if f == e then q == p else At(ledger, f, q) && f.id != e.id
    ensures e.id in ledger ==> forall f, q :: At(ledger, f, q) && f.id == e.id ==> f == e
  {
    var ledger' := ledger[e.id := Entry(e, p)];
    forall f, q ensures At(ledger', f, q) <==> if f == e then q == p else At(ledger, f, q) && f.id != e.id {
      assert f.id != e.id ==> (f.id in ledger' <==> f.id in ledger);
    }
  }

  lemma RequeuedCopies(held: map<Name, Event>, f: Event)
    requires forall n :: n in held ==> held[n].name == n
    ensures Copies(multiset(Requeued(held)), f) == if f.name in held && held[f.name] == f then 1 else 0
  {
    assert EventMessage(true, Some(f)) !in Requeued(held);
    assert EventMessage(false, Some(f)) in Requeued(held) <==> f.name in held && held[f.name] == f;
  }

  lemma UnorphanConserves(r: Router, e: Event, readable: bool)
    requires Handling(r, e)
    ensures Handling(Unorphan(r, e, readable), e)
  {
    if e.resource.Deployment? && e.name in r.orphaned && readable {
      UnorphanKeepsLedger(r, e);
      UnorphanKeepsFlight(r, e);
      UnorphanKeepsHeld(r, e);
    }
  }

  lemma UnorphanMoves(r: Router, e: Event, f: Event, p: Place)
    requires e.resource.Deployment? && e.name in r.orphaned
    ensures At(Unorphan(r, e, true).ledger, f, p) <==>
              if p.InFlight? then At(r.ledger, f, InFlight) || At(r.ledger, f, Held(e.name))
              else p != Held(e.name) && At(r.ledger, f, p)
  {
  }

  lemma UnorphanKeepsLedger(r: Router, e: Event)
    requires LedgerOk(r.ledger, r.loops)
    ensures LedgerOk(Unorphan(r, e, true).ledger, r.loops)
  {
    var ledger := Unorphan(r, e, true).ledger;
    forall id | id in ledger ensures SettledOk(ledger, r.loops, ledger[id].event, ledger[id].place) {
      assert SettledOk(r.ledger, r.loops, r.ledger[id].event, r.ledger[id].place);
    }
  }

  lemma UnorphanKeepsFlight(r: Router, e: Event)
    requires e.resource.Deployment? && e.name in r.orphaned
    requires FlightBut(r.inFlight, r.ledger, e) && HeldOk(r.orphaned, r.ledger) && SlotsOk(r.orphaned)
    requires At(r.ledger, e, InFlight)
    ensures FlightBut(Unorphan(r, e, true).inFlight, Unorphan(r, e, true).ledger, e)
    ensures At(Unorphan(r, e, true).ledger, e, InFlight)
  {
    var r' := Unorphan(r, e, true);
    UnorphanMoves(r, e, e, InFlight);
    forall f ensures Copies(r'.inFlight, f) == if f != e && At(r'.ledger, f, InFlight) then 1 else 0 {
      RequeuedCopies(r.orphaned[e.name], f);
      UnorphanMoves(r, e, f, InFlight);
      assert At(r.ledger, f, Held(e.name)) <==> Slot(r.orphaned, e.name, f);
      assert Copies(r'.inFlight, f) == Copies(r.inFlight, f) + Copies(multiset(Requeued(r.orphaned[e.name])), f);
      assert Copies(r.inFlight, f) == if f != e && At(r.ledger, f, InFlight) then 1 else 0;
    }
  }

  lemma UnorphanKeepsHeld(r: Router, e: Event)
    requires e.resource.Deployment? && e.name in r.orphaned
    requires HeldOk(r.orphaned, r.ledger) && SlotsOk(r.orphaned)
    ensures HeldOk(Unorphan(r, e, true).orphaned, Unorphan(r, e, true).ledger) && SlotsOk(Unorphan(r, e, true).orphaned)
  {
    var r' := Unorphan(r, e, true);
    forall d, f ensures At(r'.ledger, f, Held(d)) <==> Slot(r'.orphaned, d, f) {
      UnorphanMoves(r, e, f, Held(d));
      assert Slot(r'.orphaned, d, f) <==> d != e.name && Slot(r.orphaned, d, f);
    }
  }

  lemma HoldConserves(r: Router, e: Event, d: Name)
    requires Handling(r, e) && e.resource.SyncRun?
    ensures Conserved(Hold(r, e, d))
  {
    var held := HeldFor(r, d);
    if e.name in held {
      var f := held[e.name];
      assert Slot(r.orphaned, d, f);
      ReplaceConserves(r, e, d, f);
    } else {
      EntryKeepsLedger(r.ledger, r.loops, e, Held(d));
      EntryMovesOne(r.ledger, e, Held(d));
      NewSlot(r.orphaned, d, held, e);
      var r' := Hold(r, e, d);
      forall c, f ensures At(r'.ledger, f, Held(c)) <==> Slot(r'.orphaned, c, f) {
        assert At(r.ledger, f, Held(c)) <==> Slot(r.orphaned, c, f);
      }
    }
  }

  lemma NewSlot(orphaned: Orphans, d: Name, held: map<Name, Event>, e: Event)
    requires held == if d in orphaned then orphaned[d] else map[]
    ensures forall c, f :: Slot(orphaned[d := held[e.name := e]], c, f) <==>
              if c == d && f.name == e.name then f == e else Slot(orphaned, c, f)
  {
    var orphaned' := orphaned[d := held[e.name := e]];
    forall c, f
      ensures Slot(orphaned', c, f) <==> if c == d && f.name == e.name then f == e else Slot(orphaned, c, f)
    {
      if c != d {
        assert c in orphaned' <==> c in orphaned;
      }
    }
  }

  lemma ReplaceConserves(r: Router, e: Event, d: Name, f: Event)
    requires Handling(r, e) && e.resource.SyncRun? && Slot(r.orphaned, d, f) && f.name == e.name
    ensures Conserved(Hold(r, e, d))
  {
    assert At(r.ledger, f, Held(d)) && f.resource.SyncRun?;
    var between := r.ledger[f.id := Entry(f, Superseded(e.id))];
    EntryKeepsLedger(r.ledger, r.loops, f, Superseded(e.id));
    EntryKeepsLedger(between, r.loops, e, Held(d));
    EntryMovesOne(r.ledger, f, Superseded(e.id));
    EntryMovesOne(between, e, Held(d));
    NewSlot(r.orphaned, d, r.orphaned[d], e);
    var r' := Hold(r, e, d);
    forall c, g ensures At(r'.ledger, g, Held(c)) <==> Slot(r'.orphaned, c, g) {
      assert At(r.ledger, g, Held(c)) <==> Slot(r.orphaned, c, g);
    }
  }

  lemma DeliverConserves(r: Router, e: Event, d: Name, m: Message, a: Answers)
    requires Handling(r, e) && m.EventMessage? && m.event == Some(e) && (e.resource.Deployment? || e.resource.SyncRun?)
    requires e.resource.Deployment? ==> d == e.name
    ensures Conserved(Deliver(r, e, d, m, a))
  {
    if d !in r.applications && !a.starts {
      SettleConserves(r, e, Dropped(LoopNotStarted));
    } else {
      var loop := if d in r.applications then r.applications[d] else |r.loops|;
      var loops := if d in r.applications then r.loops else r.loops + [d];
      MoreLoops(r.ledger, r.loops, loops);
      if a.accepts {
        SettleConserves(r.(applications := r.applications[d := loop], loops := loops), e, Accepted(loop));
      } else {
        OneMore(r.inFlight, m, e);
      }
    }
  }

  lemma MoreLoops(ledger: Ledger, loops: seq<Name>, loops': seq<Name>)
    requires LedgerOk(ledger, loops) && loops <= loops'
    ensures LedgerOk(ledger, loops')
  {
    forall id | id in ledger ensures SettledOk(ledger, loops', ledger[id].event, ledger[id].place) {
      assert SettledOk(ledger, loops, ledger[id].event, ledger[id].place);
    }
  }

  lemma RouteConserves(r: Router, e: Event, m: Message, a: Answers)
    requires Handling(r, e) && m.EventMessage? && m.event == Some(e)
    ensures Conserved(Route(r, e, m, a))
  {
    match Decide(e, a)
    case SendTo(d) => DeliverConserves(r, e, d, m, a);
    case HoldFor(d) => HoldConserves(r, e, d);
    case SettleAt(p) => SettleConserves(r, e, p);
  }

  lemma HandleConserves(r: Router, m: Message, a: Answers)
    requires Conserved(r)
    ensures Conserved(Handle(r, m, a))
  {
    if m in r.inFlight {
      var r' := r.(inFlight := r.inFlight - multiset{m});
      if m.EventMessage? && m.event.Some? {
        var e := m.event.value;
        TakenOff(r, m, e);
        if m.workComplete {
          SettleConserves(r', e, Dropped(WorkComplete));
        } else {
          UnorphanConserves(r', e, a.readable);
          RouteConserves(Unorphan(r', e, a.readable), e, m, a);
        }
      } else {
        UntrackedConserves(r, Handle(r, m, a), m);
      }
    }
  }

  lemma UntrackedConserves(r: Router, r': Router, m: Message)
    requires Conserved(r) && (m.EventMessage? ==> m.event.None?)
    requires r'.inFlight == r.inFlight - multiset{m} || r'.inFlight == r.inFlight + multiset{m}
    requires r' == r.(inFlight := r'.inFlight, applications := r'.applications) && LoopsOk(r'.applications, r'.loops)
    ensures Conserved(r')
  {
    OtherMessage(r.inFlight, m);
  }

  lemma ArriveConserves(r: Router, m: Message)
    requires Conserved(r)
    ensures Conserved(Arrive(r, m))
  {
    if m.EventMessage? && m.event.Some? {
      var e := m.event.value;
      if e.id !in r.ledger {
        OneMore(r.inFlight, m, e);
        EntryKeepsLedger(r.ledger, r.loops, e, InFlight);
        EntryMovesOne(r.ledger, e, InFlight);
      }
    } else {
      UntrackedConserves(r, Arrive(r, m), m);
    }
  }

  // ---- all runs ----

  datatype Action = Arrives(m: Message) | Handled(m: Message, a: Answers)

  function Step(r: Router, x: Action): Router {
    match x
    case Arrives(m) => Arrive(r, m)
    case Handled(m, a) => Handle(r, m, a)
  }

  function Exec(r: Router, run: seq<Action>): Router
    decreases |run|
  {
    if run == [] then r else Exec(Step(r, run[0]), run[1..])
  }

  lemma StepConserves(r: Router, x: Action)
    requires Conserved(r)
    ensures Conserved(Step(r, x))
  {
    match x
    case Arrives(m) => ArriveConserves(r, m);
    case Handled(m, a) => HandleConserves(r, m, a);
  }

  lemma {:induction false} ConservedAlways(r: Router, run: seq<Action>)
    requires Conserved(r)
    ensures Conserved(Exec(r, run))
    decreases |run|
  {
    if run != [] {
      StepConserves(r, run[0]);
      ConservedAlways(Step(r, run[0]), run[1..]);
    }
  }

  lemma StepKeepsEntry(r: Router, x: Action, id: nat)
    requires Conserved(r) && id in r.ledger
    ensures id in Step(r, x).ledger && Step(r, x).ledger[id].event == r.ledger[id].event
    ensures Final(r.ledger[id].place) ==> Step(r, x).ledger[id] == r.ledger[id]
  {
    if x.Handled? && x.m in r.inFlight && x.m.EventMessage? && x.m.event.Some? {
      TakenOff(r, x.m, x.m.event.value);
      HandleEventKeepsEntry(r.(inFlight := r.inFlight - multiset{x.m}), x.m.event.value, x.m, x.a, id);
    }
  }

  lemma HandleEventKeepsEntry(r: Router, e: Event, m: Message, a: Answers, id: nat)
    requires Handling(r, e) && id in r.ledger
    ensures id in HandleEvent(r, e, m, a).ledger && HandleEvent(r, e, m, a).ledger[id].event == r.ledger[id].event
    ensures Final(r.ledger[id].place) ==> HandleEvent(r, e, m, a).ledger[id] == r.ledger[id]
  {
    UnorphanConserves(r, e, a.readable);
    RouteKeepsEntry(Unorphan(r, e, a.readable), e, m, a, id);
  }

  lemma RouteKeepsEntry(r: Router, e: Event, m: Message, a: Answers, id: nat)
    requires HeldOk(r.orphaned, r.ledger) && SlotsOk(r.orphaned) && At(r.ledger, e, InFlight) && id in r.ledger
    ensures id in Route(r, e, m, a).ledger && Route(r, e, m, a).ledger[id].event == r.ledger[id].event
    ensures Final(r.ledger[id].place) ==> Route(r, e, m, a).ledger[id] == r.ledger[id]
  {
    match Decide(e, a)
    case SendTo(d) =>
    case HoldFor(d) =>
      if e.name in HeldFor(r, d) {
        assert Slot(r.orphaned, d, HeldFor(r, d)[e.name]);
      }
    case SettleAt(p) =>
  }

  lemma {:induction false} EntryStays(r: Router, run: seq<Action>, id: nat)
    requires Conserved(r) && id in r.ledger
    ensures id in Exec(r, run).ledger && Exec(r, run).ledger[id].event == r.ledger[id].event
    ensures Final(r.ledger[id].place) ==> Exec(r, run).ledger[id] == r.ledger[id]
    decreases |run|
  {
    if run != [] {
      StepConserves(r, run[0]);
      StepKeepsEntry(r, run[0], id);
      EntryStays(Step(r, run[0]), run[1..], id);
    }
  }

  // No event is lost or doubled: from its arrival on, after any run, it is in one place; there is one
  // copy of it in flight exactly if that is the place, and it is in a slot exactly if it is held there.
  lemma EveryEventHasOnePlace(r: Router, m: Message, e: Event, run: seq<Action>)
    requires Conserved(r) && m.EventMessage? && m.event == Some(e) && e.id !in r.ledger
    ensures var r' := Exec(Arrive(r, m), run);
            && (exists p :: At(r'.ledger, e, p))
            && Copies(r'.inFlight, e) == (if At(r'.ledger, e, InFlight) then 1 else 0)
            && forall d :: Slot(r'.orphaned, d, e) <==> At(r'.ledger, e, Held(d))
  {
    ArriveConserves(r, m);
    EntryStays(Arrive(r, m), run, e.id);
    ConservedAlways(Arrive(r, m), run);
    var ledger := Exec(Arrive(r, m), run).ledger;
    assert At(ledger, e, ledger[e.id].place);
  }

  // ---- what one message achieves ----

  // The one message that carries an event in flight, of the kind that the router accepts.
  ghost predicate Waiting(r: Router, e: Event) {
    EventMessage(false, Some(e)) in r.inFlight
  }

  // What handling that message comes down to.
  function Opened(r: Router, e: Event, a: Answers): Router {
    Unorphan(r.(inFlight := r.inFlight - multiset{EventMessage(false, Some(e))}), e, a.readable)
  }

  lemma HandlingWaiting(r: Router, e: Event, a: Answers)
    requires Conserved(r) && Waiting(r, e)
    ensures Handling(Opened(r, e, a), e) && At(r.ledger, e, InFlight)
    ensures Handle(r, EventMessage(false, Some(e)), a) == Route(Opened(r, e, a), e, EventMessage(false, Some(e)), a)
    ensures Conserved(Handle(r, EventMessage(false, Some(e)), a))
    ensures Opened(r, e, a).applications == r.applications && Opened(r, e, a).loops == r.loops
  {
    var m := EventMessage(false, Some(e));
    TakenOff(r, m, e);
    HandleConserves(r, m, a);
    UnorphanConserves(r.(inFlight := r.inFlight - multiset{m}), e, a.readable);
  }

  // Event e went to the application loop of deployment d, which is started unless it is there: it is
  // with that loop, or, if the loop turned it down, back in the queue, once, and the loop is out of
  // the map; a loop that cannot be started drops it. No other loop is touched.
  ghost predicate SentTo(r: Router, r': Router, e: Event, d: Name, a: Answers) {
    && (if d !in r.applications && !a.starts then
          r'.applications == r.applications && At(r'.ledger, e, Dropped(LoopNotStarted))
        else if a.accepts then
          && d in r'.applications && r'.applications[d] < |r'.loops| && r'.loops[r'.applications[d]] == d
          && At(r'.ledger, e, Accepted(r'.applications[d]))
          && (d in r.applications ==> r'.applications[d] == r.applications[d])
        else d !in r'.applications && At(r'.ledger, e, InFlight) && r'.inFlight[EventMessage(false, Some(e))] == 1)
    && r'.applications - {d} == r.applications - {d}
  }

  // The router keeps its loops and what it holds, and drops the event for the reason given.
  ghost predicate DroppedFor(r: Router, r': Router, e: Event, reason: Reason) {
    At(r'.ledger, e, Dropped(reason)) && r'.applications == r.applications && r'.orphaned == r.orphaned
  }

  // Where a SyncRun goes, by what the cluster and the database say of it: to its GitOpsDeployment if
  // that exists, and to the one recorded for it if the SyncRun is gone; one whose GitOpsDeployment is
  // missing is held for that; and what cannot be read or is not known is dropped.
  lemma SyncRunGoes(r: Router, e: Event, a: Answers)
    requires Conserved(r) && Waiting(r, e) && e.resource.SyncRun?
    ensures var r' := Handle(r, EventMessage(false, Some(e)), a);
            match a.syncRun
            case Refers(d, Exists) => SentTo(r, r', e, d, a) && r'.orphaned == r.orphaned
            case Gone(Some(d)) => SentTo(r, r', e, d, a) && r'.orphaned == r.orphaned
            case Refers(d, Missing) =>
              && Slot(r'.orphaned, d, e) && At(r'.ledger, e, Held(d)) && r'.applications == r.applications
              && forall c, f: Event :: c != d || f.name != e.name ==> (Slot(r'.orphaned, c, f) <==> Slot(r.orphaned, c, f))
            case Refers(d, ReadError) => DroppedFor(r, r', e, DeploymentUnreadable)
            case Gone(None) => DroppedFor(r, r', e, SyncRunUnknown)
            case Unreadable => DroppedFor(r, r', e, SyncRunUnreadable)
  {
    HandlingWaiting(r, e, a);
    var o, m := Opened(r, e, a), EventMessage(false, Some(e));
    match a.syncRun
    case Refers(d, Exists) => DeliveredIsSent(r, o, e, d, m, a);
    case Gone(Some(d)) => DeliveredIsSent(r, o, e, d, m, a);
    case _ =>
  }

  lemma DeliveredIsSent(r: Router, o: Router, e: Event, d: Name, m: Message, a: Answers)
    requires Handling(o, e) && o.applications == r.applications && o.loops == r.loops && m == EventMessage(false, Some(e))
    ensures SentTo(r, Deliver(o, e, d, m, a), e, d, a)
  {
    assert Copies(o.inFlight, e) == 0;
  }

  // Where the events of all other resources go.
  lemma OtherEventGoes(r: Router, e: Event, a: Answers)
    requires Conserved(r) && Waiting(r, e) && !e.resource.SyncRun?
    ensures var r' := Handle(r, EventMessage(false, Some(e)), a);
            match e.resource
            case Deployment =>
              SentTo(r, r', e, e.name, a) && r'.orphaned == if a.readable then r.orphaned - {e.name} else r.orphaned
            case OtherResource => DroppedFor(r, r', e, NoDeploymentName)
            case _ => At(r'.ledger, e, Delegated) && r'.applications == r.applications && r'.orphaned == r.orphaned
  {
    HandlingWaiting(r, e, a);
    if e.resource.Deployment? {
      DeliveredIsSent(r, Opened(r, e, a), e, e.name, EventMessage(false, Some(e)), a);
      assert e.name !in r.orphaned ==> r.orphaned - {e.name} == r.orphaned;
    }
  }

  // A message of the wrong kind is dropped before anything else is done.
  lemma WorkCompleteIsDropped(r: Router, e: Event, a: Answers)
    requires EventMessage(true, Some(e)) in r.inFlight
    ensures DroppedFor(r, Handle(r, EventMessage(true, Some(e)), a), e, WorkComplete)
  {
  }

  // A rejected event is back in the queue, once, and the loop that rejected it has left the map; an
  // accepted event is with the loop of the deployment it was sent to. No other loop is touched.
  lemma DeliveryOutcome(r: Router, e: Event, a: Answers, d: Name)
    requires Conserved(r) && Waiting(r, e) && (d in r.applications || a.starts)
    requires (e.resource.Deployment? && e.name == d)
             || (e.resource.SyncRun? && (a.syncRun == Gone(Some(d)) || a.syncRun == Refers(d, Exists)))
    ensures var r' := Handle(r, EventMessage(false, Some(e)), a);
            if a.accepts
            then && d in r'.applications && At(r'.ledger, e, Accepted(r'.applications[d])) && Copies(r'.inFlight, e) == 0
                 && (d in r.applications ==> r'.applications[d] == r.applications[d])
            else d !in r'.applications && At(r'.ledger, e, InFlight) && Copies(r'.inFlight, e) == 1
    ensures Handle(r, EventMessage(false, Some(e)), a).applications - {d} == r.applications - {d}
  {
    HandlingWaiting(r, e, a);
    if e.resource.SyncRun? {
      SyncRunGoes(r, e, a);
    } else {
      OtherEventGoes(r, e, a);
    }
    SentOnce(r, Handle(r, EventMessage(false, Some(e)), a), e, d, a);
  }

  lemma SentOnce(r: Router, r': Router, e: Event, d: Name, a: Answers)
    requires SentTo(r, r', e, d, a) && Conserved(r') && (d in r.applications || a.starts)
    ensures Copies(r'.inFlight, e) == if a.accepts then 0 else 1
  {
  }

  // Once its GitOpsDeployment can be read, every SyncRun held for it is in flight again, and nothing
  // else that was held has moved.
  lemma DeploymentFreesOrphans(r: Router, e: Event, a: Answers, f: Event)
    requires Conserved(r) && Waiting(r, e) && e.resource.Deployment? && a.readable
    ensures var r' := Handle(r, EventMessage(false, Some(e)), a);
            && (Slot(r.orphaned, e.name, f) ==> At(r'.ledger, f, InFlight) && Copies(r'.inFlight, f) == 1)
            && (forall d :: Slot(r'.orphaned, d, f) <==> d != e.name && Slot(r.orphaned, d, f))
  {
    HandlingWaiting(r, e, a);
    var o := Opened(r, e, a);
    DeliverKeepsOthers(o, e, e.name, EventMessage(false, Some(e)), a, f, InFlight);
    if e.name in r.orphaned {
      UnorphanMoves(r.(inFlight := r.inFlight - multiset{EventMessage(false, Some(e))}), e, f, InFlight);
    }
    if Slot(r.orphaned, e.name, f) {
      assert At(r.ledger, f, Held(e.name));
    }
  }

  lemma DeliverKeepsOthers(r: Router, e: Event, d: Name, m: Message, a: Answers, f: Event, p: Place)
    requires At(r.ledger, e, InFlight)
    ensures Deliver(r, e, d, m, a).orphaned == r.orphaned
    ensures f != e && At(r.ledger, f, p) ==> At(Deliver(r, e, d, m, a).ledger, f, p)
  {
  }

  // A SyncRun whose GitOpsDeployment is missing takes the slot of its name; an event of the same
  // SyncRun that was there is superseded, and every other event stays where it is.
  lemma OrphanTakesSlot(r: Router, e: Event, a: Answers, d: Name, f: Event, p: Place)
    requires Conserved(r) && Waiting(r, e) && e.resource.SyncRun? && a.syncRun == Refers(d, Missing)
    requires f != e && At(r.ledger, f, p)
    ensures var r' := Handle(r, EventMessage(false, Some(e)), a);
            && Slot(r'.orphaned, d, e)
            && At(r'.ledger, f, if Slot(r.orphaned, d, f) && f.name == e.name then Superseded(e.id) else p)
  {
    HandlingWaiting(r, e, a);
    var held := HeldFor(r, d);
    assert Opened(r, e, a).ledger == r.ledger && Opened(r, e, a).orphaned == r.orphaned;
    if e.name in held {
      assert Slot(r.orphaned, d, held[e.name]);
    }
  }

  // The loop was started, and has left the map.
  ghost predicate Retired(r: Router, loop: nat) {
    loop < |r.loops| && forall d :: d in r.applications ==> r.applications[d] != loop
  }

  lemma DeliverKeepsRetired(r: Router, e: Event, d: Name, m: Message, a: Answers, loop: nat)
    requires Retired(r, loop)
    ensures Retired(Deliver(r, e, d, m, a), loop)
  {
  }

  lemma StepKeepsRetired(r: Router, x: Action, loop: nat)
    requires Retired(r, loop)
    ensures Retired(Step(r, x), loop)
  {
    if x.Handled? && x.m in r.inFlight && x.m.EventMessage? && x.m.event.Some? && !x.m.workComplete {
      var e := x.m.event.value;
      var o := Unorphan(r.(inFlight := r.inFlight - multiset{x.m}), e, x.a.readable);
      assert Step(r, x) == Route(o, e, x.m, x.a);
      if Decide(e, x.a).SendTo? {
        DeliverKeepsRetired(o, e, Decide(e, x.a).deployment, x.m, x.a, loop);
      }
    }
  }

  // A loop that left the map is never addressed again: later loops are new ones.
  lemma {:induction false} LoopsLeaveForGood(r: Router, run: seq<Action>, loop: nat)
    requires Retired(r, loop)
    ensures Retired(Exec(r, run), loop)
    decreases |run|
  {
    if run != [] {
      StepKeepsRetired(r, run[0], loop);
      LoopsLeaveForGood(Step(r, run[0]), run[1..], loop);
    }
  }

  // A status check retires exactly the loops that do not answer, and whatever happens afterwards no
  // event is sent to one of them again.
  lemma DeadLoopsLeaveForGood(r: Router, a: Answers, run: seq<Action>, d: Name)
    requires Conserved(r) && StatusTicker in r.inFlight && d in r.applications
    ensures Retired(Handle(r, StatusTicker, a), r.applications[d]) <==> d !in a.alive
    ensures d !in a.alive ==> Retired(Exec(Handle(r, StatusTicker, a), run), r.applications[d])
  {
    var r', loop := Handle(r, StatusTicker, a), r.applications[d];
    assert r.loops[loop] == d;
    assert d in a.alive ==> r'.applications[d] == loop;
    if d !in a.alive {
      forall e | e in r'.applications ensures r'.applications[e] != loop {
        assert r.loops[r.applications[e]] == e;
      }
      LoopsLeaveForGood(r', run, loop);
    }
  }
}
