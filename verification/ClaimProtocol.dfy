// The three reconcilers as a state machine over API writes. One step of a reconciler is its reads
// since its previous write together with its next write; between two steps of one reconciler any
// number of steps of the others, of the users and of foreign controllers may happen, and every
// reconcile may be cut off before each of its steps.
module ClaimProtocol {
  import opened Wrappers
  import opened DeploymentTargets

  // Where the claim worker is, with the copies it read: `c` is claim n, `t` is target d.
  datatype ClaimJob =
    | Idle
    | Main(n: Name, c: Claim)                           // finalizer present
    | Provisioned(n: Name, c: Claim)                    // SpaceRequest handled
    | HandleBound(n: Name, c: Claim)                    // provisioner annotation handled
    | RepeatClaimBound(n: Name, c: Claim)               // target phase repeated
    | AwaitProvisioner(n: Name, c: Claim)               // marked for provisioning
    | BindClaim(n: Name, c: Claim, d: Name, t: Target)  // claim names target
    | BindTarget(n: Name, c: Claim, d: Name, t: Target) // claim phase is Bound
    | Annotate(n: Name, c: Claim, d: Name)              // target phase is Bound
    | MarkTarget(n: Name, c: Claim, d: Name, t: Target) // target finalizer present
    | ClearRef(n: Name, c: Claim, d: Name)              // target marked, if its class says so
    | Release(n: Name, c: Claim, d: Name, t: Target)    // reference cleared
    | DropFinalizer(n: Name, c: Claim, released: Option<Name>)

  datatype TargetJob =
    | TargetIdle
    | TargetMain(d: Name, t: Target)                                      // finalizer present
    | TargetSpace(d: Name, t: Target, r: Name, q: SpaceRequest)           // request has its finalizer

  datatype RequestJob =
    | RequestIdle
    | Created(r: Name, q: SpaceRequest, d: Name, t: Target)               // target created
    | LabelRequest(r: Name, q: SpaceRequest, d: Name)

  datatype World = World(s: Cluster, claimJob: ClaimJob, targetJob: TargetJob, requestJob: RequestJob)

  // ---- the claim worker: deploymenttargetclaim_controller.go ----

  function Cut(w: World): World {
    w.(claimJob := Idle)
  }

  // A write of the worker's claim, after which the job goes on as `next`.
  function WriteClaim(w: World, n: Name, c: Claim, c': Claim, next: ClaimJob): World {
    if ClaimUnchanged(w.s, n, c) then w.(s := PutClaim(w.s, n, c'), claimJob := next) else Cut(w)
  }

  function WriteTarget(w: World, d: Name, t: Target, t': Target, next: ClaimJob): World {
    if TargetUnchanged(w.s, d, t) then w.(s := PutTarget(w.s, d, t'), claimJob := next) else Cut(w)
  }

  function SetClaimPhase(w: World, n: Name, c: Claim, phase: ClaimPhase, next: ClaimJob): World {
    if c.phase == phase then w.(claimJob := next) else WriteClaim(w, n, c, c.(phase := phase), next)
  }

  function SetTargetPhase(w: World, d: Name, t: Target, phase: TargetPhase, next: ClaimJob): World {
    if t.phase == phase then w.(claimJob := next) else WriteTarget(w, d, t, t.(phase := phase), next)
  }

  // The API server refuses new finalizers on an object that is being deleted.
  function BeginClaim(w: World, n: Name): World {
    if !w.claimJob.Idle? || n !in w.s.claims then w
    else
      var c := w.s.claims[n];
      var c' := c.(finalizers := c.finalizers + {Binder});
      if Binder in c.finalizers then w.(claimJob := Main(n, c))
      else if c.deleting then w
      else w.(s := PutClaim(w.s, n, c'), claimJob := Main(n, c'))
  }

  // handleDTCDeletion up to the finalizer of the target.
  function StartDeletion(w: World, n: Name, c: Claim): World {
    if !IsBound(c) then w.(claimJob := DropFinalizer(n, c, None))
    else
      match BoundTarget(w.s, n, c)
      case LookupError => Cut(w)
      case Absent => w.(claimJob := DropFinalizer(n, c, None))
      case Found(d) =>
        var t := w.s.targets[d];
        var t' := t.(finalizers := t.finalizers + {TargetFinalizer});
        if ClassOf(w.s, t.className).None? then Cut(w)
        else if TargetFinalizer in t.finalizers then w.(claimJob := MarkTarget(n, c, d, t))
        else if t.deleting then Cut(w)
        else w.(s := PutTarget(w.s, d, t'), claimJob := MarkTarget(n, c, d, t'))
  }

  // handleProvisioningOfSpaceRequestForDTC; `generated` is the generated name.
  function Provision(w: World, n: Name, c: Claim, generated: Name): World {
    var next := w.(claimJob := Provisioned(n, c));
    if !(c.phase == ClaimPending && c.provisioner.Some?) || c.className.None? then next
    else
      var cls := ClassOf(w.s, c.className);
      if cls.None? then Cut(w)
      else if !cls.value.devsandbox then next
      else if exists r :: r in w.s.requests && ClaimedBy(w.s, r, n) && w.s.requests[r].environmentTier then next
      else if generated in w.s.requests then Cut(w)
      else next.(s := PutRequest(w.s, generated, SpaceRequest(true, Some(n), None, NoReadyCondition, 0, {}, false)))
  }

  // The provisioner annotation of a bound claim follows its class.
  function SyncProvisioner(w: World, n: Name, c: Claim): World {
    if c.provisioner.None? || c.provisioner == c.className then w.(claimJob := HandleBound(n, c))
    else
      var c' := c.(provisioner := c.className);
      WriteClaim(w, n, c, c', HandleBound(n, c'))
  }

  function RepeatTargetBound(w: World, n: Name, c: Claim): World {
    match BoundTarget(w.s, n, c)
    case LookupError => Cut(w)
    case Absent => SetClaimPhase(w, n, c, ClaimLost, Idle)
    case Found(d) => SetTargetPhase(w, d, w.s.targets[d], TargetBound, RepeatClaimBound(n, c))
  }

  // No target named yet: bind to `pick`, the first match in the list, or ask for provisioning.
  function FindTarget(w: World, n: Name, c: Claim, pick: Option<Name>): World {
    match pick
    case Some(d) =>
      if d !in w.s.targets || !Candidate(n, c, d, w.s.targets[d]) then w
      else
        var c' := c.(targetName := Some(d), boundByController := true);
        WriteClaim(w, n, c, c', BindClaim(n, c', d, w.s.targets[d]))
    case None =>
      if exists d :: d in w.s.targets && Candidate(n, c, d, w.s.targets[d]) then w
      else if c.className.None? then SetClaimPhase(w, n, c, ClaimPending, Idle)
      else
        var c' := c.(provisioner := c.className);
        WriteClaim(w, n, c, c', AwaitProvisioner(n, c'))
  }

  function UseNamedTarget(w: World, n: Name, c: Claim, d: Name): World {
    if d !in w.s.targets then SetClaimPhase(w, n, c, ClaimPending, Idle)
    else
      var t := w.s.targets[d];
      if t.claimRef == Some(n) then w.(claimJob := BindClaim(n, c, d, t))
      else if t.claimRef.Some? then SetClaimPhase(w, n, c, ClaimPending, Idle)
      else if Matches(n, c, d, t) then w.(claimJob := BindClaim(n, c, d, t))
      else Cut(w)
  }

  function StepClaim(w: World, pick: Option<Name>, generated: Name): World {
    match w.claimJob
    case Idle => w
    case Main(n, c) => if c.deleting then StartDeletion(w, n, c) else Provision(w, n, c, generated)
    case Provisioned(n, c) =>
      if c.bindComplete then SyncProvisioner(w, n, c)
      else if c.targetName.None? then FindTarget(w, n, c, pick)
      else UseNamedTarget(w, n, c, c.targetName.value)
    case HandleBound(n, c) => RepeatTargetBound(w, n, c)
    case RepeatClaimBound(n, c) => SetClaimPhase(w, n, c, ClaimBound, Idle)
    case AwaitProvisioner(n, c) => SetClaimPhase(w, n, c, ClaimPending, Idle)
    case BindClaim(n, c, d, t) => SetClaimPhase(w, n, c, ClaimBound, BindTarget(n, c.(phase := ClaimBound), d, t))
    case BindTarget(n, c, d, t) => SetTargetPhase(w, d, t, TargetBound, Annotate(n, c, d))
    case Annotate(n, c, d) => WriteClaim(w, n, c, c.(bindComplete := true), Idle)
    case MarkTarget(n, c, d, t) =>
      if ClassOf(w.s, t.className) != None && ClassOf(w.s, t.className).value.policy == DeletePolicy
      then if d in w.s.targets then w.(s := DeleteTarget(w.s, d), claimJob := ClearRef(n, c, d)) else Cut(w)
      else w.(claimJob := ClearRef(n, c, d))
    case ClearRef(n, c, d) =>
      if d !in w.s.targets then Cut(w)
      else
        var t' := w.s.targets[d].(claimRef := None);
        w.(s := PutTarget(w.s, d, t'), claimJob := Release(n, c, d, t'))
    case Release(n, c, d, t) => SetTargetPhase(w, d, t, TargetReleased, DropFinalizer(n, c, Some(d)))
    case DropFinalizer(n, c, released) =>
      if Binder in c.finalizers then WriteClaim(w, n, c, c.(finalizers := c.finalizers - {Binder}), Idle) else Cut(w)
  }

  // ---- the target reconciler: deploymenttarget_controller.go ----

  function BeginTarget(w: World, d: Name): World {
    if !w.targetJob.TargetIdle? || d !in w.s.targets then w
    else
      var t := w.s.targets[d];
      var t' := t.(finalizers := t.finalizers + {TargetFinalizer});
      if TargetFinalizer in t.finalizers then w.(targetJob := TargetMain(d, t))
      else if t.deleting then w
      else w.(s := PutTarget(w.s, d, t'), targetJob := TargetMain(d, t'))
  }

  function TargetWrites(w: World, d: Name, t: Target, t': Target): World {
    if TargetUnchanged(w.s, d, t) then w.(s := PutTarget(w.s, d, t'), targetJob := TargetIdle) else w.(targetJob := TargetIdle)
  }

  // What findMatchingSpaceRequestForDT may return; `pick` is the first environment-tier request.
  predicate RequestsFor(s: Cluster, d: Name, t: Target, r: Name) {
    r in s.requests &&
    if exists x :: x in s.requests && LabelledWith(s, x, d) then LabelledWith(s, r, d)
    else t.claimRef.Some? && ClaimedBy(s, r, t.claimRef.value)
  }

  predicate HasSpace(s: Cluster, d: Name, t: Target) {
    exists r :: r in s.requests && RequestsFor(s, d, t, r) && s.requests[r].environmentTier
  }

  function StepTarget(w: World, pick: Name, timedOut: bool): World {
    var done := w.(targetJob := TargetIdle);
    match w.targetJob
    case TargetIdle => w
    case TargetMain(d, t) =>
      var cls := ClassOf(w.s, t.className);
      if cls.None? || cls.value.policy == OtherPolicy then done
      else if !t.deleting then
        if t.claimRef.Some? && t.claimRef.value !in w.s.claims && cls.value.policy == RetainPolicy
        then TargetWrites(w, d, t, t.(claimRef := None)) else done
      else if !HasSpace(w.s, d, t) || cls.value.policy == RetainPolicy then
        if TargetFinalizer in t.finalizers
        then TargetWrites(w, d, t, t.(finalizers := t.finalizers - {TargetFinalizer})) else done
      else if !(RequestsFor(w.s, d, t, pick) && w.s.requests[pick].environmentTier) then w
      else
        var q := w.s.requests[pick];
        var q' := q.(finalizers := q.finalizers + {RequestFinalizer});
        if RequestFinalizer in q.finalizers then w.(targetJob := TargetSpace(d, t, pick, q))
        else if q.deleting then done
        else w.(s := PutRequest(w.s, pick, q'), targetJob := TargetSpace(d, t, pick, q'))
    case TargetSpace(d, t, r, q) =>
      if q.ready.NoReadyCondition? then done
      else if !q.deleting then done.(s := DeleteRequest(w.s, r))
      else if t.phase == TargetFailed then done
      else if timedOut && q.ready == ReadyFalse(true) then TargetWrites(w, d, t, t.(phase := TargetFailed))
      else done
  }

  // ---- the SpaceRequest reconciler: spacerequest_controller.go ----

  function TargetNameFor(n: Name): Name {
    Name(n.text + "-dt")
  }

  // `cls` and `pick` are what the lists of classes and targets yield; `credentials` is whether
  // the first namespace access of the request makes for credentials that are not all empty.
  function BeginRequest(w: World, r: Name, cls: Name, pick: Option<Name>, credentials: bool): World {
    if !w.requestJob.RequestIdle? || r !in w.s.requests then w
    else
      var q := w.s.requests[r];
      if q.deleting || q.claimLabel.None? then w
      else if cls !in w.s.classes || !w.s.classes[cls].devsandbox then w
      else if w.s.classes[cls].policy == DeletePolicy && q.claimLabel.value !in w.s.claims
      then w.(s := DeleteRequest(w.s, r))
      else if q.namespaces != 1 || q.ready != ReadyTrue then w
      else RequestTarget(w, r, q, q.claimLabel.value, pick, credentials)
  }

  function RequestTarget(w: World, r: Name, q: SpaceRequest, n: Name, pick: Option<Name>, credentials: bool): World {
    if q.targetLabel.Some? && q.targetLabel.value in w.s.targets
    then w.(requestJob := LabelRequest(r, q, q.targetLabel.value))
    else if n !in w.s.claims then w
    else
      match pick
      case Some(d) =>
        if d in w.s.targets && w.s.targets[d].claimRef == Some(n) then w.(requestJob := LabelRequest(r, q, d)) else w
      case None =>
        var d := TargetNameFor(n);
        var t := Target(w.s.claims[n].className, Some(n), credentials, TargetNoPhase, {}, false);
        if (exists x :: x in w.s.targets && w.s.targets[x].claimRef == Some(n)) || d in w.s.targets then w
        else w.(s := PutTarget(w.s, d, t), requestJob := Created(r, q, d, t))
  }

  function StepRequest(w: World): World {
    match w.requestJob
    case RequestIdle => w
    case Created(r, q, d, t) =>
      if TargetUnchanged(w.s, d, t)
      then w.(s := PutTarget(w.s, d, t.(phase := TargetAvailable)), requestJob := LabelRequest(r, q, d))
      else w.(requestJob := RequestIdle)
    case LabelRequest(r, q, d) =>
      var done := w.(requestJob := RequestIdle);
      if q.targetLabel == Some(d) || !RequestUnchanged(w.s, r, q) then done
      else done.(s := PutRequest(w.s, r, q.(targetLabel := Some(d))))
  }

  // ---- runs ----

  datatype Action =
    | ClaimBegins(n: Name)
    | ClaimSteps(pick: Option<Name>, generated: Name)
    | ClaimCut
    | TargetBegins(n: Name)
    | TargetSteps(request: Name, timedOut: bool)
    | TargetCut
    | RequestBegins(n: Name, cls: Name, pick: Option<Name>, credentials: bool)
    | RequestSteps
    | RequestCut
    | UserCreatesClaim(n: Name, className: Option<Name>, targetName: Option<Name>, finalizers: set<Finalizer>)
    | UserDeletesClaim(n: Name)
    | UserCreatesTarget(n: Name, className: Option<Name>, claimRef: Option<Name>, credentials: bool, finalizers: set<Finalizer>)
    | UserDeletesTarget(n: Name)
    | RequestChanges(n: Name, q: Option<SpaceRequest>)   // users, and the operator behind SpaceRequests
    | ForeignClaimFinalizer(n: Name, id: Name)           // another controller is done with its object
    | ForeignTargetFinalizer(n: Name, id: Name)

  function Step(w: World, a: Action): World {
    match a
    case ClaimBegins(n) => BeginClaim(w, n)
    case ClaimSteps(pick, generated) => StepClaim(w, pick, generated)
    case ClaimCut => w.(claimJob := Idle)
    case TargetBegins(d) => BeginTarget(w, d)
    case TargetSteps(pick, timedOut) => StepTarget(w, pick, timedOut)
    case TargetCut => w.(targetJob := TargetIdle)
    case RequestBegins(r, cls, pick, credentials) => BeginRequest(w, r, cls, pick, credentials)
    case RequestSteps => StepRequest(w)
    case RequestCut => w.(requestJob := RequestIdle)
    case UserCreatesClaim(n, className, targetName, finalizers) =>
      if n in w.s.claims then w
      else w.(s := PutClaim(w.s, n, Claim(className, targetName, ClaimNoPhase, false, false, None, finalizers, false)))
    case UserDeletesClaim(n) => w.(s := DeleteClaim(w.s, n))
    case UserCreatesTarget(d, className, claimRef, credentials, finalizers) =>
      if d in w.s.targets then w
      else w.(s := PutTarget(w.s, d, Target(className, claimRef, credentials, TargetNoPhase, finalizers, false)))
    case UserDeletesTarget(d) => w.(s := DeleteTarget(w.s, d))
    case RequestChanges(r, q) =>
      w.(s := w.s.(requests := if q.Some? then w.s.requests[r := q.value] else w.s.requests - {r}))
    case ForeignClaimFinalizer(n, id) =>
      if n !in w.s.claims then w
      else w.(s := PutClaim(w.s, n, w.s.claims[n].(finalizers := w.s.claims[n].finalizers - {Foreign(id)})))
    case ForeignTargetFinalizer(d, id) =>
      if d !in w.s.targets then w
      else w.(s := PutTarget(w.s, d, w.s.targets[d].(finalizers := w.s.targets[d].finalizers - {Foreign(id)})))
  }

  function Initial(classes: map<Name, Class>): World {
    World(Cluster(map[], map[], map[], classes, {}), Idle, TargetIdle, RequestIdle)
  }

  function Exec(w: World, run: seq<Action>): World {
    if run == [] then w else Step(Exec(w, run[..|run| - 1]), run[|run| - 1])
  }
}
