// The cluster objects shared by the DeploymentTargetClaim, DeploymentTarget and SpaceRequest
// reconcilers of one namespace, the predicates their decisions rest on, and the API writes.
module DeploymentTargets {
  import opened Wrappers

  // An empty string in a name field of the resources is None here.

  datatype Finalizer = Binder | TargetFinalizer | RequestFinalizer | Foreign(id: Name)
  datatype ClaimPhase = ClaimNoPhase | ClaimPending | ClaimBound | ClaimLost
  datatype TargetPhase = TargetNoPhase | TargetAvailable | TargetBound | TargetReleased | TargetFailed
  datatype ReclaimPolicy = DeletePolicy | RetainPolicy | OtherPolicy
  datatype ReadyCondition = NoReadyCondition | ReadyTrue | ReadyFalse(terminatingFailed: bool)

  datatype Claim = Claim(className: Option<Name>, targetName: Option<Name>, phase: ClaimPhase,
                         boundByController: bool, bindComplete: bool, provisioner: Option<Name>,
                         finalizers: set<Finalizer>, deleting: bool)
  datatype Target = Target(className: Option<Name>, claimRef: Option<Name>, hasCredentials: bool,
                           phase: TargetPhase, finalizers: set<Finalizer>, deleting: bool)
  datatype SpaceRequest = SpaceRequest(environmentTier: bool, claimLabel: Option<Name>, targetLabel: Option<Name>,
                                       ready: ReadyCondition, namespaces: nat,
                                       finalizers: set<Finalizer>, deleting: bool)
  datatype Class = Class(policy: ReclaimPolicy, devsandbox: bool)

  // `everTargets`: names that some target has had.
  datatype Cluster = Cluster(claims: map<Name, Claim>, targets: map<Name, Target>, requests: map<Name, SpaceRequest>,
                             classes: map<Name, Class>, everTargets: set<Name>)

  // ---- decisions ----

  predicate Free(phase: TargetPhase) {
    phase == TargetNoPhase || phase == TargetAvailable
  }

  predicate IsBound(c: Claim) {
    c.bindComplete && c.phase == ClaimBound
  }

  // The four conflicts between what a claim targets and what a target references.
  predicate BindingConflict(n: Name, c: Claim, d: Name, t: Target) {
    || ((c.targetName == Some(d) || c.targetName.None?) && t.claimRef.Some? && t.claimRef != Some(n))
    || ((t.claimRef == Some(n) || t.claimRef.None?) && c.targetName.Some? && c.targetName != Some(d))
  }

  predicate Matches(n: Name, c: Claim, d: Name, t: Target) {
    && !(t.claimRef.Some? && t.claimRef != Some(n))
    && t.className == c.className
    && Free(t.phase)
    && t.hasCredentials
    && !BindingConflict(n, c, d, t)
  }

  // What findMatchingDTForDTC accepts: for a claim marked for provisioning only a target made for it.
  predicate Candidate(n: Name, c: Claim, d: Name, t: Target) {
    (c.provisioner.Some? ==> t.claimRef == Some(n)) && Matches(n, c, d, t)
  }

  datatype Lookup = Found(name: Name) | Absent | LookupError

  // The target bound by a claim: the one it names, or else the only one that references it.
  function BoundTarget(s: Cluster, n: Name, c: Claim): Lookup {
    match c.targetName
    case Some(d) =>
      if d !in s.targets then Absent
      else if BindingConflict(n, c, d, s.targets[d]) then LookupError
      else Found(d)
    case None =>
      var referencing := set d | d in s.targets && s.targets[d].claimRef == Some(n);
      if referencing == {} then Absent
      else if |referencing| > 1 then LookupError
      else OnlyName(referencing)
  }

  function OnlyName(names: set<Name>): Lookup
    requires |names| == 1
  {
    var d :| d in names;
    assert names - {d} == {} by {
      assert |names - {d}| == 0;
    }
    assert forall e :: e in names ==> e == d || e in names - {d};
    Found(d)
  }

  function ClassOf(s: Cluster, className: Option<Name>): Option<Class> {
    if className.Some? && className.value in s.classes then Some(s.classes[className.value]) else None
  }

  predicate LabelledWith(s: Cluster, r: Name, d: Name) {
    r in s.requests && s.requests[r].targetLabel == Some(d)
  }

  predicate ClaimedBy(s: Cluster, r: Name, n: Name) {
    r in s.requests && s.requests[r].claimLabel == Some(n)
  }

  // ---- writes ----

  // An object that is being deleted disappears with its last finalizer.
  function PutClaim(s: Cluster, n: Name, c: Claim): Cluster {
    if c.deleting && c.finalizers == {} then s.(claims := s.claims - {n}) else s.(claims := s.claims[n := c])
  }

  function PutTarget(s: Cluster, d: Name, t: Target): Cluster {
    if t.deleting && t.finalizers == {} then s.(targets := s.targets - {d})
    else s.(targets := s.targets[d := t], everTargets := s.everTargets + {d})
  }

  function PutRequest(s: Cluster, r: Name, q: SpaceRequest): Cluster {
    if q.deleting && q.finalizers == {} then s.(requests := s.requests - {r}) else s.(requests := s.requests[r := q])
  }

  // A write of an object read earlier succeeds only while the object is still the one read.
  predicate ClaimUnchanged(s: Cluster, n: Name, c: Claim) {
    n in s.claims && s.claims[n] == c
  }

  predicate TargetUnchanged(s: Cluster, d: Name, t: Target) {
    d in s.targets && s.targets[d] == t
  }

  predicate RequestUnchanged(s: Cluster, r: Name, q: SpaceRequest) {
    r in s.requests && s.requests[r] == q
  }

  function DeleteClaim(s: Cluster, n: Name): Cluster {
    if n in s.claims then PutClaim(s, n, s.claims[n].(deleting := true)) else s
  }

  function DeleteTarget(s: Cluster, d: Name): Cluster {
    if d in s.targets then PutTarget(s, d, s.targets[d].(deleting := true)) else s
  }

  function DeleteRequest(s: Cluster, r: Name): Cluster {
    if r in s.requests then PutRequest(s, r, s.requests[r].(deleting := true)) else s
  }
}
