/**
  Planning, authorising, verifying and recovering one provider firewall change
  (scripts/provider-firewall-contract.py, scripts/provider-capability-contract.py).
 */
module ProviderFirewall {
  import opened Common
  import opened Cidr
  import PrefixLkg

  // ---------- Capabilities ----------

  datatype Operation = Create | Inspect | Rebuild | Delete

  datatype Outcome = Applied | Observed | AlreadySatisfied | Unsupported | Failed

  datatype Cleanup = NotApplicable | Complete | Incomplete

  datatype Target = Target(provider: string, scope: string, requestedKey: string, resourceId: Option<string>,
                           expectedVersion: Option<string>)

  /** SHA-256 of the canonical parameters, as the injective function it is relied on to be. */
  datatype Parameters =
    | InspectionParameters(target: Target, phase: Phase, supported: set<Operation>, predecessor: Option<Request>)
    | MutationParameters(plan: Plan)
    | RollbackParameters(rollback: Rollback)

  datatype Authority = Authority(adapter: string, revision: string, target: Target, operations: set<Operation>,
                                 parameters: Parameters)

  datatype Request = Request(id: string, adapter: string, revision: string, operation: Operation, target: Target,
                             parameters: Parameters)

  datatype CapabilityResult = CapabilityResult(request: Request, outcome: Outcome, cleanup: Cleanup,
                                               resourceId: Option<string>, resourceVersion: Option<string>,
                                               imageId: Option<string>, diagnostic: Option<string>)

  predicate AdmitRequest(request: Request, authority: Authority, supported: set<Operation>) {
    && request.adapter == authority.adapter && request.revision == authority.revision
    && request.target == authority.target && request.parameters == authority.parameters
    && request.operation in authority.operations && request.operation in supported
    && (!request.operation.Create? ==> request.target.resourceId.Some?)
  }

  /** A result names its whole request, and claims nothing its outcome contradicts. */
  predicate AdmitResult(request: Request, result: CapabilityResult) {
    && result.request == request
    && (match request.operation
        case Inspect => result.outcome.Observed? || result.outcome.Unsupported? || result.outcome.Failed?
        case _ => !result.outcome.Observed?)
    && (result.resourceId.Some? && request.target.resourceId.Some? ==> result.resourceId == request.target.resourceId)
    && (result.diagnostic.Some? <==> result.outcome.Failed? || result.outcome.Unsupported?)
    && match result.outcome
       case Unsupported =>
         result.cleanup.NotApplicable? && result.resourceId.None? && result.resourceVersion.None? && result.imageId.None?
       case Failed =>
         if request.operation.Inspect? then result.cleanup.NotApplicable? else !result.cleanup.NotApplicable?
       case _ =>
         if request.operation.Delete? then
           result.cleanup.Complete? && result.resourceId.None? && result.resourceVersion.None? && result.imageId.None?
         else
           && result.cleanup.NotApplicable? && result.resourceId.Some?
           && (request.operation.Inspect? && request.target.expectedVersion.Some? ==>
                 result.resourceVersion == request.target.expectedVersion)
  }

  // ---------- Policies, observations, plans ----------

  datatype Phase = Current | PostMutation | PostRollback

  datatype Policy = Policy(protocol: string, port: int, ipv4: seq<Network>, ipv6: seq<Network>)

  datatype Owned = Owned(rule: string, policy: Policy)

  /** One complete read of the owned slice, with digests of everything else. */
  datatype Observation = Observation(phase: Phase, request: Request, result: CapabilityResult, supported: set<Operation>,
                                     owned: Option<Owned>, operatorAccess: seq<string>, preserved: string)

  datatype Action = NoMutation | ReplaceOwned

  datatype Plan = Plan(action: Action, target: Target, adapter: string, revision: string, supported: set<Operation>,
                       accepted: PrefixLkg.Digest, desired: Policy, prior: Option<Owned>, preserved: string,
                       operatorAccess: seq<string>)

  datatype Rollback = Rollback(target: Target, adapter: string, revision: string, supported: set<Operation>,
                               restore: Option<Policy>, preserved: string, operatorAccess: seq<string>)

  /** The resource a target names, whatever version it expects. */
  function Resource(target: Target): Target {
    target.(expectedVersion := None)
  }

  predicate SameResource(a: Target, b: Target) {
    Resource(a) == Resource(b)
  }

  predicate AdmitObservation(o: Observation, authority: Authority, phase: Phase, predecessor: Option<Request>) {
    && o.phase == phase
    && o.request.parameters == InspectionParameters(o.request.target, phase, o.supported, predecessor)
    && AdmitRequest(o.request, authority, o.supported) && AdmitResult(o.request, o.result)
    && o.request.operation.Inspect? && o.result.outcome.Observed?
  }

  function PolicyOf(o: Option<Owned>): Option<Policy> {
    if o.None? then None else Some(o.value.policy)
  }

  /** The accepted publication's ingress: TCP 443, nothing else. */
  function Desired(accepted: PrefixLkg.Candidate): Policy {
    Policy("tcp", 443, accepted.material.ipv4, accepted.material.ipv6)
  }

  function MakePlan(accepted: Option<PrefixLkg.Candidate>, current: Observation, authority: Authority)
    : Result<Plan, ()>
  {
    if accepted.None? || !AdmitObservation(current, authority, Current, None) then Failure(())
    else
      var desired := Desired(accepted.value);
      Success(Plan(if PolicyOf(current.owned) == Some(desired) then NoMutation else ReplaceOwned,
                   current.request.target.(expectedVersion := current.result.resourceVersion),
                   current.request.adapter, current.request.revision, current.supported, accepted.value.digest,
                   desired, current.owned, current.preserved, current.operatorAccess))
  }

  function MutationRequest(plan: Plan, authority: Authority, id: string): Result<Request, ()> {
    var request := Request(id, plan.adapter, plan.revision, Rebuild, plan.target, MutationParameters(plan));
    if plan.action != ReplaceOwned || plan.target.expectedVersion.None? || !AdmitRequest(request, authority, plan.supported)
    then Failure(())
    else Success(request)
  }

  /** One rebuild: the request and its authority, what the adapter reports, and the read that follows. */
  datatype Exchange = Exchange(authority: Authority, request: Request, result: CapabilityResult, reread: Observation,
                               inspect: Authority)

  predicate AdmitMutation(plan: Plan, x: Exchange) {
    MutationRequest(plan, x.authority, x.request.id) == Success(x.request) && AdmitResult(x.request, x.result)
  }

  /** A fresh read of the same resource, through the same adapter, with everything unowned as it was planned. */
  predicate AdmitFresh(plan: Plan, x: Exchange) {
    && AdmitObservation(x.reread, x.inspect, PostMutation, Some(x.request))
    && SameResource(x.reread.request.target, plan.target)
    && x.reread.request.adapter == plan.adapter && x.reread.request.revision == plan.revision
    && x.reread.supported == plan.supported
    && x.reread.preserved == plan.preserved && x.reread.operatorAccess == plan.operatorAccess
  }

  predicate Verify(plan: Plan, x: Exchange) {
    AdmitMutation(plan, x) && AdmitFresh(plan, x) && PolicyOf(x.reread.owned) == Some(plan.desired)
  }

  datatype Recovery = DesiredVerified | PriorVerified | RollBack(rollback: Rollback)

  /** The mutation's own account is that nothing of it remains. */
  predicate NoRetainedEffect(result: CapabilityResult) {
    || result.outcome.Unsupported? || result.outcome.AlreadySatisfied?
    || (result.outcome.Failed? && result.cleanup.Complete?)
  }

  function Recover(plan: Plan, x: Exchange): Result<Recovery, ()> {
    var owned := PolicyOf(x.reread.owned);
    if !AdmitMutation(plan, x) || !AdmitFresh(plan, x) then Failure(())
    else if NoRetainedEffect(x.result) then
      if owned == PolicyOf(plan.prior) then Success(PriorVerified) else Failure(())
    else if owned == Some(plan.desired) then Success(DesiredVerified)
    else if owned == PolicyOf(plan.prior) then Success(PriorVerified)
    else if x.reread.result.resourceVersion.None? then Failure(())
    else
      Success(RollBack(Rollback(x.reread.request.target.(expectedVersion := x.reread.result.resourceVersion),
                                plan.adapter, plan.revision, plan.supported, PolicyOf(plan.prior), plan.preserved,
                                plan.operatorAccess)))
  }

  function RollbackRequest(rollback: Rollback, authority: Authority, id: string): Result<Request, ()> {
    var request := Request(id, rollback.adapter, rollback.revision, Rebuild, rollback.target, RollbackParameters(rollback));
    if !AdmitRequest(request, authority, rollback.supported) then Failure(()) else Success(request)
  }

  predicate VerifyRollback(rollback: Rollback, x: Exchange) {
    && RollbackRequest(rollback, x.authority, x.request.id) == Success(x.request) && AdmitResult(x.request, x.result)
    && AdmitObservation(x.reread, x.inspect, PostRollback, Some(x.request))
    && SameResource(x.reread.request.target, rollback.target)
    && x.reread.request.adapter == rollback.adapter && x.reread.request.revision == rollback.revision
    && x.reread.supported == rollback.supported
    && x.reread.preserved == rollback.preserved && x.reread.operatorAccess == rollback.operatorAccess
    && PolicyOf(x.reread.owned) == rollback.restore
  }

  // ---------- The provider ----------

  /** What the provider holds for one resource: the owned slice, and digests of everything else. */
  datatype Slice = Slice(version: string, owned: Option<Owned>, preserved: string, operatorAccess: seq<string>)

  datatype Revision = Revision(resource: Target, version: string)

  /** One change of a resource: by a landed request, or by somebody else. */
  datatype Change = Change(resource: Target, before: Slice, after: Slice, author: Option<Request>)

  /** `held` is every slice there ever was, by revision; `pending` the requests an adapter may still carry out. */
  datatype World = World(slices: map<Target, Slice>, held: map<Revision, Slice>, pending: set<Request>,
                         changes: seq<Change>)

  /**
    What can happen between two calls of the contract. A rebuild leaves whatever owned slice `Land`
    says, its policy in whole or in part or none of it, and nothing tells the caller. A request may be
    submitted again, and may stay pending after it landed.
   */
  datatype Step =
    | Foreign(resource: Target, next: Slice)
    | Submit(request: Request)
    | Land(request: Request, owned: Option<Owned>, version: string)
    | Withdraw(request: Request)

  predicate Names(request: Request, revision: Revision) {
    && request.operation.Rebuild? && Resource(request.target) == revision.resource
    && request.target.expectedVersion == Some(revision.version)
  }

  predicate Holds(w: World, revision: Revision) {
    revision.resource in w.slices && w.slices[revision.resource].version == revision.version
  }

  /** A rebuild compares the version its target names, and the provider never uses a version twice. */
  predicate MayLand(w: World, request: Request, version: string) {
    && request in w.pending && Resource(request.target) in w.slices
    && Names(request, Revision(Resource(request.target), w.slices[Resource(request.target)].version))
    && Revision(Resource(request.target), version) !in w.held
  }

  function Changed(w: World, resource: Target, next: Slice, author: Option<Request>): World
    requires resource in w.slices
  {
    World(w.slices[resource := next], w.held[Revision(resource, next.version) := next], w.pending,
          w.changes + [Change(resource, w.slices[resource], next, author)])
  }

  /** A step whose condition does not hold changes nothing. */
  function Next(w: World, step: Step): World {
    match step
    case Foreign(resource, next) =>
      if resource in w.slices && Revision(resource, next.version) !in w.held then Changed(w, resource, next, None) else w
    case Submit(request) => w.(pending := w.pending + {request})
    case Land(request, owned, version) =>
      if MayLand(w, request, version) then
        var resource := Resource(request.target);
        Changed(w, resource, w.slices[resource].(version := version, owned := owned), Some(request))
      else w
    case Withdraw(request) => w.(pending := w.pending - {request})
  }

  function After(w: World, steps: seq<Step>): World
    decreases |steps|
  {
    if steps == [] then w else After(Next(w, steps[0]), steps[1..])
  }

  ghost predicate HeldValid(w: World) {
    && (forall r :: r in w.slices ==>
          Revision(r, w.slices[r].version) in w.held && w.held[Revision(r, w.slices[r].version)] == w.slices[r])
    && (forall v :: v in w.held ==> w.held[v].version == v.version)
  }

  function BeforeOf(change: Change): Revision {
    Revision(change.resource, change.before.version)
  }

  /** Every change ended a revision that was held, and a landed request ended the one it names. */
  ghost predicate ChangeValid(w: World, change: Change) {
    && BeforeOf(change) in w.held && w.held[BeforeOf(change)] == change.before && !Holds(w, BeforeOf(change))
    && (change.author.Some? ==> Names(change.author.value, BeforeOf(change)) && SameUnowned(change.before, change.after))
  }

  ghost predicate ChangesValid(w: World) {
    && (forall k :: 0 <= k < |w.changes| ==> ChangeValid(w, w.changes[k]))
    && (forall i, k :: 0 <= i < k < |w.changes| ==> BeforeOf(w.changes[i]) != BeforeOf(w.changes[k]))
  }

  ghost predicate Valid(w: World) {
    HeldValid(w) && ChangesValid(w)
  }

  predicate SameUnowned(a: Slice, b: Slice) {
    a.preserved == b.preserved && a.operatorAccess == b.operatorAccess
  }

  /** A revision that was held and no longer is. */
  ghost predicate Superseded(w: World, revision: Revision) {
    revision in w.held && !Holds(w, revision)
  }

  /** What no step takes back. */
  ghost predicate Follows(w: World, v: World) {
    && (forall r :: r in w.held ==> r in v.held && v.held[r] == w.held[r])
    && w.changes <= v.changes
    && (forall r :: Superseded(w, r) ==> Superseded(v, r))
    && (forall k :: |w.changes| <= k < |v.changes| ==> !Superseded(w, BeforeOf(v.changes[k])))
  }

  lemma ChangedKeepsValid(w: World, resource: Target, next: Slice, author: Option<Request>)
    requires Valid(w) && resource in w.slices && Revision(resource, next.version) !in w.held
    requires author.Some? ==> Names(author.value, Revision(resource, w.slices[resource].version))
    requires author.Some? ==> SameUnowned(w.slices[resource], next)
    ensures Valid(Changed(w, resource, next, author))
  {
    hide Names, SameUnowned;
    var v := Changed(w, resource, next, author);
    assert ChangeValid(v, v.changes[|w.changes|]);
    forall k | 0 <= k < |w.changes|
      ensures ChangeValid(v, v.changes[k]) && BeforeOf(v.changes[k]) != BeforeOf(v.changes[|w.changes|])
    {
      assert ChangeValid(w, w.changes[k]);
    }
  }

  lemma StepKeepsValid(w: World, step: Step)
    requires Valid(w)
    ensures Valid(Next(w, step))
  {
    hide Names, Changed;
    if step.Foreign? && step.resource in w.slices && Revision(step.resource, step.next.version) !in w.held {
      ChangedKeepsValid(w, step.resource, step.next, None);
    } else if step.Land? && MayLand(w, step.request, step.version) {
      var slice := w.slices[Resource(step.request.target)];
      ChangedKeepsValid(w, Resource(step.request.target), slice.(version := step.version, owned := step.owned),
                        Some(step.request));
    }
  }

  lemma StepFollows(w: World, step: Step)
    requires Valid(w)
    ensures Follows(w, Next(w, step))
  {
    hide ChangesValid;
  }

  lemma FollowsTransitive(u: World, v: World, w: World)
    requires Follows(u, v) && Follows(v, w)
    ensures Follows(u, w)
  {
    hide Superseded;
    forall k | |u.changes| <= k < |w.changes| ensures !Superseded(u, BeforeOf(w.changes[k])) {
      if k < |v.changes| {
        assert w.changes[k] == v.changes[k];
      }
    }
  }

  /** Every run keeps the invariant and takes nothing back. */
  lemma {:induction false} RunFollows(w: World, steps: seq<Step>)
    requires Valid(w)
    ensures Valid(After(w, steps)) && Follows(w, After(w, steps))
    decreases |steps|
  {
    hide Valid, Next, Superseded;
    if steps != [] {
      StepKeepsValid(w, steps[0]);
      StepFollows(w, steps[0]);
      RunFollows(Next(w, steps[0]), steps[1..]);
      FollowsTransitive(w, Next(w, steps[0]), After(w, steps));
    }
  }

  ghost predicate LandedAt(w: World, request: Request, k: int) {
    0 <= k < |w.changes| && w.changes[k].author == Some(request)
  }

  /** However often a request is submitted, it takes effect at most once, and only on the revision it names. */
  lemma LandsAtMostOnce(w: World, steps: seq<Step>, request: Request, i: int, k: int)
    requires Valid(w) && LandedAt(After(w, steps), request, i) && LandedAt(After(w, steps), request, k)
    ensures i == k
    ensures Names(request, BeforeOf(After(w, steps).changes[k]))
    ensures SameUnowned(After(w, steps).changes[k].before, After(w, steps).changes[k].after)
  {
    RunFollows(w, steps);
    var v := After(w, steps);
    assert ChangeValid(v, v.changes[i]) && ChangeValid(v, v.changes[k]);
  }

  /** Of all requests that name one revision, at most one ever takes effect, and none if anything else ended it. */
  lemma OneOfManyLands(w: World, steps: seq<Step>, revision: Revision, request: Request, i: int, k: int)
    requires Valid(w) && Names(request, revision) && LandedAt(After(w, steps), request, i)
    requires 0 <= k < |After(w, steps).changes| && BeforeOf(After(w, steps).changes[k]) == revision
    ensures i == k
  {
    RunFollows(w, steps);
    var v := After(w, steps);
    assert ChangeValid(v, v.changes[i]);
  }

  /** Once the named revision is past, a request still pending can never take effect. */
  lemma SupersededNeverLands(w: World, steps: seq<Step>, request: Request, revision: Revision, k: int)
    requires Valid(w) && Names(request, revision) && Superseded(w, revision)
    requires LandedAt(After(w, steps), request, k)
    ensures k < |w.changes| && w.changes[k].author == Some(request)
  {
    RunFollows(w, steps);
    var v := After(w, steps);
    assert ChangeValid(v, v.changes[k]);
    assert BeforeOf(v.changes[k]) == revision;
  }

  // ---------- Who changed a resource ----------

  /** Between `w` and its successor `v` nobody changed `resource`, but for requests among `ours`. */
  ghost predicate NobodyElse(w: World, v: World, resource: Target, ours: set<Request>) {
    forall k :: |w.changes| <= k < |v.changes| && v.changes[k].resource == resource ==>
      v.changes[k].author.Some? && v.changes[k].author.value in ours
  }

  ghost predicate OnlyChange(w: World, v: World, resource: Target, k: int) {
    && |w.changes| <= k < |v.changes| && v.changes[k].resource == resource
    && forall i :: |w.changes| <= i < |v.changes| && v.changes[i].resource == resource ==> i == k
  }

  lemma StepResources(w: World, step: Step)
    ensures Next(w, step).slices.Keys == w.slices.Keys
    ensures forall r :: r in w.slices && Next(w, step).slices[r] != w.slices[r] ==>
      && |Next(w, step).changes| == |w.changes| + 1
      && Next(w, step).changes[|w.changes|].resource == r
    ensures |Next(w, step).changes| == |w.changes| || |Next(w, step).changes| == |w.changes| + 1
    ensures |Next(w, step).changes| == |w.changes| + 1 ==>
      var change := Next(w, step).changes[|w.changes|];
      && change.resource in w.slices && change.before == w.slices[change.resource]
      && change.after == Next(w, step).slices[change.resource]
  {
  }

  /** A resource nobody changed is as it was. */
  lemma {:induction false} Unchanged(w: World, steps: seq<Step>, resource: Target)
    requires Valid(w) && NobodyElse(w, After(w, steps), resource, {}) && resource in w.slices
    ensures resource in After(w, steps).slices && After(w, steps).slices[resource] == w.slices[resource]
    decreases |steps|
  {
    hide Valid, Next, Superseded;
    if steps != [] {
      var u := Next(w, steps[0]);
      StepKeepsValid(w, steps[0]);
      StepFollows(w, steps[0]);
      StepResources(w, steps[0]);
      RunFollows(u, steps[1..]);
      Unchanged(u, steps[1..], resource);
    }
  }

  /** A resource changed once was changed from what it was to what it is. */
  lemma {:induction false} ChangedOnce(w: World, steps: seq<Step>, resource: Target, k: int)
    requires Valid(w) && OnlyChange(w, After(w, steps), resource, k) && resource in w.slices
    ensures resource in After(w, steps).slices
    ensures After(w, steps).changes[k].before == w.slices[resource]
    ensures After(w, steps).changes[k].after == After(w, steps).slices[resource]
    decreases |steps|
  {
    hide Valid, Next, Superseded;
    if steps != [] {
      var u := Next(w, steps[0]);
      var v := After(w, steps);
      StepKeepsValid(w, steps[0]);
      StepFollows(w, steps[0]);
      StepResources(w, steps[0]);
      RunFollows(u, steps[1..]);
      if k < |u.changes| {
        assert v.changes[k] == u.changes[k];
        Unchanged(u, steps[1..], resource);
      } else {
        assert |u.changes| == |w.changes| + 1 ==> v.changes[|w.changes|] == u.changes[|w.changes|];
        ChangedOnce(u, steps[1..], resource, k);
      }
    }
  }

  // ---------- What the lifecycle guarantees ----------

  /** The observation is an honest and complete read; the adapter may have no version to report. */
  ghost predicate Reads(o: Observation, w: World) {
    var resource := Resource(o.request.target);
    && resource in w.slices
    && o.owned == w.slices[resource].owned && o.preserved == w.slices[resource].preserved
    && o.operatorAccess == w.slices[resource].operatorAccess
    && (o.result.resourceVersion.Some? ==> o.result.resourceVersion.value == w.slices[resource].version)
  }

  /**
    The plan was made of an honest read of `a`; then `steps` happened, among them perhaps the submission
    and the landing of the request; then an honest read followed.
   */
  ghost predicate Planned(a: World, steps: seq<Step>, accepted: Option<PrefixLkg.Candidate>, current: Observation,
                          authority: Authority, plan: Plan, x: Exchange)
  {
    && Valid(a) && Reads(current, a) && Reads(x.reread, After(a, steps))
    && MakePlan(accepted, current, authority) == Success(plan)
    && AdmitMutation(plan, x) && AdmitFresh(plan, x)
  }

  /** What the plan and its request say of `a` and of what follows. */
  lemma PlannedOn(a: World, steps: seq<Step>, accepted: Option<PrefixLkg.Candidate>, current: Observation,
                  authority: Authority, plan: Plan, x: Exchange)
    requires Planned(a, steps, accepted, current, authority, plan, x)
    ensures var resource := Resource(plan.target); var c := After(a, steps);
      && Resource(x.reread.request.target) == resource && resource in a.slices && resource in c.slices
      && Names(x.request, Revision(resource, a.slices[resource].version))
      && accepted.Some? && plan.desired == Desired(accepted.value)
      && plan.prior == a.slices[resource].owned && PolicyOf(plan.prior) != Some(plan.desired)
      && plan.preserved == a.slices[resource].preserved && plan.operatorAccess == a.slices[resource].operatorAccess
      && x.reread.owned == c.slices[resource].owned && SameUnowned(a.slices[resource], c.slices[resource])
  {
    hide Valid, After;
  }

  /** A request that names the revision `a` holds ends that revision if it ever lands. */
  lemma LandsOn(a: World, v: World, request: Request, resource: Target, k: int)
    requires Valid(a) && Valid(v) && Follows(a, v) && LandedAt(v, request, k)
    requires resource in a.slices && Names(request, Revision(resource, a.slices[resource].version))
    ensures k >= |a.changes| && v.changes[k].resource == resource && v.changes[k].before == a.slices[resource]
  {
    assert ChangeValid(v, v.changes[k]);
    forall i | 0 <= i < |a.changes| ensures !Holds(a, BeforeOf(v.changes[i])) {
      assert ChangeValid(a, a.changes[i]) && v.changes[i] == a.changes[i];
    }
  }

  /** The revision the request names is past. */
  ghost predicate Dead(w: World, request: Request) {
    exists revision :: Names(request, revision) && Superseded(w, revision)
  }

  /** Up to the end of `later` the request lands at most on the slice `a` holds, and not after `steps`. */
  ghost predicate LandsOnlyBetween(a: World, steps: seq<Step>, later: seq<Step>, request: Request, resource: Target)
    requires resource in a.slices
  {
    forall k :: LandedAt(After(After(a, steps), later), request, k) ==>
      && |a.changes| <= k < |After(a, steps).changes|
      && After(After(a, steps), later).changes[k].before == a.slices[resource]
  }

  /** Throughout `later` only a request outside `dead`, or a foreign change, can change the resource. */
  ghost predicate StaysUnlessOthersAct(c: World, later: seq<Step>, resource: Target, dead: set<Request>) {
    NobodyElse(c, After(c, later), resource, dead) && resource in c.slices ==>
      resource in After(c, later).slices && After(c, later).slices[resource] == c.slices[resource]
  }

  lemma NeverAgain(a: World, steps: seq<Step>, later: seq<Step>, request: Request, resource: Target)
    requires Valid(a) && resource in a.slices && Names(request, Revision(resource, a.slices[resource].version))
    requires Superseded(After(a, steps), Revision(resource, a.slices[resource].version))
    ensures LandsOnlyBetween(a, steps, later, request, resource) && Dead(After(a, steps), request)
  {
    hide Valid, After, Superseded;
    var c := After(a, steps);
    var d := After(c, later);
    RunFollows(a, steps);
    RunFollows(c, later);
    FollowsTransitive(a, c, d);
    forall k | LandedAt(d, request, k)
      ensures |a.changes| <= k < |c.changes| && d.changes[k].before == a.slices[resource]
    {
      LandsOn(a, d, request, resource, k);
      SupersededNeverLands(c, later, request, Revision(resource, a.slices[resource].version), k);
    }
  }

  lemma StaysPut(c: World, later: seq<Step>, resource: Target, dead: set<Request>)
    requires Valid(c) && forall r :: r in dead ==> Dead(c, r)
    ensures StaysUnlessOthersAct(c, later, resource, dead)
  {
    hide Valid, After, Superseded;
    var d := After(c, later);
    if NobodyElse(c, d, resource, dead) && resource in c.slices {
      forall k | |c.changes| <= k < |d.changes| && d.changes[k].resource == resource ensures false {
        var request := d.changes[k].author.value;
        var revision :| Names(request, revision) && Superseded(c, revision);
        SupersededNeverLands(c, later, request, revision, k);
      }
      Unchanged(c, later, resource);
    }
  }

  /** Two reads of one resource that differ were separated by a change. */
  lemma DifferentSlices(a: World, steps: seq<Step>, resource: Target)
    requires Valid(a) && resource in a.slices && resource in After(a, steps).slices
    requires After(a, steps).slices[resource] != a.slices[resource]
    ensures Superseded(After(a, steps), Revision(resource, a.slices[resource].version))
    ensures !NobodyElse(a, After(a, steps), resource, {})
  {
    RunFollows(a, steps);
    if NobodyElse(a, After(a, steps), resource, {}) {
      Unchanged(a, steps, resource);
    }
  }

  /** If nobody else acts, a resource that changed was changed once, by the one request that names its revision. */
  lemma SoleAuthor(a: World, steps: seq<Step>, request: Request, resource: Target) returns (k: int)
    requires Valid(a) && resource in a.slices && Names(request, Revision(resource, a.slices[resource].version))
    requires NobodyElse(a, After(a, steps), resource, {request})
    requires resource in After(a, steps).slices && After(a, steps).slices[resource] != a.slices[resource]
    ensures |a.changes| <= k < |After(a, steps).changes|
    ensures After(a, steps).changes[k] ==
            Change(resource, a.slices[resource], After(a, steps).slices[resource], Some(request))
  {
    hide Valid, Superseded, After;
    var c := After(a, steps);
    DifferentSlices(a, steps, resource);
    k :| |a.changes| <= k < |c.changes| && c.changes[k].resource == resource;
    assert LandedAt(c, request, k);
    forall i | |a.changes| <= i < |c.changes| && c.changes[i].resource == resource ensures i == k {
      assert LandedAt(c, request, i);
      LandsAtMostOnce(a, steps, request, i, k);
    }
    ChangedOnce(a, steps, resource, k);
  }

  /**
    A verified change, whatever the adapter reported: the provider holds the accepted policy and, outside
    the owned slice, what it held when the change was planned. The request can only have changed the planned
    slice, never changes anything again, and did make the change if nobody else acted.
   */
  lemma VerifiedChange(a: World, steps: seq<Step>, later: seq<Step>, accepted: Option<PrefixLkg.Candidate>,
                       current: Observation, authority: Authority, plan: Plan, x: Exchange)
    requires Planned(a, steps, accepted, current, authority, plan, x) && Verify(plan, x)
    ensures var resource, c := Resource(plan.target), After(a, steps);
      && resource in a.slices && resource in c.slices && accepted.Some?
      && PolicyOf(c.slices[resource].owned) == Some(Desired(accepted.value))
      && PolicyOf(a.slices[resource].owned) != Some(Desired(accepted.value))
      && SameUnowned(a.slices[resource], c.slices[resource])
      && (NobodyElse(a, c, resource, {x.request}) ==>
            exists k :: LandedAt(c, x.request, k)
                     && c.changes[k] == Change(resource, a.slices[resource], c.slices[resource], Some(x.request)))
    ensures LandsOnlyBetween(a, steps, later, x.request, Resource(plan.target))
    ensures StaysUnlessOthersAct(After(a, steps), later, Resource(plan.target), {x.request})
  {
    hide Valid, Superseded, After, MakePlan, AdmitMutation, AdmitFresh, Names, LandsOnlyBetween, StaysUnlessOthersAct;
    var resource, c := Resource(plan.target), After(a, steps);
    PlannedOn(a, steps, accepted, current, authority, plan, x);
    if NobodyElse(a, c, resource, {x.request}) {
      var k := SoleAuthor(a, steps, x.request, resource);
      assert LandedAt(c, x.request, k);
    }
    DifferentSlices(a, steps, resource);
    RunFollows(a, steps);
    NeverAgain(a, steps, later, x.request, resource);
    StaysPut(c, later, resource, {x.request});
  }

  /**
    A rollback is planned, under an admitted mutation and a fresh read, exactly when the adapter may have
    left an effect and the provider now holds neither the accepted policy nor the prior one, at a version
    the read reports. The slice has then changed since the plan: in part by the request if nobody else
    acted. The rollback names that very slice and restores the planned policy, and the request is dead.
   */
  lemma RollbackExactly(a: World, steps: seq<Step>, later: seq<Step>, accepted: Option<PrefixLkg.Candidate>,
                        current: Observation, authority: Authority, plan: Plan, x: Exchange)
    requires Planned(a, steps, accepted, current, authority, plan, x)
    ensures var resource, c := Resource(plan.target), After(a, steps);
      && resource in a.slices && resource in c.slices && accepted.Some?
      && var planned, now := PolicyOf(a.slices[resource].owned), PolicyOf(c.slices[resource].owned);
      && (Recover(plan, x).Success? && Recover(plan, x).value.RollBack? <==>
            && !NoRetainedEffect(x.result) && now != Some(Desired(accepted.value)) && now != planned
            && x.reread.result.resourceVersion.Some?)
      && (Recover(plan, x).Success? && Recover(plan, x).value.RollBack? ==>
            && RollsBack(Recover(plan, x).value.rollback, a.slices[resource], c.slices[resource], resource)
            && !NobodyElse(a, c, resource, {})
            && (NobodyElse(a, c, resource, {x.request}) ==>
                  exists k :: LandedAt(c, x.request, k)
                           && c.changes[k] == Change(resource, a.slices[resource], c.slices[resource], Some(x.request)))
            && LandsOnlyBetween(a, steps, later, x.request, resource))
  {
    hide Valid, Superseded, After, MakePlan, AdmitMutation, AdmitFresh, Names, LandsOnlyBetween;
    var resource, c := Resource(plan.target), After(a, steps);
    PlannedOn(a, steps, accepted, current, authority, plan, x);
    if c.slices[resource] != a.slices[resource] {
      DifferentSlices(a, steps, resource);
      NeverAgain(a, steps, later, x.request, resource);
      if NobodyElse(a, c, resource, {x.request}) {
        var k := SoleAuthor(a, steps, x.request, resource);
        assert LandedAt(c, x.request, k);
      }
    }
  }

  /** The rollback is conditioned on `now` and restores what was owned in `planned`, keeping all else. */
  predicate RollsBack(rollback: Rollback, planned: Slice, now: Slice, resource: Target) {
    && rollback.target == resource.(expectedVersion := Some(now.version))
    && rollback.restore == PolicyOf(planned.owned)
    && rollback.preserved == planned.preserved && rollback.operatorAccess == planned.operatorAccess
    && SameUnowned(planned, now)
  }

  /** What the rollback and its request say of `c` and of the last read. */
  lemma RollbackOn(c: World, d: World, rollback: Rollback, y: Exchange, planned: Slice, resource: Target)
    requires resource in c.slices && RollsBack(rollback, planned, c.slices[resource], resource)
    requires Resource(resource) == resource && VerifyRollback(rollback, y) && Reads(y.reread, d)
    ensures Names(y.request, Revision(resource, c.slices[resource].version)) && resource in d.slices
    ensures PolicyOf(d.slices[resource].owned) == PolicyOf(planned.owned) && SameUnowned(planned, d.slices[resource])
  {
  }

  lemma StillDead(c: World, d: World, request: Request)
    requires Follows(c, d) && Dead(c, request)
    ensures Dead(d, request)
  {
    hide Superseded;
    var revision :| Names(request, revision) && Superseded(c, revision);
  }

  /** If only the two requests act, the first acted before the fresh read and the second after it. */
  lemma EachInTurn(a: World, steps: seq<Step>, more: seq<Step>, resource: Target, first: Request, second: Request)
    requires Valid(a) && Dead(After(a, steps), first)
    requires resource in After(a, steps).slices
    requires Names(second, Revision(resource, After(a, steps).slices[resource].version))
    requires NobodyElse(a, After(After(a, steps), more), resource, {first, second})
    ensures NobodyElse(a, After(a, steps), resource, {first})
    ensures NobodyElse(After(a, steps), After(After(a, steps), more), resource, {second})
  {
    hide Valid, After, Superseded;
    var c := After(a, steps);
    var d := After(c, more);
    RunFollows(a, steps);
    RunFollows(c, more);
    forall k | |a.changes| <= k < |c.changes| && c.changes[k].resource == resource
      ensures c.changes[k].author == Some(first)
    {
      assert d.changes[k] == c.changes[k];
      if d.changes[k].author == Some(second) {
        LandsOn(c, d, second, resource, k);
      }
    }
    forall k | |c.changes| <= k < |d.changes| && d.changes[k].resource == resource
      ensures d.changes[k].author == Some(second)
    {
      if d.changes[k].author == Some(first) {
        var revision :| Names(first, revision) && Superseded(c, revision);
        SupersededNeverLands(c, more, first, revision, k);
      }
    }
  }

  /**
    A verified rollback: the provider holds the policy and everything unowned as when the change was planned.
    Both requests are dead, so neither can undo it: each landed at most once, on the slice it was planned on,
    and if nobody else acted, first the one and then the other did.
   */
  lemma VerifiedRollback(a: World, steps: seq<Step>, more: seq<Step>, later: seq<Step>,
                         accepted: Option<PrefixLkg.Candidate>, current: Observation, authority: Authority, plan: Plan,
                         x: Exchange, y: Exchange)
    requires Planned(a, steps, accepted, current, authority, plan, x)
    requires Recover(plan, x).Success? && Recover(plan, x).value.RollBack?
    requires VerifyRollback(Recover(plan, x).value.rollback, y) && Reads(y.reread, After(After(a, steps), more))
    ensures var resource, c := Resource(plan.target), After(a, steps);
      var d := After(c, more);
      && resource in a.slices && resource in c.slices && resource in d.slices
      && PolicyOf(d.slices[resource].owned) == PolicyOf(a.slices[resource].owned)
      && SameUnowned(a.slices[resource], d.slices[resource])
      && LandsOnlyBetween(a, steps, more + later, x.request, resource)
      && LandsOnlyBetween(c, more, later, y.request, resource)
      && (NobodyElse(a, d, resource, {x.request, y.request}) ==>
            exists i, k :: i < k && LandedAt(d, x.request, i) && LandedAt(d, y.request, k)
              && d.changes[i] == Change(resource, a.slices[resource], c.slices[resource], Some(x.request))
              && d.changes[k] == Change(resource, c.slices[resource], d.slices[resource], Some(y.request)))
      && StaysUnlessOthersAct(d, later, resource, {x.request, y.request})
  {
    hide Valid, Superseded, After, MakePlan, AdmitMutation, AdmitFresh, Names, LandsOnlyBetween, StaysUnlessOthersAct;
    var resource, c := Resource(plan.target), After(a, steps);
    var d := After(c, more);
    PlannedOn(a, steps, accepted, current, authority, plan, x);
    RollbackExactly(a, steps, more + later, accepted, current, authority, plan, x);
    var rollback := Recover(plan, x).value.rollback;
    RollbackOn(c, d, rollback, y, a.slices[resource], resource);
    RunFollows(a, steps);
    RunFollows(c, more);
    FollowsTransitive(a, c, d);
    DifferentSlices(a, steps, resource);
    DifferentSlices(c, more, resource);
    NeverAgain(a, steps, more + later, x.request, resource);
    NeverAgain(c, more, later, y.request, resource);
    StillDead(c, d, x.request);
    StaysPut(d, later, resource, {x.request, y.request});
    if NobodyElse(a, d, resource, {x.request, y.request}) {
      EachInTurn(a, steps, more, resource, x.request, y.request);
      var i := SoleAuthor(a, steps, x.request, resource);
      var k := SoleAuthor(c, more, y.request, resource);
      assert d.changes[i] == c.changes[i];
      assert LandedAt(d, x.request, i) && LandedAt(d, y.request, k);
    }
  }

  /** The provider can always choose another version. */
  lemma {:induction false} UnusedVersion(held: set<Revision>, resource: Target) returns (version: string)
    ensures forall r :: r in held ==> |r.version| < |version|
    ensures Revision(resource, version) !in held
  {
    version := "v";
    if r :| r in held {
      version := UnusedVersion(held - {r}, resource);
      version := if |r.version| < |version| then version else r.version + "v";
    }
  }

  /** A request nobody submits again and no adapter still holds never lands. */
  lemma {:induction false} WithdrawnNeverLands(w: World, steps: seq<Step>, request: Request, k: int)
    requires Valid(w) && request !in w.pending && Submit(request) !in steps && LandedAt(After(w, steps), request, k)
    ensures k < |w.changes|
    decreases |steps|
  {
    hide Valid;
    if steps != [] {
      var u := Next(w, steps[0]);
      StepKeepsValid(w, steps[0]);
      RunFollows(u, steps[1..]);
      WithdrawnNeverLands(u, steps[1..], request, k);
      assert k < |u.changes| ==> After(w, steps).changes[k] == u.changes[k];
    }
  }

  /** Not submitted again, a request can still take effect exactly if it is pending on the current revision. */
  lemma MayStillLand(w: World, request: Request, revision: Revision)
    requires Valid(w) && Names(request, revision) && revision in w.held
    ensures (exists later, k :: Submit(request) !in later && |w.changes| <= k && LandedAt(After(w, later), request, k))
            <==> request in w.pending && Holds(w, revision)
  {
    hide Valid;
    forall later, k | Submit(request) !in later && |w.changes| <= k && LandedAt(After(w, later), request, k)
      ensures request in w.pending && Holds(w, revision)
    {
      if request !in w.pending {
        WithdrawnNeverLands(w, later, request, k);
      } else if !Holds(w, revision) {
        SupersededNeverLands(w, later, request, revision, k);
      }
    }
    if request in w.pending && Holds(w, revision) {
      var version := UnusedVersion(w.held.Keys, revision.resource);
      var later := [Land(request, None, version)];
      assert later[1..] == [] && After(w, later) == Next(w, later[0]);
      assert LandedAt(After(w, later), request, |w.changes|);
    }
  }

  /**
    A verified return to the prior policy, whatever the adapter reported: the provider holds the policy and
    everything unowned as when the change was planned. The request can still take effect, though it is not
    submitted again, exactly if it is pending and the very revision that was planned on was read again.
   */
  lemma PriorVerifiedStands(a: World, steps: seq<Step>, accepted: Option<PrefixLkg.Candidate>, current: Observation,
                            authority: Authority, plan: Plan, x: Exchange)
    requires Planned(a, steps, accepted, current, authority, plan, x) && Recover(plan, x) == Success(PriorVerified)
    ensures var resource, c := Resource(plan.target), After(a, steps);
      && resource in a.slices && resource in c.slices
      && PolicyOf(c.slices[resource].owned) == PolicyOf(a.slices[resource].owned)
      && SameUnowned(a.slices[resource], c.slices[resource])
      && ((exists later, k :: && Submit(x.request) !in later && |c.changes| <= k
                              && LandedAt(After(c, later), x.request, k)) <==>
            x.request in c.pending && c.slices[resource].version == a.slices[resource].version)
  {
    hide Valid, After, MakePlan, AdmitMutation, AdmitFresh, Names, LandedAt;
    var resource, c := Resource(plan.target), After(a, steps);
    PlannedOn(a, steps, accepted, current, authority, plan, x);
    RunFollows(a, steps);
    HeldNow(a, resource);
    MayStillLand(c, x.request, Revision(resource, a.slices[resource].version));
  }

  lemma HeldNow(w: World, resource: Target)
    requires Valid(w) && resource in w.slices
    ensures Revision(resource, w.slices[resource].version) in w.held
  {
  }

  /** Recovery calls the change done exactly when verification would, unless the adapter disowned the effect. */
  lemma RecoveryAgreesWithVerify(plan: Plan, x: Exchange)
    ensures Recover(plan, x) == Success(DesiredVerified) <==> Verify(plan, x) && !NoRetainedEffect(x.result)
  {
  }

  // ---------- Two runs that show why the conditions are there ----------

  const RESOURCE := Target("provider", "scope", "key", Some("id"), None)
  const OPERATIONS := {Inspect, Rebuild}

  function ReadRequest(phase: Phase, predecessor: Option<Request>): Request {
    Request("read", "adapter", "revision", Inspect, RESOURCE,
            InspectionParameters(RESOURCE, phase, OPERATIONS, predecessor))
  }

  function ReadOf(phase: Phase, predecessor: Option<Request>, slice: Slice): Observation {
    var request := ReadRequest(phase, predecessor);
    Observation(phase, request,
                CapabilityResult(request, Observed, NotApplicable, Some("id"), Some(slice.version), None, None),
                OPERATIONS, slice.owned, slice.operatorAccess, slice.preserved)
  }

  function AuthorityFor(request: Request): Authority {
    Authority("adapter", "revision", request.target, OPERATIONS, request.parameters)
  }

  const BARE := Slice("1", None, "unowned", [])

  const BEFORE := World(map[RESOURCE := BARE], map[Revision(RESOURCE, "1") := BARE], {}, [])

  function PlanFor(accepted: PrefixLkg.Candidate): Plan {
    Plan(ReplaceOwned, RESOURCE.(expectedVersion := Some("1")), "adapter", "revision", OPERATIONS, accepted.digest,
         Desired(accepted), None, "unowned", [])
  }

  function RebuildFor(plan: Plan): Request {
    Request("change", "adapter", "revision", Rebuild, plan.target, MutationParameters(plan))
  }

  /** The exchange over that plan, with the adapter's report and a fresh read of `slice`. */
  function ExchangeFor(accepted: PrefixLkg.Candidate, outcome: Outcome, cleanup: Cleanup, slice: Slice): Exchange {
    var request := RebuildFor(PlanFor(accepted));
    var settled := outcome.AlreadySatisfied?;
    Exchange(AuthorityFor(request), request,
             CapabilityResult(request, outcome, cleanup, if settled then Some("id") else None, None, None,
                              if settled then None else Some("lost")),
             ReadOf(PostMutation, Some(request), slice), AuthorityFor(ReadRequest(PostMutation, Some(request))))
  }

  lemma ExchangePlanned(accepted: PrefixLkg.Candidate, outcome: Outcome, cleanup: Cleanup, steps: seq<Step>, slice: Slice)
    requires (outcome.AlreadySatisfied? && cleanup.NotApplicable?) || (outcome.Failed? && !cleanup.NotApplicable?)
    requires RESOURCE in After(BEFORE, steps).slices && After(BEFORE, steps).slices[RESOURCE] == slice
    requires slice.preserved == "unowned" && slice.operatorAccess == []
    ensures Planned(BEFORE, steps, Some(accepted), ReadOf(Current, None, BARE),
                    AuthorityFor(ReadRequest(Current, None)), PlanFor(accepted), ExchangeFor(accepted, outcome, cleanup, slice))
  {
    hide After;
  }

  /**
    Somebody else installs the accepted policy first, and the adapter truthfully reports it already
    satisfied: verification passes, and recovery refuses.
   */
  lemma SatisfiedYetUnrecoverable(accepted: PrefixLkg.Candidate)
    ensures exists a, steps, current, authority, plan, x ::
      && Planned(a, steps, Some(accepted), current, authority, plan, x) && x.result.outcome.AlreadySatisfied?
      && Verify(plan, x) && Recover(plan, x).Failure?
  {
    var slice := Slice("2", Some(Owned("rule", Desired(accepted))), "unowned", []);
    var steps := [Foreign(RESOURCE, slice)];
    assert steps[1..] == [] && After(BEFORE, steps) == Next(BEFORE, steps[0]);
    assert Revision(RESOURCE, "2") !in BEFORE.held;
    ExchangePlanned(accepted, AlreadySatisfied, NotApplicable, steps, slice);
  }

  /** The acknowledgement is lost and nothing happened yet: the prior policy is verified, and the change lands after. */
  lemma PriorVerifiedThenChanged(accepted: PrefixLkg.Candidate)
    ensures exists a, steps, current, authority, plan, x ::
      && Planned(a, steps, Some(accepted), current, authority, plan, x) && Recover(plan, x) == Success(PriorVerified)
      && exists later, k :: && Submit(x.request) !in later && |After(a, steps).changes| <= k
                            && LandedAt(After(After(a, steps), later), x.request, k)
  {
    var x := ExchangeFor(accepted, Failed, Incomplete, BARE);
    var steps := [Submit(x.request)];
    assert steps[1..] == [] && After(BEFORE, steps) == Next(BEFORE, steps[0]);
    ExchangePlanned(accepted, Failed, Incomplete, steps, BARE);
    PriorVerifiedStands(BEFORE, steps, Some(accepted), ReadOf(Current, None, BARE),
                        AuthorityFor(ReadRequest(Current, None)), PlanFor(accepted), x);
  }

  /** One authority serves one plan or one rollback, never both; one read closes one transaction. */
  lemma NothingIsReused(p: Plan, q: Plan, rollback: Rollback, x: Exchange, y: Exchange, a: string, b: string)
    requires x.authority == y.authority
    ensures MutationRequest(p, x.authority, a).Success? && MutationRequest(q, x.authority, b).Success? ==> p == q
    ensures MutationRequest(p, x.authority, a).Success? ==> RollbackRequest(rollback, x.authority, b).Failure?
    ensures x.reread == y.reread && AdmitFresh(p, x) && AdmitFresh(q, y) ==> x.request == y.request
    ensures AdmitFresh(p, x) ==> !AdmitObservation(x.reread, x.inspect, Current, None)
  {
  }
}
