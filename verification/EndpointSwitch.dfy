/**
  Switching an endpoint's target by compare-and-switch, with other executors, foreign
  writers, restarts and effects that land late (scripts/endpoint_switch.py).

  The provider's promises are those of the port contracts: a switch compares the whole
  before-state, native generations are never reused, and a rejection is final. The
  authority binds an operation id to one whole plan and grants its dispatch once.
 */
module EndpointSwitch {
  import opened Common

  datatype Intent = Switch | PreWriteReversal

  datatype Mutation = Applied | Rejected | Unknown

  datatype Outcome = SwitchApplied | AlreadySatisfied | SwitchRejected | Uncertain | RecoveryRequired

  datatype Endpoint = Endpoint(deployment: string, resource: string)

  /** The operation a native state names; foreign writers cannot name one of the authority's. */
  datatype Tag = Untagged | ForeignTag(id: string) | OperationTag(id: string)

  datatype RoutingState = RoutingState(endpoint: Endpoint, generation: string, target: string, exposure: string,
                                       operation: Tag)

  datatype AnyPlan = Plan(operation: string, before: RoutingState, target: string, intent: Intent)

  /** A plan always names a target other than the current one. */
  type SwitchPlan = p: AnyPlan | p.target != p.before.target
    witness Plan("", RoutingState(Endpoint("", ""), "", "", "", Untagged), "a", Switch)

  datatype Report = Report(outcome: Outcome, observed: Option<RoutingState>)

  // ---------- Judging what is observed ----------

  /** Does the state itself show that this plan's switch took effect? */
  predicate Committed(request: SwitchPlan, observed: RoutingState) {
    && observed.endpoint == request.before.endpoint
    && observed.target == request.target
    && observed.exposure == request.before.exposure
    && observed.generation != request.before.generation
    && observed.operation == OperationTag(request.operation)
  }

  function Assess(request: SwitchPlan, mutation: Mutation, observed: RoutingState): Report {
    if observed.endpoint != request.before.endpoint || observed.exposure != request.before.exposure then
      Report(RecoveryRequired, None)
    else if mutation.Rejected? && observed.operation == OperationTag(request.operation) then
      Report(RecoveryRequired, Some(observed))
    else if Committed(request, observed) then
      Report(SwitchApplied, Some(observed))
    else if observed == request.before then
      if mutation.Rejected? then Report(SwitchRejected, Some(observed))
      else if mutation.Unknown? then Report(Uncertain, Some(observed))
      else Report(RecoveryRequired, Some(observed))
    else if mutation.Rejected? then
      Report(SwitchRejected, Some(observed))
    else
      Report(RecoveryRequired, Some(observed))
  }

  /** No acknowledgement is evidence of success, and no state is evidence of refusal. */
  lemma AssessTrustsOnlyItsEvidence(request: SwitchPlan, mutation: Mutation, observed: RoutingState)
    ensures Assess(request, mutation, observed).outcome.SwitchApplied? <==>
            Committed(request, observed) && !mutation.Rejected?
    ensures Assess(request, mutation, observed).outcome.SwitchRejected? <==>
            && mutation.Rejected? && observed.operation != OperationTag(request.operation)
            && observed.endpoint == request.before.endpoint && observed.exposure == request.before.exposure
    ensures !Assess(request, mutation, observed).outcome.AlreadySatisfied?
    ensures Assess(request, mutation, observed).outcome.Uncertain? ==> observed == request.before
  {
  }

  // ---------- The world executors share ----------

  /** The authority's record: the whole plan an operation id is bound to, and who may dispatch it. */
  datatype Claim = Claim(plan: SwitchPlan, holder: nat)

  datatype ClaimReply = Granted | AlreadyClaimed | ClaimUnknown

  /** The state a landed plan leaves, under some fresh generation. */
  predicate EffectOf(plan: SwitchPlan, s: RoutingState) {
    && s.endpoint == plan.before.endpoint && s.target == plan.target && s.exposure == plan.before.exposure
    && s.operation == OperationTag(plan.operation) && s.generation != plan.before.generation
  }

  /**
    `past` is every state the provider ever reported; `inflight` the dispatches that were not refused, landed
    or not; `dropped` those refused for good; `landed` the switches that took effect, in order.
   */
  datatype World = World(routing: map<Endpoint, RoutingState>, past: set<RoutingState>, claims: map<string, Claim>,
                         dispatched: set<string>, inflight: set<string>, dropped: set<string>,
                         landed: seq<SwitchPlan>)

  predicate Landed(w: World, operation: string) {
    exists i :: 0 <= i < |w.landed| && w.landed[i].operation == operation
  }

  ghost predicate RoutingValid(w: World) {
    && (forall e :: e in w.routing ==> w.routing[e].endpoint == e && w.routing[e] in w.past)
    && (forall s, t :: s in w.past && t in w.past && s.endpoint == t.endpoint && s.generation == t.generation ==> s == t)
  }

  ghost predicate DispatchValid(w: World) {
    && (forall op :: op in w.claims ==> w.claims[op].plan.operation == op)
    && w.dispatched <= w.claims.Keys && w.inflight <= w.dispatched && w.dropped <= w.dispatched
    && w.inflight !! w.dropped
    && (forall op :: op in w.dispatched ==> w.claims[op].plan.before in w.past)
  }

  /** A switch lands by its own dispatch and ends its before-state; a state that names an operation is that landing's. */
  ghost predicate LandedValid(w: World) {
    && (forall i :: 0 <= i < |w.landed| ==>
          && w.landed[i].operation in w.claims && w.landed[i] == w.claims[w.landed[i].operation].plan
          && w.landed[i].operation in w.dispatched - w.dropped && Superseded(w, w.landed[i].before))
    && (forall i, j :: 0 <= i < j < |w.landed| ==> w.landed[i].operation != w.landed[j].operation)
    && (forall s :: s in w.past && s.operation.OperationTag? ==> ByLanding(w, s))
  }

  ghost predicate ByLanding(w: World, s: RoutingState) {
    exists i :: 0 <= i < |w.landed| && EffectOf(w.landed[i], s)
  }

  ghost predicate Valid(w: World) {
    RoutingValid(w) && DispatchValid(w) && LandedValid(w)
  }

  /** A state its endpoint once had and no longer has. */
  ghost predicate Superseded(w: World, s: RoutingState) {
    s in w.past && (s.endpoint !in w.routing || w.routing[s.endpoint] != s)
  }

  predicate Fresh(w: World, s: RoutingState) {
    forall t :: t in w.past ==> t.endpoint != s.endpoint || t.generation != s.generation
  }

  /** What can happen while an executor is between two of its own steps, restarts included. */
  datatype Step =
    | ForeignWrite(next: RoutingState)
    | Land(operation: string, generation: string)
    | Refuse(operation: string)
    | ClaimDispatch(plan: SwitchPlan, holder: nat)
    | Dispatch(operation: string)

  function LandedState(plan: SwitchPlan, generation: string): RoutingState {
    RoutingState(plan.before.endpoint, generation, plan.target, plan.before.exposure, OperationTag(plan.operation))
  }

  /** A step whose condition does not hold changes nothing. */
  function Next(w: World, step: Step): World {
    match step
    case ForeignWrite(next) =>
      if next.operation.OperationTag? || !Fresh(w, next) then w
      else w.(routing := w.routing[next.endpoint := next], past := w.past + {next})
    case Land(op, generation) =>
      if op in w.inflight && op in w.claims && Matches(w, w.claims[op].plan)
         && Fresh(w, LandedState(w.claims[op].plan, generation)) then
        var plan := w.claims[op].plan;
        var next := LandedState(plan, generation);
        w.(routing := w.routing[next.endpoint := next], past := w.past + {next},
           landed := w.landed + [plan])
      else w
    case Refuse(op) =>
      if op in w.inflight && !Landed(w, op) then w.(inflight := w.inflight - {op}, dropped := w.dropped + {op}) else w
    case ClaimDispatch(plan, holder) =>
      if plan.operation in w.claims then w
      else w.(claims := w.claims[plan.operation := Claim(plan, holder)])
    case Dispatch(op) =>
      if op in w.claims && op !in w.dispatched && w.claims[op].plan.before in w.past then
        w.(dispatched := w.dispatched + {op}, inflight := w.inflight + {op})
      else w
  }

  /** compare_and_switch compares the whole before-state. */
  predicate Matches(w: World, plan: SwitchPlan) {
    plan.before.endpoint in w.routing && w.routing[plan.before.endpoint] == plan.before
  }

  /** Steps executor `me` does not take itself. */
  predicate ByOthers(w: World, step: Step, me: nat) {
    match step
    case ClaimDispatch(_, holder) => holder != me
    case Dispatch(op) => op in w.claims && w.claims[op].holder != me
    case _ => true
  }

  lemma StepKeepsRouting(w: World, step: Step)
    requires Valid(w)
    ensures RoutingValid(Next(w, step))
  {
    hide LandedValid, EffectOf;
  }

  lemma StepKeepsDispatch(w: World, step: Step)
    requires Valid(w)
    ensures DispatchValid(Next(w, step))
  {
    hide LandedValid, RoutingValid, EffectOf, Fresh;
  }

  lemma StepKeepsLanded(w: World, step: Step)
    requires Valid(w)
    ensures LandedValid(Next(w, step))
  {
    hide RoutingValid, ByLanding;
    var v := Next(w, step);
    forall s | s in w.past && s.operation.OperationTag? ensures ByLanding(v, s) {
      LandingRemembered(w, v, s);
    }
    if step.Land? && v != w {
      LandingRecorded(w, v, w.claims[step.operation].plan, step.generation);
    }
  }

  lemma LandingRemembered(w: World, v: World, s: RoutingState)
    requires ByLanding(w, s) && w.landed <= v.landed
    ensures ByLanding(v, s)
  {
    var i :| 0 <= i < |w.landed| && EffectOf(w.landed[i], s);
    assert v.landed[i] == w.landed[i];
  }

  lemma LandingRecorded(w: World, v: World, plan: SwitchPlan, generation: string)
    requires v.landed == w.landed + [plan]
    requires plan.before in w.past && Fresh(w, LandedState(plan, generation))
    ensures ByLanding(v, LandedState(plan, generation))
  {
    assert v.landed[|w.landed|] == plan;
    assert EffectOf(v.landed[|w.landed|], LandedState(plan, generation));
  }

  lemma StepKeepsValid(w: World, step: Step)
    requires Valid(w)
    ensures Valid(Next(w, step))
  {
    StepKeepsRouting(w, step);
    StepKeepsDispatch(w, step);
    StepKeepsLanded(w, step);
  }

  /** `v` follows from `w` by steps of which none was taken by executor `me`. */
  ghost predicate Later(w: World, v: World, me: nat) {
    && Follows(w, v)
    && (forall op :: op in v.claims && op !in w.claims ==> v.claims[op].holder != me)
    && (forall op :: op in v.dispatched && op !in w.dispatched ==> op in v.claims && v.claims[op].holder != me)
  }

  /** What no step at all ever takes back. */
  ghost predicate Follows(w: World, v: World) {
    && w.past <= v.past && w.dispatched <= v.dispatched && w.dropped <= v.dropped && w.landed <= v.landed
    && (forall op :: op in w.claims ==> op in v.claims && v.claims[op] == w.claims[op])
    && (forall s :: Superseded(w, s) ==> Superseded(v, s))
    && (forall op :: Doomed(w, op) ==> Doomed(v, op))
  }

  /** An unlanded operation that can never land: refused for good, or its before-state is gone. */
  ghost predicate Doomed(w: World, op: string) {
    && op in w.claims && !Landed(w, op)
    && (op in w.dropped || Superseded(w, w.claims[op].plan.before))
  }

  lemma SupersededForGood(w: World, step: Step, s: RoutingState)
    requires Valid(w) && Superseded(w, s)
    ensures Superseded(Next(w, step), s)
  {
    hide LandedValid, DispatchValid;
  }

  lemma DoomedForGood(w: World, step: Step, op: string)
    requires Valid(w) && Doomed(w, op)
    ensures Doomed(Next(w, step), op)
  {
    hide RoutingValid, Fresh, ByLanding;
    var v := Next(w, step);
    if op !in w.dropped {
      SupersededForGood(w, step, w.claims[op].plan.before);
    }
  }

  lemma StepFollows(w: World, step: Step, me: nat)
    requires Valid(w)
    ensures Follows(w, Next(w, step))
    ensures ByOthers(w, step, me) ==> Later(w, Next(w, step), me)
  {
    hide RoutingValid, DispatchValid, LandedValid, Superseded, Doomed, Fresh, Matches;
    forall s | Superseded(w, s) ensures Superseded(Next(w, step), s) {
      SupersededForGood(w, step, s);
    }
    forall op | Doomed(w, op) ensures Doomed(Next(w, step), op) {
      DoomedForGood(w, step, op);
    }
  }

  lemma FollowsTransitive(u: World, v: World, w: World)
    requires Follows(u, v) && Follows(v, w)
    ensures Follows(u, w)
  {
    hide Superseded, Doomed;
  }

  lemma LaterTransitive(u: World, v: World, w: World, me: nat)
    requires Later(u, v, me) && Later(v, w, me)
    ensures Later(u, w, me)
  {
    hide Superseded, Doomed;
  }

  // ---------- Runs ----------

  function After(w: World, steps: seq<Step>): World
    decreases |steps|
  {
    if steps == [] then w else After(Next(w, steps[0]), steps[1..])
  }

  lemma {:induction false} RunFollows(w: World, steps: seq<Step>)
    requires Valid(w)
    ensures Valid(After(w, steps)) && Follows(w, After(w, steps))
    decreases |steps|
  {
    hide Valid, Superseded, Doomed, Next;
    if steps != [] {
      StepKeepsValid(w, steps[0]);
      StepFollows(w, steps[0], 0);
      RunFollows(Next(w, steps[0]), steps[1..]);
    }
  }

  /** Whoever takes part, one operation changes routing at most once. */
  lemma LandsAtMostOnce(w: World, steps: seq<Step>, i: nat, j: nat)
    requires Valid(w) && i < |After(w, steps).landed| && j < |After(w, steps).landed|
    requires After(w, steps).landed[i].operation == After(w, steps).landed[j].operation
    ensures i == j
  {
    RunFollows(w, steps);
  }

  /** Once the observed generation is another, a pending dispatch can never take effect. */
  lemma SupersededNeverLands(w: World, op: string, steps: seq<Step>)
    requires Valid(w) && op in w.dispatched && !Landed(w, op)
    requires w.claims[op].plan.before.endpoint in w.routing
    requires w.routing[w.claims[op].plan.before.endpoint].generation != w.claims[op].plan.before.generation
    ensures !Landed(After(w, steps), op)
  {
    assert Doomed(w, op);
    RunFollows(w, steps);
    assert Doomed(After(w, steps), op);
  }

  /** Nor can one that was refused. */
  lemma RefusedNeverLands(w: World, op: string, steps: seq<Step>)
    requires Valid(w) && op in w.dropped
    ensures !Landed(After(w, steps), op)
  {
    assert Doomed(w, op);
    RunFollows(w, steps);
    assert Doomed(After(w, steps), op);
  }

  /** The switch the request describes happened, under its operation id. */
  ghost predicate TookEffect(w: World, request: SwitchPlan) {
    exists i :: 0 <= i < |w.landed| && w.landed[i].operation == request.operation
             && w.landed[i].before.endpoint == request.before.endpoint && w.landed[i].target == request.target
             && w.landed[i].before.exposure == request.before.exposure
  }

  /** Executor `me` dispatched nothing for `op`, or its dispatch was refused for good. */
  ghost predicate MutatedNothing(w: World, op: string, me: nat) {
    op in w.claims && w.claims[op].holder == me && op in w.dispatched ==> op in w.dropped
  }

  /** Executor `me` neither claimed nor dispatched anything. */
  ghost predicate Untouched(w: World, me: nat) {
    forall op :: op in w.claims ==> w.claims[op].holder != me
  }

  lemma CommittedTookEffect(w: World, request: SwitchPlan, observed: RoutingState)
    requires Valid(w) && observed in w.past && Committed(request, observed)
    ensures TookEffect(w, request)
    ensures request.operation in w.claims && w.claims[request.operation].plan == request ==> request in w.landed
  {
    assert ByLanding(w, observed);
    var i :| 0 <= i < |w.landed| && EffectOf(w.landed[i], observed);
    assert w.landed[i] == w.claims[w.landed[i].operation].plan;
  }

  lemma NotDispatched(w: World, op: string)
    requires Valid(w) && op !in w.claims
    ensures op !in w.dispatched
  {
  }

  /** The answers of the authority to authorize, of the adapter to validate, and of the authority when reconciling. */
  datatype Ports = Ports(authorized: bool, validated: bool, reauthorized: bool)

  datatype Unread = Unavailable | ScopeMismatch

  class System {
    var world: World

    constructor (initial: map<Endpoint, RoutingState>)
      requires forall e :: e in initial ==> initial[e].endpoint == e && !initial[e].operation.OperationTag?
      ensures Valid(world) && world.routing == initial && world.landed == []
    {
      world := World(initial, set e | e in initial :: initial[e], map[], {}, {}, {}, []);
    }

    /** Everything that others do meanwhile. */
    method Interfere(me: nat)
      requires Valid(world)
      modifies this
      ensures Valid(world) && Later(old(world), world, me)
    {
      hide Valid, Superseded, Doomed, Next, ByOthers;
      var steps: seq<Step> := *;
      for i := 0 to |steps|
        invariant Valid(world) && Later(old(world), world, me)
      {
        if ByOthers(world, steps[i], me) {
          StepKeepsValid(world, steps[i]);
          StepFollows(world, steps[i], me);
          LaterTransitive(old(world), world, Next(world, steps[i]), me);
          world := Next(world, steps[i]);
        }
      }
    }

    /** What is reported is what the endpoint's routing is when the report is made. */
    ghost predicate Reads(endpoint: Endpoint, s: RoutingState)
      reads this
    {
      endpoint in world.routing && world.routing[endpoint] == s
    }

    /** A fresh native read of the endpoint, or no usable one. */
    method Inspect(endpoint: Endpoint) returns (r: Result<RoutingState, Unread>)
      requires Valid(world)
      ensures r.Success? ==>
        && endpoint in world.routing && r.value == world.routing[endpoint]
        && r.value.endpoint == endpoint && r.value in world.past
    {
      var answer: int := *;
      if answer == 0 || endpoint !in world.routing {
        return Failure(Unavailable);
      }
      if answer == 1 {
        return Failure(ScopeMismatch);
      }
      r := Success(world.routing[endpoint]);
    }

    /** claim_dispatch: binds the id to the whole plan, once; its answer may be lost. */
    method RequestClaim(request: SwitchPlan, me: nat) returns (reply: ClaimReply)
      requires Valid(world)
      modifies this
      ensures Valid(world) && Follows(old(world), world) && world.dispatched == old(world).dispatched
      ensures world.past == old(world).past
      ensures forall op :: op in world.claims && op !in old(world).claims ==> op == request.operation
      ensures reply.Granted? ==>
        && request.operation !in old(world).claims
        && request.operation in world.claims && world.claims[request.operation] == Claim(request, me)
        && request.operation !in world.dispatched
      ensures reply.AlreadyClaimed? ==>
        request.operation in old(world).claims && old(world).claims[request.operation].plan == request
    {
      hide Valid, Superseded, Doomed;
      var persists: bool := *;
      var answers: bool := *;
      if request.operation in world.claims {
        return if answers && world.claims[request.operation].plan == request then AlreadyClaimed else ClaimUnknown;
      }
      StepKeepsValid(world, ClaimDispatch(request, me));
      StepFollows(world, ClaimDispatch(request, me), me);
      if !persists {
        return ClaimUnknown;
      }
      assert request.operation !in world.dispatched by {
        NotDispatched(world, request.operation);
      }
      world := Next(world, ClaimDispatch(request, me));
      reply := if answers then Granted else ClaimUnknown;
    }

    /** The one dispatch. A rejection is final; any other answer leaves the effect open. */
    method CompareAndSwitch(request: SwitchPlan, me: nat) returns (mutation: Mutation)
      requires Valid(world) && request.operation in world.claims && request.before in world.past
      requires world.claims[request.operation] == Claim(request, me) && request.operation !in world.dispatched
      modifies this
      ensures Valid(world) && Follows(old(world), world)
      ensures mutation.Rejected? ==> request.operation in world.dropped
      ensures request.operation in world.dispatched
    {
      hide Valid, Superseded, Doomed;
      var answer: int := *;
      var op := request.operation;
      StepKeepsValid(world, Dispatch(op));
      StepFollows(world, Dispatch(op), me);
      world := Next(world, Dispatch(op));
      ghost var sent := world;
      Interfere(me);
      FollowsTransitive(old(world), sent, world);
      if answer == 0 {
        StepKeepsValid(world, Refuse(op));
        StepFollows(world, Refuse(op), me);
        FollowsTransitive(old(world), world, Next(world, Refuse(op)));
        world := Next(world, Refuse(op));
        return if op in world.dropped then Rejected else Unknown;
      }
      mutation := if answer == 1 then Applied else Unknown;
    }

    /** Observation only: it never dispatches, and never turns an unknown into a refusal. */
    method Reconcile(request: SwitchPlan, me: nat, authorized: bool) returns (result: Report)
      requires Valid(world)
      modifies this
      ensures Valid(world) && Later(old(world), world, me)
      ensures result.outcome.AlreadySatisfied? ==> TookEffect(world, request)
      ensures !result.outcome.SwitchApplied?
      ensures result.outcome.SwitchRejected? <==> !authorized
      ensures result.observed.Some? ==> !result.outcome.SwitchRejected?
      ensures result.observed.Some? ==> Reads(request.before.endpoint, result.observed.value)
    {
      hide Valid, Superseded, Doomed, Next, TookEffect, Committed;
      Interfere(me);
      if !authorized {
        return Report(SwitchRejected, None);
      }
      var observed := Inspect(request.before.endpoint);
      if observed.Failure? {
        return Report(if observed.error.Unavailable? then Uncertain else RecoveryRequired, None);
      }
      result := Assess(request, Unknown, observed.value);
      AssessTrustsOnlyItsEvidence(request, Unknown, observed.value);
      if result.outcome.SwitchApplied? {
        CommittedTookEffect(world, request, observed.value);
        result := Report(AlreadySatisfied, Some(observed.value));
      }
    }

    /** One admitted dispatch by the invocation `me`; whatever stays unresolved is only observed. */
    method Execute(request: SwitchPlan, me: nat, ports: Ports) returns (result: Report)
      requires Valid(world) && forall op :: op in world.claims ==> world.claims[op].holder != me
      modifies this
      ensures Valid(world) && Follows(old(world), world)
      ensures result.outcome.SwitchApplied? ==>
        && request in world.landed
        && request.operation in world.dispatched && world.claims[request.operation] == Claim(request, me)
      ensures result.outcome.AlreadySatisfied? ==> TookEffect(world, request)
      ensures result.outcome.SwitchRejected? ==> MutatedNothing(world, request.operation, me)
      ensures !ports.authorized || !ports.validated ==> result == Report(SwitchRejected, None) && Untouched(world, me)
      ensures result.observed.Some? ==> Reads(request.before.endpoint, result.observed.value)
    {
      hide Valid, Superseded, Doomed, Next, TookEffect, Committed;
      Interfere(me);
      if !ports.authorized || !ports.validated {
        return Report(SwitchRejected, None);
      }
      var current := Inspect(request.before.endpoint);
      if current.Failure? {
        return Report(if current.error.Unavailable? then Uncertain else SwitchRejected, None);
      }
      if Committed(request, current.value) {
        CommittedTookEffect(world, request, current.value);
        return Report(AlreadySatisfied, Some(current.value));
      }
      if current.value != request.before {
        return Report(SwitchRejected, Some(current.value));
      }
      result := DispatchOnce(request, me, ports.reauthorized);
    }

    /** The second half of execute, from the dispatch claim on. */
    method DispatchOnce(request: SwitchPlan, me: nat, reauthorized: bool) returns (result: Report)
      requires Valid(world) && request.before in world.past
      requires forall op :: op in world.claims ==> world.claims[op].holder != me
      modifies this
      ensures Valid(world) && Follows(old(world), world)
      ensures result.outcome.SwitchApplied? ==>
        && request in world.landed
        && request.operation in world.dispatched && world.claims[request.operation] == Claim(request, me)
      ensures result.outcome.AlreadySatisfied? ==> TookEffect(world, request)
      ensures result.outcome.SwitchRejected? ==> MutatedNothing(world, request.operation, me)
      ensures result.observed.Some? ==> Reads(request.before.endpoint, result.observed.value)
    {
      hide Valid, Superseded, Doomed, Next, TookEffect, Committed;
      var before := world;
      Interfere(me);
      var waited := world;
      var reply := RequestClaim(request, me);
      FollowsTransitive(before, waited, world);
      var claimed := world;
      if reply.ClaimUnknown? {
        return Report(Uncertain, None);
      }
      if reply.AlreadyClaimed? {
        result := Reconcile(request, me, reauthorized);
        FollowsTransitive(before, claimed, world);
        return;
      }
      var mutation := CompareAndSwitch(request, me);
      FollowsTransitive(before, claimed, world);
      var switched := world;
      Interfere(me);
      FollowsTransitive(before, switched, world);
      var observed := Inspect(request.before.endpoint);
      if observed.Failure? {
        return Report(if observed.error.Unavailable? then Uncertain else RecoveryRequired, None);
      }
      result := Assess(request, mutation, observed.value);
      AssessTrustsOnlyItsEvidence(request, mutation, observed.value);
      if result.outcome.SwitchApplied? {
        CommittedTookEffect(world, request, observed.value);
      }
    }
  }
}
