/** Many requests at once, and the detached senders they leave behind, interleaved step by step. */
module AuditLifecycle {
  import opened Bytes
  import opened BackendIdentity
  import opened AuditEvents
  import AuditedExchange
  import RequestIdentity
  import StreamGauge
  import opened RequestMetrics

  type Arrival = AuditedExchange.Arrival
  type Exchange = AuditedExchange.Exchange
  type Response = AuditedExchange.Response

  // ----- Decisions on the way in

  datatype Resolution = Resolved(info: Option<RequestInfo>) | ResolutionError

  predicate ShouldAudit(info: Option<RequestInfo>)
    ensures ShouldAudit(info) ==> info.Some? && info.value.isResourceRequest
  {
    && info.Some?
    && info.value.isResourceRequest
    && info.value.verb in {"create", "update", "patch", "delete", "deletecollection"}
  }

  // ----- Phases

  datatype Answer = Rejected | PassedThrough | Broken | Relayed(input: Input, exchange: Exchange, spawned: bool)

  datatype Phase =
    | Received
    | Verified(user: UserInfo)
    | Passing
    | Auditing(info: RequestInfo, user: UserInfo)
    | Answered(response: Response, answer: Answer)
    | Finished(response: Response, answer: Answer, attrs: RequestLabels)

  /** The detached goroutine: build, count, send, count, time. */
  datatype Job =
    | Unbuilt(input: Input)
    | Unbuildable
    | Ready(event: Event)
    | InFlight(event: Event)
    | Returned(delivered: bool)
    | Counted(delivered: bool)
    | Done(delivered: bool)
    | Dropped

  datatype AuditOutcome = Built | BuildError | Sent | SendError

  function SendOutcome(delivered: bool): AuditOutcome {
    if delivered then Sent else SendError
  }

  datatype State = State(
    arrivals: map<nat, Arrival>, requests: map<nat, Phase>, metrics: map<nat, MetricHistory>, jobs: map<nat, Job>,
    requestsTotal: map<RequestLabels, nat>, auditEvents: map<AuditOutcome, nat>, deliveries: map<AuditOutcome, nat>)

  function Tally<K>(m: map<K, nat>, k: K): nat {
    if k in m then m[k] else 0
  }

  function Bump<K>(m: map<K, nat>, k: K): map<K, nat> {
    m[k := Tally(m, k) + 1]
  }

  datatype HandlerConfig = HandlerConfig(exchange: AuditedExchange.ExchangeConfig, json: Json, requiresVerified: bool)

  // ----- Steps

  datatype Action =
    | Arrive(id: nat, arrival: Arrival, lowerMethod: string, proto: string, isWatch: bool)
    | Identify(id: nat, authenticator: Option<RequestIdentity.Authenticator>)
    | Resolve(id: nat, resolution: Resolution)
    | PassThrough(id: nat, response: Response)
    | Serve(id: nat, exchange: Exchange)
    | Spawn(id: nat)
    | Finish(id: nat)
    | Measure(id: nat, event: MetricEvent)
    | Build(id: nat)
    | CountBuilt(id: nat)
    | SendReturns(id: nat, delivered: bool)
    | CountSent(id: nat)
    | RecordDelivery(id: nat)

  /** The attribute set RecordRequest labels its sample with. */
  function RequestAttrs(l: RequestLabels): RequestLabels {
    l.(verb := StreamGauge.EmptyToUnknown(l.verb), resourceGroup := StreamGauge.EmptyToUnknown(l.resourceGroup),
       apiVersion := StreamGauge.EmptyToUnknown(l.apiVersion), resource := StreamGauge.EmptyToUnknown(l.resource),
       subresource := if l.subresource == "" then "none" else l.subresource,
       statusClass := StreamGauge.EmptyToUnknown(l.statusClass), outcome := StreamGauge.EmptyToUnknown(l.outcome),
       inboundProto := StreamGauge.NormalizeProto(l.inboundProto), backendProto := StreamGauge.NormalizeProto(l.backendProto))
  }

  predicate OnJob(a: Action) {
    a.Build? || a.CountBuilt? || a.SendReturns? || a.CountSent? || a.RecordDelivery?
  }

  predicate OnRequest(a: Action) {
    !OnJob(a) && !a.Measure?
  }

  /** Serving a request ends in one of the exchanges its body, its headers and its user allow. */
  ghost predicate RequestEnabled(config: HandlerConfig, x: State, a: Action)
    requires OnRequest(a)
  {
    match a
    case Arrive(id, _, _, _, _) => id !in x.requests
    case Identify(id, _) => id in x.requests && id in x.arrivals && x.requests[id].Received?
    case Resolve(id, _) => id in x.requests && id in x.metrics && x.requests[id].Verified?
    case PassThrough(id, _) => id in x.requests && x.requests[id].Passing?
    case Serve(id, exchange) =>
      && id in x.requests && id in x.arrivals && x.requests[id].Auditing?
      && AuditedExchange.CanMake(config.exchange, x.arrivals[id], x.requests[id].user, exchange)
    case Spawn(id) => id in x.requests && x.requests[id].Answered? && x.requests[id].answer.Relayed? && !x.requests[id].answer.spawned
    case Finish(id) =>
      && id in x.requests && id in x.metrics && x.requests[id].Answered?
      && (x.requests[id].answer.Relayed? ==> x.requests[id].answer.spawned)
  }

  predicate JobEnabled(x: State, a: Action)
    requires OnJob(a)
  {
    match a
    case Build(id) => id in x.jobs && x.jobs[id].Unbuilt?
    case CountBuilt(id) => id in x.jobs && (x.jobs[id].Ready? || x.jobs[id].Unbuildable?)
    case SendReturns(id, _) => id in x.jobs && x.jobs[id].InFlight?
    case CountSent(id) => id in x.jobs && x.jobs[id].Returned?
    case RecordDelivery(id) => id in x.jobs && x.jobs[id].Counted?
  }

  /** Hooks and observers touch a request's metric state at any time; only resolution sets its request info. */
  ghost predicate Enabled(config: HandlerConfig, x: State, a: Action) {
    if OnJob(a) then JobEnabled(x, a)
    else if OnRequest(a) then RequestEnabled(config, x, a)
    else a.id in x.metrics && !a.event.SetRequestInfo?
  }

  predicate Admits(config: HandlerConfig, extraction: RequestIdentity.Extraction) {
    !extraction.failed && (config.requiresVerified ==> extraction.trusted)
  }

  /** The phase a request moves to. */
  ghost function NextPhase(config: HandlerConfig, x: State, a: Action): Phase
    requires OnRequest(a) && RequestEnabled(config, x, a)
  {
    match a
    case Arrive(_, _, _, _, _) => Received
    case Identify(id, authenticator) =>
      var extraction := RequestIdentity.Extracted(authenticator, x.arrivals[id].request.headers);
      if Admits(config, extraction) then Verified(extraction.user) else Answered(AuditedExchange.ErrorLine(401), Rejected)
    case Resolve(_, ResolutionError) => Passing
    case Resolve(id, Resolved(info)) =>
      if ShouldAudit(info) then Auditing(info.value, x.requests[id].user) else Passing
    case PassThrough(_, response) => Answered(response, PassedThrough)
    case Serve(_, ExchangeFailed(status)) => Answered(AuditedExchange.ErrorLine(status), Broken)
    case Serve(id, exchange) =>
      var phase := x.requests[id];
      var input := AuditedExchange.InputOf(config.exchange, x.arrivals[id], phase.info, phase.user, exchange);
      Answered(exchange.response, Relayed(input, exchange, false))
    case Spawn(id) => Answered(x.requests[id].response, x.requests[id].answer.(spawned := true))
    case Finish(id) =>
      var response := x.requests[id].response;
      Finished(response, x.requests[id].answer, RequestAttrs(x.metrics[id].state.Labels(response.status)))
  }

  function BuildJob(config: HandlerConfig, input: Input): Job {
    if input.request.Some? && input.info.Some? then Ready(BuiltEvent(config.json, config.exchange.hostOf, input)) else Unbuildable
  }

  /** The metric state of a new request, or of one whose resource has just been resolved. */
  ghost function NextMetrics(x: State, a: Action): map<nat, MetricHistory>
    requires a.Resolve? ==> a.id in x.metrics
  {
    match a
    case Arrive(id, _, lowerMethod, proto, isWatch) =>
      x.metrics[id := RequestMetrics.Start(NewMetricState(lowerMethod, proto, isWatch))]
    case Resolve(id, Resolved(info)) => x.metrics[id := Step(x.metrics[id], MetricEvent.SetRequestInfo(info, ShouldAudit(info)))]
    case _ => x.metrics
  }

  ghost function DoOnRequest(config: HandlerConfig, x: State, a: Action): State
    requires OnRequest(a) && RequestEnabled(config, x, a)
  {
    var next := NextPhase(config, x, a);
    x.(arrivals := if a.Arrive? then x.arrivals[a.id := a.arrival] else x.arrivals,
       requests := x.requests[a.id := next],
       metrics := NextMetrics(x, a),
       jobs := if a.Spawn? then x.jobs[a.id := Unbuilt(x.requests[a.id].answer.input)] else x.jobs,
       requestsTotal := if a.Finish? then Bump(x.requestsTotal, next.attrs) else x.requestsTotal)
  }

  /** The job a sender's step leaves. */
  function NextJob(config: HandlerConfig, job: Job, a: Action): Job
    requires OnJob(a)
    requires a.Build? ==> job.Unbuilt?
    requires a.CountBuilt? ==> job.Ready? || job.Unbuildable?
    requires a.CountSent? ==> job.Returned?
    requires a.RecordDelivery? ==> job.Counted?
  {
    match a
    case Build(_) => BuildJob(config, job.input)
    case CountBuilt(_) => if job.Unbuildable? then Dropped else InFlight(job.event)
    case SendReturns(_, delivered) => Returned(delivered)
    case CountSent(_) => Counted(job.delivered)
    case RecordDelivery(_) => Done(job.delivered)
  }

  function DoOnJob(config: HandlerConfig, x: State, a: Action): State
    requires OnJob(a) && JobEnabled(x, a)
  {
    var job := x.jobs[a.id];
    x.(jobs := x.jobs[a.id := NextJob(config, job, a)],
       auditEvents := if a.CountBuilt? then Bump(x.auditEvents, if job.Unbuildable? then BuildError else Built)
                      else if a.CountSent? then Bump(x.auditEvents, SendOutcome(job.delivered))
                      else x.auditEvents,
       deliveries := if a.RecordDelivery? then Bump(x.deliveries, SendOutcome(job.delivered)) else x.deliveries)
  }

  ghost function Do(config: HandlerConfig, x: State, a: Action): State
    requires Enabled(config, x, a)
  {
    if OnJob(a) then DoOnJob(config, x, a)
    else if OnRequest(a) then DoOnRequest(config, x, a)
    else x.(metrics := x.metrics[a.id := Step(x.metrics[a.id], a.event)])
  }

  const INIT := State(map[], map[], map[], map[], map[], map[], map[])

  ghost predicate Possible(config: HandlerConfig, run: seq<Action>)
    decreases |run|, 0
  {
    run == [] || (Possible(config, run[..|run| - 1]) && Enabled(config, After(config, run[..|run| - 1]), run[|run| - 1]))
  }

  ghost function After(config: HandlerConfig, run: seq<Action>): State
    requires Possible(config, run)
    decreases |run|, 1
  {
    if run == [] then INIT else Do(config, After(config, run[..|run| - 1]), run[|run| - 1])
  }

  // ----- Who gets an event

  /** The answer a phase carries, once there is one. */
  function AnswerOf(p: Phase): Option<Answer> {
    if p.Answered? || p.Finished? then Some(p.answer) else None
  }

  predicate HasSpawned(p: Phase) {
    AnswerOf(p).Some? && AnswerOf(p).value.Relayed? && AnswerOf(p).value.spawned
  }

  /** A relayed answer is a possible exchange of its own request, and its input is the one that exchange leaves. */
  ghost predicate PhaseSound(config: HandlerConfig, arrival: Arrival, p: Phase) {
    && (p.Auditing? ==> ShouldAudit(Some(p.info)))
    && (AnswerOf(p).Some? && AnswerOf(p).value.Relayed? ==> OwnExchange(config, arrival, AnswerOf(p).value, p.response))
  }

  ghost predicate OwnExchange(config: HandlerConfig, arrival: Arrival, answer: Answer, response: Response)
    requires answer.Relayed?
  {
    var input, exchange := answer.input, answer.exchange;
    && exchange.ExchangeRelayed? && response == exchange.response
    && ShouldAudit(input.info)
    && AuditedExchange.CanMake(config.exchange, arrival, input.user, exchange)
    && input == AuditedExchange.InputOf(config.exchange, arrival, input.info.value, input.user, exchange)
  }

  /** A job works on the input of its own request, and the event it built is the event of that input. */
  predicate JobSound(config: HandlerConfig, j: Job, input: Input)
    requires input.request.Some? && input.info.Some?
  {
    match j
    case Unbuilt(i) => i == input
    case Ready(event) => event == BuiltEvent(config.json, config.exchange.hostOf, input)
    case InFlight(event) => event == BuiltEvent(config.json, config.exchange.hostOf, input)
    case Unbuildable => false
    case Dropped => false
    case _ => true
  }

  /** Jobs are exactly the relayed, spawned requests, and each is sound. */
  ghost predicate Sound(config: HandlerConfig, x: State) {
    && (forall id :: id in x.requests ==> id in x.arrivals && PhaseSound(config, x.arrivals[id], x.requests[id]))
    && (forall id :: id in x.jobs <==> id in x.requests && HasSpawned(x.requests[id]))
    && (forall id :: id in x.jobs ==> JobSound(config, x.jobs[id], x.requests[id].answer.input))
  }

  /** One request's new phase, and the job that may come with it. */
  lemma SoundAfterPhase(config: HandlerConfig, x: State, id: nat, p: Phase, y: State)
    requires Sound(config, x) && y.requests == x.requests[id := p]
    requires id in y.arrivals && y.arrivals == x.arrivals[id := y.arrivals[id]] && PhaseSound(config, y.arrivals[id], p)
    requires HasSpawned(p) ==> id in y.jobs && y.jobs == x.jobs[id := y.jobs[id]] && JobSound(config, y.jobs[id], p.answer.input)
    requires !HasSpawned(p) ==> y.jobs == x.jobs && id !in x.jobs
    ensures Sound(config, y)
  {
    hide PhaseSound, JobSound, BuiltEvent;
  }

  lemma SoundAfterJob(config: HandlerConfig, x: State, id: nat, j: Job, y: State)
    requires Sound(config, x) && id in x.jobs && y.arrivals == x.arrivals && y.requests == x.requests && y.jobs == x.jobs[id := j]
    requires JobSound(config, j, x.requests[id].answer.input)
    ensures Sound(config, y)
  {
    hide PhaseSound, JobSound, BuiltEvent;
  }

  lemma JobHasInput(config: HandlerConfig, x: State, id: nat)
    requires Sound(config, x) && id in x.jobs
    ensures id in x.requests && HasSpawned(x.requests[id])
    ensures var input := x.requests[id].answer.input; input.request.Some? && input.info.Some?
  {
    hide JobSound, AuditedExchange.CanMake;
  }

  lemma SoundJobStep(config: HandlerConfig, x: State, a: Action)
    requires Sound(config, x) && Enabled(config, x, a) && OnJob(a)
    ensures Sound(config, Do(config, x, a))
  {
    hide BuiltEvent, PhaseSound, Bump, HasSpawned;
    JobHasInput(config, x, a.id);
    var y := Do(config, x, a);
    SoundAfterJob(config, x, a.id, y.jobs[a.id], y);
  }

  lemma ServeSound(config: HandlerConfig, x: State, id: nat, exchange: Exchange)
    requires RequestEnabled(config, x, Serve(id, exchange)) && PhaseSound(config, x.arrivals[id], x.requests[id])
    ensures PhaseSound(config, x.arrivals[id], NextPhase(config, x, Serve(id, exchange)))
  {
    hide ShouldAudit, AuditedExchange.CanMake;
  }

  lemma NextPhaseSound(config: HandlerConfig, x: State, a: Action)
    requires Sound(config, x) && OnRequest(a) && RequestEnabled(config, x, a)
    ensures var y := DoOnRequest(config, x, a);
            a.id in y.arrivals && PhaseSound(config, y.arrivals[a.id], NextPhase(config, x, a))
  {
    hide ShouldAudit, AuditedExchange.CanMake, AuditedExchange.InputOf, RequestAttrs, JobSound, Admits, NextMetrics;
    if a.Serve? {
      ServeSound(config, x, a.id, a.exchange);
    }
  }

  lemma NextPhaseSpawns(config: HandlerConfig, x: State, a: Action)
    requires OnRequest(a) && RequestEnabled(config, x, a)
    ensures HasSpawned(NextPhase(config, x, a)) <==> a.Spawn? || (a.id in x.requests && HasSpawned(x.requests[a.id]))
    ensures a.id in x.requests && HasSpawned(x.requests[a.id]) ==>
              AnswerOf(NextPhase(config, x, a)) == AnswerOf(x.requests[a.id])
    ensures a.Spawn? ==> NextPhase(config, x, a).answer.input == x.requests[a.id].answer.input
    ensures a.Spawn? ==> a.id in x.requests && !HasSpawned(x.requests[a.id])
  {
    hide ShouldAudit, AuditedExchange.CanMake, AuditedExchange.InputOf, RequestAttrs, Admits;
  }

  lemma SoundPhaseStep(config: HandlerConfig, x: State, a: Action)
    requires Sound(config, x) && Enabled(config, x, a) && OnRequest(a)
    ensures Sound(config, Do(config, x, a))
  {
    hide BuiltEvent, NextPhase, PhaseSound, RequestEnabled, NextMetrics, Bump;
    NextPhaseSound(config, x, a);
    NextPhaseSpawns(config, x, a);
    var y := Do(config, x, a);
    SoundAfterPhase(config, x, a.id, y.requests[a.id], y);
  }

  lemma SoundStep(config: HandlerConfig, x: State, a: Action)
    requires Sound(config, x) && Enabled(config, x, a)
    ensures Sound(config, Do(config, x, a))
  {
    hide PhaseSound, JobSound, RequestEnabled, JobEnabled, Step;
    if OnJob(a) {
      SoundJobStep(config, x, a);
    } else if OnRequest(a) {
      SoundPhaseStep(config, x, a);
    }
  }

  lemma {:induction false} RunsStaySound(config: HandlerConfig, run: seq<Action>)
    requires Possible(config, run)
    ensures Sound(config, After(config, run))
  {
    hide Do, Sound;
    if run == [] {
      assert Sound(config, INIT) by { InitSound(config); }
    } else {
      RunsStaySound(config, run[..|run| - 1]);
      SoundStep(config, After(config, run[..|run| - 1]), run[|run| - 1]);
    }
  }

  lemma InitSound(config: HandlerConfig)
    ensures Sound(config, INIT)
  {
  }

  // ----- Conservation

  /** Classes of jobs: those a counter has seen, and those still on the way to it. */
  datatype JobClass =
    | NotBuilt | WasBuilt | WasDropped
    | Sending | WasSent(delivered: bool)
    | Timing(delivered: bool) | WasTimed(delivered: bool)

  predicate InClass(j: Job, c: JobClass) {
    match c
    case NotBuilt => j.Unbuilt? || j.Ready? || j.Unbuildable?
    case WasBuilt => j.InFlight? || j.Returned? || j.Counted? || j.Done?
    case WasDropped => j.Dropped?
    case Sending => j.InFlight? || j.Returned?
    case WasSent(d) => j == Counted(d) || j == Done(d)
    case Timing(d) => j == Counted(d)
    case WasTimed(d) => j == Done(d)
  }

  ghost function JobsIn(jobs: map<nat, Job>, c: JobClass): set<nat> {
    set id | id in jobs && InClass(jobs[id], c)
  }

  predicate HasAttrs(p: Phase, attrs: RequestLabels) {
    p.Finished? && p.attrs == attrs
  }

  ghost function FinishedWith(requests: map<nat, Phase>, attrs: RequestLabels): set<nat> {
    set id | id in requests && HasAttrs(requests[id], attrs)
  }

  lemma JobsInUpdate(jobs: map<nat, Job>, id: nat, j: Job, c: JobClass)
    ensures |JobsIn(jobs[id := j], c)| ==
            |JobsIn(jobs, c)| - (if id in jobs && InClass(jobs[id], c) then 1 else 0) + if InClass(j, c) then 1 else 0
  {
    hide InClass;
    SizeUpdate(JobsIn(jobs, c), JobsIn(jobs[id := j], c), id);
  }

  lemma FinishedWithUpdate(requests: map<nat, Phase>, id: nat, p: Phase, attrs: RequestLabels)
    ensures |FinishedWith(requests[id := p], attrs)| ==
            |FinishedWith(requests, attrs)|
            - (if id in requests && HasAttrs(requests[id], attrs) then 1 else 0) + if HasAttrs(p, attrs) then 1 else 0
  {
    hide HasAttrs;
    SizeUpdate(FinishedWith(requests, attrs), FinishedWith(requests[id := p], attrs), id);
  }

  /** Every counter is the number of jobs, or finished requests, that have passed it. */
  ghost predicate JobsTallied(x: State) {
    && Tally(x.auditEvents, Built) == |JobsIn(x.jobs, WasBuilt)|
    && Tally(x.auditEvents, BuildError) == |JobsIn(x.jobs, WasDropped)|
    && (forall d :: Tally(x.auditEvents, SendOutcome(d)) == |JobsIn(x.jobs, WasSent(d))|)
    && (forall d :: Tally(x.deliveries, SendOutcome(d)) == |JobsIn(x.jobs, WasTimed(d))|)
  }

  ghost predicate RequestsTallied(x: State) {
    forall attrs :: Tally(x.requestsTotal, attrs) == |FinishedWith(x.requests, attrs)|
  }

  /** From which classes to which a step moves its job. */
  predicate JobMoves(a: Action, before: Option<Job>, after: Job) {
    match a
    case Spawn(_) => before.None? && after.Unbuilt?
    case Build(_) => before.Some? && before.value.Unbuilt? && (after.Ready? || after.Unbuildable?)
    case CountBuilt(_) => before.Some? && ((before.value.Ready? && after.InFlight?) || (before.value.Unbuildable? && after.Dropped?))
    case SendReturns(_, d) => before.Some? && before.value.InFlight? && after == Returned(d)
    case CountSent(_) => before.Some? && before.value.Returned? && after == Counted(before.value.delivered)
    case RecordDelivery(_) => before.Some? && before.value.Counted? && after == Done(before.value.delivered)
    case _ => false
  }

  function JobOf(x: State, id: nat): Option<Job> {
    if id in x.jobs then Some(x.jobs[id]) else None
  }

  ghost predicate JobChanged(x: State, a: Action, y: State) {
    && a.id in y.jobs && y.jobs == x.jobs[a.id := y.jobs[a.id]]
    && JobMoves(a, JobOf(x, a.id), y.jobs[a.id])
    && y.auditEvents == (if a.CountBuilt? then Bump(x.auditEvents, if y.jobs[a.id].Dropped? then BuildError else Built)
                         else if a.CountSent? then Bump(x.auditEvents, SendOutcome(y.jobs[a.id].delivered))
                         else x.auditEvents)
    && y.deliveries == (if a.RecordDelivery? then Bump(x.deliveries, SendOutcome(y.jobs[a.id].delivered)) else x.deliveries)
  }

  /** The job a step leaves, and the one counter it may bump. */
  lemma JobChange(config: HandlerConfig, x: State, a: Action)
    requires Enabled(config, x, a) && (OnJob(a) || a.Spawn?) && (a.Spawn? ==> a.id !in x.jobs)
    ensures JobChanged(x, a, Do(config, x, a))
  {
    hide BuiltEvent, NextPhase, RequestEnabled, NextMetrics, Bump;
  }

  lemma AuditEventsTallied(config: HandlerConfig, x: State, a: Action, outcome: AuditOutcome, c: JobClass)
    requires Enabled(config, x, a) && (OnJob(a) || a.Spawn?) && (a.Spawn? ==> a.id !in x.jobs)
    requires (outcome, c) == (Built, WasBuilt) || (outcome, c) == (BuildError, WasDropped) ||
             (c.WasSent? && outcome == SendOutcome(c.delivered))
    requires Tally(x.auditEvents, outcome) == |JobsIn(x.jobs, c)|
    ensures Tally(Do(config, x, a).auditEvents, outcome) == |JobsIn(Do(config, x, a).jobs, c)|
  {
    hide DoOnJob, DoOnRequest, JobEnabled, RequestEnabled, JobsIn;
    JobChange(config, x, a);
    JobsInUpdate(x.jobs, a.id, Do(config, x, a).jobs[a.id], c);
  }

  lemma DeliveriesTallied(config: HandlerConfig, x: State, a: Action, d: bool)
    requires Enabled(config, x, a) && (OnJob(a) || a.Spawn?) && (a.Spawn? ==> a.id !in x.jobs)
    requires Tally(x.deliveries, SendOutcome(d)) == |JobsIn(x.jobs, WasTimed(d))|
    ensures Tally(Do(config, x, a).deliveries, SendOutcome(d)) == |JobsIn(Do(config, x, a).jobs, WasTimed(d))|
  {
    hide DoOnJob, DoOnRequest, JobEnabled, RequestEnabled, JobsIn;
    JobChange(config, x, a);
    JobsInUpdate(x.jobs, a.id, Do(config, x, a).jobs[a.id], WasTimed(d));
  }

  lemma SpawnIsNew(config: HandlerConfig, x: State, a: Action)
    requires Sound(config, x) && Enabled(config, x, a) && a.Spawn?
    ensures a.id !in x.jobs
  {
    hide PhaseSound, JobSound, AuditedExchange.CanMake;
  }

  lemma JobsTalliedStep(config: HandlerConfig, x: State, a: Action)
    requires JobsTallied(x) && Enabled(config, x, a) && (OnJob(a) || a.Spawn?) && (a.Spawn? ==> a.id !in x.jobs)
    ensures JobsTallied(Do(config, x, a))
  {
    hide Do, Enabled, JobsIn, InClass, Tally, SendOutcome;
    AuditEventsTallied(config, x, a, Built, WasBuilt);
    AuditEventsTallied(config, x, a, BuildError, WasDropped);
    forall d: bool
      ensures Tally(Do(config, x, a).auditEvents, SendOutcome(d)) == |JobsIn(Do(config, x, a).jobs, WasSent(d))|
      ensures Tally(Do(config, x, a).deliveries, SendOutcome(d)) == |JobsIn(Do(config, x, a).jobs, WasTimed(d))|
    {
      AuditEventsTallied(config, x, a, SendOutcome(d), WasSent(d));
      DeliveriesTallied(config, x, a, d);
    }
  }

  /** Only Finish finishes a request, once, and it alone bumps the request counter. */
  lemma PhaseChange(config: HandlerConfig, x: State, a: Action)
    requires Enabled(config, x, a)
    ensures var y := Do(config, x, a);
            if OnRequest(a) then
              && y.requests == x.requests[a.id := NextPhase(config, x, a)]
              && (NextPhase(config, x, a).Finished? <==> a.Finish?)
              && (a.id in x.requests ==> !x.requests[a.id].Finished?)
              && y.requestsTotal == if a.Finish? then Bump(x.requestsTotal, NextPhase(config, x, a).attrs) else x.requestsTotal
            else y.requests == x.requests && y.requestsTotal == x.requestsTotal
  {
    hide NextJob, NextMetrics, ShouldAudit, AuditedExchange.CanMake, AuditedExchange.InputOf, RequestAttrs, Admits, Step, Bump;
  }

  lemma RequestsTalliedStep(config: HandlerConfig, x: State, a: Action)
    requires RequestsTallied(x) && Enabled(config, x, a)
    ensures RequestsTallied(Do(config, x, a))
  {
    hide Do, NextPhase;
    PhaseChange(config, x, a);
    var y := Do(config, x, a);
    if OnRequest(a) {
      forall attrs ensures Tally(y.requestsTotal, attrs) == |FinishedWith(y.requests, attrs)| {
        FinishedWithUpdate(x.requests, a.id, NextPhase(config, x, a), attrs);
      }
    }
  }

  lemma {:induction false} RunsStayTallied(config: HandlerConfig, run: seq<Action>)
    requires Possible(config, run)
    ensures JobsTallied(After(config, run)) && RequestsTallied(After(config, run))
  {
    hide Do, Sound;
    if run != [] {
      var before, last := run[..|run| - 1], run[|run| - 1];
      RunsStayTallied(config, before);
      RunsStaySound(config, before);
      RequestsTalliedStep(config, After(config, before), last);
      if last.Spawn? {
        SpawnIsNew(config, After(config, before), last);
      }
      if OnJob(last) || last.Spawn? {
        JobsTalliedStep(config, After(config, before), last);
      } else {
        JobsUntouched(config, After(config, before), last);
      }
    }
  }

  lemma JobsUntouched(config: HandlerConfig, x: State, a: Action)
    requires Enabled(config, x, a) && !OnJob(a) && !a.Spawn?
    ensures var y := Do(config, x, a); y.jobs == x.jobs && y.auditEvents == x.auditEvents && y.deliveries == x.deliveries
  {
    hide NextPhase, RequestEnabled, NextMetrics, Step;
  }

  lemma SplitClasses(jobs: map<nat, Job>, whole: JobClass, part1: JobClass, part2: JobClass)
    requires forall j: Job :: InClass(j, whole) <==> InClass(j, part1) || InClass(j, part2)
    requires forall j: Job :: !(InClass(j, part1) && InClass(j, part2))
    ensures |JobsIn(jobs, whole)| == |JobsIn(jobs, part1)| + |JobsIn(jobs, part2)|
  {
    hide InClass;
    assert JobsIn(jobs, whole) == JobsIn(jobs, part1) + JobsIn(jobs, part2);
    assert JobsIn(jobs, part1) !! JobsIn(jobs, part2);
  }

  lemma SplitBuilt(jobs: map<nat, Job>)
    ensures |JobsIn(jobs, WasBuilt)| ==
            |JobsIn(jobs, Sending)| + |JobsIn(jobs, WasSent(true))| + |JobsIn(jobs, WasSent(false))|
  {
    var sending, sent, failed := JobsIn(jobs, Sending), JobsIn(jobs, WasSent(true)), JobsIn(jobs, WasSent(false));
    forall id | id in JobsIn(jobs, WasBuilt) ensures id in sending + sent + failed {
      match jobs[id]
      case Counted(true) =>
      case Counted(false) =>
      case Done(true) =>
      case Done(false) =>
      case _ =>
    }
    PartitionSize(JobsIn(jobs, WasBuilt), sending, sent, failed);
  }

  lemma SplitJobs(jobs: map<nat, Job>)
    ensures |jobs| == |JobsIn(jobs, NotBuilt)| + |JobsIn(jobs, WasBuilt)| + |JobsIn(jobs, WasDropped)|
  {
    PartitionSize(jobs.Keys, JobsIn(jobs, NotBuilt), JobsIn(jobs, WasBuilt), JobsIn(jobs, WasDropped));
    assert |jobs| == |jobs.Keys|;
  }

  ghost predicate Conserved(x: State) {
    && Tally(x.auditEvents, BuildError) == 0
    && |x.jobs| == Tally(x.auditEvents, Built) + |JobsIn(x.jobs, NotBuilt)|
    && Tally(x.auditEvents, Built) == Tally(x.auditEvents, Sent) + Tally(x.auditEvents, SendError) + |JobsIn(x.jobs, Sending)|
    && Tally(x.auditEvents, Sent) == Tally(x.deliveries, Sent) + |JobsIn(x.jobs, Timing(true))|
    && Tally(x.auditEvents, SendError) == Tally(x.deliveries, SendError) + |JobsIn(x.jobs, Timing(false))|
  }

  lemma TalliesConserve(config: HandlerConfig, x: State)
    requires JobsIn(x.jobs, WasDropped) == {} && JobsTallied(x)
    ensures Conserved(x)
  {
    SplitJobs(x.jobs);
    SplitBuilt(x.jobs);
    SplitClasses(x.jobs, WasSent(true), Timing(true), WasTimed(true));
    SplitClasses(x.jobs, WasSent(false), Timing(false), WasTimed(false));
    hide JobsIn;
    assert SendOutcome(true) == Sent && SendOutcome(false) == SendError;
  }

  /**
   Over every interleaving of requests and senders: relayed responses are events built plus senders still
   to build; events built are deliveries that succeeded, failed, or are in flight; each outcome is timed once; nothing fails to build.
   */
  lemma AuditConservation(config: HandlerConfig, run: seq<Action>)
    requires Possible(config, run)
    ensures Conserved(After(config, run))
    ensures forall attrs :: Tally(After(config, run).requestsTotal, attrs) == |FinishedWith(After(config, run).requests, attrs)|
  {
    RunsStaySound(config, run);
    RunsStayTallied(config, run);
    NothingDropped(config, After(config, run));
    TalliesConserve(config, After(config, run));
  }

  lemma NothingDropped(config: HandlerConfig, x: State)
    requires Sound(config, x)
    ensures JobsIn(x.jobs, WasDropped) == {}
  {
    hide PhaseSound, BuiltEvent;
  }

  /**
   A sender exists exactly for the requests whose response was relayed and handed over; no rejected, passed-through or
   failed request has one. What was relayed is an exchange its own request allows, and the event is the event of that exchange.
   */
  lemma EventsOnlyForRelayedRequests(config: HandlerConfig, run: seq<Action>, id: nat)
    requires Possible(config, run)
    ensures var x := After(config, run);
            && (id in x.jobs <==> id in x.requests && HasSpawned(x.requests[id]))
            && (id in x.jobs ==>
                  var p := x.requests[id];
                  && id in x.arrivals && OwnExchange(config, x.arrivals[id], p.answer, p.response)
                  && (x.jobs[id].Unbuilt? ==> x.jobs[id].input == p.answer.input)
                  && (x.jobs[id].Ready? || x.jobs[id].InFlight? ==>
                        x.jobs[id].event == BuiltEvent(config.json, config.exchange.hostOf, p.answer.input)))
  {
    RunsStaySound(config, run);
  }

  // ----- Order

  /** The same answer, but perhaps handed over to a sender since. */
  predicate Continues(before: Answer, after: Answer) {
    after == before || (before.Relayed? && after == before.(spawned := true))
  }

  lemma AnswerStays(config: HandlerConfig, x: State, a: Action, id: nat)
    requires Enabled(config, x, a) && id in x.requests && AnswerOf(x.requests[id]).Some?
    ensures var y := Do(config, x, a);
            && id in y.requests && AnswerOf(y.requests[id]).Some?
            && y.requests[id].response == x.requests[id].response
            && Continues(AnswerOf(x.requests[id]).value, AnswerOf(y.requests[id]).value)
  {
    hide Do, ShouldAudit, AuditedExchange.CanMake, AuditedExchange.InputOf, RequestAttrs, Admits;
    PhaseChange(config, x, a);
  }

  /** Once a request is answered, its response is the same after whatever follows, and so is what was exchanged. */
  lemma {:induction false} ResponsesAreFinal(config: HandlerConfig, run: seq<Action>, more: seq<Action>, id: nat)
    requires Possible(config, run) && Possible(config, run + more)
    requires id in After(config, run).requests && AnswerOf(After(config, run).requests[id]).Some?
    ensures var x, y := After(config, run), After(config, run + more);
            && id in y.requests && AnswerOf(y.requests[id]).Some?
            && y.requests[id].response == x.requests[id].response
            && Continues(AnswerOf(x.requests[id]).value, AnswerOf(y.requests[id]).value)
  {
    hide Do, Enabled, AnswerOf;
    if more == [] {
      assert run + more == run;
    } else {
      var all, rest := run + more, more[..|more| - 1];
      assert all[..|all| - 1] == run + rest;
      ResponsesAreFinal(config, run, rest, id);
      AnswerStays(config, After(config, run + rest), all[|all| - 1], id);
    }
  }

  /** Step `i` of the run gave request `id` the phase `p`. */
  ghost predicate Gives(config: HandlerConfig, run: seq<Action>, i: nat, id: nat, p: Phase) {
    && i < |run| && Possible(config, run[..i]) && Enabled(config, After(config, run[..i]), run[i])
    && OnRequest(run[i]) && run[i].id == id && NextPhase(config, After(config, run[..i]), run[i]) == p
  }

  /** Every phase was given by some step. */
  lemma {:induction false} PhaseHasOrigin(config: HandlerConfig, run: seq<Action>, id: nat) returns (i: nat)
    requires Possible(config, run) && id in After(config, run).requests
    ensures Gives(config, run, i, id, After(config, run).requests[id])
  {
    hide Do, Enabled, NextPhase;
    i := |run| - 1;
    var before, last := run[..i], run[i];
    PhaseChange(config, After(config, before), last);
    if !(OnRequest(last) && last.id == id) {
      i := PhaseHasOrigin(config, before, id);
      assert before[..i] == run[..i];
    }
  }

  /** Some authenticator, asked about these headers, named this user and was believed. */
  ghost predicate VerifiedFrom(config: HandlerConfig, a: Action, arrival: Arrival, user: UserInfo)
    requires a.Identify?
  {
    var extraction := RequestIdentity.Extracted(a.authenticator, arrival.request.headers);
    Admits(config, extraction) && extraction.user == user
  }

  /**
   Step `h` verified the user from the request's own headers, `k` resolved what is audited, `i` made the exchange and wrote
   the response, `j` started the sender.
   */
  ghost predicate InOrder(config: HandlerConfig, run: seq<Action>, id: nat, arrival: Arrival, answer: Answer,
                          h: nat, k: nat, i: nat, j: nat)
    requires answer.Relayed?
  {
    && h < k < i < j < |run|
    && run[h].Identify? && run[h].id == id && VerifiedFrom(config, run[h], arrival, answer.input.user)
    && run[k] == Resolve(id, Resolved(answer.input.info))
    && run[i] == Serve(id, answer.exchange)
    && run[j] == Spawn(id)
  }

  lemma {:induction false} ArrivalStays(config: HandlerConfig, run: seq<Action>, n: nat, id: nat)
    requires n <= |run| && Possible(config, run) && Possible(config, run[..n])
    requires Sound(config, After(config, run[..n])) && id in After(config, run[..n]).requests
    ensures id in After(config, run[..n]).arrivals && id in After(config, run).requests && id in After(config, run).arrivals
    ensures After(config, run).arrivals[id] == After(config, run[..n]).arrivals[id]
  {
    hide Enabled, RequestEnabled, JobEnabled, NextPhase, NextMetrics, NextJob, PhaseSound, JobSound, Step;
    if n == |run| {
      assert run[..n] == run;
    } else {
      var before := run[..|run| - 1];
      assert before[..n] == run[..n];
      ArrivalStays(config, before, n, id);
      NoSecondArrival(config, After(config, before), run[|run| - 1], id);
    }
  }

  lemma NoSecondArrival(config: HandlerConfig, x: State, a: Action, id: nat)
    requires Enabled(config, x, a) && id in x.requests && id in x.arrivals
    ensures var y := Do(config, x, a); id in y.requests && id in y.arrivals && y.arrivals[id] == x.arrivals[id]
  {
    hide NextPhase, NextMetrics, NextJob, Step, Bump, AuditedExchange.CanMake;
  }

  lemma OriginOfVerified(config: HandlerConfig, run: seq<Action>, h: nat, id: nat, p: Phase)
    requires Gives(config, run, h, id, p) && p.Verified?
    ensures run[h].Identify? && run[h].id == id && id in After(config, run[..h]).requests && id in After(config, run[..h]).arrivals
    ensures VerifiedFrom(config, run[h], After(config, run[..h]).arrivals[id], p.user)
  {
    hide ShouldAudit, RequestAttrs, AuditedExchange.CanMake, RequestIdentity.Extracted;
  }

  lemma OriginOfAuditing(config: HandlerConfig, run: seq<Action>, k: nat, id: nat, p: Phase)
    requires Gives(config, run, k, id, p) && p.Auditing?
    ensures run[k] == Resolve(id, Resolved(Some(p.info)))
    ensures id in After(config, run[..k]).requests && After(config, run[..k]).requests[id] == Verified(p.user)
  {
    hide ShouldAudit, RequestAttrs, AuditedExchange.CanMake;
  }

  lemma OriginOfRelayed(config: HandlerConfig, run: seq<Action>, i: nat, id: nat, p: Phase)
    requires Gives(config, run, i, id, p) && p.Answered? && p.answer.Relayed? && !p.answer.spawned
    ensures run[i] == Serve(id, p.answer.exchange) && p.answer.input.info.Some?
    ensures id in After(config, run[..i]).requests
    ensures After(config, run[..i]).requests[id] == Auditing(p.answer.input.info.value, p.answer.input.user)
  {
    hide ShouldAudit, RequestAttrs, AuditedExchange.CanMake;
  }

  lemma OriginOfSpawned(config: HandlerConfig, run: seq<Action>, j: nat, id: nat, p: Phase)
    requires Gives(config, run, j, id, p) && p.Answered? && p.answer.Relayed? && p.answer.spawned
    ensures run[j] == Spawn(id) && id in After(config, run[..j]).requests
    ensures After(config, run[..j]).requests[id] == Answered(p.response, p.answer.(spawned := false))
  {
    hide ShouldAudit, RequestAttrs, AuditedExchange.CanMake;
  }

  lemma OriginOfFinished(config: HandlerConfig, run: seq<Action>, f: nat, id: nat, p: Phase)
    requires Gives(config, run, f, id, p) && p.Finished?
    ensures id in After(config, run[..f]).requests && After(config, run[..f]).requests[id] == Answered(p.response, p.answer)
  {
    hide ShouldAudit, RequestAttrs, AuditedExchange.CanMake;
  }

  lemma AuditingHasOrigins(config: HandlerConfig, run: seq<Action>, i: nat, id: nat, info: RequestInfo, user: UserInfo)
    returns (h: nat, k: nat)
    requires i <= |run| && Possible(config, run) && Possible(config, run[..i])
    requires id in After(config, run[..i]).requests && After(config, run[..i]).requests[id] == Auditing(info, user)
    ensures h < k < i && run[k] == Resolve(id, Resolved(Some(info)))
    ensures run[h].Identify? && run[h].id == id && id in After(config, run).arrivals
    ensures VerifiedFrom(config, run[h], After(config, run).arrivals[id], user)
  {
    hide Gives, Sound, VerifiedFrom;
    var auditing, verified := Auditing(info, user), Verified(user);
    k := PhaseHasOrigin(config, run[..i], id);
    GivenEarlier(config, run, i, k, id, auditing);
    OriginOfAuditing(config, run, k, id, auditing);
    GivenPrefix(config, run, k, id, auditing);
    h := PhaseHasOrigin(config, run[..k], id);
    GivenEarlier(config, run, k, h, id, verified);
    OriginOfVerified(config, run, h, id, verified);
    GivenPrefix(config, run, h, id, verified);
    RunsStaySound(config, run[..h]);
    ArrivalStays(config, run, h, id);
  }

  /**
   Behind every sender, at any time of any run, there are four earlier steps of its own request, in this order: its user was
   verified, its audited operation resolved, its exchange made and the response written, and only then the sender started.
   */
  lemma EventFollowsResponse(config: HandlerConfig, run: seq<Action>, id: nat)
    requires Possible(config, run) && id in After(config, run).jobs
    ensures id in After(config, run).requests && HasSpawned(After(config, run).requests[id])
    ensures id in After(config, run).arrivals
    ensures var x := After(config, run);
            exists h, k, i, j :: InOrder(config, run, id, x.arrivals[id], AnswerOf(x.requests[id]).value, h, k, i, j)
  {
    hide Gives, Sound, VerifiedFrom;
    SenderIsSpawned(config, run, id);
    var p := After(config, run).requests[id];
    var j := PhaseHasOrigin(config, run, id);
    if p.Finished? {
      GivenPrefix(config, run, j, id, p);
      OriginOfFinished(config, run, j, id, p);
      var f := j;
      j := PhaseHasOrigin(config, run[..f], id);
      GivenEarlier(config, run, f, j, id, Answered(p.response, p.answer));
      p := Answered(p.response, p.answer);
    }
    OriginOfSpawned(config, run, j, id, p);
    GivenPrefix(config, run, j, id, p);
    var i := PhaseHasOrigin(config, run[..j], id);
    var unspawned := Answered(p.response, p.answer.(spawned := false));
    GivenEarlier(config, run, j, i, id, unspawned);
    OriginOfRelayed(config, run, i, id, unspawned);
    GivenPrefix(config, run, i, id, unspawned);
    var h, k := AuditingHasOrigins(config, run, i, id, p.answer.input.info.value, p.answer.input.user);
    assert InOrder(config, run, id, After(config, run).arrivals[id], p.answer, h, k, i, j);
  }

  lemma SenderIsSpawned(config: HandlerConfig, run: seq<Action>, id: nat)
    requires Possible(config, run) && id in After(config, run).jobs
    ensures id in After(config, run).requests && HasSpawned(After(config, run).requests[id])
  {
    hide PhaseSound, JobSound;
    RunsStaySound(config, run);
  }

  lemma GivenPrefix(config: HandlerConfig, run: seq<Action>, i: nat, id: nat, p: Phase)
    requires Gives(config, run, i, id, p)
    ensures i < |run| && Possible(config, run[..i])
  {
  }

  lemma GivenEarlier(config: HandlerConfig, run: seq<Action>, n: nat, i: nat, id: nat, p: Phase)
    requires n <= |run| && Gives(config, run[..n], i, id, p)
    ensures i < n && Gives(config, run, i, id, p)
  {
    assert run[..n][..i] == run[..i];
  }

  /** At rest, every relayed request has had its event built and its one delivery attempt counted and timed. */
  lemma QuiescentTotals(config: HandlerConfig, run: seq<Action>)
    requires Possible(config, run)
    requires forall id :: id in After(config, run).jobs ==> After(config, run).jobs[id].Done?
    ensures var x := After(config, run);
            && Tally(x.auditEvents, Built) == |x.jobs|
            && Tally(x.auditEvents, Sent) + Tally(x.auditEvents, SendError) == |x.jobs|
            && Tally(x.deliveries, Sent) + Tally(x.deliveries, SendError) == |x.jobs|
  {
    hide Possible, After, Tally;
    var x := After(config, run);
    AuditConservation(config, run);
    assert JobsIn(x.jobs, NotBuilt) == {} && JobsIn(x.jobs, Sending) == {};
    assert JobsIn(x.jobs, Timing(true)) == {} && JobsIn(x.jobs, Timing(false)) == {};
  }

  // ----- Every finished request is counted once

  /** The sum of a counter over all its label sets, as the number of its unit increments. */
  ghost function Total<K>(m: map<K, nat>): nat {
    |set k, i: nat | k in m && i < m[k] :: (k, i)|
  }

  lemma BumpAddsOne<K>(m: map<K, nat>, k: K)
    ensures Total(Bump(m, k)) == Total(m) + 1
  {
    var before := set l, i: nat | l in m && i < m[l] :: (l, i);
    var after := set l, i: nat | l in Bump(m, k) && i < Bump(m, k)[l] :: (l, i);
    assert after == before + {(k, Tally(m, k))};
  }

  ghost function FinishedRequests(requests: map<nat, Phase>): set<nat> {
    set id | id in requests && requests[id].Finished?
  }

  /** Summed over all labels, requests_total is the number of finished requests. */
  lemma {:induction false} EachFinishedRequestCountsOnce(config: HandlerConfig, run: seq<Action>)
    requires Possible(config, run)
    ensures Total(After(config, run).requestsTotal) == |FinishedRequests(After(config, run).requests)|
  {
    if run != [] {
      var before, last := run[..|run| - 1], run[|run| - 1];
      EachFinishedRequestCountsOnce(config, before);
      hide Do, NextPhase;
      var x := After(config, before);
      PhaseChange(config, x, last);
      if OnRequest(last) {
        SizeUpdate(FinishedRequests(x.requests), FinishedRequests(Do(config, x, last).requests), last.id);
        if last.Finish? {
          BumpAddsOne(x.requestsTotal, NextPhase(config, x, last).attrs);
        }
      }
    }
  }

  // ----- The sender itself

  class AuditMetrics {
    var auditEvents: map<AuditOutcome, nat>
    var deliveries: map<AuditOutcome, nat>

    constructor ()
      ensures auditEvents == map[] && deliveries == map[]
    {
      auditEvents, deliveries := map[], map[];
    }

    method AddAuditEvent(outcome: AuditOutcome)
      modifies this`auditEvents
      ensures auditEvents == Bump(old(auditEvents), outcome)
    {
      auditEvents := auditEvents[outcome := (if outcome in auditEvents then auditEvents[outcome] else 0) + 1];
    }

    method RecordAuditDelivery(outcome: AuditOutcome)
      modifies this`deliveries
      ensures deliveries == Bump(old(deliveries), outcome)
    {
      deliveries := deliveries[outcome := (if outcome in deliveries then deliveries[outcome] else 0) + 1];
    }

    /** `delivered` is what the webhook answered. */
    method SendBestEffort(delivered: bool)
      modifies this
      ensures auditEvents == Bump(old(auditEvents), SendOutcome(delivered))
      ensures deliveries == Bump(old(deliveries), SendOutcome(delivered))
    {
      if !delivered {
        AddAuditEvent(SendError);
        RecordAuditDelivery(SendError);
        return;
      }
      AddAuditEvent(Sent);
      RecordAuditDelivery(Sent);
    }

    method BuildAndSendAuditEvent(config: HandlerConfig, input: Input, delivered: bool) returns (event: Option<Event>)
      modifies this
      ensures event == if input.request.Some? && input.info.Some? then Some(BuiltEvent(config.json, config.exchange.hostOf, input))
                       else None
      ensures if event.None? then
                auditEvents == Bump(old(auditEvents), BuildError) && deliveries == old(deliveries)
              else
                && auditEvents == Bump(Bump(old(auditEvents), Built), SendOutcome(delivered))
                && deliveries == Bump(old(deliveries), SendOutcome(delivered))
    {
      var built := AuditEvents.Build(config.json, config.exchange.hostOf, input);
      if built.Err? {
        AddAuditEvent(BuildError);
        return None;
      }
      AddAuditEvent(Built);
      SendBestEffort(delivered);
      return Some(built.value);
    }
  }

  ghost predicate Moves(config: HandlerConfig, x: State, a: Action, y: State) {
    Enabled(config, x, a) && y == Do(config, x, a)
  }

  /** Left to itself, a sender's steps in the protocol add up to what the method does to the counters. */
  lemma SenderAlone(config: HandlerConfig, id: nat, delivered: bool, x0: State, x1: State, x2: State, x3: State, x4: State, x5: State)
    requires Moves(config, x0, Build(id), x1) && x1.jobs[id].Ready?
    requires Moves(config, x1, CountBuilt(id), x2)
    requires Moves(config, x2, SendReturns(id, delivered), x3)
    requires Moves(config, x3, CountSent(id), x4)
    requires Moves(config, x4, RecordDelivery(id), x5)
    ensures x5.requests == x0.requests && x5.requestsTotal == x0.requestsTotal && x5.jobs == x0.jobs[id := Done(delivered)]
    ensures x5.auditEvents == Bump(Bump(x0.auditEvents, Built), SendOutcome(delivered))
    ensures x5.deliveries == Bump(x0.deliveries, SendOutcome(delivered))
  {
    JobChange(config, x0, Build(id));
    JobChange(config, x1, CountBuilt(id));
    JobChange(config, x2, SendReturns(id, delivered));
    JobChange(config, x3, CountSent(id));
    JobChange(config, x4, RecordDelivery(id));
    PhaseChange(config, x0, Build(id));
    PhaseChange(config, x1, CountBuilt(id));
    PhaseChange(config, x2, SendReturns(id, delivered));
    PhaseChange(config, x3, CountSent(id));
    PhaseChange(config, x4, RecordDelivery(id));
    hide Do, Enabled, Bump;
    OverwriteTwice(x0.jobs, id, x1.jobs[id], x2.jobs[id]);
    OverwriteTwice(x0.jobs, id, x2.jobs[id], x3.jobs[id]);
    OverwriteTwice(x0.jobs, id, x3.jobs[id], x4.jobs[id]);
    OverwriteTwice(x0.jobs, id, x4.jobs[id], x5.jobs[id]);
  }
}
