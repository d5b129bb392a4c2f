/** What becomes of a request over a run, told from what the authenticator, the resolver and its events said. */
module RequestFates {
  import opened Bytes
  import opened BackendIdentity
  import opened HeaderMaps
  import opened AuditEvents
  import opened AuditLifecycle
  import AuditedExchange
  import RequestIdentity
  import RequestMetrics
  import StreamGauge

  // ----- Turned away or let in

  /** Authentication turns a request away if it fails, or if a verified identity is required and there is none. */
  ghost predicate Refuses(authenticator: Option<RequestIdentity.Authenticator>, headers: HeaderMap, requiresVerified: bool) {
    match authenticator
    case None => requiresVerified
    case Some(a) =>
      match a.decide(headers)
      case Error(_) => true
      case Answer(recognised, _) => requiresVerified && !recognised
  }

  /** The user the authenticator named, or nobody. */
  ghost function Named(authenticator: Option<RequestIdentity.Authenticator>, headers: HeaderMap): UserInfo {
    match authenticator
    case None => UserInfo("", "", [], map[])
    case Some(a) =>
      match a.decide(headers)
      case Answer(true, Some(user)) => user
      case _ => UserInfo("", "", [], map[])
  }

  /** The phase of a request let in as `user`, at that moment or later. */
  ghost predicate LetInAs(p: Phase, user: UserInfo) {
    match p
    case Received => false
    case Verified(u) => u == user
    case Passing => true
    case Auditing(_, u) => u == user
    case Answered(_, answer) => IsAnswerFor(answer, user)
    case Finished(_, answer, _) => IsAnswerFor(answer, user)
  }

  predicate IsAnswerFor(answer: Answer, user: UserInfo) {
    !answer.Rejected? && (answer.Relayed? ==> answer.input.user == user)
  }

  predicate TurnedAway(p: Phase) {
    AnswerOf(p) == Some(Rejected) && p.response == AuditedExchange.ErrorLine(401)
  }

  ghost predicate Identified(p: Phase, refused: bool, user: UserInfo) {
    if refused then TurnedAway(p) else LetInAs(p, user)
  }

  lemma IdentifyDecides(config: HandlerConfig, x: State, a: Action)
    requires a.Identify? && Enabled(config, x, a)
    ensures var y, headers := Do(config, x, a), x.arrivals[a.id].request.headers;
            && a.id in y.requests && a.id in y.arrivals && y.arrivals[a.id] == x.arrivals[a.id]
            && Identified(y.requests[a.id], Refuses(a.authenticator, headers, config.requiresVerified), Named(a.authenticator, headers))
  {
  }

  lemma IdentifiedStays(config: HandlerConfig, x: State, a: Action, id: nat, refused: bool, user: UserInfo)
    requires Enabled(config, x, a) && id in x.requests && id in x.arrivals && Identified(x.requests[id], refused, user)
    ensures var y := Do(config, x, a);
            id in y.requests && id in y.arrivals && y.arrivals[id] == x.arrivals[id] && Identified(y.requests[id], refused, user)
  {
    NoSecondArrival(config, x, a, id);
    PhaseChange(config, x, a);
    if OnRequest(a) && a.id == id {
      IdentifiedMoves(config, x, a, refused, user);
    }
  }

  lemma IdentifiedMoves(config: HandlerConfig, x: State, a: Action, refused: bool, user: UserInfo)
    requires OnRequest(a) && RequestEnabled(config, x, a) && a.id in x.requests && Identified(x.requests[a.id], refused, user)
    ensures Identified(NextPhase(config, x, a), refused, user)
  {
    hide ShouldAudit, RequestAttrs, AuditedExchange.CanMake;
  }

  /**
   Over every run: a request is turned away with 401, for good, exactly if the authenticator failed on its headers, or a verified
   identity is required and it recognised none; else it goes on as the user named, or as nobody.
   */
  lemma {:induction false} FateOfIdentified(config: HandlerConfig, run: seq<Action>, h: nat, id: nat)
    requires Possible(config, run) && h < |run| && run[h].Identify? && run[h].id == id
    ensures var x := After(config, run);
            && id in x.requests && id in x.arrivals
            && var headers := x.arrivals[id].request.headers;
               Identified(x.requests[id], Refuses(run[h].authenticator, headers, config.requiresVerified),
                          Named(run[h].authenticator, headers))
  {
    hide Do, Enabled, Identified, Refuses, Named;
    var before, last := run[..|run| - 1], run[|run| - 1];
    if h == |run| - 1 {
      IdentifyDecides(config, After(config, before), last);
    } else {
      FateOfIdentified(config, before, h, id);
      var x := After(config, before);
      var headers := x.arrivals[id].request.headers;
      IdentifiedStays(config, x, last, id, Refuses(run[h].authenticator, headers, config.requiresVerified),
                      Named(run[h].authenticator, headers));
    }
  }

  // ----- Audited or passed through

  /** A mutation the proxy audits: one of five verbs on a resource. */
  predicate IsMutation(info: RequestInfo) {
    && info.isResourceRequest
    && (info.verb == "create" || info.verb == "update" || info.verb == "patch"
        || info.verb == "delete" || info.verb == "deletecollection")
  }

  lemma AuditsMutations(info: Option<RequestInfo>)
    ensures ShouldAudit(info) <==> info.Some? && IsMutation(info.value)
  {
  }

  predicate ResolvesToMutation(resolution: Resolution) {
    resolution.Resolved? && resolution.info.Some? && IsMutation(resolution.info.value)
  }

  /** A mutation is being served, has failed with 400 or 502, or was relayed under its own info; it is not finished without a sender. */
  predicate Mutates(p: Phase, info: RequestInfo) {
    match p
    case Auditing(i, _) => i == info
    case Answered(response, answer) => IsServed(response, answer, info)
    case Finished(response, answer, _) => IsServed(response, answer, info) && (answer.Relayed? ==> answer.spawned)
    case _ => false
  }

  predicate IsServed(response: AuditedExchange.Response, answer: Answer, info: RequestInfo) {
    || (answer.Broken? && (response == AuditedExchange.ErrorLine(400) || response == AuditedExchange.ErrorLine(502)))
    || (answer.Relayed? && answer.input.info == Some(info))
  }

  predicate PassesThrough(p: Phase) {
    p.Passing? || AnswerOf(p) == Some(PassedThrough)
  }

  ghost predicate Decided(p: Phase, resolution: Resolution) {
    if ResolvesToMutation(resolution) then Mutates(p, resolution.info.value) else PassesThrough(p)
  }

  lemma ResolveDecides(config: HandlerConfig, x: State, a: Action)
    requires a.Resolve? && Enabled(config, x, a)
    ensures a.id in Do(config, x, a).requests && Decided(Do(config, x, a).requests[a.id], a.resolution)
  {
    hide ShouldAudit, IsMutation;
    if a.resolution.Resolved? {
      AuditsMutations(a.resolution.info);
    }
  }

  lemma DecidedMoves(config: HandlerConfig, x: State, a: Action, resolution: Resolution)
    requires OnRequest(a) && RequestEnabled(config, x, a) && a.id in x.requests && Decided(x.requests[a.id], resolution)
    ensures Decided(NextPhase(config, x, a), resolution)
  {
    hide ShouldAudit, RequestAttrs, IsMutation;
  }

  lemma DecidedStays(config: HandlerConfig, x: State, a: Action, id: nat, resolution: Resolution)
    requires Enabled(config, x, a) && id in x.requests && Decided(x.requests[id], resolution)
    ensures id in Do(config, x, a).requests && Decided(Do(config, x, a).requests[id], resolution)
  {
    hide Decided;
    PhaseChange(config, x, a);
    if OnRequest(a) && a.id == id {
      DecidedMoves(config, x, a, resolution);
    }
  }

  /**
   Over every run: a request resolved to one of the five mutations of a resource is never passed through, and if it was relayed
   it is not finished without a sender; one resolved to anything else, or not at all, is passed through and never has a sender.
   */
  lemma {:induction false} FateOfResolved(config: HandlerConfig, run: seq<Action>, k: nat, id: nat)
    requires Possible(config, run) && k < |run| && run[k].Resolve? && run[k].id == id
    ensures var x := After(config, run);
            && id in x.requests && Decided(x.requests[id], run[k].resolution)
            && (id in x.jobs ==> ResolvesToMutation(run[k].resolution))
            && (x.requests[id].Finished? && x.requests[id].answer.Relayed? ==> id in x.jobs)
  {
    hide Do, Enabled;
    PhaseIsDecided(config, run, k, id);
    EventsOnlyForRelayedRequests(config, run, id);
  }

  lemma {:induction false} PhaseIsDecided(config: HandlerConfig, run: seq<Action>, k: nat, id: nat)
    requires Possible(config, run) && k < |run| && run[k].Resolve? && run[k].id == id
    ensures id in After(config, run).requests && Decided(After(config, run).requests[id], run[k].resolution)
  {
    hide Do, Enabled, Decided;
    var before, last := run[..|run| - 1], run[|run| - 1];
    if k == |run| - 1 {
      ResolveDecides(config, After(config, before), last);
    } else {
      PhaseIsDecided(config, before, k, id);
      DecidedStays(config, After(config, before), last, id, run[k].resolution);
    }
  }

  /** Every sender, at any time of any run, is for one of the five mutations of a resource. */
  lemma EventsAreForMutations(config: HandlerConfig, run: seq<Action>, id: nat)
    requires Possible(config, run) && id in After(config, run).jobs
    ensures var x := After(config, run);
            && id in x.requests && HasSpawned(x.requests[id])
            && x.requests[id].answer.input.info.Some? && IsMutation(x.requests[id].answer.input.info.value)
  {
    hide AuditedExchange.CanMake, ShouldAudit, Possible, After;
    EventsOnlyForRelayedRequests(config, run, id);
    AuditsMutations(After(config, run).requests[id].answer.input.info);
  }

  // ----- How a finished request is labelled

  /** How the request arrived. */
  function ArrivalStep(run: seq<Action>, id: nat): Option<Action> {
    if run == [] then None
    else
      var last := run[|run| - 1];
      if last.Arrive? && last.id == id then Some(last) else ArrivalStep(run[..|run| - 1], id)
  }

  /** What a step adds to the events of its request. */
  function NewEvents(a: Action): seq<RequestMetrics.MetricEvent> {
    match a
    case Resolve(_, Resolved(info)) => [RequestMetrics.MetricEvent.SetRequestInfo(info, info.Some? && IsMutation(info.value))]
    case Measure(_, e) => [e]
    case _ => []
  }

  /** What befell the metric state of the request since it arrived. */
  function EventsOf(run: seq<Action>, id: nat): seq<RequestMetrics.MetricEvent> {
    if run == [] then []
    else
      var before, last := EventsOf(run[..|run| - 1], id), run[|run| - 1];
      if last.id != id then before else if last.Arrive? then [] else before + NewEvents(last)
  }

  ghost predicate HistoryIs(x: State, id: nat, arrived: Option<Action>, events: seq<RequestMetrics.MetricEvent>) {
    && arrived.Some? && arrived.value.Arrive? && id in x.metrics
    && x.metrics[id] == RequestMetrics.Run(
         RequestMetrics.NewMetricState(arrived.value.lowerMethod, arrived.value.proto, arrived.value.isWatch), events)
  }

  lemma OneMoreStep(run: seq<Action>, a: Action, id: nat)
    ensures ArrivalStep(run + [a], id) == if a.Arrive? && a.id == id then Some(a) else ArrivalStep(run, id)
    ensures EventsOf(run + [a], id) ==
            if a.id != id then EventsOf(run, id) else if a.Arrive? then [] else EventsOf(run, id) + NewEvents(a)
  {
    assert (run + [a])[..|run|] == run;
  }

  lemma OneMoreEvent(s: RequestMetrics.MetricState, events: seq<RequestMetrics.MetricEvent>, e: RequestMetrics.MetricEvent)
    ensures RequestMetrics.Run(s, events + [e]) == RequestMetrics.Step(RequestMetrics.Run(s, events), e)
  {
    assert (events + [e])[..|events|] == events;
  }

  lemma MetricsAfter(config: HandlerConfig, x: State, a: Action)
    requires Enabled(config, x, a)
    ensures a.Resolve? ==> a.id in x.metrics
    ensures var y := Do(config, x, a);
            && y.metrics == (if OnRequest(a) then NextMetrics(x, a)
                             else if a.Measure? then x.metrics[a.id := RequestMetrics.Step(x.metrics[a.id], a.event)] else x.metrics)
            && y.requests.Keys == x.requests.Keys + (if OnRequest(a) then {a.id} else {})
            && (OnRequest(a) && !a.Arrive? ==> a.id in x.requests)
  {
    hide NextMetrics, RequestMetrics.Step, NextPhase, NextJob, Bump, AuditedExchange.CanMake;
  }

  /** What a step makes of a request's metric history. */
  lemma HistoryChange(config: HandlerConfig, x: State, a: Action, id: nat)
    requires Enabled(config, x, a)
    ensures var y := Do(config, x, a);
            && (id in y.requests <==> id in x.requests || (a.Arrive? && a.id == id))
            && (id in x.metrics && (a.id != id || NewEvents(a) == []) && !(a.Arrive? && a.id == id) ==>
                  id in y.metrics && y.metrics[id] == x.metrics[id])
            && (a.id == id && NewEvents(a) != [] && id in x.metrics ==>
                  id in y.metrics && y.metrics[id] == RequestMetrics.Step(x.metrics[id], NewEvents(a)[0]))
            && (a.Arrive? && a.id == id ==>
                  && id in y.metrics
                  && y.metrics[id] == RequestMetrics.Start(RequestMetrics.NewMetricState(a.lowerMethod, a.proto, a.isWatch)))
  {
    hide ShouldAudit, IsMutation, RequestMetrics.Step, RequestMetrics.NewMetricState, RequestMetrics.Start, Do, Enabled;
    MetricsAfter(config, x, a);
    if a.Resolve? && a.resolution.Resolved? {
      AuditsMutations(a.resolution.info);
    }
  }

  lemma HistoryMoves(config: HandlerConfig, x: State, a: Action, run: seq<Action>, id: nat)
    requires Enabled(config, x, a) && (id in x.requests ==> HistoryIs(x, id, ArrivalStep(run, id), EventsOf(run, id)))
    ensures var y, more := Do(config, x, a), run + [a];
            id in y.requests ==> HistoryIs(y, id, ArrivalStep(more, id), EventsOf(more, id))
  {
    hide Do, ArrivalStep, EventsOf, RequestMetrics.Step, RequestMetrics.NewMetricState, IsMutation, Enabled;
    HistoryChange(config, x, a, id);
    OneMoreStep(run, a, id);
    ArriveIsNew(config, x, a);
    if id in x.requests && a.id == id {
      var events, added := EventsOf(run, id), NewEvents(a);
      if added == [] {
        assert events + added == events;
      } else {
        var arrived := ArrivalStep(run, id).value;
        assert added == [added[0]];
        OneMoreEvent(RequestMetrics.NewMetricState(arrived.lowerMethod, arrived.proto, arrived.isWatch), events, added[0]);
      }
    }
  }

  lemma ArriveIsNew(config: HandlerConfig, x: State, a: Action)
    requires Enabled(config, x, a)
    ensures a.Arrive? ==> a.id !in x.requests
    ensures a.Resolve? ==> a.id in x.requests
  {
  }

  /** The metric history of a request is the run of its own events. */
  lemma {:induction false} HistoryOfRequest(config: HandlerConfig, run: seq<Action>, id: nat)
    requires Possible(config, run)
    ensures id in After(config, run).requests ==> HistoryIs(After(config, run), id, ArrivalStep(run, id), EventsOf(run, id))
  {
    hide Do, Enabled, HistoryIs;
    if run != [] {
      var before, last := run[..|run| - 1], run[|run| - 1];
      HistoryOfRequest(config, before, id);
      HistoryMoves(config, After(config, before), last, before, id);
      assert run == before + [last];
    }
  }

  /** The labels of a request that ends with `status`, given how it arrived and what befell it. */
  ghost predicate Labels(attrs: RequestMetrics.RequestLabels, arrived: Action, events: seq<RequestMetrics.MetricEvent>, status: int)
    requires arrived.Arrive?
  {
    && (match RequestMetrics.LastInfo(events)
        case None =>
          && attrs.verb == OrElse(if arrived.isWatch then "watch" else arrived.lowerMethod, "unknown") && !attrs.audited
          && attrs.resourceGroup == attrs.apiVersion == attrs.resource == "unknown" && attrs.subresource == "none"
        case Some((info, _)) =>
          && attrs.verb == OrElse(info.verb, "unknown") && (attrs.audited <==> IsMutation(info))
          && attrs.resourceGroup == OrElse(info.apiGroup, "unknown") && attrs.apiVersion == OrElse(info.apiVersion, "unknown")
          && attrs.resource == OrElse(info.resource, "unknown") && attrs.subresource == OrElse(info.subresource, "none"))
    && (attrs.streaming <==> arrived.isWatch || RequestMetrics.EverStreaming(events))
    && attrs.statusClass == (if status <= 0 then "unknown" else Digits(status / 100) + "xx")
    && attrs.outcome == (if status == 0 then "unknown" else if status >= 500 then "error" else "ok")
    && StreamGauge.IsProtoLabel(attrs.inboundProto, arrived.proto)
    && (match RequestMetrics.LastBackendProto(events)
        case Some(proto) => StreamGauge.IsProtoLabel(attrs.backendProto, proto)
        case None => attrs.backendProto == "other")
  }

  function OrElse(value: string, otherwise: string): string {
    if value == "" then otherwise else value
  }

  /** The attributes a metric state gives are the labels its events call for. */
  lemma AttrsAreLabels(state: RequestMetrics.MetricState, arrived: Action, events: seq<RequestMetrics.MetricEvent>, status: int)
    requires arrived.Arrive?
    requires RequestMetrics.Tells(state, RequestMetrics.NewMetricState(arrived.lowerMethod, arrived.proto, arrived.isWatch), events)
    requires RequestMetrics.LastInfo(events).Some? ==>
               RequestMetrics.LastInfo(events).value.1 == IsMutation(RequestMetrics.LastInfo(events).value.0)
    ensures Labels(RequestAttrs(state.Labels(status)), arrived, events, status)
  {
    hide RequestMetrics.LastInfo, RequestMetrics.LastBackendProto, RequestMetrics.EverStreaming,
         StreamGauge.NormalizeProto, StreamGauge.IsProtoLabel, IsMutation, Digits;
    StreamGauge.ProtoLabels(state.inboundProto);
    StreamGauge.ProtoLabels(state.backendProto);
    UnknownIsOther();
  }

  lemma UnknownIsOther()
    ensures StreamGauge.NormalizeProto("unknown") == "other"
  {
    assert |"unknown"| == 7 && |"HTTP/2.0"| == |"HTTP/1.1"| == |"HTTP/1.0"| == 8;
  }

  predicate IsOwnEvent(e: RequestMetrics.MetricEvent) {
    e.SetRequestInfo? && e.info.Some? ==> e.audited == IsMutation(e.info.value)
  }

  lemma {:induction false} LastInfoIsOwn(events: seq<RequestMetrics.MetricEvent>)
    requires forall e :: e in events ==> IsOwnEvent(e)
    ensures RequestMetrics.LastInfo(events).Some? ==>
              RequestMetrics.LastInfo(events).value.1 == IsMutation(RequestMetrics.LastInfo(events).value.0)
  {
    hide IsMutation;
    if events != [] {
      LastInfoIsOwn(events[..|events| - 1]);
      assert IsOwnEvent(events[|events| - 1]);
    }
  }

  lemma NewEventsAreOwn(config: HandlerConfig, x: State, a: Action)
    requires Enabled(config, x, a)
    ensures forall e :: e in NewEvents(a) ==> IsOwnEvent(e)
  {
    hide IsMutation, RequestEnabled, JobEnabled;
  }

  lemma {:induction false} EventsAreOwn(config: HandlerConfig, run: seq<Action>, id: nat)
    requires Possible(config, run)
    ensures forall e :: e in EventsOf(run, id) ==> IsOwnEvent(e)
  {
    hide IsOwnEvent, NewEvents, Do, Enabled, EventsOf;
    if run == [] {
      assert EventsOf(run, id) == [] by { NoEvents(id); }
    } else {
      var before, last := run[..|run| - 1], run[|run| - 1];
      EventsAreOwn(config, before, id);
      assert run == before + [last];
      OneMoreStep(before, last, id);
      NewEventsAreOwn(config, After(config, before), last);
    }
  }

  lemma NoEvents(id: nat)
    ensures EventsOf([], id) == []
  {
  }

  /** The labels a request finishes with are those of its arrival, its resolution, its backend and its response; it keeps them. */
  lemma {:induction false} FinishedLabels(config: HandlerConfig, run: seq<Action>, f: nat, id: nat)
    requires Possible(config, run) && f < |run| && run[f] == Finish(id)
    ensures var x := After(config, run);
            && id in x.requests && x.requests[id].Finished?
            && var arrived := ArrivalStep(run[..f], id);
               arrived.Some? && arrived.value.Arrive?
               && Labels(x.requests[id].attrs, arrived.value, EventsOf(run[..f], id), x.requests[id].response.status)
  {
    hide Do, Enabled, Labels, RequestAttrs, EventsOf, ArrivalStep, IsMutation, RequestMetrics.Tells, RequestMetrics.LastInfo,
         RequestMetrics.NewMetricState, IsOwnEvent;
    var before, last := run[..|run| - 1], run[|run| - 1];
    if f == |run| - 1 {
      assert run[..f] == before;
      HistoryOfRequest(config, before, id);
      EventsAreOwn(config, before, id);
      var x := After(config, before);
      FinishLabels(config, x, id);
      var arrived, events := ArrivalStep(before, id).value, EventsOf(before, id);
      RequestMetrics.StateTellsEvents(RequestMetrics.NewMetricState(arrived.lowerMethod, arrived.proto, arrived.isWatch), events);
      LastInfoIsOwn(events);
      AttrsAreLabels(x.metrics[id].state, arrived, events, x.requests[id].response.status);
    } else {
      FinishedLabels(config, before, f, id);
      assert before[..f] == run[..f];
      PhaseChange(config, After(config, before), last);
    }
  }

  lemma FinishLabels(config: HandlerConfig, x: State, id: nat)
    requires Enabled(config, x, Finish(id))
    ensures id in x.requests && id in x.metrics && x.requests[id].Answered?
    ensures var y, response := Do(config, x, Finish(id)), x.requests[id].response;
            && id in y.requests && y.requests[id].Finished? && y.requests[id].response == response
            && y.requests[id].attrs == RequestAttrs(x.metrics[id].state.Labels(response.status))
  {
    hide RequestAttrs, Bump;
  }

  // ----- What the webhook answered

  /** How many steps of the run brought a sender this answer. */
  function Returns(run: seq<Action>, delivered: bool): nat {
    if run == [] then 0
    else
      var last := run[|run| - 1];
      Returns(run[..|run| - 1], delivered) + if last.SendReturns? && last.delivered == delivered then 1 else 0
  }

  /** How many steps of the run started a sender. */
  function Spawns(run: seq<Action>): nat {
    if run == [] then 0 else Spawns(run[..|run| - 1]) + if run[|run| - 1].Spawn? then 1 else 0
  }

  predicate GotAnswer(j: Job, delivered: bool) {
    j == Returned(delivered) || j == Counted(delivered) || j == Done(delivered)
  }

  ghost function AnsweredJobs(jobs: map<nat, Job>, delivered: bool): set<nat> {
    set id | id in jobs && GotAnswer(jobs[id], delivered)
  }

  lemma AnsweredUpdate(jobs: map<nat, Job>, id: nat, j: Job, delivered: bool)
    ensures |AnsweredJobs(jobs[id := j], delivered)| ==
            |AnsweredJobs(jobs, delivered)| - (if id in jobs && GotAnswer(jobs[id], delivered) then 1 else 0)
            + if GotAnswer(j, delivered) then 1 else 0
    ensures |jobs[id := j]| == |jobs| + if id in jobs then 0 else 1
  {
    hide GotAnswer;
    SizeUpdate(AnsweredJobs(jobs, delivered), AnsweredJobs(jobs[id := j], delivered), id);
    SizeUpdate(jobs.Keys, jobs[id := j].Keys, id);
    assert |jobs| == |jobs.Keys| && |jobs[id := j]| == |jobs[id := j].Keys|;
  }

  lemma JobStep(config: HandlerConfig, x: State, a: Action, delivered: bool)
    requires Sound(config, x) && Enabled(config, x, a)
    ensures var y := Do(config, x, a);
            && |y.jobs| == |x.jobs| + (if a.Spawn? then 1 else 0)
            && |AnsweredJobs(y.jobs, delivered)| ==
               |AnsweredJobs(x.jobs, delivered)| + if a.SendReturns? && a.delivered == delivered then 1 else 0
  {
    hide Do, Enabled, Sound, AnsweredJobs, Bump;
    if OnJob(a) || a.Spawn? {
      if a.Spawn? {
        SpawnIsNew(config, x, a);
      }
      JobChange(config, x, a);
      AnsweredUpdate(x.jobs, a.id, Do(config, x, a).jobs[a.id], delivered);
    } else {
      JobsUntouched(config, x, a);
    }
  }

  lemma {:induction false} StepsAreJobs(config: HandlerConfig, run: seq<Action>, delivered: bool)
    requires Possible(config, run)
    ensures |After(config, run).jobs| == Spawns(run)
    ensures |AnsweredJobs(After(config, run).jobs, delivered)| == Returns(run, delivered)
  {
    hide Do, Enabled, Sound;
    if run != [] {
      var before, last := run[..|run| - 1], run[|run| - 1];
      StepsAreJobs(config, before, delivered);
      RunsStaySound(config, before);
      JobStep(config, After(config, before), last, delivered);
    } else {
      assert AnsweredJobs(INIT.jobs, delivered) == {};
    }
  }

  /**
   At rest, the events built are the senders started, and the events sent and failed, and the deliveries timed as such, are the
   deliveries the webhook took and refused.
   */
  lemma CountersCountAnswers(config: HandlerConfig, run: seq<Action>)
    requires Possible(config, run)
    requires forall id :: id in After(config, run).jobs ==> After(config, run).jobs[id].Done?
    ensures var x := After(config, run);
            && Tally(x.auditEvents, Built) == Spawns(run) && Tally(x.auditEvents, BuildError) == 0
            && Tally(x.auditEvents, Sent) == Tally(x.deliveries, Sent) == Returns(run, true)
            && Tally(x.auditEvents, SendError) == Tally(x.deliveries, SendError) == Returns(run, false)
  {
    hide Possible, After, Tally;
    var x := After(config, run);
    QuiescentTotals(config, run);
    AuditConservation(config, run);
    RunsStayTallied(config, run);
    StepsAreJobs(config, run, true);
    StepsAreJobs(config, run, false);
    assert JobsIn(x.jobs, WasTimed(true)) == AnsweredJobs(x.jobs, true) && JobsIn(x.jobs, WasTimed(false)) == AnsweredJobs(x.jobs, false);
    assert JobsIn(x.jobs, WasSent(true)) == AnsweredJobs(x.jobs, true) && JobsIn(x.jobs, WasSent(false)) == AnsweredJobs(x.jobs, false);
    assert SendOutcome(true) == Sent && SendOutcome(false) == SendError;
  }
}
