/** The per-request metric state shared by the handler, the reverse-proxy hooks and the body observers. */
module RequestMetrics {
  import opened Bytes
  import opened AuditEvents
  import StreamGauge

  datatype RequestLabels = RequestLabels(
    verb: string, resourceGroup: string, apiVersion: string, resource: string, subresource: string,
    audited: bool, streaming: bool, statusClass: string, outcome: string, inboundProto: string, backendProto: string)

  datatype BackendLabels = BackendLabels(verb: string, streaming: bool, outcome: string, backendProto: string)

  /** The attribute set RecordBackendRoundTrip labels its sample with. */
  function BackendAttrs(labels: BackendLabels): BackendLabels {
    labels.(backendProto := StreamGauge.NormalizeProto(labels.backendProto))
  }

  /** The fields guarded by the mutex. */
  datatype MetricState = MetricState(
    verb: string, resourceGroup: string, apiVersion: string, resource: string, subresource: string,
    audited: bool, streaming: bool, inboundProto: string, backendProto: string, backendObserved: bool)
  {
    /** The attributes a round-trip sample decided now will carry. */
    function Backend(outcome: string): BackendLabels {
      BackendAttrs(BackendLabels(verb, streaming, outcome, backendProto))
    }

    function Labels(statusCode: int): RequestLabels {
      RequestLabels(verb, resourceGroup, apiVersion, resource, subresource, audited, streaming,
                    StatusClass(statusCode), RequestOutcome(statusCode), inboundProto, backendProto)
    }
  }

  function NewMetricState(lowerMethod: string, proto: string, isWatch: bool): MetricState {
    MetricState(if isWatch then "watch" else lowerMethod, "", "", "", "", false, isWatch, proto, "unknown", false)
  }

  function StatusClass(statusCode: int): string {
    if statusCode <= 0 then "unknown" else Digits(statusCode / 100) + "xx"
  }

  function RequestOutcome(statusCode: int): string {
    if statusCode == 0 then "unknown" else if statusCode >= 500 then "error" else "ok"
  }

  // ----- The locked sections, and the emission that follows one of them outside the lock

  datatype MetricEvent =
    | SetRequestInfo(info: Option<RequestInfo>, audited: bool)
    | SetBackend(proto: string, streaming: bool)
    | RecordRoundTrip(outcome: string)
    | EmitRoundTrip

  /** `pending` holds the samples decided under the lock and not yet emitted; `emitted` the histogram's samples. */
  datatype MetricHistory = MetricHistory(state: MetricState, pending: seq<BackendLabels>, emitted: seq<BackendLabels>)

  function Step(x: MetricHistory, e: MetricEvent): MetricHistory {
    match e
    case SetRequestInfo(None, _) => x
    case SetRequestInfo(Some(info), audited) =>
      x.(state := x.state.(
         verb := info.verb, resourceGroup := info.apiGroup, apiVersion := info.apiVersion,
         resource := info.resource, subresource := info.subresource, audited := audited,
         streaming := x.state.streaming || info.verb == "watch"))
    case SetBackend(proto, streaming) =>
      x.(state := x.state.(backendProto := proto, streaming := x.state.streaming || streaming))
    case RecordRoundTrip(outcome) =>
      if x.state.backendObserved then x
      else MetricHistory(x.state.(backendObserved := true), x.pending + [x.state.Backend(outcome)], x.emitted)
    case EmitRoundTrip =>
      if x.pending == [] then x else x.(pending := x.pending[1..], emitted := x.emitted + [x.pending[0]])
  }

  function Start(s: MetricState): MetricHistory {
    MetricHistory(s.(backendObserved := false), [], [])
  }

  function Run(s: MetricState, events: seq<MetricEvent>): MetricHistory {
    if events == [] then Start(s) else Step(Run(s, events[..|events| - 1]), events[|events| - 1])
  }

  /** The position of the first round-trip report, or the length if there is none. */
  function FirstReport(events: seq<MetricEvent>): (n: nat)
    ensures n <= |events|
    ensures forall i :: 0 <= i < n ==> !events[i].RecordRoundTrip?
    ensures n < |events| ==> events[n].RecordRoundTrip?
  {
    if events == [] then 0
    else
      var n := FirstReport(events[..|events| - 1]);
      if n < |events| - 1 then n else if events[|events| - 1].RecordRoundTrip? then |events| - 1 else |events|
  }

  lemma StepSamples(x: MetricHistory, e: MetricEvent)
    ensures Step(x, e).emitted + Step(x, e).pending ==
            (x.emitted + x.pending)
            + if e.RecordRoundTrip? && !x.state.backendObserved then [x.state.Backend(e.outcome)] else []
    ensures Step(x, e).state.backendObserved == (x.state.backendObserved || e.RecordRoundTrip?)
    ensures x.state.streaming ==> Step(x, e).state.streaming
  {
    if e.EmitRoundTrip? && x.pending != [] {
      assert (x.emitted + [x.pending[0]]) + x.pending[1..] == x.emitted + x.pending;
    }
    if e.RecordRoundTrip? && !x.state.backendObserved {
      var sample := x.state.Backend(e.outcome);
      assert x.emitted + (x.pending + [sample]) == (x.emitted + x.pending) + [sample];
    }
  }

  /**
   Over any interleaving, the samples decided are exactly one if a round trip was ever reported and none
   otherwise; the one sample has the first outcome reported and the labels of that moment. Once streaming, always streaming.
   */
  lemma {:induction false} OneSampleWithFirstOutcome(s: MetricState, events: seq<MetricEvent>)
    ensures var x, n := Run(s, events), FirstReport(events);
            && x.state.backendObserved == (n < |events|)
            && x.emitted + x.pending ==
               if n < |events| then [Run(s, events[..n]).state.Backend(events[n].outcome)] else []
    ensures s.streaming ==> Run(s, events).state.streaming
  {
    hide Step;
    if events != [] {
      var before, last := events[..|events| - 1], events[|events| - 1];
      OneSampleWithFirstOutcome(s, before);
      StepSamples(Run(s, before), last);
      if FirstReport(before) < |before| {
        assert events[..FirstReport(before)] == before[..FirstReport(before)];
      }
    }
  }

  /** Once streaming, always streaming: from any point of a run, whatever follows. */
  lemma {:induction false} StreamingNeverGoesBack(s: MetricState, before: seq<MetricEvent>, after: seq<MetricEvent>)
    requires Run(s, before).state.streaming
    ensures Run(s, before + after).state.streaming
  {
    hide Step;
    if after == [] {
      assert before + after == before;
    } else {
      var all, rest := before + after, after[..|after| - 1];
      StreamingNeverGoesBack(s, before, rest);
      assert all[..|all| - 1] == before + rest;
      StepSamples(Run(s, before + rest), all[|all| - 1]);
    }
  }

  // ----- What the labels say

  /** The last request info set, with whether its request is audited. */
  function LastInfo(events: seq<MetricEvent>): Option<(RequestInfo, bool)> {
    if events == [] then None
    else
      match events[|events| - 1]
      case SetRequestInfo(Some(info), audited) => Some((info, audited))
      case _ => LastInfo(events[..|events| - 1])
  }

  function LastBackendProto(events: seq<MetricEvent>): Option<string> {
    if events == [] then None
    else
      match events[|events| - 1]
      case SetBackend(proto, _) => Some(proto)
      case _ => LastBackendProto(events[..|events| - 1])
  }

  predicate SaysStreaming(e: MetricEvent) {
    || (e.SetRequestInfo? && e.info.Some? && e.info.value.verb == "watch")
    || (e.SetBackend? && e.streaming)
  }

  ghost predicate EverStreaming(events: seq<MetricEvent>) {
    exists e :: e in events && SaysStreaming(e)
  }

  /** Each field of the state is what the request began with until an event says otherwise. */
  ghost predicate Tells(s: MetricState, begun: MetricState, events: seq<MetricEvent>) {
    && (match LastInfo(events)
        case None =>
          && s.verb == begun.verb && s.audited == begun.audited
          && s.resourceGroup == begun.resourceGroup && s.apiVersion == begun.apiVersion
          && s.resource == begun.resource && s.subresource == begun.subresource
        case Some((info, audited)) =>
          && s.verb == info.verb && s.audited == audited
          && s.resourceGroup == info.apiGroup && s.apiVersion == info.apiVersion
          && s.resource == info.resource && s.subresource == info.subresource)
    && (s.streaming <==> begun.streaming || EverStreaming(events))
    && s.inboundProto == begun.inboundProto
    && s.backendProto == match LastBackendProto(events) case Some(proto) => proto case None => begun.backendProto
  }

  lemma OneMoreEvent(before: seq<MetricEvent>, last: MetricEvent)
    ensures LastInfo(before + [last]) ==
            if last.SetRequestInfo? && last.info.Some? then Some((last.info.value, last.audited)) else LastInfo(before)
    ensures LastBackendProto(before + [last]) == if last.SetBackend? then Some(last.proto) else LastBackendProto(before)
    ensures EverStreaming(before + [last]) <==> EverStreaming(before) || SaysStreaming(last)
  {
    hide SaysStreaming;
    var events := before + [last];
    assert events[..|events| - 1] == before && events[|events| - 1] == last;
    assert last in events && forall e :: e in before ==> e in events;
  }

  lemma TellsStep(x: MetricHistory, begun: MetricState, before: seq<MetricEvent>, last: MetricEvent)
    requires Tells(x.state, begun, before)
    ensures Tells(Step(x, last).state, begun, before + [last])
  {
    hide LastInfo, LastBackendProto, EverStreaming;
    OneMoreEvent(before, last);
  }

  /** Over any interleaving the state tells what the events said. */
  lemma {:induction false} StateTellsEvents(s: MetricState, events: seq<MetricEvent>)
    ensures Tells(Run(s, events).state, s, events)
  {
    if events == [] {
      assert !EverStreaming(events);
    } else {
      var before, last := events[..|events| - 1], events[|events| - 1];
      StateTellsEvents(s, before);
      assert Run(s, events) == Step(Run(s, before), last);
      hide Step, Tells, Run;
      TellsStep(Run(s, before), s, before, last);
      assert events == before + [last];
    }
  }

  /** The labels of a sample decided after `events`: the verb and streaming flag of that moment, and the backend's protocol if known. */
  ghost predicate SampleTells(sample: BackendLabels, begun: MetricState, events: seq<MetricEvent>, outcome: string) {
    && sample.verb == (match LastInfo(events) case Some((info, _)) => info.verb case None => begun.verb)
    && (sample.streaming <==> begun.streaming || EverStreaming(events))
    && sample.outcome == outcome
    && StreamGauge.IsProtoLabel(sample.backendProto,
                                match LastBackendProto(events) case Some(proto) => proto case None => begun.backendProto)
  }

  /** Over any interleaving, the samples are none, or one that tells of the events before the first report. */
  lemma SamplesTellEvents(s: MetricState, events: seq<MetricEvent>)
    ensures var samples, n := Run(s, events).emitted + Run(s, events).pending, FirstReport(events);
            if forall e :: e in events ==> !e.RecordRoundTrip? then samples == []
            else |samples| == 1 && n < |events| && SampleTells(samples[0], s, events[..n], events[n].outcome)
  {
    hide Run, LastInfo, LastBackendProto, EverStreaming, StreamGauge.NormalizeProto, StreamGauge.IsProtoLabel, FirstReport;
    OneSampleWithFirstOutcome(s, events);
    var n := FirstReport(events);
    if n < |events| {
      assert events[n] in events && events[n].RecordRoundTrip?;
      StateTellsEvents(s, events[..n]);
      StreamGauge.ProtoLabels(Run(s, events[..n]).state.backendProto);
    }
  }

  // ----- The state object

  class BackendRoundTrips {
    var samples: seq<BackendLabels>

    constructor ()
      ensures samples == []
    {
      samples := [];
    }

    method Record(labels: BackendLabels)
      modifies this
      ensures samples == old(samples) + [BackendAttrs(labels)]
    {
      samples := samples + [BackendLabels(labels.verb, labels.streaming, labels.outcome, StreamGauge.NormalizeProto(labels.backendProto))];
    }
  }

  class RequestMetricState {
    var fields: MetricState

    constructor (lowerMethod: string, proto: string, isWatch: bool)
      ensures fields == NewMetricState(lowerMethod, proto, isWatch)
    {
      fields := MetricState(if isWatch then "watch" else lowerMethod, "", "", "", "", false, isWatch, proto, "unknown", false);
    }

    method SetRequestInfo(info: Option<RequestInfo>, audited: bool)
      modifies this
      ensures fields == Step(MetricHistory(old(fields), [], []), MetricEvent.SetRequestInfo(info, audited)).state
    {
      if info.None? {
        return;
      }
      var i := info.value;
      fields := fields.(verb := i.verb, resourceGroup := i.apiGroup, apiVersion := i.apiVersion,
                        resource := i.resource, subresource := i.subresource, audited := audited);
      if i.verb == "watch" {
        fields := fields.(streaming := true);
      }
    }

    method SetBackend(proto: string, streaming: bool)
      modifies this
      ensures fields == Step(MetricHistory(old(fields), [], []), MetricEvent.SetBackend(proto, streaming)).state
    {
      fields := fields.(backendProto := proto);
      if streaming {
        fields := fields.(streaming := true);
      }
    }

    /** Run without interference: the locked decision, then the emission. */
    method RecordBackendRoundTrip(histogram: BackendRoundTrips, outcome: string)
      modifies this, histogram
      ensures var x := Step(Step(MetricHistory(old(fields), [], old(histogram.samples)), RecordRoundTrip(outcome)), EmitRoundTrip);
              x == MetricHistory(fields, [], histogram.samples)
    {
      if fields.backendObserved {
        return;
      }
      fields := fields.(backendObserved := true);
      histogram.Record(BackendLabels(fields.verb, fields.streaming, outcome, fields.backendProto));
    }
  }

  /** The state after the reverse proxy has a response, its one sample decided and emitted. */
  function AfterResponse(x: MetricHistory, proto: string, streaming: bool): MetricHistory {
    Step(Step(Step(x, MetricEvent.SetBackend(proto, streaming)), RecordRoundTrip("ok")), EmitRoundTrip)
  }

  /** The label a stream is counted under. */
  function StreamKind(s: MetricState): string {
    if s.verb == "watch" || s.streaming then "watch" else "response"
  }

  /**
   The reverse proxy's response hook. A stream is opened exactly for a streaming response that does not switch
   protocols, and every stream is counted as a watch.
   */
  method ObservePassthroughResponse(state: RequestMetricState, histogram: BackendRoundTrips, telemetry: StreamGauge.Telemetry,
                                    proto: string, isWatchStream: bool, status: int)
    returns (stream: StreamGauge.ObservedReadCloser?)
    modifies state, histogram, telemetry
    ensures var streaming := isWatchStream || old(state.fields).streaming;
            && AfterResponse(MetricHistory(old(state.fields), [], old(histogram.samples)), proto, streaming)
               == MetricHistory(state.fields, [], histogram.samples)
            && (stream != null <==> streaming && status != 101)
    ensures state.fields == old(state.fields).(backendProto := proto, backendObserved := true,
                                               streaming := isWatchStream || old(state.fields).streaming)
    ensures if old(state.fields).backendObserved then histogram.samples == old(histogram.samples)
            else
              && |histogram.samples| == |old(histogram.samples)| + 1 && old(histogram.samples) <= histogram.samples
              && var sample := histogram.samples[|old(histogram.samples)|];
                 && sample.verb == old(state.fields).verb && sample.streaming == state.fields.streaming
                 && sample.outcome == "ok" && StreamGauge.IsProtoLabel(sample.backendProto, proto)
    ensures stream == null ==> telemetry.metrics == old(telemetry.metrics)
    ensures stream != null ==>
              && fresh(stream) && stream.Valid() && stream.telemetry == telemetry
              && stream.labels == StreamGauge.StreamLabels("watch", "", old(state.fields).inboundProto, proto)
              && telemetry.metrics == old(telemetry.metrics).Started(stream.labels)
  {
    var streaming := isWatchStream || state.fields.streaming;
    StreamGauge.ProtoLabels(proto);
    state.SetBackend(proto, streaming);
    state.RecordBackendRoundTrip(histogram, "ok");
    if status == 101 || !streaming {
      return null;
    }
    stream := new StreamGauge.ObservedReadCloser(
      telemetry, StreamGauge.StreamLabels(StreamKind(state.fields), "", state.fields.inboundProto, proto));
  }
}
