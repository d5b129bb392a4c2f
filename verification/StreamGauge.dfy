/** The active-stream gauge and the stream-duration histogram, over any interleaving of streams. */
module StreamGauge {
  import opened Bytes

  // ----- Labels

  datatype StreamLabels = StreamLabels(kind: string, outcome: string, inboundProto: string, backendProto: string)

  function EmptyToUnknown(value: string): string {
    if value == "" then "unknown" else value
  }

  function NormalizeProto(proto: string): string {
    if proto == "HTTP/2.0" || proto == "h2" || proto == "http2" then "http2"
    else if proto == "HTTP/1.1" || proto == "HTTP/1.0" || proto == "http1" then "http1"
    else if proto == "" then "unknown"
    else "other"
  }

  function StreamAttrs(labels: StreamLabels): StreamLabels {
    StreamLabels(EmptyToUnknown(labels.kind), EmptyToUnknown(labels.outcome),
                 NormalizeProto(labels.inboundProto), NormalizeProto(labels.backendProto))
  }

  /** Two labels for the spellings of HTTP/2 and HTTP/1, one for no protocol, one for all others. */
  predicate IsProtoLabel(shown: string, proto: string) {
    if proto in ["HTTP/2.0", "h2", "http2"] then shown == "http2"
    else if proto in ["HTTP/1.1", "HTTP/1.0", "http1"] then shown == "http1"
    else if proto == "" then shown == "unknown"
    else shown == "other"
  }

  lemma ProtoLabels(proto: string)
    ensures IsProtoLabel(NormalizeProto(proto), proto)
  {
  }

  datatype Outcome = BackendClose | ReadError | ClientCancel
  {
    function Name(): string {
      match this
      case BackendClose => "backend_close"
      case ReadError => "read_error"
      case ClientCancel => "client_cancel"
    }
  }

  // ----- Instruments

  datatype Metrics = Metrics(active: map<StreamLabels, int>, durations: map<StreamLabels, nat>)
  {
    function Active(attrs: StreamLabels): int {
      if attrs in active then active[attrs] else 0
    }

    function Samples(attrs: StreamLabels): nat {
      if attrs in durations then durations[attrs] else 0
    }

    /** StreamStarted. */
    function Started(labels: StreamLabels): Metrics {
      var attrs := StreamAttrs(labels);
      this.(active := active[attrs := Active(attrs) + 1])
    }

    /** The closure StreamStarted returns. */
    function Done(labels: StreamLabels, outcome: Outcome): Metrics {
      var attrs := StreamAttrs(labels);
      var ended := StreamAttrs(labels.(outcome := outcome.Name()));
      Metrics(active[attrs := Active(attrs) - 1], durations[ended := Samples(ended) + 1])
    }
  }

  class Telemetry {
    var metrics: Metrics

    constructor ()
      ensures metrics == Metrics(map[], map[])
    {
      metrics := Metrics(map[], map[]);
    }

    method StreamStarted(labels: StreamLabels)
      modifies this
      ensures metrics == old(metrics).Started(labels)
    {
      var attrs := StreamAttrs(labels);
      metrics := metrics.(active := metrics.active[attrs := metrics.Active(attrs) + 1]);
    }

    method StreamDone(labels: StreamLabels, outcome: Outcome)
      modifies this
      ensures metrics == old(metrics).Done(labels, outcome)
    {
      var attrs := StreamAttrs(labels);
      metrics := metrics.(active := metrics.active[attrs := metrics.Active(attrs) - 1]);
      var ended := StreamAttrs(labels.(outcome := outcome.Name()));
      metrics := metrics.(durations := metrics.durations[ended := metrics.Samples(ended) + 1]);
    }
  }

  // ----- One observed stream

  /** What a read of the wrapped body can report. */
  datatype ReadReport = NoError | Eof | OtherError

  /** A stream as its observer sees it; `ended` is None as long as onClose is still set. */
  datatype Stream = Stream(labels: StreamLabels, ended: Option<Outcome>)

  datatype Event = Start(id: nat, labels: StreamLabels) | Read(id: nat, error: ReadReport) | Close(id: nat)

  /** The outcome an event would give a stream that has not ended, if it is terminal. */
  function Terminal(e: Event): Option<Outcome> {
    match e
    case Start(_, _) => None
    case Read(_, NoError) => None
    case Read(_, Eof) => Some(BackendClose)
    case Read(_, OtherError) => Some(ReadError)
    case Close(_) => Some(ClientCancel)
  }

  class ObservedReadCloser {
    const telemetry: Telemetry
    const labels: StreamLabels
    var onClose: bool
    var ended: Option<Outcome>

    predicate Valid()
      reads this
    {
      onClose <==> ended.None?
    }

    constructor (telemetry: Telemetry, labels: StreamLabels)
      modifies telemetry
      ensures Valid() && this.telemetry == telemetry && this.labels == labels && ended.None?
      ensures telemetry.metrics == old(telemetry.metrics).Started(labels)
    {
      this.telemetry := telemetry;
      this.labels := labels;
      onClose := true;
      ended := None;
      new;
      telemetry.StreamStarted(labels);
    }

    /** `error` is what the wrapped Read reported. */
    method Read(error: ReadReport)
      requires Valid()
      modifies this, telemetry
      ensures Valid()
      ensures Stream(labels, ended) == Observed(Stream(labels, old(ended)), Event.Read(0, error))
      ensures telemetry.metrics == Measured(old(telemetry.metrics), Stream(labels, old(ended)), Event.Read(0, error))
    {
      if error != NoError && onClose {
        var outcome := if error == Eof then BackendClose else ReadError;
        telemetry.StreamDone(labels, outcome);
        onClose, ended := false, Some(outcome);
      }
    }

    method Close()
      requires Valid()
      modifies this, telemetry
      ensures Valid()
      ensures Stream(labels, ended) == Observed(Stream(labels, old(ended)), Event.Close(0))
      ensures telemetry.metrics == Measured(old(telemetry.metrics), Stream(labels, old(ended)), Event.Close(0))
    {
      if onClose {
        telemetry.StreamDone(labels, ClientCancel);
        onClose, ended := false, Some(ClientCancel);
      }
    }
  }

  /** The stream after an event of its own. */
  function Observed(s: Stream, e: Event): Stream {
    if s.ended.None? then s.(ended := Terminal(e)) else s
  }

  /** The instruments after an event of the stream. */
  function Measured(m: Metrics, s: Stream, e: Event): Metrics {
    if s.ended.None? && Terminal(e).Some? then m.Done(s.labels, Terminal(e).value) else m
  }

  // ----- Many streams

  datatype World = World(metrics: Metrics, streams: map<nat, Stream>)

  const INIT := World(Metrics(map[], map[]), map[])

  /** Streams start without an outcome label; reads and closes are on streams that exist. */
  predicate Enabled(w: World, e: Event) {
    match e
    case Start(id, labels) => id !in w.streams && labels.outcome == ""
    case Read(id, _) => id in w.streams
    case Close(id) => id in w.streams
  }

  function Do(w: World, e: Event): World
    requires Enabled(w, e)
  {
    match e
    case Start(id, labels) => World(w.metrics.Started(labels), w.streams[id := Stream(labels, None)])
    case _ => World(Measured(w.metrics, w.streams[e.id], e), w.streams[e.id := Observed(w.streams[e.id], e)])
  }

  ghost predicate Possible(run: seq<Event>)
    decreases |run|, 0
  {
    run == [] || (Possible(run[..|run| - 1]) && Enabled(After(run[..|run| - 1]), run[|run| - 1]))
  }

  ghost function After(run: seq<Event>): World
    requires Possible(run)
    decreases |run|, 1
  {
    if run == [] then INIT else Do(After(run[..|run| - 1]), run[|run| - 1])
  }

  predicate IsAt(s: Stream, attrs: StreamLabels, ended: Option<Outcome>) {
    StreamAttrs(s.labels) == attrs && s.ended == ended
  }

  /** The streams started under `attrs` whose current end is `ended`. */
  ghost function StreamsAt(streams: map<nat, Stream>, attrs: StreamLabels, ended: Option<Outcome>): set<nat> {
    set id | id in streams && IsAt(streams[id], attrs, ended)
  }

  ghost function StartedAt(streams: map<nat, Stream>, attrs: StreamLabels): set<nat> {
    set id | id in streams && StreamAttrs(streams[id].labels) == attrs
  }

  /** Every gauge value and every sample count is the size of a set of streams. */
  ghost predicate Exact(w: World) {
    && (forall id :: id in w.streams ==> w.streams[id].labels.outcome == "")
    && (forall attrs :: w.metrics.Active(attrs) == |StreamsAt(w.streams, attrs, None)|)
    && (forall attrs: StreamLabels, outcome: Outcome :: attrs.outcome == "unknown" ==>
          w.metrics.Samples(attrs.(outcome := outcome.Name())) == |StreamsAt(w.streams, attrs, Some(outcome))|)
  }

  lemma StreamsAtUpdate(streams: map<nat, Stream>, id: nat, s: Stream, attrs: StreamLabels, ended: Option<Outcome>)
    ensures |StreamsAt(streams[id := s], attrs, ended)| ==
            |StreamsAt(streams, attrs, ended)|
            - (if id in streams && IsAt(streams[id], attrs, ended) then 1 else 0)
            + (if IsAt(s, attrs, ended) then 1 else 0)
  {
    hide IsAt;
    SizeUpdate(StreamsAt(streams, attrs, ended), StreamsAt(streams[id := s], attrs, ended), id);
  }

  lemma OutcomeLabels(labels: StreamLabels, attrs: StreamLabels, o1: Outcome, o2: Outcome)
    requires labels.outcome == "" && attrs.outcome == "unknown"
    ensures StreamAttrs(labels.(outcome := o1.Name())) == attrs.(outcome := o2.Name())
            <==> StreamAttrs(labels) == attrs && o1 == o2
  {
    assert BackendClose.Name()[0] == 'b' && ReadError.Name()[0] == 'r' && ClientCancel.Name()[0] == 'c';
  }

  lemma ExactStep(w: World, e: Event)
    requires Exact(w) && Enabled(w, e)
    ensures Exact(Do(w, e))
  {
    hide StreamAttrs, Outcome.Name;
    var w' := Do(w, e);
    var s := w'.streams[e.id];
    forall attrs ensures w'.metrics.Active(attrs) == |StreamsAt(w'.streams, attrs, None)| {
      StreamsAtUpdate(w.streams, e.id, s, attrs, None);
    }
    forall attrs: StreamLabels, outcome: Outcome | attrs.outcome == "unknown"
      ensures w'.metrics.Samples(attrs.(outcome := outcome.Name())) == |StreamsAt(w'.streams, attrs, Some(outcome))|
    {
      StreamsAtUpdate(w.streams, e.id, s, attrs, Some(outcome));
      if !e.Start? && Terminal(e).Some? {
        OutcomeLabels(s.labels, attrs, Terminal(e).value, outcome);
      }
    }
  }

  lemma {:induction false} StreamGaugeIsExact(run: seq<Event>)
    requires Possible(run)
    ensures Exact(After(run))
  {
    if run != [] {
      StreamGaugeIsExact(run[..|run| - 1]);
      ExactStep(After(run[..|run| - 1]), run[|run| - 1]);
    }
  }

  /** A stream started under `attrs` is at exactly one of the four ends. */
  lemma AtOneEnd(s: Stream, attrs: StreamLabels)
    ensures StreamAttrs(s.labels) == attrs <==>
            || IsAt(s, attrs, None) || IsAt(s, attrs, Some(BackendClose))
            || IsAt(s, attrs, Some(ReadError)) || IsAt(s, attrs, Some(ClientCancel))
    ensures forall o, p :: IsAt(s, attrs, o) && IsAt(s, attrs, p) ==> o == p
  {
    hide StreamAttrs;
    match s.ended
    case None =>
    case Some(BackendClose) =>
    case Some(ReadError) =>
    case Some(ClientCancel) =>
  }

  lemma StartedSplits(streams: map<nat, Stream>, attrs: StreamLabels)
    ensures |StartedAt(streams, attrs)| ==
            |StreamsAt(streams, attrs, None)| + |StreamsAt(streams, attrs, Some(BackendClose))|
            + |StreamsAt(streams, attrs, Some(ReadError))| + |StreamsAt(streams, attrs, Some(ClientCancel))|
  {
    hide StreamAttrs, IsAt;
    var open, closed := StreamsAt(streams, attrs, None), StreamsAt(streams, attrs, Some(BackendClose));
    var failed, cancelled := StreamsAt(streams, attrs, Some(ReadError)), StreamsAt(streams, attrs, Some(ClientCancel));
    forall id | id in streams
      ensures id in StartedAt(streams, attrs) <==> id in open || id in closed || id in failed || id in cancelled
      ensures !(id in open && id in closed) && !(id in failed && id in cancelled)
      ensures (id in open || id in closed) ==> !(id in failed || id in cancelled)
    {
      AtOneEnd(streams[id], attrs);
    }
    PartitionSize(StartedAt(streams, attrs), open + closed, failed, cancelled);
    assert open !! closed;
    assert |open + closed| == |open| + |closed|;
  }

  /** Under every label set, streams started are those active plus those ended, over the three outcomes. */
  lemma StartedIsActivePlusEnded(run: seq<Event>, attrs: StreamLabels)
    requires Possible(run) && attrs.outcome == "unknown"
    ensures var w := After(run);
            |StartedAt(w.streams, attrs)| ==
            w.metrics.Active(attrs)
            + w.metrics.Samples(attrs.(outcome := BackendClose.Name()))
            + w.metrics.Samples(attrs.(outcome := ReadError.Name()))
            + w.metrics.Samples(attrs.(outcome := ClientCancel.Name()))
  {
    hide StreamAttrs, Outcome.Name;
    StreamGaugeIsExact(run);
    StartedSplits(After(run).streams, attrs);
  }

  /** The outcome of the first terminal event of stream `id` in the run. */
  function FirstEnd(run: seq<Event>, id: nat): Option<Outcome> {
    if run == [] then None
    else
      var earlier := FirstEnd(run[..|run| - 1], id);
      if earlier.Some? || run[|run| - 1].id != id then earlier else Terminal(run[|run| - 1])
  }

  lemma {:induction false} NoEventBeforeStart(run: seq<Event>, id: nat)
    requires Possible(run) && id !in After(run).streams
    ensures FirstEnd(run, id) == None
  {
    if run != [] {
      NoEventBeforeStart(run[..|run| - 1], id);
    }
  }

  /** A stream ends at most once, with the outcome of its first terminal event; later events change nothing. */
  lemma {:induction false} FirstTerminalEventDecides(run: seq<Event>, id: nat)
    requires Possible(run) && id in After(run).streams
    ensures After(run).streams[id].ended == FirstEnd(run, id)
    ensures forall e :: Enabled(After(run), e) && e.id == id && FirstEnd(run, id).Some? ==> Do(After(run), e) == After(run)
  {
    var before, last := run[..|run| - 1], run[|run| - 1];
    if id in After(before).streams {
      FirstTerminalEventDecides(before, id);
    } else {
      NoEventBeforeStart(before, id);
    }
    forall e | Enabled(After(run), e) && e.id == id && FirstEnd(run, id).Some? ensures Do(After(run), e) == After(run) {
      assert After(run).streams[id := After(run).streams[id]] == After(run).streams;
    }
  }

  // ----- The same by name

  /** The name of the end an event brings to a stream that has not ended, if it brings any. */
  function EndName(e: Event): Option<string> {
    match e
    case Read(_, Eof) => Some("backend_close")
    case Read(_, OtherError) => Some("read_error")
    case Close(_) => Some("client_cancel")
    case Read(_, NoError) => None
    case Start(_, _) => None
  }

  /** Step `i` is the first that ends stream `id`. */
  predicate EndsAt(run: seq<Event>, id: nat, i: nat, name: string) {
    && i < |run| && run[i].id == id && EndName(run[i]) == Some(name)
    && forall j :: 0 <= j < i && run[j].id == id ==> EndName(run[j]) == None
  }

  ghost predicate EndedBy(run: seq<Event>, id: nat, name: string) {
    exists i :: EndsAt(run, id, i, name)
  }

  lemma EndsAtPrefix(before: seq<Event>, last: Event, id: nat, i: nat, name: string)
    ensures EndsAt(before, id, i, name) ==> EndsAt(before + [last], id, i, name)
    ensures i < |before| && EndsAt(before + [last], id, i, name) ==> EndsAt(before, id, i, name)
  {
    assert forall j :: 0 <= j < |before| ==> (before + [last])[j] == before[j];
  }

  lemma {:induction false} FirstEndIsNamed(run: seq<Event>, id: nat)
    ensures FirstEnd(run, id) == None <==> NothingEnds(run, id)
    ensures FirstEnd(run, id).Some? ==> EndedBy(run, id, FirstEnd(run, id).value.Name())
  {
    if run != [] {
      var before, last := run[..|run| - 1], run[|run| - 1];
      FirstEndIsNamed(before, id);
      assert run == before + [last];
      assert NothingEnds(run, id) <==> NothingEnds(before, id) && (last.id == id ==> EndName(last) == None) by {
        assert forall j :: 0 <= j < |before| ==> run[j] == before[j];
      }
      if FirstEnd(before, id).Some? {
        var i :| EndsAt(before, id, i, FirstEnd(before, id).value.Name());
        EndsAtPrefix(before, last, id, i, FirstEnd(before, id).value.Name());
      } else if FirstEnd(run, id).Some? {
        assert EndsAt(run, id, |run| - 1, FirstEnd(run, id).value.Name());
      }
    }
  }

  lemma OneEnd(run: seq<Event>, id: nat, a: string, b: string)
    requires EndedBy(run, id, a) && EndedBy(run, id, b)
    ensures a == b
  {
    var i :| EndsAt(run, id, i, a);
    var j :| EndsAt(run, id, j, b);
  }

  ghost function EndedUnder(run: seq<Event>, attrs: StreamLabels, name: string): set<nat>
    requires Possible(run)
  {
    set id | id in After(run).streams && StreamAttrs(After(run).streams[id].labels) == attrs && EndedBy(run, id, name)
  }

  predicate NothingEnds(run: seq<Event>, id: nat) {
    forall j :: 0 <= j < |run| && run[j].id == id ==> EndName(run[j]) == None
  }

  ghost function NotEnded(run: seq<Event>, attrs: StreamLabels): set<nat>
    requires Possible(run)
  {
    set id | id in After(run).streams && StreamAttrs(After(run).streams[id].labels) == attrs && NothingEnds(run, id)
  }

  lemma EndedEnds(run: seq<Event>, id: nat, name: string)
    requires EndedBy(run, id, name)
    ensures !NothingEnds(run, id)
  {
    var i: nat :| EndsAt(run, id, i, name);
    assert EndName(run[i]).Some?;
  }

  lemma NamesAreApart(a: Outcome, b: Outcome)
    requires a.Name() == b.Name()
    ensures a == b
  {
    assert BackendClose.Name()[0] == 'b' && ReadError.Name()[0] == 'r' && ClientCancel.Name()[0] == 'c';
  }

  lemma EndIsNamed(run: seq<Event>, id: nat, outcome: Outcome)
    requires Possible(run) && id in After(run).streams
    ensures After(run).streams[id].ended == Some(outcome) <==> EndedBy(run, id, outcome.Name())
  {
    hide Outcome.Name, EndedBy, NothingEnds, Possible, After;
    FirstTerminalEventDecides(run, id);
    FirstEndIsNamed(run, id);
    if EndedBy(run, id, outcome.Name()) {
      EndedEnds(run, id, outcome.Name());
      var ended := FirstEnd(run, id).value;
      OneEnd(run, id, outcome.Name(), ended.Name());
      NamesAreApart(outcome, ended);
    }
  }

  /**
   Over every run, a duration is sampled under "backend_close" for each stream that first met EOF, under "read_error" for each that
   first met another error, and under "client_cancel" for each that was closed first; the gauge counts those that met none.
   */
  lemma SamplesCountEnds(run: seq<Event>, attrs: StreamLabels)
    requires Possible(run) && attrs.outcome == "unknown"
    ensures forall name :: name in ["backend_close", "read_error", "client_cancel"] ==>
              After(run).metrics.Samples(attrs.(outcome := name)) == |EndedUnder(run, attrs, name)|
    ensures After(run).metrics.Active(attrs) == |NotEnded(run, attrs)|
  {
    hide StreamAttrs, Possible, After;
    StreamGaugeIsExact(run);
    SamplesOf(run, attrs, BackendClose);
    SamplesOf(run, attrs, ReadError);
    SamplesOf(run, attrs, ClientCancel);
    forall id | id in After(run).streams ensures id in NotEnded(run, attrs) <==> id in StreamsAt(After(run).streams, attrs, None) {
      FirstTerminalEventDecides(run, id);
      FirstEndIsNamed(run, id);
    }
    assert NotEnded(run, attrs) == StreamsAt(After(run).streams, attrs, None);
  }

  lemma SamplesOf(run: seq<Event>, attrs: StreamLabels, outcome: Outcome)
    requires Possible(run) && attrs.outcome == "unknown" && Exact(After(run))
    ensures After(run).metrics.Samples(attrs.(outcome := outcome.Name())) == |EndedUnder(run, attrs, outcome.Name())|
  {
    hide StreamAttrs, Outcome.Name, Possible, After, EndedBy;
    forall id | id in After(run).streams
      ensures After(run).streams[id].ended == Some(outcome) <==> EndedBy(run, id, outcome.Name())
    {
      EndIsNamed(run, id, outcome);
    }
    assert EndedUnder(run, attrs, outcome.Name()) == StreamsAt(After(run).streams, attrs, Some(outcome));
  }

  /** A stream is counted under its kind and the protocols of its two connections. */
  lemma StreamAttrsSay(labels: StreamLabels)
    ensures var attrs := StreamAttrs(labels);
            && (labels.kind != "" ==> attrs.kind == labels.kind) && (labels.outcome != "" ==> attrs.outcome == labels.outcome)
            && (labels.kind == "" ==> attrs.kind == "unknown") && (labels.outcome == "" ==> attrs.outcome == "unknown")
            && IsProtoLabel(attrs.inboundProto, labels.inboundProto) && IsProtoLabel(attrs.backendProto, labels.backendProto)
  {
    ProtoLabels(labels.inboundProto);
    ProtoLabels(labels.backendProto);
  }
}
