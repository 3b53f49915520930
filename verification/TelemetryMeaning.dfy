/** What every number of the telemetry counts, told from the samples themselves. */
module TelemetryMeaning {
  import opened Options
  import opened Telemetry
  import opened TelemetrySamples
  import opened TelemetryFlush

  function One(b: bool): real {
    if b then 1.0 else 0.0
  }

  function Positive(n: int): real {
    if n > 0 then n as real else 0.0
  }

  /** A measurement is no less than zero; layout shifts are measured in thousandths. */
  function Measured(value: real, layoutShift: bool): real {
    if value <= 0.0 then 0.0 else if layoutShift then 1000.0 * value else value
  }

  /** A value belongs to the least bound it does not exceed, or to none of them. */
  ghost predicate Falls(v: real, bounds: seq<nat>, k: Key) {
    match k
    case AtMost(b) => b in bounds && v <= b as real && forall c :: c in bounds && c < b ==> c as real < v
    case Unbounded => forall c :: c in bounds ==> c as real < v
    case _ => false
  }

  /** The path is the slot of a histogram that a value falls into. */
  ghost predicate InSlot(q: Path, hist: Path, v: real, bounds: seq<nat>) {
    q != [] && q[..|q| - 1] == hist && Falls(v, bounds, q[|q| - 1])
  }

  // ---- What a sample adds to the counter at a path. Each term is about its own path.

  /** To the row of a route or of a release. */
  ghost function TrafficAdds(row: Path, status: int, latency: real, q: Path): real {
    One(q == row + [Requests]) + One(q == row + [Errors5xx] && 500 <= status <= 599)
    + One(InSlot(q, row + [LatencyHist], latency, LATENCY_BOUNDS))
  }

  ghost function HttpAdds(route: Utf8Bytes, status: int, latency: real, client: Option<Utf8Bytes>, q: Path): real {
    One(q == [Http, Samples])
    + One(q == [Http, Status2xx] && 200 <= status <= 299)
    + One(q == [Http, Status4xx] && 400 <= status <= 499)
    + One(q == [Http, Status5xx] && 500 <= status <= 599)
    + One(InSlot(q, [Http, LatencyHist], latency, LATENCY_BOUNDS))
    + TrafficAdds([Http, Routes, Label(route)], status, latency, q)
    + if client.Some? then TrafficAdds([Http, Releases, Label(client.value)], status, latency, q) else 0.0
  }

  ghost function ChannelAdds(row: Path, cloudflare: bool, latency: real, reason: Utf8Bytes, q: Path): real {
    One(q == row + [Samples])
    + One(q == row + [Cloudflare] && cloudflare)
    + One(q == row + [Local] && !cloudflare)
    + One(InSlot(q, row + [LatencyHist], latency, LATENCY_BOUNDS))
    + One(q == row + [Reasons, Label(reason)])
  }

  ghost function AiAdds(s: Sample, latency: real, q: Path): real
    requires s.AiSample?
  {
    One(q == [Ai, Samples])
    + One(q == [Ai, Cloudflare] && s.cloudflare)
    + One(q == [Ai, Local] && !s.cloudflare)
    + One(InSlot(q, [Ai, LatencyHist], latency, LATENCY_BOUNDS))
    + (if q == [Ai, InputTokens] then Positive(s.input) else 0.0)
    + (if q == [Ai, OutputTokens] then Positive(s.output) else 0.0)
    + One(q == [Ai, Reasons, Label(s.reason)])
    + One(q == [Ai, EventTypes, Label(s.eventType)])
    + One(q == [Ai, RequestKinds, Label(s.kind)])
    + One(s.model.Some? && q == [Ai, Models, Label(s.model.value)])
    + One(s.workerError.Some? && q == [Ai, WorkerErrors, Label(s.workerError.value)])
    + ChannelAdds([Ai, Channels, Label(s.channel)], s.cloudflare, latency, s.reason, q)
  }

  ghost function PresenceAdds(online: int, q: Path): real {
    One(q == [Presence, Samples]) + if q == [Presence, OnlineSum] then Positive(online) else 0.0
  }

  ghost function MetricAdds(row: Path, v: real, layoutShift: bool, q: Path): real {
    One(q == row + [Samples]) + One(InSlot(q, row + [Hist], v, if layoutShift then SHIFT_BOUNDS else FRONTEND_BOUNDS))
  }

  predicate HasMetric(s: Sample) {
    s.FrontendSample? && s.vital && s.metric.Some? && s.value.Some?
  }

  ghost function FrontendAdds(s: Sample, q: Path): real
    requires s.FrontendSample?
  {
    One(q == [Frontend, Samples])
    + One(q == [Frontend, EventTypes, Label(s.event)])
    + One(q == [Frontend, Contexts, Label(s.context)])
    + One(q == [Frontend, Releases, Label(s.release)])
    + One(q == [Frontend, Errors] && !s.vital)
    + One(s.error.Some? && !s.vital && q == [Frontend, ErrorNames, Label(s.error.value)])
    + if HasMetric(s) then MetricAdds([Frontend, Metrics, Label(s.metric.value)], Measured(s.value.value, s.layoutShift), s.layoutShift, q) else 0.0
  }

  ghost function Adds(s: Sample, q: Path): real {
    match s
    case HttpSample(route, status, latency, client) => HttpAdds(route, status, Larger(0.0, latency), client, q)
    case AiSample(_, latency, _, _, _, _, _, _, _, _) => AiAdds(s, Larger(0.0, latency), q)
    case PresenceSample(online) => PresenceAdds(online, q)
    case FrontendSample(_, _, _, _, _, _, _, _) => FrontendAdds(s, q)
  }

  /** What a sample raises the maximum at a path to; zero where it has nothing to say. */
  ghost function Reading(s: Sample, q: Path): real {
    match s
    case HttpSample(route, status, latency, client) =>
      if q == [Http, LatencyMaxMs] || q == [Http, Routes, Label(route), LatencyMaxMs]
         || (client.Some? && q == [Http, Releases, Label(client.value), LatencyMaxMs])
      then Larger(0.0, latency) else 0.0
    case AiSample(_, latency, _, _, _, _, _, _, _, channel) =>
      if q == [Ai, LatencyMaxMs] || q == [Ai, Channels, Label(channel), LatencyMaxMs] then Larger(0.0, latency) else 0.0
    case PresenceSample(online) =>
      if q == [Presence, OnlineMax] then Positive(online) else 0.0
    case FrontendSample(_, _, metric, layoutShift, value, _, _, _) =>
      if HasMetric(s) && q == [Frontend, Metrics, Label(metric.value), ValueMax] then Measured(value.value, layoutShift) else 0.0
  }

  // ---- What a list of edits adds up to.

  function Gain(e: Edit, q: Path): real {
    if e.path == q && (e.Bump? || e.Inc?) then e.n else 0.0
  }

  function Height(e: Edit, q: Path): real {
    if e.path == q && e.Peak? then e.v else 0.0
  }

  function Gains(es: seq<Edit>, q: Path): real
    decreases es
  {
    if es == [] then 0.0 else Gain(es[0], q) + Gains(es[1..], q)
  }

  function Heights(es: seq<Edit>, q: Path): real
    decreases es
  {
    if es == [] then 0.0 else Larger(Height(es[0], q), Heights(es[1..], q))
  }

  lemma {:induction false} EffectsAre(x: real, es: seq<Edit>, q: Path)
    requires x >= 0.0 && forall i :: 0 <= i < |es| ==> EditOk(es[i])
    ensures Effects(x, es, q) == if MaxPath(q) then Larger(x, Heights(es, q)) else x + Gains(es, q)
    decreases es
  {
    hide MaxPath;
    hide Branch;
    hide Zero;
    hide RowKinds;
    if es != [] {
      assert EditOk(es[0]);
      EffectsAre(if es[0].path == q then Effect(x, es[0]) else x, es[1..], q);
    }
  }

  lemma {:induction false} NoneNegative(es: seq<Edit>, q: Path)
    requires forall i :: 0 <= i < |es| ==> EditOk(es[i])
    ensures Gains(es, q) >= 0.0 && Heights(es, q) >= 0.0
    decreases es
  {
    if es != [] {
      assert EditOk(es[0]);
      NoneNegative(es[1..], q);
    }
  }

  lemma {:induction false} Both(a: seq<Edit>, b: seq<Edit>, q: Path)
    ensures Gains(a + b, q) == Gains(a, q) + Gains(b, q)
    ensures Heights(a, q) >= 0.0 && Heights(b, q) >= 0.0
    ensures Heights(a + b, q) == Larger(Heights(a, q), Heights(b, q))
    decreases |a| + |b|
  {
    if a == [] {
      assert a + b == b;
      if b != [] {
        Both(a, b[1..], q);
      }
    } else {
      assert (a + b)[1..] == a[1..] + b;
      Both(a[1..], b, q);
    }
  }

  lemma Single(a: Edit, q: Path)
    ensures Gains([a], q) == Gain(a, q) && Heights([a], q) == Larger(0.0, Height(a, q))
    ensures forall b :: Gains(When(b, a), q) == (if b then Gain(a, q) else 0.0)
    ensures forall b :: Heights(When(b, a), q) == if b then Larger(0.0, Height(a, q)) else 0.0
  {
    assert [a][1..] == [];
  }

  lemma Two(a: Edit, b: Edit, q: Path)
    ensures Gains([a, b], q) == Gain(a, q) + Gain(b, q)
    ensures Heights([a, b], q) == Larger(0.0, Larger(Height(a, q), Height(b, q)))
  {
    assert [a, b] == [a] + [b];
    Both([a], [b], q);
    Single(a, q);
    Single(b, q);
  }

  lemma Three(a: Edit, b: Edit, c: Edit, q: Path)
    ensures Gains([a, b, c], q) == Gain(a, q) + Gain(b, q) + Gain(c, q)
    ensures Heights([a, b, c], q) == Larger(0.0, Larger(Height(a, q), Larger(Height(b, q), Height(c, q))))
  {
    assert [a, b, c] == [a] + [b, c];
    Both([a], [b, c], q);
    Single(a, q);
    Two(b, c, q);
  }

  // ---- Slots.

  lemma {:induction false} SlotFalls(v: real, bounds: seq<nat>, k: Key)
    requires forall i, j :: 0 <= i < j < |bounds| ==> bounds[i] < bounds[j]
    ensures Falls(v, bounds, k) <==> k == Slot(v, bounds)
  {
    if bounds != [] {
      var rest := bounds[1..];
      SlotFalls(v, rest, k);
      assert bounds[0] in bounds;
      assert forall c :: c in bounds <==> c == bounds[0] || c in rest;
      assert forall c :: c in rest ==> bounds[0] < c;
    }
  }

  lemma SlotPath(q: Path, hist: Path, v: real, bounds: seq<nat>)
    requires forall i, j :: 0 <= i < j < |bounds| ==> bounds[i] < bounds[j]
    ensures InSlot(q, hist, v, bounds) <==> q == hist + [Slot(v, bounds)]
  {
    hide Falls;
    hide Slot;
    if q != [] {
      SlotFalls(v, bounds, q[|q| - 1]);
      assert q == q[..|q| - 1] + [q[|q| - 1]];
    }
  }

  lemma LatencySlot(q: Path, hist: Path, v: real)
    ensures InSlot(q, hist, v, LATENCY_BOUNDS) <==> q == hist + [Slot(v, LATENCY_BOUNDS)]
  {
    hide InSlot;
    hide Slot;
    SlotPath(q, hist, v, LATENCY_BOUNDS);
  }

  lemma MetricSlot(q: Path, hist: Path, v: real, layoutShift: bool)
    ensures var bounds := if layoutShift then SHIFT_BOUNDS else FRONTEND_BOUNDS;
      InSlot(q, hist, v, bounds) <==> q == hist + [Slot(v, bounds)]
  {
    hide InSlot;
    hide Slot;
    if layoutShift {
      SlotPath(q, hist, v, SHIFT_BOUNDS);
    } else {
      SlotPath(q, hist, v, FRONTEND_BOUNDS);
    }
  }

  // ---- Each section's edits add up to what its table says.

  function Family(status: int): int {
    if status > 0 then status / 100 else 0
  }

  lemma TrafficMeans(group: Key, name: Utf8Bytes, status: int, v: real, q: Path)
    requires v >= 0.0
    ensures var es, row := TrafficEdits(group, name, Family(status) == 5, Slot(v, LATENCY_BOUNDS), v), [Http, group, Label(name)];
      && Gains(es, q) == TrafficAdds(row, status, v, q)
      && Heights(es, q) == if q == row + [LatencyMaxMs] then v else 0.0
  {
    hide Slot;
    hide InSlot;
    hide Gains;
    hide Heights;
    hide When;
    hide LATENCY_BOUNDS;
    hide TRAFFIC_ROW;
    RowMeans([Http, group, Label(name)], TRAFFIC_ROW, Family(status) == 5, Slot(v, LATENCY_BOUNDS), v, q);
    LatencySlot(q, [Http, group, Label(name)] + [LatencyHist], v);
    assert [Http, group, Label(name)] + [LatencyHist] + [Slot(v, LATENCY_BOUNDS)] == [Http, group, Label(name)] + [LatencyHist, Slot(v, LATENCY_BOUNDS)];
  }

  lemma RowMeans(row: Path, d: Tree, failed: bool, slot: Key, v: real, q: Path)
    requires v >= 0.0
    ensures var es := [Row(row, d), Bump(row + [Requests], 1.0)] + When(failed, Bump(row + [Errors5xx], 1.0))
                      + [Inc(row + [LatencyHist, slot], 1.0), Peak(row + [LatencyMaxMs], v)];
      && Gains(es, q) == One(q == row + [Requests]) + One(q == row + [Errors5xx] && failed) + One(q == row + [LatencyHist, slot])
      && Heights(es, q) == if q == row + [LatencyMaxMs] then v else 0.0
  {
    hide Gains;
    hide Heights;
    hide When;
    var a, b, c := Row(row, d), Bump(row + [Requests], 1.0), Bump(row + [Errors5xx], 1.0);
    var e, f := Inc(row + [LatencyHist, slot], 1.0), Peak(row + [LatencyMaxMs], v);
    Both([a, b] + When(failed, c), [e, f], q);
    Both([a, b], When(failed, c), q);
    Two(a, b, q);
    Single(c, q);
    Two(e, f, q);
  }

  ghost function HttpTop(family: int, slot: Key, v: real): seq<Edit> {
    [Bump([Http, Samples], 1.0)]
    + When(family == 2, Bump([Http, Status2xx], 1.0)) + When(family == 4, Bump([Http, Status4xx], 1.0)) + When(family == 5, Bump([Http, Status5xx], 1.0))
    + [Inc([Http, LatencyHist, slot], 1.0), Peak([Http, LatencyMaxMs], v)]
  }

  lemma HttpTopMeans(family: int, slot: Key, v: real, q: Path)
    requires v >= 0.0
    ensures Gains(HttpTop(family, slot, v), q) ==
      One(q == [Http, Samples]) + One(q == [Http, Status2xx] && family == 2) + One(q == [Http, Status4xx] && family == 4)
      + One(q == [Http, Status5xx] && family == 5) + One(q == [Http, LatencyHist, slot])
    ensures Heights(HttpTop(family, slot, v), q) == if q == [Http, LatencyMaxMs] then v else 0.0
  {
    hide Gains;
    hide Heights;
    hide When;
    var first, ok, bad, failed := Bump([Http, Samples], 1.0), Bump([Http, Status2xx], 1.0), Bump([Http, Status4xx], 1.0), Bump([Http, Status5xx], 1.0);
    var timed, slowest := Inc([Http, LatencyHist, slot], 1.0), Peak([Http, LatencyMaxMs], v);
    Single(first, q);
    Single(ok, q);
    Single(bad, q);
    Single(failed, q);
    Two(timed, slowest, q);
    Five([first], When(family == 2, ok), When(family == 4, bad), When(family == 5, failed), [timed, slowest], q);
  }

  lemma HttpMeans(s: Sample, q: Path)
    requires s.HttpSample?
    ensures Gains(HttpEdits(s), q) == Adds(s, q) && Heights(HttpEdits(s), q) == Reading(s, q)
  {
    hide Slot;
    hide InSlot;
    hide Gains;
    hide Heights;
    hide When;
    hide LATENCY_BOUNDS;
    hide TrafficEdits;
    hide TrafficAdds;
    var v, family := Larger(0.0, s.latency), Family(s.status);
    var slot := Slot(v, LATENCY_BOUNDS);
    HttpTopMeans(family, slot, v, q);
    TrafficMeans(Routes, s.route, s.status, v, q);
    LatencySlot(q, [Http, LatencyHist], v);
    assert [Http, LatencyHist] + [slot] == [Http, LatencyHist, slot];
    var routes := TrafficEdits(Routes, s.route, family == 5, slot, v);
    var releases := if s.client.Some? then TrafficEdits(Releases, s.client.value, family == 5, slot, v) else [];
    if s.client.Some? {
      TrafficMeans(Releases, s.client.value, s.status, v, q);
    }
    Nothing(q);
    var top := HttpTop(family, slot, v);
    assert HttpEdits(s) == top + routes + releases;
    hide HttpTop;
    hide HttpEdits;
    Both(top, routes, q);
    Both(top + routes, releases, q);
  }

  lemma Nothing(q: Path)
    ensures Gains([], q) == 0.0 && Heights([], q) == 0.0
  {
  }

  lemma Five(a: seq<Edit>, b: seq<Edit>, c: seq<Edit>, d: seq<Edit>, e: seq<Edit>, q: Path)
    ensures Gains(a + b + c + d + e, q) == Gains(a, q) + Gains(b, q) + Gains(c, q) + Gains(d, q) + Gains(e, q)
    ensures Heights(a + b + c + d + e, q) == Larger(Larger(Larger(Larger(Heights(a, q), Heights(b, q)), Heights(c, q)), Heights(d, q)), Heights(e, q))
  {
    hide Gains;
    hide Heights;
    Both(a + b + c + d, e, q);
    Both(a + b + c, d, q);
    Both(a + b, c, q);
    Both(a, b, q);
  }

  lemma ChannelMeans(s: Sample, v: real, q: Path)
    requires s.AiSample? && v >= 0.0
    ensures var es, row := ChannelEdits(s, Slot(v, LATENCY_BOUNDS), v), [Ai, Channels, Label(s.channel)];
      && Gains(es, q) == ChannelAdds(row, s.cloudflare, v, s.reason, q)
      && Heights(es, q) == if q == row + [LatencyMaxMs] then v else 0.0
  {
    hide Slot;
    hide InSlot;
    hide Gains;
    hide Heights;
    hide LATENCY_BOUNDS;
    hide CHANNEL_ROW;
    var row, slot := [Ai, Channels, Label(s.channel)], Slot(v, LATENCY_BOUNDS);
    ChannelRowMeans(row, CHANNEL_ROW, s.cloudflare, slot, v, s.reason, q);
    LatencySlot(q, row + [LatencyHist], v);
    assert row + [LatencyHist] + [slot] == row + [LatencyHist, slot];
  }

  lemma ChannelRowMeans(row: Path, d: Tree, cloudflare: bool, slot: Key, v: real, reason: Utf8Bytes, q: Path)
    requires v >= 0.0
    ensures var es := [Row(row, d), Bump(row + [Samples], 1.0), Bump(row + [Side(cloudflare)], 1.0), Inc(row + [LatencyHist, slot], 1.0),
                       Peak(row + [LatencyMaxMs], v), Inc(row + [Reasons, Label(reason)], 1.0)];
      && Gains(es, q) == One(q == row + [Samples]) + One(q == row + [Cloudflare] && cloudflare) + One(q == row + [Local] && !cloudflare)
                         + One(q == row + [LatencyHist, slot]) + One(q == row + [Reasons, Label(reason)])
      && Heights(es, q) == if q == row + [LatencyMaxMs] then v else 0.0
  {
    hide Gains;
    hide Heights;
    var a, b, c := Row(row, d), Bump(row + [Samples], 1.0), Bump(row + [Side(cloudflare)], 1.0);
    var e, f, g := Inc(row + [LatencyHist, slot], 1.0), Peak(row + [LatencyMaxMs], v), Inc(row + [Reasons, Label(reason)], 1.0);
    assert [a, b, c, e, f, g] == [a, b, c] + [e, f, g];
    Both([a, b, c], [e, f, g], q);
    Three(a, b, c, q);
    Three(e, f, g, q);
  }

  lemma AiMeans(s: Sample, q: Path)
    requires s.AiSample?
    ensures Gains(AiEdits(s), q) == Adds(s, q) && Heights(AiEdits(s), q) == Reading(s, q)
  {
    var v := Larger(0.0, s.latency);
    var slot := Slot(v, LATENCY_BOUNDS);
    ChannelMeans(s, v, q);
    AiTopMeans(s, slot, v, q);
    LatencySlot(q, [Ai, LatencyHist], v);
    assert [Ai, LatencyHist] + [slot] == [Ai, LatencyHist, slot];
    OptionalMeans(Models, s.model, q);
    OptionalMeans(WorkerErrors, s.workerError, q);
    hide Slot;
    hide InSlot;
    hide Gains;
    hide Heights;
    hide OptionalLabel;
    hide LATENCY_BOUNDS;
    hide ChannelEdits;
    hide ChannelAdds;
    var top := AiTop(s, slot, v);
    Both(top + OptionalLabel(Models, s.model) + OptionalLabel(WorkerErrors, s.workerError), ChannelEdits(s, slot, v), q);
    Both(top + OptionalLabel(Models, s.model), OptionalLabel(WorkerErrors, s.workerError), q);
    Both(top, OptionalLabel(Models, s.model), q);
    assert AiEdits(s) == top + OptionalLabel(Models, s.model) + OptionalLabel(WorkerErrors, s.workerError) + ChannelEdits(s, slot, v);
  }

  ghost function AiTop(s: Sample, slot: Key, v: real): seq<Edit>
    requires s.AiSample?
  {
    [Bump([Ai, Samples], 1.0), Bump([Ai, Side(s.cloudflare)], 1.0), Inc([Ai, LatencyHist, slot], 1.0), Peak([Ai, LatencyMaxMs], v),
     Bump([Ai, InputTokens], Count(s.input)), Bump([Ai, OutputTokens], Count(s.output)),
     Inc([Ai, Reasons, Label(s.reason)], 1.0), Inc([Ai, EventTypes, Label(s.eventType)], 1.0), Inc([Ai, RequestKinds, Label(s.kind)], 1.0)]
  }

  lemma AiTopMeans(s: Sample, slot: Key, v: real, q: Path)
    requires s.AiSample? && v >= 0.0
    ensures Gains(AiTop(s, slot, v), q) ==
      One(q == [Ai, Samples]) + One(q == [Ai, Cloudflare] && s.cloudflare) + One(q == [Ai, Local] && !s.cloudflare)
      + One(q == [Ai, LatencyHist, slot])
      + (if q == [Ai, InputTokens] then Positive(s.input) else 0.0) + (if q == [Ai, OutputTokens] then Positive(s.output) else 0.0)
      + One(q == [Ai, Reasons, Label(s.reason)]) + One(q == [Ai, EventTypes, Label(s.eventType)]) + One(q == [Ai, RequestKinds, Label(s.kind)])
    ensures Heights(AiTop(s, slot, v), q) == if q == [Ai, LatencyMaxMs] then v else 0.0
  {
    hide Gains;
    hide Heights;
    var a, b, c := Bump([Ai, Samples], 1.0), Bump([Ai, Side(s.cloudflare)], 1.0), Inc([Ai, LatencyHist, slot], 1.0);
    var d, e, f := Peak([Ai, LatencyMaxMs], v), Bump([Ai, InputTokens], Count(s.input)), Bump([Ai, OutputTokens], Count(s.output));
    var h, i, j := Inc([Ai, Reasons, Label(s.reason)], 1.0), Inc([Ai, EventTypes, Label(s.eventType)], 1.0), Inc([Ai, RequestKinds, Label(s.kind)], 1.0);
    assert AiTop(s, slot, v) == [a, b, c] + [d, e, f] + [h, i, j];
    Both([a, b, c] + [d, e, f], [h, i, j], q);
    Both([a, b, c], [d, e, f], q);
    Three(a, b, c, q);
    Three(d, e, f, q);
    Three(h, i, j, q);
  }

  lemma OptionalMeans(group: Key, name: Option<Utf8Bytes>, q: Path)
    ensures Gains(OptionalLabel(group, name), q) == One(name.Some? && q == [Ai, group, Label(name.value)])
    ensures Heights(OptionalLabel(group, name), q) == 0.0
  {
    if name.Some? {
      Single(Inc([Ai, group, Label(name.value)], 1.0), q);
    }
  }

  lemma PresenceMeans(online: int, q: Path)
    ensures Gains(PresenceEdits(online), q) == PresenceAdds(online, q)
    ensures Heights(PresenceEdits(online), q) == if q == [Presence, OnlineMax] then Positive(online) else 0.0
  {
    hide Gains;
    hide Heights;
    Three(Bump([Presence, Samples], 1.0), Bump([Presence, OnlineSum], Count(online)), Peak([Presence, OnlineMax], Count(online)), q);
  }

  lemma MetricMeans(metric: Utf8Bytes, v: real, layoutShift: bool, q: Path)
    requires v >= 0.0
    ensures var es, row := MetricEdits(metric, Slot(v, if layoutShift then SHIFT_BOUNDS else FRONTEND_BOUNDS), v), [Frontend, Metrics, Label(metric)];
      && Gains(es, q) == MetricAdds(row, v, layoutShift, q)
      && Heights(es, q) == if q == row + [ValueMax] then v else 0.0
  {
    hide Slot;
    hide InSlot;
    hide Gains;
    hide Heights;
    hide METRIC_ROW;
    hide SHIFT_BOUNDS;
    hide FRONTEND_BOUNDS;
    var row, slot := [Frontend, Metrics, Label(metric)], Slot(v, if layoutShift then SHIFT_BOUNDS else FRONTEND_BOUNDS);
    MetricSlot(q, row + [Hist], v, layoutShift);
    assert row + [Hist] + [slot] == row + [Hist, slot];
    MetricRowMeans(row, METRIC_ROW, slot, v, q);
  }

  lemma MetricRowMeans(row: Path, d: Tree, slot: Key, v: real, q: Path)
    requires v >= 0.0
    ensures var es := [Row(row, d), Bump(row + [Samples], 1.0), Inc(row + [Hist, slot], 1.0), Peak(row + [ValueMax], v)];
      && Gains(es, q) == One(q == row + [Samples]) + One(q == row + [Hist, slot])
      && Heights(es, q) == if q == row + [ValueMax] then v else 0.0
  {
    hide Gains;
    hide Heights;
    var a, b, c, d' := Row(row, d), Bump(row + [Samples], 1.0), Inc(row + [Hist, slot], 1.0), Peak(row + [ValueMax], v);
    assert [a, b, c, d'] == [a, b] + [c, d'];
    Both([a, b], [c, d'], q);
    Two(a, b, q);
    Two(c, d', q);
  }

  ghost function FrontendTop(s: Sample): seq<Edit>
    requires s.FrontendSample?
  {
    [Bump([Frontend, Samples], 1.0), Inc([Frontend, EventTypes, Label(s.event)], 1.0), Inc([Frontend, Contexts, Label(s.context)], 1.0),
     Inc([Frontend, Releases, Label(s.release)], 1.0)]
  }

  ghost function FrontendErrors(s: Sample): seq<Edit>
    requires s.FrontendSample?
  {
    if !s.vital then
      [Bump([Frontend, Errors], 1.0)] + if s.error.Some? then [Inc([Frontend, ErrorNames, Label(s.error.value)], 1.0)] else []
    else []
  }

  lemma FrontendTopMeans(s: Sample, q: Path)
    requires s.FrontendSample?
    ensures Gains(FrontendTop(s), q) ==
      One(q == [Frontend, Samples]) + One(q == [Frontend, EventTypes, Label(s.event)]) + One(q == [Frontend, Contexts, Label(s.context)])
      + One(q == [Frontend, Releases, Label(s.release)])
    ensures Heights(FrontendTop(s), q) == 0.0
  {
    hide Gains;
    hide Heights;
    var a, b := Bump([Frontend, Samples], 1.0), Inc([Frontend, EventTypes, Label(s.event)], 1.0);
    var c, d := Inc([Frontend, Contexts, Label(s.context)], 1.0), Inc([Frontend, Releases, Label(s.release)], 1.0);
    assert FrontendTop(s) == [a, b] + [c, d];
    Both([a, b], [c, d], q);
    Two(a, b, q);
    Two(c, d, q);
  }

  lemma FrontendErrorsMean(s: Sample, q: Path)
    requires s.FrontendSample?
    ensures Gains(FrontendErrors(s), q) ==
      One(q == [Frontend, Errors] && !s.vital) + One(s.error.Some? && !s.vital && q == [Frontend, ErrorNames, Label(s.error.value)])
    ensures Heights(FrontendErrors(s), q) == 0.0
  {
    hide Gains;
    hide Heights;
    var e := Bump([Frontend, Errors], 1.0);
    Single(e, q);
    Nothing(q);
    if s.error.Some? {
      Single(Inc([Frontend, ErrorNames, Label(s.error.value)], 1.0), q);
    }
    Both([e], if s.error.Some? then [Inc([Frontend, ErrorNames, Label(s.error.value)], 1.0)] else [], q);
  }

  lemma FrontendMeans(s: Sample, q: Path)
    requires s.FrontendSample?
    ensures Gains(FrontendEdits(s), q) == Adds(s, q) && Heights(FrontendEdits(s), q) == Reading(s, q)
  {
    hide Slot;
    hide InSlot;
    hide Gains;
    hide Heights;
    hide MetricEdits;
    hide MetricAdds;
    hide SHIFT_BOUNDS;
    hide FRONTEND_BOUNDS;
    var v := if s.value.Some? then Measured(s.value.value, s.layoutShift) else 0.0;
    var metric := if HasMetric(s) then MetricEdits(s.metric.value, Slot(v, if s.layoutShift then SHIFT_BOUNDS else FRONTEND_BOUNDS), v) else [];
    var top, errors := FrontendTop(s), FrontendErrors(s);
    assert FrontendEdits(s) == top + errors + metric;
    FrontendTopMeans(s, q);
    FrontendErrorsMean(s, q);
    hide FrontendTop;
    hide FrontendErrors;
    hide FrontendEdits;
    Nothing(q);
    if HasMetric(s) {
      MetricMeans(s.metric.value, v, s.layoutShift, q);
      var row := [Frontend, Metrics, Label(s.metric.value)];
      assert row + [ValueMax] == [Frontend, Metrics, Label(s.metric.value), ValueMax];
    }
    Both(top, errors, q);
    Both(top + errors, metric, q);
  }

  /** Every number moves exactly as the tables say when a sample is recorded: counters by
      what it adds there, maxima to its reading if that is greater, nothing else. */
  lemma SampleMeans(s: Sample, q: Path, x: real)
    requires x >= 0.0
    ensures Effects(x, Edits(s), q) == if MaxPath(q) then Larger(x, Reading(s, q)) else x + Adds(s, q)
    ensures Adds(s, q) >= 0.0 && Reading(s, q) >= 0.0
  {
    hide HttpEdits;
    hide AiEdits;
    hide PresenceEdits;
    hide FrontendEdits;
    hide EditOk;
    hide Gains;
    hide Heights;
    hide Effects;
    hide MaxPath;
    hide Fine;
    hide HttpAdds;
    hide AiAdds;
    hide FrontendAdds;
    SampleFine(s);
    FineOk(Base(Section(s)), Edits(s));
    EffectsAre(x, Edits(s), q);
    NoneNegative(Edits(s), q);
    match s {
      case HttpSample(_, _, _, _) => HttpMeans(s, q);
      case AiSample(_, _, _, _, _, _, _, _, _, _) => AiMeans(s, q);
      case PresenceSample(online) => PresenceMeans(online, q);
      case FrontendSample(_, _, _, _, _, _, _, _) => FrontendMeans(s, q);
    }
  }

  /** What recording does to everything pending. */
  lemma RecordMeans(s: State, b: nat, sample: Sample)
    requires Good(s)
    ensures var n := Record(s, b, sample);
      && b in n.pending && n == s.(pending := s.pending[b := n.pending[b]])
      && forall q :: At(n.pending[b], q) ==
           if MaxPath(q) then Larger(PendingAt(s, b, q), Reading(sample, q)) else PendingAt(s, b, q) + Adds(sample, q)
  {
    hide Adds;
    hide Reading;
    hide Edits;
    hide MaxPath;
    hide Effects;
    hide Record;
    hide At;
    var t := RecordedBucket(s, b, sample);
    forall q
      ensures At(t, q) == if MaxPath(q) then Larger(PendingAt(s, b, q), Reading(sample, q)) else PendingAt(s, b, q) + Adds(sample, q)
    {
      assert PendingAt(s, b, q) >= 0.0;
      SampleMeans(sample, q, PendingAt(s, b, q));
    }
  }

  // ---- Whole runs.

  /** What the samples recorded in a bucket add to a counter, altogether. */
  ghost function Added(es: seq<Event>, b: nat, q: Path): real {
    if es == [] then 0.0
    else
      var last := es[|es| - 1];
      Added(es[..|es| - 1], b, q) + if last.Recorded? && last.at == b then Adds(last.sample, q) else 0.0
  }

  /** The greatest reading among the samples recorded in a bucket. */
  ghost function Greatest(es: seq<Event>, b: nat, q: Path): real {
    if es == [] then 0.0
    else
      var last := es[|es| - 1];
      Larger(Greatest(es[..|es| - 1], b, q), if last.Recorded? && last.at == b then Reading(last.sample, q) else 0.0)
  }

  lemma {:induction false} TotalMeans(es: seq<Event>, b: nat, q: Path)
    ensures Total(es, b, q) == if MaxPath(q) then Greatest(es, b, q) else Added(es, b, q)
    ensures Greatest(es, b, q) >= 0.0 && Added(es, b, q) >= 0.0
  {
    hide Adds;
    hide Reading;
    hide Edits;
    hide MaxPath;
    hide Effects;
    if es != [] {
      var last := es[|es| - 1];
      TotalMeans(es[..|es| - 1], b, q);
      if last.Recorded? {
        SampleMeans(last.sample, q, Total(es[..|es| - 1], b, q));
      }
    }
  }

  /** At rest, every counter of every bucket, saved and pending together, is the sum of what
      the recorded samples add there; every maximum is the greatest of their readings. */
  lemma EveryNumberTold(es: seq<Event>, b: nat, q: Path)
    requires q != [] && !Run(es).flush.Sent?
    ensures !MaxPath(q) ==> SavedAt(Run(es), b, q) + PendingAt(Run(es), b, q) == Added(es, b, q)
    ensures MaxPath(q) ==> Larger(SavedAt(Run(es), b, q), PendingAt(Run(es), b, q)) == Greatest(es, b, q)
  {
    QuietBalance(es, b, q);
    TotalMeans(es, b, q);
  }

  // ---- Some of the numbers, spelled out.

  /** Something added up over the samples recorded in a bucket. */
  ghost function Tally(es: seq<Event>, b: nat, f: Sample -> real): real {
    if es == [] then 0.0
    else
      var last := es[|es| - 1];
      Tally(es[..|es| - 1], b, f) + if last.Recorded? && last.at == b then f(last.sample) else 0.0
  }

  ghost function Balance(es: seq<Event>, b: nat, q: Path): real {
    SavedAt(Run(es), b, q) + PendingAt(Run(es), b, q)
  }

  lemma {:induction false} AddedTally(es: seq<Event>, b: nat, q: Path, f: Sample -> real)
    requires forall s :: Adds(s, q) == f(s)
    ensures Added(es, b, q) == Tally(es, b, f)
  {
    hide Adds;
    if es != [] {
      AddedTally(es[..|es| - 1], b, q, f);
    }
  }

  lemma Tallied(es: seq<Event>, b: nat, q: Path, f: Sample -> real)
    requires q != [] && !q[|q| - 1].LatencyMaxMs? && !q[|q| - 1].OnlineMax? && !q[|q| - 1].ValueMax?
    requires !Run(es).flush.Sent? && forall s :: Adds(s, q) == f(s)
    ensures Balance(es, b, q) == Tally(es, b, f)
  {
    hide Adds;
    hide IsMax;
    hide Run;
    OnlyMaximaLookLikeIt(q[|q| - 1]);
    EveryNumberTold(es, b, q);
    AddedTally(es, b, q, f);
  }

  /** Paths of two fields: the counters at the head of each section. */
  lemma HeadAdds(s: Sample, q: Path)
    requires |q| == 2
    ensures Adds(s, q) ==
      match s
      case HttpSample(_, status, _, _) =>
        One(q == [Http, Samples]) + One(q == [Http, Status2xx] && 200 <= status <= 299)
        + One(q == [Http, Status4xx] && 400 <= status <= 499) + One(q == [Http, Status5xx] && 500 <= status <= 599)
      case AiSample(cloudflare, _, input, output, _, _, _, _, _, _) =>
        One(q == [Ai, Samples]) + One(q == [Ai, Cloudflare] && cloudflare) + One(q == [Ai, Local] && !cloudflare)
        + (if q == [Ai, InputTokens] then Positive(input) else 0.0) + if q == [Ai, OutputTokens] then Positive(output) else 0.0
      case PresenceSample(online) =>
        One(q == [Presence, Samples]) + if q == [Presence, OnlineSum] then Positive(online) else 0.0
      case FrontendSample(_, vital, _, _, _, _, _, _) =>
        One(q == [Frontend, Samples]) + One(q == [Frontend, Errors] && !vital)
  {
    hide Falls;
  }

  /** Paths of four fields: the counters of the rows. */
  lemma RowAdds(s: Sample, q: Path)
    requires |q| == 4
    ensures Adds(s, q) ==
      match s
      case HttpSample(route, status, _, client) =>
        One(q == [Http, Routes, Label(route), Requests]) + One(q == [Http, Routes, Label(route), Errors5xx] && 500 <= status <= 599)
        + if client.Some? then
            One(q == [Http, Releases, Label(client.value), Requests]) + One(q == [Http, Releases, Label(client.value), Errors5xx] && 500 <= status <= 599)
          else 0.0
      case AiSample(cloudflare, _, _, _, _, _, _, _, _, channel) =>
        One(q == [Ai, Channels, Label(channel), Samples]) + One(q == [Ai, Channels, Label(channel), Cloudflare] && cloudflare)
        + One(q == [Ai, Channels, Label(channel), Local] && !cloudflare)
      case PresenceSample(_) => 0.0
      case FrontendSample(_, _, metric, _, _, _, _, _) => One(HasMetric(s) && q == [Frontend, Metrics, Label(metric.value), Samples])
  {
    hide Falls;
  }

  /** Each family of answers is counted for itself. */
  lemma FamiliesTold(es: seq<Event>, b: nat)
    requires !Run(es).flush.Sent?
    ensures Balance(es, b, [Http, Status2xx]) == Tally(es, b, (s: Sample) => One(s.HttpSample? && 200 <= s.status <= 299))
    ensures Balance(es, b, [Http, Status4xx]) == Tally(es, b, (s: Sample) => One(s.HttpSample? && 400 <= s.status <= 499))
    ensures Balance(es, b, [Http, Status5xx]) == Tally(es, b, (s: Sample) => One(s.HttpSample? && 500 <= s.status <= 599))
  {
    hide Run;
    hide Adds;
    forall s, q | q == [Http, Status2xx] || q == [Http, Status4xx] || q == [Http, Status5xx] {
      HeadAdds(s, q);
    }
    Tallied(es, b, [Http, Status2xx], (s: Sample) => One(s.HttpSample? && 200 <= s.status <= 299));
    Tallied(es, b, [Http, Status4xx], (s: Sample) => One(s.HttpSample? && 400 <= s.status <= 499));
    Tallied(es, b, [Http, Status5xx], (s: Sample) => One(s.HttpSample? && 500 <= s.status <= 599));
  }

  /** Answers by the provider or locally, and the tokens they took. */
  lemma AnswersTold(es: seq<Event>, b: nat)
    requires !Run(es).flush.Sent?
    ensures Balance(es, b, [Ai, Cloudflare]) == Tally(es, b, (s: Sample) => One(s.AiSample? && s.cloudflare))
    ensures Balance(es, b, [Ai, Local]) == Tally(es, b, (s: Sample) => One(s.AiSample? && !s.cloudflare))
    ensures Balance(es, b, [Ai, InputTokens]) == Tally(es, b, (s: Sample) => if s.AiSample? then Positive(s.input) else 0.0)
    ensures Balance(es, b, [Ai, OutputTokens]) == Tally(es, b, (s: Sample) => if s.AiSample? then Positive(s.output) else 0.0)
  {
    hide Run;
    hide Adds;
    forall s, q | q == [Ai, Cloudflare] || q == [Ai, Local] || q == [Ai, InputTokens] || q == [Ai, OutputTokens] {
      HeadAdds(s, q);
    }
    Tallied(es, b, [Ai, Cloudflare], (s: Sample) => One(s.AiSample? && s.cloudflare));
    Tallied(es, b, [Ai, Local], (s: Sample) => One(s.AiSample? && !s.cloudflare));
    Tallied(es, b, [Ai, InputTokens], (s: Sample) => if s.AiSample? then Positive(s.input) else 0.0);
    Tallied(es, b, [Ai, OutputTokens], (s: Sample) => if s.AiSample? then Positive(s.output) else 0.0);
  }

  /** Users online, summed over the readings, and errors seen by browsers. */
  lemma OnlineAndErrorsTold(es: seq<Event>, b: nat)
    requires !Run(es).flush.Sent?
    ensures Balance(es, b, [Presence, OnlineSum]) == Tally(es, b, (s: Sample) => if s.PresenceSample? then Positive(s.online) else 0.0)
    ensures Balance(es, b, [Frontend, Errors]) == Tally(es, b, (s: Sample) => One(s.FrontendSample? && !s.vital))
  {
    hide Run;
    hide Adds;
    forall s, q | q == [Presence, OnlineSum] || q == [Frontend, Errors] {
      HeadAdds(s, q);
    }
    Tallied(es, b, [Presence, OnlineSum], (s: Sample) => if s.PresenceSample? then Positive(s.online) else 0.0);
    Tallied(es, b, [Frontend, Errors], (s: Sample) => One(s.FrontendSample? && !s.vital));
  }

  /** Requests and server errors of one route, and of one release. */
  lemma TrafficTold(es: seq<Event>, b: nat, name: Utf8Bytes)
    requires !Run(es).flush.Sent?
    ensures Balance(es, b, [Http, Routes, Label(name), Requests]) == Tally(es, b, (s: Sample) => One(s.HttpSample? && s.route == name))
    ensures Balance(es, b, [Http, Routes, Label(name), Errors5xx]) ==
      Tally(es, b, (s: Sample) => One(s.HttpSample? && s.route == name && 500 <= s.status <= 599))
    ensures Balance(es, b, [Http, Releases, Label(name), Requests]) == Tally(es, b, (s: Sample) => One(s.HttpSample? && s.client == Some(name)))
    ensures Balance(es, b, [Http, Releases, Label(name), Errors5xx]) ==
      Tally(es, b, (s: Sample) => One(s.HttpSample? && s.client == Some(name) && 500 <= s.status <= 599))
  {
    hide Run;
    hide Adds;
    forall s, group, k | (group == Routes || group == Releases) && (k == Requests || k == Errors5xx)
      ensures Adds(s, [Http, group, Label(name), k]) ==
        One(s.HttpSample? && (if group == Routes then s.route == name else s.client == Some(name)) && (k == Errors5xx ==> 500 <= s.status <= 599))
    {
      RowAdds(s, [Http, group, Label(name), k]);
    }
    Tallied(es, b, [Http, Routes, Label(name), Requests], (s: Sample) => One(s.HttpSample? && s.route == name));
    Tallied(es, b, [Http, Routes, Label(name), Errors5xx], (s: Sample) => One(s.HttpSample? && s.route == name && 500 <= s.status <= 599));
    Tallied(es, b, [Http, Releases, Label(name), Requests], (s: Sample) => One(s.HttpSample? && s.client == Some(name)));
    Tallied(es, b, [Http, Releases, Label(name), Errors5xx], (s: Sample) => One(s.HttpSample? && s.client == Some(name) && 500 <= s.status <= 599));
  }

  /** Each slot of the latency histogram counts the requests that fall into it. */
  lemma LatencyTold(es: seq<Event>, b: nat, slot: Key)
    requires !Run(es).flush.Sent? && (slot.AtMost? || slot.Unbounded?)
    ensures Balance(es, b, [Http, LatencyHist, slot]) ==
      Tally(es, b, (s: Sample) => One(s.HttpSample? && Falls(Larger(0.0, s.latency), LATENCY_BOUNDS, slot)))
  {
    hide Run;
    hide Falls;
    hide LATENCY_BOUNDS;
    hide SHIFT_BOUNDS;
    hide FRONTEND_BOUNDS;
    var q := [Http, LatencyHist, slot];
    forall s
      ensures Adds(s, q) == One(s.HttpSample? && Falls(Larger(0.0, s.latency), LATENCY_BOUNDS, slot))
    {
      assert q[..2] == [Http, LatencyHist];
    }
    hide Adds;
    Tallied(es, b, q, (s: Sample) => One(s.HttpSample? && Falls(Larger(0.0, s.latency), LATENCY_BOUNDS, slot)));
  }

  /** The greatest of something over the samples recorded in a bucket. */
  ghost function Highest(es: seq<Event>, b: nat, f: Sample -> real): real {
    if es == [] then 0.0
    else
      var last := es[|es| - 1];
      Larger(Highest(es[..|es| - 1], b, f), if last.Recorded? && last.at == b then f(last.sample) else 0.0)
  }

  lemma {:induction false} GreatestHighest(es: seq<Event>, b: nat, q: Path, f: Sample -> real)
    requires forall s :: Reading(s, q) == f(s)
    ensures Greatest(es, b, q) == Highest(es, b, f)
  {
    hide Reading;
    if es != [] {
      GreatestHighest(es[..|es| - 1], b, q, f);
    }
  }

  /** The slowest request, altogether and by route, is the slowest recorded. */
  lemma SlowestTold(es: seq<Event>, b: nat, name: Utf8Bytes)
    requires !Run(es).flush.Sent?
    ensures Larger(SavedAt(Run(es), b, [Http, LatencyMaxMs]), PendingAt(Run(es), b, [Http, LatencyMaxMs])) ==
      Highest(es, b, (s: Sample) => if s.HttpSample? then Larger(0.0, s.latency) else 0.0)
    ensures var q := [Http, Routes, Label(name), LatencyMaxMs];
      Larger(SavedAt(Run(es), b, q), PendingAt(Run(es), b, q)) ==
      Highest(es, b, (s: Sample) => if s.HttpSample? && s.route == name then Larger(0.0, s.latency) else 0.0)
  {
    hide Run;
    hide IsMax;
    OnlyMaximaLookLikeIt(LatencyMaxMs);
    var q, r := [Http, LatencyMaxMs], [Http, Routes, Label(name), LatencyMaxMs];
    EveryNumberTold(es, b, q);
    EveryNumberTold(es, b, r);
    GreatestHighest(es, b, q, (s: Sample) => if s.HttpSample? then Larger(0.0, s.latency) else 0.0);
    GreatestHighest(es, b, r, (s: Sample) => if s.HttpSample? && s.route == name then Larger(0.0, s.latency) else 0.0);
  }
}
