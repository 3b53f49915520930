/** What each kind of sample writes into a bucket, and that it can always be written. */
module TelemetrySamples {
  import opened Options
  import opened SafeKeys
  import opened Telemetry

  const LATENCY_BOUNDS: seq<nat> := [25, 50, 100, 250, 500, 1000, 2500, 5000, 10000, 20000]
  const FRONTEND_BOUNDS: seq<nat> := [50, 100, 200, 500, 800, 1000, 1500, 2000, 2500, 4000, 6000, 10000, 20000]
  const SHIFT_BOUNDS: seq<nat> := [10, 50, 100, 150, 250, 500, 1000, 2000, 5000]

  function Slot(value: real, bounds: seq<nat>): (k: Key)
    ensures k.AtMost? || k.Unbounded?
  {
    if bounds == [] then Unbounded
    else if value <= bounds[0] as real then AtMost(bounds[0])
    else Slot(value, bounds[1..])
  }

  datatype Sample =
    | HttpSample(route: Utf8Bytes, status: int, latency: real, client: Option<Utf8Bytes>)
    | AiSample(cloudflare: bool, latency: real, input: int, output: int, reason: Utf8Bytes, eventType: Utf8Bytes, kind: Utf8Bytes,
               model: Option<Utf8Bytes>, workerError: Option<Utf8Bytes>, channel: Utf8Bytes)
    | PresenceSample(online: int)
    | FrontendSample(event: Utf8Bytes, vital: bool, metric: Option<Utf8Bytes>, layoutShift: bool, value: Option<real>,
                     error: Option<Utf8Bytes>, context: Utf8Bytes, release: Utf8Bytes)

  function Section(s: Sample): Key {
    match s
    case HttpSample(_, _, _, _) => Http
    case AiSample(_, _, _, _, _, _, _, _, _, _) => Ai
    case PresenceSample(_) => Presence
    case FrontendSample(_, _, _, _, _, _, _, _) => Frontend
  }

  const NONE: Tree := Num(0.0)
  const EMPTY: Tree := Dict(map[])

  function Template(section: Key): Bucket {
    match section
    case Http => map[Samples := NONE, Status2xx := NONE, Status4xx := NONE, Status5xx := NONE, LatencyHist := EMPTY,
                     LatencyMaxMs := NONE, Routes := EMPTY, Releases := EMPTY]
    case Ai => map[Samples := NONE, Cloudflare := NONE, Local := NONE, LatencyHist := EMPTY, LatencyMaxMs := NONE,
                   InputTokens := NONE, OutputTokens := NONE, Reasons := EMPTY, EventTypes := EMPTY, RequestKinds := EMPTY,
                   Models := EMPTY, WorkerErrors := EMPTY, Channels := EMPTY]
    case Presence => map[Samples := NONE, OnlineSum := NONE, OnlineMax := NONE]
    case Frontend => map[Samples := NONE, Errors := NONE, EventTypes := EMPTY, ErrorNames := EMPTY, Contexts := EMPTY,
                         Releases := EMPTY, Metrics := EMPTY]
    case _ => map[]
  }

  function FreshBucket(): Bucket {
    map[Http := Dict(Template(Http)), Ai := Dict(Template(Ai)), Presence := Dict(Template(Presence)), Frontend := Dict(Template(Frontend))]
  }

  const TRAFFIC_ROW: Tree := Dict(map[Requests := NONE, Errors5xx := NONE, LatencyHist := EMPTY, LatencyMaxMs := NONE])
  const CHANNEL_ROW: Tree := Dict(map[Samples := NONE, Cloudflare := NONE, Local := NONE, LatencyHist := EMPTY, LatencyMaxMs := NONE, Reasons := EMPTY])
  const METRIC_ROW: Tree := Dict(map[Samples := NONE, Hist := EMPTY, ValueMax := NONE])

  function When(b: bool, e: Edit): seq<Edit> {
    if b then [e] else []
  }

  function TrafficEdits(group: Key, name: Utf8Bytes, failed: bool, slot: Key, latency: real): seq<Edit> {
    var row := [Http, group, Label(name)];
    [Row(row, TRAFFIC_ROW), Bump(row + [Requests], 1.0)] + When(failed, Bump(row + [Errors5xx], 1.0))
    + [Inc(row + [LatencyHist, slot], 1.0), Peak(row + [LatencyMaxMs], latency)]
  }

  function HttpEdits(s: Sample): seq<Edit>
    requires s.HttpSample?
  {
    var latency := Larger(0.0, s.latency);
    var family := if s.status > 0 then s.status / 100 else 0;
    var slot := Slot(latency, LATENCY_BOUNDS);
    [Bump([Http, Samples], 1.0)]
    + When(family == 2, Bump([Http, Status2xx], 1.0)) + When(family == 4, Bump([Http, Status4xx], 1.0)) + When(family == 5, Bump([Http, Status5xx], 1.0))
    + [Inc([Http, LatencyHist, slot], 1.0), Peak([Http, LatencyMaxMs], latency)]
    + TrafficEdits(Routes, s.route, family == 5, slot, latency)
    + if s.client.Some? then TrafficEdits(Releases, s.client.value, family == 5, slot, latency) else []
  }

  function Count(n: int): real {
    if n < 0 then 0.0 else n as real
  }

  function Side(cloudflare: bool): Key {
    if cloudflare then Cloudflare else Local
  }

  function OptionalLabel(group: Key, name: Option<Utf8Bytes>): seq<Edit> {
    if name.Some? then [Inc([Ai, group, Label(name.value)], 1.0)] else []
  }

  function ChannelEdits(s: Sample, slot: Key, latency: real): seq<Edit>
    requires s.AiSample?
  {
    var row := [Ai, Channels, Label(s.channel)];
    [Row(row, CHANNEL_ROW), Bump(row + [Samples], 1.0), Bump(row + [Side(s.cloudflare)], 1.0), Inc(row + [LatencyHist, slot], 1.0),
     Peak(row + [LatencyMaxMs], latency), Inc(row + [Reasons, Label(s.reason)], 1.0)]
  }

  function AiEdits(s: Sample): seq<Edit>
    requires s.AiSample?
  {
    var latency := Larger(0.0, s.latency);
    var slot := Slot(latency, LATENCY_BOUNDS);
    [Bump([Ai, Samples], 1.0), Bump([Ai, Side(s.cloudflare)], 1.0), Inc([Ai, LatencyHist, slot], 1.0), Peak([Ai, LatencyMaxMs], latency),
     Bump([Ai, InputTokens], Count(s.input)), Bump([Ai, OutputTokens], Count(s.output)),
     Inc([Ai, Reasons, Label(s.reason)], 1.0), Inc([Ai, EventTypes, Label(s.eventType)], 1.0), Inc([Ai, RequestKinds, Label(s.kind)], 1.0)]
    + OptionalLabel(Models, s.model) + OptionalLabel(WorkerErrors, s.workerError) + ChannelEdits(s, slot, latency)
  }

  function PresenceEdits(online: int): seq<Edit> {
    [Bump([Presence, Samples], 1.0), Bump([Presence, OnlineSum], Count(online)), Peak([Presence, OnlineMax], Count(online))]
  }

  /** Layout shifts are kept in thousandths. */
  function Scaled(value: real, layoutShift: bool): (v: real)
    ensures v >= 0.0
  {
    var numeric := Larger(0.0, value);
    if layoutShift then numeric * 1000.0 else numeric
  }

  function MetricEdits(metric: Utf8Bytes, slot: Key, v: real): seq<Edit> {
    var row := [Frontend, Metrics, Label(metric)];
    [Row(row, METRIC_ROW), Bump(row + [Samples], 1.0), Inc(row + [Hist, slot], 1.0), Peak(row + [ValueMax], v)]
  }

  function FrontendEdits(s: Sample): seq<Edit>
    requires s.FrontendSample?
  {
    [Bump([Frontend, Samples], 1.0), Inc([Frontend, EventTypes, Label(s.event)], 1.0), Inc([Frontend, Contexts, Label(s.context)], 1.0),
     Inc([Frontend, Releases, Label(s.release)], 1.0)]
    + (if !s.vital then
         [Bump([Frontend, Errors], 1.0)] + if s.error.Some? then [Inc([Frontend, ErrorNames, Label(s.error.value)], 1.0)] else []
       else [])
    + (if s.vital && s.metric.Some? && s.value.Some? then
         var scaled := Scaled(s.value.value, s.layoutShift);
         MetricEdits(s.metric.value, Slot(scaled, if s.layoutShift then SHIFT_BOUNDS else FRONTEND_BOUNDS), scaled)
       else [])
  }

  function Edits(s: Sample): seq<Edit> {
    match s
    case HttpSample(_, _, _, _) => HttpEdits(s)
    case AiSample(_, _, _, _, _, _, _, _, _, _) => AiEdits(s)
    case PresenceSample(online) => PresenceEdits(online)
    case FrontendSample(_, _, _, _, _, _, _, _) => FrontendEdits(s)
  }

  // ---- The shape every bucket keeps.

  predicate GroupOf(section: Key, k: Key) {
    match section
    case Http => k.LatencyHist? || k.Routes? || k.Releases?
    case Ai => k.LatencyHist? || k.Reasons? || k.EventTypes? || k.RequestKinds? || k.Models? || k.WorkerErrors? || k.Channels?
    case Frontend => k.EventTypes? || k.ErrorNames? || k.Contexts? || k.Releases? || k.Metrics?
    case _ => false
  }

  /** Groups whose entries are rows of their own. */
  predicate RowsIn(section: Key, k: Key) {
    (section.Http? && (k.Routes? || k.Releases?)) || (section.Ai? && k.Channels?) || (section.Frontend? && k.Metrics?)
  }

  /** Which paths are dictionaries. */
  predicate Branch(p: Path) {
    if |p| == 1 then p[0].Http? || p[0].Ai? || p[0].Presence? || p[0].Frontend?
    else if |p| == 2 then GroupOf(p[0], p[1])
    else if |p| == 3 then RowsIn(p[0], p[1])
    else if |p| == 4 then RowsIn(p[0], p[1]) && (p[3].LatencyHist? || p[3].Reasons? || p[3].Hist?)
    else false
  }

  ghost predicate Shaped(t: Bucket) {
    forall p :: Find(t, p).Some? ==> (Find(t, p).value.Dict? <==> Branch(p))
  }

  ghost predicate NonNegative(t: Bucket) {
    forall p :: At(t, p) >= 0.0
  }

  ghost predicate RowKinds(path: Path, defaults: Bucket) {
    forall q :: q != [] && Find(defaults, q).Some? ==> (Find(defaults, q).value.Dict? <==> Branch(path + q))
  }

  ghost predicate EditOk(e: Edit) {
    e.path != [] &&
    match e
    case Bump(p, n) => !Branch(p) && !MaxPath(p) && n >= 0.0
    case Inc(p, n) => !Branch(p) && !MaxPath(p) && n >= 0.0
    case Peak(p, v) => !Branch(p) && MaxPath(p) && v >= 0.0
    case Row(p, d) => Branch(p) && d.Dict? && Zero(d.kids) && RowKinds(p, d.kids)
  }

  lemma {:induction false} FindUnder(t: Bucket, p: Path, q: Path)
    requires p != [] && q != []
    ensures Find(t, p + q) == if Find(t, p).Some? && Find(t, p).value.Dict? then Find(Find(t, p).value.kids, q) else None
    decreases |p|
  {
    if |p| == 1 {
      assert p + q == [p[0]] + q;
      FindInside(t, p[0], q);
    } else {
      assert (p + q)[1..] == p[1..] + q;
      if p[0] in t && t[p[0]].Dict? {
        FindUnder(t[p[0]].kids, p[1..], q);
      }
    }
  }

  lemma RowFitsShape(t: Bucket, e: Edit)
    requires Shaped(t) && EditOk(e)
    ensures RowFits(t, e, e.path)
  {
    var p := e.path;
    if e.Row? && Find(t, p).Some? && Find(t, p).value.Dict? {
      var kids := Find(t, p).value.kids;
      forall q | Find(kids, q).Some? && Find(e.defaults.kids, q).Some?
        ensures Find(kids, q).value.Dict? <==> Find(e.defaults.kids, q).value.Dict?
      {
        FindUnder(t, p, q);
        assert Find(t, p + q).Some?;
      }
    }
  }

  /** An edit of the right kind keeps the shape and keeps numbers from going negative. */
  lemma EditKeeps(t: Bucket, e: Edit)
    requires Shaped(t) && NonNegative(t) && EditOk(e) && Apply(t, e.path, e).Some?
    ensures Shaped(Apply(t, e.path, e).value) && NonNegative(Apply(t, e.path, e).value)
    ensures forall q :: Find(t, q).Some? ==> Find(Apply(t, e.path, e).value, q).Some?
    ensures forall q :: At(Apply(t, e.path, e).value, q) == if q == e.path then Effect(At(t, q), e) else At(t, q)
    ensures e.Row? ==> Find(Apply(t, e.path, e).value, e.path).Some?
                       && forall k :: k in e.defaults.kids ==> Find(Apply(t, e.path, e).value, e.path + [k]).Some?
  {
    hide Branch;
    hide MaxPath;
    RowFitsShape(t, e);
    var p, r := e.path, Apply(t, e.path, e).value;
    forall q
      ensures Find(t, q).Some? ==> Find(r, q).Some?
      ensures At(r, q) == if q == p then Effect(At(t, q), e) else At(t, q)
    {
      assert At(t, p) >= 0.0;
      ApplyFind(t, p, e, q);
      ApplyAt(t, p, e, q);
    }
    forall q | Find(r, q).Some?
      ensures Find(r, q).value.Dict? <==> Branch(q)
    {
      ShapeKept(t, e, q);
    }
    forall q
      ensures At(r, q) >= 0.0
    {
      assert At(t, q) >= 0.0;
    }
    if e.Row? {
      forall k | k in e.defaults.kids
        ensures Find(r, p + [k]).Some?
      {
        ApplyFind(t, p, e, [k]);
        assert Find(e.defaults.kids, [k]).Some?;
      }
      ApplyFind(t, p, e, []);
    }
  }

  lemma ShapeKept(t: Bucket, e: Edit, q: Path)
    requires Shaped(t) && EditOk(e) && Apply(t, e.path, e).Some? && RowFits(t, e, e.path)
    requires Find(Apply(t, e.path, e).value, q).Some?
    ensures Find(Apply(t, e.path, e).value, q).value.Dict? <==> Branch(q)
  {
    hide Branch;
    hide MaxPath;
    var p := e.path;
    ApplyFind(t, p, e, q);
    ApplyAdds(t, p, e, q);
    if Find(t, q).None? && q != p {
      var rest := q[|p|..];
      assert q == p + rest;
      ApplyFind(t, p, e, rest);
    }
  }

  /** An edit works when what it needs is there. */
  lemma {:induction false} ApplyWorks(t: Bucket, p: Path, e: Edit)
    requires p != [] && (e.Bump? ==> Find(t, p).Some?)
    requires |p| > 1 ==> Find(t, p[..|p| - 1]).Some? && Find(t, p[..|p| - 1]).value.Dict?
    requires Find(t, p).Some? ==> Find(t, p).value.Dict? == e.Row?
    requires e.Row? ==> e.defaults.Dict?
    ensures Apply(t, p, e).Some?
    decreases |p|
  {
    if |p| > 1 {
      var k := p[0];
      if |p| > 2 {
        assert p[..|p| - 1][1..] == p[1..][..|p[1..]| - 1];
      }
      ApplyWorks(t[k].kids, p[1..], e);
    }
  }

  function Gives(e: Edit): set<Path> {
    if e.Row? && e.defaults.Dict? then {e.path} + set k | k in e.defaults.kids :: e.path + [k] else {}
  }

  predicate Needs(have: set<Path>, e: Edit) {
    if e.Bump? then e.path in have else |e.path| > 1 && e.path[..|e.path| - 1] in have
  }

  predicate Supported(have: set<Path>, es: seq<Edit>)
    decreases es
  {
    es == [] || (Needs(have, es[0]) && Supported(have + Gives(es[0]), es[1..]))
  }

  function Effects(x: real, es: seq<Edit>, q: Path): real
    decreases es
  {
    if es == [] then x else Effects(if es[0].path == q then Effect(x, es[0]) else x, es[1..], q)
  }

  /** Supported edits all succeed, and change exactly the numbers they name. */
  lemma {:induction false} EditsWork(t: Bucket, have: set<Path>, es: seq<Edit>)
    requires Shaped(t) && NonNegative(t) && Supported(have, es)
    requires forall p :: p in have ==> Find(t, p).Some?
    requires forall i :: 0 <= i < |es| ==> EditOk(es[i]) && ParentOk(es[i])
    ensures RunEdits(t, es).Some?
    ensures Shaped(RunEdits(t, es).value) && NonNegative(RunEdits(t, es).value)
    ensures forall q :: Find(t, q).Some? ==> Find(RunEdits(t, es).value, q).Some?
    ensures forall q :: At(RunEdits(t, es).value, q) == Effects(At(t, q), es, q)
    decreases es
  {
    hide Branch;
    hide EditOk;
    hide Apply;
    hide Effect;
    if es != [] {
      var e := es[0];
      OneWorks(t, have, e);
      EditKeeps(t, e);
      var n := Apply(t, e.path, e).value;
      var more := have + Gives(e);
      forall p | p in more
        ensures Find(n, p).Some?
      {
        assert Find(t, p).Some? ==> Find(n, p).Some?;
      }
      EditsWork(n, more, es[1..]);
      forall q
        ensures At(RunEdits(t, es).value, q) == Effects(At(t, q), es, q)
      {
        assert At(n, q) == if q == e.path then Effect(At(t, q), e) else At(t, q);
      }
    }
  }

  predicate ParentOk(e: Edit) {
    |e.path| > 1 ==> Branch(e.path[..|e.path| - 1])
  }

  lemma OneWorks(t: Bucket, have: set<Path>, e: Edit)
    requires Shaped(t) && EditOk(e) && ParentOk(e) && Needs(have, e)
    requires forall p :: p in have ==> Find(t, p).Some?
    ensures Apply(t, e.path, e).Some?
  {
    hide Branch;
    hide MaxPath;
    var p := e.path;
    if e.Bump? && |p| > 1 {
      FindPrefix(t, p, |p| - 1);
    }
    ApplyWorks(t, p, e);
  }

  lemma {:induction false} FindPrefix(t: Bucket, p: Path, n: nat)
    requires 0 < n < |p| && Find(t, p).Some?
    ensures Find(t, p[..n]).Some? && Find(t, p[..n]).value.Dict?
    decreases |p|
  {
    if n > 1 {
      FindPrefix(t[p[0]].kids, p[1..], n - 1);
      assert p[..n][1..] == p[1..][..n - 1];
    }
  }

  // ---- Every sample's edits are of the right kind and supported.

  function Base(section: Key): set<Path> {
    {[section]} + set k | k in Template(section) :: [section, k]
  }

  ghost predicate Fine(have: set<Path>, es: seq<Edit>) {
    Supported(have, es) && forall i :: 0 <= i < |es| ==> EditOk(es[i]) && ParentOk(es[i])
  }

  lemma {:induction false} SupportedMore(have: set<Path>, more: set<Path>, es: seq<Edit>)
    requires Supported(have, es) && have <= more
    ensures Supported(more, es)
    decreases es
  {
    if es != [] {
      SupportedMore(have + Gives(es[0]), more + Gives(es[0]), es[1..]);
    }
  }

  lemma {:induction false} FineBoth(have: set<Path>, a: seq<Edit>, b: seq<Edit>)
    requires Fine(have, a) && Fine(have, b)
    ensures Fine(have, a + b)
    decreases a
  {
    hide EditOk;
    hide ParentOk;
    hide Needs;
    hide Gives;
    if a == [] {
      assert a + b == b;
    } else {
      var more := have + Gives(a[0]);
      SupportedMore(have, more, b);
      FineBoth(more, a[1..], b);
      assert (a + b)[1..] == a[1..] + b;
    }
  }

  lemma FineOne(have: set<Path>, e: Edit)
    requires EditOk(e) && ParentOk(e) && Needs(have, e)
    ensures Fine(have, [e])
  {
    assert [e][1..] == [];
  }

  lemma FineThen(have: set<Path>, e: Edit, es: seq<Edit>)
    requires EditOk(e) && ParentOk(e) && Needs(have, e) && Fine(have + Gives(e), es)
    ensures Fine(have, [e] + es)
  {
    assert ([e] + es)[1..] == es;
  }

  lemma NoneFine(have: set<Path>)
    ensures Fine(have, [])
  {
  }

  /** A counter at a path whose last key is no maximum. */
  lemma CounterFine(have: set<Path>, p: Path, k: Key, n: real, direct: bool)
    requires p != [] && Branch(p) && !Branch(p + [k]) && !k.LatencyMaxMs? && !k.OnlineMax? && !k.ValueMax? && n >= 0.0
    requires if direct then p + [k] in have else p in have
    ensures Fine(have, [if direct then Bump(p + [k], n) else Inc(p + [k], n)])
  {
    hide Branch;
    hide IsMax;
    OnlyMaximaLookLikeIt(k);
    assert (p + [k])[..|p|] == p;
    FineOne(have, if direct then Bump(p + [k], n) else Inc(p + [k], n));
  }

  lemma PeakFine(have: set<Path>, p: Path, k: Key, v: real)
    requires p != [] && Branch(p) && !Branch(p + [k]) && (k.LatencyMaxMs? || k.OnlineMax? || k.ValueMax?) && v >= 0.0
    requires p in have
    ensures Fine(have, [Peak(p + [k], v)])
  {
    hide Branch;
    hide IsMax;
    OnlyMaximaLookLikeIt(k);
    assert (p + [k])[..|p|] == p;
    FineOne(have, Peak(p + [k], v));
  }

  lemma TopFine(section: Key, k: Key, n: real)
    requires Branch([section]) && k in Template(section) && !GroupOf(section, k) && n >= 0.0
    requires !k.LatencyMaxMs? && !k.OnlineMax? && !k.ValueMax?
    ensures Fine(Base(section), [Bump([section, k], n)])
  {
    assert [section] + [k] == [section, k];
    CounterFine(Base(section), [section], k, n, true);
  }

  lemma TopPeakFine(section: Key, k: Key, v: real)
    requires Branch([section]) && !GroupOf(section, k) && (k.LatencyMaxMs? || k.OnlineMax?) && v >= 0.0
    ensures Fine(Base(section), [Peak([section, k], v)])
  {
    assert [section] + [k] == [section, k];
    PeakFine(Base(section), [section], k, v);
  }

  lemma GroupFine(section: Key, group: Key, k: Key)
    requires group in Template(section) && GroupOf(section, group) && !RowsIn(section, group)
    requires k.Label? || k.AtMost? || k.Unbounded?
    ensures Fine(Base(section), [Inc([section, group, k], 1.0)])
  {
    assert [section, group] + [k] == [section, group, k];
    CounterFine(Base(section), [section, group], k, 1.0, false);
  }

  // ---- Rows.

  lemma FindLiteral(kids: Bucket, q: Path)
    requires forall k :: k in kids ==> kids[k] == NONE || kids[k] == EMPTY
    ensures Find(kids, q).Some? ==> |q| == 1 && q[0] in kids && Find(kids, q).value == kids[q[0]]
    ensures At(kids, q) == 0.0
  {
    if q != [] && q[0] in kids && |q| > 1 && kids[q[0]].Dict? {
      assert Find(EMPTY.kids, q[1..]).None?;
    }
  }

  predicate RowDefaults(d: Tree) {
    d == TRAFFIC_ROW || d == CHANNEL_ROW || d == METRIC_ROW
  }

  lemma RowDefaultsOk(section: Key, group: Key, k: Key, d: Tree)
    requires RowsIn(section, group) && RowDefaults(d)
    ensures EditOk(Row([section, group, k], d))
  {
    var p := [section, group, k];
    forall q
      ensures At(d.kids, q) == 0.0
      ensures q != [] && Find(d.kids, q).Some? ==> (Find(d.kids, q).value.Dict? <==> Branch(p + q))
    {
      FindLiteral(d.kids, q);
      if |q| == 1 {
        assert p + q == [section, group, k, q[0]];
      }
    }
  }

  /** A row, then edits supported inside it. */
  lemma RowFine(section: Key, group: Key, k: Key, d: Tree, es: seq<Edit>)
    requires RowsIn(section, group) && GroupOf(section, group) && group in Template(section) && RowDefaults(d)
    requires Fine(RowBase(section, group, k, d), es)
    ensures Fine(Base(section), [Row([section, group, k], d)] + es)
  {
    var e := Row([section, group, k], d);
    RowDefaultsOk(section, group, k, d);
    assert e.path[..2] == [section, group];
    var h := Base(section);
    assert RowBase(section, group, k, d) <= h + Gives(e) by {
      assert forall j :: j in d.kids ==> e.path + [j] == [section, group, k, j];
    }
    FineMore(RowBase(section, group, k, d), h + Gives(e), es);
    FineThen(h, e, es);
  }

  lemma FineMore(have: set<Path>, more: set<Path>, es: seq<Edit>)
    requires Fine(have, es) && have <= more
    ensures Fine(more, es)
  {
    SupportedMore(have, more, es);
  }

  function RowBase(section: Key, group: Key, k: Key, d: Tree): set<Path>
    requires d.Dict?
  {
    {[section, group, k]} + set j | j in d.kids :: [section, group, k, j]
  }

  /** Edits each supported on its own are supported one after the other. */
  lemma {:induction false} FineAll(have: set<Path>, es: seq<Edit>)
    requires forall i :: 0 <= i < |es| ==> Fine(have, [es[i]])
    ensures Fine(have, es)
    decreases es
  {
    hide Fine;
    if es == [] {
      NoneFine(have);
    } else {
      FineAll(have, es[1..]);
      FineBoth(have, [es[0]], es[1..]);
      assert [es[0]] + es[1..] == es;
    }
  }

  lemma RowCounterFine(section: Key, group: Key, k: Key, d: Tree, j: Key, n: real)
    requires RowsIn(section, group) && RowDefaults(d) && j in d.kids && d.kids[j] == NONE && n >= 0.0
    requires !j.LatencyMaxMs? && !j.ValueMax?
    ensures Fine(RowBase(section, group, k, d), [Bump([section, group, k, j], n)])
  {
    assert [section, group, k] + [j] == [section, group, k, j];
    CounterFine(RowBase(section, group, k, d), [section, group, k], j, n, true);
  }

  lemma RowPeakFine(section: Key, group: Key, k: Key, d: Tree, j: Key, v: real)
    requires RowsIn(section, group) && RowDefaults(d) && (j.LatencyMaxMs? || j.ValueMax?) && v >= 0.0
    ensures Fine(RowBase(section, group, k, d), [Peak([section, group, k, j], v)])
  {
    assert [section, group, k] + [j] == [section, group, k, j];
    PeakFine(RowBase(section, group, k, d), [section, group, k], j, v);
  }

  lemma RowGroupFine(section: Key, group: Key, k: Key, d: Tree, j: Key, slot: Key)
    requires RowsIn(section, group) && RowDefaults(d) && j in d.kids && (j.LatencyHist? || j.Reasons? || j.Hist?)
    requires slot.Label? || slot.AtMost? || slot.Unbounded?
    ensures Fine(RowBase(section, group, k, d), [Inc([section, group, k, j, slot], 1.0)])
  {
    assert [section, group, k, j] + [slot] == [section, group, k, j, slot];
    CounterFine(RowBase(section, group, k, d), [section, group, k, j], slot, 1.0, false);
  }

  lemma FineThree(h: set<Path>, a: Edit, b: Edit, c: Edit)
    requires Fine(h, [a]) && Fine(h, [b]) && Fine(h, [c])
    ensures Fine(h, [a, b, c])
  {
    hide Fine;
    FineAll(h, [a, b, c]);
  }

  lemma PresenceFine(online: int)
    ensures Fine(Base(Presence), PresenceEdits(online))
  {
    hide Fine;
    hide Base;
    TopFine(Presence, Samples, 1.0);
    TopFine(Presence, OnlineSum, Count(online));
    TopPeakFine(Presence, OnlineMax, Count(online));
    FineThree(Base(Presence), Bump([Presence, Samples], 1.0), Bump([Presence, OnlineSum], Count(online)), Peak([Presence, OnlineMax], Count(online)));
  }

  lemma FineFive(h: set<Path>, a: Edit, b: Edit, c: Edit, d: Edit, e: Edit)
    requires Fine(h, [a]) && Fine(h, [b]) && Fine(h, [c]) && Fine(h, [d]) && Fine(h, [e])
    ensures Fine(h, [a, b, c, d, e])
  {
    hide Fine;
    FineAll(h, [a, b, c, d, e]);
  }

  lemma FineWhen(h: set<Path>, b: bool, e: Edit)
    requires Fine(h, [e])
    ensures Fine(h, When(b, e))
  {
    NoneFine(h);
  }

  lemma TrafficList(h: set<Path>, a: Edit, failed: bool, b: Edit, c: Edit, d: Edit)
    requires Fine(h, [a]) && Fine(h, [b]) && Fine(h, [c]) && Fine(h, [d])
    ensures Fine(h, [a] + When(failed, b) + [c, d])
  {
    hide Fine;
    FineWhen(h, failed, b);
    FineAll(h, [c, d]);
    FineBoth(h, [a], When(failed, b));
    FineBoth(h, [a] + When(failed, b), [c, d]);
  }

  lemma TrafficRowFine(group: Key, name: Utf8Bytes, slot: Key, latency: real)
    requires group.Routes? || group.Releases?
    requires (slot.AtMost? || slot.Unbounded?) && latency >= 0.0
    ensures var row, h := [Http, group, Label(name)], RowBase(Http, group, Label(name), TRAFFIC_ROW);
      && Fine(h, [Bump(row + [Requests], 1.0)]) && Fine(h, [Bump(row + [Errors5xx], 1.0)])
      && Fine(h, [Inc(row + [LatencyHist, slot], 1.0)]) && Fine(h, [Peak(row + [LatencyMaxMs], latency)])
  {
    hide Fine;
    hide Base;
    hide RowBase;
    var k, d := Label(name), TRAFFIC_ROW;
    var row := [Http, group, k];
    RowCounterFine(Http, group, k, d, Requests, 1.0);
    RowCounterFine(Http, group, k, d, Errors5xx, 1.0);
    RowGroupFine(Http, group, k, d, LatencyHist, slot);
    RowPeakFine(Http, group, k, d, LatencyMaxMs, latency);
    assert row + [Requests] == [Http, group, k, Requests] && row + [Errors5xx] == [Http, group, k, Errors5xx];
    assert row + [LatencyHist, slot] == [Http, group, k, LatencyHist, slot] && row + [LatencyMaxMs] == [Http, group, k, LatencyMaxMs];
  }

  lemma TrafficFine(group: Key, name: Utf8Bytes, failed: bool, slot: Key, latency: real)
    requires group.Routes? || group.Releases?
    requires (slot.AtMost? || slot.Unbounded?) && latency >= 0.0
    ensures Fine(Base(Http), TrafficEdits(group, name, failed, slot, latency))
  {
    hide Fine;
    hide Base;
    hide RowBase;
    var row := [Http, group, Label(name)];
    TrafficRowFine(group, name, slot, latency);
    var es := [Bump(row + [Requests], 1.0)] + When(failed, Bump(row + [Errors5xx], 1.0))
              + [Inc(row + [LatencyHist, slot], 1.0), Peak(row + [LatencyMaxMs], latency)];
    TrafficList(RowBase(Http, group, Label(name), TRAFFIC_ROW), Bump(row + [Requests], 1.0), failed, Bump(row + [Errors5xx], 1.0),
      Inc(row + [LatencyHist, slot], 1.0), Peak(row + [LatencyMaxMs], latency));
    RowFine(Http, group, Label(name), TRAFFIC_ROW, es);
    assert [Row(row, TRAFFIC_ROW)] + es == TrafficEdits(group, name, failed, slot, latency);
  }

  lemma HttpTopFine(slot: Key, latency: real)
    requires (slot.AtMost? || slot.Unbounded?) && latency >= 0.0
    ensures Fine(Base(Http), [Bump([Http, Samples], 1.0)]) && Fine(Base(Http), [Bump([Http, Status2xx], 1.0)])
    ensures Fine(Base(Http), [Bump([Http, Status4xx], 1.0)]) && Fine(Base(Http), [Bump([Http, Status5xx], 1.0)])
    ensures Fine(Base(Http), [Inc([Http, LatencyHist, slot], 1.0)]) && Fine(Base(Http), [Peak([Http, LatencyMaxMs], latency)])
  {
    hide Fine;
    hide Base;
    hide RowBase;
    TopFine(Http, Samples, 1.0);
    TopFine(Http, Status2xx, 1.0);
    TopFine(Http, Status4xx, 1.0);
    TopFine(Http, Status5xx, 1.0);
    GroupFine(Http, LatencyHist, slot);
    TopPeakFine(Http, LatencyMaxMs, latency);
  }

  lemma HttpList(h: set<Path>, a: Edit, b: seq<Edit>, c: seq<Edit>, d: seq<Edit>, e: Edit, f: Edit, g: seq<Edit>, i: seq<Edit>)
    requires Fine(h, [a]) && Fine(h, b) && Fine(h, c) && Fine(h, d) && Fine(h, [e]) && Fine(h, [f]) && Fine(h, g) && Fine(h, i)
    ensures Fine(h, [a] + b + c + d + [e, f] + g + i)
  {
    hide Fine;
    FineAll(h, [e, f]);
    FineBoth(h, [a], b);
    FineBoth(h, [a] + b, c);
    FineBoth(h, [a] + b + c, d);
    FineBoth(h, [a] + b + c + d, [e, f]);
    FineBoth(h, [a] + b + c + d + [e, f], g);
    FineBoth(h, [a] + b + c + d + [e, f] + g, i);
  }

  lemma HttpFine(s: Sample)
    requires s.HttpSample?
    ensures Fine(Base(Http), HttpEdits(s))
  {
    hide Fine;
    hide Base;
    hide TrafficEdits;
    hide Slot;
    hide When;
    var latency := Larger(0.0, s.latency);
    var family := if s.status > 0 then s.status / 100 else 0;
    var slot := Slot(latency, LATENCY_BOUNDS);
    var h := Base(Http);
    HttpTopFine(slot, latency);
    FineWhen(h, family == 2, Bump([Http, Status2xx], 1.0));
    FineWhen(h, family == 4, Bump([Http, Status4xx], 1.0));
    FineWhen(h, family == 5, Bump([Http, Status5xx], 1.0));
    TrafficFine(Routes, s.route, family == 5, slot, latency);
    NoneFine(h);
    if s.client.Some? {
      TrafficFine(Releases, s.client.value, family == 5, slot, latency);
    }
    HttpList(h, Bump([Http, Samples], 1.0), When(family == 2, Bump([Http, Status2xx], 1.0)), When(family == 4, Bump([Http, Status4xx], 1.0)),
      When(family == 5, Bump([Http, Status5xx], 1.0)), Inc([Http, LatencyHist, slot], 1.0), Peak([Http, LatencyMaxMs], latency),
      TrafficEdits(Routes, s.route, family == 5, slot, latency),
      if s.client.Some? then TrafficEdits(Releases, s.client.value, family == 5, slot, latency) else []);
  }

  lemma ChannelRowFine(s: Sample, slot: Key, latency: real)
    requires s.AiSample? && (slot.AtMost? || slot.Unbounded?) && latency >= 0.0
    ensures var row, h := [Ai, Channels, Label(s.channel)], RowBase(Ai, Channels, Label(s.channel), CHANNEL_ROW);
      && Fine(h, [Bump(row + [Samples], 1.0)]) && Fine(h, [Bump(row + [Side(s.cloudflare)], 1.0)])
      && Fine(h, [Inc(row + [LatencyHist, slot], 1.0)]) && Fine(h, [Peak(row + [LatencyMaxMs], latency)])
      && Fine(h, [Inc(row + [Reasons, Label(s.reason)], 1.0)])
  {
    hide Fine;
    hide Base;
    hide RowBase;
    var k, d, side := Label(s.channel), CHANNEL_ROW, Side(s.cloudflare);
    var row := [Ai, Channels, k];
    RowCounterFine(Ai, Channels, k, d, Samples, 1.0);
    RowCounterFine(Ai, Channels, k, d, side, 1.0);
    RowGroupFine(Ai, Channels, k, d, LatencyHist, slot);
    RowPeakFine(Ai, Channels, k, d, LatencyMaxMs, latency);
    RowGroupFine(Ai, Channels, k, d, Reasons, Label(s.reason));
    assert row + [Samples] == [Ai, Channels, k, Samples] && row + [side] == [Ai, Channels, k, side];
    assert row + [LatencyHist, slot] == [Ai, Channels, k, LatencyHist, slot] && row + [LatencyMaxMs] == [Ai, Channels, k, LatencyMaxMs];
    assert row + [Reasons, Label(s.reason)] == [Ai, Channels, k, Reasons, Label(s.reason)];
  }

  lemma ChannelFine(s: Sample, slot: Key, latency: real)
    requires s.AiSample? && (slot.AtMost? || slot.Unbounded?) && latency >= 0.0
    ensures Fine(Base(Ai), ChannelEdits(s, slot, latency))
  {
    hide Fine;
    hide Base;
    hide RowBase;
    var row := [Ai, Channels, Label(s.channel)];
    ChannelRowFine(s, slot, latency);
    var a, b, c := Bump(row + [Samples], 1.0), Bump(row + [Side(s.cloudflare)], 1.0), Inc(row + [LatencyHist, slot], 1.0);
    var d, e := Peak(row + [LatencyMaxMs], latency), Inc(row + [Reasons, Label(s.reason)], 1.0);
    FineFive(RowBase(Ai, Channels, Label(s.channel), CHANNEL_ROW), a, b, c, d, e);
    RowFine(Ai, Channels, Label(s.channel), CHANNEL_ROW, [a, b, c, d, e]);
    assert [Row(row, CHANNEL_ROW)] + [a, b, c, d, e] == ChannelEdits(s, slot, latency);
  }

  lemma AiCountersFine(s: Sample)
    requires s.AiSample?
    ensures Fine(Base(Ai), [Bump([Ai, Samples], 1.0)]) && Fine(Base(Ai), [Bump([Ai, Side(s.cloudflare)], 1.0)])
    ensures Fine(Base(Ai), [Bump([Ai, InputTokens], Count(s.input))]) && Fine(Base(Ai), [Bump([Ai, OutputTokens], Count(s.output))])
  {
    hide Fine;
    hide Base;
    TopFine(Ai, Samples, 1.0);
    TopFine(Ai, Side(s.cloudflare), 1.0);
    TopFine(Ai, InputTokens, Count(s.input));
    TopFine(Ai, OutputTokens, Count(s.output));
  }

  lemma AiGroupsFine(s: Sample, slot: Key, latency: real)
    requires s.AiSample? && (slot.AtMost? || slot.Unbounded?) && latency >= 0.0
    ensures Fine(Base(Ai), [Inc([Ai, LatencyHist, slot], 1.0)]) && Fine(Base(Ai), [Peak([Ai, LatencyMaxMs], latency)])
    ensures Fine(Base(Ai), [Inc([Ai, Reasons, Label(s.reason)], 1.0)]) && Fine(Base(Ai), [Inc([Ai, EventTypes, Label(s.eventType)], 1.0)])
    ensures Fine(Base(Ai), [Inc([Ai, RequestKinds, Label(s.kind)], 1.0)])
  {
    hide Fine;
    hide Base;
    GroupFine(Ai, LatencyHist, slot);
    TopPeakFine(Ai, LatencyMaxMs, latency);
    GroupFine(Ai, Reasons, Label(s.reason));
    GroupFine(Ai, EventTypes, Label(s.eventType));
    GroupFine(Ai, RequestKinds, Label(s.kind));
  }

  lemma NineList(h: set<Path>, a: Edit, b: Edit, c: Edit, d: Edit, e: Edit, f: Edit, g: Edit, i: Edit, j: Edit)
    requires Fine(h, [a]) && Fine(h, [b]) && Fine(h, [c]) && Fine(h, [d]) && Fine(h, [e]) && Fine(h, [f]) && Fine(h, [g]) && Fine(h, [i]) && Fine(h, [j])
    ensures Fine(h, [a, b, c, d, e, f, g, i, j])
  {
    hide Fine;
    FineAll(h, [a, b, c, d, e, f, g, i, j]);
  }

  lemma FineFour(h: set<Path>, a: seq<Edit>, b: seq<Edit>, c: seq<Edit>, d: seq<Edit>)
    requires Fine(h, a) && Fine(h, b) && Fine(h, c) && Fine(h, d)
    ensures Fine(h, a + b + c + d)
  {
    hide Fine;
    FineBoth(h, a, b);
    FineBoth(h, a + b, c);
    FineBoth(h, a + b + c, d);
  }

  lemma AiFine(s: Sample)
    requires s.AiSample?
    ensures Fine(Base(Ai), AiEdits(s))
  {
    hide Fine;
    hide Base;
    hide OptionalLabel;
    hide Slot;
    hide ChannelEdits;
    var latency := Larger(0.0, s.latency);
    var slot := Slot(latency, LATENCY_BOUNDS);
    var h := Base(Ai);
    AiCountersFine(s);
    AiGroupsFine(s, slot, latency);
    OptionalFine(Models, s.model);
    OptionalFine(WorkerErrors, s.workerError);
    ChannelFine(s, slot, latency);
    NineList(h, Bump([Ai, Samples], 1.0), Bump([Ai, Side(s.cloudflare)], 1.0), Inc([Ai, LatencyHist, slot], 1.0), Peak([Ai, LatencyMaxMs], latency),
      Bump([Ai, InputTokens], Count(s.input)), Bump([Ai, OutputTokens], Count(s.output)),
      Inc([Ai, Reasons, Label(s.reason)], 1.0), Inc([Ai, EventTypes, Label(s.eventType)], 1.0), Inc([Ai, RequestKinds, Label(s.kind)], 1.0));
    FineFour(h, [Bump([Ai, Samples], 1.0), Bump([Ai, Side(s.cloudflare)], 1.0), Inc([Ai, LatencyHist, slot], 1.0), Peak([Ai, LatencyMaxMs], latency),
      Bump([Ai, InputTokens], Count(s.input)), Bump([Ai, OutputTokens], Count(s.output)),
      Inc([Ai, Reasons, Label(s.reason)], 1.0), Inc([Ai, EventTypes, Label(s.eventType)], 1.0), Inc([Ai, RequestKinds, Label(s.kind)], 1.0)],
      OptionalLabel(Models, s.model), OptionalLabel(WorkerErrors, s.workerError), ChannelEdits(s, slot, latency));
  }

  lemma OptionalFine(group: Key, name: Option<Utf8Bytes>)
    requires group.Models? || group.WorkerErrors?
    ensures Fine(Base(Ai), OptionalLabel(group, name))
  {
    hide Fine;
    hide Base;
    hide RowBase;
    if name.Some? {
      GroupFine(Ai, group, Label(name.value));
    } else {
      NoneFine(Base(Ai));
    }
  }

  lemma MetricRowFine(metric: Utf8Bytes, slot: Key, v: real)
    requires (slot.AtMost? || slot.Unbounded?) && v >= 0.0
    ensures var row, h := [Frontend, Metrics, Label(metric)], RowBase(Frontend, Metrics, Label(metric), METRIC_ROW);
      Fine(h, [Bump(row + [Samples], 1.0)]) && Fine(h, [Inc(row + [Hist, slot], 1.0)]) && Fine(h, [Peak(row + [ValueMax], v)])
  {
    hide Fine;
    hide Base;
    hide RowBase;
    var k, d := Label(metric), METRIC_ROW;
    var row := [Frontend, Metrics, k];
    RowCounterFine(Frontend, Metrics, k, d, Samples, 1.0);
    RowGroupFine(Frontend, Metrics, k, d, Hist, slot);
    RowPeakFine(Frontend, Metrics, k, d, ValueMax, v);
    assert row + [Samples] == [Frontend, Metrics, k, Samples] && row + [Hist, slot] == [Frontend, Metrics, k, Hist, slot];
    assert row + [ValueMax] == [Frontend, Metrics, k, ValueMax];
  }

  lemma MetricFine(metric: Utf8Bytes, slot: Key, v: real)
    requires (slot.AtMost? || slot.Unbounded?) && v >= 0.0
    ensures Fine(Base(Frontend), MetricEdits(metric, slot, v))
  {
    hide Fine;
    hide Base;
    hide RowBase;
    var row := [Frontend, Metrics, Label(metric)];
    MetricRowFine(metric, slot, v);
    var a, b, c := Bump(row + [Samples], 1.0), Inc(row + [Hist, slot], 1.0), Peak(row + [ValueMax], v);
    FineThree(RowBase(Frontend, Metrics, Label(metric), METRIC_ROW), a, b, c);
    RowFine(Frontend, Metrics, Label(metric), METRIC_ROW, [a, b, c]);
    assert [Row(row, METRIC_ROW)] + [a, b, c] == MetricEdits(metric, slot, v);
  }

  lemma FrontendTopFine(s: Sample)
    requires s.FrontendSample?
    ensures Fine(Base(Frontend), [Bump([Frontend, Samples], 1.0)]) && Fine(Base(Frontend), [Inc([Frontend, EventTypes, Label(s.event)], 1.0)])
    ensures Fine(Base(Frontend), [Inc([Frontend, Contexts, Label(s.context)], 1.0)]) && Fine(Base(Frontend), [Inc([Frontend, Releases, Label(s.release)], 1.0)])
    ensures Fine(Base(Frontend), [Bump([Frontend, Errors], 1.0)])
    ensures s.error.Some? ==> Fine(Base(Frontend), [Inc([Frontend, ErrorNames, Label(s.error.value)], 1.0)])
  {
    hide Fine;
    hide Base;
    hide RowBase;
    TopFine(Frontend, Samples, 1.0);
    GroupFine(Frontend, EventTypes, Label(s.event));
    GroupFine(Frontend, Contexts, Label(s.context));
    GroupFine(Frontend, Releases, Label(s.release));
    TopFine(Frontend, Errors, 1.0);
    if s.error.Some? {
      GroupFine(Frontend, ErrorNames, Label(s.error.value));
    }
  }

  lemma FourList(h: set<Path>, a: Edit, b: Edit, c: Edit, d: Edit)
    requires Fine(h, [a]) && Fine(h, [b]) && Fine(h, [c]) && Fine(h, [d])
    ensures Fine(h, [a, b, c, d])
  {
    hide Fine;
    FineAll(h, [a, b, c, d]);
  }

  lemma FrontendFine(s: Sample)
    requires s.FrontendSample?
    ensures Fine(Base(Frontend), FrontendEdits(s))
  {
    hide Fine;
    hide Base;
    hide Slot;
    hide MetricEdits;
    var h := Base(Frontend);
    FrontendTopFine(s);
    NoneFine(h);
    FourList(h, Bump([Frontend, Samples], 1.0), Inc([Frontend, EventTypes, Label(s.event)], 1.0), Inc([Frontend, Contexts, Label(s.context)], 1.0),
      Inc([Frontend, Releases, Label(s.release)], 1.0));
    var top := [Bump([Frontend, Samples], 1.0), Inc([Frontend, EventTypes, Label(s.event)], 1.0), Inc([Frontend, Contexts, Label(s.context)], 1.0),
                Inc([Frontend, Releases, Label(s.release)], 1.0)];
    var named := if s.error.Some? then [Inc([Frontend, ErrorNames, Label(s.error.value)], 1.0)] else [];
    FineBoth(h, [Bump([Frontend, Errors], 1.0)], named);
    var errors := if !s.vital then [Bump([Frontend, Errors], 1.0)] + named else [];
    var measured := s.vital && s.metric.Some? && s.value.Some?;
    var scaled := if s.value.Some? then Scaled(s.value.value, s.layoutShift) else 0.0;
    var slot := Slot(scaled, if s.layoutShift then SHIFT_BOUNDS else FRONTEND_BOUNDS);
    if measured {
      MetricFine(s.metric.value, slot, scaled);
    }
    FineBoth(h, top, errors);
    FineBoth(h, top + errors, if measured then MetricEdits(s.metric.value, slot, scaled) else []);
  }

  lemma SampleFine(s: Sample)
    ensures Fine(Base(Section(s)), Edits(s)) && Branch([Section(s)])
  {
    match s {
      case HttpSample(_, _, _, _) => HttpFine(s);
      case AiSample(_, _, _, _, _, _, _, _, _, _) => AiFine(s);
      case PresenceSample(online) => PresenceFine(online);
      case FrontendSample(_, _, _, _, _, _, _, _) => FrontendFine(s);
    }
  }

  // ---- Recording into whatever is pending.

  /** The pending bucket, made whole where the sample will write. */
  function Hydrated(t: Option<Bucket>, section: Key): Bucket {
    match t
    case None => FreshBucket()
    case Some(b) =>
      if section in b && b[section].Dict? then b[section := Restore(b[section], Dict(Template(section)))]
      else b[section := Dict(Template(section))]
  }

  ghost predicate GoodBucket(t: Bucket) {
    Shaped(t) && NonNegative(t)
  }

  lemma TemplateZero(section: Key, q: Path)
    requires Branch([section])
    ensures At(Template(section), q) == 0.0
    ensures Find(Template(section), q).Some? ==> |q| == 1 && q[0] in Template(section)
    ensures Find(Template(section), q).Some? ==> (Find(Template(section), q).value.Dict? <==> Branch([section] + q))
  {
    FindLiteral(Template(section), q);
    if |q| == 1 {
      assert [section] + q == [section, q[0]];
    }
  }

  lemma FreshIsGood()
    ensures GoodBucket(FreshBucket())
    ensures forall q :: At(FreshBucket(), q) == 0.0
    ensures forall section, p :: Branch([section]) && p in Base(section) ==> Find(FreshBucket(), p).Some?
  {
    var t := FreshBucket();
    forall q
      ensures At(t, q) == 0.0
      ensures Find(t, q).Some? ==> (Find(t, q).value.Dict? <==> Branch(q))
    {
      if q != [] && q[0] in t && |q| > 1 {
        TemplateZero(q[0], q[1..]);
        assert [q[0]] + q[1..] == q;
      }
    }
    forall section, p | Branch([section]) && p in Base(section)
      ensures Find(t, p).Some?
    {
      if p != [section] {
        assert p[1..] == [p[1]];
      }
    }
  }

  /** Making a bucket whole again changes no number, and gives the sample all it needs. */
  lemma HydratedIsGood(t: Option<Bucket>, section: Key)
    requires Branch([section]) && (t.Some? ==> GoodBucket(t.value))
    ensures GoodBucket(Hydrated(t, section))
    ensures forall p :: p in Base(section) ==> Find(Hydrated(t, section), p).Some?
    ensures forall q :: At(Hydrated(t, section), q) == if t.Some? then At(t.value, q) else 0.0
    ensures t.Some? ==> forall q :: Find(t.value, q).Some? ==> Find(Hydrated(t, section), q).Some?
  {
    FreshIsGood();
    if t.Some? {
      var e := Row([section], Dict(Template(section)));
      TemplateRow(section);
      assert Find(t.value, [section]).Some? ==> Find(t.value, [section]).value.Dict?;
      assert Apply(t.value, e.path, e) == Some(Hydrated(t, section));
      EditKeeps(t.value, e);
      forall p | p in Base(section)
        ensures Find(Hydrated(t, section), p).Some?
      {
        if p != [section] {
          assert p == [section] + [p[1]];
        }
      }
    }
  }

  lemma TemplateRow(section: Key)
    requires Branch([section])
    ensures EditOk(Row([section], Dict(Template(section))))
  {
    forall q
      ensures At(Template(section), q) == 0.0
      ensures Find(Template(section), q).Some? ==> (Find(Template(section), q).value.Dict? <==> Branch([section] + q))
    {
      TemplateZero(section, q);
    }
  }

  /** Whatever a flush has pruned, a sample can be recorded, and changes exactly the
      numbers it names. */
  lemma SampleRecords(t: Option<Bucket>, s: Sample)
    requires t.Some? ==> GoodBucket(t.value)
    ensures var r := RunEdits(Hydrated(t, Section(s)), Edits(s));
      && r.Some? && GoodBucket(r.value)
      && (forall q :: At(r.value, q) == Effects(if t.Some? then At(t.value, q) else 0.0, Edits(s), q))
      && (t.Some? ==> forall q :: Find(t.value, q).Some? ==> Find(r.value, q).Some?)
  {
    SampleFine(s);
    hide Edits;
    HydratedIsGood(t, Section(s));
    EditsWork(Hydrated(t, Section(s)), Base(Section(s)), Edits(s));
  }

  // ---- What two of the numbers mean.

  ghost predicate Avoids(es: seq<Edit>, q: Path) {
    forall i :: 0 <= i < |es| ==> es[i].path != q
  }

  lemma {:induction false} AvoidedStays(x: real, es: seq<Edit>, q: Path)
    requires Avoids(es, q)
    ensures Effects(x, es, q) == x
    decreases es
  {
    if es != [] {
      AvoidedStays(x, es[1..], q);
    }
  }

  /** Supported edits stay inside their section. */
  lemma {:induction false} StaysInside(have: set<Path>, es: seq<Edit>, section: Key)
    requires Supported(have, es) && forall p :: p in have ==> p != [] && p[0] == section
    ensures forall i :: 0 <= i < |es| ==> es[i].path != [] && es[i].path[0] == section
    decreases es
  {
    if es != [] {
      var e := es[0];
      assert !e.Bump? ==> e.path[..|e.path| - 1][0] == section;
      StaysInside(have + Gives(e), es[1..], section);
    }
  }

  lemma OtherSectionsAvoid(s: Sample, q: Path)
    requires q != [] && q[0] != Section(s)
    ensures Avoids(Edits(s), q)
  {
    hide Edits;
    hide EditOk;
    SampleFine(s);
    StaysInside(Base(Section(s)), Edits(s), Section(s));
  }

  /** A request is counted once among the samples. */
  lemma RequestCountsOnce(s: Sample, x: real)
    ensures Effects(x, Edits(s), [Http, Samples]) == if s.HttpSample? then x + 1.0 else x
  {
    var q := [Http, Samples];
    if s.HttpSample? {
      var es := Edits(s);
      OnlyFirstCounts(s);
      AvoidedStays(x + 1.0, es[1..], q);
    } else {
      OtherSectionsAvoid(s, q);
      AvoidedStays(x, Edits(s), q);
    }
  }

  lemma OnlyFirstCounts(s: Sample)
    requires s.HttpSample?
    ensures Edits(s) != [] && Edits(s)[0] == Bump([Http, Samples], 1.0) && Avoids(Edits(s)[1..], [Http, Samples])
  {
    hide Slot;
    hide TrafficEdits;
    hide When;
    var latency := Larger(0.0, s.latency);
    var family := if s.status > 0 then s.status / 100 else 0;
    var slot := Slot(latency, LATENCY_BOUNDS);
    var q := [Http, Samples];
    TrafficIsDeep(Routes, s.route, family == 5, slot, latency);
    if s.client.Some? {
      TrafficIsDeep(Releases, s.client.value, family == 5, slot, latency);
    }
    WhenAvoids(family == 2, Bump([Http, Status2xx], 1.0), q);
    WhenAvoids(family == 4, Bump([Http, Status4xx], 1.0), q);
    WhenAvoids(family == 5, Bump([Http, Status5xx], 1.0), q);
    TailAvoids(Bump(q, 1.0), When(family == 2, Bump([Http, Status2xx], 1.0)), When(family == 4, Bump([Http, Status4xx], 1.0)),
      When(family == 5, Bump([Http, Status5xx], 1.0)), [Inc([Http, LatencyHist, slot], 1.0), Peak([Http, LatencyMaxMs], latency)],
      TrafficEdits(Routes, s.route, family == 5, slot, latency),
      if s.client.Some? then TrafficEdits(Releases, s.client.value, family == 5, slot, latency) else [], q);
  }

  lemma WhenAvoids(b: bool, e: Edit, q: Path)
    requires e.path != q
    ensures Avoids(When(b, e), q)
  {
  }

  lemma TailAvoids(first: Edit, a: seq<Edit>, b: seq<Edit>, c: seq<Edit>, d: seq<Edit>, e: seq<Edit>, f: seq<Edit>, q: Path)
    requires Avoids(a, q) && Avoids(b, q) && Avoids(c, q) && Avoids(d, q) && Avoids(e, q) && Avoids(f, q)
    ensures var es := [first] + a + b + c + d + e + f; es[0] == first && Avoids(es[1..], q)
  {
    var es := [first] + a + b + c + d + e + f;
    assert es[1..] == a + b + c + d + e + f;
    assert Avoids(a + b + c, q);
    assert Avoids(d + e + f, q);
    assert es[1..] == (a + b + c) + (d + e + f);
  }

  lemma TrafficIsDeep(group: Key, name: Utf8Bytes, failed: bool, slot: Key, latency: real)
    ensures forall i :: 0 <= i < |TrafficEdits(group, name, failed, slot, latency)| ==> |TrafficEdits(group, name, failed, slot, latency)[i].path| > 2
  {
  }

  lemma EffectsOfThree(x: real, a: Edit, b: Edit, c: Edit, q: Path)
    requires a.path != q && b.path != q && c.path == q
    ensures Effects(x, [a, b, c], q) == Effect(x, c)
  {
    assert [a, b, c][1..] == [b, c] && [b, c][1..] == [c] && [c][1..] == [];
    assert Effects(x, [a, b, c], q) == Effects(x, [b, c], q);
    assert Effects(x, [b, c], q) == Effects(x, [c], q);
  }

  /** The greatest number of users seen at once. */
  lemma PresencePeaks(s: Sample, x: real)
    ensures Effects(x, Edits(s), [Presence, OnlineMax]) == if s.PresenceSample? then Larger(x, Count(s.online)) else x
  {
    var q := [Presence, OnlineMax];
    if s.PresenceSample? {
      EffectsOfThree(x, Bump([Presence, Samples], 1.0), Bump([Presence, OnlineSum], Count(s.online)), Peak(q, Count(s.online)), q);
    } else {
      OtherSectionsAvoid(s, q);
      AvoidedStays(x, Edits(s), q);
    }
  }
}
