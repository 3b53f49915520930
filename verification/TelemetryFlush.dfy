/** Recording and flushing interleaved: nothing is lost and nothing is counted twice. */
module TelemetryFlush {
  import opened Options
  import opened Telemetry
  import opened TelemetrySamples

  type Document = Path -> real

  /** One flush at a time: between `Sending` and `Sent` the database has taken a bucket
      that has not yet been taken off what is pending. */
  datatype Flush =
    | Quiet
    | Sending(todo: map<nat, Bucket>)
    | Sent(at: nat, snapshot: Bucket, todo: map<nat, Bucket>)

  datatype State = State(pending: map<nat, Bucket>, saved: map<nat, Document>, flush: Flush)

  datatype Event =
    | Recorded(at: nat, sample: Sample)
    | FlushStarted
    | WriteApplied(at: nat)
    | WriteFailed
    | DifferenceTaken

  const START: State := State(map[], map[], Quiet)

  function Pending(s: State, b: nat): Option<Bucket> {
    if b in s.pending then Some(s.pending[b]) else None
  }

  function PendingAt(s: State, b: nat, p: Path): real {
    if b in s.pending then At(s.pending[b], p) else 0.0
  }

  function SavedAt(s: State, b: nat, p: Path): real {
    if b in s.saved then s.saved[b](p) else 0.0
  }

  /** The document after a write: counters added, maxima raised. */
  function Written(s: State, b: nat, snapshot: Bucket): Document {
    (p: Path) => if MaxPath(p) then Larger(SavedAt(s, b, p), At(snapshot, p)) else SavedAt(s, b, p) + At(snapshot, p)
  }

  function Record(s: State, b: nat, sample: Sample): State {
    match RunEdits(Hydrated(Pending(s, b), Section(sample)), Edits(sample))
    case Some(t) => s.(pending := s.pending[b := t])
    case None => s
  }

  function Resume(todo: map<nat, Bucket>): Flush {
    if todo == map[] then Quiet else Sending(todo)
  }

  function TakeOff(s: State, b: nat, snapshot: Bucket): map<nat, Bucket> {
    if b !in s.pending then s.pending
    else
      var rest := Subtract(Dict(s.pending[b]), Dict(snapshot)).kids;
      if rest == map[] then s.pending - {b} else s.pending[b := rest]
  }

  function Next(s: State, e: Event): State {
    match e
    case Recorded(b, sample) => Record(s, b, sample)
    case FlushStarted =>
      if s.flush.Quiet? then s.(flush := Resume(map b | b in s.pending && s.pending[b] != map[] :: s.pending[b])) else s
    case WriteApplied(b) =>
      if s.flush.Sending? && b in s.flush.todo then
        s.(saved := s.saved[b := Written(s, b, s.flush.todo[b])], flush := Sent(b, s.flush.todo[b], s.flush.todo - {b}))
      else s
    case WriteFailed =>
      if s.flush.Sending? then s.(flush := Quiet) else s
    case DifferenceTaken =>
      if s.flush.Sent? then s.(pending := TakeOff(s, s.flush.at, s.flush.snapshot), flush := Resume(s.flush.todo)) else s
  }

  function Run(es: seq<Event>): State {
    if es == [] then START else Next(Run(es[..|es| - 1]), es[|es| - 1])
  }

  // ---- The invariant.

  /** A snapshot being flushed is still covered by what is pending. */
  ghost predicate Underway(s: State, b: nat, snapshot: Bucket) {
    b in s.pending && GoodBucket(snapshot) && Covers(s.pending[b], snapshot)
  }

  ghost predicate Good(s: State) {
    && (forall b :: b in s.pending ==> GoodBucket(s.pending[b]))
    && (s.flush.Sending? ==> forall b :: b in s.flush.todo ==> Underway(s, b, s.flush.todo[b]))
    && (s.flush.Sent? ==>
          && s.flush.at !in s.flush.todo && Underway(s, s.flush.at, s.flush.snapshot)
          && (forall b :: b in s.flush.todo ==> Underway(s, b, s.flush.todo[b]))
          && forall p :: MaxPath(p) ==> At(s.flush.snapshot, p) <= SavedAt(s, s.flush.at, p))
  }

  /** Part of a pending number that the database already has. */
  function Doubled(s: State, b: nat, p: Path): real {
    if s.flush.Sent? && s.flush.at == b then At(s.flush.snapshot, p) else 0.0
  }

  /** What is held for a path: for a counter everything saved and pending, once; for a
      maximum the larger of the two. */
  function Held(s: State, b: nat, p: Path): real {
    if MaxPath(p) then Larger(SavedAt(s, b, p), PendingAt(s, b, p))
    else SavedAt(s, b, p) + PendingAt(s, b, p) - Doubled(s, b, p)
  }

  lemma CoversItself(t: Bucket)
    requires GoodBucket(t)
    ensures Covers(t, t)
  {
  }

  /** Recording keeps every snapshot covered: it removes nothing and lowers no number. */
  lemma StillCovered(t: Bucket, r: Bucket, snapshot: Bucket, es: seq<Edit>)
    requires Covers(t, snapshot) && GoodBucket(t) && GoodBucket(r) && GoodBucket(snapshot)
    requires forall q :: At(r, q) == Effects(At(t, q), es, q)
    requires forall i :: 0 <= i < |es| ==> EditOk(es[i])
    ensures Covers(r, snapshot)
  {
    hide Branch;
    hide EditOk;
    forall p
      ensures 0.0 <= At(snapshot, p) <= At(r, p)
    {
      assert 0.0 <= At(snapshot, p) <= At(t, p);
      EffectsGrow(At(t, p), es, p);
    }
  }

  lemma {:induction false} EffectsGrow(x: real, es: seq<Edit>, p: Path)
    requires forall i :: 0 <= i < |es| ==> EditOk(es[i])
    ensures Effects(x, es, p) >= x
    decreases es
  {
    if es != [] {
      assert EditOk(es[0]);
      EffectsGrow(if es[0].path == p then Effect(x, es[0]) else x, es[1..], p);
    }
  }

  lemma OneEffect(x: real, c: real, e: Edit)
    requires EditOk(e)
    ensures !MaxPath(e.path) ==> Effect(x + c, e) == Effect(x, e) + c
    ensures MaxPath(e.path) ==> Effect(Larger(c, x), e) == Larger(c, Effect(x, e))
  {
    hide IsMax;
    hide Branch;
    hide Zero;
    hide RowKinds;
  }

  /** Edits at a counter only add, so what is saved elsewhere may be added before or after. */
  lemma {:induction false} EffectsAdd(x: real, c: real, es: seq<Edit>, p: Path)
    requires !MaxPath(p) && forall i :: 0 <= i < |es| ==> EditOk(es[i])
    ensures Effects(x + c, es, p) == Effects(x, es, p) + c
    decreases es
  {
    hide EditOk;
    hide MaxPath;
    hide Effect;
    if es != [] {
      OneEffect(x, c, es[0]);
      EffectsAdd(if es[0].path == p then Effect(x, es[0]) else x, c, es[1..], p);
    }
  }

  /** Edits at a maximum only raise, so the larger may be taken before or after. */
  lemma {:induction false} EffectsRaise(x: real, c: real, es: seq<Edit>, p: Path)
    requires MaxPath(p) && forall i :: 0 <= i < |es| ==> EditOk(es[i])
    ensures Effects(Larger(c, x), es, p) == Larger(c, Effects(x, es, p))
    decreases es
  {
    hide EditOk;
    hide MaxPath;
    hide Effect;
    if es != [] {
      OneEffect(x, c, es[0]);
      EffectsRaise(if es[0].path == p then Effect(x, es[0]) else x, c, es[1..], p);
    }
  }

  /** One record, as the rest of the proof needs it. */
  lemma RecordedBucket(s: State, b: nat, sample: Sample) returns (t: Bucket)
    requires Good(s)
    ensures Record(s, b, sample) == s.(pending := s.pending[b := t]) && GoodBucket(t)
    ensures forall p :: At(t, p) == Effects(PendingAt(s, b, p), Edits(sample), p)
    ensures forall i :: 0 <= i < |Edits(sample)| ==> EditOk(Edits(sample)[i])
  {
    hide Edits;
    hide Section;
    hide RunEdits;
    hide GoodBucket;
    hide Effects;
    hide At;
    hide EditOk;
    SampleRecords(Pending(s, b), sample);
    SampleFine(sample);
    FineOk(Base(Section(sample)), Edits(sample));
    t := RunEdits(Hydrated(Pending(s, b), Section(sample)), Edits(sample)).value;
  }

  lemma RecordKeeps(s: State, b: nat, sample: Sample)
    requires Good(s)
    ensures Good(Record(s, b, sample))
    ensures forall c, p :: Held(Record(s, b, sample), c, p) == if c == b then Effects(Held(s, c, p), Edits(sample), p) else Held(s, c, p)
  {
    hide Edits;
    hide GoodBucket;
    hide Effects;
    hide Covers;
    hide MaxPath;
    hide At;
    hide EditOk;
    var t := RecordedBucket(s, b, sample);
    hide Record;
    var n := Record(s, b, sample);
    forall snapshot | b in s.pending && GoodBucket(snapshot) && Covers(s.pending[b], snapshot)
      ensures Covers(t, snapshot)
    {
      StillCovered(s.pending[b], t, snapshot, Edits(sample));
    }
    forall c, p
      ensures Held(n, c, p) == if c == b then Effects(Held(s, c, p), Edits(sample), p) else Held(s, c, p)
    {
      if c == b {
        HeldRecorded(s, n, b, Edits(sample), p);
      }
    }
  }

  lemma HeldRecorded(s: State, n: State, b: nat, es: seq<Edit>, p: Path)
    requires n.saved == s.saved && n.flush == s.flush && PendingAt(n, b, p) == Effects(PendingAt(s, b, p), es, p)
    requires forall i :: 0 <= i < |es| ==> EditOk(es[i])
    ensures Held(n, b, p) == Effects(Held(s, b, p), es, p)
  {
    hide EditOk;
    hide MaxPath;
    hide Effects;
    hide At;
    if MaxPath(p) {
      EffectsRaise(PendingAt(s, b, p), SavedAt(s, b, p), es, p);
    } else {
      EffectsAdd(PendingAt(s, b, p), SavedAt(s, b, p) - Doubled(s, b, p), es, p);
    }
  }

  lemma FineOk(have: set<Path>, es: seq<Edit>)
    requires Fine(have, es)
    ensures forall i :: 0 <= i < |es| ==> EditOk(es[i])
  {
    hide EditOk;
  }

  lemma StartFlushKeeps(s: State)
    requires Good(s) && s.flush.Quiet?
    ensures Good(Next(s, FlushStarted))
    ensures forall b, p :: Held(Next(s, FlushStarted), b, p) == Held(s, b, p)
  {
    hide GoodBucket;
    hide Covers;
    hide MaxPath;
    forall b | b in s.pending
      ensures Covers(s.pending[b], s.pending[b])
    {
      CoversItself(s.pending[b]);
    }
  }

  /** The write counts a snapshot a second time, and `Doubled` says so. */
  lemma WriteKeeps(s: State, b: nat)
    requires Good(s) && s.flush.Sending? && b in s.flush.todo
    ensures Good(Next(s, WriteApplied(b)))
    ensures forall c, p :: Held(Next(s, WriteApplied(b)), c, p) == Held(s, c, p)
  {
    var n := Next(s, WriteApplied(b));
    var snapshot := s.flush.todo[b];
    assert Underway(s, b, snapshot);
    forall p
      ensures SavedAt(n, b, p) == if MaxPath(p) then Larger(SavedAt(s, b, p), At(snapshot, p)) else SavedAt(s, b, p) + At(snapshot, p)
      ensures At(snapshot, p) <= PendingAt(s, b, p)
    {
    }
    hide GoodBucket;
    hide Covers;
    hide MaxPath;
    hide At;
  }

  /** Taking the difference removes just what was doubled. */
  lemma DifferenceKeeps(s: State)
    requires Good(s) && s.flush.Sent?
    ensures Good(Next(s, DifferenceTaken))
    ensures forall c, p :: p != [] ==> Held(Next(s, DifferenceTaken), c, p) == Held(s, c, p)
  {
    hide MaxPath;
    hide IsMax;
    var n := Next(s, DifferenceTaken);
    var b, snapshot := s.flush.at, s.flush.snapshot;
    var t := s.pending[b];
    assert Underway(s, b, snapshot);
    DifferenceGood(t, snapshot);
    hide Subtract;
    hide GoodBucket;
    hide Covers;
    hide At;
    var rest := Subtract(Dict(t), Dict(snapshot)).kids;
    forall c, p | p != []
      ensures Held(n, c, p) == Held(s, c, p)
    {
      if c == b {
        NothingAt(p);
        SubtractAt(Dict(t), Dict(snapshot), p);
        assert PendingAt(n, b, p) == At(rest, p);
      }
    }
    forall c | c in s.flush.todo
      ensures Underway(n, c, s.flush.todo[c])
    {
      assert Underway(s, c, s.flush.todo[c]);
    }
  }

  lemma NothingAt(p: Path)
    ensures At(map[], p) == 0.0
  {
  }

  lemma DifferenceGood(t: Bucket, snapshot: Bucket)
    requires GoodBucket(t) && Covers(t, snapshot)
    ensures GoodBucket(Subtract(Dict(t), Dict(snapshot)).kids)
  {
    hide Branch;
    hide IsMax;
    var r := Subtract(Dict(t), Dict(snapshot)).kids;
    forall p | Find(r, p).Some?
      ensures Find(r, p).value.Dict? <==> Branch(p)
    {
      SubtractFind(Dict(t), Dict(snapshot), p);
    }
    forall p
      ensures At(r, p) >= 0.0
    {
      assert 0.0 <= At(snapshot, p) <= At(t, p);
      if p != [] {
        SubtractAt(Dict(t), Dict(snapshot), p);
      }
    }
  }

  /** Every step keeps the invariant; only recording changes what is held, and by exactly
      what the sample says. */
  lemma StepConserves(s: State, e: Event)
    requires Good(s)
    ensures Good(Next(s, e))
    ensures forall b, p :: p != [] ==>
      Held(Next(s, e), b, p) == if e.Recorded? && e.at == b then Effects(Held(s, b, p), Edits(e.sample), p) else Held(s, b, p)
  {
    match e {
      case Recorded(b, sample) => hide Held; hide Good; RecordKeeps(s, b, sample);
      case FlushStarted => if s.flush.Quiet? { hide Held; hide Good; StartFlushKeeps(s); }
      case WriteApplied(b) => if s.flush.Sending? && b in s.flush.todo { hide Held; hide Good; WriteKeeps(s, b); }
      case WriteFailed =>
      case DifferenceTaken => if s.flush.Sent? { hide Held; hide Good; DifferenceKeeps(s); }
    }
  }

  // ---- Whole runs.

  /** All a run recorded at a path: a sum for a counter, the greatest for a maximum. */
  function Total(es: seq<Event>, b: nat, p: Path): real {
    if es == [] then 0.0
    else
      var before, last := Total(es[..|es| - 1], b, p), es[|es| - 1];
      if last.Recorded? && last.at == b then Effects(before, Edits(last.sample), p) else before
  }

  /** Along every interleaving of recorders with flushes whose writes apply or fail, what
      is saved and pending is exactly what was recorded. */
  lemma {:induction false} Conserved(es: seq<Event>, b: nat, p: Path)
    requires p != []
    ensures Good(Run(es)) && Held(Run(es), b, p) == Total(es, b, p)
  {
    hide Held;
    if es == [] {
      assert Held(START, b, p) == 0.0 by { NothingHeld(b, p); }
    } else {
      Conserved(es[..|es| - 1], b, p);
      hide Good;
      hide Next;
      StepConserves(Run(es[..|es| - 1]), es[|es| - 1]);
    }
  }

  lemma NothingHeld(b: nat, p: Path)
    ensures Held(START, b, p) == 0.0
  {
  }

  /** No sample is ever refused, whatever earlier flushes have pruned. */
  lemma NothingRefused(es: seq<Event>, b: nat, sample: Sample)
    ensures RunEdits(Hydrated(Pending(Run(es), b), Section(sample)), Edits(sample)).Some?
  {
    Conserved(es, 0, [Http]);
    SampleRecords(Pending(Run(es), b), sample);
  }

  /** When no flush is in doubt: counters split between the two sides without overlap,
      and the larger maximum is on one of them. */
  lemma QuietBalance(es: seq<Event>, b: nat, p: Path)
    requires p != [] && !Run(es).flush.Sent?
    ensures !MaxPath(p) ==> SavedAt(Run(es), b, p) + PendingAt(Run(es), b, p) == Total(es, b, p)
    ensures MaxPath(p) ==> Larger(SavedAt(Run(es), b, p), PendingAt(Run(es), b, p)) == Total(es, b, p)
  {
    Conserved(es, b, p);
  }

  /** A finished flush with nothing left pending has saved exactly what was recorded. */
  lemma DrainedMeansSaved(es: seq<Event>, b: nat, p: Path)
    requires p != [] && Run(es).flush.Quiet? && b !in Run(es).pending
    ensures !MaxPath(p) ==> SavedAt(Run(es), b, p) == Total(es, b, p)
    ensures MaxPath(p) ==> Larger(SavedAt(Run(es), b, p), 0.0) == Total(es, b, p)
  {
    QuietBalance(es, b, p);
  }

  function Requests(es: seq<Event>, b: nat): nat {
    if es == [] then 0
    else
      var last := es[|es| - 1];
      Requests(es[..|es| - 1], b) + if last.Recorded? && last.at == b && last.sample.HttpSample? then 1 else 0
  }

  /** The requests of a bucket, counted from the run itself. */
  lemma {:induction false} RequestsCounted(es: seq<Event>, b: nat)
    ensures Total(es, b, [Http, Samples]) == Requests(es, b) as real
  {
    if es != [] {
      RequestsCounted(es[..|es| - 1], b);
      var last := es[|es| - 1];
      if last.Recorded? {
        RequestCountsOnce(last.sample, Total(es[..|es| - 1], b, [Http, Samples]));
      }
    }
  }

  /** So at rest the request counter, saved and pending together, is the number of requests. */
  lemma EveryRequestOnce(es: seq<Event>, b: nat)
    requires !Run(es).flush.Sent?
    ensures SavedAt(Run(es), b, [Http, Samples]) + PendingAt(Run(es), b, [Http, Samples]) == Requests(es, b) as real
  {
    RequestsCounted(es, b);
    OnlyMaximaLookLikeIt(Samples);
    QuietBalance(es, b, [Http, Samples]);
  }

  function Busiest(es: seq<Event>, b: nat): real {
    if es == [] then 0.0
    else
      var last := es[|es| - 1];
      var before := Busiest(es[..|es| - 1], b);
      if last.Recorded? && last.at == b && last.sample.PresenceSample? then Larger(before, Count(last.sample.online)) else before
  }

  /** And the busiest moment recorded is on one side or the other, never beaten by both. */
  lemma {:induction false} BusiestKept(es: seq<Event>, b: nat)
    ensures Total(es, b, [Presence, OnlineMax]) == Busiest(es, b)
  {
    if es != [] {
      BusiestKept(es[..|es| - 1], b);
      var last := es[|es| - 1];
      if last.Recorded? {
        PresencePeaks(last.sample, Total(es[..|es| - 1], b, [Presence, OnlineMax]));
      }
    }
  }
}
