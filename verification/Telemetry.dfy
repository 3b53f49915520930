/** Telemetry buckets: nested dictionaries of counters and maxima, the samples that are
    recorded into them, and the difference that is taken off after a flush. */
module Telemetry {
  import opened Options
  import opened SafeKeys

  type Utf8Bytes = b: seq<Byte> | Utf8(b)

  /** Field names. A label is encoded before it becomes one. */
  datatype Key =
    | Http | Ai | Presence | Frontend
    | Samples | Status2xx | Status4xx | Status5xx | LatencyHist | LatencyMaxMs | Routes | Releases
    | Cloudflare | Local | InputTokens | OutputTokens | Reasons | EventTypes | RequestKinds | Models | WorkerErrors | Channels
    | OnlineSum | OnlineMax
    | Errors | ErrorNames | Contexts | Metrics
    | Requests | Errors5xx | Hist | ValueMax
    | AtMost(bound: nat) | Unbounded
    | Label(bytes: Utf8Bytes)

  function Decimal(n: nat): (s: string)
    ensures s != [] && '0' <= s[|s| - 1] <= '9'
  {
    (if n < 10 then "" else Decimal(n / 10)) + [('0' as int + n % 10) as char]
  }

  function Name(k: Key): string {
    match k
    case Http => "http" case Ai => "ai" case Presence => "presence" case Frontend => "frontend"
    case Samples => "samples" case Status2xx => "status_2xx" case Status4xx => "status_4xx" case Status5xx => "status_5xx"
    case LatencyHist => "latency_hist" case LatencyMaxMs => "latency_max_ms" case Routes => "routes" case Releases => "releases"
    case Cloudflare => "cloudflare" case Local => "local" case InputTokens => "input_tokens" case OutputTokens => "output_tokens"
    case Reasons => "reasons" case EventTypes => "event_types" case RequestKinds => "request_kinds" case Models => "models"
    case WorkerErrors => "worker_errors" case Channels => "channels" case OnlineSum => "online_sum" case OnlineMax => "online_max"
    case Errors => "errors" case ErrorNames => "error_names" case Contexts => "contexts" case Metrics => "metrics"
    case Requests => "requests" case Errors5xx => "errors_5xx" case Hist => "hist" case ValueMax => "value_max"
    case AtMost(n) => "le_" + Decimal(n) case Unbounded => "inf"
    case Label(b) => Encode(b)
  }

  /** Whether a field is treated as a maximum, by the look of its name. */
  predicate IsMax(k: Key) {
    EndsWith(Name(k), "_max_ms") || EndsWith(Name(k), "_max")
  }

  /** Exactly the three maxima look like maxima; no label ever does. */
  lemma OnlyMaximaLookLikeIt(k: Key)
    ensures IsMax(k) <==> k.LatencyMaxMs? || k.OnlineMax? || k.ValueMax?
  {
    hide EndsWith;
    hide Name;
    match k {
      case Label(b) => assert Name(k) == Encode(b) by { LabelName(b); } NeverMax(b);
      case AtMost(n) => BoundName(n);
      case LatencyMaxMs => MaximumNames();
      case OnlineMax => MaximumNames();
      case ValueMax => MaximumNames();
      case _ => PlainNames(k);
    }
  }

  lemma PlainNames(k: Key)
    requires !k.Label? && !k.AtMost? && !k.LatencyMaxMs? && !k.OnlineMax? && !k.ValueMax?
    ensures !EndsWith(Name(k), "_max") && !EndsWith(Name(k), "_max_ms")
  {
    hide EndsWith;
    hide Name;
    match k {
      case Samples => CountNames(k);
      case Routes => CountNames(k);
      case Releases => CountNames(k);
      case Requests => CountNames(k);
      case InputTokens => TokenNames(k);
      case OutputTokens => TokenNames(k);
      case Reasons => TokenNames(k);
      case Metrics => TokenNames(k);
      case EventTypes => KindNames(k);
      case RequestKinds => KindNames(k);
      case Models => KindNames(k);
      case Contexts => KindNames(k);
      case WorkerErrors => ErrorAndChannelNames(k);
      case Channels => ErrorAndChannelNames(k);
      case Errors => ErrorAndChannelNames(k);
      case ErrorNames => ErrorAndChannelNames(k);
      case _ => OtherNames(k);
    }
  }

  lemma LabelName(b: Utf8Bytes)
    ensures Name(Label(b)) == Encode(b)
  {
  }

  lemma MaximumNames()
    ensures EndsWith(Name(LatencyMaxMs), "_max_ms") && EndsWith(Name(OnlineMax), "_max") && EndsWith(Name(ValueMax), "_max")
  {
  }

  lemma BoundName(n: nat)
    ensures !EndsWith(Name(AtMost(n)), "_max") && !EndsWith(Name(AtMost(n)), "_max_ms")
  {
    LastLetters(Name(AtMost(n)), "_max");
    LastLetters(Name(AtMost(n)), "_max_ms");
  }

  lemma CountNames(k: Key)
    requires k.Samples? || k.Routes? || k.Releases? || k.Requests?
    ensures !EndsWith(Name(k), "_max") && !EndsWith(Name(k), "_max_ms")
  {
    LastLetters(Name(k), "_max");
    LastLetters(Name(k), "_max_ms");
    hide EndsWith;
  }

  lemma TokenNames(k: Key)
    requires k.InputTokens? || k.OutputTokens? || k.Reasons? || k.Metrics?
    ensures !EndsWith(Name(k), "_max") && !EndsWith(Name(k), "_max_ms")
  {
    LastLetters(Name(k), "_max");
    LastLetters(Name(k), "_max_ms");
    hide EndsWith;
  }

  lemma KindNames(k: Key)
    requires k.EventTypes? || k.RequestKinds? || k.Models? || k.Contexts?
    ensures !EndsWith(Name(k), "_max") && !EndsWith(Name(k), "_max_ms")
  {
    LastLetters(Name(k), "_max");
    LastLetters(Name(k), "_max_ms");
    hide EndsWith;
  }

  lemma ErrorAndChannelNames(k: Key)
    requires k.WorkerErrors? || k.Channels? || k.Errors? || k.ErrorNames?
    ensures !EndsWith(Name(k), "_max") && !EndsWith(Name(k), "_max_ms")
  {
    LastLetters(Name(k), "_max");
    LastLetters(Name(k), "_max_ms");
    hide EndsWith;
  }

  lemma OtherNames(k: Key)
    requires !k.Samples? && !k.Routes? && !k.Releases? && !k.Requests? && !k.InputTokens? && !k.OutputTokens? && !k.Reasons? && !k.Metrics? && !k.EventTypes? && !k.RequestKinds? && !k.Models? && !k.Contexts? && !k.WorkerErrors? && !k.Channels? && !k.Errors? && !k.ErrorNames?
    requires !k.Label? && !k.AtMost? && !k.LatencyMaxMs? && !k.OnlineMax? && !k.ValueMax?
    ensures !EndsWith(Name(k), "_max") && !EndsWith(Name(k), "_max_ms")
  {
    LastLetters(Name(k), "_max");
    LastLetters(Name(k), "_max_ms");
    hide EndsWith;
  }

  lemma LastLetters(s: string, t: string)
    requires |t| >= 2
    ensures EndsWith(s, t) ==> |s| >= 2 && s[|s| - 1] == t[|t| - 1] && s[|s| - 2] == t[|t| - 2]
  {
    if EndsWith(s, t) {
      var u := s[|s| - |t|..];
      assert u[|t| - 1] == s[|s| - 1] && u[|t| - 2] == s[|s| - 2];
    }
  }

  // ---- Trees.

  type Path = seq<Key>

  datatype Tree = Num(v: real) | Dict(kids: map<Key, Tree>)

  type Bucket = map<Key, Tree>

  predicate MaxPath(p: Path) {
    p != [] && IsMax(p[|p| - 1])
  }

  function Find(t: Bucket, p: Path): Option<Tree>
    decreases |p|
  {
    if p == [] || p[0] !in t then None
    else if |p| == 1 then Some(t[p[0]])
    else if t[p[0]].Dict? then Find(t[p[0]].kids, p[1..])
    else None
  }

  /** The number at a path, zero where there is none. */
  function At(t: Bucket, p: Path): real {
    match Find(t, p)
    case Some(Num(v)) => v
    case _ => 0.0
  }

  function Larger(a: real, b: real): real {
    if a < b then b else a
  }

  /** Puts back what a template has and a tree lacks. */
  function Restore(t: Tree, template: Tree): Tree
    requires t.Dict? && template.Dict?
    decreases template
  {
    Dict(map k | k in t.kids.Keys + template.kids.Keys ::
      if k !in template.kids then t.kids[k]
      else if k !in t.kids || t.kids[k].Dict? != template.kids[k].Dict? then template.kids[k]
      else if t.kids[k].Dict? then Restore(t.kids[k], template.kids[k])
      else t.kids[k])
  }

  /** What is left of one entry when the sent one is taken off; nothing if it came to zero. */
  function Remaining(k: Key, t: Tree, s: Tree): Option<Tree>
    decreases s
  {
    if t.Dict? && s.Dict? then
      var r := Subtract(t, s);
      if r.kids == map[] then None else Some(r)
    else if t.Num? && s.Num? then
      var v := if IsMax(k) then if t.v <= s.v then 0.0 else t.v else t.v - s.v;
      if v == 0.0 then None else Some(Num(v))
    else Some(t)
  }

  /** Takes a sent snapshot off what is pending, dropping what comes to zero. */
  function Subtract(t: Tree, s: Tree): (r: Tree)
    requires t.Dict? && s.Dict?
    ensures r.Dict?
    decreases s, 0
  {
    Dict(map k | k in t.kids && (k in s.kids ==> Remaining(k, t.kids[k], s.kids[k]).Some?) ::
      if k in s.kids then Remaining(k, t.kids[k], s.kids[k]).value else t.kids[k])
  }

  // ---- What a difference does to each number.

  /** The trees agree on which paths are dictionaries. */
  ghost predicate SameKinds(t: Bucket, s: Bucket) {
    forall p :: Find(t, p).Some? && Find(s, p).Some? ==> (Find(t, p).value.Dict? <==> Find(s, p).value.Dict?)
  }

  /** Every number of the second is one of the first, or grew since; none is negative. */
  ghost predicate Covers(t: Bucket, s: Bucket) {
    SameKinds(t, s) && forall p :: 0.0 <= At(s, p) <= At(t, p)
  }

  lemma FindInside(t: Bucket, k: Key, p: Path)
    requires p != []
    ensures Find(t, [k] + p) == if k in t && t[k].Dict? then Find(t[k].kids, p) else None
    ensures At(t, [k] + p) == if k in t && t[k].Dict? then At(t[k].kids, p) else 0.0
  {
    assert ([k] + p)[1..] == p;
  }

  lemma CoversInside(t: Bucket, s: Bucket, k: Key)
    requires Covers(t, s) && k in t && k in s && t[k].Dict? && s[k].Dict?
    ensures Covers(t[k].kids, s[k].kids)
  {
    forall p
      ensures Find(t[k].kids, p).Some? && Find(s[k].kids, p).Some? ==> (Find(t[k].kids, p).value.Dict? <==> Find(s[k].kids, p).value.Dict?)
      ensures 0.0 <= At(s[k].kids, p) <= At(t[k].kids, p)
    {
      if p != [] {
        FindInside(t, k, p);
        FindInside(s, k, p);
        assert 0.0 <= At(s, [k] + p) <= At(t, [k] + p);
      }
    }
  }

  /** A difference, entry by entry. */
  lemma SubtractKey(t: Tree, s: Tree, k: Key)
    requires t.Dict? && s.Dict?
    ensures var r := Subtract(t, s).kids;
      && (k in r ==> k in t.kids)
      && (k in t.kids && k !in s.kids ==> k in r && r[k] == t.kids[k])
      && (k in t.kids && k in s.kids ==>
            (k in r <==> Remaining(k, t.kids[k], s.kids[k]).Some?) && (k in r ==> r[k] == Remaining(k, t.kids[k], s.kids[k]).value))
  {
  }

  /** Taking off what was sent: counters lose exactly that, a maximum is kept only if it
      rose since, and no other number moves. */
  lemma {:induction false} SubtractAt(t: Tree, s: Tree, p: Path)
    requires t.Dict? && s.Dict? && Covers(t.kids, s.kids) && p != []
    ensures At(Subtract(t, s).kids, p) ==
      if MaxPath(p) then if At(t.kids, p) <= At(s.kids, p) then 0.0 else At(t.kids, p)
      else At(t.kids, p) - At(s.kids, p)
    decreases |p|
  {
    hide IsMax;
    var k, r := p[0], Subtract(t, s).kids;
    SubtractKey(t, s, k);
    hide Subtract;
    assert Find(t.kids, [k]).Some? <==> k in t.kids;
    assert Find(s.kids, [k]).Some? <==> k in s.kids;
    assert 0.0 <= At(s.kids, p) <= At(t.kids, p);
    if k in t.kids && k in s.kids {
      assert t.kids[k] == Find(t.kids, [k]).value && s.kids[k] == Find(s.kids, [k]).value;
      if t.kids[k].Dict? && |p| > 1 {
        CoversInside(t.kids, s.kids, k);
        SubtractAt(t.kids[k], s.kids[k], p[1..]);
        assert MaxPath(p) == MaxPath(p[1..]);
      }
    }
  }

  /** Kinds survive a difference: what is left was there before. */
  lemma {:induction false} SubtractFind(t: Tree, s: Tree, p: Path)
    requires t.Dict? && s.Dict?
    ensures Find(Subtract(t, s).kids, p).Some? ==>
      Find(t.kids, p).Some? && Find(t.kids, p).value.Dict? == Find(Subtract(t, s).kids, p).value.Dict?
    decreases |p|
  {
    if p != [] {
      SubtractKey(t, s, p[0]);
      hide Subtract;
      if p[0] in t.kids && p[0] in s.kids && t.kids[p[0]].Dict? && s.kids[p[0]].Dict? && |p| > 1 {
        SubtractFind(t.kids[p[0]], s.kids[p[0]], p[1..]);
      }
    }
  }

  // ---- Adding one tree to another, as readers do.

  function Merge(t: Tree, s: Tree): (r: Tree)
    requires t.Dict? && s.Dict?
    ensures r.Dict?
    decreases s
  {
    Dict(map k | k in t.kids.Keys + s.kids.Keys ::
      if k !in s.kids then t.kids[k]
      else if s.kids[k].Dict? then
        if k !in t.kids then Merge(Dict(map[]), s.kids[k]) else if t.kids[k].Dict? then Merge(t.kids[k], s.kids[k]) else t.kids[k]
      else
        var v := if k in t.kids && t.kids[k].Num? then t.kids[k].v else 0.0;
        if k in t.kids && t.kids[k].Dict? then t.kids[k]
        else Num(if IsMax(k) then Larger(v, s.kids[k].v) else v + s.kids[k].v))
  }

  lemma KindsWithNothing(s: Bucket)
    ensures SameKinds(map[], s)
  {
  }

  /** A merge adds counters and keeps the larger of two maxima, at every path. */
  lemma {:induction false} MergeAt(t: Tree, s: Tree, p: Path)
    requires t.Dict? && s.Dict? && SameKinds(t.kids, s.kids)
    requires p != [] && At(t.kids, p) >= 0.0 && At(s.kids, p) >= 0.0
    ensures At(Merge(t, s).kids, p) == if MaxPath(p) then Larger(At(t.kids, p), At(s.kids, p)) else At(t.kids, p) + At(s.kids, p)
    decreases |p|
  {
    hide IsMax;
    var k := p[0];
    if k in s.kids {
      assert Find(s.kids, [k]) == Some(s.kids[k]);
      if k in t.kids {
        assert Find(t.kids, [k]) == Some(t.kids[k]);
        if s.kids[k].Dict? && |p| > 1 {
          KindsInside(t.kids, s.kids, k);
          MergeAt(t.kids[k], s.kids[k], p[1..]);
          assert MaxPath(p) == MaxPath(p[1..]);
        }
      } else if s.kids[k].Dict? && |p| > 1 {
        KindsWithNothing(s.kids[k].kids);
        assert At(map[], p[1..]) == 0.0;
        MergeAt(Dict(map[]), s.kids[k], p[1..]);
        assert MaxPath(p) == MaxPath(p[1..]);
      }
    }
  }

  /** What was taken off and what is left merge back to what there was. */
  lemma MergeUndoesSubtract(t: Tree, s: Tree, p: Path)
    requires t.Dict? && s.Dict? && Covers(t.kids, s.kids) && p != []
    ensures At(Merge(Subtract(t, s), s).kids, p) == At(t.kids, p)
  {
    hide IsMax;
    var r := Subtract(t, s);
    forall q | Find(r.kids, q).Some? && Find(s.kids, q).Some?
      ensures Find(r.kids, q).value.Dict? <==> Find(s.kids, q).value.Dict?
    {
      SubtractFind(t, s, q);
    }
    assert 0.0 <= At(s.kids, p) <= At(t.kids, p);
    SubtractAt(t, s, p);
    MergeAt(r, s, p);
  }

  // ---- Restoring.

  ghost predicate Zero(t: Bucket) {
    forall p :: At(t, p) == 0.0
  }

  lemma KindsInside(t: Bucket, s: Bucket, k: Key)
    requires SameKinds(t, s) && k in t && k in s && t[k].Dict? && s[k].Dict?
    ensures SameKinds(t[k].kids, s[k].kids)
  {
    forall p | Find(t[k].kids, p).Some? && Find(s[k].kids, p).Some?
      ensures Find(t[k].kids, p).value.Dict? <==> Find(s[k].kids, p).value.Dict?
    {
      FindInside(t, k, p);
      FindInside(s, k, p);
      assert Find(t, [k] + p).Some? && Find(s, [k] + p).Some?;
    }
  }

  lemma ZeroInside(t: Bucket, k: Key)
    requires Zero(t) && k in t && t[k].Dict?
    ensures Zero(t[k].kids)
  {
    forall p
      ensures At(t[k].kids, p) == 0.0
    {
      if p != [] {
        FindInside(t, k, p);
        assert At(t, [k] + p) == 0.0;
      }
    }
  }

  /** Restoring a template of zeros changes no number, loses nothing, and has all the
      template has. */
  lemma {:induction false} RestoreAt(t: Tree, d: Tree, p: Path)
    requires t.Dict? && d.Dict? && SameKinds(t.kids, d.kids) && Zero(d.kids)
    ensures At(Restore(t, d).kids, p) == At(t.kids, p)
    ensures Find(Restore(t, d).kids, p).Some? <==> Find(t.kids, p).Some? || Find(d.kids, p).Some?
    ensures Find(t.kids, p).Some? ==> Find(Restore(t, d).kids, p).value.Dict? == Find(t.kids, p).value.Dict?
    ensures Find(d.kids, p).Some? ==> Find(Restore(t, d).kids, p).value.Dict? == Find(d.kids, p).value.Dict?
    decreases |p|
  {
    if p != [] {
      var k := p[0];
      assert At(d.kids, p) == 0.0;
      if k in t.kids && k in d.kids {
        assert Find(t.kids, [k]) == Some(t.kids[k]) && Find(d.kids, [k]) == Some(d.kids[k]);
        if t.kids[k].Dict? && |p| > 1 {
          KindsInside(t.kids, d.kids, k);
          ZeroInside(d.kids, k);
          RestoreAt(t.kids[k], d.kids[k], p[1..]);
        }
      }
    }
  }

  // ---- Recording: edits at paths.

  /** `Bump` needs its field there, `Inc` and `Peak` make it, `Row` makes or completes a row. */
  datatype Edit =
    | Bump(path: Path, n: real)
    | Inc(path: Path, n: real)
    | Peak(path: Path, v: real)
    | Row(path: Path, defaults: Tree)

  /** One edit in the innermost dictionary; none when a field it needs is missing. */
  function OnKey(t: Bucket, k: Key, e: Edit): Option<Bucket> {
    match e
    case Bump(_, n) => if k in t && t[k].Num? then Some(t[k := Num(t[k].v + n)]) else None
    case Inc(_, n) => if k !in t then Some(t[k := Num(n)]) else if t[k].Num? then Some(t[k := Num(t[k].v + n)]) else None
    case Peak(_, v) => if k !in t then Some(t[k := Num(Larger(0.0, v))]) else if t[k].Num? then Some(t[k := Num(Larger(t[k].v, v))]) else None
    case Row(_, d) =>
      if k !in t then Some(t[k := d])
      else if t[k].Dict? && d.Dict? then Some(t[k := Restore(t[k], d)])
      else None
  }

  function Apply(t: Bucket, p: Path, e: Edit): Option<Bucket>
    decreases |p|
  {
    if p == [] then None
    else if |p| == 1 then OnKey(t, p[0], e)
    else if p[0] in t && t[p[0]].Dict? then
      var r := Apply(t[p[0]].kids, p[1..], e);
      if r.None? then None else Some(t[p[0] := Dict(r.value)])
    else None
  }

  function RunEdits(t: Bucket, es: seq<Edit>): Option<Bucket>
    decreases es
  {
    if es == [] then Some(t)
    else
      var n := Apply(t, es[0].path, es[0]);
      if n.None? then None else RunEdits(n.value, es[1..])
  }

  /** The effect of an edit on the number at its own path. */
  function Effect(x: real, e: Edit): real {
    match e
    case Bump(_, n) => x + n
    case Inc(_, n) => x + n
    case Peak(_, v) => Larger(x, v)
    case Row(_, _) => x
  }

  /** An edit's row can be restored in place. */
  ghost predicate RowFits(t: Bucket, e: Edit, p: Path) {
    e.Row? ==> e.defaults.Dict? && Zero(e.defaults.kids)
               && (Find(t, p).Some? && Find(t, p).value.Dict? ==> SameKinds(Find(t, p).value.kids, e.defaults.kids))
  }

  lemma {:induction false} ApplyAt(t: Bucket, p: Path, e: Edit, q: Path)
    requires Apply(t, p, e).Some? && RowFits(t, e, p) && At(t, p) >= 0.0
    ensures At(Apply(t, p, e).value, q) == if q == p then Effect(At(t, p), e) else At(t, q)
    decreases |p|
  {
    var r := Apply(t, p, e).value;
    var k := p[0];
    if |p| == 1 {
      if q != [] && q[0] == k && |q| > 1 && e.Row? {
        assert p == [k];
        if k in t {
          RestoreAt(t[k], e.defaults, q[1..]);
        } else {
          assert At(e.defaults.kids, q[1..]) == 0.0;
        }
      }
      assert q != [] && q[0] == k && |q| == 1 ==> q == p;
    } else if q != [] && q[0] == k && |q| > 1 {
      ApplyAt(t[k].kids, p[1..], e, q[1..]);
      assert q == p <==> q[1..] == p[1..];
    }
  }

  /** Edits remove nothing and change no kind; what they add is at the edit's path, or
      inside the row it makes. */
  lemma {:induction false} ApplyFind(t: Bucket, p: Path, e: Edit, q: Path)
    requires Apply(t, p, e).Some? && RowFits(t, e, p)
    ensures var r := Apply(t, p, e).value;
      && (Find(t, q).Some? ==> Find(r, q).Some? && Find(r, q).value.Dict? == Find(t, q).value.Dict?)
      && Find(r, p).Some? && Find(r, p).value.Dict? == e.Row?
      && (e.Row? && q != [] ==> Find(e.defaults.kids, q).Some? ==>
            Find(r, p + q).Some? && Find(r, p + q).value.Dict? == Find(e.defaults.kids, q).value.Dict?)
    decreases |p|
  {
    var r := Apply(t, p, e).value;
    var k := p[0];
    if |p| == 1 {
      if e.Row? && q != [] {
        assert p == [k];
        FindInside(r, k, q);
        if k in t {
          RestoreAt(t[k], e.defaults, q);
          if |q| > 1 {
            RestoreAt(t[k], e.defaults, q[1..]);
          }
        }
      }
    } else {
      ApplyFind(t[k].kids, p[1..], e, q);
      if q != [] && q[0] == k && |q| > 1 {
        ApplyFind(t[k].kids, p[1..], e, q[1..]);
      }
      if e.Row? && q != [] {
        assert (p + q)[1..] == p[1..] + q;
      }
    }
  }

  lemma OnKeyAdds(t: Bucket, p: Path, e: Edit, q: Path)
    requires |p| == 1 && OnKey(t, p[0], e).Some? && RowFits(t, e, p)
    ensures Find(OnKey(t, p[0], e).value, q).Some? && Find(t, q).None? ==>
      q == p || (e.Row? && |q| > 1 && q[..1] == p && Find(e.defaults.kids, q[1..]).Some?)
  {
    hide Restore;
    assert p == [p[0]];
    if q != [] && q[0] == p[0] {
      assert q[..1] == p;
      if |q| > 1 && e.Row? && p[0] in t {
        RestoreAt(t[p[0]], e.defaults, q[1..]);
      }
    }
  }

  /** Whatever is found after an edit was there, or was added by it. */
  lemma {:induction false} ApplyAdds(t: Bucket, p: Path, e: Edit, q: Path)
    requires Apply(t, p, e).Some? && RowFits(t, e, p)
    ensures Find(Apply(t, p, e).value, q).Some? && Find(t, q).None? ==>
      q == p || (e.Row? && |q| > |p| && q[..|p|] == p && Find(e.defaults.kids, q[|p|..]).Some?)
    decreases |p|
  {
    hide OnKey;
    var k := p[0];
    if |p| == 1 {
      OnKeyAdds(t, p, e, q);
    } else if q != [] && q[0] == k && |q| > 1 {
      ApplyAdds(t[k].kids, p[1..], e, q[1..]);
      if |q| > |p| && q[1..][..|p| - 1] == p[1..] {
        assert q[..|p|] == p;
        assert q[1..][|p| - 1..] == q[|p|..];
      }
      assert q[1..] == p[1..] ==> q == p;
    }
  }
}
