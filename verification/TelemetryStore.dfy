/** The recorder and the flush as they run, step by step. */
module TelemetryStore {
  import opened Options
  import opened Telemetry
  import opened TelemetrySamples
  import opened TelemetryFlush
  import opened TelemetryMeaning

  /** The entries of a difference decided so far; the others are as they were. */
  ghost predicate PartlyTaken(was: map<Key, Tree>, sent: map<Key, Tree>, now: map<Key, Tree>, rest: set<Key>) {
    && now.Keys <= was.Keys
    && (forall k :: k in was && (k in rest || k !in sent) ==> k in now && now[k] == was[k])
    && forall k :: k in was && k in sent && k !in rest ==>
         (k in now <==> Remaining(k, was[k], sent[k]).Some?) && (k in now ==> now[k] == Remaining(k, was[k], sent[k]).value)
  }

  /** What the sent entry leaves of one pending entry. */
  method LeftOf(k: Key, mine: Tree, sent: Tree) returns (left: Option<Tree>)
    ensures left == Remaining(k, mine, sent)
    decreases sent, 1
  {
    hide IsMax;
    if mine.Dict? && sent.Dict? {
      var rest := SubtractDelta(mine, sent);
      return if rest.kids == map[] then None else Some(rest);
    }
    if !mine.Num? || !sent.Num? {
      return Some(mine);
    }
    var v := mine.v;
    if IsMax(k) {
      if v <= sent.v {
        v := 0.0;
      }
    } else {
      v := v - sent.v;
    }
    left := if v == 0.0 then None else Some(Num(v));
  }

  /** Takes a snapshot off, key by key. */
  method SubtractDelta(t: Tree, s: Tree) returns (r: Tree)
    requires t.Dict? && s.Dict?
    ensures r == Subtract(t, s)
    decreases s, 0
  {
    hide Remaining;
    var kids := t.kids;
    var rest := s.kids.Keys;
    while rest != {}
      invariant rest <= s.kids.Keys
      invariant PartlyTaken(t.kids, s.kids, kids, rest)
    {
      var k :| k in rest;
      rest := rest - {k};
      if k in kids {
        var left := LeftOf(k, kids[k], s.kids[k]);
        kids := if left.None? then kids - {k} else kids[k := left.value];
      }
    }
    r := Dict(kids);
    TakenIsSubtract(t, s, kids);
  }

  lemma TakenIsSubtract(t: Tree, s: Tree, kids: map<Key, Tree>)
    requires t.Dict? && s.Dict? && PartlyTaken(t.kids, s.kids, kids, {})
    ensures Dict(kids) == Subtract(t, s)
  {
    hide Remaining;
    assert kids == Subtract(t, s).kids;
  }

  /** Adds a tree to another, key by key. */
  method MergeNumeric(t: Tree, s: Tree) returns (r: Tree)
    requires t.Dict? && s.Dict?
    ensures r == Merge(t, s)
    decreases s
  {
    hide IsMax;
    var kids := t.kids;
    var rest := s.kids.Keys;
    ghost var whole := Merge(t, s).kids;
    while rest != {}
      invariant rest <= s.kids.Keys
      invariant kids.Keys == t.kids.Keys + (s.kids.Keys - rest)
      invariant forall k :: k in kids ==> kids[k] == if k in rest then t.kids[k] else whole[k]
    {
      var k :| k in rest;
      rest := rest - {k};
      var item := s.kids[k];
      if item.Dict? {
        var row := if k in kids then kids[k] else Dict(map[]);
        if row.Dict? {
          row := MergeNumeric(row, item);
        }
        kids := kids[k := row];
      } else if k !in kids || kids[k].Num? {
        var v := if k in kids then kids[k].v else 0.0;
        kids := kids[k := Num(if IsMax(k) then Larger(v, item.v) else v + item.v)];
      }
    }
    r := Dict(kids);
    assert kids == whole;
  }

  /** What a walk over some keys of a tree has listed: its counters that are not zero. */
  ghost predicate Listed(kids: Bucket, prefix: Path, done: set<Key>, out: map<Path, real>, maxima: bool) {
    && (forall k, p :: k in done && k in kids && MaxPath([k] + p) == maxima && Worth(At(kids, [k] + p), maxima) ==>
          prefix + ([k] + p) in out && out[prefix + ([k] + p)] == At(kids, [k] + p))
    && forall q :: q in out ==>
         |q| > |prefix| && q[..|prefix|] == prefix && q[|prefix|] in done && MaxPath(q) == maxima
         && Worth(out[q], maxima) && out[q] == At(kids, q[|prefix|..])
  }

  predicate Worth(v: real, maxima: bool) {
    if maxima then v > 0.0 else v != 0.0
  }

  lemma PathCut(prefix: Path, k: Key, p: Path)
    ensures var q := prefix + ([k] + p);
      q == (prefix + [k]) + p && q[..|prefix|] == prefix && q[|prefix|] == k && q[|prefix|..] == [k] + p
      && q[..|prefix| + 1] == prefix + [k] && q[|prefix| + 1..] == p && q[|q| - 1] == ([k] + p)[|p|]
  {
  }

  /** Splits a bucket into what is added and what is raised, by full path. */
  method MongoUpdate(t: Tree, prefix: Path) returns (incs: map<Path, real>, maxima: map<Path, real>)
    requires t.Dict?
    ensures Listed(t.kids, prefix, t.kids.Keys, incs, false)
    ensures Listed(t.kids, prefix, t.kids.Keys, maxima, true)
    decreases t
  {
    hide IsMax;
    hide Worth;
    hide Listed;
    incs, maxima := map[], map[];
    NoneListed(t.kids, prefix, false);
    NoneListed(t.kids, prefix, true);
    var rest := t.kids.Keys;
    ghost var done: set<Key> := {};
    while rest != {}
      invariant rest <= t.kids.Keys && done == t.kids.Keys - rest
      invariant Listed(t.kids, prefix, done, incs, false)
      invariant Listed(t.kids, prefix, done, maxima, true)
    {
      var k :| k in rest;
      rest := rest - {k};
      var item := t.kids[k];
      if item.Dict? {
        var i, m := MongoUpdate(item, prefix + [k]);
        ListedDeeper(t.kids, prefix, done, incs, false, k, i);
        ListedDeeper(t.kids, prefix, done, maxima, true, k, m);
        incs, maxima := incs + i, maxima + m;
      } else {
        ListedHere(t.kids, prefix, done, incs, false, k);
        ListedHere(t.kids, prefix, done, maxima, true, k);
        if IsMax(k) {
          if item.v > 0.0 {
            maxima := maxima[prefix + [k] := item.v];
          }
        } else if item.v != 0.0 {
          incs := incs[prefix + [k] := item.v];
        }
      }
      done := done + {k};
    }
    assert done == t.kids.Keys;
  }

  lemma NoneListed(kids: Bucket, prefix: Path, maxima: bool)
    ensures Listed(kids, prefix, {}, map[], maxima)
  {
  }

  /** All a tree has at one key and below, listed by full path. */
  ghost predicate ListedAt(kids: Bucket, prefix: Path, k: Key, sub: map<Path, real>, maxima: bool) {
    && (forall p :: MaxPath([k] + p) == maxima && Worth(At(kids, [k] + p), maxima) ==>
          prefix + ([k] + p) in sub && sub[prefix + ([k] + p)] == At(kids, [k] + p))
    && forall q :: q in sub ==>
         |q| > |prefix| && q[..|prefix|] == prefix && q[|prefix|] == k && MaxPath(q) == maxima && Worth(sub[q], maxima) && sub[q] == At(kids, q[|prefix|..])
  }

  /** One key more. */
  lemma ListedJoin(kids: Bucket, prefix: Path, done: set<Key>, out: map<Path, real>, maxima: bool, k: Key, sub: map<Path, real>)
    requires Listed(kids, prefix, done, out, maxima) && k in kids && k !in done
    requires ListedAt(kids, prefix, k, sub, maxima)
    ensures Listed(kids, prefix, done + {k}, out + sub, maxima)
  {
    hide MaxPath;
    hide Worth;
    hide At;
    forall q | q in sub
      ensures q !in out
    {
      assert q[|prefix|] == k;
    }
  }

  lemma ListedHere(kids: Bucket, prefix: Path, done: set<Key>, out: map<Path, real>, maxima: bool, k: Key)
    requires Listed(kids, prefix, done, out, maxima) && k in kids && k !in done && kids[k].Num?
    ensures Listed(kids, prefix, done + {k},
      if IsMax(k) == maxima && (if maxima then kids[k].v > 0.0 else kids[k].v != 0.0) then out[prefix + [k] := kids[k].v] else out, maxima)
  {
    hide Listed;
    hide IsMax;
    hide ListedAt;
    var sub := if IsMax(k) == maxima && Worth(kids[k].v, maxima) then map[prefix + [k] := kids[k].v] else map[];
    NumListed(kids, prefix, k, maxima);
    ListedJoin(kids, prefix, done, out, maxima, k, sub);
    assert IsMax(k) == maxima && Worth(kids[k].v, maxima) ==> out + sub == out[prefix + [k] := kids[k].v];
    assert !(IsMax(k) == maxima && Worth(kids[k].v, maxima)) ==> out + sub == out;
  }

  lemma NumListed(kids: Bucket, prefix: Path, k: Key, maxima: bool)
    requires k in kids && kids[k].Num?
    ensures ListedAt(kids, prefix, k, if IsMax(k) == maxima && Worth(kids[k].v, maxima) then map[prefix + [k] := kids[k].v] else map[], maxima)
  {
    hide IsMax;
    hide At;
    hide MaxPath;
    hide Worth;
    NumFacts(kids, prefix, k);
    var own := prefix + [k];
    var sub: map<Path, real> := if IsMax(k) == maxima && Worth(kids[k].v, maxima) then map[own := kids[k].v] else map[];
    forall p | MaxPath([k] + p) == maxima && Worth(At(kids, [k] + p), maxima)
      ensures prefix + ([k] + p) in sub && sub[prefix + ([k] + p)] == At(kids, [k] + p)
    {
      NumHasNothingBelow(kids, k, p, maxima);
      assert [k] + p == [k];
    }
    forall q | q in sub
      ensures q == own
    {
    }
  }

  lemma NumFacts(kids: Bucket, prefix: Path, k: Key)
    requires k in kids && kids[k].Num?
    ensures At(kids, [k]) == kids[k].v
    ensures MaxPath(prefix + [k]) == IsMax(k) == MaxPath([k])
    ensures var own := prefix + [k]; own[..|prefix|] == prefix && own[|prefix|] == k && own[|prefix|..] == [k]
  {
    hide IsMax;
  }

  lemma NumHasNothingBelow(kids: Bucket, k: Key, p: Path, maxima: bool)
    requires k in kids && kids[k].Num? && Worth(At(kids, [k] + p), maxima)
    ensures p == []
  {
    if p != [] {
      FindInside(kids, k, p);
    }
  }

  lemma ListedDeeper(kids: Bucket, prefix: Path, done: set<Key>, out: map<Path, real>, maxima: bool, k: Key, sub: map<Path, real>)
    requires Listed(kids, prefix, done, out, maxima) && k in kids && k !in done && kids[k].Dict?
    requires Listed(kids[k].kids, prefix + [k], kids[k].kids.Keys, sub, maxima)
    ensures Listed(kids, prefix, done + {k}, out + sub, maxima)
  {
    hide MaxPath;
    hide Worth;
    hide At;
    SubListed(kids, prefix, maxima, k, sub);
    hide Listed;
    forall p | MaxPath([k] + p) == maxima && Worth(At(kids, [k] + p), maxima)
      ensures prefix + ([k] + p) in sub && sub[prefix + ([k] + p)] == At(kids, [k] + p)
    {
      DeeperListed(kids, prefix, maxima, k, sub, p);
    }
    ListedJoin(kids, prefix, done, out, maxima, k, sub);
  }

  /** What was listed below one key, told from above. */
  lemma SubListed(kids: Bucket, prefix: Path, maxima: bool, k: Key, sub: map<Path, real>)
    requires k in kids && kids[k].Dict? && Listed(kids[k].kids, prefix + [k], kids[k].kids.Keys, sub, maxima)
    ensures forall q :: q in sub ==>
      |q| > |prefix| && q[..|prefix|] == prefix && q[|prefix|] == k && MaxPath(q) == maxima && Worth(sub[q], maxima) && sub[q] == At(kids, q[|prefix|..])
  {
    hide MaxPath;
    hide Worth;
    forall q | q in sub
      ensures |q| > |prefix| && q[..|prefix|] == prefix && q[|prefix|] == k && sub[q] == At(kids, q[|prefix|..])
    {
      var p := q[|prefix| + 1..];
      assert q[..|prefix| + 1] == prefix + [k];
      assert q == (prefix + [k]) + p;
      assert (prefix + [k]) + p == prefix + ([k] + p);
      PathCut(prefix, k, p);
      FindInside(kids, k, p);
    }
  }

  lemma DeeperListed(kids: Bucket, prefix: Path, maxima: bool, k: Key, sub: map<Path, real>, p: Path)
    requires k in kids && kids[k].Dict? && Listed(kids[k].kids, prefix + [k], kids[k].kids.Keys, sub, maxima)
    requires MaxPath([k] + p) == maxima && Worth(At(kids, [k] + p), maxima)
    ensures prefix + ([k] + p) in sub && sub[prefix + ([k] + p)] == At(kids, [k] + p)
  {
    hide IsMax;
    var inner := kids[k].kids;
    PathCut(prefix, k, p);
    assert [k] + [] == [k] && Find(kids, [k]) == Some(kids[k]);
    if p != [] {
      FindInside(kids, k, p);
      var rest := p[1..];
      assert p == [p[0]] + rest;
      assert (prefix + [k]) + ([p[0]] + rest) == prefix + ([k] + p);
      assert MaxPath([p[0]] + rest) == maxima;
      assert p[0] in inner by {
        assert Find(inner, p).Some?;
      }
    }
  }

  function Applied(doc: Document, incs: map<Path, real>, maxima: map<Path, real>): Document {
    (p: Path) => if p in maxima then Larger(doc(p), maxima[p]) else if p in incs then doc(p) + incs[p] else doc(p)
  }

  /** Adding and raising what the walk listed is writing the whole bucket. */
  lemma UpdateIsWrite(s: State, b: nat, snapshot: Bucket, doc: Document, incs: map<Path, real>, maxima: map<Path, real>, p: Path)
    requires Listed(snapshot, [], snapshot.Keys, incs, false) && Listed(snapshot, [], snapshot.Keys, maxima, true)
    requires p != [] && doc(p) == SavedAt(s, b, p) >= 0.0
    ensures Applied(doc, incs, maxima)(p) == Written(s, b, snapshot)(p)
  {
    hide IsMax;
    assert p == [p[0]] + p[1..] && [] + p == p;
    assert p in incs ==> p[0..] == p;
    assert p in maxima ==> p[0..] == p;
    if p[0] !in snapshot {
      assert At(snapshot, p) == 0.0;
    } else if Worth(At(snapshot, [p[0]] + p[1..]), MaxPath([p[0]] + p[1..])) {
      assert [] + ([p[0]] + p[1..]) == p;
    }
  }

  lemma {:induction false} SavedNonNegative(es: seq<Event>, b: nat, p: Path)
    ensures SavedAt(Run(es), b, p) >= 0.0
  {
    if es != [] {
      var s, e := Run(es[..|es| - 1]), es[|es| - 1];
      SavedNonNegative(es[..|es| - 1], b, p);
      Conserved(es[..|es| - 1], b, [Http]);
      SavedStep(s, e, b, p);
    }
  }

  lemma SavedStep(s: State, e: Event, b: nat, p: Path)
    requires Good(s) && SavedAt(s, b, p) >= 0.0
    ensures SavedAt(Next(s, e), b, p) >= 0.0
  {
    hide MaxPath;
    hide At;
    if e.WriteApplied? && s.flush.Sending? && e.at in s.flush.todo {
      assert Underway(s, e.at, s.flush.todo[e.at]);
    }
  }

  /** The process: what is pending, the database's documents, and what others record
      while the flush waits. */
  class Aggregator {
    var pending: map<nat, Bucket>
    var saved: map<nat, Document>
    var script: seq<seq<(nat, Sample)>>

    /** The run so far, as the interleaved model tells it. */
    ghost var log: seq<Event>

    ghost predicate Valid()
      reads this
    {
      && pending == Run(log).pending
      && forall b, p :: p != [] ==> Stored(saved, b, p) == SavedAt(Run(log), b, p)
    }

    constructor ()
      ensures Valid() && log == [] && Run(log).flush.Quiet?
    {
      pending, saved, script, log := map[], map[], [], [];
    }

    /** Records one sample; no field it needs is ever missing. Every pending number of the
        bucket moves by what the sample adds to it or raises it to. */
    method RecordSample(b: nat, sample: Sample)
      requires Valid()
      modifies this`pending, this`log
      ensures Valid() && log == old(log) + [Recorded(b, sample)]
      ensures Run(log).flush == old(Run(log).flush) && Run(log).saved == old(Run(log).saved)
      ensures b in pending && pending == old(pending)[b := pending[b]]
      ensures forall q ::
        var before := if b in old(pending) then At(old(pending)[b], q) else 0.0;
        At(pending[b], q) == if MaxPath(q) then Larger(before, Reading(sample, q)) else before + Adds(sample, q)
    {
      Conserved(log, 0, [Http]);
      RecordMeans(Run(log), b, sample);
      hide MaxPath;
      hide Adds;
      hide Reading;
      hide At;
      hide Edits;
      hide RunEdits;
      hide Hydrated;
      hide Stored;
      OneMore(log, Recorded(b, sample));
      NothingRefused(log, b, sample);
      var bucket := Hydrated(if b in pending then Some(pending[b]) else None, Section(sample));
      bucket := RunAll(bucket, Edits(sample));
      pending := pending[b := bucket];
      log := log + [Recorded(b, sample)];
    }

    /** What others record during one wait. */
    method Others()
      requires Valid()
      modifies this`pending, this`log, this`script
      ensures Valid() && Extends(old(log), log)
      ensures Run(log).flush == old(Run(log).flush) && Run(log).saved == old(Run(log).saved)
    {
      if script == [] {
        return;
      }
      var chunk := script[0];
      script := script[1..];
      for i := 0 to |chunk|
        invariant Valid() && Extends(old(log), log)
        invariant Run(log).flush == old(Run(log).flush) && Run(log).saved == old(Run(log).saved)
      {
        RecordSample(chunk[i].0, chunk[i].1);
      }
    }

    /** Flushes what is pending. True means everything pending at the start is saved, once,
        whatever was recorded meanwhile; a failed write ends the flush. */
    method FlushPending(available: bool, outcomes: seq<bool>) returns (ok: bool)
      requires Valid() && Run(log).flush.Quiet?
      modifies this
      ensures Valid() && Run(log).flush.Quiet?
      ensures Extends(old(log), log)
      ensures ok ==> forall b, p :: b in old(pending) && old(pending)[b] != map[] && p != [] ==>
        Stored(saved, b, p) == Merged(Stored(old(saved), b, p), At(old(pending)[b], p), p)
    {
      hide Stored;
      hide Edits;
      hide Run;
      hide Valid;
      hide Merged;
      hide At;
      BeginFlush();
      var snapshots := map b | b in pending && pending[b] != map[] :: pending[b];
      assert forall b :: b in pending && pending[b] != map[] ==> b in snapshots && snapshots[b] == pending[b];
      if snapshots == map[] {
        return true;
      }
      Others();
      if !available {
        StopFlush();
        return false;
      }
      ok := FlushEach(snapshots, outcomes);
    }

    method FlushEach(todo: map<nat, Bucket>, outcomes: seq<bool>) returns (ok: bool)
      requires Valid() && Run(log).flush == Resume(todo)
      modifies this
      ensures Valid() && Run(log).flush.Quiet?
      ensures Extends(old(log), log)
      ensures ok ==> forall b, p :: b in todo && p != [] ==> Stored(saved, b, p) == Merged(Stored(old(saved), b, p), At(todo[b], p), p)
    {
      hide Stored;
      hide Edits;
      hide Run;
      hide Valid;
      hide Merged;
      hide At;
      var snapshots, n := todo, 0;
      while snapshots.Keys != {}
        invariant Valid() && Extends(old(log), log)
        invariant Run(log).flush == Resume(snapshots)
        invariant snapshots.Keys <= todo.Keys && forall b :: b in snapshots ==> snapshots[b] == todo[b]
        invariant forall b, p :: b in todo && b !in snapshots && p != [] ==>
          Stored(saved, b, p) == Merged(Stored(old(saved), b, p), At(todo[b], p), p)
        invariant forall b, p :: b in snapshots && p != [] ==> Stored(saved, b, p) == Stored(old(saved), b, p)
        decreases |snapshots|
      {
        var b := AnyKey(snapshots.Keys);
        var snapshot := snapshots[b];
        Others();
        var failed := n < |outcomes| && !outcomes[n];
        n := n + 1;
        if failed {
          StopFlush();
          return false;
        }
        FlushOne(b, snapshot);
        snapshots := snapshots - {b};
      }
      assert snapshots == map[];
      ok := true;
    }

    /** One bucket: the write, whatever is recorded then, and the difference. */
    method FlushOne(b: nat, snapshot: Bucket)
      requires Valid() && Run(log).flush.Sending? && b in Run(log).flush.todo && Run(log).flush.todo[b] == snapshot
      modifies this
      ensures Valid() && Extends(old(log), log)
      ensures Run(log).flush == Resume(old(Run(log).flush.todo) - {b})
      ensures forall c, p :: p != [] ==>
        Stored(saved, c, p) == if c == b then Merged(Stored(old(saved), c, p), At(snapshot, p), p) else Stored(old(saved), c, p)
    {
      hide Stored;
      hide Run;
      hide Valid;
      hide Merged;
      hide At;
      Write(b, snapshot);
      Others();
      Settle(b, snapshot);
    }

    ghost method BeginFlush()
      requires Valid() && Run(log).flush.Quiet?
      modifies this`log
      ensures Valid() && Extends(old(log), log)
      ensures Run(log).flush == Resume(map b | b in pending && pending[b] != map[] :: pending[b])
    {
      Note(FlushStarted);
    }

    ghost method StopFlush()
      requires Valid() && Run(log).flush.Sending?
      modifies this`log
      ensures Valid() && Extends(old(log), log) && Run(log).flush.Quiet?
    {
      Note(WriteFailed);
    }

    /** A step that leaves both sides alone. */
    ghost method Note(e: Event)
      requires Valid() && (e.FlushStarted? || e.WriteFailed?)
      modifies this`log
      ensures Valid() && log == old(log) + [e] && Run(log) == Next(Run(old(log)), e)
    {
      OneMore(log, e);
      log := log + [e];
    }

    method Write(b: nat, snapshot: Bucket)
      requires Valid() && Run(log).flush.Sending? && b in Run(log).flush.todo && Run(log).flush.todo[b] == snapshot
      modifies this`saved, this`log
      ensures Valid() && Extends(old(log), log)
      ensures Run(log).flush == Sent(b, snapshot, old(Run(log).flush.todo) - {b})
      ensures forall c, p :: p != [] ==>
        Stored(saved, c, p) == if c == b then Merged(Stored(old(saved), c, p), At(snapshot, p), p) else Stored(old(saved), c, p)
    {
      hide Listed;
      hide MaxPath;
      OneMore(log, WriteApplied(b));
      ghost var s := Run(log);
      var incs, maxima := MongoUpdate(Dict(snapshot), []);
      var was := saved;
      var before := (q: Path) => Stored(was, b, q);
      var doc := Applied(before, incs, maxima);
      saved := saved[b := doc];
      log := log + [WriteApplied(b)];
      ghost var n := Next(s, WriteApplied(b));
      assert n.saved == s.saved[b := Written(s, b, snapshot)];
      hide Run;
      hide Next;
      forall c, p | p != []
        ensures Stored(saved, c, p) == SavedAt(n, c, p)
        ensures Stored(saved, c, p) == if c == b then Merged(Stored(was, c, p), At(snapshot, p), p) else Stored(was, c, p)
      {
        assert Stored(was, c, p) == SavedAt(s, c, p);
        if c == b {
          SavedNonNegative(old(log), b, p);
          UpdateIsWrite(s, b, snapshot, before, incs, maxima, p);
        }
      }
    }

    method Settle(b: nat, snapshot: Bucket)
      requires Valid() && Run(log).flush.Sent? && Run(log).flush.at == b && Run(log).flush.snapshot == snapshot
      modifies this`pending, this`log
      ensures Valid() && Extends(old(log), log)
      ensures Run(log).flush == Resume(old(Run(log).flush.todo))
    {
      hide Stored;
      hide Subtract;
      OneMore(log, DifferenceTaken);
      if b in pending {
        var rest := SubtractDelta(Dict(pending[b]), Dict(snapshot));
        pending := if rest.kids == map[] then pending - {b} else pending[b := rest.kids];
      }
      log := log + [DifferenceTaken];
    }
  }

  method AnyKey(keys: set<nat>) returns (b: nat)
    requires keys != {}
    ensures b in keys
  {
    b :| b in keys;
  }

  /** A saved number after a write. */
  function Merged(x: real, y: real, p: Path): real {
    if MaxPath(p) then Larger(x, y) else x + y
  }

  predicate Extends(a: seq<Event>, b: seq<Event>) {
    |a| <= |b| && a == b[..|a|]
  }

  function Stored(saved: map<nat, Document>, b: nat, p: Path): real {
    if b in saved then saved[b](p) else 0.0
  }

  lemma OneMore(log: seq<Event>, e: Event)
    ensures Run(log + [e]) == Next(Run(log), e)
  {
    assert (log + [e])[..|log|] == log;
  }

  /** Makes the edits one after the other. */
  method RunAll(t: Bucket, es: seq<Edit>) returns (r: Bucket)
    requires RunEdits(t, es).Some?
    ensures Some(r) == RunEdits(t, es)
  {
    hide Apply;
    r := t;
    for i := 0 to |es|
      invariant RunEdits(r, es[i..]) == RunEdits(t, es)
    {
      assert es[i..][0] == es[i] && es[i..][1..] == es[i + 1..];
      r := Apply(r, es[i].path, es[i]).value;
    }
  }
}
