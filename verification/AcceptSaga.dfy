/** Accepting a challenge: a saga over two documents, without transactions. The match
    is staged, the challenge is claimed by a compare-and-set, the match is activated;
    any client may stop between two writes and any other operation may run there. */
module AcceptSaga {
  import opened Options

  type Id = nat
  type User = nat

  datatype Status = Pending | Accepted | Declined | Cancelled | Expired

  datatype Challenge = Challenge(challenger: User, opponent: User, status: Status, matchId: Option<Id>, createdAt: int)

  /** `game` stands for the fields that playing changes. */
  datatype Match = Match(challengeId: Id, white: User, black: User, active: bool, game: int)

  datatype Docs = Docs(challenges: map<Id, Challenge>, matches: map<Id, Match>)

  datatype Reply =
    | NotFound
    | Unavailable
    | Existing(match_: Match)
    | Won(challenge: Challenge, match_: Match)
    | Collision
    | NotActivated

  datatype Job = Job(cid: Id, user: User, cutoff: int, id: Id, draft: Match)

  /** Where a client stands between two store calls. */
  datatype Client =
    | Idle
    | Reading(cid: Id, user: User, row: Challenge)
    | Inserting(job: Job)
    | Locating(job: Job)
    | Claiming(job: Job)
    | Checking(job: Job)
    | Discarding(job: Job)
    | Activating(job: Job, row: Challenge)
    | Returned(reply: Reply)

  // ---- The store's atomic calls.

  function Put(d: Docs, cid: Id, c: Challenge): Docs {
    d.(challenges := d.challenges[cid := c])
  }

  function Create(d: Docs, cid: Id, challenger: User, opponent: User, createdAt: int): Docs {
    if cid in d.challenges then d else Put(d, cid, Challenge(challenger, opponent, Pending, None, createdAt))
  }

  predicate Open(d: Docs, cid: Id) {
    cid in d.challenges && d.challenges[cid].status.Pending?
  }

  function Resolve(d: Docs, cid: Id, status: Status): Docs
    requires cid in d.challenges
  {
    Put(d, cid, d.challenges[cid].(status := status))
  }

  function Cancel(d: Docs, cid: Id, user: User, cutoff: int): Docs {
    if Open(d, cid) && d.challenges[cid].challenger == user && d.challenges[cid].createdAt >= cutoff then Resolve(d, cid, Cancelled) else d
  }

  function Decline(d: Docs, cid: Id, user: User): Docs {
    if Open(d, cid) && d.challenges[cid].opponent == user then Resolve(d, cid, Declined) else d
  }

  function ExpireOne(d: Docs, cid: Id, cutoff: int): Docs {
    if Open(d, cid) && d.challenges[cid].createdAt < cutoff then Resolve(d, cid, Expired) else d
  }

  function LeaveOne(d: Docs, cid: Id, user: User): Docs {
    if Open(d, cid) && (d.challenges[cid].challenger == user || d.challenges[cid].opponent == user) then Resolve(d, cid, Cancelled) else d
  }

  predicate Visible(d: Docs, id: Id) {
    id in d.matches && d.matches[id].active
  }

  function Play(d: Docs, id: Id, game: int): Docs {
    if id in d.matches then d.(matches := d.matches[id := d.matches[id].(game := game)]) else d
  }

  // ---- Accepting, one store call at a time.

  /** Reads the challenge. */
  function Begin(d: Docs, cid: Id, user: User): Client {
    if cid !in d.challenges || d.challenges[cid].opponent != user then Returned(NotFound)
    else Reading(cid, user, d.challenges[cid])
  }

  /** Returns a match that can already be played, or drafts one. The colours and the
      cutoff are whatever the caller's coin and clock say. */
  function Prepare(d: Docs, c: Client, challengerWhite: bool, cutoff: int): Client
    requires c.Reading?
  {
    var row := c.row;
    if row.status.Accepted? && row.matchId.Some? && Visible(d, row.matchId.value) then Returned(Existing(d.matches[row.matchId.value]))
    else if row.status.Pending? || (row.status.Accepted? && row.matchId.Some?) then
      var id := if row.matchId.Some? then row.matchId.value else c.cid;
      var white := if challengerWhite then row.challenger else c.user;
      var black := if challengerWhite then c.user else row.challenger;
      Inserting(Job(c.cid, c.user, cutoff, id, Match(c.cid, white, black, false, 0)))
    else Returned(NotFound)
  }

  predicate Claimable(d: Docs, job: Job) {
    Open(d, job.cid) && d.challenges[job.cid].opponent == job.user && d.challenges[job.cid].createdAt >= job.cutoff
  }

  predicate Claimed(d: Docs, job: Job) {
    job.cid in d.challenges && d.challenges[job.cid].status.Accepted?
    && d.challenges[job.cid].opponent == job.user && d.challenges[job.cid].matchId == Some(job.id)
  }

  predicate Ours(d: Docs, job: Job) {
    job.id in d.matches && d.matches[job.id].challengeId == job.cid
  }

  /** One store call of a running acceptance. */
  function Advance(d: Docs, c: Client): (Docs, Client) {
    match c
    case Inserting(job) =>
      if job.id in d.matches then (d, Locating(job))
      else (d.(matches := d.matches[job.id := job.draft.(challengeId := job.cid, active := false)]), Claiming(job))
    case Locating(job) =>
      (d, if Ours(d, job) then Claiming(job) else Returned(Collision))
    case Claiming(job) =>
      if Claimable(d, job) then
        var row := d.challenges[job.cid].(status := Accepted, matchId := Some(job.id));
        (Put(d, job.cid, row), Activating(job, row))
      else (d, Checking(job))
    case Checking(job) =>
      (d, if Claimed(d, job) then Activating(job, d.challenges[job.cid]) else Discarding(job))
    case Discarding(job) =>
      (if Ours(d, job) && !d.matches[job.id].active then d.(matches := d.matches - {job.id}) else d, Returned(Unavailable))
    case Activating(job, row) =>
      if Ours(d, job) then
        var m := d.matches[job.id].(active := true);
        (d.(matches := d.matches[job.id := m]), Returned(Won(row, m)))
      else (d, Returned(NotActivated))
    case _ => (d, c)
  }

  // ---- All clients together.

  datatype World = World(docs: Docs, clients: map<nat, Client>)

  datatype Event =
    | Challenged(cid: Id, challenger: User, opponent: User, createdAt: int)
    | Started(client: nat, cid: Id, user: User)
    | Prepared(client: nat, challengerWhite: bool, cutoff: int)
    | Advanced(client: nat)
    | Crashed(client: nat)
    | CancelledBy(cid: Id, user: User, cutoff: int)
    | DeclinedBy(cid: Id, user: User)
    | ExpiredAt(cid: Id, cutoff: int)
    | LeftBy(cid: Id, user: User)
    | Played(id: Id, game: int)

  function Next(w: World, e: Event): World {
    match e
    case Challenged(cid, challenger, opponent, createdAt) => w.(docs := Create(w.docs, cid, challenger, opponent, createdAt))
    case Started(i, cid, user) => w.(clients := w.clients[i := Begin(w.docs, cid, user)])
    case Prepared(i, challengerWhite, cutoff) =>
      if i in w.clients && w.clients[i].Reading? then w.(clients := w.clients[i := Prepare(w.docs, w.clients[i], challengerWhite, cutoff)]) else w
    case Advanced(i) =>
      if i in w.clients then
        var (docs, c) := Advance(w.docs, w.clients[i]);
        World(docs, w.clients[i := c])
      else w
    case Crashed(i) => w.(clients := w.clients[i := Idle])
    case CancelledBy(cid, user, cutoff) => w.(docs := Cancel(w.docs, cid, user, cutoff))
    case DeclinedBy(cid, user) => w.(docs := Decline(w.docs, cid, user))
    case ExpiredAt(cid, cutoff) => w.(docs := ExpireOne(w.docs, cid, cutoff))
    case LeftBy(cid, user) => w.(docs := LeaveOne(w.docs, cid, user))
    case Played(id, game) => w.(docs := Play(w.docs, id, game))
  }

  function Run(w: World, es: seq<Event>): World
    decreases es
  {
    if es == [] then w else Run(Next(w, es[0]), es[1..])
  }

  const EMPTY: World := World(Docs(map[], map[]), map[])

  // ---- What every step keeps.

  /** A match has one side each for the two users of its challenge. */
  ghost predicate Pairs(m: Match, c: Challenge) {
    (m.white == c.challenger && m.black == c.opponent) || (m.white == c.opponent && m.black == c.challenger)
  }

  ghost predicate PointsAt(d: Docs, id: Id) {
    id in d.challenges && d.challenges[id].status.Accepted? && d.challenges[id].matchId == Some(id)
  }

  /** The documents: a match is filed under its own challenge's id, and one that can be
      played belongs to an accepted challenge pointing at it. */
  ghost predicate GoodDocs(d: Docs) {
    && (forall cid :: cid in d.challenges ==>
          if d.challenges[cid].status.Accepted? then d.challenges[cid].matchId == Some(cid) else d.challenges[cid].matchId == None)
    && (forall id :: id in d.matches ==> d.matches[id].challengeId == id && id in d.challenges && Pairs(d.matches[id], d.challenges[id]))
    && forall id :: id in d.matches && d.matches[id].active ==> PointsAt(d, id)
  }

  ghost predicate GoodJob(d: Docs, job: Job) {
    job.cid in d.challenges && job.id == job.cid && d.challenges[job.cid].opponent == job.user && Pairs(job.draft, d.challenges[job.cid])
  }

  /** The match a client was given can be played, and is the one it was given. */
  ghost predicate Handed(d: Docs, m: Match) {
    Visible(d, m.challengeId) && SameSides(d.matches[m.challengeId], m)
  }

  ghost predicate SameSides(m: Match, n: Match) {
    m.challengeId == n.challengeId && m.white == n.white && m.black == n.black
  }

  ghost predicate GoodClient(d: Docs, c: Client) {
    match c
    case Idle => true
    case Reading(cid, user, row) =>
      cid in d.challenges && row.challenger == d.challenges[cid].challenger && row.opponent == d.challenges[cid].opponent == user
      && if row.status.Accepted? then row.matchId == Some(cid) else row.matchId == None
    case Activating(job, row) => GoodJob(d, job) && PointsAt(d, job.cid)
    case Returned(reply) =>
      reply.Existing? || reply.Won? ==> Handed(d, reply.match_)
    case _ => GoodJob(d, c.job)
  }

  ghost predicate Good(w: World) {
    GoodDocs(w.docs) && forall i :: i in w.clients ==> GoodClient(w.docs, w.clients[i])
  }

  /** What no operation ever undoes: users of a challenge, acceptance, and the sides of
      a match that can be played. */
  ghost predicate Kept(d: Docs, e: Docs) {
    && (forall cid :: cid in d.challenges ==> cid in e.challenges && e.challenges[cid].challenger == d.challenges[cid].challenger
                                              && e.challenges[cid].opponent == d.challenges[cid].opponent)
    && (forall cid :: cid in d.challenges && !d.challenges[cid].status.Pending? ==> e.challenges[cid] == d.challenges[cid])
    && forall id :: Visible(d, id) ==> Visible(e, id) && SameSides(e.matches[id], d.matches[id])
  }

  lemma AdvanceKeeps(d: Docs, c: Client)
    requires GoodDocs(d) && GoodClient(d, c)
    ensures GoodDocs(Advance(d, c).0) && GoodClient(Advance(d, c).0, Advance(d, c).1)
    ensures Kept(d, Advance(d, c).0)
  {
    match c {
      case Inserting(job) => InsertKeeps(d, job);
      case Claiming(job) => ClaimKeeps(d, job);
      case Discarding(job) => DiscardKeeps(d, job);
      case Activating(job, row) => ActivateKeeps(d, job, row);
      case Locating(job) => NothingChanged(d);
      case Checking(job) => NothingChanged(d);
      case _ => NothingChanged(d);
    }
  }

  lemma InsertKeeps(d: Docs, job: Job)
    requires GoodDocs(d) && GoodJob(d, job)
    ensures var (e, n) := Advance(d, Inserting(job)); GoodDocs(e) && GoodClient(e, n) && Kept(d, e)
  {
  }

  lemma ClaimKeeps(d: Docs, job: Job)
    requires GoodDocs(d) && GoodJob(d, job)
    ensures var (e, n) := Advance(d, Claiming(job)); GoodDocs(e) && GoodClient(e, n) && Kept(d, e)
  {
  }

  lemma DiscardKeeps(d: Docs, job: Job)
    requires GoodDocs(d) && GoodJob(d, job)
    ensures var (e, n) := Advance(d, Discarding(job)); GoodDocs(e) && GoodClient(e, n) && Kept(d, e)
  {
  }

  lemma ActivateKeeps(d: Docs, job: Job, row: Challenge)
    requires GoodDocs(d) && GoodJob(d, job) && PointsAt(d, job.cid)
    ensures var (e, n) := Advance(d, Activating(job, row)); GoodDocs(e) && GoodClient(e, n) && Kept(d, e)
  {
  }

  lemma StoreKeeps(d: Docs, e: Docs, cid: Id)
    requires GoodDocs(d) && e.matches == d.matches
    requires cid in e.challenges && e.challenges == d.challenges[cid := e.challenges[cid]]
    requires !e.challenges[cid].status.Accepted? && e.challenges[cid].matchId == None
    requires cid in d.challenges ==> d.challenges[cid].status.Pending? && e.challenges[cid].challenger == d.challenges[cid].challenger
                                     && e.challenges[cid].opponent == d.challenges[cid].opponent
    ensures GoodDocs(e) && Kept(d, e)
  {
  }

  /** Clients stay good while others act. */
  lemma OthersKeep(d: Docs, e: Docs, c: Client)
    requires GoodClient(d, c) && Kept(d, e)
    ensures GoodClient(e, c)
  {
  }

  /** Every step, by any client or by any other operation, keeps the invariant and
      undoes nothing. */
  lemma StepKeeps(w: World, e: Event)
    requires Good(w)
    ensures Good(Next(w, e)) && Kept(w.docs, Next(w, e).docs)
  {
    hide GoodClient;
    hide Advance;
    hide Prepare;
    hide Begin;
    var n := Next(w, e);
    DocsKept(w, e);
    forall i | i in n.clients
      ensures GoodClient(n.docs, n.clients[i])
    {
      if i in w.clients {
        OthersKeep(w.docs, n.docs, w.clients[i]);
      }
      ClientKept(w, e, i);
    }
  }

  lemma DocsKept(w: World, e: Event)
    requires Good(w)
    ensures GoodDocs(Next(w, e).docs) && Kept(w.docs, Next(w, e).docs)
  {
    hide GoodClient;
    hide Advance;
    hide Prepare;
    hide Begin;
    match e {
      case Advanced(i) => if i in w.clients { AdvanceKeeps(w.docs, w.clients[i]); }
      case Challenged(cid, a, b, t) => if cid !in w.docs.challenges { StoreKeeps(w.docs, Next(w, e).docs, cid); }
      case CancelledBy(cid, u, t) => if Next(w, e) != w { StoreKeeps(w.docs, Next(w, e).docs, cid); }
      case DeclinedBy(cid, u) => if Next(w, e) != w { StoreKeeps(w.docs, Next(w, e).docs, cid); }
      case ExpiredAt(cid, t) => if Next(w, e) != w { StoreKeeps(w.docs, Next(w, e).docs, cid); }
      case LeftBy(cid, u) => if Next(w, e) != w { StoreKeeps(w.docs, Next(w, e).docs, cid); }
      case Played(id, g) =>
      case Started(i, c, u) =>
      case Prepared(i, c, t) =>
      case Crashed(i) =>
    }
  }

  /** The client that acts stays good too. */
  lemma ClientKept(w: World, e: Event, i: nat)
    requires Good(w) && i in Next(w, e).clients
    requires i in w.clients ==> GoodClient(Next(w, e).docs, w.clients[i])
    ensures GoodClient(Next(w, e).docs, Next(w, e).clients[i])
  {
    match e {
      case Advanced(j) => if j == i && i in w.clients { AdvanceKeeps(w.docs, w.clients[i]); }
      case Prepared(j, white, t) => if j == i && i in w.clients && w.clients[i].Reading? { PrepareGood(w.docs, w.clients[i], white, t); }
      case _ =>
    }
  }

  lemma PrepareGood(d: Docs, c: Client, challengerWhite: bool, cutoff: int)
    requires GoodDocs(d) && GoodClient(d, c) && c.Reading?
    ensures GoodClient(d, Prepare(d, c, challengerWhite, cutoff))
    ensures var p := Prepare(d, c, challengerWhite, cutoff);
      p.Inserting? ==> p.job.draft.white == if challengerWhite then d.challenges[c.cid].challenger else d.challenges[c.cid].opponent
  {
  }

  lemma KeptTwice(a: Docs, b: Docs, c: Docs)
    requires Kept(a, b) && Kept(b, c)
    ensures Kept(a, c)
  {
  }

  lemma {:induction false} RunKeeps(w: World, es: seq<Event>)
    requires Good(w)
    ensures Good(Run(w, es)) && Kept(w.docs, Run(w, es).docs)
    decreases es
  {
    hide Good;
    hide Kept;
    hide Next;
    if es == [] {
      assert Kept(w.docs, w.docs) by { NothingChanged(w.docs); }
    } else {
      StepKeeps(w, es[0]);
      RunKeeps(Next(w, es[0]), es[1..]);
      KeptTwice(w.docs, Next(w, es[0]).docs, Run(w, es).docs);
    }
  }

  lemma NothingChanged(d: Docs)
    ensures Kept(d, d)
  {
  }

  lemma {:induction false} RunSplit(w: World, es: seq<Event>, more: seq<Event>)
    ensures Run(w, es + more) == Run(Run(w, es), more)
    decreases es
  {
    if es == [] {
      assert es + more == more;
    } else {
      assert (es + more)[1..] == es[1..] + more;
      RunSplit(Next(w, es[0]), es[1..], more);
    }
  }

  // ---- Results over whole runs.

  /** After any interleaving with any crashes, a match that can be played belongs to an
      accepted challenge that points at it, between that challenge's two users. */
  lemma PlayableBelongsToAccepted(es: seq<Event>, id: Id)
    requires Visible(Run(EMPTY, es).docs, id)
    ensures var d := Run(EMPTY, es).docs;
      PointsAt(d, id) && d.matches[id].challengeId == id && Pairs(d.matches[id], d.challenges[id])
  {
    RunKeeps(EMPTY, es);
  }

  lemma OneMatchPerChallenge(es: seq<Event>, a: Id, b: Id)
    requires var d := Run(EMPTY, es).docs;
      a in d.matches && b in d.matches && d.matches[a].challengeId == d.matches[b].challengeId
    ensures a == b
  {
    RunKeeps(EMPTY, es);
  }

  /** A decided challenge stays as it is, and a match that can be played keeps its sides. */
  lemma NothingIsUndone(es: seq<Event>, more: seq<Event>)
    ensures Kept(Run(EMPTY, es).docs, Run(EMPTY, es + more).docs)
  {
    RunKeeps(EMPTY, es);
    RunSplit(EMPTY, es, more);
    RunKeeps(Run(EMPTY, es), more);
  }

  /** What decides a pending challenge, and how: its opponent declines; its challenger
      cancels in time, or either user leaves; its time runs out; or an acceptance by its
      opponent, drafted in time, claims it. */
  ghost predicate Decides(w: World, e: Event, cid: Id, status: Status)
    requires cid in w.docs.challenges
  {
    var c := w.docs.challenges[cid];
    match status
    case Pending => false
    case Declined => e == DeclinedBy(cid, c.opponent)
    case Cancelled =>
      || (e.CancelledBy? && e.cid == cid && e.user == c.challenger && e.cutoff <= c.createdAt)
      || e == LeftBy(cid, c.challenger)
      || e == LeftBy(cid, c.opponent)
    case Expired => e.ExpiredAt? && e.cid == cid && c.createdAt < e.cutoff
    case Accepted =>
      && e.Advanced? && e.client in w.clients && w.clients[e.client].Claiming?
      && var job := w.clients[e.client].job;
         job.cid == cid && job.user == c.opponent && job.cutoff <= c.createdAt
  }

  /** A pending challenge is moved by exactly those events, each to its own status. */
  lemma PendingMoves(w: World, e: Event, cid: Id, status: Status)
    requires Open(w.docs, cid)
    ensures cid in Next(w, e).docs.challenges
    ensures !status.Pending? ==> (Next(w, e).docs.challenges[cid].status == status <==> Decides(w, e, cid, status))
    ensures Next(w, e).docs.challenges[cid].status.Pending? <==> forall other :: !Decides(w, e, cid, other)
  {
    var after := Next(w, e).docs.challenges[cid].status;
    if !after.Pending? {
      assert Decides(w, e, cid, after);
    }
  }

  /** In every run a decided challenge was decided by one of its events while pending. */
  lemma {:induction false} WhoDecided(es: seq<Event>, cid: Id)
    requires cid in Run(EMPTY, es).docs.challenges && !Run(EMPTY, es).docs.challenges[cid].status.Pending?
    ensures exists k :: 0 <= k < |es| && Open(Run(EMPTY, es[..k]).docs, cid)
                        && Decides(Run(EMPTY, es[..k]), es[k], cid, Run(EMPTY, es).docs.challenges[cid].status)
    decreases |es|
  {
    hide Run;
    if es == [] {
      RunNone(EMPTY);
    } else {
      var before, e := es[..|es| - 1], es[|es| - 1];
      assert es == before + [e];
      RunSplit(EMPTY, before, [e]);
      RunLast(Run(EMPTY, before), e);
      RunKeeps(EMPTY, before);
      var w := Run(EMPTY, before);
      StepKeeps(w, e);
      hide Next;
      if Open(w.docs, cid) {
        PendingMoves(w, e, cid, Run(EMPTY, es).docs.challenges[cid].status);
      } else {
        if cid !in w.docs.challenges {
          MadePending(w, e, cid);
        }
        WhoDecided(before, cid);
        var k :| 0 <= k < |before| && Open(Run(EMPTY, before[..k]).docs, cid)
                 && Decides(Run(EMPTY, before[..k]), before[k], cid, w.docs.challenges[cid].status);
        assert before[..k] == es[..k];
      }
    }
  }

  lemma RunLast(w: World, e: Event)
    ensures Run(w, [e]) == Next(w, e)
  {
    assert Run(Next(w, e), []) == Next(w, e);
  }

  /** A challenge begins as pending, as it was made. */
  lemma MadePending(w: World, e: Event, cid: Id)
    requires cid !in w.docs.challenges && cid in Next(w, e).docs.challenges
    ensures var c := Next(w, e).docs.challenges[cid];
      c.status.Pending? && e == Challenged(cid, c.challenger, c.opponent, c.createdAt)
  {
  }

  /** In every run a challenge is from and to whom, and from when, it was made. */
  lemma {:induction false} WhoChallenged(es: seq<Event>, cid: Id)
    requires cid in Run(EMPTY, es).docs.challenges
    ensures var c := Run(EMPTY, es).docs.challenges[cid];
      Challenged(cid, c.challenger, c.opponent, c.createdAt) in es
    decreases |es|
  {
    hide Run;
    if es == [] {
      RunNone(EMPTY);
    } else {
      var before, e := es[..|es| - 1], es[|es| - 1];
      assert es == before + [e];
      RunSplit(EMPTY, before, [e]);
      RunLast(Run(EMPTY, before), e);
      RunKeeps(EMPTY, before);
      var w := Run(EMPTY, before);
      StepKeeps(w, e);
      hide Next;
      if cid in w.docs.challenges {
        WhoChallenged(before, cid);
        TimeStands(w, e, cid);
      } else {
        MadePending(w, e, cid);
      }
    }
  }

  lemma TimeStands(w: World, e: Event, cid: Id)
    requires cid in w.docs.challenges && cid in Next(w, e).docs.challenges
    ensures Next(w, e).docs.challenges[cid].createdAt == w.docs.challenges[cid].createdAt
  {
  }

  ghost predicate HasMatch(c: Client) {
    c.Returned? && (c.reply.Existing? || c.reply.Won?)
  }

  /** Clients handed a match for one challenge, at whatever times, were handed the same
      sides, and those are the ones being played. */
  lemma EveryoneGetsTheSameMatch(es: seq<Event>, more: seq<Event>, i: nat, j: nat)
    requires i in Run(EMPTY, es).clients && HasMatch(Run(EMPTY, es).clients[i])
    requires j in Run(EMPTY, es + more).clients && HasMatch(Run(EMPTY, es + more).clients[j])
    requires Run(EMPTY, es).clients[i].reply.match_.challengeId == Run(EMPTY, es + more).clients[j].reply.match_.challengeId
    ensures SameSides(Run(EMPTY, es).clients[i].reply.match_, Run(EMPTY, es + more).clients[j].reply.match_)
    ensures Handed(Run(EMPTY, es + more).docs, Run(EMPTY, es).clients[i].reply.match_)
  {
    hide Run;
    RunKeeps(EMPTY, es);
    RunKeeps(EMPTY, es + more);
    NothingIsUndone(es, more);
  }

  // ---- One acceptance run to its end without interruption.

  function Left(c: Client): nat {
    match c
    case Inserting(_) => 6
    case Locating(_) => 5
    case Claiming(_) => 4
    case Checking(_) => 3
    case Discarding(_) => 2
    case Activating(_, _) => 1
    case _ => 0
  }

  function Finish(d: Docs, c: Client): (Docs, Client)
    decreases Left(c)
  {
    if Left(c) == 0 then (d, c)
    else
      var (e, n) := Advance(d, c);
      Finish(e, n)
  }

  lemma FinishStep(d: Docs, c: Client)
    ensures Left(c) == 0 ==> Finish(d, c) == (d, c)
    ensures Left(c) > 0 ==> Finish(d, c) == Finish(Advance(d, c).0, Advance(d, c).1)
  {
  }

  ghost predicate OnlyTouches(d: Docs, e: Docs, id: Id) {
    && (forall k :: k != id ==> (k in d.matches <==> k in e.matches) && (k in d.challenges <==> k in e.challenges))
    && (forall k :: k != id && k in d.matches ==> e.matches[k] == d.matches[k])
    && forall k :: k != id && k in d.challenges ==> e.challenges[k] == d.challenges[k]
  }

  /** From any sound documents one uninterrupted store-level acceptance either ends with
      the match playable, the one staged earlier if there was one, or refuses and leaves
      no staged match. */
  lemma RetrySettles(d: Docs, job: Job)
    requires GoodDocs(d) && job.id == job.cid
    ensures var (e, c) := Finish(d, Inserting(job));
      && c.Returned? && OnlyTouches(d, e, job.cid)
      && (c.reply.Won? <==> Claimable(d, job) || Claimed(d, job))
      && (c.reply.Won? ==> Visible(e, job.cid) && PointsAt(e, job.cid) && c.reply.match_ == e.matches[job.cid]
                           && e.matches[job.cid] == (if job.cid in d.matches then d.matches[job.cid] else job.draft).(challengeId := job.cid, active := true))
      && (Claimed(d, job) ==> e.challenges == d.challenges)
      && (!c.reply.Won? ==> c.reply.Unavailable? && e.challenges == d.challenges && (job.cid in e.matches ==> Visible(e, job.cid)))
  {
    hide Finish;
    var start := Staged(d, job);
    ClaimEnds(start, job);
  }

  /** The first half of an acceptance puts a match in place. */
  lemma Staged(d: Docs, job: Job) returns (start: Docs)
    requires GoodDocs(d) && job.id == job.cid
    ensures start == if job.id in d.matches then d else d.(matches := d.matches[job.id := job.draft.(challengeId := job.cid, active := false)])
    ensures Ours(start, job)
    ensures Finish(d, Inserting(job)) == Finish(start, Claiming(job))
  {
    hide Finish;
    FinishStep(d, Inserting(job));
    start := Advance(d, Inserting(job)).0;
    FinishStep(d, Locating(job));
  }

  /** The second half of an acceptance, once a match is in place. */
  lemma ClaimEnds(d: Docs, job: Job)
    requires Ours(d, job)
    ensures Finish(d, Claiming(job)) ==
      if Claimable(d, job) then
        var row := d.challenges[job.cid].(status := Accepted, matchId := Some(job.id));
        var m := d.matches[job.id].(active := true);
        (Docs(d.challenges[job.cid := row], d.matches[job.id := m]), Returned(Won(row, m)))
      else if Claimed(d, job) then
        var m := d.matches[job.id].(active := true);
        (Docs(d.challenges, d.matches[job.id := m]), Returned(Won(d.challenges[job.cid], m)))
      else if d.matches[job.id].active then (d, Returned(Unavailable))
      else (Docs(d.challenges, d.matches - {job.id}), Returned(Unavailable))
  {
    hide Finish;
    FinishStep(d, Claiming(job));
    var (e, c) := Advance(d, Claiming(job));
    if Claimable(d, job) {
      FinishStep(e, c);
    } else {
      FinishStep(d, Checking(job));
      FinishStep(d, Advance(d, Checking(job)).1);
    }
    var (f, n) := Advance(e, if Claimable(d, job) then c else Advance(d, Checking(job)).1);
    FinishStep(f, n);
  }

  /** The whole request, uninterrupted. */
  function Request(d: Docs, cid: Id, user: User, challengerWhite: bool, cutoff: int): (Docs, Client) {
    var c := Begin(d, cid, user);
    if c.Reading? then Finish(d, Prepare(d, c, challengerWhite, cutoff)) else (d, c)
  }

  /** Once a challenge is accepted, whatever crashed or raced since, one uninterrupted
      request by its opponent ends with the match playable. */
  lemma RequestRecovers(es: seq<Event>, cid: Id, challengerWhite: bool, cutoff: int)
    requires PointsAt(Run(EMPTY, es).docs, cid)
    ensures var d := Run(EMPTY, es).docs;
      var (e, c) := Request(d, cid, d.challenges[cid].opponent, challengerWhite, cutoff);
      HasMatch(c) && c.reply.match_.challengeId == cid && Handed(e, c.reply.match_) && Kept(d, e)
  {
    RunKeeps(EMPTY, es);
    var d := Run(EMPTY, es).docs;
    hide Run;
    hide Finish;
    var user := d.challenges[cid].opponent;
    var c := Begin(d, cid, user);
    var p := Prepare(d, c, challengerWhite, cutoff);
    if p.Inserting? {
      RetrySettles(d, p.job);
      assert Claimed(d, p.job);
    } else {
      FinishStep(d, p);
    }
  }

  // ---- When an accepted challenge has its match.

  function JobOf(c: Client): Option<Job> {
    match c
    case Inserting(job) => Some(job)
    case Locating(job) => Some(job)
    case Claiming(job) => Some(job)
    case Checking(job) => Some(job)
    case Discarding(job) => Some(job)
    case Activating(job, _) => Some(job)
    case _ => None
  }

  predicate Live(d: Docs, cid: Id) {
    cid in d.challenges && (d.challenges[cid].status.Pending? || d.challenges[cid].status.Accepted?)
  }

  /** An attempt begun while the challenge was in time. A live challenge keeps the match
      it staged, and it discards only what was decided otherwise. */
  ghost predicate TimelyClient(d: Docs, c: Client, cid: Id) {
    && (c.Reading? && c.cid == cid ==> cid in d.challenges && c.row.createdAt == d.challenges[cid].createdAt)
    && (JobOf(c).Some? && JobOf(c).value.cid == cid ==>
          && cid in d.challenges && JobOf(c).value.cutoff <= d.challenges[cid].createdAt
          && (c.Checking? ==> !d.challenges[cid].status.Pending?)
          && (c.Discarding? ==> !Live(d, cid))
          && (!c.Inserting? && Live(d, cid) ==> cid in d.matches))
  }

  ghost predicate Timely(w: World, cid: Id) {
    && (PointsAt(w.docs, cid) ==> cid in w.docs.matches)
    && forall i :: i in w.clients ==> TimelyClient(w.docs, w.clients[i], cid)
  }

  /** Every attempt on the challenge reads the clock no later than its time runs out. */
  predicate InTime(w: World, e: Event, cid: Id) {
    e.Prepared? && e.client in w.clients && w.clients[e.client].Reading? && w.clients[e.client].cid == cid ==>
      e.cutoff <= w.clients[e.client].row.createdAt
  }

  predicate AllInTime(w: World, es: seq<Event>, cid: Id)
    decreases es
  {
    es == [] || (InTime(w, es[0], cid) && AllInTime(Next(w, es[0]), es[1..], cid))
  }

  /** How one step may change the documents as far as this challenge is concerned. */
  ghost predicate Gentle(d: Docs, e: Docs, cid: Id) {
    && (cid in d.challenges ==> cid in e.challenges && e.challenges[cid].createdAt == d.challenges[cid].createdAt
                                && (!d.challenges[cid].status.Pending? ==> e.challenges[cid] == d.challenges[cid]))
    && (Live(e, cid) && cid in d.matches ==> cid in e.matches)
  }

  lemma StillTimely(d: Docs, e: Docs, c: Client, cid: Id)
    requires TimelyClient(d, c, cid) && Gentle(d, e, cid)
    ensures TimelyClient(e, c, cid)
  {
  }

  lemma TimelyAdvance(d: Docs, c: Client, cid: Id)
    requires GoodDocs(d) && GoodClient(d, c) && TimelyClient(d, c, cid) && (PointsAt(d, cid) ==> cid in d.matches)
    ensures var (e, n) := Advance(d, c);
      Gentle(d, e, cid) && TimelyClient(e, n, cid) && (PointsAt(e, cid) ==> cid in e.matches)
  {
  }

  lemma TimelyStep(w: World, e: Event, cid: Id)
    requires Good(w) && Timely(w, cid) && InTime(w, e, cid)
    ensures Timely(Next(w, e), cid)
  {
    hide Advance;
    hide GoodDocs;
    hide GoodClient;
    hide TimelyClient;
    var n := Next(w, e);
    TimelyDocs(w, e, cid);
    forall i | i in n.clients
      ensures TimelyClient(n.docs, n.clients[i], cid)
    {
      if i in w.clients {
        StillTimely(w.docs, n.docs, w.clients[i], cid);
      }
      TimelyActor(w, e, cid, i);
    }
  }

  lemma TimelyDocs(w: World, e: Event, cid: Id)
    requires Good(w) && Timely(w, cid)
    ensures Gentle(w.docs, Next(w, e).docs, cid) && (PointsAt(Next(w, e).docs, cid) ==> cid in Next(w, e).docs.matches)
  {
    hide Advance;
    hide GoodClient;
    hide TimelyClient;
    match e {
      case Advanced(i) =>
        if i in w.clients {
          TimelyAdvance(w.docs, w.clients[i], cid);
        }
      case _ =>
    }
  }

  lemma TimelyActor(w: World, e: Event, cid: Id, i: nat)
    requires Good(w) && Timely(w, cid) && InTime(w, e, cid) && i in Next(w, e).clients
    requires i in w.clients ==> TimelyClient(Next(w, e).docs, w.clients[i], cid)
    ensures TimelyClient(Next(w, e).docs, Next(w, e).clients[i], cid)
  {
    hide GoodDocs;
    match e {
      case Advanced(j) =>
        if j == i && i in w.clients {
          hide Advance;
          TimelyAdvance(w.docs, w.clients[i], cid);
        }
      case _ =>
    }
  }

  lemma {:induction false} TimelyRun(w: World, es: seq<Event>, cid: Id)
    requires Good(w) && Timely(w, cid) && AllInTime(w, es, cid)
    ensures Timely(Run(w, es), cid)
    decreases es
  {
    hide Good;
    hide Timely;
    hide Next;
    hide InTime;
    if es != [] {
      StepKeeps(w, es[0]);
      TimelyStep(w, es[0], cid);
      TimelyRun(Next(w, es[0]), es[1..], cid);
    }
  }

  /** Whatever else happens, a challenge all of whose attempts are begun in time is never
      accepted without its match. */
  lemma AcceptedInTimeHasMatch(es: seq<Event>, cid: Id)
    requires AllInTime(EMPTY, es, cid)
    ensures PointsAt(Run(EMPTY, es).docs, cid) ==> cid in Run(EMPTY, es).docs.matches
  {
    TimelyRun(EMPTY, es, cid);
  }

  predicate LeftEmptyHanded(c: Client) {
    c.Returned? && c.reply.NotActivated?
  }

  /** And where that holds of every challenge, no client that claimed one is told that its
      match is gone. */
  lemma {:induction false} NobodyLeftEmptyHanded(w: World, es: seq<Event>, i: nat)
    requires Good(w) && (forall cid :: Timely(w, cid) && AllInTime(w, es, cid))
    requires forall j :: j in w.clients ==> !LeftEmptyHanded(w.clients[j])
    requires i in Run(w, es).clients
    ensures !LeftEmptyHanded(Run(w, es).clients[i])
    decreases es
  {
    hide Timely;
    hide InTime;
    if es != [] {
      var n := Next(w, es[0]);
      StepKeeps(w, es[0]);
      forall cid
        ensures Timely(n, cid) && AllInTime(n, es[1..], cid)
      {
        assert AllInTime(w, es, cid);
        TimelyStep(w, es[0], cid);
      }
      forall j | j in n.clients
        ensures !LeftEmptyHanded(n.clients[j])
      {
        NotTurnedAway(w, es[0], j);
      }
      hide Next;
      hide Good;
      NobodyLeftEmptyHanded(n, es[1..], i);
    }
  }

  lemma NotTurnedAway(w: World, e: Event, j: nat)
    requires Good(w) && (forall cid :: Timely(w, cid))
    requires forall k :: k in w.clients ==> !LeftEmptyHanded(w.clients[k])
    requires j in Next(w, e).clients
    ensures !LeftEmptyHanded(Next(w, e).clients[j])
  {
    if e.Advanced? && e.client == j && j in w.clients && JobOf(w.clients[j]).Some? {
      assert Timely(w, JobOf(w.clients[j]).value.cid);
      assert TimelyClient(w.docs, w.clients[j], JobOf(w.clients[j]).value.cid);
      assert GoodClient(w.docs, w.clients[j]);
    }
  }

  lemma NobodyTurnedAwayInTime(es: seq<Event>, i: nat)
    requires forall cid :: AllInTime(EMPTY, es, cid)
    requires i in Run(EMPTY, es).clients
    ensures !LeftEmptyHanded(Run(EMPTY, es).clients[i])
  {
    NobodyLeftEmptyHanded(EMPTY, es, i);
  }

  // ---- What happens otherwise.

  lemma Then(es: seq<Event>, w: World, e: Event, n: World) returns (more: seq<Event>, last: World)
    requires Run(EMPTY, es) == w && Next(w, e) == n
    ensures more == es + [e] && last == n && Run(EMPTY, more) == n
  {
    more, last := es + [e], n;
    RunSplit(EMPTY, es, [e]);
    assert [e][1..] == [];
    assert Run(w, [e]) == Run(Next(w, e), []);
  }

  lemma RunNone(w: World)
    ensures Run(w, []) == w
  {
  }

  function Scene(c: Challenge, staged: bool, one: Client, two: Client): World {
    World(Docs(map[0 := c], if staged then map[0 := Match(0, c.challenger, c.opponent, false, 0)] else map[]), map[1 := one, 2 := two])
  }

  /** Two attempts on one challenge, with their own readings of the clock. */
  predicate TwoAttempts(open: Challenge, one: Job, two: Job) {
    && open.status.Pending? && open.matchId.None?
    && one == Job(0, open.opponent, one.cutoff, 0, Match(0, open.challenger, open.opponent, false, 0)) && two == one.(cutoff := two.cutoff)
  }

  lemma BothPrepare(open: Challenge, one: Job, two: Job) returns (es: seq<Event>)
    requires TwoAttempts(open, one, two)
    ensures Run(EMPTY, es) == Scene(open, false, Inserting(one), Inserting(two))
  {
    hide Run;
    var w;
    var u := open.opponent;
    assert Run(EMPTY, []) == EMPTY by { RunNone(EMPTY); }
    es, w := Then([], EMPTY, Challenged(0, open.challenger, u, open.createdAt), World(Docs(map[0 := open], map[]), map[]));
    es, w := Then(es, w, Crashed(2), World(w.docs, map[2 := Idle]));
    es, w := Then(es, w, Started(1, 0, u), Scene(open, false, Reading(0, u, open), Idle));
    es, w := Then(es, w, Started(2, 0, u), Scene(open, false, Reading(0, u, open), Reading(0, u, open)));
    es, w := Then(es, w, Prepared(1, true, one.cutoff), Scene(open, false, Inserting(one), Reading(0, u, open)));
    es, w := Then(es, w, Prepared(2, true, two.cutoff), Scene(open, false, Inserting(one), Inserting(two)));
  }

  lemma SecondGivesUp(before: seq<Event>, open: Challenge, one: Job, two: Job) returns (es: seq<Event>, w: World)
    requires Run(EMPTY, before) == Scene(open, false, Inserting(one), Inserting(two))
    requires TwoAttempts(open, one, two) && open.createdAt < two.cutoff
    ensures w == Scene(open, true, Claiming(one), Discarding(two)) && Run(EMPTY, es) == w
  {
    hide Run;
    es, w := before, Scene(open, false, Inserting(one), Inserting(two));
    es, w := Then(es, w, Advanced(1), Scene(open, true, Claiming(one), Inserting(two)));
    es, w := Then(es, w, Advanced(2), Scene(open, true, Claiming(one), Locating(two)));
    es, w := Then(es, w, Advanced(2), Scene(open, true, Claiming(one), Claiming(two)));
    es, w := Then(es, w, Advanced(2), Scene(open, true, Claiming(one), Checking(two)));
    es, w := Then(es, w, Advanced(2), Scene(open, true, Claiming(one), Discarding(two)));
  }

  /** Being in time is needed: for any challenge and any two attempts, one begun in time
      and one too late, some run discards the match between the first attempt's claim and
      its activation. The challenge is accepted, no match exists, and the first client is
      told so. Only a further request repairs it. */
  lemma AcceptedWithoutMatch(challenger: User, opponent: User, createdAt: int, inTime: int, late: int) returns (es: seq<Event>)
    requires inTime <= createdAt < late
    ensures var w := Run(EMPTY, es);
      && PointsAt(w.docs, 0) && w.docs.challenges[0] == Challenge(challenger, opponent, Accepted, Some(0), createdAt)
      && 0 !in w.docs.matches && 1 in w.clients && w.clients[1] == Returned(NotActivated)
  {
    hide Run;
    var open := Challenge(challenger, opponent, Pending, None, createdAt);
    var one := Job(0, opponent, inTime, 0, Match(0, challenger, opponent, false, 0));
    var two := one.(cutoff := late);
    es := BothPrepare(open, one, two);
    var w;
    es, w := SecondGivesUp(es, open, one, two);
    es, w := FirstIsTooLate(es, w, open, one, two);
  }

  lemma FirstIsTooLate(before: seq<Event>, start: World, open: Challenge, one: Job, two: Job) returns (es: seq<Event>, w: World)
    requires TwoAttempts(open, one, two) && one.cutoff <= open.createdAt
    requires start == Scene(open, true, Claiming(one), Discarding(two)) && Run(EMPTY, before) == start
    ensures w == Scene(open.(status := Accepted, matchId := Some(0)), false, Returned(NotActivated), Returned(Unavailable)) && Run(EMPTY, es) == w
  {
    hide Run;
    var won := open.(status := Accepted, matchId := Some(0));
    es, w := Then(before, start, Advanced(1), Scene(won, true, Activating(one, won), Discarding(two)));
    es, w := Then(es, w, Advanced(2), Scene(won, false, Activating(one, won), Returned(Unavailable)));
    es, w := Then(es, w, Advanced(1), Scene(won, false, Returned(NotActivated), Returned(Unavailable)));
  }

  // ---- Matches left staged.

  /** A staged match is nobody's: no client was ever handed it. */
  lemma StagedIsNobodys(es: seq<Event>, id: Id, i: nat)
    requires id in Run(EMPTY, es).docs.matches && !Visible(Run(EMPTY, es).docs, id)
    requires i in Run(EMPTY, es).clients && HasMatch(Run(EMPTY, es).clients[i])
    ensures Run(EMPTY, es).clients[i].reply.match_.challengeId != id
  {
    hide Run;
    RunKeeps(EMPTY, es);
  }

  /** Any challenge can be left with a staged match and be decided otherwise: a client
      stops after staging, and the challenger cancels. */
  lemma OrphanReached(challenger: User, opponent: User, createdAt: int, cutoff: int) returns (es: seq<Event>)
    requires cutoff <= createdAt
    ensures var d := Run(EMPTY, es).docs;
      && 0 in d.matches && !d.matches[0].active
      && 0 in d.challenges && d.challenges[0] == Challenge(challenger, opponent, Cancelled, None, createdAt)
  {
    hide Run;
    var open := Challenge(challenger, opponent, Pending, None, createdAt);
    var one := Job(0, opponent, cutoff, 0, Match(0, challenger, opponent, false, 0));
    var w;
    es := BothPrepare(open, one, one);
    es, w := Then(es, Scene(open, false, Inserting(one), Inserting(one)), Advanced(1), Scene(open, true, Claiming(one), Inserting(one)));
    es, w := Then(es, w, Crashed(1), Scene(open, true, Idle, Inserting(one)));
    es, w := Then(es, w, Crashed(2), Scene(open, true, Idle, Idle));
    es, w := Then(es, w, CancelledBy(0, challenger, cutoff), Scene(open.(status := Cancelled), true, Idle, Idle));
  }

  predicate StagedIn(d: Docs, cid: Id) {
    cid in d.matches && !d.matches[cid].active
  }

  /** Exactly such a match outlives a request: after one uninterrupted request by the
      opponent a staged match is still staged just when its challenge was neither pending
      nor accepted. Otherwise it can now be played, or is gone. */
  lemma StagedOutlivesRequestIff(d: Docs, cid: Id, challengerWhite: bool, cutoff: int)
    requires GoodDocs(d) && StagedIn(d, cid)
    ensures StagedIn(Request(d, cid, d.challenges[cid].opponent, challengerWhite, cutoff).0, cid) <==> !Live(d, cid)
  {
    hide Finish;
    var c := Begin(d, cid, d.challenges[cid].opponent);
    var p := Prepare(d, c, challengerWhite, cutoff);
    if p.Inserting? {
      RetrySettles(d, p.job);
    }
    FinishStep(d, p);
  }

  /** Requests of anybody leave such a match, and all else, as it is. */
  lemma OrphanSurvivesRequests(d: Docs, cid: Id, user: User, challengerWhite: bool, cutoff: int)
    requires GoodDocs(d) && cid in d.matches && !Live(d, cid)
    ensures Request(d, cid, user, challengerWhite, cutoff) == (d, Returned(NotFound))
    ensures !Visible(d, cid)
  {
    var c := Begin(d, cid, user);
    if c.Reading? {
      FinishStep(d, Prepare(d, c, challengerWhite, cutoff));
    }
  }

  // ---- The store itself.

  class Store {
    var challenges: map<Id, Challenge>
    var matches: map<Id, Match>

    function Contents(): Docs
      reads this
    {
      Docs(challenges, matches)
    }

    constructor ()
      ensures Contents() == EMPTY.docs
    {
      challenges, matches := map[], map[];
    }

    method CreateChallenge(cid: Id, challenger: User, opponent: User, createdAt: int)
      modifies this
      ensures Contents() == Create(old(Contents()), cid, challenger, opponent, createdAt)
    {
      if cid !in challenges {
        challenges := challenges[cid := Challenge(challenger, opponent, Pending, None, createdAt)];
      }
    }

    /** Cancels a challenge still pending and in time; asking again gives the same answer. */
    method CancelChallenge(cid: Id, user: User, cutoff: int) returns (row: Option<Challenge>)
      modifies this
      ensures Contents() == Cancel(old(Contents()), cid, user, cutoff)
      ensures row.Some? <==> cid in challenges && challenges[cid].challenger == user && challenges[cid].status.Cancelled?
      ensures row.Some? ==> row.value == challenges[cid]
    {
      if cid !in challenges || challenges[cid].challenger != user {
        return None;
      }
      if challenges[cid].status.Cancelled? {
        return Some(challenges[cid]);
      }
      if !challenges[cid].status.Pending? || challenges[cid].createdAt < cutoff {
        return None;
      }
      challenges := challenges[cid := challenges[cid].(status := Cancelled)];
      row := Some(challenges[cid]);
    }

    method DeclineChallenge(cid: Id, user: User) returns (row: Option<Challenge>)
      modifies this
      ensures Contents() == Decline(old(Contents()), cid, user)
      ensures row.Some? <==> old(Open(Contents(), cid) && challenges[cid].opponent == user)
      ensures row.Some? ==> row.value == challenges[cid]
    {
      if cid !in challenges || !challenges[cid].status.Pending? || challenges[cid].opponent != user {
        return None;
      }
      challenges := challenges[cid := challenges[cid].(status := Declined)];
      row := Some(challenges[cid]);
    }

    /** Listing first marks every pending challenge that has run out, and no other. */
    method ExpireChallenges(cutoff: int)
      modifies this
      ensures matches == old(matches) && challenges.Keys == old(challenges.Keys)
      ensures forall cid :: cid in challenges ==> challenges[cid] == ExpireOne(old(Contents()), cid, cutoff).challenges[cid]
    {
      var rest := challenges.Keys;
      while rest != {}
        invariant matches == old(matches) && challenges.Keys == old(challenges.Keys) && rest <= challenges.Keys
        invariant forall cid :: cid in rest ==> challenges[cid] == old(challenges)[cid]
        invariant forall cid :: cid in challenges && cid !in rest ==> challenges[cid] == ExpireOne(old(Contents()), cid, cutoff).challenges[cid]
      {
        var cid :| cid in rest;
        if challenges[cid].status.Pending? && challenges[cid].createdAt < cutoff {
          challenges := challenges[cid := challenges[cid].(status := Expired)];
        }
        rest := rest - {cid};
      }
    }

    /** Leaving cancels every pending challenge of the user, and no other. */
    method LeaveRoster(user: User)
      modifies this
      ensures matches == old(matches) && challenges.Keys == old(challenges.Keys)
      ensures forall cid :: cid in challenges ==> challenges[cid] == LeaveOne(old(Contents()), cid, user).challenges[cid]
    {
      var rest := challenges.Keys;
      while rest != {}
        invariant matches == old(matches) && challenges.Keys == old(challenges.Keys) && rest <= challenges.Keys
        invariant forall cid :: cid in rest ==> challenges[cid] == old(challenges)[cid]
        invariant forall cid :: cid in challenges && cid !in rest ==> challenges[cid] == LeaveOne(old(Contents()), cid, user).challenges[cid]
      {
        var cid :| cid in rest;
        if challenges[cid].status.Pending? && (challenges[cid].challenger == user || challenges[cid].opponent == user) {
          challenges := challenges[cid := challenges[cid].(status := Cancelled)];
        }
        rest := rest - {cid};
      }
    }

    /** Staged matches are not there for players. */
    method GetMatch(id: Id) returns (m: Option<Match>)
      ensures m == if Visible(Contents(), id) then Some(matches[id]) else None
    {
      m := if id in matches && matches[id].active then Some(matches[id]) else None;
    }

    method InsertStaged(job: Job) returns (duplicate: bool)
      modifies this
      ensures duplicate == (job.id in old(matches))
      ensures (Contents(), if duplicate then Locating(job) else Claiming(job)) == Advance(old(Contents()), Inserting(job))
    {
      duplicate := job.id in matches;
      if !duplicate {
        matches := matches[job.id := job.draft.(challengeId := job.cid, active := false)];
      }
    }

    method Claim(job: Job) returns (row: Option<Challenge>)
      modifies this
      ensures row.Some? <==> old(Claimable(Contents(), job))
      ensures (Contents(), if row.Some? then Activating(job, row.value) else Checking(job)) == Advance(old(Contents()), Claiming(job))
    {
      row := None;
      if Claimable(Contents(), job) {
        row := Some(challenges[job.cid].(status := Accepted, matchId := Some(job.id)));
        challenges := challenges[job.cid := row.value];
      }
    }

    method FindAccepted(job: Job) returns (row: Option<Challenge>)
      ensures (Contents(), if row.Some? then Activating(job, row.value) else Discarding(job)) == Advance(Contents(), Checking(job))
    {
      row := if Claimed(Contents(), job) then Some(challenges[job.cid]) else None;
    }

    method DeleteStaged(job: Job)
      modifies this
      ensures (Contents(), Returned(Unavailable)) == Advance(old(Contents()), Discarding(job))
    {
      if Ours(Contents(), job) && !matches[job.id].active {
        matches := matches - {job.id};
      }
    }

    method Activate(job: Job, row: Challenge) returns (m: Option<Match>)
      modifies this
      ensures (Contents(), Returned(if m.Some? then Won(row, m.value) else NotActivated)) == Advance(old(Contents()), Activating(job, row))
    {
      m := None;
      if Ours(Contents(), job) {
        m := Some(matches[job.id].(active := true));
        matches := matches[job.id := m.value];
      }
    }

    /** Accepts a challenge; alone, it does just what the steps do run to their end. */
    method AcceptChallenge(job: Job) returns (reply: Reply)
      modifies this
      ensures (Contents(), Returned(reply)) == Finish(old(Contents()), Inserting(job))
    {
      hide Advance;
      hide Finish;
      hide Claimable;
      hide Claimed;
      hide Ours;
      ghost var d := Contents();
      var duplicate := InsertStaged(job);
      FinishStep(d, Inserting(job));
      d := Contents();
      if duplicate {
        var mine := job.id in matches && matches[job.id].challengeId == job.cid;
        Located(d, job);
        FinishStep(d, Locating(job));
        if !mine {
          FinishStep(d, Returned(Collision));
          return Collision;
        }
      }
      FinishStep(d, Claiming(job));
      var row := Claim(job);
      d := Contents();
      if row.None? {
        row := FindAccepted(job);
        FinishStep(d, Checking(job));
      }
      if row.None? {
        FinishStep(d, Discarding(job));
        DeleteStaged(job);
        FinishStep(Contents(), Returned(Unavailable));
        return Unavailable;
      }
      FinishStep(d, Activating(job, row.value));
      var m := Activate(job, row.value);
      reply := if m.Some? then Won(row.value, m.value) else NotActivated;
      FinishStep(Contents(), Returned(reply));
    }

    /** The in-memory branch, which runs under one lock. Where no match is ever left
        staged it answers as the saga does and leaves the same documents, but it also
        marks a challenge that has run out. */
    method AcceptInMemory(job: Job) returns (reply: Reply)
      requires GoodDocs(Contents()) && job.id == job.cid && forall id :: id in matches ==> matches[id].active
      modifies this
      ensures Returned(reply) == Finish(old(Contents()), Inserting(job)).1
      ensures old(RunOut(Contents(), job))
        ==> Contents() == ExpireOne(old(Contents()), job.cid, job.cutoff)
      ensures !old(RunOut(Contents(), job))
        ==> Contents() == Finish(old(Contents()), Inserting(job)).0
    {
      hide Finish;
      ghost var d := Contents();
      MemoryTwin(d, job);
      if job.cid !in challenges || challenges[job.cid].opponent != job.user {
        return Unavailable;
      }
      var row := challenges[job.cid];
      if row.status.Pending? {
        if row.createdAt < job.cutoff {
          challenges := challenges[job.cid := row.(status := Expired)];
          return Unavailable;
        }
        row := row.(status := Accepted, matchId := Some(job.id));
        challenges := challenges[job.cid := row];
      } else if !row.status.Accepted? || row.matchId != Some(job.id) {
        return Unavailable;
      }
      var m := if job.id in matches then matches[job.id] else job.draft;
      if job.id in matches && m.challengeId != job.cid {
        return Collision;
      }
      m := m.(challengeId := job.cid, active := true);
      matches := matches[job.id := m];
      reply := Won(row, m);
    }
  }

  predicate RunOut(d: Docs, job: Job) {
    Open(d, job.cid) && d.challenges[job.cid].opponent == job.user && d.challenges[job.cid].createdAt < job.cutoff
  }

  lemma Located(d: Docs, job: Job)
    ensures Advance(d, Locating(job)) ==
      (d, if job.id in d.matches && d.matches[job.id].challengeId == job.cid then Claiming(job) else Returned(Collision))
  {
  }

  /** What the saga comes to when nothing was left staged. */
  lemma MemoryTwin(d: Docs, job: Job)
    requires GoodDocs(d) && job.id == job.cid && forall id :: id in d.matches ==> d.matches[id].active
    ensures var m := (if job.id in d.matches then d.matches[job.id] else job.draft).(challengeId := job.cid, active := true);
      Finish(d, Inserting(job)) ==
        if Claimable(d, job) then
          var row := d.challenges[job.cid].(status := Accepted, matchId := Some(job.id));
          (Docs(d.challenges[job.cid := row], d.matches[job.id := m]), Returned(Won(row, m)))
        else if Claimed(d, job) then (Docs(d.challenges, d.matches[job.id := m]), Returned(Won(d.challenges[job.cid], m)))
        else (d, Returned(Unavailable))
  {
    hide Finish;
    var start := Staged(d, job);
    ClaimEnds(start, job);
    var m := (if job.id in d.matches then d.matches[job.id] else job.draft).(challengeId := job.cid, active := true);
    assert start.matches[job.id].(active := true) == m;
    assert start.matches[job.id := m] == d.matches[job.id := m];
    assert job.id !in d.matches ==> start.matches - {job.id} == d.matches;
    assert Claimable(start, job) == Claimable(d, job) && Claimed(start, job) == Claimed(d, job);
  }
}
