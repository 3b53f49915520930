/** The life of one match: clients read a snapshot, decide, and write back by a
    compare-and-set on the revision, while presence writes leave the revision alone. */
module MatchLifecycle {
  import opened Options
  import opened Integers

  type User = nat
  type Fen = int
  type Uci = int

  datatype Side = White | Black
  datatype Outcome = WhiteWins | BlackWins | Drawn
  datatype Status = Starting | Active | Finished | Cancelled
  datatype Reason = ByPlay | HandoffCancelled | HandoffTimeout | Timeout | Resignation | Disconnect

  /** The chess the match is played by, who is a program, and how a time span in
      microseconds is turned into milliseconds. */
  datatype Setting = Setting(start: Fen, turn: Fen -> Side, legal: (Fen, Uci) -> bool, push: (Fen, Uci) -> Fen,
                             verdict: (Fen, Uci) -> Option<Outcome>, virtual: User -> bool, ms: int -> int)

  datatype Ply = Ply(number: int, uci: Uci, player: User, at: int)

  datatype Presence = Presence(whiteSeen: Option<int>, blackSeen: Option<int>, whiteGrace: Option<int>, blackGrace: Option<int>)

  datatype Match = Match(white: User, black: User, status: Status, result: Option<Outcome>, reason: Reason,
                         fen: Fen, turn: Side, history: seq<Ply>, revision: nat, whiteReady: bool, blackReady: bool,
                         startAt: Option<int>, deadline: int, turnStartedAt: Option<int>, whiteMs: int, blackMs: int,
                         presence: Presence)

  const INITIAL_MS := 30 * 60 * 1000
  const INCREMENT_MS := 0
  const HANDOFF := 5_000_000
  const RECONNECTING := 12_000_000
  const DISCONNECT_GRACE := 60_000_000

  function Fresh(g: Setting, white: User, black: User, deadline: int): Match {
    Match(white, black, Starting, None, ByPlay, g.start, White, [], 0, false, false, None, deadline, None,
          INITIAL_MS, INITIAL_MS, Presence(None, None, None, None))
  }

  function SideOf(m: Match, u: User): Option<Side> {
    if m.white == u then Some(White) else if m.black == u then Some(Black) else None
  }

  function PlayerOf(white: User, black: User, s: Side): User {
    if s.White? then white else black
  }

  function Other(s: Side): Side {
    if s.White? then Black else White
  }

  function Beats(s: Side): Outcome {
    if s.White? then BlackWins else WhiteWins
  }

  datatype Clock = Clock(white: int, black: int)

  function Elapsed(g: Setting, span: int): int {
    Clamped(g.ms(span))
  }

  /** The clocks at a moment: the side to move has been losing time since its turn began. */
  function ClockAt(g: Setting, m: Match, stamp: int): Clock {
    var c := Clock(Clamped(m.whiteMs), Clamped(m.blackMs));
    if m.status.Active? && m.turnStartedAt.Some? && m.turnStartedAt.value <= stamp then
      var spent := Elapsed(g, stamp - m.turnStartedAt.value);
      if m.turn.White? then c.(white := Clamped(c.white - spent)) else c.(black := Clamped(c.black - spent))
    else c
  }

  function Of(c: Clock, s: Side): int {
    if s.White? then c.white else c.black
  }

  datatype Action =
    | Ready(user: User)
    | VirtualReady(user: User)
    | CancelStarting(user: User)
    | ExpireHandoff
    | Flag
    | Forfeit(user: User)
    | Resign(user: User)
    | Move(user: User, uci: Uci)
    | Reply(uci: Uci)

  /** What a write sets; every other field keeps the value stored at that time. */
  datatype Changes =
    | MarkReady(side: Side)
    | Begin(side: Side, startAt: int)
    | CancelWith(reason: Reason)
    | FinishWith(result: Outcome, reason: Reason, clock: Clock)
    | Play(fen: Fen, turn: Side, verdict: Option<Outcome>, history: seq<Ply>, clock: Clock, at: int)

  function IsReady(m: Match, s: Side): bool {
    if s.White? then m.whiteReady else m.blackReady
  }

  function WithReady(m: Match, s: Side): Match {
    if s.White? then m.(whiteReady := true) else m.(blackReady := true)
  }

  function Update(m: Match, c: Changes): Match {
    var n := m.(revision := m.revision + 1);
    match c
    case MarkReady(s) => WithReady(n, s)
    case Begin(s, t) => WithReady(n, s).(status := Active, startAt := Some(t), turnStartedAt := Some(t))
    case CancelWith(why) => n.(status := Cancelled, result := None, reason := why, turnStartedAt := None)
    case FinishWith(r, why, clock) =>
      n.(status := Finished, result := Some(r), reason := why, whiteMs := clock.white, blackMs := clock.black, turnStartedAt := None)
    case Play(fen, turn, v, history, clock, at) =>
      n.(fen := fen, turn := turn, status := if v.Some? then Finished else Active, result := v,
         reason := if v.Some? then ByPlay else n.reason, history := history,
         whiteMs := clock.white, blackMs := clock.black, turnStartedAt := if v.Some? then None else Some(at))
  }

  predicate Disconnected(g: Setting, m: Match, s: Side, stamp: int) {
    var seen := if s.White? then m.presence.whiteSeen else m.presence.blackSeen;
    !g.virtual(PlayerOf(m.white, m.black, s)) && (seen.None? || stamp - seen.value > RECONNECTING)
  }

  predicate GraceOver(m: Match, s: Side, stamp: int) {
    var grace := if s.White? then m.presence.whiteGrace else m.presence.blackGrace;
    grace.Some? && grace.value + DISCONNECT_GRACE <= stamp
  }

  /** The move a player or a program makes at `at`, unless its clock has run out or the
      move is not legal. */
  function PlayAs(g: Setting, m: Match, s: Side, who: User, uci: Uci, at: int): Option<Changes> {
    var clock := ClockAt(g, m, at);
    if Of(clock, s) <= 0 || !g.legal(m.fen, uci) then None
    else
      var next := g.push(m.fen, uci);
      var v := g.verdict(m.fen, uci);
      var bonus := if v.None? then INCREMENT_MS else 0;
      Some(Play(next, g.turn(next), v, m.history + [Ply(|m.history| + 1, uci, who, at)],
                if s.White? then clock.(white := clock.white + bonus) else clock.(black := clock.black + bonus), at))
  }

  /** What a client decides to write, from the snapshot it holds and its reading of the time. */
  function Decide(g: Setting, a: Action, m: Match, stamp: int): Option<Changes> {
    match a
    case Ready(u) =>
      var s := SideOf(m, u);
      if s.None? || !m.status.Starting? || (IsReady(m, s.value) && !IsReady(m, Other(s.value))) then None
      else Some(if IsReady(m, Other(s.value)) then Begin(s.value, stamp + HANDOFF) else MarkReady(s.value))
    case VirtualReady(u) =>
      var s := SideOf(m, u);
      if s.None? || !m.status.Starting? || !g.virtual(u) || IsReady(m, s.value) then None else Some(MarkReady(s.value))
    case CancelStarting(u) =>
      if SideOf(m, u).None? || !m.status.Starting? then None else Some(CancelWith(HandoffCancelled))
    case ExpireHandoff =>
      if !m.status.Starting? || m.deadline > stamp then None else Some(CancelWith(HandoffTimeout))
    case Flag =>
      var clock := ClockAt(g, m, stamp);
      if !m.status.Active? || Of(clock, m.turn) > 0 then None else Some(FinishWith(Beats(m.turn), Timeout, clock))
    case Forfeit(u) =>
      var s := SideOf(m, u);
      if s.None? || !m.status.Active? || !Disconnected(g, m, Other(s.value), stamp) || !GraceOver(m, Other(s.value), stamp) then None
      else Some(FinishWith(Beats(Other(s.value)), Disconnect, ClockAt(g, m, stamp)))
    case Resign(u) =>
      var s := SideOf(m, u);
      if s.None? || !m.status.Active? then None else Some(FinishWith(Beats(s.value), Resignation, ClockAt(g, m, stamp)))
    case Move(u, uci) =>
      var s := SideOf(m, u);
      if s.None? || !m.status.Active? || g.turn(m.fen) != s.value || (m.startAt.Some? && stamp < m.startAt.value) then None
      else PlayAs(g, m, s.value, u, uci, stamp)
    case Reply(uci) =>
      var bot := PlayerOf(m.white, m.black, m.turn);
      var s := SideOf(m, bot);
      if !m.status.Active? || !g.virtual(bot) || s.None? then None else PlayAs(g, m, s.value, bot, uci, stamp)
  }

  // ---- What a stored match always is.

  function Replay(g: Setting, h: seq<Ply>): Fen {
    if h == [] then g.start else g.push(Replay(g, h[..|h| - 1]), h[|h| - 1].uci)
  }

  /** When the turn after these plies began. */
  function TurnStart(h: seq<Ply>, startAt: int): int {
    if h == [] then startAt else h[|h| - 1].at
  }

  /** Time a side has used over the plies it made. */
  function Spent(g: Setting, s: Side, h: seq<Ply>, startAt: int): int {
    if h == [] then 0
    else
      var before := h[..|h| - 1];
      Spent(g, s, before, startAt) + Used(g, s, before, h[|h| - 1], startAt)
  }

  /** Time the next ply takes from a side. */
  function Used(g: Setting, s: Side, before: seq<Ply>, p: Ply, startAt: int): int {
    if g.turn(Replay(g, before)) == s then Elapsed(g, p.at - TurnStart(before, startAt)) else 0
  }

  /** The plies are numbered from one, each legal where it was made, by the player to
      move, not before the previous one, and no earlier ply ended the game. */
  ghost predicate GoodLine(g: Setting, white: User, black: User, h: seq<Ply>, startAt: int) {
    h != [] ==>
      var before, last := h[..|h| - 1], h[|h| - 1];
      && GoodLine(g, white, black, before, startAt)
      && last.number == |h|
      && g.legal(Replay(g, before), last.uci)
      && last.player == PlayerOf(white, black, g.turn(Replay(g, before)))
      && last.at >= TurnStart(before, startAt)
      && Verdict(g, before).None?
  }

  function Verdict(g: Setting, h: seq<Ply>): Option<Outcome> {
    if h == [] then None else g.verdict(Replay(g, h[..|h| - 1]), h[|h| - 1].uci)
  }

  ghost predicate GoodClocks(g: Setting, m: Match)
    requires m.startAt.Some?
  {
    && m.whiteMs == INITIAL_MS - Spent(g, White, m.history, m.startAt.value)
    && m.blackMs == INITIAL_MS - Spent(g, Black, m.history, m.startAt.value)
  }

  ghost predicate GoodMatch(g: Setting, m: Match) {
    && m.white != m.black
    && m.fen == Replay(g, m.history) && m.turn == g.turn(m.fen)
    && (m.result.Some? <==> m.status.Finished?)
    && (m.status.Starting? || m.status.Cancelled? ==> m.history == [] && m.startAt.None? && m.whiteMs == m.blackMs == INITIAL_MS)
    && (m.status.Starting? ==> m.reason.ByPlay?)
    && (m.status.Active? || m.status.Finished? ==>
          && m.whiteReady && m.blackReady && m.startAt.Some?
          && GoodLine(g, m.white, m.black, m.history, m.startAt.value)
          && 0 <= m.whiteMs <= INITIAL_MS && 0 <= m.blackMs <= INITIAL_MS)
    && (m.status.Active? ==>
          && m.reason.ByPlay? && Verdict(g, m.history).None?
          && m.turnStartedAt == Some(TurnStart(m.history, m.startAt.value))
          && GoodClocks(g, m) && m.whiteMs > 0 && m.blackMs > 0)
    && (m.status.Finished? ==>
          if m.reason.ByPlay? then m.result == Verdict(g, m.history) && GoodClocks(g, m)
          else Verdict(g, m.history).None? && m.result != Some(Drawn))
    && (m.status.Finished? && m.reason.Timeout? ==>
          m.result == Some(if m.turn.White? then BlackWins else WhiteWins) && (if m.turn.White? then m.whiteMs else m.blackMs) == 0)
  }

  /** Equal but for presence. */
  predicate SameGame(a: Match, b: Match) {
    a.(presence := b.presence) == b
  }

  predicate Reaches(a: Status, b: Status) {
    a == b || a.Starting? || (a.Active? && b.Finished?)
  }

  predicate Prefix(h: seq<Ply>, k: seq<Ply>) {
    |h| <= |k| && h == k[..|h|]
  }

  /** How a match can have moved on: nothing played is lost, no clock gains, and what has
      ended stays as it is. */
  predicate Follows(a: Match, b: Match) {
    && a.white == b.white && a.black == b.black && a.deadline == b.deadline
    && a.revision <= b.revision && (a.revision == b.revision ==> SameGame(a, b))
    && Reaches(a.status, b.status)
    && (a.status.Finished? || a.status.Cancelled? ==> SameGame(a, b))
    && Prefix(a.history, b.history)
    && b.whiteMs <= a.whiteMs && b.blackMs <= a.blackMs
    && (a.whiteReady ==> b.whiteReady) && (a.blackReady ==> b.blackReady)
    && (a.startAt.Some? ==> b.startAt == a.startAt)
  }

  // ---- Clients around one stored match.

  datatype Client = Idle | Holding(seen: Match) | Replying(seen: Match) | Committing(seen: Match, changes: Changes)

  /** `now` is the server's time, which never runs backwards. */
  datatype World = World(stored: Match, now: int, clients: map<nat, Client>)

  datatype Event =
    | Tick(span: nat)
    | Fetched(client: nat)
    | Touched(client: nat, side: Side, stamp: int)
    | Grace(client: nat, side: Side, stamp: int, restart: bool)
    | Decided(client: nat, action: Action, stamp: int)
    | Committed(client: nat)
    | Left(client: nat)

  function Touch(m: Match, s: Side, stamp: int): Match {
    m.(presence := if s.White? then m.presence.(whiteSeen := Some(stamp), whiteGrace := None)
                   else m.presence.(blackSeen := Some(stamp), blackGrace := None))
  }

  function ArmGrace(m: Match, s: Side, stamp: int, restart: bool): Match {
    var current := if s.White? then m.presence.whiteGrace else m.presence.blackGrace;
    if !m.status.Active? || !(restart || current.None? || stamp < current.value) then m
    else if s.White? then m.(presence := m.presence.(whiteGrace := Some(stamp)))
    else m.(presence := m.presence.(blackGrace := Some(stamp)))
  }

  function See(w: World, i: nat, m: Match): World {
    w.(stored := m, clients := w.clients[i := Holding(m)])
  }

  predicate CanDecide(c: Client, a: Action) {
    c.Replying? || (c.Holding? && !a.Reply?)
  }

  /** Moves are stamped after the snapshot was read; other decisions may use any earlier
      reading of the time. */
  predicate GoodStamp(w: World, a: Action, stamp: int) {
    if a.Move? || a.Reply? then stamp == w.now else stamp <= w.now
  }

  function Next(g: Setting, w: World, e: Event): World {
    match e
    case Tick(span) => w.(now := w.now + span)
    case Fetched(i) => See(w, i, w.stored)
    case Touched(i, s, stamp) => See(w, i, Touch(w.stored, s, stamp))
    case Grace(i, s, stamp, restart) => See(w, i, ArmGrace(w.stored, s, stamp, restart))
    case Decided(i, a, stamp) =>
      if i in w.clients && CanDecide(w.clients[i], a) && GoodStamp(w, a, stamp) then
        var c := Decide(g, a, w.clients[i].seen, stamp);
        if c.Some? then w.(clients := w.clients[i := Committing(w.clients[i].seen, c.value)]) else w
      else w
    case Committed(i) =>
      if i in w.clients && w.clients[i].Committing? then
        var c := w.clients[i];
        if w.stored.revision == c.seen.revision then
          var m := Update(w.stored, c.changes);
          w.(stored := m, clients := w.clients[i := if c.changes.Play? then Replying(m) else Holding(m)])
        else w.(clients := w.clients[i := Idle])
      else w
    case Left(i) => w.(clients := w.clients[i := Idle])
  }

  function Run(g: Setting, w: World, es: seq<Event>): World
    decreases es
  {
    if es == [] then w else Run(g, Next(g, w, es[0]), es[1..])
  }

  ghost predicate Past(m: Match, now: int) {
    m.history != [] ==> m.history[|m.history| - 1].at <= now
  }

  /** The side whose turn it is not loses no time. */
  predicate Spares(a: Match, b: Match) {
    a.status.Active? ==> if a.turn.White? then b.blackMs == a.blackMs else b.whiteMs == a.whiteMs
  }

  /** A snapshot: sound in itself, overtaken at most by what followed it, and current in
      all but presence when its revision is. */
  ghost predicate Snapshot(g: Setting, s: Match, w: World) {
    GoodMatch(g, s) && Follows(s, w.stored) && Past(s, w.now)
  }

  ghost predicate GoodChange(g: Setting, s: Match, changes: Changes, now: int) {
    && GoodMatch(g, Update(s, changes)) && Follows(s, Update(s, changes)) && Spares(s, Update(s, changes))
    && Past(Update(s, changes), now)
    && (changes.Play? ==> |changes.history| == |s.history| + 1)
    && (!changes.Play? ==> Update(s, changes).history == s.history)
  }

  ghost predicate GoodClient(g: Setting, c: Client, w: World) {
    match c
    case Idle => true
    case Holding(s) => Snapshot(g, s, w)
    case Replying(s) => Snapshot(g, s, w) && (s.status.Active? ==> s.history != [])
    case Committing(s, changes) =>
      Snapshot(g, s, w) && GoodChange(g, s, changes, w.now)
  }

  ghost predicate Good(g: Setting, w: World) {
    && GoodMatch(g, w.stored) && Past(w.stored, w.now)
    && forall i :: i in w.clients ==> GoodClient(g, w.clients[i], w)
  }

  // ---- One decision.

  lemma FreshIsGood(g: Setting, white: User, black: User, deadline: int)
    requires white != black && g.turn(g.start) == White
    ensures GoodMatch(g, Fresh(g, white, black, deadline))
  {
  }

  lemma OnePlyMore(g: Setting, h: seq<Ply>, p: Ply, startAt: int)
    ensures Replay(g, h + [p]) == g.push(Replay(g, h), p.uci)
    ensures Verdict(g, h + [p]) == g.verdict(Replay(g, h), p.uci)
    ensures TurnStart(h + [p], startAt) == p.at
    ensures Spent(g, White, h + [p], startAt) == Spent(g, White, h, startAt) + Used(g, White, h, p, startAt)
    ensures Spent(g, Black, h + [p], startAt) == Spent(g, Black, h, startAt) + Used(g, Black, h, p, startAt)
  {
    assert (h + [p])[..|h|] == h;
  }

  lemma LineGrows(g: Setting, white: User, black: User, h: seq<Ply>, p: Ply, startAt: int)
    requires GoodLine(g, white, black, h, startAt) && Verdict(g, h).None?
    requires p.number == |h| + 1 && g.legal(Replay(g, h), p.uci) && p.player == PlayerOf(white, black, g.turn(Replay(g, h)))
    requires p.at >= TurnStart(h, startAt)
    ensures GoodLine(g, white, black, h + [p], startAt)
  {
    assert (h + [p])[..|h|] == h;
  }

  /** A played move keeps everything sound, and takes time only from the side that moved. */
  lemma PlayKeeps(g: Setting, m: Match, s: Side, who: User, uci: Uci, at: int)
    requires GoodMatch(g, m) && m.status.Active? && s == m.turn && who == PlayerOf(m.white, m.black, s)
    requires at >= m.turnStartedAt.value
    requires PlayAs(g, m, s, who, uci, at).Some?
    ensures var n := Update(m, PlayAs(g, m, s, who, uci, at).value);
      GoodMatch(g, n) && Follows(m, n) && Spares(m, n) && |n.history| == |m.history| + 1 && n.history[|n.history| - 1].at == at
  {
    var n := Update(m, PlayAs(g, m, s, who, uci, at).value);
    var p := Ply(|m.history| + 1, uci, who, at);
    OnePlyMore(g, m.history, p, m.startAt.value);
    LineGrows(g, m.white, m.black, m.history, p, m.startAt.value);
    hide GoodLine;
    hide Replay;
    hide Spent;
    assert n.history == m.history + [p];
  }

  /** Whatever is decided from a sound snapshot, with moves stamped no earlier than the
      turn began, is a good change. */
  lemma DecisionKeeps(g: Setting, a: Action, m: Match, stamp: int, now: int)
    requires GoodMatch(g, m) && Decide(g, a, m, stamp).Some? && Past(m, now)
    requires a.Move? || a.Reply? ==> stamp == now
    requires a.Reply? ==> m.history != []
    ensures GoodChange(g, m, Decide(g, a, m, stamp).value, now)
    ensures a.Move? || a.Reply? <==> Decide(g, a, m, stamp).value.Play?
  {
    match a {
      case Move(u, uci) => PlayKeeps(g, m, SideOf(m, u).value, u, uci, stamp);
      case Reply(uci) =>
        var bot := PlayerOf(m.white, m.black, m.turn);
        PlayKeeps(g, m, m.turn, bot, uci, stamp);
      case _ => OtherDecisionKeeps(g, a, m, stamp);
    }
  }

  lemma OtherDecisionKeeps(g: Setting, a: Action, m: Match, stamp: int)
    requires GoodMatch(g, m) && Decide(g, a, m, stamp).Some? && !a.Move? && !a.Reply?
    ensures var n := Update(m, Decide(g, a, m, stamp).value);
      GoodMatch(g, n) && Follows(m, n) && Spares(m, n) && n.history == m.history
    ensures !Decide(g, a, m, stamp).value.Play?
  {
    NothingPlayed(g, m);
    hide GoodLine;
    hide Replay;
    hide Spent;
    hide Verdict;
    hide TurnStart;
    hide Disconnected;
    hide GraceOver;
  }

  lemma NothingPlayed(g: Setting, m: Match)
    ensures Replay(g, []) == g.start && Verdict(g, []).None?
    ensures forall t :: GoodLine(g, m.white, m.black, [], t) && TurnStart([], t) == t
    ensures forall s, t :: Spent(g, s, [], t) == 0
  {
  }

  // ---- Every step.

  lemma SameGameKeeps(g: Setting, a: Match, b: Match)
    requires SameGame(a, b)
    ensures GoodMatch(g, a) <==> GoodMatch(g, b)
  {
    hide GoodLine;
    hide Replay;
    hide Spent;
    hide Verdict;
    hide TurnStart;
  }

  lemma SameUpdate(a: Match, b: Match, c: Changes)
    requires SameGame(a, b)
    ensures SameGame(Update(a, c), Update(b, c))
  {
  }

  lemma FollowsTwice(a: Match, b: Match, c: Match)
    requires Follows(a, b) && Follows(b, c)
    ensures Follows(a, c)
  {
  }

  lemma ClientOvertaken(g: Setting, c: Client, w: World, v: World)
    requires GoodClient(g, c, w) && Follows(w.stored, v.stored) && w.now <= v.now
    ensures GoodClient(g, c, v)
  {
    hide GoodMatch;
    hide Follows;
    hide Update;
    if !c.Idle? {
      FollowsTwice(c.seen, w.stored, v.stored);
    }
  }

  /** Presence writes change no gameplay field. */
  lemma PresenceOnly(m: Match, s: Side, stamp: int, restart: bool)
    ensures SameGame(m, Touch(m, s, stamp)) && SameGame(m, ArmGrace(m, s, stamp, restart))
  {
  }

  lemma SeeKeeps(g: Setting, w: World, i: nat, m: Match)
    requires Good(g, w) && SameGame(w.stored, m)
    ensures Good(g, See(w, i, m)) && Follows(w.stored, m)
  {
    SameGameKeeps(g, w.stored, m);
    hide GoodMatch;
    var v := See(w, i, m);
    assert Follows(w.stored, m) && Follows(m, m);
    forall j | j in v.clients
      ensures GoodClient(g, v.clients[j], v)
    {
      if j != i {
        ClientOvertaken(g, w.clients[j], w, v);
      }
    }
  }

  /** Writing a decision made from a snapshot of the current revision. */
  lemma WriteKeeps(g: Setting, w: World, s: Match, c: Changes)
    requires Good(g, w) && Snapshot(g, s, w) && GoodChange(g, s, c, w.now) && w.stored.revision == s.revision
    ensures var v := w.(stored := Update(w.stored, c));
      Good(g, v) && Follows(w.stored, v.stored) && Spares(w.stored, v.stored) && Snapshot(g, v.stored, v)
  {
    assert SameGame(s, w.stored);
    var m := Update(w.stored, c);
    SameUpdate(s, w.stored, c);
    SameGameKeeps(g, Update(s, c), m);
    hide GoodMatch;
    var v := w.(stored := m);
    assert Follows(w.stored, m) && Follows(m, m);
    forall j | j in v.clients
      ensures GoodClient(g, v.clients[j], v)
    {
      ClientOvertaken(g, w.clients[j], w, v);
    }
  }

  lemma CommitKeeps(g: Setting, w: World, i: nat)
    requires Good(g, w) && i in w.clients && w.clients[i].Committing? && w.stored.revision == w.clients[i].seen.revision
    ensures Good(g, Next(g, w, Committed(i))) && Follows(w.stored, Next(g, w, Committed(i)).stored)
    ensures Spares(w.stored, Next(g, w, Committed(i)).stored)
  {
    hide GoodMatch;
    var c := w.clients[i];
    WriteKeeps(g, w, c.seen, c.changes);
  }

  lemma DecidedKeeps(g: Setting, w: World, i: nat, a: Action, stamp: int)
    requires Good(g, w)
    ensures Good(g, Next(g, w, Decided(i, a, stamp))) && Next(g, w, Decided(i, a, stamp)).stored == w.stored
  {
    hide GoodMatch;
    var v := Next(g, w, Decided(i, a, stamp));
    if v != w {
      DecisionKeeps(g, a, w.clients[i].seen, stamp, w.now);
      forall j | j in v.clients
        ensures GoodClient(g, v.clients[j], v)
      {
        if j != i {
          assert GoodClient(g, w.clients[j], w);
        }
      }
    }
  }

  /** Every step of every client keeps the invariant, and the stored match only moves on. */
  lemma StepKeeps(g: Setting, w: World, e: Event)
    requires Good(g, w)
    ensures Good(g, Next(g, w, e)) && Follows(w.stored, Next(g, w, e).stored)
    ensures Spares(w.stored, Next(g, w, e).stored) && w.now <= Next(g, w, e).now
  {
    hide GoodMatch;
    hide Decide;
    match e {
      case Fetched(i) => SeeKeeps(g, w, i, w.stored);
      case Touched(i, s, stamp) => PresenceOnly(w.stored, s, stamp, false); SeeKeeps(g, w, i, Touch(w.stored, s, stamp));
      case Grace(i, s, stamp, restart) => PresenceOnly(w.stored, s, stamp, restart); SeeKeeps(g, w, i, ArmGrace(w.stored, s, stamp, restart));
      case Decided(i, a, stamp) => DecidedKeeps(g, w, i, a, stamp);
      case Committed(i) =>
        if i in w.clients && w.clients[i].Committing? && w.stored.revision == w.clients[i].seen.revision {
          CommitKeeps(g, w, i);
        } else {
          OthersUntouched(g, w, Next(g, w, e), i);
        }
      case Tick(span) => TickKeeps(g, w, span);
      case Left(i) => OthersUntouched(g, w, Next(g, w, e), i);
    }
  }

  lemma OthersUntouched(g: Setting, w: World, v: World, i: nat)
    requires Good(g, w) && v.stored == w.stored && v.now == w.now
    requires v == w || v.clients == w.clients[i := Idle]
    ensures Good(g, v) && Follows(w.stored, v.stored)
  {
    hide GoodMatch;
    forall j | j in v.clients
      ensures GoodClient(g, v.clients[j], v)
    {
      assert v.clients[j].Idle? || (j in w.clients && v.clients[j] == w.clients[j]);
    }
  }

  lemma TickKeeps(g: Setting, w: World, span: nat)
    requires Good(g, w)
    ensures Good(g, w.(now := w.now + span)) && Follows(w.stored, w.stored)
  {
    hide GoodMatch;
    hide Update;
  }

  lemma {:induction false} RunKeeps(g: Setting, w: World, es: seq<Event>)
    requires Good(g, w)
    ensures Good(g, Run(g, w, es)) && Follows(w.stored, Run(g, w, es).stored) && w.now <= Run(g, w, es).now
    decreases es
  {
    hide Good;
    hide Follows;
    hide Next;
    if es == [] {
      assert Follows(w.stored, w.stored) by { FollowsItself(w.stored); }
    } else {
      StepKeeps(g, w, es[0]);
      RunKeeps(g, Next(g, w, es[0]), es[1..]);
      FollowsTwice(w.stored, Next(g, w, es[0]).stored, Run(g, w, es).stored);
    }
  }

  lemma FollowsItself(m: Match)
    ensures Follows(m, m)
  {
  }

  lemma {:induction false} RunSplit(g: Setting, w: World, es: seq<Event>, more: seq<Event>)
    ensures Run(g, w, es + more) == Run(g, Run(g, w, es), more)
    decreases es
  {
    if es == [] {
      assert es + more == more;
    } else {
      assert (es + more)[1..] == es[1..] + more;
      RunSplit(g, Next(g, w, es[0]), es[1..], more);
    }
  }

  // ---- Results over whole runs.

  function Begun(g: Setting, white: User, black: User, deadline: int, now: int): World {
    World(Fresh(g, white, black, deadline), now, map[])
  }

  predicate Sides(g: Setting, white: User, black: User) {
    white != black && g.turn(g.start) == White
  }

  lemma BegunIsGood(g: Setting, white: User, black: User, deadline: int, now: int)
    requires Sides(g, white, black)
    ensures Good(g, Begun(g, white, black, deadline, now))
  {
    FreshIsGood(g, white, black, deadline);
  }

  /** Position `i` of a line: numbered, legal, made by the player to move, and neither
      before the start nor before the ply it follows. */
  ghost predicate PlyOk(g: Setting, m: Match, i: nat)
    requires i < |m.history|
  {
    var fen := Replay(g, m.history[..i]);
    && m.history[i].number == i + 1 && g.legal(fen, m.history[i].uci)
    && m.history[i].player == (if g.turn(fen).White? then m.white else m.black)
    && m.startAt.Some? && m.history[i].at >= (if i == 0 then m.startAt.value else m.history[i - 1].at)
  }

  lemma {:induction false} LineIsOk(g: Setting, m: Match, h: seq<Ply>, startAt: int, i: nat)
    requires GoodLine(g, m.white, m.black, h, startAt) && Prefix(h, m.history) && i < |h| && m.startAt == Some(startAt)
    ensures PlyOk(g, m, i)
    decreases h
  {
    var before := h[..|h| - 1];
    assert before == m.history[..|h| - 1];
    if i < |h| - 1 {
      LineIsOk(g, m, before, startAt, i);
    }
  }

  /** At every moment of every run: an active match has both players ready, a result
      goes with being finished, the position is the replay of the history, every ply
      is numbered, legal, in time, and by the player to move, and a fallen flag loses. */
  lemma EveryRunIsSound(g: Setting, white: User, black: User, deadline: int, now: int, es: seq<Event>)
    requires Sides(g, white, black)
    ensures var m := Run(g, Begun(g, white, black, deadline, now), es).stored;
      && m.white == white && m.black == black
      && (m.status.Active? ==> m.whiteReady && m.blackReady)
      && (m.result.Some? <==> m.status.Finished?)
      && m.fen == Replay(g, m.history) && m.turn == g.turn(m.fen)
      && (forall i: nat :: i < |m.history| ==> PlyOk(g, m, i))
      && (m.status.Finished? && m.reason.Timeout? ==>
            && m.result == Some(if m.turn.White? then BlackWins else WhiteWins)
            && (if m.turn.White? then m.whiteMs else m.blackMs) == 0)
      && (m.status.Finished? && m.reason != ByPlay ==> m.result.Some? && !m.result.value.Drawn?)
      && (m.status.Finished? && m.reason.ByPlay? ==> m.result == Verdict(g, m.history))
  {
    var w := Begun(g, white, black, deadline, now);
    BegunIsGood(g, white, black, deadline, now);
    RunKeeps(g, w, es);
    var m := Run(g, w, es).stored;
    hide Run;
    hide GoodLine;
    hide Replay;
    hide Spent;
    hide Verdict;
    hide PlyOk;
    forall i: nat | i < |m.history|
      ensures PlyOk(g, m, i)
    {
      LineIsOk(g, m, m.history, m.startAt.value, i);
    }
  }

  /** Between any two moments nothing played is lost or changed, an ended match stays as
      it ended, and statuses only move forward. */
  lemma NothingIsLost(g: Setting, white: User, black: User, deadline: int, now: int, es: seq<Event>, more: seq<Event>)
    requires Sides(g, white, black)
    ensures var w := Begun(g, white, black, deadline, now);
      Follows(Run(g, w, es).stored, Run(g, w, es + more).stored)
  {
    var w := Begun(g, white, black, deadline, now);
    BegunIsGood(g, white, black, deadline, now);
    RunKeeps(g, w, es);
    RunSplit(g, w, es, more);
    RunKeeps(g, Run(g, w, es), more);
  }

  /** One step never skips a status. */
  lemma OneStatusAtATime(g: Setting, w: World, e: Event)
    requires Good(g, w)
    ensures var a, b := w.stored.status, Next(g, w, e).stored.status;
      a == b || (a.Starting? && (b.Active? || b.Cancelled?)) || (a.Active? && b.Finished?)
  {
    StepKeeps(g, w, e);
    assert e.Committed? && e.client in w.clients ==> GoodClient(g, w.clients[e.client], w);
    hide Good;
    hide GoodClient;
    hide GoodMatch;
    hide Snapshot;
    hide GoodChange;
    hide Decide;
    hide Update;
    if e.Committed? && e.client in w.clients && w.clients[e.client].Committing? && w.stored.revision == w.clients[e.client].seen.revision {
      NoSkip(g, w, w.clients[e.client]);
    }
  }

  lemma NoSkip(g: Setting, w: World, c: Client)
    requires c.Committing? && GoodClient(g, c, w) && w.stored.revision == c.seen.revision
    ensures w.stored.status.Starting? ==> !Update(w.stored, c.changes).status.Finished?
  {
    SameUpdate(c.seen, w.stored, c.changes);
    if c.seen.status.Starting? {
      FinishOnlyFromActive(g, c.seen, c.changes, w.now);
    }
  }

  lemma FinishOnlyFromActive(g: Setting, s: Match, c: Changes, now: int)
    requires GoodMatch(g, s) && GoodChange(g, s, c, now) && s.status.Starting?
    ensures !Update(s, c).status.Finished?
  {
  }

  /** Of the writes decided on one revision only the first takes effect. */
  lemma LateWriteIgnored(g: Setting, w: World, i: nat, es: seq<Event>, j: nat)
    requires Good(g, w) && i in w.clients && j in w.clients && w.clients[i].Committing? && w.clients[j].Committing?
    requires w.clients[i].seen.revision == w.clients[j].seen.revision == w.stored.revision
    requires var v := Run(g, Next(g, w, Committed(i)), es); j in v.clients && v.clients[j] == w.clients[j]
    ensures var v := Run(g, Next(g, w, Committed(i)), es); Next(g, v, Committed(j)).stored == v.stored
  {
    hide GoodMatch;
    hide GoodClient;
    hide Decide;
    hide Run;
    StepKeeps(g, w, Committed(i));
    RunKeeps(g, Next(g, w, Committed(i)), es);
    RevisionGrows(w.stored, w.clients[i].changes);
    hide Update;
    hide Good;
  }

  lemma RevisionGrows(m: Match, c: Changes)
    ensures Update(m, c).revision == m.revision + 1
  {
  }

  /** A move that takes effect is appended to what was there, and stays there. */
  lemma PlayedOnce(g: Setting, w: World, i: nat, es: seq<Event>)
    requires Good(g, w) && i in w.clients && w.clients[i].Committing? && w.clients[i].changes.Play?
    requires w.clients[i].seen.revision == w.stored.revision
    ensures var n := |w.stored.history|;
      var ply := w.clients[i].changes.history[n];
      && Next(g, w, Committed(i)).stored.history == w.stored.history + [ply]
      && Prefix(w.stored.history + [ply], Run(g, Next(g, w, Committed(i)), es).stored.history)
  {
    hide GoodMatch;
    StepKeeps(g, w, Committed(i));
    RunKeeps(g, Next(g, w, Committed(i)), es);
    var c := w.clients[i];
    var n := |w.stored.history|;
    assert c.seen.history == w.stored.history;
    assert c.changes.history == c.changes.history[..n] + [c.changes.history[n]];
  }

  // ---- Whose decision ended it.

  /** A decision `a`, taken at `stamp` from the snapshot `s`, once it has made the match
      `m`: who may take it, when, and what it leads to. */
  predicate Means(g: Setting, a: Action, s: Match, stamp: int, m: Match) {
    match a
    case Resign(u) =>
      && s.status.Active? && (u == m.white || u == m.black)
      && m.status.Finished? && m.reason.Resignation?
      && m.result == Some(if u == m.white then BlackWins else WhiteWins)
    case Forfeit(u) =>
      && s.status.Active? && (u == m.white || u == m.black)
      && Gone(g, s, if u == m.white then Black else White, stamp)
      && m.status.Finished? && m.reason.Disconnect?
      && m.result == Some(if u == m.white then WhiteWins else BlackWins)
    case Flag =>
      && s.status.Active?
      && m.status.Finished? && m.reason.Timeout?
      && m.result == Some(if m.turn.White? then BlackWins else WhiteWins)
      && (if m.turn.White? then m.whiteMs else m.blackMs) == 0
    case CancelStarting(u) =>
      && s.status.Starting? && (u == m.white || u == m.black)
      && m.status.Cancelled? && m.reason.HandoffCancelled? && m.result.None?
    case ExpireHandoff =>
      && s.status.Starting? && m.deadline <= stamp
      && m.status.Cancelled? && m.reason.HandoffTimeout? && m.result.None?
    case Ready(u) =>
      && s.status.Starting? && (u == m.white || u == m.black)
      && (if u == m.white then m.whiteReady else m.blackReady)
      && if m.whiteReady && m.blackReady then
           m.status.Active? && m.startAt == Some(stamp + 5_000_000) && m.turnStartedAt == m.startAt
         else
           m.status.Starting?
    case VirtualReady(u) =>
      && s.status.Starting? && g.virtual(u) && (u == m.white || u == m.black)
      && (if u == m.white then m.whiteReady else m.blackReady)
      && m.status.Starting?
    case _ => s.status.Active? && (m.status.Active? || (m.status.Finished? && m.reason.ByPlay?))
  }

  /** A person who has not been seen for twelve seconds, a minute into the grace. */
  predicate Gone(g: Setting, s: Match, side: Side, stamp: int) {
    var seen := if side.White? then s.presence.whiteSeen else s.presence.blackSeen;
    var grace := if side.White? then s.presence.whiteGrace else s.presence.blackGrace;
    && !g.virtual(if side.White? then s.white else s.black)
    && (seen.None? || stamp - seen.value > 12_000_000)
    && grace.Some? && stamp - grace.value >= 60_000_000
  }

  lemma DecisionMeans(g: Setting, a: Action, s: Match, stamp: int, m: Match)
    requires GoodMatch(g, s) && Decide(g, a, s, stamp).Some?
    requires SameGame(Update(s, Decide(g, a, s, stamp).value), m)
    ensures Means(g, a, s, stamp, m)
  {
    hide GoodLine;
    hide Replay;
    hide Spent;
    hide Verdict;
    hide TurnStart;
  }

  /** A disconnected opponent may be forfeited exactly then. */
  lemma ForfeitIffGone(g: Setting, m: Match, u: User, stamp: int)
    requires GoodMatch(g, m) && m.status.Active? && (u == m.white || u == m.black)
    ensures Decide(g, Forfeit(u), m, stamp).Some? <==> Gone(g, m, if u == m.white then Black else White, stamp)
  {
    hide GoodLine;
    hide Replay;
    hide Spent;
    hide Verdict;
    hide ClockAt;
  }

  /** A decision that still finds its snapshot's revision, whatever happened since it was
      taken, makes the match it means. */
  lemma OutcomeOf(g: Setting, w: World, i: nat, a: Action, stamp: int, es: seq<Event>)
    requires Good(g, w) && i in w.clients && CanDecide(w.clients[i], a) && GoodStamp(w, a, stamp)
    requires Next(g, w, Decided(i, a, stamp)).clients[i].Committing?
    requires var v := Run(g, Next(g, w, Decided(i, a, stamp)), es);
      && i in v.clients && v.clients[i] == Next(g, w, Decided(i, a, stamp)).clients[i]
      && v.stored.revision == w.clients[i].seen.revision
    ensures Means(g, a, w.clients[i].seen, stamp, Next(g, Run(g, Next(g, w, Decided(i, a, stamp)), es), Committed(i)).stored)
  {
    hide GoodMatch;
    hide Decide;
    hide Update;
    hide Run;
    hide Means;
    var v0 := Next(g, w, Decided(i, a, stamp));
    StepKeeps(g, w, Decided(i, a, stamp));
    RunKeeps(g, v0, es);
    var v := Run(g, v0, es);
    var s := w.clients[i].seen;
    assert GoodClient(g, v0.clients[i], v0) && GoodClient(g, v.clients[i], v);
    SameUpdate(s, v.stored, v.clients[i].changes);
    DecisionMeans(g, a, s, stamp, Update(v.stored, v.clients[i].changes));
  }

  /** Event `k` of a run was a decision, taken in time, from the snapshot `s`. */
  ghost predicate DecidedAt(g: Setting, w: World, es: seq<Event>, k: int, s: Match) {
    && 0 <= k < |es| && es[k].Decided? && GoodMatch(g, s)
    && es[k].stamp <= Run(g, w, es[..k]).now
  }

  ghost predicate ClientTraced(g: Setting, w: World, es: seq<Event>, i: nat) {
    var c := Run(g, w, es).clients;
    i in c && c[i].Committing? ==>
      exists k :: DecidedAt(g, w, es, k, c[i].seen) && Decide(g, es[k].action, c[i].seen, es[k].stamp) == Some(c[i].changes)
  }

  ghost predicate EndTraced(g: Setting, w: World, es: seq<Event>) {
    var m := Run(g, w, es).stored;
    m.status.Cancelled? || (m.status.Finished? && !m.reason.ByPlay?) ==>
      exists k, s :: DecidedAt(g, w, es, k, s) && Means(g, es[k].action, s, es[k].stamp, m)
  }

  ghost predicate StartTraced(g: Setting, w: World, es: seq<Event>) {
    var m := Run(g, w, es).stored;
    m.startAt.Some? ==>
      exists k, s :: DecidedAt(g, w, es, k, s) && es[k].action.Ready? && m.startAt == Some(es[k].stamp + 5_000_000)
  }

  ghost predicate Traced(g: Setting, w: World, es: seq<Event>) {
    (forall i :: ClientTraced(g, w, es, i)) && EndTraced(g, w, es) && StartTraced(g, w, es)
  }

  /** What was decided at an event stays decided as the run goes on. */
  lemma DecidedStays(g: Setting, w: World, es: seq<Event>, e: Event, k: int, s: Match)
    requires DecidedAt(g, w, es, k, s)
    ensures DecidedAt(g, w, es + [e], k, s) && (es + [e])[k] == es[k]
  {
    assert (es + [e])[..k] == es[..k];
  }

  /** One event more: clients. */
  lemma ClientsStayTraced(g: Setting, w: World, es: seq<Event>, e: Event, i: nat)
    requires Good(g, Run(g, w, es)) && ClientTraced(g, w, es, i)
    ensures ClientTraced(g, w, es + [e], i)
  {
    hide GoodMatch;
    hide Decide;
    hide Update;
    hide Run;
    RunSplit(g, w, es, [e]);
    var a, b := Run(g, w, es), Run(g, w, es + [e]);
    RunOne(g, a, e);
    if i in b.clients && b.clients[i].Committing? {
      if i in a.clients && b.clients[i] == a.clients[i] {
        var k :| DecidedAt(g, w, es, k, a.clients[i].seen) && Decide(g, es[k].action, a.clients[i].seen, es[k].stamp) == Some(a.clients[i].changes);
        DecidedStays(g, w, es, e, k, a.clients[i].seen);
      } else {
        assert e.Decided? && e.client == i && GoodClient(g, a.clients[i], a);
        assert (es + [e])[..|es|] == es && (es + [e])[|es|] == e;
        assert DecidedAt(g, w, es + [e], |es|, a.clients[i].seen);
      }
    }
  }

  lemma RunOne(g: Setting, w: World, e: Event)
    ensures Run(g, w, [e]) == Next(g, w, e)
  {
    assert Run(g, Next(g, w, e), []) == Next(g, w, e);
  }

  /** A decision is all a write can come from. */
  lemma WriteTraced(g: Setting, w: World, es: seq<Event>, i: nat) returns (k: int, s: Match)
    requires Good(g, Run(g, w, es)) && ClientTraced(g, w, es, i)
    requires var v := Run(g, w, es); i in v.clients && v.clients[i].Committing? && v.stored.revision == v.clients[i].seen.revision
    ensures DecidedAt(g, w, es, k, s)
    ensures Means(g, es[k].action, s, es[k].stamp, Next(g, Run(g, w, es), Committed(i)).stored)
    ensures s.startAt == Run(g, w, es).stored.startAt
  {
    hide GoodMatch;
    hide Decide;
    hide Update;
    hide Run;
    hide Means;
    var v := Run(g, w, es);
    var c := v.clients[i];
    s := c.seen;
    k :| DecidedAt(g, w, es, k, s) && Decide(g, es[k].action, s, es[k].stamp) == Some(c.changes);
    assert GoodClient(g, c, v);
    SameUpdate(s, v.stored, c.changes);
    DecisionMeans(g, es[k].action, s, es[k].stamp, Update(v.stored, c.changes));
  }

  lemma MeansSameGame(g: Setting, a: Action, s: Match, stamp: int, m: Match, n: Match)
    requires Means(g, a, s, stamp, m) && SameGame(m, n)
    ensures Means(g, a, s, stamp, n)
  {
  }

  /** One event that writes nothing of the game. */
  lemma QuietStaysTraced(g: Setting, w: World, es: seq<Event>, e: Event)
    requires EndTraced(g, w, es) && StartTraced(g, w, es)
    requires SameGame(Run(g, w, es).stored, Run(g, w, es + [e]).stored)
    ensures EndTraced(g, w, es + [e]) && StartTraced(g, w, es + [e])
  {
    hide Means;
    hide Run;
    var m, n := Run(g, w, es).stored, Run(g, w, es + [e]).stored;
    if m.status.Cancelled? || (m.status.Finished? && !m.reason.ByPlay?) {
      var k, s :| DecidedAt(g, w, es, k, s) && Means(g, es[k].action, s, es[k].stamp, m);
      DecidedStays(g, w, es, e, k, s);
      MeansSameGame(g, es[k].action, s, es[k].stamp, m, n);
    }
    if m.startAt.Some? {
      StartStaysTraced(g, w, es, e);
    }
  }

  lemma StartStaysTraced(g: Setting, w: World, es: seq<Event>, e: Event)
    requires StartTraced(g, w, es) && Run(g, w, es).stored.startAt == Run(g, w, es + [e]).stored.startAt
    ensures StartTraced(g, w, es + [e])
  {
    hide Run;
    if Run(g, w, es).stored.startAt.Some? {
      var k, s :| DecidedAt(g, w, es, k, s) && es[k].action.Ready? && Run(g, w, es).stored.startAt == Some(es[k].stamp + 5_000_000);
      DecidedStays(g, w, es, e, k, s);
    }
  }

  lemma WriteStaysTraced(g: Setting, w: World, es: seq<Event>, i: nat)
    requires Good(g, Run(g, w, es)) && ClientTraced(g, w, es, i) && StartTraced(g, w, es)
    requires var v := Run(g, w, es); i in v.clients && v.clients[i].Committing? && v.stored.revision == v.clients[i].seen.revision
    ensures EndTraced(g, w, es + [Committed(i)]) && StartTraced(g, w, es + [Committed(i)])
  {
    var e := Committed(i);
    var k, s := WriteTraced(g, w, es, i);
    RunSplit(g, w, es, [e]);
    RunOne(g, Run(g, w, es), e);
    DecidedStays(g, w, es, e, k, s);
    var m, n := Run(g, w, es).stored, Run(g, w, es + [e]).stored;
    assert n == Next(g, Run(g, w, es), e).stored;
    assert es + [e] != [] && GoodMatch(g, s);
    hide Run;
    hide GoodMatch;
    hide Means;
    hide Update;
    hide Next;
    hide Good;
    hide ClientTraced;
    if m.startAt == n.startAt {
      StartStaysTraced(g, w, es, e);
    } else {
      WriteStarts(g, Run(g, w, es), i, es[k].action, s, es[k].stamp);
    }
  }

  /** Only a second ready call gives a match its start. */
  lemma WriteStarts(g: Setting, v: World, i: nat, a: Action, s: Match, stamp: int)
    requires Good(g, v) && i in v.clients && v.clients[i].Committing? && v.stored.revision == v.clients[i].seen.revision
    requires Means(g, a, s, stamp, Next(g, v, Committed(i)).stored) && GoodMatch(g, s)
    requires Next(g, v, Committed(i)).stored.startAt != v.stored.startAt && s.startAt == v.stored.startAt
    ensures Next(g, v, Committed(i)).stored.startAt.Some? ==> a.Ready? && Next(g, v, Committed(i)).stored.startAt == Some(stamp + 5_000_000)
  {
    StepKeeps(g, v, Committed(i));
  }

  lemma {:induction false} RunTraced(g: Setting, w: World, es: seq<Event>)
    requires Good(g, w) && w.clients == map[] && w.stored.status.Starting?
    ensures Traced(g, w, es)
    decreases |es|
  {
    RunKeeps(g, w, es);
    if es == [] {
      assert w.stored.startAt.None?;
    } else {
      var before, e := es[..|es| - 1], es[|es| - 1];
      assert es == before + [e];
      RunTraced(g, w, before);
      RunKeeps(g, w, before);
      StepTraced(g, w, before, e);
    }
  }

  lemma StepTraced(g: Setting, w: World, es: seq<Event>, e: Event)
    requires Good(g, Run(g, w, es)) && Traced(g, w, es)
    ensures Traced(g, w, es + [e])
  {
    hide ClientTraced;
    hide EndTraced;
    hide StartTraced;
    hide GoodMatch;
    hide GoodClient;
    hide Run;
    forall i
      ensures ClientTraced(g, w, es + [e], i)
    {
      ClientsStayTraced(g, w, es, e, i);
    }
    var v := Run(g, w, es);
    RunSplit(g, w, es, [e]);
    RunOne(g, v, e);
    if e.Committed? && e.client in v.clients && v.clients[e.client].Committing? && v.stored.revision == v.clients[e.client].seen.revision {
      assert ClientTraced(g, w, es, e.client);
      WriteStaysTraced(g, w, es, e.client);
    } else {
      StoredKept(g, v, e);
      QuietStaysTraced(g, w, es, e);
    }
  }

  lemma StoredKept(g: Setting, v: World, e: Event)
    requires !(e.Committed? && e.client in v.clients && v.clients[e.client].Committing? && v.stored.revision == v.clients[e.client].seen.revision)
    ensures SameGame(v.stored, Next(g, v, e).stored)
  {
    hide Decide;
    hide Update;
  }

  /** However a run went: a match that began did so five seconds after some player's ready
      call was decided; one that was called off was called off by a player or by its
      deadline; and one that ended by anything but play ended by a player resigning, by a
      flag or by a claim, with the result that goes with it. */
  lemma HowItEnded(g: Setting, white: User, black: User, deadline: int, now: int, es: seq<Event>)
    requires Sides(g, white, black)
    ensures var w := Begun(g, white, black, deadline, now);
      var m := Run(g, w, es).stored;
      && (m.status.Active? || m.status.Finished? ==>
            exists k, s :: DecidedAt(g, w, es, k, s) && es[k].action.Ready? && m.startAt == Some(es[k].stamp + 5_000_000))
      && (m.status.Cancelled? ==>
            exists k, s :: DecidedAt(g, w, es, k, s) &&
              if m.reason.HandoffTimeout? then es[k].action.ExpireHandoff? && deadline <= es[k].stamp
              else m.reason.HandoffCancelled? && es[k].action.CancelStarting? && es[k].action.user in {white, black})
      && (m.status.Finished? && !m.reason.ByPlay? ==>
            exists k, s :: DecidedAt(g, w, es, k, s) && s.status.Active? &&
              match m.reason
              case Resignation => es[k].action.Resign? && es[k].action.user in {white, black}
                                  && m.result == Some(if es[k].action.user == white then BlackWins else WhiteWins)
              case Disconnect => es[k].action.Forfeit? && es[k].action.user in {white, black}
                                 && m.result == Some(if es[k].action.user == white then WhiteWins else BlackWins)
                                 && Gone(g, s, if es[k].action.user == white then Black else White, es[k].stamp)
              case Timeout => es[k].action.Flag? && m.result == Some(if m.turn.White? then BlackWins else WhiteWins)
              case _ => false)
  {
    var w := Begun(g, white, black, deadline, now);
    BegunIsGood(g, white, black, deadline, now);
    RunTraced(g, w, es);
    RunKeeps(g, w, es);
    var m := Run(g, w, es).stored;
    assert m.white == white && m.black == black && m.deadline == deadline;
    assert m.status.Active? || m.status.Finished? ==> m.startAt.Some?;
    hide Run;
    hide GoodMatch;
    hide Gone;
    if m.status.Cancelled? || (m.status.Finished? && !m.reason.ByPlay?) {
      var k, s :| DecidedAt(g, w, es, k, s) && Means(g, es[k].action, s, es[k].stamp, m);
    }
  }

  // ---- Clocks.

  /** Whole milliseconds, at most `slack` microseconds short: 999 when truncated exactly,
      1000 when a binary fraction may fall just under a whole number. */
  ghost predicate Rounds(g: Setting, slack: nat) {
    forall span :: span >= 0 ==> 1000 * g.ms(span) <= span <= 1000 * g.ms(span) + slack
  }

  lemma {:induction false} SpentBounds(g: Setting, white: User, black: User, h: seq<Ply>, startAt: int, slack: nat)
    requires Rounds(g, slack) && GoodLine(g, white, black, h, startAt)
    ensures var total := Spent(g, White, h, startAt) + Spent(g, Black, h, startAt);
      1000 * total <= TurnStart(h, startAt) - startAt <= 1000 * total + slack * |h|
    decreases h
  {
    if h != [] {
      var before := h[..|h| - 1];
      SpentBounds(g, white, black, before, startAt, slack);
      var span := h[|h| - 1].at - TurnStart(before, startAt);
      assert 1000 * Elapsed(g, span) <= span <= 1000 * Elapsed(g, span) + slack;
      assert slack * |h| == slack * |before| + slack;
      assert Used(g, White, before, h[|h| - 1], startAt) + Used(g, Black, before, h[|h| - 1], startAt) == Elapsed(g, span);
    }
  }

  /** While a match is active, after k plies the time both clocks have lost differs from
      the time since the start by less than k roundings, and neither has run out. */
  lemma ClockAccounting(g: Setting, white: User, black: User, deadline: int, now: int, es: seq<Event>, slack: nat)
    requires Sides(g, white, black) && Rounds(g, slack)
    ensures var m := Run(g, Begun(g, white, black, deadline, now), es).stored;
      m.status.Active? ==>
        var lost := 3_600_000 - m.whiteMs - m.blackMs;
        && m.startAt.Some? && m.turnStartedAt.Some?
        && 1000 * lost <= m.turnStartedAt.value - m.startAt.value <= 1000 * lost + slack * |m.history|
        && 0 < m.whiteMs <= 1_800_000 && 0 < m.blackMs <= 1_800_000
        && m.whiteMs == 1_800_000 - Spent(g, White, m.history, m.startAt.value)
        && m.blackMs == 1_800_000 - Spent(g, Black, m.history, m.startAt.value)
  {
    var w := Begun(g, white, black, deadline, now);
    BegunIsGood(g, white, black, deadline, now);
    RunKeeps(g, w, es);
    hide Run;
    var m := Run(g, w, es).stored;
    if m.status.Active? {
      SpentBounds(g, m.white, m.black, m.history, m.startAt.value, slack);
    }
  }

  /** A flag falls exactly when the side to move has used all it had. */
  lemma FlagIffOutOfTime(g: Setting, m: Match, stamp: int)
    requires GoodMatch(g, m) && m.status.Active?
    ensures Decide(g, Flag, m, stamp).Some? <==>
      m.turnStartedAt.value <= stamp && Elapsed(g, stamp - m.turnStartedAt.value) >= (if m.turn.White? then m.whiteMs else m.blackMs)
  {
  }
}
