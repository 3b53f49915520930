/** Whole requests against a match, with everybody else acting at every wait. */
module MatchRequests {
  import opened Options
  import opened MatchLifecycle

  datatype Answer =
    | Refused(code: nat)
    | Shown(m: Match)
    | Done(m: Match)

  predicate RecentlyPresent(m: Match, s: Side, now: int) {
    var seen := if s.White? then m.presence.whiteSeen else m.presence.blackSeen;
    seen.Some? && now - seen.value <= RECONNECTING
  }

  /** A person counts as present exactly when nobody could count them as gone. */
  lemma PresentIffConnected(g: Setting, m: Match, s: Side, now: int)
    requires !g.virtual(PlayerOf(m.white, m.black, s))
    ensures RecentlyPresent(m, s, now) <==> !Disconnected(g, m, s, now)
  {
  }

  lemma ChangeKeeps(g: Setting, s: Match, c: Changes, now: int, later: int)
    requires GoodChange(g, s, c, now) && now <= later
    ensures GoodChange(g, s, c, later)
  {
    hide GoodMatch;
    hide Follows;
    hide Update;
  }

  lemma SnapshotKept(g: Setting, s: Match, w: World, v: World)
    requires Snapshot(g, s, w) && Follows(w.stored, v.stored) && w.now <= v.now
    ensures Snapshot(g, s, v)
  {
    hide GoodMatch;
    FollowsTwice(s, w.stored, v.stored);
  }

  class Server {
    const g: Setting
    var w: World

    /** What everybody else does during each of the waits to come. */
    var script: seq<seq<Event>>

    /** What the last store call met, once its wait was over. */
    ghost var found: World

    /** The plies this server's requests have written. */
    ghost var plays: seq<Ply>

    ghost predicate Valid()
      reads this
    {
      Good(g, w)
    }

    /** What a request may rely on across its waits. */
    twostate predicate MovedOn()
      reads this
    {
      Valid() && Follows(old(w.stored), w.stored) && old(w.now) <= w.now
    }

    constructor (g: Setting, w: World, script: seq<seq<Event>>)
      requires Good(g, w)
      ensures Valid() && this.g == g && this.w == w && plays == []
    {
      this.g, this.w, this.script, plays, found := g, w, script, [], w;
    }

    method Await(ghost s: Match)
      requires Valid()
      modifies this`w, this`script
      ensures MovedOn()
      ensures Snapshot(g, s, old(w)) ==> Snapshot(g, s, w)
    {
      hide Good;
      hide Follows;
      ghost var before := w;
      if script != [] {
        RunKeeps(g, w, script[0]);
        w := Run(g, w, script[0]);
        script := script[1..];
      } else {
        FollowsItself(w.stored);
      }
      if Snapshot(g, s, before) {
        SnapshotKept(g, s, before, w);
      }
    }

    method GetMatch() returns (m: Match)
      requires Valid()
      modifies this`w, this`script
      ensures MovedOn() && m == w.stored && Snapshot(g, m, w)
    {
      Await(w.stored);
      m := w.stored;
      FollowsItself(m);
    }

    /** The compare-and-set, after a wait: it writes on top of the snapshot's revision, or
        finds the match written by somebody else and changes nothing. */
    method UpdateMatch(s: Match, c: Changes) returns (m: Option<Match>)
      requires Valid() && Snapshot(g, s, w) && GoodChange(g, s, c, w.now)
      modifies this
      ensures MovedOn() && Follows(old(w.stored), found.stored)
      ensures m.Some? <==> found.stored.revision == s.revision
      ensures m.None? ==> w == found && w.stored.revision > s.revision
      ensures m.Some? ==> && w == found.(stored := Update(found.stored, c)) && m.value == w.stored
                          && SameGame(Update(s, c), m.value) && Snapshot(g, m.value, w)
      ensures m.Some? ==> |old(w.stored.history)| <= |s.history|
      ensures plays == if m.Some? && c.Play? then old(plays) + [c.history[|s.history|]] else old(plays)
    {
      hide Good;
      hide GoodMatch;
      hide Follows;
      hide Update;
      ghost var first := w;
      Await(s);
      found := w;
      ghost var before := w;
      SnapshotRevision(g, s, w);
      if w.stored.revision != s.revision {
        return None;
      }
      ChangeKeeps(g, s, c, first.now, w.now);
      WriteKeeps(g, w, s, c);
      assert SameGame(s, w.stored) by { SameRevision(s, w.stored); }
      SameUpdate(s, w.stored, c);
      FollowsTwice(first.stored, before.stored, Update(w.stored, c));
      w := w.(stored := Update(w.stored, c));
      PlayLength(g, s, c, before.now);
      NotShorter(first.stored, before.stored);
      plays := if c.Play? then plays + [c.history[|s.history|]] else plays;
      m := Some(w.stored);
    }

    /** Writes that a player was seen; no gameplay field moves. */
    method TouchPresence(s: Side, stamp: int) returns (m: Match)
      requires Valid()
      modifies this`w, this`script, this`found
      ensures MovedOn() && Follows(old(w.stored), found.stored)
      ensures w == found.(stored := Touch(found.stored, s, stamp)) && m == w.stored
      ensures SameGame(found.stored, m) && Snapshot(g, m, w)
      ensures m.presence == if s.White? then found.stored.presence.(whiteSeen := Some(stamp), whiteGrace := None)
                            else found.stored.presence.(blackSeen := Some(stamp), blackGrace := None)
    {
      hide GoodMatch;
      ghost var first := w;
      Await(w.stored);
      found := w;
      PresenceOnly(w.stored, s, stamp, false);
      PresenceKeeps(g, w, Touch(w.stored, s, stamp));
      FollowsTwice(first.stored, w.stored, Touch(w.stored, s, stamp));
      w := w.(stored := Touch(w.stored, s, stamp));
      m := w.stored;
    }

    /** Arms a grace in an active match, and in no other; no gameplay field moves. */
    method BeginGrace(s: Side, stamp: int, restart: bool) returns (m: Option<Match>)
      requires Valid()
      modifies this`w, this`script, this`found
      ensures MovedOn() && Follows(old(w.stored), found.stored)
      ensures m.Some? <==> found.stored.status.Active?
      ensures m.None? ==> w == found
      ensures m.Some? ==> && w == found.(stored := ArmGrace(found.stored, s, stamp, restart)) && m.value == w.stored
                          && SameGame(found.stored, m.value) && GraceOf(m.value, s).Some? && Snapshot(g, m.value, w)
      ensures m.Some? ==>
        var before := if s.White? then found.stored.presence.whiteGrace else found.stored.presence.blackGrace;
        var after := if restart || before.None? || stamp < before.value then Some(stamp) else before;
        m.value.presence == if s.White? then found.stored.presence.(whiteGrace := after) else found.stored.presence.(blackGrace := after)
    {
      hide GoodMatch;
      ghost var first := w;
      Await(w.stored);
      found := w;
      if !w.stored.status.Active? {
        return None;
      }
      PresenceOnly(w.stored, s, stamp, restart);
      PresenceKeeps(g, w, ArmGrace(w.stored, s, stamp, restart));
      FollowsTwice(first.stored, w.stored, ArmGrace(w.stored, s, stamp, restart));
      w := w.(stored := ArmGrace(w.stored, s, stamp, restart));
      m := Some(w.stored);
    }

    /** Decides from a snapshot and writes; a decision to do nothing answers the snapshot. */
    method Attempt(a: Action, s: Match, stamp: int) returns (m: Option<Match>)
      requires Valid() && Snapshot(g, s, w) && !a.Move? && !a.Reply?
      modifies this
      ensures MovedOn() && plays == old(plays)
      ensures m.Some? ==> Snapshot(g, m.value, w)
      ensures m.Some? && Decide(g, a, s, stamp).Some? ==> w.stored == m.value && SameGame(Update(s, Decide(g, a, s, stamp).value), m.value)
      ensures Decide(g, a, s, stamp).None? ==> m == Some(s)
      ensures m.None? ==> w.stored.revision > s.revision
    {
      hide Good;
      hide GoodMatch;
      hide Follows;
      hide Update;
      hide Decide;
      var c := Decide(g, a, s, stamp);
      if c.None? {
        FollowsItself(w.stored);
        return Some(s);
      }
      assert GoodMatch(g, s) && Past(s, w.now);
      DecisionKeeps(g, a, s, stamp, w.now);
      m := UpdateMatch(s, c.value);
    }

    /** Flag, disconnect grace and forfeit, in that order, from one reading of the time. A
        match answered as still active has not run out of time and is not to be forfeited,
        unless somebody else wrote meanwhile. */
    method ApplyLifecycle(s: Match, user: User, stamp: int, live: bool) returns (m: Match)
      requires Valid() && Snapshot(g, s, w)
      modifies this
      ensures MovedOn() && plays == old(plays) && Snapshot(g, m, w)
      ensures m.status.Active? ==>
        m.revision > s.revision || (Decide(g, Flag, s, stamp).None? && Decide(g, Forfeit(user), m, stamp).None?)
    {
      hide Good;
      hide GoodMatch;
      hide Follows;
      hide Snapshot;
      hide Update;
      hide Decide;
      FollowsItself(w.stored);
      m := s;
      if !s.status.Active? {
        return;
      }
      FinishLeavesActive(g, Flag, s, stamp);
      ghost var w0 := w;
      var timed := Attempt(Flag, s, stamp);
      ghost var w1 := w;
      if timed.Some? {
        m := timed.value;
      } else {
        m := GetMatch();
        RevisionOnly(w1.stored, w.stored);
      }
      ghost var w2 := w;
      FollowsItself(w1.stored);
      FollowsTwice(w0.stored, w1.stored, w2.stored);
      if !m.status.Active? {
        return;
      }
      m := EnsureGrace(m, user, stamp, live);
      FollowsTwice(w0.stored, w2.stored, w.stored);
      ghost var w3 := w;
      FinishLeavesActive(g, Forfeit(user), m, stamp);
      var ended := Attempt(Forfeit(user), m, stamp);
      FollowsTwice(w0.stored, w3.stored, w.stored);
      ghost var w4 := w;
      if ended.Some? {
        m := ended.value;
      } else {
        m := GetMatch();
        FollowsTwice(w0.stored, w4.stored, w.stored);
        RevisionOnly(w4.stored, w.stored);
      }
    }

    /** A disconnected opponent's grace is running in the answer, unless the match was over
        when it was to be armed. One who comes back after being away gives the opponent a
        whole grace again; one who was there leaves a running grace alone. */
    method EnsureGrace(s: Match, user: User, stamp: int, live: bool) returns (m: Match)
      requires Valid() && Snapshot(g, s, w)
      modifies this`w, this`script, this`found
      ensures MovedOn() && Snapshot(g, m, w) && m.revision >= s.revision
      ensures s.status.Active? && SideOf(s, user).Some? && Disconnected(g, s, Other(SideOf(s, user).value), stamp) ==>
        || !found.stored.status.Active?
        || (if live && GraceOf(s, Other(SideOf(s, user).value)).Some? then m == s
            else GraceOf(m, Other(SideOf(s, user).value)).Some? && (!live ==> GraceOf(m, Other(SideOf(s, user).value)) == Some(stamp)))
    {
      hide Good;
      hide GoodMatch;
      hide Follows;
      hide Snapshot;
      hide Disconnected;
      FollowsItself(w.stored);
      m := s;
      var side := SideOf(s, user);
      if !s.status.Active? || side.None? || !Disconnected(g, s, Other(side.value), stamp) {
        return;
      }
      if live && GraceOf(s, Other(side.value)).Some? {
        return;
      }
      ghost var before := w;
      var armed := BeginGrace(Other(side.value), stamp, !live);
      SnapshotKept(g, s, before, w);
      SnapshotRevision(g, s, w);
      m := if armed.Some? then armed.value else s;
    }

    /** Plays a move, trying again when somebody else wrote first. However the waits go,
        a request answered as done has put its move into the history once, and any other
        has not put it there. */
    method PlayMove(user: User, uci: Uci) returns (r: Answer)
      requires Valid()
      modifies this
      ensures MovedOn()
      ensures r.Done? ==> |plays| == |old(plays)| + 1 && plays[..|old(plays)|] == old(plays) && OwnPly(w.stored, plays[|old(plays)|], user, uci)
                          && |old(w.stored.history)| < plays[|old(plays)|].number && w.stored == r.m && Snapshot(g, r.m, w)
      ensures !r.Done? ==> plays == old(plays)
    {
      hide Good;
      hide GoodMatch;
      hide Follows;
      hide Update;
      hide Decide;
      hide Snapshot;
      FollowsItself(w.stored);
      for attempt := 0 to 3
        invariant MovedOn() && plays == old(plays)
      {
        ghost var w0 := w;
        var s := GetMatch();
        FollowsTwice(old(w.stored), w0.stored, w.stored);
        var side := SideOf(s, user);
        if side.None? {
          return Refused(404);
        }
        if !s.status.Active? {
          return Refused(409);
        }
        var stamp := w.now;
        var live := RecentlyPresent(s, side.value, stamp);
        ghost var w1 := w;
        s := TouchPresence(side.value, stamp);
        FollowsTwice(old(w.stored), w1.stored, w.stored);
        ghost var w2 := w;
        s := ApplyLifecycle(s, user, stamp, live);
        FollowsTwice(old(w.stored), w2.stored, w.stored);
        if s.status.Finished? {
          return Shown(s);
        }
        var now := w.now;
        ghost var w3 := w;
        if g.turn(s.fen) != side.value || (s.startAt.Some? && now < s.startAt.value) {
          return Refused(409);
        }
        if Of(ClockAt(g, s, now), side.value) <= 0 {
          var timed := Attempt(Flag, s, now);
          FollowsTwice(old(w.stored), w3.stored, w.stored);
          if timed.Some? {
            return Shown(timed.value);
          }
          continue;
        }
        var c := Decide(g, Move(user, uci), s, now);
        if c.None? {
          return Refused(400);
        }
        SnapshotIsGood(g, s, w);
        DecisionKeeps(g, Move(user, uci), s, now, now);
        MoveIsOwn(g, s, user, uci, now);
        var written := UpdateMatch(s, c.value);
        FollowsTwice(old(w.stored), w3.stored, w.stored);
        if written.Some? {
          OwnPlyStored(s, c.value, written.value, user, uci, now);
          NotShorter(old(w.stored), w3.stored);
          return Done(written.value);
        }
      }
      r := Refused(409);
    }

    /** A program's answer to the move just written, tried once. */
    method ResidentReply(s: Match, uci: Uci) returns (m: Match)
      requires Valid() && Snapshot(g, s, w) && s.history != []
      modifies this
      ensures MovedOn() && Snapshot(g, m, w)
      ensures plays == old(plays) || (|plays| == |old(plays)| + 1 && plays[..|old(plays)|] == old(plays)
                                      && OwnPly(m, plays[|old(plays)|], PlayerOf(s.white, s.black, s.turn), uci))
    {
      hide Good;
      hide GoodMatch;
      hide Follows;
      hide Snapshot;
      hide Update;
      hide Decide;
      FollowsItself(w.stored);
      m := s;
      var bot := PlayerOf(s.white, s.black, s.turn);
      if !s.status.Active? || !g.virtual(bot) || !g.legal(s.fen, uci) {
        return;
      }
      ghost var w0 := w;
      var now := w.now;
      var side := SideOf(s, bot);
      var written: Option<Match>;
      if side.None? {
        return;
      }
      if Of(ClockAt(g, s, now), side.value) <= 0 {
        written := Attempt(Flag, s, now);
      } else {
        var c := Decide(g, Reply(uci), s, now);
        if c.None? {
          return;
        }
        SnapshotIsGood(g, s, w);
        DecisionKeeps(g, Reply(uci), s, now, now);
        ReplyIsOwn(g, s, uci, now);
        written := UpdateMatch(s, c.value);
        if written.Some? {
          OwnPlyStored(s, c.value, written.value, bot, uci, now);
        }
      }
      ghost var w1 := w;
      if written.Some? {
        m := written.value;
      } else {
        m := GetMatch();
        FollowsTwice(w0.stored, w1.stored, w.stored);
      }
    }

    /** Resigns, trying again when somebody else wrote first. */
    method ResignMatch(user: User) returns (r: Answer)
      requires Valid()
      modifies this
      ensures MovedOn() && plays == old(plays)
      ensures r.Done? ==> && w.stored == r.m && r.m.status.Finished? && r.m.reason.Resignation?
                          && (user == r.m.white || user == r.m.black)
                          && r.m.result == Some(if user == r.m.white then BlackWins else WhiteWins)
    {
      hide Good;
      hide GoodMatch;
      hide Follows;
      hide Snapshot;
      FollowsItself(w.stored);
      for attempt := 0 to 3
        invariant MovedOn() && plays == old(plays)
      {
        ghost var w0 := w;
        var s := GetMatch();
        FollowsTwice(old(w.stored), w0.stored, w.stored);
        if SideOf(s, user).None? {
          return Refused(404);
        }
        if !s.status.Active? {
          return Refused(409);
        }
        ghost var w1 := w;
        var written := Attempt(Resign(user), s, w.now);
        FollowsTwice(old(w.stored), w1.stored, w.stored);
        if written.Some? {
          return Done(written.value);
        }
      }
      r := Refused(409);
    }

    /** Readies a player. Whoever is shown the match is shown it under way, cancelled, or
        still starting with that player's flag set. */
    method ReadyMatch(user: User) returns (r: Answer)
      requires Valid()
      modifies this
      ensures MovedOn() && plays == old(plays)
      ensures !r.Done?
      ensures r.Shown? ==> && Snapshot(g, r.m, w) && SideOf(r.m, user).Some?
                           && (r.m.status.Active? || r.m.status.Cancelled? || (r.m.status.Starting? && IsReady(r.m, SideOf(r.m, user).value)))
    {
      hide Good;
      hide GoodMatch;
      hide Follows;
      hide Snapshot;
      FollowsItself(w.stored);
      for attempt := 0 to 4
        invariant MovedOn() && plays == old(plays)
      {
        ghost var w0 := w;
        var s := GetMatch();
        FollowsTwice(old(w.stored), w0.stored, w.stored);
        ghost var first := s;
        var side := SideOf(s, user);
        if side.None? {
          return Refused(404);
        }
        ghost var w1 := w;
        s := TouchPresence(side.value, w.now);
        FollowsTwice(old(w.stored), w1.stored, w.stored);
        SamePlayers(w1.stored, w.stored);
        ghost var w2 := w;
        s := Handoff(s, user);
        FollowsTwice(old(w.stored), w2.stored, w.stored);
        SamePlayers(w2.stored, w.stored);
        SnapshotPlayers(g, s, w);
        if s.status.Cancelled? || s.status.Active? {
          return Shown(s);
        }
        if !s.status.Starting? {
          return Refused(409);
        }
        if IsReady(s, side.value) && !IsReady(s, Other(side.value)) {
          return Shown(s);
        }
        ghost var w3 := w;
        var written := Attempt(Ready(user), s, w.now);
        FollowsTwice(old(w.stored), w3.stored, w.stored);
        if written.Some? {
          return Shown(written.value);
        }
      }
      r := Refused(409);
    }

    /** A program's side is readied on its behalf, and an overdue hand-off cancelled. */
    method Handoff(s: Match, user: User) returns (m: Match)
      requires Valid() && Snapshot(g, s, w) && SideOf(s, user).Some?
      modifies this
      ensures MovedOn() && plays == old(plays) && Snapshot(g, m, w)
    {
      hide Good;
      hide GoodMatch;
      hide Follows;
      hide Snapshot;
      hide Update;
      hide Decide;
      FollowsItself(w.stored);
      m := s;
      var opponent := PlayerOf(s.white, s.black, Other(SideOf(s, user).value));
      ghost var w0 := w;
      if g.virtual(opponent) {
        m := MarkVirtualReady(m, opponent);
      }
      ghost var w1 := w;
      var ended := Attempt(ExpireHandoff, m, w.now);
      FollowsTwice(w0.stored, w1.stored, w.stored);
      ghost var w2 := w;
      if ended.Some? {
        m := ended.value;
      } else {
        m := GetMatch();
        FollowsTwice(w0.stored, w2.stored, w.stored);
      }
    }

    method MarkVirtualReady(s: Match, bot: User) returns (m: Match)
      requires Valid() && Snapshot(g, s, w)
      modifies this
      ensures MovedOn() && plays == old(plays) && Snapshot(g, m, w)
      ensures s.status.Starting? && SideOf(s, bot).Some? && g.virtual(bot) ==>
        !m.status.Starting? || IsReady(m, SideOf(s, bot).value) || m.revision > s.revision
    {
      hide Good;
      hide GoodMatch;
      hide Follows;
      hide Snapshot;
      FollowsItself(w.stored);
      m := s;
      var side := SideOf(s, bot);
      if !s.status.Starting? || side.None? || IsReady(s, side.value) {
        return;
      }
      ghost var w0 := w;
      m := TouchPresence(side.value, w.now);
      ghost var w1 := w;
      TouchedSince(g, s, w0, found.stored, m);
      var written := Attempt(VirtualReady(bot), m, w.now);
      FollowsTwice(w0.stored, w1.stored, w.stored);
      ghost var w2 := w;
      if written.Some? {
        m := written.value;
      } else {
        m := GetMatch();
        FollowsTwice(w0.stored, w2.stored, w.stored);
        RevisionOnly(w2.stored, w.stored);
      }
    }
  }

  function GraceOf(m: Match, s: Side): Option<int> {
    if s.White? then m.presence.whiteGrace else m.presence.blackGrace
  }

  lemma SnapshotRevision(g: Setting, s: Match, w: World)
    requires Snapshot(g, s, w)
    ensures s.revision <= w.stored.revision
  {
  }

  lemma RevisionOnly(a: Match, b: Match)
    requires Follows(a, b)
    ensures a.revision <= b.revision
  {
  }

  /** A flag or a forfeit leaves no active match behind. */
  lemma FinishLeavesActive(g: Setting, a: Action, s: Match, stamp: int)
    requires a.Flag? || a.Forfeit?
    ensures Decide(g, a, s, stamp).Some? ==> !Update(s, Decide(g, a, s, stamp).value).status.Active?
  {
  }

  /** What a presence write answers is the snapshot it started from, or newer. */
  lemma TouchedSince(g: Setting, s: Match, w: World, stored: Match, m: Match)
    requires Snapshot(g, s, w) && Follows(w.stored, stored) && SameGame(stored, m)
    ensures m.white == s.white && m.black == s.black && m.revision >= s.revision
  {
  }

  lemma SameRevision(s: Match, m: Match)
    requires Follows(s, m) && s.revision == m.revision
    ensures SameGame(s, m)
  {
  }

  lemma PlayLength(g: Setting, s: Match, c: Changes, now: int)
    requires GoodChange(g, s, c, now)
    ensures c.Play? ==> |c.history| == |s.history| + 1
  {
  }

  lemma PresenceKeeps(g: Setting, w: World, m: Match)
    requires Good(g, w) && SameGame(w.stored, m)
    ensures Good(g, w.(stored := m)) && Follows(w.stored, m) && Snapshot(g, m, w.(stored := m))
  {
    SameGameKeeps(g, w.stored, m);
    hide GoodMatch;
    var v := w.(stored := m);
    assert Follows(w.stored, m) && Follows(m, m);
    forall j | j in v.clients
      ensures GoodClient(g, v.clients[j], v)
    {
      ClientOvertaken(g, w.clients[j], w, v);
    }
  }

  lemma SnapshotIsGood(g: Setting, s: Match, w: World)
    requires Snapshot(g, s, w)
    ensures GoodMatch(g, s) && Past(s, w.now)
  {
  }

  lemma SamePlayers(a: Match, b: Match)
    requires Follows(a, b)
    ensures a.white == b.white && a.black == b.black
  {
  }

  lemma SnapshotPlayers(g: Setting, s: Match, w: World)
    requires Snapshot(g, s, w)
    ensures s.white == w.stored.white && s.black == w.stored.black
  {
  }

  /** The ply stands in the history where its number says. */
  predicate OwnPly(m: Match, p: Ply, user: User, uci: Uci) {
    p.uci == uci && p.player == user && 1 <= p.number <= |m.history| && m.history[p.number - 1] == p
  }

  lemma MoveIsOwn(g: Setting, s: Match, user: User, uci: Uci, now: int)
    requires Decide(g, Move(user, uci), s, now).Some?
    ensures var c := Decide(g, Move(user, uci), s, now).value;
      c.Play? && c.history == s.history + [Ply(|s.history| + 1, uci, user, now)]
  {
  }

  lemma ReplyIsOwn(g: Setting, s: Match, uci: Uci, now: int)
    requires Decide(g, Reply(uci), s, now).Some?
    ensures var c := Decide(g, Reply(uci), s, now).value;
      c.Play? && c.history == s.history + [Ply(|s.history| + 1, uci, PlayerOf(s.white, s.black, s.turn), now)]
  {
  }

  lemma OwnPlyStored(s: Match, c: Changes, m: Match, user: User, uci: Uci, now: int)
    requires c.Play? && SameGame(Update(s, c), m)
    requires c.history == s.history + [Ply(|s.history| + 1, uci, user, now)]
    ensures OwnPly(m, c.history[|s.history|], user, uci)
  {
  }

  lemma NotShorter(a: Match, b: Match)
    requires Follows(a, b)
    ensures |a.history| <= |b.history|
  {
  }
}
