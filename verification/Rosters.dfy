/** Which forks a session has on its roster, from where and when they last ran, told by the
    listings and issues of the run. */
module Rosters {
  import opened Text
  import opened Store
  import opened Planner
  import opened Core
  import opened Acts
  import opened Machine
  import opened Runs
  import opened Protocol
  import opened Deliveries

  // ---- what the events say ----

  /** The forks event `k` discovers for the session. */
  function Listing(r: Trace, s: Sid, k: nat): seq<(string, string)>
    requires k < |r.events|
  {
    match r.events[k]
    case Evaluated(p, entries, _, _) => if PollSid(r, p, k) == Some(s) then entries else []
    case Refreshed(p, entries, _) => if PollSid(r, p, k) == Some(s) then entries else []
    case _ => []
  }

  function EventTime(e: Event): int {
    match e
    case Evaluated(_, _, _, t) => t
    case Refreshed(_, _, t) => t
    case _ => 0
  }

  /** Where a listing has the fork; the first mention counts. */
  function PathIn(entries: seq<(string, string)>, f: string): Option<string> {
    if entries == [] then None
    else if entries[0].0 == f then Some(entries[0].1)
    else PathIn(entries[1..], f)
  }

  /** The event that put the fork on the roster: the first to list it since the session was
      last closed. */
  function Joined(r: Trace, s: Sid, f: string, i: nat): (k: Option<nat>)
    requires i <= |r.events| < |r.states|
    ensures k.Some? ==> k.value < i && PathIn(Listing(r, s, k.value), f).Some?
  {
    if i == 0 || Closes(r.states[i - 1], r.events[i - 1], s) then None
    else if Joined(r, s, f, i - 1).Some? then Joined(r, s, f, i - 1)
    else if PathIn(Listing(r, s, i - 1), f).Some? then Some(i - 1)
    else None
  }

  /** The roster entry of the fork as event `k` finds it, its own listing included. */
  function JoinedBy(r: Trace, s: Sid, f: string, k: nat): (j: Option<nat>)
    requires k < |r.events| < |r.states|
    ensures j.Some? ==> j.value <= k && PathIn(Listing(r, s, j.value), f).Some?
  {
    if Joined(r, s, f, k).Some? then Joined(r, s, f, k)
    else if PathIn(Listing(r, s, k), f).Some? then Some(k)
    else None
  }

  /** The path under which event `k` knows the fork. */
  function PathAt(r: Trace, s: Sid, f: string, k: nat): Option<string>
    requires k < |r.events| < |r.states|
  {
    match JoinedBy(r, s, f, k)
    case Some(j) => PathIn(Listing(r, s, j), f)
    case None => None
  }

  /** When the fork was last issued since the session was last closed. */
  function LastIssue(r: Trace, s: Sid, f: string, i: nat): Option<int>
    requires i <= |r.events| < |r.states|
  {
    if i == 0 || Closes(r.states[i - 1], r.events[i - 1], s) then None
    else if IssuedAt(r, i - 1, s, f) then Some(EventTime(r.events[i - 1]))
    else LastIssue(r, s, f, i - 1)
  }

  // ---- one step ----

  function RowOf(db: Db, s: Sid, f: string): Option<RosterRow> {
    if (s, f) in db.roster then Some(db.roster[(s, f)]) else None
  }

  lemma {:induction false} PathInSnoc(entries: seq<(string, string)>, x: (string, string), f: string)
    ensures PathIn(entries + [x], f) ==
            if PathIn(entries, f).Some? then PathIn(entries, f) else if x.0 == f then Some(x.1) else None
  {
    if entries != [] {
      assert (entries + [x])[1..] == entries[1..] + [x];
      PathInSnoc(entries[1..], x, f);
    }
  }

  /** Queueing a listing adds the forks that are not on the roster, as first listed. */
  lemma {:induction false} QueueRow(db: Db, x: Sid, entries: seq<(string, string)>, t: int, s: Sid, f: string)
    ensures RowOf(QueueAll(db, x, entries, t), s, f) ==
            if RowOf(db, s, f).Some? || x != s || PathIn(entries, f).None? then RowOf(db, s, f)
            else Some(RosterRow(PathIn(entries, f).value, t, None))
  {
    if entries != [] {
      var front, e := entries[..|entries| - 1], entries[|entries| - 1];
      assert entries == front + [e];
      PathInSnoc(front, e, f);
      QueueRow(db, x, front, t, s, f);
    }
  }

  lemma CalmRoster(w: World, e: Event, s: Sid, f: string)
    ensures !e.Evaluated? && !e.Refreshed? ==> RowOf(CalmDb(w, e), s, f) == RowOf(w.core.db, s, f)
  {
    match e {
      case Prompted(x, info, note, _, tail, t) => NotedFramed(w.core.db, x, note, tail, t);
      case Stopped(x, info, tail, _, _, _, t) => IngestFramed(StartPause(Upsert(w.core.db, x, info, t), x, t), x, tail);
      case _ =>
    }
  }

  /** What the act leaves of a roster row. */
  function ActRoster(row: Option<RosterRow>, a: Act, s: Sid, issued: bool): Option<RosterRow> {
    if row.None? || a == Closing(s) then None
    else if issued && a.Issuing? then Some(row.value.(ranAt := Some(a.t)))
    else row
  }

  lemma ActRosterIs(c: Core, a: Act, s: Sid, f: string)
    requires a.Issuing? ==> DistinctNames(a.sel)
    ensures RowOf(Apply(c, a).db, s, f) == ActRoster(RowOf(c.db, s, f), a, s, a.Issuing? && a.ctx.sid == s && Member(a.sel, f))
  {
    if a.Issuing? {
      IssueShape(c, a.ctx.sid, a.sel, a.t);
      assert Named(a.sel, |a.sel|, f) <==> Member(a.sel, f);
    }
  }

  /** The poll that looks at the roster belongs to the session its snapshot names. */
  lemma ListsFor(env: Env, r: Trace, k: nat)
    requires IsRun(env, r) && k < |r.events| && (r.events[k].Evaluated? || r.events[k].Refreshed?)
    ensures r.events[k].poll in r.states[k].snaps
    ensures PollSid(r, r.events[k].poll, k) == Some(r.states[k].snaps[r.events[k].poll].ctx.sid)
  {
    RunInv(env, r, k);
    PollsKnown(env, r, k, r.events[k].poll);
    assert StepAt(env, r, k);
    assert SnapCurrent(env, r.states[k], r.events[k].poll);
  }

  lemma ListedRow(w: World, e: Event, s: Sid, f: string)
    requires (e.Evaluated? || e.Refreshed?) && e.poll in w.snaps
    ensures RowOf(CalmDb(w, e), s, f) ==
            if RowOf(w.core.db, s, f).Some? || w.snaps[e.poll].ctx.sid != s || PathIn(e.entries, f).None? then RowOf(w.core.db, s, f)
            else Some(RosterRow(PathIn(e.entries, f).value, e.t, None))
  {
    QueueRow(w.core.db, w.snaps[e.poll].ctx.sid, e.entries, e.t, s, f);
  }

  /** The roster row as event `k` finds it. */
  lemma SeenRow(env: Env, r: Trace, s: Sid, f: string, k: nat)
    requires IsRun(env, r) && k < |r.events|
    ensures RowOf(CalmDb(r.states[k], r.events[k]), s, f) ==
            if RowOf(r.states[k].core.db, s, f).Some? || PathIn(Listing(r, s, k), f).None? then RowOf(r.states[k].core.db, s, f)
            else Some(RosterRow(PathIn(Listing(r, s, k), f).value, EventTime(r.events[k]), None))
  {
    if r.events[k].Evaluated? || r.events[k].Refreshed? {
      ListsFor(env, r, k);
      ListedRow(r.states[k], r.events[k], s, f);
    } else {
      CalmRoster(r.states[k], r.events[k], s, f);
    }
  }

  lemma ActTime(env: Env, w: World, e: Event)
    ensures ActOf(env, w, e).Issuing? ==> ActOf(env, w, e).t == EventTime(e)
  {}

  lemma RosterMoves(env: Env, r: Trace, s: Sid, f: string, k: nat)
    requires IsRun(env, r) && k < |r.events|
    ensures RowOf(r.states[k + 1].core.db, s, f) ==
            var seen := RowOf(CalmDb(r.states[k], r.events[k]), s, f);
            if seen.None? || Closes(r.states[k], r.events[k], s) then None
            else if IssuedAt(r, k, s, f) then Some(seen.value.(ranAt := Some(EventTime(r.events[k]))))
            else seen
  {
    var w, e := r.states[k], r.events[k];
    RunTakes(env, r, k);
    IssuedMeans(env, r, k, s, f);
    ActRosterIs(Core(CalmDb(w, e), w.core.hist), ActOf(env, w, e), s, f);
    ClosesIsClosing(env, w, e, s);
    ActTime(env, w, e);
  }

  // ---- the roster ----

  ghost predicate RowKnown(r: Trace, s: Sid, f: string, i: nat, row: Option<RosterRow>)
    requires i <= |r.events| < |r.states|
  {
    var k := Joined(r, s, f, i);
    if k.Some? then
      && row == Some(RosterRow(PathIn(Listing(r, s, k.value), f).value, EventTime(r.events[k.value]), LastIssue(r, s, f, i)))
    else row.None? && LastIssue(r, s, f, i).None?
  }

  lemma NewOnRoster(env: Env, r: Trace, s: Sid, f: string, k: nat)
    requires IsRun(env, r) && k < |r.events| && IssuedAt(r, k, s, f)
    ensures RowOf(CalmDb(r.states[k], r.events[k]), s, f).Some?
  {
    IssuedMeans(env, r, k, s, f);
    RunTakes(env, r, k);
  }

  lemma RowMoves(r: Trace, s: Sid, f: string, k: nat, seen: Option<RosterRow>, was: Option<RosterRow>, now: Option<RosterRow>)
    requires k < |r.events| < |r.states| && RowKnown(r, s, f, k, was)
    requires seen ==
             if was.Some? || PathIn(Listing(r, s, k), f).None? then was
             else Some(RosterRow(PathIn(Listing(r, s, k), f).value, EventTime(r.events[k]), None))
    requires now ==
             if seen.None? || Closes(r.states[k], r.events[k], s) then None
             else if IssuedAt(r, k, s, f) then Some(seen.value.(ranAt := Some(EventTime(r.events[k]))))
             else seen
    requires IssuedAt(r, k, s, f) ==> seen.Some?
    ensures RowKnown(r, s, f, k + 1, now)
  {}

  lemma {:induction false} RowIsKnown(env: Env, r: Trace, s: Sid, f: string, i: nat)
    requires IsRun(env, r) && i <= |r.events|
    ensures RowKnown(r, s, f, i, RowOf(r.states[i].core.db, s, f))
  {
    if i > 0 {
      var k := i - 1;
      RowIsKnown(env, r, s, f, k);
      SeenRow(env, r, s, f, k);
      RosterMoves(env, r, s, f, k);
      if IssuedAt(r, k, s, f) { NewOnRoster(env, r, s, f, k); }
      RowMoves(r, s, f, k, RowOf(CalmDb(r.states[k], r.events[k]), s, f), RowOf(r.states[k].core.db, s, f), RowOf(r.states[i].core.db, s, f));
    }
  }

  /** In every state of every run the roster of a session holds exactly the forks listed since
      it was last closed, each under the path it was first listed with and stamped with that
      listing's time, and remembers when each was last issued. */
  lemma RosterOnTrace(env: Env, r: Trace, s: Sid, f: string, i: nat)
    requires IsRun(env, r) && i <= |r.events|
    ensures var db, k := r.states[i].core.db, Joined(r, s, f, i);
      if k.None? then (s, f) !in db.roster
      else
        && (s, f) in db.roster
        && var row := db.roster[(s, f)];
           && Some(row.path) == PathIn(Listing(r, s, k.value), f) && row.queuedAt == EventTime(r.events[k.value])
           && row.ranAt == LastIssue(r, s, f, i)
  {
    RowIsKnown(env, r, s, f, i);
  }

  /** The roster row an event works with. */
  lemma SeenOnTrace(env: Env, r: Trace, s: Sid, f: string, k: nat)
    requires IsRun(env, r) && k < |r.events|
    ensures var db := CalmDb(r.states[k], r.events[k]);
      if PathAt(r, s, f, k).None? then (s, f) !in db.roster
      else (s, f) in db.roster && Some(db.roster[(s, f)].path) == PathAt(r, s, f, k) && db.roster[(s, f)].ranAt == LastIssue(r, s, f, k)
  {
    RowIsKnown(env, r, s, f, k);
    SeenRow(env, r, s, f, k);
  }

  /** A listing mentions a fork exactly when it gives it a path, that of its first mention. */
  lemma {:induction false} PathInMeans(entries: seq<(string, string)>, f: string)
    ensures if PathIn(entries, f).Some?
            then exists i :: 0 <= i < |entries| && entries[i] == (f, PathIn(entries, f).value) && forall j :: 0 <= j < i ==> entries[j].0 != f
            else forall i :: 0 <= i < |entries| ==> entries[i].0 != f
  {
    if entries != [] && entries[0].0 != f {
      PathInMeans(entries[1..], f);
      if PathIn(entries, f).Some? {
        var i :| 0 <= i < |entries[1..]| && entries[1..][i] == (f, PathIn(entries, f).value) && forall j :: 0 <= j < i ==> entries[1..][j].0 != f;
        assert entries[i + 1] == entries[1..][i];
        assert forall j :: 0 < j < i + 1 ==> entries[j] == entries[1..][j - 1];
      }
    }
  }
}
