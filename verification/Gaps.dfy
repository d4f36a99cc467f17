/** Throttle gaps over whole runs, whatever the clock does between steps. */
module Gaps {
  import opened Text
  import opened Store
  import opened Planner
  import opened Core
  import opened Polls
  import opened Latches
  import opened Throttles
  import opened Acts
  import opened Machine
  import opened Runs
  import opened Bounds
  import opened Sessions
  import opened Rows
  import Moments

  // ---- per fork ----

  /** Two runs of a throttled fork since its session's last close are at least its
      throttle apart. (A throttle that does not fit an `i64` is never enforced.) */
  lemma ForkGaps(env: Env, r: Trace, s: Sid, i: nat, a: nat, b: nat)
    requires IsRun(env, r) && i <= |r.events|
    requires a in LegRuns(env, r, s, i) && b in LegRuns(env, r, s, i) && a < b
    requires r.states[i].core.db.runs[a].fork == r.states[i].core.db.runs[b].fork
    ensures var db, k := r.states[i].core.db, (s, r.states[i].core.db.runs[a].fork);
      && k in db.roster && db.roster[k].path in env.files
      && var throttle := env.files[db.roster[k].path].throttle;
         (throttle.Some? && 0 < throttle.value < I64_LIMIT ==> db.runs[b].at - db.runs[a].at >= throttle.value)
  {
    var c := r.states[i].core;
    LegRunsAreIssues(env, r, s, i);
    RunInv(env, r, i);
    assert Logged(c);
    assert InLeg(c.hist, s, a) && InLeg(c.hist, s, b);
    assert Rostered(env.files, c.db, c.hist.issues[a]);
  }

  /** A throttle of 2^63 seconds or more holds back nothing: the fork fires exactly when it
      would without one. */
  lemma OversizedThrottleIgnored(db: Db, files: Files, ctx: Ctx, moments: seq<Moments.Moment>, t: int, name: string)
    requires (ctx.sid, name) in db.roster && db.roster[(ctx.sid, name)].path in files
    requires var def := files[db.roster[(ctx.sid, name)].path]; def.throttle.Some? && def.throttle.value >= I64_LIMIT
    ensures var path := db.roster[(ctx.sid, name)].path;
      Fires(db, files, ctx, moments, t, name) <==>
      Fires(db, files[path := files[path].(throttle := None)], ctx, moments, t, name)
  {
    WindowExact(files[db.roster[(ctx.sid, name)].path].throttle.value);
  }

  // ---- per tag ----

  /** The project a session belongs to, from the events about it. */
  predicate Rooted(e: Event, rootOf: Sid -> string) {
    match e
    case Started(s, info, _) => info.root == rootOf(s)
    case Prompted(s, info, _, _, _, _) => info.root == rootOf(s)
    case Stopped(s, info, _, _, _, _, _) => info.root == rootOf(s)
    case _ => true
  }

  ghost function ProjectsOf(env: Env, rootOf: Sid -> string): Projects {
    Projects(rootOf, (root: string) => env.config(root).tagThrottles)
  }

  ghost predicate SnapRooted(rootOf: Sid -> string, w: World, p: nat) {
    p in w.ps.live && p in w.snaps ==> w.snaps[p].ctx.root == rootOf(w.snaps[p].ctx.sid)
  }

  ghost predicate TagWorld(env: Env, rootOf: Sid -> string, w: World) {
    && TagInv(ProjectsOf(env, rootOf), w.core) && FixedRoots(ProjectsOf(env, rootOf), w.core.db)
    && forall p: nat :: SnapRooted(rootOf, w, p)
  }

  lemma FramedRoots(p: Projects, a: Db, b: Db)
    requires FixedRoots(p, a) && Framed(a, b)
    ensures FixedRoots(p, b)
  {}

  lemma TouchRoots(p: Projects, db: Db, s: Sid, info: Info, t: int)
    requires FixedRoots(p, db) && info.root == p.rootOf(s)
    ensures FixedRoots(p, Upsert(db, s, info, t)) && FixedRoots(p, StartPause(Upsert(db, s, info, t), s, t))
  {}

  lemma CalmRoots(env: Env, rootOf: Sid -> string, w: World, e: Event)
    requires FixedRoots(ProjectsOf(env, rootOf), w.core.db) && Rooted(e, rootOf)
    ensures FixedRoots(ProjectsOf(env, rootOf), CalmDb(w, e))
  {
    var p, db := ProjectsOf(env, rootOf), w.core.db;
    match e {
      case Started(s, info, t) => TouchRoots(p, db, s, info, t);
      case Prompted(s, info, note, _, tail, t) =>
        NotedFramed(db, s, note, tail, t);
        FramedRoots(p, db, NotedDb(db, s, note, tail, t));
        TouchRoots(p, NotedDb(db, s, note, tail, t), s, info, t);
      case Stopped(s, info, tail, _, _, _, t) =>
        var touched := StartPause(Upsert(db, s, info, t), s, t);
        TouchRoots(p, db, s, info, t);
        IngestFramed(touched, s, tail);
        FramedRoots(p, touched, IngestDb(touched, s, tail));
      case Evaluated(q, entries, _, t) => if q in w.snaps { QueueKeepsSessions(db, w.snaps[q].ctx.sid, entries, t); }
      case Refreshed(q, entries, t) => if q in w.snaps { QueueKeepsSessions(db, w.snaps[q].ctx.sid, entries, t); }
      case _ =>
    }
  }

  lemma StopRooted(env: Env, rootOf: Sid -> string, w: World, e: Event, p: nat)
    requires Snapped(env, w) && e.Stopped? && Rooted(e, rootOf) && SnapRooted(rootOf, w, p)
    ensures SnapRooted(rootOf, DoStop(env, w, e).world, p)
  {
    assert SnapCurrent(env, w, p);
    StopHasSession(w.core.db, e);
    if p != w.ps.next && p in Register(Clear(w.ps, e.sid), e.sid).live { RegisterKept(w.ps, e.sid, p); }
  }

  lemma StepRooted(env: Env, rootOf: Sid -> string, w: World, e: Event, p: nat)
    requires Snapped(env, w) && Enabled(env, w, e) && Rooted(e, rootOf) && SnapRooted(rootOf, w, p)
    ensures SnapRooted(rootOf, Step(env, w, e).world, p)
  {
    if e.Stopped? { StopRooted(env, rootOf, w, e, p); }
  }

  lemma TagCore(env: Env, rootOf: Sid -> string, w: World, e: Event, v: World)
    requires WorldInv(env, w) && Enabled(env, w, e) && Rooted(e, rootOf) && CleanFiles(env.files)
    requires TagWorld(env, rootOf, w) && Takes(env.files, w.core, CalmDb(w, e), ActOf(env, w, e), v.core)
    ensures TagInv(ProjectsOf(env, rootOf), v.core) && FixedRoots(ProjectsOf(env, rootOf), v.core.db)
  {
    CalmRoots(env, rootOf, w, e);
    if e.Evaluated? { assert SnapCurrent(env, w, e.poll) && SnapRooted(rootOf, w, e.poll); }
    StepTags(ProjectsOf(env, rootOf), env.files, w.core, CalmDb(w, e), ActOf(env, w, e), v.core);
  }

  lemma StepTagWorld(env: Env, rootOf: Sid -> string, w: World, e: Event)
    requires WorldInv(env, w) && Enabled(env, w, e) && Rooted(e, rootOf) && CleanFiles(env.files)
    requires TagWorld(env, rootOf, w)
    ensures TagWorld(env, rootOf, Step(env, w, e).world)
  {
    var v := Step(env, w, e).world;
    StepTakes(env, w, e);
    TagCore(env, rootOf, w, e, v);
    forall q: nat ensures SnapRooted(rootOf, v, q) {
      assert SnapRooted(rootOf, w, q);
      StepRooted(env, rootOf, w, e, q);
    }
  }

  lemma TagStart(env: Env, rootOf: Sid -> string)
    ensures TagWorld(env, rootOf, START)
  {}

  lemma TagMoves(env: Env, rootOf: Sid -> string, r: Trace, k: nat)
    requires IsRun(env, r) && k < |r.events| && CleanFiles(env.files) && Rooted(r.events[k], rootOf)
    requires TagWorld(env, rootOf, r.states[k])
    ensures TagWorld(env, rootOf, r.states[k + 1])
  {
    RunInv(env, r, k);
    assert StepAt(env, r, k);
    StepTagWorld(env, rootOf, r.states[k], r.events[k]);
  }

  lemma {:induction false} RunTagWorld(env: Env, rootOf: Sid -> string, r: Trace, i: nat)
    requires IsRun(env, r) && i <= |r.events| && CleanFiles(env.files)
    requires forall k :: 0 <= k < |r.events| ==> Rooted(r.events[k], rootOf)
    ensures TagWorld(env, rootOf, r.states[i])
  {
    if i == 0 {
      TagStart(env, rootOf);
    } else {
      RunTagWorld(env, rootOf, r, i - 1);
      TagMoves(env, rootOf, r, i - 1);
    }
  }

  lemma TagSpacedAt(p: Projects, c: Core, a: nat, b: nat, tag: string)
    requires Logged(c) && WellTagged(c) && TagSpaced(p, c)
    requires a < b < |c.db.runs| && Carries(c.db.runs[a], tag) && Carries(c.db.runs[b], tag)
    requires p.rootOf(c.db.runs[a].sid) == p.rootOf(c.db.runs[b].sid)
    ensures var gap := TagGap(p, p.rootOf(c.db.runs[a].sid), tag);
      gap <= 0 || c.hist.issues[a].batch == c.hist.issues[b].batch || c.db.runs[b].at - c.db.runs[a].at >= gap
  {
    CarriesTag(c, a, tag);
    CarriesTag(c, b, tag);
    assert c.db.runs[a].sid == c.hist.issues[a].sid && c.db.runs[b].sid == c.hist.issues[b].sid;
  }

  // ---- one batch, seen on the trace ----

  /** One event before state `i` recorded both runs. */
  ghost predicate OneEvent(r: Trace, i: nat, a: nat, b: nat)
    requires i < |r.states|
  {
    exists k :: 0 <= k < i && Records(r, k, a) && Records(r, k, b)
  }

  /** The issues from `n` on belong to batch `b`. */
  ghost predicate BatchFrom(h: Hist, n: nat, b: nat) {
    forall x :: n <= x < |h.issues| ==> h.issues[x].batch == b
  }

  lemma BatchMoves(env: Env, r: Trace, k: nat)
    requires IsRun(env, r) && k < |r.events|
    ensures r.states[k].core.hist.batches <= r.states[k + 1].core.hist.batches
    ensures |r.states[k + 1].core.hist.issues| > |r.states[k].core.hist.issues| ==>
      r.states[k + 1].core.hist.batches == r.states[k].core.hist.batches + 1
    ensures BatchFrom(r.states[k + 1].core.hist, |r.states[k].core.hist.issues|, r.states[k].core.hist.batches)
  {
    var w, e, a := r.states[k], r.events[k], ActOf(env, r.states[k], r.events[k]);
    var mid := Core(CalmDb(w, e), w.core.hist);
    RunTakes(env, r, k);
    if a.Issuing? { IssueShape(mid, a.ctx.sid, a.sel, a.t); } else { ActFrames(mid, a); }
  }

  lemma {:induction false} BatchesGrow(env: Env, r: Trace, i: nat, j: nat)
    requires IsRun(env, r) && i <= j <= |r.events|
    ensures r.states[i].core.hist.batches <= r.states[j].core.hist.batches
    decreases j
  {
    if i < j {
      BatchesGrow(env, r, i, j - 1);
      BatchMoves(env, r, j - 1);
    }
  }

  lemma Lengths(env: Env, r: Trace, i: nat)
    requires IsRun(env, r) && i <= |r.events|
    ensures |r.states[i].core.hist.issues| == |r.states[i].core.db.runs|
  {
    RunInv(env, r, i);
  }

  lemma {:induction false} RecordedBy(env: Env, r: Trace, i: nat, x: nat) returns (k: nat)
    requires IsRun(env, r) && i <= |r.events| && x < |r.states[i].core.hist.issues|
    ensures k < i && Records(r, k, x) && r.states[i].core.hist.issues[x].batch == r.states[k].core.hist.batches
    ensures r.states[k + 1].core.hist.batches == r.states[k].core.hist.batches + 1
  {
    if i > 0 {
      Lengths(env, r, i - 1);
      Lengths(env, r, i);
      if x < |r.states[i - 1].core.hist.issues| {
        k := RecordedBy(env, r, i - 1, x);
        FatesSettle(env, r, i - 1, i);
      } else {
        k := i - 1;
        BatchMoves(env, r, k);
      }
    }
  }

  /** Runs of one batch were recorded by one event. */
  lemma BatchIsOneEvent(env: Env, r: Trace, i: nat, a: nat, b: nat)
    requires IsRun(env, r) && i <= |r.events| && a < |r.states[i].core.hist.issues| && b < |r.states[i].core.hist.issues|
    requires r.states[i].core.hist.issues[a].batch == r.states[i].core.hist.issues[b].batch
    ensures OneEvent(r, i, a, b)
  {
    var k := RecordedBy(env, r, i, a);
    var m := RecordedBy(env, r, i, b);
    if k < m { BatchesGrow(env, r, k + 1, m); }
    if m < k { BatchesGrow(env, r, m + 1, k); }
  }

  /** With sessions staying in their project: two runs in one project of forks whose files had a
      throttled tag when they were issued were recorded by one event or are at least the tag's
      window apart, across sessions and closes. (A window that does not fit an `i64` is never
      enforced.) */
  lemma TagGaps(env: Env, rootOf: Sid -> string, r: Trace, i: nat, a: nat, b: nat, tag: string)
    requires IsRun(env, r) && i <= |r.events| && CleanFiles(env.files)
    requires forall k :: 0 <= k < |r.events| ==> Rooted(r.events[k], rootOf)
    requires a < b < |r.states[i].core.db.runs| && Tagged(env, r, i, a, tag) && Tagged(env, r, i, b, tag)
    requires rootOf(r.states[i].core.db.runs[a].sid) == rootOf(r.states[i].core.db.runs[b].sid)
    requires tag in env.config(rootOf(r.states[i].core.db.runs[a].sid)).tagThrottles
    ensures var window := env.config(rootOf(r.states[i].core.db.runs[a].sid)).tagThrottles[tag];
      0 < window < I64_LIMIT ==>
        OneEvent(r, i, a, b) || r.states[i].core.db.runs[b].at - r.states[i].core.db.runs[a].at >= window
  {
    CarriesFiled(env, r, i, a, tag);
    CarriesFiled(env, r, i, b, tag);
    RunTagWorld(env, rootOf, r, i);
    RunInv(env, r, i);
    TagSpacedAt(ProjectsOf(env, rootOf), r.states[i].core, a, b, tag);
    if r.states[i].core.hist.issues[a].batch == r.states[i].core.hist.issues[b].batch { BatchIsOneEvent(env, r, i, a, b); }
  }
}
