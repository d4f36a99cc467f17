/** Exactly which forks a poll issues: the selection pipeline against a rule stated on the fork
    files, the configuration and the events of the run. */
module Choices {
  import opened Text
  import opened Store
  import opened Planner
  import opened Core
  import opened Throttles
  import opened Acts
  import opened Machine
  import opened Runs
  import opened Sessions
  import opened Protocol
  import opened Deliveries
  import opened Rosters
  import opened Rows
  import opened Latchings
  import Columns
  import Fork
  import Moments

  // ---- the rule ----

  /** The list the session's Stop reported, as it is stored; the project's when it reported none. */
  function InForce(reported: Option<seq<string>>, configured: Option<seq<string>>): Option<seq<string>> {
    if reported.Some? then Some(Columns.SplitTags(Columns.Join(reported.value))) else configured
  }

  /** No tag is disabled, and one is enabled unless nothing is. */
  predicate Admitted(tags: seq<string>, enable: Option<seq<string>>, disable: Option<seq<string>>) {
    && (disable.Some? ==> forall tag :: tag in tags ==> tag !in disable.value)
    && (enable.Some? && enable.value != [] ==> exists tag :: tag in tags && tag in enable.value)
  }

  /** A window of that many seconds that opened at `at` is over at `t`; one that does not fit an
      `i64` is never on. */
  predicate Over(window: u64, at: int, t: int) {
    window == 0 || window >= I64_LIMIT || t - at >= window
  }

  predicate Rested(throttle: Option<u64>, last: Option<int>, t: int) {
    throttle.Some? && last.Some? ==> Over(throttle.value, last.value, t)
  }

  /** The project a session last reported. */
  function ProjectOf(r: Trace, s: Sid, i: nat): Option<string>
    requires i <= |r.events|
  {
    if LastTouch(r, s, i).Some? then Some(LastTouch(r, s, i).value.info.root) else None
  }

  /** The window of every run in the project whose file had the tag is over. */
  ghost predicate TagRested(env: Env, r: Trace, k: nat, root: string, tag: string, t: int)
    requires k <= |r.events| < |r.states|
  {
    tag in env.config(root).tagThrottles ==>
      forall x: nat ::
        (x < |r.states[k].core.db.runs| && ProjectOf(r, r.states[k].core.db.runs[x].sid, k) == Some(root) && Tagged(env, r, k, x, tag)) ==>
        Over(env.config(root).tagThrottles[tag], r.states[k].core.db.runs[x].at, t)
  }

  /** What the poll of Stop `q` measures by: the last token count, the window of the last model,
      the first Stop of the pause, the serviced delays and the project's default delay. */
  datatype Basis = Basis(gauge: Option<u64>, window: u64, base: int, deadlines: seq<u64>, default: u64)

  ghost predicate IsBasis(env: Env, r: Trace, q: nat, b: Basis)
    requires q < |r.events| < |r.states| && r.events[q].Stopped?
  {
    var e := r.events[q];
    && b.gauge == (if e.tail.NoTranscript? then None else LastGauge(r, e.sid, q + 1))
    && Moments.IsWindow(LastModel(r, e.sid, q + 1), b.gauge, b.window)
    && FirstStop(env, r, e.sid, q + 1) == Some(b.base)
    && b.deadlines == e.deadlines && b.default == env.config(e.info.root).defaultIdle
  }

  /** Trigger `m` of the file is the one that fires. */
  ghost predicate Firing(def: Fork.ForkDef, b: Basis, t: int, m: nat) {
    Moments.Chosen(def.runOn, b.gauge, b.window, b.deadlines, b.base, t, b.default, m)
  }

  /** The fork is to be issued when the poll of Stop `q` evaluates at event `k`: it is rostered
      under a readable file whose tags are admitted, neither it nor one of its tags is inside a
      throttle window, and it has a firing trigger it has not been issued for yet. */
  ghost predicate Ripe(env: Env, r: Trace, q: nat, k: nat, f: string, b: Basis)
    requires q < |r.events| == |r.answers| && |r.events| < |r.states| && k < |r.events|
    requires r.events[q].Stopped? && r.events[k].Evaluated?
  {
    var s, info, t := r.events[q].sid, r.events[q].info, r.events[k].t;
    && FileAt(env, r, s, f, k).Some?
    && var def := FileAt(env, r, s, f, k).value;
       && Admitted(def.tags, InForce(info.enable, env.config(info.root).enable), InForce(info.disable, env.config(info.root).disable))
       && Rested(def.throttle, LastIssue(r, s, f, k), t)
       && (forall tag :: tag in def.tags ==> TagRested(env, r, k, info.root, tag, t))
       && exists m: nat :: Firing(def, b, t, m) && !Spent(env, r, s, f, def.runOn[m], k)
  }

  // ---- the pipeline, stage by stage ----

  lemma AdmittedExactly(tags: seq<string>, enable: Option<seq<string>>, disable: Option<seq<string>>)
    ensures TagsAllowed(tags, enable, disable) <==> Admitted(tags, enable, disable)
  {
    if enable.Some? { ShareMeans(tags, enable.value); }
    if disable.Some? { ShareMeans(tags, disable.value); }
  }

  lemma ShareMeans(a: seq<string>, b: seq<string>)
    ensures Share(a, b) <==> exists tag :: tag in a && tag in b
  {
    if tag :| tag in a && tag in b {
      var i :| 0 <= i < |a| && a[i] == tag;
    }
  }

  lemma WithinIsOver(window: u64, at: int, t: int)
    ensures Within(t, at, window) <==> !Over(window, at, t)
  {}

  lemma ThrottledExactly(def: Fork.ForkDef, row: RosterRow, t: int)
    ensures ForkThrottled(def, row, t) <==> !Rested(def.throttle, row.ranAt, t)
  {
    if def.throttle.Some? && row.ranAt.Some? { WithinIsOver(def.throttle.value, row.ranAt.value, t); }
  }

  lemma InProjectExactly(env: Env, r: Trace, k: nat, x: nat, root: string)
    requires IsRun(env, r) && k <= |r.events| && x < |r.states[k].core.db.runs|
    ensures var db := r.states[k].core.db; InProject(db, db.runs[x], root) <==> ProjectOf(r, db.runs[x].sid, k) == Some(root)
  {
    SessionOnTrace(env, r, r.states[k].core.db.runs[x].sid, k);
  }

  /** Whether run `x` keeps the tag throttled. */
  lemma HoldsBack(env: Env, r: Trace, k: nat, x: nat, root: string, tag: string, window: u64, t: int)
    requires IsRun(env, r) && k <= |r.events| && CleanFiles(env.files) && x < |r.states[k].core.db.runs|
    ensures var db := r.states[k].core.db;
      (InProject(db, db.runs[x], root) && Carries(db.runs[x], tag) && Within(t, db.runs[x].at, window)) <==>
      (ProjectOf(r, db.runs[x].sid, k) == Some(root) && Tagged(env, r, k, x, tag) && !Over(window, db.runs[x].at, t))
  {
    InProjectExactly(env, r, k, x, root);
    CarriesFiled(env, r, k, x, tag);
    WithinIsOver(window, r.states[k].core.db.runs[x].at, t);
  }

  lemma TagExactly(env: Env, r: Trace, k: nat, ctx: Ctx, tag: string, t: int)
    requires IsRun(env, r) && k <= |r.events| && CleanFiles(env.files) && ctx.cfg == env.config(ctx.root)
    ensures TagThrottledBy(r.states[k].core.db, ctx, tag, t) <==> !TagRested(env, r, k, ctx.root, tag, t)
  {
    var db := r.states[k].core.db;
    if tag in ctx.cfg.tagThrottles {
      var window := ctx.cfg.tagThrottles[tag];
      forall x: nat | x < |db.runs|
        ensures (InProject(db, db.runs[x], ctx.root) && Carries(db.runs[x], tag) && Within(t, db.runs[x].at, window)) <==>
                (ProjectOf(r, db.runs[x].sid, k) == Some(ctx.root) && Tagged(env, r, k, x, tag) && !Over(window, db.runs[x].at, t))
      {
        HoldsBack(env, r, k, x, ctx.root, tag, window, t);
      }
    }
  }

  lemma QueueKeepsRuns(w: World, e: Event)
    requires e.Evaluated? && e.poll in w.snaps
    ensures CalmDb(w, e).runs == w.core.db.runs && CalmDb(w, e).sessions == w.core.db.sessions && CalmDb(w, e).fires == w.core.db.fires
  {
    QueueKeepsSessions(w.core.db, w.snaps[e.poll].ctx.sid, e.entries, e.t);
    QueueCalm(w.core.db, w.snaps[e.poll].ctx.sid, e.entries, e.t);
  }

  lemma SameTagThrottle(a: Db, b: Db, ctx: Ctx, tag: string, t: int)
    requires a.runs == b.runs && a.sessions == b.sessions
    ensures TagThrottledBy(a, ctx, tag, t) <==> TagThrottledBy(b, ctx, tag, t)
  {}

  lemma TagsExactly(env: Env, r: Trace, k: nat, ctx: Ctx, tags: seq<string>)
    requires IsRun(env, r) && k < |r.events| && CleanFiles(env.files) && ctx.cfg == env.config(ctx.root)
    requires r.events[k].Evaluated? && r.events[k].poll in r.states[k].snaps
    ensures var t := r.events[k].t;
      TagThrottled(CalmDb(r.states[k], r.events[k]), ctx, tags, t) <==> !forall tag :: tag in tags ==> TagRested(env, r, k, ctx.root, tag, t)
  {
    var t, db := r.events[k].t, CalmDb(r.states[k], r.events[k]);
    QueueKeepsRuns(r.states[k], r.events[k]);
    forall tag ensures TagThrottledBy(db, ctx, tag, t) <==> !TagRested(env, r, k, ctx.root, tag, t) {
      TagExactly(env, r, k, ctx, tag, t);
      SameTagThrottle(db, r.states[k].core.db, ctx, tag, t);
    }
    if tag :| tag in tags && !TagRested(env, r, k, ctx.root, tag, t) {
      var i :| 0 <= i < |tags| && tags[i] == tag;
    }
  }

  /** The trigger matched, if any, is the firing one. */
  lemma MatchExactly(def: Fork.ForkDef, b: Basis, t: int)
    requires Moments.Clock(b.base) && Moments.Clock(t) && Moments.Ascending(b.deadlines) && (b.gauge.Some? ==> b.gauge.value <= b.window)
    ensures var found := Moments.MatchMoments(def.runOn, Moments.ElapsedMoments(b.gauge, b.window, b.base, b.deadlines, t), b.default);
      && (found.Some? <==> exists m: nat :: Firing(def, b, t, m))
      && forall m: nat :: Firing(def, b, t, m) ==> found == Some(def.runOn[m])
  {
    var found := Moments.MatchMoments(def.runOn, Moments.ElapsedMoments(b.gauge, b.window, b.base, b.deadlines, t), b.default);
    Moments.TriggerExactly(def.runOn, b.gauge, b.window, b.deadlines, b.base, t, b.default);
    if found.Some? {
      var m: nat :| Moments.Chosen(def.runOn, b.gauge, b.window, b.deadlines, b.base, t, b.default, m) && found.value == def.runOn[m];
      assert Firing(def, b, t, m);
      forall n: nat | Firing(def, b, t, n) ensures n == m {
        Moments.ChosenOnce(def.runOn, b.gauge, b.window, b.deadlines, b.base, t, b.default, m, n);
      }
    }
  }

  /** What the poll that evaluates at event `k` judges by. */
  ghost predicate JudgesBy(env: Env, r: Trace, q: nat, k: nat, ctx: Ctx)
    requires q < |r.events| < |r.states| && r.events[q].Stopped? && k < |r.events|
  {
    var s, info := r.events[q].sid, r.events[q].info;
    && ctx.sid == s && ctx.root == info.root && ctx.cfg == env.config(info.root) && ctx.epoch == EpochOf(r.states[k].core.db, s)
    && Enable(ctx) == InForce(info.enable, ctx.cfg.enable) && Disable(ctx) == InForce(info.disable, ctx.cfg.disable)
  }

  lemma PollJudges(env: Env, r: Trace, k: nat, q: nat, b: Basis)
    requires IsRun(env, r) && k < |r.events| && r.events[k].Evaluated? && StopOf(r, r.events[k].poll, k) == Some(q)
    requires IsBasis(env, r, q, b)
    ensures r.events[k].poll in r.states[k].snaps
    ensures var snap := r.states[k].snaps[r.events[k].poll];
      && JudgesBy(env, r, q, k, snap.ctx)
      && snap.gauge == b.gauge && snap.window == b.window && snap.base == b.base && snap.deadlines == b.deadlines
  {
    WakesCurrentPause(env, r, k);
    ParkedPollKnows(env, r, k, r.events[k].poll);
  }

  lemma DeadlinesAscend(env: Env, r: Trace, q: nat)
    requires IsRun(env, r) && q < |r.events| && r.events[q].Stopped?
    ensures Moments.Ascending(r.events[q].deadlines)
  {
    assert StepAt(env, r, q);
  }

  /** The trigger stage: some trigger matches and its latch is free. */
  lemma TriggerStage(env: Env, r: Trace, k: nat, s: Sid, f: string, def: Fork.ForkDef, b: Basis, ctx: Ctx, db: Db, t: int)
    requires IsRun(env, r) && k < |r.events| && ctx.sid == s && ctx.epoch == EpochOf(r.states[k].core.db, s)
    requires db.fires == r.states[k].core.db.fires && ctx.cfg.defaultIdle == b.default
    requires Moments.Clock(b.base) && Moments.Clock(t) && Moments.Ascending(b.deadlines) && (b.gauge.Some? ==> b.gauge.value <= b.window)
    ensures var moments := Moments.ElapsedMoments(b.gauge, b.window, b.base, b.deadlines, t);
      var trigger := Trigger(def, ctx, moments);
      (trigger.Some? && !Latched(db, ctx, f, Fork.LatchKey(trigger.value, ctx.epoch))) <==>
      exists m: nat :: Firing(def, b, t, m) && !Spent(env, r, s, f, def.runOn[m], k)
  {
    var moments := Moments.ElapsedMoments(b.gauge, b.window, b.base, b.deadlines, t);
    var trigger := Trigger(def, ctx, moments);
    MatchExactly(def, b, t);
    Moments.MatchSupported(def.runOn, moments, b.default);
    if trigger.Some? { SpentExactly(env, r, s, f, trigger.value, k); }
  }

  /** A fork passes the pipeline exactly when it is ripe. */
  lemma FiresExactly(env: Env, r: Trace, q: nat, k: nat, f: string, b: Basis, ctx: Ctx)
    requires IsRun(env, r) && q < k < |r.events| && r.events[q].Stopped? && r.events[k].Evaluated? && CleanFiles(env.files)
    requires r.events[k].poll in r.states[k].snaps && JudgesBy(env, r, q, k, ctx) && IsBasis(env, r, q, b)
    requires Moments.Clock(b.base) && Moments.Clock(r.events[k].t) && Moments.Ascending(b.deadlines)
    ensures Fires(CalmDb(r.states[k], r.events[k]), env.files, ctx,
                  Moments.ElapsedMoments(b.gauge, b.window, b.base, b.deadlines, r.events[k].t), r.events[k].t, f) <==>
            Ripe(env, r, q, k, f, b)
  {
    var s, t, db := r.events[q].sid, r.events[k].t, CalmDb(r.states[k], r.events[k]);
    SeenOnTrace(env, r, s, f, k);
    if FileAt(env, r, s, f, k).Some? {
      var def := FileAt(env, r, s, f, k).value;
      AdmittedExactly(def.tags, Enable(ctx), Disable(ctx));
      ThrottledExactly(def, db.roster[(s, f)], t);
      TagsExactly(env, r, k, ctx, def.tags);
      QueueKeepsRuns(r.states[k], r.events[k]);
      TriggerStage(env, r, k, s, f, def, b, ctx, db, t);
    }
  }

  lemma MemberFires(db: Db, files: Files, ctx: Ctx, moments: seq<Moments.Moment>, t: int, order: seq<string>, f: string)
    requires Enumerates(order, db, ctx.sid)
    ensures Member(Select(db, files, ctx, moments, t, order), f) <==> Fires(db, files, ctx, moments, t, f)
  {
    SelectSound(db, files, ctx, moments, t, order);
  }

  /** An event issues the forks its poll selects, and no others. */
  lemma IssuesSelected(env: Env, r: Trace, k: nat, s: Sid, f: string)
    requires IsRun(env, r) && k < |r.events| && r.events[k].Evaluated? && PollSid(r, r.events[k].poll, k) == Some(s)
    ensures r.events[k].poll in r.states[k].snaps
    ensures var snap, t := r.states[k].snaps[r.events[k].poll], r.events[k].t;
      IssuedAt(r, k, s, f) <==> Fires(CalmDb(r.states[k], r.events[k]), env.files, snap.ctx, MomentsAt(snap, t), t, f)
  {
    var w, e := r.states[k], r.events[k];
    ListsFor(env, r, k);
    IssuedMeans(env, r, k, s, f);
    assert StepAt(env, r, k);
    var snap := w.snaps[e.poll];
    MemberFires(CalmDb(w, e), env.files, snap.ctx, MomentsAt(snap, e.t), e.t, e.order, f);
  }

  /** Over every run: when a poll evaluates, a fork of its session is issued exactly when it is
      ripe. (`b` spells out what the poll's Stop measured; clock readings are nonnegative `i64`
      values and tags are as the parser produces them.) */
  lemma IssuedExactly(env: Env, r: Trace, k: nat, q: nat, f: string, b: Basis)
    requires IsRun(env, r) && k < |r.events| && r.events[k].Evaluated? && StopOf(r, r.events[k].poll, k) == Some(q)
    requires CleanFiles(env.files) && IsBasis(env, r, q, b) && Moments.Clock(b.base) && Moments.Clock(r.events[k].t)
    ensures IssuedAt(r, k, r.events[q].sid, f) <==> Ripe(env, r, q, k, f, b)
  {
    PollJudges(env, r, k, q, b);
    DeadlinesAscend(env, r, q);
    IssuesSelected(env, r, k, r.events[q].sid, f);
    FiresExactly(env, r, q, k, f, b, r.states[k].snaps[r.events[k].poll].ctx);
  }

  /** No other event issues anything, and no evaluation issues to another session. */
  lemma OnlyPollsIssue(env: Env, r: Trace, k: nat, s: Sid, f: string)
    requires IsRun(env, r) && k < |r.events| && IssuedAt(r, k, s, f)
    ensures r.events[k].Evaluated? && PollSid(r, r.events[k].poll, k) == Some(s)
  {
    IssuedMeans(env, r, k, s, f);
    IssuesFor(env, r, k);
  }

  lemma PickTrigger(db: Db, files: Files, ctx: Ctx, moments: seq<Moments.Moment>, t: int, sel: seq<Selected>, i: nat)
    requires SoundBatch(db, files, ctx, moments, t, sel) && i < |sel|
    ensures (ctx.sid, sel[i].name) in db.roster && db.roster[(ctx.sid, sel[i].name)].path in files
    ensures var def := files[db.roster[(ctx.sid, sel[i].name)].path];
      Trigger(def, ctx, moments).Some? && sel[i].trigger == Trigger(def, ctx, moments).value.Label()
  {}

  lemma MemberTrigger(env: Env, r: Trace, k: nat, i: nat)
    requires IsRun(env, r) && k < |r.events|
    requires ActOf(env, r.states[k], r.events[k]).Issuing? && i < |ActOf(env, r.states[k], r.events[k]).sel|
    ensures var a := ActOf(env, r.states[k], r.events[k]);
      && FileAt(env, r, a.ctx.sid, a.sel[i].name, k).Some?
      && var trigger := Trigger(FileAt(env, r, a.ctx.sid, a.sel[i].name, k).value, a.ctx, a.moments);
         trigger.Some? && a.sel[i].trigger == trigger.value.Label()
  {
    var w, e, a := r.states[k], r.events[k], ActOf(env, r.states[k], r.events[k]);
    RunTakes(env, r, k);
    PickTrigger(CalmDb(w, e), env.files, a.ctx, a.moments, a.t, a.sel, i);
    SeenOnTrace(env, r, a.ctx.sid, a.sel[i].name, k);
  }

  lemma RowTrigger(env: Env, r: Trace, k: nat, x: nat)
    requires IsRun(env, r) && k < |r.events| && Records(r, k, x) && r.events[k].Evaluated? && r.events[k].poll in r.states[k].snaps
    ensures var run, snap := r.states[k + 1].core.db.runs[x], r.states[k].snaps[r.events[k].poll];
      && FileAt(env, r, run.sid, run.fork, k).Some?
      && var trigger := Trigger(FileAt(env, r, run.sid, run.fork, k).value, snap.ctx, MomentsAt(snap, r.events[k].t));
         trigger.Some? && run.trigger == trigger.value.Label()
  {
    var a, i, run := ActOf(env, r.states[k], r.events[k]), x - |r.states[k].core.db.runs|, r.states[k + 1].core.db.runs[x];
    RowIsMember(env, r, k, x);
    ActJudges(env, r.states[k], r.events[k]);
    assert run.sid == a.ctx.sid && run.fork == a.sel[i].name && run.trigger == a.sel[i].trigger;
    MemberTrigger(env, r, k, i);
  }

  lemma ActJudges(env: Env, w: World, e: Event)
    requires e.Evaluated? && ActOf(env, w, e).Issuing?
    ensures var a := ActOf(env, w, e); e.poll in w.snaps && a.ctx == w.snaps[e.poll].ctx && a.moments == MomentsAt(w.snaps[e.poll], e.t)
  {}

  lemma FiringLabel(def: Fork.ForkDef, b: Basis, t: int, ctx: Ctx, text: string)
    requires Moments.Clock(b.base) && Moments.Clock(t) && Moments.Ascending(b.deadlines) && (b.gauge.Some? ==> b.gauge.value <= b.window)
    requires ctx.cfg.defaultIdle == b.default
    requires var trigger := Trigger(def, ctx, Moments.ElapsedMoments(b.gauge, b.window, b.base, b.deadlines, t));
      trigger.Some? && text == trigger.value.Label()
    ensures exists m: nat :: Firing(def, b, t, m) && text == def.runOn[m].Label()
  {
    MatchExactly(def, b, t);
    var m: nat :| Firing(def, b, t, m);
  }

  /** And the label recorded with a row is that of the trigger that fires. */
  lemma TriggerRecorded(env: Env, r: Trace, k: nat, q: nat, x: nat, b: Basis)
    requires IsRun(env, r) && k < |r.events| && Records(r, k, x) && r.events[k].Evaluated? && StopOf(r, r.events[k].poll, k) == Some(q)
    requires IsBasis(env, r, q, b) && Moments.Clock(b.base) && Moments.Clock(r.events[k].t)
    ensures var run := r.states[k + 1].core.db.runs[x];
      && FileAt(env, r, run.sid, run.fork, k).Some?
      && var def := FileAt(env, r, run.sid, run.fork, k).value;
         exists m: nat :: Firing(def, b, r.events[k].t, m) && run.trigger == def.runOn[m].Label()
  {
    PollJudges(env, r, k, q, b);
    var run, snap := r.states[k + 1].core.db.runs[x], r.states[k].snaps[r.events[k].poll];
    DeadlinesAscend(env, r, q);
    RowTrigger(env, r, k, x);
    FiringLabel(FileAt(env, r, run.sid, run.fork, k).value, b, r.events[k].t, snap.ctx, run.trigger);
  }

  /** Every poll that evaluates has such a basis. */
  lemma HasBasis(env: Env, r: Trace, k: nat) returns (b: Basis)
    requires IsRun(env, r) && k < |r.events| && r.events[k].Evaluated?
    ensures StopOf(r, r.events[k].poll, k).Some? && IsBasis(env, r, StopOf(r, r.events[k].poll, k).value, b)
  {
    WakesCurrentPause(env, r, k);
    ParkedPollKnows(env, r, k, r.events[k].poll);
    var snap := r.states[k].snaps[r.events[k].poll];
    b := Basis(snap.gauge, snap.window, snap.base, snap.deadlines, snap.ctx.cfg.defaultIdle);
  }
}
