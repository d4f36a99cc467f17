/** The rows an event adds to the runs table: one per issued fork, as its file says. */
module Rows {
  import opened Text
  import opened Store
  import opened Planner
  import opened Core
  import opened Throttles
  import opened Acts
  import opened Machine
  import opened Runs
  import opened Protocol
  import opened Deliveries
  import opened Rosters
  import Columns
  import Fork
  import Moments

  /** Event `k` recorded run `x`. */
  predicate Records(r: Trace, k: nat, x: nat)
    requires k + 1 < |r.states|
  {
    |r.states[k].core.db.runs| <= x < |r.states[k + 1].core.db.runs|
  }

  /** The runs table only grows, and only by the batch a poll issues. */
  lemma RunsMove(env: Env, r: Trace, k: nat)
    requires IsRun(env, r) && k < |r.events|
    ensures var a, runs := ActOf(env, r.states[k], r.events[k]), r.states[k].core.db.runs;
      r.states[k + 1].core.db.runs == if a.Issuing? then runs + RunRows(a.ctx.sid, a.sel, a.t, |a.sel|) else runs
  {
    var w, e, a := r.states[k], r.events[k], ActOf(env, r.states[k], r.events[k]);
    var mid := Core(CalmDb(w, e), w.core.hist);
    RunTakes(env, r, k);
    if a.Issuing? { BatchRuns(mid, a); } else { OthersRecord(mid, a); }
  }

  lemma RunsStay(env: Env, r: Trace, k: nat)
    requires IsRun(env, r) && k < |r.events|
    ensures r.states[k].core.db.runs <= r.states[k + 1].core.db.runs
  {
    RunsMove(env, r, k);
  }

  lemma PrefixTrans(a: seq<Run>, b: seq<Run>, c: seq<Run>)
    requires a <= b <= c
    ensures a <= c
  {}

  lemma {:induction false} RunsGrow(env: Env, r: Trace, i: nat, j: nat)
    requires IsRun(env, r) && i <= j <= |r.events|
    ensures r.states[i].core.db.runs <= r.states[j].core.db.runs
    decreases j
  {
    if i < j {
      RunsGrow(env, r, i, j - 1);
      RunsStay(env, r, j - 1);
      PrefixTrans(r.states[i].core.db.runs, r.states[j - 1].core.db.runs, r.states[j].core.db.runs);
    }
  }

  /** Every run was recorded by one event, and no other. */
  lemma {:induction false} RecordedAt(env: Env, r: Trace, i: nat, x: nat) returns (k: nat)
    requires IsRun(env, r) && i <= |r.events| && x < |r.states[i].core.db.runs|
    ensures k < i && Records(r, k, x)
    ensures forall j: nat :: j < i && Records(r, j, x) ==> j == k
    decreases i
  {
    if i > 0 && x < |r.states[i - 1].core.db.runs| {
      k := RecordedAt(env, r, i - 1, x);
    } else {
      k := i - 1;
      forall j: nat | j < i && Records(r, j, x) ensures j == k {
        if j < k { RunsGrow(env, r, j + 1, k); }
      }
    }
  }

  /** The session an event issues to is that of the poll, and the time that of the event. */
  lemma IssuesFor(env: Env, r: Trace, k: nat)
    requires IsRun(env, r) && k < |r.events| && ActOf(env, r.states[k], r.events[k]).Issuing?
    ensures var a, e := ActOf(env, r.states[k], r.events[k]), r.events[k];
      && e.Evaluated? && PollSid(r, e.poll, k) == Some(a.ctx.sid) && a.t == e.t
      && e.poll in r.states[k].snaps && a.ctx == r.states[k].snaps[e.poll].ctx
  {
    ListsFor(env, r, k);
  }

  lemma MemberFiled(db: Db, files: Files, ctx: Ctx, moments: seq<Moments.Moment>, t: int, sel: seq<Selected>, i: nat)
    requires SoundBatch(db, files, ctx, moments, t, sel) && i < |sel|
    ensures AsFiled(db, files, ctx, sel[i])
  {
    PickIsFiled(db, files, ctx, moments, t, sel[i].name);
  }

  /** The file of the fork as event `k` knows it. */
  function FileAt(env: Env, r: Trace, s: Sid, f: string, k: nat): Option<Fork.ForkDef>
    requires k < |r.events| < |r.states|
  {
    match PathAt(r, s, f, k)
    case Some(path) => if path in env.files then Some(env.files[path]) else None
    case None => None
  }

  /** Every member of a batch stands for a rostered fork, and says what its file says. */
  lemma MemberIs(env: Env, r: Trace, k: nat, i: nat)
    requires IsRun(env, r) && k < |r.events|
    requires ActOf(env, r.states[k], r.events[k]).Issuing? && i < |ActOf(env, r.states[k], r.events[k]).sel|
    ensures var a := ActOf(env, r.states[k], r.events[k]);
      var x := a.sel[i];
      && PathAt(r, a.ctx.sid, x.name, k) == Some(x.path)
      && FileAt(env, r, a.ctx.sid, x.name, k).Some?
      && var def := FileAt(env, r, a.ctx.sid, x.name, k).value;
         x.after == def.after && x.overlap == def.overlap && x.tags == def.tags
  {
    var w, e, a := r.states[k], r.events[k], ActOf(env, r.states[k], r.events[k]);
    RunTakes(env, r, k);
    MemberFiled(CalmDb(w, e), env.files, a.ctx, a.moments, a.t, a.sel, i);
    SeenOnTrace(env, r, a.ctx.sid, a.sel[i].name, k);
  }

  /** A recorded row is a member of the batch. */
  lemma RowIsMember(env: Env, r: Trace, k: nat, x: nat)
    requires IsRun(env, r) && k < |r.events| && Records(r, k, x)
    ensures var a, n := ActOf(env, r.states[k], r.events[k]), |r.states[k].core.db.runs|;
      && a.Issuing? && x - n < |a.sel|
      && r.states[k + 1].core.db.runs[x] == RunOf(a.ctx.sid, a.sel[x - n], a.t)
  {
    RunsMove(env, r, k);
  }

  lemma TagColumnMeans(sid: Sid, x: Selected, t: int, tag: string)
    requires Columns.Clean(x.tags)
    ensures Carries(RunOf(sid, x, t), tag) <==> tag in x.tags
  {
    Columns.ColumnRoundTrip(x.tags);
  }

  lemma RowSession(env: Env, r: Trace, k: nat, x: nat)
    requires IsRun(env, r) && k < |r.events| && Records(r, k, x)
    ensures var e, run := r.events[k], r.states[k + 1].core.db.runs[x];
      e.Evaluated? && PollSid(r, e.poll, k) == Some(run.sid) && run.at == e.t
  {
    RowIsMember(env, r, k, x);
    IssuesFor(env, r, k);
  }

  lemma RowPath(env: Env, r: Trace, k: nat, x: nat)
    requires IsRun(env, r) && k < |r.events| && Records(r, k, x)
    ensures var run := r.states[k + 1].core.db.runs[x];
      PathAt(r, run.sid, run.fork, k).Some? && PathAt(r, run.sid, run.fork, k).value in env.files
  {
    var a, i, run := ActOf(env, r.states[k], r.events[k]), x - |r.states[k].core.db.runs|, r.states[k + 1].core.db.runs[x];
    RowIsMember(env, r, k, x);
    assert run.sid == a.ctx.sid && run.fork == a.sel[i].name;
    MemberIs(env, r, k, i);
  }

  /** Over every run: a row is recorded by an evaluation, for the session of its poll and at its
      time, and the fork is rostered under a readable file. */
  lemma RowSaysFile(env: Env, r: Trace, k: nat, x: nat)
    requires IsRun(env, r) && k < |r.events| && Records(r, k, x)
    ensures var e, run := r.events[k], r.states[k + 1].core.db.runs[x];
      && e.Evaluated? && PollSid(r, e.poll, k) == Some(run.sid) && run.at == e.t
      && PathAt(r, run.sid, run.fork, k).Some? && PathAt(r, run.sid, run.fork, k).value in env.files
  {
    RowSession(env, r, k, x);
    RowPath(env, r, k, x);
  }

  /** And the tags stored with the row are those of that file. */
  lemma RowKeepsTags(env: Env, r: Trace, k: nat, x: nat, tag: string)
    requires IsRun(env, r) && k < |r.events| && Records(r, k, x) && CleanFiles(env.files)
    ensures var run := r.states[k + 1].core.db.runs[x];
      && PathAt(r, run.sid, run.fork, k).Some? && PathAt(r, run.sid, run.fork, k).value in env.files
      && (Carries(run, tag) <==> tag in env.files[PathAt(r, run.sid, run.fork, k).value].tags)
  {
    var a, n := ActOf(env, r.states[k], r.events[k]), |r.states[k].core.db.runs|;
    RowIsMember(env, r, k, x);
    MemberIs(env, r, k, x - n);
    TagColumnMeans(a.ctx.sid, a.sel[x - n], a.t, tag);
  }

  /** Event `k` recorded run `x`, and the fork's file had the tag then. */
  predicate TaggedBy(env: Env, r: Trace, k: nat, x: nat, run: Run, tag: string)
    requires k < |r.events| < |r.states|
  {
    Records(r, k, x) && FileAt(env, r, run.sid, run.fork, k).Some? && tag in FileAt(env, r, run.sid, run.fork, k).value.tags
  }

  /** The file of the fork run `x` issued had the tag when the run was recorded. */
  ghost predicate Tagged(env: Env, r: Trace, i: nat, x: nat, tag: string)
    requires i <= |r.events| < |r.states| && x < |r.states[i].core.db.runs|
  {
    exists k :: 0 <= k < i && TaggedBy(env, r, k, x, r.states[i].core.db.runs[x], tag)
  }

  /** The stored tags of every run are those its file had at that moment. */
  lemma CarriesFiled(env: Env, r: Trace, i: nat, x: nat, tag: string)
    requires IsRun(env, r) && i <= |r.events| && CleanFiles(env.files) && x < |r.states[i].core.db.runs|
    ensures Carries(r.states[i].core.db.runs[x], tag) <==> Tagged(env, r, i, x, tag)
  {
    var k := RecordedAt(env, r, i, x);
    RunsGrow(env, r, k + 1, i);
    RowKeepsTags(env, r, k, x, tag);
    assert TaggedBy(env, r, k, x, r.states[i].core.db.runs[x], tag) <==> Carries(r.states[i].core.db.runs[x], tag);
  }
}
