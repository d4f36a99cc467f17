/** Held dependents drain, in every run whose batches store their predecessors' names
    faithfully. */
module Draining {
  import opened Text
  import opened Registry
  import opened Store
  import opened Planner
  import opened Core
  import opened Ledger
  import opened Progress
  import opened Acts
  import opened Machine
  import opened Runs
  import Columns
  import Schedule

  /** Every batch issued to session `s` stores its dependents' predecessors faithfully. */
  ghost predicate StorableRun(env: Env, r: Trace, s: Sid) {
    IsRun(env, r) && forall k :: 0 <= k < |r.events| ==> PredsStorable(ActOf(env, r.states[k], r.events[k]), s)
  }

  /** The names fork files mention under `after` are nonempty, trimmed and free of commas. */
  ghost predicate CleanAfter(files: Files) {
    forall path, k :: path in files && 0 <= k < |files[path].after| ==> Columns.CleanTag(files[path].after[k])
  }

  /** A predecessor's name is one its dependent mentions. */
  lemma PredIsMentioned(sel: seq<Selected>, i: nat, d: nat)
    requires i < |sel| && d in Deps(sel)[i]
    ensures sel[d].name in sel[i].after
  {
    var g := Schedule.NameGraph(Nodes(sel));
    Schedule.NameGraphWellIndexed(Nodes(sel));
    Schedule.ResolveIsSpared(g, i);
    assert d in g[i];
    var k :| 0 <= k < |g[i]| && g[i][k] == d;
    assert d in Schedule.Targets(Nodes(sel), sel[i].after, i);
  }

  lemma MentionsSuffice(files: Files, c: Core, a: Act)
    requires a.Issuing? && Permitted(files, c, a) && CleanAfter(files)
    ensures BatchStorable(a.sel, Deps(a.sel))
  {
    forall i | 0 <= i < |a.sel| ensures Columns.Storable(Preds(a.sel, Deps(a.sel)[i])) {
      var preds := Preds(a.sel, Deps(a.sel)[i]);
      forall k | 0 <= k < |preds| ensures Columns.CleanTag(preds[k]) {
        PredIsMentioned(a.sel, i, Deps(a.sel)[i][k]);
        assert a.sel[i].after == files[a.sel[i].path].after;
      }
      Columns.CleanIsStorable(preds);
    }
  }

  /** So clean `after` lists make every run storable, whatever forks are discovered. */
  lemma CleanAfterSuffices(env: Env, r: Trace, s: Sid)
    requires IsRun(env, r) && CleanAfter(env.files)
    ensures StorableRun(env, r, s)
  {
    forall k | 0 <= k < |r.events| ensures PredsStorable(ActOf(env, r.states[k], r.events[k]), s) {
      var w, a := r.states[k], ActOf(env, r.states[k], r.events[k]);
      RunTakes(env, r, k);
      if a.Issuing? { MentionsSuffice(env.files, Core(CalmDb(w, r.events[k]), w.core.hist), a); }
    }
  }

  lemma ProgressMoves(env: Env, r: Trace, s: Sid, k: nat)
    requires IsRun(env, r) && k < |r.events| && PredsStorable(ActOf(env, r.states[k], r.events[k]), s)
    requires ProgressInv(r.states[k].core, s)
    ensures ProgressInv(r.states[k + 1].core, s)
  {
    var w, e := r.states[k], r.events[k];
    RunTakes(env, r, k);
    RunInv(env, r, k);
    StepProgress(env.files, w.core, CalmDb(w, e), ActOf(env, w, e), r.states[k + 1].core, s);
  }

  lemma {:induction false} RunProgress(env: Env, r: Trace, s: Sid, i: nat)
    requires StorableRun(env, r, s) && i <= |r.events|
    ensures ProgressInv(r.states[i].core, s)
  {
    if i == 0 {
      ProgressInitial(s);
    } else {
      RunProgress(env, r, s, i - 1);
      ProgressMoves(env, r, s, i - 1);
    }
  }

  /** Event `k` is a Stop of `s` that, having read the transcript, knows a completion since
      the hold for every fork handed over since a dependent's hold. */
  ghost predicate SeeingStop(r: Trace, k: nat, s: Sid)
    requires k < |r.events| && k < |r.states|
  {
    && r.events[k].Stopped? && r.events[k].sid == s
    && CompletionsRecorded(Core(StopDb(r.states[k].core.db, r.events[k]), r.states[k].core.hist), s)
  }

  lemma StopProgress(env: Env, w: World, e: Event)
    requires e.Stopped? && Enabled(env, w, e) && ProgressInv(w.core, e.sid) && Balanced(w.core.db, w.core.hist)
    requires CompletionsRecorded(Core(StopDb(w.core.db, e), w.core.hist), e.sid) && PendingNames(w.core.db, e.sid) != {}
    ensures Released(StopDb(w.core.db, e), e.sid) != {}
    ensures DoStop(env, w, e).answer.Woke?
    ensures |PendingNames(DoStop(env, w, e).world.core.db, e.sid)| < |PendingNames(w.core.db, e.sid)|
  {
    var c := Core(StopDb(w.core.db, e), w.core.hist);
    StopCalm(w.core.db, e);
    CalmProgress(w.core, c.db, e.sid);
    assert PendingNames(c.db, e.sid) == PendingNames(w.core.db, e.sid);
    NeverDeadlocked(c, e.sid);
    ReleaseShrinks(c, e.sid);
  }

  /** Held dependents never deadlock: in every run, a Stop that has seen all completions
      while dependents are held is answered with a release, and fewer remain. */
  lemma StopReleases(env: Env, r: Trace, s: Sid, k: nat)
    requires StorableRun(env, r, s) && k < |r.events| && SeeingStop(r, k, s)
    requires PendingNames(r.states[k].core.db, s) != {}
    ensures r.answers[k].Woke? && r.answers[k].sid == s
    ensures |PendingNames(r.states[k + 1].core.db, s)| < |PendingNames(r.states[k].core.db, s)|
  {
    RunProgress(env, r, s, k);
    RunInv(env, r, k);
    assert StepAt(env, r, k);
    StopProgress(env, r.states[k], r.events[k]);
  }

  // ---- draining ----

  /** The event issues a wake to session `s`. */
  predicate IssuesTo(r: Trace, k: nat, s: Sid)
    requires k < |r.events| && k < |r.answers|
  {
    r.events[k].Evaluated? && r.answers[k].Woke? && r.answers[k].sid == s
  }

  ghost function SeeingStops(r: Trace, s: Sid, i: nat, j: nat): nat
    requires i <= j <= |r.events| && |r.events| <= |r.states|
  {
    if i == j then 0 else SeeingStops(r, s, i, j - 1) + if SeeingStop(r, j - 1, s) then 1 else 0
  }

  lemma NoNewRows(files: Files, c: Core, db: Db, a: Act, d: Core, s: Sid)
    requires Takes(files, c, db, a, d) && !(a.Issuing? && a.ctx.sid == s)
    ensures PendingNames(d.db, s) <= PendingNames(c.db, s)
  {
    forall name | name in PendingNames(d.db, s) ensures name in PendingNames(c.db, s) {
      assert (s, name) in d.db.pending;
      if a.Issuing? { HeldRowsMeans(a.ctx.sid, a.sel, Deps(a.sel), a.t, (s, name)); }
      assert (s, name) in c.db.pending;
    }
  }

  lemma IssuesToMeans(env: Env, r: Trace, k: nat, s: Sid)
    requires IsRun(env, r) && k < |r.events|
    ensures IssuesTo(r, k, s) <==> ActOf(env, r.states[k], r.events[k]).Issuing? && ActOf(env, r.states[k], r.events[k]).ctx.sid == s
  {
    assert StepAt(env, r, k);
  }

  lemma DrainMoves(env: Env, r: Trace, s: Sid, k: nat)
    requires StorableRun(env, r, s) && k < |r.events| && !IssuesTo(r, k, s)
    ensures var n, m := |PendingNames(r.states[k].core.db, s)|, |PendingNames(r.states[k + 1].core.db, s)|;
      m <= n && (m + (if SeeingStop(r, k, s) then 1 else 0) <= n || m == 0)
  {
    var w, e := r.states[k], r.events[k];
    RunTakes(env, r, k);
    IssuesToMeans(env, r, k, s);
    NoNewRows(env.files, w.core, CalmDb(w, e), ActOf(env, w, e), r.states[k + 1].core, s);
    Schedule.SubsetSize(PendingNames(r.states[k + 1].core.db, s), PendingNames(w.core.db, s));
    if SeeingStop(r, k, s) && PendingNames(w.core.db, s) != {} { StopReleases(env, r, s, k); }
  }

  lemma {:induction false} DrainCount(env: Env, r: Trace, s: Sid, i: nat, j: nat)
    requires StorableRun(env, r, s) && i <= j <= |r.events|
    requires forall k :: i <= k < j ==> !IssuesTo(r, k, s)
    ensures var n, m := |PendingNames(r.states[i].core.db, s)|, |PendingNames(r.states[j].core.db, s)|;
      m + SeeingStops(r, s, i, j) <= n || m == 0
    decreases j
  {
    if i < j {
      DrainCount(env, r, s, i, j - 1);
      DrainMoves(env, r, s, j - 1);
    }
  }

  /** From any state on, as long as no new wake is issued to the session, `n` held forks
      are gone after at most `n` Stops that have seen the completions of what was handed
      over. Any other events may come between, Stops that have not seen them included. */
  lemma HeldForksDrain(env: Env, r: Trace, s: Sid, i: nat, j: nat)
    requires StorableRun(env, r, s) && i <= j <= |r.events|
    requires forall k :: i <= k < j ==> !IssuesTo(r, k, s)
    ensures |PendingNames(r.states[j].core.db, s)| + SeeingStops(r, s, i, j) <= |PendingNames(r.states[i].core.db, s)| ||
            PendingNames(r.states[j].core.db, s) == {}
  {
    DrainCount(env, r, s, i, j);
  }
}
