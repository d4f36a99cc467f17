/** Wakes cannot feed themselves: the wake answers of a session leg are bounded by what
    genuine activity and the forks' own thresholds allow. */
module Bounds {
  import opened Text
  import opened Store
  import opened Planner
  import opened Core
  import opened Latches
  import opened Budgets
  import opened Ledger
  import opened Acts
  import opened Machine
  import opened Runs
  import Fork
  import Moments
  import Wake

  // ---- what an observer counts along the run ----

  function WakesTo(a: Answer, s: Sid): nat {
    if a.Woke? && a.sid == s then 1 else 0
  }

  /** The wake answers session `s` got since its last close, up to state `i`. */
  ghost function WakesSince(env: Env, r: Trace, s: Sid, i: nat): nat
    requires IsRun(env, r) && i <= |r.events|
  {
    if i == 0 || Closes(r.states[i - 1], r.events[i - 1], s) then 0
    else WakesSince(env, r, s, i - 1) + WakesTo(r.answers[i - 1], s)
  }

  /** How long the runs table was at the last close of session `s`. */
  ghost function RunsAtClose(env: Env, r: Trace, s: Sid, i: nat): nat
    requires IsRun(env, r) && i <= |r.events|
  {
    if i == 0 then 0
    else if Closes(r.states[i - 1], r.events[i - 1], s) then |r.states[i - 1].core.db.runs|
    else RunsAtClose(env, r, s, i - 1)
  }

  /** The pause epoch at the last close of session `s`. */
  ghost function EpochAtClose(env: Env, r: Trace, s: Sid, i: nat): nat
    requires IsRun(env, r) && i <= |r.events|
  {
    if i == 0 then 0
    else if Closes(r.states[i - 1], r.events[i - 1], s) then EpochOf(r.states[i - 1].core.db, s)
    else EpochAtClose(env, r, s, i - 1)
  }

  lemma WakeningAnswers(env: Env, w: World, e: Event, s: Sid)
    requires Snapped(env, w) && Enabled(env, w, e)
    ensures Wakening(ActOf(env, w, e), s) <==> WakesTo(Step(env, w, e).answer, s) == 1
  {
    if e.Evaluated? { assert SnapCurrent(env, w, e.poll); }
  }

  lemma WakesMove(env: Env, r: Trace, s: Sid, k: nat)
    requires IsRun(env, r) && k < |r.events|
    ensures Wakes(r.states[k + 1].core.hist, s) ==
            if Closes(r.states[k], r.events[k], s) then 0 else Wakes(r.states[k].core.hist, s) + WakesTo(r.answers[k], s)
  {
    var w, e := r.states[k], r.events[k];
    RunTakes(env, r, k);
    StepWakes(env.files, w.core, CalmDb(w, e), ActOf(env, w, e), r.states[k + 1].core, s);
    RunInv(env, r, k);
    assert StepAt(env, r, k);
    WakeningAnswers(env, w, e, s);
    ClosesIsClosing(env, w, e, s);
  }

  lemma {:induction false} WakesCounted(env: Env, r: Trace, s: Sid, i: nat)
    requires IsRun(env, r) && i <= |r.events|
    ensures WakesSince(env, r, s, i) == Wakes(r.states[i].core.hist, s)
  {
    if i > 0 {
      WakesCounted(env, r, s, i - 1);
      WakesMove(env, r, s, i - 1);
    }
  }

  lemma ClosingLeg(c: Core, db: Db, d: Core, s: Sid)
    requires Logged(c) && Calm(c.db, db) && d == CloseLeg(Core(db, c.hist), s)
    ensures LegStart(d.hist, s) == |c.db.runs| && LegEpoch(d.hist, s) == EpochOf(c.db, s)
  {}

  lemma LegMoves(env: Env, r: Trace, s: Sid, k: nat)
    requires IsRun(env, r) && k < |r.events|
    ensures LegStart(r.states[k + 1].core.hist, s) ==
            if Closes(r.states[k], r.events[k], s) then |r.states[k].core.db.runs| else LegStart(r.states[k].core.hist, s)
    ensures LegEpoch(r.states[k + 1].core.hist, s) ==
            if Closes(r.states[k], r.events[k], s) then EpochOf(r.states[k].core.db, s) else LegEpoch(r.states[k].core.hist, s)
  {
    var w, e := r.states[k], r.events[k];
    RunTakes(env, r, k);
    ClosesIsClosing(env, w, e, s);
    if Closes(w, e, s) {
      RunInv(env, r, k);
      ClosingLeg(w.core, CalmDb(w, e), r.states[k + 1].core, s);
    } else {
      StepContinues(env.files, w.core, CalmDb(w, e), ActOf(env, w, e), r.states[k + 1].core, s);
    }
  }

  lemma {:induction false} LegsCounted(env: Env, r: Trace, s: Sid, i: nat)
    requires IsRun(env, r) && i <= |r.events|
    ensures RunsAtClose(env, r, s, i) == LegStart(r.states[i].core.hist, s)
    ensures EpochAtClose(env, r, s, i) == LegEpoch(r.states[i].core.hist, s)
  {
    if i > 0 {
      LegsCounted(env, r, s, i - 1);
      LegMoves(env, r, s, i - 1);
    }
  }

  /** The rows of the runs table session `s` got since its last close. */
  ghost function LegRuns(env: Env, r: Trace, s: Sid, i: nat): set<nat>
    requires IsRun(env, r) && i <= |r.events|
  {
    set k: nat | RunsAtClose(env, r, s, i) <= k < |r.states[i].core.db.runs| && r.states[i].core.db.runs[k].sid == s
  }

  lemma LegRunsAreIssues(env: Env, r: Trace, s: Sid, i: nat)
    requires IsRun(env, r) && i <= |r.events|
    ensures LegRuns(env, r, s, i) == LegAll(r.states[i].core.hist, s)
  {
    LegsCounted(env, r, s, i);
    RunInv(env, r, i);
    assert Logged(r.states[i].core);
  }

  // ---- the bound ----

  /** In every state of every run: a session's wake answers since its last close, releases
      included, are at most its issued runs, and those at most the sum over its forks of
      pauses and distinct context thresholds. */
  lemma WakesBounded(env: Env, r: Trace, s: Sid, i: nat)
    requires IsRun(env, r) && i <= |r.events|
    ensures WakesSince(env, r, s, i) <= |LegRuns(env, r, s, i)|
    ensures |LegRuns(env, r, s, i)| <= Budget(env.files, r.states[i].core, s, RosterNames(r.states[i].core.db, s))
  {
    WakesCounted(env, r, s, i);
    LegRunsAreIssues(env, r, s, i);
    RunInv(env, r, i);
    WakesWithinIssues(r.states[i].core, s);
    IssuesBounded(env.files, r.states[i].core, s);
  }

  /** A fork's share of the bound: one issue per pause since the close, one per distinct
      context threshold. */
  lemma ShareOfBound(env: Env, r: Trace, s: Sid, fork: string, i: nat)
    requires IsRun(env, r) && i <= |r.events| && (s, fork) in r.states[i].core.db.roster
    requires r.states[i].core.db.roster[(s, fork)].path in env.files
    ensures ForkBudget(env.files, r.states[i].core, s, fork) ==
            EpochOf(r.states[i].core.db, s) - EpochAtClose(env, r, s, i) + 1 +
            |ContextLabels(env.files[r.states[i].core.db.roster[(s, fork)].path])|
  {
    LegsCounted(env, r, s, i);
    RunInv(env, r, i);
    assert LegEpoch(r.states[i].core.hist, s) <= EpochOf(r.states[i].core.db, s);
  }

  /** A prompt that is the daemon's own wake coming back: a wake reminder, or the
      completion of a recorded fork. */
  predicate Continuation(w: World, e: Event)
    requires e.Prompted?
  {
    if HasIds(e.note) then OwnCompletion(w.core.db, e.sid, e.note, e.tail) else e.waking == Some(false)
  }

  /** The daemon's own wake, handed back as a prompt and however wrapped, is a continuation
      once the hook has classified it. */
  lemma WakeReturnsAsContinuation(w: World, e: Event, before: string, name: string, trigger: string, rest: string,
                                  blocks: seq<string>, closing: string, after: string)
    requires blocks != [] && blocks[0] == Wake.BlockText(name, trigger, rest)
    requires e.Prompted?
    requires Wake.Sniff(e.waking, e.note) == Wake.ClassifyPrompt(Some(before + Wake.PayloadText(blocks, closing) + after))
    ensures Continuation(w, e)
  {
    Wake.WakeIsContinuation(before, name, trigger, rest, blocks, closing, after);
  }

  /** From `i` up to `j` session `s` is not closed and its prompts are all continuations;
      Stops, evaluations and everything in other sessions are unrestricted. */
  ghost predicate OnlyContinues(r: Trace, s: Sid, i: nat, j: nat)
    requires i <= j <= |r.events| < |r.states|
  {
    && StaysOpen(r, s, i, j)
    && forall k :: i <= k < j && r.events[k].Prompted? && r.events[k].sid == s ==> Continuation(r.states[k], r.events[k])
  }

  lemma EpochMoved(env: Env, r: Trace, s: Sid, k: nat)
    requires IsRun(env, r) && k < |r.events|
    ensures EpochOf(r.states[k + 1].core.db, s) == EpochOf(r.states[k].core.db, s) + if Advances(env, r.states[k], r.events[k], s) then 1 else 0
  {
    RunInv(env, r, k);
    assert StepAt(env, r, k);
    EpochMoves(env, r.states[k], r.events[k], s);
  }

  /** Continuations never advance the pause epoch. */
  lemma {:induction false} EpochStays(env: Env, r: Trace, s: Sid, i: nat, j: nat)
    requires IsRun(env, r) && i <= j <= |r.events| && OnlyContinues(r, s, i, j)
    ensures EpochOf(r.states[j].core.db, s) == EpochOf(r.states[i].core.db, s)
    decreases j
  {
    if i < j {
      EpochStays(env, r, s, i, j - 1);
      EpochMoved(env, r, s, j - 1);
    }
  }

  lemma {:induction false} SameBudget(files: Files, c: Core, d: Core, s: Sid, forks: set<string>)
    requires forall f :: f in forks ==> ForkBudget(files, c, s, f) == ForkBudget(files, d, s, f)
    ensures Budget(files, c, s, forks) == Budget(files, d, s, forks)
    decreases forks
  {
    if forks != {} { SameBudget(files, c, d, s, forks - {Some1(forks)}); }
  }

  /** The pauses counted so far in `c`, for the forks rostered in `d`. */
  function WithRoster(c: Core, d: Core): Core {
    Core(c.db.(roster := d.db.roster), c.hist)
  }

  lemma ForkBudgetStays(env: Env, r: Trace, s: Sid, i: nat, j: nat, fork: string)
    requires IsRun(env, r) && i <= j <= |r.events| && OnlyContinues(r, s, i, j)
    ensures ForkBudget(env.files, r.states[j].core, s, fork) ==
            ForkBudget(env.files, WithRoster(r.states[i].core, r.states[j].core), s, fork)
    ensures (s, fork) in r.states[i].core.db.roster ==>
      ForkBudget(env.files, r.states[j].core, s, fork) == ForkBudget(env.files, r.states[i].core, s, fork)
  {
    EpochStays(env, r, s, i, j);
    LegContinues(env, r, s, i, j);
  }

  /** Without genuine activity the bound does not grow, however many Stops occur: at the end
      of the stretch the wakes stay within what the pauses counted at its start allow to the
      forks now rostered, which is the bound at its start unless forks joined the roster. */
  lemma BoundDoesNotGrow(env: Env, r: Trace, s: Sid, i: nat, j: nat)
    requires IsRun(env, r) && i <= j <= |r.events| && OnlyContinues(r, s, i, j)
    ensures WakesSince(env, r, s, j) <=
            Budget(env.files, WithRoster(r.states[i].core, r.states[j].core), s, RosterNames(r.states[j].core.db, s))
    ensures RosterNames(r.states[j].core.db, s) <= RosterNames(r.states[i].core.db, s) ==>
      WakesSince(env, r, s, j) <= Budget(env.files, r.states[i].core, s, RosterNames(r.states[i].core.db, s))
  {
    var c, d := r.states[i].core, r.states[j].core;
    var forks := RosterNames(d.db, s);
    WakesBounded(env, r, s, j);
    forall f | f in forks ensures ForkBudget(env.files, d, s, f) == ForkBudget(env.files, WithRoster(c, d), s, f) {
      ForkBudgetStays(env, r, s, i, j, f);
    }
    SameBudget(env.files, d, WithRoster(c, d), s, forks);
    if forks <= RosterNames(c.db, s) { SameRosterSameBudget(env, r, s, i, j); }
  }

  lemma SameRosterSameBudget(env: Env, r: Trace, s: Sid, i: nat, j: nat)
    requires IsRun(env, r) && i <= j <= |r.events| && OnlyContinues(r, s, i, j)
    requires RosterNames(r.states[j].core.db, s) <= RosterNames(r.states[i].core.db, s)
    ensures Budget(env.files, r.states[j].core, s, RosterNames(r.states[j].core.db, s)) ==
            Budget(env.files, r.states[i].core, s, RosterNames(r.states[i].core.db, s))
  {
    var forks := RosterNames(r.states[i].core.db, s);
    LegContinues(env, r, s, i, j);
    forall f | f in forks
      ensures f in RosterNames(r.states[j].core.db, s)
      ensures ForkBudget(env.files, r.states[i].core, s, f) == ForkBudget(env.files, r.states[j].core, s, f)
    {
      assert (s, f) in r.states[i].core.db.roster;
      ForkBudgetStays(env, r, s, i, j, f);
    }
    assert RosterNames(r.states[j].core.db, s) == forks;
    SameBudget(env.files, r.states[i].core, r.states[j].core, s, forks);
  }

  // ---- once per pause, once per threshold ----

  /** The rows among them that issue one fork. */
  ghost function LegRunsOf(env: Env, r: Trace, s: Sid, fork: string, i: nat): set<nat>
    requires IsRun(env, r) && i <= |r.events|
  {
    set k: nat | k in LegRuns(env, r, s, i) && r.states[i].core.db.runs[k].fork == fork
  }

  lemma SameForks(c: Core, s: Sid, fork: string)
    requires Logged(c)
    ensures (set k: nat | k in LegAll(c.hist, s) && c.db.runs[k].fork == fork) == LegOf(c.hist, s, {fork})
  {}

  /** Since the last close a fork is issued as often as it has latch rows. */
  lemma IssuesAreLatches(env: Env, r: Trace, s: Sid, fork: string, i: nat)
    requires IsRun(env, r) && i <= |r.events|
    ensures |LegRunsOf(env, r, s, fork, i)| == |LatchKeys(r.states[i].core.db, s, fork)|
  {
    var c := r.states[i].core;
    LegRunsAreIssues(env, r, s, i);
    RunInv(env, r, i);
    LatchConservation(env.files, c, s, fork);
    SameForks(c, s, fork);
    assert LegRunsOf(env, r, s, fork, i) == (set k: nat | k in LegAll(c.hist, s) && c.db.runs[k].fork == fork);
  }

  lemma LegRunIsIssue(env: Env, r: Trace, s: Sid, i: nat, a: nat)
    requires IsRun(env, r) && i <= |r.events| && a in LegRuns(env, r, s, i)
    ensures InLeg(r.states[i].core.hist, s, a)
    ensures var c := r.states[i].core;
      c.db.runs[a].fork == c.hist.issues[a].fork && c.db.runs[a].trigger == c.hist.issues[a].trigger
  {
    LegRunsAreIssues(env, r, s, i);
    RunInv(env, r, i);
    assert Logged(r.states[i].core);
  }

  lemma KeyAt(files: Files, c: Core, s: Sid, a: int)
    requires KeysAllowed(files, c) && InLeg(c.hist, s, a)
    ensures !Fork.IdleLabelled(c.hist.issues[a].trigger) ==> c.hist.issues[a].key == c.hist.issues[a].trigger
  {
    assert Rostered(files, c.db, c.hist.issues[a]);
  }

  /** Since the last close a fork is never issued twice for one context threshold. */
  lemma OncePerThreshold(env: Env, r: Trace, s: Sid, i: nat, a: nat, b: nat)
    requires IsRun(env, r) && i <= |r.events|
    requires a in LegRuns(env, r, s, i) && b in LegRuns(env, r, s, i) && a < b
    requires r.states[i].core.db.runs[a].fork == r.states[i].core.db.runs[b].fork
    requires !Fork.IdleLabelled(r.states[i].core.db.runs[a].trigger)
    ensures r.states[i].core.db.runs[a].trigger != r.states[i].core.db.runs[b].trigger
  {
    LegRunIsIssue(env, r, s, i, a);
    LegRunIsIssue(env, r, s, i, b);
    RunInv(env, r, i);
    KeyAt(env.files, r.states[i].core, s, a);
    KeyAt(env.files, r.states[i].core, s, b);
  }

  lemma PickKey(files: Files, db: Db, ctx: Ctx, moments: seq<Moments.Moment>, t: int, sel: seq<Selected>, m: nat)
    requires SoundBatch(db, files, ctx, moments, t, sel) && m < |sel| && Fork.IdleLabelled(sel[m].trigger)
    ensures sel[m].key == Some(Fork.IdleKey(ctx.epoch))
  {
    var def := files[db.roster[(ctx.sid, sel[m].name)].path];
    Moments.MatchSupported(def.runOn, moments, ctx.cfg.defaultIdle);
    Fork.LabelTells(Trigger(def, ctx, moments).value);
  }

  lemma AppendedAt(h: Hist, g: Hist, s: Sid, sel: seq<Selected>, t: int, x: nat)
    requires Appended(h, g, s, sel, t) && |h.issues| <= x < |g.issues|
    ensures var y := sel[x - |h.issues|];
      g.issues[x].sid == s && g.issues[x].trigger == y.trigger && g.issues[x].key == y.key.GetOr("")
  {}

  /** An idle issue consumes the latch of the pause current at that moment. */
  lemma NewIdleKey(files: Files, c: Core, ctx: Ctx, moments: seq<Moments.Moment>, t: int, sel: seq<Selected>, g: Hist, x: nat)
    requires SoundBatch(c.db, files, ctx, moments, t, sel) && Appended(c.hist, g, ctx.sid, sel, t)
    requires |c.hist.issues| <= x < |g.issues| && Fork.IdleLabelled(g.issues[x].trigger)
    ensures g.issues[x].sid == ctx.sid && g.issues[x].key == Fork.IdleKey(ctx.epoch)
  {
    AppendedAt(c.hist, g, ctx.sid, sel, t, x);
    PickKey(files, c.db, ctx, moments, t, sel, x - |c.hist.issues|);
  }

  lemma OnlyIssuesAppend(files: Files, c: Core, db: Db, a: Act, d: Core)
    requires Takes(files, c, db, a, d)
    ensures a.Issuing? || |d.hist.issues| == |c.hist.issues|
  {
    if !a.Issuing? { ActFrames(Core(db, c.hist), a); }
  }

  lemma {:induction false} EpochGrows(env: Env, r: Trace, s: Sid, i: nat, j: nat)
    requires IsRun(env, r) && i <= j <= |r.events|
    ensures EpochOf(r.states[i].core.db, s) <= EpochOf(r.states[j].core.db, s)
    decreases j
  {
    if i < j {
      EpochGrows(env, r, s, i, j - 1);
      EpochMoved(env, r, s, j - 1);
    }
  }

  lemma IdleKeyAt(env: Env, r: Trace, k: nat, x: nat)
    requires IsRun(env, r) && k < |r.events|
    requires |r.states[k].core.hist.issues| <= x < |r.states[k + 1].core.hist.issues|
    requires Fork.IdleLabelled(r.states[k + 1].core.hist.issues[x].trigger)
    ensures var x := r.states[k + 1].core.hist.issues[x]; x.key == Fork.IdleKey(EpochOf(r.states[k].core.db, x.sid))
  {
    var w, e, a := r.states[k], r.events[k], ActOf(env, r.states[k], r.events[k]);
    var mid := Core(CalmDb(w, e), w.core.hist);
    RunTakes(env, r, k);
    OnlyIssuesAppend(env.files, w.core, mid.db, a, r.states[k + 1].core);
    IssueShape(mid, a.ctx.sid, a.sel, a.t);
    NewIdleKey(env.files, mid, a.ctx, a.moments, a.t, a.sel, r.states[k + 1].core.hist, x);
  }

  lemma {:induction false} IdleKeysOfPause(env: Env, r: Trace, s: Sid, i: nat, j: nat, x: nat)
    requires IsRun(env, r) && i <= j <= |r.events| && EpochOf(r.states[i].core.db, s) == EpochOf(r.states[j].core.db, s)
    requires |r.states[i].core.hist.issues| <= x < |r.states[j].core.hist.issues|
    requires r.states[j].core.hist.issues[x].sid == s && Fork.IdleLabelled(r.states[j].core.hist.issues[x].trigger)
    ensures r.states[j].core.hist.issues[x].key == Fork.IdleKey(EpochOf(r.states[i].core.db, s))
    decreases j
  {
    if i < j {
      EpochGrows(env, r, s, i, j - 1);
      EpochGrows(env, r, s, j - 1, j);
      if x < |r.states[j - 1].core.hist.issues| {
        FatesSettle(env, r, j - 1, j);
        IdleKeysOfPause(env, r, s, i, j - 1, x);
      } else {
        IdleKeyAt(env, r, j - 1, x);
      }
    }
  }

  /** Within one pause a fork is issued for idleness at most once, whatever idle deadlines
      it lists: of two runs recorded while the epoch stays the same, one is not idle. */
  lemma OncePerPause(env: Env, r: Trace, s: Sid, i: nat, j: nat, a: nat, b: nat)
    requires IsRun(env, r) && i <= j <= |r.events| && EpochOf(r.states[i].core.db, s) == EpochOf(r.states[j].core.db, s)
    requires a in LegRuns(env, r, s, j) && b in LegRuns(env, r, s, j) && |r.states[i].core.db.runs| <= a < b
    requires r.states[j].core.db.runs[a].fork == r.states[j].core.db.runs[b].fork
    requires Fork.IdleLabelled(r.states[j].core.db.runs[a].trigger)
    ensures !Fork.IdleLabelled(r.states[j].core.db.runs[b].trigger)
  {
    LegRunIsIssue(env, r, s, j, a);
    LegRunIsIssue(env, r, s, j, b);
    RunInv(env, r, i);
    RunInv(env, r, j);
    IdleKeysOfPause(env, r, s, i, j, a);
    if Fork.IdleLabelled(r.states[j].core.db.runs[b].trigger) { IdleKeysOfPause(env, r, s, i, j, b); }
  }
}
