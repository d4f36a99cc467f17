/** Delivery accounting over whole runs: every spawn block the session ever received stands
    for one issue, delivered once. */
module Deliveries {
  import opened Text
  import opened Store
  import opened Planner
  import opened Core
  import opened Ledger
  import Latches
  import opened Acts
  import opened Machine
  import opened Runs
  import opened Bounds
  import Columns
  import Schedule

  /** How many blocks name the fork. */
  function BlocksFor(blocks: seq<Block>, fork: string): nat {
    if blocks == [] then 0
    else BlocksFor(blocks[..|blocks| - 1], fork) + if blocks[|blocks| - 1].name == fork then 1 else 0
  }

  lemma BlocksSnoc(blocks: seq<Block>, b: Block, fork: string)
    ensures BlocksFor(blocks + [b], fork) == BlocksFor(blocks, fork) + if b.name == fork then 1 else 0
  {
    assert (blocks + [b])[..|blocks|] == blocks;
  }

  ghost predicate RootNamed(sel: seq<Selected>, deps: Schedule.Graph, n: nat, fork: string)
    requires n <= |sel| == |deps|
  {
    exists i :: 0 <= i < n && deps[i] == [] && sel[i].name == fork
  }

  /** A wake names each of its roots once and nothing else. */
  lemma {:induction false} RootBlocksCount(sel: seq<Selected>, deps: Schedule.Graph, n: nat, fork: string)
    requires n <= |sel| == |deps| && DistinctNames(sel)
    ensures BlocksFor(RootBlocks(sel, deps, n), fork) == if RootNamed(sel, deps, n, fork) then 1 else 0
  {
    if n > 0 {
      RootBlocksCount(sel, deps, n - 1, fork);
      if deps[n - 1] == [] {
        BlocksSnoc(RootBlocks(sel, deps, n - 1), RootBlock(sel[n - 1]), fork);
      } else {
        assert RootBlocks(sel, deps, n) == RootBlocks(sel, deps, n - 1);
      }
    }
  }

  lemma IssueBlocks(sel: seq<Selected>, fork: string)
    requires DistinctNames(sel)
    ensures BlocksFor(RootBlocks(sel, Deps(sel), |sel|), fork) == if fork in RootNames(sel, Deps(sel)) then 1 else 0
  {
    RootBlocksCount(sel, Deps(sel), |sel|, fork);
  }

  /** A release names each released dependent once and nothing else. */
  lemma {:induction false} ReleaseBlocksCount(db: Db, s: Sid, order: seq<string>, fork: string)
    requires Columns.Distinct(order)
    ensures BlocksFor(ReleaseBlocks(db, s, order), fork) == if fork in order && Releases(db, s, fork) then 1 else 0
  {
    if order != [] {
      var front, last := order[..|order| - 1], order[|order| - 1];
      assert fork in order <==> fork in front || fork == last;
      ReleaseBlocksCount(db, s, front, fork);
      if Releases(db, s, last) {
        BlocksSnoc(ReleaseBlocks(db, s, front), ReleaseBlock(last, db.pending[(s, last)]), fork);
      } else {
        assert ReleaseBlocks(db, s, order) == ReleaseBlocks(db, s, front);
      }
    }
  }

  /** The blocks for the fork that an answer brings to session `s`. */
  function BlocksTo(a: Answer, s: Sid, fork: string): nat {
    if a.Woke? && a.sid == s then BlocksFor(a.blocks, fork) else 0
  }

  lemma StopBlocks(env: Env, w: World, e: Event, s: Sid, fork: string)
    requires e.Stopped? && Enabled(env, w, e)
    ensures BlocksTo(DoStop(env, w, e).answer, s, fork) ==
            if fork in Handed(CalmDb(w, e), ActOf(env, w, e), s) then 1 else 0
  {
    var db := StopDb(w.core.db, e);
    ReleaseBlocksCount(db, e.sid, e.order, fork);
    ReleasedMeans(db, e.sid, fork);
  }

  lemma EvaluateAnswer(env: Env, w: World, e: Event)
    requires MayEvaluate(w, e)
    ensures match ActOf(env, w, e)
      case Issuing(ctx, _, _, sel) =>
        DistinctNames(sel) && DoEvaluate(env, w, e).answer == Woke(ctx.sid, RootBlocks(sel, Deps(sel), |sel|))
      case a => a == Nothing && DoEvaluate(env, w, e).answer == Quiet
  {
    BatchIsSound(env, CalmDb(w, e), w.snaps[e.poll], e.order, e.t);
  }

  lemma EvaluateBlocks(env: Env, w: World, e: Event, s: Sid, fork: string)
    requires MayEvaluate(w, e)
    ensures BlocksTo(DoEvaluate(env, w, e).answer, s, fork) ==
            if fork in Handed(CalmDb(w, e), ActOf(env, w, e), s) then 1 else 0
  {
    EvaluateAnswer(env, w, e);
    var a, answer := ActOf(env, w, e), DoEvaluate(env, w, e).answer;
    if a.Issuing? { IssueBlocks(a.sel, fork); }
  }

  /** An answer carries one block for every fork the step hands over. */
  lemma AnswerHands(env: Env, w: World, e: Event, s: Sid, fork: string)
    requires Enabled(env, w, e)
    ensures BlocksTo(Step(env, w, e).answer, s, fork) == if fork in Handed(CalmDb(w, e), ActOf(env, w, e), s) then 1 else 0
  {
    if e.Stopped? { StopBlocks(env, w, e, s, fork); }
    if e.Evaluated? { EvaluateBlocks(env, w, e, s, fork); }
  }

  /** Every wake answer of every run hands something over: a wake never consists of held
      forks only, and a release is never empty. */
  lemma WakesCarryBlocks(env: Env, r: Trace, k: nat)
    requires IsRun(env, r) && k < |r.events| && r.answers[k].Woke?
    ensures r.answers[k].blocks != []
  {
    var w, e := r.states[k], r.events[k];
    assert StepAt(env, r, k);
    if e.Stopped? {
      ReleaseIsSome(StopDb(w.core.db, e), e.sid, e.order);
    } else {
      EvaluateAnswer(env, w, e);
      var _ := IssueHasRoot(ActOf(env, w, e).sel);
    }
  }

  /** The spawn blocks for a fork that session `s` received up to state `i`. */
  function BlocksReceived(answers: seq<Answer>, s: Sid, fork: string, i: nat): nat
    requires i <= |answers|
  {
    if i == 0 then 0 else BlocksReceived(answers, s, fork, i - 1) + BlocksTo(answers[i - 1], s, fork)
  }

  lemma DeliveredMoves(env: Env, r: Trace, s: Sid, fork: string, k: nat)
    requires IsRun(env, r) && k < |r.events|
    ensures |DeliveredOf(r.states[k + 1].core.hist, s, fork)| ==
            |DeliveredOf(r.states[k].core.hist, s, fork)| + BlocksTo(r.answers[k], s, fork)
  {
    var w, e := r.states[k], r.events[k];
    RunTakes(env, r, k);
    RunInv(env, r, k);
    StepDelivers(env.files, w.core, CalmDb(w, e), ActOf(env, w, e), r.states[k + 1].core, s, fork);
    assert StepAt(env, r, k);
    AnswerHands(env, w, e, s, fork);
  }

  /** The blocks received are exactly the issues with fate `Delivered`: none is delivered
      twice, none counts as delivered without a block. */
  lemma {:induction false} BlocksAreDeliveries(env: Env, r: Trace, s: Sid, fork: string, i: nat)
    requires IsRun(env, r) && i <= |r.events|
    ensures BlocksReceived(r.answers, s, fork, i) == |DeliveredOf(r.states[i].core.hist, s, fork)|
  {
    if i > 0 {
      BlocksAreDeliveries(env, r, s, fork, i - 1);
      DeliveredMoves(env, r, s, fork, i - 1);
    }
  }

  // ---- held and never delivered ----

  /** Rows from `n` on include a run of the fork for session `s`. */
  predicate RecordsRun(runs: seq<Run>, n: nat, s: Sid, fork: string) {
    exists x :: n <= x < |runs| && runs[x].sid == s && runs[x].fork == fork
  }

  /** Event `k` records a run of the fork for session `s`. */
  predicate IssuedAt(r: Trace, k: nat, s: Sid, fork: string)
    requires k + 1 < |r.states|
  {
    RecordsRun(r.states[k + 1].core.db.runs, |r.states[k].core.db.runs|, s, fork)
  }

  /** Event `k` finds the fork held and closes the session or is its genuine prompt. */
  ghost predicate DropsAt(env: Env, r: Trace, k: nat, s: Sid, fork: string)
    requires k < |r.events| && k < |r.states|
  {
    && (s, fork) in r.states[k].core.db.pending
    && (Closes(r.states[k], r.events[k], s) || Advances(env, r.states[k], r.events[k], s))
  }

  /** Event `k` finds the fork held and issues it again without a block for it, so that the
      pending row is overwritten. */
  ghost predicate SupersedesAt(r: Trace, k: nat, s: Sid, fork: string)
    requires k + 1 < |r.states| && k < |r.answers|
  {
    (s, fork) in r.states[k].core.db.pending && IssuedAt(r, k, s, fork) && BlocksTo(r.answers[k], s, fork) == 0
  }

  ghost function Drops(env: Env, r: Trace, s: Sid, fork: string, i: nat): nat
    requires i <= |r.events| && |r.events| < |r.states|
  {
    if i == 0 then 0 else Drops(env, r, s, fork, i - 1) + if DropsAt(env, r, i - 1, s, fork) then 1 else 0
  }

  ghost function Supersedes(r: Trace, s: Sid, fork: string, i: nat): nat
    requires i <= |r.answers| && |r.answers| < |r.states|
  {
    if i == 0 then 0 else Supersedes(r, s, fork, i - 1) + if SupersedesAt(r, i - 1, s, fork) then 1 else 0
  }

  lemma OthersRecord(c: Core, a: Act)
    requires !a.Issuing?
    ensures Apply(c, a).db.runs == c.db.runs
  {}

  lemma BatchRuns(c: Core, a: Act)
    requires a.Issuing? && DistinctNames(a.sel)
    ensures Apply(c, a).db.runs == c.db.runs + RunRows(a.ctx.sid, a.sel, a.t, |a.sel|)
  {
    IssueShape(c, a.ctx.sid, a.sel, a.t);
  }

  ghost predicate Member(sel: seq<Selected>, fork: string) {
    exists m :: 0 <= m < |sel| && sel[m].name == fork
  }

  lemma BatchRecords(runs: seq<Run>, r: Sid, sel: seq<Selected>, t: int, s: Sid, fork: string)
    ensures RecordsRun(runs + RunRows(r, sel, t, |sel|), |runs|, s, fork) <==> r == s && Member(sel, fork)
  {
    var all, n := runs + RunRows(r, sel, t, |sel|), |runs|;
    if r == s && Member(sel, fork) {
      var m :| 0 <= m < |sel| && sel[m].name == fork;
      assert all[n + m] == RunOf(r, sel[m], t);
    }
    if RecordsRun(all, n, s, fork) {
      var x :| n <= x < |all| && all[x].sid == s && all[x].fork == fork;
      assert all[x] == RunOf(r, sel[x - n], t);
    }
  }

  lemma ActRecords(c: Core, a: Act, s: Sid, fork: string)
    requires a.Issuing? ==> DistinctNames(a.sel)
    ensures RecordsRun(Apply(c, a).db.runs, |c.db.runs|, s, fork) <==> a.Issuing? && a.ctx.sid == s && Member(a.sel, fork)
  {
    if a.Issuing? {
      BatchRuns(c, a);
      BatchRecords(c.db.runs, a.ctx.sid, a.sel, a.t, s, fork);
    } else {
      OthersRecord(c, a);
    }
  }

  /** A step records a run of exactly the members of the batch it issues. */
  lemma IssuedMeans(env: Env, r: Trace, k: nat, s: Sid, fork: string)
    requires IsRun(env, r) && k < |r.events|
    ensures var a := ActOf(env, r.states[k], r.events[k]);
      IssuedAt(r, k, s, fork) <==> a.Issuing? && a.ctx.sid == s && Member(a.sel, fork)
  {
    var w, a := r.states[k], ActOf(env, r.states[k], r.events[k]);
    RunTakes(env, r, k);
    ActRecords(Core(CalmDb(w, r.events[k]), w.core.hist), a, s, fork);
  }

  lemma RootOrHeld(sel: seq<Selected>, deps: Schedule.Graph, fork: string)
    requires |sel| == |deps| && DistinctNames(sel)
    ensures fork in HeldNames(sel, deps) <==>
      Member(sel, fork) && fork !in RootNames(sel, deps)
  {}

  lemma SupersedeMeans(env: Env, r: Trace, k: nat, s: Sid, fork: string)
    requires IsRun(env, r) && k < |r.events|
    ensures SupersedesAt(r, k, s, fork) <==>
      (s, fork) in r.states[k].core.db.pending && Overwrites(ActOf(env, r.states[k], r.events[k]), s, fork)
  {
    var a := ActOf(env, r.states[k], r.events[k]);
    IssuedMeans(env, r, k, s, fork);
    RunTakes(env, r, k);
    assert StepAt(env, r, k);
    AnswerHands(env, r.states[k], r.events[k], s, fork);
    if a.Issuing? && a.ctx.sid == s { RootOrHeld(a.sel, Deps(a.sel), fork); }
  }

  lemma DropMeans(env: Env, r: Trace, k: nat, s: Sid, fork: string)
    requires IsRun(env, r) && k < |r.events|
    ensures DropsAt(env, r, k, s, fork) <==>
      (s, fork) in r.states[k].core.db.pending &&
      (ActOf(env, r.states[k], r.events[k]) == Bumping(s) || ActOf(env, r.states[k], r.events[k]) == Closing(s))
  {
    ClosesIsClosing(env, r.states[k], r.events[k], s);
  }

  lemma LossMoves(env: Env, r: Trace, s: Sid, fork: string, k: nat)
    requires IsRun(env, r) && k < |r.events|
    ensures |WithFate(r.states[k + 1].core.hist, s, fork, Dropped)| ==
            |WithFate(r.states[k].core.hist, s, fork, Dropped)| + if DropsAt(env, r, k, s, fork) then 1 else 0
    ensures |WithFate(r.states[k + 1].core.hist, s, fork, Superseded)| ==
            |WithFate(r.states[k].core.hist, s, fork, Superseded)| + if SupersedesAt(r, k, s, fork) then 1 else 0
  {
    var w, e := r.states[k], r.events[k];
    DropMeans(env, r, k, s, fork);
    SupersedeMeans(env, r, k, s, fork);
    RunTakes(env, r, k);
    RunInv(env, r, k);
    StepLoses(env.files, w.core, CalmDb(w, e), ActOf(env, w, e), r.states[k + 1].core, s, fork);
  }

  /** The dropped and superseded issues are exactly the events that drop and supersede. */
  lemma {:induction false} LossesCounted(env: Env, r: Trace, s: Sid, fork: string, i: nat)
    requires IsRun(env, r) && i <= |r.events|
    ensures Drops(env, r, s, fork, i) == |WithFate(r.states[i].core.hist, s, fork, Dropped)|
    ensures Supersedes(r, s, fork, i) == |WithFate(r.states[i].core.hist, s, fork, Superseded)|
  {
    if i > 0 {
      LossesCounted(env, r, s, fork, i - 1);
      LossMoves(env, r, s, fork, i - 1);
    }
  }

  /** The rows of the runs table that issue the fork. */
  function RunsOf(db: Db, s: Sid, fork: string): set<nat> {
    set k: nat | k < |db.runs| && db.runs[k].sid == s && db.runs[k].fork == fork
  }

  lemma RunsAreIssues(c: Core, s: Sid, fork: string)
    requires Latches.Logged(c)
    ensures RunsOf(c.db, s, fork) == IssuesOf(c.hist, s, fork)
  {}

  /** Over every run, counted on its tables, events and answers: the runs of a fork = spawn
      blocks received, as root or by release, + row still pending + times it was held when
      its session closed or saw genuine activity + times it was held when a newer wake held
      it again. */
  lemma DeliveryAccounting(env: Env, r: Trace, s: Sid, fork: string, i: nat)
    requires IsRun(env, r) && i <= |r.events|
    ensures |RunsOf(r.states[i].core.db, s, fork)| ==
      BlocksReceived(r.answers, s, fork, i) + (if (s, fork) in r.states[i].core.db.pending then 1 else 0) +
      Drops(env, r, s, fork, i) + Supersedes(r, s, fork, i)
  {
    RunInv(env, r, i);
    Accounting(r.states[i].core, s, fork);
    BlocksAreDeliveries(env, r, s, fork, i);
    LossesCounted(env, r, s, fork, i);
    RunsAreIssues(r.states[i].core, s, fork);
  }
}
