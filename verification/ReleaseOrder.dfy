/** Release safety: a dependent is handed over only after its predecessors finished, and,
    when no older run can be mistaken for theirs, after they were handed over. */
module ReleaseOrder {
  import opened Text
  import opened Notification
  import opened Registry
  import opened Store
  import opened Planner
  import opened Core
  import opened Ledger
  import opened Progress
  import opened Acts
  import opened Machine
  import opened Runs
  import opened Deliveries
  import opened Draining
  import Columns
  import Schedule

  // ---- completion before release ----

  lemma {:induction false} BlockIsReleased(db: Db, s: Sid, order: seq<string>, b: Block)
    requires b in ReleaseBlocks(db, s, order)
    ensures Releases(db, s, b.name) && b == ReleaseBlock(b.name, db.pending[(s, b.name)])
  {
    var front, last := order[..|order| - 1], order[|order| - 1];
    if b in ReleaseBlocks(db, s, front) { BlockIsReleased(db, s, front, b); }
  }

  /** The tables a Stop decides on. */
  function StopView(r: Trace, k: nat): Db
    requires k < |r.events| && k < |r.states| && r.events[k].Stopped?
  {
    StopDb(r.states[k].core.db, r.events[k])
  }

  /** In every run, a released fork was held, and each predecessor recorded with the hold
      has a spawn whose terminal stamp is at or after it. */
  lemma ReleaseIsSafe(env: Env, r: Trace, k: nat, b: Block, p: string)
    requires IsRun(env, r) && k < |r.events| && r.events[k].Stopped?
    requires r.answers[k].Woke? && b in r.answers[k].blocks && p in b.after
    ensures (r.events[k].sid, b.name) in r.states[k].core.db.pending
    ensures var reg, row := SpawnsOf(StopView(r, k), r.events[k].sid), r.states[k].core.db.pending[(r.events[k].sid, b.name)];
      exists id :: id in reg && FinishedSince(reg[id], p, row.createdAt)
  {
    assert StepAt(env, r, k);
    StopCalm(r.states[k].core.db, r.events[k]);
    BlockIsReleased(StopView(r, k), r.events[k].sid, r.events[k].order, b);
  }

  /** Once recorded, a spawn's status, terminal time and task id never change until the
      session closes. */
  lemma SpawnsPersist(env: Env, r: Trace, s: Sid, i: nat, j: nat, id: string)
    requires IsRun(env, r) && i <= j <= |r.events| && StaysOpen(r, s, i, j) && id in SpawnsOf(r.states[i].core.db, s)
    ensures id in SpawnsOf(r.states[j].core.db, s)
    ensures var a, b := SpawnsOf(r.states[i].core.db, s)[id], SpawnsOf(r.states[j].core.db, s)[id];
      && b.name == a.name && (a.task.Some? ==> b.task == a.task)
      && (a.status != Spawned ==> b.status == a.status && b.terminalAt == a.terminalAt)
  {
    LegContinues(env, r, s, i, j);
  }

  // ---- holds that last ----

  lemma IssueHoldStays(h: Hist, s: Sid, sel: seq<Selected>, deps: Schedule.Graph, rank: seq<nat>, t: int, q: Key)
    requires |sel| == |deps| == |rank| && DistinctNames(sel)
    requires q in IssueHist(h, s, sel, deps, rank, t).holds && IssueHist(h, s, sel, deps, rank, t).holds[q].issue < |h.issues|
    ensures q in h.holds && IssueHist(h, s, sel, deps, rank, t).holds[q] == h.holds[q]
    ensures !(q.0 == s && q.1 in HeldNames(sel, deps))
  {
    IssueEnters(h, s, sel, deps, rank, t);
    EnteredKeys(Settle(h, s, HeldNames(sel, deps), Superseded), IssueHist(h, s, sel, deps, rank, t), s, sel, deps, rank, q);
  }

  /** A hold that is not new was there before, with the same row. */
  lemma HoldStays(files: Files, c: Core, db: Db, a: Act, d: Core, q: Key)
    requires Takes(files, c, db, a, d) && c.hist.holds.Keys == c.db.pending.Keys
    requires q in d.hist.holds && d.hist.holds[q].issue < |c.hist.issues|
    ensures q in c.hist.holds && d.hist.holds[q] == c.hist.holds[q]
    ensures q in d.db.pending ==> d.db.pending[q] == c.db.pending[q]
  {
    if a.Issuing? {
      IssueHoldStays(c.hist, a.ctx.sid, a.sel, Deps(a.sel), Schedule.Rank(Deps(a.sel)), a.t, q);
      HeldRowsMeans(a.ctx.sid, a.sel, Deps(a.sel), a.t, q);
    }
  }

  /** As long as a fork is held for the same issue, its pending row is unchanged. */
  lemma {:induction false} RowLasts(env: Env, r: Trace, q: Key, i: nat, j: nat)
    requires IsRun(env, r) && i <= j <= |r.events|
    requires q in r.states[j].core.hist.holds && r.states[j].core.hist.holds[q].issue < |r.states[i].core.hist.issues|
    ensures q in r.states[i].core.hist.holds && r.states[i].core.hist.holds[q] == r.states[j].core.hist.holds[q]
    ensures q in r.states[i].core.db.pending && q in r.states[j].core.db.pending
    ensures r.states[i].core.db.pending[q] == r.states[j].core.db.pending[q]
    decreases j
  {
    HeldKeys(env, r, j);
    if i < j {
      FatesSettle(env, r, i, j - 1);
      HoldLasts(env, r, q, j - 1);
      RowLasts(env, r, q, i, j - 1);
    }
  }

  lemma HeldKeys(env: Env, r: Trace, i: nat)
    requires IsRun(env, r) && i <= |r.events|
    ensures r.states[i].core.hist.holds.Keys == r.states[i].core.db.pending.Keys
  {
    RunInv(env, r, i);
  }

  lemma HoldLasts(env: Env, r: Trace, q: Key, k: nat)
    requires IsRun(env, r) && k < |r.events|
    requires q in r.states[k + 1].core.hist.holds
    requires r.states[k + 1].core.hist.holds[q].issue < |r.states[k].core.hist.issues|
    ensures q in r.states[k].core.hist.holds && r.states[k].core.hist.holds[q] == r.states[k + 1].core.hist.holds[q]
    ensures q in r.states[k].core.db.pending && q in r.states[k + 1].core.db.pending
    ensures r.states[k].core.db.pending[q] == r.states[k + 1].core.db.pending[q]
  {
    RunTakes(env, r, k);
    HeldKeys(env, r, k);
    HeldKeys(env, r, k + 1);
    HoldStays(env.files, r.states[k].core, CalmDb(r.states[k], r.events[k]), ActOf(env, r.states[k], r.events[k]),
              r.states[k + 1].core, q);
  }

  // ---- delivery in dependency order ----

  /** The recorded spawns of one fork. */
  function SpawnIds(reg: Spawns, p: string): set<string> {
    set id | id in reg && reg[id].name == Some(p)
  }

  /** The leg's delivered issues of one fork. */
  ghost function LegDelivered(h: Hist, s: Sid, p: string): set<nat> {
    set i | i in DeliveredOf(h, s, p) && LegStart(h, s) <= i
  }

  /** Everything handed over so far was spawned and had finished before `t`. */
  ghost predicate AllSettled(c: Core, s: Sid, p: string, t: int) {
    var reg := SpawnsOf(c.db, s);
    && |SpawnIds(reg, p)| == |LegDelivered(c.hist, s, p)|
    && forall id :: id in SpawnIds(reg, p) ==>
         reg[id].status != Spawned && (reg[id].terminalAt.Some? ==> reg[id].terminalAt.value < t)
  }

  /** The session spawns a fork only when told to. */
  ghost predicate Honest(reg: Spawns, h: Hist, s: Sid, p: string) {
    |SpawnIds(reg, p)| <= |LegDelivered(h, s, p)|
  }

  /** A completion since `t` must then come from a spawn recorded later. */
  lemma NewSpawn(a: Spawns, b: Spawns, p: string, t: int)
    requires Evolves(a, b) && CompletedSince(b, p, t)
    requires forall id :: id in SpawnIds(a, p) ==> a[id].status != Spawned && (a[id].terminalAt.Some? ==> a[id].terminalAt.value < t)
    ensures |SpawnIds(a, p)| < |SpawnIds(b, p)|
  {
    var id :| id in b && FinishedSince(b[id], p, t);
    assert id !in SpawnIds(a, p);
    assert SpawnIds(a, p) <= SpawnIds(b, p);
    Schedule.SubsetSize(SpawnIds(a, p) + {id}, SpawnIds(b, p));
  }

  lemma Extra(a: set<nat>, b: set<nat>) returns (x: nat)
    requires |a| < |b|
    ensures x in b && x !in a
  {
    if b <= a {
      Schedule.SubsetSize(b, a);
      assert false;
    }
    x :| x in b && x !in a;
  }

  lemma MoreThanBefore(h: Hist, g: Hist, s: Sid, p: string)
    requires FatesKept(h, g) && LegStart(g, s) == LegStart(h, s) && |LegDelivered(h, s, p)| < |LegDelivered(g, s, p)|
    ensures |DeliveredOf(h, s, p)| < |DeliveredOf(g, s, p)|
  {
    var x := Extra(LegDelivered(h, s, p), LegDelivered(g, s, p));
    var before, after := DeliveredOf(h, s, p), DeliveredOf(g, s, p);
    assert before + {x} <= after;
    Schedule.SubsetSize(before + {x}, after);
  }

  /** Between a state where everything handed over had finished before `t`, and a later
      Stop that sees a completion since `t`, the fork was handed over again. */
  lemma HandedOverBetween(env: Env, r: Trace, s: Sid, p: string, t: int, k: nat, m: nat)
    requires IsRun(env, r) && k <= m < |r.events| && StaysOpen(r, s, k, m)
    requires r.events[m].Stopped? && r.events[m].sid == s
    requires AllSettled(r.states[k].core, s, p, t)
    requires Honest(SpawnsOf(StopView(r, m), s), r.states[m].core.hist, s, p)
    requires CompletedSince(SpawnsOf(StopView(r, m), s), p, t)
    ensures BlocksReceived(r.answers, s, p, k) < BlocksReceived(r.answers, s, p, m)
  {
    var c, d := r.states[k].core, r.states[m].core;
    LegContinues(env, r, s, k, m);
    StopCalm(d.db, r.events[m]);
    EvolvesTrans(SpawnsOf(c.db, s), SpawnsOf(d.db, s), SpawnsOf(StopView(r, m), s));
    NewSpawn(SpawnsOf(c.db, s), SpawnsOf(StopView(r, m), s), p, t);
    FatesSettle(env, r, k, m);
    MoreThanBefore(c.hist, d.hist, s, p);
    BlocksAreDeliveries(env, r, s, p, k);
    BlocksAreDeliveries(env, r, s, p, m);
  }

  /** Event `k` issues the batch to session `s` at time `t`. */
  ghost predicate IssuesBatch(env: Env, r: Trace, k: nat, s: Sid, sel: seq<Selected>, t: int)
    requires k < |r.events| && k < |r.states|
  {
    var a := ActOf(env, r.states[k], r.events[k]);
    a.Issuing? && a.ctx.sid == s && a.sel == sel && a.t == t
  }

  /** In state `m` the fork of member `i` is still held for the issue event `k` made of it. */
  ghost predicate StillHeld(r: Trace, k: nat, m: nat, s: Sid, sel: seq<Selected>, i: nat)
    requires k < |r.states| && m < |r.states| && i < |sel|
  {
    var holds := r.states[m].core.hist.holds;
    (s, sel[i].name) in holds && holds[(s, sel[i].name)].issue == |r.states[k].core.hist.issues| + i
  }

  lemma BatchHolds(c: Core, s: Sid, sel: seq<Selected>, t: int, i: nat)
    requires DistinctNames(sel) && i < |sel| && Deps(sel)[i] != []
    ensures |IssueBatch(c, s, sel, t).hist.issues| == |c.hist.issues| + |sel|
    ensures (s, sel[i].name) in IssueBatch(c, s, sel, t).db.pending
    ensures IssueBatch(c, s, sel, t).db.pending[(s, sel[i].name)] == HeldRow(sel[i], Preds(sel, Deps(sel)[i]), t)
  {
    IssueShape(c, s, sel, t);
    HeldRowAt(s, sel, Deps(sel), t, i);
  }

  lemma JustHeld(env: Env, r: Trace, k: nat, s: Sid, sel: seq<Selected>, t: int, i: nat)
    requires IsRun(env, r) && k < |r.events| && IssuesBatch(env, r, k, s, sel, t)
    requires i < |sel| && Deps(sel)[i] != []
    ensures |r.states[k + 1].core.hist.issues| == |r.states[k].core.hist.issues| + |sel|
    ensures (s, sel[i].name) in r.states[k + 1].core.db.pending
    ensures r.states[k + 1].core.db.pending[(s, sel[i].name)] == HeldRow(sel[i], Preds(sel, Deps(sel)[i]), t)
  {
    RunTakes(env, r, k);
    BatchHolds(Core(CalmDb(r.states[k], r.events[k]), r.states[k].core.hist), s, sel, t, i);
  }

  lemma RowAt(env: Env, r: Trace, q: Key, i: nat, j: nat, row: Pending)
    requires IsRun(env, r) && i <= j <= |r.events| && q in r.states[i].core.db.pending && r.states[i].core.db.pending[q] == row
    requires q in r.states[j].core.hist.holds && r.states[j].core.hist.holds[q].issue < |r.states[i].core.hist.issues|
    ensures q in r.states[j].core.db.pending && r.states[j].core.db.pending[q] == row
  {
    RowLasts(env, r, q, i, j);
  }

  /** As long as a fork is held for the issue of member `i`, its row is the one entered then. */
  lemma HeldAsEntered(env: Env, r: Trace, k: nat, m: nat, s: Sid, sel: seq<Selected>, i: nat, row: Pending)
    requires IsRun(env, r) && k < m < |r.events| && i < |sel| && StillHeld(r, k, m, s, sel, i)
    requires |r.states[k + 1].core.hist.issues| == |r.states[k].core.hist.issues| + |sel|
    requires (s, sel[i].name) in r.states[k + 1].core.db.pending && r.states[k + 1].core.db.pending[(s, sel[i].name)] == row
    ensures (s, sel[i].name) in r.states[m].core.db.pending && r.states[m].core.db.pending[(s, sel[i].name)] == row
  {
    RowAt(env, r, (s, sel[i].name), k + 1, m, row);
  }

  /** What the batch recorded for dependent `i`, as long as it is held for that issue. */
  lemma HeldAsIssued(env: Env, r: Trace, k: nat, m: nat, s: Sid, sel: seq<Selected>, t: int, i: nat)
    requires IsRun(env, r) && k < m < |r.events| && IssuesBatch(env, r, k, s, sel, t)
    requires i < |sel| && Deps(sel)[i] != [] && StillHeld(r, k, m, s, sel, i)
    ensures (s, sel[i].name) in r.states[m].core.db.pending
    ensures r.states[m].core.db.pending[(s, sel[i].name)] == HeldRow(sel[i], Preds(sel, Deps(sel)[i]), t)
  {
    JustHeld(env, r, k, s, sel, t, i);
    HeldAsEntered(env, r, k, m, s, sel, i, r.states[k + 1].core.db.pending[(s, sel[i].name)]);
  }

  /** A clean name is found again in the stored list. */
  lemma PredStored(sel: seq<Selected>, d: seq<nat>, j: nat)
    requires (forall k :: 0 <= k < |d| ==> d[k] < |sel|) && j in d && Columns.CleanTag(sel[j].name)
    ensures sel[j].name in Columns.SplitTags(Columns.Join(Preds(sel, d)))
  {
    var p := sel[j].name;
    var k :| 0 <= k < |d| && d[k] == j;
    Columns.ColumnRoundTrip([p]);
    assert p in Columns.SplitTags(Preds(sel, d)[k]);
    Columns.SplitOfJoin(Preds(sel, d), p);
  }

  /** Deliveries of a batch follow its resolved dependency order. Event `k` issues a batch
      in which `i` depends on `j`; event `m` is the Stop that releases `i`. If at the issue
      every earlier hand-over of `j` had finished, `j` was handed over in between. */
  lemma DependencyOrder(env: Env, r: Trace, k: nat, m: nat, s: Sid, sel: seq<Selected>, t: int, i: nat, j: nat)
    requires IsRun(env, r) && k < m < |r.events| && IssuesBatch(env, r, k, s, sel, t)
    requires i < |sel| && j in Deps(sel)[i] && Columns.CleanTag(sel[j].name) && StillHeld(r, k, m, s, sel, i)
    requires r.events[m].Stopped? && r.events[m].sid == s && StaysOpen(r, s, k, m)
    requires AllSettled(r.states[k].core, s, sel[j].name, t)
    requires Honest(SpawnsOf(StopView(r, m), s), r.states[m].core.hist, s, sel[j].name)
    requires sel[i].name in Released(StopView(r, m), s)
    ensures BlocksReceived(r.answers, s, sel[j].name, k) < BlocksReceived(r.answers, s, sel[j].name, m)
  {
    HeldAsIssued(env, r, k, m, s, sel, t, i);
    StopCalm(r.states[m].core.db, r.events[m]);
    PredStored(sel, Deps(sel)[i], j);
    HandedOverBetween(env, r, s, sel[j].name, t, k, m);
  }
}
