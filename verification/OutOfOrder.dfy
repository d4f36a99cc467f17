/** When a dependent is handed over ahead of what it waits for: a run of the predecessor from
    before the batch ends after the hold. */
module OutOfOrder {
  import opened Text
  import opened Notification
  import opened Registry
  import opened Store
  import opened Planner
  import opened Core
  import opened Ledger
  import opened Progress
  import opened Machine
  import opened Runs
  import opened Deliveries
  import opened ReleaseOrder
  import Columns

  /** A dependent with one predecessor of a clean name is released exactly when some run of
      that name, whenever started, ended since the hold. */
  lemma ReleasedOnOne(db: Db, s: Sid, f: string, p: string)
    requires (s, f) in db.pending && db.pending[(s, f)].preds == Columns.Join([p]) && Columns.CleanTag(p)
    ensures f in Released(db, s) <==> CompletedSince(SpawnsOf(db, s), p, db.pending[(s, f)].createdAt)
  {
    Columns.ColumnRoundTrip([p]);
    ReleasedMeans(db, s, f);
  }

  /** On the tables: `j` is held for `q`, `i` is held for `j`, and an older run of `j` is
      still going. When that run ends before `q` does, `i` is released while `j`, which it
      waits for, is still held. */
  lemma OlderRunReleasesEarly(db: Db, s: Sid, q: string, j: string, i: string, id: string, note: Note, u: int)
    requires Columns.CleanTag(q) && Columns.CleanTag(j) && (s, i) in db.pending && (s, j) in db.pending
    requires db.pending[(s, j)].preds == Columns.Join([q]) && db.pending[(s, i)].preds == Columns.Join([j])
    requires id in SpawnsOf(db, s) && SpawnsOf(db, s)[id].name == Some(j) && SpawnsOf(db, s)[id].status == Spawned
    requires Terminal(note.status).Some? && note.toolUseId == Some(id) && db.pending[(s, i)].createdAt <= u
    requires !CompletedSince(MarkTerminal(SpawnsOf(db, s), note, u), q, db.pending[(s, j)].createdAt)
    ensures var after := SetSpawns(db, s, MarkTerminal(SpawnsOf(db, s), note, u));
      i in Released(after, s) && j !in Released(after, s)
  {
    var reg := MarkTerminal(SpawnsOf(db, s), note, u);
    var after := SetSpawns(db, s, reg);
    assert FinishedSince(reg[id], j, db.pending[(s, i)].createdAt);
    ReleasedOnOne(after, s, i, j);
    ReleasedOnOne(after, s, j, q);
  }

  /** Such tables: the chain q, j, i held at `t`, and a run of j from before. */
  function OlderRunTables(s: Sid, q: string, j: string, i: string, t: int): Db {
    EMPTY.(spawns := map[s := map["id" := Spawn(Some(j), None, Spawned, t - 1, None)]],
           pending := map[(s, j) := Pending("", "", false, q, t), (s, i) := Pending("", "", false, j, t)])
  }

  lemma OlderRunExample(s: Sid, q: string, j: string, i: string, t: int)
    requires Columns.CleanTag(q) && Columns.CleanTag(j) && q != j && i != j
    ensures var db := OlderRunTables(s, q, j, i, t);
      var after := SetSpawns(db, s, MarkTerminal(SpawnsOf(db, s), Note(Some("id"), None, Some("completed")), t));
      i in Released(after, s) && j !in Released(after, s)
  {
    OlderRunReleasesEarly(OlderRunTables(s, q, j, i, t), s, q, j, i, "id", Note(Some("id"), None, Some("completed")), t);
  }

  /** Dependent `i`, still held for the batch, is handed over at Stop `m` exactly when every
      piece of its predecessors' names has finished since the issue, whenever started. */
  lemma HandedExactly(env: Env, r: Trace, k: nat, m: nat, s: Sid, sel: seq<Selected>, t: int, i: nat)
    requires IsRun(env, r) && k < m < |r.events| && IssuesBatch(env, r, k, s, sel, t)
    requires i < |sel| && Deps(sel)[i] != [] && StillHeld(r, k, m, s, sel, i)
    requires r.events[m].Stopped? && r.events[m].sid == s
    ensures BlocksTo(r.answers[m], s, sel[i].name) ==
            if PiecesDone(SpawnsOf(StopView(r, m), s), Preds(sel, Deps(sel)[i]), t) then 1 else 0
  {
    HeldAsIssued(env, r, k, m, s, sel, t, i);
    StopHands(env, r, m, sel[i].name);
    StopReleasesRow(r.states[m].core.db, r.events[m], sel[i].name, Preds(sel, Deps(sel)[i]));
  }

  lemma StopReleasesRow(db: Db, e: Event, f: string, preds: seq<string>)
    requires e.Stopped? && (e.sid, f) in db.pending && db.pending[(e.sid, f)].preds == Columns.Join(preds)
    ensures f in Released(StopDb(db, e), e.sid) <==>
            PiecesDone(SpawnsOf(StopDb(db, e), e.sid), preds, db.pending[(e.sid, f)].createdAt)
  {
    StopCalm(db, e);
    ReleasedMeans(StopDb(db, e), e.sid, f);
    ReleasedOnPieces(SpawnsOf(StopDb(db, e), e.sid), db.pending[(e.sid, f)], preds);
  }

  /** Every one of the forks has a run that ended since. */
  ghost predicate AllDone(reg: Spawns, names: seq<string>, since: int) {
    forall k :: 0 <= k < |names| ==> CompletedSince(reg, names[k], since)
  }

  lemma CleanPieces(reg: Spawns, names: seq<string>, since: int)
    requires Columns.Clean(names)
    ensures PiecesDone(reg, names, since) <==> AllDone(reg, names, since)
  {
    forall k | 0 <= k < |names| ensures Columns.SplitTags(names[k]) == [names[k]] { Columns.ColumnRoundTrip([names[k]]); }
    if PiecesDone(reg, names, since) {
      forall k | 0 <= k < |names| ensures CompletedSince(reg, names[k], since) {
        assert names[k] in Columns.SplitTags(names[k]);
      }
    }
  }

  /** Over every run: event `k` issues a batch in which `i` waits for `j` and `j` waits too,
      and at Stop `m` both are still held for it. `i` is handed over ahead of `j` exactly when
      every predecessor of `i`, `j` included, has a run that ended since the issue, whenever
      started, and some predecessor of `j` has none. */
  lemma OutOfOrderExactly(env: Env, r: Trace, k: nat, m: nat, s: Sid, sel: seq<Selected>, t: int, i: nat, j: nat)
    requires IsRun(env, r) && k < m < |r.events| && IssuesBatch(env, r, k, s, sel, t)
    requires i < |sel| && j in Deps(sel)[i] && Deps(sel)[j] != []
    requires Columns.Clean(Preds(sel, Deps(sel)[i])) && Columns.Clean(Preds(sel, Deps(sel)[j]))
    requires StillHeld(r, k, m, s, sel, i) && StillHeld(r, k, m, s, sel, j)
    requires r.events[m].Stopped? && r.events[m].sid == s
    ensures var reg := SpawnsOf(StopView(r, m), s);
      (BlocksTo(r.answers[m], s, sel[i].name) == 1 && BlocksTo(r.answers[m], s, sel[j].name) == 0) <==>
      (AllDone(reg, Preds(sel, Deps(sel)[i]), t) && !AllDone(reg, Preds(sel, Deps(sel)[j]), t))
  {
    var reg := SpawnsOf(StopView(r, m), s);
    HandedExactly(env, r, k, m, s, sel, t, i);
    HandedExactly(env, r, k, m, s, sel, t, j);
    CleanPieces(reg, Preds(sel, Deps(sel)[i]), t);
    CleanPieces(reg, Preds(sel, Deps(sel)[j]), t);
  }

  lemma OnlyPred(reg: Spawns, sel: seq<Selected>, d: seq<nat>, j: nat, t: int)
    requires j < |sel| && d == [j] && Columns.CleanTag(sel[j].name)
    ensures Columns.Clean(Preds(sel, d)) && (AllDone(reg, Preds(sel, d), t) <==> CompletedSince(reg, sel[j].name, t))
  {
    assert Preds(sel, d)[0] == sel[j].name;
  }

  /** In particular on a chain `q`, `j`, `i`: when some run of `j` ended since and none of `q`. */
  lemma OutOfOrderChain(env: Env, r: Trace, k: nat, m: nat, s: Sid, sel: seq<Selected>, t: int, i: nat, j: nat, q: nat)
    requires IsRun(env, r) && k < m < |r.events| && IssuesBatch(env, r, k, s, sel, t)
    requires i < |sel| && j < |sel| && q < |sel| && Deps(sel)[i] == [j] && Deps(sel)[j] == [q]
    requires Columns.CleanTag(sel[j].name) && Columns.CleanTag(sel[q].name)
    requires StillHeld(r, k, m, s, sel, i) && StillHeld(r, k, m, s, sel, j)
    requires r.events[m].Stopped? && r.events[m].sid == s
    ensures var reg := SpawnsOf(StopView(r, m), s);
      (BlocksTo(r.answers[m], s, sel[i].name) == 1 && BlocksTo(r.answers[m], s, sel[j].name) == 0) <==>
      (CompletedSince(reg, sel[j].name, t) && !CompletedSince(reg, sel[q].name, t))
  {
    var reg := SpawnsOf(StopView(r, m), s);
    OnlyPred(reg, sel, Deps(sel)[i], j, t);
    OnlyPred(reg, sel, Deps(sel)[j], q, t);
    OutOfOrderExactly(env, r, k, m, s, sel, t, i, j);
  }

  lemma StopHands(env: Env, r: Trace, m: nat, fork: string)
    requires IsRun(env, r) && m < |r.events| && r.events[m].Stopped?
    ensures BlocksTo(r.answers[m], r.events[m].sid, fork) == if fork in Released(StopView(r, m), r.events[m].sid) then 1 else 0
  {
    assert StepAt(env, r, m);
    StopBlocks(env, r.states[m], r.events[m], r.events[m].sid, fork);
  }
}
