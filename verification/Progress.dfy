/** Held dependents never deadlock: whatever batches overlap, some held fork waits only on
    forks that were handed over, so once those have finished it is released. */
module Progress {
  import opened Text
  import opened Registry
  import opened Store
  import opened Planner
  import opened Core
  import opened Ledger
  import Columns
  import Schedule

  /** The batch a hold belongs to. */
  function Batch(h: Hist, k: Key): int {
    if k in h.holds && h.holds[k].issue < |h.issues| then h.issues[h.holds[k].issue].batch else -1
  }

  /** When the held issue was made. */
  function Since(h: Hist, k: Key): int {
    if k in h.holds && h.holds[k].issue < |h.issues| then h.issues[h.holds[k].issue].at else 0
  }

  /** `q` is held from a later batch than `k`, or ranks below it in the same one. */
  predicate Ahead(h: Hist, q: Key, k: Key) {
    && q in h.holds && k in h.holds
    && (Batch(h, q) > Batch(h, k) || (Batch(h, q) == Batch(h, k) && h.holds[q].rank < h.holds[k].rank))
  }

  /** `q` was handed over by batch `b` or later. */
  predicate HandedOver(h: Hist, q: Key, b: int) {
    q in h.delivered && h.delivered[q] > b
  }

  /** What a held fork waits for is held ahead of it or was handed over since. */
  predicate Awaited(h: Hist, k: Key, p: string) {
    Ahead(h, (k.0, p), k) || HandedOver(h, (k.0, p), Batch(h, k))
  }

  ghost predicate RowWaits(db: Db, h: Hist, k: Key) {
    k in db.pending ==>
      && db.pending[k].createdAt == Since(h, k) && Batch(h, k) < h.batches
      && forall p :: p in Columns.SplitTags(db.pending[k].preds) ==> Awaited(h, k, p)
  }

  /** Every held fork of session `x` waits for forks held ahead of it or handed over. */
  ghost predicate ProgressInv(c: Core, x: Sid) {
    forall k: Key :: k.0 == x ==> RowWaits(c.db, c.hist, k)
  }

  lemma ProgressInitial(x: Sid)
    ensures ProgressInv(INITIAL, x)
  {}

  // ---- what the steps do to holds ----

  ghost predicate PlaceKept(h: Hist, g: Hist, q: Key) {
    q in h.holds && q in g.holds && g.holds[q] == h.holds[q] && Batch(g, q) == Batch(h, q) && Since(g, q) == Since(h, q)
  }

  /** A hold stays, is handed over, or is replaced by a newer one; a delivery stays or is
      repeated. */
  ghost predicate Moved(h: Hist, g: Hist, q: Key) {
    && (q in h.holds ==> PlaceKept(h, g, q) || HandedOver(g, q, h.batches - 1) || (q in g.holds && Batch(g, q) >= h.batches))
    && (q in h.delivered ==> HandedOver(g, q, h.batches - 1) || (q in g.delivered && g.delivered[q] == h.delivered[q]))
  }

  lemma RowKept(a: Db, h: Hist, b: Db, g: Hist, k: Key)
    requires RowWaits(a, h, k) && h.batches <= g.batches
    requires k in a.pending && k in b.pending && b.pending[k] == a.pending[k] && PlaceKept(h, g, k)
    requires forall q: Key :: q.0 == k.0 ==> Moved(h, g, q)
    ensures RowWaits(b, g, k)
  {
    forall p | p in Columns.SplitTags(b.pending[k].preds) ensures Awaited(g, k, p) {
      assert Awaited(h, k, p) && Moved(h, g, (k.0, p));
    }
  }

  lemma CalmProgress(c: Core, db: Db, x: Sid)
    requires ProgressInv(c, x) && Calm(c.db, db)
    ensures ProgressInv(Core(db, c.hist), x)
  {
    forall k: Key | k.0 == x ensures RowWaits(db, c.hist, k) { assert RowWaits(c.db, c.hist, k); }
  }

  /** Settling a session's holds leaves the places of all others alone. */
  lemma SettlePlaces(h: Hist, s: Sid, names: set<string>, fate: Fate, q: Key)
    requires q in h.holds && !(q.0 == s && q.1 in names)
    ensures PlaceKept(h, Settle(h, s, names, fate), q)
  {}

  /** The pending rows of one session are gone; the others wait as before. */
  lemma DropProgress(c: Core, d: Core, s: Sid, x: Sid)
    requires ProgressInv(c, x) && c.hist.holds.Keys == c.db.pending.Keys
    requires forall k :: k in d.db.pending ==> k.0 != s && k in c.db.pending && d.db.pending[k] == c.db.pending[k]
    requires forall q :: q in c.hist.holds && q.0 != s ==> PlaceKept(c.hist, d.hist, q)
    requires d.hist.delivered == c.hist.delivered && d.hist.batches == c.hist.batches
    ensures ProgressInv(d, x)
  {
    forall k: Key | k.0 == x ensures RowWaits(d.db, d.hist, k) {
      if k in d.db.pending {
        assert RowWaits(c.db, c.hist, k) && k in c.hist.holds;
        forall q: Key | q.0 == k.0 ensures Moved(c.hist, d.hist, q) {}
        RowKept(c.db, c.hist, d.db, d.hist, k);
      }
    }
  }

  lemma BumpProgress(c: Core, s: Sid, x: Sid)
    requires ProgressInv(c, x) && Balanced(c.db, c.hist)
    ensures ProgressInv(Bump(c, s), x)
  {
    forall q | q in c.hist.holds && q.0 != s ensures PlaceKept(c.hist, Bump(c, s).hist, q) {
      SettlePlaces(c.hist, s, PendingNames(c.db, s), Dropped, q);
    }
    DropProgress(c, Bump(c, s), s, x);
  }

  lemma CloseProgress(c: Core, s: Sid, x: Sid)
    requires ProgressInv(c, x) && Balanced(c.db, c.hist)
    ensures ProgressInv(CloseLeg(c, s), x)
  {
    forall q | q in c.hist.holds && q.0 != s ensures PlaceKept(c.hist, CloseLeg(c, s).hist, q) {
      SettlePlaces(c.hist, s, PendingNames(c.db, s), Dropped, q);
    }
    DropProgress(c, CloseLeg(c, s), s, x);
  }

  lemma ReleaseMoves(c: Core, s: Sid, q: Key)
    ensures Moved(c.hist, Release(c, s).hist, q)
    ensures q in c.hist.holds && !(q.0 == s && q.1 in Released(c.db, s)) ==> PlaceKept(c.hist, Release(c, s).hist, q)
  {
    var names := Released(c.db, s);
    var mid := Settle(c.hist, s, names, Delivered);
    var g := Answer(mid, s, names);
    if q in c.hist.holds && !(q.0 == s && q.1 in names) {
      SettlePlaces(c.hist, s, names, Delivered, q);
      assert PlaceKept(c.hist, g, q);
    }
    if q.0 == s && q.1 in names { assert q == (s, q.1) && g.delivered[q] == c.hist.batches; }
  }

  lemma ReleaseProgress(c: Core, s: Sid, x: Sid)
    requires ProgressInv(c, x) && Balanced(c.db, c.hist)
    ensures ProgressInv(Release(c, s), x)
  {
    var d := Release(c, s);
    forall k: Key | k.0 == x ensures RowWaits(d.db, d.hist, k) {
      if k in d.db.pending {
        assert RowWaits(c.db, c.hist, k) && k in c.hist.holds;
        ReleasedMeans(c.db, s, k.1);
        forall q: Key | q.0 == k.0 ensures Moved(c.hist, d.hist, q) { ReleaseMoves(c, s, q); }
        ReleaseMoves(c, s, k);
        RowKept(c.db, c.hist, d.db, d.hist, k);
      }
    }
  }

  // ---- issuing ----

  lemma IssueKeepsPlace(h: Hist, s: Sid, sel: seq<Selected>, deps: Schedule.Graph, rank: seq<nat>, t: int, q: Key)
    requires |sel| == |deps| == |rank| && DistinctNames(sel) && HoldsMatch(h)
    requires q in h.holds && !(q.0 == s && q.1 in HeldNames(sel, deps))
    ensures PlaceKept(h, IssueHist(h, s, sel, deps, rank, t), q)
  {
    var mid, g := Settle(h, s, HeldNames(sel, deps), Superseded), IssueHist(h, s, sel, deps, rank, t);
    assert HoldBacked(h.issues, h.holds, q);
    IssueEnters(h, s, sel, deps, rank, t);
    EnteredKeys(mid, g, s, sel, deps, rank, q);
    IssueKeepsFates(h, s, sel, deps, rank, t);
  }

  lemma IssuePlaces(h: Hist, s: Sid, sel: seq<Selected>, deps: Schedule.Graph, rank: seq<nat>, t: int, i: nat)
    requires |sel| == |deps| == |rank| && DistinctNames(sel) && i < |sel|
    ensures var g, q := IssueHist(h, s, sel, deps, rank, t), (s, sel[i].name);
      && (deps[i] != [] ==> q in g.holds && g.holds[q].rank == rank[i] && Batch(g, q) == h.batches && Since(g, q) == t)
      && (deps[i] == [] ==> HandedOver(g, q, h.batches))
  {
    var mid, g := Settle(h, s, HeldNames(sel, deps), Superseded), IssueHist(h, s, sel, deps, rank, t);
    IssueEnters(h, s, sel, deps, rank, t);
    assert MemberEntered(g, |mid.issues|, s, sel, deps, rank, i);
    IssueAppends(h, s, sel, deps, rank, t);
    if deps[i] == [] { RootAnswered(Enter(mid, s, sel, deps, rank, t), s, sel, deps, i); }
  }

  lemma RootAnswered(h: Hist, s: Sid, sel: seq<Selected>, deps: Schedule.Graph, i: nat)
    requires |sel| == |deps| && i < |sel| && deps[i] == []
    ensures (s, sel[i].name) in Answer(h, s, RootNames(sel, deps)).delivered
    ensures Answer(h, s, RootNames(sel, deps)).delivered[(s, sel[i].name)] == h.batches
  {
    assert sel[i].name in RootNames(sel, deps);
  }

  lemma AnswerDelivered(h: Hist, s: Sid, names: set<string>, q: Key)
    requires q in h.delivered
    ensures var d := Answer(h, s, names).delivered; q in d && (d[q] == h.delivered[q] || d[q] == h.batches)
  {}

  lemma IssueMoves(h: Hist, s: Sid, sel: seq<Selected>, deps: Schedule.Graph, rank: seq<nat>, t: int, q: Key)
    requires |sel| == |deps| == |rank| && DistinctNames(sel) && HoldsMatch(h)
    ensures Moved(h, IssueHist(h, s, sel, deps, rank, t), q)
  {
    if q in h.holds {
      if q.0 == s && q.1 in HeldNames(sel, deps) {
        var i :| 0 <= i < |sel| && deps[i] != [] && sel[i].name == q.1;
        assert q == (s, sel[i].name);
        IssuePlaces(h, s, sel, deps, rank, t, i);
      } else {
        IssueKeepsPlace(h, s, sel, deps, rank, t, q);
      }
    }
    if q in h.delivered {
      var mid := Settle(h, s, HeldNames(sel, deps), Superseded);
      AnswerDelivered(Enter(mid, s, sel, deps, rank, t), s, RootNames(sel, deps), q);
    }
  }

  lemma RanksBelow(deps: Schedule.Graph, rank: seq<nat>, i: nat, m: nat)
    requires Schedule.IsRank(deps, rank) && Schedule.WellIndexed(deps) && i < |deps| && m < |deps[i]|
    ensures |rank| == |deps| && rank[deps[i][m]] < rank[i]
  {}

  /** A member awaits a predecessor: a root was handed over, a dependent ranks below. */
  lemma MemberAwaits(h: Hist, s: Sid, sel: seq<Selected>, deps: Schedule.Graph, rank: seq<nat>, t: int, i: nat, j: nat)
    requires |sel| == |deps| == |rank| && DistinctNames(sel)
    requires i < |sel| && j < |sel| && deps[i] != [] && rank[j] < rank[i]
    ensures Awaited(IssueHist(h, s, sel, deps, rank, t), (s, sel[i].name), sel[j].name)
  {
    IssuePlaces(h, s, sel, deps, rank, t, i);
    IssuePlaces(h, s, sel, deps, rank, t, j);
  }

  lemma StoredPreds(sel: seq<Selected>, d: seq<nat>, t: int, i: nat, p: string)
    requires i < |sel| && forall k :: 0 <= k < |d| ==> d[k] < |sel|
    requires Columns.Storable(Preds(sel, d)) && p in Columns.SplitTags(HeldRow(sel[i], Preds(sel, d), t).preds)
    ensures p in Preds(sel, d)
  {
    Columns.SplitOfJoin(Preds(sel, d), p);
  }

  /** What the batch stores for its dependents reads back as their predecessors' names. */
  ghost predicate BatchStorable(sel: seq<Selected>, deps: Schedule.Graph)
    requires Graphed(sel, deps)
  {
    forall i :: 0 <= i < |sel| ==> Columns.Storable(Preds(sel, deps[i]))
  }

  lemma WaitsForAll(db: Db, g: Hist, k: Key, preds: seq<string>)
    requires k in db.pending && forall p :: p in Columns.SplitTags(db.pending[k].preds) ==> p in preds
    requires db.pending[k].createdAt == Since(g, k) && Batch(g, k) < g.batches
    requires forall m :: 0 <= m < |preds| ==> Awaited(g, k, preds[m])
    ensures RowWaits(db, g, k)
  {}

  /** A dependent entered with the batch waits for members of lower rank or for roots. */
  lemma MemberWaits(h: Hist, s: Sid, sel: seq<Selected>, deps: Schedule.Graph, rank: seq<nat>, t: int, i: nat, db: Db)
    requires Graphed(sel, deps) && |rank| == |sel| && DistinctNames(sel) && Schedule.IsRank(deps, rank)
    requires i < |sel| && deps[i] != [] && Columns.Storable(Preds(sel, deps[i]))
    requires (s, sel[i].name) in db.pending && db.pending[(s, sel[i].name)] == HeldRow(sel[i], Preds(sel, deps[i]), t)
    ensures RowWaits(db, IssueHist(h, s, sel, deps, rank, t), (s, sel[i].name))
  {
    var g, k, preds := IssueHist(h, s, sel, deps, rank, t), (s, sel[i].name), Preds(sel, deps[i]);
    forall m | 0 <= m < |preds| ensures Awaited(g, k, preds[m]) {
      RanksBelow(deps, rank, i, m);
      MemberAwaits(h, s, sel, deps, rank, t, i, deps[i][m]);
    }
    forall p | p in Columns.SplitTags(db.pending[k].preds) ensures p in preds { StoredPreds(sel, deps[i], t, i, p); }
    IssuePlaces(h, s, sel, deps, rank, t, i);
    WaitsForAll(db, g, k, preds);
  }

  lemma HeldRowAt(s: Sid, sel: seq<Selected>, deps: Schedule.Graph, t: int, i: nat)
    requires Graphed(sel, deps) && DistinctNames(sel) && i < |sel| && deps[i] != []
    ensures (s, sel[i].name) in HeldRows(s, sel, deps, t, |sel|)
    ensures HeldRows(s, sel, deps, t, |sel|)[(s, sel[i].name)] == HeldRow(sel[i], Preds(sel, deps[i]), t)
  {}

  lemma IssueRowWaits(c: Core, s: Sid, sel: seq<Selected>, deps: Schedule.Graph, rank: seq<nat>, t: int, db: Db, k: Key)
    requires ProgressInv(c, k.0) && Balanced(c.db, c.hist) && DistinctNames(sel)
    requires Graphed(sel, deps) && |rank| == |sel| && Schedule.IsRank(deps, rank)
    requires s == k.0 ==> BatchStorable(sel, deps)
    requires db.pending == c.db.pending + HeldRows(s, sel, deps, t, |sel|)
    ensures RowWaits(db, IssueHist(c.hist, s, sel, deps, rank, t), k)
  {
    HeldRowsMeans(s, sel, deps, t, k);
    if k in HeldRows(s, sel, deps, t, |sel|) {
      var i :| 0 <= i < |sel| && deps[i] != [] && sel[i].name == k.1;
      assert k == (s, sel[i].name);
      HeldRowAt(s, sel, deps, t, i);
      MemberWaits(c.hist, s, sel, deps, rank, t, i, db);
    } else if k in db.pending {
      assert RowWaits(c.db, c.hist, k) && k in c.hist.holds;
      IssueAppends(c.hist, s, sel, deps, rank, t);
      IssueKeepsPlace(c.hist, s, sel, deps, rank, t, k);
      forall q: Key | q.0 == k.0 ensures Moved(c.hist, IssueHist(c.hist, s, sel, deps, rank, t), q) {
        IssueMoves(c.hist, s, sel, deps, rank, t, q);
      }
      RowKept(c.db, c.hist, db, IssueHist(c.hist, s, sel, deps, rank, t), k);
    }
  }

  lemma IssueProgress(c: Core, s: Sid, sel: seq<Selected>, t: int, x: Sid)
    requires ProgressInv(c, x) && Balanced(c.db, c.hist) && DistinctNames(sel)
    requires s == x ==> BatchStorable(sel, Deps(sel))
    ensures ProgressInv(IssueBatch(c, s, sel, t), x)
  {
    var deps := Deps(sel);
    var rank, d := Schedule.Rank(deps), IssueBatch(c, s, sel, t);
    forall k: Key | k.0 == x ensures RowWaits(d.db, d.hist, k) { IssueRowWaits(c, s, sel, deps, rank, t, d.db, k); }
  }

  // ---- what it means ----

  /** Every fork handed over since a dependent's hold has a completion recorded since. */
  ghost predicate CompletionsRecorded(c: Core, s: Sid) {
    forall f, p ::
      ((s, f) in c.db.pending && p in Columns.SplitTags(c.db.pending[(s, f)].preds) &&
       HandedOver(c.hist, (s, p), Batch(c.hist, (s, f)))) ==>
      CompletedSince(SpawnsOf(c.db, s), p, c.db.pending[(s, f)].createdAt)
  }

  lemma AheadTrans(h: Hist, a: Key, b: Key, c: Key)
    requires Ahead(h, a, b) && Ahead(h, b, c)
    ensures Ahead(h, a, c)
  {}

  /** Among finitely many held forks one has none ahead of it. */
  lemma {:induction false} Foremost(h: Hist, keys: set<Key>) returns (k: Key)
    requires keys != {} && keys <= h.holds.Keys
    ensures k in keys && forall q :: q in keys ==> !Ahead(h, q, k)
    decreases keys
  {
    var x :| x in keys;
    k := x;
    if keys != {x} {
      assert keys - {x} != {};
      var y := Foremost(h, keys - {x});
      if !Ahead(h, x, y) {
        k := y;
      } else {
        forall q | q in keys - {x} ensures !Ahead(h, q, x) {
          if Ahead(h, q, x) { AheadTrans(h, q, x, y); }
        }
      }
    }
  }

  ghost function PendingKeys(db: Db, s: Sid): set<Key> {
    set k | k in db.pending && k.0 == s
  }

  /** Held dependents never deadlock: if every handed-over fork's completion has been
      recorded, a nonempty pending set has a releasable member. */
  lemma NeverDeadlocked(c: Core, s: Sid)
    requires ProgressInv(c, s) && Balanced(c.db, c.hist)
    requires PendingNames(c.db, s) != {} && CompletionsRecorded(c, s)
    ensures Released(c.db, s) != {}
  {
    var keys := PendingKeys(c.db, s);
    var name :| name in PendingNames(c.db, s);
    assert (s, name) in keys;
    var k := Foremost(c.hist, keys);
    assert RowWaits(c.db, c.hist, k) && k == (s, k.1);
    forall p | p in Columns.SplitTags(c.db.pending[k].preds)
      ensures CompletedSince(SpawnsOf(c.db, s), p, c.db.pending[k].createdAt)
    {
      assert Awaited(c.hist, k, p);
      if (s, p) in c.hist.holds { assert (s, p) in keys; }
    }
    assert k.1 in Released(c.db, s);
  }

  lemma ReleaseShrinks(c: Core, s: Sid)
    requires Released(c.db, s) != {}
    ensures |PendingNames(Release(c, s).db, s)| < |PendingNames(c.db, s)|
  {
    var before, after := PendingNames(c.db, s), PendingNames(Release(c, s).db, s);
    var name :| name in Released(c.db, s);
    assert name in before && name !in after;
    assert after <= before;
    Schedule.SubsetSize(after + {name}, before);
  }

  /** Whatever else is on record, a dependent waits for exactly the pieces its predecessors'
      names were stored as. */
  lemma ReleaseDemands(reg: Spawns, row: Pending, preds: seq<string>, k: nat, x: string)
    requires row.preds == Columns.Join(preds) && k < |preds| && x in Columns.SplitTags(preds[k])
    ensures Releasable(reg, row) ==> CompletedSince(reg, x, row.createdAt)
  {
    Columns.SplitOfJoin(preds, x);
  }

  /** Every piece the names split into is the name of a spawn that ended since. */
  ghost predicate PiecesDone(reg: Spawns, preds: seq<string>, since: int) {
    forall k, x :: 0 <= k < |preds| && x in Columns.SplitTags(preds[k]) ==> CompletedSince(reg, x, since)
  }

  /** For any recorded predecessors and any registry: a dependent is released exactly when
      every piece of their names has finished. */
  lemma ReleasedOnPieces(reg: Spawns, row: Pending, preds: seq<string>)
    requires row.preds == Columns.Join(preds)
    ensures Releasable(reg, row) <==> PiecesDone(reg, preds, row.createdAt)
  {
    if Releasable(reg, row) {
      forall k, x | 0 <= k < |preds| && x in Columns.SplitTags(preds[k]) ensures CompletedSince(reg, x, row.createdAt) {
        ReleaseDemands(reg, row, preds, k, x);
      }
    }
    if PiecesDone(reg, preds, row.createdAt) {
      forall x | x in Columns.SplitTags(row.preds) ensures CompletedSince(reg, x, row.createdAt) {
        Columns.SplitOfJoin(preds, x);
      }
    }
  }

  lemma ReleasedIffWithin(reg: Spawns, row: Pending, preds: seq<string>)
    requires forall p :: p in preds ==> CompletedSince(reg, p, row.createdAt)
    requires forall id :: id in reg && reg[id].name.Some? ==> reg[id].name.value in preds
    ensures Releasable(reg, row) <==> forall x :: x in Columns.SplitTags(row.preds) ==> x in preds
  {
    forall x ensures CompletedSince(reg, x, row.createdAt) <==> x in preds {
      if CompletedSince(reg, x, row.createdAt) { var id :| id in reg && FinishedSince(reg[id], x, row.createdAt); }
    }
  }

  /** With all predecessors finished and no other name on record, a dependent is released
      exactly when the predecessors' names can be stored. */
  lemma ReleasedIffStorable(reg: Spawns, row: Pending, preds: seq<string>)
    requires row.preds == Columns.Join(preds)
    requires forall p :: p in preds ==> CompletedSince(reg, p, row.createdAt)
    requires forall id :: id in reg && reg[id].name.Some? ==> reg[id].name.value in preds
    ensures Releasable(reg, row) <==>
      forall k, x :: 0 <= k < |preds| && x in Columns.SplitTags(preds[k]) ==> x in preds
  {
    ReleasedIffWithin(reg, row, preds);
    Columns.StorableMeans(preds);
  }

  /** The pieces of a name with a comma are other names. */
  lemma PiecesDiffer(name: string, x: string)
    requires ',' in name && x in Columns.SplitTags(name)
    ensures x != name
  {
    Columns.SplitIsClean(name);
    var k :| 0 <= k < |Columns.SplitTags(name)| && Columns.SplitTags(name)[k] == x;
    assert Columns.CleanTag(x);
  }

  /** So a dependent waits for a fork of another name as soon as a predecessor's name has a
      comma, and is not released as long as that name is on no record. */
  lemma CommaNameSticks(reg: Spawns, row: Pending, preds: seq<string>, name: string, x: string)
    requires row.preds == Columns.Join(preds) && name in preds && x in Columns.SplitTags(name)
    requires forall id :: id in reg ==> reg[id].name != Some(x)
    ensures !Releasable(reg, row) && (',' in name ==> x != name)
  {
    var k :| 0 <= k < |preds| && preds[k] == name;
    ReleaseDemands(reg, row, preds, k, x);
    if ',' in name { PiecesDiffer(name, x); }
  }

  /** For instance a fork named `a,b` that has finished: with no other spawn on record it does
      not release its dependent. */
  lemma CommaNameExample(a: string, b: string, t: int)
    requires Columns.CleanTag(a) && Columns.CleanTag(b)
    ensures var name := a + "," + b;
      var reg: Spawns := map["id" := Spawn(Some(name), None, Completed, t, Some(t))];
      CompletedSince(reg, name, t) && !Releasable(reg, Pending("", "", false, Columns.Join([name]), t))
  {
    var name := a + "," + b;
    var reg: Spawns := map["id" := Spawn(Some(name), None, Completed, t, Some(t))];
    assert FinishedSince(reg["id"], name, t);
    Columns.TwoEntries(a, b);
    assert [a, b][0] == a && name[|a|] == ',';
    assert |name| > |a|;
    CommaNameSticks(reg, Pending("", "", false, Columns.Join([name]), t), [name], name, a);
  }
}
