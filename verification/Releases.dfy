/** Which forks are held, for what, and exactly when a Stop hands them over, told by the events
    of the run. */
module Releases {
  import opened Text
  import opened Registry
  import opened Store
  import opened Planner
  import opened Core
  import opened Ledger
  import opened Acts
  import opened Machine
  import opened Runs
  import opened Deliveries
  import opened Activity
  import opened Sightings
  import opened Batches
  import Columns
  import Schedule

  // ---- what is pending ----

  /** Row `a` of event `k` holds the fork back. */
  ghost predicate HoldsFork(env: Env, r: Trace, k: nat, a: nat, s: Sid, f: string)
    requires k < |r.events| && |r.events| < |r.states|
  {
    a < Size(r, k) && RowAt(r, k, a).sid == s && RowAt(r, k, a).fork == f && Holds(env, r, k, a)
  }

  ghost predicate HeldAt(env: Env, r: Trace, k: nat, s: Sid, f: string)
    requires k < |r.events| && |r.events| < |r.states|
  {
    r.events[k].Evaluated? && exists a :: HoldsFork(env, r, k, a, s, f)
  }

  /** Event `k` is a Stop that hands the fork over. */
  predicate ReleasesAt(r: Trace, k: nat, s: Sid, f: string)
    requires k < |r.events| && k < |r.answers|
  {
    r.events[k].Stopped? && BlocksTo(r.answers[k], s, f) > 0
  }

  /** The event since which the fork is held: the last that held it back, unless the session was
      closed, began a new pause or was handed the fork after it. */
  ghost function HeldSince(env: Env, r: Trace, s: Sid, f: string, i: nat): (k: Option<nat>)
    requires i <= |r.events| == |r.answers| && |r.events| < |r.states|
    ensures k.Some? ==> k.value < i && HeldAt(env, r, k.value, s, f)
  {
    if i == 0 then None
    else if Closes(r.states[i - 1], r.events[i - 1], s) || NewPause(env, r, i - 1, s) || ReleasesAt(r, i - 1, s, f) then None
    else if HeldAt(env, r, i - 1, s, f) then Some(i - 1)
    else HeldSince(env, r, s, f, i - 1)
  }

  function PendingOf(db: Db, s: Sid, f: string): Option<Pending> {
    if (s, f) in db.pending then Some(db.pending[(s, f)]) else None
  }

  /** What an act leaves of a pending row. */
  lemma ActPending(c: Core, a: Act, s: Sid, f: string)
    requires a.Issuing? ==> DistinctNames(a.sel)
    ensures var after := PendingOf(Apply(c, a).db, s, f);
      if a == Bumping(s) || a == Closing(s) || (a == Releasing(s) && f in Released(c.db, s)) then after.None?
      else !Overwrites(a, s, f) ==> after == PendingOf(c.db, s, f)
  {
    if a.Issuing? { HeldRowsMeans(a.ctx.sid, a.sel, Deps(a.sel), a.t, (s, f)); }
    if a == Releasing(s) { ReleasedMeans(c.db, s, f); }
  }

  lemma PendingMoves(env: Env, r: Trace, s: Sid, f: string, k: nat)
    requires IsRun(env, r) && k < |r.events|
    ensures var a, db := ActOf(env, r.states[k], r.events[k]), CalmDb(r.states[k], r.events[k]);
      var before, after := PendingOf(r.states[k].core.db, s, f), PendingOf(r.states[k + 1].core.db, s, f);
      if a == Bumping(s) || a == Closing(s) || (a == Releasing(s) && f in Released(db, s)) then after.None?
      else !Overwrites(a, s, f) ==> after == before
  {
    var w, e := r.states[k], r.events[k];
    RunTakes(env, r, k);
    ActPending(Core(CalmDb(w, e), w.core.hist), ActOf(env, w, e), s, f);
  }

  lemma HeldMeans(env: Env, r: Trace, s: Sid, f: string, k: nat)
    requires IsRun(env, r) && k < |r.events|
    ensures HeldAt(env, r, k, s, f) <==> Overwrites(ActOf(env, r.states[k], r.events[k]), s, f)
  {
    var act := ActOf(env, r.states[k], r.events[k]);
    if r.events[k].Evaluated? {
      Answered(env, r, k);
      if act.Issuing? {
        BatchIs(env, r, k);
        HeldInBatch(env, r, k, act.ctx.sid, act.sel, act.t, s, f);
      }
    }
  }

  lemma HeldInBatch(env: Env, r: Trace, k: nat, x: Sid, sel: seq<Selected>, t: int, s: Sid, f: string)
    requires k < |r.events| && |r.events| < |r.states| && IsBatch(env, r, k, x, sel, t)
    ensures (exists a :: HoldsFork(env, r, k, a, s, f)) <==> s == x && f in HeldNames(sel, Deps(sel))
  {
    forall a | 0 <= a < |sel|
      ensures RowAt(r, k, a).sid == x && RowAt(r, k, a).fork == sel[a].name && (Deps(sel)[a] != [] <==> Holds(env, r, k, a))
    {
      assert IsMember(env, r, k, x, sel[a], RowAt(r, k, a), t);
      HoldsExactly(env, r, k, x, sel, t, a);
    }
    if s == x && f in HeldNames(sel, Deps(sel)) {
      var a :| 0 <= a < |sel| && Deps(sel)[a] != [] && sel[a].name == f;
      assert HoldsFork(env, r, k, a, s, f);
    }
  }

  lemma ReleaseMeans(env: Env, r: Trace, s: Sid, f: string, k: nat)
    requires IsRun(env, r) && k < |r.events|
    ensures ReleasesAt(r, k, s, f) <==>
      ActOf(env, r.states[k], r.events[k]) == Releasing(s) && f in Released(CalmDb(r.states[k], r.events[k]), s)
  {
    assert StepAt(env, r, k);
    AnswerHands(env, r.states[k], r.events[k], s, f);
  }

  lemma EndsMeans(env: Env, r: Trace, s: Sid, k: nat)
    requires IsRun(env, r) && k < |r.events|
    ensures NewPause(env, r, k, s) <==> ActOf(env, r.states[k], r.events[k]) == Bumping(s)
    ensures Closes(r.states[k], r.events[k], s) <==> ActOf(env, r.states[k], r.events[k]) == Closing(s)
  {
    AdvancesExactly(env, r, k, s);
    ClosesIsClosing(env, r.states[k], r.events[k], s);
  }

  /** The pending row is that of the row of event `k` that holds the fork back. */
  ghost predicate PendingFrom(env: Env, r: Trace, k: nat, s: Sid, f: string, row: Pending)
    requires k < |r.events| && |r.events| < |r.states|
  {
    exists a :: HoldsFork(env, r, k, a, s, f) && IsHeldRow(env, r, k, a, row)
  }

  lemma HeldFrom(env: Env, r: Trace, s: Sid, f: string, k: nat)
    requires IsRun(env, r) && k < |r.events| && HeldAt(env, r, k, s, f)
    ensures PendingOf(r.states[k + 1].core.db, s, f).Some?
    ensures PendingFrom(env, r, k, s, f, PendingOf(r.states[k + 1].core.db, s, f).value)
  {
    var a :| HoldsFork(env, r, k, a, s, f);
    HeldAtIssue(env, r, k, a);
  }

  /** In every state of every run a fork is pending exactly when some event held it back and
      since then the session was neither closed nor began a new pause nor was handed the fork;
      and the pending row is the one of the last event to hold it back. */
  lemma {:induction false} PendingOnTrace(env: Env, r: Trace, s: Sid, f: string, i: nat)
    requires IsRun(env, r) && i <= |r.events|
    ensures (s, f) in r.states[i].core.db.pending <==> HeldSince(env, r, s, f, i).Some?
    ensures (s, f) in r.states[i].core.db.pending ==>
      PendingFrom(env, r, HeldSince(env, r, s, f, i).value, s, f, r.states[i].core.db.pending[(s, f)])
  {
    if i > 0 {
      var k := i - 1;
      PendingOnTrace(env, r, s, f, k);
      PendingMoves(env, r, s, f, k);
      HeldMeans(env, r, s, f, k);
      ReleaseMeans(env, r, s, f, k);
      EndsMeans(env, r, s, k);
      if HeldAt(env, r, k, s, f) { HeldFrom(env, r, s, f, k); }
    }
  }

  // ---- when it is released ----

  /** Spawn `id` of fork `p` has ended at or after `since`, as event `k` finds it. */
  predicate EndedBy(r: Trace, s: Sid, k: nat, id: string, p: string, since: int)
    requires k < |r.events| < |r.states|
  {
    var row := CaughtUp(r, s, id, k);
    && row.Some? && row.value.name == Some(p)
    && (row.value.status == Completed || row.value.status == Failed || row.value.status == Registry.Stopped)
    && row.value.terminalAt.Some? && row.value.terminalAt.value >= since
  }

  /** Every name on the pending row's list has a spawn that ended since the hold. */
  ghost predicate AllEnded(r: Trace, s: Sid, k: nat, row: Pending)
    requires k < |r.events| < |r.states|
  {
    forall p :: p in Columns.SplitTags(row.preds) ==> exists id :: EndedBy(r, s, k, id, p, row.createdAt)
  }

  lemma EndedExactly(env: Env, r: Trace, s: Sid, k: nat, p: string, since: int)
    requires IsRun(env, r) && k < |r.events| && r.events[k].Stopped? && r.events[k].sid == s
    ensures CompletedSince(SpawnsOf(StopDb(r.states[k].core.db, r.events[k]), s), p, since) <==> exists id :: EndedBy(r, s, k, id, p, since)
  {
    var reg := SpawnsOf(StopDb(r.states[k].core.db, r.events[k]), s);
    forall id ensures Lookup(reg, id) == CaughtUp(r, s, id, k) { StopSees(env, r, s, id, k); }
    if CompletedSince(reg, p, since) {
      var id :| id in reg && FinishedSince(reg[id], p, since);
      assert Lookup(reg, id).Some?;
      assert EndedBy(r, s, k, id, p, since);
    }
    if id :| EndedBy(r, s, k, id, p, since) {
      assert Lookup(reg, id) == CaughtUp(r, s, id, k);
      assert FinishedSince(reg[id], p, since);
    }
  }

  lemma ReleasableExactly(env: Env, r: Trace, s: Sid, k: nat, row: Pending)
    requires IsRun(env, r) && k < |r.events| && r.events[k].Stopped? && r.events[k].sid == s
    ensures Releasable(SpawnsOf(StopDb(r.states[k].core.db, r.events[k]), s), row) <==> AllEnded(r, s, k, row)
  {
    forall p ensures CompletedSince(SpawnsOf(StopDb(r.states[k].core.db, r.events[k]), s), p, row.createdAt) <==>
                     exists id :: EndedBy(r, s, k, id, p, row.createdAt) {
      EndedExactly(env, r, s, k, p, row.createdAt);
    }
  }

  /** The fork is pending before event `k` and everything it waits for has ended. */
  ghost predicate IsDue(r: Trace, s: Sid, k: nat, f: string)
    requires k < |r.events| < |r.states|
  {
    (s, f) in r.states[k].core.db.pending && AllEnded(r, s, k, r.states[k].core.db.pending[(s, f)])
  }

  lemma DueExactly(env: Env, r: Trace, s: Sid, k: nat, f: string)
    requires IsRun(env, r) && k < |r.events| && r.events[k].Stopped? && r.events[k].sid == s
    ensures StopDb(r.states[k].core.db, r.events[k]).pending == r.states[k].core.db.pending
    ensures Releases(StopDb(r.states[k].core.db, r.events[k]), s, f) <==> IsDue(r, s, k, f)
  {
    StopCalm(r.states[k].core.db, r.events[k]);
    if (s, f) in r.states[k].core.db.pending { ReleasableExactly(env, r, s, k, r.states[k].core.db.pending[(s, f)]); }
  }

  /** Over every run: a Stop hands over exactly the pending forks of its session whose awaited
      forks have all ended since the hold, and is answered with a wake exactly when there are
      any. */
  lemma ReleasedExactly(env: Env, r: Trace, k: nat, f: string)
    requires IsRun(env, r) && k < |r.events| && r.events[k].Stopped?
    ensures BlocksTo(r.answers[k], r.events[k].sid, f) == if IsDue(r, r.events[k].sid, k, f) then 1 else 0
    ensures r.answers[k].Woke? <==> exists f :: IsDue(r, r.events[k].sid, k, f)
  {
    var s, db := r.events[k].sid, StopDb(r.states[k].core.db, r.events[k]);
    forall g ensures g in Released(db, s) <==> IsDue(r, s, k, g) {
      DueExactly(env, r, s, k, g);
      ReleasedMeans(db, s, g);
    }
    StopAnswer(env, r, k);
    assert StepAt(env, r, k);
    StopBlocks(env, r.states[k], r.events[k], s, f);
  }

  lemma StopAnswer(env: Env, r: Trace, k: nat)
    requires IsRun(env, r) && k < |r.events| && r.events[k].Stopped?
    ensures var s, db := r.events[k].sid, StopDb(r.states[k].core.db, r.events[k]);
      && ListsPending(r.events[k].order, db, s)
      && r.answers[k] == if Released(db, s) != {} then Woke(s, ReleaseBlocks(db, s, r.events[k].order)) else Quiet
  {
    assert StepAt(env, r, k);
  }

  // ---- what it says ----

  /** The block of a released fork: what its pending row says. */
  ghost predicate IsReleaseBlock(r: Trace, k: nat, s: Sid, f: string, b: Block)
    requires k < |r.states|
  {
    && (s, f) in r.states[k].core.db.pending
    && var row := r.states[k].core.db.pending[(s, f)];
       b == Block(f, row.path, row.trigger, row.overlap, Columns.SplitTags(row.preds))
  }

  lemma {:induction false} ReleasePlaces(db: Db, s: Sid, order: seq<string>) returns (p: seq<nat>)
    ensures var blocks := ReleaseBlocks(db, s, order);
      |p| == |blocks| && Schedule.Rising(p) &&
      forall i :: 0 <= i < |p| ==> p[i] < |order| && Releases(db, s, order[p[i]]) && blocks[i] == ReleaseBlock(order[p[i]], db.pending[(s, order[p[i]])])
    ensures forall a: nat :: a in p <==> a < |order| && Releases(db, s, order[a])
  {
    p := [];
    if order != [] {
      p := ReleasePlaces(db, s, order[..|order| - 1]);
      if Releases(db, s, order[|order| - 1]) {
        Schedule.RisingSnoc(p, |order| - 1);
        p := p + [|order| - 1];
      }
    }
  }

  /** The blocks come in the order the pending rows were listed, and each says what the pending
      row says. */
  lemma ReleaseSays(env: Env, r: Trace, k: nat) returns (p: seq<nat>)
    requires IsRun(env, r) && k < |r.events| && r.events[k].Stopped? && r.answers[k].Woke?
    ensures |p| == |r.answers[k].blocks| && Schedule.Rising(p)
    ensures forall i :: 0 <= i < |p| ==>
      p[i] < |r.events[k].order| && IsReleaseBlock(r, k, r.events[k].sid, r.events[k].order[p[i]], r.answers[k].blocks[i])
    ensures forall a: nat :: a in p <==> a < |r.events[k].order| && IsDue(r, r.events[k].sid, k, r.events[k].order[a])
  {
    var s, order, db := r.events[k].sid, r.events[k].order, StopDb(r.states[k].core.db, r.events[k]);
    StopAnswer(env, r, k);
    p := ReleasePlaces(db, s, order);
    forall a: nat | a < |order| ensures Releases(db, s, order[a]) <==> IsDue(r, s, k, order[a]) { DueExactly(env, r, s, k, order[a]); }
    DueExactly(env, r, s, k, "");
  }
}
