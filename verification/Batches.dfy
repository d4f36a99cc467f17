/** What a poll makes of the forks it issues: which go out at once, which are held, on whose
    account and in what order, told by the recorded rows and the fork files. */
module Batches {
  import opened Text
  import opened Store
  import opened Planner
  import opened Core
  import opened Progress
  import opened Acts
  import opened Machine
  import opened Runs
  import opened Deliveries
  import opened Rosters
  import opened Rows
  import Columns
  import Moments
  import Schedule

  // ---- the rows of one event ----

  /** How many rows event `k` records; they are numbered from 0 here. */
  function Size(r: Trace, k: nat): nat
    requires k + 1 < |r.states|
  {
    var n, m := |r.states[k].core.db.runs|, |r.states[k + 1].core.db.runs|;
    if m >= n then m - n else 0
  }

  function RowAt(r: Trace, k: nat, a: nat): Run
    requires k + 1 < |r.states| && a < Size(r, k)
  {
    r.states[k + 1].core.db.runs[|r.states[k].core.db.runs| + a]
  }

  /** The forks row `a` is to come after, as its file lists them. */
  function AfterOf(env: Env, r: Trace, k: nat, a: nat): seq<string>
    requires k < |r.events| && |r.events| < |r.states| && a < Size(r, k)
  {
    match FileAt(env, r, RowAt(r, k, a).sid, RowAt(r, k, a).fork, k)
    case Some(def) => def.after
    case None => []
  }

  /** Row `a` names the fork of another row `b`. */
  predicate Mentions(env: Env, r: Trace, k: nat, a: nat, b: nat)
    requires k < |r.events| && |r.events| < |r.states|
  {
    a < Size(r, k) && b < Size(r, k) && a != b && RowAt(r, k, b).fork in AfterOf(env, r, k, a)
  }

  /** Each row of the chain mentions the next, and none comes before row `lo`. */
  ghost predicate Chain(env: Env, r: Trace, k: nat, lo: nat, p: seq<nat>)
    requires k < |r.events| && |r.events| < |r.states|
  {
    && p != [] && (forall i :: 0 <= i < |p| ==> lo <= p[i] < Size(r, k))
    && forall i :: 0 <= i < |p| - 1 ==> Mentions(env, r, k, p[i], p[i + 1])
  }

  /** Some chain from row `b` through rows from `lo` on comes back on itself. */
  ghost predicate GoesRound(env: Env, r: Trace, k: nat, lo: nat, b: nat)
    requires k < |r.events| && |r.events| < |r.states|
  {
    exists p :: Chain(env, r, k, lo, p) && p[0] == b && Schedule.Repeats(p)
  }

  /** Row `a` waits for row `b`: it mentions its fork, and no chain from there goes round
      through rows from `a` on. */
  ghost predicate AwaitsRow(env: Env, r: Trace, k: nat, a: nat, b: nat)
    requires k < |r.events| && |r.events| < |r.states|
  {
    Mentions(env, r, k, a, b) && !GoesRound(env, r, k, a, b)
  }

  ghost predicate Holds(env: Env, r: Trace, k: nat, a: nat)
    requires k < |r.events| && |r.events| < |r.states|
  {
    exists b :: AwaitsRow(env, r, k, a, b)
  }

  /** The spawn-now block of row `a`: the fork under its roster path, the trigger recorded with
      it, and whether its file lets it overlap. */
  ghost predicate IsRootBlock(env: Env, r: Trace, k: nat, a: nat, b: Block)
    requires k < |r.events| && |r.events| < |r.states| && a < Size(r, k)
  {
    var run := RowAt(r, k, a);
    && PathAt(r, run.sid, run.fork, k) == Some(b.path) && b.path in env.files
    && b == Block(run.fork, b.path, run.trigger, env.files[b.path].overlap, [])
  }

  /** The names a dependent waits for: in the order of its file, exactly those of the rows it
      awaits. */
  ghost predicate ArePreds(env: Env, r: Trace, k: nat, a: nat, names: seq<string>, places: seq<nat>)
    requires k < |r.events| && |r.events| < |r.states| && a < Size(r, k)
  {
    && |places| == |names| && Schedule.Rising(places)
    && (forall i :: 0 <= i < |names| ==> places[i] < |AfterOf(env, r, k, a)| && names[i] == AfterOf(env, r, k, a)[places[i]])
    && forall name :: name in names <==> exists b: nat :: AwaitsRow(env, r, k, a, b) && RowAt(r, k, b).fork == name
  }

  /** The pending row of a held row `a`. */
  ghost predicate IsHeldRow(env: Env, r: Trace, k: nat, a: nat, row: Pending)
    requires k < |r.events| && |r.events| < |r.states| && a < Size(r, k)
  {
    var run := RowAt(r, k, a);
    && PathAt(r, run.sid, run.fork, k) == Some(row.path) && row.path in env.files
    && row.trigger == run.trigger && row.overlap == env.files[row.path].overlap && row.createdAt == run.at
    && exists names, places :: row.preds == Columns.Join(names) && ArePreds(env, r, k, a, names, places)
  }

  // ---- the batch behind the rows ----

  ghost predicate IsMember(env: Env, r: Trace, k: nat, s: Sid, x: Selected, run: Run, t: int)
    requires k < |r.events| && |r.events| < |r.states|
  {
    && run == RunOf(s, x, t) && PathAt(r, s, x.name, k) == Some(x.path) && x.path in env.files
    && x.after == env.files[x.path].after && x.overlap == env.files[x.path].overlap
  }

  ghost predicate IsBatch(env: Env, r: Trace, k: nat, s: Sid, sel: seq<Selected>, t: int)
    requires k < |r.events| && |r.events| < |r.states|
  {
    && Size(r, k) == |sel| && DistinctNames(sel)
    && forall a :: 0 <= a < |sel| ==> IsMember(env, r, k, s, sel[a], RowAt(r, k, a), t)
  }

  lemma BatchIs(env: Env, r: Trace, k: nat)
    requires IsRun(env, r) && k < |r.events| && ActOf(env, r.states[k], r.events[k]).Issuing?
    ensures var a := ActOf(env, r.states[k], r.events[k]); IsBatch(env, r, k, a.ctx.sid, a.sel, a.t)
  {
    var act := ActOf(env, r.states[k], r.events[k]);
    RunTakes(env, r, k);
    RunsMove(env, r, k);
    forall a | 0 <= a < |act.sel| ensures IsMember(env, r, k, act.ctx.sid, act.sel[a], RowAt(r, k, a), act.t) {
      MemberIs(env, r, k, a);
    }
  }

  lemma EdgesAre(env: Env, r: Trace, k: nat, s: Sid, sel: seq<Selected>, t: int, a: nat, b: nat)
    requires k < |r.events| && |r.events| < |r.states| && IsBatch(env, r, k, s, sel, t) && a < |sel|
    ensures b in Schedule.NameGraph(Nodes(sel))[a] <==> Mentions(env, r, k, a, b)
  {
    Schedule.NameGraphExactly(Nodes(sel), a, b);
    assert IsMember(env, r, k, s, sel[a], RowAt(r, k, a), t);
    if b < |sel| { assert IsMember(env, r, k, s, sel[b], RowAt(r, k, b), t); }
  }

  lemma CyclesAre(env: Env, r: Trace, k: nat, s: Sid, sel: seq<Selected>, t: int, a: nat, p: seq<nat>)
    requires k < |r.events| && |r.events| < |r.states| && IsBatch(env, r, k, s, sel, t)
    ensures p != [] && Schedule.CyclePath(Schedule.NameGraph(Nodes(sel)), p[0], p) && Schedule.From(p, a) <==>
            Chain(env, r, k, a, p) && Schedule.Repeats(p)
  {
    var g := Schedule.NameGraph(Nodes(sel));
    forall i | 0 <= i < |p| - 1 && p[i] < |sel| ensures p[i + 1] in g[p[i]] <==> Mentions(env, r, k, p[i], p[i + 1]) {
      EdgesAre(env, r, k, s, sel, t, p[i], p[i + 1]);
    }
  }

  lemma DoomedIs(env: Env, r: Trace, k: nat, s: Sid, sel: seq<Selected>, t: int, a: nat, b: nat)
    requires k < |r.events| && |r.events| < |r.states| && IsBatch(env, r, k, s, sel, t)
    ensures Schedule.Doomed(Schedule.NameGraph(Nodes(sel)), a, b) <==> GoesRound(env, r, k, a, b)
  {
    var g := Schedule.NameGraph(Nodes(sel));
    if Schedule.Doomed(g, a, b) {
      var p :| Schedule.CyclePath(g, b, p) && Schedule.From(p, a);
      CyclesAre(env, r, k, s, sel, t, a, p);
    }
    if GoesRound(env, r, k, a, b) {
      var p :| Chain(env, r, k, a, p) && p[0] == b && Schedule.Repeats(p);
      CyclesAre(env, r, k, s, sel, t, a, p);
    }
  }

  /** The dependencies a batch resolves to are the rows awaited. */
  lemma DepsAre(env: Env, r: Trace, k: nat, s: Sid, sel: seq<Selected>, t: int, a: nat, b: nat)
    requires k < |r.events| && |r.events| < |r.states| && IsBatch(env, r, k, s, sel, t) && a < |sel|
    ensures b in Deps(sel)[a] <==> AwaitsRow(env, r, k, a, b)
  {
    var g := Schedule.NameGraph(Nodes(sel));
    Schedule.NameGraphWellIndexed(Nodes(sel));
    Schedule.ResolveIsSpared(g, a);
    EdgesAre(env, r, k, s, sel, t, a, b);
    DoomedIs(env, r, k, s, sel, t, a, b);
  }

  lemma HoldsExactly(env: Env, r: Trace, k: nat, s: Sid, sel: seq<Selected>, t: int, a: nat)
    requires k < |r.events| && |r.events| < |r.states| && IsBatch(env, r, k, s, sel, t) && a < |sel|
    ensures Deps(sel)[a] != [] <==> Holds(env, r, k, a)
  {
    if Deps(sel)[a] != [] {
      assert Deps(sel)[a][0] in Deps(sel)[a];
      DepsAre(env, r, k, s, sel, t, a, Deps(sel)[a][0]);
    }
    if b :| AwaitsRow(env, r, k, a, b) { DepsAre(env, r, k, s, sel, t, a, b); }
  }

  // ---- what goes out at once ----

  lemma {:induction false} RootPlaces(sel: seq<Selected>, deps: Schedule.Graph, n: nat) returns (p: seq<nat>)
    requires n <= |sel| == |deps|
    ensures var blocks := RootBlocks(sel, deps, n);
      |p| == |blocks| && Schedule.Rising(p) && forall i :: 0 <= i < |p| ==> p[i] < n && blocks[i] == RootBlock(sel[p[i]])
    ensures forall a: nat :: a in p <==> a < n && deps[a] == []
  {
    p := [];
    if n > 0 {
      p := RootPlaces(sel, deps, n - 1);
      if deps[n - 1] == [] {
        Schedule.RisingSnoc(p, n - 1);
        p := p + [n - 1];
      }
    }
  }

  lemma RootIs(env: Env, r: Trace, k: nat, s: Sid, sel: seq<Selected>, t: int, a: nat)
    requires k < |r.events| && |r.events| < |r.states| && IsBatch(env, r, k, s, sel, t) && a < |sel|
    ensures IsRootBlock(env, r, k, a, RootBlock(sel[a]))
  {
    assert IsMember(env, r, k, s, sel[a], RowAt(r, k, a), t);
  }

  /** The blocks stand, in order, for the rows that await no other. */
  ghost predicate AreRootBlocks(env: Env, r: Trace, k: nat, blocks: seq<Block>, p: seq<nat>)
    requires k < |r.events| && |r.events| < |r.states|
  {
    && |p| == |blocks| && Schedule.Rising(p)
    && (forall i :: 0 <= i < |p| ==> p[i] < Size(r, k) && IsRootBlock(env, r, k, p[i], blocks[i]))
    && forall a: nat :: a in p <==> a < Size(r, k) && !Holds(env, r, k, a)
  }

  lemma RootsOf(env: Env, r: Trace, k: nat, s: Sid, sel: seq<Selected>, t: int) returns (p: seq<nat>)
    requires k < |r.events| && |r.events| < |r.states| && IsBatch(env, r, k, s, sel, t)
    ensures AreRootBlocks(env, r, k, RootBlocks(sel, Deps(sel), |sel|), p)
  {
    p := RootPlaces(sel, Deps(sel), |sel|);
    forall a: nat | a < |sel|
      ensures Deps(sel)[a] != [] <==> Holds(env, r, k, a)
      ensures IsRootBlock(env, r, k, a, RootBlock(sel[a]))
    {
      HoldsExactly(env, r, k, s, sel, t, a);
      RootIs(env, r, k, s, sel, t, a);
    }
  }

  /** Over every run: an evaluation that records nothing is not answered. One that records rows
      is answered with exactly one block for every row that awaits no other, in the order of the
      rows, carrying what the row and its file say. */
  lemma RootsGoOut(env: Env, r: Trace, k: nat) returns (p: seq<nat>)
    requires IsRun(env, r) && k < |r.events| && r.events[k].Evaluated?
    ensures r.answers[k].Woke? <==> Size(r, k) > 0
    ensures r.answers[k].Woke? ==> AreRootBlocks(env, r, k, r.answers[k].blocks, p)
  {
    p := [];
    var act := ActOf(env, r.states[k], r.events[k]);
    Answered(env, r, k);
    if act.Issuing? {
      BatchIs(env, r, k);
      p := RootsOf(env, r, k, act.ctx.sid, act.sel, act.t);
    }
  }

  lemma Answered(env: Env, r: Trace, k: nat)
    requires IsRun(env, r) && k < |r.events| && r.events[k].Evaluated?
    ensures match ActOf(env, r.states[k], r.events[k])
      case Issuing(ctx, _, _, sel) =>
        sel != [] && Size(r, k) == |sel| && DistinctNames(sel) && r.answers[k] == Woke(ctx.sid, RootBlocks(sel, Deps(sel), |sel|))
      case a => a == Nothing && Size(r, k) == 0 && r.answers[k] == Quiet
  {
    RunsMove(env, r, k);
    assert StepAt(env, r, k);
    EvaluateAnswer(env, r.states[k], r.events[k]);
  }

  // ---- what is held ----

  lemma {:induction false} SparedPlaces(g: Schedule.Graph, i: nat, s: seq<nat>) returns (p: seq<nat>)
    ensures var d := Schedule.Spared(g, i, s);
      |p| == |d| && Schedule.Rising(p) && forall j :: 0 <= j < |d| ==> p[j] < |s| && s[p[j]] == d[j]
  {
    p := [];
    if s != [] {
      p := SparedPlaces(g, i, s[..|s| - 1]);
      if !Schedule.Doomed(g, i, s[|s| - 1]) {
        Schedule.RisingSnoc(p, |s| - 1);
        p := p + [|s| - 1];
      }
    }
  }

  lemma RisingThrough(a: seq<nat>, b: seq<nat>) returns (p: seq<nat>)
    requires Schedule.Rising(a) && Schedule.Rising(b) && forall i :: 0 <= i < |b| ==> b[i] < |a|
    ensures |p| == |b| && Schedule.Rising(p) && forall i :: 0 <= i < |b| ==> p[i] == a[b[i]]
  {
    p := seq(|b|, (i: nat) requires i < |b| => a[b[i]]);
  }

  /** The stored predecessors stand in the order of the file. */
  lemma DepPlaces(sel: seq<Selected>, a: nat) returns (p: seq<nat>)
    requires a < |sel|
    ensures var d := Deps(sel)[a];
      |p| == |d| && Schedule.Rising(p) && forall i :: 0 <= i < |d| ==> p[i] < |sel[a].after| && sel[a].after[p[i]] == sel[d[i]].name
  {
    var nodes := Nodes(sel);
    var g := Schedule.NameGraph(nodes);
    Schedule.NameGraphWellIndexed(nodes);
    Schedule.ResolveIsSpared(g, a);
    p := ThinnedPlaces(nodes, a);
    assert nodes[a].after == sel[a].after;
    forall i | 0 <= i < |Deps(sel)[a]| ensures sel[a].after[p[i]] == sel[Deps(sel)[a][i]].name {
      assert nodes[Deps(sel)[a][i]].name == sel[Deps(sel)[a][i]].name;
    }
  }

  lemma ThinnedPlaces(nodes: seq<Schedule.Node>, a: nat) returns (p: seq<nat>)
    requires a < |nodes|
    ensures var d := Schedule.Spared(Schedule.NameGraph(nodes), a, Schedule.NameGraph(nodes)[a]);
      |p| == |d| && Schedule.Rising(p) &&
      forall i :: 0 <= i < |d| ==> p[i] < |nodes[a].after| && d[i] < |nodes| && nodes[a].after[p[i]] == nodes[d[i]].name
  {
    var g := Schedule.NameGraph(nodes);
    var u := Schedule.NameGraphInOrder(nodes, a);
    var v := SparedPlaces(g, a, g[a]);
    p := RisingThrough(u, v);
  }

  lemma PredsAre(env: Env, r: Trace, k: nat, s: Sid, sel: seq<Selected>, t: int, a: nat)
    requires k < |r.events| && |r.events| < |r.states| && IsBatch(env, r, k, s, sel, t) && a < |sel|
    ensures exists places :: ArePreds(env, r, k, a, Preds(sel, Deps(sel)[a]), places)
  {
    var d := Deps(sel)[a];
    var names := Preds(sel, d);
    var places := DepPlaces(sel, a);
    assert IsMember(env, r, k, s, sel[a], RowAt(r, k, a), t);
    forall name ensures name in names <==> exists b: nat :: AwaitsRow(env, r, k, a, b) && RowAt(r, k, b).fork == name {
      PredIs(env, r, k, s, sel, t, a, name);
    }
    assert ArePreds(env, r, k, a, names, places);
  }

  lemma PredIs(env: Env, r: Trace, k: nat, s: Sid, sel: seq<Selected>, t: int, a: nat, name: string)
    requires k < |r.events| && |r.events| < |r.states| && IsBatch(env, r, k, s, sel, t) && a < |sel|
    ensures name in Preds(sel, Deps(sel)[a]) <==> exists b: nat :: AwaitsRow(env, r, k, a, b) && RowAt(r, k, b).fork == name
  {
    var d := Deps(sel)[a];
    if name in Preds(sel, d) {
      var i :| 0 <= i < |d| && Preds(sel, d)[i] == name;
      DepsAre(env, r, k, s, sel, t, a, d[i]);
      assert IsMember(env, r, k, s, sel[d[i]], RowAt(r, k, d[i]), t);
    }
    if b: nat :| AwaitsRow(env, r, k, a, b) && RowAt(r, k, b).fork == name {
      DepsAre(env, r, k, s, sel, t, a, b);
      var i :| 0 <= i < |d| && d[i] == b;
      assert IsMember(env, r, k, s, sel[b], RowAt(r, k, b), t);
      assert Preds(sel, d)[i] == name;
    }
  }

  lemma HeldIs(env: Env, r: Trace, k: nat, s: Sid, sel: seq<Selected>, t: int, a: nat)
    requires k < |r.events| && |r.events| < |r.states| && IsBatch(env, r, k, s, sel, t) && a < |sel|
    ensures IsHeldRow(env, r, k, a, HeldRow(sel[a], Preds(sel, Deps(sel)[a]), t))
  {
    PredsAre(env, r, k, s, sel, t, a);
    assert IsMember(env, r, k, s, sel[a], RowAt(r, k, a), t);
  }

  lemma HeldAtIssue(env: Env, r: Trace, k: nat, a: nat)
    requires IsRun(env, r) && k < |r.events| && r.events[k].Evaluated? && a < Size(r, k) && Holds(env, r, k, a)
    ensures (RowAt(r, k, a).sid, RowAt(r, k, a).fork) in r.states[k + 1].core.db.pending
    ensures IsHeldRow(env, r, k, a, r.states[k + 1].core.db.pending[(RowAt(r, k, a).sid, RowAt(r, k, a).fork)])
  {
    var w, e, act := r.states[k], r.events[k], ActOf(env, r.states[k], r.events[k]);
    Answered(env, r, k);
    BatchIs(env, r, k);
    HoldsExactly(env, r, k, act.ctx.sid, act.sel, act.t, a);
    HeldIs(env, r, k, act.ctx.sid, act.sel, act.t, a);
    assert IsMember(env, r, k, act.ctx.sid, act.sel[a], RowAt(r, k, a), act.t);
    RunTakes(env, r, k);
    HeldRowAt(act.ctx.sid, act.sel, Deps(act.sel), act.t, a);
  }

  /** Over every run: a row is held back exactly when it awaits another row of its event. Then no
      block goes out for it, and its pending row carries what the row and its file say and names
      exactly the forks of the rows it awaits. */
  lemma HeldExactly(env: Env, r: Trace, k: nat, a: nat)
    requires IsRun(env, r) && k < |r.events| && r.events[k].Evaluated? && a < Size(r, k)
    ensures var run := RowAt(r, k, a);
      if Holds(env, r, k, a) then
        && BlocksTo(r.answers[k], run.sid, run.fork) == 0
        && (run.sid, run.fork) in r.states[k + 1].core.db.pending
        && IsHeldRow(env, r, k, a, r.states[k + 1].core.db.pending[(run.sid, run.fork)])
      else BlocksTo(r.answers[k], run.sid, run.fork) == 1
  {
    BlocksOfRow(env, r, k, a);
    if Holds(env, r, k, a) { HeldAtIssue(env, r, k, a); }
  }

  lemma BlocksOfRow(env: Env, r: Trace, k: nat, a: nat)
    requires IsRun(env, r) && k < |r.events| && r.events[k].Evaluated? && a < Size(r, k)
    ensures BlocksTo(r.answers[k], RowAt(r, k, a).sid, RowAt(r, k, a).fork) == if Holds(env, r, k, a) then 0 else 1
  {
    var act := ActOf(env, r.states[k], r.events[k]);
    Answered(env, r, k);
    BatchIs(env, r, k);
    BlocksOfMember(env, r, k, act.ctx.sid, act.sel, act.t, a);
  }

  lemma BlocksOfMember(env: Env, r: Trace, k: nat, s: Sid, sel: seq<Selected>, t: int, a: nat)
    requires k < |r.events| && |r.events| < |r.states| && IsBatch(env, r, k, s, sel, t) && a < |sel|
    ensures RowAt(r, k, a).sid == s
    ensures BlocksFor(RootBlocks(sel, Deps(sel), |sel|), RowAt(r, k, a).fork) == if Holds(env, r, k, a) then 0 else 1
  {
    HoldsExactly(env, r, k, s, sel, t, a);
    assert IsMember(env, r, k, s, sel[a], RowAt(r, k, a), t);
    RootBlocksCount(sel, Deps(sel), |sel|, sel[a].name);
    if RootNamed(sel, Deps(sel), |sel|, sel[a].name) {
      var i :| 0 <= i < |sel| && Deps(sel)[i] == [] && sel[i].name == sel[a].name;
    }
  }

  /** In particular: a row that mentions the fork of another from which no chain goes round gets no
      block, and its pending row names that fork. */
  lemma MentionHolds(env: Env, r: Trace, k: nat, a: nat, b: nat)
    requires IsRun(env, r) && k < |r.events| && r.events[k].Evaluated?
    requires Mentions(env, r, k, a, b) && !GoesRound(env, r, k, 0, b)
    ensures BlocksTo(r.answers[k], RowAt(r, k, a).sid, RowAt(r, k, a).fork) == 0
    ensures (RowAt(r, k, a).sid, RowAt(r, k, a).fork) in r.states[k + 1].core.db.pending
    ensures NamesPred(r.states[k + 1].core.db.pending[(RowAt(r, k, a).sid, RowAt(r, k, a).fork)], RowAt(r, k, b).fork)
  {
    if GoesRound(env, r, k, a, b) { RoundFrom(env, r, k, a, b); }
    assert AwaitsRow(env, r, k, a, b);
    HeldExactly(env, r, k, a);
    AwaitedIsNamed(env, r, k, a, b, r.states[k + 1].core.db.pending[(RowAt(r, k, a).sid, RowAt(r, k, a).fork)]);
  }

  /** The fork is on the list stored with the pending row. */
  ghost predicate NamesPred(row: Pending, fork: string) {
    exists names :: fork in names && row.preds == Columns.Join(names)
  }

  lemma AwaitedIsNamed(env: Env, r: Trace, k: nat, a: nat, b: nat, row: Pending)
    requires k < |r.events| && |r.events| < |r.states| && AwaitsRow(env, r, k, a, b) && IsHeldRow(env, r, k, a, row)
    ensures NamesPred(row, RowAt(r, k, b).fork)
  {
    var names, places :| row.preds == Columns.Join(names) && ArePreds(env, r, k, a, names, places);
    assert RowAt(r, k, b).fork in names;
  }

  lemma RoundFrom(env: Env, r: Trace, k: nat, lo: nat, b: nat)
    requires k < |r.events| && |r.events| < |r.states| && GoesRound(env, r, k, lo, b)
    ensures GoesRound(env, r, k, 0, b)
  {
    var p :| Chain(env, r, k, lo, p) && p[0] == b && Schedule.Repeats(p);
    assert Chain(env, r, k, 0, p);
  }

  // ---- in which order ----

  lemma {:induction false} SelectPlaces(db: Db, files: Files, ctx: Ctx, moments: seq<Moments.Moment>, t: int, order: seq<string>)
    returns (p: seq<nat>)
    ensures var sel := Select(db, files, ctx, moments, t, order);
      |p| == |sel| && Schedule.Rising(p) && forall i :: 0 <= i < |sel| ==> p[i] < |order| && order[p[i]] == sel[i].name
  {
    p := [];
    if order != [] {
      p := SelectPlaces(db, files, ctx, moments, t, order[..|order| - 1]);
      if Fires(db, files, ctx, moments, t, order[|order| - 1]) {
        Schedule.RisingSnoc(p, |order| - 1);
        p := p + [|order| - 1];
      }
    }
  }


  /** The rows of an event follow the order in which the roster was listed. */
  lemma RowsInOrder(env: Env, r: Trace, k: nat) returns (p: seq<nat>)
    requires IsRun(env, r) && k < |r.events| && r.events[k].Evaluated?
    ensures |p| == Size(r, k) && Schedule.Rising(p)
    ensures forall a :: 0 <= a < |p| ==> p[a] < |r.events[k].order| && r.events[k].order[p[a]] == RowAt(r, k, a).fork
  {
    p := [];
    var w, e, act := r.states[k], r.events[k], ActOf(env, r.states[k], r.events[k]);
    Answered(env, r, k);
    if act.Issuing? {
      BatchIs(env, r, k);
      p := SelectPlaces(CalmDb(w, e), env.files, act.ctx, act.moments, act.t, e.order);
      forall a | 0 <= a < |act.sel| ensures act.sel[a].name == RowAt(r, k, a).fork {
        assert IsMember(env, r, k, act.ctx.sid, act.sel[a], RowAt(r, k, a), act.t);
      }
    }
  }
}
