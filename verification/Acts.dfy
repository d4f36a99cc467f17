/** One step of the daemon on its tables: something calm, then at most one of four acts.
    Every invariant is kept by every step. */
module Acts {
  import opened Text
  import opened Registry
  import opened Store
  import opened Planner
  import opened Core
  import opened Latches
  import opened Throttles
  import opened Ledger
  import opened Progress
  import Moments
  import Schedule

  datatype Act =
    | Nothing
    | Bumping(s: Sid)
    | Closing(s: Sid)
    | Releasing(s: Sid)
    | Issuing(ctx: Ctx, moments: seq<Moments.Moment>, t: int, sel: seq<Selected>)

  ghost predicate Permitted(files: Files, c: Core, a: Act) {
    match a
    case Releasing(s) => Released(c.db, s) != {}
    case Issuing(ctx, moments, t, sel) =>
      && sel != [] && DistinctNames(sel) && ctx.sid in c.db.sessions && ctx.epoch == EpochOf(c.db, ctx.sid)
      && SoundBatch(c.db, files, ctx, moments, t, sel)
    case _ => true
  }

  ghost function Apply(c: Core, a: Act): Core
    requires a.Issuing? ==> DistinctNames(a.sel)
  {
    match a
    case Nothing => c
    case Bumping(s) => Bump(c, s)
    case Closing(s) => CloseLeg(c, s)
    case Releasing(s) => Release(c, s)
    case Issuing(ctx, _, t, sel) => IssueBatch(c, ctx.sid, sel, t)
  }

  /** `c` becomes `d` by recording calm changes and then acting. */
  ghost predicate Takes(files: Files, c: Core, db: Db, a: Act, d: Core) {
    Calm(c.db, db) && Permitted(files, Core(db, c.hist), a) && d == Apply(Core(db, c.hist), a)
  }

  /** What holds in every reachable state, whatever the inputs. */
  ghost predicate CoreInv(files: Files, c: Core) {
    LatchInv(files, c) && ThrottleInv(files, c) && LedgerInv(c)
  }

  lemma InvInitial(files: Files)
    ensures CoreInv(files, INITIAL)
  {
    LatchInitial(files);
    LedgerInitial();
  }

  lemma CalmKeeps(files: Files, c: Core, db: Db)
    requires CoreInv(files, c) && Calm(c.db, db)
    ensures CoreInv(files, Core(db, c.hist))
  {
    CalmLatch(files, c, db);
    CalmThrottle(files, c, db);
    CalmLedger(c, db);
  }

  /** The batch as latches and throttles see it. */
  lemma IssueShape(c: Core, s: Sid, sel: seq<Selected>, t: int)
    requires DistinctNames(sel)
    ensures var d := IssueBatch(c, s, sel, t);
      && LatchStep(c, d, s, sel, t) && d.hist.batches == c.hist.batches + 1
      && d.db.runs == c.db.runs + RunRows(s, sel, t, |sel|)
      && d.db.roster == Touched(c.db.roster, s, sel, t, |sel|)
  {
    IssueAppends(c.hist, s, sel, Deps(sel), Schedule.Rank(Deps(sel)), t);
    TouchedKeeps(c.db.roster, s, sel, t);
  }

  lemma IssueKeeps(files: Files, c: Core, ctx: Ctx, moments: seq<Moments.Moment>, t: int, sel: seq<Selected>)
    requires CoreInv(files, c) && Permitted(files, c, Issuing(ctx, moments, t, sel))
    ensures CoreInv(files, IssueBatch(c, ctx.sid, sel, t))
  {
    var d := IssueBatch(c, ctx.sid, sel, t);
    assert LegStart(c.hist, ctx.sid) <= |c.hist.issues| && LegEpoch(c.hist, ctx.sid) <= EpochOf(c.db, ctx.sid);
    IssueShape(c, ctx.sid, sel, t);
    IssueLatch(files, c, d, ctx, moments, t, sel);
    IssueThrottle(files, c, d, ctx, moments, t, sel);
    IssueLedger(c, ctx.sid, sel, t);
  }

  lemma ActKeeps(files: Files, c: Core, a: Act)
    requires CoreInv(files, c) && Permitted(files, c, a)
    ensures CoreInv(files, Apply(c, a))
  {
    match a {
      case Nothing =>
      case Bumping(s) =>
        BumpLatch(files, c, s);
        BumpThrottle(files, c, s);
        BumpLedger(c, s);
      case Closing(s) =>
        CloseLatch(files, c, s);
        CloseThrottle(files, c, s);
        CloseLedger(c, s);
      case Releasing(s) =>
        ReleaseLatch(files, c, s);
        ReleaseThrottle(files, c, s);
        ReleaseLedger(c, s);
      case Issuing(ctx, moments, t, sel) =>
        IssueKeeps(files, c, ctx, moments, t, sel);
    }
  }

  lemma StepKeeps(files: Files, c: Core, db: Db, a: Act, d: Core)
    requires CoreInv(files, c) && Takes(files, c, db, a, d)
    ensures CoreInv(files, d)
  {
    CalmKeeps(files, c, db);
    ActKeeps(files, Core(db, c.hist), a);
  }

  // ---- progress, when predecessors' names can be stored ----

  /** A batch issued to session `x` stores its dependents' predecessors faithfully. */
  ghost predicate PredsStorable(a: Act, x: Sid) {
    a.Issuing? && a.ctx.sid == x ==> BatchStorable(a.sel, Deps(a.sel))
  }

  lemma StepProgress(files: Files, c: Core, db: Db, a: Act, d: Core, x: Sid)
    requires CoreInv(files, c) && ProgressInv(c, x) && Takes(files, c, db, a, d) && PredsStorable(a, x)
    ensures ProgressInv(d, x)
  {
    var mid := Core(db, c.hist);
    CalmProgress(c, db, x);
    CalmLedger(c, db);
    match a {
      case Nothing =>
      case Bumping(s) => BumpProgress(mid, s, x);
      case Closing(s) => CloseProgress(mid, s, x);
      case Releasing(s) => ReleaseProgress(mid, s, x);
      case Issuing(ctx, _, t, sel) => IssueProgress(mid, ctx.sid, sel, t, x);
    }
  }

  // ---- tag windows, when sessions stay in their project ----

  /** The batch was evaluated under its session's project. */
  ghost predicate InOwnProject(p: Projects, a: Act) {
    a.Issuing? ==> a.ctx.root == p.rootOf(a.ctx.sid) && a.ctx.cfg.tagThrottles == p.windows(a.ctx.root)
  }

  lemma ActFrames(c: Core, a: Act)
    requires !a.Issuing?
    ensures var d := Apply(c, a);
      && SameButFate(c.hist.issues, d.hist.issues) && d.hist.batches == c.hist.batches
      && d.db.sessions.Keys == c.db.sessions.Keys
      && (forall s :: s in c.db.sessions ==> d.db.sessions[s].root == c.db.sessions[s].root)
  {}

  lemma StepTags(p: Projects, files: Files, c: Core, db: Db, a: Act, d: Core)
    requires CoreInv(files, c) && TagInv(p, c) && Takes(files, c, db, a, d)
    requires CleanFiles(files) && FixedRoots(p, db) && InOwnProject(p, a)
    ensures TagInv(p, d) && FixedRoots(p, d.db)
  {
    var mid := Core(db, c.hist);
    FrameTag(p, c, mid);
    if a.Issuing? {
      CalmLatch(files, c, db);
      IssueShape(mid, a.ctx.sid, a.sel, a.t);
      IssueTag(p, files, mid, d, a.ctx, a.moments, a.t, a.sel);
    } else {
      ActFrames(mid, a);
      FrameTag(p, mid, d);
    }
  }

  // ---- what a step changes ----

  /** Fates settle once; a session's leg, spawns and roster last until it closes. */
  ghost predicate Continues(c: Core, d: Core, s: Sid) {
    && LegStart(d.hist, s) == LegStart(c.hist, s) && LegEpoch(d.hist, s) == LegEpoch(c.hist, s)
    && Evolves(SpawnsOf(c.db, s), SpawnsOf(d.db, s))
    && (forall k :: k in c.db.roster && k.0 == s ==> k in d.db.roster && d.db.roster[k].path == c.db.roster[k].path)
  }

  lemma ContinuesTrans(a: Core, b: Core, c: Core, s: Sid)
    requires Continues(a, b, s) && Continues(b, c, s)
    ensures Continues(a, c, s)
  {
    EvolvesTrans(SpawnsOf(a.db, s), SpawnsOf(b.db, s), SpawnsOf(c.db, s));
  }

  lemma ActContinues(c: Core, a: Act, s: Sid)
    requires a != Closing(s) && (a.Issuing? ==> DistinctNames(a.sel))
    ensures Continues(c, Apply(c, a), s)
  {
    if a.Issuing? { IssueShape(c, a.ctx.sid, a.sel, a.t); }
  }

  lemma StepContinues(files: Files, c: Core, db: Db, a: Act, d: Core, s: Sid)
    requires Takes(files, c, db, a, d) && a != Closing(s)
    ensures Continues(c, d, s)
  {
    ActContinues(Core(db, c.hist), a, s);
    ContinuesTrans(c, Core(db, c.hist), d, s);
  }

  lemma StepFates(files: Files, c: Core, db: Db, a: Act, d: Core)
    requires Takes(files, c, db, a, d)
    ensures FatesKept(c.hist, d.hist)
  {
    var mid := Core(db, c.hist);
    match a {
      case Nothing =>
      case Bumping(s) => BumpKeepsFates(mid, s);
      case Closing(s) => CloseKeepsFates(mid, s);
      case Releasing(s) => ReleaseKeepsFates(mid, s);
      case Issuing(ctx, _, t, sel) => IssueKeepsFates(c.hist, ctx.sid, sel, Deps(sel), Schedule.Rank(Deps(sel)), t);
    }
  }

  lemma StepEpoch(files: Files, c: Core, db: Db, a: Act, d: Core, s: Sid)
    requires Takes(files, c, db, a, d)
    ensures EpochOf(d.db, s) == EpochOf(c.db, s) + if a == Bumping(s) && s in db.sessions then 1 else 0
  {}

  /** The act answers session `s` with a wake. */
  predicate Wakening(a: Act, s: Sid) {
    a == Releasing(s) || (a.Issuing? && a.ctx.sid == s)
  }

  lemma StepWakes(files: Files, c: Core, db: Db, a: Act, d: Core, s: Sid)
    requires Takes(files, c, db, a, d)
    ensures Wakes(d.hist, s) == if a == Closing(s) then 0 else Wakes(c.hist, s) + if Wakening(a, s) then 1 else 0
  {
    if a.Issuing? { IssueKeepsFates(c.hist, a.ctx.sid, a.sel, Deps(a.sel), Schedule.Rank(Deps(a.sel)), a.t); }
  }

  // ---- deliveries ----

  /** The forks the act hands over to session `s`. */
  ghost function Handed(db: Db, a: Act, s: Sid): set<string> {
    match a
    case Releasing(r) => if r == s then Released(db, s) else {}
    case Issuing(ctx, _, _, sel) => if ctx.sid == s then RootNames(sel, Deps(sel)) else {}
    case _ => {}
  }

  ghost function DeliveredOf(h: Hist, s: Sid, fork: string): set<nat> {
    WithFate(h, s, fork, Delivered)
  }

  lemma OneMore(a: set<nat>, b: set<nat>, x: nat)
    requires x !in a && forall i :: i in b <==> i in a || i == x
    ensures |b| == |a| + 1
  {
    assert b == a + {x};
  }

  lemma NoMore(a: set<nat>, b: set<nat>)
    requires forall i :: i in b <==> i in a
    ensures |b| == |a|
  {
    assert b == a;
  }

  /** Ending holds with a fate gives it to the held issue of each named fork. */
  lemma SettleFates(h: Hist, s: Sid, names: set<string>, fate: Fate, r: Sid, fork: string, f: Fate)
    requires HoldsMatch(h) && fate != Held && f != Held
    ensures |WithFate(Settle(h, s, names, fate), r, fork, f)| ==
            |WithFate(h, r, fork, f)| + if f == fate && r == s && fork in names && (s, fork) in h.holds then 1 else 0
  {
    var before, after := WithFate(h, r, fork, f), WithFate(Settle(h, s, names, fate), r, fork, f);
    assert HoldBacked(h.issues, h.holds, (r, fork));
    forall i: nat | i < |h.issues| && h.issues[i].fate == Held && h.issues[i].sid == r && h.issues[i].fork == fork
      ensures (r, fork) in h.holds && h.holds[(r, fork)].issue == i
    {
      assert HeldBacked(h.issues, h.holds, i);
    }
    if f == fate && r == s && fork in names && (s, fork) in h.holds {
      OneMore(before, after, h.holds[(s, fork)].issue);
    } else {
      NoMore(before, after);
    }
  }

  lemma ReleaseAdds(c: Core, s: Sid, r: Sid, fork: string)
    requires Balanced(c.db, c.hist)
    ensures |DeliveredOf(Release(c, s).hist, r, fork)| ==
            |DeliveredOf(c.hist, r, fork)| + if fork in Handed(c.db, Releasing(s), r) then 1 else 0
  {
    var names := Released(c.db, s);
    forall name | name in names ensures (s, name) in c.hist.holds { ReleasedMeans(c.db, s, name); }
    SettleFates(c.hist, s, names, Delivered, r, fork, Delivered);
    NoMore(DeliveredOf(Release(c, s).hist, r, fork), DeliveredOf(Settle(c.hist, s, names, Delivered), r, fork));
  }

  lemma EnteredIn(h: Hist, g: Hist, s: Sid, sel: seq<Selected>, deps: Schedule.Graph, rank: seq<nat>, r: Sid, fork: string, i: nat)
    requires |sel| == |deps| == |rank| && Entered(h, g, s, sel, deps, rank)
    ensures i in DeliveredOf(g, r, fork) <==>
      (if i < |h.issues| then i in DeliveredOf(h, r, fork)
       else i < |h.issues| + |sel| && r == s && sel[i - |h.issues|].name == fork && deps[i - |h.issues|] == [])
  {
    var n := |h.issues|;
    if i < n {
      assert g.issues[..n][i] == g.issues[i];
    } else {
      assert MemberEntered(g, n, s, sel, deps, rank, i - n);
    }
  }

  /** What was delivered before the batch stays; its roots come on top. */
  lemma EnteredAdds(h: Hist, g: Hist, s: Sid, sel: seq<Selected>, deps: Schedule.Graph, rank: seq<nat>, r: Sid, fork: string)
    requires |sel| == |deps| == |rank| && DistinctNames(sel) && Entered(h, g, s, sel, deps, rank)
    ensures |DeliveredOf(g, r, fork)| == |DeliveredOf(h, r, fork)| + if r == s && fork in RootNames(sel, deps) then 1 else 0
  {
    var before, after := DeliveredOf(h, r, fork), DeliveredOf(g, r, fork);
    if r == s && fork in RootNames(sel, deps) {
      var m :| 0 <= m < |sel| && deps[m] == [] && sel[m].name == fork;
      forall i: nat ensures i in after <==> i in before || i == |h.issues| + m {
        EnteredIn(h, g, s, sel, deps, rank, r, fork, i);
      }
      OneMore(before, after, |h.issues| + m);
    } else {
      forall i: nat ensures i in after <==> i in before { EnteredIn(h, g, s, sel, deps, rank, r, fork, i); }
      NoMore(before, after);
    }
  }

  lemma IssueAdds(h: Hist, s: Sid, sel: seq<Selected>, deps: Schedule.Graph, rank: seq<nat>, t: int, r: Sid, fork: string)
    requires |sel| == |deps| == |rank| && DistinctNames(sel)
    ensures |DeliveredOf(IssueHist(h, s, sel, deps, rank, t), r, fork)| ==
            |DeliveredOf(h, r, fork)| + if r == s && fork in RootNames(sel, deps) then 1 else 0
  {
    var mid := Settle(h, s, HeldNames(sel, deps), Superseded);
    IssueEnters(h, s, sel, deps, rank, t);
    EnteredAdds(mid, IssueHist(h, s, sel, deps, rank, t), s, sel, deps, rank, r, fork);
    assert DeliveredOf(mid, r, fork) == DeliveredOf(h, r, fork);
  }

  /** A step delivers one issue of each fork it hands over, and no other. */
  lemma StepDelivers(files: Files, c: Core, db: Db, a: Act, d: Core, s: Sid, fork: string)
    requires CoreInv(files, c) && Takes(files, c, db, a, d)
    ensures |DeliveredOf(d.hist, s, fork)| == |DeliveredOf(c.hist, s, fork)| + if fork in Handed(db, a, s) then 1 else 0
  {
    match a {
      case Nothing =>
      case Bumping(r) => assert DeliveredOf(d.hist, s, fork) == DeliveredOf(c.hist, s, fork);
      case Closing(r) => assert DeliveredOf(d.hist, s, fork) == DeliveredOf(c.hist, s, fork);
      case Releasing(r) => ReleaseAdds(Core(db, c.hist), r, s, fork);
      case Issuing(ctx, _, t, sel) => IssueAdds(c.hist, ctx.sid, sel, Deps(sel), Schedule.Rank(Deps(sel)), t, s, fork);
    }
  }

  // ---- holds that end without a delivery ----

  /** A batch enters with its members handed over or held, so with no other fate. */
  lemma EnteredFates(h: Hist, g: Hist, s: Sid, sel: seq<Selected>, deps: Schedule.Graph, rank: seq<nat>, r: Sid, fork: string, f: Fate)
    requires |sel| == |deps| == |rank| && Entered(h, g, s, sel, deps, rank) && f != Held && f != Delivered
    ensures |WithFate(g, r, fork, f)| == |WithFate(h, r, fork, f)|
  {
    var n := |h.issues|;
    forall i: nat ensures i in WithFate(g, r, fork, f) <==> i in WithFate(h, r, fork, f) {
      if i < n { assert g.issues[..n][i] == g.issues[i]; } else { assert MemberEntered(g, n, s, sel, deps, rank, i - n); }
    }
    NoMore(WithFate(h, r, fork, f), WithFate(g, r, fork, f));
  }

  /** The act replaces a pending row of the fork by a newer one. */
  ghost predicate Overwrites(a: Act, s: Sid, fork: string) {
    a.Issuing? && a.ctx.sid == s && fork in HeldNames(a.sel, Deps(a.sel))
  }

  lemma IssueFates(h: Hist, s: Sid, sel: seq<Selected>, deps: Schedule.Graph, rank: seq<nat>, t: int, r: Sid, fork: string, f: Fate)
    requires |sel| == |deps| == |rank| && DistinctNames(sel) && HoldsMatch(h) && f != Held && f != Delivered
    ensures |WithFate(IssueHist(h, s, sel, deps, rank, t), r, fork, f)| ==
            |WithFate(h, r, fork, f)| + if f == Superseded && r == s && fork in HeldNames(sel, deps) && (s, fork) in h.holds then 1 else 0
  {
    var names := HeldNames(sel, deps);
    SettleFates(h, s, names, Superseded, r, fork, f);
    IssueEnters(h, s, sel, deps, rank, t);
    EnteredFates(Settle(h, s, names, Superseded), IssueHist(h, s, sel, deps, rank, t), s, sel, deps, rank, r, fork, f);
  }

  lemma DropFates(c: Core, s: Sid, r: Sid, fork: string, f: Fate)
    requires Balanced(c.db, c.hist) && f != Held
    ensures |WithFate(DropHeld(c.hist, c.db, s), r, fork, f)| ==
            |WithFate(c.hist, r, fork, f)| + if f == Dropped && r == s && (s, fork) in c.db.pending then 1 else 0
  {
    SettleFates(c.hist, s, PendingNames(c.db, s), Dropped, r, fork, f);
    assert (s, fork) in c.db.pending <==> fork in PendingNames(c.db, s);
  }

  lemma ReleaseFates(c: Core, s: Sid, r: Sid, fork: string, f: Fate)
    requires Balanced(c.db, c.hist) && f != Held && f != Delivered
    ensures |WithFate(Release(c, s).hist, r, fork, f)| == |WithFate(c.hist, r, fork, f)|
  {
    var names := Released(c.db, s);
    SettleFates(c.hist, s, names, Delivered, r, fork, f);
    NoMore(WithFate(Release(c, s).hist, r, fork, f), WithFate(Settle(c.hist, s, names, Delivered), r, fork, f));
  }

  lemma BumpFates(c: Core, s: Sid, r: Sid, fork: string, f: Fate)
    requires Balanced(c.db, c.hist) && f != Held
    ensures |WithFate(Bump(c, s).hist, r, fork, f)| ==
            |WithFate(c.hist, r, fork, f)| + if f == Dropped && r == s && (s, fork) in c.db.pending then 1 else 0
  {
    DropFates(c, s, r, fork, f);
  }

  lemma CloseFates(c: Core, s: Sid, r: Sid, fork: string, f: Fate)
    requires Balanced(c.db, c.hist) && f != Held
    ensures |WithFate(CloseLeg(c, s).hist, r, fork, f)| ==
            |WithFate(c.hist, r, fork, f)| + if f == Dropped && r == s && (s, fork) in c.db.pending then 1 else 0
  {
    DropFates(c, s, r, fork, f);
    NoMore(WithFate(CloseLeg(c, s).hist, r, fork, f), WithFate(DropHeld(c.hist, c.db, s), r, fork, f));
  }

  /** The act ends a hold of the fork with this fate. */
  ghost predicate EndsHold(a: Act, s: Sid, fork: string, f: Fate) {
    if f == Dropped then a == Bumping(s) || a == Closing(s) else f == Superseded && Overwrites(a, s, fork)
  }

  ghost function Lost(h: Hist, s: Sid, fork: string, f: Fate): nat {
    |WithFate(h, s, fork, f)|
  }

  lemma ActDrops(c: Core, a: Act, s: Sid, fork: string, f: Fate)
    requires Balanced(c.db, c.hist) && f != Held && f != Delivered && (a.Bumping? || a.Closing?)
    ensures Lost(Apply(c, a).hist, s, fork, f) ==
            Lost(c.hist, s, fork, f) + if (s, fork) in c.db.pending && EndsHold(a, s, fork, f) then 1 else 0
  {
    if a.Bumping? { BumpFates(c, a.s, s, fork, f); } else { CloseFates(c, a.s, s, fork, f); }
  }

  lemma BatchHist(c: Core, a: Act)
    requires a.Issuing? && DistinctNames(a.sel)
    ensures Apply(c, a).hist == IssueHist(c.hist, a.ctx.sid, a.sel, Deps(a.sel), Schedule.Rank(Deps(a.sel)), a.t)
  {}

  lemma ActIssues(c: Core, a: Act, s: Sid, fork: string, f: Fate)
    requires Balanced(c.db, c.hist) && f != Held && f != Delivered && a.Issuing? && DistinctNames(a.sel)
    ensures Lost(Apply(c, a).hist, s, fork, f) ==
            Lost(c.hist, s, fork, f) + if (s, fork) in c.db.pending && EndsHold(a, s, fork, f) then 1 else 0
  {
    BatchHist(c, a);
    IssueFates(c.hist, a.ctx.sid, a.sel, Deps(a.sel), Schedule.Rank(Deps(a.sel)), a.t, s, fork, f);
  }

  lemma ActFates(c: Core, a: Act, s: Sid, fork: string, f: Fate)
    requires Balanced(c.db, c.hist) && f != Held && f != Delivered && (a.Issuing? ==> DistinctNames(a.sel))
    ensures Lost(Apply(c, a).hist, s, fork, f) ==
            Lost(c.hist, s, fork, f) + if (s, fork) in c.db.pending && EndsHold(a, s, fork, f) then 1 else 0
  {
    if a.Issuing? {
      ActIssues(c, a, s, fork, f);
    } else if a.Releasing? {
      ReleaseFates(c, a.s, s, fork, f);
    } else if !a.Nothing? {
      ActDrops(c, a, s, fork, f);
    }
  }

  /** How a step changes the number of dropped and of superseded issues of a fork. */
  lemma StepLoses(files: Files, c: Core, db: Db, a: Act, d: Core, s: Sid, fork: string)
    requires Balanced(c.db, c.hist) && Takes(files, c, db, a, d)
    ensures |WithFate(d.hist, s, fork, Dropped)| == |WithFate(c.hist, s, fork, Dropped)| +
            if (s, fork) in c.db.pending && (a == Bumping(s) || a == Closing(s)) then 1 else 0
    ensures |WithFate(d.hist, s, fork, Superseded)| == |WithFate(c.hist, s, fork, Superseded)| +
            if (s, fork) in c.db.pending && Overwrites(a, s, fork) then 1 else 0
  {
    ActFates(Core(db, c.hist), a, s, fork, Dropped);
    ActFates(Core(db, c.hist), a, s, fork, Superseded);
  }
}
