/** Delivery accounting: every issue is delivered once, still held, dropped or superseded,
    and every wake answer delivers something. */
module Ledger {
  import opened Text
  import opened Registry
  import opened Store
  import opened Planner
  import opened Core
  import opened Latches
  import opened Budgets
  import Schedule

  /** A hold stands for a held issue of its fork. */
  ghost predicate HoldBacked(issues: seq<Issue>, holds: map<Key, Hold>, k: Key) {
    k in holds ==>
      && holds[k].issue < |issues|
      && issues[holds[k].issue].sid == k.0 && issues[holds[k].issue].fork == k.1
      && issues[holds[k].issue].fate == Held
  }

  /** A held issue is the one its fork's hold stands for. */
  ghost predicate HeldBacked(issues: seq<Issue>, holds: map<Key, Hold>, i: nat) {
    i < |issues| && issues[i].fate == Held ==>
      var k := (issues[i].sid, issues[i].fork); k in holds && holds[k].issue == i
  }

  ghost predicate HoldsMatch(h: Hist) {
    (forall k :: HoldBacked(h.issues, h.holds, k)) && (forall i: nat :: HeldBacked(h.issues, h.holds, i))
  }

  /** Holds belong to the current leg. */
  ghost predicate HoldsCurrent(h: Hist) {
    forall k :: k in h.holds ==> LegStart(h, k.0) <= h.holds[k].issue
  }

  /** The held issues are exactly those the pending rows stand for. */
  ghost predicate Balanced(db: Db, h: Hist) {
    h.holds.Keys == db.pending.Keys && HoldsMatch(h) && HoldsCurrent(h)
  }

  ghost function DeliveredInLeg(h: Hist, s: Sid): set<nat> {
    set i: nat | i < |h.issues| && InLeg(h, s, i) && h.issues[i].fate == Delivered
  }

  /** The wake answers of a leg are no more than its deliveries. */
  ghost predicate WakesPaid(h: Hist) {
    forall s :: Wakes(h, s) <= |DeliveredInLeg(h, s)|
  }

  ghost predicate LedgerInv(c: Core) {
    Balanced(c.db, c.hist) && WakesPaid(c.hist)
  }

  lemma LedgerInitial()
    ensures LedgerInv(INITIAL)
  {}

  lemma CalmLedger(c: Core, db: Db)
    requires LedgerInv(c) && Calm(c.db, db)
    ensures LedgerInv(Core(db, c.hist))
  {}

  // ---- ending holds ----

  lemma SettleMatches(h: Hist, s: Sid, names: set<string>, fate: Fate)
    requires HoldsMatch(h) && fate != Held
    ensures HoldsMatch(Settle(h, s, names, fate))
  {
    var g := Settle(h, s, names, fate);
    forall k ensures HoldBacked(g.issues, g.holds, k) { assert HoldBacked(h.issues, h.holds, k); }
    forall i: nat ensures HeldBacked(g.issues, g.holds, i) { assert HeldBacked(h.issues, h.holds, i); }
  }

  lemma SettleDelivers(h: Hist, s: Sid, names: set<string>, fate: Fate, r: Sid)
    requires fate != Held
    ensures DeliveredInLeg(h, r) <= DeliveredInLeg(Settle(h, s, names, fate), r)
    ensures fate != Delivered ==> DeliveredInLeg(h, r) == DeliveredInLeg(Settle(h, s, names, fate), r)
  {}

  lemma DropBalances(c: Core, s: Sid)
    requires Balanced(c.db, c.hist)
    ensures Balanced(ClearPending(c.db, s), DropHeld(c.hist, c.db, s))
    ensures forall k :: k in DropHeld(c.hist, c.db, s).holds ==> k.0 != s
  {
    var names := PendingNames(c.db, s);
    SettleMatches(c.hist, s, names, Dropped);
    forall k | k in c.db.pending && k.0 == s ensures k.1 in names {}
    assert DropHeld(c.hist, c.db, s).holds.Keys == ClearPending(c.db, s).pending.Keys;
  }

  lemma BumpLedger(c: Core, s: Sid)
    requires LedgerInv(c)
    ensures LedgerInv(Bump(c, s))
  {
    DropBalances(c, s);
    forall r ensures Wakes(Bump(c, s).hist, r) <= |DeliveredInLeg(Bump(c, s).hist, r)| {
      SettleDelivers(c.hist, s, PendingNames(c.db, s), Dropped, r);
    }
  }

  lemma NewLegBalances(db: Db, h: Hist, g: Hist, s: Sid)
    requires Balanced(db, h) && WakesPaid(h) && forall k :: k in h.holds ==> k.0 != s
    requires g.issues == h.issues && g.holds == h.holds
    requires forall r :: r != s ==> LegStart(g, r) == LegStart(h, r) && Wakes(g, r) == Wakes(h, r)
    requires Wakes(g, s) == 0
    ensures Balanced(db, g) && WakesPaid(g)
  {
    forall r ensures Wakes(g, r) <= |DeliveredInLeg(g, r)| {
      if r != s { assert DeliveredInLeg(g, r) == DeliveredInLeg(h, r); }
    }
  }

  lemma CloseLedger(c: Core, s: Sid)
    requires LedgerInv(c)
    ensures LedgerInv(CloseLeg(c, s))
  {
    BumpLedger(c, s);
    DropBalances(c, s);
    assert Close(c.db, s).pending == ClearPending(c.db, s).pending;
    NewLegBalances(ClearPending(c.db, s), DropHeld(c.hist, c.db, s), CloseLeg(c, s).hist, s);
  }

  // ---- releasing ----

  lemma ReleasedMeans(db: Db, s: Sid, name: string)
    ensures name in Released(db, s) <==> (s, name) in db.pending && Releases(db, s, name)
  {}

  lemma ReleaseBalances(c: Core, s: Sid)
    requires Balanced(c.db, c.hist)
    ensures Balanced(Release(c, s).db, Release(c, s).hist)
  {
    var names, d := Released(c.db, s), Release(c, s);
    SettleMatches(c.hist, s, names, Delivered);
    forall k ensures k in d.hist.holds <==> k in d.db.pending {
      ReleasedMeans(c.db, s, k.1);
      assert k == (k.0, k.1);
    }
  }

  /** A release turns the issue behind each released row from held to delivered. */
  lemma ReleaseDelivers(c: Core, s: Sid, name: string)
    requires Balanced(c.db, c.hist) && name in Released(c.db, s)
    ensures (s, name) in c.hist.holds
    ensures var i := c.hist.holds[(s, name)].issue;
      && InLeg(c.hist, s, i) && c.hist.issues[i].fork == name && c.hist.issues[i].fate == Held
      && Release(c, s).hist.issues[i].fate == Delivered
  {
    ReleasedMeans(c.db, s, name);
    assert HoldBacked(c.hist.issues, c.hist.holds, (s, name));
  }

  /** Once settled, a fate never changes: no issue is delivered twice. */
  ghost predicate FatesKept(h: Hist, g: Hist) {
    && |h.issues| <= |g.issues|
    && forall i :: 0 <= i < |h.issues| ==>
         && g.issues[i] == h.issues[i].(fate := g.issues[i].fate)
         && (h.issues[i].fate != Held ==> g.issues[i].fate == h.issues[i].fate)
  }

  lemma FatesKeptTrans(a: Hist, b: Hist, c: Hist)
    requires FatesKept(a, b) && FatesKept(b, c)
    ensures FatesKept(a, c)
  {}

  lemma BumpKeepsFates(c: Core, s: Sid)
    ensures FatesKept(c.hist, Bump(c, s).hist)
  {}

  lemma CloseKeepsFates(c: Core, s: Sid)
    ensures FatesKept(c.hist, CloseLeg(c, s).hist)
  {}

  lemma ReleaseKeepsFates(c: Core, s: Sid)
    ensures FatesKept(c.hist, Release(c, s).hist)
    ensures Release(c, s).hist.legStart == c.hist.legStart
    ensures Release(c, s).hist.wakes == c.hist.wakes[s := Wakes(c.hist, s) + 1]
  {}

  lemma IssueKeepsFates(h: Hist, s: Sid, sel: seq<Selected>, deps: Schedule.Graph, rank: seq<nat>, t: int)
    requires |sel| == |deps| == |rank| && DistinctNames(sel)
    ensures FatesKept(h, IssueHist(h, s, sel, deps, rank, t))
    ensures IssueHist(h, s, sel, deps, rank, t).legStart == h.legStart
    ensures IssueHist(h, s, sel, deps, rank, t).wakes == h.wakes[s := Wakes(h, s) + 1]
  {}

  lemma KeptDelivers(h: Hist, g: Hist, r: Sid)
    requires FatesKept(h, g) && g.legStart == h.legStart
    ensures DeliveredInLeg(h, r) <= DeliveredInLeg(g, r)
  {
    forall i | i in DeliveredInLeg(h, r) ensures i in DeliveredInLeg(g, r) {
      assert InLeg(g, r, i);
    }
  }

  /** One more delivery pays for one more wake. */
  lemma PaidByOne(h: Hist, g: Hist, s: Sid, i: nat)
    requires WakesPaid(h) && FatesKept(h, g) && g.legStart == h.legStart && g.wakes == h.wakes[s := Wakes(h, s) + 1]
    requires InLeg(g, s, i) && g.issues[i].fate == Delivered && (i < |h.issues| ==> h.issues[i].fate != Delivered)
    ensures WakesPaid(g)
  {
    forall r ensures Wakes(g, r) <= |DeliveredInLeg(g, r)| {
      assert Wakes(h, r) <= |DeliveredInLeg(h, r)|;
      KeptDelivers(h, g, r);
      var before, after := DeliveredInLeg(h, r), DeliveredInLeg(g, r);
      if r == s {
        assert i in after && i !in before;
        Schedule.SubsetSize(before + {i}, after);
      } else {
        Schedule.SubsetSize(before, after);
      }
    }
  }

  lemma ReleasePays(c: Core, s: Sid, name: string)
    requires Balanced(c.db, c.hist) && WakesPaid(c.hist) && name in Released(c.db, s)
    ensures WakesPaid(Release(c, s).hist)
  {
    ReleaseDelivers(c, s, name);
    ReleaseKeepsFates(c, s);
    PaidByOne(c.hist, Release(c, s).hist, s, c.hist.holds[(s, name)].issue);
  }

  lemma ReleaseLedger(c: Core, s: Sid)
    requires LedgerInv(c) && Released(c.db, s) != {}
    ensures LedgerInv(Release(c, s))
  {
    ReleaseBalances(c, s);
    var name :| name in Released(c.db, s);
    ReleasePays(c, s, name);
  }

  // ---- issuing ----

  /** Member `i` of the batch is entered: an issue, and a hold when it is a dependent. */
  ghost predicate MemberEntered(g: Hist, n: nat, s: Sid, sel: seq<Selected>, deps: Schedule.Graph, rank: seq<nat>, i: nat)
    requires |sel| == |deps| == |rank|
  {
    i < |sel| ==>
      && n + i < |g.issues| && g.issues[n + i].sid == s && g.issues[n + i].fork == sel[i].name
      && g.issues[n + i].fate == (if deps[i] == [] then Delivered else Held)
      && (deps[i] != [] ==> (s, sel[i].name) in g.holds && g.holds[(s, sel[i].name)] == Hold(n + i, rank[i]))
  }

  /** Key `k` keeps its hold, or is a dependent of the batch. */
  ghost predicate KeyEntered(h: Hist, g: Hist, s: Sid, names: set<string>, k: Key) {
    && (k in h.holds ==> k in g.holds && g.holds[k] == h.holds[k])
    && (k in g.holds ==> k in h.holds || (k.0 == s && k.1 in names))
  }

  ghost predicate Entered(h: Hist, g: Hist, s: Sid, sel: seq<Selected>, deps: Schedule.Graph, rank: seq<nat>)
    requires |sel| == |deps| == |rank|
  {
    && |g.issues| == |h.issues| + |sel| && g.issues[..|h.issues|] == h.issues
    && (forall i :: MemberEntered(g, |h.issues|, s, sel, deps, rank, i))
    && (forall k :: KeyEntered(h, g, s, HeldNames(sel, deps), k))
  }

  lemma EnteredMatches(h: Hist, g: Hist, s: Sid, sel: seq<Selected>, deps: Schedule.Graph, rank: seq<nat>)
    requires |sel| == |deps| == |rank| && HoldsMatch(h) && Entered(h, g, s, sel, deps, rank)
    ensures HoldsMatch(g)
  {
    var n := |h.issues|;
    forall k ensures HoldBacked(g.issues, g.holds, k) {
      assert HoldBacked(h.issues, h.holds, k) && KeyEntered(h, g, s, HeldNames(sel, deps), k);
      if k in h.holds {
        assert g.issues[..n][h.holds[k].issue] == g.issues[h.holds[k].issue];
      } else if k in g.holds {
        var i :| 0 <= i < |sel| && deps[i] != [] && sel[i].name == k.1;
        assert MemberEntered(g, n, s, sel, deps, rank, i) && k == (s, sel[i].name);
      }
    }
    forall i: nat ensures HeldBacked(g.issues, g.holds, i) {
      if i < n {
        assert g.issues[..n][i] == g.issues[i];
        assert HeldBacked(h.issues, h.holds, i) && KeyEntered(h, g, s, HeldNames(sel, deps), (h.issues[i].sid, h.issues[i].fork));
      } else if i < |g.issues| {
        assert MemberEntered(g, n, s, sel, deps, rank, i - n);
      }
    }
  }

  lemma NewHoldAt(s: Sid, sel: seq<Selected>, deps: Schedule.Graph, rank: seq<nat>, base: nat, i: nat)
    requires |sel| == |deps| == |rank| && DistinctNames(sel) && i < |sel| && deps[i] != []
    ensures (s, sel[i].name) in NewHolds(s, sel, deps, rank, base)
    ensures NewHolds(s, sel, deps, rank, base)[(s, sel[i].name)] == Hold(base + i, rank[i])
  {}

  lemma EnterMember(h: Hist, g: Hist, s: Sid, sel: seq<Selected>, deps: Schedule.Graph, rank: seq<nat>, t: int, i: nat)
    requires |sel| == |deps| == |rank| && DistinctNames(sel)
    requires g.issues == h.issues + NewIssues(s, sel, deps, t, h.batches)
    requires g.holds == h.holds + NewHolds(s, sel, deps, rank, |h.issues|)
    ensures MemberEntered(g, |h.issues|, s, sel, deps, rank, i)
  {
    if i < |sel| {
      assert g.issues[|h.issues| + i] == NewIssues(s, sel, deps, t, h.batches)[i];
      if deps[i] != [] { NewHoldAt(s, sel, deps, rank, |h.issues|, i); }
    }
  }

  lemma EnterKey(h: Hist, g: Hist, s: Sid, sel: seq<Selected>, deps: Schedule.Graph, rank: seq<nat>, k: Key)
    requires |sel| == |deps| == |rank| && DistinctNames(sel)
    requires g.holds == h.holds + NewHolds(s, sel, deps, rank, |h.issues|)
    requires k in h.holds ==> !(k.0 == s && k.1 in HeldNames(sel, deps))
    ensures KeyEntered(h, g, s, HeldNames(sel, deps), k)
  {}

  lemma IssueEnters(h: Hist, s: Sid, sel: seq<Selected>, deps: Schedule.Graph, rank: seq<nat>, t: int)
    requires |sel| == |deps| == |rank| && DistinctNames(sel)
    ensures Entered(Settle(h, s, HeldNames(sel, deps), Superseded), IssueHist(h, s, sel, deps, rank, t), s, sel, deps, rank)
  {
    var mid, g := Settle(h, s, HeldNames(sel, deps), Superseded), IssueHist(h, s, sel, deps, rank, t);
    forall i: nat ensures MemberEntered(g, |mid.issues|, s, sel, deps, rank, i) { EnterMember(mid, g, s, sel, deps, rank, t, i); }
    forall k ensures KeyEntered(mid, g, s, HeldNames(sel, deps), k) { EnterKey(mid, g, s, sel, deps, rank, k); }
  }

  lemma HeldRowsMeans(s: Sid, sel: seq<Selected>, deps: Schedule.Graph, t: int, k: Key)
    requires Graphed(sel, deps) && DistinctNames(sel)
    ensures k in HeldRows(s, sel, deps, t, |sel|) <==> k.0 == s && k.1 in HeldNames(sel, deps)
  {
    if k.0 == s && k.1 in HeldNames(sel, deps) {
      var i :| 0 <= i < |sel| && deps[i] != [] && sel[i].name == k.1;
      assert k == (s, sel[i].name);
    }
  }

  lemma EnteredKeys(h: Hist, g: Hist, s: Sid, sel: seq<Selected>, deps: Schedule.Graph, rank: seq<nat>, k: Key)
    requires |sel| == |deps| == |rank| && Entered(h, g, s, sel, deps, rank)
    ensures k in g.holds <==> k in h.holds || (k.0 == s && k.1 in HeldNames(sel, deps))
    ensures k in h.holds ==> g.holds[k] == h.holds[k]
    ensures k in g.holds && k !in h.holds ==> |h.issues| <= g.holds[k].issue
  {
    assert KeyEntered(h, g, s, HeldNames(sel, deps), k);
    if k.0 == s && k.1 in HeldNames(sel, deps) {
      var i :| 0 <= i < |sel| && deps[i] != [] && sel[i].name == k.1;
      assert MemberEntered(g, |h.issues|, s, sel, deps, rank, i) && k == (s, sel[i].name);
    }
  }

  /** A key held after the batch: as before, or superseded by a hold of this leg. */
  lemma EnteredKey(db: Db, h: Hist, mid: Hist, g: Hist, s: Sid, sel: seq<Selected>, deps: Schedule.Graph, rank: seq<nat>, t: int, db': Db, k: Key)
    requires Graphed(sel, deps) && |rank| == |sel| && DistinctNames(sel) && LegStart(h, s) <= |h.issues|
    requires h.holds.Keys == db.pending.Keys && HoldsCurrent(h)
    requires |mid.issues| == |h.issues| && mid.holds == Without(h.holds, s, HeldNames(sel, deps))
    requires Entered(mid, g, s, sel, deps, rank) && g.legStart == h.legStart
    requires db'.pending == db.pending + HeldRows(s, sel, deps, t, |sel|)
    ensures k in g.holds <==> k in db'.pending
    ensures k in g.holds ==> LegStart(g, k.0) <= g.holds[k].issue
  {
    EnteredKeys(mid, g, s, sel, deps, rank, k);
    HeldRowsMeans(s, sel, deps, t, k);
    if k in mid.holds { assert LegStart(h, k.0) <= h.holds[k].issue; }
  }

  lemma EnteredBalances(db: Db, h: Hist, mid: Hist, g: Hist, s: Sid, sel: seq<Selected>, deps: Schedule.Graph, rank: seq<nat>, t: int, db': Db)
    requires Graphed(sel, deps) && |rank| == |sel| && DistinctNames(sel) && Balanced(db, h) && LegStart(h, s) <= |h.issues|
    requires |mid.issues| == |h.issues| && mid.holds == Without(h.holds, s, HeldNames(sel, deps)) && HoldsMatch(mid)
    requires Entered(mid, g, s, sel, deps, rank) && g.legStart == h.legStart
    requires db'.pending == db.pending + HeldRows(s, sel, deps, t, |sel|)
    ensures Balanced(db', g)
  {
    EnteredMatches(mid, g, s, sel, deps, rank);
    forall k ensures k in g.holds <==> k in db'.pending { EnteredKey(db, h, mid, g, s, sel, deps, rank, t, db', k); }
    forall k | k in g.holds ensures LegStart(g, k.0) <= g.holds[k].issue { EnteredKey(db, h, mid, g, s, sel, deps, rank, t, db', k); }
  }

  lemma RootPays(h: Hist, n: nat, g: Hist, s: Sid, sel: seq<Selected>, deps: Schedule.Graph, rank: seq<nat>, root: nat)
    requires |sel| == |deps| == |rank| && MemberEntered(g, n, s, sel, deps, rank, root) && root < |sel| && deps[root] == []
    requires WakesPaid(h) && FatesKept(h, g) && g.legStart == h.legStart && g.wakes == h.wakes[s := Wakes(h, s) + 1]
    requires LegStart(h, s) <= n == |h.issues|
    ensures WakesPaid(g)
  {
    assert InLeg(g, s, n + root);
    PaidByOne(h, g, s, n + root);
  }

  lemma IssueHistLedger(db: Db, h: Hist, s: Sid, sel: seq<Selected>, deps: Schedule.Graph, rank: seq<nat>, t: int, db': Db, root: nat)
    requires Graphed(sel, deps) && |rank| == |sel| && DistinctNames(sel) && root < |sel| && deps[root] == []
    requires Balanced(db, h) && WakesPaid(h) && LegStart(h, s) <= |h.issues|
    requires db'.pending == db.pending + HeldRows(s, sel, deps, t, |sel|)
    ensures Balanced(db', IssueHist(h, s, sel, deps, rank, t)) && WakesPaid(IssueHist(h, s, sel, deps, rank, t))
  {
    var mid, g := Settle(h, s, HeldNames(sel, deps), Superseded), IssueHist(h, s, sel, deps, rank, t);
    SettleMatches(h, s, HeldNames(sel, deps), Superseded);
    IssueEnters(h, s, sel, deps, rank, t);
    IssueKeepsFates(h, s, sel, deps, rank, t);
    EnteredBalances(db, h, mid, g, s, sel, deps, rank, t, db');
    RootPays(h, |h.issues|, g, s, sel, deps, rank, root);
  }

  lemma IssueLedger(c: Core, s: Sid, sel: seq<Selected>, t: int)
    requires LedgerInv(c) && DistinctNames(sel) && sel != [] && LegStart(c.hist, s) <= |c.hist.issues|
    ensures LedgerInv(IssueBatch(c, s, sel, t))
  {
    var deps := Deps(sel);
    var root := IssueHasRoot(sel);
    IssueHistLedger(c.db, c.hist, s, sel, deps, Schedule.Rank(deps), t, IssueDb(c.db, s, sel, t), root);
  }

  // ---- what it means ----

  ghost function IssuesOf(h: Hist, s: Sid, fork: string): set<nat> {
    set i: nat | i < |h.issues| && h.issues[i].sid == s && h.issues[i].fork == fork
  }

  ghost function WithFate(h: Hist, s: Sid, fork: string, fate: Fate): set<nat> {
    set i: nat | i < |h.issues| && h.issues[i].sid == s && h.issues[i].fork == fork && h.issues[i].fate == fate
  }

  lemma HeldIssue(h: Hist, s: Sid, fork: string)
    requires HoldsMatch(h)
    ensures WithFate(h, s, fork, Held) == if (s, fork) in h.holds then {h.holds[(s, fork)].issue} else {}
  {
    assert HoldBacked(h.issues, h.holds, (s, fork));
    forall i | i in WithFate(h, s, fork, Held) ensures (s, fork) in h.holds && h.holds[(s, fork)].issue == i {
      assert HeldBacked(h.issues, h.holds, i);
    }
  }

  lemma FourParts(all: set<nat>, a: set<nat>, b: set<nat>, c: set<nat>, d: set<nat>)
    requires forall i :: i in all <==> i in a || i in b || i in c || i in d
    requires a !! b && a !! c && a !! d && b !! c && b !! d && c !! d
    ensures |all| == |a| + |b| + |c| + |d|
  {
    assert all == a + b + c + d;
    assert |a + b| == |a| + |b|;
    assert |a + b + c| == |a + b| + |c|;
  }

  lemma FatesPartition(h: Hist, s: Sid, fork: string)
    ensures |IssuesOf(h, s, fork)| == |WithFate(h, s, fork, Delivered)| + |WithFate(h, s, fork, Held)| +
            |WithFate(h, s, fork, Dropped)| + |WithFate(h, s, fork, Superseded)|
  {
    FourParts(IssuesOf(h, s, fork), WithFate(h, s, fork, Delivered), WithFate(h, s, fork, Held),
              WithFate(h, s, fork, Dropped), WithFate(h, s, fork, Superseded));
  }

  /** Issues of a fork = delivered + still pending + dropped + superseded. */
  lemma Accounting(c: Core, s: Sid, fork: string)
    requires Balanced(c.db, c.hist)
    ensures |IssuesOf(c.hist, s, fork)| ==
            |WithFate(c.hist, s, fork, Delivered)| + (if (s, fork) in c.db.pending then 1 else 0) +
            |WithFate(c.hist, s, fork, Dropped)| + |WithFate(c.hist, s, fork, Superseded)|
  {
    FatesPartition(c.hist, s, fork);
    HeldIssue(c.hist, s, fork);
  }

  /** A wake's answers never exceed the leg's issues. */
  lemma WakesWithinIssues(c: Core, s: Sid)
    requires LedgerInv(c)
    ensures Wakes(c.hist, s) <= |LegAll(c.hist, s)|
  {
    Schedule.SubsetSize(DeliveredInLeg(c.hist, s), LegAll(c.hist, s));
  }
}
