/** The latch invariant: within a session leg the issued runs of a fork correspond one to one
    to its latch rows, each under a key its definition and the leg's pauses allow. */
module Latches {
  import opened Text
  import opened Registry
  import opened Store
  import opened Planner
  import opened Core
  import Fork
  import Moments

  /** Two issue lists that differ in fates only. */
  ghost predicate SameButFate(a: seq<Issue>, b: seq<Issue>) {
    |a| == |b| && forall i :: 0 <= i < |a| ==> b[i] == a[i].(fate := b[i].fate)
  }

  /** The latch key is one the fork's definition and the leg's pauses allow. */
  ghost predicate KeyAllowed(def: Fork.ForkDef, lo: nat, hi: nat, trigger: string, key: string) {
    if Fork.IdleLabelled(trigger) then exists e: nat :: lo <= e <= hi && key == Fork.IdleKey(e)
    else key == trigger && exists k :: 0 <= k < |def.runOn| && def.runOn[k].IsContext() && key == def.runOn[k].Label()
  }

  /** A leg issue's fork is still rostered under the path it was issued from. */
  ghost predicate Rostered(files: Files, db: Db, issue: Issue) {
    && (issue.sid, issue.fork) in db.roster
    && db.roster[(issue.sid, issue.fork)].path == issue.path
    && issue.path in files
  }

  ghost predicate Legs(c: Core) {
    && (forall s :: LegStart(c.hist, s) <= |c.hist.issues|)
    && (forall s :: LegEpoch(c.hist, s) <= EpochOf(c.db, s))
  }

  ghost predicate Logged(c: Core) {
    && |c.hist.issues| == |c.db.runs|
    && forall i :: 0 <= i < |c.db.runs| ==>
         var x := c.hist.issues[i];
         c.db.runs[i] == Run(x.sid, x.fork, x.trigger, TagColumn(x.tags), x.at)
  }

  ghost predicate Stamp(h: Hist, l: Latch, i: int) {
    InLeg(h, l.sid, i) && h.issues[i].fork == l.fork && h.issues[i].key == l.key
  }

  /** Every leg issue holds its latch, every latch comes from a leg issue, and no two leg
      issues of a fork share one. */
  ghost predicate OneLatchEach(c: Core) {
    && (forall s, i :: InLeg(c.hist, s, i) ==> Latch(s, c.hist.issues[i].fork, c.hist.issues[i].key) in c.db.fires)
    && (forall l :: l in c.db.fires ==> exists i :: Stamp(c.hist, l, i))
    && (forall s, i, j :: InLeg(c.hist, s, i) && InLeg(c.hist, s, j) && i < j && c.hist.issues[i].fork == c.hist.issues[j].fork ==>
          c.hist.issues[i].key != c.hist.issues[j].key)
  }

  ghost predicate KeysAllowed(files: Files, c: Core) {
    forall s, i :: InLeg(c.hist, s, i) ==>
      && Rostered(files, c.db, c.hist.issues[i])
      && KeyAllowed(files[c.hist.issues[i].path], LegEpoch(c.hist, s), EpochOf(c.db, s), c.hist.issues[i].trigger, c.hist.issues[i].key)
  }

  ghost predicate LatchInv(files: Files, c: Core) {
    Legs(c) && Logged(c) && OneLatchEach(c) && KeysAllowed(files, c)
  }

  lemma LatchInitial(files: Files)
    ensures LatchInv(files, INITIAL)
  {}

  /** Changes that touch neither latches nor legs. */
  ghost predicate LatchFrame(c: Core, d: Core) {
    && SameButFate(c.hist.issues, d.hist.issues)
    && d.hist.legStart == c.hist.legStart && d.hist.legEpoch == c.hist.legEpoch
    && d.db.fires == c.db.fires && d.db.runs == c.db.runs
    && (forall k :: k in c.db.roster ==> k in d.db.roster && d.db.roster[k].path == c.db.roster[k].path)
    && (forall s :: EpochOf(c.db, s) <= EpochOf(d.db, s))
  }

  lemma KeyAllowedGrows(def: Fork.ForkDef, lo: nat, hi: nat, hi': nat, trigger: string, key: string)
    requires KeyAllowed(def, lo, hi, trigger, key) && hi <= hi'
    ensures KeyAllowed(def, lo, hi', trigger, key)
  {}

  lemma LegsKept(c: Core, d: Core)
    requires Legs(c) && |c.hist.issues| <= |d.hist.issues|
    requires d.hist.legStart == c.hist.legStart && d.hist.legEpoch == c.hist.legEpoch
    requires forall s :: EpochOf(c.db, s) <= EpochOf(d.db, s)
    ensures Legs(d)
  {
    forall s ensures LegStart(d.hist, s) <= |d.hist.issues| && LegEpoch(d.hist, s) <= EpochOf(d.db, s) {
      assert LegStart(c.hist, s) <= |c.hist.issues| && LegEpoch(c.hist, s) <= EpochOf(c.db, s);
    }
  }

  lemma FrameIn(c: Core, d: Core, s: Sid, i: int)
    requires LatchFrame(c, d) && InLeg(d.hist, s, i)
    ensures InLeg(c.hist, s, i) && d.hist.issues[i] == c.hist.issues[i].(fate := d.hist.issues[i].fate)
  {}

  lemma FrameStamp(c: Core, d: Core, l: Latch)
    requires OneLatchEach(c) && LatchFrame(c, d) && l in d.db.fires
    ensures exists i :: Stamp(d.hist, l, i)
  {
    var i :| Stamp(c.hist, l, i);
    assert Stamp(d.hist, l, i);
  }

  lemma FrameLatches(c: Core, d: Core)
    requires OneLatchEach(c) && LatchFrame(c, d)
    ensures OneLatchEach(d)
  {
    forall s, i | InLeg(d.hist, s, i) ensures Latch(s, d.hist.issues[i].fork, d.hist.issues[i].key) in d.db.fires { FrameIn(c, d, s, i); }
    forall l | l in d.db.fires ensures exists i :: Stamp(d.hist, l, i) { FrameStamp(c, d, l); }
    forall s, i, j | InLeg(d.hist, s, i) && InLeg(d.hist, s, j) && i < j && d.hist.issues[i].fork == d.hist.issues[j].fork
      ensures d.hist.issues[i].key != d.hist.issues[j].key
    {
      FrameIn(c, d, s, i);
      FrameIn(c, d, s, j);
    }
  }

  lemma FrameKey(files: Files, c: Core, d: Core, s: Sid, i: int)
    requires KeysAllowed(files, c) && LatchFrame(c, d) && InLeg(d.hist, s, i)
    ensures Rostered(files, d.db, d.hist.issues[i])
    ensures KeyAllowed(files[d.hist.issues[i].path], LegEpoch(d.hist, s), EpochOf(d.db, s), d.hist.issues[i].trigger, d.hist.issues[i].key)
  {
    FrameIn(c, d, s, i);
    assert Rostered(files, c.db, c.hist.issues[i]);
    KeyAllowedGrows(files[c.hist.issues[i].path], LegEpoch(c.hist, s), EpochOf(c.db, s), EpochOf(d.db, s), c.hist.issues[i].trigger, c.hist.issues[i].key);
  }

  lemma FrameKeeps(files: Files, c: Core, d: Core)
    requires LatchInv(files, c) && LatchFrame(c, d)
    ensures LatchInv(files, d)
  {
    LegsKept(c, d);
    FrameLatches(c, d);
    forall s, i | InLeg(d.hist, s, i)
      ensures Rostered(files, d.db, d.hist.issues[i])
      ensures KeyAllowed(files[d.hist.issues[i].path], LegEpoch(d.hist, s), EpochOf(d.db, s), d.hist.issues[i].trigger, d.hist.issues[i].key)
    {
      FrameKey(files, c, d, s, i);
    }
  }

  lemma CalmLatch(files: Files, c: Core, db: Db)
    requires LatchInv(files, c) && Calm(c.db, db)
    ensures LatchInv(files, Core(db, c.hist))
  {
    FrameKeeps(files, c, Core(db, c.hist));
  }

  lemma BumpLatch(files: Files, c: Core, s: Sid)
    requires LatchInv(files, c)
    ensures LatchInv(files, Bump(c, s))
  {
    FrameKeeps(files, c, Bump(c, s));
  }

  lemma ReleaseLatch(files: Files, c: Core, s: Sid)
    requires LatchInv(files, c)
    ensures LatchInv(files, Release(c, s))
  {
    FrameKeeps(files, c, Release(c, s));
  }

  /** What closing does, as far as latches see it. */
  ghost predicate ClosedLeg(c: Core, d: Core, s: Sid) {
    && SameButFate(c.hist.issues, d.hist.issues) && d.db.runs == c.db.runs
    && (forall r :: LegStart(d.hist, r) == if r == s then |c.hist.issues| else LegStart(c.hist, r))
    && (forall r :: LegEpoch(d.hist, r) == if r == s then EpochOf(c.db, s) else LegEpoch(c.hist, r))
    && (forall r :: EpochOf(d.db, r) == EpochOf(c.db, r))
    && (forall l :: l in d.db.fires <==> l in c.db.fires && l.sid != s)
    && (forall k :: k in c.db.roster && k.0 != s ==> k in d.db.roster && d.db.roster[k] == c.db.roster[k])
  }

  lemma CloseShape(c: Core, s: Sid)
    ensures ClosedLeg(c, CloseLeg(c, s), s)
  {}

  lemma CloseLatch(files: Files, c: Core, s: Sid)
    requires LatchInv(files, c)
    ensures LatchInv(files, CloseLeg(c, s))
  {
    CloseShape(c, s);
    ClosedKeeps(files, c, CloseLeg(c, s), s);
  }

  /** A leg issue after the close belongs to another session and was one before. */
  lemma ClosedLegIn(c: Core, d: Core, s: Sid, r: Sid, i: int)
    requires ClosedLeg(c, d, s) && InLeg(d.hist, r, i)
    ensures r != s && InLeg(c.hist, r, i) && d.hist.issues[i] == c.hist.issues[i].(fate := d.hist.issues[i].fate)
  {}

  lemma ClosedLegs(c: Core, d: Core, s: Sid)
    requires Legs(c) && ClosedLeg(c, d, s)
    ensures Legs(d)
  {
    forall r ensures LegStart(d.hist, r) <= |d.hist.issues| && LegEpoch(d.hist, r) <= EpochOf(d.db, r) {
      assert LegStart(c.hist, r) <= |c.hist.issues| && LegEpoch(c.hist, r) <= EpochOf(c.db, r);
    }
  }

  lemma ClosedStamp(c: Core, d: Core, s: Sid, l: Latch)
    requires OneLatchEach(c) && ClosedLeg(c, d, s) && l in d.db.fires
    ensures exists i :: Stamp(d.hist, l, i)
  {
    var i :| Stamp(c.hist, l, i);
    assert Stamp(d.hist, l, i);
  }

  lemma ClosedLatches(c: Core, d: Core, s: Sid)
    requires OneLatchEach(c) && ClosedLeg(c, d, s)
    ensures OneLatchEach(d)
  {
    forall r, i | InLeg(d.hist, r, i) ensures Latch(r, d.hist.issues[i].fork, d.hist.issues[i].key) in d.db.fires {
      ClosedLegIn(c, d, s, r, i);
    }
    forall l | l in d.db.fires ensures exists i :: Stamp(d.hist, l, i) { ClosedStamp(c, d, s, l); }
    forall r, i, j | InLeg(d.hist, r, i) && InLeg(d.hist, r, j) && i < j && d.hist.issues[i].fork == d.hist.issues[j].fork
      ensures d.hist.issues[i].key != d.hist.issues[j].key
    {
      ClosedLegIn(c, d, s, r, i);
      ClosedLegIn(c, d, s, r, j);
    }
  }

  lemma ClosedKey(files: Files, c: Core, d: Core, s: Sid, r: Sid, i: int)
    requires KeysAllowed(files, c) && ClosedLeg(c, d, s) && InLeg(d.hist, r, i)
    ensures Rostered(files, d.db, d.hist.issues[i])
    ensures KeyAllowed(files[d.hist.issues[i].path], LegEpoch(d.hist, r), EpochOf(d.db, r), d.hist.issues[i].trigger, d.hist.issues[i].key)
  {
    ClosedLegIn(c, d, s, r, i);
    assert Rostered(files, c.db, c.hist.issues[i]);
  }

  lemma ClosedKeeps(files: Files, c: Core, d: Core, s: Sid)
    requires LatchInv(files, c) && ClosedLeg(c, d, s)
    ensures LatchInv(files, d)
  {
    ClosedLegs(c, d, s);
    ClosedLatches(c, d, s);
    forall r, i | InLeg(d.hist, r, i)
      ensures Rostered(files, d.db, d.hist.issues[i])
      ensures KeyAllowed(files[d.hist.issues[i].path], LegEpoch(d.hist, r), EpochOf(d.db, r), d.hist.issues[i].trigger, d.hist.issues[i].key)
    {
      ClosedKey(files, c, d, s, r, i);
    }
  }

  // ---- issuing ----

  /** What issuing relies on: a sound batch, evaluated for a pause of the current leg. */
  ghost predicate MayIssue(files: Files, c: Core, ctx: Ctx, moments: seq<Moments.Moment>, t: int, sel: seq<Selected>) {
    && SoundBatch(c.db, files, ctx, moments, t, sel)
    && LegEpoch(c.hist, ctx.sid) <= ctx.epoch <= EpochOf(c.db, ctx.sid)
  }

  lemma PickHasKey(files: Files, c: Core, ctx: Ctx, moments: seq<Moments.Moment>, t: int, sel: seq<Selected>, i: nat)
    requires MayIssue(files, c, ctx, moments, t, sel) && i < |sel|
    ensures sel[i].key.Some? && sel[i].path in files
    ensures Latch(ctx.sid, sel[i].name, sel[i].key.value) !in c.db.fires
    ensures KeyAllowed(files[sel[i].path], LegEpoch(c.hist, ctx.sid), EpochOf(c.db, ctx.sid), sel[i].trigger, sel[i].key.value)
  {
    var row := c.db.roster[(ctx.sid, sel[i].name)];
    var def := files[row.path];
    Moments.MatchSupported(def.runOn, moments, ctx.cfg.defaultIdle);
    var trigger := Trigger(def, ctx, moments).value;
    Fork.LabelTells(trigger);
    if trigger.IsContext() {
      var k :| 0 <= k < |def.runOn| && def.runOn[k] == trigger;
    }
  }

  /** What issuing does, as far as latches see it. */
  ghost predicate LatchStep(c: Core, d: Core, s: Sid, sel: seq<Selected>, t: int) {
    && Appended(c.hist, d.hist, s, sel, t)
    && d.db.sessions == c.db.sessions
    && d.db.fires == c.db.fires + Latches(s, sel, |sel|)
    && (forall k :: k in c.db.roster ==> k in d.db.roster && d.db.roster[k].path == c.db.roster[k].path)
  }

  lemma IssueLogged(c: Core, d: Core, s: Sid, sel: seq<Selected>, t: int)
    requires Logged(c) && Appended(c.hist, d.hist, s, sel, t) && d.db.runs == c.db.runs + RunRows(s, sel, t, |sel|)
    ensures Logged(d)
  {}

  lemma IssueLatched(files: Files, c: Core, d: Core, ctx: Ctx, moments: seq<Moments.Moment>, t: int, sel: seq<Selected>, r: Sid, i: int)
    requires OneLatchEach(c) && MayIssue(files, c, ctx, moments, t, sel) && LatchStep(c, d, ctx.sid, sel, t)
    requires InLeg(d.hist, r, i)
    ensures Latch(r, d.hist.issues[i].fork, d.hist.issues[i].key) in d.db.fires
  {
    var n := |c.hist.issues|;
    if i < n {
      assert InLeg(c.hist, r, i);
    } else {
      PickHasKey(files, c, ctx, moments, t, sel, i - n);
      assert Latch(ctx.sid, sel[i - n].name, sel[i - n].key.value) in Latches(ctx.sid, sel, |sel|);
    }
  }

  lemma IssueStamps(c: Core, d: Core, s: Sid, sel: seq<Selected>, t: int, l: Latch)
    requires Legs(c) && OneLatchEach(c) && LatchStep(c, d, s, sel, t) && l in d.db.fires
    ensures exists i :: Stamp(d.hist, l, i)
  {
    var n := |c.hist.issues|;
    if l in c.db.fires {
      var i :| Stamp(c.hist, l, i);
      assert Stamp(d.hist, l, i);
    } else {
      var i :| 0 <= i < |sel| && sel[i].key.Some? && l == Latch(s, sel[i].name, sel[i].key.value);
      assert LegStart(c.hist, s) <= n;
      assert d.hist.issues[n + i].fork == sel[i].name;
      assert Stamp(d.hist, l, n + i);
    }
  }

  lemma IssueDistinct(files: Files, c: Core, d: Core, ctx: Ctx, moments: seq<Moments.Moment>, t: int, sel: seq<Selected>,
                      r: Sid, i: int, j: int)
    requires OneLatchEach(c) && MayIssue(files, c, ctx, moments, t, sel) && LatchStep(c, d, ctx.sid, sel, t)
    requires InLeg(d.hist, r, i) && InLeg(d.hist, r, j) && i < j && d.hist.issues[i].fork == d.hist.issues[j].fork
    ensures d.hist.issues[i].key != d.hist.issues[j].key
  {
    var n := |c.hist.issues|;
    if j < n {
      assert InLeg(c.hist, r, i) && InLeg(c.hist, r, j);
    } else if i < n {
      assert InLeg(c.hist, r, i);
      PickHasKey(files, c, ctx, moments, t, sel, j - n);
    }
  }

  lemma KeptKey(files: Files, c: Core, d: Core, s: Sid, sel: seq<Selected>, t: int, r: Sid, i: int)
    requires KeysAllowed(files, c) && LatchStep(c, d, s, sel, t) && InLeg(c.hist, r, i)
    ensures i < |d.hist.issues| && Rostered(files, d.db, d.hist.issues[i])
    ensures KeyAllowed(files[d.hist.issues[i].path], LegEpoch(d.hist, r), EpochOf(d.db, r), d.hist.issues[i].trigger, d.hist.issues[i].key)
  {
    assert Rostered(files, c.db, c.hist.issues[i]);
  }

  lemma NewKey(files: Files, c: Core, d: Core, ctx: Ctx, moments: seq<Moments.Moment>, t: int, sel: seq<Selected>, m: nat)
    requires MayIssue(files, c, ctx, moments, t, sel) && LatchStep(c, d, ctx.sid, sel, t) && m < |sel|
    ensures var i, r := |c.hist.issues| + m, ctx.sid;
      && Rostered(files, d.db, d.hist.issues[i])
      && KeyAllowed(files[d.hist.issues[i].path], LegEpoch(d.hist, r), EpochOf(d.db, r), d.hist.issues[i].trigger, d.hist.issues[i].key)
  {
    PickHasKey(files, c, ctx, moments, t, sel, m);
    assert (ctx.sid, sel[m].name) in c.db.roster;
  }

  lemma IssueLatch(files: Files, c: Core, d: Core, ctx: Ctx, moments: seq<Moments.Moment>, t: int, sel: seq<Selected>)
    requires LatchInv(files, c) && MayIssue(files, c, ctx, moments, t, sel) && LatchStep(c, d, ctx.sid, sel, t)
    requires d.db.runs == c.db.runs + RunRows(ctx.sid, sel, t, |sel|)
    ensures LatchInv(files, d)
  {
    IssueLogged(c, d, ctx.sid, sel, t);
    LegsKept(c, d);
    assert OneLatchEach(d) by {
      forall r, i | InLeg(d.hist, r, i) ensures Latch(r, d.hist.issues[i].fork, d.hist.issues[i].key) in d.db.fires {
        IssueLatched(files, c, d, ctx, moments, t, sel, r, i);
      }
      forall l | l in d.db.fires ensures exists i :: Stamp(d.hist, l, i) { IssueStamps(c, d, ctx.sid, sel, t, l); }
      forall r, i, j | InLeg(d.hist, r, i) && InLeg(d.hist, r, j) && i < j && d.hist.issues[i].fork == d.hist.issues[j].fork
        ensures d.hist.issues[i].key != d.hist.issues[j].key
      {
        IssueDistinct(files, c, d, ctx, moments, t, sel, r, i, j);
      }
    }
    forall r, i | InLeg(d.hist, r, i)
      ensures Rostered(files, d.db, d.hist.issues[i])
      ensures KeyAllowed(files[d.hist.issues[i].path], LegEpoch(d.hist, r), EpochOf(d.db, r), d.hist.issues[i].trigger, d.hist.issues[i].key)
    {
      if i < |c.hist.issues| { KeptKey(files, c, d, ctx.sid, sel, t, r, i); } else { NewKey(files, c, d, ctx, moments, t, sel, i - |c.hist.issues|); }
    }
  }
}
