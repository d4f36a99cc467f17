/** Throttle gaps over whole runs: per fork within a session leg, and per tag across the
    sessions of a project. The clock may step back between steps. */
module Throttles {
  import opened Text
  import opened Store
  import opened Planner
  import opened Core
  import opened Latches
  import Moments
  import Columns

  // ---- per fork ----

  /** The gap a fork's definition demands, as the daemon reads it. */
  function Gap(files: Files, path: string): int {
    if path in files && files[path].throttle.Some? then AsI64(files[path].throttle.value) else 0
  }

  /** The roster remembers a run no earlier than any issue of the leg. */
  ghost predicate Remembered(files: Files, c: Core) {
    forall s, i :: InLeg(c.hist, s, i) && Gap(files, c.hist.issues[i].path) > 0 ==>
      && (s, c.hist.issues[i].fork) in c.db.roster
      && c.db.roster[(s, c.hist.issues[i].fork)].ranAt.Some?
      && c.hist.issues[i].at <= c.db.roster[(s, c.hist.issues[i].fork)].ranAt.value
  }

  /** Two issues of one fork in a leg are at least its throttle apart. */
  ghost predicate Spaced(files: Files, c: Core) {
    forall s, i, j ::
      (&& InLeg(c.hist, s, i) && InLeg(c.hist, s, j) && i < j
       && c.hist.issues[i].fork == c.hist.issues[j].fork && Gap(files, c.hist.issues[i].path) > 0) ==>
      c.hist.issues[j].at - c.hist.issues[i].at >= Gap(files, c.hist.issues[i].path)
  }

  ghost predicate ThrottleInv(files: Files, c: Core) {
    Remembered(files, c) && Spaced(files, c)
  }

  /** Legs may shrink; fates may change; the roster rows of what remains are kept. */
  ghost predicate ThrottleFrame(c: Core, d: Core) {
    && SameButFate(c.hist.issues, d.hist.issues)
    && forall s, i :: InLeg(d.hist, s, i) ==>
         && InLeg(c.hist, s, i)
         && var k := (s, c.hist.issues[i].fork); (k in c.db.roster ==> k in d.db.roster && d.db.roster[k] == c.db.roster[k])
  }

  lemma FrameSpaced(files: Files, c: Core, d: Core)
    requires ThrottleInv(files, c) && ThrottleFrame(c, d)
    ensures ThrottleInv(files, d)
  {
    forall s, i | InLeg(d.hist, s, i) ensures InLeg(c.hist, s, i) {}
  }

  lemma CalmThrottle(files: Files, c: Core, db: Db)
    requires ThrottleInv(files, c) && Calm(c.db, db)
    ensures ThrottleInv(files, Core(db, c.hist))
  {
    FrameSpaced(files, c, Core(db, c.hist));
  }

  lemma BumpThrottle(files: Files, c: Core, s: Sid)
    requires ThrottleInv(files, c)
    ensures ThrottleInv(files, Bump(c, s))
  {
    FrameSpaced(files, c, Bump(c, s));
  }

  lemma ReleaseThrottle(files: Files, c: Core, s: Sid)
    requires ThrottleInv(files, c)
    ensures ThrottleInv(files, Release(c, s))
  {
    FrameSpaced(files, c, Release(c, s));
  }

  lemma CloseThrottle(files: Files, c: Core, s: Sid)
    requires ThrottleInv(files, c)
    ensures ThrottleInv(files, CloseLeg(c, s))
  {
    var d := CloseLeg(c, s);
    CloseShape(c, s);
    forall r, i | InLeg(d.hist, r, i) ensures r != s && InLeg(c.hist, r, i) {}
    FrameSpaced(files, c, d);
  }

  /** An issued fork was past its throttle, measured from its roster row. */
  lemma PickIsSpaced(files: Files, c: Core, ctx: Ctx, moments: seq<Moments.Moment>, t: int, sel: seq<Selected>, k: nat)
    requires SoundBatch(c.db, files, ctx, moments, t, sel) && k < |sel|
    ensures (ctx.sid, sel[k].name) in c.db.roster && c.db.roster[(ctx.sid, sel[k].name)].path == sel[k].path
    ensures Gap(files, sel[k].path) > 0 && c.db.roster[(ctx.sid, sel[k].name)].ranAt.Some? ==>
      t - c.db.roster[(ctx.sid, sel[k].name)].ranAt.value >= Gap(files, sel[k].path)
  {}

  lemma IssueSpaced(files: Files, c: Core, d: Core, ctx: Ctx, moments: seq<Moments.Moment>, t: int, sel: seq<Selected>,
                    r: Sid, i: int, j: int)
    requires KeysAllowed(files, c) && ThrottleInv(files, c) && SoundBatch(c.db, files, ctx, moments, t, sel)
    requires Appended(c.hist, d.hist, ctx.sid, sel, t)
    requires InLeg(d.hist, r, i) && InLeg(d.hist, r, j) && i < j
    requires d.hist.issues[i].fork == d.hist.issues[j].fork && Gap(files, d.hist.issues[i].path) > 0
    ensures d.hist.issues[j].at - d.hist.issues[i].at >= Gap(files, d.hist.issues[i].path)
  {
    var n := |c.hist.issues|;
    if j < n {
      assert InLeg(c.hist, r, i) && InLeg(c.hist, r, j);
    } else if i < n {
      assert InLeg(c.hist, r, i);
      assert Rostered(files, c.db, c.hist.issues[i]);
      PickIsSpaced(files, c, ctx, moments, t, sel, j - n);
    }
  }

  lemma IssueRemembered(files: Files, c: Core, d: Core, ctx: Ctx, moments: seq<Moments.Moment>, t: int, sel: seq<Selected>,
                        r: Sid, i: int)
    requires KeysAllowed(files, c) && ThrottleInv(files, c) && SoundBatch(c.db, files, ctx, moments, t, sel)
    requires Appended(c.hist, d.hist, ctx.sid, sel, t) && d.db.roster == Touched(c.db.roster, ctx.sid, sel, t, |sel|)
    requires InLeg(d.hist, r, i) && Gap(files, d.hist.issues[i].path) > 0
    ensures var k := (r, d.hist.issues[i].fork);
      k in d.db.roster && d.db.roster[k].ranAt.Some? && d.hist.issues[i].at <= d.db.roster[k].ranAt.value
  {
    var n, k := |c.hist.issues|, (r, d.hist.issues[i].fork);
    if i >= n {
      PickIsSpaced(files, c, ctx, moments, t, sel, i - n);
      assert Named(sel, |sel|, sel[i - n].name);
    } else {
      assert InLeg(c.hist, r, i);
      assert Rostered(files, c.db, c.hist.issues[i]);
      if r == ctx.sid && Named(sel, |sel|, k.1) {
        var m :| 0 <= m < |sel| && sel[m].name == k.1;
        PickIsSpaced(files, c, ctx, moments, t, sel, m);
      }
    }
  }

  lemma IssueThrottle(files: Files, c: Core, d: Core, ctx: Ctx, moments: seq<Moments.Moment>, t: int, sel: seq<Selected>)
    requires KeysAllowed(files, c) && ThrottleInv(files, c) && SoundBatch(c.db, files, ctx, moments, t, sel)
    requires Appended(c.hist, d.hist, ctx.sid, sel, t) && d.db.roster == Touched(c.db.roster, ctx.sid, sel, t, |sel|)
    ensures ThrottleInv(files, d)
  {
    forall r, i, j | InLeg(d.hist, r, i) && InLeg(d.hist, r, j) && i < j &&
      d.hist.issues[i].fork == d.hist.issues[j].fork && Gap(files, d.hist.issues[i].path) > 0
      ensures d.hist.issues[j].at - d.hist.issues[i].at >= Gap(files, d.hist.issues[i].path)
    {
      IssueSpaced(files, c, d, ctx, moments, t, sel, r, i, j);
    }
    forall r, i | InLeg(d.hist, r, i) && Gap(files, d.hist.issues[i].path) > 0
      ensures var k := (r, d.hist.issues[i].fork);
        k in d.db.roster && d.db.roster[k].ranAt.Some? && d.hist.issues[i].at <= d.db.roster[k].ranAt.value
    {
      IssueRemembered(files, c, d, ctx, moments, t, sel, r, i);
    }
  }

  // ---- per tag ----

  /** Which project a session belongs to, and each project's throttle windows. */
  datatype Projects = Projects(rootOf: Sid -> string, windows: string -> map<string, u64>)

  ghost predicate FixedRoots(p: Projects, db: Db) {
    forall s :: s in db.sessions ==> db.sessions[s].root == p.rootOf(s)
  }

  /** Tags as the frontmatter parser produces them. */
  ghost predicate CleanFiles(files: Files) {
    forall path :: path in files ==> Columns.Clean(files[path].tags)
  }

  /** The gap two issues sharing a tag must keep in this project. */
  function TagGap(p: Projects, root: string, tag: string): int {
    if tag in p.windows(root) then AsI64(p.windows(root)[tag]) else 0
  }

  ghost predicate WellTagged(c: Core) {
    forall i :: 0 <= i < |c.hist.issues| ==>
      && c.hist.issues[i].sid in c.db.sessions
      && c.hist.issues[i].batch < c.hist.batches
      && Columns.Clean(c.hist.issues[i].tags)
  }

  /** Issues sharing a throttled tag in one project are in one batch or a window apart,
      across sessions and closes. */
  ghost predicate TagSpaced(p: Projects, c: Core) {
    forall i, j, tag ::
      (&& 0 <= i < j < |c.hist.issues| && tag in c.hist.issues[i].tags && tag in c.hist.issues[j].tags
       && p.rootOf(c.hist.issues[i].sid) == p.rootOf(c.hist.issues[j].sid)
       && TagGap(p, p.rootOf(c.hist.issues[i].sid), tag) > 0) ==>
      || c.hist.issues[i].batch == c.hist.issues[j].batch
      || c.hist.issues[j].at - c.hist.issues[i].at >= TagGap(p, p.rootOf(c.hist.issues[i].sid), tag)
  }

  ghost predicate TagInv(p: Projects, c: Core) {
    WellTagged(c) && TagSpaced(p, c)
  }

  lemma FrameTag(p: Projects, c: Core, d: Core)
    requires TagInv(p, c) && SameButFate(c.hist.issues, d.hist.issues) && d.hist.batches == c.hist.batches
    requires forall s :: s in c.db.sessions ==> s in d.db.sessions
    ensures TagInv(p, d)
  {}

  /** A stored tag column reports exactly the tags of the run. */
  lemma CarriesTag(c: Core, i: nat, tag: string)
    requires Logged(c) && WellTagged(c) && i < |c.hist.issues|
    ensures Carries(c.db.runs[i], tag) <==> tag in c.hist.issues[i].tags
  {
    Columns.ColumnRoundTrip(c.hist.issues[i].tags);
  }

  lemma IssueTagged(p: Projects, files: Files, c: Core, ctx: Ctx, moments: seq<Moments.Moment>, t: int, sel: seq<Selected>,
                    i: nat, k: nat, tag: string)
    requires Logged(c) && WellTagged(c) && FixedRoots(p, c.db) && SoundBatch(c.db, files, ctx, moments, t, sel)
    requires ctx.root == p.rootOf(ctx.sid) && ctx.cfg.tagThrottles == p.windows(ctx.root)
    requires i < |c.hist.issues| && k < |sel| && tag in sel[k].tags && tag in c.hist.issues[i].tags
    requires p.rootOf(c.hist.issues[i].sid) == ctx.root && TagGap(p, ctx.root, tag) > 0
    ensures t - c.hist.issues[i].at >= TagGap(p, ctx.root, tag)
  {
    CarriesTag(c, i, tag);
    var m :| 0 <= m < |sel[k].tags| && sel[k].tags[m] == tag;
    assert !TagThrottledBy(c.db, ctx, sel[k].tags[m], t);
    assert InProject(c.db, c.db.runs[i], ctx.root);
  }

  /** Two issues sharing a throttled tag, the later one entered with the batch. */
  lemma IssuePair(p: Projects, files: Files, c: Core, d: Core, ctx: Ctx, moments: seq<Moments.Moment>, t: int, sel: seq<Selected>,
                  i: nat, j: nat, tag: string)
    requires Logged(c) && WellTagged(c) && FixedRoots(p, c.db) && SoundBatch(c.db, files, ctx, moments, t, sel)
    requires ctx.root == p.rootOf(ctx.sid) && ctx.cfg.tagThrottles == p.windows(ctx.root)
    requires Appended(c.hist, d.hist, ctx.sid, sel, t)
    requires i < j < |d.hist.issues| && j >= |c.hist.issues| && tag in d.hist.issues[i].tags && tag in d.hist.issues[j].tags
    requires p.rootOf(d.hist.issues[i].sid) == p.rootOf(d.hist.issues[j].sid) && TagGap(p, p.rootOf(d.hist.issues[i].sid), tag) > 0
    ensures || d.hist.issues[i].batch == d.hist.issues[j].batch
            || d.hist.issues[j].at - d.hist.issues[i].at >= TagGap(p, p.rootOf(d.hist.issues[i].sid), tag)
  {
    if i < |c.hist.issues| { IssueTagged(p, files, c, ctx, moments, t, sel, i, j - |c.hist.issues|, tag); }
  }

  lemma IssueWellTagged(files: Files, c: Core, d: Core, ctx: Ctx, moments: seq<Moments.Moment>, t: int, sel: seq<Selected>)
    requires WellTagged(c) && CleanFiles(files) && SoundBatch(c.db, files, ctx, moments, t, sel) && ctx.sid in c.db.sessions
    requires Appended(c.hist, d.hist, ctx.sid, sel, t) && d.hist.batches == c.hist.batches + 1 && d.db.sessions == c.db.sessions
    ensures WellTagged(d)
  {}

  lemma IssueTag(p: Projects, files: Files, c: Core, d: Core, ctx: Ctx, moments: seq<Moments.Moment>, t: int, sel: seq<Selected>)
    requires Logged(c) && TagInv(p, c) && FixedRoots(p, c.db) && CleanFiles(files)
    requires SoundBatch(c.db, files, ctx, moments, t, sel) && ctx.sid in c.db.sessions
    requires ctx.root == p.rootOf(ctx.sid) && ctx.cfg.tagThrottles == p.windows(ctx.root)
    requires Appended(c.hist, d.hist, ctx.sid, sel, t) && d.hist.batches == c.hist.batches + 1 && d.db.sessions == c.db.sessions
    ensures TagInv(p, d)
  {
    IssueWellTagged(files, c, d, ctx, moments, t, sel);
    forall i, j, tag | 0 <= i < j < |d.hist.issues| && tag in d.hist.issues[i].tags && tag in d.hist.issues[j].tags &&
      p.rootOf(d.hist.issues[i].sid) == p.rootOf(d.hist.issues[j].sid) &&
      TagGap(p, p.rootOf(d.hist.issues[i].sid), tag) > 0
      ensures || d.hist.issues[i].batch == d.hist.issues[j].batch
              || d.hist.issues[j].at - d.hist.issues[i].at >= TagGap(p, p.rootOf(d.hist.issues[i].sid), tag)
    {
      if j >= |c.hist.issues| { IssuePair(p, files, c, d, ctx, moments, t, sel, i, j, tag); }
    }
  }
}
