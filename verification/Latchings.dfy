/** Which latches are consumed, told by the rows the run recorded. */
module Latchings {
  import opened Text
  import opened Store
  import opened Planner
  import opened Core
  import opened Latches
  import opened Acts
  import opened Machine
  import opened Runs
  import opened Rows
  import opened Activity
  import Fork
  import Moments

  // ---- what the rows say ----

  /** Event `k` recorded run `x` of the fork. */
  predicate RecordsOf(r: Trace, k: nat, x: nat, s: Sid, f: string)
    requires k + 1 < |r.states|
  {
    Records(r, k, x) && r.states[k + 1].core.db.runs[x].sid == s && r.states[k + 1].core.db.runs[x].fork == f
  }

  /** Event `k` issued the fork under the label. */
  ghost predicate IssuedUnder(r: Trace, k: nat, s: Sid, f: string, text: string)
    requires k + 1 < |r.states|
  {
    exists x: nat :: RecordsOf(r, k, x, s, f) && r.states[k + 1].core.db.runs[x].trigger == text
  }

  /** Event `k` issued the fork for idleness. */
  ghost predicate IssuedIdle(r: Trace, k: nat, s: Sid, f: string)
    requires k + 1 < |r.states|
  {
    exists x: nat :: RecordsOf(r, k, x, s, f) && Fork.IdleLabelled(r.states[k + 1].core.db.runs[x].trigger)
  }

  /** The fork was issued under the label since the session was last closed. */
  ghost predicate LabelSpent(r: Trace, s: Sid, f: string, text: string, i: nat)
    requires i <= |r.events| < |r.states|
  {
    i > 0 && !Closes(r.states[i - 1], r.events[i - 1], s) &&
    (IssuedUnder(r, i - 1, s, f, text) || LabelSpent(r, s, f, text, i - 1))
  }

  /** The fork was issued for idleness since the session was last closed or began a new pause. */
  ghost predicate IdleSpent(env: Env, r: Trace, s: Sid, f: string, i: nat)
    requires i <= |r.events| == |r.answers| && |r.events| < |r.states|
  {
    i > 0 && !Closes(r.states[i - 1], r.events[i - 1], s) && !NewPause(env, r, i - 1, s) &&
    (IssuedIdle(r, i - 1, s, f) || IdleSpent(env, r, s, f, i - 1))
  }

  // ---- one step ----

  ghost predicate Keyed(sel: seq<Selected>, f: string, key: string) {
    exists m :: 0 <= m < |sel| && sel[m].name == f && sel[m].key == Some(key)
  }

  lemma IssuedLatch(c: Core, a: Act, l: Latch)
    requires a.Issuing? && DistinctNames(a.sel)
    ensures l in Apply(c, a).db.fires <==> l in c.db.fires || (a.ctx.sid == l.sid && Keyed(a.sel, l.fork, l.key))
  {
    assert l in Planner.Latches(a.ctx.sid, a.sel, |a.sel|) <==> a.ctx.sid == l.sid && Keyed(a.sel, l.fork, l.key);
  }

  lemma ActLatch(c: Core, a: Act, l: Latch)
    requires a.Issuing? ==> DistinctNames(a.sel)
    ensures l in Apply(c, a).db.fires <==>
      a != Closing(l.sid) && (l in c.db.fires || (a.Issuing? && a.ctx.sid == l.sid && Keyed(a.sel, l.fork, l.key)))
  {
    if a.Issuing? { IssuedLatch(c, a, l); }
  }

  lemma LatchMoves(env: Env, r: Trace, k: nat, l: Latch)
    requires IsRun(env, r) && k < |r.events|
    ensures var a := ActOf(env, r.states[k], r.events[k]);
      l in r.states[k + 1].core.db.fires <==>
      !Closes(r.states[k], r.events[k], l.sid) &&
      (l in r.states[k].core.db.fires || (a.Issuing? && a.ctx.sid == l.sid && Keyed(a.sel, l.fork, l.key)))
  {
    var w, e := r.states[k], r.events[k];
    RunTakes(env, r, k);
    ClosesIsClosing(env, w, e, l.sid);
    ActLatch(Core(CalmDb(w, e), w.core.hist), ActOf(env, w, e), l);
  }

  /** A member consumes the latch of the current pause when its label is idle, and the one named
      by its label otherwise. */
  lemma MemberKey(files: Files, db: Db, ctx: Ctx, moments: seq<Moments.Moment>, t: int, sel: seq<Selected>, m: nat)
    requires SoundBatch(db, files, ctx, moments, t, sel) && m < |sel|
    ensures sel[m].key == Some(if Fork.IdleLabelled(sel[m].trigger) then Fork.IdleKey(ctx.epoch) else sel[m].trigger)
  {
    var def := files[db.roster[(ctx.sid, sel[m].name)].path];
    Moments.MatchSupported(def.runOn, moments, ctx.cfg.defaultIdle);
    Fork.LabelTells(Trigger(def, ctx, moments).value);
  }

  ghost predicate KeysFit(sel: seq<Selected>, epoch: nat) {
    forall m :: 0 <= m < |sel| ==>
      sel[m].key == Some(if Fork.IdleLabelled(sel[m].trigger) then Fork.IdleKey(epoch) else sel[m].trigger)
  }

  lemma BatchKeys(env: Env, r: Trace, k: nat)
    requires IsRun(env, r) && k < |r.events| && ActOf(env, r.states[k], r.events[k]).Issuing?
    ensures var a := ActOf(env, r.states[k], r.events[k]); KeysFit(a.sel, EpochOf(r.states[k].core.db, a.ctx.sid))
  {
    var w, e, a := r.states[k], r.events[k], ActOf(env, r.states[k], r.events[k]);
    RunTakes(env, r, k);
    forall m | 0 <= m < |a.sel|
      ensures a.sel[m].key == Some(if Fork.IdleLabelled(a.sel[m].trigger) then Fork.IdleKey(a.ctx.epoch) else a.sel[m].trigger)
    {
      MemberKey(env.files, CalmDb(w, e), a.ctx, a.moments, a.t, a.sel, m);
    }
  }

  lemma IdleKeyIsIdle(epoch: nat)
    ensures Fork.IdleLabelled(Fork.IdleKey(epoch))
  {
    assert Fork.IdleKey(epoch)[0] == 'i';
  }

  /** Members and recorded rows, one for one. */
  lemma MemberRecorded(env: Env, r: Trace, k: nat, m: nat)
    requires IsRun(env, r) && k < |r.events| && ActOf(env, r.states[k], r.events[k]).Issuing?
    requires m < |ActOf(env, r.states[k], r.events[k]).sel|
    ensures var a, x := ActOf(env, r.states[k], r.events[k]), |r.states[k].core.db.runs| + m;
      RecordsOf(r, k, x, a.ctx.sid, a.sel[m].name) && r.states[k + 1].core.db.runs[x].trigger == a.sel[m].trigger
  {
    RunsMove(env, r, k);
  }

  lemma LabelIssued(env: Env, r: Trace, k: nat, s: Sid, f: string, text: string)
    requires IsRun(env, r) && k < |r.events| && !Fork.IdleLabelled(text)
    ensures var a := ActOf(env, r.states[k], r.events[k]);
      IssuedUnder(r, k, s, f, text) <==> a.Issuing? && a.ctx.sid == s && Keyed(a.sel, f, text)
  {
    var a, n := ActOf(env, r.states[k], r.events[k]), |r.states[k].core.db.runs|;
    if a.Issuing? { BatchKeys(env, r, k); }
    IdleKeyIsIdle(EpochOf(r.states[k].core.db, s));
    if IssuedUnder(r, k, s, f, text) {
      var x: nat :| RecordsOf(r, k, x, s, f) && r.states[k + 1].core.db.runs[x].trigger == text;
      RowIsMember(env, r, k, x);
      assert a.sel[x - n].name == f;
    }
    if a.Issuing? && a.ctx.sid == s && Keyed(a.sel, f, text) {
      var m :| 0 <= m < |a.sel| && a.sel[m].name == f && a.sel[m].key == Some(text);
      MemberRecorded(env, r, k, m);
    }
  }

  lemma IdleIssued(env: Env, r: Trace, k: nat, s: Sid, f: string)
    requires IsRun(env, r) && k < |r.events|
    ensures var a := ActOf(env, r.states[k], r.events[k]);
      IssuedIdle(r, k, s, f) <==> a.Issuing? && a.ctx.sid == s && Keyed(a.sel, f, Fork.IdleKey(EpochOf(r.states[k].core.db, s)))
  {
    var a, n := ActOf(env, r.states[k], r.events[k]), |r.states[k].core.db.runs|;
    var key := Fork.IdleKey(EpochOf(r.states[k].core.db, s));
    if a.Issuing? { BatchKeys(env, r, k); }
    IdleKeyIsIdle(EpochOf(r.states[k].core.db, s));
    if IssuedIdle(r, k, s, f) {
      var x: nat :| RecordsOf(r, k, x, s, f) && Fork.IdleLabelled(r.states[k + 1].core.db.runs[x].trigger);
      RowIsMember(env, r, k, x);
      assert a.sel[x - n].name == f;
    }
    if a.Issuing? && a.ctx.sid == s && Keyed(a.sel, f, key) {
      var m :| 0 <= m < |a.sel| && a.sel[m].name == f && a.sel[m].key == Some(key);
      MemberRecorded(env, r, k, m);
    }
  }

  // ---- the latches ----

  /** In every state of every run the latch of a context label is consumed exactly when the fork
      was issued under that label since the session was last closed. */
  lemma {:induction false} LabelLatches(env: Env, r: Trace, s: Sid, f: string, text: string, i: nat)
    requires IsRun(env, r) && i <= |r.events| && !Fork.IdleLabelled(text)
    ensures Latch(s, f, text) in r.states[i].core.db.fires <==> LabelSpent(r, s, f, text, i)
  {
    if i > 0 {
      LabelLatches(env, r, s, f, text, i - 1);
      LatchMoves(env, r, i - 1, Latch(s, f, text));
      LabelIssued(env, r, i - 1, s, f, text);
    }
  }

  lemma NoFutureLatch(files: Files, c: Core, s: Sid, f: string)
    requires LatchInv(files, c)
    ensures Latch(s, f, Fork.IdleKey(EpochOf(c.db, s) + 1)) !in c.db.fires
  {
    var l := Latch(s, f, Fork.IdleKey(EpochOf(c.db, s) + 1));
    if l in c.db.fires {
      var i :| Stamp(c.hist, l, i);
      StampedKey(files, c, s, i);
      IdleKeyIsIdle(EpochOf(c.db, s) + 1);
      forall e: nat ensures Fork.IdleKey(e) == l.key <==> e == EpochOf(c.db, s) + 1 { Fork.IdleKeyInjective(e, EpochOf(c.db, s) + 1); }
    }
  }

  /** The keys of a leg's issues belong to its pauses or are context labels. */
  lemma StampedKey(files: Files, c: Core, s: Sid, i: int)
    requires LatchInv(files, c) && InLeg(c.hist, s, i)
    ensures var key := c.hist.issues[i].key;
      !Fork.IdleLabelled(key) || exists e: nat :: e <= EpochOf(c.db, s) && key == Fork.IdleKey(e)
  {
    var x := c.hist.issues[i];
    assert Rostered(files, c.db, x);
    var def := files[x.path];
    if !Fork.IdleLabelled(x.trigger) {
      var k :| 0 <= k < |def.runOn| && def.runOn[k].IsContext() && x.key == def.runOn[k].Label();
      Fork.LabelTells(def.runOn[k]);
    }
  }

  lemma EpochStep(env: Env, r: Trace, s: Sid, f: string, k: nat)
    requires IsRun(env, r) && k < |r.events|
    ensures var e := EpochOf(r.states[k].core.db, s);
      EpochOf(r.states[k + 1].core.db, s) == if NewPause(env, r, k, s) then e + 1 else e
    ensures Latch(s, f, Fork.IdleKey(EpochOf(r.states[k].core.db, s) + 1)) !in r.states[k].core.db.fires
  {
    EpochExactly(env, r, s, k);
    RunInv(env, r, k);
    NoFutureLatch(env.files, r.states[k].core, s, f);
  }

  lemma PromptsIssueNothing(env: Env, w: World, e: Event)
    ensures e.Prompted? ==> !ActOf(env, w, e).Issuing?
  {}

  /** And the latch of the current pause exactly when the fork was issued for idleness since the
      session was last closed or began a new pause. */
  lemma {:induction false} IdleLatches(env: Env, r: Trace, s: Sid, f: string, i: nat)
    requires IsRun(env, r) && i <= |r.events|
    ensures Latch(s, f, Fork.IdleKey(EpochOf(r.states[i].core.db, s))) in r.states[i].core.db.fires <==> IdleSpent(env, r, s, f, i)
  {
    if i > 0 {
      var k := i - 1;
      IdleLatches(env, r, s, f, k);
      EpochStep(env, r, s, f, k);
      LatchMoves(env, r, k, Latch(s, f, Fork.IdleKey(EpochOf(r.states[i].core.db, s))));
      PromptsIssueNothing(env, r.states[k], r.events[k]);
      IdleIssued(env, r, k, s, f);
    }
  }

  // ---- by trigger ----

  /** The fork has been issued for this trigger already: under its label since the session was
      last closed, or, when it is idle, for idleness in this pause. */
  ghost predicate Spent(env: Env, r: Trace, s: Sid, f: string, trigger: Fork.RunOn, i: nat)
    requires i <= |r.events| == |r.answers| && |r.events| < |r.states|
  {
    if trigger.Idle? then IdleSpent(env, r, s, f, i) else LabelSpent(r, s, f, trigger.Label(), i)
  }

  lemma SpentExactly(env: Env, r: Trace, s: Sid, f: string, trigger: Fork.RunOn, i: nat)
    requires IsRun(env, r) && i <= |r.events| && trigger.Supported()
    ensures var key := Fork.LatchKey(trigger, EpochOf(r.states[i].core.db, s));
      key.Some? && (Latch(s, f, key.value) in r.states[i].core.db.fires <==> Spent(env, r, s, f, trigger, i))
  {
    Fork.LabelTells(trigger);
    if trigger.Idle? { IdleLatches(env, r, s, f, i); } else { LabelLatches(env, r, s, f, trigger.Label(), i); }
  }
}
