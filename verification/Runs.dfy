/** Every step of the daemon is a calm change and one act, so the invariants hold in every
    state of every run. */
module Runs {
  import opened Text
  import opened Notification
  import opened Registry
  import opened Store
  import opened Planner
  import opened Core
  import opened Polls
  import opened Latches
  import opened Throttles
  import opened Ledger
  import opened Progress
  import opened Acts
  import opened Machine

  // ---- steps as acts ----

  function CalmDb(w: World, e: Event): Db {
    match e
    case Started(s, info, t) => Upsert(w.core.db, s, info, t)
    case Prompted(_, _, _, _, _, _) => PromptDb(w.core.db, e)
    case Stopped(_, _, _, _, _, _, _) => StopDb(w.core.db, e)
    case Evaluated(p, entries, _, t) =>
      if p in w.snaps then QueueAll(w.core.db, w.snaps[p].ctx.sid, entries, t) else w.core.db
    case Refreshed(p, entries, t) =>
      if p in w.snaps then QueueAll(w.core.db, w.snaps[p].ctx.sid, entries, t) else w.core.db
    case _ => w.core.db
  }

  ghost function ActOf(env: Env, w: World, e: Event): Act {
    match e
    case Prompted(s, _, _, _, _, _) => if Genuine(env, w, e) then Bumping(s) else Nothing
    case Ended(s) => Closing(s)
    case Stopped(s, _, _, _, _, _, _) => if Released(StopDb(w.core.db, e), s) != {} then Releasing(s) else Nothing
    case Evaluated(p, _, order, t) =>
      if p !in w.snaps then Nothing
      else
        var sel := Batched(env, CalmDb(w, e), w.snaps[p], order, t);
        if sel == [] then Nothing else Issuing(w.snaps[p].ctx, MomentsAt(w.snaps[p], t), t, sel)
    case GraceOver(g) => if Expires(w, g) then Closing(w.ps.timers[g]) else Nothing
    case Reaped(s) => Closing(s)
    case _ => Nothing
  }

  lemma IngestCalm(db: Db, s: Sid, tail: Tail)
    ensures Calm(db, IngestDb(db, s, tail))
  {
    CalmRefl(db);
    if tail.Read? && s in db.sessions {
      var mid := SetSpawns(db, s, Ingest(SpawnsOf(db, s), tail.delta, tail.at));
      IngestEvolves(SpawnsOf(db, s), tail.delta, tail.at);
      SetSpawnsCalm(db, s, Ingest(SpawnsOf(db, s), tail.delta, tail.at));
      SetGaugeCalm(mid, s, tail.offset, tail.gauge);
      CalmTrans(db, mid, IngestDb(db, s, tail));
    }
  }

  lemma NotedCalm(db: Db, s: Sid, note: Note, tail: Tail, t: int)
    ensures Calm(db, NotedDb(db, s, note, tail, t))
  {
    CalmRefl(db);
    IngestCalm(db, s, tail);
    var read := IngestDb(db, s, tail);
    if HasIds(note) && Terminal(note.status).Some? && IsForkSpawn(SpawnsOf(read, s), note) {
      MarkEvolves(SpawnsOf(read, s), note, t);
      SetSpawnsCalm(read, s, MarkTerminal(SpawnsOf(read, s), note, t));
      CalmTrans(db, read, NotedDb(db, s, note, tail, t));
    }
  }

  lemma PromptCalm(db: Db, e: Event)
    requires e.Prompted?
    ensures Calm(db, PromptDb(db, e))
  {
    var mid := NotedDb(db, e.sid, e.note, e.tail, e.t);
    NotedCalm(db, e.sid, e.note, e.tail, e.t);
    UpsertCalm(mid, e.sid, e.info, e.t);
    CalmTrans(db, mid, PromptDb(db, e));
  }

  lemma StopCalm(db: Db, e: Event)
    requires e.Stopped?
    ensures Calm(db, StopDb(db, e))
  {
    var a := Upsert(db, e.sid, e.info, e.t);
    var b := StartPause(a, e.sid, e.t);
    UpsertCalm(db, e.sid, e.info, e.t);
    StartPauseCalm(a, e.sid, e.t);
    CalmTrans(db, a, b);
    IngestCalm(b, e.sid, e.tail);
    CalmTrans(db, b, StopDb(db, e));
  }

  lemma StepCalm(w: World, e: Event)
    ensures Calm(w.core.db, CalmDb(w, e))
  {
    CalmRefl(w.core.db);
    match e {
      case Started(s, info, t) => UpsertCalm(w.core.db, s, info, t);
      case Prompted(_, _, _, _, _, _) => PromptCalm(w.core.db, e);
      case Stopped(_, _, _, _, _, _, _) => StopCalm(w.core.db, e);
      case Evaluated(p, entries, _, t) => if p in w.snaps { QueueCalm(w.core.db, w.snaps[p].ctx.sid, entries, t); }
      case Refreshed(p, entries, t) => if p in w.snaps { QueueCalm(w.core.db, w.snaps[p].ctx.sid, entries, t); }
      case _ =>
    }
  }

  // ---- snapshots ----

  /** A live poll carries its session's snapshot; while it is not cancelled, the pause it
      captured is the current one. */
  ghost predicate SnapCurrent(env: Env, w: World, p: nat) {
    p in w.ps.live ==>
      && p in w.snaps
      && var ctx := w.snaps[p].ctx;
         && ctx.sid == w.ps.live[p].sid && ctx.sid in w.core.db.sessions && ctx.cfg == env.config(ctx.root)
         && (!w.ps.live[p].cancelled ==> ctx.epoch == EpochOf(w.core.db, ctx.sid))
  }

  ghost predicate Snapped(env: Env, w: World) {
    forall p: nat :: SnapCurrent(env, w, p)
  }

  ghost predicate WorldInv(env: Env, w: World) {
    CoreInv(env.files, w.core) && PollInv(w.ps) && Snapped(env, w)
  }

  lemma EvaluateTakes(env: Env, w: World, e: Event)
    requires MayEvaluate(w, e) && SnapCurrent(env, w, e.poll) && Calm(w.core.db, CalmDb(w, e))
    ensures Takes(env.files, w.core, CalmDb(w, e), ActOf(env, w, e), DoEvaluate(env, w, e).world.core)
  {
    BatchIsSound(env, CalmDb(w, e), w.snaps[e.poll], e.order, e.t);
  }

  lemma StepTakes(env: Env, w: World, e: Event)
    requires Snapped(env, w) && Enabled(env, w, e)
    ensures Takes(env.files, w.core, CalmDb(w, e), ActOf(env, w, e), Step(env, w, e).world.core)
  {
    StepCalm(w, e);
    if e.Evaluated? {
      assert SnapCurrent(env, w, e.poll);
      EvaluateTakes(env, w, e);
    }
  }

  predicate Advances(env: Env, w: World, e: Event, s: Sid) {
    e.Prompted? && e.sid == s && Genuine(env, w, e)
  }

  /** Only genuine activity of the session itself advances its pause epoch. */
  lemma EpochMoves(env: Env, w: World, e: Event, s: Sid)
    requires Snapped(env, w) && Enabled(env, w, e)
    ensures EpochOf(Step(env, w, e).world.core.db, s) == EpochOf(w.core.db, s) + if Advances(env, w, e, s) then 1 else 0
  {
    StepTakes(env, w, e);
    StepEpoch(env.files, w.core, CalmDb(w, e), ActOf(env, w, e), Step(env, w, e).world.core, s);
  }

  /** Polls as a step may leave them, apart from a newly registered one. */
  ghost predicate PollKept(w: World, v: World, p: nat) {
    p in v.ps.live ==>
      && p in w.ps.live && v.ps.live[p].sid == w.ps.live[p].sid && (w.ps.live[p].cancelled ==> v.ps.live[p].cancelled)
      && (p in w.snaps ==> p in v.snaps && v.snaps[p] == w.snaps[p])
      && (v.ps.live[p].cancelled || EpochOf(v.core.db, v.ps.live[p].sid) == EpochOf(w.core.db, v.ps.live[p].sid))
  }

  lemma KeptSnap(env: Env, w: World, v: World, p: nat)
    requires SnapCurrent(env, w, p) && PollKept(w, v, p)
    requires forall s :: s in w.core.db.sessions ==> s in v.core.db.sessions
    ensures SnapCurrent(env, v, p)
  {}

  lemma StepSessions(env: Env, w: World, e: Event)
    requires Snapped(env, w) && Enabled(env, w, e)
    ensures forall s :: s in w.core.db.sessions ==> s in Step(env, w, e).world.core.db.sessions
  {
    StepTakes(env, w, e);
    var mid := Core(CalmDb(w, e), w.core.hist);
    if ActOf(env, w, e).Issuing? {
      IssueShape(mid, ActOf(env, w, e).ctx.sid, ActOf(env, w, e).sel, ActOf(env, w, e).t);
    } else {
      ActFrames(mid, ActOf(env, w, e));
    }
  }

  /** The epoch a poll captured can only be left behind by cancelling the poll. */
  lemma PromptPoll(env: Env, w: World, e: Event, p: nat)
    requires Snapped(env, w) && PollInv(w.ps) && e.Prompted?
    ensures PollKept(w, DoPrompt(env, w, e), p)
  {
    ClearKeeps(w.ps, e.sid);
    CancelKeeps(Clear(w.ps, e.sid), e.sid);
    var v := DoPrompt(env, w, e);
    if p in v.ps.live && !v.ps.live[p].cancelled { EpochMoves(env, w, e, v.ps.live[p].sid); }
  }

  lemma RegisterKept(ps: Polls, s: Sid, p: nat)
    requires p != ps.next && p in Register(Clear(ps, s), s).live
    ensures p in ps.live && Register(Clear(ps, s), s).live[p].sid == ps.live[p].sid
    ensures ps.live[p].cancelled ==> Register(Clear(ps, s), s).live[p].cancelled
  {}

  lemma StopPoll(env: Env, w: World, e: Event, p: nat)
    requires Snapped(env, w) && e.Stopped? && Enabled(env, w, e) && p != w.ps.next
    ensures PollKept(w, DoStop(env, w, e).world, p)
  {
    var v := DoStop(env, w, e).world;
    if p in v.ps.live {
      RegisterKept(w.ps, e.sid, p);
      EpochMoves(env, w, e, v.ps.live[p].sid);
    }
  }

  lemma StopSnap(env: Env, w: World, e: Event)
    requires e.Stopped? && Enabled(env, w, e)
    ensures SnapCurrent(env, DoStop(env, w, e).world, w.ps.next)
  {
    StopHasSession(w.core.db, e);
  }

  lemma ClosePoll(env: Env, w: World, e: Event, p: nat)
    requires Snapped(env, w) && (e.Started? || e.Ended? || e.PlainStop? || e.Refreshed? || e.GraceOver? || e.Reaped?) && Enabled(env, w, e)
    ensures PollKept(w, Step(env, w, e).world, p)
  {
    var v := Step(env, w, e).world;
    if p in v.ps.live { EpochMoves(env, w, e, v.ps.live[p].sid); }
  }

  lemma PollPoll(env: Env, w: World, e: Event, p: nat)
    requires Snapped(env, w) && (e.Evaluated? || e.Returned? || e.Disconnected?) && Enabled(env, w, e)
    ensures PollKept(w, Step(env, w, e).world, p)
  {
    var v := Step(env, w, e).world;
    if p in v.ps.live { EpochMoves(env, w, e, v.ps.live[p].sid); }
  }

  lemma CancelPolls(ps: Polls, s: Sid)
    requires PollInv(ps)
    ensures PollInv(Cancel(Clear(ps, s), s))
  {
    ClearKeeps(ps, s);
    CancelKeeps(Clear(ps, s), s);
  }

  lemma StopPolls(ps: Polls, s: Sid)
    requires PollInv(ps)
    ensures PollInv(Register(Clear(ps, s), s)) && PollInv(Finish(Register(Clear(ps, s), s), ps.next))
  {
    ClearKeeps(ps, s);
    RegisterKeeps(Clear(ps, s), s);
    FinishKeeps(Register(Clear(ps, s), s), ps.next);
  }

  lemma StopEventPolls(env: Env, w: World, e: Event)
    requires e.Stopped? && PollInv(w.ps)
    ensures PollInv(DoStop(env, w, e).world.ps)
  {
    StopPolls(w.ps, e.sid);
  }

  lemma EventPolls(env: Env, w: World, e: Event)
    requires (e.Started? || e.Prompted? || e.Ended? || e.Stopped?) && Enabled(env, w, e) && PollInv(w.ps)
    ensures PollInv(Step(env, w, e).world.ps)
  {
    match e {
      case Started(s, _, _) => ClearKeeps(w.ps, s);
      case Prompted(s, _, _, _, _, _) => CancelPolls(w.ps, s);
      case Ended(s) => CancelPolls(w.ps, s);
      case Stopped(_, _, _, _, _, _, _) => StopEventPolls(env, w, e);
    }
  }

  lemma StepPolls(env: Env, w: World, e: Event)
    requires PollInv(w.ps) && Enabled(env, w, e)
    ensures PollInv(Step(env, w, e).world.ps)
  {
    match e {
      case Evaluated(p, _, _, _) => FinishKeeps(w.ps, p);
      case Returned(p) => FinishKeeps(w.ps, p);
      case Disconnected(p) => LoseKeeps(w.ps, p);
      case GraceOver(g) => ExpireKeeps(w.ps, g);
      case Reaped(_) =>
      case Refreshed(_, _, _) =>
      case PlainStop(s) => ClearKeeps(w.ps, s);
      case _ => EventPolls(env, w, e);
    }
  }

  lemma StepInv(env: Env, w: World, e: Event)
    requires WorldInv(env, w) && Enabled(env, w, e)
    ensures WorldInv(env, Step(env, w, e).world)
  {
    var v := Step(env, w, e).world;
    StepTakes(env, w, e);
    StepKeeps(env.files, w.core, CalmDb(w, e), ActOf(env, w, e), v.core);
    StepPolls(env, w, e);
    StepSessions(env, w, e);
    forall p: nat ensures SnapCurrent(env, v, p) {
      assert SnapCurrent(env, w, p);
      if e.Stopped? && p == w.ps.next {
        StopSnap(env, w, e);
      } else {
        match e {
          case Prompted(_, _, _, _, _, _) => PromptPoll(env, w, e, p);
          case Stopped(_, _, _, _, _, _, _) => StopPoll(env, w, e, p);
          case Evaluated(_, _, _, _) => PollPoll(env, w, e, p);
          case Returned(_) => PollPoll(env, w, e, p);
          case Disconnected(_) => PollPoll(env, w, e, p);
          case _ => ClosePoll(env, w, e, p);
        }
        KeptSnap(env, w, v, p);
      }
    }
  }

  /** The invariants hold in every state of every run. */
  lemma StartInv(env: Env)
    ensures WorldInv(env, START)
  {
    InvInitial(env.files);
  }

  lemma InvMoves(env: Env, r: Trace, k: nat)
    requires IsRun(env, r) && k < |r.events| && WorldInv(env, r.states[k])
    ensures WorldInv(env, r.states[k + 1])
  {
    assert StepAt(env, r, k);
    StepInv(env, r.states[k], r.events[k]);
  }

  lemma {:induction false} RunInv(env: Env, r: Trace, i: nat)
    requires IsRun(env, r) && i <= |r.events|
    ensures WorldInv(env, r.states[i])
  {
    if i == 0 {
      StartInv(env);
    } else {
      RunInv(env, r, i - 1);
      InvMoves(env, r, i - 1);
    }
  }

  // ---- stretches of a run ----

  /** The event closes session `s`. */
  predicate Closes(w: World, e: Event, s: Sid) {
    match e
    case Ended(r) => r == s
    case Reaped(r) => r == s
    case GraceOver(g) => Expires(w, g) && w.ps.timers[g] == s
    case _ => false
  }

  lemma ClosesIsClosing(env: Env, w: World, e: Event, s: Sid)
    ensures Closes(w, e, s) <==> ActOf(env, w, e) == Closing(s)
  {}

  /** No event from `i` up to `j` closes session `s`. */
  ghost predicate StaysOpen(r: Trace, s: Sid, i: nat, j: nat)
    requires i <= j <= |r.events| < |r.states|
  {
    forall k :: i <= k < j ==> !Closes(r.states[k], r.events[k], s)
  }

  /** What a step does, for use along a run. */
  lemma RunTakes(env: Env, r: Trace, k: nat)
    requires IsRun(env, r) && k < |r.events|
    ensures Takes(env.files, r.states[k].core, CalmDb(r.states[k], r.events[k]), ActOf(env, r.states[k], r.events[k]), r.states[k + 1].core)
  {
    RunInv(env, r, k);
    assert StepAt(env, r, k);
    StepTakes(env, r.states[k], r.events[k]);
  }

  lemma ContinuesMoves(env: Env, r: Trace, s: Sid, k: nat)
    requires IsRun(env, r) && k < |r.events| && !Closes(r.states[k], r.events[k], s)
    ensures Continues(r.states[k].core, r.states[k + 1].core, s)
  {
    var w, e := r.states[k], r.events[k];
    RunTakes(env, r, k);
    ClosesIsClosing(env, w, e, s);
    StepContinues(env.files, w.core, CalmDb(w, e), ActOf(env, w, e), r.states[k + 1].core, s);
  }

  /** Until its close a session keeps its leg, its forks' paths and every recorded fact
      about its spawns. */
  lemma {:induction false} LegContinues(env: Env, r: Trace, s: Sid, i: nat, j: nat)
    requires IsRun(env, r) && i <= j <= |r.events| && StaysOpen(r, s, i, j)
    ensures Continues(r.states[i].core, r.states[j].core, s)
    decreases j
  {
    if i < j {
      LegContinues(env, r, s, i, j - 1);
      ContinuesMoves(env, r, s, j - 1);
      ContinuesTrans(r.states[i].core, r.states[j - 1].core, r.states[j].core, s);
    }
  }

  /** What became of an issue is settled once and for all. */
  lemma {:induction false} FatesSettle(env: Env, r: Trace, i: nat, j: nat)
    requires IsRun(env, r) && i <= j <= |r.events|
    ensures FatesKept(r.states[i].core.hist, r.states[j].core.hist)
    decreases j
  {
    if i < j {
      FatesSettle(env, r, i, j - 1);
      RunTakes(env, r, j - 1);
      StepFates(env.files, r.states[j - 1].core, CalmDb(r.states[j - 1], r.events[j - 1]), ActOf(env, r.states[j - 1], r.events[j - 1]), r.states[j].core);
      FatesKeptTrans(r.states[i].core.hist, r.states[j - 1].core.hist, r.states[j].core.hist);
    }
  }
}
