/** The poll protocol under every interleaving: which Stop a poll belongs to, when it is open or
    cancelled, and what it captured. */
module Protocol {
  import opened Text
  import opened Registry
  import opened Store
  import opened Planner
  import opened Core
  import opened Polls
  import opened Acts
  import opened Machine
  import opened Runs
  import opened Sessions
  import Fork
  import Moments

  /** In every state of every run a session has at most one uncancelled poll, the one in
      `waits`, and the parked count is the number of its live polls. */
  lemma PollProtocol(env: Env, r: Trace, i: nat, s: Sid)
    requires IsRun(env, r) && i <= |r.events|
    ensures var ps := r.states[i].ps;
      && (forall p :: p in ps.live && ps.live[p].sid == s && !ps.live[p].cancelled ==> s in ps.waits && ps.waits[s] == p)
      && (s in ps.parked <==> LiveOf(ps.live, s) != {})
      && (s in ps.parked ==> ps.parked[s] == |LiveOf(ps.live, s)|)
  {
    RunInv(env, r, i);
  }

  // ---- polls and the Stops that registered them ----

  /** How many Stops there were before state `i`. */
  function Stops(r: Trace, i: nat): nat
    requires i <= |r.events|
  {
    if i == 0 then 0 else Stops(r, i - 1) + if r.events[i - 1].Stopped? then 1 else 0
  }

  /** The Stop that registered poll `p`: polls are numbered in the order of their Stops. */
  function StopOf(r: Trace, p: nat, i: nat): (q: Option<nat>)
    requires i <= |r.events|
    ensures q.Some? ==> q.value < i && r.events[q.value].Stopped? && Stops(r, q.value) == p
  {
    if i == 0 then None
    else if r.events[i - 1].Stopped? && Stops(r, i - 1) == p then Some(i - 1)
    else StopOf(r, p, i - 1)
  }

  lemma {:induction false} StopsGrow(r: Trace, i: nat, j: nat)
    requires i <= j <= |r.events|
    ensures Stops(r, i) <= Stops(r, j)
    decreases j
  {
    if i < j { StopsGrow(r, i, j - 1); }
  }

  lemma {:induction false} StopOfStays(r: Trace, p: nat, i: nat, j: nat)
    requires i <= j <= |r.events| && StopOf(r, p, i).Some?
    ensures StopOf(r, p, j) == StopOf(r, p, i)
    decreases j
  {
    if i < j {
      StopOfStays(r, p, i, j - 1);
      StopsGrow(r, StopOf(r, p, i).value + 1, j - 1);
    }
  }

  /** The session of poll `p`. */
  function PollSid(r: Trace, p: nat, i: nat): Option<Sid>
    requires i <= |r.events|
  {
    match StopOf(r, p, i)
    case Some(q) => Some(r.events[q].sid)
    case None => None
  }

  /** A prompt, the end of the session, or its next Stop. */
  predicate Interrupts(e: Event, s: Sid) {
    (e.Prompted? || e.Ended? || e.Stopped?) && e.sid == s
  }

  /** The step ends the poll: it is answered with a wake, returns without one, or is lost. */
  predicate EndsPoll(w: World, e: Event, answer: Answer, p: nat) {
    match e
    case Stopped(_, _, _, _, _, _, _) => p == w.ps.next && answer.Woke?
    case Evaluated(q, _, _, _) => q == p && answer.Woke?
    case Returned(q) => q == p
    case Disconnected(q) => q == p
    case _ => false
  }

  /** What one step does to a poll that was there before: it stays unless the step ends it, and
      is cancelled exactly by a prompt, the end or the next Stop of its session. */
  ghost predicate PollStays(w: World, e: Event, v: World, answer: Answer, p: nat) {
    && (p in v.ps.live <==> p in w.ps.live && !EndsPoll(w, e, answer, p))
    && (p in v.ps.live ==>
          && v.ps.live[p].sid == w.ps.live[p].sid
          && (v.ps.live[p].cancelled <==> w.ps.live[p].cancelled || Interrupts(e, w.ps.live[p].sid)))
  }

  /** The session's uncancelled poll is cancelled and nothing else happens to any poll. */
  ghost predicate Cancels(a: Polls, b: Polls, s: Sid, p: nat) {
    && (p in b.live <==> p in a.live)
    && (p in b.live ==> b.live[p].sid == a.live[p].sid && (b.live[p].cancelled <==> a.live[p].cancelled || a.live[p].sid == s))
  }

  lemma CancelStays(ps: Polls, s: Sid, p: nat)
    requires PollInv(ps)
    ensures Cancels(ps, Cancel(Clear(ps, s), s), s, p)
  {}

  lemma RegisterStays(ps: Polls, s: Sid, p: nat)
    requires PollInv(ps) && p != ps.next
    ensures Cancels(ps, Register(Clear(ps, s), s), s, p)
  {}

  lemma StopLive(env: Env, w: World, e: Event)
    requires e.Stopped?
    ensures var o, before := DoStop(env, w, e), Register(Clear(w.ps, e.sid), e.sid).live;
      o.world.ps.next == w.ps.next + 1 && o.world.ps.live == if o.answer.Woke? then before - {w.ps.next} else before
  {
    StopHasSession(w.core.db, e);
  }

  lemma StopStays(env: Env, w: World, e: Event, p: nat)
    requires PollInv(w.ps) && e.Stopped? && p != w.ps.next
    ensures PollStays(w, e, DoStop(env, w, e).world, DoStop(env, w, e).answer, p)
  {
    StopLive(env, w, e);
    RegisterStays(w.ps, e.sid, p);
  }

  lemma TurnStays(env: Env, w: World, e: Event, p: nat)
    requires PollInv(w.ps) && (e.Prompted? || e.Ended?)
    ensures PollStays(w, e, Step(env, w, e).world, Step(env, w, e).answer, p)
  {
    CancelStays(w.ps, e.sid, p);
  }

  lemma EvaluateStays(env: Env, w: World, e: Event, p: nat)
    requires e.Evaluated? && Enabled(env, w, e)
    ensures PollStays(w, e, Step(env, w, e).world, Step(env, w, e).answer, p)
  {}

  lemma QuietStays(env: Env, w: World, e: Event, p: nat)
    requires Enabled(env, w, e) && !e.Stopped? && !e.Prompted? && !e.Ended? && !e.Evaluated?
    ensures PollStays(w, e, Step(env, w, e).world, Step(env, w, e).answer, p)
  {}

  lemma StepStays(env: Env, w: World, e: Event, p: nat)
    requires PollInv(w.ps) && Enabled(env, w, e) && !e.Stopped?
    ensures PollStays(w, e, Step(env, w, e).world, Step(env, w, e).answer, p)
  {
    match e {
      case Prompted(_, _, _, _, _, _) => TurnStays(env, w, e, p);
      case Ended(_) => TurnStays(env, w, e, p);
      case Evaluated(_, _, _, _) => EvaluateStays(env, w, e, p);
      case _ => QuietStays(env, w, e, p);
    }
  }

  lemma NextStays(env: Env, w: World, e: Event)
    requires Enabled(env, w, e) && !e.Stopped?
    ensures Step(env, w, e).world.ps.next == w.ps.next
  {}

  /** What one step does to the numbering of the polls and to poll `p`; a Stop that is not
      answered parks a new one. */
  ghost predicate PollChange(w: World, e: Event, v: World, answer: Answer, p: nat) {
    && v.ps.next == w.ps.next + (if e.Stopped? then 1 else 0)
    && if !e.Stopped? || p != w.ps.next then PollStays(w, e, v, answer, p)
       else (p in v.ps.live <==> !answer.Woke?) && (p in v.ps.live ==> v.ps.live[p] == Poll(e.sid, false))
  }

  lemma PollChanges(env: Env, r: Trace, k: nat, p: nat)
    requires IsRun(env, r) && k < |r.events|
    ensures PollChange(r.states[k], r.events[k], r.states[k + 1], r.answers[k], p)
  {
    var w, e := r.states[k], r.events[k];
    RunInv(env, r, k);
    assert StepAt(env, r, k);
    if e.Stopped? {
      StopLive(env, w, e);
      if p != w.ps.next { StopStays(env, w, e, p); }
    } else {
      NextStays(env, w, e);
      StepStays(env, w, e, p);
    }
  }

  /** Event `j` ends poll `p`. */
  predicate Ends(r: Trace, j: nat, p: nat)
    requires j < |r.events| == |r.answers|
  {
    match r.events[j]
    case Stopped(_, _, _, _, _, _, _) => Stops(r, j) == p && r.answers[j].Woke?
    case Evaluated(q, _, _, _) => q == p && r.answers[j].Woke?
    case Returned(q) => q == p
    case Disconnected(q) => q == p
    case _ => false
  }

  /** Poll `p` was registered by Stop `q` and nothing has ended it since. */
  ghost predicate NotEnded(r: Trace, q: nat, i: nat, p: nat)
    requires q < |r.events| == |r.answers| && i <= |r.events|
  {
    forall j :: q <= j < i ==> !Ends(r, j, p)
  }

  /** No prompt, end or Stop of the poll's session since the poll was registered. */
  ghost predicate Undisturbed(r: Trace, q: nat, i: nat)
    requires q < |r.events| && i <= |r.events| && r.events[q].Stopped?
  {
    forall j :: q < j < i ==> !Interrupts(r.events[j], r.events[q].sid)
  }

  ghost predicate PollKnown(r: Trace, i: nat, p: nat)
    requires i <= |r.events| == |r.answers| && |r.events| < |r.states|
  {
    var q, live := StopOf(r, p, i), r.states[i].ps.live;
    && (p in live <==> q.Some? && NotEnded(r, q.value, i, p))
    && (p in live ==> live[p].sid == r.events[q.value].sid && (live[p].cancelled <==> !Undisturbed(r, q.value, i)))
  }

  lemma {:induction false} NotYetRegistered(r: Trace, p: nat, i: nat)
    requires i <= |r.events| && Stops(r, i) <= p
    ensures StopOf(r, p, i).None?
  {
    if i > 0 { NotYetRegistered(r, p, i - 1); }
  }

  lemma PollMoves(r: Trace, k: nat, p: nat)
    requires k < |r.events| == |r.answers| && |r.events| < |r.states| && r.states[k].ps.next == Stops(r, k) && PollKnown(r, k, p)
    requires PollChange(r.states[k], r.events[k], r.states[k + 1], r.answers[k], p)
    ensures r.states[k + 1].ps.next == Stops(r, k + 1) && PollKnown(r, k + 1, p)
  {
    if StopOf(r, p, k).Some? {
      StopOfStays(r, p, k, k + 1);
      OldPollMoves(r, k, p, StopOf(r, p, k).value);
    } else if p == Stops(r, k) && r.events[k].Stopped? {
      NewPollMoves(r, k, p);
    }
  }

  lemma NewPollMoves(r: Trace, k: nat, p: nat)
    requires k < |r.events| == |r.answers| && r.events[k].Stopped? && Stops(r, k) == p
    ensures StopOf(r, p, k + 1) == Some(k) && Undisturbed(r, k, k + 1)
    ensures NotEnded(r, k, k + 1, p) <==> !r.answers[k].Woke?
  {
    assert Ends(r, k, p) <==> r.answers[k].Woke?;
  }

  lemma OldPollMoves(r: Trace, k: nat, p: nat, q: nat)
    requires q < k < |r.events| == |r.answers| && r.events[q].Stopped? && Stops(r, q) == p
    ensures r.events[k].Stopped? ==> p != Stops(r, k)
    ensures NotEnded(r, q, k + 1, p) <==> NotEnded(r, q, k, p) && !Ends(r, k, p)
    ensures Undisturbed(r, q, k + 1) <==> Undisturbed(r, q, k) && !Interrupts(r.events[k], r.events[q].sid)
  {
    StopsGrow(r, q + 1, k);
  }

  lemma {:induction false} PollsKnown(env: Env, r: Trace, i: nat, p: nat)
    requires IsRun(env, r) && i <= |r.events|
    ensures r.states[i].ps.next == Stops(r, i) && PollKnown(r, i, p)
  {
    if i > 0 {
      PollsKnown(env, r, i - 1, p);
      PollChanges(env, r, i - 1, p);
      PollMoves(r, i - 1, p);
    }
  }

  lemma NextIsStops(env: Env, r: Trace, i: nat)
    requires IsRun(env, r) && i <= |r.events|
    ensures r.states[i].ps.next == Stops(r, i)
  {
    PollsKnown(env, r, i, 0);
  }

  /** In every state of every run: a poll is open exactly from the Stop that registered it until
      an event ends it, and cancelled exactly when its session saw a prompt, its end or another
      Stop in between. */
  lemma PollOnTrace(env: Env, r: Trace, i: nat, p: nat)
    requires IsRun(env, r) && i <= |r.events|
    ensures var q, live := StopOf(r, p, i), r.states[i].ps.live;
      && (p in live <==> q.Some? && forall j :: q.value <= j < i ==> !Ends(r, j, p))
      && (p in live ==> live[p].sid == r.events[q.value].sid)
      && (p in live ==> (live[p].cancelled <==> exists j :: q.value < j < i && Interrupts(r.events[j], r.events[q.value].sid)))
  {
    PollsKnown(env, r, i, p);
  }

  /** No poll is answered twice. */
  lemma EndsOnce(env: Env, r: Trace, j: nat, k: nat, p: nat)
    requires IsRun(env, r) && j < k < |r.events| && Ends(r, j, p)
    ensures !Ends(r, k, p)
  {
    EndsRegistered(env, r, j, p);
    PollsKnown(env, r, k, p);
    StopOfStays(r, p, j + 1, k);
    if Ends(r, k, p) {
      EndsOpen(env, r, k, p);
      StopsGrow(r, StopOf(r, p, k).value + 1, k);
    }
  }

  /** Only an open poll is ended, or the one a Stop just registered. */
  lemma EndsOpen(env: Env, r: Trace, k: nat, p: nat)
    requires IsRun(env, r) && k < |r.events| && Ends(r, k, p)
    ensures r.events[k].Stopped? || p in r.states[k].ps.live
  {
    assert StepAt(env, r, k);
  }

  lemma EndsRegistered(env: Env, r: Trace, k: nat, p: nat)
    requires IsRun(env, r) && k < |r.events| && Ends(r, k, p)
    ensures StopOf(r, p, k + 1).Some? && StopOf(r, p, k + 1).value <= k
  {
    EndsOpen(env, r, k, p);
    PollsKnown(env, r, k, p);
    if StopOf(r, p, k).Some? { StopOfStays(r, p, k, k + 1); }
  }

  /** No wake goes out mid-turn: a poll that evaluates was registered by its session's last
      Stop, with no prompt of the session and no end of it since, and it is this session the
      answer goes to. */
  lemma TurnIsQuiet(env: Env, r: Trace, k: nat)
    requires IsRun(env, r) && k < |r.events| && r.events[k].Evaluated?
    ensures StopOf(r, r.events[k].poll, k).Some? && Undisturbed(r, StopOf(r, r.events[k].poll, k).value, k)
    ensures r.answers[k].Woke? ==> Some(r.answers[k].sid) == PollSid(r, r.events[k].poll, k)
  {
    PollsKnown(env, r, k, r.events[k].poll);
    RunInv(env, r, k);
    assert StepAt(env, r, k);
    assert SnapCurrent(env, r.states[k], r.events[k].poll);
  }

  /** A wake is never issued on behalf of a pause that is over: the poll that evaluates
      captured the session's current pause. */
  lemma WakesCurrentPause(env: Env, r: Trace, k: nat)
    requires IsRun(env, r) && k < |r.events| && r.events[k].Evaluated?
    ensures r.events[k].poll in r.states[k].snaps
    ensures var ctx := r.states[k].snaps[r.events[k].poll].ctx; ctx.epoch == EpochOf(r.states[k].core.db, ctx.sid)
  {
    RunInv(env, r, k);
    assert StepAt(env, r, k);
    assert SnapCurrent(env, r.states[k], r.events[k].poll);
  }

  // ---- what a parked poll captured ----

  /** The Stop took this snapshot. */
  ghost predicate TakenBy(env: Env, w: World, e: Event, snap: Snap) {
    e.Stopped? && e.sid in StopDb(w.core.db, e).sessions && snap == TakeSnap(env, StopDb(w.core.db, e), e)
  }

  /** Every snapshot was taken by the Stop that registered the poll. */
  ghost predicate SnapTaken(env: Env, r: Trace, i: nat, p: nat)
    requires i <= |r.events| < |r.states|
  {
    p in r.states[i].snaps ==>
      StopOf(r, p, i).Some? &&
      TakenBy(env, r.states[StopOf(r, p, i).value], r.events[StopOf(r, p, i).value], r.states[i].snaps[p])
  }

  /** A step leaves snapshots alone, except that a Stop may take the one of its poll. */
  ghost predicate SnapChange(env: Env, w: World, e: Event, v: World, p: nat) {
    p in v.snaps ==>
      || (p in w.snaps && v.snaps[p] == w.snaps[p])
      || (e.Stopped? && p == w.ps.next && TakenBy(env, w, e, v.snaps[p]))
  }

  lemma SnapChanges(env: Env, r: Trace, k: nat, p: nat)
    requires IsRun(env, r) && k < |r.events|
    ensures SnapChange(env, r.states[k], r.events[k], r.states[k + 1], p)
  {
    assert StepAt(env, r, k);
    if r.events[k].Stopped? { StopHasSession(r.states[k].core.db, r.events[k]); }
  }

  lemma NewSnap(r: Trace, k: nat, p: nat)
    requires k < |r.events| && r.events[k].Stopped? && Stops(r, k) == p
    ensures StopOf(r, p, k + 1) == Some(k)
  {}

  lemma {:induction false} SnapsTaken(env: Env, r: Trace, i: nat, p: nat)
    requires IsRun(env, r) && i <= |r.events|
    ensures SnapTaken(env, r, i, p)
  {
    if i > 0 && p in r.states[i].snaps {
      var k := i - 1;
      NextIsStops(env, r, k);
      SnapChanges(env, r, k, p);
      if p in r.states[k].snaps && r.states[i].snaps[p] == r.states[k].snaps[p] {
        SnapsTaken(env, r, k, p);
        StopOfStays(r, p, k, i);
      } else {
        NewSnap(r, k, p);
      }
    }
  }

  /** What the poll of Stop `q` judges by, read off the trace. */
  ghost predicate SnapOnTrace(env: Env, r: Trace, q: nat, snap: Snap)
    requires q < |r.events| < |r.states| && r.events[q].Stopped?
  {
    var e := r.events[q];
    && snap.ctx == Ctx(e.sid, e.info.root, ReadColumn(Column(e.info.enable)), ReadColumn(Column(e.info.disable)),
                       Pauses(env, r, e.sid, q + 1), env.config(e.info.root))
    && FirstStop(env, r, e.sid, q + 1) == Some(snap.base)
    && snap.gauge == (if e.tail.NoTranscript? then None else LastGauge(r, e.sid, q + 1))
    && Moments.IsWindow(LastModel(r, e.sid, q + 1), snap.gauge, snap.window)
    && snap.deadlines == e.deadlines
  }

  lemma SnapRow(env: Env, r: Trace, q: nat)
    requires IsRun(env, r) && q < |r.events| && r.events[q].Stopped?
    ensures var e, db := r.events[q], StopDb(r.states[q].core.db, r.events[q]);
      e.sid in db.sessions && RowOnTrace(env, r, e.sid, q + 1, db.sessions[e.sid])
  {
    var w, e := r.states[q], r.events[q];
    StopSession(w.core.db, e, e.sid);
    StopHasSession(w.core.db, e);
    SessionIsKnown(env, r, e.sid, q);
    KnownMoves(env, r, e.sid, q, SessionOf(w.core.db, e.sid));
    ActMeans(env, w, e, e.sid);
  }

  lemma SnapReads(env: Env, r: Trace, q: nat)
    requires IsRun(env, r) && q < |r.events| && r.events[q].Stopped?
    requires r.events[q].sid in StopDb(r.states[q].core.db, r.events[q]).sessions
    ensures SnapOnTrace(env, r, q, TakeSnap(env, StopDb(r.states[q].core.db, r.events[q]), r.events[q]))
  {
    SnapRow(env, r, q);
  }

  /** In every state of every run a parked poll judges by what its Stop reported and read:
      project, filters and configuration, the pause it belongs to, the first Stop of that
      pause, the last token count, and the window of the last model. */
  lemma ParkedPollKnows(env: Env, r: Trace, i: nat, p: nat)
    requires IsRun(env, r) && i <= |r.events| && p in r.states[i].snaps
    ensures StopOf(r, p, i).Some? && SnapOnTrace(env, r, StopOf(r, p, i).value, r.states[i].snaps[p])
  {
    SnapsTaken(env, r, i, p);
    SnapReads(env, r, StopOf(r, p, i).value);
  }

  /** Every Stop that is not answered parks its poll. */
  lemma StopParks(env: Env, r: Trace, k: nat)
    requires IsRun(env, r) && k < |r.events| && r.events[k].Stopped? && r.answers[k] == Quiet
    ensures StopOf(r, Stops(r, k), k + 1) == Some(k) && Stops(r, k) in r.states[k + 1].snaps
  {
    PollsKnown(env, r, k, 0);
    assert StepAt(env, r, k);
  }

  /** What a Stop that parks at event `k` will match at time `t`: a fork whose deadlines were
      discovered is due iff it names a context threshold the last token count meets, in the
      window of the last model, or a positive idle delay that has passed since the first Stop
      of the pause. This holds for clock readings from which the fork's delays fit an `i64`. */
  lemma ParkedPollIsDirect(env: Env, r: Trace, k: nat, def: Fork.ForkDef, w: Text.u64, t: int)
    requires IsRun(env, r) && k < |r.events| && r.events[k].Stopped? && r.answers[k] == Quiet && def in r.events[k].forks
    requires var e := r.events[k];
      Moments.IsWindow(LastModel(r, e.sid, k + 1), if e.tail.NoTranscript? then None else LastGauge(r, e.sid, k + 1), w)
    ensures FirstStop(env, r, r.events[k].sid, k + 1).Some? && Stops(r, k) in r.states[k + 1].snaps
    ensures var e, snap := r.events[k], r.states[k + 1].snaps[Stops(r, k)];
      var gauge := if e.tail.NoTranscript? then None else LastGauge(r, e.sid, k + 1);
      var base, default := FirstStop(env, r, e.sid, k + 1).value, env.config(e.info.root).defaultIdle;
      (Moments.Clock(base) && Moments.DelaysFit(def, default, base) && (gauge.Some? ==> gauge.value * 100 < U64_LIMIT)) ==>
      (Trigger(def, snap.ctx, MomentsAt(snap, t)).Some? <==>
       (Moments.ContextMet(def, gauge, w) || Moments.IdleMet(def, default, base, t)))
  {
    var e := r.events[k];
    StopParks(env, r, k);
    ParkedPollKnows(env, r, k + 1, Stops(r, k));
    assert StepAt(env, r, k);
    var snap, default := r.states[k + 1].snaps[Stops(r, k)], env.config(e.info.root).defaultIdle;
    if Moments.Clock(snap.base) && Moments.DelaysFit(def, default, snap.base) && (snap.gauge.Some? ==> snap.gauge.value * 100 < U64_LIMIT) {
      Moments.PipelineIsDirect(def, e.forks, e.deadlines, LastModel(r, e.sid, k + 1), snap.gauge, w, snap.base, t, default);
    }
  }
}
