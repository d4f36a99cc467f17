/** Which lost poll closes its session, told by the events of the run alone. */
module Grace {
  import opened Text
  import opened Store
  import opened Polls
  import opened Machine
  import opened Runs
  import opened Sessions
  import opened Protocol

  /** How many polls were lost before state `i`. */
  function Losses(r: Trace, i: nat): nat
    requires i <= |r.events|
  {
    if i == 0 then 0 else Losses(r, i - 1) + if r.events[i - 1].Disconnected? then 1 else 0
  }

  /** The loss that started grace timer `g`: timers are numbered from 1 in the order of the
      losses. */
  function LossOf(r: Trace, g: nat, i: nat): (d: Option<nat>)
    requires i <= |r.events|
    ensures d.Some? ==> d.value < i && r.events[d.value].Disconnected? && Losses(r, d.value) + 1 == g
  {
    if i == 0 then None
    else if r.events[i - 1].Disconnected? && Losses(r, i - 1) + 1 == g then Some(i - 1)
    else LossOf(r, g, i - 1)
  }

  lemma {:induction false} LossesGrow(r: Trace, i: nat, j: nat)
    requires i <= j <= |r.events|
    ensures Losses(r, i) <= Losses(r, j)
    decreases j
  {
    if i < j { LossesGrow(r, i, j - 1); }
  }

  lemma {:induction false} LossOfIs(r: Trace, d: nat, i: nat)
    requires d < i <= |r.events| && r.events[d].Disconnected?
    ensures LossOf(r, Losses(r, d) + 1, i) == Some(d)
    decreases i
  {
    if d < i - 1 {
      LossOfIs(r, d, i - 1);
      LossesGrow(r, d + 1, i - 1);
    }
  }

  /** Event `j` shows the session alive, ends it, or loses a poll of it. */
  predicate About(r: Trace, j: nat, s: Sid)
    requires j < |r.events|
  {
    match r.events[j]
    case Started(x, _, _) => x == s
    case Prompted(x, _, _, _, _, _) => x == s
    case PlainStop(x) => x == s
    case Stopped(x, _, _, _, _, _, _) => x == s
    case Ended(x) => x == s
    case Disconnected(p) => PollSid(r, p, j) == Some(s)
    case _ => false
  }

  /** The last such event before state `i`. */
  function LastAbout(r: Trace, s: Sid, i: nat): (d: Option<nat>)
    requires i <= |r.events|
    ensures d.Some? ==> d.value < i && About(r, d.value, s) && forall j :: d.value < j < i ==> !About(r, j, s)
    ensures d.None? ==> forall j :: 0 <= j < i ==> !About(r, j, s)
  {
    if i == 0 then None else if About(r, i - 1, s) then Some(i - 1) else LastAbout(r, s, i - 1)
  }

  // ---- the invariant ----

  /** A running timer belongs to the session of the poll whose loss started it. */
  ghost predicate TimerKnown(r: Trace, i: nat, g: nat)
    requires i <= |r.events| < |r.states|
  {
    g in r.states[i].ps.timers ==>
      && LossOf(r, g, i).Some?
      && var d := LossOf(r, g, i).value; PollSid(r, r.events[d].poll, d) == Some(r.states[i].ps.timers[g])
  }

  /** A pending close is of the loss that was the last event about its session; and as long as
      the timer of such a loss runs, its close is pending. */
  ghost predicate PendingKnown(r: Trace, i: nat, s: Sid)
    requires i <= |r.events| < |r.states|
  {
    var ps, last := r.states[i].ps, LastAbout(r, s, i);
    && (s in ps.pendingClose ==> last.Some? && r.events[last.value].Disconnected? && Losses(r, last.value) + 1 == ps.pendingClose[s])
    && (last.Some? && r.events[last.value].Disconnected? && Losses(r, last.value) + 1 in ps.timers ==> s in ps.pendingClose)
  }

  lemma GenMoves(env: Env, r: Trace, k: nat)
    requires IsRun(env, r) && k < |r.events| && r.states[k].ps.closeGen == Losses(r, k)
    ensures r.states[k + 1].ps.closeGen == Losses(r, k + 1)
  {
    assert StepAt(env, r, k);
  }

  lemma {:induction false} GenKnown(env: Env, r: Trace, i: nat)
    requires IsRun(env, r) && i <= |r.events|
    ensures r.states[i].ps.closeGen == Losses(r, i)
  {
    if i > 0 {
      GenKnown(env, r, i - 1);
      GenMoves(env, r, i - 1);
    }
  }

  lemma LostPoll(env: Env, r: Trace, k: nat)
    requires IsRun(env, r) && k < |r.events| && r.events[k].Disconnected?
    ensures r.events[k].poll in r.states[k].ps.live
    ensures PollSid(r, r.events[k].poll, k) == Some(r.states[k].ps.live[r.events[k].poll].sid)
  {
    assert StepAt(env, r, k);
    PollsKnown(env, r, k, r.events[k].poll);
  }

  /** What a step does to timers and pending closes. */
  ghost predicate GraceChange(r: Trace, k: nat)
    requires k < |r.events| < |r.states|
  {
    var a, b, e := r.states[k].ps, r.states[k + 1].ps, r.events[k];
    match e
    case Disconnected(p) =>
      && p in a.live && PollSid(r, p, k) == Some(a.live[p].sid)
      && b.timers == a.timers[Losses(r, k) + 1 := a.live[p].sid]
      && b.pendingClose == a.pendingClose[a.live[p].sid := Losses(r, k) + 1]
    case GraceOver(g) =>
      && g in a.timers && b.timers == a.timers - {g}
      && b.pendingClose == if Passes(a, g) then a.pendingClose - {a.timers[g]} else a.pendingClose
    case Evaluated(_, _, _, _) => b.timers == a.timers && b.pendingClose == a.pendingClose
    case Refreshed(_, _, _) => b.timers == a.timers && b.pendingClose == a.pendingClose
    case Returned(_) => b.timers == a.timers && b.pendingClose == a.pendingClose
    case Reaped(_) => b.timers == a.timers && b.pendingClose == a.pendingClose
    case _ => b.timers == a.timers && b.pendingClose == a.pendingClose - {e.sid}
  }

  lemma GraceMoves(env: Env, r: Trace, k: nat)
    requires IsRun(env, r) && k < |r.events|
    ensures GraceChange(r, k)
  {
    assert StepAt(env, r, k);
    GenKnown(env, r, k);
    if r.events[k].Disconnected? { LostPoll(env, r, k); }
  }

  lemma TimerMoves(r: Trace, k: nat, g: nat)
    requires k < |r.events| < |r.states| && GraceChange(r, k) && TimerKnown(r, k, g)
    ensures TimerKnown(r, k + 1, g)
  {
    if LossOf(r, g, k).Some? { LossOfIs(r, LossOf(r, g, k).value, k + 1); }
  }

  lemma {:induction false} TimersKnown(env: Env, r: Trace, i: nat, g: nat)
    requires IsRun(env, r) && i <= |r.events|
    ensures TimerKnown(r, i, g)
  {
    if i > 0 {
      TimersKnown(env, r, i - 1, g);
      GraceMoves(env, r, i - 1);
      TimerMoves(r, i - 1, g);
    }
  }

  lemma PendingMoves(r: Trace, k: nat, s: Sid)
    requires k < |r.events| < |r.states| && GraceChange(r, k) && PendingKnown(r, k, s)
    ensures PendingKnown(r, k + 1, s)
  {
    if LastAbout(r, s, k).Some? { LossesGrow(r, LastAbout(r, s, k).value + 1, k); }
  }

  lemma {:induction false} PendingsKnown(env: Env, r: Trace, i: nat, s: Sid)
    requires IsRun(env, r) && i <= |r.events|
    ensures PendingKnown(r, i, s)
  {
    if i > 0 {
      PendingsKnown(env, r, i - 1, s);
      GraceMoves(env, r, i - 1);
      PendingMoves(r, i - 1, s);
    }
  }

  // ---- what it means ----

  /** No event since `d` was about the session. */
  ghost predicate Forgotten(r: Trace, s: Sid, d: nat, k: nat)
    requires d < k <= |r.events|
  {
    forall j :: d < j < k ==> !About(r, j, s)
  }

  lemma LastIsForgotten(r: Trace, s: Sid, d: nat, k: nat)
    requires d < k <= |r.events| && About(r, d, s)
    ensures LastAbout(r, s, k) == Some(d) <==> Forgotten(r, s, d, k)
  {
    var last := LastAbout(r, s, k);
    assert last.Some? && last.value >= d;
  }

  lemma PassesExactly(env: Env, r: Trace, k: nat, g: nat)
    requires IsRun(env, r) && k < |r.events| && g in r.states[k].ps.timers
    ensures LossOf(r, g, k).Some?
    ensures var d, s := LossOf(r, g, k).value, r.states[k].ps.timers[g];
      && PollSid(r, r.events[d].poll, d) == Some(s)
      && (Passes(r.states[k].ps, g) <==> Forgotten(r, s, d, k))
  {
    TimersKnown(env, r, k, g);
    var d, s := LossOf(r, g, k).value, r.states[k].ps.timers[g];
    PendingsKnown(env, r, k, s);
    LastIsForgotten(r, s, d, k);
    if LastAbout(r, s, k).Some? && r.events[LastAbout(r, s, k).value].Disconnected? { LossOfIs(r, LastAbout(r, s, k).value, k); }
  }

  /** When a grace period runs out at event `k`, it was started by some loss `d` of a poll. It
      closes that poll's session, and no other, exactly when the session is open and no event
      since `d` showed it alive, ended it, or lost another poll of it. */
  lemma GraceCloses(env: Env, r: Trace, k: nat, x: Sid)
    requires IsRun(env, r) && k < |r.events| && r.events[k].GraceOver?
    ensures LossOf(r, r.events[k].gen, k).Some?
    ensures var d := LossOf(r, r.events[k].gen, k).value;
      Closes(r.states[k], r.events[k], x) <==>
      PollSid(r, r.events[d].poll, d) == Some(x) && OpenAt(r, x, k) && Forgotten(r, x, d, k)
  {
    var w, g := r.states[k], r.events[k].gen;
    GraceMoves(env, r, k);
    PassesExactly(env, r, k, g);
    SessionIsKnown(env, r, x, k);
    if OpenAt(r, x, k) { OpenIsTouched(r, x, k); }
  }

  lemma {:induction false} OpenIsTouched(r: Trace, s: Sid, i: nat)
    requires i <= |r.events| < |r.states| && OpenAt(r, s, i)
    ensures LastTouch(r, s, i).Some?
  {
    if !Touches(r.events[i - 1], s) { OpenIsTouched(r, s, i - 1); }
  }
}
