/** Which prompts are genuine activity, told by the answers and events of the run. */
module Activity {
  import opened Text
  import opened Registry
  import opened Store
  import opened Planner
  import opened Core
  import opened Acts
  import opened Machine
  import opened Runs
  import opened Sightings

  /** When event `k` answered the session with a wake. */
  function WakeTime(r: Trace, s: Sid, k: nat): Option<int>
    requires k < |r.events| && k < |r.answers|
  {
    if !r.answers[k].Woke? || r.answers[k].sid != s then None
    else match r.events[k]
      case Stopped(_, _, _, _, _, _, t) => Some(t)
      case Evaluated(_, _, _, t) => Some(t)
      case _ => None
  }

  /** The time of the session's last wake answer before state `i`. */
  function LastWake(r: Trace, s: Sid, i: nat): Option<int>
    requires i <= |r.events| == |r.answers|
  {
    if i == 0 then None
    else if WakeTime(r, s, i - 1).Some? then WakeTime(r, s, i - 1)
    else LastWake(r, s, i - 1)
  }

  lemma WokeMoves(env: Env, r: Trace, s: Sid, k: nat)
    requires IsRun(env, r) && k < |r.events|
    ensures var a, b := r.states[k].wokeAt, r.states[k + 1].wokeAt;
      if WakeTime(r, s, k).Some? then s in b && b[s] == WakeTime(r, s, k).value else (s in b <==> s in a) && (s in b ==> b[s] == a[s])
  {
    assert StepAt(env, r, k);
  }

  /** The daemon remembers the time of the last wake. */
  lemma {:induction false} WokeKnown(env: Env, r: Trace, s: Sid, i: nat)
    requires IsRun(env, r) && i <= |r.events|
    ensures var m := r.states[i].wokeAt; if s in m then LastWake(r, s, i) == Some(m[s]) else LastWake(r, s, i) == None
  {
    if i > 0 {
      WokeKnown(env, r, s, i - 1);
      WokeMoves(env, r, s, i - 1);
    }
  }

  /** The session's last wake was less than the grace period before. */
  predicate JustWoken(env: Env, r: Trace, k: nat)
    requires k < |r.events| == |r.answers| && r.events[k].Prompted?
  {
    var last := LastWake(r, r.events[k].sid, k);
    last.Some? && r.events[k].t - last.value < env.grace
  }

  /** The prompt carries the ids of a fork spawn on record, once the transcript is caught up
      with. */
  ghost predicate ReportsSpawn(r: Trace, k: nat)
    requires k < |r.events| < |r.states| && r.events[k].Prompted?
  {
    var e := r.events[k];
    exists id :: var row := CaughtUp(r, e.sid, id, k);
      row.Some? && (e.note.toolUseId == Some(id) || (e.note.taskId.Some? && row.value.task == e.note.taskId))
  }

  /** Genuine activity: a prompt with task ids is, unless it reports a fork spawn or comes right
      after a wake; a classified prompt is what it was classified as; any other prompt is,
      unless it comes right after a wake. */
  ghost predicate Active(env: Env, r: Trace, k: nat)
    requires k < |r.events| == |r.answers| && |r.events| < |r.states| && r.events[k].Prompted?
  {
    var e := r.events[k];
    if e.note.toolUseId.Some? || e.note.taskId.Some? then !ReportsSpawn(r, k) && !JustWoken(env, r, k)
    else if e.waking.Some? then e.waking.value
    else !JustWoken(env, r, k)
  }

  lemma GenuineExactly(env: Env, r: Trace, k: nat)
    requires IsRun(env, r) && k < |r.events| && r.events[k].Prompted?
    ensures Genuine(env, r.states[k], r.events[k]) <==> Active(env, r, k)
  {
    var w, e := r.states[k], r.events[k];
    WokeKnown(env, r, e.sid, k);
    if HasIds(e.note) {
      var reg := SpawnsOf(IngestDb(w.core.db, e.sid, e.tail), e.sid);
      forall id ensures Lookup(reg, id) == CaughtUp(r, e.sid, id, k) { CaughtUpIs(env, r, e.sid, id, k); }
      if ReportsSpawn(r, k) {
        var id :| var row := CaughtUp(r, e.sid, id, k);
          row.Some? && (e.note.toolUseId == Some(id) || (e.note.taskId.Some? && row.value.task == e.note.taskId));
        assert Lookup(reg, id).Some?;
      }
      if IsForkSpawn(reg, e.note) {
        var id :| id in reg && Matches(e.note, id, reg[id].task);
        assert Lookup(reg, id).Some?;
      }
    }
  }

  /** Event `k` begins a new pause of the session: it is its prompt, and active. */
  ghost predicate NewPause(env: Env, r: Trace, k: nat, s: Sid)
    requires k < |r.events| == |r.answers| && |r.events| < |r.states|
  {
    r.events[k].Prompted? && r.events[k].sid == s && Active(env, r, k)
  }

  lemma AdvancesExactly(env: Env, r: Trace, k: nat, s: Sid)
    requires IsRun(env, r) && k < |r.events|
    ensures Advances(env, r.states[k], r.events[k], s) <==> NewPause(env, r, k, s)
  {
    if r.events[k].Prompted? { GenuineExactly(env, r, k); }
  }

  /** In every run a step advances the session's pause epoch by one if it is an active prompt
      of the session, and leaves it alone otherwise. */
  lemma EpochExactly(env: Env, r: Trace, s: Sid, k: nat)
    requires IsRun(env, r) && k < |r.events|
    ensures EpochOf(r.states[k + 1].core.db, s) == EpochOf(r.states[k].core.db, s) +
            if NewPause(env, r, k, s) then 1 else 0
  {
    AdvancesExactly(env, r, k, s);
    RunInv(env, r, k);
    assert StepAt(env, r, k);
    EpochMoves(env, r.states[k], r.events[k], s);
  }
}
