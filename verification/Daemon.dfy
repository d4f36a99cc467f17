/** The daemon itself: fields that change on every event, and methods that do what the
    state machine says. */
module Daemon {
  import opened Text
  import opened Notification
  import opened Registry
  import opened Store
  import opened Planner
  import opened Core
  import opened Polls
  import opened Machine
  import Fork
  import Moments
  import Runs

  class Daemon {
    const env: Env
    const store: Store
    /** Cancellation channels of parked polls. */
    var waits: map<Sid, nat>
    /** Live polls per session; an entry exists iff there is one. */
    var parked: map<Sid, nat>
    var pendingClose: map<Sid, nat>
    var closeGen: nat
    var wokeAt: map<Sid, int>
    /** The poll futures that have not returned, with what each captured, and the grace
        timers that have not run out. */
    var live: map<nat, Poll>
    var snaps: map<nat, Snap>
    var timers: map<nat, Sid>
    var next: nat
    ghost var hist: Hist

    ghost function Polling(): Polls
      reads this
    {
      Polls(live, waits, parked, pendingClose, closeGen, timers, next)
    }

    ghost function State(): World
      reads this, store
    {
      World(Core(store.View(), hist), Polling(), snaps, wokeAt)
    }

    constructor (env: Env)
      ensures State() == START && fresh(store) && this.env == env
    {
      this.env := env;
      store := new Store();
      waits, parked, pendingClose, closeGen, wokeAt := map[], map[], map[], 0, map[];
      live, snaps, timers, next := map[], map[], map[], 0;
      hist := INITIAL.hist;
    }

    // ---- polls ----

    method ClearPendingClose(sid: Sid)
      modifies this`pendingClose
      ensures Polling() == Clear(old(Polling()), sid)
      ensures pendingClose == old(pendingClose) - {sid}
    {
      pendingClose := pendingClose - {sid};
    }

    method Send(p: nat)
      modifies this`live
      ensures live == Signal(old(live), p)
    {
      if p in live { live := live[p := live[p].(cancelled := true)]; }
    }

    method CancelWait(sid: Sid)
      modifies this`waits, this`live
      ensures Polling() == Cancel(old(Polling()), sid)
    {
      if sid in waits {
        var p := waits[sid];
        waits := waits - {sid};
        Send(p);
      }
    }

    /** A new poll takes the session's slot, cancelling a stale one, and parks. */
    method RegisterWait(sid: Sid) returns (p: nat)
      modifies this`waits, this`live, this`parked, this`next
      ensures p == old(next) && Polling() == Register(old(Polling()), sid)
    {
      p := next;
      next := next + 1;
      if sid in waits { Send(waits[sid]); }
      waits := waits[sid := p];
      live := live[p := Poll(sid, false)];
      parked := parked[sid := (if sid in parked then parked[sid] else 0) + 1];
    }

    /** A new poll proves the session alive and takes its slot. */
    method Arrive(sid: Sid) returns (p: nat)
      modifies this`waits, this`live, this`parked, this`next, this`pendingClose
      ensures p == old(next) && Polling() == Register(Clear(old(Polling()), sid), sid)
    {
      ClearPendingClose(sid);
      p := RegisterWait(sid);
    }

    /** The guard of a poll that is over is dropped. */
    method Unguard(p: nat)
      requires p in live
      modifies this`live, this`parked
      ensures Polling() == Finish(old(Polling()), p)
    {
      var sid := live[p].sid;
      live := live - {p};
      if sid in parked {
        if parked[sid] <= 1 { parked := parked - {sid}; } else { parked := parked[sid := parked[sid] - 1]; }
      }
    }

    method PollReturned(p: nat)
      requires Enabled(env, State(), Returned(p))
      modifies this
      ensures State() == Step(env, old(State()), Returned(p)).world
    {
      Unguard(p);
    }

    method StartGrace(p: nat)
      requires p in live
      modifies this`live, this`parked, this`closeGen, this`pendingClose, this`timers
      ensures Polling() == Lose(old(Polling()), p)
    {
      var sid := live[p].sid;
      Unguard(p);
      closeGen := closeGen + 1;
      pendingClose := pendingClose[sid := closeGen];
      timers := timers[closeGen := sid];
    }

    method OnPollLost(p: nat)
      requires Enabled(env, State(), Disconnected(p))
      modifies this
      ensures State() == Step(env, old(State()), Disconnected(p)).world
    {
      StartGrace(p);
    }

    /** Whether the pending close is still this timer's, which uses it up. */
    method EndGrace(gen: nat) returns (sid: Sid, passed: bool)
      requires gen in timers
      modifies this`pendingClose, this`timers
      ensures sid == old(timers[gen]) && (passed <==> Passes(old(Polling()), gen))
      ensures Polling() == Expire(old(Polling()), gen)
    {
      sid := timers[gen];
      timers := timers - {gen};
      passed := sid in pendingClose && pendingClose[sid] == gen;
      if passed { pendingClose := pendingClose - {sid}; }
    }

    /** The end of a grace period. */
    method GraceCheck(gen: nat)
      requires Enabled(env, State(), GraceOver(gen))
      modifies this, store
      ensures State() == Step(env, old(State()), GraceOver(gen)).world
    {
      var sid, passed := EndGrace(gen);
      if passed && sid in store.sessions && store.sessions[sid].open { CloseSession(sid); }
    }

    method CloseSession(sid: Sid)
      modifies store, this`hist
      ensures Core(store.View(), hist) == CloseLeg(old(Core(store.View(), hist)), sid)
    {
      ghost var c := Core(store.View(), hist);
      store.CloseSession(sid);
      hist := CloseLeg(c, sid).hist;
    }

    method Reap(sid: Sid)
      modifies this, store
      ensures State() == Step(env, old(State()), Reaped(sid)).world
    {
      CloseSession(sid);
    }

    // ---- lifecycle events ----

    method HandleStart(sid: Sid, info: Info, t: int)
      modifies this, store
      ensures State() == Step(env, old(State()), Started(sid, info, t)).world
      ensures pendingClose == old(pendingClose) - {sid}
    {
      ClearPendingClose(sid);
      store.UpsertSession(sid, info, t);
    }

    /** A Stop outside a long poll only shows that the session is alive. */
    method HandlePlainStop(sid: Sid)
      modifies this
      ensures State() == Step(env, old(State()), PlainStop(sid)).world
      ensures pendingClose == old(pendingClose) - {sid}
    {
      ClearPendingClose(sid);
    }

    method HandleEnd(sid: Sid)
      modifies this, store
      ensures State() == Step(env, old(State()), Ended(sid)).world
      ensures pendingClose == old(pendingClose) - {sid} && (sid in store.sessions ==> !store.sessions[sid].open)
    {
      ClearPendingClose(sid);
      CancelWait(sid);
      CloseSession(sid);
    }

    /** Whether the notification is about a recorded fork spawn, marking it if it ended. */
    method Attribute(sid: Sid, note: Note, t: int) returns (matched: bool)
      modifies store
      ensures matched <==> IsForkSpawn(SpawnsOf(old(store.View()), sid), note)
      ensures store.View() ==
        if Terminal(note.status).Some? && matched
        then SetSpawns(old(store.View()), sid, MarkTerminal(SpawnsOf(old(store.View()), sid), note, t))
        else old(store.View())
    {
      if note.status.Some? && IsTerminalStatus(note.status.value) {
        matched := store.MarkSpawnTerminal(sid, note, t);
        if !matched { UnmatchedStays(SpawnsOf(old(store.View()), sid), note, t); }
      } else {
        matched := store.IsOwnSpawn(sid, note);
      }
    }

    /** Decides whether a prompt is genuine activity. A notification first brings the
        registry up to date, and is a continuation when it reports one of its spawns. */
    method Classify(sid: Sid, note: Note, waking: Option<bool>, tail: Tail, t: int) returns (genuine: bool)
      modifies store
      ensures store.View() == NotedDb(old(store.View()), sid, note, tail, t)
      ensures genuine <==>
        if HasIds(note)
        then !OwnCompletion(old(store.View()), sid, note, tail) && !RecentlyWoke(env, wokeAt, sid, t)
        else waking.GetOr(!RecentlyWoke(env, wokeAt, sid, t))
    {
      var recently := sid in wokeAt && t - wokeAt[sid] < env.grace;
      if note.toolUseId.Some? || note.taskId.Some? {
        var _ := IngestTranscript(sid, tail);
        var matched := Attribute(sid, note, t);
        genuine := !matched && !recently;
      } else {
        genuine := waking.GetOr(!recently);
      }
    }

    /** The session is touched; genuine activity begins a new pause and drops the held
        dependents. */
    method TouchForPrompt(sid: Sid, info: Info, genuine: bool, t: int)
      modifies store, this`hist
      ensures var c := Core(Upsert(old(store.View()), sid, info, t), old(hist));
        Core(store.View(), hist) == if genuine then Bump(c, sid) else c
    {
      store.UpsertSession(sid, info, t);
      if genuine {
        hist := DropHeld(hist, store.View(), sid);
        store.BumpPauseEpoch(sid);
        var _ := store.ClearPendingDeps(sid);
      }
    }

    method FinishPrompt(ghost e: Event, sid: Sid, info: Info, genuine: bool, t: int)
      requires e.Prompted? && e.sid == sid && e.info == info && e.t == t
      modifies this, store
      ensures State() == TakePrompt(old(store.View()), genuine, old(hist), old(Polling()), old(snaps), old(wokeAt), e)
    {
      ClearPendingClose(sid);
      TouchForPrompt(sid, info, genuine, t);
      CancelWait(sid);
    }

    method HandlePrompt(sid: Sid, info: Info, note: Note, waking: Option<bool>, tail: Tail, t: int)
      modifies this, store
      ensures State() == DoPrompt(env, old(State()), Prompted(sid, info, note, waking, tail, t))
      ensures pendingClose == old(pendingClose) - {sid}
      ensures EpochOf(store.View(), sid) == EpochOf(old(store.View()), sid) +
        if IsActivity(SpawnsOf(IngestDb(old(store.View()), sid, tail), sid), note, waking,
                      sid in old(wokeAt) && t - old(wokeAt)[sid] < env.grace) then 1 else 0
    {
      ghost var e, w := Prompted(sid, info, note, waking, tail, t), State();
      var genuine := Classify(sid, note, waking, tail, t);
      FinishPrompt(e, sid, info, genuine, t);
      PromptEpoch(env, w, e);
    }

    // ---- the transcript ----

    method RecordSpawns(sid: Sid, found: seq<(string, Option<string>)>, t: int)
      modifies store
      ensures store.View() ==
        SetSpawns(old(store.View()), sid, Ingest(SpawnsOf(old(store.View()), sid), Delta(found, [], []), t))
    {
      ghost var db := store.View();
      ghost var reg := SpawnsOf(db, sid);
      IngestNothing(reg, t);
      for i := 0 to |found|
        invariant store.View() == SetSpawns(db, sid, Ingest(reg, Delta(found[..i], [], []), t))
      {
        SpawnStep(db, sid, found, i, t);
        store.RecordForkSpawn(sid, found[i].0, found[i].1, t);
      }
      assert found[..|found|] == found;
    }

    method AttachTasks(sid: Sid, found: seq<(string, Option<string>)>, tasks: seq<(string, string)>, t: int,
                       ghost db: Db)
      requires store.View() == SetSpawns(db, sid, Ingest(SpawnsOf(db, sid), Delta(found, [], []), t))
      modifies store
      ensures store.View() == SetSpawns(db, sid, Ingest(SpawnsOf(db, sid), Delta(found, tasks, []), t))
    {
      ghost var reg := SpawnsOf(db, sid);
      for i := 0 to |tasks|
        invariant store.View() == SetSpawns(db, sid, Ingest(reg, Delta(found, tasks[..i], []), t))
      {
        TaskStep(db, sid, found, tasks, i, t);
        store.SetSpawnTaskId(sid, tasks[i].0, tasks[i].1);
      }
      assert tasks[..|tasks|] == tasks;
    }

    method MarkEnded(sid: Sid, delta: Delta, t: int, ghost db: Db)
      requires store.View() == SetSpawns(db, sid, Ingest(SpawnsOf(db, sid), delta.(notes := []), t))
      modifies store
      ensures store.View() == SetSpawns(db, sid, Ingest(SpawnsOf(db, sid), delta, t))
    {
      ghost var reg := SpawnsOf(db, sid);
      for i := 0 to |delta.notes|
        invariant store.View() == SetSpawns(db, sid, Ingest(reg, delta.(notes := delta.notes[..i]), t))
      {
        NoteStep(db, sid, delta, i, t);
        var n := delta.notes[i];
        if n.status.Some? && IsTerminalStatus(n.status.value) { var _ := store.MarkSpawnTerminal(sid, n, t); }
      }
      assert delta.notes[..|delta.notes|] == delta.notes;
    }

    /** Catches up with the transcript; returns the best-known token count. */
    method IngestTranscript(sid: Sid, tail: Tail) returns (gauge: Option<u64>)
      modifies store
      ensures store.View() == IngestDb(old(store.View()), sid, tail)
      ensures gauge == KnownGauge(old(store.View()), sid, tail)
    {
      gauge := None;
      if tail.NoTranscript? || sid !in store.sessions { return; }
      gauge := store.sessions[sid].gauge;
      if tail.Unreadable? { return; }
      ghost var db := store.View();
      RecordSpawns(sid, tail.delta.spawns, tail.at);
      AttachTasks(sid, tail.delta.spawns, tail.delta.tasks, tail.at, db);
      MarkEnded(sid, tail.delta, tail.at, db);
      store.SetTranscriptGauge(sid, tail.offset, tail.gauge);
      if tail.gauge.Some? { gauge := tail.gauge; }
    }

    // ---- the long poll ----

    /** The session is touched, a new pause gets its baseline, the transcript is read. */
    method BeginStop(ghost e: Event, sid: Sid, info: Info, tail: Tail, t: int) returns (gauge: Option<u64>)
      requires e.Stopped? && e.sid == sid && e.info == info && e.tail == tail && e.t == t
      modifies store
      ensures store.View() == StopDb(old(store.View()), e)
      ensures sid in store.sessions && store.sessions[sid].root == info.root
      ensures gauge == KnownGauge(store.View(), sid, tail)
    {
      StopHasSession(store.View(), e);
      store.UpsertSession(sid, info, t);
      store.SetPauseStartedAtIfUnset(sid, t);
      gauge := IngestTranscript(sid, tail);
    }

    /** Releases what is due, as the answer to the poll that just registered. */
    method ReleaseNow(sid: Sid, p: nat, order: seq<string>, t: int) returns (blocks: seq<Block>)
      requires p in live && ListsPending(order, store.View(), sid)
      modifies store, this`wokeAt, this`hist, this`live, this`parked
      ensures blocks == ReleaseBlocks(old(store.View()), sid, order)
      ensures blocks != [] <==> Released(old(store.View()), sid) != {}
      ensures if blocks == [] then State() == old(State())
        else State() == World(Release(old(Core(store.View(), hist)), sid), Finish(old(Polling()), p), snaps, old(wokeAt)[sid := t])
    {
      ghost var c := Core(store.View(), hist);
      blocks := ReleaseDue(store, sid, order);
      ReleaseIsSome(c.db, sid, order);
      if blocks == [] {
        NoReleaseStays(c.db, sid);
      } else {
        wokeAt := wokeAt[sid := t];
        Unguard(p);
        hist := Release(c, sid).hist;
      }
    }

    /** Captures the session for the poll that parks. */
    method ParkNow(ghost e: Event, sid: Sid, p: nat, gauge: Option<u64>, cfg: Config, deadlines: seq<u64>, t: int)
      requires e.Stopped? && e.sid == sid && e.deadlines == deadlines && e.t == t && sid in store.sessions
      requires cfg == env.config(e.info.root) && gauge == KnownGauge(store.View(), sid, e.tail)
      modifies this`snaps
      ensures snaps == old(snaps)[p := TakeSnap(env, store.View(), e)]
    {
      var row := store.sessions[sid];
      var ctx := Ctx(sid, row.root, ReadColumn(row.enable), ReadColumn(row.disable), row.epoch, cfg);
      var window := Moments.ResolveContextWindow(row.model, gauge);
      snaps := snaps[p := Snap(ctx, row.pauseStart.GetOr(t), gauge, window, deadlines)];
    }

    /** Answers the poll that just registered, or parks it. */
    method AnswerOrPark(ghost e: Event, sid: Sid, p: nat, order: seq<string>, gauge: Option<u64>, cfg: Config,
                        deadlines: seq<u64>, t: int) returns (answer: Answer)
      requires e.Stopped? && e.sid == sid && e.order == order && e.deadlines == deadlines && e.t == t
      requires sid in store.sessions && cfg == env.config(e.info.root) && gauge == KnownGauge(store.View(), sid, e.tail)
      requires p in live && ListsPending(order, store.View(), sid)
      modifies this, store
      ensures Outcome(State(), answer) ==
        AnswerStop(env, old(Core(store.View(), hist)), old(Polling()), old(snaps), old(wokeAt), p, e)
    {
      var blocks := ReleaseNow(sid, p, order, t);
      if blocks != [] {
        answer := Woke(sid, blocks);
      } else {
        ParkNow(e, sid, p, gauge, cfg, deadlines, t);
        answer := Quiet;
      }
    }

    /** A Stop: the session is touched, the transcript read and the poll registered. It is
        answered at once when dependents can be released, and parks otherwise. `order` is
        the order the store lists the pending rows in. */
    method StopWait(sid: Sid, info: Info, tail: Tail, order: seq<string>, forks: seq<Fork.ForkDef>, t: int)
      returns (answer: Answer, deadlines: seq<u64>)
      requires ListsPending(order, StopDb(store.View(), Event.Stopped(sid, info, tail, order, forks, [], t)), sid)
      modifies this, store
      ensures Moments.IsDeadlines(deadlines, forks, env.config(info.root).defaultIdle)
      ensures DoStop(env, old(State()), Event.Stopped(sid, info, tail, order, forks, deadlines, t)) == Outcome(State(), answer)
    {
      var cfg := env.config(info.root);
      deadlines := Moments.IdleDeadlines(forks, cfg.defaultIdle);
      ghost var e := Event.Stopped(sid, info, tail, order, forks, deadlines, t);
      var p := Arrive(sid);
      var gauge := BeginStop(e, sid, info, tail, t);
      answer := AnswerOrPark(e, sid, p, order, gauge, cfg, deadlines, t);
    }

    /** Issues one wake for the batch, as the answer to poll `p`. */
    method IssueNow(sid: Sid, p: nat, sel: seq<Selected>, t: int) returns (blocks: seq<Block>)
      requires p in live && DistinctNames(sel)
      modifies store, this`wokeAt, this`hist, this`live, this`parked
      ensures blocks == RootBlocks(sel, Deps(sel), |sel|)
      ensures State() == World(IssueBatch(old(Core(store.View(), hist)), sid, sel, t), Finish(old(Polling()), p), snaps,
                               old(wokeAt)[sid := t])
    {
      ghost var c := Core(store.View(), hist);
      blocks := BuildWake(store, sid, sel, t);
      wokeAt := wokeAt[sid := t];
      Unguard(p);
      hist := IssueBatch(c, sid, sel, t).hist;
    }

    /** The forks due for a snapshot, after refreshing the roster. */
    method DueForks(snap: Snap, entries: seq<(string, string)>, order: seq<string>, t: int) returns (sel: seq<Selected>)
      requires Enumerates(order, QueueAll(store.View(), snap.ctx.sid, entries, t), snap.ctx.sid)
      modifies store
      ensures store.View() == QueueAll(old(store.View()), snap.ctx.sid, entries, t)
      ensures sel == Batched(env, store.View(), snap, order, t) && DistinctNames(sel)
    {
      RefreshRoster(store, snap.ctx.sid, entries, t);
      var moments := Moments.ComputeElapsed(snap.gauge, snap.window, snap.base, snap.deadlines, t);
      sel := SelectForks(store, env.files, snap.ctx, moments, t, order);
      BatchIsSound(env, store.View(), snap, order, t);
    }

    /** A parked poll looks at its forks and issues nothing, be it that none is due or that the
        debounce is still to come. */
    method LookOnly(p: nat, entries: seq<(string, string)>, t: int)
      requires Enabled(env, State(), Refreshed(p, entries, t))
      modifies store
      ensures State() == Step(env, old(State()), Refreshed(p, entries, t)).world
    {
      RefreshRoster(store, snaps[p].ctx.sid, entries, t);
    }

    /** A parked poll looks at everything that has elapsed and issues one wake for the forks
        that are due. `order` is the order the store lists the roster in. */
    method Evaluate(p: nat, entries: seq<(string, string)>, order: seq<string>, t: int) returns (answer: Answer)
      requires MayEvaluate(State(), Evaluated(p, entries, order, t))
      modifies this, store
      ensures DoEvaluate(env, old(State()), Evaluated(p, entries, order, t)) == Outcome(State(), answer)
    {
      var snap := snaps[p];
      var sel := DueForks(snap, entries, order, t);
      answer := Quiet;
      if sel != [] {
        var blocks := IssueNow(snap.ctx.sid, p, sel, t);
        answer := Woke(snap.ctx.sid, blocks);
      }
    }
  }

  /** A prompt with task ids is activity unless it matches a recorded spawn or comes within the
      grace period of a wake; any other prompt is what it was classified as, and activity outside
      the grace period when it was not. */
  ghost predicate IsActivity(reg: Spawns, note: Note, waking: Option<bool>, recent: bool) {
    if note.toolUseId.Some? || note.taskId.Some? then
      !recent && forall id :: id in reg ==> note.toolUseId != Some(id) && (note.taskId.Some? ==> reg[id].task != note.taskId)
    else if waking.Some? then waking.value
    else !recent
  }

  lemma PromptEpoch(env: Env, w: World, e: Event)
    requires e.Prompted?
    ensures EpochOf(DoPrompt(env, w, e).core.db, e.sid) == EpochOf(w.core.db, e.sid) +
      if IsActivity(SpawnsOf(IngestDb(w.core.db, e.sid, e.tail), e.sid), e.note, e.waking,
                    e.sid in w.wokeAt && e.t - w.wokeAt[e.sid] < env.grace) then 1 else 0
    ensures DoPrompt(env, w, e).ps.pendingClose == w.ps.pendingClose - {e.sid}
  {
    Runs.PromptCalm(w.core.db, e);
    assert e.sid in PromptDb(w.core.db, e).sessions;
    GenuineIsActivity(env, w, e);
  }

  lemma GenuineIsActivity(env: Env, w: World, e: Event)
    requires e.Prompted?
    ensures Genuine(env, w, e) <==>
      IsActivity(SpawnsOf(IngestDb(w.core.db, e.sid, e.tail), e.sid), e.note, e.waking,
                 e.sid in w.wokeAt && e.t - w.wokeAt[e.sid] < env.grace)
  {}

  /** A registry that grew, stored and then updated again. */
  lemma StoredTwice(db: Db, sid: Sid, a: Spawns, b: Spawns)
    requires Evolves(SpawnsOf(db, sid), a) && a.Keys <= b.Keys
    ensures SpawnsOf(SetSpawns(db, sid, a), sid) == a
    ensures SetSpawns(SetSpawns(db, sid, a), sid, b) == SetSpawns(db, sid, b)
  {
    SetSpawnsAgain(db, sid, a, b);
  }

  lemma SpawnStep(db: Db, sid: Sid, found: seq<(string, Option<string>)>, i: nat, t: int)
    requires i < |found|
    ensures var before := SetSpawns(db, sid, Ingest(SpawnsOf(db, sid), Delta(found[..i], [], []), t));
      SetSpawns(before, sid, RecordSpawn(SpawnsOf(before, sid), found[i].0, found[i].1, t)) ==
      SetSpawns(db, sid, Ingest(SpawnsOf(db, sid), Delta(found[..i + 1], [], []), t))
  {
    var reg := SpawnsOf(db, sid);
    var a := Ingest(reg, Delta(found[..i], [], []), t);
    assert found[..i + 1] == found[..i] + [found[i]];
    IngestSpawn(reg, found[..i], found[i], t);
    IngestEvolves(reg, Delta(found[..i], [], []), t);
    StoredTwice(db, sid, a, RecordSpawn(a, found[i].0, found[i].1, t));
  }

  lemma TaskStep(db: Db, sid: Sid, found: seq<(string, Option<string>)>, tasks: seq<(string, string)>, i: nat, t: int)
    requires i < |tasks|
    ensures var before := SetSpawns(db, sid, Ingest(SpawnsOf(db, sid), Delta(found, tasks[..i], []), t));
      SetSpawns(before, sid, SetTask(SpawnsOf(before, sid), tasks[i].0, tasks[i].1)) ==
      SetSpawns(db, sid, Ingest(SpawnsOf(db, sid), Delta(found, tasks[..i + 1], []), t))
  {
    var reg, d := SpawnsOf(db, sid), Delta(found, tasks[..i], []);
    var a := Ingest(reg, d, t);
    assert tasks[..i + 1] == tasks[..i] + [tasks[i]];
    IngestTask(reg, d, tasks[i], t);
    IngestEvolves(reg, d, t);
    StoredTwice(db, sid, a, SetTask(a, tasks[i].0, tasks[i].1));
  }

  lemma NoteStep(db: Db, sid: Sid, delta: Delta, i: nat, t: int)
    requires i < |delta.notes|
    ensures var before := SetSpawns(db, sid, Ingest(SpawnsOf(db, sid), delta.(notes := delta.notes[..i]), t));
      SetSpawns(before, sid, MarkTerminal(SpawnsOf(before, sid), delta.notes[i], t)) ==
      SetSpawns(db, sid, Ingest(SpawnsOf(db, sid), delta.(notes := delta.notes[..i + 1]), t))
    ensures var before := SetSpawns(db, sid, Ingest(SpawnsOf(db, sid), delta.(notes := delta.notes[..i]), t));
      Terminal(delta.notes[i].status).None? ==>
        before == SetSpawns(db, sid, Ingest(SpawnsOf(db, sid), delta.(notes := delta.notes[..i + 1]), t))
  {
    var reg, d, n := SpawnsOf(db, sid), delta.(notes := delta.notes[..i]), delta.notes[i];
    var a := Ingest(reg, d, t);
    assert delta.notes[..i + 1] == delta.notes[..i] + [n];
    IngestNote(reg, d, n, t);
    IngestEvolves(reg, d, t);
    StoredTwice(db, sid, a, MarkTerminal(a, n, t));
    if Terminal(n.status).None? { NotTerminalStays(a, n, t); }
  }

  lemma NotTerminalStays(reg: Spawns, n: Note, t: int)
    requires Terminal(n.status).None?
    ensures MarkTerminal(reg, n, t) == reg
  {}

  lemma UnmatchedStays(reg: Spawns, n: Note, t: int)
    requires !IsForkSpawn(reg, n)
    ensures MarkTerminal(reg, n, t) == reg
  {}
}
