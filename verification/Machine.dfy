/** The daemon as a state machine: what every event does to the tables, the polls and the
    snapshots the parked polls carry, and what it answers. */
module Machine {
  import opened Text
  import opened Notification
  import opened Registry
  import opened Store
  import opened Planner
  import opened Core
  import opened Polls
  import Fork
  import Moments
  import Columns

  /** Fixed during a run: readable fork files, configuration by project root, and the
      post-wake grace period in seconds. */
  datatype Env = Env(files: Files, config: string -> Config, grace: int)

  /** What reading the transcript from the stored offset gave, and when. */
  datatype Tail = NoTranscript | Unreadable | Read(offset: nat, gauge: Option<u64>, delta: Delta, at: int)

  /** What a parked poll captured of its session. */
  datatype Snap = Snap(ctx: Ctx, base: int, gauge: Option<u64>, window: u64, deadlines: seq<u64>)

  datatype World = World(core: Core, ps: Polls, snaps: map<nat, Snap>, wokeAt: map<Sid, int>)

  const START := World(INITIAL, NO_POLLS, map[], map[])

  /** `order` lists table rows in the order the store returns them; `entries` are the
      forks discovery sees; `forks` their definitions. A `Refreshed` poll has looked at the
      forks without issuing; a `PlainStop` is a Stop that is not a long poll. */
  datatype Event =
    | Started(sid: Sid, info: Info, t: int)
    | Prompted(sid: Sid, info: Info, note: Note, waking: Option<bool>, tail: Tail, t: int)
    | Ended(sid: Sid)
    | PlainStop(sid: Sid)
    | Stopped(sid: Sid, info: Info, tail: Tail, order: seq<string>, forks: seq<Fork.ForkDef>, deadlines: seq<u64>, t: int)
    | Evaluated(poll: nat, entries: seq<(string, string)>, order: seq<string>, t: int)
    | Refreshed(poll: nat, entries: seq<(string, string)>, t: int)
    | Returned(poll: nat)
    | Disconnected(poll: nat)
    | GraceOver(gen: nat)
    | Reaped(sid: Sid)

  datatype Answer = Quiet | Woke(sid: Sid, blocks: seq<Block>)

  datatype Outcome = Outcome(world: World, answer: Answer)

  // ---- reading the transcript ----

  function IngestDb(db: Db, s: Sid, tail: Tail): Db {
    match tail
    case Read(offset, gauge, delta, at) =>
      if s in db.sessions then SetGauge(SetSpawns(db, s, Ingest(SpawnsOf(db, s), delta, at)), s, offset, gauge) else db
    case _ => db
  }

  /** The best-known token count after the read. */
  function KnownGauge(db: Db, s: Sid, tail: Tail): Option<u64> {
    if s !in db.sessions then None
    else match tail
      case NoTranscript => None
      case Unreadable => db.sessions[s].gauge
      case Read(_, gauge, _, _) => if gauge.Some? then gauge else db.sessions[s].gauge
  }

  /** Two states of the tables that differ in neither the rosters nor the sessions' roots
      and baselines. */
  ghost predicate Framed(a: Db, b: Db) {
    && b.roster == a.roster && b.sessions.Keys == a.sessions.Keys
    && forall x :: x in a.sessions ==>
         b.sessions[x].root == a.sessions[x].root && b.sessions[x].pauseStart == a.sessions[x].pauseStart
  }

  lemma GaugeFramed(db: Db, s: Sid, offset: nat, gauge: Option<u64>)
    ensures Framed(db, SetGauge(db, s, offset, gauge))
  {}

  lemma IngestFramed(db: Db, s: Sid, tail: Tail)
    ensures Framed(db, IngestDb(db, s, tail))
  {
    if tail.Read? && s in db.sessions {
      GaugeFramed(SetSpawns(db, s, Ingest(SpawnsOf(db, s), tail.delta, tail.at)), s, tail.offset, tail.gauge);
    }
  }

  // ---- prompts ----

  predicate HasIds(n: Note) {
    n.toolUseId.Some? || n.taskId.Some?
  }

  predicate RecentlyWoke(env: Env, wokeAt: map<Sid, int>, s: Sid, t: int) {
    s in wokeAt && t - wokeAt[s] < env.grace
  }

  /** The tables once a notification has been ingested and its spawn marked. */
  function NotedDb(db: Db, s: Sid, note: Note, tail: Tail, t: int): Db {
    var read := IngestDb(db, s, tail);
    if HasIds(note) then
      if Terminal(note.status).Some? && IsForkSpawn(SpawnsOf(read, s), note)
      then SetSpawns(read, s, MarkTerminal(SpawnsOf(read, s), note, t)) else read
    else db
  }

  lemma NotedFramed(db: Db, s: Sid, note: Note, tail: Tail, t: int)
    ensures Framed(db, NotedDb(db, s, note, tail, t))
  {
    IngestFramed(db, s, tail);
  }

  /** The notification reports a fork spawn the registry knows, after catching up. */
  predicate OwnCompletion(db: Db, s: Sid, note: Note, tail: Tail) {
    HasIds(note) && IsForkSpawn(SpawnsOf(IngestDb(db, s, tail), s), note)
  }

  /** The prompt is genuine activity rather than a continuation. */
  predicate Genuine(env: Env, w: World, e: Event)
    requires e.Prompted?
  {
    if HasIds(e.note)
    then !OwnCompletion(w.core.db, e.sid, e.note, e.tail) && !RecentlyWoke(env, w.wokeAt, e.sid, e.t)
    else e.waking.GetOr(!RecentlyWoke(env, w.wokeAt, e.sid, e.t))
  }

  function PromptDb(db: Db, e: Event): Db
    requires e.Prompted?
  {
    Upsert(NotedDb(db, e.sid, e.note, e.tail, e.t), e.sid, e.info, e.t)
  }

  /** With the notification noted: the session is touched, genuine activity begins a new
      pause, and the turn in flight cancels a parked poll. */
  ghost function TakePrompt(noted: Db, genuine: bool, h: Hist, ps: Polls, snaps: map<nat, Snap>, wokeAt: map<Sid, int>, e: Event): World
    requires e.Prompted?
  {
    var c := Core(Upsert(noted, e.sid, e.info, e.t), h);
    World(if genuine then Bump(c, e.sid) else c, Cancel(Clear(ps, e.sid), e.sid), snaps, wokeAt)
  }

  ghost function DoPrompt(env: Env, w: World, e: Event): World
    requires e.Prompted?
  {
    TakePrompt(NotedDb(w.core.db, e.sid, e.note, e.tail, e.t), Genuine(env, w, e), w.core.hist, w.ps, w.snaps, w.wokeAt, e)
  }

  // ---- stops ----

  function StopDb(db: Db, e: Event): Db
    requires e.Stopped?
  {
    IngestDb(StartPause(Upsert(db, e.sid, e.info, e.t), e.sid, e.t), e.sid, e.tail)
  }

  /** What the poll captures before it parks. */
  function TakeSnap(env: Env, db: Db, e: Event): Snap
    requires e.Stopped? && e.sid in db.sessions
  {
    var row := db.sessions[e.sid];
    var gauge := KnownGauge(db, e.sid, e.tail);
    Snap(Ctx(e.sid, row.root, ReadColumn(row.enable), ReadColumn(row.disable), row.epoch, env.config(e.info.root)),
         row.pauseStart.GetOr(e.t), gauge, Moments.ResolveContextWindow(row.model, gauge), e.deadlines)
  }

  lemma TouchedSession(db: Db, e: Event)
    requires e.Stopped?
    ensures var touched := StartPause(Upsert(db, e.sid, e.info, e.t), e.sid, e.t).sessions;
      e.sid in touched && touched[e.sid].root == e.info.root && touched[e.sid].pauseStart.Some?
  {}

  lemma StopHasSession(db: Db, e: Event)
    requires e.Stopped?
    ensures e.sid in StopDb(db, e).sessions
    ensures StopDb(db, e).sessions[e.sid].root == e.info.root
    ensures StopDb(db, e).sessions[e.sid].pauseStart.Some?
  {
    TouchedSession(db, e);
    IngestFramed(StartPause(Upsert(db, e.sid, e.info, e.t), e.sid, e.t), e.sid, e.tail);
  }

  /** With the transcript read and poll `p` registered, the Stop releases dependents if it
      can, and parks otherwise. */
  ghost function AnswerStop(env: Env, c: Core, ps: Polls, snaps: map<nat, Snap>, wokeAt: map<Sid, int>, p: nat, e: Event): Outcome
    requires e.Stopped? && e.sid in c.db.sessions && p in ps.live
  {
    if Released(c.db, e.sid) != {} then
      Outcome(World(Release(c, e.sid), Finish(ps, p), snaps, wokeAt[e.sid := e.t]),
              Woke(e.sid, ReleaseBlocks(c.db, e.sid, e.order)))
    else
      Outcome(World(c, ps, snaps[p := TakeSnap(env, c.db, e)], wokeAt), Quiet)
  }

  ghost function DoStop(env: Env, w: World, e: Event): Outcome
    requires e.Stopped?
  {
    StopHasSession(w.core.db, e);
    AnswerStop(env, Core(StopDb(w.core.db, e), w.core.hist), Register(Clear(w.ps, e.sid), e.sid), w.snaps, w.wokeAt, w.ps.next, e)
  }

  // ---- evaluation ----

  function MomentsAt(snap: Snap, t: int): seq<Moments.Moment> {
    Moments.ElapsedMoments(snap.gauge, snap.window, snap.base, snap.deadlines, t)
  }

  ghost function Batched(env: Env, db: Db, snap: Snap, order: seq<string>, t: int): seq<Selected> {
    Select(db, env.files, snap.ctx, MomentsAt(snap, t), t, order)
  }

  ghost predicate MayEvaluate(w: World, e: Event) {
    && e.Evaluated? && e.poll in w.ps.live && !w.ps.live[e.poll].cancelled && e.poll in w.snaps
    && Enumerates(e.order, QueueAll(w.core.db, w.snaps[e.poll].ctx.sid, e.entries, e.t), w.snaps[e.poll].ctx.sid)
  }

  lemma BatchIsSound(env: Env, db: Db, snap: Snap, order: seq<string>, t: int)
    requires Columns.Distinct(order)
    ensures SoundBatch(db, env.files, snap.ctx, MomentsAt(snap, t), t, Batched(env, db, snap, order, t))
    ensures DistinctNames(Batched(env, db, snap, order, t))
  {
    SelectSound(db, env.files, snap.ctx, MomentsAt(snap, t), t, order);
  }

  /** A parked poll evaluates: forks that are due are issued as one wake. */
  ghost function DoEvaluate(env: Env, w: World, e: Event): Outcome
    requires MayEvaluate(w, e)
  {
    var snap := w.snaps[e.poll];
    var s := snap.ctx.sid;
    var c := Core(QueueAll(w.core.db, s, e.entries, e.t), w.core.hist);
    var sel := Batched(env, c.db, snap, e.order, e.t);
    BatchIsSound(env, c.db, snap, e.order, e.t);
    if sel == [] then Outcome(w.(core := c), Quiet)
    else
      Outcome(World(IssueBatch(c, s, sel, e.t), Finish(w.ps, e.poll), w.snaps, w.wokeAt[s := e.t]),
              Woke(s, RootBlocks(sel, Deps(sel), |sel|)))
  }

  // ---- the machine ----

  ghost predicate Enabled(env: Env, w: World, e: Event) {
    match e
    case Stopped(s, info, _, order, forks, deadlines, _) =>
      && ListsPending(order, StopDb(w.core.db, e), s)
      && Moments.IsDeadlines(deadlines, forks, env.config(info.root).defaultIdle)
    case Evaluated(_, _, _, _) => MayEvaluate(w, e)
    case Refreshed(p, _, _) => p in w.ps.live && !w.ps.live[p].cancelled && p in w.snaps
    case Returned(p) => p in w.ps.live
    case Disconnected(p) => p in w.ps.live
    case GraceOver(g) => g in w.ps.timers
    case _ => true
  }

  /** The grace check passed and the session is still open. */
  predicate Expires(w: World, g: nat) {
    && Passes(w.ps, g) && w.ps.timers[g] in w.core.db.sessions && w.core.db.sessions[w.ps.timers[g]].open
  }

  ghost function Step(env: Env, w: World, e: Event): Outcome
    requires Enabled(env, w, e)
  {
    match e
    case Started(s, info, t) =>
      Outcome(w.(core := Core(Upsert(w.core.db, s, info, t), w.core.hist), ps := Clear(w.ps, s)), Quiet)
    case Prompted(_, _, _, _, _, _) => Outcome(DoPrompt(env, w, e), Quiet)
    case Ended(s) => Outcome(w.(core := CloseLeg(w.core, s), ps := Cancel(Clear(w.ps, s), s)), Quiet)
    case PlainStop(s) => Outcome(w.(ps := Clear(w.ps, s)), Quiet)
    case Stopped(_, _, _, _, _, _, _) => DoStop(env, w, e)
    case Evaluated(_, _, _, _) => DoEvaluate(env, w, e)
    case Refreshed(p, entries, t) =>
      Outcome(w.(core := Core(QueueAll(w.core.db, w.snaps[p].ctx.sid, entries, t), w.core.hist)), Quiet)
    case Returned(p) => Outcome(w.(ps := Finish(w.ps, p)), Quiet)
    case Disconnected(p) => Outcome(w.(ps := Lose(w.ps, p)), Quiet)
    case GraceOver(g) =>
      Outcome(w.(core := if Expires(w, g) then CloseLeg(w.core, w.ps.timers[g]) else w.core, ps := Expire(w.ps, g)), Quiet)
    case Reaped(s) => Outcome(w.(core := CloseLeg(w.core, s)), Quiet)
  }

  /** States, the events between them, and what each event was answered. */
  datatype Trace = Trace(states: seq<World>, events: seq<Event>, answers: seq<Answer>)

  ghost predicate StepAt(env: Env, r: Trace, i: nat) {
    i < |r.events| && i < |r.answers| && i + 1 < |r.states| ==>
      && Enabled(env, r.states[i], r.events[i])
      && Step(env, r.states[i], r.events[i]) == Outcome(r.states[i + 1], r.answers[i])
  }

  /** A run of the daemon from an empty store. */
  ghost predicate IsRun(env: Env, r: Trace) {
    && |r.states| == |r.events| + 1 && |r.answers| == |r.events| && r.states[0] == START
    && forall i: nat :: StepAt(env, r, i)
  }
}
