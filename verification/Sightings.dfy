/** What the registry knows of a spawn, read off the transcripts and prompts of the run. */
module Sightings {
  import opened Text
  import opened Notification
  import opened Registry
  import opened Store
  import opened Planner
  import opened Core
  import opened Acts
  import opened Machine
  import opened Runs
  import opened Sessions

  // ---- what the events say ----

  /** The row once the transcript tail is read. */
  function AfterReading(row: Option<Spawn>, tail: Tail, id: string): Option<Spawn> {
    if tail.Read? then RowAfter(row, tail.delta, id, tail.at) else row
  }

  /** The row once the notification a prompt of the session carries is noted. */
  function AfterPrompt(row: Option<Spawn>, e: Event, s: Sid, id: string): Option<Spawn> {
    if row.Some? && e.Prompted? && e.sid == s then Some(MarkRow(row.value, id, e.note, e.t)) else row
  }

  /** The row as event `k` finds it once it has read the transcript. */
  function CaughtUp(r: Trace, s: Sid, id: string, k: nat): Option<Spawn>
    requires k < |r.events| < |r.states|
    decreases k, 1
  {
    AfterReading(SpawnRow(r, s, id, k), Reading(r, s, k), id)
  }

  /** The row of spawn `id` of session `s` in state `i`. */
  function SpawnRow(r: Trace, s: Sid, id: string, i: nat): Option<Spawn>
    requires i <= |r.events| < |r.states|
    decreases i, 0
  {
    if i == 0 || Closes(r.states[i - 1], r.events[i - 1], s) then None
    else AfterPrompt(CaughtUp(r, s, id, i - 1), r.events[i - 1], s, id)
  }

  // ---- one step ----

  lemma SetSpawnsOf(db: Db, x: Sid, reg: Spawns, s: Sid)
    ensures SpawnsOf(SetSpawns(db, x, reg), s) == if x == s then reg else SpawnsOf(db, s)
  {}

  lemma IngestSpawns(db: Db, x: Sid, tail: Tail, s: Sid, id: string)
    ensures Lookup(SpawnsOf(IngestDb(db, x, tail), s), id) ==
            if x == s && s in db.sessions then AfterReading(Lookup(SpawnsOf(db, s), id), tail, id) else Lookup(SpawnsOf(db, s), id)
  {
    if tail.Read? && x in db.sessions {
      SetSpawnsOf(db, x, Ingest(SpawnsOf(db, x), tail.delta, tail.at), s);
      IngestAt(SpawnsOf(db, x), tail.delta, id, tail.at);
    }
  }

  lemma NotedSpawns(db: Db, x: Sid, note: Note, tail: Tail, t: int, s: Sid, id: string)
    ensures var row := Lookup(SpawnsOf(db, s), id);
      var read := if x == s && HasIds(note) && s in db.sessions then AfterReading(row, tail, id) else row;
      Lookup(SpawnsOf(NotedDb(db, x, note, tail, t), s), id) ==
      if x == s && read.Some? then Some(MarkRow(read.value, id, note, t)) else read
  {
    IngestSpawns(db, x, tail, s, id);
    var mid := IngestDb(db, x, tail);
    SetSpawnsOf(mid, x, MarkTerminal(SpawnsOf(mid, x), note, t), s);
  }

  lemma StopSpawns(db: Db, e: Event, s: Sid, id: string)
    requires e.Stopped?
    ensures Lookup(SpawnsOf(StopDb(db, e), s), id) ==
            if e.sid == s then AfterReading(Lookup(SpawnsOf(db, s), id), e.tail, id) else Lookup(SpawnsOf(db, s), id)
  {
    IngestSpawns(StartPause(Upsert(db, e.sid, e.info, e.t), e.sid, e.t), e.sid, e.tail, s, id);
  }

  lemma {:induction false} QueueKeepsSpawns(db: Db, s: Sid, entries: seq<(string, string)>, t: int)
    ensures QueueAll(db, s, entries, t).spawns == db.spawns
  {
    if entries != [] { QueueKeepsSpawns(db, s, entries[..|entries| - 1], t); }
  }

  lemma CalmSpawns(r: Trace, s: Sid, id: string, k: nat)
    requires k < |r.events| < |r.states|
    requires s in r.states[k].core.db.sessions <==> LastTouch(r, s, k).Some?
    ensures Lookup(SpawnsOf(CalmDb(r.states[k], r.events[k]), s), id) ==
            AfterPrompt(AfterReading(Lookup(SpawnsOf(r.states[k].core.db, s), id), Reading(r, s, k), id), r.events[k], s, id)
  {
    var w, e, db := r.states[k], r.events[k], r.states[k].core.db;
    match e {
      case Prompted(x, info, note, _, tail, t) => NotedSpawns(db, x, note, tail, t, s, id);
      case Stopped(_, _, _, _, _, _, _) => StopSpawns(db, e, s, id);
      case Evaluated(p, entries, _, t) => if p in w.snaps { QueueKeepsSpawns(db, w.snaps[p].ctx.sid, entries, t); }
      case Refreshed(p, entries, t) => if p in w.snaps { QueueKeepsSpawns(db, w.snaps[p].ctx.sid, entries, t); }
      case _ =>
    }
  }

  lemma ActSpawns(c: Core, a: Act, s: Sid)
    requires a.Issuing? ==> DistinctNames(a.sel)
    ensures SpawnsOf(Apply(c, a).db, s) == if a == Closing(s) then map[] else SpawnsOf(c.db, s)
  {}

  lemma SpawnsMove(env: Env, r: Trace, s: Sid, id: string, k: nat)
    requires IsRun(env, r) && k < |r.events|
    ensures Lookup(SpawnsOf(r.states[k + 1].core.db, s), id) ==
            if Closes(r.states[k], r.events[k], s) then None
            else AfterPrompt(AfterReading(Lookup(SpawnsOf(r.states[k].core.db, s), id), Reading(r, s, k), id), r.events[k], s, id)
  {
    var w, e := r.states[k], r.events[k];
    RunTakes(env, r, k);
    SessionOnTrace(env, r, s, k);
    CalmSpawns(r, s, id, k);
    ActSpawns(Core(CalmDb(w, e), w.core.hist), ActOf(env, w, e), s);
    ClosesIsClosing(env, w, e, s);
  }

  /** In every state of every run the registry of a session holds, for every spawn, what its
      transcript readings and prompts since the last close make of it, one after the other. */
  lemma {:induction false} SpawnsOnTrace(env: Env, r: Trace, s: Sid, id: string, i: nat)
    requires IsRun(env, r) && i <= |r.events|
    ensures Lookup(SpawnsOf(r.states[i].core.db, s), id) == SpawnRow(r, s, id, i)
  {
    if i > 0 {
      SpawnsOnTrace(env, r, s, id, i - 1);
      SpawnsMove(env, r, s, id, i - 1);
    }
  }

  /** What one event makes of a spawn's row, spelled out: first the delta it reads, then the
      notification it carries. */
  lemma SightingExactly(r: Trace, s: Sid, id: string, k: nat)
    requires k < |r.events| < |r.states|
    ensures var tail, read := Reading(r, s, k), CaughtUp(r, s, id, k);
      if tail.Read? then RowRead(SpawnRow(r, s, id, k), tail.delta, id, tail.at, read) else read == SpawnRow(r, s, id, k)
    ensures var e, read, row := r.events[k], CaughtUp(r, s, id, k), SpawnRow(r, s, id, k + 1);
      if Closes(r.states[k], e, s) || read.None? then row.None?
      else row.Some? && if e.Prompted? && e.sid == s then RowNoted(read.value, e.note, id, e.t, row.value) else row == read
  {
    var tail, e, read := Reading(r, s, k), r.events[k], CaughtUp(r, s, id, k);
    if tail.Read? { RowReadExactly(SpawnRow(r, s, id, k), tail.delta, id, tail.at); }
    if read.Some? && e.Prompted? { RowNotedExactly(read.value, e.note, id, e.t); }
  }

  /** The registry a prompt with task ids is judged by. */
  lemma CaughtUpIs(env: Env, r: Trace, s: Sid, id: string, k: nat)
    requires IsRun(env, r) && k < |r.events| && r.events[k].Prompted? && r.events[k].sid == s && HasIds(r.events[k].note)
    ensures Lookup(SpawnsOf(IngestDb(r.states[k].core.db, s, r.events[k].tail), s), id) == CaughtUp(r, s, id, k)
  {
    SessionOnTrace(env, r, s, k);
    SpawnsOnTrace(env, r, s, id, k);
    IngestSpawns(r.states[k].core.db, s, r.events[k].tail, s, id);
  }

  /** The registry a Stop decides on. */
  lemma StopSees(env: Env, r: Trace, s: Sid, id: string, k: nat)
    requires IsRun(env, r) && k < |r.events| && r.events[k].Stopped? && r.events[k].sid == s
    ensures Lookup(SpawnsOf(StopDb(r.states[k].core.db, r.events[k]), s), id) == CaughtUp(r, s, id, k)
  {
    SpawnsOnTrace(env, r, s, id, k);
    StopSpawns(r.states[k].core.db, r.events[k], s, id);
  }
}
