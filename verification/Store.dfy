/** The daemon's tables. `Db` is their content as a value; class `Store` is the mutable
    store whose methods change them in place. */
module Store {
  import opened Text
  import opened Notification
  import opened Registry
  import Columns

  type Sid = string

  /** A row key within a session: the session and a fork name. */
  type Key = (string, string)

  datatype Session = Session(
    root: string,
    model: Option<string>,
    enable: Option<string>,
    disable: Option<string>,
    open: bool,
    lastActivity: int,
    offset: nat,
    gauge: Option<u64>,
    epoch: nat,
    pauseStart: Option<int>)

  datatype RosterRow = RosterRow(path: string, queuedAt: int, ranAt: Option<int>)

  /** A wake issued for a fork; `tags` is comma-joined. */
  datatype Run = Run(sid: Sid, fork: string, trigger: string, tags: Option<string>, at: int)

  /** A dependent held back; `preds` is comma-joined. */
  datatype Pending = Pending(path: string, trigger: string, overlap: bool, preds: string, createdAt: int)

  datatype Latch = Latch(sid: Sid, fork: string, key: string)

  datatype Db = Db(
    sessions: map<Sid, Session>,
    roster: map<Key, RosterRow>,
    fires: set<Latch>,
    runs: seq<Run>,
    spawns: map<Sid, Spawns>,
    pending: map<Key, Pending>)

  const EMPTY := Db(map[], map[], {}, [], map[], map[])

  /** What an event says about its session. */
  datatype Info = Info(root: string, model: Option<string>, enable: Option<seq<string>>, disable: Option<seq<string>>)

  function Column(l: Option<seq<string>>): Option<string> {
    match l
    case Some(v) => Some(Columns.Join(v))
    case None => None
  }

  function ReadColumn(c: Option<string>): Option<seq<string>> {
    match c
    case Some(s) => Some(Columns.SplitTags(s))
    case None => None
  }

  // ---- sessions ----

  /** Register a session or re-touch it: the root and filters follow the event, a known
      model is kept when the event has none, the pause state is untouched. */
  function Upsert(db: Db, sid: Sid, info: Info, t: int): Db {
    var row :=
      if sid in db.sessions then
        var s := db.sessions[sid];
        s.(root := info.root, model := if info.model.Some? then info.model else s.model,
           enable := Column(info.enable), disable := Column(info.disable), open := true, lastActivity := t)
      else
        Session(info.root, info.model, Column(info.enable), Column(info.disable), true, t, 0, None, 0, None);
    db.(sessions := db.sessions[sid := row])
  }

  function SetSession(db: Db, sid: Sid, f: Session -> Session): Db {
    if sid in db.sessions then db.(sessions := db.sessions[sid := f(db.sessions[sid])]) else db
  }

  /** The first Stop of a pause sets the baseline. */
  function StartPause(db: Db, sid: Sid, t: int): Db {
    SetSession(db, sid, (s: Session) => if s.pauseStart.None? then s.(pauseStart := Some(t)) else s)
  }

  function BumpEpoch(db: Db, sid: Sid): Db {
    SetSession(db, sid, (s: Session) => s.(epoch := s.epoch + 1, pauseStart := None))
  }

  function SetGauge(db: Db, sid: Sid, offset: nat, gauge: Option<u64>): Db {
    SetSession(db, sid, (s: Session) => s.(offset := offset, gauge := if gauge.Some? then gauge else s.gauge))
  }

  /** Closing clears everything kept per leg and leaves the pause epoch alone. */
  function Close(db: Db, sid: Sid): Db {
    var closed := SetSession(db, sid, (s: Session) => s.(open := false));
    Db(closed.sessions,
       map k | k in db.roster && k.0 != sid :: db.roster[k],
       (set l | l in db.fires && l.sid != sid),
       db.runs,
       db.spawns - {sid},
       map k | k in db.pending && k.0 != sid :: db.pending[k])
  }

  function EpochOf(db: Db, sid: Sid): nat {
    if sid in db.sessions then db.sessions[sid].epoch else 0
  }

  // ---- roster ----

  /** Queue once; an entry already there keeps its path and its last run. */
  function QueueFork(db: Db, sid: Sid, name: string, path: string, t: int): Db {
    if (sid, name) in db.roster then db
    else db.(roster := db.roster[(sid, name) := RosterRow(path, t, None)])
  }

  function QueueAll(db: Db, sid: Sid, entries: seq<(string, string)>, t: int): Db {
    if entries == [] then db
    else
      var e := entries[|entries| - 1];
      QueueFork(QueueAll(db, sid, entries[..|entries| - 1], t), sid, e.0, e.1, t)
  }

  /** `order` lists the session's roster, each fork once. */
  ghost predicate Enumerates(order: seq<string>, db: Db, sid: Sid) {
    Columns.Distinct(order) && forall name :: name in order <==> (sid, name) in db.roster
  }

  // ---- runs ----

  /** The run carries the tag. */
  predicate Carries(run: Run, tag: string) {
    run.tags.Some? && tag in Columns.SplitTags(run.tags.value)
  }

  predicate InProject(db: Db, run: Run, root: string) {
    run.sid in db.sessions && db.sessions[run.sid].root == root
  }

  /** `last` is the latest issue in the project of a fork carrying the tag. */
  ghost predicate IsLastRun(db: Db, root: string, tag: string, last: Option<int>) {
    match last
    case None => forall i :: 0 <= i < |db.runs| ==> !(InProject(db, db.runs[i], root) && Carries(db.runs[i], tag))
    case Some(m) =>
      && (exists i :: 0 <= i < |db.runs| && InProject(db, db.runs[i], root) && Carries(db.runs[i], tag) && db.runs[i].at == m)
      && (forall i :: 0 <= i < |db.runs| && InProject(db, db.runs[i], root) && Carries(db.runs[i], tag) ==> db.runs[i].at <= m)
  }

  // ---- spawns ----

  function SpawnsOf(db: Db, sid: Sid): Spawns {
    if sid in db.spawns then db.spawns[sid] else map[]
  }

  function SetSpawns(db: Db, sid: Sid, reg: Spawns): Db {
    if reg == SpawnsOf(db, sid) then db else db.(spawns := db.spawns[sid := reg])
  }

  /** Updating a growing registry twice amounts to the last update. */
  lemma SetSpawnsAgain(db: Db, sid: Sid, a: Spawns, b: Spawns)
    requires SpawnsOf(db, sid).Keys <= a.Keys <= b.Keys
    ensures SetSpawns(SetSpawns(db, sid, a), sid, b) == SetSpawns(db, sid, b)
  {
    if b == SpawnsOf(db, sid) && sid !in db.spawns { assert a.Keys == {} && a == b; }
  }

  // ---- pending ----

  function ClearPending(db: Db, sid: Sid): Db {
    db.(pending := map k | k in db.pending && k.0 != sid :: db.pending[k])
  }

  function PendingNames(db: Db, sid: Sid): set<string> {
    set k | k in db.pending && k.0 == sid :: k.1
  }

  // ---- the mutable store ----

  class Store {
    var sessions: map<Sid, Session>
    var roster: map<Key, RosterRow>
    var fires: set<Latch>
    var runs: seq<Run>
    var spawns: map<Sid, Spawns>
    var pending: map<Key, Pending>

    ghost function View(): Db
      reads this
    {
      Db(sessions, roster, fires, runs, spawns, pending)
    }

    constructor ()
      ensures View() == EMPTY
    {
      sessions, roster, fires, runs, spawns, pending := map[], map[], {}, [], map[], map[];
    }

    method UpsertSession(sid: Sid, info: Info, t: int)
      modifies this
      ensures View() == Upsert(old(View()), sid, info, t)
    {
      if sid in sessions {
        var s := sessions[sid];
        var model := if info.model.Some? then info.model else s.model;
        sessions := sessions[sid := Session(info.root, model, Column(info.enable), Column(info.disable), true, t,
                                            s.offset, s.gauge, s.epoch, s.pauseStart)];
      } else {
        sessions := sessions[sid := Session(info.root, info.model, Column(info.enable), Column(info.disable), true,
                                            t, 0, None, 0, None)];
      }
    }

    method SetPauseStartedAtIfUnset(sid: Sid, t: int)
      modifies this
      ensures View() == StartPause(old(View()), sid, t)
    {
      if sid in sessions && sessions[sid].pauseStart.None? {
        sessions := sessions[sid := sessions[sid].(pauseStart := Some(t))];
      }
      assert View().sessions == StartPause(old(View()), sid, t).sessions;
    }

    method BumpPauseEpoch(sid: Sid)
      modifies this
      ensures View() == BumpEpoch(old(View()), sid)
    {
      if sid in sessions {
        var s := sessions[sid];
        sessions := sessions[sid := s.(epoch := s.epoch + 1, pauseStart := None)];
      }
    }

    method SetTranscriptGauge(sid: Sid, offset: nat, gauge: Option<u64>)
      modifies this
      ensures View() == SetGauge(old(View()), sid, offset, gauge)
    {
      if sid in sessions {
        var s := sessions[sid];
        sessions := sessions[sid := s.(offset := offset, gauge := if gauge.Some? then gauge else s.gauge)];
      }
    }

    method CloseSession(sid: Sid)
      modifies this
      ensures View() == Close(old(View()), sid)
    {
      if sid in sessions { sessions := sessions[sid := sessions[sid].(open := false)]; }
      roster := map k | k in roster && k.0 != sid :: roster[k];
      fires := set l | l in fires && l.sid != sid;
      spawns := spawns - {sid};
      pending := map k | k in pending && k.0 != sid :: pending[k];
    }

    method Queue(sid: Sid, name: string, path: string, t: int) returns (queued: bool)
      modifies this
      ensures View() == QueueFork(old(View()), sid, name, path, t)
      ensures queued <==> (sid, name) !in old(roster)
    {
      queued := (sid, name) !in roster;
      if queued { roster := roster[(sid, name) := RosterRow(path, t, None)]; }
    }

    method TouchForkRan(sid: Sid, name: string, t: int)
      modifies this`roster
      ensures roster == if (sid, name) in old(roster)
        then old(roster)[(sid, name) := old(roster)[(sid, name)].(ranAt := Some(t))] else old(roster)
    {
      if (sid, name) in roster { roster := roster[(sid, name) := roster[(sid, name)].(ranAt := Some(t))]; }
    }

    method TryLatchFire(sid: Sid, name: string, key: string) returns (newly: bool)
      modifies this`fires
      ensures fires == old(fires) + {Latch(sid, name, key)}
      ensures newly <==> Latch(sid, name, key) !in old(fires)
    {
      newly := Latch(sid, name, key) !in fires;
      if newly { fires := fires + {Latch(sid, name, key)}; }
    }

    method RecordIssuedRun(sid: Sid, name: string, trigger: string, tags: Option<string>, t: int)
      modifies this`runs
      ensures runs == old(runs) + [Run(sid, name, trigger, tags, t)]
    {
      runs := runs + [Run(sid, name, trigger, tags, t)];
    }

    /** The most recent issue, across the project, of a fork carrying the tag. */
    method LastRunForTag(root: string, tag: string) returns (last: Option<int>)
      ensures IsLastRun(View(), root, tag, last)
    {
      last := None;
      for i := 0 to |runs|
        invariant last.None? ==>
          forall j :: 0 <= j < i ==> !(InProject(View(), runs[j], root) && Carries(runs[j], tag))
        invariant last.Some? ==>
          && (exists j :: 0 <= j < i && InProject(View(), runs[j], root) && Carries(runs[j], tag) && runs[j].at == last.value)
          && (forall j :: 0 <= j < i && InProject(View(), runs[j], root) && Carries(runs[j], tag) ==> runs[j].at <= last.value)
      {
        var run := runs[i];
        var joined := run.sid in sessions && sessions[run.sid].root == root;
        if joined && Carries(run, tag) && (last.None? || run.at > last.value) { last := Some(run.at); }
      }
    }

    method InsertPendingDep(sid: Sid, name: string, row: Pending)
      modifies this`pending
      ensures pending == old(pending)[(sid, name) := row]
    {
      pending := pending[(sid, name) := row];
    }

    method DeletePendingDep(sid: Sid, name: string)
      modifies this`pending
      ensures pending == old(pending) - {(sid, name)}
    {
      pending := pending - {(sid, name)};
    }

    method ClearPendingDeps(sid: Sid) returns (dropped: nat)
      modifies this
      ensures View() == ClearPending(old(View()), sid)
      ensures dropped == |old(pending)| - |pending|
    {
      ghost var was := pending;
      var gone := map k | k in pending && k.0 == sid :: pending[k];
      pending := map k | k in pending && k.0 != sid :: pending[k];
      dropped := |gone|;
      assert was.Keys == pending.Keys + gone.Keys;
    }

    method RecordForkSpawn(sid: Sid, id: string, name: Option<string>, t: int)
      modifies this
      ensures View() == SetSpawns(old(View()), sid, RecordSpawn(SpawnsOf(old(View()), sid), id, name, t))
    {
      var reg := if sid in spawns then spawns[sid] else map[];
      if id !in reg { spawns := spawns[sid := reg[id := Spawn(name, None, Spawned, t, None)]]; }
    }

    method SetSpawnTaskId(sid: Sid, id: string, task: string)
      modifies this
      ensures View() == SetSpawns(old(View()), sid, SetTask(SpawnsOf(old(View()), sid), id, task))
    {
      var reg := if sid in spawns then spawns[sid] else map[];
      if id in reg && reg[id].task.None? { spawns := spawns[sid := reg[id := reg[id].(task := Some(task))]]; }
    }

    method IsOwnSpawn(sid: Sid, n: Note) returns (matched: bool)
      ensures matched <==> IsForkSpawn(SpawnsOf(View(), sid), n)
    {
      var reg := if sid in spawns then spawns[sid] else map[];
      matched := exists id :: id in reg && Matches(n, id, reg[id].task);
    }

    /** Marks the matching unfinished spawns; reports whether any spawn matched. */
    method MarkSpawnTerminal(sid: Sid, n: Note, t: int) returns (matched: bool)
      requires Terminal(n.status).Some?
      modifies this
      ensures matched <==> IsForkSpawn(SpawnsOf(old(View()), sid), n)
      ensures View() == SetSpawns(old(View()), sid, MarkTerminal(SpawnsOf(old(View()), sid), n, t))
    {
      matched := IsOwnSpawn(sid, n);
      ghost var marked := MarkTerminal(SpawnsOf(View(), sid), n, t);
      if matched {
        var reg := spawns[sid];
        var done := Terminal(n.status).value;
        reg := map id | id in reg ::
          if reg[id].status == Spawned && Matches(n, id, reg[id].task)
          then reg[id].(status := done, terminalAt := Some(t)) else reg[id];
        assert reg == marked;
        spawns := spawns[sid := reg];
      } else {
        assert marked == SpawnsOf(View(), sid);
      }
    }

    method ForkCompletedSince(sid: Sid, name: string, since: int) returns (done: bool)
      ensures done <==> CompletedSince(SpawnsOf(View(), sid), name, since)
    {
      var reg := if sid in spawns then spawns[sid] else map[];
      done := exists id :: id in reg && FinishedSince(reg[id], name, since);
    }
  }
}
