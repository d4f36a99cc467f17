/** What a session's row holds, read off the events of the run. */
module Sessions {
  import opened Text
  import opened Registry
  import opened Store
  import opened Planner
  import opened Core
  import opened Acts
  import opened Machine
  import opened Runs
  import Columns
  import Notification

  // ---- what the events say ----

  /** The event reports the session's project, model and filters. */
  predicate Touches(e: Event, s: Sid) {
    (e.Started? || e.Prompted? || e.Stopped?) && e.sid == s
  }

  /** The last such event before state `i`. */
  function LastTouch(r: Trace, s: Sid, i: nat): (e: Option<Event>)
    requires i <= |r.events|
    ensures e.Some? ==> Touches(e.value, s)
  {
    if i == 0 then None
    else if Touches(r.events[i - 1], s) then Some(r.events[i - 1])
    else LastTouch(r, s, i - 1)
  }

  /** The last model reported. */
  function LastModel(r: Trace, s: Sid, i: nat): Option<string>
    requires i <= |r.events|
  {
    if i == 0 then None
    else if Touches(r.events[i - 1], s) && r.events[i - 1].info.model.Some? then r.events[i - 1].info.model
    else LastModel(r, s, i - 1)
  }

  /** What event `k` reads of the session's transcript: a Stop reads it, and a prompt that
      carries task ids does once the session is known. */
  function Reading(r: Trace, s: Sid, k: nat): Tail
    requires k < |r.events|
  {
    var e := r.events[k];
    if e.Stopped? && e.sid == s then e.tail
    else if e.Prompted? && e.sid == s && (e.note.toolUseId.Some? || e.note.taskId.Some?) && LastTouch(r, s, k).Some? then e.tail
    else NoTranscript
  }

  /** The last token count read. */
  function LastGauge(r: Trace, s: Sid, i: nat): Option<u64>
    requires i <= |r.events|
  {
    if i == 0 then None
    else
      var tail := Reading(r, s, i - 1);
      if tail.Read? && tail.gauge.Some? then tail.gauge else LastGauge(r, s, i - 1)
  }

  /** Where the last reading ended. */
  function LastOffset(r: Trace, s: Sid, i: nat): nat
    requires i <= |r.events|
  {
    if i == 0 then 0
    else if Reading(r, s, i - 1).Read? then Reading(r, s, i - 1).offset
    else LastOffset(r, s, i - 1)
  }

  /** The session was touched after it was last closed. */
  predicate OpenAt(r: Trace, s: Sid, i: nat)
    requires i <= |r.events| < |r.states|
  {
    i > 0 && (Touches(r.events[i - 1], s) || (OpenAt(r, s, i - 1) && !Closes(r.states[i - 1], r.events[i - 1], s)))
  }

  /** The genuine prompts of the session. */
  function Pauses(env: Env, r: Trace, s: Sid, i: nat): nat
    requires i <= |r.events| < |r.states|
  {
    if i == 0 then 0 else Pauses(env, r, s, i - 1) + if Advances(env, r.states[i - 1], r.events[i - 1], s) then 1 else 0
  }

  /** The first Stop of session `s` since its last genuine prompt, up to state `i`. */
  function FirstStop(env: Env, r: Trace, s: Sid, i: nat): Option<int>
    requires i <= |r.events| < |r.states|
  {
    if i == 0 then None
    else
      var e, before := r.events[i - 1], FirstStop(env, r, s, i - 1);
      if Advances(env, r.states[i - 1], e, s) then None
      else if e.Stopped? && e.sid == s && before.None? then Some(e.t)
      else before
  }

  // ---- one step ----

  function SessionOf(db: Db, s: Sid): Option<Session> {
    if s in db.sessions then Some(db.sessions[s]) else None
  }

  function UpsertRow(prev: Option<Session>, info: Info, t: int): Session {
    var p := prev.GetOr(Session(info.root, None, None, None, true, t, 0, None, 0, None));
    p.(root := info.root, model := if info.model.Some? then info.model else p.model,
       enable := Column(info.enable), disable := Column(info.disable), open := true, lastActivity := t)
  }

  function ReadRow(p: Session, tail: Tail): Session {
    match tail
    case Read(offset, gauge, _, _) => p.(offset := offset, gauge := if gauge.Some? then gauge else p.gauge)
    case _ => p
  }

  function StartRow(p: Session, t: int): Session {
    if p.pauseStart.None? then p.(pauseStart := Some(t)) else p
  }

  /** The row after the calm part of a step. */
  function EventRow(prev: Option<Session>, e: Event, s: Sid): Option<Session> {
    match e
    case Started(x, info, t) => if x == s then Some(UpsertRow(prev, info, t)) else prev
    case Prompted(x, info, note, _, tail, t) =>
      if x != s then prev
      else Some(UpsertRow(if HasIds(note) && prev.Some? then Some(ReadRow(prev.value, tail)) else prev, info, t))
    case Stopped(x, info, tail, _, _, _, t) =>
      if x == s then Some(ReadRow(StartRow(UpsertRow(prev, info, t), t), tail)) else prev
    case _ => prev
  }

  function ActRow(row: Option<Session>, a: Act, s: Sid): Option<Session> {
    if row.None? then None
    else if a == Bumping(s) then Some(row.value.(epoch := row.value.epoch + 1, pauseStart := None))
    else if a == Closing(s) then Some(row.value.(open := false))
    else row
  }

  lemma {:induction false} QueueKeepsSessions(db: Db, s: Sid, entries: seq<(string, string)>, t: int)
    ensures QueueAll(db, s, entries, t).sessions == db.sessions
  {
    if entries != [] { QueueKeepsSessions(db, s, entries[..|entries| - 1], t); }
  }

  lemma UpsertSession(db: Db, x: Sid, info: Info, t: int, s: Sid)
    ensures SessionOf(Upsert(db, x, info, t), s) == if x == s then Some(UpsertRow(SessionOf(db, s), info, t)) else SessionOf(db, s)
  {}

  lemma StartSession(db: Db, x: Sid, t: int, s: Sid)
    requires x in db.sessions
    ensures SessionOf(StartPause(db, x, t), s) == if x == s then Some(StartRow(db.sessions[x], t)) else SessionOf(db, s)
  {}

  lemma IngestSession(db: Db, x: Sid, tail: Tail, s: Sid)
    ensures SessionOf(IngestDb(db, x, tail), s) ==
            if x == s && s in db.sessions then Some(ReadRow(db.sessions[s], tail)) else SessionOf(db, s)
  {}

  lemma NotedSession(db: Db, x: Sid, note: Notification.Note, tail: Tail, t: int, s: Sid)
    ensures SessionOf(NotedDb(db, x, note, tail, t), s) ==
            if x == s && HasIds(note) && s in db.sessions then Some(ReadRow(db.sessions[s], tail)) else SessionOf(db, s)
  {
    IngestSession(db, x, tail, s);
  }

  lemma StopSession(db: Db, e: Event, s: Sid)
    requires e.Stopped?
    ensures SessionOf(StopDb(db, e), s) == EventRow(SessionOf(db, s), e, s)
  {
    var a := Upsert(db, e.sid, e.info, e.t);
    var b := StartPause(a, e.sid, e.t);
    UpsertSession(db, e.sid, e.info, e.t, s);
    StartSession(a, e.sid, e.t, s);
    IngestSession(b, e.sid, e.tail, s);
  }

  lemma CalmRow(w: World, e: Event, s: Sid)
    ensures SessionOf(CalmDb(w, e), s) == EventRow(SessionOf(w.core.db, s), e, s)
  {
    var db := w.core.db;
    match e {
      case Started(x, info, t) => UpsertSession(db, x, info, t, s);
      case Prompted(x, info, note, _, tail, t) =>
        NotedSession(db, x, note, tail, t, s);
        UpsertSession(NotedDb(db, x, note, tail, t), x, info, t, s);
      case Stopped(_, _, _, _, _, _, _) => StopSession(db, e, s);
      case Evaluated(p, entries, _, t) => if p in w.snaps { QueueKeepsSessions(db, w.snaps[p].ctx.sid, entries, t); }
      case Refreshed(p, entries, t) => if p in w.snaps { QueueKeepsSessions(db, w.snaps[p].ctx.sid, entries, t); }
      case _ =>
    }
  }

  lemma IssueKeepsSessions(c: Core, a: Act)
    requires a.Issuing? && DistinctNames(a.sel)
    ensures Apply(c, a).db.sessions == c.db.sessions
  {}

  lemma ActRowIs(c: Core, a: Act, s: Sid)
    requires a.Issuing? ==> DistinctNames(a.sel)
    ensures SessionOf(Apply(c, a).db, s) == ActRow(SessionOf(c.db, s), a, s)
  {
    if a.Issuing? { IssueKeepsSessions(c, a); }
  }

  lemma RowMoves(env: Env, r: Trace, s: Sid, k: nat)
    requires IsRun(env, r) && k < |r.events|
    ensures SessionOf(r.states[k + 1].core.db, s) == NextRow(env, r, s, k, SessionOf(r.states[k].core.db, s))
  {
    var w, e := r.states[k], r.events[k];
    RunTakes(env, r, k);
    CalmRow(w, e, s);
    ActRowIs(Core(CalmDb(w, e), w.core.hist), ActOf(env, w, e), s);
  }

  lemma ActMeans(env: Env, w: World, e: Event, s: Sid)
    ensures ActOf(env, w, e) == Bumping(s) <==> Advances(env, w, e, s)
    ensures ActOf(env, w, e) == Closing(s) <==> Closes(w, e, s)
    ensures Advances(env, w, e, s) ==> Touches(e, s)
  {
    ClosesIsClosing(env, w, e, s);
  }

  // ---- the row ----

  /** The row says what the events said. */
  ghost predicate RowOnTrace(env: Env, r: Trace, s: Sid, i: nat, row: Session)
    requires i <= |r.events| < |r.states|
  {
    RowReported(r, s, i, row) && RowMeasured(r, s, i, row) && RowPaused(env, r, s, i, row)
  }

  /** Project, filters and model as last reported. */
  predicate RowReported(r: Trace, s: Sid, i: nat, row: Session)
    requires i <= |r.events| < |r.states|
  {
    var touch := LastTouch(r, s, i);
    && touch.Some? && row.root == touch.value.info.root && row.lastActivity == touch.value.t
    && row.enable == Column(touch.value.info.enable) && row.disable == Column(touch.value.info.disable)
    && row.model == LastModel(r, s, i) && row.open == OpenAt(r, s, i)
  }

  /** Token count and offset as last read. */
  predicate RowMeasured(r: Trace, s: Sid, i: nat, row: Session)
    requires i <= |r.events|
  {
    row.gauge == LastGauge(r, s, i) && row.offset == LastOffset(r, s, i)
  }

  /** The pause and its first Stop. */
  predicate RowPaused(env: Env, r: Trace, s: Sid, i: nat, row: Session)
    requires i <= |r.events| < |r.states|
  {
    row.epoch == Pauses(env, r, s, i) && row.pauseStart == FirstStop(env, r, s, i)
  }

  ghost predicate ReportedKnown(r: Trace, s: Sid, i: nat, row: Option<Session>)
    requires i <= |r.events| < |r.states|
  {
    if row.Some? then RowReported(r, s, i, row.value) else LastTouch(r, s, i).None? && LastModel(r, s, i).None?
  }

  ghost predicate MeasuredKnown(r: Trace, s: Sid, i: nat, row: Option<Session>)
    requires i <= |r.events|
  {
    if row.Some? then RowMeasured(r, s, i, row.value) else LastGauge(r, s, i).None? && LastOffset(r, s, i) == 0
  }

  ghost predicate PausedKnown(env: Env, r: Trace, s: Sid, i: nat, row: Option<Session>)
    requires i <= |r.events| < |r.states|
  {
    if row.Some? then RowPaused(env, r, s, i, row.value) else Pauses(env, r, s, i) == 0 && FirstStop(env, r, s, i).None?
  }

  ghost predicate SessionKnown(env: Env, r: Trace, s: Sid, i: nat, row: Option<Session>)
    requires i <= |r.events| < |r.states|
  {
    ReportedKnown(r, s, i, row) && MeasuredKnown(r, s, i, row) && PausedKnown(env, r, s, i, row)
  }

  /** The row after event `k`, from the row before. */
  ghost function NextRow(env: Env, r: Trace, s: Sid, k: nat, row: Option<Session>): Option<Session>
    requires k < |r.events| < |r.states|
  {
    ActRow(EventRow(row, r.events[k], s), ActOf(env, r.states[k], r.events[k]), s)
  }

  lemma ReportedMoves(env: Env, r: Trace, s: Sid, k: nat, a: Option<Session>)
    requires k < |r.events| < |r.states| && ReportedKnown(r, s, k, a)
    ensures ReportedKnown(r, s, k + 1, NextRow(env, r, s, k, a))
  {
    ActMeans(env, r.states[k], r.events[k], s);
  }

  lemma MeasuredMoves(env: Env, r: Trace, s: Sid, k: nat, a: Option<Session>)
    requires k < |r.events| < |r.states| && MeasuredKnown(r, s, k, a) && (a.Some? <==> LastTouch(r, s, k).Some?)
    ensures MeasuredKnown(r, s, k + 1, NextRow(env, r, s, k, a))
  {}

  lemma PausedMoves(env: Env, r: Trace, s: Sid, k: nat, a: Option<Session>)
    requires k < |r.events| < |r.states| && PausedKnown(env, r, s, k, a)
    ensures PausedKnown(env, r, s, k + 1, NextRow(env, r, s, k, a))
  {
    ActMeans(env, r.states[k], r.events[k], s);
  }

  lemma KnownMoves(env: Env, r: Trace, s: Sid, k: nat, a: Option<Session>)
    requires k < |r.events| < |r.states| && SessionKnown(env, r, s, k, a)
    ensures SessionKnown(env, r, s, k + 1, NextRow(env, r, s, k, a))
  {
    ReportedMoves(env, r, s, k, a);
    MeasuredMoves(env, r, s, k, a);
    PausedMoves(env, r, s, k, a);
  }

  lemma {:induction false} SessionIsKnown(env: Env, r: Trace, s: Sid, i: nat)
    requires IsRun(env, r) && i <= |r.events|
    ensures SessionKnown(env, r, s, i, SessionOf(r.states[i].core.db, s))
  {
    if i > 0 {
      SessionIsKnown(env, r, s, i - 1);
      RowMoves(env, r, s, i - 1);
      KnownMoves(env, r, s, i - 1, SessionOf(r.states[i - 1].core.db, s));
    }
  }

  /** In every state of every run: a session has a row exactly when some event reported on it.
      The row holds the project and filters of the last such event, the last model reported,
      the last token count and offset read, the number of genuine prompts, and the first Stop
      since the last of them; it is open exactly when it was touched after its last close. */
  lemma SessionOnTrace(env: Env, r: Trace, s: Sid, i: nat)
    requires IsRun(env, r) && i <= |r.events|
    ensures var db := r.states[i].core.db;
      if LastTouch(r, s, i).Some? then s in db.sessions && RowOnTrace(env, r, s, i, db.sessions[s]) else s !in db.sessions
  {
    SessionIsKnown(env, r, s, i);
  }

  /** The filters come back as reported, when they are lists the hook produces. */
  lemma FiltersReadBack(l: Option<seq<string>>)
    ensures (l.Some? ==> Columns.Clean(l.value)) <==> ReadColumn(Column(l)) == l
  {
    if l.Some? { Columns.ColumnRoundTrip(l.value); }
  }

  function PauseStart(db: Db, s: Sid): Option<int> {
    if s in db.sessions then db.sessions[s].pauseStart else None
  }

  /** The stored baseline is the first Stop since the last epoch bump. */
  lemma BaselineIsFirstStop(env: Env, r: Trace, s: Sid, i: nat)
    requires IsRun(env, r) && i <= |r.events|
    ensures PauseStart(r.states[i].core.db, s) == FirstStop(env, r, s, i)
  {
    SessionIsKnown(env, r, s, i);
  }

  /** The pause epoch counts the session's genuine prompts. */
  lemma EpochIsPauses(env: Env, r: Trace, s: Sid, i: nat)
    requires IsRun(env, r) && i <= |r.events|
    ensures EpochOf(r.states[i].core.db, s) == Pauses(env, r, s, i)
  {
    SessionIsKnown(env, r, s, i);
  }
}
