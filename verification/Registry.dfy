/** The spawn registry: fork spawns seen in a session's transcript and their completions. */
module Registry {
  import opened Text
  import opened Notification

  datatype Status = Spawned | Completed | Failed | Stopped

  /** The terminal status a notification reports, if any. */
  function Terminal(status: Option<string>): (r: Option<Status>)
    ensures r.Some? <==> status.Some? && IsTerminalStatus(status.value)
    ensures r.Some? ==> r.value != Spawned
  {
    match status
    case Some(s) =>
      if s == "completed" then Some(Completed)
      else if s == "failed" then Some(Failed)
      else if s == "stopped" then Some(Stopped)
      else None
    case None => None
  }

  datatype Spawn = Spawn(
    name: Option<string>,
    task: Option<string>,
    status: Status,
    spawnedAt: int,
    terminalAt: Option<int>)

  /** One session's spawns by tool-use id. */
  type Spawns = map<string, Spawn>

  /** What a transcript read reports. */
  datatype Delta = Delta(
    spawns: seq<(string, Option<string>)>,
    tasks: seq<(string, string)>,
    notes: seq<Note>)

  // ---- the table operations ----

  function RecordSpawn(reg: Spawns, id: string, name: Option<string>, t: int): Spawns {
    if id in reg then reg else reg[id := Spawn(name, None, Spawned, t, None)]
  }

  function SetTask(reg: Spawns, id: string, task: string): Spawns {
    if id in reg && reg[id].task.None? then reg[id := reg[id].(task := Some(task))] else reg
  }

  predicate Matches(n: Note, id: string, task: Option<string>) {
    n.toolUseId == Some(id) || (n.taskId.Some? && task == n.taskId)
  }

  /** Whether the notification is about a recorded fork spawn. */
  predicate IsForkSpawn(reg: Spawns, n: Note) {
    exists id :: id in reg && Matches(n, id, reg[id].task)
  }

  function MarkRow(row: Spawn, id: string, n: Note, t: int): Spawn {
    var s := Terminal(n.status);
    if s.Some? && row.status == Spawned && Matches(n, id, row.task)
    then row.(status := s.value, terminalAt := Some(t)) else row
  }

  /** Marks every matching unfinished spawn; a finished one keeps its first status. */
  function MarkTerminal(reg: Spawns, n: Note, t: int): Spawns {
    map id | id in reg :: MarkRow(reg[id], id, n, t)
  }

  predicate CompletedSince(reg: Spawns, fork: string, since: int) {
    exists id :: id in reg && FinishedSince(reg[id], fork, since)
  }

  predicate FinishedSince(row: Spawn, fork: string, since: int) {
    row.name == Some(fork) && row.status != Spawned && row.terminalAt.Some? && row.terminalAt.value >= since
  }

  // ---- a whole delta at once ----

  function FirstSpawn(spawns: seq<(string, Option<string>)>, id: string): (r: Option<Option<string>>)
    ensures r.Some? <==> exists k :: 0 <= k < |spawns| && spawns[k].0 == id
  {
    if spawns == [] then None
    else if spawns[0].0 == id then Some(spawns[0].1)
    else FirstSpawn(spawns[1..], id)
  }

  function FirstTask(tasks: seq<(string, string)>, id: string): (r: Option<string>)
    ensures r.Some? ==> (id, r.value) in tasks
    ensures r.None? ==> forall k :: 0 <= k < |tasks| ==> tasks[k].0 != id
  {
    if tasks == [] then None
    else if tasks[0].0 == id then Some(tasks[0].1)
    else FirstTask(tasks[1..], id)
  }

  predicate Finishes(n: Note, id: string, task: Option<string>) {
    Terminal(n.status).Some? && Matches(n, id, task)
  }

  function FirstFinish(notes: seq<Note>, id: string, task: Option<string>): (r: Option<Status>)
    ensures r.Some? <==> exists k :: 0 <= k < |notes| && Finishes(notes[k], id, task)
    ensures r != Some(Spawned)
  {
    if notes == [] then None
    else if Finishes(notes[0], id, task) then Terminal(notes[0].status)
    else FirstFinish(notes[1..], id, task)
  }

  function Known(reg: Spawns, d: Delta): set<string> {
    reg.Keys + set p | p in d.spawns :: p.0
  }

  /** A row after a delta: recorded if new, its first task id, its first completion. */
  function IngestRow(prev: Option<Spawn>, d: Delta, id: string, t: int): Spawn
    requires prev.Some? || FirstSpawn(d.spawns, id).Some?
  {
    var row := if prev.Some? then prev.value else Spawn(FirstSpawn(d.spawns, id).value, None, Spawned, t, None);
    var row := if row.task.Some? then row else row.(task := FirstTask(d.tasks, id));
    var finish := FirstFinish(d.notes, id, row.task);
    if row.status == Spawned && finish.Some? then row.(status := finish.value, terminalAt := Some(t)) else row
  }

  function Lookup(reg: Spawns, id: string): Option<Spawn> {
    if id in reg then Some(reg[id]) else None
  }

  lemma KnownMeans(reg: Spawns, d: Delta, id: string)
    ensures id in Known(reg, d) <==> id in reg || FirstSpawn(d.spawns, id).Some?
  {
    if FirstSpawn(d.spawns, id).Some? {
      var k :| 0 <= k < |d.spawns| && d.spawns[k].0 == id;
      assert d.spawns[k] in d.spawns;
    }
  }

  /** The registry after a delta, row by row. */
  function Ingest(reg: Spawns, d: Delta, t: int): Spawns {
    map id | id in Known(reg, d) :: KnownMeans(reg, d, id); IngestRow(Lookup(reg, id), d, id, t)
  }

  /** The row, if any, that a delta leaves for `id`. */
  function RowAfter(prev: Option<Spawn>, d: Delta, id: string, t: int): Option<Spawn> {
    if prev.Some? || FirstSpawn(d.spawns, id).Some? then Some(IngestRow(prev, d, id, t)) else None
  }

  lemma IngestAt(reg: Spawns, d: Delta, id: string, t: int)
    ensures Lookup(Ingest(reg, d, t), id) == RowAfter(Lookup(reg, id), d, id, t)
  {
    KnownMeans(reg, d, id);
  }

  // ---- what one delta makes of one row ----

  /** The status text and the status it stands for. */
  predicate Reports(text: Option<string>, status: Status) {
    || (text == Some("completed") && status == Completed)
    || (text == Some("failed") && status == Failed)
    || (text == Some("stopped") && status == Stopped)
  }

  lemma TerminalMeans(text: Option<string>)
    ensures forall status :: Terminal(text) == Some(status) <==> Reports(text, status)
  {}

  /** Note `n` reports that the spawn `id`, known as task `task`, ended with `status`. */
  predicate EndsSpawn(n: Note, id: string, task: Option<string>, status: Status) {
    Reports(n.status, status) && (n.toolUseId == Some(id) || (n.taskId.Some? && n.taskId == task))
  }

  /** The first entry for `id` carries `v`. */
  ghost predicate FirstEntry<V>(l: seq<(string, V)>, id: string, v: V) {
    exists k :: 0 <= k < |l| && l[k] == (id, v) && forall j :: 0 <= j < k ==> l[j].0 != id
  }

  ghost predicate NoEntry<V>(l: seq<(string, V)>, id: string) {
    forall k :: 0 <= k < |l| ==> l[k].0 != id
  }

  /** The first note that ends the spawn ends it with `status`. */
  ghost predicate FirstEnd(notes: seq<Note>, id: string, task: Option<string>, status: Status) {
    exists k :: 0 <= k < |notes| && EndsSpawn(notes[k], id, task, status) &&
      forall j, x :: 0 <= j < k ==> !EndsSpawn(notes[j], id, task, x)
  }

  ghost predicate NoEnd(notes: seq<Note>, id: string, task: Option<string>) {
    forall k, x :: 0 <= k < |notes| ==> !EndsSpawn(notes[k], id, task, x)
  }

  /** What reading delta `d` at `t` makes of a row: it appears with its first spawn entry, takes
      its first task entry if it has no task id, and, unless it ended before, ends with the
      first note about it. Nothing else changes. */
  ghost predicate RowRead(prev: Option<Spawn>, d: Delta, id: string, t: int, row: Option<Spawn>) {
    && (row.None? <==> prev.None? && NoEntry(d.spawns, id))
    && (row.Some? ==>
          var x := row.value;
          && (if prev.Some? then x.name == prev.value.name && x.spawnedAt == prev.value.spawnedAt
              else FirstEntry(d.spawns, id, x.name) && x.spawnedAt == t)
          && (if prev.Some? && prev.value.task.Some? then x.task == prev.value.task
              else if NoEntry(d.tasks, id) then x.task.None?
              else x.task.Some? && FirstEntry(d.tasks, id, x.task.value))
          && (if prev.Some? && prev.value.status != Spawned then x.status == prev.value.status && x.terminalAt == prev.value.terminalAt
              else if NoEnd(d.notes, id, x.task) then
                x.status == Spawned && x.terminalAt == (if prev.Some? then prev.value.terminalAt else None)
              else FirstEnd(d.notes, id, x.task, x.status) && x.terminalAt == Some(t)))
  }

  lemma {:induction false} FirstSpawnMeans(l: seq<(string, Option<string>)>, id: string)
    ensures if FirstSpawn(l, id).Some? then FirstEntry(l, id, FirstSpawn(l, id).value) else NoEntry(l, id)
  {
    if l != [] && l[0].0 != id {
      FirstSpawnMeans(l[1..], id);
      EntryLater(l, id);
    }
  }

  lemma {:induction false} FirstTaskMeans(l: seq<(string, string)>, id: string)
    ensures if FirstTask(l, id).Some? then FirstEntry(l, id, FirstTask(l, id).value) else NoEntry(l, id)
  {
    if l != [] && l[0].0 != id {
      FirstTaskMeans(l[1..], id);
      EntryLater(l, id);
    }
  }

  lemma EntryLater<V>(l: seq<(string, V)>, id: string)
    requires l != [] && l[0].0 != id
    ensures forall v :: FirstEntry(l[1..], id, v) ==> FirstEntry(l, id, v)
    ensures NoEntry(l[1..], id) ==> NoEntry(l, id)
  {
    forall v | FirstEntry(l[1..], id, v) ensures FirstEntry(l, id, v) {
      var k :| 0 <= k < |l[1..]| && l[1..][k] == (id, v) && forall j :: 0 <= j < k ==> l[1..][j].0 != id;
      forall j | 0 <= j < k + 1 ensures l[j].0 != id { if j > 0 { assert l[j] == l[1..][j - 1]; } }
      assert l[k + 1] == (id, v);
    }
    if NoEntry(l[1..], id) {
      forall k | 0 <= k < |l| ensures l[k].0 != id { if k > 0 { assert l[k] == l[1..][k - 1]; } }
    }
  }

  lemma FinishMeans(n: Note, id: string, task: Option<string>)
    ensures Finishes(n, id, task) <==> Terminal(n.status).Some? && EndsSpawn(n, id, task, Terminal(n.status).value)
    ensures forall x :: EndsSpawn(n, id, task, x) ==> Finishes(n, id, task) && Terminal(n.status) == Some(x)
  {
    TerminalMeans(n.status);
  }

  lemma {:induction false} FirstFinishMeans(notes: seq<Note>, id: string, task: Option<string>)
    ensures if FirstFinish(notes, id, task).Some? then FirstEnd(notes, id, task, FirstFinish(notes, id, task).value)
            else NoEnd(notes, id, task)
  {
    if notes != [] {
      FinishMeans(notes[0], id, task);
      if !Finishes(notes[0], id, task) {
        FirstFinishMeans(notes[1..], id, task);
        EndLater(notes, id, task);
      }
    }
  }

  lemma EndLater(notes: seq<Note>, id: string, task: Option<string>)
    requires notes != [] && forall x :: !EndsSpawn(notes[0], id, task, x)
    ensures forall v :: FirstEnd(notes[1..], id, task, v) ==> FirstEnd(notes, id, task, v)
    ensures NoEnd(notes[1..], id, task) ==> NoEnd(notes, id, task)
  {
    forall v | FirstEnd(notes[1..], id, task, v) ensures FirstEnd(notes, id, task, v) {
      var k :| 0 <= k < |notes[1..]| && EndsSpawn(notes[1..][k], id, task, v) &&
        forall j, x :: 0 <= j < k ==> !EndsSpawn(notes[1..][j], id, task, x);
      forall j, x | 0 <= j < k + 1 ensures !EndsSpawn(notes[j], id, task, x) {
        if j > 0 { assert notes[j] == notes[1..][j - 1]; }
      }
      assert EndsSpawn(notes[k + 1], id, task, v);
    }
    if NoEnd(notes[1..], id, task) {
      forall k, x | 0 <= k < |notes| ensures !EndsSpawn(notes[k], id, task, x) {
        if k > 0 { assert notes[k] == notes[1..][k - 1]; }
      }
    }
  }

  lemma FirstEntryHas<V>(l: seq<(string, V)>, id: string, v: V)
    requires FirstEntry(l, id, v)
    ensures !NoEntry(l, id)
  {}

  lemma FirstEndHas(notes: seq<Note>, id: string, task: Option<string>, status: Status)
    requires FirstEnd(notes, id, task, status)
    ensures !NoEnd(notes, id, task)
  {}

  /** That is what ingesting a delta does to every row. */
  lemma RowReadExactly(prev: Option<Spawn>, d: Delta, id: string, t: int)
    ensures RowRead(prev, d, id, t, RowAfter(prev, d, id, t))
  {
    FirstSpawnMeans(d.spawns, id);
    FirstTaskMeans(d.tasks, id);
    var row := RowAfter(prev, d, id, t);
    if FirstSpawn(d.spawns, id).Some? { FirstEntryHas(d.spawns, id, FirstSpawn(d.spawns, id).value); }
    if FirstTask(d.tasks, id).Some? { FirstEntryHas(d.tasks, id, FirstTask(d.tasks, id).value); }
    if row.Some? {
      FirstFinishMeans(d.notes, id, row.value.task);
      var finish := FirstFinish(d.notes, id, row.value.task);
      if finish.Some? { FirstEndHas(d.notes, id, row.value.task, finish.value); }
    }
  }

  /** What one more note makes of a row. */
  ghost predicate RowNoted(prev: Spawn, n: Note, id: string, t: int, row: Spawn) {
    if prev.status != Spawned || forall x :: !EndsSpawn(n, id, prev.task, x) then row == prev
    else row == prev.(status := row.status, terminalAt := Some(t)) && EndsSpawn(n, id, prev.task, row.status)
  }

  lemma RowNotedExactly(prev: Spawn, n: Note, id: string, t: int)
    ensures RowNoted(prev, n, id, t, MarkRow(prev, id, n, t))
  {
    FinishMeans(n, id, prev.task);
  }

  // ---- one operation at a time gives the same ----

  lemma {:induction false} FirstSpawnSnoc(s: seq<(string, Option<string>)>, p: (string, Option<string>), id: string)
    ensures FirstSpawn(s + [p], id) ==
            if FirstSpawn(s, id).Some? then FirstSpawn(s, id) else if p.0 == id then Some(p.1) else None
  {
    if s != [] {
      FirstSpawnSnoc(s[1..], p, id);
      assert (s + [p])[1..] == s[1..] + [p];
    }
  }

  lemma {:induction false} FirstTaskSnoc(s: seq<(string, string)>, p: (string, string), id: string)
    ensures FirstTask(s + [p], id) ==
            if FirstTask(s, id).Some? then FirstTask(s, id) else if p.0 == id then Some(p.1) else None
  {
    if s != [] {
      FirstTaskSnoc(s[1..], p, id);
      assert (s + [p])[1..] == s[1..] + [p];
    }
  }

  lemma {:induction false} FirstFinishSnoc(s: seq<Note>, n: Note, id: string, task: Option<string>)
    ensures FirstFinish(s + [n], id, task) ==
            if FirstFinish(s, id, task).Some? then FirstFinish(s, id, task)
            else if Finishes(n, id, task) then Terminal(n.status) else None
  {
    if s != [] {
      FirstFinishSnoc(s[1..], n, id, task);
      assert (s + [n])[1..] == s[1..] + [n];
    }
  }

  lemma IngestNothing(reg: Spawns, t: int)
    ensures Ingest(reg, Delta([], [], []), t) == reg
  {}

  lemma IngestSpawn(reg: Spawns, s: seq<(string, Option<string>)>, p: (string, Option<string>), t: int)
    ensures Ingest(reg, Delta(s + [p], [], []), t) == RecordSpawn(Ingest(reg, Delta(s, [], []), t), p.0, p.1, t)
  {
    var a, b := Ingest(reg, Delta(s + [p], [], []), t), Ingest(reg, Delta(s, [], []), t);
    forall id ensures Lookup(a, id) == Lookup(RecordSpawn(b, p.0, p.1, t), id) {
      FirstSpawnSnoc(s, p, id);
      IngestAt(reg, Delta(s + [p], [], []), id, t);
      IngestAt(reg, Delta(s, [], []), id, t);
    }
    SameLookups(a, RecordSpawn(b, p.0, p.1, t));
  }

  lemma TaskRow(prev: Option<Spawn>, d: Delta, p: (string, string), id: string, t: int)
    requires d.notes == []
    ensures RowAfter(prev, d.(tasks := d.tasks + [p]), id, t) ==
            var row := RowAfter(prev, d, id, t);
            if row.Some? && id == p.0 && row.value.task.None? then Some(row.value.(task := Some(p.1))) else row
  {
    FirstTaskSnoc(d.tasks, p, id);
  }

  lemma IngestTask(reg: Spawns, d: Delta, p: (string, string), t: int)
    requires d.notes == []
    ensures Ingest(reg, d.(tasks := d.tasks + [p]), t) == SetTask(Ingest(reg, d, t), p.0, p.1)
  {
    var d' := d.(tasks := d.tasks + [p]);
    var a, b := Ingest(reg, d', t), Ingest(reg, d, t);
    forall id ensures Lookup(a, id) == Lookup(SetTask(b, p.0, p.1), id) {
      TaskRow(Lookup(reg, id), d, p, id, t);
      IngestAt(reg, d', id, t);
      IngestAt(reg, d, id, t);
    }
    SameLookups(a, SetTask(b, p.0, p.1));
  }

  lemma IngestNote(reg: Spawns, d: Delta, n: Note, t: int)
    ensures Ingest(reg, d.(notes := d.notes + [n]), t) == MarkTerminal(Ingest(reg, d, t), n, t)
  {
    var d' := d.(notes := d.notes + [n]);
    var a, b := Ingest(reg, d', t), Ingest(reg, d, t);
    forall id ensures Lookup(a, id) == Lookup(MarkTerminal(b, n, t), id) {
      IngestAt(reg, d', id, t);
      IngestAt(reg, d, id, t);
      if id in b { FirstFinishSnoc(d.notes, n, id, b[id].task); }
    }
    SameLookups(a, MarkTerminal(b, n, t));
  }

  lemma SameLookups(a: Spawns, b: Spawns)
    requires forall id :: Lookup(a, id) == Lookup(b, id)
    ensures a == b
  {
    forall id ensures id in a <==> id in b { assert Lookup(a, id) == Lookup(b, id); }
    forall id | id in a ensures a[id] == b[id] { assert Lookup(a, id) == Lookup(b, id); }
  }

  // ---- properties ----

  lemma RowIdempotent(prev: Option<Spawn>, d: Delta, id: string, t: int, u: int)
    ensures RowAfter(RowAfter(prev, d, id, t), d, id, u) == RowAfter(prev, d, id, t)
  {}

  /** Reading the same delta again, at whatever later time, changes nothing. */
  lemma IngestIdempotent(reg: Spawns, d: Delta, t: int, u: int)
    ensures Ingest(Ingest(reg, d, t), d, u) == Ingest(reg, d, t)
  {
    var a := Ingest(reg, d, t);
    var b := Ingest(a, d, u);
    forall id ensures Lookup(b, id) == Lookup(a, id) {
      IngestAt(reg, d, id, t);
      IngestAt(a, d, id, u);
      RowIdempotent(Lookup(reg, id), d, id, t, u);
    }
    SameLookups(b, a);
  }

  /** A row as recorded, without its two timestamps. */
  datatype Facts = Facts(name: Option<string>, task: Option<string>, status: Status)

  function StripRow(row: Option<Spawn>): Option<Facts> {
    match row
    case Some(r) => Some(Facts(r.name, r.task, r.status))
    case None => None
  }

  /** The two registries agree on everything but timestamps. */
  ghost predicate SameFacts(a: Spawns, b: Spawns) {
    forall id :: StripRow(Lookup(a, id)) == StripRow(Lookup(b, id))
  }

  function Append(d: Delta, e: Delta): Delta {
    Delta(d.spawns + e.spawns, d.tasks + e.tasks, d.notes + e.notes)
  }

  lemma {:induction false} FirstSpawnAppend(s: seq<(string, Option<string>)>, r: seq<(string, Option<string>)>, id: string)
    ensures FirstSpawn(s + r, id) == if FirstSpawn(s, id).Some? then FirstSpawn(s, id) else FirstSpawn(r, id)
  {
    if s == [] {
      assert s + r == r;
    } else {
      FirstSpawnAppend(s[1..], r, id);
      assert (s + r)[1..] == s[1..] + r;
    }
  }

  lemma {:induction false} FirstTaskAppend(s: seq<(string, string)>, r: seq<(string, string)>, id: string)
    ensures FirstTask(s + r, id) == if FirstTask(s, id).Some? then FirstTask(s, id) else FirstTask(r, id)
  {
    if s == [] {
      assert s + r == r;
    } else {
      FirstTaskAppend(s[1..], r, id);
      assert (s + r)[1..] == s[1..] + r;
    }
  }

  lemma {:induction false} FirstFinishAppend(s: seq<Note>, r: seq<Note>, id: string, task: Option<string>)
    ensures FirstFinish(s + r, id, task) ==
            if FirstFinish(s, id, task).Some? then FirstFinish(s, id, task) else FirstFinish(r, id, task)
  {
    if s == [] {
      assert s + r == r;
    } else {
      FirstFinishAppend(s[1..], r, id, task);
      assert (s + r)[1..] == s[1..] + r;
    }
  }

  /** The first completion in either part. */
  function FirstOf(a: Option<Status>, b: Option<Status>): Option<Status> {
    if a.Some? then a else b
  }

  /** The row for `id` comes out the same whether `d` and `e` are read together or one after
      the other. A row `e` introduces must not have had a task id or a completion in `d` that
      `e` does not repeat. A row still open, whose task id only `e` attaches, must not have
      had a completion in `d` that only this task id matches, unless `e` repeats it. */
  predicate SplitSafe(prev: Option<Spawn>, d: Delta, e: Delta, id: string) {
    var task := FirstTask(e.tasks, id);
    var early, late := FirstFinish(d.notes, id, task), FirstFinish(e.notes, id, task);
    if prev.None? && FirstSpawn(d.spawns, id).None? then
      FirstSpawn(e.spawns, id).Some? ==>
        && (FirstTask(d.tasks, id).None? || FirstTask(d.tasks, id) == task)
        && (early.None? || early == late)
    else
      || (prev.Some? && (prev.value.status != Spawned || prev.value.task.Some?))
      || FirstTask(d.tasks, id).Some?
      || FirstOf(early, late) == FirstOf(FirstFinish(d.notes, id, None), late)
  }

  lemma SplitExisting(row: Spawn, d: Delta, e: Delta, id: string, t: int, u: int, v: int)
    ensures var whole, split := IngestRow(Some(row), Append(d, e), id, t), IngestRow(Some(IngestRow(Some(row), d, id, u)), e, id, v);
      StripRow(Some(whole)) == StripRow(Some(split)) <==> SplitSafe(Some(row), d, e, id)
  {
    FirstTaskAppend(d.tasks, e.tasks, id);
    var task := if row.task.Some? then row.task else FirstTask(Append(d, e).tasks, id);
    FirstFinishAppend(d.notes, e.notes, id, task);
  }

  lemma SplitNew(d: Delta, e: Delta, id: string, t: int, v: int)
    requires FirstSpawn(d.spawns, id).None? && FirstSpawn(e.spawns, id).Some?
    ensures StripRow(RowAfter(None, Append(d, e), id, t)) == StripRow(RowAfter(None, e, id, v)) <==> SplitSafe(None, d, e, id)
  {
    FirstSpawnAppend(d.spawns, e.spawns, id);
    FirstTaskAppend(d.tasks, e.tasks, id);
    FirstFinishAppend(d.notes, e.notes, id, FirstTask(Append(d, e).tasks, id));
  }

  /** The split, one row at a time. */
  lemma SplitRow(prev: Option<Spawn>, d: Delta, e: Delta, id: string, t: int, u: int, v: int)
    ensures StripRow(RowAfter(prev, Append(d, e), id, t)) == StripRow(RowAfter(RowAfter(prev, d, id, u), e, id, v)) <==>
            SplitSafe(prev, d, e, id)
  {
    FirstSpawnAppend(d.spawns, e.spawns, id);
    if prev.Some? {
      SplitExisting(prev.value, d, e, id, t, u, v);
    } else if FirstSpawn(d.spawns, id).Some? {
      SplitExisting(Spawn(FirstSpawn(d.spawns, id).value, None, Spawned, t, None), d, e, id, t, u, v);
      SplitExisting(Spawn(FirstSpawn(d.spawns, id).value, None, Spawned, u, None), d, e, id, u, u, v);
    } else if FirstSpawn(e.spawns, id).Some? {
      SplitNew(d, e, id, t, v);
    }
  }

  /** Reading a delta in two parts gives the same registry, up to timestamps, exactly when
      every row is safe to split. */
  lemma SplitsExactly(reg: Spawns, d: Delta, e: Delta, t: int, u: int, v: int)
    ensures SameFacts(Ingest(reg, Append(d, e), t), Ingest(Ingest(reg, d, u), e, v)) <==>
            forall id :: SplitSafe(Lookup(reg, id), d, e, id)
  {
    var a, mid := Ingest(reg, Append(d, e), t), Ingest(reg, d, u);
    var b := Ingest(mid, e, v);
    forall id ensures StripRow(Lookup(a, id)) == StripRow(Lookup(b, id)) <==> SplitSafe(Lookup(reg, id), d, e, id) {
      IngestAt(reg, Append(d, e), id, t);
      IngestAt(reg, d, id, u);
      IngestAt(mid, e, id, v);
      SplitRow(Lookup(reg, id), d, e, id, t, u, v);
    }
  }

  /** A spawn first seen in `e` was mentioned by no task id or completion of `d`. */
  ghost predicate SpawnsPrecede(reg: Spawns, d: Delta, e: Delta) {
    forall id :: id !in reg && FirstSpawn(d.spawns, id).None? && FirstSpawn(e.spawns, id).Some? ==>
      && FirstTask(d.tasks, id).None?
      && forall k :: 0 <= k < |d.notes| && Terminal(d.notes[k].status).Some? ==> d.notes[k].toolUseId != Some(id)
  }

  /** A task id first attached by `e` was mentioned by no completion of `d`. */
  ghost predicate TasksPrecede(d: Delta, e: Delta) {
    forall p :: p in e.tasks && FirstTask(d.tasks, p.0).None? ==>
      forall k :: 0 <= k < |d.notes| && Terminal(d.notes[k].status).Some? ==> d.notes[k].taskId != Some(p.1)
  }

  lemma {:induction false} SameFinish(notes: seq<Note>, id: string, a: Option<string>, b: Option<string>)
    requires forall k :: 0 <= k < |notes| ==> (Finishes(notes[k], id, a) <==> Finishes(notes[k], id, b))
    ensures FirstFinish(notes, id, a) == FirstFinish(notes, id, b)
  {
    if notes != [] { SameFinish(notes[1..], id, a, b); }
  }

  lemma PrecedingIsSafe(reg: Spawns, d: Delta, e: Delta, id: string)
    requires SpawnsPrecede(reg, d, e) && TasksPrecede(d, e)
    ensures SplitSafe(Lookup(reg, id), d, e, id)
  {
    var task := FirstTask(e.tasks, id);
    if FirstTask(d.tasks, id).None? && task.Some? {
      assert (id, task.value) in e.tasks;
      SameFinish(d.notes, id, task, None);
    }
  }

  /** In particular when nothing in the first part refers ahead to a spawn or task id of the
      second. */
  lemma IngestSplits(reg: Spawns, d: Delta, e: Delta, t: int, u: int, v: int)
    requires SpawnsPrecede(reg, d, e) && TasksPrecede(d, e)
    ensures SameFacts(Ingest(reg, Append(d, e), t), Ingest(Ingest(reg, d, u), e, v))
  {
    SplitsExactly(reg, d, e, t, u, v);
    forall id ensures SplitSafe(Lookup(reg, id), d, e, id) { PrecedingIsSafe(reg, d, e, id); }
  }

  /** The proviso is needed: a completion read ahead of its spawn is lost by the split. */
  lemma SplitCanLose(id: string, t: int)
    ensures var note := Note(Some(id), None, Some("completed"));
      var d, e := Delta([], [], [note]), Delta([(id, None)], [], []);
      Ingest(map[], Append(d, e), t)[id].status == Completed &&
      Ingest(Ingest(map[], d, t), e, t)[id].status == Spawned
  {
    var note := Note(Some(id), None, Some("completed"));
    var d, e := Delta([], [], [note]), Delta([(id, None)], [], []);
    assert Append(d, e) == Delta([(id, None)], [], [note]);
    assert Finishes(note, id, None);
    KnownMeans(map[], Append(d, e), id);
    KnownMeans(Ingest(map[], d, t), e, id);
    assert Ingest(map[], d, t) == map[];
  }

  /** Rows are only added; a finished one and every id once set stay as they are. */
  ghost predicate Evolves(a: Spawns, b: Spawns) {
    forall id :: id in a ==>
      && id in b
      && b[id].name == a[id].name
      && b[id].spawnedAt == a[id].spawnedAt
      && (a[id].task.Some? ==> b[id].task == a[id].task)
      && (a[id].status != Spawned ==> b[id].status == a[id].status && b[id].terminalAt == a[id].terminalAt)
  }

  lemma IngestEvolves(reg: Spawns, d: Delta, t: int)
    ensures Evolves(reg, Ingest(reg, d, t))
  {
    forall id | id in reg ensures id in Ingest(reg, d, t) { KnownMeans(reg, d, id); }
  }

  lemma MarkEvolves(reg: Spawns, n: Note, t: int)
    ensures Evolves(reg, MarkTerminal(reg, n, t))
  {}

  lemma EvolvesTrans(a: Spawns, b: Spawns, c: Spawns)
    requires Evolves(a, b) && Evolves(b, c)
    ensures Evolves(a, c)
  {}
}
