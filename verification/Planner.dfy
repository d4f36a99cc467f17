/** The selection pipeline: which forks fire, what issuing a wake stamps, and which held
    dependents a Stop releases. */
module Planner {
  import opened Text
  import opened Fork
  import opened Moments
  import opened Registry
  import opened Store
  import Columns
  import Schedule

  datatype Config = Config(
    defaultIdle: u64,
    tagThrottles: map<string, u64>,
    enable: Option<seq<string>>,
    disable: Option<seq<string>>)

  /** The session as the poll captured it, with its project's configuration. */
  datatype Ctx = Ctx(
    sid: Sid,
    root: string,
    enable: Option<seq<string>>,
    disable: Option<seq<string>>,
    epoch: nat,
    cfg: Config)

  /** Readable fork definitions by path. */
  type Files = map<string, ForkDef>

  datatype Selected = Selected(
    name: string,
    path: string,
    trigger: string,
    overlap: bool,
    after: seq<string>,
    tags: seq<string>,
    key: Option<string>)

  /** A spawn-now instruction in a wake or release. */
  datatype Block = Block(name: string, path: string, trigger: string, overlap: bool, after: seq<string>)

  // ---- selection ----

  predicate Share(a: seq<string>, b: seq<string>) {
    exists i :: 0 <= i < |a| && a[i] in b
  }

  /** Disable wins; a nonempty enable list admits only forks it names a tag of. */
  predicate TagsAllowed(tags: seq<string>, enable: Option<seq<string>>, disable: Option<seq<string>>) {
    && !(disable.Some? && Share(tags, disable.value))
    && (enable.Some? && enable.value != [] ==> Share(tags, enable.value))
  }

  /** Whether `t` is still inside a window opened at `at`; a clock behind `at` counts as inside. */
  predicate Within(t: int, at: int, window: u64) {
    (if t - at < 0 then 0 else t - at) < AsI64(window)
  }

  /** A window is enforced as written exactly when it fits an `i64`; a larger one is never
      enforced at all. */
  lemma WindowExact(window: u64)
    ensures (forall t: int, at: int :: Within(t, at, window) <==> (if t < at then 0 else t - at) < window) <==> window < I64_LIMIT
    ensures window >= I64_LIMIT ==> forall t: int, at: int :: !Within(t, at, window)
  {
    if window >= I64_LIMIT { assert !Within(0, 0, window); }
  }

  predicate ForkThrottled(def: ForkDef, row: RosterRow, t: int) {
    def.throttle.Some? && row.ranAt.Some? && Within(t, row.ranAt.value, def.throttle.value)
  }

  /** Some issue in the project of a fork carrying a throttled tag is still inside the window. */
  ghost predicate TagThrottledBy(db: Db, ctx: Ctx, tag: string, t: int) {
    && tag in ctx.cfg.tagThrottles
    && exists i :: 0 <= i < |db.runs| && InProject(db, db.runs[i], ctx.root) && Carries(db.runs[i], tag)
         && Within(t, db.runs[i].at, ctx.cfg.tagThrottles[tag])
  }

  ghost predicate TagThrottled(db: Db, ctx: Ctx, tags: seq<string>, t: int) {
    exists k :: 0 <= k < |tags| && TagThrottledBy(db, ctx, tags[k], t)
  }

  function Enable(ctx: Ctx): Option<seq<string>> {
    if ctx.enable.Some? then ctx.enable else ctx.cfg.enable
  }

  function Disable(ctx: Ctx): Option<seq<string>> {
    if ctx.disable.Some? then ctx.disable else ctx.cfg.disable
  }

  predicate Latched(db: Db, ctx: Ctx, name: string, key: Option<string>) {
    key.Some? && Latch(ctx.sid, name, key.value) in db.fires
  }

  function Trigger(def: ForkDef, ctx: Ctx, moments: seq<Moment>): Option<RunOn> {
    MatchMoments(def.runOn, moments, ctx.cfg.defaultIdle)
  }

  /** The rostered fork fires now. */
  ghost predicate Fires(db: Db, files: Files, ctx: Ctx, moments: seq<Moment>, t: int, name: string) {
    && (ctx.sid, name) in db.roster
    && db.roster[(ctx.sid, name)].path in files
    && var row := db.roster[(ctx.sid, name)];
       var def := files[row.path];
       var trigger := Trigger(def, ctx, moments);
       && TagsAllowed(def.tags, Enable(ctx), Disable(ctx))
       && trigger.Some?
       && !ForkThrottled(def, row, t)
       && !TagThrottled(db, ctx, def.tags, t)
       && !Latched(db, ctx, name, LatchKey(trigger.value, ctx.epoch))
  }

  function Pick(path: string, def: ForkDef, ctx: Ctx, trigger: RunOn, name: string): Selected {
    Selected(name, path, trigger.Label(), def.overlap, def.after, def.tags, LatchKey(trigger, ctx.epoch))
  }

  /** What a firing fork is selected as. */
  ghost function PickOf(db: Db, files: Files, ctx: Ctx, moments: seq<Moment>, t: int, name: string): Selected
    requires Fires(db, files, ctx, moments, t, name)
  {
    var row := db.roster[(ctx.sid, name)];
    var def := files[row.path];
    Pick(row.path, def, ctx, Trigger(def, ctx, moments).value, name)
  }

  /** The firing forks, in roster order. */
  ghost function Select(db: Db, files: Files, ctx: Ctx, moments: seq<Moment>, t: int, order: seq<string>): seq<Selected> {
    if order == [] then []
    else
      var rest := Select(db, files, ctx, moments, t, order[..|order| - 1]);
      var name := order[|order| - 1];
      if Fires(db, files, ctx, moments, t, name) then rest + [PickOf(db, files, ctx, moments, t, name)] else rest
  }

  /** The member is as its roster row and its file say. */
  ghost predicate AsFiled(db: Db, files: Files, ctx: Ctx, x: Selected) {
    && (ctx.sid, x.name) in db.roster && x.path == db.roster[(ctx.sid, x.name)].path && x.path in files
    && var def := files[x.path];
       && x.after == def.after && x.overlap == def.overlap && x.tags == def.tags
       && exists k :: 0 <= k < |def.runOn| && x.trigger == def.runOn[k].Label() && x.key == LatchKey(def.runOn[k], ctx.epoch)
  }

  lemma PickIsFiled(db: Db, files: Files, ctx: Ctx, moments: seq<Moment>, t: int, name: string)
    requires Fires(db, files, ctx, moments, t, name)
    ensures AsFiled(db, files, ctx, PickOf(db, files, ctx, moments, t, name))
  {}

  ghost predicate DistinctNames(sel: seq<Selected>) {
    forall i, j :: 0 <= i < j < |sel| ==> sel[i].name != sel[j].name
  }

  /** A batch holds forks that fire, each once. */
  ghost predicate SoundBatch(db: Db, files: Files, ctx: Ctx, moments: seq<Moment>, t: int, sel: seq<Selected>) {
    && DistinctNames(sel)
    && forall i :: 0 <= i < |sel| ==>
         Fires(db, files, ctx, moments, t, sel[i].name) && sel[i] == PickOf(db, files, ctx, moments, t, sel[i].name)
  }

  lemma {:induction false} SelectSound(db: Db, files: Files, ctx: Ctx, moments: seq<Moment>, t: int, order: seq<string>)
    requires Columns.Distinct(order)
    ensures var sel := Select(db, files, ctx, moments, t, order);
      && SoundBatch(db, files, ctx, moments, t, sel)
      && (forall i :: 0 <= i < |sel| ==> sel[i].name in order)
      && (forall name :: name in order && Fires(db, files, ctx, moments, t, name) ==>
            exists i :: 0 <= i < |sel| && sel[i].name == name)
  {
    if order != [] {
      var front, name := order[..|order| - 1], order[|order| - 1];
      SelectSound(db, files, ctx, moments, t, front);
      var rest, sel := Select(db, files, ctx, moments, t, front), Select(db, files, ctx, moments, t, order);
      assert forall x :: x in order <==> x in front || x == name;
      if Fires(db, files, ctx, moments, t, name) {
        assert sel[|rest|].name == name;
        assert forall i :: 0 <= i < |rest| ==> sel[i] == rest[i] && rest[i].name != name;
      }
    }
  }

  /** The latest tagged run is inside the window exactly when some tagged run is. */
  lemma LastRunDecides(db: Db, ctx: Ctx, tag: string, t: int, last: Option<int>)
    requires tag in ctx.cfg.tagThrottles && IsLastRun(db, ctx.root, tag, last)
    ensures TagThrottledBy(db, ctx, tag, t) <==> (last.Some? && Within(t, last.value, ctx.cfg.tagThrottles[tag]))
  {
    if last.Some? && Within(t, last.value, ctx.cfg.tagThrottles[tag]) {
      var i :| 0 <= i < |db.runs| && InProject(db, db.runs[i], ctx.root) && Carries(db.runs[i], tag) && db.runs[i].at == last.value;
    }
  }

  method IsTagThrottled(store: Store, ctx: Ctx, tags: seq<string>, t: int) returns (hit: bool)
    ensures hit <==> TagThrottled(store.View(), ctx, tags, t)
  {
    hit := false;
    for k := 0 to |tags|
      invariant hit <==> exists j :: 0 <= j < k && TagThrottledBy(store.View(), ctx, tags[j], t)
    {
      if tags[k] in ctx.cfg.tagThrottles {
        var last := store.LastRunForTag(ctx.root, tags[k]);
        LastRunDecides(store.View(), ctx, tags[k], t, last);
        if last.Some? && Within(t, last.value, ctx.cfg.tagThrottles[tags[k]]) { hit := true; }
      }
    }
  }

  method RefreshRoster(store: Store, sid: Sid, entries: seq<(string, string)>, t: int)
    modifies store
    ensures store.View() == QueueAll(old(store.View()), sid, entries, t)
  {
    for i := 0 to |entries|
      invariant store.View() == QueueAll(old(store.View()), sid, entries[..i], t)
    {
      assert entries[..i + 1][..i] == entries[..i];
      var _ := store.Queue(sid, entries[i].0, entries[i].1, t);
    }
    assert entries[..|entries|] == entries;
  }

  /** Runs the pipeline over the session's roster; nothing is stamped here. */
  method SelectForks(store: Store, files: Files, ctx: Ctx, moments: seq<Moment>, t: int, order: seq<string>)
    returns (selected: seq<Selected>)
    requires Enumerates(order, store.View(), ctx.sid)
    ensures selected == Select(store.View(), files, ctx, moments, t, order)
    ensures forall i :: 0 <= i < |selected| ==> AsFiled(store.View(), files, ctx, selected[i])
  {
    selected := [];
    for i := 0 to |order|
      invariant selected == Select(store.View(), files, ctx, moments, t, order[..i])
      invariant forall j :: 0 <= j < |selected| ==> AsFiled(store.View(), files, ctx, selected[j])
    {
      assert order[..i + 1][..i] == order[..i];
      var name := order[i];
      assert name in order;
      var row := store.roster[(ctx.sid, name)];
      if row.path !in files { continue; }
      var def := files[row.path];
      if !TagsAllowed(def.tags, Enable(ctx), Disable(ctx)) { continue; }
      var trigger := MatchMoments(def.runOn, moments, ctx.cfg.defaultIdle);
      if trigger.None? { continue; }
      if ForkThrottled(def, row, t) { continue; }
      var hit := IsTagThrottled(store, ctx, def.tags, t);
      if hit { continue; }
      var key := LatchKey(trigger.value, ctx.epoch);
      if key.Some? && Latch(ctx.sid, name, key.value) in store.fires { continue; }
      PickIsFiled(store.View(), files, ctx, moments, t, name);
      selected := selected + [Pick(row.path, def, ctx, trigger.value, name)];
    }
    assert order[..|order|] == order;
  }

  /** Waiting out the debounce with an unchanged store only adds forks: everything due
      before it is due after it, under the same trigger. */
  lemma DebounceKeepsSelection(db: Db, files: Files, ctx: Ctx, gauge: Option<u64>, window: u64, base: int,
                               deadlines: seq<u64>, t: int, u: int, name: string)
    requires Clock(base) && Ascending(deadlines) && Uniform(base, deadlines) && t <= u
    requires Fires(db, files, ctx, ElapsedMoments(gauge, window, base, deadlines, t), t, name)
    ensures Fires(db, files, ctx, ElapsedMoments(gauge, window, base, deadlines, u), u, name)
    ensures PickOf(db, files, ctx, ElapsedMoments(gauge, window, base, deadlines, u), u, name) ==
            PickOf(db, files, ctx, ElapsedMoments(gauge, window, base, deadlines, t), t, name)
  {
    var def := files[db.roster[(ctx.sid, name)].path];
    DebounceOnlyAdds(def.runOn, gauge, window, base, deadlines, t, u, ctx.cfg.defaultIdle);
    forall k | 0 <= k < |def.tags| ensures !TagThrottledBy(db, ctx, def.tags[k], u) {
      assert !TagThrottledBy(db, ctx, def.tags[k], t);
    }
  }

  /** Nothing else keeps the fork from firing: it is rostered, readable, allowed and not
      throttled, an idle deadline of it has elapsed, and this pause's latch is free. */
  ghost predicate IdleReady(db: Db, files: Files, ctx: Ctx, base: int, deadlines: seq<u64>, t: int, name: string) {
    && (ctx.sid, name) in db.roster && db.roster[(ctx.sid, name)].path in files
    && var row := db.roster[(ctx.sid, name)];
       var def := files[row.path];
       && TagsAllowed(def.tags, Enable(ctx), Disable(ctx))
       && !ForkThrottled(def, row, t) && !TagThrottled(db, ctx, def.tags, t)
       && Trigger(def, ctx, Elapsed(base, deadlines, t)).Some?
       && Latch(ctx.sid, name, IdleKey(ctx.epoch)) !in db.fires
  }

  /** Trigger masking: such a fork fires exactly unless the gauge meets a context trigger of
      it whose latch is already consumed. */
  lemma MaskedExactly(db: Db, files: Files, ctx: Ctx, gauge: Option<u64>, window: u64, base: int, deadlines: seq<u64>,
                      t: int, name: string)
    requires IdleReady(db, files, ctx, base, deadlines, t, name)
    ensures var c := GaugeTrigger(files[db.roster[(ctx.sid, name)].path].runOn, gauge, window, ctx.cfg.defaultIdle);
      Fires(db, files, ctx, ElapsedMoments(gauge, window, base, deadlines, t), t, name) <==>
      !(c.Some? && Latch(ctx.sid, name, c.value.Label()) in db.fires)
  {
    var def := files[db.roster[(ctx.sid, name)].path];
    GaugeGoesFirst(def.runOn, gauge, window, base, deadlines, t, ctx.cfg.defaultIdle);
    IdleMatchIsIdle(def.runOn, base, deadlines, t, ctx.cfg.defaultIdle);
  }

  /** A masked fork: past 100 tokens, that threshold latched, its 60 idle seconds pass in a
      pause it has not been issued in, and it does not fire. */
  lemma MaskedExample(epoch: nat)
    ensures var trigger := ContextTokens(100);
      var files: Files := map["/f" := ForkDef([trigger, Idle(Some(60))], None, [], false, [])];
      var db := EMPTY.(roster := map[("s", "f") := RosterRow("/f", 0, None)], fires := {Latch("s", "f", trigger.Label())});
      var ctx := Ctx("s", "/", None, None, epoch, Config(0, map[], None, None));
      && IdleReady(db, files, ctx, 0, [60], 60, "f")
      && !Fires(db, files, ctx, ElapsedMoments(Some(200), 200_000, 0, [60], 60), 60, "f")
  {
    var trigger := ContextTokens(100);
    var runOn := [trigger, Idle(Some(60))];
    var files: Files := map["/f" := ForkDef(runOn, None, [], false, [])];
    var db := EMPTY.(roster := map[("s", "f") := RosterRow("/f", 0, None)], fires := {Latch("s", "f", trigger.Label())});
    var ctx := Ctx("s", "/", None, None, epoch, Config(0, map[], None, None));
    assert [60 as u64][..0] == [];
    assert IdleFor(60) in Elapsed(0, [60], 60);
    assert Hit(IdleFor(60), runOn[1], 0);
    LatchKeyInjective(trigger, epoch, Idle(None), epoch);
    MaskedExactly(db, files, ctx, Some(200), 200_000, 0, [60], 60, "f");
  }

  // ---- issuing a wake ----

  function Nodes(sel: seq<Selected>): seq<Schedule.Node> {
    seq(|sel|, (i: nat) requires i < |sel| => Schedule.Node(sel[i].name, sel[i].after))
  }

  /** The resolved dependency graph of a batch. */
  ghost function Deps(sel: seq<Selected>): (g: Schedule.Graph)
    ensures |g| == |sel| && Schedule.WellIndexed(g) && Schedule.Acyclic(g)
  {
    Schedule.NameGraphWellIndexed(Nodes(sel));
    Schedule.ResolveCorrect(Schedule.NameGraph(Nodes(sel)));
    Schedule.Resolve(Schedule.NameGraph(Nodes(sel)))
  }

  ghost predicate Graphed(sel: seq<Selected>, deps: Schedule.Graph) {
    |deps| == |sel| && Schedule.WellIndexed(deps)
  }

  /** The predecessor names of one batch member. */
  function Preds(sel: seq<Selected>, d: seq<nat>): (r: seq<string>)
    requires forall k :: 0 <= k < |d| ==> d[k] < |sel|
    ensures |r| == |d| && forall k :: 0 <= k < |d| ==> r[k] == sel[d[k]].name
  {
    seq(|d|, (k: nat) requires k < |d| => sel[d[k]].name)
  }

  function TagColumn(tags: seq<string>): Option<string> {
    if tags == [] then None else Some(Columns.Join(tags))
  }

  function RunOf(sid: Sid, s: Selected, t: int): Run {
    Run(sid, s.name, s.trigger, TagColumn(s.tags), t)
  }

  function HeldRow(s: Selected, preds: seq<string>, t: int): Pending {
    Pending(s.path, s.trigger, s.overlap, Columns.Join(preds), t)
  }

  /** `name` is one of the first `n` batch members. */
  ghost predicate Named(sel: seq<Selected>, n: nat, name: string) {
    exists i :: 0 <= i < n && i < |sel| && sel[i].name == name
  }

  ghost function HeldRows(sid: Sid, sel: seq<Selected>, deps: Schedule.Graph, t: int, n: nat): map<Key, Pending>
    requires n <= |sel| && Graphed(sel, deps) && DistinctNames(sel)
  {
    map i | 0 <= i < n && deps[i] != [] :: (sid, sel[i].name) := HeldRow(sel[i], Preds(sel, deps[i]), t)
  }

  ghost function Latches(sid: Sid, sel: seq<Selected>, n: nat): set<Latch>
    requires n <= |sel|
  {
    set i | 0 <= i < n && sel[i].key.Some? :: Latch(sid, sel[i].name, sel[i].key.value)
  }

  ghost function RunRows(sid: Sid, sel: seq<Selected>, t: int, n: nat): seq<Run>
    requires n <= |sel|
  {
    seq(n, (i: nat) requires i < n => RunOf(sid, sel[i], t))
  }

  ghost function Touched(roster: map<Key, RosterRow>, sid: Sid, sel: seq<Selected>, t: int, n: nat): map<Key, RosterRow> {
    map k | k in roster :: if k.0 == sid && Named(sel, n, k.1) then roster[k].(ranAt := Some(t)) else roster[k]
  }

  /** The tables once the first `n` members have been stamped. */
  ghost function Stamped(db: Db, sid: Sid, sel: seq<Selected>, deps: Schedule.Graph, t: int, n: nat): Db
    requires n <= |sel| && Graphed(sel, deps) && DistinctNames(sel)
  {
    Db(db.sessions,
       Touched(db.roster, sid, sel, t, n),
       db.fires + Latches(sid, sel, n),
       db.runs + RunRows(sid, sel, t, n),
       db.spawns,
       db.pending + HeldRows(sid, sel, deps, t, n))
  }

  /** Issuing a batch stamps every member, dependents included. */
  ghost function IssueDb(db: Db, sid: Sid, sel: seq<Selected>, t: int): Db
    requires DistinctNames(sel)
  {
    Stamped(db, sid, sel, Deps(sel), t, |sel|)
  }

  function RootBlock(s: Selected): Block {
    Block(s.name, s.path, s.trigger, s.overlap, [])
  }

  /** The spawn-now blocks of the first `n` members: those without predecessors. */
  ghost function RootBlocks(sel: seq<Selected>, deps: Schedule.Graph, n: nat): seq<Block>
    requires n <= |sel| == |deps|
  {
    if n == 0 then []
    else RootBlocks(sel, deps, n - 1) + if deps[n - 1] == [] then [RootBlock(sel[n - 1])] else []
  }

  /** A nonempty batch always delivers something at once. */
  lemma IssueHasRoot(sel: seq<Selected>) returns (i: nat)
    requires sel != []
    ensures i < |sel| && Deps(sel)[i] == []
    ensures RootBlocks(sel, Deps(sel), |sel|) != []
  {
    i := Schedule.HasRoot(Deps(sel));
    RootBlocksHas(sel, Deps(sel), |sel|, i);
  }

  lemma {:induction false} RootBlocksHas(sel: seq<Selected>, deps: Schedule.Graph, n: nat, i: nat)
    requires i < n <= |sel| == |deps| && deps[i] == []
    ensures RootBlock(sel[i]) in RootBlocks(sel, deps, n)
  {
    if i < n - 1 { RootBlocksHas(sel, deps, n - 1, i); }
  }

  // Stamping one more member, table by table.

  lemma StampTouched(roster: map<Key, RosterRow>, sid: Sid, sel: seq<Selected>, t: int, n: nat)
    requires n < |sel|
    ensures var a, k := Touched(roster, sid, sel, t, n), (sid, sel[n].name);
      Touched(roster, sid, sel, t, n + 1) == if k in a then a[k := a[k].(ranAt := Some(t))] else a
  {
    forall name ensures Named(sel, n + 1, name) <==> Named(sel, n, name) || name == sel[n].name {}
  }

  lemma StampLatch(sid: Sid, sel: seq<Selected>, n: nat)
    requires n < |sel|
    ensures Latches(sid, sel, n + 1) ==
            Latches(sid, sel, n) + if sel[n].key.Some? then {Latch(sid, sel[n].name, sel[n].key.value)} else {}
  {}

  lemma StampHeldAt(sid: Sid, sel: seq<Selected>, deps: Schedule.Graph, t: int, n: nat, k: Key)
    requires n < |sel| && Graphed(sel, deps) && DistinctNames(sel)
    ensures var a, b := HeldRows(sid, sel, deps, t, n), HeldRows(sid, sel, deps, t, n + 1);
      if k == (sid, sel[n].name) && deps[n] != [] then k in b && b[k] == HeldRow(sel[n], Preds(sel, deps[n]), t)
      else (k in b <==> k in a) && (k in b ==> b[k] == a[k])
  {}

  lemma RowUpdated<K, V>(a: map<K, V>, b: map<K, V>, k0: K, v: V)
    requires k0 in b && b[k0] == v
    requires forall k :: k != k0 ==> (k in b <==> k in a) && (k in b ==> b[k] == a[k])
    ensures b == a[k0 := v]
  {}

  lemma SameRows<K, V>(a: map<K, V>, b: map<K, V>)
    requires forall k :: (k in b <==> k in a) && (k in b ==> b[k] == a[k])
    ensures b == a
  {}

  lemma StampHeld(sid: Sid, sel: seq<Selected>, deps: Schedule.Graph, t: int, n: nat)
    requires n < |sel| && Graphed(sel, deps) && DistinctNames(sel)
    ensures var a, b := HeldRows(sid, sel, deps, t, n), HeldRows(sid, sel, deps, t, n + 1);
      b == if deps[n] == [] then a else a[(sid, sel[n].name) := HeldRow(sel[n], Preds(sel, deps[n]), t)]
  {
    var a, b, k0 := HeldRows(sid, sel, deps, t, n), HeldRows(sid, sel, deps, t, n + 1), (sid, sel[n].name);
    if deps[n] == [] {
      forall k ensures (k in b <==> k in a) && (k in b ==> b[k] == a[k]) { StampHeldAt(sid, sel, deps, t, n, k); }
      SameRows(a, b);
    } else {
      StampHeldAt(sid, sel, deps, t, n, k0);
      forall k | k != k0 ensures (k in b <==> k in a) && (k in b ==> b[k] == a[k]) { StampHeldAt(sid, sel, deps, t, n, k); }
      RowUpdated(a, b, k0, HeldRow(sel[n], Preds(sel, deps[n]), t));
    }
  }

  lemma AddRow<K, V>(m: map<K, V>, a: map<K, V>, k: K, v: V)
    ensures m + a[k := v] == (m + a)[k := v]
  {}

  lemma StampRuns(runs: seq<Run>, sid: Sid, sel: seq<Selected>, t: int, n: nat)
    requires n < |sel|
    ensures runs + RunRows(sid, sel, t, n + 1) == (runs + RunRows(sid, sel, t, n)) + [RunOf(sid, sel[n], t)]
  {
    assert RunRows(sid, sel, t, n + 1) == RunRows(sid, sel, t, n) + [RunOf(sid, sel[n], t)];
  }

  lemma StampPending(pending: map<Key, Pending>, sid: Sid, sel: seq<Selected>, deps: Schedule.Graph, t: int, n: nat)
    requires n < |sel| && Graphed(sel, deps) && DistinctNames(sel)
    ensures var a, preds := pending + HeldRows(sid, sel, deps, t, n), Preds(sel, deps[n]);
      pending + HeldRows(sid, sel, deps, t, n + 1) ==
      if preds == [] then a else a[(sid, sel[n].name) := HeldRow(sel[n], preds, t)]
  {
    StampHeld(sid, sel, deps, t, n);
    AddRow(pending, HeldRows(sid, sel, deps, t, n), (sid, sel[n].name), HeldRow(sel[n], Preds(sel, deps[n]), t));
  }

  lemma StampNone(db: Db, sid: Sid, sel: seq<Selected>, deps: Schedule.Graph, t: int)
    requires Graphed(sel, deps) && DistinctNames(sel)
    ensures Stamped(db, sid, sel, deps, t, 0) == db
  {
    assert db.pending + HeldRows(sid, sel, deps, t, 0) == db.pending;
    assert Touched(db.roster, sid, sel, t, 0) == db.roster;
  }

  /** The tables after stamping one member: throttle, run row, latch, and a hold when it
      has predecessors. */
  function StampOne(db: Db, sid: Sid, s: Selected, preds: seq<string>, t: int): Db {
    var k := (sid, s.name);
    Db(db.sessions,
       if k in db.roster then db.roster[k := db.roster[k].(ranAt := Some(t))] else db.roster,
       db.fires + (if s.key.Some? then {Latch(sid, s.name, s.key.value)} else {}),
       db.runs + [RunOf(sid, s, t)],
       db.spawns,
       if preds == [] then db.pending else db.pending[k := HeldRow(s, preds, t)])
  }

  ghost function StampedInTurn(db: Db, sid: Sid, sel: seq<Selected>, deps: Schedule.Graph, t: int, n: nat): Db
    requires n <= |sel| && Graphed(sel, deps)
  {
    if n == 0 then db
    else StampOne(StampedInTurn(db, sid, sel, deps, t, n - 1), sid, sel[n - 1], Preds(sel, deps[n - 1]), t)
  }

  lemma StampNext(db: Db, sid: Sid, sel: seq<Selected>, deps: Schedule.Graph, t: int, n: nat, a: Db)
    requires n < |sel| && Graphed(sel, deps) && DistinctNames(sel)
    requires a == Stamped(db, sid, sel, deps, t, n)
    ensures StampOne(a, sid, sel[n], Preds(sel, deps[n]), t) == Stamped(db, sid, sel, deps, t, n + 1)
  {
    StampTouched(db.roster, sid, sel, t, n);
    StampLatch(sid, sel, n);
    StampRuns(db.runs, sid, sel, t, n);
    StampPending(db.pending, sid, sel, deps, t, n);
  }

  /** Stamping in turn amounts to stamping the batch as a whole. */
  lemma {:induction false} InTurnIsWhole(db: Db, sid: Sid, sel: seq<Selected>, deps: Schedule.Graph, t: int, n: nat)
    requires n <= |sel| && Graphed(sel, deps) && DistinctNames(sel)
    ensures StampedInTurn(db, sid, sel, deps, t, n) == Stamped(db, sid, sel, deps, t, n)
  {
    if n == 0 {
      StampNone(db, sid, sel, deps, t);
    } else {
      InTurnIsWhole(db, sid, sel, deps, t, n - 1);
      StampNext(db, sid, sel, deps, t, n - 1, StampedInTurn(db, sid, sel, deps, t, n - 1));
    }
  }

  method StampMember(store: Store, sid: Sid, s: Selected, preds: seq<string>, t: int)
    modifies store
    ensures store.View() == StampOne(old(store.View()), sid, s, preds, t)
  {
    store.TouchForkRan(sid, s.name, t);
    store.RecordIssuedRun(sid, s.name, s.trigger, TagColumn(s.tags), t);
    if s.key.Some? { var _ := store.TryLatchFire(sid, s.name, s.key.value); }
    if preds != [] { store.InsertPendingDep(sid, s.name, HeldRow(s, preds, t)); }
  }

  /** Stamps the members one after the other, collecting those that can start at once. */
  method StampBatch(store: Store, sid: Sid, sel: seq<Selected>, deps: Schedule.Graph, t: int)
    returns (blocks: seq<Block>)
    requires Graphed(sel, deps)
    modifies store
    ensures store.View() == StampedInTurn(old(store.View()), sid, sel, deps, t, |sel|)
    ensures blocks == RootBlocks(sel, deps, |sel|)
  {
    blocks := [];
    for i := 0 to |sel|
      invariant store.View() == StampedInTurn(old(store.View()), sid, sel, deps, t, i)
      invariant blocks == RootBlocks(sel, deps, i)
    {
      var preds := Preds(sel, deps[i]);
      StampMember(store, sid, sel[i], preds, t);
      if preds == [] { blocks := blocks + [RootBlock(sel[i])]; }
    }
  }

  /** Issues a wake for the selected forks: throttles and latches are stamped for all of
      them, the roots are answered, the dependents are held in the store. */
  method BuildWake(store: Store, sid: Sid, sel: seq<Selected>, t: int) returns (blocks: seq<Block>)
    requires DistinctNames(sel)
    modifies store
    ensures store.View() == IssueDb(old(store.View()), sid, sel, t)
    ensures blocks == RootBlocks(sel, Deps(sel), |sel|)
  {
    var deps, _ := Schedule.ResolveDeps(Nodes(sel));
    assert deps == Deps(sel);
    blocks := StampBatch(store, sid, sel, deps, t);
    InTurnIsWhole(old(store.View()), sid, sel, deps, t, |sel|);
  }

  // ---- releasing held dependents ----

  /** Every recorded predecessor finished at or after the hold. */
  predicate Releasable(reg: Spawns, row: Pending) {
    forall p :: p in Columns.SplitTags(row.preds) ==> CompletedSince(reg, p, row.createdAt)
  }

  predicate Releases(db: Db, sid: Sid, name: string) {
    (sid, name) in db.pending && Releasable(SpawnsOf(db, sid), db.pending[(sid, name)])
  }

  function Released(db: Db, sid: Sid): set<string> {
    set name | name in PendingNames(db, sid) && Releases(db, sid, name)
  }

  function ReleaseDb(db: Db, sid: Sid): Db {
    db.(pending := map k | k in db.pending && !(k.0 == sid && Releases(db, sid, k.1)) :: db.pending[k])
  }

  function ReleaseBlock(name: string, row: Pending): Block {
    Block(name, row.path, row.trigger, row.overlap, Columns.SplitTags(row.preds))
  }

  function ReleaseBlocks(db: Db, sid: Sid, order: seq<string>): seq<Block> {
    if order == [] then []
    else
      var name := order[|order| - 1];
      ReleaseBlocks(db, sid, order[..|order| - 1]) +
      if Releases(db, sid, name) then [ReleaseBlock(name, db.pending[(sid, name)])] else []
  }

  ghost predicate ListsPending(order: seq<string>, db: Db, sid: Sid) {
    Columns.Distinct(order) && forall name :: name in order <==> (sid, name) in db.pending
  }

  method AllCompleted(store: Store, sid: Sid, preds: seq<string>, since: int) returns (all: bool)
    ensures all <==> forall p :: p in preds ==> CompletedSince(SpawnsOf(store.View(), sid), p, since)
  {
    all := true;
    for k := 0 to |preds|
      invariant all <==> forall j :: 0 <= j < k ==> CompletedSince(SpawnsOf(store.View(), sid), preds[j], since)
    {
      var done := store.ForkCompletedSince(sid, preds[k], since);
      if !done { all := false; }
    }
  }

  method CollectReleased(store: Store, sid: Sid, order: seq<string>) returns (released: seq<string>, blocks: seq<Block>)
    requires ListsPending(order, store.View(), sid)
    ensures blocks == ReleaseBlocks(store.View(), sid, order)
    ensures forall name :: name in released <==> name in order && Releases(store.View(), sid, name)
  {
    released, blocks := [], [];
    for i := 0 to |order|
      invariant blocks == ReleaseBlocks(store.View(), sid, order[..i])
      invariant forall name :: name in released <==> name in order[..i] && Releases(store.View(), sid, name)
    {
      assert order[..i + 1] == order[..i] + [order[i]];
      assert order[..i + 1][..i] == order[..i];
      var name := order[i];
      assert name in order;
      var row := store.pending[(sid, name)];
      var done := AllCompleted(store, sid, Columns.SplitTags(row.preds), row.createdAt);
      if done {
        released := released + [name];
        blocks := blocks + [ReleaseBlock(name, row)];
      }
    }
    assert order[..|order|] == order;
  }

  method DeleteReleased(store: Store, sid: Sid, released: seq<string>)
    modifies store`pending
    ensures store.pending == map k | k in old(store.pending) && !(k.0 == sid && k.1 in released) :: old(store.pending)[k]
  {
    for i := 0 to |released|
      invariant store.pending ==
        map k | k in old(store.pending) && !(k.0 == sid && k.1 in released[..i]) :: old(store.pending)[k]
    {
      assert released[..i + 1] == released[..i] + [released[i]];
      store.DeletePendingDep(sid, released[i]);
    }
    assert released[..|released|] == released;
  }

  /** Hands over every held dependent whose predecessors have all finished. */
  method ReleaseDue(store: Store, sid: Sid, order: seq<string>) returns (blocks: seq<Block>)
    requires ListsPending(order, store.View(), sid)
    modifies store
    ensures store.View() == ReleaseDb(old(store.View()), sid)
    ensures blocks == ReleaseBlocks(old(store.View()), sid, order)
  {
    ghost var db := store.View();
    var released;
    released, blocks := CollectReleased(store, sid, order);
    DeleteReleased(store, sid, released);
    forall k | k in db.pending && k.0 == sid ensures k.1 in released <==> Releases(db, sid, k.1) {
      assert k == (sid, k.1);
    }
  }

  /** The blocks of a release are exactly the released forks, each once. */
  lemma {:induction false} ReleaseBlocksAre(db: Db, sid: Sid, order: seq<string>, name: string)
    ensures (exists b :: b in ReleaseBlocks(db, sid, order) && b.name == name) <==>
            (name in order && Releases(db, sid, name))
  {
    if order != [] {
      var front, last := order[..|order| - 1], order[|order| - 1];
      ReleaseBlocksAre(db, sid, front, name);
      assert name in order <==> name in front || name == last;
      var a, b := ReleaseBlocks(db, sid, front), ReleaseBlocks(db, sid, order);
      assert forall x :: x in a ==> x in b;
      if Releases(db, sid, last) { assert b[|b| - 1].name == last; }
    }
  }

  /** A release answers with at least one block exactly when something is releasable. */
  lemma ReleaseIsSome(db: Db, sid: Sid, order: seq<string>)
    requires ListsPending(order, db, sid)
    ensures ReleaseBlocks(db, sid, order) != [] <==> Released(db, sid) != {}
  {
    var blocks := ReleaseBlocks(db, sid, order);
    if blocks != [] {
      ReleaseBlocksAre(db, sid, order, blocks[0].name);
      assert blocks[0] in blocks;
      assert blocks[0].name in Released(db, sid);
    }
    if name :| name in Released(db, sid) {
      ReleaseBlocksAre(db, sid, order, name);
    }
  }

  lemma NoReleaseStays(db: Db, sid: Sid)
    requires Released(db, sid) == {}
    ensures ReleaseDb(db, sid) == db
  {
    forall k | k in db.pending && k.0 == sid ensures !Releases(db, sid, k.1) {
      assert k == (sid, k.1) && k.1 !in Released(db, sid);
    }
  }
}
