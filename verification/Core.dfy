/** The tables together with a history of what was issued and what became of it, and the
    five ways the daemon's steps change them. */
module Core {
  import opened Text
  import opened Registry
  import opened Store
  import opened Planner
  import Schedule

  /** What became of an issue. */
  datatype Fate = Delivered | Held | Dropped | Superseded

  /** One issued run; the history keeps one per row of the runs table. */
  datatype Issue = Issue(
    sid: Sid,
    fork: string,
    path: string,
    trigger: string,
    tags: seq<string>,
    key: string,
    at: int,
    batch: nat,
    fate: Fate)

  /** Which issue a pending row stands for, and its rank in that batch. */
  datatype Hold = Hold(issue: nat, rank: nat)

  /** `delivered` gives, per fork, the number of batches issued when it was last handed
      over; `legStart`, `legEpoch` and `wakes` describe a session since its last close. */
  datatype Hist = Hist(
    issues: seq<Issue>,
    holds: map<Key, Hold>,
    batches: nat,
    delivered: map<Key, nat>,
    legStart: map<Sid, nat>,
    legEpoch: map<Sid, nat>,
    wakes: map<Sid, nat>)

  datatype Core = Core(db: Db, hist: Hist)

  const INITIAL := Core(EMPTY, Hist([], map[], 0, map[], map[], map[], map[]))

  function At(m: map<Sid, nat>, s: Sid): nat {
    if s in m then m[s] else 0
  }

  function LegStart(h: Hist, s: Sid): nat {
    At(h.legStart, s)
  }

  function LegEpoch(h: Hist, s: Sid): nat {
    At(h.legEpoch, s)
  }

  function Wakes(h: Hist, s: Sid): nat {
    At(h.wakes, s)
  }

  /** Issue `i` belongs to the current leg of session `s`. */
  predicate InLeg(h: Hist, s: Sid, i: int) {
    LegStart(h, s) <= i < |h.issues| && h.issues[i].sid == s
  }

  // ---- changes of fate ----

  predicate Concerns(issue: Issue, s: Sid, names: set<string>) {
    issue.fate == Held && issue.sid == s && issue.fork in names
  }

  function Refate(issues: seq<Issue>, s: Sid, names: set<string>, fate: Fate): (r: seq<Issue>)
    ensures |r| == |issues|
    ensures forall i :: 0 <= i < |issues| ==>
      r[i] == if Concerns(issues[i], s, names) then issues[i].(fate := fate) else issues[i]
  {
    seq(|issues|, (i: nat) requires i < |issues| =>
      if Concerns(issues[i], s, names) then issues[i].(fate := fate) else issues[i])
  }

  function Without(holds: map<Key, Hold>, s: Sid, names: set<string>): map<Key, Hold> {
    map k | k in holds && !(k.0 == s && k.1 in names) :: holds[k]
  }

  /** The holds of these forks end, their issues taking the given fate. */
  function Settle(h: Hist, s: Sid, names: set<string>, fate: Fate): Hist {
    h.(issues := Refate(h.issues, s, names, fate), holds := Without(h.holds, s, names))
  }

  /** The pending rows of the session are gone without being handed over. */
  function DropHeld(h: Hist, db: Db, s: Sid): Hist {
    Settle(h, s, PendingNames(db, s), Dropped)
  }

  /** Genuine activity: a new pause, and the held dependents are dropped. */
  function Bump(c: Core, s: Sid): Core {
    Core(ClearPending(BumpEpoch(c.db, s), s), DropHeld(c.hist, c.db, s))
  }

  /** The session closes and a new leg begins. */
  function CloseLeg(c: Core, s: Sid): Core {
    var h := DropHeld(c.hist, c.db, s);
    Core(Close(c.db, s),
         h.(legStart := h.legStart[s := |h.issues|], legEpoch := h.legEpoch[s := EpochOf(c.db, s)],
            wakes := h.wakes[s := 0]))
  }

  /** The session got a wake answer handing over these forks. */
  function Answer(h: Hist, s: Sid, names: set<string>): Hist {
    h.(delivered := h.delivered + (map name | name in names :: (s, name) := h.batches),
       wakes := h.wakes[s := Wakes(h, s) + 1])
  }

  /** A Stop is answered with the releasable dependents. */
  function Release(c: Core, s: Sid): Core {
    var names := Released(c.db, s);
    Core(ReleaseDb(c.db, s), Answer(Settle(c.hist, s, names, Delivered), s, names))
  }

  ghost function HeldNames(sel: seq<Selected>, deps: Schedule.Graph): set<string>
    requires |sel| == |deps|
  {
    set i | 0 <= i < |sel| && deps[i] != [] :: sel[i].name
  }

  function NewIssue(s: Sid, x: Selected, t: int, batch: nat, root: bool): Issue {
    Issue(s, x.name, x.path, x.trigger, x.tags, x.key.GetOr(""), t, batch, if root then Delivered else Held)
  }

  ghost function NewIssues(s: Sid, sel: seq<Selected>, deps: Schedule.Graph, t: int, batch: nat): (r: seq<Issue>)
    requires |sel| == |deps|
    ensures |r| == |sel| && forall i :: 0 <= i < |sel| ==> r[i] == NewIssue(s, sel[i], t, batch, deps[i] == [])
  {
    seq(|sel|, (i: nat) requires i < |sel| => NewIssue(s, sel[i], t, batch, deps[i] == []))
  }

  ghost function NewHolds(s: Sid, sel: seq<Selected>, deps: Schedule.Graph, rank: seq<nat>, base: nat): map<Key, Hold>
    requires |sel| == |deps| == |rank| && DistinctNames(sel)
  {
    map i | 0 <= i < |sel| && deps[i] != [] :: (s, sel[i].name) := Hold(base + i, rank[i])
  }

  ghost function RootNames(sel: seq<Selected>, deps: Schedule.Graph): set<string>
    requires |sel| == |deps|
  {
    set i | 0 <= i < |sel| && deps[i] == [] :: sel[i].name
  }

  /** The batch is entered: one issue per member, one hold per dependent. */
  ghost function Enter(h: Hist, s: Sid, sel: seq<Selected>, deps: Schedule.Graph, rank: seq<nat>, t: int): Hist
    requires |sel| == |deps| == |rank| && DistinctNames(sel)
  {
    h.(issues := h.issues + NewIssues(s, sel, deps, t, h.batches),
       holds := h.holds + NewHolds(s, sel, deps, rank, |h.issues|),
       batches := h.batches + 1)
  }

  ghost function IssueHist(h: Hist, s: Sid, sel: seq<Selected>, deps: Schedule.Graph, rank: seq<nat>, t: int): Hist
    requires |sel| == |deps| == |rank| && DistinctNames(sel)
  {
    var cleared := Settle(h, s, HeldNames(sel, deps), Superseded);
    Answer(Enter(cleared, s, sel, deps, rank, t), s, RootNames(sel, deps))
  }

  /** A wake is issued for the batch: a fresh hold supersedes a stale one of the same fork,
      the roots are handed over. */
  ghost function IssueBatch(c: Core, s: Sid, sel: seq<Selected>, t: int): Core
    requires DistinctNames(sel)
  {
    Core(IssueDb(c.db, s, sel, t), IssueHist(c.hist, s, sel, Deps(sel), Schedule.Rank(Deps(sel)), t))
  }

  /** Up to fates, the issue list grew by one entry per member; legs are as before. */
  ghost predicate Appended(c: Hist, d: Hist, s: Sid, sel: seq<Selected>, t: int) {
    && |d.issues| == |c.issues| + |sel|
    && (forall i :: 0 <= i < |c.issues| ==> d.issues[i] == c.issues[i].(fate := d.issues[i].fate))
    && (forall i :: |c.issues| <= i < |d.issues| ==>
          d.issues[i] == NewIssue(s, sel[i - |c.issues|], t, c.batches, d.issues[i].fate == Delivered))
    && d.legStart == c.legStart && d.legEpoch == c.legEpoch
  }

  lemma IssueAppends(h: Hist, s: Sid, sel: seq<Selected>, deps: Schedule.Graph, rank: seq<nat>, t: int)
    requires |sel| == |deps| == |rank| && DistinctNames(sel)
    ensures Appended(h, IssueHist(h, s, sel, deps, rank, t), s, sel, t)
    ensures IssueHist(h, s, sel, deps, rank, t).batches == h.batches + 1
  {}

  lemma TouchedKeeps(roster: map<Key, RosterRow>, s: Sid, sel: seq<Selected>, t: int)
    ensures var r := Touched(roster, s, sel, t, |sel|);
      forall k :: k in roster ==> k in r && r[k].path == roster[k].path
  {}

  /** Everything else a step does: sessions are touched, forks rostered, spawns recorded
      and finished. */
  ghost predicate Calm(a: Db, b: Db) {
    && b.fires == a.fires && b.runs == a.runs && b.pending == a.pending
    && (forall k :: k in a.roster ==> k in b.roster && b.roster[k] == a.roster[k])
    && (forall k :: k in b.roster && k !in a.roster ==> b.roster[k].ranAt.None?)
    && (forall s :: EpochOf(b, s) == EpochOf(a, s))
    && (forall s :: s in a.sessions ==> s in b.sessions)
    && (forall s :: Evolves(SpawnsOf(a, s), SpawnsOf(b, s)))
  }

  lemma CalmRefl(a: Db)
    ensures Calm(a, a)
  {}

  lemma CalmTrans(a: Db, b: Db, c: Db)
    requires Calm(a, b) && Calm(b, c)
    ensures Calm(a, c)
  {
    forall s ensures Evolves(SpawnsOf(a, s), SpawnsOf(c, s)) {
      EvolvesTrans(SpawnsOf(a, s), SpawnsOf(b, s), SpawnsOf(c, s));
    }
    forall k | k in c.roster && k !in a.roster ensures c.roster[k].ranAt.None? {
      if k in b.roster { assert c.roster[k] == b.roster[k]; }
    }
  }

  lemma UpsertCalm(db: Db, s: Sid, info: Info, t: int)
    ensures Calm(db, Upsert(db, s, info, t))
  {}

  lemma StartPauseCalm(db: Db, s: Sid, t: int)
    ensures Calm(db, StartPause(db, s, t))
  {}

  lemma SetGaugeCalm(db: Db, s: Sid, offset: nat, gauge: Option<u64>)
    ensures Calm(db, SetGauge(db, s, offset, gauge))
  {}

  lemma SetSpawnsCalm(db: Db, s: Sid, reg: Spawns)
    requires Evolves(SpawnsOf(db, s), reg)
    ensures Calm(db, SetSpawns(db, s, reg))
  {}

  lemma {:induction false} QueueCalm(db: Db, s: Sid, entries: seq<(string, string)>, t: int)
    ensures Calm(db, QueueAll(db, s, entries, t))
  {
    if entries != [] {
      QueueCalm(db, s, entries[..|entries| - 1], t);
    }
  }
}
