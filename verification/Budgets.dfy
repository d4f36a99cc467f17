/** Counting what the latch invariant allows: the issues of a session leg are as many as its
    latch rows, and those are bounded by pauses and context thresholds. */
module Budgets {
  import opened Text
  import opened Store
  import opened Planner
  import opened Core
  import opened Latches
  import Fork
  import Schedule

  /** The leg issues of a session that belong to one of `forks`. */
  ghost function LegOf(h: Hist, s: Sid, forks: set<string>): set<nat> {
    set i: nat | i < |h.issues| && InLeg(h, s, i) && h.issues[i].fork in forks
  }

  ghost function LegAll(h: Hist, s: Sid): set<nat> {
    set i: nat | i < |h.issues| && InLeg(h, s, i)
  }

  ghost function LatchKeys(db: Db, s: Sid, fork: string): set<string> {
    set l | l in db.fires && l.sid == s && l.fork == fork :: l.key
  }

  /** As many issues as keys, when each key belongs to exactly one of the issues. */
  lemma {:induction false} OneKeyEach(ids: set<nat>, keys: set<string>, issues: seq<Issue>)
    requires forall i :: i in ids ==> i < |issues| && issues[i].key in keys
    requires forall i, j :: i in ids && j in ids && i != j ==> issues[i].key != issues[j].key
    requires forall key :: key in keys ==> exists i :: i in ids && issues[i].key == key
    ensures |ids| == |keys|
  {
    if ids != {} {
      var i :| i in ids;
      var rest := keys - {issues[i].key};
      forall key | key in rest ensures exists j :: j in ids - {i} && issues[j].key == key {
        var j :| j in ids && issues[j].key == key;
        assert j in ids - {i};
      }
      OneKeyEach(ids - {i}, rest, issues);
    }
  }

  lemma KeyFromLeg(files: Files, c: Core, s: Sid, fork: string, key: string)
    requires LatchInv(files, c)
    ensures key in LatchKeys(c.db, s, fork) <==> exists i :: i in LegOf(c.hist, s, {fork}) && c.hist.issues[i].key == key
  {
    if key in LatchKeys(c.db, s, fork) {
      var l :| l in c.db.fires && l.sid == s && l.fork == fork && l.key == key;
      var i :| Stamp(c.hist, l, i);
      assert i in LegOf(c.hist, s, {fork});
    }
    if i :| i in LegOf(c.hist, s, {fork}) && c.hist.issues[i].key == key {
      assert InLeg(c.hist, s, i);
      assert Latch(s, fork, key) in c.db.fires;
    }
  }

  /** Latch conservation: the leg's issues of a fork number exactly its latch rows. */
  lemma LatchConservation(files: Files, c: Core, s: Sid, fork: string)
    requires LatchInv(files, c)
    ensures |LegOf(c.hist, s, {fork})| == |LatchKeys(c.db, s, fork)|
  {
    var leg, keys := LegOf(c.hist, s, {fork}), LatchKeys(c.db, s, fork);
    forall i, j | i in leg && j in leg && i != j ensures c.hist.issues[i].key != c.hist.issues[j].key {
      assert InLeg(c.hist, s, i) && InLeg(c.hist, s, j);
    }
    forall i | i in leg ensures c.hist.issues[i].key in keys { KeyFromLeg(files, c, s, fork, c.hist.issues[i].key); }
    forall key | key in keys ensures exists i :: i in leg && c.hist.issues[i].key == key { KeyFromLeg(files, c, s, fork, key); }
    OneKeyEach(leg, keys, c.hist.issues);
  }

  ghost function IdleKeys(lo: nat, hi: nat): (r: set<string>)
    requires lo <= hi + 1
    ensures |r| <= hi + 1 - lo
    ensures forall e: nat :: lo <= e <= hi ==> Fork.IdleKey(e) in r
    decreases hi + 1 - lo
  {
    if lo > hi then {} else {Fork.IdleKey(lo)} + IdleKeys(lo + 1, hi)
  }

  /** The distinct context labels of a fork. */
  ghost function ContextLabels(def: Fork.ForkDef): set<string> {
    set k | 0 <= k < |def.runOn| && def.runOn[k].IsContext() :: def.runOn[k].Label()
  }

  /** How many wakes a fork may take part in during the leg: one per pause, one per context
      threshold it names. */
  ghost function ForkBudget(files: Files, c: Core, s: Sid, fork: string): nat {
    if (s, fork) in c.db.roster && c.db.roster[(s, fork)].path in files && LegEpoch(c.hist, s) <= EpochOf(c.db, s)
    then EpochOf(c.db, s) - LegEpoch(c.hist, s) + 1 + |ContextLabels(files[c.db.roster[(s, fork)].path])|
    else 0
  }

  /** The latch keys a fork's definition and the leg's pauses allow. */
  ghost function AllowedKeys(def: Fork.ForkDef, lo: nat, hi: nat): (r: set<string>)
    requires lo <= hi
    ensures |r| <= hi + 1 - lo + |ContextLabels(def)|
  {
    IdleKeys(lo, hi) + ContextLabels(def)
  }

  lemma AllowedIsCounted(def: Fork.ForkDef, lo: nat, hi: nat, trigger: string, key: string)
    requires lo <= hi && KeyAllowed(def, lo, hi, trigger, key)
    ensures key in AllowedKeys(def, lo, hi)
  {}

  /** A latch key of the fork is one of those its budget counts. */
  lemma KeyInBudget(files: Files, c: Core, s: Sid, fork: string, key: string)
    requires LatchInv(files, c) && key in LatchKeys(c.db, s, fork)
    ensures (s, fork) in c.db.roster && c.db.roster[(s, fork)].path in files
    ensures LegEpoch(c.hist, s) <= EpochOf(c.db, s)
    ensures key in AllowedKeys(files[c.db.roster[(s, fork)].path], LegEpoch(c.hist, s), EpochOf(c.db, s))
  {
    KeyFromLeg(files, c, s, fork, key);
    var i :| i in LegOf(c.hist, s, {fork}) && c.hist.issues[i].key == key;
    assert InLeg(c.hist, s, i);
    assert Rostered(files, c.db, c.hist.issues[i]);
    AllowedIsCounted(files[c.hist.issues[i].path], LegEpoch(c.hist, s), EpochOf(c.db, s), c.hist.issues[i].trigger, key);
  }

  lemma ForkWithinBudget(files: Files, c: Core, s: Sid, fork: string)
    requires LatchInv(files, c)
    ensures |LegOf(c.hist, s, {fork})| <= ForkBudget(files, c, s, fork)
  {
    LatchConservation(files, c, s, fork);
    var keys := LatchKeys(c.db, s, fork);
    if keys != {} {
      var key0 :| key0 in keys;
      KeyInBudget(files, c, s, fork, key0);
      var allowed := AllowedKeys(files[c.db.roster[(s, fork)].path], LegEpoch(c.hist, s), EpochOf(c.db, s));
      forall key | key in keys ensures key in allowed { KeyInBudget(files, c, s, fork, key); }
      Schedule.SubsetSize(keys, allowed);
    }
  }

  ghost function Some1(forks: set<string>): (f: string)
    requires forks != {}
    ensures f in forks
  {
    var f :| f in forks; f
  }

  ghost function Budget(files: Files, c: Core, s: Sid, forks: set<string>): nat {
    if forks == {} then 0
    else ForkBudget(files, c, s, Some1(forks)) + Budget(files, c, s, forks - {Some1(forks)})
  }

  ghost function RosterNames(db: Db, s: Sid): set<string> {
    set k | k in db.roster && k.0 == s :: k.1
  }

  lemma LegSplits(h: Hist, s: Sid, forks: set<string>, f: string)
    requires f in forks
    ensures |LegOf(h, s, forks)| <= |LegOf(h, s, {f})| + |LegOf(h, s, forks - {f})|
  {
    assert LegOf(h, s, forks) == LegOf(h, s, {f}) + LegOf(h, s, forks - {f});
  }

  lemma {:induction false} LegWithinBudget(files: Files, c: Core, s: Sid, forks: set<string>)
    requires LatchInv(files, c)
    ensures |LegOf(c.hist, s, forks)| <= Budget(files, c, s, forks)
    decreases forks
  {
    if forks == {} {
      assert LegOf(c.hist, s, forks) == {};
    } else {
      var f := Some1(forks);
      LegWithinBudget(files, c, s, forks - {f});
      ForkWithinBudget(files, c, s, f);
      LegSplits(c.hist, s, forks, f);
    }
  }

  /** All issues of a leg together stay within the rostered forks' budgets. */
  lemma IssuesBounded(files: Files, c: Core, s: Sid)
    requires LatchInv(files, c)
    ensures |LegAll(c.hist, s)| <= Budget(files, c, s, RosterNames(c.db, s))
  {
    LegWithinBudget(files, c, s, RosterNames(c.db, s));
    forall i | i in LegAll(c.hist, s) ensures i in LegOf(c.hist, s, RosterNames(c.db, s)) {
      assert Rostered(files, c.db, c.hist.issues[i]);
      assert (s, c.hist.issues[i].fork) in c.db.roster;
    }
    assert LegAll(c.hist, s) == LegOf(c.hist, s, RosterNames(c.db, s));
  }
}
