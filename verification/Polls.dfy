/** The parked-poll protocol: registration, cancellation, the liveness count, and the
    grace timer that closes a session whose poll was lost. */
module Polls {
  import opened Text
  import opened Store

  /** A stop-wait future that has not returned; `cancelled` once its channel was signalled. */
  datatype Poll = Poll(sid: Sid, cancelled: bool)

  datatype Polls = Polls(
    live: map<nat, Poll>,
    waits: map<Sid, nat>,
    parked: map<Sid, nat>,
    pendingClose: map<Sid, nat>,
    closeGen: nat,
    timers: map<nat, Sid>,
    next: nat)

  const NO_POLLS := Polls(map[], map[], map[], map[], 0, map[], 0)

  /** A fresh event cancels any pending close of its session. */
  function Clear(ps: Polls, s: Sid): Polls {
    ps.(pendingClose := ps.pendingClose - {s})
  }

  function Signal(live: map<nat, Poll>, p: nat): map<nat, Poll> {
    if p in live then live[p := live[p].(cancelled := true)] else live
  }

  /** Cancels the session's registered poll, if any. */
  function Cancel(ps: Polls, s: Sid): Polls {
    if s in ps.waits then ps.(live := Signal(ps.live, ps.waits[s]), waits := ps.waits - {s}) else ps
  }

  function Park(parked: map<Sid, nat>, s: Sid): map<Sid, nat> {
    parked[s := (if s in parked then parked[s] else 0) + 1]
  }

  function Unpark(parked: map<Sid, nat>, s: Sid): map<Sid, nat> {
    if s !in parked then parked
    else if parked[s] <= 1 then parked - {s}
    else parked[s := parked[s] - 1]
  }

  /** A new poll registers, cancelling a stale one of its session, and parks. */
  function Register(ps: Polls, s: Sid): Polls {
    var stale := if s in ps.waits then Signal(ps.live, ps.waits[s]) else ps.live;
    ps.(live := stale[ps.next := Poll(s, false)], waits := ps.waits[s := ps.next],
        parked := Park(ps.parked, s), next := ps.next + 1)
  }

  /** The poll returned: its guard is dropped. Its `waits` entry stays behind. */
  function Finish(ps: Polls, p: nat): Polls
    requires p in ps.live
  {
    ps.(live := ps.live - {p}, parked := Unpark(ps.parked, ps.live[p].sid))
  }

  /** The connection dropped before an answer: a grace timer starts. */
  function Lose(ps: Polls, p: nat): Polls
    requires p in ps.live
  {
    var s, gen := ps.live[p].sid, ps.closeGen + 1;
    Finish(ps, p).(closeGen := gen, pendingClose := ps.pendingClose[s := gen], timers := ps.timers[gen := s])
  }

  /** The check at the end of a grace period lets the close through. */
  predicate Passes(ps: Polls, g: nat) {
    g in ps.timers && ps.timers[g] in ps.pendingClose && ps.pendingClose[ps.timers[g]] == g
  }

  function Expire(ps: Polls, g: nat): Polls
    requires g in ps.timers
  {
    var s := ps.timers[g];
    var rest := ps.(timers := ps.timers - {g});
    if Passes(ps, g) then rest.(pendingClose := ps.pendingClose - {s}) else rest
  }

  // ---- the invariant ----

  ghost function LiveOf(live: map<nat, Poll>, s: Sid): set<nat> {
    set p | p in live && live[p].sid == s
  }

  /** Every uncancelled poll is the one registered for its session. */
  ghost predicate OneRegistered(ps: Polls) {
    && (forall p :: p in ps.live ==> p < ps.next)
    && (forall s :: s in ps.waits ==> ps.waits[s] < ps.next)
    && (forall s :: s in ps.waits && ps.waits[s] in ps.live ==> ps.live[ps.waits[s]].sid == s)
    && (forall p :: p in ps.live && !ps.live[p].cancelled ==> ps.live[p].sid in ps.waits && ps.waits[ps.live[p].sid] == p)
  }

  /** The parked count is the number of live guards, and the entry exists iff there is one. */
  ghost predicate Counted(ps: Polls) {
    forall s :: (s in ps.parked <==> LiveOf(ps.live, s) != {}) && (s in ps.parked ==> ps.parked[s] == |LiveOf(ps.live, s)|)
  }

  ghost predicate PollInv(ps: Polls) {
    OneRegistered(ps) && Counted(ps)
  }

  lemma ClearKeeps(ps: Polls, s: Sid)
    requires PollInv(ps)
    ensures PollInv(Clear(ps, s))
  {}

  lemma SignalSame(live: map<nat, Poll>, p: nat, s: Sid)
    ensures LiveOf(Signal(live, p), s) == LiveOf(live, s)
  {}

  lemma CancelKeeps(ps: Polls, s: Sid)
    requires PollInv(ps)
    ensures PollInv(Cancel(ps, s))
    ensures forall p :: p in Cancel(ps, s).live && !Cancel(ps, s).live[p].cancelled ==> Cancel(ps, s).live[p].sid != s
  {
    if s in ps.waits {
      forall r ensures LiveOf(Cancel(ps, s).live, r) == LiveOf(ps.live, r) { SignalSame(ps.live, ps.waits[s], r); }
    }
  }

  lemma RegisterAdds(ps: Polls, s: Sid, r: Sid)
    requires forall p :: p in ps.live ==> p < ps.next
    ensures LiveOf(Register(ps, s).live, r) == LiveOf(ps.live, r) + (if r == s then {ps.next} else {})
    ensures ps.next !in LiveOf(ps.live, r)
  {
    var stale := if s in ps.waits then Signal(ps.live, ps.waits[s]) else ps.live;
    if s in ps.waits { SignalSame(ps.live, ps.waits[s], r); }
    assert LiveOf(stale[ps.next := Poll(s, false)], r) == LiveOf(stale, r) + (if r == s then {ps.next} else {});
  }

  lemma ParkCounts(ps: Polls, s: Sid)
    requires OneRegistered(ps) && Counted(ps)
    ensures Counted(Register(ps, s))
  {
    var q := Register(ps, s);
    forall r ensures (r in q.parked <==> LiveOf(q.live, r) != {}) && (r in q.parked ==> q.parked[r] == |LiveOf(q.live, r)|) {
      RegisterAdds(ps, s, r);
      if r == s { assert |LiveOf(q.live, s)| == |LiveOf(ps.live, s)| + 1; }
    }
  }

  lemma RegisterKeeps(ps: Polls, s: Sid)
    requires PollInv(ps)
    ensures PollInv(Register(ps, s))
  {
    ParkCounts(ps, s);
  }

  lemma FinishLive(ps: Polls, p: nat, r: Sid)
    requires p in ps.live
    ensures LiveOf(Finish(ps, p).live, r) == if ps.live[p].sid == r then LiveOf(ps.live, r) - {p} else LiveOf(ps.live, r)
    ensures ps.live[p].sid == r ==> p in LiveOf(ps.live, r)
  {}

  lemma FinishCounted(ps: Polls, p: nat)
    requires Counted(ps) && p in ps.live
    ensures Counted(Finish(ps, p))
  {
    var q := Finish(ps, p);
    forall r ensures (r in q.parked <==> LiveOf(q.live, r) != {}) && (r in q.parked ==> q.parked[r] == |LiveOf(q.live, r)|) {
      FinishLive(ps, p, r);
      if ps.live[p].sid == r { assert |LiveOf(q.live, r)| == |LiveOf(ps.live, r)| - 1; }
    }
  }

  lemma FinishKeeps(ps: Polls, p: nat)
    requires PollInv(ps) && p in ps.live
    ensures PollInv(Finish(ps, p))
  {
    FinishCounted(ps, p);
  }

  lemma LoseKeeps(ps: Polls, p: nat)
    requires PollInv(ps) && p in ps.live
    ensures PollInv(Lose(ps, p))
  {
    FinishCounted(ps, p);
    assert Counted(Lose(ps, p)) by { assert Lose(ps, p).live == Finish(ps, p).live && Lose(ps, p).parked == Finish(ps, p).parked; }
  }

  lemma ExpireKeeps(ps: Polls, g: nat)
    requires PollInv(ps) && g in ps.timers
    ensures PollInv(Expire(ps, g))
  {}
}
