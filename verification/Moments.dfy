/** Fork moments: what has elapsed for a session, and which trigger of a fork it meets. */
module Moments {
  import opened Text
  import opened Fork

  const DEFAULT_CONTEXT_WINDOW: u64 := 200_000
  const CONTEXT_WINDOW_1M: u64 := 1_000_000

  datatype Moment =
    | IdleFor(deadline: u64)
    | Gauge(tokens: u64, window: Option<u64>)

  /** The model id mentions the 1M window, or a family that always has it. */
  ghost predicate Marked(model: Option<string>) {
    model.Some? && exists p: nat :: At(model.value, p, "[1m]") || At(model.value, p, "fable") || At(model.value, p, "mythos")
  }

  /** The window of a session: 1M when the model is marked, 200k otherwise, and raised to 1M
      or to the gauge itself when the gauge is beyond it. */
  ghost predicate IsWindow(model: Option<string>, gauge: Option<u64>, w: u64) {
    if gauge.Some? && gauge.value > 1_000_000 then w == gauge.value
    else if Marked(model) || (gauge.Some? && gauge.value > 200_000) then w == 1_000_000
    else w == 200_000
  }

  lemma MarkedMeans(m: string)
    ensures Marked(Some(m)) <==> Contains(m, "[1m]") || Contains(m, "fable") || Contains(m, "mythos")
  {
    FindMeans(m, "[1m]", 0);
    FindMeans(m, "fable", 0);
    FindMeans(m, "mythos", 0);
  }

  /** The session's context window: from the model id, raised when the gauge disproves it. */
  function ResolveContextWindow(model: Option<string>, gauge: Option<u64>): (w: u64)
    ensures IsWindow(model, gauge, w)
    ensures gauge.Some? ==> gauge.value <= w
  {
    var base: u64 := match model
      case Some(m) =>
        (MarkedMeans(m);
         if Contains(m, "[1m]") || Contains(m, "fable") || Contains(m, "mythos") then CONTEXT_WINDOW_1M
         else DEFAULT_CONTEXT_WINDOW)
      case None => DEFAULT_CONTEXT_WINDOW;
    if gauge.Some? && gauge.value > base then
      if CONTEXT_WINDOW_1M >= gauge.value then CONTEXT_WINDOW_1M else gauge.value
    else base
  }

  /** The seconds an idle trigger waits. */
  function Effective(after: Option<u64>, default: u64): u64 {
    after.GetOr(default)
  }

  predicate Hit(moment: Moment, trigger: RunOn, default: u64) {
    match (moment, trigger)
    case (IdleFor(d), Idle(after)) => Effective(after, default) > 0 && Effective(after, default) == d
    case (Gauge(g, _), ContextTokens(n)) => g >= n
    case (Gauge(g, w), ContextUsedPct(p)) => w.Some? && Saturate(g * 100) >= Saturate(w.value * p)
    case (Gauge(g, w), ContextLeft(n)) => w.Some? && (if w.value >= g then w.value - g else 0) <= n
    case _ => false
  }

  /** The first trigger of the fork met by one moment. */
  function MatchOne(runOn: seq<RunOn>, moment: Moment, default: u64): (r: Option<RunOn>)
    ensures r.Some? ==> r.value in runOn && Hit(moment, r.value, default)
    ensures r.None? ==> forall k :: 0 <= k < |runOn| ==> !Hit(moment, runOn[k], default)
  {
    if runOn == [] then None
    else if Hit(moment, runOn[0], default) then Some(runOn[0])
    else MatchOne(runOn[1..], moment, default)
  }

  /** The first trigger met, going through the moments in order. */
  function MatchMoments(runOn: seq<RunOn>, moments: seq<Moment>, default: u64): (r: Option<RunOn>)
    ensures r.Some? ==> r.value in runOn && exists m :: m in moments && Hit(m, r.value, default)
    ensures r.None? ==> forall m, k :: m in moments && 0 <= k < |runOn| ==> !Hit(m, runOn[k], default)
  {
    if moments == [] then None
    else
      var first := MatchOne(runOn, moments[0], default);
      if first.Some? then
        assert moments[0] in moments;
        first
      else
        assert forall m :: m in moments ==> m == moments[0] || m in moments[1..];
        MatchMoments(runOn, moments[1..], default)
  }

  /** Only supported triggers ever match. */
  lemma MatchSupported(runOn: seq<RunOn>, moments: seq<Moment>, default: u64)
    ensures MatchMoments(runOn, moments, default).Some? ==> MatchMoments(runOn, moments, default).value.Supported()
  {}

  /** Moments that come later never change an earlier match. */
  lemma {:induction false} MatchPrefix(runOn: seq<RunOn>, a: seq<Moment>, b: seq<Moment>, default: u64)
    requires a <= b && MatchMoments(runOn, a, default).Some?
    ensures MatchMoments(runOn, b, default) == MatchMoments(runOn, a, default)
  {
    assert a[0] == b[0];
    if MatchOne(runOn, a[0], default).None? { MatchPrefix(runOn, a[1..], b[1..], default); }
  }

  // ---- deadlines ----

  /** The idle trigger waits for `d` seconds: its own delay, or the default when it has none. */
  predicate WaitsFor(trigger: RunOn, default: u64, d: u64) {
    trigger == Idle(Some(d)) || (trigger == Idle(None) && d == default)
  }

  ghost predicate Wants(def: ForkDef, default: u64, d: u64) {
    d > 0 && exists k :: 0 <= k < |def.runOn| && WaitsFor(def.runOn[k], default, d)
  }

  ghost predicate SomeWants(forks: seq<ForkDef>, default: u64, d: u64) {
    exists f :: f in forks && Wants(f, default, d)
  }

  ghost predicate Ascending(s: seq<u64>) {
    forall i, j :: 0 <= i < j < |s| ==> s[i] < s[j]
  }

  /** Exactly the positive idle deadlines the forks ask for, ascending. */
  ghost predicate IsDeadlines(r: seq<u64>, forks: seq<ForkDef>, default: u64) {
    Ascending(r) && forall d: u64 :: d in r <==> SomeWants(forks, default, d)
  }

  lemma SomeElement(s: seq<u64>)
    requires s != []
    ensures exists d: u64 :: d in s
  {
    assert s[0] in s;
  }

  /** The deadlines are determined by that description. */
  lemma {:induction false} DeadlinesUnique(a: seq<u64>, b: seq<u64>)
    requires Ascending(a) && Ascending(b) && forall d: u64 :: d in a <==> d in b
    ensures a == b
  {
    if a == [] {
      if b != [] {
        SomeElement(b);
        assert false;
      }
    } else {
      assert a[0] in b;
      assert b[0] in a;
      assert a[0] == b[0];
      forall d: u64 | true ensures d in a[1..] <==> d in b[1..] {
        assert d in a[1..] ==> d in a && d != a[0];
        assert d in b[1..] ==> d in b && d != b[0];
      }
      DeadlinesUnique(a[1..], b[1..]);
    }
  }

  /** Sorts distinct values. */
  method SortDistinct(s: seq<u64>) returns (r: seq<u64>)
    requires forall i, j :: 0 <= i < j < |s| ==> s[i] != s[j]
    ensures Ascending(r) && forall d: u64 :: d in r <==> d in s
  {
    r := [];
    for i := 0 to |s|
      invariant Ascending(r) && forall d: u64 :: d in r <==> d in s[..i]
    {
      var k := 0;
      while k < |r| && r[k] < s[i]
        invariant 0 <= k <= |r|
        invariant forall j :: 0 <= j < k ==> r[j] < s[i]
      {
        k := k + 1;
      }
      assert s[i] !in r;
      ghost var was := r;
      r := r[..k] + [s[i]] + r[k..];
      assert s[..i + 1] == s[..i] + [s[i]];
      assert forall d: u64 :: d in r <==> d in was || d == s[i] by {
        assert was == was[..k] + was[k..];
      }
    }
    assert s[..|s|] == s;
  }

  /** The deadlines a session's forks need serviced. */
  method IdleDeadlines(forks: seq<ForkDef>, default: u64) returns (r: seq<u64>)
    ensures IsDeadlines(r, forks, default)
  {
    var out: seq<u64> := [];
    for i := 0 to |forks|
      invariant forall a, b :: 0 <= a < b < |out| ==> out[a] != out[b]
      invariant forall d: u64 :: d in out <==> SomeWants(forks[..i], default, d)
    {
      out := AddWanted(out, forks[i], default);
      assert forks[..i + 1] == forks[..i] + [forks[i]];
    }
    assert forks[..|forks|] == forks;
    r := SortDistinct(out);
  }

  method AddWanted(out: seq<u64>, def: ForkDef, default: u64) returns (r: seq<u64>)
    requires forall a, b :: 0 <= a < b < |out| ==> out[a] != out[b]
    ensures forall a, b :: 0 <= a < b < |r| ==> r[a] != r[b]
    ensures forall d: u64 :: d in r <==> d in out || Wants(def, default, d)
  {
    r := out;
    for k := 0 to |def.runOn|
      invariant forall a, b :: 0 <= a < b < |r| ==> r[a] != r[b]
      invariant forall d: u64 :: d in r <==>
          (|| d in out
           || (d > 0 && exists j :: 0 <= j < k && WaitsFor(def.runOn[j], default, d)))
    {
      if def.runOn[k].Idle? {
        var d := Effective(def.runOn[k].after, default);
        if d > 0 && d !in r { r := r + [d]; }
      }
    }
  }

  // ---- elapsed moments ----

  /** The deadline's fire time, computed in `i64`, has passed. */
  predicate Due(base: int, d: u64, upTo: int) {
    WrapI64(base + AsI64(d)) <= upTo
  }

  function Elapsed(base: int, deadlines: seq<u64>, upTo: int): (r: seq<Moment>)
    ensures forall m :: m in r <==> m.IdleFor? && m.deadline in deadlines && Due(base, m.deadline, upTo)
  {
    if deadlines == [] then []
    else
      var d := deadlines[|deadlines| - 1];
      var r := Elapsed(base, deadlines[..|deadlines| - 1], upTo);
      assert deadlines == deadlines[..|deadlines| - 1] + [d];
      if Due(base, d, upTo) then r + [IdleFor(d)] else r
  }

  function GaugeMoment(gauge: Option<u64>, window: u64): seq<Moment> {
    if gauge.Some? then [Gauge(gauge.value, Some(window))] else []
  }

  /** Everything that has happened to the session by `upTo`, the gauge first. */
  function ElapsedMoments(gauge: Option<u64>, window: u64, base: int, deadlines: seq<u64>, upTo: int): seq<Moment> {
    GaugeMoment(gauge, window) + Elapsed(base, deadlines, upTo)
  }

  method ComputeElapsed(gauge: Option<u64>, window: u64, base: int, deadlines: seq<u64>, upTo: int)
    returns (moments: seq<Moment>)
    ensures moments == ElapsedMoments(gauge, window, base, deadlines, upTo)
  {
    moments := [];
    if gauge.Some? { moments := moments + [Gauge(gauge.value, Some(window))]; }
    for i := 0 to |deadlines|
      invariant moments == ElapsedMoments(gauge, window, base, deadlines[..i], upTo)
    {
      assert deadlines[..i + 1][..i] == deadlines[..i];
      if WrapI64(base + AsI64(deadlines[i])) <= upTo { moments := moments + [IdleFor(deadlines[i])]; }
    }
    assert deadlines[..|deadlines|] == deadlines;
  }

  /** The fire time of the deadline fits an `i64`. */
  predicate Fits(base: int, d: u64) {
    base + d < I64_LIMIT
  }

  /** From this baseline all fire times fit, or none does. */
  ghost predicate Uniform(base: int, deadlines: seq<u64>) {
    || (forall k :: 0 <= k < |deadlines| ==> Fits(base, deadlines[k]))
    || (forall k :: 0 <= k < |deadlines| ==> !Fits(base, deadlines[k]))
  }

  /** A clock reading in seconds. */
  predicate Clock(t: int) {
    0 <= t < I64_LIMIT
  }

  /** Within the clock's range a deadline is judged correctly exactly when its fire time
      fits; otherwise it counts as elapsed at once. */
  lemma DeadlineExact(base: int, d: u64, now: int)
    requires Clock(base) && Clock(now) && base <= now
    ensures (Due(base, d, now) <==> base + d <= now) <==> Fits(base, d)
    ensures !Fits(base, d) ==> Due(base, d, now)
  {
    SumWraps(base, d);
  }

  /** The fire time as the daemon computes it. */
  function FireAt(base: int, d: u64): int {
    if Fits(base, d) then base + d else base + d - U64_LIMIT
  }

  lemma DueMeans(base: int, d: u64, t: int)
    requires Clock(base)
    ensures Due(base, d, t) <==> FireAt(base, d) <= t
  {
    SumWraps(base, d);
  }

  lemma {:induction false} ElapsedMonotone(base: int, deadlines: seq<u64>, t: int, u: int)
    requires Clock(base) && Ascending(deadlines) && Uniform(base, deadlines) && t <= u
    ensures Elapsed(base, deadlines, t) <= Elapsed(base, deadlines, u)
    ensures deadlines != [] && Due(base, deadlines[|deadlines| - 1], t) ==>
      Elapsed(base, deadlines, t) == Elapsed(base, deadlines, u)
  {
    if deadlines != [] {
      var front, last := deadlines[..|deadlines| - 1], deadlines[|deadlines| - 1];
      assert Ascending(front) && Uniform(base, front);
      ElapsedMonotone(base, front, t, u);
      DueMeans(base, last, t);
      DueMeans(base, last, u);
      if front != [] { DueMeans(base, front[|front| - 1], t); }
    }
  }

  /** Once every deadline is due the moments follow the list. */
  lemma {:induction false} ElapsedAll(base: int, deadlines: seq<u64>, t: int)
    requires forall k :: 0 <= k < |deadlines| ==> Due(base, deadlines[k], t)
    ensures |Elapsed(base, deadlines, t)| == |deadlines|
    ensures deadlines != [] ==> Elapsed(base, deadlines, t)[0] == IdleFor(deadlines[0])
  {
    if deadlines != [] { ElapsedAll(base, deadlines[..|deadlines| - 1], t); }
  }

  ghost predicate Positive(deadlines: seq<u64>) {
    forall k :: 0 <= k < |deadlines| ==> deadlines[k] > 0
  }

  /** A list that mixes both kinds: at the baseline only the deadlines that do not fit count
      as elapsed, and they are not the first ones later. */
  lemma MixedBreaks(base: int, deadlines: seq<u64>)
    requires Clock(base) && Ascending(deadlines) && Positive(deadlines) && !Uniform(base, deadlines)
    ensures !(Elapsed(base, deadlines, base) <= Elapsed(base, deadlines, I64_LIMIT - 1))
  {
    MixedEarly(base, deadlines);
    forall i | 0 <= i < |deadlines| ensures Due(base, deadlines[i], I64_LIMIT - 1) { DueMeans(base, deadlines[i], I64_LIMIT - 1); }
    ElapsedAll(base, deadlines, I64_LIMIT - 1);
  }

  lemma MixedEarly(base: int, deadlines: seq<u64>)
    requires Clock(base) && Ascending(deadlines) && Positive(deadlines) && !Uniform(base, deadlines)
    ensures var early := Elapsed(base, deadlines, base); early != [] && early[0] != IdleFor(deadlines[0])
  {
    var early := Elapsed(base, deadlines, base);
    var k :| 0 <= k < |deadlines| && !Fits(base, deadlines[k]);
    var j :| 0 <= j < |deadlines| && Fits(base, deadlines[j]);
    assert deadlines[0] <= deadlines[j];
    DueMeans(base, deadlines[k], base);
    DueMeans(base, deadlines[0], base);
    assert IdleFor(deadlines[k]) in early;
    assert early[0] in early;
  }

  /** As the clock goes forward from a baseline the earlier moments are a prefix of the later
      ones, exactly when all fire times fit an `i64` or none does. */
  lemma PrefixExactly(base: int, deadlines: seq<u64>)
    requires Clock(base) && Ascending(deadlines) && Positive(deadlines)
    ensures (forall t: int, u: int :: base <= t <= u < I64_LIMIT ==> Elapsed(base, deadlines, t) <= Elapsed(base, deadlines, u)) <==>
            Uniform(base, deadlines)
  {
    if Uniform(base, deadlines) {
      forall t: int, u: int | base <= t <= u < I64_LIMIT ensures Elapsed(base, deadlines, t) <= Elapsed(base, deadlines, u) {
        ElapsedMonotone(base, deadlines, t, u);
      }
    } else {
      MixedBreaks(base, deadlines);
      assert !(Elapsed(base, deadlines, base) <= Elapsed(base, deadlines, I64_LIMIT - 1));
    }
  }

  /** Then a fork that matched before the debounce matches after it with the same trigger. */
  lemma DebounceOnlyAdds(runOn: seq<RunOn>, gauge: Option<u64>, window: u64, base: int, deadlines: seq<u64>,
                         t: int, u: int, default: u64)
    requires Clock(base) && Ascending(deadlines) && Uniform(base, deadlines) && t <= u
    ensures var early := ElapsedMoments(gauge, window, base, deadlines, t);
      var late := ElapsedMoments(gauge, window, base, deadlines, u);
      && early <= late
      && (MatchMoments(runOn, early, default).Some? ==>
            MatchMoments(runOn, late, default) == MatchMoments(runOn, early, default))
  {
    ElapsedMonotone(base, deadlines, t, u);
    var early := ElapsedMoments(gauge, window, base, deadlines, t);
    var late := ElapsedMoments(gauge, window, base, deadlines, u);
    assert early <= late;
    if MatchMoments(runOn, early, default).Some? { MatchPrefix(runOn, early, late, default); }
  }

  /** For instance 10 seconds together with 2^63 - 1, from any baseline but 0. */
  lemma OversizedBreaksPrefix(base: int)
    requires 0 < base && base + 10 < I64_LIMIT
    ensures var ds: seq<u64> := [10, 0x7fff_ffff_ffff_ffff];
      Ascending(ds) && !(Elapsed(base, ds, base) <= Elapsed(base, ds, I64_LIMIT - 1))
  {
    var ds: seq<u64> := [10, 0x7fff_ffff_ffff_ffff];
    assert Fits(base, ds[0]) && !Fits(base, ds[1]);
    MixedBreaks(base, ds);
  }

  // ---- a context trigger in front of an idle one ----

  /** The context trigger the gauge meets, if any. */
  function GaugeTrigger(runOn: seq<RunOn>, gauge: Option<u64>, window: u64, default: u64): (r: Option<RunOn>)
    ensures r.Some? ==> r.value.IsContext()
  {
    if gauge.Some? then MatchOne(runOn, Gauge(gauge.value, Some(window)), default) else None
  }

  /** The gauge comes first: an elapsed idle deadline is looked at only when no context
      trigger is met. */
  lemma GaugeGoesFirst(runOn: seq<RunOn>, gauge: Option<u64>, window: u64, base: int, deadlines: seq<u64>, t: int, default: u64)
    ensures var c := GaugeTrigger(runOn, gauge, window, default);
      MatchMoments(runOn, ElapsedMoments(gauge, window, base, deadlines, t), default) ==
      if c.Some? then c else MatchMoments(runOn, Elapsed(base, deadlines, t), default)
  {
    var all := ElapsedMoments(gauge, window, base, deadlines, t);
    if gauge.Some? {
      assert all[0] == Gauge(gauge.value, Some(window)) && all[1..] == Elapsed(base, deadlines, t);
    } else {
      assert all == Elapsed(base, deadlines, t);
    }
  }

  lemma IdleMatchIsIdle(runOn: seq<RunOn>, base: int, deadlines: seq<u64>, t: int, default: u64)
    ensures var r := MatchMoments(runOn, Elapsed(base, deadlines, t), default); r.Some? ==> r.value.Idle?
  {}

  // ---- the direct rule ----

  /** The threshold a context trigger states, in exact arithmetic. */
  ghost predicate Meets(t: RunOn, gauge: u64, window: u64) {
    match t
    case ContextTokens(n) => gauge >= n
    case ContextUsedPct(p) => gauge * 100 >= window * p
    case ContextLeft(n) => window - gauge <= n
    case _ => false
  }

  /** The saturating percentage test errs only when the gauge itself saturates. */
  lemma PercentExact(g: u64, w: u64, p: nat)
    ensures Saturate(g * 100) >= Saturate(w * p) <==> (g * 100 >= w * p || g * 100 >= U64_LIMIT)
  {}

  ghost predicate ContextMet(def: ForkDef, gauge: Option<u64>, window: u64) {
    gauge.Some? && exists k :: 0 <= k < |def.runOn| && Meets(def.runOn[k], gauge.value, window)
  }

  ghost predicate IdleMet(def: ForkDef, default: u64, base: int, now: int) {
    exists d: u64 :: Wants(def, default, d) && base + d <= now
  }

  lemma GaugeHits(t: RunOn, gauge: u64, window: u64, default: u64)
    requires gauge <= window && gauge * 100 < U64_LIMIT
    ensures Hit(Gauge(gauge, Some(window)), t, default) <==> Meets(t, gauge, window)
  {
    if t.ContextUsedPct? { PercentExact(gauge, window, t.pct); }
  }

  /** Every idle delay the fork asks for fits when counted from the baseline. */
  ghost predicate DelaysFit(def: ForkDef, default: u64, base: int) {
    forall d: u64 :: Wants(def, default, d) ==> Fits(base, d)
  }

  ghost predicate DelayDue(def: ForkDef, default: u64, base: int, now: int) {
    exists d: u64 :: Wants(def, default, d) && Due(base, d, now)
  }

  lemma MatchMeans(def: ForkDef, deadlines: seq<u64>, gauge: Option<u64>, w: u64, base: int, now: int, default: u64)
    requires gauge.Some? ==> gauge.value <= w && gauge.value * 100 < U64_LIMIT
    requires MatchMoments(def.runOn, ElapsedMoments(gauge, w, base, deadlines, now), default).Some?
    ensures ContextMet(def, gauge, w) || DelayDue(def, default, base, now)
  {
    var moments := ElapsedMoments(gauge, w, base, deadlines, now);
    var r := MatchMoments(def.runOn, moments, default);
    var m :| m in moments && Hit(m, r.value, default);
    var k :| 0 <= k < |def.runOn| && def.runOn[k] == r.value;
    if m.IdleFor? {
      assert m in Elapsed(base, deadlines, now);
      assert WaitsFor(def.runOn[k], default, m.deadline);
      assert Wants(def, default, m.deadline);
    } else {
      GaugeHits(r.value, gauge.value, w, default);
    }
  }

  lemma DueMatches(def: ForkDef, forks: seq<ForkDef>, deadlines: seq<u64>, gauge: Option<u64>, w: u64, base: int,
                   now: int, default: u64, d: u64)
    requires def in forks && IsDeadlines(deadlines, forks, default) && Wants(def, default, d) && Due(base, d, now)
    ensures MatchMoments(def.runOn, ElapsedMoments(gauge, w, base, deadlines, now), default).Some?
  {
    assert SomeWants(forks, default, d);
    assert IdleFor(d) in Elapsed(base, deadlines, now);
    assert IdleFor(d) in ElapsedMoments(gauge, w, base, deadlines, now);
    var k :| 0 <= k < |def.runOn| && WaitsFor(def.runOn[k], default, d);
    assert Hit(IdleFor(d), def.runOn[k], default);
  }

  lemma ContextMatches(def: ForkDef, deadlines: seq<u64>, gauge: Option<u64>, w: u64, base: int, now: int, default: u64)
    requires gauge.Some? ==> gauge.value <= w && gauge.value * 100 < U64_LIMIT
    requires ContextMet(def, gauge, w)
    ensures MatchMoments(def.runOn, ElapsedMoments(gauge, w, base, deadlines, now), default).Some?
  {
    var moments := ElapsedMoments(gauge, w, base, deadlines, now);
    var k :| 0 <= k < |def.runOn| && Meets(def.runOn[k], gauge.value, w);
    GaugeHits(def.runOn[k], gauge.value, w, default);
    assert moments[0] in moments;
  }

  /** What the indexed pipeline matches, delay by delay. */
  lemma PipelineMatches(def: ForkDef, forks: seq<ForkDef>, deadlines: seq<u64>, gauge: Option<u64>, w: u64, base: int,
                        now: int, default: u64)
    requires def in forks && IsDeadlines(deadlines, forks, default)
    requires gauge.Some? ==> gauge.value <= w && gauge.value * 100 < U64_LIMIT
    ensures MatchMoments(def.runOn, ElapsedMoments(gauge, w, base, deadlines, now), default).Some? <==>
            (ContextMet(def, gauge, w) || DelayDue(def, default, base, now))
  {
    if MatchMoments(def.runOn, ElapsedMoments(gauge, w, base, deadlines, now), default).Some? {
      MatchMeans(def, deadlines, gauge, w, base, now, default);
    }
    if ContextMet(def, gauge, w) { ContextMatches(def, deadlines, gauge, w, base, now, default); }
    if d: u64 :| Wants(def, default, d) && Due(base, d, now) {
      DueMatches(def, forks, deadlines, gauge, w, base, now, default, d);
    }
  }

  /** The indexed pipeline agrees with the direct rule for every fork that contributes
      deadlines and whose own delays fit. */
  lemma PipelineIsDirect(def: ForkDef, forks: seq<ForkDef>, deadlines: seq<u64>, model: Option<string>,
                         gauge: Option<u64>, w: u64, base: int, now: int, default: u64)
    requires def in forks && IsDeadlines(deadlines, forks, default) && Clock(base) && DelaysFit(def, default, base)
    requires IsWindow(model, gauge, w) && (gauge.Some? ==> gauge.value * 100 < U64_LIMIT)
    ensures MatchMoments(def.runOn, ElapsedMoments(gauge, ResolveContextWindow(model, gauge), base, deadlines, now), default).Some? <==>
            (ContextMet(def, gauge, w) || IdleMet(def, default, base, now))
  {
    PipelineMatches(def, forks, deadlines, gauge, w, base, now, default);
    forall d: u64 | Wants(def, default, d) ensures Due(base, d, now) <==> base + d <= now { SumWraps(base, d); }
  }

  /** And it agrees at all times from the baseline on exactly then, unless a context threshold
      is met anyway. */
  lemma PipelineExactly(def: ForkDef, forks: seq<ForkDef>, deadlines: seq<u64>, model: Option<string>,
                        gauge: Option<u64>, w: u64, base: int, default: u64)
    requires def in forks && IsDeadlines(deadlines, forks, default) && Clock(base)
    requires IsWindow(model, gauge, w) && (gauge.Some? ==> gauge.value * 100 < U64_LIMIT)
    ensures
      (forall now: int :: base <= now < I64_LIMIT ==>
         (MatchMoments(def.runOn, ElapsedMoments(gauge, ResolveContextWindow(model, gauge), base, deadlines, now), default).Some? <==>
          (ContextMet(def, gauge, w) || IdleMet(def, default, base, now)))) <==>
      (ContextMet(def, gauge, w) || DelaysFit(def, default, base))
  {
    if ContextMet(def, gauge, w) {
      forall now: int | base <= now < I64_LIMIT
        ensures MatchMoments(def.runOn, ElapsedMoments(gauge, w, base, deadlines, now), default).Some? {
        PipelineMatches(def, forks, deadlines, gauge, w, base, now, default);
      }
    } else if DelaysFit(def, default, base) {
      forall now: int | base <= now < I64_LIMIT
        ensures MatchMoments(def.runOn, ElapsedMoments(gauge, w, base, deadlines, now), default).Some? <==> IdleMet(def, default, base, now) {
        PipelineIsDirect(def, forks, deadlines, model, gauge, w, base, now, default);
      }
    } else {
      var d: u64 :| Wants(def, default, d) && !Fits(base, d);
      DeadlineExact(base, d, base);
      PipelineMatches(def, forks, deadlines, gauge, w, base, base, default);
      assert MatchMoments(def.runOn, ElapsedMoments(gauge, w, base, deadlines, base), default).Some? && !IdleMet(def, default, base, base);
    }
  }

  /** The gauge never exceeds the resolved window, so the tokens left are a true difference. */
  lemma LeftNeverSaturates(model: Option<string>, gauge: u64, w: u64, n: u64, default: u64)
    requires IsWindow(model, Some(gauge), w)
    ensures Hit(Gauge(gauge, Some(ResolveContextWindow(model, Some(gauge)))), ContextLeft(n), default) <==> w - gauge <= n
  {}

  // ---- which trigger it is ----

  /** The context trigger is met by the gauge, as far as saturating arithmetic can tell. */
  ghost predicate MetBy(t: RunOn, gauge: u64, w: u64) {
    Meets(t, gauge, w) || (t.ContextUsedPct? && gauge * 100 >= U64_LIMIT)
  }

  /** `d` is a positive serviced delay and has passed since `base`; a fire time past the clock's
      range comes up 2^64 seconds early. */
  ghost predicate Passed(deadlines: seq<u64>, base: int, now: int, d: u64) {
    d > 0 && d in deadlines && (base + d <= now || (base + d >= I64_LIMIT && base + d - U64_LIMIT <= now))
  }

  ghost predicate Ready(t: RunOn, gauge: Option<u64>, w: u64, deadlines: seq<u64>, base: int, now: int, default: u64) {
    || (gauge.Some? && MetBy(t, gauge.value, w))
    || exists d: u64 :: WaitsFor(t, default, d) && Passed(deadlines, base, now, d)
  }

  /** Context triggers go first, then idle ones by delay; the order of the file decides among
      equals. */
  ghost predicate Precedes(runOn: seq<RunOn>, default: u64, j: nat, k: nat)
    requires j < |runOn| && k < |runOn|
  {
    if !runOn[j].Idle? then runOn[k].Idle? || j < k
    else exists d: u64, e: u64 :: WaitsFor(runOn[j], default, d) && WaitsFor(runOn[k], default, e) && (d < e || (d == e && j < k))
  }

  /** Trigger `k` of the fork is the one that fires. */
  ghost predicate Chosen(runOn: seq<RunOn>, gauge: Option<u64>, w: u64, deadlines: seq<u64>, base: int, now: int, default: u64, k: nat) {
    && k < |runOn| && Ready(runOn[k], gauge, w, deadlines, base, now, default)
    && forall j :: 0 <= j < |runOn| && j != k && Ready(runOn[j], gauge, w, deadlines, base, now, default) ==>
         Precedes(runOn, default, k, j)
  }

  ghost predicate FirstHit(runOn: seq<RunOn>, moment: Moment, default: u64, k: nat) {
    k < |runOn| && Hit(moment, runOn[k], default) && forall j :: 0 <= j < k ==> !Hit(moment, runOn[j], default)
  }

  lemma {:induction false} MatchOneFirst(runOn: seq<RunOn>, moment: Moment, default: u64) returns (k: nat)
    requires MatchOne(runOn, moment, default).Some?
    ensures FirstHit(runOn, moment, default, k) && MatchOne(runOn, moment, default) == Some(runOn[k])
  {
    if Hit(moment, runOn[0], default) {
      k := 0;
    } else {
      k := MatchOneFirst(runOn[1..], moment, default);
      k := k + 1;
    }
  }

  ghost predicate NoHit(runOn: seq<RunOn>, moment: Moment, default: u64) {
    forall j :: 0 <= j < |runOn| ==> !Hit(moment, runOn[j], default)
  }

  /** The match comes from the first moment that any trigger meets, and is the first trigger
      that meets it. */
  lemma {:induction false} MatchFirst(runOn: seq<RunOn>, moments: seq<Moment>, default: u64) returns (i: nat, k: nat)
    requires MatchMoments(runOn, moments, default).Some?
    ensures i < |moments| && FirstHit(runOn, moments[i], default, k) && MatchMoments(runOn, moments, default) == Some(runOn[k])
    ensures forall j :: 0 <= j < i ==> NoHit(runOn, moments[j], default)
  {
    if MatchOne(runOn, moments[0], default).Some? {
      i := 0;
      k := MatchOneFirst(runOn, moments[0], default);
    } else {
      i, k := MatchFirst(runOn, moments[1..], default);
      i := i + 1;
    }
  }

  lemma PassedIsDue(deadlines: seq<u64>, base: int, now: int, d: u64)
    requires Clock(base) && Clock(now) && d in deadlines && d > 0
    ensures Passed(deadlines, base, now, d) <==> Due(base, d, now)
  {
    SumWraps(base, d);
  }

  ghost predicate InOrder(ms: seq<Moment>) {
    && (forall i :: 0 <= i < |ms| ==> ms[i].IdleFor?)
    && forall i, j :: 0 <= i < j < |ms| ==> ms[i].deadline < ms[j].deadline
  }

  /** The elapsed deadlines are listed in ascending order. */
  lemma {:induction false} ElapsedAscends(base: int, deadlines: seq<u64>, now: int)
    requires Ascending(deadlines)
    ensures InOrder(Elapsed(base, deadlines, now))
  {
    if deadlines != [] {
      var front := deadlines[..|deadlines| - 1];
      var e, rest := Elapsed(base, deadlines, now), Elapsed(base, front, now);
      ElapsedAscends(base, front, now);
      forall i | 0 <= i < |rest| ensures rest[i].IdleFor? && rest[i].deadline < deadlines[|deadlines| - 1] {
        assert rest[i] in rest;
        var k :| 0 <= k < |front| && front[k] == rest[i].deadline;
      }
      assert e == rest || e == rest + [IdleFor(deadlines[|deadlines| - 1])];
    }
  }

  lemma IdleHits(t: RunOn, d: u64, default: u64)
    ensures Hit(IdleFor(d), t, default) <==> WaitsFor(t, default, d) && d > 0
  {}

  lemma ContextHits(t: RunOn, gauge: u64, w: u64, default: u64)
    requires gauge <= w
    ensures Hit(Gauge(gauge, Some(w)), t, default) <==> MetBy(t, gauge, w)
  {
    if t.ContextUsedPct? { PercentExact(gauge, w, t.pct); }
  }

  /** A trigger is ready exactly when some elapsed moment hits it. */
  lemma ReadyIsHit(t: RunOn, gauge: Option<u64>, w: u64, deadlines: seq<u64>, base: int, now: int, default: u64)
    requires Clock(base) && Clock(now) && (gauge.Some? ==> gauge.value <= w)
    ensures Ready(t, gauge, w, deadlines, base, now, default) <==>
            exists m :: m in ElapsedMoments(gauge, w, base, deadlines, now) && Hit(m, t, default)
  {
    var all := ElapsedMoments(gauge, w, base, deadlines, now);
    if gauge.Some? {
      ContextHits(t, gauge.value, w, default);
      assert all[0] in all;
    }
    if d: u64 :| WaitsFor(t, default, d) && Passed(deadlines, base, now, d) {
      PassedIsDue(deadlines, base, now, d);
      IdleHits(t, d, default);
      assert IdleFor(d) in Elapsed(base, deadlines, now);
      assert IdleFor(d) in all;
    }
    if m :| m in all && Hit(m, t, default) {
      if m.IdleFor? {
        assert m in Elapsed(base, deadlines, now);
        IdleHits(t, m.deadline, default);
        PassedIsDue(deadlines, base, now, m.deadline);
      }
    }
  }

  /** The gauge comes before the elapsed deadlines, and these ascend. */
  lemma AllAscend(gauge: Option<u64>, w: u64, base: int, deadlines: seq<u64>, now: int, i: nat, y: nat)
    requires Ascending(deadlines) && i <= y < |ElapsedMoments(gauge, w, base, deadlines, now)|
    ensures var all := ElapsedMoments(gauge, w, base, deadlines, now);
      if i == y then all[i] == all[y] else all[y].IdleFor? && (all[i].IdleFor? ==> all[i].deadline < all[y].deadline)
  {
    var all, e, g := ElapsedMoments(gauge, w, base, deadlines, now), Elapsed(base, deadlines, now), |GaugeMoment(gauge, w)|;
    ElapsedAscends(base, deadlines, now);
    if i < y { assert all[y] == e[y - g]; }
    if g <= i { assert all[i] == e[i - g]; }
  }

  /** Triggers that hit moments in this order stand in this order. */
  lemma HitsPrecede(runOn: seq<RunOn>, default: u64, a: Moment, b: Moment, k: nat, j: nat)
    requires j < |runOn| && j != k && FirstHit(runOn, a, default, k) && Hit(b, runOn[j], default)
    requires a == b || (b.IdleFor? && (a.IdleFor? ==> a.deadline < b.deadline))
    ensures Precedes(runOn, default, k, j)
  {
    if a.IdleFor? { IdleHits(runOn[k], a.deadline, default); }
    if b.IdleFor? { IdleHits(runOn[j], b.deadline, default); }
  }

  /** Whatever is ready is ready for a moment that comes no earlier, and then stands behind. */
  lemma FirstPrecedes(runOn: seq<RunOn>, gauge: Option<u64>, w: u64, deadlines: seq<u64>, base: int, now: int, default: u64,
                      i: nat, k: nat, j: nat)
    requires Clock(base) && Clock(now) && Ascending(deadlines) && (gauge.Some? ==> gauge.value <= w)
    requires var all := ElapsedMoments(gauge, w, base, deadlines, now);
      i < |all| && FirstHit(runOn, all[i], default, k) && forall x :: 0 <= x < i ==> NoHit(runOn, all[x], default)
    requires j < |runOn| && j != k && Ready(runOn[j], gauge, w, deadlines, base, now, default)
    ensures Precedes(runOn, default, k, j)
  {
    var all := ElapsedMoments(gauge, w, base, deadlines, now);
    ReadyIsHit(runOn[j], gauge, w, deadlines, base, now, default);
    var m :| m in all && Hit(m, runOn[j], default);
    var y :| 0 <= y < |all| && all[y] == m;
    assert forall x :: 0 <= x < i ==> all[x] != m;
    AllAscend(gauge, w, base, deadlines, now, i, y);
    HitsPrecede(runOn, default, all[i], m, k, j);
  }

  /** The trigger the pipeline matches is the chosen one; it matches none exactly when no
      trigger is ready. */
  lemma TriggerExactly(runOn: seq<RunOn>, gauge: Option<u64>, w: u64, deadlines: seq<u64>, base: int, now: int, default: u64)
    requires Clock(base) && Clock(now) && Ascending(deadlines) && (gauge.Some? ==> gauge.value <= w)
    ensures var r := MatchMoments(runOn, ElapsedMoments(gauge, w, base, deadlines, now), default);
      && (r.Some? ==> exists k: nat :: Chosen(runOn, gauge, w, deadlines, base, now, default, k) && r.value == runOn[k])
      && (r.None? ==> forall k: nat :: !Chosen(runOn, gauge, w, deadlines, base, now, default, k))
  {
    var all := ElapsedMoments(gauge, w, base, deadlines, now);
    if MatchMoments(runOn, all, default).Some? {
      var i, k := MatchFirst(runOn, all, default);
      assert all[i] in all;
      ReadyIsHit(runOn[k], gauge, w, deadlines, base, now, default);
      forall j: nat | j < |runOn| && j != k && Ready(runOn[j], gauge, w, deadlines, base, now, default)
        ensures Precedes(runOn, default, k, j)
      {
        FirstPrecedes(runOn, gauge, w, deadlines, base, now, default, i, k, j);
      }
      assert Chosen(runOn, gauge, w, deadlines, base, now, default, k);
    } else {
      forall k: nat | k < |runOn| ensures !Ready(runOn[k], gauge, w, deadlines, base, now, default) {
        ReadyIsHit(runOn[k], gauge, w, deadlines, base, now, default);
      }
    }
  }

  lemma OneGoesFirst(runOn: seq<RunOn>, default: u64, j: nat, k: nat)
    requires j < |runOn| && k < |runOn| && j != k
    ensures !(Precedes(runOn, default, j, k) && Precedes(runOn, default, k, j))
  {}

  /** At most one trigger is chosen. */
  lemma ChosenOnce(runOn: seq<RunOn>, gauge: Option<u64>, w: u64, deadlines: seq<u64>, base: int, now: int, default: u64,
                   j: nat, k: nat)
    requires Chosen(runOn, gauge, w, deadlines, base, now, default, j) && Chosen(runOn, gauge, w, deadlines, base, now, default, k)
    ensures j == k
  {
    if j != k { OneGoesFirst(runOn, default, j, k); }
  }
}
