/** Fork definitions, trigger labels and latch keys. */
module Fork {
  import opened Text

  /** A moment a fork may fire at; only `Idle` and the `Context` forms ever do. */
  datatype RunOn =
    | Idle(after: Option<u64>)
    | ContextTokens(tokens: u64)
    | ContextUsedPct(pct: nat)
    | ContextLeft(tokens: u64)
    | Compact
    | SessionStart
    | SessionEnd
    | ManualStop
    | Boot
  {
    predicate Supported() {
      Idle? || IsContext()
    }

    predicate IsContext() {
      ContextTokens? || ContextUsedPct? || ContextLeft?
    }

    /** The label shown in wakes; context triggers also latch under it. */
    function Label(): string {
      match this
      case Idle(None) => "idle"
      case Idle(Some(s)) => "idle:" + Dec(s)
      case ContextTokens(n) => "context_tokens:" + Dec(n)
      case ContextUsedPct(p) => "context_used:" + Dec(p) + "%"
      case ContextLeft(n) => "context_left:" + Dec(n)
      case Compact => "compact"
      case SessionStart => "session_start"
      case SessionEnd => "session_end"
      case ManualStop => "manual_stop"
      case Boot => "boot"
    }
  }

  datatype ForkDef = ForkDef(
    runOn: seq<RunOn>,
    throttle: Option<u64>,
    after: seq<string>,
    overlap: bool,
    tags: seq<string>)

  function IdleKey(epoch: nat): string {
    "idle-pause:" + Dec(epoch)
  }

  /** The latch a matched trigger consumes: context thresholds once per session leg,
      idle triggers once per pause. */
  function LatchKey(trigger: RunOn, epoch: nat): Option<string> {
    match trigger
    case Idle(_) => Some(IdleKey(epoch))
    case ContextTokens(_) => Some(trigger.Label())
    case ContextUsedPct(_) => Some(trigger.Label())
    case ContextLeft(_) => Some(trigger.Label())
    case _ => None
  }

  lemma DropPrefix(p: string, a: string, b: string)
    requires p + a == p + b
    ensures a == b
  {
    assert (p + a)[|p|..] == a;
    assert (p + b)[|p|..] == b;
  }

  lemma IdleKeyInjective(d: nat, e: nat)
    ensures IdleKey(d) == IdleKey(e) <==> d == e
  {
    if IdleKey(d) == IdleKey(e) {
      DropPrefix("idle-pause:", Dec(d), Dec(e));
      DecInjective(d, e);
    }
  }

  lemma LabelHeads(t: RunOn)
    requires t.IsContext()
    ensures |t.Label()| > 8
    ensures t.Label()[8] == if t.ContextTokens? then 't' else if t.ContextUsedPct? then 'u' else 'l'
    ensures t.Label()[0] == 'c'
  {}

  /** The label of an idle trigger, as opposed to a context one. */
  predicate IdleLabelled(text: string) {
    text != "" && text[0] == 'i'
  }

  lemma LabelTells(t: RunOn)
    requires t.Supported()
    ensures IdleLabelled(t.Label()) <==> t.Idle?
  {
    if t.IsContext() { LabelHeads(t); }
  }

  /** Context labels are injective as strings. */
  lemma LabelInjective(t: RunOn, u: RunOn)
    requires t.IsContext() && u.IsContext()
    ensures t.Label() == u.Label() <==> t == u
  {
    LabelHeads(t);
    LabelHeads(u);
    if t.Label() == u.Label() {
      match t {
        case ContextTokens(n) =>
          DropPrefix("context_tokens:", Dec(n), Dec(u.tokens));
          DecInjective(n, u.tokens);
        case ContextUsedPct(p) =>
          assert t.Label()[..|t.Label()| - 1] == "context_used:" + Dec(p);
          assert u.Label()[..|u.Label()| - 1] == "context_used:" + Dec(u.pct);
          DropPrefix("context_used:", Dec(p), Dec(u.pct));
          DecInjective(p, u.pct);
        case ContextLeft(n) =>
          DropPrefix("context_left:", Dec(n), Dec(u.tokens));
          DecInjective(n, u.tokens);
      }
    }
  }

  /** Labels that differ in their first two characters or in their length tell the other
      triggers apart. */
  lemma PlainLabels(t: RunOn)
    requires !t.IsContext()
    ensures t.Label() != ""
    ensures t.Label()[0] == if t.Idle? then 'i' else if t.Compact? then 'c' else if t.ManualStop? then 'm' else if t.Boot? then 'b' else 's'
    ensures t.Compact? ==> |t.Label()| == 7
    ensures t.SessionStart? ==> |t.Label()| == 13
    ensures t.SessionEnd? ==> |t.Label()| == 11
    ensures t.Idle? ==> (|t.Label()| == 4 <==> t.after.None?)
  {}

  lemma IdleLabels(t: RunOn, u: RunOn)
    requires t.Idle? && u.Idle? && t.Label() == u.Label()
    ensures t == u
  {
    PlainLabels(t);
    PlainLabels(u);
    if t.after.Some? {
      DropPrefix("idle:", Dec(t.after.value), Dec(u.after.value));
      DecInjective(t.after.value, u.after.value);
    }
  }

  /** Any two triggers have the same label only if they are the same. */
  lemma LabelsDistinct(t: RunOn, u: RunOn)
    ensures t.Label() == u.Label() <==> t == u
  {
    if t.Label() == u.Label() {
      if t.IsContext() { LabelHeads(t); } else { PlainLabels(t); }
      if u.IsContext() { LabelHeads(u); } else { PlainLabels(u); }
      if t.IsContext() && u.IsContext() { LabelInjective(t, u); }
      if t.Idle? && u.Idle? { IdleLabels(t, u); }
    }
  }

  /** Every trigger that can match has a latch key, and two keys coincide only for idle
      triggers of one pause or for the same context threshold. */
  lemma LatchKeyInjective(t: RunOn, d: nat, u: RunOn, e: nat)
    ensures LatchKey(t, d).Some? <==> t.Supported()
    ensures t.Supported() && u.Supported() ==>
      (LatchKey(t, d) == LatchKey(u, e) <==> ((t.Idle? && u.Idle? && d == e) || (t.IsContext() && t == u)))
  {
    if t.Idle? && u.Idle? { IdleKeyInjective(d, e); }
    if t.IsContext() && u.IsContext() { LabelInjective(t, u); }
    if t.IsContext() { LabelHeads(t); }
    if u.IsContext() { LabelHeads(u); }
    assert IdleKey(d)[0] == IdleKey(e)[0] == 'i';
  }
}
