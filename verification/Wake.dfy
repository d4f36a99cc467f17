/** Wake text: the fingerprint spawn prompts carry and the marker wake blocks carry. */
module Wake {
  import opened Text
  import Notification

  const WAKE_MARKER: string := "source: autofork"
  const SPAWN_CTX_PREFIX: string := "Context for this run: fork '"

  const READ_FILE: string := "Read the file "
  const FOLLOW: string := " and follow the instructions in its body. "

  /** The prompt a fork is spawned with. `rest` is everything after the quoted name:
      trigger, ids, and for a release the predecessors and any appended reports. */
  function SpawnPrompt(path: string, name: string, rest: string): string {
    READ_FILE + path + FOLLOW + SPAWN_CTX_PREFIX + name + "'" + rest
  }

  /** The nonempty text from `start` to the next quote. */
  function UpToQuote(s: string, start: nat): Option<string>
    requires start <= |s|
  {
    var end := Find(s, "'", start);
    if end < 0 || end == start then None else Some(s[start..end])
  }

  /** The nonempty text between the first `w` and the next quote. */
  function QuotedAfter(s: string, w: string): Option<string> {
    var p := Find(s, w);
    if p < 0 then None else UpToQuote(s, p + |w|)
  }

  /** The fork name the transcript reader finds in a spawn prompt. */
  function ForkNameFromPrompt(prompt: string): Option<string> {
    QuotedAfter(prompt, SPAWN_CTX_PREFIX)
  }

  /** Inside the fingerprint no space is followed by the letter that follows the path. */
  lemma FingerprintGaps(k: nat)
    requires 1 <= k < |SPAWN_CTX_PREFIX| && SPAWN_CTX_PREFIX[k] == ' '
    ensures k + 1 < |SPAWN_CTX_PREFIX| && SPAWN_CTX_PREFIX[k + 1] != 'a'
  {
    assert k == 7 || k == 11 || k == 16 || k == 21 || k == 26;
  }

  lemma NoCapital(p: nat)
    ensures p < |READ_FILE| ==> READ_FILE[p] != 'C'
    ensures p < |FOLLOW| ==> FOLLOW[p] != 'C'
  {}

  /** An occurrence cannot run from inside the path into the text after it. */
  lemma NoStraddle(s: string, p: nat, b: nat)
    requires p < b < p + |SPAWN_CTX_PREFIX| && b + 1 < |s| && s[b] == ' ' && s[b + 1] == 'a'
    ensures !At(s, p, SPAWN_CTX_PREFIX)
  {
    var k := b - p;
    if SPAWN_CTX_PREFIX[k] == ' ' {
      FingerprintGaps(k);
      AtNot(s, p, SPAWN_CTX_PREFIX, k + 1);
    } else {
      AtNot(s, p, SPAWN_CTX_PREFIX, k);
    }
  }

  lemma Reassociate(a: string, b: string, c: string, d: string)
    ensures a + b + c + d == a + (b + (c + d))
  {}

  /** No occurrence of the fingerprint starts before the intended one, straddling or not. */
  lemma NoEarlierFingerprint(path: string, tail: string, p: nat)
    requires !Contains(path, SPAWN_CTX_PREFIX) && p < |READ_FILE + path + FOLLOW|
    ensures !At(READ_FILE + path + FOLLOW + tail, p, SPAWN_CTX_PREFIX)
  {
    var s, a, b := READ_FILE + path + FOLLOW + tail, |READ_FILE|, |READ_FILE + path|;
    if p < a {
      NoCapital(p);
      AtNot(s, p, SPAWN_CTX_PREFIX, 0);
    } else if p >= b {
      NoCapital(p - b);
      AtNot(s, p, SPAWN_CTX_PREFIX, 0);
    } else if p + |SPAWN_CTX_PREFIX| <= b {
      FindMeans(path, SPAWN_CTX_PREFIX, 0);
      Reassociate(READ_FILE, path, FOLLOW, tail);
      AtShift(READ_FILE, path + (FOLLOW + tail), p - a, SPAWN_CTX_PREFIX);
      AtExtends(path, FOLLOW + tail, p - a, SPAWN_CTX_PREFIX);
    } else {
      NoStraddle(s, p, b);
    }
  }

  lemma FingerprintFound(path: string, tail: string)
    requires !Contains(path, SPAWN_CTX_PREFIX)
    ensures Find(READ_FILE + path + FOLLOW + SPAWN_CTX_PREFIX + tail, SPAWN_CTX_PREFIX) == |READ_FILE + path + FOLLOW|
  {
    var lead := READ_FILE + path + FOLLOW;
    var s := lead + SPAWN_CTX_PREFIX + tail;
    assert s == lead + (SPAWN_CTX_PREFIX + tail);
    forall q: nat | 0 <= q < |lead| ensures !At(s, q, SPAWN_CTX_PREFIX) {
      NoEarlierFingerprint(path, SPAWN_CTX_PREFIX + tail, q);
    }
    assert s[|lead|..|lead| + |SPAWN_CTX_PREFIX|] == SPAWN_CTX_PREFIX;
    FindIs(s, SPAWN_CTX_PREFIX, 0, |lead|);
  }

  /** Reading a name up to the next quote. */
  lemma QuotedName(pre: string, name: string, rest: string)
    ensures UpToQuote(pre + name + "'" + rest, |pre|) == Some(name) <==> (name != "" && '\'' !in name)
  {
    var s, e := pre + name + "'" + rest, |pre| + |name|;
    assert s[e..e + 1] == "'";
    assert s[|pre|..e] == name;
    forall q: nat | |pre| <= q < e ensures At(s, q, "'") <==> name[q - |pre|] == '\'' {
      assert s[q..q + 1] == [name[q - |pre|]];
    }
    if '\'' !in name {
      forall q: nat | |pre| <= q < e ensures !At(s, q, "'") { assert name[q - |pre|] in name; }
      FindIs(s, "'", |pre|, e);
    } else {
      var i :| 0 <= i < |name| && name[i] == '\'';
      assert At(s, |pre| + i, "'");
      var end := Find(s, "'", |pre|);
      FindMeans(s, "'", |pre|);
      assert |s[|pre|..end]| < |name|;
    }
  }

  /** The name survives the round trip through the prompt exactly when it is nonempty and
      free of quotes, for every path that does not itself carry the fingerprint. */
  lemma FingerprintRoundTrip(path: string, name: string, rest: string)
    requires !Contains(path, SPAWN_CTX_PREFIX)
    ensures ForkNameFromPrompt(SpawnPrompt(path, name, rest)) == Some(name) <==> (name != "" && '\'' !in name)
  {
    var tail, s := name + "'" + rest, SpawnPrompt(path, name, rest);
    assert s == READ_FILE + path + FOLLOW + SPAWN_CTX_PREFIX + tail;
    FingerprintFound(path, tail);
    QuotedName(READ_FILE + path + FOLLOW + SPAWN_CTX_PREFIX, name, rest);
  }

  /** A path that quotes a fingerprint of its own decides the name by itself. */
  lemma SpoofedPath(path: string, name: string, rest: string)
    requires Contains(path, SPAWN_CTX_PREFIX)
    requires Find(path, "'", Find(path, SPAWN_CTX_PREFIX) + |SPAWN_CTX_PREFIX|) >= 0
    ensures ForkNameFromPrompt(SpawnPrompt(path, name, rest)) == ForkNameFromPrompt(path)
  {
    var tail := FOLLOW + SPAWN_CTX_PREFIX + name + "'" + rest;
    PromptShape(path, name, rest);
    FirstInPath(path, tail);
    QuotedAfterIs(SpawnPrompt(path, name, rest), SPAWN_CTX_PREFIX, |READ_FILE| + Find(path, SPAWN_CTX_PREFIX));
    QuotedAfterIs(path, SPAWN_CTX_PREFIX, Find(path, SPAWN_CTX_PREFIX));
    QuoteWithin(READ_FILE, path, tail, Find(path, SPAWN_CTX_PREFIX) + |SPAWN_CTX_PREFIX|);
  }

  lemma QuotedAfterIs(s: string, w: string, p: nat)
    requires p + |w| <= |s| && Find(s, w) == p
    ensures QuotedAfter(s, w) == UpToQuote(s, p + |w|)
  {}

  /** The text between a path and the quote of the fingerprint that follows it. */
  const RUN_ON: string := FOLLOW + "Context for this run: fork "

  lemma RunOnLacksQuote()
    ensures RUN_ON != "" && '\'' !in RUN_ON
  {
    forall q | 0 <= q < |RUN_ON| ensures RUN_ON[q] != '\'' {}
  }

  lemma Cons(a: string, b: string, c: string, d: string, e: string)
    ensures a + b + c + d + e == a + (b + (c + d + e))
  {}

  lemma TailShape(name: string, rest: string)
    ensures FOLLOW + SPAWN_CTX_PREFIX + name + "'" + rest == RUN_ON + ("'" + (name + "'" + rest))
  {
    assert FOLLOW + SPAWN_CTX_PREFIX == RUN_ON + "'";
    Cons(RUN_ON, "'", name, "'", rest);
  }

  lemma QuoteAt(s: string, q: nat)
    requires q < |s|
    ensures At(s, q, "'") <==> s[q] == '\''
  {
    assert s[q..q + 1] == [s[q]];
  }

  lemma NoQuoteAfter(s: string, start: nat)
    requires start <= |s| && Find(s, "'", start) < 0
    ensures '\'' !in s[start..]
  {
    FindMeans(s, "'", start);
    forall q | start <= q < |s| ensures s[q] != '\'' { QuoteAt(s, q); }
  }

  lemma QuoteShape(a: string, s: string, u: string, rest: string, start: nat)
    requires start <= |s|
    ensures a + (s + (u + ("'" + rest))) == (a + s[..start]) + (s[start..] + u) + "'" + rest
  {
    assert s == s[..start] + s[start..];
  }

  lemma NoQuoteIn(a: string, b: string)
    requires '\'' !in a && '\'' !in b
    ensures '\'' !in a + b
  {}

  lemma QuotedIn(full: string, pre: string, name: string, rest: string)
    requires full == pre + name + "'" + rest && name != "" && '\'' !in name
    ensures UpToQuote(full, |pre|) == Some(name)
  {
    QuotedName(pre, name, rest);
  }

  /** The first quote after `start` lies past the end of `s` and of `u`. */
  lemma QuoteBeyond(full: string, a: string, s: string, u: string, rest: string, start: nat)
    requires full == a + (s + (u + ("'" + rest)))
    requires start <= |s| && Find(s, "'", start) < 0 && u != "" && '\'' !in u
    ensures UpToQuote(full, |a| + start) == Some(s[start..] + u)
  {
    var pre, name := a + s[..start], s[start..] + u;
    assert name != "" && '\'' !in name by {
      NoQuoteAfter(s, start);
      NoQuoteIn(s[start..], u);
    }
    assert full == pre + name + "'" + rest by { QuoteShape(a, s, u, rest, start); }
    QuotedIn(full, pre, name, rest);
  }

  /** A path that carries the fingerprint with no quote after it runs on into the prompt: the
      name found ends at the quote of the prompt's own fingerprint. */
  lemma UnquotedPath(path: string, name: string, rest: string)
    requires Contains(path, SPAWN_CTX_PREFIX)
    requires Find(path, "'", Find(path, SPAWN_CTX_PREFIX) + |SPAWN_CTX_PREFIX|) < 0
    ensures ForkNameFromPrompt(SpawnPrompt(path, name, rest)) ==
            Some(path[Find(path, SPAWN_CTX_PREFIX) + |SPAWN_CTX_PREFIX|..] + RUN_ON)
  {
    var p, tail := Find(path, SPAWN_CTX_PREFIX), FOLLOW + SPAWN_CTX_PREFIX + name + "'" + rest;
    PromptShape(path, name, rest);
    FirstInPath(path, tail);
    QuotedAfterIs(SpawnPrompt(path, name, rest), SPAWN_CTX_PREFIX, |READ_FILE| + p);
    TailShape(name, rest);
    RunOnLacksQuote();
    QuoteBeyond(SpawnPrompt(path, name, rest), READ_FILE, path, RUN_ON, name + "'" + rest, p + |SPAWN_CTX_PREFIX|);
  }

  lemma QuotedTail(name: string, rest: string)
    ensures name + "'" + rest == name + ("'" + rest) == (name + "'") + rest
  {}

  /** What precedes and follows does not matter for the first quote of a quoted name. */
  lemma HeadQuote(pre: string, name: string, rest: string)
    ensures UpToQuote(pre + ((name + "'") + rest), |pre|) == UpToQuote(name + "'", 0)
  {
    var s := name + "'";
    QuoteAt(s, |name|);
    FindMeans(s, "'", 0);
    QuoteWithin(pre, s, rest, 0);
  }

  lemma PlainPath(path: string, name: string, rest: string)
    requires !Contains(path, SPAWN_CTX_PREFIX)
    ensures ForkNameFromPrompt(SpawnPrompt(path, name, rest)) == UpToQuote(name + "'", 0)
  {
    var lead, tail := READ_FILE + path + FOLLOW, name + "'" + rest;
    var s := lead + SPAWN_CTX_PREFIX + tail;
    Reassociate(lead + SPAWN_CTX_PREFIX, name, "'", rest);
    QuotedTail(name, rest);
    assert SpawnPrompt(path, name, rest) == s;
    FingerprintFound(path, tail);
    QuotedAfterIs(s, SPAWN_CTX_PREFIX, |lead|);
    HeadQuote(lead + SPAWN_CTX_PREFIX, name, rest);
  }

  /** The name read back from any spawn prompt, for every path: up to the first quote in the
      name itself, unless the path carries a fingerprint of its own. */
  lemma NameReadBack(path: string, name: string, rest: string)
    ensures ForkNameFromPrompt(SpawnPrompt(path, name, rest)) ==
      if !Contains(path, SPAWN_CTX_PREFIX) then UpToQuote(name + "'", 0)
      else if Find(path, "'", Find(path, SPAWN_CTX_PREFIX) + |SPAWN_CTX_PREFIX|) >= 0 then ForkNameFromPrompt(path)
      else Some(path[Find(path, SPAWN_CTX_PREFIX) + |SPAWN_CTX_PREFIX|..] + RUN_ON)
  {
    if !Contains(path, SPAWN_CTX_PREFIX) {
      PlainPath(path, name, rest);
    } else if Find(path, "'", Find(path, SPAWN_CTX_PREFIX) + |SPAWN_CTX_PREFIX|) >= 0 {
      SpoofedPath(path, name, rest);
    } else {
      UnquotedPath(path, name, rest);
    }
  }

  lemma PromptShape(path: string, name: string, rest: string)
    ensures SpawnPrompt(path, name, rest) ==
            READ_FILE + (path + (FOLLOW + SPAWN_CTX_PREFIX + name + "'" + rest))
  {
    Regroup(READ_FILE, path, FOLLOW, SPAWN_CTX_PREFIX, name, "'", rest);
  }

  lemma Regroup(a: string, b: string, c: string, d: string, e: string, f: string, g: string)
    ensures a + b + c + d + e + f + g == a + (b + (c + d + e + f + g))
  {}

  lemma QuoteWithin(a: string, s: string, t: string, start: nat)
    requires start <= |s| && Find(s, "'", start) >= 0
    ensures UpToQuote(a + (s + t), |a| + start) == UpToQuote(s, start)
  {
    var end := Find(s, "'", start);
    FindExtends(s, t, "'", start);
    FindShift(a, s + t, "'", start);
    assert (a + (s + t))[|a| + start..|a| + end] == s[start..end];
  }

  lemma FirstInPath(path: string, tail: string)
    requires Contains(path, SPAWN_CTX_PREFIX)
    ensures Find(READ_FILE + (path + tail), SPAWN_CTX_PREFIX) == |READ_FILE| + Find(path, SPAWN_CTX_PREFIX)
  {
    var s, t := READ_FILE + (path + tail), path + tail;
    FindExtends(path, tail, SPAWN_CTX_PREFIX, 0);
    forall x: nat | x < |READ_FILE| ensures !At(s, x, SPAWN_CTX_PREFIX) {
      NoCapital(x);
      AtNot(s, x, SPAWN_CTX_PREFIX, 0);
    }
    FindShift(READ_FILE, t, SPAWN_CTX_PREFIX, 0);
    FindMeans(s, SPAWN_CTX_PREFIX, |READ_FILE|);
    FindIs(s, SPAWN_CTX_PREFIX, 0, |READ_FILE| + Find(path, SPAWN_CTX_PREFIX));
  }

  lemma FindShift(a: string, s: string, w: string, from: nat)
    requires from <= |s| && Find(s, w, from) >= 0
    ensures Find(a + s, w, |a| + from) == |a| + Find(s, w, from)
  {
    var p := Find(s, w, from);
    FindMeans(s, w, from);
    AtShift(a, s, p, w);
    forall q: nat | |a| + from <= q < |a| + p ensures !At(a + s, q, w) { AtShift(a, s, q - |a|, w); }
    FindIs(a + s, w, |a| + from, |a| + p);
  }

  // ---- the wake marker and the hook's sniff ----

  const BLOCK_HEAD: string := "---\n" + WAKE_MARKER + "\ndue: "

  /** A wake or release block: every one opens with the marker. */
  function BlockText(name: string, trigger: string, rest: string): string {
    BLOCK_HEAD + name + " (trigger: " + trigger + ")" + rest
  }

  /** Blocks in order, blank-line separated, then notes and instructions. */
  function PayloadText(blocks: seq<string>, closing: string): string {
    if blocks == [] then closing
    else blocks[0] + "\n\n" + PayloadText(blocks[1..], closing)
  }

  /** What the hook tells the daemon about a submitted prompt. */
  datatype Sniff = Sniff(waking: Option<bool>, note: Notification.Note)

  function ClassifyPrompt(prompt: Option<string>): Sniff {
    match prompt
    case None => Sniff(None, Notification.NO_NOTE)
    case Some(p) =>
      if Contains(p, WAKE_MARKER) then Sniff(Some(false), Notification.NO_NOTE)
      else
        match Notification.Parse(p)
        case Some(n) => Sniff(Some(false), n)
        case None => Sniff(Some(true), Notification.NO_NOTE)
  }

  /** The prompt is a notification envelope. */
  ghost predicate IsEnvelope(prompt: string) {
    "<task-notification>" <= TrimStart(prompt)
  }

  /** What the hook reports about any prompt: nothing when there is none, a continuation when the
      marker occurs in it or it is a notification, genuine activity otherwise; the ids of a
      notification are forwarded unless the marker occurs. */
  lemma SniffExactly(prompt: Option<string>)
    ensures var sniff := ClassifyPrompt(prompt);
      && (sniff.waking.None? <==> prompt.None?)
      && (prompt.Some? ==>
            var marked := exists p: nat :: At(prompt.value, p, "source: autofork");
            && sniff.waking == Some(!marked && !IsEnvelope(prompt.value))
            && (if !marked && IsEnvelope(prompt.value)
                then Notification.Parse(prompt.value) == Some(sniff.note)
                else sniff.note == Notification.Note(None, None, None)))
      && (prompt.None? ==> sniff.note == Notification.Note(None, None, None))
  {
    if prompt.Some? {
      FindMeans(prompt.value, "source: autofork", 0);
      Notification.ParseExactly(prompt.value);
    }
  }

  /** However a nonempty wake payload is wrapped, the hook reports it as a continuation
      and forwards no task ids. */
  lemma WakeIsContinuation(before: string, name: string, trigger: string, rest: string, blocks: seq<string>,
                           closing: string, after: string)
    requires blocks != [] && blocks[0] == BlockText(name, trigger, rest)
    ensures ClassifyPrompt(Some(before + PayloadText(blocks, closing) + after)) ==
            Sniff(Some(false), Notification.NO_NOTE)
  {
    var p := PayloadText(blocks, closing);
    assert BLOCK_HEAD[4..4 + |WAKE_MARKER|] == WAKE_MARKER;
    assert p[..|BLOCK_HEAD|] == BLOCK_HEAD;
    assert p == BLOCK_HEAD + p[|BLOCK_HEAD|..];
    AtExtends(BLOCK_HEAD, p[|BLOCK_HEAD|..], 4, WAKE_MARKER);
    AtExtends(p, after, 4, WAKE_MARKER);
    AtShift(before, p + after, 4, WAKE_MARKER);
    assert before + p + after == before + (p + after);
    FindMeans(before + p + after, WAKE_MARKER, 0);
  }
}
