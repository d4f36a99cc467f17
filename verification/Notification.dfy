/** Task-notification envelopes: the ids and status of a finished background task. */
module Notification {
  import opened Text

  const PREFIX: string := "<task-notification>"

  datatype Note = Note(toolUseId: Option<string>, taskId: Option<string>, status: Option<string>)

  const NO_NOTE := Note(None, None, None)

  predicate IsTerminalStatus(status: string) {
    status == "completed" || status == "failed" || status == "stopped"
  }

  function OpenTag(name: string): string {
    "<" + name + ">"
  }

  function CloseTag(name: string): string {
    "</" + name + ">"
  }

  /** Where the text between the first `open` and the next `close` lies. */
  function Between(text: string, open: string, close: string): (r: Option<(nat, nat)>)
    ensures r.Some? ==> r.value.0 <= r.value.1 <= |text|
  {
    var p := Find(text, open);
    if p < 0 then None
    else
      var end := Find(text, close, p + |open|);
      if end < 0 then None else Some((p + |open|, end))
  }

  /** Where the first `<name>…</name>` keeps its text, if it is closed. */
  function TagSpan(text: string, name: string): (r: Option<(nat, nat)>)
    ensures r.Some? ==> r.value.0 <= r.value.1 <= |text|
  {
    Between(text, OpenTag(name), CloseTag(name))
  }

  /** The trimmed text between the two; none when missing, unclosed or blank. */
  function ValueOf(text: string, open: string, close: string): Option<string> {
    match Between(text, open, close)
    case None => None
    case Some((start, end)) =>
      var v := Trim(text[start..end]);
      if v == "" then None else Some(v)
  }

  /** The trimmed text of the first `<name>…</name>`. */
  function TagValue(text: string, name: string): Option<string> {
    ValueOf(text, OpenTag(name), CloseTag(name))
  }

  function Parse(text: string): Option<Note> {
    var t := TrimStart(text);
    if PREFIX <= t then
      Some(Note(TagValue(t, "tool-use-id"), TagValue(t, "task-id"), TagValue(t, "status")))
    else None
  }

  // ---- what is read ----

  /** `v` is the trimmed text between the first `open` and the first `close` after it, and is not
      blank. */
  ghost predicate Encloses(t: string, open: string, close: string, v: string) {
    exists p: nat, e: nat ::
      && At(t, p, open) && (forall q: nat :: q < p ==> !At(t, q, open))
      && p + |open| <= e && At(t, e, close) && (forall q: nat :: p + |open| <= q < e ==> !At(t, q, close))
      && v == Trim(t[p + |open|..e]) && v != ""
  }

  /** The field holds what the tags enclose, and nothing when they enclose nothing. */
  ghost predicate FieldIs(t: string, open: string, close: string, field: Option<string>) {
    if field.Some? then Encloses(t, open, close, field.value) else forall v :: !Encloses(t, open, close, v)
  }

  lemma ValueExactly(t: string, open: string, close: string)
    ensures FieldIs(t, open, close, ValueOf(t, open, close))
  {
    FindMeans(t, open, 0);
    var p := Find(t, open);
    if p >= 0 { FindMeans(t, close, p + |open|); }
    forall v | Encloses(t, open, close, v) ensures ValueOf(t, open, close) == Some(v) { EnclosedIsRead(t, open, close, v); }
  }

  lemma EnclosedIsRead(t: string, open: string, close: string, v: string)
    requires Encloses(t, open, close, v)
    ensures ValueOf(t, open, close) == Some(v)
  {
    var p: nat, e: nat :|
      && At(t, p, open) && (forall q: nat :: q < p ==> !At(t, q, open))
      && p + |open| <= e && At(t, e, close) && (forall q: nat :: p + |open| <= q < e ==> !At(t, q, close))
      && v == Trim(t[p + |open|..e]) && v != "";
    FindIs(t, open, 0, p);
    FindIs(t, close, p + |open|, e);
    SpanReads(t, open, close, p, e);
  }

  lemma SpanReads(t: string, open: string, close: string, p: nat, e: nat)
    requires p + |open| <= |t| && Find(t, open) == p && Find(t, close, p + |open|) == e && Trim(t[p + |open|..e]) != ""
    ensures ValueOf(t, open, close) == Some(Trim(t[p + |open|..e]))
  {
    SpanIs(t, open, close, p, e);
  }

  /** A prompt is a notification exactly when, white space aside, it begins with the envelope's
      tag; each field is then read from the tags of its own name. */
  lemma ParseExactly(text: string)
    ensures Parse(text).Some? <==> "<task-notification>" <= TrimStart(text)
    ensures Parse(text).Some? ==> FieldsAre(TrimStart(text), Parse(text).value)
  {
    FieldsExactly(TrimStart(text));
  }

  ghost predicate FieldsAre(t: string, n: Note) {
    && FieldIs(t, "<tool-use-id>", "</tool-use-id>", n.toolUseId)
    && FieldIs(t, "<task-id>", "</task-id>", n.taskId)
    && FieldIs(t, "<status>", "</status>", n.status)
  }

  lemma FieldsExactly(t: string)
    ensures FieldsAre(t, Note(TagValue(t, "tool-use-id"), TagValue(t, "task-id"), TagValue(t, "status")))
  {
    ToolUseField(t);
    TaskField(t);
    StatusField(t);
  }

  lemma ToolUseField(t: string)
    ensures FieldIs(t, "<tool-use-id>", "</tool-use-id>", TagValue(t, "tool-use-id"))
  {
    FieldExactly(t, "tool-use-id", "<tool-use-id>", "</tool-use-id>");
  }

  lemma TaskField(t: string)
    ensures FieldIs(t, "<task-id>", "</task-id>", TagValue(t, "task-id"))
  {
    FieldExactly(t, "task-id", "<task-id>", "</task-id>");
  }

  lemma StatusField(t: string)
    ensures FieldIs(t, "<status>", "</status>", TagValue(t, "status"))
  {
    FieldExactly(t, "status", "<status>", "</status>");
  }

  lemma FieldExactly(t: string, name: string, open: string, close: string)
    requires open == "<" + name + ">" && close == "</" + name + ">"
    ensures FieldIs(t, open, close, TagValue(t, name))
  {
    ValueExactly(t, open, close);
  }

  // ---- what the payload can and cannot influence ----

  lemma SpanIs(s: string, o: string, c: string, p: nat, e: nat)
    requires p + |o| <= |s| && Find(s, o) == p && Find(s, c, p + |o|) == e
    ensures Between(s, o, c) == Some((p + |o|, e))
  {}

  lemma BetweenExtends(h: string, p: string, open: string, close: string)
    requires Between(h, open, close).Some?
    ensures Between(h + p, open, close) == Between(h, open, close)
  {
    var at := Find(h, open);
    FindExtends(h, p, open, 0);
    FindExtends(h, p, close, at + |open|);
    SpanIs(h + p, open, close, at, Find(h, close, at + |open|));
  }

  lemma ValueExtends(h: string, p: string, name: string)
    requires TagSpan(h, name).Some?
    ensures TagValue(h + p, name) == TagValue(h, name)
  {
    BetweenExtends(h, p, OpenTag(name), CloseTag(name));
    var (start, end) := TagSpan(h, name).value;
    assert (h + p)[start..end] == h[start..end];
  }

  /** A tag name without angle brackets and without the letter used as filler below. */
  predicate PlainName(name: string) {
    '<' !in name && 'x' !in name
  }

  /** A text that can start nowhere inside itself but at its first character `c`. */
  ghost predicate OnlyStarts(w: string, c: char) {
    w != [] && w[0] == c && forall k :: 1 <= k < |w| ==> w[k] != c
  }

  lemma TagShapes(name: string)
    requires PlainName(name)
    ensures OnlyStarts(OpenTag(name), '<') && CloseTag(name) != [] && 'x' !in CloseTag(name)
  {
    forall k | 1 <= k < |OpenTag(name)| ensures OpenTag(name)[k] != '<' {
      if k < |OpenTag(name)| - 1 { assert OpenTag(name)[k] == name[k - 1] && name[k - 1] in name; }
    }
    forall k | 0 <= k < |CloseTag(name)| ensures CloseTag(name)[k] != 'x' {
      if 2 <= k < |CloseTag(name)| - 1 { assert CloseTag(name)[k] == name[k - 2] && name[k - 2] in name; }
    }
  }

  /** What follows `h` does not complete an occurrence of `w` begun inside it when its first
      character cannot be a later one of `w`. */
  lemma NoStraddle(h: string, t: string, w: string, q: nat)
    requires t != [] && q < |h| && !At(h, q, w) && forall k :: 1 <= k < |w| ==> w[k] != t[0]
    ensures !At(h + t, q, w)
  {
    AtExtends(h, t, q, w);
    if |h| - q < |w| { AtNot(h + t, q, w, |h| - q); }
  }

  /** The filler and a closing tag, right after `h`: the first closing tag from `start` on. */
  lemma Closed(h: string, c: string, start: nat)
    requires c != [] && 'x' !in c && start <= |h| && Find(h, c, start) < 0
    ensures Find(h + ("x" + c), c, start) == |h| + 1
  {
    var t := "x" + c;
    var s := h + t;
    FindMeans(h, c, start);
    forall k | 0 <= k < |c| ensures c[k] != 'x' { assert c[k] in c; }
    forall q: nat | start <= q < |h| ensures !At(s, q, c) { NoStraddle(h, t, c, q); }
    AtNot(s, |h|, c, 0);
    assert s[|h| + 1..|h| + 1 + |c|] == c;
    FindIs(s, c, start, |h| + 1);
  }

  lemma Opened(h: string, t: string, o: string)
    requires OnlyStarts(o, '<') && Find(h, o) < 0
    ensures Find(h + (o + t), o) == |h|
  {
    var s := h + (o + t);
    FindMeans(h, o, 0);
    forall q: nat | q < |h| ensures !At(s, q, o) { NoStraddle(h, o + t, o, q); }
    assert s[|h|..|h| + |o|] == o;
    FindIs(s, o, 0, |h|);
  }

  lemma TooShort(h: string, c: string)
    requires c != []
    ensures Find(h, c, |h|) < 0
  {}

  lemma Rejoin(h: string, o: string, t: string)
    ensures h + (o + t) == (h + o) + t
  {}

  /** A tag opened right after `h`, with its closing tag found in what follows. */
  lemma Supplied(h: string, o: string, c: string, t: string)
    requires OnlyStarts(o, '<') && Find(h, o) < 0 && Find((h + o) + t, c, |h + o|) == |h| + |o| + 1
    ensures Between(h + (o + t), o, c) == Some((|h| + |o|, |h| + |o| + 1))
  {
    Rejoin(h, o, t);
    Opened(h, t, o);
    SpanIs(h + (o + t), o, c, |h|, |h| + |o| + 1);
  }

  lemma Filler(h: string, o: string, c: string)
    ensures (h + (o + ("x" + c)))[|h| + |o|..|h| + |o| + 1] == "x"
  {}

  /** An unopened tag can be supplied by the payload. */
  lemma UnopenedIsForgeable(h: string, name: string)
    requires PlainName(name) && Find(h, OpenTag(name)) < 0
    ensures TagValue(h + (OpenTag(name) + ("x" + CloseTag(name))), name) == Some("x")
  {
    TagShapes(name);
    TooShort(h + OpenTag(name), CloseTag(name));
    Closed(h + OpenTag(name), CloseTag(name), |h + OpenTag(name)|);
    Supplied(h, OpenTag(name), CloseTag(name), "x" + CloseTag(name));
    Filler(h, OpenTag(name), CloseTag(name));
    TrimTrimmed("x");
  }

  lemma Completed(h: string, t: string, o: string, c: string)
    requires Find(h, o) >= 0 && t != [] && Find(h + t, c, Find(h, o) + |o|) == |h| + 1
    ensures Between(h + t, o, c) == Some((Find(h, o) + |o|, |h| + 1))
  {
    FindExtends(h, t, o, 0);
  }

  /** An opened but unclosed tag can be completed by the payload. */
  lemma UnclosedIsForgeable(h: string, name: string)
    requires PlainName(name) && Find(h, OpenTag(name)) >= 0 && TagSpan(h, name).None?
    ensures TagValue(h + ("x" + CloseTag(name)), name).Some?
  {
    TagShapes(name);
    Closed(h, CloseTag(name), Find(h, OpenTag(name)) + |OpenTag(name)|);
    Completed(h, "x" + CloseTag(name), OpenTag(name), CloseTag(name));
    var s, start := h + ("x" + CloseTag(name)), Find(h, OpenTag(name)) + |OpenTag(name)|;
    assert s[start..|h| + 1][|h| - start] == 'x';
    TrimKeeps(s[start..|h| + 1], |h| - start);
  }

  /** A field is independent of the payload exactly when the header already closes its tag. */
  lemma FieldIndependence(h: string, name: string)
    requires PlainName(name)
    ensures (forall p :: TagValue(h + p, name) == TagValue(h, name)) <==> TagSpan(h, name).Some?
  {
    if TagSpan(h, name).Some? {
      forall p ensures TagValue(h + p, name) == TagValue(h, name) { ValueExtends(h, p, name); }
    } else if Find(h, OpenTag(name)) < 0 {
      UnopenedIsForgeable(h, name);
      assert TagValue(h + (OpenTag(name) + ("x" + CloseTag(name))), name) != TagValue(h, name);
    } else {
      UnclosedIsForgeable(h, name);
      assert TagValue(h + ("x" + CloseTag(name)), name) != TagValue(h, name);
    }
  }

  lemma {:induction false} TrimStartExtends(h: string, p: string)
    requires TrimStart(h) != ""
    ensures TrimStart(h + p) == TrimStart(h) + p
  {
    if h != [] && IsSpace(h[0]) {
      TrimStartExtends(h[1..], p);
      assert (h + p)[1..] == h[1..] + p;
    }
  }

  lemma EnvelopeExtends(h: string, p: string)
    requires PREFIX <= TrimStart(h)
    ensures TrimStart(h + p) == TrimStart(h) + p && PREFIX <= TrimStart(h) + p
  {
    TrimStartExtends(h, p);
  }

  /** What some text after the header makes of a field it does not close, it makes of the
      whole notification. */
  lemma FieldShows(h: string, name: string)
    requires PREFIX <= TrimStart(h) && name in {"tool-use-id", "task-id", "status"}
    requires PlainName(name) && TagSpan(TrimStart(h), name).None?
    ensures exists p :: Parse(h + p) != Parse(h)
  {
    FieldIndependence(TrimStart(h), name);
    var p :| TagValue(TrimStart(h) + p, name) != TagValue(TrimStart(h), name);
    EnvelopeExtends(h, p);
    assert Parse(h + p) != Parse(h);
  }

  /** The payload changes nothing exactly when the header closes all three fields. */
  lemma EnvelopeIndependence(h: string)
    requires PREFIX <= TrimStart(h)
    ensures (forall p :: Parse(h + p) == Parse(h)) <==>
      && TagSpan(TrimStart(h), "tool-use-id").Some?
      && TagSpan(TrimStart(h), "task-id").Some?
      && TagSpan(TrimStart(h), "status").Some?
  {
    var t := TrimStart(h);
    if TagSpan(t, "tool-use-id").None? {
      FieldShows(h, "tool-use-id");
    } else if TagSpan(t, "task-id").None? {
      FieldShows(h, "task-id");
    } else if TagSpan(t, "status").None? {
      FieldShows(h, "status");
    } else {
      forall p ensures Parse(h + p) == Parse(h) { ClosedFields(h, p); }
    }
  }

  lemma ClosedFields(h: string, p: string)
    requires PREFIX <= TrimStart(h)
    requires TagSpan(TrimStart(h), "tool-use-id").Some?
    requires TagSpan(TrimStart(h), "task-id").Some?
    requires TagSpan(TrimStart(h), "status").Some?
    ensures Parse(h + p) == Parse(h)
  {
    var t := TrimStart(h);
    EnvelopeExtends(h, p);
    ValueExtends(t, p, "tool-use-id");
    ValueExtends(t, p, "task-id");
    ValueExtends(t, p, "status");
  }
}
