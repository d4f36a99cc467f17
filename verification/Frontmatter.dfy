/** Splitting a fork file into its `---`-delimited frontmatter and its body. */
module Frontmatter {
  import opened Text

  const DELIMITER: string := "\n---"

  /** The length of the opening line, or 0 when there is none. */
  function OpenerLength(content: string): (n: nat)
    ensures n <= |content|
  {
    if "---\r\n" <= content then 5 else if "---\n" <= content then 4 else 0
  }

  function DropLeadingCR(s: string): string {
    if s != [] && s[0] == '\r' then s[1..] else s
  }

  function DropTrailingCR(s: string): string {
    if s != [] && s[|s| - 1] == '\r' then s[..|s| - 1] else s
  }

  /** A closing line starts at `p`: the delimiter, an optional carriage return, then the
      end of the line or of the file. */
  predicate ClosesAt(rest: string, p: nat) {
    && At(rest, p, DELIMITER)
    && var tail := DropLeadingCR(rest[p + 4..]);
       tail == [] || tail[0] == '\n'
  }

  ghost predicate FirstClose(rest: string, p: nat) {
    ClosesAt(rest, p) && forall q: nat :: q < p ==> !ClosesAt(rest, q)
  }

  function BodyAfter(rest: string, p: nat): string
    requires ClosesAt(rest, p)
  {
    var tail := DropLeadingCR(rest[p + 4..]);
    if tail == [] then [] else tail[1..]
  }

  /** Two delimiters never overlap. */
  lemma DelimitersApart(rest: string, p: nat, q: nat)
    requires At(rest, p, DELIMITER) && p < q < p + 4
    ensures !At(rest, q, DELIMITER)
  {
    var k := q - p;
    assert rest[p..p + 4][k] == rest[q] == DELIMITER[k];
    AtNot(rest, q, DELIMITER, 0);
  }

  /** No closing line starts before `n`. */
  ghost predicate NoneBefore(rest: string, n: nat) {
    forall q: nat :: q < n ==> !ClosesAt(rest, q)
  }

  lemma NoMore(rest: string, from: nat)
    requires from <= |rest| && NoneBefore(rest, from) && Find(rest, DELIMITER, from) < 0
    ensures forall q: nat :: !ClosesAt(rest, q)
  {
    FindMeans(rest, DELIMITER, from);
    forall q: nat ensures !ClosesAt(rest, q) { if q >= from { assert !At(rest, q, DELIMITER); } }
  }

  lemma Reached(rest: string, from: nat)
    requires from <= |rest| && NoneBefore(rest, from) && Find(rest, DELIMITER, from) >= 0
    ensures At(rest, Find(rest, DELIMITER, from), DELIMITER) && NoneBefore(rest, Find(rest, DELIMITER, from))
  {
    FindMeans(rest, DELIMITER, from);
    forall q: nat | q < Find(rest, DELIMITER, from) ensures !ClosesAt(rest, q) {
      if q >= from { assert !At(rest, q, DELIMITER); }
    }
  }

  lemma Skipped(rest: string, p: nat)
    requires At(rest, p, DELIMITER) && !ClosesAt(rest, p) && NoneBefore(rest, p)
    ensures NoneBefore(rest, p + 4)
  {
    forall q: nat | q < p + 4 ensures !ClosesAt(rest, q) { if q > p { DelimitersApart(rest, p, q); } }
  }

  // ---- the file format ----

  ghost predicate OptionalCR(s: string) {
    s == "" || s == "\r"
  }

  /** The text from `q` on begins with a closing line. */
  ghost predicate ClosingLine(rest: string, q: nat) {
    exists cr, nl, after ::
      q <= |rest| && rest[q..] == "\n---" + cr + nl + after && OptionalCR(cr) && (nl == "\n" || (nl == "" && after == ""))
  }

  /** `content` is an opening line, the front, a closing line and the body. Carriage returns
      belong to the line ends; the closing line is the first there is. */
  ghost predicate IsSplit(content: string, front: string, body: string) {
    exists cr0, cr1, rest ::
      && OptionalCR(cr0) && OptionalCR(cr1) && content == "---" + cr0 + "\n" + rest
      && SplitsAt(rest, front, cr1, body)
  }

  ghost predicate SplitsAt(rest: string, front: string, cr: string, body: string) {
    && (cr == "" ==> front == "" || front[|front| - 1] != '\r')
    && |front + cr| <= |rest| && rest[..|front + cr|] == front + cr
    && Closes(rest[|front + cr|..], body)
    && forall q: nat :: q < |front + cr| ==> !ClosingLine(rest, q)
  }

  /** A closing line and the text after it. */
  ghost predicate Closes(s: string, body: string) {
    exists cr, nl :: OptionalCR(cr) && (nl == "\n" || (nl == "" && body == "")) && s == "\n---" + cr + nl + body
  }

  lemma TrailingCR(s: string) returns (cr: string)
    ensures OptionalCR(cr) && s == DropTrailingCR(s) + cr
  {
    cr := if DropTrailingCR(s) == s then "" else "\r";
  }

  lemma LeadingCR(s: string) returns (cr: string)
    ensures OptionalCR(cr) && s == cr + DropLeadingCR(s)
  {
    cr := if DropLeadingCR(s) == s then "" else "\r";
  }

  lemma LineEnd(rest: string, p: nat) returns (nl: string)
    requires ClosesAt(rest, p)
    ensures nl == "\n" || (nl == "" && BodyAfter(rest, p) == "")
    ensures DropLeadingCR(rest[p + 4..]) == nl + BodyAfter(rest, p)
  {
    nl := if DropLeadingCR(rest[p + 4..]) == [] then "" else "\n";
  }

  lemma ClosesExactly(rest: string, p: nat, body: string)
    requires p <= |rest|
    ensures Closes(rest[p..], body) <==> ClosesAt(rest, p) && body == BodyAfter(rest, p)
  {
    if ClosesAt(rest, p) && body == BodyAfter(rest, p) {
      var cr := LeadingCR(rest[p + 4..]);
      var nl := LineEnd(rest, p);
      AtSplits(rest, p, DELIMITER);
      assert rest[p..] == DELIMITER + (cr + (nl + body));
      Grouped(cr, nl, body);
    }
    if cr, nl :| OptionalCR(cr) && (nl == "\n" || (nl == "" && body == "")) && rest[p..] == "\n---" + cr + nl + body {
      Grouped(cr, nl, body);
      CloserReads(rest, p, cr, nl, body);
    }
  }

  lemma Grouped(cr: string, nl: string, body: string)
    ensures "\n---" + cr + nl + body == DELIMITER + (cr + (nl + body))
  {}

  lemma CloserReads(rest: string, p: nat, cr: string, nl: string, body: string)
    requires p <= |rest| && rest[p..] == DELIMITER + (cr + (nl + body))
    requires OptionalCR(cr) && (nl == "\n" || (nl == "" && body == ""))
    ensures ClosesAt(rest, p) && body == BodyAfter(rest, p)
  {
    assert rest[p..p + 4] == rest[p..][..4] == DELIMITER;
    assert rest[p + 4..] == rest[p..][4..] == cr + (nl + body);
    assert DropLeadingCR(cr + (nl + body)) == nl + body;
  }

  lemma ClosingLineExactly(rest: string, q: nat)
    ensures ClosingLine(rest, q) <==> ClosesAt(rest, q)
  {
    if ClosesAt(rest, q) {
      ClosesExactly(rest, q, BodyAfter(rest, q));
      var cr, nl :| OptionalCR(cr) && (nl == "\n" || (nl == "" && BodyAfter(rest, q) == "")) && rest[q..] == "\n---" + cr + nl + BodyAfter(rest, q);
    }
    if ClosingLine(rest, q) {
      var cr, nl, after :|
        q <= |rest| && rest[q..] == "\n---" + cr + nl + after && OptionalCR(cr) && (nl == "\n" || (nl == "" && after == ""));
      assert Closes(rest[q..], after);
      ClosesExactly(rest, q, after);
    }
  }

  /** The opening line is three dashes, an optional carriage return and a newline. */
  lemma OpenerExactly(content: string, cr: string, rest: string)
    requires OptionalCR(cr)
    ensures content == "---" + cr + "\n" + rest <==>
      OpenerLength(content) == 4 + |cr| && rest == content[4 + |cr|..]
  {
    var head := "---" + cr + "\n";
    assert head == "---\n" || head == "---\r\n";
    assert content == head + rest <==> head <= content && rest == content[|head|..];
    if "---\n" <= content { assert content[3] == "---\n"[3]; }
    if "---\r\n" <= content { assert content[3] == "---\r\n"[3]; }
  }

  lemma SplitsExactly(rest: string, front: string, cr: string, body: string, p: nat)
    requires OptionalCR(cr) && p <= |rest|
    ensures SplitsAt(rest, front, cr, body) && |front + cr| == p ==>
      FirstClose(rest, p) && front == DropTrailingCR(rest[..p]) && body == BodyAfter(rest, p)
    ensures FirstClose(rest, p) && rest[..p] == front + cr && front == DropTrailingCR(rest[..p]) && body == BodyAfter(rest, p) ==>
      SplitsAt(rest, front, cr, body)
  {
    forall q: nat ensures ClosingLine(rest, q) <==> ClosesAt(rest, q) { ClosingLineExactly(rest, q); }
    ClosesExactly(rest, p, body);
    if cr != "" { assert (front + cr)[..|front|] == front; } else { assert front + cr == front; }
  }

  lemma SplitMeans(content: string, front: string, body: string)
    ensures IsSplit(content, front, body) ==>
      OpenerLength(content) > 0 && exists p: nat :: ClosesAt(content[OpenerLength(content)..], p)
  {
    if IsSplit(content, front, body) {
      var cr0, cr1, rest :|
        && OptionalCR(cr0) && OptionalCR(cr1) && content == "---" + cr0 + "\n" + rest
        && SplitsAt(rest, front, cr1, body);
      OpenerExactly(content, cr0, rest);
      SplitsExactly(rest, front, cr1, body, |front + cr1|);
      assert ClosesAt(rest, |front + cr1|);
    }
  }

  lemma SplitShows(content: string, p: nat)
    requires OpenerLength(content) > 0 && FirstClose(content[OpenerLength(content)..], p)
    ensures var rest := content[OpenerLength(content)..]; IsSplit(content, DropTrailingCR(rest[..p]), BodyAfter(rest, p))
  {
    var n := OpenerLength(content);
    var rest := content[n..];
    var cr0, front := if n == 5 then "\r" else "", DropTrailingCR(rest[..p]);
    var cr1 := TrailingCR(rest[..p]);
    OpenerExactly(content, cr0, rest);
    SplitsExactly(rest, front, cr1, BodyAfter(rest, p), p);
  }

  /** Splits at the leftmost closing line; fails exactly when the opener or a closing line
      is missing. */
  method SplitFrontmatter(content: string) returns (front: Option<string>, body: string)
    ensures front.Some? <==> OpenerLength(content) > 0 && exists p: nat :: ClosesAt(content[OpenerLength(content)..], p)
    ensures front.None? ==> body == content
    ensures front.Some? ==>
      var rest := content[OpenerLength(content)..];
      exists p: nat :: FirstClose(rest, p) && front.value == DropTrailingCR(rest[..p]) && body == BodyAfter(rest, p)
    ensures front.Some? ==> IsSplit(content, front.value, body)
    ensures front.None? ==> forall f, b :: !IsSplit(content, f, b)
  {
    forall f, b ensures IsSplit(content, f, b) ==>
                        OpenerLength(content) > 0 && exists p: nat :: ClosesAt(content[OpenerLength(content)..], p) {
      SplitMeans(content, f, b);
    }
    front, body := None, content;
    var n := OpenerLength(content);
    if n == 0 { return; }
    var rest := content[n..];
    var searchFrom := 0;
    while true
      invariant 0 <= searchFrom <= |rest| && front.None? && body == content
      invariant NoneBefore(rest, searchFrom)
      decreases |rest| - searchFrom
    {
      var abs := Find(rest, DELIMITER, searchFrom);
      if abs < 0 {
        NoMore(rest, searchFrom);
        return;
      }
      Reached(rest, searchFrom);
      var tail := DropLeadingCR(rest[abs + 4..]);
      if tail == [] || tail[0] == '\n' {
        assert FirstClose(rest, abs);
        SplitShows(content, abs);
        front, body := Some(DropTrailingCR(rest[..abs])), BodyAfter(rest, abs);
        return;
      }
      Skipped(rest, abs);
      searchFrom := abs + 4;
    }
  }

  lemma AtSplits(s: string, p: nat, w: string)
    requires At(s, p, w)
    ensures s[p..] == w + s[p + |w|..] && s == s[..p] + w + s[p + |w|..]
  {}

  lemma Regroup(a: string, b: string, c: string, d: string, e: string, f: string, g: string)
    ensures a + ((b + c) + d + (e + (f + g))) == a + b + c + d + e + f + g
  {}

  /** A successful split loses nothing: opener, front, optional carriage return, delimiter,
      optional carriage return, line end and body rebuild the file. */
  lemma SplitRebuilds(content: string, p: nat) returns (cr: string, cr': string, nl: string)
    requires OpenerLength(content) > 0 && ClosesAt(content[OpenerLength(content)..], p)
    ensures OptionalCR(cr) && OptionalCR(cr')
    ensures var n := OpenerLength(content);
      var rest := content[n..];
      && (nl == "\n" || (nl == "" && BodyAfter(rest, p) == ""))
      && content == content[..n] + DropTrailingCR(rest[..p]) + cr + DELIMITER + cr' + nl + BodyAfter(rest, p)
  {
    var n := OpenerLength(content);
    var rest := content[n..];
    cr := TrailingCR(rest[..p]);
    cr' := LeadingCR(rest[p + 4..]);
    nl := LineEnd(rest, p);
    AtSplits(rest, p, DELIMITER);
    Rebuilt(content, content[..n], rest, DropTrailingCR(rest[..p]), cr, DELIMITER, cr', nl, BodyAfter(rest, p));
  }

  lemma Rebuilt(content: string, head: string, rest: string, front: string, cr: string, d: string, cr': string, nl: string, body: string)
    requires content == head + rest && rest == (front + cr) + d + (cr' + (nl + body))
    ensures content == head + front + cr + d + cr' + nl + body
  {
    Regroup(head, front, cr, d, cr', nl, body);
  }
}
