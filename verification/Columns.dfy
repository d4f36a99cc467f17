/** Lists kept in comma-joined text columns, and the parsers that feed them. */
module Columns {
  import opened Text

  /** The pieces between commas; always at least one. */
  function Pieces(s: string): (r: seq<string>)
    ensures r != []
    decreases |s|
  {
    var k := Find(s, ",");
    if k < 0 then [s] else [s[..k]] + Pieces(s[k + 1..])
  }

  lemma CommaAt(s: string, q: nat)
    requires q < |s|
    ensures At(s, q, ",") <==> s[q] == ','
  {
    assert s[q..q + 1] == [s[q]];
  }

  lemma CommaFree(s: string)
    ensures var k := Find(s, ",");
      (k < 0 ==> ',' !in s) && (k >= 0 ==> ',' !in s[..k])
  {
    FindMeans(s, ",", 0);
    forall q: nat | q < |s| ensures At(s, q, ",") <==> s[q] == ',' { CommaAt(s, q); }
  }

  /** The first piece and the rest, when there is a comma. */
  lemma PiecesNext(s: string) returns (head: string, tail: string)
    requires Find(s, ",") >= 0
    ensures s == head + "," + tail && ',' !in head && Pieces(s) == [head] + Pieces(tail)
  {
    var k := Find(s, ",");
    FindMeans(s, ",", 0);
    CommaFree(s);
    head, tail := s[..k], s[k + 1..];
    CommaAt(s, k);
  }

  ghost predicate CommaLess(l: seq<string>) {
    forall k :: 0 <= k < |l| ==> ',' !in l[k]
  }

  lemma {:induction false} PiecesLackCommas(s: string)
    ensures CommaLess(Pieces(s))
    decreases |s|
  {
    if Find(s, ",") < 0 {
      CommaFree(s);
    } else {
      var head, tail := PiecesNext(s);
      PiecesLackCommas(tail);
    }
  }

  function Join(l: seq<string>): string {
    if |l| == 0 then ""
    else if |l| == 1 then l[0]
    else l[0] + "," + Join(l[1..])
  }

  /** Entries trimmed, empties dropped. */
  function Tidy(l: seq<string>): seq<string> {
    if l == [] then []
    else (if Trim(l[0]) == "" then [] else [Trim(l[0])]) + Tidy(l[1..])
  }

  /** Reads a comma-joined column back into a list. */
  function SplitTags(s: string): seq<string> {
    Tidy(Pieces(s))
  }

  /** The text between two commas, or a comma and an end. */
  ghost predicate IsPiece(s: string, a: nat, b: nat) {
    a <= b <= |s| && ',' !in s[a..b] && (a == 0 || s[a - 1] == ',') && (b == |s| || s[b] == ',')
  }

  ghost predicate HasPiece(s: string, x: string) {
    exists a: nat, b: nat :: IsPiece(s, a, b) && s[a..b] == x
  }

  lemma PieceShifts(head: string, tail: string, a: nat, b: nat)
    requires a <= b <= |tail|
    ensures var s, n := head + "," + tail, |head| + 1;
      s[n + a..n + b] == tail[a..b] && (IsPiece(s, n + a, n + b) <==> IsPiece(tail, a, b))
  {
    var s, n := head + "," + tail, |head| + 1;
    assert s[n + a..n + b] == tail[a..b];
    assert s[n + a - 1] == if a == 0 then ',' else tail[a - 1];
    assert b < |tail| ==> s[n + b] == tail[b];
  }

  lemma FirstPiece(head: string, tail: string, a: nat, b: nat)
    requires ',' !in head && a <= |head|
    ensures IsPiece(head + "," + tail, a, b) <==> a == 0 && b == |head|
    ensures (head + "," + tail)[..|head|] == head
  {
    var s := head + "," + tail;
    assert s[..|head|] == head && s[|head|] == ',';
    if a > 0 { assert s[a - 1] == head[a - 1]; }
    if a <= b < |head| { assert s[b] == head[b]; }
    if |head| < b <= |s| { assert s[a..b][|head| - a] == ','; }
  }

  lemma PieceOfTail(head: string, tail: string, x: string)
    requires ',' !in head
    ensures HasPiece(head + "," + tail, x) <==> x == head || HasPiece(tail, x)
  {
    var s, n := head + "," + tail, |head| + 1;
    FirstPiece(head, tail, 0, |head|);
    if a: nat, b: nat :| IsPiece(tail, a, b) && tail[a..b] == x { PieceShifts(head, tail, a, b); }
    if a: nat, b: nat :| IsPiece(s, a, b) && s[a..b] == x {
      if a < n { FirstPiece(head, tail, a, b); } else { PieceShifts(head, tail, a - n, b - n); }
    }
  }

  lemma {:induction false} PiecesExactly(s: string, x: string)
    ensures x in Pieces(s) <==> HasPiece(s, x)
    decreases |s|
  {
    CommaFree(s);
    if Find(s, ",") < 0 {
      assert s[0..|s|] == s;
      if x == s { assert IsPiece(s, 0, |s|); }
    } else {
      var head, tail := PiecesNext(s);
      PiecesExactly(tail, x);
      PieceOfTail(head, tail, x);
    }
  }

  lemma {:induction false} TidyExactly(l: seq<string>, x: string)
    ensures x in Tidy(l) <==> x != "" && exists k :: 0 <= k < |l| && Trim(l[k]) == x
  {
    if l != [] { TidyExactly(l[1..], x); }
  }

  /** What a column holds: the pieces between its commas, trimmed, blank ones left out. */
  lemma SplitExactly(s: string, x: string)
    ensures x in SplitTags(s) <==> x != "" && exists a: nat, b: nat :: IsPiece(s, a, b) && Trim(s[a..b]) == x
  {
    TidyExactly(Pieces(s), x);
    if x in SplitTags(s) {
      var k :| 0 <= k < |Pieces(s)| && Trim(Pieces(s)[k]) == x;
      PiecesExactly(s, Pieces(s)[k]);
    }
    if a: nat, b: nat :| IsPiece(s, a, b) && Trim(s[a..b]) == x {
      PiecesExactly(s, s[a..b]);
    }
  }

  predicate CleanTag(t: string) {
    t != "" && Trim(t) == t && ',' !in t
  }

  predicate Clean(l: seq<string>) {
    forall k :: 0 <= k < |l| ==> CleanTag(l[k])
  }

  lemma TrimIsClean(s: string)
    requires ',' !in s
    ensures Trim(s) == "" || CleanTag(Trim(s))
  {
    TrimCorrect(s);
    TrimTrimmed(Trim(s));
    TrimLacks(s, ',');
  }

  lemma {:induction false} TidyClean(l: seq<string>)
    requires forall k :: 0 <= k < |l| ==> ',' !in l[k]
    ensures Clean(Tidy(l))
  {
    if l != [] {
      TidyClean(l[1..]);
      TrimIsClean(l[0]);
    }
  }

  /** Whatever a column holds, what is read from it is clean. */
  lemma SplitIsClean(s: string)
    ensures Clean(SplitTags(s))
  {
    PiecesLackCommas(s);
    TidyClean(Pieces(s));
  }

  lemma {:induction false} TidyIdentity(l: seq<string>)
    requires Clean(l)
    ensures Tidy(l) == l
  {
    if l != [] {
      TidyIdentity(l[1..]);
      assert CleanTag(l[0]);
    }
  }

  lemma PiecesOfOne(h: string)
    requires ',' !in h
    ensures Pieces(h) == [h]
  {
    FindMeans(h, ",", 0);
    forall q: nat | q < |h| ensures !At(h, q, ",") {
      CommaAt(h, q);
      assert h[q] in h;
    }
  }

  /** The first piece ends at the first comma. */
  lemma PiecesStep(h: string, rest: string)
    requires ',' !in h
    ensures Pieces(h + "," + rest) == [h] + Pieces(rest)
  {
    var s := h + "," + rest;
    forall q: nat | q < |h| ensures !At(s, q, ",") {
      assert s[q] == h[q] && h[q] in h;
      CommaAt(s, q);
    }
    assert s[|h|..|h| + 1] == ",";
    FindIs(s, ",", 0, |h|);
    assert s[|h| + 1..] == rest && s[..|h|] == h;
  }

  lemma {:induction false} PiecesOfJoin(l: seq<string>)
    requires l != [] && forall k :: 0 <= k < |l| ==> ',' !in l[k]
    ensures Pieces(Join(l)) == l
  {
    if |l| == 1 {
      PiecesOfOne(l[0]);
    } else {
      PiecesOfJoin(l[1..]);
      PiecesStep(l[0], Join(l[1..]));
    }
  }

  lemma Rejoin(h: string, t: string, b: string)
    ensures (h + "," + t) + "," + b == h + "," + (t + "," + b)
  {}

  lemma Regroup(h: seq<string>, a: seq<string>, b: seq<string>)
    ensures (h + a) + b == h + (a + b)
  {}

  lemma {:induction false} PiecesConcat(a: string, b: string)
    ensures Pieces(a + "," + b) == Pieces(a) + Pieces(b)
    decreases |a|
  {
    if Find(a, ",") < 0 {
      CommaFree(a);
      PiecesStep(a, b);
    } else {
      var head, tail := PiecesNext(a);
      PiecesConcat(tail, b);
      PiecesStep(head, tail + "," + b);
      Rejoin(head, tail, b);
      Regroup([head], Pieces(tail), Pieces(b));
    }
  }

  lemma {:induction false} TidyConcat(a: seq<string>, b: seq<string>)
    ensures Tidy(a + b) == Tidy(a) + Tidy(b)
  {
    if a == [] {
      assert a + b == b;
    } else {
      TidyConcat(a[1..], b);
      assert (a + b)[1..] == a[1..] + b;
      Regroup(if Trim(a[0]) == "" then [] else [Trim(a[0])], Tidy(a[1..]), Tidy(b));
    }
  }

  /** Whatever the entries are, a stored list reads back as what its entries split into. */
  lemma {:induction false} SplitOfJoin(l: seq<string>, x: string)
    ensures x in SplitTags(Join(l)) <==> exists k :: 0 <= k < |l| && x in SplitTags(l[k])
  {
    if l == [] {
      PiecesOfOne("");
      assert Tidy([""]) == Tidy([]);
    } else if |l| > 1 {
      SplitOfJoin(l[1..], x);
      PiecesConcat(l[0], Join(l[1..]));
      TidyConcat(Pieces(l[0]), Pieces(Join(l[1..])));
      if k :| 0 <= k < |l[1..]| && x in SplitTags(l[1..][k]) { assert x in SplitTags(l[k + 1]); }
      if k :| 0 < k < |l| && x in SplitTags(l[k]) { assert x in SplitTags(l[1..][k - 1]); }
    }
  }

  /** A stored list reads back as nothing but its own entries. */
  ghost predicate Storable(l: seq<string>) {
    forall k, x :: 0 <= k < |l| && x in SplitTags(l[k]) ==> x in l
  }

  lemma StorableMeans(l: seq<string>)
    ensures Storable(l) <==> forall x :: x in SplitTags(Join(l)) ==> x in l
  {
    if Storable(l) {
      forall x | x in SplitTags(Join(l)) ensures x in l { SplitOfJoin(l, x); }
    }
    if forall x :: x in SplitTags(Join(l)) ==> x in l {
      forall k, x | 0 <= k < |l| && x in SplitTags(l[k]) ensures x in l { SplitOfJoin(l, x); }
    }
  }

  lemma CleanIsStorable(l: seq<string>)
    requires Clean(l)
    ensures Storable(l)
  {
    forall k, x | 0 <= k < |l| && x in SplitTags(l[k]) ensures x in l { ColumnRoundTrip([l[k]]); }
  }

  /** Storing a list and reading it back returns it exactly when every entry is
      nonempty, trimmed and free of commas. */
  lemma ColumnRoundTrip(l: seq<string>)
    ensures SplitTags(Join(l)) == l <==> Clean(l)
  {
    SplitIsClean(Join(l));
    if Clean(l) {
      if l == [] {
        assert Pieces("") == [""];
        assert Tidy([""]) == Tidy([]);
      } else {
        forall k | 0 <= k < |l| ensures ',' !in l[k] { assert CleanTag(l[k]); }
        PiecesOfJoin(l);
        TidyIdentity(l);
      }
    }
  }

  lemma TwoEntries(a: string, b: string)
    requires CleanTag(a) && CleanTag(b)
    ensures SplitTags(a + "," + b) == [a, b]
  {
    ColumnRoundTrip([a, b]);
    assert [a, b][1..] == [b];
  }

  // ---- keeping first occurrences ----

  function Firsts(l: seq<string>): seq<string> {
    if l == [] then []
    else
      var r := Firsts(l[..|l| - 1]);
      if l[|l| - 1] in r then r else r + [l[|l| - 1]]
  }

  ghost predicate Distinct(l: seq<string>) {
    forall i, j :: 0 <= i < j < |l| ==> l[i] != l[j]
  }

  /** The position of the first occurrence of `x`. */
  ghost function FirstAt(l: seq<string>, x: string): (k: nat)
    requires x in l
    ensures k < |l| && l[k] == x && forall j :: 0 <= j < k ==> l[j] != x
  {
    if l[0] == x then 0 else 1 + FirstAt(l[1..], x)
  }

  lemma FirstAtPrefix(l: seq<string>, x: string)
    requires l != [] && x in l[..|l| - 1]
    ensures x in l && FirstAt(l, x) == FirstAt(l[..|l| - 1], x)
  {
    var front := l[..|l| - 1];
    var k := FirstAt(front, x);
    assert l[k] == front[k];
    assert forall j :: 0 <= j < k ==> l[j] == front[j];
  }

  /** `Firsts` has the same entries, each once, ordered by first occurrence. */
  lemma {:induction false} FirstsCorrect(l: seq<string>)
    ensures Distinct(Firsts(l))
    ensures forall x :: x in Firsts(l) <==> x in l
    ensures forall i, j :: 0 <= i < j < |Firsts(l)| ==> FirstAt(l, Firsts(l)[i]) < FirstAt(l, Firsts(l)[j])
  {
    if l != [] {
      var front, last, r := l[..|l| - 1], l[|l| - 1], Firsts(l);
      FirstsCorrect(front);
      assert l == front + [last];
      forall i, j | 0 <= i < j < |r| ensures FirstAt(l, r[i]) < FirstAt(l, r[j]) {
        assert r[i] in Firsts(front);
        FirstAtPrefix(l, r[i]);
        if r[j] in Firsts(front) {
          FirstAtPrefix(l, r[j]);
        } else {
          assert forall k :: 0 <= k < |front| ==> front[k] == l[k] && l[k] in front;
        }
      }
    }
  }

  lemma {:induction false} FirstsAppend(a: seq<string>, x: string)
    ensures Firsts(a + [x]) == if x in Firsts(a) then Firsts(a) else Firsts(a) + [x]
  {
    assert (a + [x])[..|a|] == a;
  }

  // ---- parsers ----

  /** A decoded frontmatter value, as far as these parsers look at it. */
  datatype Yaml =
    | Str(s: string)
    | List(items: seq<Yaml>)
    | Map(fork: Option<string>, skill: Option<string>)
    | Null
    | Other

  /** Every tag a `tags` value mentions, in order, repeats included. */
  function TagPieces(v: Yaml): seq<string> {
    match v
    case Str(s) => SplitTags(s)
    case List(items) => ItemPieces(items)
    case _ => []
  }

  function ItemPieces(items: seq<Yaml>): seq<string> {
    if items == [] then []
    else
      ItemPieces(items[..|items| - 1]) +
      match items[|items| - 1] { case Str(s) => SplitTags(s) case _ => [] }
  }

  lemma {:induction false} ItemPiecesAre(items: seq<Yaml>, x: string)
    ensures x in ItemPieces(items) <==> exists k :: 0 <= k < |items| && items[k].Str? && x in SplitTags(items[k].s)
  {
    if items != [] {
      var front, last := items[..|items| - 1], items[|items| - 1];
      ItemPiecesAre(front, x);
      if x in ItemPieces(front) {
        var k :| 0 <= k < |front| && front[k].Str? && x in SplitTags(front[k].s);
        assert items[k] == front[k];
      }
      if k :| 0 <= k < |items| && items[k].Str? && x in SplitTags(items[k].s) {
        if k < |front| { assert front[k] == items[k]; }
      }
    }
  }

  /** A text value mentions its pieces, a list those of its text items, anything else nothing. */
  lemma TagPiecesAre(v: Yaml, x: string)
    ensures x in TagPieces(v) <==>
      || (v.Str? && x in SplitTags(v.s))
      || (v.List? && exists k :: 0 <= k < |v.items| && v.items[k].Str? && x in SplitTags(v.items[k].s))
  {
    if v.List? { ItemPiecesAre(v.items, x); }
  }

  /** Pushes the new, nonempty pieces of `s` onto `out`. */
  method PushSplit(s: string, out: seq<string>, ghost seen: seq<string>) returns (r: seq<string>)
    requires out == Firsts(seen)
    ensures r == Firsts(seen + SplitTags(s))
  {
    r := out;
    var pieces := Pieces(s);
    assert seen + Tidy(pieces[..0]) == seen;
    for k := 0 to |pieces|
      invariant r == Firsts(seen + Tidy(pieces[..k]))
    {
      var t := Trim(pieces[k]);
      PushOne(seen, pieces, k);
      if t != "" && t !in r { r := r + [t]; }
    }
    assert pieces[..|pieces|] == pieces;
  }

  lemma PushOne(seen: seq<string>, pieces: seq<string>, k: nat)
    requires k < |pieces|
    ensures var r, t := Firsts(seen + Tidy(pieces[..k])), Trim(pieces[k]);
      Firsts(seen + Tidy(pieces[..k + 1])) == if t != "" && t !in r then r + [t] else r
  {
    var before, t := Tidy(pieces[..k]), Trim(pieces[k]);
    TidyAppend(pieces[..k], pieces[k]);
    assert pieces[..k + 1] == pieces[..k] + [pieces[k]];
    if t != "" {
      assert seen + (before + [t]) == (seen + before) + [t];
      FirstsAppend(seen + before, t);
    } else {
      assert before + [] == before;
    }
  }

  lemma {:induction false} TidyAppend(l: seq<string>, x: string)
    ensures Tidy(l + [x]) == Tidy(l) + if Trim(x) == "" then [] else [Trim(x)]
  {
    if l != [] {
      TidyAppend(l[1..], x);
      assert (l + [x])[1..] == l[1..] + [x];
    } else {
      assert ([x])[1..] == [];
    }
  }

  /** The fork's tags: each mentioned tag once, in order of first mention. */
  method ParseTags(v: Yaml) returns (r: seq<string>)
    ensures r == Firsts(TagPieces(v))
  {
    r := [];
    assert [] + TagPieces(v) == TagPieces(v);
    match v {
      case Str(s) => r := PushSplit(s, r, []);
      case List(items) =>
        for k := 0 to |items|
          invariant r == Firsts(ItemPieces(items[..k]))
        {
          assert items[..k + 1][..k] == items[..k];
          match items[k] {
            case Str(s) => r := PushSplit(s, r, ItemPieces(items[..k]));
            case _ => assert ItemPieces(items[..k]) + [] == ItemPieces(items[..k]);
          }
        }
        assert items[..|items|] == items;
      case _ =>
    }
  }

  /** A session's tag filter from its environment; an all-empty value counts as unset. */
  method TagsFromEnv(raw: Option<string>) returns (r: Option<seq<string>>)
    ensures r.Some? <==> raw.Some? && SplitTags(raw.value) != []
    ensures r.Some? ==> r.value == Firsts(SplitTags(raw.value)) && r.value != []
  {
    r := None;
    if raw.Some? {
      var out := PushSplit(raw.value, [], []);
      assert [] + SplitTags(raw.value) == SplitTags(raw.value);
      FirstsCorrect(SplitTags(raw.value));
      if SplitTags(raw.value) != [] {
        assert SplitTags(raw.value)[0] in out;
      }
      if out != [] {
        assert out[0] in SplitTags(raw.value);
        r := Some(out);
      }
    }
  }

  lemma {:induction false} ItemPiecesClean(items: seq<Yaml>)
    ensures Clean(ItemPieces(items))
  {
    if items != [] {
      ItemPiecesClean(items[..|items| - 1]);
      match items[|items| - 1] {
        case Str(s) => SplitIsClean(s);
        case _ =>
      }
    }
  }

  lemma FirstsClean(l: seq<string>)
    requires Clean(l)
    ensures Clean(Firsts(l))
  {
    FirstsCorrect(l);
    forall k | 0 <= k < |Firsts(l)| ensures CleanTag(Firsts(l)[k]) { assert Firsts(l)[k] in l; }
  }

  /** Whatever a fork file says, its stored tag column reads back as its tags. */
  lemma ParsedTagsRoundTrip(v: Yaml)
    ensures Clean(Firsts(TagPieces(v)))
    ensures SplitTags(Join(Firsts(TagPieces(v)))) == Firsts(TagPieces(v))
  {
    match v {
      case Str(s) => SplitIsClean(s);
      case List(items) => ItemPiecesClean(items);
      case _ =>
    }
    FirstsClean(TagPieces(v));
    ColumnRoundTrip(Firsts(TagPieces(v)));
  }

  /** The same for the filter a session's environment carries. */
  lemma EnvTagsRoundTrip(raw: string)
    ensures SplitTags(Join(Firsts(SplitTags(raw)))) == Firsts(SplitTags(raw))
  {
    SplitIsClean(raw);
    FirstsClean(SplitTags(raw));
    ColumnRoundTrip(Firsts(SplitTags(raw)));
  }

  // ---- `after` ----

  /** One `after` entry: a nonblank name, or a map naming a fork (`skill` is an alias). */
  function AfterEntry(v: Yaml): Option<string> {
    match v
    case Str(s) => if Trim(s) != "" then Some(Trim(s)) else None
    case Map(fork, skill) =>
      var named := if fork.Some? then fork else skill;
      if named.Some? && Trim(named.value) != "" then Some(Trim(named.value)) else None
    case _ => None
  }

  /** The names an `after` value mentions other than the fork itself, repeats included. */
  function AfterNames(items: seq<Yaml>, self: string): seq<string> {
    if items == [] then []
    else
      var e := AfterEntry(items[|items| - 1]);
      AfterNames(items[..|items| - 1], self) + if e.Some? && e.value != self then [e.value] else []
  }

  /** The entry names `x`: as a text, or as a map's fork, or as its skill when it has no fork. */
  predicate Names(v: Yaml, x: string) {
    x != "" && match v
      case Str(s) => x == Trim(s)
      case Map(Some(fork), _) => x == Trim(fork)
      case Map(None, Some(skill)) => x == Trim(skill)
      case _ => false
  }

  /** A fork is said to come after exactly the names of the entries, itself excepted. */
  lemma {:induction false} AfterNamesAre(items: seq<Yaml>, self: string, x: string)
    ensures x in AfterNames(items, self) <==> x != self && exists k :: 0 <= k < |items| && Names(items[k], x)
  {
    if items != [] {
      var front, last := items[..|items| - 1], items[|items| - 1];
      AfterNamesAre(front, self, x);
      EntryNames(last, x);
      if k :| 0 <= k < |front| && Names(front[k], x) { assert items[k] == front[k]; }
      if k :| 0 <= k < |items| && Names(items[k], x) {
        if k < |front| { assert front[k] == items[k]; }
      }
    }
  }

  lemma EntryNames(v: Yaml, x: string)
    ensures AfterEntry(v) == Some(x) <==> Names(v, x)
  {}

  lemma AfterNamesNext(items: seq<Yaml>, self: string, k: nat)
    requires k < |items|
    ensures var e, before := AfterEntry(items[k]), AfterNames(items[..k], self);
      AfterNames(items[..k + 1], self) == if e.Some? && e.value != self then before + [e.value] else before
  {
    assert items[..k + 1][..k] == items[..k];
    var before := AfterNames(items[..k], self);
    assert before + [] == before;
  }

  /** The predecessors a fork file names: self-references and repeats dropped. */
  method ParseAfter(v: Yaml, self: string) returns (r: seq<string>)
    ensures r == Firsts(AfterNames(if v.List? then v.items else [v], self))
  {
    var items := if v.List? then v.items else [v];
    r := [];
    for k := 0 to |items|
      invariant r == Firsts(AfterNames(items[..k], self))
    {
      AfterNamesNext(items, self, k);
      var e := AfterEntry(items[k]);
      if e.Some? && e.value != self {
        FirstsAppend(AfterNames(items[..k], self), e.value);
        if e.value !in r { r := r + [e.value]; }
      }
    }
    assert items[..|items|] == items;
  }

  lemma {:induction false} AfterNamesTrimmed(items: seq<Yaml>, self: string, k: nat)
    requires k < |AfterNames(items, self)|
    ensures CleanTag(AfterNames(items, self)[k]) <==> ',' !in AfterNames(items, self)[k]
  {
    var front, e := items[..|items| - 1], AfterEntry(items[|items| - 1]);
    if k < |AfterNames(front, self)| {
      AfterNamesTrimmed(front, self, k);
    } else {
      var raw := match items[|items| - 1] case Str(s) => s case Map(fork, skill) => (if fork.Some? then fork else skill).GetOr("") case _ => "";
      assert e == Some(Trim(raw));
      TrimCorrect(raw);
      TrimTrimmed(Trim(raw));
    }
  }

  /** A fork never comes after itself, and names nobody twice. */
  lemma {:induction false} AfterNamesProper(items: seq<Yaml>, self: string)
    ensures self !in AfterNames(items, self)
    ensures Distinct(Firsts(AfterNames(items, self)))
  {
    FirstsCorrect(AfterNames(items, self));
    if items != [] { AfterNamesProper(items[..|items| - 1], self); }
  }
}
