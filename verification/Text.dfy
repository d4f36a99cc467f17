/** Options, machine integers and the string operations the daemon relies on. */
module Text {
  datatype Option<+T> = None | Some(value: T) {
    function GetOr(default: T): T {
      match this
      case Some(v) => v
      case None => default
    }
  }

  const U64_LIMIT: int := 0x1_0000_0000_0000_0000
  const I64_LIMIT: int := 0x8000_0000_0000_0000

  type u64 = n: int | 0 <= n < 0x1_0000_0000_0000_0000

  /** Rust's `as i64` on a `u64`: two's complement reinterpretation. */
  function AsI64(n: u64): (r: int)
    ensures n < I64_LIMIT ==> r == n
    ensures n >= I64_LIMIT ==> r < 0
  {
    if n < I64_LIMIT then n else n - U64_LIMIT
  }

  /** An `i64` sum, which wraps around. */
  function WrapI64(x: int): int {
    var m := x % U64_LIMIT;
    if m < I64_LIMIT then m else m - U64_LIMIT
  }

  lemma SumWraps(base: int, d: u64)
    requires 0 <= base < I64_LIMIT
    ensures WrapI64(base + AsI64(d)) == if base + d < I64_LIMIT then base + d else base + d - U64_LIMIT
  {}

  /** Arithmetic that stops at the largest `u64`. */
  function Saturate(n: nat): u64 {
    if n < U64_LIMIT then n else U64_LIMIT - 1
  }

  // ---- searching ----

  predicate At(s: string, p: nat, w: string) {
    p + |w| <= |s| && s[p..p + |w|] == w
  }

  /** The leftmost occurrence of `w` at or after `from`, or -1. */
  function Find(s: string, w: string, from: nat := 0): (r: int)
    requires from <= |s|
    ensures r == -1 || from <= r <= |s| - |w|
    decreases |s| - from
  {
    if At(s, from, w) then from
    else if from == |s| then -1
    else Find(s, w, from + 1)
  }

  predicate Contains(s: string, w: string) {
    Find(s, w) >= 0
  }

  /** It is an occurrence with none before it; -1 means there is none. */
  lemma {:induction false} FindMeans(s: string, w: string, from: nat)
    requires from <= |s|
    ensures var r := Find(s, w, from);
      && (r < 0 ==> forall q: nat :: from <= q ==> !At(s, q, w))
      && (r >= 0 ==> At(s, r, w) && forall q: nat :: from <= q < r ==> !At(s, q, w))
    decreases |s| - from
  {
    if !At(s, from, w) && from < |s| { FindMeans(s, w, from + 1); }
  }

  /** The leftmost occurrence is determined by being one with none before it. */
  lemma FindIs(s: string, w: string, from: nat, p: nat)
    requires from <= p && At(s, p, w)
    requires forall q: nat :: from <= q < p ==> !At(s, q, w)
    ensures Find(s, w, from) == p
  {
    FindMeans(s, w, from);
  }

  /** One differing character rules an occurrence out. */
  lemma AtNot(s: string, p: nat, w: string, k: nat)
    requires k < |w| && p + k < |s| && s[p + k] != w[k]
    ensures !At(s, p, w)
  {
    assert p + |w| <= |s| ==> s[p..p + |w|][k] == s[p + k];
  }

  lemma AtShift(a: string, s: string, p: nat, w: string)
    ensures At(a + s, |a| + p, w) <==> At(s, p, w)
  {
    if p + |w| <= |s| { assert (a + s)[|a| + p..|a| + p + |w|] == s[p..p + |w|]; }
  }

  lemma AtExtends(s: string, t: string, p: nat, w: string)
    ensures At(s, p, w) ==> At(s + t, p, w)
    ensures p + |w| <= |s| && At(s + t, p, w) ==> At(s, p, w)
  {
    if p + |w| <= |s| { assert (s + t)[p..p + |w|] == s[p..p + |w|]; }
  }

  /** Text appended later does not move the leftmost occurrence. */
  lemma FindExtends(s: string, t: string, w: string, from: nat)
    requires from <= |s| && Find(s, w, from) >= 0
    ensures Find(s + t, w, from) == Find(s, w, from)
  {
    var p := Find(s, w, from);
    FindMeans(s, w, from);
    AtExtends(s, t, p, w);
    forall q: nat | from <= q < p ensures !At(s + t, q, w) { AtExtends(s, t, q, w); }
    FindIs(s + t, w, from, p);
  }

  // ---- trimming ----

  /** Unicode `White_Space`. */
  predicate IsSpace(c: char) {
    var n := c as int;
    || 0x9 <= n <= 0xD || n == 0x20 || n == 0x85 || n == 0xA0 || n == 0x1680
    || 0x2000 <= n <= 0x200A || n == 0x2028 || n == 0x2029 || n == 0x202F || n == 0x205F || n == 0x3000
  }

  function TrimStart(s: string): string {
    if s != [] && IsSpace(s[0]) then TrimStart(s[1..]) else s
  }

  function TrimEnd(s: string): string {
    if s != [] && IsSpace(s[|s| - 1]) then TrimEnd(s[..|s| - 1]) else s
  }

  /** `s` without leading and trailing white space. */
  function Trim(s: string): string {
    TrimEnd(TrimStart(s))
  }

  predicate Trimmed(s: string) {
    s == [] || (!IsSpace(s[0]) && !IsSpace(s[|s| - 1]))
  }

  predicate SpaceUpTo(s: string, n: int) {
    n <= |s| && forall i :: 0 <= i < n ==> IsSpace(s[i])
  }

  lemma SpaceBefore(s: string, n: nat)
    requires s != [] && IsSpace(s[0]) && SpaceUpTo(s[1..], n)
    ensures SpaceUpTo(s, n + 1)
  {
    forall i | 0 <= i < n + 1 ensures IsSpace(s[i]) { assert i > 0 ==> s[i] == s[1..][i - 1]; }
  }

  lemma Suffix(s: string, n: nat)
    requires s != [] && n < |s|
    ensures s[|s| - n..] == s[1..][|s| - 1 - n..]
  {}

  lemma {:induction false} TrimStartCorrect(s: string)
    ensures var r := TrimStart(s);
      && |r| <= |s| && r == s[|s| - |r|..]
      && (r != [] ==> !IsSpace(r[0]))
      && SpaceUpTo(s, |s| - |r|)
  {
    if s != [] && IsSpace(s[0]) {
      TrimStartCorrect(s[1..]);
      SpaceBefore(s, |s| - 1 - |TrimStart(s)|);
      Suffix(s, |TrimStart(s)|);
    }
  }

  lemma {:induction false} TrimEndCorrect(s: string)
    ensures var r := TrimEnd(s);
      && |r| <= |s| && r == s[..|r|]
      && (r != [] ==> !IsSpace(r[|r| - 1]))
      && (forall i :: |r| <= i < |s| ==> IsSpace(s[i]))
  {
    if s != [] && IsSpace(s[|s| - 1]) { TrimEndCorrect(s[..|s| - 1]); }
  }

  /** Trimming cuts white space off both ends and nothing else. */
  lemma TrimCorrect(s: string)
    ensures Trimmed(Trim(s))
    ensures exists a, b :: 0 <= a <= b <= |s| && Trim(s) == s[a..b]
              && (forall i :: 0 <= i < a || b <= i < |s| ==> IsSpace(s[i]))
  {
    TrimStartCorrect(s);
    var t := TrimStart(s);
    TrimEndCorrect(t);
    var r := TrimEnd(t);
    var a := |s| - |t|;
    var b := a + |r|;
    assert r == s[a..b];
    assert forall i :: b <= i < |s| ==> s[i] == t[i - a];
  }

  lemma TrimLacks(s: string, c: char)
    requires c !in s
    ensures c !in Trim(s)
  {
    TrimCorrect(s);
    var a, b :| 0 <= a <= b <= |s| && Trim(s) == s[a..b];
  }

  lemma TrimTrimmed(s: string)
    requires Trimmed(s)
    ensures Trim(s) == s
  {}

  /** A character that is not white space survives trimming. */
  lemma TrimKeeps(s: string, i: nat)
    requires i < |s| && !IsSpace(s[i])
    ensures Trim(s) != []
  {
    TrimCorrect(s);
  }

  // ---- decimal numerals ----

  function Digit(n: nat): (c: char)
    requires n < 10
    ensures '0' <= c <= '9' && c as int == n + '0' as int
  {
    (n + '0' as int) as char
  }

  function Dec(n: nat): (r: string)
    ensures r != [] && forall c :: c in r ==> '0' <= c <= '9'
  {
    if n < 10 then [Digit(n)] else Dec(n / 10) + [Digit(n % 10)]
  }

  function Value(s: string): nat {
    if s == [] then 0
    else 10 * Value(s[..|s| - 1]) + if '0' <= s[|s| - 1] <= '9' then s[|s| - 1] as int - '0' as int else 0
  }

  lemma {:induction false} DecValue(n: nat)
    ensures Value(Dec(n)) == n
  {
    if n >= 10 {
      DecValue(n / 10);
      var s := Dec(n);
      assert s[..|s| - 1] == Dec(n / 10);
    }
  }

  lemma DecInjective(m: nat, n: nat)
    requires Dec(m) == Dec(n)
    ensures m == n
  {
    DecValue(m);
    DecValue(n);
  }
}
