/** `after` dependency resolution: the selected forks become a dependency graph, and
    every cycle is broken by dropping the unmet edges of one node at a time. */
module Schedule {
  /** A selected fork as far as scheduling is concerned. */
  datatype Node = Node(name: string, after: seq<string>)

  /** `g[i]` lists the nodes that must finish before `i` runs. */
  type Graph = seq<seq<nat>>

  ghost predicate WellIndexed(g: Graph) {
    forall i, k :: 0 <= i < |g| && 0 <= k < |g[i]| ==> g[i][k] < |g|
  }

  // ---- the name-resolved graph ----

  /** The index a name resolves to: the last node carrying it. */
  function IndexOf(nodes: seq<Node>, name: string): (r: int)
    ensures -1 <= r < |nodes|
    ensures r >= 0 ==> nodes[r].name == name
    ensures forall j :: r < j < |nodes| ==> nodes[j].name != name
  {
    if nodes == [] then -1
    else if nodes[|nodes| - 1].name == name then |nodes| - 1
    else IndexOf(nodes[..|nodes| - 1], name)
  }

  /** The indices `after` names resolve to, in order, without unselected names and self. */
  function Targets(nodes: seq<Node>, after: seq<string>, self: nat): (r: seq<nat>)
    ensures forall k :: 0 <= k < |r| ==> r[k] < |nodes| && r[k] != self && nodes[r[k]].name in after
  {
    if after == [] then []
    else
      var d := IndexOf(nodes, after[|after| - 1]);
      var rest := Targets(nodes, after[..|after| - 1], self);
      if d >= 0 && d != self then rest + [d] else rest
  }

  /** Drops adjacent duplicates only. */
  function Dedup(s: seq<nat>): (r: seq<nat>)
    ensures forall k :: 0 <= k < |r| ==> r[k] in s
    ensures s != [] ==> r != [] && r[|r| - 1] == s[|s| - 1]
  {
    if |s| <= 1 then s
    else
      var r := Dedup(s[..|s| - 1]);
      if s[|s| - 1] == s[|s| - 2] then r else r + [s[|s| - 1]]
  }

  function NameGraph(nodes: seq<Node>): (g: Graph) {
    seq(|nodes|, (i: nat) requires i < |nodes| => Dedup(Targets(nodes, nodes[i].after, i)))
  }

  lemma NameGraphWellIndexed(nodes: seq<Node>)
    ensures WellIndexed(NameGraph(nodes))
  {
    var g := NameGraph(nodes);
    forall i, k | 0 <= i < |g| && 0 <= k < |g[i]| ensures g[i][k] < |g| {
      assert g[i][k] in Targets(nodes, nodes[i].after, i);
    }
  }

  /** Deduplication loses no node. */
  lemma {:induction false} DedupKeeps(s: seq<nat>, d: nat)
    ensures d in Dedup(s) <==> d in s
  {
    if |s| > 1 {
      DedupKeeps(s[..|s| - 1], d);
      assert s == s[..|s| - 1] + [s[|s| - 1]];
    }
  }

  lemma {:induction false} TargetsAre(nodes: seq<Node>, after: seq<string>, self: nat, d: nat)
    ensures d in Targets(nodes, after, self) <==>
      && d < |nodes| && d != self && nodes[d].name in after
      && forall j :: d < j < |nodes| ==> nodes[j].name != nodes[d].name
  {
    if after != [] {
      TargetsAre(nodes, after[..|after| - 1], self, d);
      assert after == after[..|after| - 1] + [after[|after| - 1]];
    }
  }

  /** Which edges the named graph has: node `i` depends on exactly the other nodes its `after`
      list names. Of nodes sharing a name the last one counts. */
  lemma NameGraphExactly(nodes: seq<Node>, i: nat, d: nat)
    requires i < |nodes|
    ensures d in NameGraph(nodes)[i] <==>
      && d < |nodes| && d != i && nodes[d].name in nodes[i].after
      && forall j :: d < j < |nodes| ==> nodes[j].name != nodes[d].name
  {
    TargetsAre(nodes, nodes[i].after, i, d);
    DedupKeeps(Targets(nodes, nodes[i].after, i), d);
  }

  ghost predicate Rising(p: seq<nat>) {
    forall a, b :: 0 <= a < b < |p| ==> p[a] < p[b]
  }

  lemma RisingSnoc(p: seq<nat>, n: nat)
    requires Rising(p) && (p != [] ==> p[|p| - 1] < n)
    ensures Rising(p + [n])
  {}

  lemma {:induction false} TargetPlaces(nodes: seq<Node>, after: seq<string>, self: nat) returns (p: seq<nat>)
    ensures var r := Targets(nodes, after, self);
      |p| == |r| && Rising(p) && forall k :: 0 <= k < |r| ==> p[k] < |after| && after[p[k]] == nodes[r[k]].name
  {
    p := [];
    if after != [] {
      var front := after[..|after| - 1];
      p := TargetPlaces(nodes, front, self);
      var d := IndexOf(nodes, after[|after| - 1]);
      if d >= 0 && d != self {
        RisingSnoc(p, |after| - 1);
        p := p + [|after| - 1];
      }
    }
  }

  /** No entry is followed by itself. */
  ghost predicate Unrepeated(r: seq<nat>) {
    forall k :: 0 < k < |r| ==> r[k - 1] != r[k]
  }

  lemma LastDiffers(r: seq<nat>, d: nat)
    requires Unrepeated(r) && (r != [] ==> r[|r| - 1] != d)
    ensures Unrepeated(r + [d])
  {}

  lemma {:induction false} DedupPlaces(s: seq<nat>) returns (p: seq<nat>)
    ensures var r := Dedup(s);
      |p| == |r| && Rising(p) && Unrepeated(r) && forall k :: 0 <= k < |r| ==> p[k] < |s| && s[p[k]] == r[k]
  {
    if |s| <= 1 {
      p := if s == [] then [] else [0];
    } else {
      p := DedupPlaces(s[..|s| - 1]);
      if s[|s| - 1] != s[|s| - 2] {
        RisingSnoc(p, |s| - 1);
        LastDiffers(Dedup(s[..|s| - 1]), s[|s| - 1]);
        p := p + [|s| - 1];
      }
    }
  }

  /** And in which order: that of the `after` list. A dependency named twice in a row counts
      once. */
  lemma NameGraphInOrder(nodes: seq<Node>, i: nat) returns (p: seq<nat>)
    requires i < |nodes|
    ensures var d := NameGraph(nodes)[i];
      && |p| == |d| && Rising(p) && Unrepeated(d)
      && forall k :: 0 <= k < |d| ==> d[k] < |nodes| && p[k] < |nodes[i].after| && nodes[i].after[p[k]] == nodes[d[k]].name
  {
    var t := Targets(nodes, nodes[i].after, i);
    var a := TargetPlaces(nodes, nodes[i].after, i);
    var b := DedupPlaces(t);
    p := seq(|b|, (k: nat) requires k < |b| => a[b[k]]);
  }

  // ---- cycles ----

  ghost predicate IsPath(g: Graph, p: seq<nat>) {
    && p != []
    && (forall a :: 0 <= a < |p| ==> p[a] < |g|)
    && (forall a :: 0 <= a < |p| - 1 ==> p[a + 1] in g[p[a]])
  }

  ghost predicate Repeats(p: seq<nat>) {
    exists a, b :: 0 <= a < b < |p| && p[a] == p[b]
  }

  ghost predicate CyclePath(g: Graph, i: nat, p: seq<nat>) {
    IsPath(g, p) && p[0] == i && Repeats(p)
  }

  /** Some dependency chain starting at `i` runs into a cycle. */
  ghost predicate ReachesCycle(g: Graph, i: nat) {
    exists p :: CyclePath(g, i, p)
  }

  ghost predicate Acyclic(g: Graph) {
    forall i :: 0 <= i < |g| ==> !ReachesCycle(g, i)
  }

  lemma PrependPath(g: Graph, i: nat, p: seq<nat>)
    requires i < |g| && IsPath(g, p) && p[0] in g[i]
    ensures IsPath(g, [i] + p)
  {
    var q := [i] + p;
    forall a | 0 <= a < |q| - 1 ensures q[a + 1] in g[q[a]] {
      if a > 0 { assert q[a] == p[a - 1] && q[a + 1] == p[a]; }
    }
  }

  /** A chain that leads to a node reaching a cycle reaches it too. */
  lemma {:induction false} ChainReaches(g: Graph, p: seq<nat>, b: nat)
    requires IsPath(g, p) && b < |p| && ReachesCycle(g, p[b])
    ensures ReachesCycle(g, p[0])
  {
    if b > 0 {
      assert IsPath(g, p[1..]);
      ChainReaches(g, p[1..], b - 1);
      var q :| CyclePath(g, p[1], q);
      PrependPath(g, p[0], q);
      var a, c :| 0 <= a < c < |q| && q[a] == q[c];
      var r := [p[0]] + q;
      assert r[a + 1] == r[c + 1];
      assert CyclePath(g, p[0], r);
    }
  }

  ghost function AllBelow(n: nat): (s: set<nat>)
    ensures forall x: nat :: x in s <==> x < n
    ensures |s| == n
  {
    if n == 0 then {} else AllBelow(n - 1) + {n - 1}
  }

  /** More than `n` entries below `n` repeat one. */
  lemma {:induction false} Pigeonhole(p: seq<nat>, n: nat)
    requires forall a :: 0 <= a < |p| ==> p[a] < n
    requires |p| > n
    ensures Repeats(p)
  {
    if !Repeats(p) {
      DistinctFits(p, AllBelow(n));
    }
  }

  lemma {:induction false} DistinctFits(p: seq<nat>, s: set<nat>)
    requires !Repeats(p)
    requires forall a :: 0 <= a < |p| ==> p[a] in s
    ensures |p| <= |s|
  {
    if p != [] {
      var last, front := p[|p| - 1], p[..|p| - 1];
      forall a, b | 0 <= a < b < |front| ensures front[a] != front[b] { assert p[a] != p[b]; }
      forall a | 0 <= a < |front| ensures front[a] in s - {last} {
        assert p[a] != p[|p| - 1];
      }
      DistinctFits(front, s - {last});
    }
  }

  // ---- peeling ----

  /** `done` is closed under dependencies and ranked: every dependency is strictly lower. */
  ghost predicate Ranked(g: Graph, done: set<nat>, rank: seq<nat>) {
    && |rank| == |g|
    && (forall i :: i in done ==> i < |g|)
    && (forall i, k :: i in done && 0 <= k < |g[i]| ==> g[i][k] in done && rank[g[i][k]] < rank[i])
  }

  ghost predicate Waits(g: Graph, done: set<nat>, i: nat) requires i < |g| {
    exists k :: 0 <= k < |g[i]| && g[i][k] !in done
  }

  /** No further node can be peeled. */
  ghost predicate Stuck(g: Graph, done: set<nat>) {
    forall i :: 0 <= i < |g| && i !in done ==> Waits(g, done, i)
  }

  /** Ranks fall along a chain of peeled nodes, so such a chain never repeats. */
  lemma {:induction false} RanksFall(g: Graph, done: set<nat>, rank: seq<nat>, p: seq<nat>, a: nat, b: nat)
    requires Ranked(g, done, rank) && IsPath(g, p) && a < b < |p| && p[a] in done
    ensures p[b] in done && rank[p[b]] < rank[p[a]]
    decreases b
  {
    if b > a + 1 { RanksFall(g, done, rank, p, a, b - 1); }
    var c := b - 1;
    assert p[c + 1] in g[p[c]];
    var k :| 0 <= k < |g[p[c]]| && g[p[c]][k] == p[c + 1];
  }

  lemma PeeledReachesNoCycle(g: Graph, done: set<nat>, rank: seq<nat>, i: nat)
    requires Ranked(g, done, rank) && i in done
    ensures !ReachesCycle(g, i)
  {
    if p :| CyclePath(g, i, p) {
      var a, b :| 0 <= a < b < |p| && p[a] == p[b];
      if a > 0 { RanksFall(g, done, rank, p, 0, a); }
      RanksFall(g, done, rank, p, a, b);
    }
  }

  /** From an unpeelable node one can walk forever through unpeelable nodes. */
  lemma {:induction false} StuckWalk(g: Graph, done: set<nat>, i: nat, len: nat) returns (p: seq<nat>)
    requires WellIndexed(g) && Stuck(g, done) && i < |g| && i !in done
    ensures IsPath(g, p) && p[0] == i && |p| == len + 1
    decreases len
  {
    if len == 0 {
      p := [i];
    } else {
      assert Waits(g, done, i);
      var k :| 0 <= k < |g[i]| && g[i][k] !in done;
      var q := StuckWalk(g, done, g[i][k], len - 1);
      PrependPath(g, i, q);
      p := [i] + q;
    }
  }

  lemma StuckReachesCycle(g: Graph, done: set<nat>, i: nat)
    requires WellIndexed(g) && Stuck(g, done) && i < |g| && i !in done
    ensures ReachesCycle(g, i)
  {
    var p := StuckWalk(g, done, i, |g|);
    Pigeonhole(p, |g|);
    assert CyclePath(g, i, p);
  }

  // ---- breaking cycles ----

  ghost function Bad(g: Graph): set<nat> {
    set i: nat | 0 <= i < |g| && ReachesCycle(g, i)
  }

  /** The first node that cannot run. */
  ghost function Cut(g: Graph, from: nat := 0): (c: nat)
    requires from <= |g| && exists i :: from <= i < |g| && ReachesCycle(g, i)
    ensures from <= c < |g| && ReachesCycle(g, c)
    ensures forall i :: from <= i < c ==> !ReachesCycle(g, i)
    decreases |g| - from
  {
    if ReachesCycle(g, from) then from else Cut(g, from + 1)
  }

  /** The dependencies that can run. */
  ghost function Kept(g: Graph, s: seq<nat>): (r: seq<nat>)
    ensures forall k :: 0 <= k < |r| ==> r[k] in s && !ReachesCycle(g, r[k])
    ensures forall d :: d in s && !ReachesCycle(g, d) ==> d in r
  {
    if s == [] then []
    else
      var r := Kept(g, s[..|s| - 1]);
      if ReachesCycle(g, s[|s| - 1]) then r else r + [s[|s| - 1]]
  }

  ghost function CutOnce(g: Graph): Graph
    requires !Acyclic(g)
  {
    var c := Cut(g);
    g[c := Kept(g, g[c])]
  }

  /** `h` has no edge that `g` lacks. */
  ghost predicate SubEdges(h: Graph, g: Graph) {
    && |h| == |g|
    && (forall i, k :: 0 <= i < |h| && 0 <= k < |h[i]| ==> h[i][k] in g[i])
  }

  lemma SubPath(h: Graph, g: Graph, p: seq<nat>)
    requires SubEdges(h, g) && IsPath(h, p)
    ensures IsPath(g, p)
  {
    forall a | 0 <= a < |p| - 1 ensures p[a + 1] in g[p[a]] {
      assert p[a + 1] in h[p[a]];
    }
  }

  lemma SubEdgesReach(h: Graph, g: Graph, i: nat)
    requires SubEdges(h, g) && ReachesCycle(h, i)
    ensures ReachesCycle(g, i)
  {
    var p :| CyclePath(h, i, p);
    SubPath(h, g, p);
    assert CyclePath(g, i, p);
  }

  lemma CutOnceIsSub(g: Graph)
    requires WellIndexed(g) && !Acyclic(g)
    ensures SubEdges(CutOnce(g), g) && WellIndexed(CutOnce(g))
  {
  }

  /** Cutting frees the cut node. */
  lemma CutFrees(g: Graph)
    requires WellIndexed(g) && !Acyclic(g)
    ensures !ReachesCycle(CutOnce(g), Cut(g))
  {
    var h, c := CutOnce(g), Cut(g);
    CutOnceIsSub(g);
    if p :| CyclePath(h, c, p) {
      var a, b :| 0 <= a < b < |p| && p[a] == p[b];
      SubPath(h, g, p);
      var tail := p[1..];
      assert IsPath(g, tail);
      assert p[0 + 1] in h[p[0]];
      assert !ReachesCycle(g, tail[0]);
      if a == 0 {
        ChainReaches(g, tail, b - 1);
      } else {
        assert tail[a - 1] == tail[b - 1];
        assert CyclePath(g, tail[0], tail);
      }
    }
  }

  lemma CutShrinks(g: Graph)
    requires WellIndexed(g) && !Acyclic(g)
    ensures Bad(CutOnce(g)) < Bad(g)
  {
    var h := CutOnce(g);
    CutOnceIsSub(g);
    forall i | i in Bad(h) ensures i in Bad(g) { SubEdgesReach(h, g, i); }
    CutFrees(g);
    assert Cut(g) in Bad(g) && Cut(g) !in Bad(h);
  }

  /** The resolved graph: while some node reaches a cycle, the first such node loses
      exactly its edges to nodes that reach one. */
  ghost function Resolve(g: Graph): Graph
    requires WellIndexed(g)
    decreases Bad(g)
  {
    if Acyclic(g) then g
    else
      CutOnceIsSub(g);
      CutShrinks(g);
      Resolve(CutOnce(g))
  }

  /** `s` is `t` with some entries left out. */
  ghost predicate Thinned(s: seq<nat>, t: seq<nat>) {
    if t == [] then s == []
    else if s != [] && s[|s| - 1] == t[|t| - 1] && Thinned(s[..|s| - 1], t[..|t| - 1]) then true
    else Thinned(s, t[..|t| - 1])
  }

  lemma ThinnedSelf(s: seq<nat>)
    ensures Thinned(s, s)
  {}

  lemma {:induction false} ThinnedTrans(s: seq<nat>, t: seq<nat>, u: seq<nat>)
    requires Thinned(s, t) && Thinned(t, u)
    ensures Thinned(s, u)
    decreases |u|
  {
    if u != [] {
      var u' := u[..|u| - 1];
      if t != [] && t[|t| - 1] == u[|u| - 1] && Thinned(t[..|t| - 1], u') {
        var t' := t[..|t| - 1];
        if s != [] && s[|s| - 1] == t[|t| - 1] && Thinned(s[..|s| - 1], t') {
          ThinnedTrans(s[..|s| - 1], t', u');
        } else {
          ThinnedTrans(s, t', u');
        }
      } else {
        ThinnedTrans(s, t, u');
      }
    }
  }

  lemma {:induction false} KeptIsThinned(g: Graph, s: seq<nat>)
    ensures Thinned(Kept(g, s), s)
  {
    if s != [] {
      KeptIsThinned(g, s[..|s| - 1]);
      var r := Kept(g, s[..|s| - 1]);
      if !ReachesCycle(g, s[|s| - 1]) {
        assert Kept(g, s)[..|r|] == r;
      }
    }
  }

  /** The resolved graph is acyclic, keeps the order and adds nothing; a node that
      reaches no cycle keeps its list, and every dropped edge led to a node that did. */
  lemma {:induction false} ResolveCorrect(g: Graph)
    requires WellIndexed(g)
    ensures |Resolve(g)| == |g| && WellIndexed(Resolve(g)) && Acyclic(Resolve(g))
    ensures forall i :: 0 <= i < |g| ==> Thinned(Resolve(g)[i], g[i])
    ensures forall i :: 0 <= i < |g| && !ReachesCycle(g, i) ==> Resolve(g)[i] == g[i]
    ensures forall i, d :: 0 <= i < |g| && d in g[i] && !ReachesCycle(g, d) ==> d in Resolve(g)[i]
    decreases Bad(g)
  {
    if Acyclic(g) {
      forall i | 0 <= i < |g| ensures Thinned(g[i], g[i]) { ThinnedSelf(g[i]); }
    } else {
      var h, c := CutOnce(g), Cut(g);
      CutOnceIsSub(g);
      CutShrinks(g);
      ResolveCorrect(h);
      forall i | 0 <= i < |g| ensures Thinned(Resolve(h)[i], g[i]) {
        if i == c { KeptIsThinned(g, g[c]); } else { ThinnedSelf(g[i]); }
        ThinnedTrans(Resolve(h)[i], h[i], g[i]);
      }
      forall i | 0 <= i < |g| && !ReachesCycle(g, i) ensures Resolve(h)[i] == g[i] {
        if ReachesCycle(h, i) { SubEdgesReach(h, g, i); }
      }
      forall i, d | 0 <= i < |g| && d in g[i] && !ReachesCycle(g, d) ensures d in Resolve(h)[i] {
        if ReachesCycle(h, d) { SubEdgesReach(h, g, d); }
      }
    }
  }

  /** Exactly the acyclic graphs come back unchanged. */
  lemma UnchangedIffAcyclic(g: Graph)
    requires WellIndexed(g)
    ensures Resolve(g) == g <==> Acyclic(g)
  {
    ResolveCorrect(g);
  }

  // ---- exactly which edges go ----

  /** Some chain from `d` runs into a cycle without leaving the nodes from `i` on. */
  ghost predicate Doomed(g: Graph, i: nat, d: nat) {
    exists p :: CyclePath(g, d, p) && From(p, i)
  }

  ghost predicate From(p: seq<nat>, i: nat) {
    forall a :: 0 <= a < |p| ==> p[a] >= i
  }

  /** The dependencies of node `i` that are not doomed. */
  ghost function Spared(g: Graph, i: nat, s: seq<nat>): (r: seq<nat>)
    ensures forall d :: d in r <==> d in s && !Doomed(g, i, d)
  {
    if s == [] then []
    else
      var r := Spared(g, i, s[..|s| - 1]);
      assert s == s[..|s| - 1] + [s[|s| - 1]];
      if Doomed(g, i, s[|s| - 1]) then r else r + [s[|s| - 1]]
  }

  lemma {:induction false} SparedAll(g: Graph, i: nat, s: seq<nat>)
    requires forall k :: 0 <= k < |s| ==> !Doomed(g, i, s[k])
    ensures Spared(g, i, s) == s
  {
    if s != [] {
      SparedAll(g, i, s[..|s| - 1]);
      assert s == s[..|s| - 1] + [s[|s| - 1]];
    }
  }

  lemma {:induction false} SparedIsKept(g: Graph, h: Graph, i: nat, s: seq<nat>)
    requires forall k :: 0 <= k < |s| ==> (Doomed(g, i, s[k]) <==> ReachesCycle(h, s[k]))
    ensures Spared(g, i, s) == Kept(h, s)
  {
    if s != [] { SparedIsKept(g, h, i, s[..|s| - 1]); }
  }

  /** The two graphs agree from node `c` on. */
  ghost predicate AgreeFrom(g: Graph, h: Graph, c: nat) {
    |h| == |g| && forall x :: c <= x < |g| ==> h[x] == g[x]
  }

  lemma SamePath(g: Graph, h: Graph, c: nat, d: nat, p: seq<nat>)
    requires AgreeFrom(g, h, c) && From(p, c) && CyclePath(g, d, p)
    ensures CyclePath(h, d, p)
  {
    forall a | 0 <= a < |p| - 1 ensures p[a + 1] in h[p[a]] { assert h[p[a]] == g[p[a]]; }
  }

  /** Up to its repetition, every node on a chain into a cycle reaches it. */
  lemma AllReach(g: Graph, p: seq<nat>, a: nat, b: nat, x: nat)
    requires IsPath(g, p) && a < b < |p| && p[a] == p[b] && x <= b
    ensures ReachesCycle(g, p[x])
  {
    Loops(g, p, a, b);
    if x <= a {
      var q := p[x..];
      assert IsPath(g, q);
      assert q[a - x] == q[b - x];
      assert CyclePath(g, p[x], q);
    } else {
      var q := p[x..b + 1];
      assert IsPath(g, q);
      assert q[b - x] == p[b];
      ChainReaches(g, q, b - x);
    }
  }

  lemma Loops(g: Graph, p: seq<nat>, a: nat, b: nat)
    requires IsPath(g, p) && a < b < |p| && p[a] == p[b]
    ensures ReachesCycle(g, p[b])
  {
    var q := p[a..b + 1];
    assert IsPath(g, q);
    assert q[0] == q[b - a];
    assert CyclePath(g, p[b], q);
  }

  /** Before the first bad node nothing reaches a cycle, so in `h` every chain into a cycle
      can be cut short to stay from that node on. */
  lemma BadIsDoomed(g: Graph, h: Graph, c: nat, d: nat)
    requires AgreeFrom(g, h, c) && (forall x :: 0 <= x < c && x < |h| ==> !ReachesCycle(h, x))
    requires ReachesCycle(h, d)
    ensures Doomed(g, c, d)
  {
    var p :| CyclePath(h, d, p);
    var a, b :| 0 <= a < b < |p| && p[a] == p[b];
    var q := p[..b + 1];
    assert IsPath(h, q) && q[a] == q[b];
    forall x | 0 <= x < |q| ensures q[x] >= c { AllReach(h, p, a, b, x); }
    SamePath(h, g, c, d, q);
  }

  lemma DoomedIsBad(g: Graph, h: Graph, c: nat, i: nat, d: nat)
    requires AgreeFrom(g, h, c) && c <= i && Doomed(g, i, d)
    ensures ReachesCycle(h, d)
  {
    var p :| CyclePath(g, d, p) && From(p, i);
    SamePath(g, h, c, d, p);
  }

  /** Nothing of a node that reaches no cycle is doomed. */
  lemma GoodIsSpared(g: Graph, h: Graph, c: nat, i: nat)
    requires AgreeFrom(g, h, c) && c <= i < |g| && WellIndexed(g) && !ReachesCycle(h, i)
    ensures Spared(g, i, g[i]) == g[i]
  {
    forall k | 0 <= k < |g[i]| ensures !Doomed(g, i, g[i][k]) {
      if Doomed(g, i, g[i][k]) {
        DoomedIsBad(g, h, c, i, g[i][k]);
        assert IsPath(h, [i, g[i][k]]);
        ChainReaches(h, [i, g[i][k]], 1);
      }
    }
    SparedAll(g, i, g[i]);
  }

  /** Midway: the nodes before `c` reach no cycle any more, the others are as in `g`. */
  lemma {:induction false} ResolvesRest(g: Graph, h: Graph, c: nat, i: nat)
    requires WellIndexed(g) && WellIndexed(h) && AgreeFrom(g, h, c) && c <= i < |g|
    requires forall x :: 0 <= x < c && x < |h| ==> !ReachesCycle(h, x)
    ensures |Resolve(h)| == |g| && Resolve(h)[i] == Spared(g, i, g[i])
    decreases Bad(h)
  {
    ResolveCorrect(h);
    if !ReachesCycle(h, i) {
      GoodIsSpared(g, h, c, i);
    } else {
      var cut, next := Cut(h), CutOnce(h);
      CutOnceIsSub(h);
      CutShrinks(h);
      CutFrees(h);
      forall x | 0 <= x < cut + 1 ensures !ReachesCycle(next, x) {
        if x < cut && ReachesCycle(next, x) { SubEdgesReach(next, h, x); }
      }
      if i == cut {
        forall k | 0 <= k < |g[i]| ensures Doomed(g, i, g[i][k]) <==> ReachesCycle(h, g[i][k]) {
          if Doomed(g, i, g[i][k]) { DoomedIsBad(g, h, c, i, g[i][k]); }
          if ReachesCycle(h, g[i][k]) { BadIsDoomed(g, h, i, g[i][k]); }
        }
        SparedIsKept(g, h, i, g[i]);
        ResolveCorrect(next);
      } else {
        ResolvesRest(g, next, cut + 1, i);
      }
    }
  }

  /** The resolved graph in closed form: node `i` keeps, in order, exactly the dependencies
      from which no chain runs into a cycle through nodes of index at least `i`. */
  lemma ResolveIsSpared(g: Graph, i: nat)
    requires WellIndexed(g) && i < |g|
    ensures |Resolve(g)| == |g| && Resolve(g)[i] == Spared(g, i, g[i])
  {
    ResolvesRest(g, g, 0, i);
  }

  /** An edge is dropped exactly when its target is doomed. */
  lemma DroppedExactly(g: Graph, i: nat, d: nat)
    requires WellIndexed(g) && i < |g| && d in g[i]
    ensures |Resolve(g)| == |g|
    ensures d !in Resolve(g)[i] <==> exists p :: CyclePath(g, d, p) && forall a :: 0 <= a < |p| ==> p[a] >= i
  {
    ResolveIsSpared(g, i);
    if Doomed(g, i, d) {
      var p :| CyclePath(g, d, p) && From(p, i);
      assert forall a :: 0 <= a < |p| ==> p[a] >= i;
    }
    if p :| CyclePath(g, d, p) && forall a :: 0 <= a < |p| ==> p[a] >= i { assert From(p, i); }
  }

  /** The node that is cut need not be on a cycle: node 0 only leads to the cycle of 1 and
      2, and loses its edge first. */
  lemma CutOffCycle()
    ensures var g: Graph := [[1], [2], [1]];
      && WellIndexed(g) && |Resolve(g)| == 3 && Resolve(g)[0] == []
      && forall p :: IsPath(g, p) && p[0] == 0 ==> forall a :: 0 < a < |p| ==> p[a] != 0
  {
    var g: Graph := [[1], [2], [1]];
    var p := [1, 2, 1];
    assert p[0] == p[2] && IsPath(g, p) && CyclePath(g, 1, p);
    assert From(p, 0);
    ResolveIsSpared(g, 0);
    assert Spared(g, 0, [1]) == [] by { assert [1][..0] == []; }
    forall q, a | IsPath(g, q) && q[0] == 0 && 0 < a < |q| ensures q[a] != 0 {
      var b := a - 1;
      assert q[b + 1] in g[q[b]];
    }
  }

  // ---- topological ranks ----

  ghost predicate IsRank(g: Graph, rank: seq<nat>) {
    Ranked(g, AllBelow(|g|), rank)
  }

  /** A graph is acyclic exactly when its nodes can be ranked above their dependencies. */
  lemma AcyclicIffRanked(g: Graph)
    requires WellIndexed(g)
    ensures Acyclic(g) <==> exists rank :: IsRank(g, rank)
  {
    if rank :| IsRank(g, rank) {
      forall i | 0 <= i < |g| ensures !ReachesCycle(g, i) {
        PeeledReachesNoCycle(g, AllBelow(|g|), rank, i);
      }
    }
    if Acyclic(g) { var rank := RankAll(g, {}, seq(|g|, i => 0)); }
  }

  lemma {:induction false} RankAll(g: Graph, done: set<nat>, rank: seq<nat>) returns (r: seq<nat>)
    requires WellIndexed(g) && Acyclic(g) && Ranked(g, done, rank)
    requires forall i :: i in done ==> rank[i] < |done|
    ensures IsRank(g, r)
    decreases AllBelow(|g|) - done
  {
    var all := AllBelow(|g|);
    if done == all {
      r := rank;
    } else {
      assert all - done != {};
      var j :| j in all - done;
      if Stuck(g, done) { StuckReachesCycle(g, done, j); }
      var i :| 0 <= i < |g| && i !in done && !Waits(g, done, i);
      assert forall k :: 0 <= k < |g[i]| ==> g[i][k] in done;
      var i0: nat := i;
      assert i0 in all - done;
      r := RankAll(g, done + {i0}, rank[i0 := |done|]);
    }
  }

  ghost function Rank(g: Graph): (rank: seq<nat>)
    requires WellIndexed(g) && Acyclic(g)
    ensures IsRank(g, rank)
  {
    AcyclicIffRanked(g);
    var rank :| IsRank(g, rank);
    rank
  }

  /** Every nonempty resolved batch has a fork that can start at once. */
  lemma HasRoot(g: Graph) returns (i: nat)
    requires WellIndexed(g) && Acyclic(g) && |g| > 0
    ensures i < |g| && g[i] == []
  {
    if !(exists j :: 0 <= j < |g| && g[j] == []) {
      var none: set<nat> := {};
      forall j | 0 <= j < |g| && j !in none ensures Waits(g, none, j) {
        assert g[j] != [] && g[j][0] !in none;
      }
      StuckReachesCycle(g, none, 0);
    }
    i :| 0 <= i < |g| && g[i] == [];
  }

  // ---- the loops of the scheduler ----

  ghost function Trues(done: seq<bool>): set<nat> {
    set i: nat | 0 <= i < |done| && done[i]
  }

  /** One closure: a node is runnable iff all its dependencies are runnable. */
  method Peel(deps: Graph) returns (done: array<bool>)
    requires WellIndexed(deps)
    ensures fresh(done) && done.Length == |deps|
    ensures forall i :: 0 <= i < |deps| ==> (done[i] <==> !ReachesCycle(deps, i))
  {
    var n := |deps|;
    done := new bool[n](_ => false);
    ghost var rank := seq(n, i => 0);
    ghost var top := 0;
    var changed := true;
    while changed
      invariant Ranked(deps, Trues(done[..]), rank)
      invariant forall i :: 0 <= i < n && done[i] ==> rank[i] < top
      invariant !changed ==> Stuck(deps, Trues(done[..]))
      decreases AllBelow(n) - Trues(done[..]), changed
    {
      changed := false;
      ghost var before := Trues(done[..]);
      for i := 0 to n
        invariant Ranked(deps, Trues(done[..]), rank)
        invariant forall j :: 0 <= j < n && done[j] ==> rank[j] < top
        invariant before <= Trues(done[..])
        invariant changed ==> before < Trues(done[..])
        invariant !changed ==> before == Trues(done[..])
        invariant !changed ==> forall j :: 0 <= j < i && j !in before ==> Waits(deps, before, j)
      {
        if !done[i] {
          var ready := true;
          for k := 0 to |deps[i]|
            invariant ready <==> forall m :: 0 <= m < k ==> done[deps[i][m]]
          {
            if !done[deps[i][k]] { ready := false; }
          }
          if ready {
            ghost var was := Trues(done[..]);
            done[i] := true;
            assert Trues(done[..]) == was + {i};
            rank := rank[i := top];
            top := top + 1;
            changed := true;
          } else {
            var m :| 0 <= m < |deps[i]| && !done[deps[i][m]];
            assert deps[i][m] !in Trues(done[..]);
          }
        }
      }
    }
    forall i | 0 <= i < n ensures done[i] <==> !ReachesCycle(deps, i) {
      var d := Trues(done[..]);
      if done[i] {
        assert i in d;
        PeeledReachesNoCycle(deps, d, rank, i);
      } else {
        StuckReachesCycle(deps, d, i);
      }
    }
  }

  /** `retain`: keeps the entries whose node is done. */
  method Retain(s: seq<nat>, done: array<bool>, ghost g: Graph) returns (r: seq<nat>)
    requires forall k :: 0 <= k < |s| ==> s[k] < done.Length
    requires forall i :: 0 <= i < done.Length ==> (done[i] <==> !ReachesCycle(g, i))
    ensures r == Kept(g, s)
  {
    r := [];
    for k := 0 to |s|
      invariant r == Kept(g, s[..k])
    {
      assert s[..k + 1][..k] == s[..k];
      if done[s[k]] { r := r + [s[k]]; }
    }
    assert s[..|s|] == s;
  }

  /** One round: peel, then free the first unrunnable node, if any. */
  method Round(deps: Graph) returns (finished: bool, next: Graph)
    requires WellIndexed(deps)
    ensures finished <==> Acyclic(deps)
    ensures next == if finished then deps else CutOnce(deps)
  {
    var done := Peel(deps);
    var cut := 0;
    while cut < |deps| && done[cut]
      invariant 0 <= cut <= |deps|
      invariant forall i :: 0 <= i < cut ==> done[i]
    {
      cut := cut + 1;
    }
    finished, next := cut == |deps|, deps;
    if !finished {
      assert ReachesCycle(deps, cut);
      var kept := Retain(deps[cut], done, deps);
      next := deps[cut := kept];
    }
  }

  /** Node `i` depends on exactly the other nodes its `after` list names, the last of each name. */
  ghost predicate NamedEdges(nodes: seq<Node>, g: Graph) {
    && |g| == |nodes|
    && forall i: nat, d: nat :: i < |nodes| ==>
         (d in g[i] <==>
          && d < |nodes| && d != i && nodes[d].name in nodes[i].after
          && forall j :: d < j < |nodes| ==> nodes[j].name != nodes[d].name)
  }

  lemma NameGraphNames(nodes: seq<Node>)
    ensures NamedEdges(nodes, NameGraph(nodes))
  {
    forall i: nat, d: nat | i < |nodes|
      ensures d in NameGraph(nodes)[i] <==>
        && d < |nodes| && d != i && nodes[d].name in nodes[i].after
        && forall j :: d < j < |nodes| ==> nodes[j].name != nodes[d].name
    {
      NameGraphExactly(nodes, i, d);
    }
  }

  /** Resolves the `after` names among the selected forks; at most one cut per fork. */
  method ResolveDeps(nodes: seq<Node>) returns (deps: Graph, ghost cuts: nat)
    ensures WellIndexed(NameGraph(nodes)) && deps == Resolve(NameGraph(nodes))
    ensures NamedEdges(nodes, NameGraph(nodes))
    ensures cuts <= |nodes|
  {
    NameGraphNames(nodes);
    NameGraphWellIndexed(nodes);
    deps := NameGraph(nodes);
    cuts := 0;
    var finished := false;
    SubsetSize(Bad(deps), AllBelow(|nodes|));
    while !finished
      invariant WellIndexed(deps)
      invariant Resolve(deps) == Resolve(NameGraph(nodes))
      invariant cuts + |Bad(deps)| <= |nodes|
      invariant finished ==> Acyclic(deps)
      decreases Bad(deps), !finished
    {
      ghost var was := deps;
      finished, deps := Round(deps);
      if !finished {
        CutOnceIsSub(was);
        CutShrinks(was);
        ProperSubsetSize(Bad(deps), Bad(was));
        cuts := cuts + 1;
      }
    }
  }

  lemma {:induction false} ProperSubsetSize(a: set<nat>, b: set<nat>)
    requires a < b
    ensures |a| < |b|
  {
    assert b - a != {};
    var x :| x in b - a;
    SubsetSize(a, b - {x});
  }

  lemma {:induction false} SubsetSize<T>(a: set<T>, b: set<T>)
    requires a <= b
    ensures |a| <= |b|
  {
    if a != {} {
      var x :| x in a;
      SubsetSize(a - {x}, b - {x});
    }
  }

  /** Root nodes (no dependencies) of a resolved graph, in order. */
  method Roots(deps: Graph) returns (r: seq<nat>)
    ensures forall k :: 0 <= k < |r| ==> r[k] < |deps| && deps[r[k]] == []
    ensures forall i :: 0 <= i < |deps| && deps[i] == [] ==> i in r
    ensures forall j, k :: 0 <= j < k < |r| ==> r[j] < r[k]
  {
    r := [];
    for i := 0 to |deps|
      invariant forall k :: 0 <= k < |r| ==> r[k] < i && deps[r[k]] == []
      invariant forall j :: 0 <= j < i && deps[j] == [] ==> j in r
      invariant forall j, k :: 0 <= j < k < |r| ==> r[j] < r[k]
    {
      if deps[i] == [] { r := r + [i]; }
    }
  }
}
