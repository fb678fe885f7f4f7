/** Loops that pop more than they push: when the inference of inputs ends, and which paths its result covers. */
module NetLoops {
  import opened Base
  import opened SymbolicStack
  import opened Statements
  import opened Blocks
  import opened Worklist
  import opened FixedPoint
  import opened InferredInputs
  import opened Reachability
  import opened Analysis
  import T = Termination

  /** A sequence of blocks, each one followed by a successor. */
  ghost predicate Walk(blocks: seq<Block>, walk: seq<nat>) {
    && walk != []
    && (forall i :: 0 <= i < |walk| ==> walk[i] < |blocks|)
    && (forall i :: 0 <= i < |walk| - 1 ==> walk[i + 1] in blocks[walk[i]].successors)
  }

  ghost predicate Cycle(blocks: seq<Block>, walk: seq<nat>) {
    Walk(blocks, walk) && walk[0] in blocks[walk[|walk| - 1]].successors
  }

  /** A reachable loop that avoids the first block and pops more than it pushes. */
  ghost predicate PoppingLoop(c: Setup, walk: seq<nat>) {
    && Cycle(c.blocks, walk) && 0 !in walk && Reachable(c.blocks, walk[0])
    && WalkNet(c.fork, c.blocks, walk) < 0
  }

  // ----- walks -----

  lemma {:induction false} WalkNetAppend(fork: Fork, blocks: seq<Block>, a: seq<nat>, b: seq<nat>)
    ensures WalkNet(fork, blocks, a + b) == WalkNet(fork, blocks, a) + WalkNet(fork, blocks, b)
    decreases |b|
  {
    hide BlockNet;
    if b == [] {
      assert a + b == a;
    } else {
      var last := |b| - 1;
      assert (a + b)[..|a + b| - 1] == a + b[..last] && (a + b)[|a + b| - 1] == b[last];
      WalkNetAppend(fork, blocks, a, b[..last]);
    }
  }

  lemma WalkJoin(blocks: seq<Block>, a: seq<nat>, b: seq<nat>)
    requires Walk(blocks, a) && Walk(blocks, b) && b[0] in blocks[a[|a| - 1]].successors
    ensures Walk(blocks, a + b)
  {
    var w := a + b;
    forall i | 0 <= i < |w| - 1
      ensures w[i + 1] in blocks[w[i]].successors
    {
      if i < |a| - 1 {
        assert a[i + 1] in blocks[a[i]].successors;
      } else if i >= |a| {
        var k := i - |a|;
        assert b[k + 1] in blocks[b[k]].successors;
      }
    }
  }

  lemma WalkPart(blocks: seq<Block>, walk: seq<nat>, i: nat, j: nat)
    requires Walk(blocks, walk) && i < j <= |walk|
    ensures Walk(blocks, walk[i..j])
  {
    var w := walk[i..j];
    forall k | 0 <= k < |w| - 1
      ensures w[k + 1] in blocks[w[k]].successors
    {
      assert walk[i + k + 1] in blocks[walk[i + k]].successors;
    }
  }

  lemma WalkEdge(blocks: seq<Block>, walk: seq<nat>, i: nat)
    requires Walk(blocks, walk) && i + 1 < |walk|
    ensures walk[i + 1] in blocks[walk[i]].successors
  {
  }

  lemma PathIsWalk(blocks: seq<Block>, path: seq<nat>)
    ensures T.IsPath(blocks, path) <==> Walk(blocks, path) && path[0] == 0
  {
  }

  /** Two of more than n numbers below n are equal. */
  lemma {:induction false} Pigeonhole(s: seq<nat>, n: nat) returns (i: nat, j: nat)
    requires |s| > n && forall k :: 0 <= k < |s| ==> s[k] < n
    ensures i < j < |s| && s[i] == s[j]
    decreases n
  {
    var last := |s| - 1;
    if k :| 0 <= k < last && s[k] == s[last] {
      i, j := k, last;
    } else {
      assert n > 0 by { assert s[0] < n; }
      var t := seq(last, k requires 0 <= k < last => if s[k] == n - 1 then s[last] else s[k]);
      i, j := Pigeonhole(t, n - 1);
    }
  }

  // ----- paths without popping loops are bounded -----

  /** A walk through few blocks cannot pop more than they do at most. */
  lemma {:induction false} ShortWalk(c: Setup, walk: seq<nat>, m: nat)
    requires forall b :: 0 <= b < |c.blocks| ==> BlockTouch(c.fork, c.blocks, b) <= m
    requires forall i :: 0 <= i < |walk| ==> walk[i] < |c.blocks|
    ensures WalkNet(c.fork, c.blocks, walk) >= -(m * |walk|)
    decreases |walk|
  {
    hide BlockTouch, BlockNet;
    if walk != [] {
      var last := |walk| - 1;
      ShortWalk(c, walk[..last], m);
      assert BlockTouch(c.fork, c.blocks, walk[last]) + BlockNet(c.fork, c.blocks, walk[last]) >= 0;
      T.OneMore(|walk|, m);
    }
  }

  /** A long path from the first block goes round a loop that avoids it, and can leave the loop out. */
  lemma LongPath(c: Setup, path: seq<nat>) returns (loop: seq<nat>, rest: seq<nat>)
    requires InnerPath(c.blocks, path) && |path| > |c.blocks| + 1
    ensures Cycle(c.blocks, loop) && 0 !in loop && Reachable(c.blocks, loop[0])
    ensures InnerPath(c.blocks, rest) && |rest| < |path| && rest[|rest| - 1] == path[|path| - 1]
    ensures Height(c.fork, c.blocks, path) == Height(c.fork, c.blocks, rest) + WalkNet(c.fork, c.blocks, loop)
  {
    T.PathInside(c.blocks, path);
    hide T.IsPath, Cycle, Reachable, Height, WalkNet, InnerPath;
    var i, j := Pigeonhole(path[1..], |c.blocks|);
    i, j := i + 1, j + 1;
    assert path[i] == path[j];
    loop := path[i..j];
    LoopFound(c.blocks, path, i, j);
    rest := path[..i] + path[j..];
    LoopLeftOut(c.blocks, path, i, j);
    HeightSplit(c.fork, c.blocks, path, i, j);
  }

  lemma LoopFound(blocks: seq<Block>, path: seq<nat>, i: nat, j: nat)
    requires InnerPath(blocks, path) && 0 < i < j < |path| && path[i] == path[j]
    ensures Cycle(blocks, path[i..j]) && 0 !in path[i..j] && Reachable(blocks, path[i..j][0])
  {
    PathIsWalk(blocks, path);
    WalkPart(blocks, path, i, j);
    WalkEdge(blocks, path, j - 1);
    WalkPart(blocks, path, 0, i + 1);
    PathIsWalk(blocks, path[0..i + 1]);
    assert T.IsPath(blocks, path[0..i + 1]) && T.EndsAt(path[0..i + 1], path[i]);
    assert path[i..j][0] == path[i] && path[i..j][|path[i..j]| - 1] == path[j - 1];
    hide Walk, T.IsPath;
  }

  lemma LoopLeftOut(blocks: seq<Block>, path: seq<nat>, i: nat, j: nat)
    requires InnerPath(blocks, path) && 0 < i < j < |path| && path[i] == path[j]
    ensures InnerPath(blocks, path[..i] + path[j..])
  {
    var rest := path[..i] + path[j..];
    PathIsWalk(blocks, path);
    WalkPart(blocks, path, 0, i);
    WalkPart(blocks, path, j, |path|);
    WalkEdge(blocks, path, i - 1);
    assert path[0..i] == path[..i] && path[j..|path|] == path[j..];
    assert path[..i][|path[..i]| - 1] == path[i - 1] && path[j..][0] == path[i];
    WalkJoin(blocks, path[..i], path[j..]);
    PathIsWalk(blocks, rest);
    hide Walk, T.IsPath;
  }

  lemma HeightSplit(fork: Fork, blocks: seq<Block>, path: seq<nat>, i: nat, j: nat)
    requires i < j < |path|
    ensures Height(fork, blocks, path) == Height(fork, blocks, path[..i] + path[j..]) + WalkNet(fork, blocks, path[i..j])
  {
    var last := |path| - 1;
    var rest := path[..i] + path[j..];
    var a, b, c := path[..i], path[i..j], path[j..last];
    hide WalkNet;
    assert path[..last] == a + b + c;
    assert rest[..|rest| - 1] == a + c;
    assert Height(fork, blocks, path) == WalkNet(fork, blocks, a + b + c) && Height(fork, blocks, rest) == WalkNet(fork, blocks, a + c);
    hide Height;
    WalkNetAppend(fork, blocks, a + b, c);
    WalkNetAppend(fork, blocks, a, b);
    WalkNetAppend(fork, blocks, a, c);
  }

  lemma {:induction false} NoLoopBound(c: Setup, path: seq<nat>, m: nat)
    requires forall b :: 0 <= b < |c.blocks| ==> BlockTouch(c.fork, c.blocks, b) <= m
    requires !exists walk :: PoppingLoop(c, walk)
    requires InnerPath(c.blocks, path)
    ensures Height(c.fork, c.blocks, path) >= -(m * (|c.blocks| + 1))
    decreases |path|
  {
    if |path| > |c.blocks| + 1 {
      hide InnerPath, BlockTouch, WalkNet, Height, Cycle, Reachable;
      var loop, rest := LongPath(c, path);
      assert !PoppingLoop(c, loop);
      NoLoopBound(c, rest, m);
    } else {
      hide BlockTouch, WalkNet;
      ShortWalk(c, path[..|path| - 1], m);
      TimesMonotone(m, |path| - 1, |c.blocks| + 1);
    }
  }

  /** Without popping loops, there is a bound on how deep the paths reach. */
  lemma NoLoopBounded(c: Setup) returns (t: nat)
    requires !exists walk :: PoppingLoop(c, walk)
    ensures TouchBounded(c, t)
  {
    var m := MostTouch(c.fork, c.blocks);
    hide BlockTouch, MostTouch, Height, InnerPath, PoppingLoop;
    TimesMonotone(m, 0, |c.blocks| + 1);
    t := m + m * (|c.blocks| + 1);
    forall path | InnerPath(c.blocks, path)
      ensures PathTouch(c.fork, c.blocks, path) <= t
    {
      NoLoopBound(c, path, m);
    }
  }

  // ----- popping loops keep the inference going -----

  lemma LoopIsInner(c: Setup, n: nat, walk: seq<nat>)
    requires c.Valid() && AfterRounds(c, n).worklist == [] && PoppingLoop(c, walk)
    ensures |AfterRounds(c, n).states| == |c.blocks| && InnerCycle(c, AfterRounds(c, n).states, walk)
  {
    hide AfterRounds, Reachable, ValidGraph;
    ReachedIffReachable(c, n, walk[0]);
    assert forall i :: 0 <= i < |walk| ==> walk[i] in walk;
  }

  lemma LoopWithGrowth(c: Setup, g: nat, walk: seq<nat>)
    requires PoppingLoop(c, walk)
    ensures PoppingLoop(WithGrowth(c, g), walk)
  {
    hide Cycle, Reachable, WalkNet;
  }

  /** With a popping loop, no propagation is the last one. */
  lemma LoopUnsettled(c: Setup, g: nat, n: nat, walk: seq<nat>)
    requires InferredSetup(c) && PoppingLoop(c, walk)
    ensures WithGrowth(c, g).Valid() && !SettledAfter(WithGrowth(c, g), n)
  {
    WithGrowthSetup(c, g);
    LoopWithGrowth(c, g, walk);
    var r := WithGrowth(c, g);
    if SettledAfter(r, n) {
      assert WalkNet(r.fork, r.blocks, walk) < 0;
      hide AfterRounds, InferredSetup, PoppingLoop, InnerCycle, ValidGraph, WalkNet;
      LoopIsInner(r, n, walk);
      NegativeLoopNeeds(r, n, walk);
    }
  }

  /**
   * If every propagation drains, the retry loop ends if and only if no reachable loop that avoids the
   * first block pops more than it pushes.
   */
  lemma RetryEndsWithoutLoops(c: Setup)
    requires c.Valid() && InferredSetup(c) && AllDrain(c)
    ensures (exists gs :: EndsWith(c, gs)) <==> !exists walk :: PoppingLoop(c, walk)
  {
    hide InferredSetup, AllDrain, Retry, SettledAfter, PoppingLoop, TouchBounded, ValidGraph;
    if walk :| PoppingLoop(c, walk) {
      if gs :| EndsWith(c, gs) {
        var n :| SettledAfter(WithGrowth(c, LastOf(gs)), n);
        LoopUnsettled(c, LastOf(gs), n, walk);
      }
    } else {
      var t := NoLoopBounded(c);
      hide EndsWith;
      RetryEndsIff(c);
    }
  }

  /** The analysis of a document with a popping loop runs forever: it uses up every bound on rounds and retries. */
  lemma LoopNeverEnds(c: Setup, fuel: nat, retries: nat, walk: seq<nat>, r: AnalysisResult)
    requires c.Valid() && InferredSetup(c) && PoppingLoop(c, walk)
    requires ResultFor(c.fork, c.blocks, [], true, fuel, retries, r)
    ensures r == OutOfFuel
  {
    var first := Setup(c.fork, c.blocks, [], true, 0);
    assert first == WithGrowth(c, 0);
    WithGrowthSetup(c, 0);
    LoopWithGrowth(c, 0, walk);
    FirstRetry(first);
    hide InferredSetup, PoppingLoop, Retries, SettledAfter, FinalGrowth, AfterRounds, ReportsStates, InferredNames, ValidGraph;
    if FinalGrowth(first, 0, fuel, retries).Some? {
      var all := FinalGrowthEnds(first, [0], fuel, retries);
      LoopUnsettled(first, LastOf(all), fuel, walk);
    }
  }

  // ----- loops through the first block -----

  /** A loop through the first block that pops more than it pushes. */
  ghost predicate PoppingStart(c: Setup, walk: seq<nat>) {
    && Cycle(c.blocks, walk) && walk[0] == 0
    && WalkNet(c.fork, c.blocks, walk) < 0
  }

  /** No path at all, whether or not it returns to the first block, reaches further than t items below the start. */
  ghost predicate AllPathsBounded(c: Setup, t: int) {
    forall path :: T.IsPath(c.blocks, path) ==> PathTouch(c.fork, c.blocks, path) <= t
  }

  /** Going round a loop through the first block k times. */
  lemma {:induction false} Rounds(c: Setup, walk: seq<nat>, k: nat) returns (all: seq<nat>)
    requires PoppingStart(c, walk) && k > 0
    ensures Cycle(c.blocks, all) && all[0] == 0 && WalkNet(c.fork, c.blocks, all) + k <= 0
    decreases k
  {
    if k == 1 {
      all := walk;
    } else {
      var some := Rounds(c, walk, k - 1);
      all := some + walk;
      WalkJoin(c.blocks, some, walk);
      hide Walk, WalkNet;
      WalkNetAppend(c.fork, c.blocks, some, walk);
      assert all[0] == some[0] && all[|all| - 1] == walk[|walk| - 1];
    }
  }

  lemma CycleIsPath(c: Setup, walk: seq<nat>)
    requires Cycle(c.blocks, walk) && walk[0] == 0
    ensures T.IsPath(c.blocks, walk + [0])
    ensures PathTouch(c.fork, c.blocks, walk + [0]) >= -WalkNet(c.fork, c.blocks, walk)
  {
    var path := walk + [0];
    assert Walk(c.blocks, [0]);
    WalkJoin(c.blocks, walk, [0]);
    assert path[..|path| - 1] == walk && path[0] == 0 && path[|path| - 1] == 0;
    PathIsWalk(c.blocks, path);
    hide Walk, WalkNet, BlockTouch;
  }

  /** Where a path is at the first block for the last time. */
  lemma {:induction false} LastReturn(path: seq<nat>, n: nat) returns (i: nat)
    requires 0 < n <= |path| && path[0] == 0
    ensures i < n && path[i] == 0 && forall k :: i < k < n ==> path[k] != 0
    decreases n
  {
    if path[n - 1] == 0 {
      i := n - 1;
    } else {
      i := LastReturn(path, n - 1);
    }
  }

  lemma TouchIs(c: Setup, path: seq<nat>)
    requires path != [] && path[|path| - 1] < |c.blocks|
    ensures PathTouch(c.fork, c.blocks, path) == BlockTouch(c.fork, c.blocks, path[|path| - 1]) - Height(c.fork, c.blocks, path)
  {
    hide Height, BlockTouch;
  }

  /** What a path does up to a block, and from there on. */
  lemma TouchSplit(c: Setup, path: seq<nat>, i: nat)
    requires T.IsPath(c.blocks, path) && 0 < i < |path|
    ensures PathTouch(c.fork, c.blocks, path) == PathTouch(c.fork, c.blocks, path[i..]) - WalkNet(c.fork, c.blocks, path[..i])
  {
    T.PathInside(c.blocks, path);
    assert path[|path| - 1] < |c.blocks|;
    hide *;
    HeightSplit(c.fork, c.blocks, path, 0, i);
    assert path[..0] + path[i..] == path[i..] && path[0..i] == path[..i];
    assert path[i..][|path[i..]| - 1] == path[|path| - 1];
    TouchIs(c, path);
    TouchIs(c, path[i..]);
  }

  /** The part of a path up to a return to the first block is a loop, and the rest is a path. */
  lemma SplitAtReturn(c: Setup, path: seq<nat>, i: nat)
    requires T.IsPath(c.blocks, path) && 0 < i < |path| && path[i] == 0
    ensures Cycle(c.blocks, path[..i]) && path[..i][0] == 0 && T.IsPath(c.blocks, path[i..])
  {
    PathIsWalk(c.blocks, path);
    WalkPart(c.blocks, path, i, |path|);
    WalkPart(c.blocks, path, 0, i);
    WalkEdge(c.blocks, path, i - 1);
    PathIsWalk(c.blocks, path[i..]);
    hide Walk, T.IsPath;
    assert path[i..|path|] == path[i..] && path[0..i] == path[..i];
    assert path[..i][i - 1] == path[i - 1];
  }

  /** Paths are covered by their part after the last return, if no loop through the first block pops more than it pushes. */
  lemma ReturningPath(c: Setup, t: int, path: seq<nat>)
    requires TouchBounded(c, t) && !exists walk :: PoppingStart(c, walk)
    requires T.IsPath(c.blocks, path)
    ensures PathTouch(c.fork, c.blocks, path) <= t
  {
    var i := LastReturn(path, |path|);
    hide WalkNet, PathTouch, Cycle;
    if i > 0 {
      SplitAtReturn(c, path, i);
      TouchSplit(c, path, i);
      assert !PoppingStart(c, path[..i]);
      assert InnerPath(c.blocks, path[i..]);
    } else {
      assert InnerPath(c.blocks, path);
    }
  }

  lemma AllPathsIff(c: Setup, t: int)
    requires TouchBounded(c, t)
    ensures AllPathsBounded(c, t) <==> !exists walk :: PoppingStart(c, walk)
  {
    hide TouchBounded, T.IsPath, PathTouch, WalkNet, Cycle;
    if walk :| PoppingStart(c, walk) {
      var k: nat := if t < 0 then 1 else t + 1;
      var all := Rounds(c, walk, k);
      CycleIsPath(c, all);
    } else {
      forall path | T.IsPath(c.blocks, path)
        ensures PathTouch(c.fork, c.blocks, path) <= t
      {
        hide PoppingStart;
        ReturningPath(c, t, path);
      }
    }
  }

  /**
   * When the retry loop ends, the inferred inputs are enough for every path, returning to the first
   * block or not, if and only if no loop through the first block pops more than it pushes.
   */
  lemma InferredCoversIff(c: Setup, gs: seq<nat>)
    requires c.Valid() && InferredSetup(c) && EndsWith(c, gs)
    ensures AllPathsBounded(c, InferredCount(WithGrowth(c, LastOf(gs)))) <==> !exists walk :: PoppingStart(c, walk)
  {
    var t := InferredCount(WithGrowth(c, LastOf(gs)));
    hide InferredSetup, EndsWith, InferredCount, TouchBounded, PoppingStart, AllPathsBounded, ValidGraph;
    InferredExact(c, gs);
    AllPathsIff(c, t);
  }
}
