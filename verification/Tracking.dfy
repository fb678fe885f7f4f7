/**
 * What the symbolic stack says about the concrete one. A valuation maps items to machine words;
 * the symbolic stack tracks a concrete stack if some valuation gives every tracked position the
 * word that is really there.
 */
module Tracking {
  import opened Base
  import opened StackComment
  import opened SymbolicStack

  type Word = int

  /** The concrete effect of an operation, top first: outputs named like an input repeat its word. */
  ghost predicate OpStep(op: StackOp, w: seq<Word>, w': seq<Word>) {
    && |w| >= |op.ins|
    && |w'| == |w| - |op.ins| + |op.outs|
    && w'[|op.outs|..] == w[|op.ins|..]
    && forall i, k :: 0 <= i < |op.outs| && 0 <= k < |op.ins| && op.outs[i] == op.ins[k] ==> w'[i] == w[k]
  }

  ghost predicate Valued(val: map<nat, Word>, st: StackState, w: seq<Word>) {
    && (forall x :: x in val ==> x <= st.counter)
    && (forall i :: 0 <= i < |st.items| && i < |w| ==> Top(st, i) in val && val[Top(st, i)] == w[i])
  }

  /** Positions that exist on both stacks agree under some valuation of the items. */
  ghost predicate Tracks(st: StackState, w: seq<Word>) {
    exists val :: Valued(val, st, w)
  }

  ghost predicate Extends(val: map<nat, Word>, val': map<nat, Word>) {
    forall x :: x in val ==> x in val' && val'[x] == val[x]
  }

  /** Positions with the same item hold the same word. */
  lemma SameItemSameWord(st: StackState, w: seq<Word>, i: nat, j: nat)
    requires Tracks(st, w)
    requires i < |st.items| && j < |st.items| && i < |w| && j < |w|
    requires Top(st, i) == Top(st, j)
    ensures w[i] == w[j]
  {
    var val :| Valued(val, st, w);
    assert val[Top(st, i)] == w[i] && val[Top(st, j)] == w[j];
  }

  // ----- initialization -----

  /** The stack holds names[n..], and equal names are the same item. */
  ghost predicate Shares(st: StackState, names: seq<string>, n: nat) {
    && Valid(st) && |names| == n + |st.items|
    && (forall i :: n <= i < |names| ==> Resolve(names[i]) in st.nameToItem && Top(st, i - n) == st.nameToItem[Resolve(names[i])])
    && (forall a, b :: a in st.nameToItem && b in st.nameToItem && a != b ==> st.nameToItem[a] != st.nameToItem[b])
  }

  lemma InitOneShares(st: StackState, names: seq<string>, n: nat)
    requires Shares(st, names, n) && n > 0
    ensures Shares(InitOne(st, names[n - 1], None), names, n - 1)
  {
    hide Resolve, Valid;
    var name := Resolve(names[n - 1]);
    var s := InitOne(st, names[n - 1], None);
    InitOneValid(st, names[n - 1], None);
    forall i | n - 1 <= i < |names|
      ensures Resolve(names[i]) in s.nameToItem && Top(s, i - (n - 1)) == s.nameToItem[Resolve(names[i])]
    {
      if i >= n {
        assert Top(s, i - (n - 1)) == Top(st, i - n);
      }
    }
    if name !in st.nameToItem {
      forall a | a in st.nameToItem
        ensures st.nameToItem[a] != st.counter + 1
      {
        NamedBelow(st, a);
      }
    }
  }

  lemma NamedBelow(st: StackState, name: string)
    requires Valid(st) && name in st.nameToItem
    ensures st.nameToItem[name] <= st.counter
  {
  }

  lemma {:induction false} InitShared(st: StackState, names: seq<string>, n: nat)
    requires Shares(st, names, n)
    ensures n <= |names| && Shares(InitNames(st, names, None, n), names, 0)
    decreases n
  {
    hide InitOne, Shares;
    SharesBound(st, names, n);
    if n > 0 {
      InitOneShares(st, names, n);
      InitShared(InitOne(st, names[n - 1], None), names, n - 1);
    }
  }

  lemma SharesBound(st: StackState, names: seq<string>, n: nat)
    requires Shares(st, names, n)
    ensures n <= |names|
  {
  }

  /** Positions with equal names hold equal words. */
  ghost predicate NamesAgree(names: seq<string>, w: seq<Word>)
    requires |w| == |names|
  {
    forall i, j :: 0 <= i < |names| && 0 <= j < |names| && Resolve(names[i]) == Resolve(names[j]) ==> w[i] == w[j]
  }

  lemma SharesTracks(st: StackState, names: seq<string>, w: seq<Word>)
    requires Shares(st, names, 0) && |w| == |names|
    ensures Tracks(st, w) <==> NamesAgree(names, w)
  {
    hide Resolve;
    if Tracks(st, w) {
      forall i, j | 0 <= i < |names| && 0 <= j < |names| && Resolve(names[i]) == Resolve(names[j])
        ensures w[i] == w[j]
      {
        assert Top(st, i - 0) == Top(st, j - 0);
        SameItemSameWord(st, w, i, j);
      }
    }
    if NamesAgree(names, w) {
      forall i, j | 0 <= i < |names| && 0 <= j < |names| && Top(st, i) == Top(st, j)
        ensures w[i] == w[j]
      {
        assert Top(st, i - 0) == st.nameToItem[Resolve(names[i])];
        assert Top(st, j - 0) == st.nameToItem[Resolve(names[j])];
      }
      var val := map i | 0 <= i < |names| :: Top(st, i) := w[i];
      assert Valued(val, st, w);
    }
  }

  /**
   * A stack built from names alone can be valued exactly if positions with equal names hold equal
   * words: duplicate names share an item.
   */
  lemma NewStackTracks(names: seq<string>, w: seq<Word>)
    requires |w| == |StripWildcard(names).0|
    ensures Tracks(NewStack(names, None), w) <==> NamesAgree(StripWildcard(names).0, w)
  {
    hide Resolve, InitNames;
    var shown := StripWildcard(names).0;
    if |names| == 0 {
      assert Valued(map[], EMPTY, w);
    } else {
      var start := EMPTY.(wildcard := HasWildcard(names));
      assert Shares(start, shown, |shown|);
      InitShared(start, shown, |shown|);
      SharesTracks(InitNames(start, shown, None, |shown|), shown, w);
    }
  }

  lemma OneValued(st: StackState, name: string, conf: bool, w: seq<Word>, top: Word, val: map<nat, Word>)
    requires Valid(st) && |w| == |st.items| && Valued(val, st, w)
    ensures Valued(val[st.counter + 1 := top], InitOne(st, name, Some(conf)), [top] + w) && Valid(InitOne(st, name, Some(conf)))
  {
    InitOneValid(st, name, Some(conf));
    var s, v := InitOne(st, name, Some(conf)), val[st.counter + 1 := top];
    forall i | 0 <= i < |s.items|
      ensures Top(s, i) in v && v[Top(s, i)] == ([top] + w)[i]
    {
      if i > 0 {
        assert Top(s, i) == Top(st, i - 1);
      }
    }
  }

  lemma InitOneSize(st: StackState, name: string, conf: bool)
    ensures |InitOne(st, name, Some(conf)).items| == |st.items| + 1
  {
  }

  lemma {:induction false} InitDistinct(st: StackState, names: seq<string>, confirmed: seq<bool>, n: nat, w: seq<Word>, val: map<nat, Word>)
    returns (val': map<nat, Word>)
    requires Valid(st) && n <= |names| == |w| == n + |st.items| && |confirmed| >= |names|
    requires Valued(val, st, w[n..])
    ensures Valued(val', InitNames(st, names, Some(confirmed), n), w)
    decreases n
  {
    if n == 0 {
      assert w[0..] == w;
      val' := val;
    } else {
      OneValued(st, names[n - 1], confirmed[n - 1], w[n..], w[n - 1], val);
      assert [w[n - 1]] + w[n..] == w[n - 1..];
      hide Valid, Valued, InitOne;
      var s, v := InitOne(st, names[n - 1], Some(confirmed[n - 1])), val[st.counter + 1 := w[n - 1]];
      InitOneSize(st, names[n - 1], confirmed[n - 1]);
      val' := InitDistinct(s, names, confirmed, n - 1, w, v);
    }
  }

  /** A stack built at a merge point (with a confirmed mask) claims nothing about equal words. */
  lemma MergeStackTracks(names: seq<string>, confirmed: seq<bool>, w: seq<Word>)
    requires ConfirmsNames(names, Some(confirmed))
    requires |w| == |StripWildcard(names).0|
    ensures Tracks(NewStack(names, Some(confirmed)), w)
  {
    if |names| == 0 {
      assert Valued(map[], EMPTY, w);
    } else {
      var shown := StripWildcard(names).0;
      var st := EMPTY.(wildcard := HasWildcard(names));
      var val := InitDistinct(st, shown, confirmed, |shown|, w, map[]);
    }
  }

  // ----- one operation -----

  lemma GrowTracks(st: StackState, n: nat, w: seq<Word>, val: map<nat, Word>) returns (val': map<nat, Word>)
    requires Valued(val, st, w)
    ensures Valued(val', Grow(st, n), w) && Extends(val, val')
  {
    var s := Grow(st, n);
    var depth := |st.items|;
    val' := val + map x | x in NewItems(st.counter, n) && depth + n - (x - st.counter) < |w| :: w[depth + n - (x - st.counter)];
    forall i | 0 <= i < |s.items| && i < |w|
      ensures Top(s, i) in val' && val'[Top(s, i)] == w[i]
    {
      if i < depth {
        assert Top(s, i) == Top(st, i);
      } else {
        assert Top(s, i) == NewItems(st.counter, n)[depth + n - 1 - i];
      }
    }
  }

  lemma {:induction false} PullTracks(st: StackState, n: nat, w: seq<Word>, val: map<nat, Word>) returns (val': map<nat, Word>)
    requires Valued(val, st, w)
    ensures Valued(val', Pull(st, n).0, w)
  {
    if n == 0 {
      val' := val;
    } else {
      var v := PullTracks(st, n - 1, w, val);
      var (s, ok) := Pull(st, n - 1);
      if ok && n - 1 >= |s.items| && (s.inferred || s.wildcard) {
        val' := GrowTracks(s, n - 1 - (|s.items| - 1), w, v);
      } else {
        val' := v;
      }
    }
  }

  lemma {:induction false} PushOutsTracks(st: StackState, ins: seq<string>, popped: seq<nat>, outs: seq<string>,
                                          w: seq<Word>, w': seq<Word>, val: map<nat, Word>)
    returns (val': map<nat, Word>)
    requires |popped| == |ins| <= |w|
    requires Valued(val, st, w[|ins|..])
    requires forall k :: 0 <= k < |ins| ==> popped[k] in val && val[popped[k]] == w[k]
    requires OpStep(StackOp(ins, outs), w, w')
    ensures Valued(val', PushOuts(st, ins, popped, outs).0, w') && Extends(val, val')
    ensures PushOuts(st, ins, popped, outs).0.counter >= st.counter
  {
    if outs == [] {
      assert w' == w[|ins|..];
      val' := val;
    } else {
      var v := PushOutsTracks(st, ins, popped, outs[1..], w, w'[1..], val);
      var (s, _) := PushOuts(st, ins, popped, outs[1..]);
      var k := FindName(ins, outs[0]);
      var r := if k >= 0 then Push(s, popped[k]) else PushNew(s);
      val' := if k >= 0 then v else v[s.counter + 1 := w'[0]];
      forall i | 0 <= i < |r.items| && i < |w'|
        ensures Top(r, i) in val' && val'[Top(r, i)] == w'[i]
      {
        if i == 0 {
          if k >= 0 {
            assert outs[0] == ins[k];
          }
        } else {
          assert Top(r, i) == Top(s, i - 1) && w'[1..][i - 1] == w'[i];
        }
      }
    }
  }

  lemma CheckItemTracks(c: Checking, names: seq<string>, i: nat, outs: seq<string>, w: seq<Word>, val: map<nat, Word>)
    returns (val': map<nat, Word>)
    requires i < |names| && i < |c.st.items|
    requires Valued(val, c.st, w)
    ensures Valued(val', CheckItem(c, names, i, outs).st, w)
  {
    if Splits(c, names, i, outs) {
      var s := Split(c, i);
      val' := if i < |w| then val[c.st.counter + 1 := w[i]] else val;
      forall j | 0 <= j < |s.st.items| && j < |w|
        ensures Top(s.st, j) in val' && val'[Top(s.st, j)] == w[j]
      {
        if j != i {
          assert Top(s.st, j) == Top(c.st, j);
        }
      }
      NamedTracks(val', s.st, Top(s.st, i), Resolve(names[i]), w);
    } else {
      val' := val;
      NamedTracks(val', c.st, Top(c.st, i), Resolve(names[i]), w);
    }
  }

  lemma NamedTracks(val: map<nat, Word>, st: StackState, item: nat, name: string, w: seq<Word>)
    requires Valued(val, st, w)
    ensures Valued(val, Named(st, item, name), w)
  {
    assert forall i :: 0 <= i < |st.items| ==> Top(Named(st, item, name), i) == Top(st, i);
  }

  lemma {:induction false} CheckItemsTracks(c: Checking, names: seq<string>, i: nat, outs: seq<string>, w: seq<Word>, val: map<nat, Word>)
    returns (val': map<nat, Word>)
    requires i <= |names|
    requires Valued(val, c.st, w)
    ensures Valued(val', CheckItems(c, names, i, outs).0.st, w)
    decreases |names| - i
  {
    hide CheckItem;
    val' := val;
    if i < |names| {
      var p := Peeked(c, i);
      if i >= |c.st.items| && c.st.wildcard {
        val' := GrowTracks(c.st, i - (|c.st.items| - 1), w, val');
      }
      if i < |p.st.items| {
        val' := CheckItemTracks(p, names, i, outs, w, val');
        val' := CheckItemsTracks(CheckItem(p, names, i, outs), names, i + 1, outs, w, val');
      }
    }
  }

  lemma CheckedTracks(st: StackState, comment: Option<seq<string>>, allowElide: bool, created: set<nat>, outs: seq<string>, w: seq<Word>)
    requires Tracks(st, w)
    ensures Tracks(Checked(st, comment, allowElide, created, outs).0, w)
  {
    hide CheckItems, CheckItem;
    var val :| Valued(val, st, w);
    if comment.Some? {
      var (names, wild) := StripWildcard(comment.value);
      var start := Checking(st.(wildcard := wild), created, map[], None);
      assert forall i :: 0 <= i < |st.items| ==> Top(start.st, i) == Top(st, i);
      var v := CheckItemsTracks(start, names, 0, outs, w, val);
      var c := CheckItems(start, names, 0, outs).0;
      if |names| < |c.st.items| {
        var cut := c.st.(items := c.st.items[|c.st.items| - |names|..]);
        assert forall i :: 0 <= i < |cut.items| ==> Top(cut, i) == Top(c.st, i);
        assert Valued(v, cut, w);
      }
    }
  }

  /** One Apply keeps track of the concrete stack, whatever the comment says. */
  lemma ApplyTracks(st: StackState, op: StackOp, comment: Option<seq<string>>, w: seq<Word>, w': seq<Word>)
    requires Tracks(st, w) && OpStep(op, w, w')
    requires Applied(st, op, comment).1 != Some(OpUnderflow)
    ensures Tracks(Applied(st, op, comment).0, w')
  {
    hide PushOuts, Checked, Pull;
    var val :| Valued(val, st, w);
    var st' := if comment.Some? && HasWildcard(comment.value) then st.(wildcard := true) else st;
    assert forall i :: 0 <= i < |st.items| ==> Top(st', i) == Top(st, i);
    var v := PullTracks(st', |op.ins|, w, val);
    var (p, ok) := Pull(st', |op.ins|);
    var popped := TopItems(p, |op.ins|);
    var base := p.(items := p.items[..|p.items| - |op.ins|]);
    forall i | 0 <= i < |base.items| && i < |w[|op.ins|..]|
      ensures Top(base, i) in v && v[Top(base, i)] == w[|op.ins|..][i]
    {
      assert Top(base, i) == Top(p, i + |op.ins|);
    }
    var v' := PushOutsTracks(base, op.ins, popped, op.outs, w, w', v);
    var (s, created) := PushOuts(base, op.ins, popped, op.outs);
    CheckedTracks(s, comment, true, created, op.outs, w');
  }

  // ----- whole runs -----

  datatype Event = Event(op: StackOp, comment: Option<seq<string>>)

  /** The stack after a sequence of Apply calls. */
  function RunState(st: StackState, events: seq<Event>): StackState
    decreases |events|
  {
    if events == [] then st
    else RunState(Applied(st, events[0].op, events[0].comment).0, events[1..])
  }

  predicate RunUnderflows(st: StackState, events: seq<Event>)
    decreases |events|
  {
    events != [] &&
    var (st', err) := Applied(st, events[0].op, events[0].comment);
    err == Some(OpUnderflow) || RunUnderflows(st', events[1..])
  }

  ghost predicate ConcreteRun(events: seq<Event>, ws: seq<seq<Word>>) {
    && |ws| == |events| + 1
    && forall i :: 0 <= i < |events| ==> OpStep(events[i].op, ws[i], ws[i + 1])
  }

  /**
   * Over any sequence of Apply calls that reports no operation underflow, the symbolic stack keeps
   * tracking every concrete execution of the same operations, through copies, swaps, copy
   * splitting and bottom growth, and whether or not the comments are right.
   */
  lemma {:induction false} RunTracks(st: StackState, events: seq<Event>, ws: seq<seq<Word>>)
    requires ConcreteRun(events, ws)
    requires Tracks(st, ws[0])
    requires !RunUnderflows(st, events)
    ensures Tracks(RunState(st, events), ws[|events|])
    decreases |events|
  {
    hide Applied;
    if events != [] {
      ApplyTracks(st, events[0].op, events[0].comment, ws[0], ws[1]);
      forall i | 0 <= i < |events| - 1
        ensures OpStep(events[1..][i].op, ws[1..][i], ws[1..][i + 1])
      {
        assert OpStep(events[i + 1].op, ws[i + 1], ws[i + 1 + 1]);
      }
      RunTracks(Applied(st, events[0].op, events[0].comment).0, events[1..], ws[1..]);
    }
  }

  /** After any such run, two positions holding the same item hold the same word. */
  lemma RunSameItemSameWord(st: StackState, events: seq<Event>, ws: seq<seq<Word>>, i: nat, j: nat)
    requires ConcreteRun(events, ws)
    requires Tracks(st, ws[0])
    requires !RunUnderflows(st, events)
    requires var r := RunState(st, events);
             && i < |r.items| && j < |r.items| && Top(r, i) == Top(r, j)
             && i < |ws[|events|]| && j < |ws[|events|]|
    ensures ws[|events|][i] == ws[|events|][j]
  {
    RunTracks(st, events, ws);
    SameItemSameWord(RunState(st, events), ws[|events|], i, j);
  }
}
