/** Which stack comments are rejected, and with which error, told from the stack before the check. */
module CommentVerdict {
  import opened Base
  import opened StackComment
  import opened SymbolicStack
  import opened Tracking
  import opened CommentExactness

  // ----- one position -----

  /** The item at position i is also at an earlier position. */
  predicate SeenBefore(st: StackState, i: nat)
    requires i < |st.items|
  {
    exists j :: 0 <= j < i && Top(st, j) == Top(st, i)
  }

  /** The comment has given the same value another name. */
  predicate TwoNames(st: StackState, names: seq<string>, i: nat)
    requires i < |names| && i < |st.items|
  {
    exists j :: 0 <= j < i && Top(st, j) == Top(st, i) && Resolve(names[j]) != Resolve(names[i])
  }

  /** The comment uses the name at an earlier position. */
  predicate UsedBefore(names: seq<string>, i: nat)
    requires i < |names|
  {
    exists j :: 0 <= j < i && Resolve(names[j]) == Resolve(names[i])
  }

  /** The name is that of another value on the stack. */
  predicate Foreign(st: StackState, names: seq<string>, i: nat)
    requires i < |names| && i < |st.items|
  {
    var name := Resolve(names[i]);
    UsedBefore(names, i) || (name in st.nameToItem && st.nameToItem[name] != Top(st, i) && st.nameToItem[name] in st.items)
  }

  /** The error that position i of a comment deserves, if all positions before it are fine. */
  function PositionError(st: StackState, names: seq<string>, created: set<nat>, i: nat): Option<StackError>
    requires i < |names| && i < |st.items|
  {
    var item, name := Top(st, i), Resolve(names[i]);
    if TwoNames(st, names, i) then Some(Mismatch)
    else if item in created || SeenBefore(st, i) then None
    else if NameOf(st, item) != name && Foreign(st, names, i) then Some(Mismatch)
    else if name !in st.nameToItem && !UsedBefore(names, i) && AssignName(names[i]).None? && item in st.confirmed then Some(Rename)
    else None
  }

  /** The first error among the first n positions. */
  function FirstError(st: StackState, names: seq<string>, created: set<nat>, n: nat): Option<StackError>
    requires n <= |names| && n <= |st.items|
  {
    if n == 0 then None
    else if FirstError(st, names, created, n - 1).Some? then FirstError(st, names, created, n - 1)
    else PositionError(st, names, created, n - 1)
  }

  /** No item is split off a copy by this comment. */
  predicate NoSplits(names: seq<string>, outs: seq<string>) {
    forall i :: 0 <= i < |names| && AssignName(names[i]).Some? ==> NextSame(outs, i) < 0
  }

  // ----- the check, position by position -----

  /** The items that have been named, with the names. */
  ghost predicate Recorded(first: map<nat, string>, st: StackState, names: seq<string>, i: nat)
    requires i <= |names| && i <= |st.items|
  {
    && (forall x :: x in first ==> exists j :: 0 <= j < i && Top(st, j) == x)
    && (forall j :: 0 <= j < i ==> Top(st, j) in first && first[Top(st, j)] == Resolve(names[j]))
  }

  /** Exactly the recorded items have new names, and all of these are confirmed. */
  ghost predicate Renamed(now: StackState, first: map<nat, string>, st: StackState) {
    && (forall x :: NameOf(now, x) == if x in first then first[x] else NameOf(st, x))
    && (forall x :: x in now.confirmed <==> x in st.confirmed || x in first)
  }

  /** The name of position j belongs to an item that the comment has named so. */
  ghost predicate OwnedBy(now: StackState, st: StackState, names: seq<string>, i: nat, j: nat)
    requires j < i <= |names| && i <= |st.items|
  {
    && Resolve(names[j]) in now.nameToItem
    && exists k :: 0 <= k < i && Resolve(names[k]) == Resolve(names[j]) && Top(st, k) == now.nameToItem[Resolve(names[j])]
  }

  /** A name belongs to whom it did before. */
  ghost predicate SameOwner(now: StackState, st: StackState, name: string) {
    && (name in now.nameToItem <==> name in st.nameToItem)
    && (name in st.nameToItem ==> now.nameToItem[name] == st.nameToItem[name])
  }

  ghost predicate Unused(names: seq<string>, i: nat, name: string)
    requires i <= |names|
  {
    forall j :: 0 <= j < i ==> Resolve(names[j]) != name
  }

  /** Only names that the comment has used have new owners. */
  ghost predicate Owners(now: StackState, st: StackState, names: seq<string>, i: nat)
    requires i <= |names| && i <= |st.items|
  {
    && (forall j :: 0 <= j < i ==> OwnedBy(now, st, names, i, j))
    && (forall name :: Unused(names, i, name) ==> SameOwner(now, st, name))
  }

  /** The state of the check after i positions without error, in terms of the stack before. */
  ghost predicate Progress(c: Checking, st: StackState, names: seq<string>, created: set<nat>, i: nat)
    requires i <= |names| && i <= |st.items|
  {
    && c.err.None? && c.created == created && c.st.items == st.items && c.st.inferred == st.inferred
    && Recorded(c.first, st, names, i) && Renamed(c.st, c.first, st) && Owners(c.st, st, names, i)
  }

  lemma Start(st: StackState, names: seq<string>, created: set<nat>, wild: bool)
    ensures Progress(Checking(st.(wildcard := wild), created, map[], None), st, names, created, 0)
  {
    hide Resolve;
  }

  lemma NoneSplit(c: Checking, names: seq<string>, i: nat, outs: seq<string>)
    requires i < |names| && i < |c.st.items| && NoSplits(names, outs)
    ensures CheckItem(c, names, i, outs) == NameItem(c, Top(c.st, i), Resolve(names[i]), AssignName(names[i]).Some?)
  {
    hide NameItem, Resolve, NextSame, AssignName;
    assert !Splits(c, names, i, outs);
  }

  /** The item has been named before exactly if it is at an earlier position. */
  lemma SeenIsFirst(c: Checking, st: StackState, names: seq<string>, created: set<nat>, i: nat)
    requires i < |names| && i < |st.items| && Progress(c, st, names, created, i)
    ensures SeenBefore(st, i) <==> Top(st, i) in c.first
    ensures TwoNames(st, names, i) <==> Top(st, i) in c.first && c.first[Top(st, i)] != Resolve(names[i])
    ensures NameOf(c.st, Top(st, i)) == if Top(st, i) in c.first then c.first[Top(st, i)] else NameOf(st, Top(st, i))
    ensures Top(st, i) in c.st.confirmed <==> Top(st, i) in st.confirmed || Top(st, i) in c.first
  {
    hide Resolve, Owners;
  }

  lemma SameTop(c: Checking, st: StackState, names: seq<string>, created: set<nat>, i: nat)
    requires i < |names| && i < |st.items| && Progress(c, st, names, created, i)
    ensures c.st.items == st.items && Top(c.st, i) == Top(st, i) && c.err.None? && c.created == created
  {
    hide Resolve, Owners, Recorded, Renamed;
  }

  /** Who has the name, for an item that the comment has not named yet. */
  lemma NameTaken(c: Checking, st: StackState, names: seq<string>, created: set<nat>, i: nat)
    requires i < |names| && i < |st.items| && Progress(c, st, names, created, i) && !SeenBefore(st, i) && Valid(st)
    ensures var name := Resolve(names[i]);
            && (name in c.st.nameToItem <==> name in st.nameToItem || UsedBefore(names, i))
            && (name in c.st.nameToItem ==> c.st.nameToItem[name] != 0)
            && (Foreign(st, names, i) <==>
                  name in c.st.nameToItem && c.st.nameToItem[name] != Top(st, i) && c.st.nameToItem[name] in c.st.items)
  {
    hide Resolve, Recorded, Renamed;
    var name := Resolve(names[i]);
    if UsedBefore(names, i) {
      var j :| 0 <= j < i && Resolve(names[j]) == name;
      assert OwnedBy(c.st, st, names, i, j);
      var k :| 0 <= k < i && Resolve(names[k]) == name && Top(st, k) == c.st.nameToItem[name];
      assert Top(st, k) in st.items;
    } else {
      assert Unused(names, i, name);
      assert SameOwner(c.st, st, name);
    }
  }

  /** The name that an item has been given is in use. */
  lemma SeenHasName(c: Checking, st: StackState, names: seq<string>, created: set<nat>, i: nat)
    requires i < |names| && i < |st.items| && Progress(c, st, names, created, i) && SeenBefore(st, i) && Valid(st)
    ensures var name := Resolve(names[i]);
            !TwoNames(st, names, i) ==> name in c.st.nameToItem && c.st.nameToItem[name] != 0
  {
    hide Resolve, Recorded, Renamed;
    var j :| 0 <= j < i && Top(st, j) == Top(st, i);
    assert OwnedBy(c.st, st, names, i, j);
  }

  /** The first naming error of one item, spelled out. */
  lemma ErrorOfItem(c: Checking, item: nat, name: string, explicit: bool)
    requires c.err.None?
    ensures NameItem(c, item, name, explicit).err ==
            if item in c.first && c.first[item] != name then Some(Mismatch)
            else if name in c.st.nameToItem && c.st.nameToItem[name] != item && item !in c.created
                    && NameOf(c.st, item) != name && c.st.nameToItem[name] in c.st.items then Some(Mismatch)
            else if !explicit && item !in c.created && (name !in c.st.nameToItem || c.st.nameToItem[name] == 0)
                    && item in c.st.confirmed then Some(Rename)
            else None
  {
  }

  lemma ErrorOfPosition(st: StackState, names: seq<string>, created: set<nat>, i: nat)
    requires i < |names| && i < |st.items|
    ensures PositionError(st, names, created, i) ==
            if TwoNames(st, names, i) then Some(Mismatch)
            else if Top(st, i) in created || SeenBefore(st, i) then None
            else if NameOf(st, Top(st, i)) != Resolve(names[i]) && Foreign(st, names, i) then Some(Mismatch)
            else if Resolve(names[i]) !in st.nameToItem && !UsedBefore(names, i) && AssignName(names[i]).None? && Top(st, i) in st.confirmed
            then Some(Rename)
            else None
  {
    hide Resolve, TwoNames, SeenBefore, Foreign, UsedBefore, AssignName;
  }

  /** The error at a position, if there was none before. */
  lemma StepError(c: Checking, st: StackState, names: seq<string>, created: set<nat>, i: nat, outs: seq<string>)
    requires i < |names| && i < |st.items| && Progress(c, st, names, created, i) && Valid(st) && NoSplits(names, outs)
    ensures c.st.items == st.items && CheckItem(c, names, i, outs).err == PositionError(st, names, created, i)
  {
    hide *;
    SameTop(c, st, names, created, i);
    SeenIsFirst(c, st, names, created, i);
    NoneSplit(c, names, i, outs);
    ErrorOfItem(c, Top(st, i), Resolve(names[i]), AssignName(names[i]).Some?);
    ErrorOfPosition(st, names, created, i);
    if SeenBefore(st, i) {
      SeenHasName(c, st, names, created, i);
    } else {
      NameTaken(c, st, names, created, i);
    }
  }

  // ----- the state after a position -----

  lemma RecordedStep(first: map<nat, string>, r: map<nat, string>, st: StackState, names: seq<string>, i: nat)
    requires i < |names| && i < |st.items| && Recorded(first, st, names, i)
    requires Top(st, i) in first ==> first[Top(st, i)] == Resolve(names[i])
    requires r == if Top(st, i) in first then first else first[Top(st, i) := Resolve(names[i])]
    ensures Recorded(r, st, names, i + 1)
  {
    hide Resolve, Top;
    forall x | x in r
      ensures exists j :: 0 <= j < i + 1 && Top(st, j) == x
    {
      if x in first {
        var j :| 0 <= j < i && Top(st, j) == x;
      } else {
        assert Top(st, i) == x;
      }
    }
  }

  lemma RenamedStep(now: StackState, first: map<nat, string>, st: StackState, item: nat, name: string)
    requires Renamed(now, first, st) && (item in first ==> first[item] == name)
    ensures Renamed(Named(now, item, name), if item in first then first else first[item := name], st)
  {
  }

  lemma OwnersStep(now: StackState, st: StackState, names: seq<string>, i: nat)
    requires i < |names| && i < |st.items| && Owners(now, st, names, i)
    ensures Owners(Named(now, Top(st, i), Resolve(names[i])), st, names, i + 1)
  {
    hide Resolve;
    var r, n := Named(now, Top(st, i), Resolve(names[i])), i + 1;
    forall j | 0 <= j < n
      ensures OwnedBy(r, st, names, n, j)
    {
      if j < i {
        assert OwnedBy(now, st, names, i, j);
      }
      assert Resolve(names[i]) in r.nameToItem && r.nameToItem[Resolve(names[i])] == Top(st, i);
    }
    forall name | Unused(names, i + 1, name)
      ensures SameOwner(r, st, name)
    {
      assert Unused(names, i, name) && Resolve(names[i]) != name;
      assert SameOwner(now, st, name);
    }
  }

  lemma ItemNamed(c: Checking, item: nat, name: string, explicit: bool)
    ensures var r := NameItem(c, item, name, explicit);
            && r.st == Named(c.st, item, name) && r.created == c.created
            && r.first == (if item in c.first then c.first else c.first[item := name])
            && r.st.items == c.st.items && r.st.inferred == c.st.inferred && r.st.wildcard == c.st.wildcard
  {
    hide NamingError;
  }

  lemma ProgressParts(c: Checking, st: StackState, names: seq<string>, created: set<nat>, i: nat)
    requires i <= |names| && i <= |st.items|
    ensures Progress(c, st, names, created, i) <==>
            && c.err.None? && c.created == created && c.st.items == st.items && c.st.inferred == st.inferred
            && Recorded(c.first, st, names, i) && Renamed(c.st, c.first, st) && Owners(c.st, st, names, i)
  {
    hide Recorded, Renamed, Owners;
  }

  /** A position without error leaves the state as described. */
  lemma StepProgress(c: Checking, st: StackState, names: seq<string>, created: set<nat>, i: nat, outs: seq<string>)
    requires i < |names| && i < |st.items| && Progress(c, st, names, created, i) && NoSplits(names, outs)
    requires c.st.items == st.items && CheckItem(c, names, i, outs).err.None? && !TwoNames(st, names, i)
    ensures Progress(CheckItem(c, names, i, outs), st, names, created, i + 1)
    ensures CheckItem(c, names, i, outs).st.wildcard == c.st.wildcard
  {
    hide *;
    ProgressParts(c, st, names, created, i);
    SameTop(c, st, names, created, i);
    SeenIsFirst(c, st, names, created, i);
    NoneSplit(c, names, i, outs);
    ItemNamed(c, Top(st, i), Resolve(names[i]), AssignName(names[i]).Some?);
    RecordedStep(c.first, CheckItem(c, names, i, outs).first, st, names, i);
    RenamedStep(c.st, c.first, st, Top(st, i), Resolve(names[i]));
    OwnersStep(c.st, st, names, i);
    ProgressParts(CheckItem(c, names, i, outs), st, names, created, i + 1);
  }

  // ----- the whole comment -----

  /** The number of positions that are compared. */
  function Compared(st: StackState, names: seq<string>): (n: nat)
    ensures n <= |names| && n <= |st.items|
  {
    Min(|names|, |st.items|)
  }

  lemma {:induction false} FirstErrorSticks(st: StackState, names: seq<string>, created: set<nat>, i: nat, n: nat)
    requires i <= n <= |names| && n <= |st.items| && FirstError(st, names, created, i).Some?
    ensures FirstError(st, names, created, n) == FirstError(st, names, created, i)
    decreases n
  {
    hide PositionError;
    if i < n {
      FirstErrorSticks(st, names, created, i, n - 1);
    }
  }

  lemma FirstErrorStep(st: StackState, names: seq<string>, created: set<nat>, i: nat)
    requires i < |names| && i < |st.items| && FirstError(st, names, created, i).None?
    ensures FirstError(st, names, created, i + 1) == PositionError(st, names, created, i)
  {
    hide PositionError;
  }

  /** What the loop over a comment ends with. */
  ghost predicate EndsAs(r: (Checking, bool), st: StackState, names: seq<string>, err: Option<StackError>) {
    && |r.0.st.items| == |st.items|
    && (r.1 <==> |names| > |st.items| && !st.inferred)
    && (!r.1 ==> r.0.err == err)
  }

  /** The stack does not grow during the check. */
  ghost predicate NoGrowth(c: Checking, names: seq<string>) {
    c.st.wildcard ==> |names| <= |c.st.items|
  }

  /** Once there is an error, the loop only goes on. */
  lemma {:induction false} ErrorEnds(c: Checking, st: StackState, names: seq<string>, i: nat, outs: seq<string>)
    requires i <= |names| && i <= |st.items| && |c.st.items| == |st.items| && c.st.inferred == st.inferred
    requires c.err.Some? && NoGrowth(c, names)
    ensures EndsAs(CheckItems(c, names, i, outs), st, names, c.err)
    decreases |names| - i
  {
    hide CheckItem;
    if i < |names| && i < |st.items| {
      CheckItemKeeps(c, names, i, outs);
      CheckItemMode(c, names, i, outs);
      ErrorEnds(CheckItem(c, names, i, outs), st, names, i + 1, outs);
    }
  }

  lemma CheckItemKeeps(c: Checking, names: seq<string>, i: nat, outs: seq<string>)
    requires i < |names| && i < |c.st.items|
    ensures var r := CheckItem(c, names, i, outs);
            |r.st.items| == |c.st.items| && r.st.inferred == c.st.inferred && r.st.wildcard == c.st.wildcard
  {
    hide NamingError, Splits, Resolve;
  }

  lemma {:induction false} ItemsVerdict(c: Checking, st: StackState, names: seq<string>, created: set<nat>, i: nat, outs: seq<string>)
    requires i <= |names| && i <= |st.items| && Valid(st) && NoSplits(names, outs)
    requires c.st.items == st.items && c.st.inferred == st.inferred && NoGrowth(c, names)
    requires Progress(c, st, names, created, i) && FirstError(st, names, created, i).None?
    ensures EndsAs(CheckItems(c, names, i, outs), st, names, FirstError(st, names, created, Compared(st, names)))
    decreases |names| - i
  {
    hide *;
    ProgressParts(c, st, names, created, i);
    if i < |names| && i < |st.items| {
      ItemsStep(c, names, i, outs);
      StepError(c, st, names, created, i, outs);
      FirstErrorStep(st, names, created, i);
      CheckItemKeeps(c, names, i, outs);
      var r := CheckItem(c, names, i, outs);
      StillNoGrowth(c, r, names);
      if r.err.None? {
        NotTwoNames(st, names, created, i);
        StepProgress(c, st, names, created, i, outs);
        ProgressParts(r, st, names, created, i + 1);
        ItemsVerdict(r, st, names, created, i + 1, outs);
      } else {
        ErrorEnds(r, st, names, i + 1, outs);
        ComparedIs(st, names);
        FirstErrorSticks(st, names, created, i + 1, Compared(st, names));
      }
    } else {
      ComparedIs(st, names);
      ItemsEnd(c, st, names, i, outs);
    }
  }

  lemma NotTwoNames(st: StackState, names: seq<string>, created: set<nat>, i: nat)
    requires i < |names| && i < |st.items| && PositionError(st, names, created, i).None?
    ensures !TwoNames(st, names, i)
  {
    hide TwoNames;
  }

  lemma ComparedIs(st: StackState, names: seq<string>)
    ensures Compared(st, names) == if |names| <= |st.items| then |names| else |st.items|
  {
  }

  lemma ItemsEnd(c: Checking, st: StackState, names: seq<string>, i: nat, outs: seq<string>)
    requires i <= |names| && i <= |st.items| && (i == |names| || i == |st.items|)
    requires c.st.items == st.items && c.st.inferred == st.inferred && NoGrowth(c, names)
    ensures EndsAs(CheckItems(c, names, i, outs), st, names, c.err)
  {
    hide CheckItem;
  }

  lemma StillNoGrowth(c: Checking, r: Checking, names: seq<string>)
    requires NoGrowth(c, names) && |r.st.items| == |c.st.items| && r.st.wildcard == c.st.wildcard
    ensures NoGrowth(r, names)
  {
  }

  lemma ItemsStep(c: Checking, names: seq<string>, i: nat, outs: seq<string>)
    requires i < |names| && i < |c.st.items|
    ensures CheckItems(c, names, i, outs) == CheckItems(CheckItem(c, names, i, outs), names, i + 1, outs)
  {
    hide CheckItem;
  }

  /** The outcome of a comment: the wrong length first, then the first position that does not fit. */
  function Verdict(st: StackState, comment: seq<string>, allowElide: bool, created: set<nat>): Option<StackError> {
    var (names, wild) := StripWildcard(comment);
    if |names| > |st.items| && !st.inferred then Some(CommentUnderflow)
    else if !wild && !allowElide && |names| < |st.items| then Some(CommentDepth)
    else FirstError(st, names, created, Compared(st, names))
  }

  /**
   * The check of a comment that splits no copy and names no items below those of a wildcard stack
   * fails exactly as can be told from the stack before the check.
   */
  lemma CheckVerdict(st: StackState, comment: seq<string>, allowElide: bool, created: set<nat>, outs: seq<string>)
    requires Valid(st) && NoSplits(StripWildcard(comment).0, outs)
    requires HasWildcard(comment) ==> |StripWildcard(comment).0| <= |st.items|
    ensures Checked(st, Some(comment), allowElide, created, outs).1 == Verdict(st, comment, allowElide, created)
  {
    var (names, wild) := StripWildcard(comment);
    var start := Checking(st.(wildcard := wild), created, map[], None);
    Start(st, names, created, wild);
    assert NoGrowth(start, names) && FirstError(st, names, created, 0).None?;
    hide CheckItems, FirstError, Valid, NoSplits, Progress, StripWildcard;
    ItemsVerdict(start, st, names, created, 0, outs);
  }

  /** In particular, a comment is accepted exactly if its length fits and no position has an error. */
  lemma {:induction false} NoErrorIff(st: StackState, names: seq<string>, created: set<nat>, n: nat)
    requires n <= |names| && n <= |st.items|
    ensures FirstError(st, names, created, n).None? <==> forall i :: 0 <= i < n ==> PositionError(st, names, created, i).None?
    decreases n
  {
    hide PositionError;
    if n > 0 {
      NoErrorIff(st, names, created, n - 1);
    }
  }

  // ----- comments that rename the copy of a value -----

  /** The first output of an operation is a copy, and the comment assigns it another name than the original has. */
  ghost predicate RenamesCopy(st: StackState, names: seq<string>, outs: seq<string>, src: nat) {
    && names != [] && st.items != [] && AssignName(names[0]).Some?
    && 0 < src < |outs| && outs[src] == outs[0] && (forall k :: 0 < k < src ==> outs[k] != outs[0])
    && AssignName(names[0]).value != if src < |names| then Resolve(names[src]) else NameOf(st, Top(st, 0))
  }

  /** The stack on which the copy at the top is an item of its own. */
  function WithCopy(st: StackState): StackState
    requires st.items != []
  {
    st.(counter := st.counter + 1, items := st.items[|st.items| - 1 := st.counter + 1])
  }

  lemma {:induction false} FindNameFirst(names: seq<string>, name: string, k: nat)
    requires k < |names| && names[k] == name && forall i :: 0 <= i < k ==> names[i] != name
    ensures FindName(names, name) == k
  {
    if k > 0 {
      FindNameFirst(names[1..], name, k - 1);
    }
  }

  lemma FirstSplits(c: Checking, names: seq<string>, outs: seq<string>, src: nat)
    requires RenamesCopy(c.st, names, outs, src)
    ensures Splits(c, names, 0, outs) && NextSame(outs, 0) == src
    ensures CheckItem(c, names, 0, outs) == CheckItem(Checking(WithCopy(c.st), c.created + {c.st.counter + 1}, c.first, c.err), names, 0, [])
  {
    hide AssignName;
    assert outs[1..][src - 1] == outs[0];
    forall i | 0 <= i < src - 1
      ensures outs[1..][i] != outs[0]
    {
      var k := i + 1;
      assert outs[1..][i] == outs[k];
    }
    FindNameFirst(outs[1..], outs[0], src - 1);
    hide FindName, NameItem;
  }

  lemma {:induction false} OthersUnsplit(c: Checking, names: seq<string>, i: nat, outs: seq<string>)
    requires i <= |names| && forall k :: i <= k < |names| ==> AssignName(names[k]).None?
    ensures CheckItems(c, names, i, outs) == CheckItems(c, names, i, [])
    decreases |names| - i
  {
    hide AssignName, NameItem;
    if i < |names| && i < |Peeked(c, i).st.items| {
      assert CheckItem(Peeked(c, i), names, i, outs) == CheckItem(Peeked(c, i), names, i, []);
      hide CheckItem, Peeked;
      OthersUnsplit(CheckItem(Peeked(c, i), names, i, outs), names, i + 1, outs);
    }
  }

  /** The check with the copy as an item of its own. */
  ghost predicate CopyOf(c: Checking, d: Checking) {
    c.st.items != [] && d == Checking(WithCopy(c.st), c.created + {c.st.counter + 1}, c.first, c.err)
  }

  lemma SplitItems(c: Checking, d: Checking, names: seq<string>, outs: seq<string>, src: nat)
    requires RenamesCopy(c.st, names, outs, src) && forall k :: 0 < k < |names| ==> AssignName(names[k]).None?
    requires CopyOf(c, d)
    ensures CheckItems(c, names, 0, outs) == CheckItems(d, names, 0, [])
  {
    FirstSplits(c, names, outs, src);
    assert Peeked(c, 0) == c && Peeked(d, 0) == d;
    hide CheckItem, AssignName;
    OthersUnsplit(CheckItem(c, names, 0, outs), names, 1, outs);
  }

  /**
   * A comment that assigns a name of its own to the copy that an operation has put on top is judged, and
   * names the items, as if the copy were an item that the operation has created.
   */
  lemma CopyVerdict(st: StackState, comment: seq<string>, allowElide: bool, created: set<nat>, outs: seq<string>, src: nat)
    requires RenamesCopy(st, StripWildcard(comment).0, outs, src)
    requires forall k :: 0 < k < |StripWildcard(comment).0| ==> AssignName(StripWildcard(comment).0[k]).None?
    ensures Checked(st, Some(comment), allowElide, created, outs)
         == Checked(WithCopy(st), Some(comment), allowElide, created + {st.counter + 1}, [])
  {
    var (names, wild) := StripWildcard(comment);
    hide *;
    CopyItems(st, names, wild, created, outs, src);
    SameItems(st, WithCopy(st), comment, names, wild, allowElide, created, created + {st.counter + 1}, outs, []);
  }

  function Unchecked(st: StackState, wild: bool, created: set<nat>): Checking {
    Checking(st.(wildcard := wild), created, map[], None)
  }

  lemma CopyItems(st: StackState, names: seq<string>, wild: bool, created: set<nat>, outs: seq<string>, src: nat)
    requires RenamesCopy(st, names, outs, src) && forall k :: 0 < k < |names| ==> AssignName(names[k]).None?
    ensures st.items != []
    ensures CheckItems(Unchecked(st, wild, created), names, 0, outs)
         == CheckItems(Unchecked(WithCopy(st), wild, created + {st.counter + 1}), names, 0, [])
  {
    WildCopy(st, names, outs, src, wild, created);
    hide *;
    SplitItems(Unchecked(st, wild, created), Unchecked(WithCopy(st), wild, created + {st.counter + 1}), names, outs, src);
  }

  lemma WildCopy(st: StackState, names: seq<string>, outs: seq<string>, src: nat, wild: bool, created: set<nat>)
    requires RenamesCopy(st, names, outs, src)
    ensures st.items != [] && RenamesCopy(Unchecked(st, wild, created).st, names, outs, src)
    ensures CopyOf(Unchecked(st, wild, created), Unchecked(WithCopy(st), wild, created + {st.counter + 1}))
  {
    hide AssignName;
  }

  /** The outcome of a check is that of its items. */
  lemma SameItems(st: StackState, other: StackState, comment: seq<string>, names: seq<string>, wild: bool, allowElide: bool,
                  created: set<nat>, more: set<nat>, outs: seq<string>, none: seq<string>)
    requires StripWildcard(comment) == (names, wild)
    requires CheckItems(Unchecked(st, wild, created), names, 0, outs) == CheckItems(Unchecked(other, wild, more), names, 0, none)
    ensures Checked(st, Some(comment), allowElide, created, outs) == Checked(other, Some(comment), allowElide, more, none)
  {
    hide CheckItems, StripWildcard;
  }

  // ----- stacks whose items all have names of their own -----

  /** All positions hold different items, and each item has a name that leads back to it. */
  ghost predicate OwnNames(st: StackState) {
    && (forall i, j :: 0 <= i < j < |st.items| ==> st.items[i] != st.items[j])
    && (forall i :: 0 <= i < |st.items| ==>
          && st.items[i] in st.itemToName && st.itemToName[st.items[i]] in st.nameToItem
          && st.nameToItem[st.itemToName[st.items[i]]] == st.items[i])
  }

  /** The comment names items of the stack, in whatever order, and assigns nothing. */
  ghost predicate NamesItems(st: StackState, comment: seq<string>) {
    forall i :: 0 <= i < |comment| ==> AssignName(comment[i]).None? && comment[i] in ItemTexts(st)
  }

  lemma OwnPosition(st: StackState, comment: seq<string>, i: nat)
    requires Valid(st) && OwnNames(st) && NamesItems(st, comment) && i < |comment| && i < |st.items|
    ensures PositionError(st, comment, {}, i).None? <==> comment[i] == ItemTexts(st)[i]
  {
    hide AssignName;
    var name, item := comment[i], Top(st, i);
    assert Resolve(name) == name;
    assert item in st.itemToName && NameOf(st, item) == ItemTexts(st)[i];
    assert !SeenBefore(st, i) && !TwoNames(st, comment, i);
    var k :| 0 <= k < |st.items| && ItemTexts(st)[k] == name;
    assert st.items[|st.items| - 1 - k] == Top(st, k) && st.nameToItem[name] == Top(st, k) && Top(st, k) in st.items;
    hide SeenBefore, TwoNames, UsedBefore, Valid, ItemTexts;
  }

  /**
   * If all items have names of their own, a comment that calls every position by the name of some item
   * is accepted exactly if it lists the topmost items in their order: exchanged names are rejected.
   */
  lemma OwnOrderOnly(st: StackState, comment: seq<string>)
    requires Valid(st) && OwnNames(st) && !st.inferred && NamesItems(st, comment) && !HasWildcard(comment)
    ensures Checked(st, Some(comment), true, {}, []).1.None? <==> comment <= ItemTexts(st)
  {
    NoneAssigned(st, comment);
    CheckVerdict(st, comment, true, {}, []);
    NoErrorIff(st, comment, {}, Compared(st, comment));
    hide Checked, Valid, OwnNames, NamesItems, PositionError, ItemTexts, FirstError, NoSplits;
    forall i | 0 <= i < Compared(st, comment)
      ensures PositionError(st, comment, {}, i).None? <==> comment[i] == ItemTexts(st)[i]
    {
      OwnPosition(st, comment, i);
    }
    if |comment| <= |st.items| {
      PrefixIff(comment, ItemTexts(st));
    }
  }

  lemma NoneAssigned(st: StackState, comment: seq<string>)
    requires NamesItems(st, comment)
    ensures NoSplits(comment, [])
  {
  }

  lemma PrefixIff(a: seq<string>, b: seq<string>)
    requires |a| <= |b|
    ensures a <= b <==> forall i :: 0 <= i < |a| ==> a[i] == b[i]
  {
  }

  // ----- operations, and whole runs -----

  /** The stack on which an operation checks its comment, and the items that the operation has created. */
  function BeforeComment(st: StackState, op: StackOp): (StackState, set<nat>)
    requires Pull(st, |op.ins|).1
  {
    var p := Pull(st, |op.ins|).0;
    PushOuts(p.(items := p.items[..|p.items| - |op.ins|]), op.ins, TopItems(p, |op.ins|), op.outs)
  }

  /** The error of an operation with a comment is the verdict on the comment, for the stack after the operation. */
  lemma AppliedVerdict(st: StackState, op: StackOp, comment: seq<string>)
    requires Valid(st) && Pull(st, |op.ins|).1 && !HasWildcard(comment) && NoSplits(comment, op.outs)
    ensures var (s, created) := BeforeComment(st, op); Applied(st, op, Some(comment)).1 == Verdict(s, comment, true, created)
  {
    hide Pull, PushOuts, Checked, Verdict, NoSplits, Valid;
    PullValid(st, |op.ins|);
    var p := Pull(st, |op.ins|).0;
    TopsValid(p, |op.ins|);
    PushOutsValid(p.(items := p.items[..|p.items| - |op.ins|]), op.ins, TopItems(p, |op.ins|), op.outs);
    var (s, created) := BeforeComment(st, op);
    CheckVerdict(s, comment, true, created, op.outs);
  }

  lemma TopsValid(p: StackState, n: nat)
    requires Valid(p) && n <= |p.items|
    ensures Valid(p.(items := p.items[..|p.items| - n]))
    ensures forall i :: 0 <= i < n ==> 1 <= TopItems(p, n)[i] <= p.counter
  {
  }

  /** Both results hold of every stack that operations and comments lead to. */
  lemma ReachedVerdict(names: seq<string>, confirmed: Option<seq<bool>>, preGrow: nat,
                       heading: Option<seq<string>>, events: seq<Event>, comment: seq<string>)
    requires ConfirmsNames(names, confirmed)
    requires var st := RunState(Opening(names, confirmed, false, preGrow, heading), events);
             OwnNames(st) && !st.inferred && NamesItems(st, comment) && !HasWildcard(comment)
    ensures var st := RunState(Opening(names, confirmed, false, preGrow, heading), events);
            Checked(st, Some(comment), true, {}, []).1.None? <==> comment <= ItemTexts(st)
  {
    OpeningPlain(names, confirmed, false, preGrow, heading);
    hide *;
    RunPlain(Opening(names, confirmed, false, preGrow, heading), events);
    OwnOrderOnly(RunState(Opening(names, confirmed, false, preGrow, heading), events), comment);
  }
}
