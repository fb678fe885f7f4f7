/** Unique input names for the stack effect of a macro or an included document (internal/stackcheck/effect.go). */
module Effects {
  import opened Base
  import opened Numerals
  import opened SymbolicStack

  /** How often name occurs among the first n names. */
  function Count(names: seq<string>, n: nat, name: string): nat
    requires n <= |names|
  {
    if n == 0 then 0 else Count(names, n - 1, name) + (if names[n - 1] == name then 1 else 0)
  }

  function Suffixed(name: string, n: nat): string {
    name + "#" + Decimal(n)
  }

  /** The name at position i after duplicates got suffixes. */
  function Unique(names: seq<string>, i: nat): string
    requires i < |names|
  {
    var n := Count(names, i, names[i]);
    if n > 0 then Suffixed(names[i], n) else names[i]
  }

  function Deduped(names: seq<string>): (r: seq<string>)
    ensures |r| == |names| && forall i :: 0 <= i < |r| ==> r[i] == Unique(names, i)
  {
    seq(|names|, i requires 0 <= i < |names| => Unique(names, i))
  }

  /** Rewrites the names in place. */
  method Dedup(names: array<string>)
    modifies names
    ensures names[..] == Deduped(old(names[..]))
  {
    ghost var orig := names[..];
    var seen: map<string, nat> := map[];
    for i := 0 to names.Length
      invariant forall k :: i <= k < names.Length ==> names[k] == orig[k]
      invariant forall k :: 0 <= k < i ==> names[k] == Unique(orig, k)
      invariant forall name :: (if name in seen then seen[name] else 0) == Count(orig, i, name)
    {
      var name := names[i];
      var n := if name in seen then seen[name] else 0;
      if n > 0 {
        names[i] := Suffixed(name, n);
      }
      seen := seen[name := n + 1];
    }
  }

  // ----- when the result has no duplicates -----

  lemma {:induction false} CountGrows(names: seq<string>, i: nat, j: nat, name: string)
    requires i <= j <= |names|
    ensures Count(names, i, name) <= Count(names, j, name)
    ensures i < j && names[i] == name ==> Count(names, i, name) < Count(names, j, name)
    decreases j
  {
    if i < j {
      CountGrows(names, i, j - 1, name);
    }
  }

  /** The n-th repetition of a name is somewhere. */
  lemma {:induction false} CountReaches(names: seq<string>, j: nat, name: string, n: nat) returns (i: nat)
    requires j <= |names| && n < Count(names, j, name)
    ensures i < j && names[i] == name && Count(names, i, name) == n
    decreases j
  {
    if n < Count(names, j - 1, name) {
      i := CountReaches(names, j - 1, name, n);
    } else {
      i := j - 1;
    }
  }

  lemma DecimalNoHash(n: nat)
    ensures '#' !in Decimal(n)
  {
  }

  lemma LastHash(name: string, n: nat)
    ensures forall k :: |name| < k < |Suffixed(name, n)| ==> Suffixed(name, n)[k] != '#'
  {
    DecimalNoHash(n);
    hide Decimal;
    forall k | |name| < k < |Suffixed(name, n)|
      ensures Suffixed(name, n)[k] != '#'
    {
      assert Suffixed(name, n)[k] == Decimal(n)[k - |name| - 1];
    }
  }

  /** A generated name can be taken apart. */
  lemma SuffixedInjective(a: string, m: nat, b: string, n: nat)
    requires Suffixed(a, m) == Suffixed(b, n)
    ensures a == b && m == n
  {
    var s := Suffixed(a, m);
    assert s[|a|] == '#' && s[|b|] == '#';
    hide Decimal;
    LastHash(a, m);
    LastHash(b, n);
    assert |a| == |b|;
    assert s[..|a|] == a && s[..|b|] == b;
    assert s[|a| + 1..] == Decimal(m) && s[|b| + 1..] == Decimal(n);
    DecimalInjective(m, n);
  }

  /** Some name that occurs repeatedly gets a suffix that makes it equal to another given name. */
  ghost predicate Clashes(names: seq<string>) {
    exists name, n :: n > 0 && n < Count(names, |names|, name) && Suffixed(name, n) in names
  }

  /** All names differ after deduplication, if and only if no given name is one that deduplication makes up. */
  lemma DedupedDistinctIff(names: seq<string>)
    ensures Distinct(Deduped(names)) <==> !Clashes(names)
  {
    hide Suffixed;
    if Clashes(names) {
      var name, n :| n > 0 && n < Count(names, |names|, name) && Suffixed(name, n) in names;
      var i := CountReaches(names, |names|, name, n);
      var k :| 0 <= k < |names| && names[k] == Suffixed(name, n);
      CountGrows(names, k, |names|, names[k]);
      var j := CountReaches(names, |names|, names[k], 0);
      assert Unique(names, i) == names[k] == Unique(names, j);
      SuffixLonger(name, n);
      assert i != j;
      assert Deduped(names)[i] == Deduped(names)[j];
    } else {
      forall i, j | 0 <= i < j < |names|
        ensures Unique(names, i) != Unique(names, j)
      {
        DistinctPair(names, i, j);
      }
    }
  }

  lemma SuffixLonger(name: string, n: nat)
    ensures Suffixed(name, n) != name
  {
    assert |Suffixed(name, n)| > |name|;
  }

  lemma DistinctPair(names: seq<string>, i: nat, j: nat)
    requires i < j < |names| && !Clashes(names)
    ensures Unique(names, i) != Unique(names, j)
  {
    hide Suffixed;
    var m, n := Count(names, i, names[i]), Count(names, j, names[j]);
    CountGrows(names, i, |names|, names[i]);
    CountGrows(names, j, |names|, names[j]);
    if m > 0 && n > 0 && Suffixed(names[i], m) == Suffixed(names[j], n) {
      SuffixedInjective(names[i], m, names[j], n);
    }
    if names[i] == names[j] {
      CountGrows(names, i, j, names[i]);
      SuffixLonger(names[i], n);
    }
  }
}
