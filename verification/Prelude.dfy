/** Shared vocabulary: optional values and a few facts about sequences. */
module Prelude {

  datatype Option<+T> = None | Some(value: T) {
    function GetOr(default: T): T {
      match this
      case None => default
      case Some(v) => v
    }
  }

  /** Concatenation of a list of lists, last list outermost. */
  function Flatten<T>(ss: seq<seq<T>>): seq<T> {
    if ss == [] then [] else Flatten(ss[..|ss| - 1]) + ss[|ss| - 1]
  }

  ghost predicate Distinct<T>(s: seq<T>) {
    forall i, j :: 0 <= i < j < |s| ==> s[i] != s[j]
  }

  /** How many of the first `n` positions are marked. */
  function Count(marks: seq<bool>, n: nat): nat
    requires n <= |marks|
  {
    if n == 0 then 0 else Count(marks, n - 1) + if marks[n - 1] then 1 else 0
  }

  /** `kept` is what stands at the marked positions of `s`: all of it, in order, repetitions included. */
  ghost predicate Kept<T>(s: seq<T>, marks: seq<bool>, kept: seq<T>) {
    && |marks| == |s| && |kept| == Count(marks, |s|)
    && forall i :: 0 <= i < |s| && marks[i] ==> Count(marks, i) < |kept| && kept[Count(marks, i)] == s[i]
  }

  lemma {:induction false} CountGrows(marks: seq<bool>, i: nat, n: nat)
    requires i < n <= |marks|
    ensures Count(marks, i) <= Count(marks, n) && (marks[i] ==> Count(marks, i) < Count(marks, n))
    decreases n
  {
    if i < n - 1 { CountGrows(marks, i, n - 1); }
  }

  /** Each place of the kept list comes from one marked position. */
  lemma {:induction false} Locate(marks: seq<bool>, n: nat, j: nat) returns (i: nat)
    requires n <= |marks| && j < Count(marks, n)
    ensures i < n && marks[i] && Count(marks, i) == j
  {
    if marks[n - 1] && j == Count(marks, n - 1) {
      i := n - 1;
    } else {
      i := Locate(marks, n - 1, j);
    }
  }

  /** Two places of the kept list come from two marked positions, in the same order. */
  lemma KeptPair<T>(s: seq<T>, marks: seq<bool>, kept: seq<T>, i: nat, j: nat) returns (a: nat, b: nat)
    requires Kept(s, marks, kept) && i < j < |kept|
    ensures a < b < |s| && marks[a] && marks[b] && kept[i] == s[a] && kept[j] == s[b]
  {
    a := Locate(marks, |s|, i);
    b := Locate(marks, |s|, j);
    if b < a { CountGrows(marks, b, a); }
  }

  function Filter<T>(s: seq<T>, marks: seq<bool>, n: nat): seq<T>
    requires n <= |s| == |marks|
  {
    if n == 0 then [] else Filter(s, marks, n - 1) + if marks[n - 1] then [s[n - 1]] else []
  }

  lemma {:induction false} FilterUpTo<T>(s: seq<T>, marks: seq<bool>, n: nat)
    requires n <= |s| == |marks|
    ensures |Filter(s, marks, n)| == Count(marks, n)
    ensures forall i :: 0 <= i < n && marks[i] ==>
              Count(marks, i) < Count(marks, n) && Filter(s, marks, n)[Count(marks, i)] == s[i]
  {
    if n == 0 {
    } else {
      FilterUpTo(s, marks, n - 1);
      forall i | 0 <= i < n && marks[i]
        ensures Count(marks, i) < Count(marks, n) && Filter(s, marks, n)[Count(marks, i)] == s[i]
      {
        CountGrows(marks, i, n);
      }
    }
  }

  lemma FilterKeeps<T>(s: seq<T>, marks: seq<bool>)
    requires |s| == |marks|
    ensures Kept(s, marks, Filter(s, marks, |s|))
  {
    FilterUpTo(s, marks, |s|);
  }

  function Min(a: int, b: int): int { if a <= b then a else b }

  function Max(a: int, b: int): int { if a >= b then a else b }

  lemma FlattenAppend<T>(ss: seq<seq<T>>, s: seq<T>)
    ensures Flatten(ss + [s]) == Flatten(ss) + s
  {
    assert (ss + [s])[..|ss|] == ss;
  }

  lemma FlattenPrefix<T>(ss: seq<seq<T>>, k: nat)
    requires 0 < k <= |ss|
    ensures Flatten(ss[..k]) == Flatten(ss[..k - 1]) + ss[k - 1]
  {
    assert ss[..k][..k - 1] == ss[..k - 1];
  }

  lemma SubsetSize<T>(x: set<T>, y: set<T>)
    requires x <= y
    ensures |x| <= |y|
  {
    assert y == x + (y - x);
  }

  /** Text before the first separator can be read back. */
  lemma FirstField(sep: char, a: string, x: string, b: string, y: string)
    requires sep !in a && sep !in b && a + [sep] + x == b + [sep] + y
    ensures a == b && x == y
  {
    var s := a + [sep] + x;
    assert s[|a|] == sep && s[|b|] == sep;
    assert forall k :: 0 <= k < |a| ==> s[k] == a[k] && s[k] != sep;
    assert forall k :: 0 <= k < |b| ==> s[k] == b[k] && s[k] != sep;
    assert a == s[..|a|] && b == s[..|b|];
    assert x == s[|a| + 1..] && y == s[|b| + 1..];
  }
}
