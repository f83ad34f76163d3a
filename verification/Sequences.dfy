/** Sequence functions the components are specified with. */
module Sequences {

  function Min(a: int, b: int): int {
    if a < b then a else b
  }

  function Max(a: int, b: int): int {
    if a > b then a else b
  }

  ghost predicate Distinct<T>(s: seq<T>) {
    forall i, j :: 0 <= i < j < |s| ==> s[i] != s[j]
  }

  /** A prefix grows by the next element. */
  lemma PrefixGrows<T>(s: seq<T>, i: nat)
    requires i < |s|
    ensures s[..i + 1] == s[..i] + [s[i]]
  {
  }

  /** Concatenation of a sequence of sequences. */
  function Flatten<T>(ss: seq<seq<T>>): seq<T> {
    if ss == [] then [] else ss[0] + Flatten(ss[1..])
  }

  lemma {:induction false} FlattenAppend<T>(ss: seq<seq<T>>, s: seq<T>)
    ensures Flatten(ss + [s]) == Flatten(ss) + s
  {
    if ss == [] {
      assert ss + [s] == [s];
      assert [s][1..] == [];
    } else {
      assert (ss + [s])[1..] == ss[1..] + [s];
      FlattenAppend(ss[1..], s);
    }
  }

  /** Pointwise image of a sequence. */
  function Map<A, B>(f: A -> B, s: seq<A>): (r: seq<B>)
    ensures |r| == |s| && forall i :: 0 <= i < |s| ==> r[i] == f(s[i])
  {
    seq(|s|, i requires 0 <= i < |s| => f(s[i]))
  }

  lemma MapConcat<A, B>(f: A -> B, s: seq<A>, t: seq<A>)
    ensures Map(f, s + t) == Map(f, s) + Map(f, t)
  {
  }

  /** Keeps the first occurrence of every element, in order. */
  function Dedup<T(==)>(s: seq<T>): seq<T> {
    if s == [] then [] else
      var d := Dedup(s[..|s| - 1]);
      if s[|s| - 1] in d then d else d + [s[|s| - 1]]
  }

  lemma {:induction false} DedupDistinct<T>(s: seq<T>)
    ensures Distinct(Dedup(s))
    ensures forall x :: x in Dedup(s) <==> x in s
  {
    if s != [] {
      var n := |s| - 1;
      DedupDistinct(s[..n]);
      assert s == s[..n] + [s[n]];
    }
  }

  lemma {:induction false} DedupPrefix<T>(s: seq<T>, n: nat)
    requires n <= |s|
    ensures Dedup(s[..n]) <= Dedup(s)
  {
    if n == |s| {
      assert s[..n] == s;
    } else {
      var t := s[..|s| - 1];
      assert s[..n] == t[..n];
      DedupPrefix(t, n);
    }
  }

  /** Position of the first occurrence. */
  ghost function FirstIndex<T>(s: seq<T>, x: T): (i: nat)
    requires x in s
    ensures i < |s| && s[i] == x && x !in s[..i]
  {
    if s[0] == x then 0 else
      assert x in s[1..];
      var i := FirstIndex(s[1..], x);
      assert s[..i + 1] == [s[0]] + s[1..][..i];
      i + 1
  }

  lemma FirstIndexOf<T>(s: seq<T>, x: T, i: nat)
    requires i < |s| && s[i] == x && x !in s[..i]
    ensures FirstIndex(s, x) == i
  {
    var j := FirstIndex(s, x);
    assert forall k :: 0 <= k < i ==> s[..i][k] == s[k];
    assert forall k :: 0 <= k < j ==> s[..j][k] == s[k];
  }

  /** An id list in which ids come in the order of their first occurrence in s. */
  ghost predicate InFirstOrder<T(!new)>(d: seq<T>, s: seq<T>) {
    && (forall x :: x in d ==> x in s)
    && (forall i, j :: 0 <= i < j < |d| ==> FirstIndex(s, d[i]) < FirstIndex(s, d[j]))
  }

  lemma {:induction false} DedupInFirstOrder<T(!new)>(s: seq<T>)
    ensures InFirstOrder(Dedup(s), s)
  {
    DedupDistinct(s);
    if s != [] {
      var t := s[..|s| - 1];
      var last := s[|s| - 1];
      DedupInFirstOrder(t);
      DedupDistinct(t);
      forall x | x in t
        ensures FirstIndex(s, x) == FirstIndex(t, x)
      {
        var k := FirstIndex(t, x);
        assert s[..k] == t[..k];
        FirstIndexOf(s, x, k);
      }
      if last !in t {
        FirstIndexOf(s, last, |t|);
      }
    }
  }

  lemma {:induction false} FirstOrderMembers<T(!new)>(s: seq<T>, d: seq<T>, e: seq<T>, n: nat)
    requires n <= |d| && n <= |e|
    requires InFirstOrder(d, s) && InFirstOrder(e, s)
    requires forall x :: x in d <==> x in e
    ensures d[..n] == e[..n]
  {
    if n > 0 {
      FirstOrderMembers(s, d, e, n - 1);
      var m := n - 1;
      if d[m] != e[m] {
        FirstOrderSame(s, d, e, m);
        FirstOrderSame(s, e, d, m);
        assert false;
      }
      assert d[..n] == d[..m] + [d[m]];
      assert e[..n] == e[..m] + [e[m]];
    }
  }

  lemma FirstOrderSame<T(!new)>(s: seq<T>, d: seq<T>, e: seq<T>, m: nat)
    requires m < |d| && m < |e| && d[..m] == e[..m]
    requires InFirstOrder(d, s) && InFirstOrder(e, s)
    requires forall x :: x in d <==> x in e
    ensures FirstIndex(s, e[m]) <= FirstIndex(s, d[m])
  {
    forall i | 0 <= i < m
      ensures e[i] != d[m]
    {
      assert e[..m][i] == d[..m][i];
      assert FirstIndex(s, d[i]) < FirstIndex(s, d[m]);
    }
    assert d[m] in e;
    var k :| 0 <= k < |e| && e[k] == d[m];
    assert k == m || FirstIndex(s, e[m]) < FirstIndex(s, e[k]);
  }

  lemma FirstOrderBound<T(!new)>(s: seq<T>, d: seq<T>, e: seq<T>, j: nat)
    requires InFirstOrder(d, s) && e <= d && j < |d|
    requires forall x :: x in d ==> x in e
    ensures j < |e|
  {
    var x := d[j];
    assert x in e;
    var k :| 0 <= k < |e| && e[k] == x;
    assert d[k] == x;
  }

  /** First-occurrence order and membership determine the list, so Dedup is the only such list. */
  lemma DedupUnique<T(!new)>(s: seq<T>, d: seq<T>)
    requires InFirstOrder(d, s)
    requires forall x :: x in d <==> x in s
    ensures d == Dedup(s)
  {
    var e := Dedup(s);
    DedupDistinct(s);
    DedupInFirstOrder(s);
    var n := Min(|d|, |e|);
    FirstOrderMembers(s, d, e, n);
    assert d[..n] == d || e[..n] == e;
    if |d| <= |e| {
      if |d| < |e| {
        FirstOrderBound(s, e, d, |d|);
      }
    } else {
      FirstOrderBound(s, d, e, |e|);
    }
  }

  // ---------- selections ----------

  /** r is s at the given increasing positions, which are the good ones. */
  ghost predicate IsSelection<T>(s: seq<T>, r: seq<T>, at: seq<nat>, good: set<nat>) {
    && |at| == |r|
    && (forall k :: 0 <= k < |at| ==> at[k] < |s| && at[k] in good && r[k] == s[at[k]])
    && (forall j, k :: 0 <= j < k < |at| ==> at[j] < at[k])
    && (forall p :: p in good ==> p in at)
  }

  /** r lists the elements of s at all good positions and at no others, in their order. */
  ghost predicate Selects<T>(s: seq<T>, r: seq<T>, good: set<nat>) {
    exists at: seq<nat> :: IsSelection(s, r, at, good)
  }

  lemma SelectsNone<T>()
    ensures Selects<T>([], [], {})
  {
    assert IsSelection<T>([], [], [], {});
  }

  lemma SelectsLeft<T>(s: seq<T>, x: T, r: seq<T>, good: set<nat>)
    requires Selects(s, r, good)
    ensures Selects(s + [x], r, good)
  {
    var at: seq<nat> :| IsSelection(s, r, at, good);
    assert IsSelection(s + [x], r, at, good);
  }

  lemma SelectionGrows<T>(s: seq<T>, x: T, r: seq<T>, at: seq<nat>, good: set<nat>)
    requires IsSelection(s, r, at, good)
    ensures IsSelection(s + [x], r + [x], at + [|s|], good + {|s|})
  {
    var next := at + [|s|];
    assert next[|at|] == |s|;
    forall p | p in good + {|s|}
      ensures p in next
    {
      if p in good {
        var k :| 0 <= k < |at| && at[k] == p;
        assert next[k] == p;
      }
    }
  }

  lemma SelectsKept<T>(s: seq<T>, x: T, r: seq<T>, good: set<nat>)
    requires Selects(s, r, good)
    ensures Selects(s + [x], r + [x], good + {|s|})
  {
    var at: seq<nat> :| IsSelection(s, r, at, good);
    SelectionGrows(s, x, r, at, good);
  }

  /** One more element, kept or not. */
  lemma SelectsOneMore<T>(s: seq<T>, x: T, r: seq<T>, good: set<nat>, keep: bool)
    requires Selects(s, r, good)
    ensures Selects(s + [x], r + if keep then [x] else [], good + if keep then {|s|} else {})
  {
    if keep {
      SelectsKept(s, x, r, good);
    } else {
      SelectsLeft(s, x, r, good);
      assert r + [] == r && good + {} == good;
    }
  }

  /** An element is selected exactly when it stands at a good position. */
  lemma SelectsMember<T>(s: seq<T>, r: seq<T>, good: set<nat>, x: T)
    requires Selects(s, r, good)
    ensures x in r <==> exists p: nat :: p < |s| && p in good && s[p] == x
  {
    var at: seq<nat> :| IsSelection(s, r, at, good);
    if x in r {
      var k :| 0 <= k < |r| && r[k] == x;
      assert at[k] in good && s[at[k]] == x;
    }
    if exists p: nat :: p < |s| && p in good && s[p] == x {
      var p: nat :| p < |s| && p in good && s[p] == x;
      var k :| 0 <= k < |at| && at[k] == p;
      assert r[k] == x;
    }
  }
}
