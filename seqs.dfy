/** Sequence combinators standing for the JavaScript array methods the core
    uses (`filter`, a `for` loop that pushes only matched items, `toReversed`,
    `flat`), each with the lemma that characterises it exactly. */
module Seqs {
  import opened Wrappers

  predicate StrictlyIncreasing(xs: seq<int>) {
    forall i, j :: 0 <= i < j < |xs| ==> xs[i] < xs[j]
  }

  predicate Distinct<T(==)>(s: seq<T>) {
    forall i, j :: 0 <= i < j < |s| ==> s[i] != s[j]
  }

  /** Keeps `u` for every element on which `f` yields `Some(u)`, in order.
      Defined on the last element so that a loop which pushes as it goes is
      `FilterMap(s[..i], f)` after `i` steps. */
  function FilterMap<T, U>(s: seq<T>, f: T -> Option<U>): (r: seq<U>)
    ensures |r| <= |s|
  {
    if |s| == 0 then []
    else
      var rest := FilterMap(s[..|s| - 1], f);
      match f(s[|s| - 1])
      case Some(u) => rest + [u]
      case None => rest
  }

  /** The ascending indices at which `f` is defined. */
  function Survivors<T, U>(s: seq<T>, f: T -> Option<U>): (idx: seq<nat>)
    ensures |idx| <= |s|
  {
    if |s| == 0 then []
    else
      var rest := Survivors(s[..|s| - 1], f);
      if f(s[|s| - 1]).Some? then rest + [|s| - 1] else rest
  }

  /** `FilterMap(s, f)` is exactly the defined results, each at the position
      of its source element among the survivors, in source order. */
  lemma {:induction false} FilterMapExactly<T, U>(s: seq<T>, f: T -> Option<U>)
    ensures var idx := Survivors(s, f); var r := FilterMap(s, f);
      && |idx| == |r|
      && StrictlyIncreasing(idx)
      && (forall k :: 0 <= k < |idx| ==> idx[k] < |s| && f(s[idx[k]]) == Some(r[k]))
      && (forall j :: 0 <= j < |s| ==> (f(s[j]).Some? <==> j in idx))
  {
    if |s| > 0 {
      var s' := s[..|s| - 1];
      FilterMapExactly(s', f);
      assert forall j :: 0 <= j < |s'| ==> s'[j] == s[j];
    }
  }

  function Keep<T>(p: T -> bool): T -> Option<T> {
    x => if p(x) then Some(x) else None
  }

  /** `s.filter(p)` */
  function Filter<T>(s: seq<T>, p: T -> bool): seq<T> {
    FilterMap(s, Keep(p))
  }

  /** The ascending indices of the elements `Filter(s, p)` keeps. */
  function Kept<T>(s: seq<T>, p: T -> bool): seq<nat> {
    Survivors(s, Keep(p))
  }

  /** `s.filter(p)` is the order-preserving subsequence of exactly the
      elements satisfying `p`. */
  lemma FilterExactly<T>(s: seq<T>, p: T -> bool)
    ensures var idx := Kept(s, p); var r := Filter(s, p);
      && |idx| == |r| <= |s|
      && StrictlyIncreasing(idx)
      && (forall k :: 0 <= k < |idx| ==> idx[k] < |s| && r[k] == s[idx[k]])
      && (forall j :: 0 <= j < |s| ==> (p(s[j]) <==> j in idx))
  {
    FilterMapExactly(s, Keep(p));
    var idx, r := Kept(s, p), Filter(s, p);
    forall k | 0 <= k < |idx| ensures r[k] == s[idx[k]] {
      assert Keep(p)(s[idx[k]]) == Some(r[k]);
    }
    forall j | 0 <= j < |s| ensures p(s[j]) <==> j in idx {
      assert Keep(p)(s[j]).Some? <==> p(s[j]);
    }
  }

  /** An element on which `p` holds everywhere is never dropped. */
  lemma {:induction false} FilterKeepsAll<T>(s: seq<T>, p: T -> bool)
    requires forall j :: 0 <= j < |s| ==> p(s[j])
    ensures Filter(s, p) == s
  {
    if |s| > 0 {
      var s' := s[..|s| - 1];
      FilterKeepsAll(s', p);
      assert Keep(p)(s[|s| - 1]) == Some(s[|s| - 1]);
      assert s' + [s[|s| - 1]] == s;
    }
  }

  /** `s.toReversed()` */
  function Reverse<T>(s: seq<T>): (r: seq<T>)
    ensures |r| == |s|
    ensures forall k :: 0 <= k < |s| ==> r[k] == s[|s| - 1 - k]
  {
    if |s| == 0 then [] else [s[|s| - 1]] + Reverse(s[..|s| - 1])
  }

  /** `ss.flat()` for one level of nesting. */
  function Flatten<T>(ss: seq<seq<T>>): seq<T> {
    if |ss| == 0 then [] else Flatten(ss[..|ss| - 1]) + ss[|ss| - 1]
  }

  lemma {:induction false} FlattenSingletons<T>(ss: seq<seq<T>>)
    requires forall i :: 0 <= i < |ss| ==> |ss[i]| == 1
    ensures |Flatten(ss)| == |ss|
    ensures forall i :: 0 <= i < |ss| ==> Flatten(ss)[i] == ss[i][0]
  {
    if |ss| > 0 {
      FlattenSingletons(ss[..|ss| - 1]);
    }
  }

  /** `s` with every element after its first occurrence removed: an
      element is kept exactly when it does not occur earlier in `s`. */
  function FirstOccurrences<T(==)>(s: seq<T>): seq<T> {
    if |s| == 0 then []
    else
      var rest := FirstOccurrences(s[..|s| - 1]);
      if s[|s| - 1] in s[..|s| - 1] then rest else rest + [s[|s| - 1]]
  }

  /** Removing repeats keeps every element that occurs. */
  lemma {:induction false} FirstOccurrencesMembership<T>(s: seq<T>, x: T)
    ensures x in FirstOccurrences(s) <==> x in s
  {
    if |s| > 0 {
      var pre := s[..|s| - 1];
      FirstOccurrencesMembership(pre, x);
      assert s == pre + [s[|s| - 1]];
    }
  }

  /** Appending an element extends the first occurrences by it exactly when
      it is new. */
  lemma FirstOccurrencesAppend<T>(s: seq<T>, x: T)
    ensures FirstOccurrences(s + [x]) == if x in FirstOccurrences(s) then FirstOccurrences(s) else FirstOccurrences(s) + [x]
  {
    assert (s + [x])[..|s|] == s;
    FirstOccurrencesMembership(s, x);
  }

  /** Two duplicate-free sequences with no element in common concatenate to
      a duplicate-free sequence. */
  lemma DistinctConcat<T>(a: seq<T>, b: seq<T>)
    requires Distinct(a) && Distinct(b)
    requires forall x :: x in a ==> x !in b
    ensures Distinct(a + b)
  {
    var s := a + b;
    forall i, j | 0 <= i < j < |s| ensures s[i] != s[j] {
      if j < |a| {
        assert s[i] == a[i] && s[j] == a[j];
      } else if i < |a| {
        assert s[i] == a[i] && s[j] == b[j - |a|];
        assert a[i] in a;
      } else {
        assert s[i] == b[i - |a|] && s[j] == b[j - |a|];
      }
    }
  }
}
