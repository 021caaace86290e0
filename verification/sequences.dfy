/** Facts about sequences that the Ruby core library supplies to the source. */
module Sequences {
  import opened Wrappers

  /** No element occurs twice. */
  predicate Distinct<T(==)>(s: seq<T>) {
    forall i, j :: 0 <= i < j < |s| ==> s[i] != s[j]
  }

  /** Ruby's `Array#uniq`: the first occurrence of each element, in order. */
  function Uniq<T(==)>(s: seq<T>): (u: seq<T>)
    ensures Distinct(u)
    ensures forall i :: 0 <= i < |u| ==> u[i] in s
    ensures forall i :: 0 <= i < |s| ==> s[i] in u
    ensures |u| <= |s|
  {
    if |s| == 0 then []
    else
      var rest := Uniq(s[..|s| - 1]);
      var last := s[|s| - 1];
      assert forall i :: 0 <= i < |s| - 1 ==> s[..|s| - 1][i] == s[i];
      if last in rest then rest else rest + [last]
  }

  /** Appending one element keeps a sequence distinct exactly when it is new. */
  lemma DistinctSnoc<T>(p: seq<T>, x: T)
    ensures Distinct(p + [x]) <==> Distinct(p) && x !in p
  {
    var s := p + [x];
    if Distinct(p) && x !in p {
      forall i, j | 0 <= i < j < |s|
        ensures s[i] != s[j]
      {
        if j == |p| {
          assert s[i] == p[i];
        } else {
          assert s[i] == p[i] && s[j] == p[j];
        }
      }
    }
    if Distinct(s) {
      forall i, j | 0 <= i < j < |p|
        ensures p[i] != p[j]
      {
        assert p[i] == s[i] && p[j] == s[j];
      }
      forall k | 0 <= k < |p|
        ensures p[k] != x
      {
        assert p[k] == s[k] && x == s[|p|];
      }
    }
  }

  /** `s.length != s.uniq.length` holds exactly when some element repeats. */
  lemma {:induction false} UniqFullLengthIffDistinct<T>(s: seq<T>)
    ensures |Uniq(s)| == |s| <==> Distinct(s)
  {
    if |s| > 0 {
      var p := s[..|s| - 1];
      var x := s[|s| - 1];
      assert s == p + [x];
      UniqFullLengthIffDistinct(p);
      DistinctSnoc(p, x);
    }
  }

  /** Ruby's `Array#compact`: the present values, in order. */
  function Compact<T>(s: seq<Option<T>>): (c: seq<T>)
    ensures |c| <= |s|
    ensures |c| == |s| <==> forall i :: 0 <= i < |s| ==> s[i].Some?
  {
    if |s| == 0 then []
    else
      var rest := Compact(s[..|s| - 1]);
      assert forall i :: 0 <= i < |s| - 1 ==> s[..|s| - 1][i] == s[i];
      match s[|s| - 1]
      case None => rest
      case Some(v) => rest + [v]
  }

  /** The concatenation of a sequence of sequences, front to back. */
  function Flatten<T>(parts: seq<seq<T>>): (r: seq<T>)
    ensures |parts| == 0 ==> r == []
  {
    if |parts| == 0 then [] else parts[0] + Flatten(parts[1..])
  }

  /** Flattening distributes over concatenation of the outer sequence. */
  lemma {:induction false} FlattenAppend<T>(a: seq<seq<T>>, b: seq<seq<T>>)
    ensures Flatten(a + b) == Flatten(a) + Flatten(b)
  {
    if |a| > 0 {
      assert (a + b)[1..] == a[1..] + b;
      FlattenAppend(a[1..], b);
    } else {
      assert a + b == b;
    }
  }

  /** `n` copies of `x`. */
  function Repeat<T>(x: T, n: nat): (r: seq<T>)
    ensures |r| == n
    ensures forall i :: 0 <= i < n ==> r[i] == x
  {
    if n == 0 then [] else Repeat(x, n - 1) + [x]
  }
}
