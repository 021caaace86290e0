/**
 * ActiveModel's error collection, as the factories use it: `errors.add(k, v)`
 * appends one (attribute, message) entry, and an object is `valid?` exactly
 * when its validations added nothing. A log keeps its entries in the order
 * they were added; `EachOrder` is the order in which Rails 6.0's
 * `errors.each { |k, v| ... }` yields them, attribute by attribute.
 */
module Errors {
  import opened Sequences

  datatype Error = Error(attribute: string, message: string)

  /** The entries in the order `errors.add` was called. */
  type ErrorLog = seq<Error>

  /** `valid?`: no validation added an error. */
  predicate Valid(log: ErrorLog) {
    |log| == 0
  }

  /**
   * `child.errors.each { |k, v| errors.add(k, v) }` guarded by
   * `child.valid?`: an invalid child's entries are appended, a valid one
   * leaves the log alone. The entries are appended in the child's insertion
   * order. `AbsorbEachOrder` shows that Rails 6.0's enumeration of the result
   * is the same as if they were appended in the order `each` yields them,
   * and `EachOrderAppendCongruent` carries that through any number of
   * absorbs (see `AbsorbInvalidInEachOrder`).
   */
  function Absorb(log: ErrorLog, child: ErrorLog): (r: ErrorLog)
    ensures r == log + child
    ensures Valid(child) ==> r == log
  {
    if Valid(child) then log else log + child
  }

  /**
   * A grouped child's entries come out in the same order whether appended
   * in insertion order or in Rails 6.0's per-attribute order.
   */
  lemma AbsorbGrouped(log: ErrorLog, child: ErrorLog)
    requires Grouped(child)
    ensures Absorb(log, child) == log + EachOrder(child)
  {
    GroupedEachOrder(child);
  }

  /** Two children absorbed in turn into an empty log: valid exactly when both are. */
  lemma AbsorbBoth(first: ErrorLog, second: ErrorLog)
    ensures Absorb(Absorb([], first), second) == first + second
    ensures Valid(first + second) <==> Valid(first) && Valid(second)
  {
  }

  /**
   * The loop `children.each { |c| next if c.valid?; absorb c.errors }`
   * over the error logs of a list of child objects.
   */
  function AbsorbInvalid(children: seq<ErrorLog>): (r: ErrorLog)
    ensures Valid(r) <==> forall i :: 0 <= i < |children| ==> Valid(children[i])
  {
    if |children| == 0 then []
    else
      var prefix := children[..|children| - 1];
      assert forall i :: 0 <= i < |prefix| ==> prefix[i] == children[i];
      Absorb(AbsorbInvalid(prefix), children[|children| - 1])
  }

  /** The fold collects exactly the children's entries, child by child, in order. */
  lemma {:induction false} AbsorbInvalidIsFlatten(children: seq<ErrorLog>)
    ensures AbsorbInvalid(children) == Flatten(children)
  {
    if |children| > 0 {
      var prefix := children[..|children| - 1];
      var last := children[|children| - 1];
      assert children == prefix + [last];
      AbsorbInvalidIsFlatten(prefix);
      FlattenAppend(prefix, [last]);
      assert Flatten([last]) == last;
    }
  }

  /** A valid child contributes nothing: removing it leaves the collected errors unchanged. */
  lemma AbsorbInvalidSkipsValid(before: seq<ErrorLog>, child: ErrorLog, after: seq<ErrorLog>)
    requires Valid(child)
    ensures AbsorbInvalid(before + [child] + after) == AbsorbInvalid(before + after)
  {
    AbsorbInvalidIsFlatten(before + [child] + after);
    AbsorbInvalidIsFlatten(before + after);
    FlattenAppend(before + [child], after);
    FlattenAppend(before, [child]);
    FlattenAppend(before, after);
    assert Flatten([child]) == child;
  }

  /** Every attribute's entries are contiguous. */
  predicate Grouped(log: ErrorLog) {
    forall i, j, k :: 0 <= i < j < k < |log| && log[i].attribute == log[k].attribute ==>
      log[j].attribute == log[i].attribute
  }

  /** Every entry concerns `attribute`. */
  predicate AllAbout(log: ErrorLog, attribute: string) {
    forall i :: 0 <= i < |log| ==> log[i].attribute == attribute
  }

  /** The entries about `attribute`, in order. */
  function Keep(log: ErrorLog, attribute: string): (r: ErrorLog)
    ensures |r| <= |log|
  {
    if |log| == 0 then []
    else (if log[0].attribute == attribute then [log[0]] else []) + Keep(log[1..], attribute)
  }

  /** The entries about any other attribute, in order. */
  function Drop(log: ErrorLog, attribute: string): (r: ErrorLog)
    ensures |r| <= |log|
    ensures |log| > 0 && log[0].attribute == attribute ==> |r| < |log|
  {
    if |log| == 0 then []
    else (if log[0].attribute == attribute then [] else [log[0]]) + Drop(log[1..], attribute)
  }

  /**
   * The order in which Rails 6.0's `errors.each` yields a log: every entry
   * of the first attribute used, then every entry of the next, and so on.
   */
  function EachOrder(log: ErrorLog): ErrorLog
    decreases |log|
  {
    if |log| == 0 then []
    else
      var attribute := log[0].attribute;
      Keep(log, attribute) + EachOrder(Drop(log, attribute))
  }

  lemma {:induction false} KeepAppend(p: ErrorLog, q: ErrorLog, attribute: string)
    ensures Keep(p + q, attribute) == Keep(p, attribute) + Keep(q, attribute)
  {
    if |p| > 0 {
      assert (p + q)[1..] == p[1..] + q;
      KeepAppend(p[1..], q, attribute);
    } else {
      assert p + q == q;
    }
  }

  lemma {:induction false} DropAppend(p: ErrorLog, q: ErrorLog, attribute: string)
    ensures Drop(p + q, attribute) == Drop(p, attribute) + Drop(q, attribute)
  {
    if |p| > 0 {
      assert (p + q)[1..] == p[1..] + q;
      DropAppend(p[1..], q, attribute);
    } else {
      assert p + q == q;
    }
  }

  lemma {:induction false} KeepDropAllAbout(p: ErrorLog, attribute: string)
    requires AllAbout(p, attribute)
    ensures Keep(p, attribute) == p && Drop(p, attribute) == []
  {
    if |p| > 0 {
      KeepDropAllAbout(p[1..], attribute);
    }
  }

  lemma {:induction false} KeepDropNoneAbout(q: ErrorLog, attribute: string)
    requires forall i :: 0 <= i < |q| ==> q[i].attribute != attribute
    ensures Keep(q, attribute) == [] && Drop(q, attribute) == q
  {
    if |q| > 0 {
      KeepDropNoneAbout(q[1..], attribute);
    }
  }

  /** The length of the longest prefix about `attribute`. */
  function RunLength(log: ErrorLog, attribute: string): (n: nat)
    ensures n <= |log|
    ensures AllAbout(log[..n], attribute)
    ensures n < |log| ==> log[n].attribute != attribute
  {
    if |log| > 0 && log[0].attribute == attribute then
      var n := 1 + RunLength(log[1..], attribute);
      assert forall i :: 1 <= i < n ==> log[..n][i] == log[1..][..n - 1][i - 1];
      n
    else 0
  }

  /**
   * Past the first attribute's opening run, a grouped log never mentions
   * that attribute again, and what is left is still grouped.
   */
  lemma GroupedRest(log: ErrorLog, n: nat)
    requires Grouped(log) && 0 < n <= |log|
    requires n < |log| ==> log[n].attribute != log[0].attribute
    ensures forall k :: 0 <= k < |log[n..]| ==> log[n..][k].attribute != log[0].attribute
    ensures Grouped(log[n..])
  {
    var q := log[n..];
    forall k | 0 <= k < |q|
      ensures q[k].attribute != log[0].attribute
    {
      assert q[k] == log[n + k];
    }
    forall i, j, k | 0 <= i < j < k < |q| && q[i].attribute == q[k].attribute
      ensures q[j].attribute == q[i].attribute
    {
      assert q[i] == log[n + i] && q[j] == log[n + j] && q[k] == log[n + k];
    }
  }

  /** On a grouped log, Rails 6.0's per-attribute enumeration is insertion order. */
  lemma {:induction false} GroupedEachOrder(log: ErrorLog)
    ensures Grouped(log) ==> EachOrder(log) == log
    decreases |log|
  {
    if |log| > 0 && Grouped(log) {
      var attribute := log[0].attribute;
      var n := RunLength(log, attribute);
      var p, q := log[..n], log[n..];
      assert log == p + q;
      GroupedRest(log, n);
      KeepAppend(p, q, attribute);
      DropAppend(p, q, attribute);
      KeepDropAllAbout(p, attribute);
      KeepDropNoneAbout(q, attribute);
      GroupedEachOrder(q);
      assert Keep(log, attribute) == p && Drop(log, attribute) == q;
    }
  }

  /**
   * Three blocks, each about its own attribute, make a grouped log, so
   * Rails 6.0 enumerates it in insertion order.
   */
  lemma GroupedBlocks(a: ErrorLog, x: string, b: ErrorLog, y: string, c: ErrorLog, z: string)
    requires AllAbout(a, x) && AllAbout(b, y) && AllAbout(c, z)
    requires x != y && y != z && x != z
    ensures Grouped(a + b + c)
    ensures EachOrder(a + b + c) == a + b + c
  {
    GroupedEachOrder(a + b + c);
  }

  /** Keeping or dropping one attribute after keeping or dropping another. */
  lemma {:induction false} KeepKeep(log: ErrorLog, a: string, b: string)
    ensures Keep(Keep(log, a), b) == if a == b then Keep(log, a) else []
  {
    if |log| > 0 {
      KeepKeep(log[1..], a, b);
      KeepAppend(if log[0].attribute == a then [log[0]] else [], Keep(log[1..], a), b);
    }
  }

  lemma {:induction false} KeepDrop(log: ErrorLog, a: string, b: string)
    ensures Keep(Drop(log, a), b) == if a == b then [] else Keep(log, b)
  {
    if |log| > 0 {
      KeepDrop(log[1..], a, b);
      KeepAppend(if log[0].attribute == a then [] else [log[0]], Drop(log[1..], a), b);
    }
  }

  lemma {:induction false} DropKeep(log: ErrorLog, a: string, b: string)
    ensures Drop(Keep(log, a), b) == if a == b then [] else Keep(log, a)
  {
    if |log| > 0 {
      DropKeep(log[1..], a, b);
      DropAppend(if log[0].attribute == a then [log[0]] else [], Keep(log[1..], a), b);
    }
  }

  lemma {:induction false} DropDrop(log: ErrorLog, a: string, b: string)
    ensures Drop(Drop(log, a), b) == Drop(Drop(log, b), a)
    ensures Drop(Drop(log, a), a) == Drop(log, a)
  {
    if |log| > 0 {
      DropDrop(log[1..], a, b);
      DropAppend(if log[0].attribute == a then [] else [log[0]], Drop(log[1..], a), b);
      DropAppend(if log[0].attribute == b then [] else [log[0]], Drop(log[1..], b), a);
      DropAppend(if log[0].attribute == a then [] else [log[0]], Drop(log[1..], a), a);
    }
  }

  /** Enumerating per attribute keeps each attribute's entries, in order. */
  lemma {:induction false} KeepEachOrder(log: ErrorLog, b: string)
    ensures Keep(EachOrder(log), b) == Keep(log, b)
    decreases |log|
  {
    if |log| > 0 {
      var a := log[0].attribute;
      KeepAppend(Keep(log, a), EachOrder(Drop(log, a)), b);
      KeepEachOrder(Drop(log, a), b);
      KeepKeep(log, a, b);
      KeepDrop(log, a, b);
    }
  }

  /** Dropping an attribute commutes with the per-attribute enumeration. */
  lemma {:induction false} DropEachOrder(log: ErrorLog, b: string)
    ensures Drop(EachOrder(log), b) == EachOrder(Drop(log, b))
    decreases |log|
  {
    if |log| > 0 {
      var a := log[0].attribute;
      DropAppend(Keep(log, a), EachOrder(Drop(log, a)), b);
      DropEachOrder(Drop(log, a), b);
      DropKeep(log, a, b);
      DropDrop(log, a, b);
      if a != b {
        var rest := Drop(log, b);
        assert rest == [log[0]] + Drop(log[1..], b);
        assert rest[0] == log[0];
        KeepDrop(log, b, a);
      }
    }
  }

  /** Enumerating an enumeration changes nothing. */
  lemma {:induction false} EachOrderIdempotent(log: ErrorLog)
    ensures EachOrder(EachOrder(log)) == EachOrder(log)
    decreases |log|
  {
    if |log| > 0 {
      var a := log[0].attribute;
      var e := EachOrder(log);
      assert Keep(log, a)[0] == log[0];
      assert e[0] == log[0];
      KeepEachOrder(log, a);
      DropEachOrder(log, a);
      DropDrop(log, a, a);
      EachOrderIdempotent(Drop(log, a));
    }
  }

  /**
   * Adding a child's entries in the order Rails 6.0 enumerates them leaves
   * the parent enumerating exactly as if they had been added in the child's
   * insertion order, whatever the parent held before.
   */
  lemma {:induction false} EachOrderOfAppend(log: ErrorLog, child: ErrorLog)
    ensures EachOrder(log + EachOrder(child)) == EachOrder(log + child)
    decreases |log|
  {
    if |log| == 0 {
      assert log + EachOrder(child) == EachOrder(child) && log + child == child;
      EachOrderIdempotent(child);
    } else {
      var a := log[0].attribute;
      assert (log + child)[0] == log[0] && (log + EachOrder(child))[0] == log[0];
      KeepAppend(log, child, a);
      KeepAppend(log, EachOrder(child), a);
      DropAppend(log, child, a);
      DropAppend(log, EachOrder(child), a);
      KeepEachOrder(child, a);
      DropEachOrder(child, a);
      EachOrderOfAppend(Drop(log, a), Drop(child, a));
    }
  }

  /**
   * `Absorb` keeps the child's insertion order; a Rails 6.0 parent receives
   * the child's entries per attribute. Both enumerate the same afterwards.
   */
  lemma AbsorbEachOrder(log: ErrorLog, child: ErrorLog)
    ensures EachOrder(Absorb(log, EachOrder(child))) == EachOrder(Absorb(log, child))
  {
    EachOrderOfAppend(log, child);
  }

  /** Enumerating the front part first changes nothing in the whole's enumeration. */
  lemma {:induction false} EachOrderOfPrefix(front: ErrorLog, back: ErrorLog)
    ensures EachOrder(EachOrder(front) + back) == EachOrder(front + back)
    decreases |front|
  {
    if |front| == 0 {
      assert EachOrder(front) + back == back && front + back == back;
    } else {
      var a := front[0].attribute;
      var e := EachOrder(front);
      assert Keep(front, a)[0] == front[0];
      assert (e + back)[0] == front[0] && (front + back)[0] == front[0];
      KeepAppend(e, back, a);
      KeepAppend(front, back, a);
      DropAppend(e, back, a);
      DropAppend(front, back, a);
      KeepEachOrder(front, a);
      DropEachOrder(front, a);
      EachOrderOfPrefix(Drop(front, a), Drop(back, a));
    }
  }

  /**
   * Logs that Rails 6.0 enumerates alike, concatenated, are enumerated
   * alike: the enumeration sees a log only up to this equivalence.
   */
  lemma EachOrderAppendCongruent(a: ErrorLog, a2: ErrorLog, b: ErrorLog, b2: ErrorLog)
    requires EachOrder(a) == EachOrder(a2) && EachOrder(b) == EachOrder(b2)
    ensures EachOrder(a + b) == EachOrder(a2 + b2)
  {
    EachOrderOfPrefix(a, b);
    EachOrderOfPrefix(a2, b);
    EachOrderOfAppend(a2, b);
    EachOrderOfAppend(a2, b2);
  }

  /** The fold over children that Rails 6.0 enumerates alike is enumerated alike. */
  lemma {:induction false} AbsorbInvalidCongruent(xs: seq<ErrorLog>, ys: seq<ErrorLog>)
    requires |xs| == |ys|
    requires forall i :: 0 <= i < |xs| ==> EachOrder(xs[i]) == EachOrder(ys[i])
    ensures EachOrder(AbsorbInvalid(xs)) == EachOrder(AbsorbInvalid(ys))
  {
    if |xs| > 0 {
      var n := |xs| - 1;
      AbsorbInvalidCongruent(xs[..n], ys[..n]);
      EachOrderAppendCongruent(AbsorbInvalid(xs[..n]), AbsorbInvalid(ys[..n]), xs[n], ys[n]);
    }
  }

  /**
   * The fold as Rails 6.0 runs it: each invalid child's entries are added in
   * the order the child's `each` yields them. The parent then enumerates
   * exactly as the insertion-order fold does.
   */
  function AbsorbInvalidInEachOrder(children: seq<ErrorLog>): (r: ErrorLog)
    ensures EachOrder(r) == EachOrder(AbsorbInvalid(children))
  {
    if |children| == 0 then []
    else
      var prefix := children[..|children| - 1];
      var last := children[|children| - 1];
      var r := Absorb(AbsorbInvalidInEachOrder(prefix), EachOrder(last));
      EachOrderIdempotent(last);
      EachOrderAppendCongruent(AbsorbInvalidInEachOrder(prefix), AbsorbInvalid(prefix), EachOrder(last), last);
      r
  }
}
