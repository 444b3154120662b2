/** The default comparator: the order of byte strings, and the short strings it finds between and behind them. */
module Comparators {
  import opened Coding

  type Bytes = seq<Byte>

  /** Compare is negative: byte by byte, and a prefix comes first. */
  predicate Before(a: Bytes, b: Bytes) {
    if b == [] then false
    else if a == [] then true
    else a[0] < b[0] || (a[0] == b[0] && Before(a[1..], b[1..]))
  }

  lemma {:induction false} Irreflexive(a: Bytes)
    ensures !Before(a, a)
    decreases |a|
  {
    if a != [] {
      Irreflexive(a[1..]);
    }
  }

  lemma {:induction false} Transitive(a: Bytes, b: Bytes, c: Bytes)
    requires Before(a, b) && Before(b, c)
    ensures Before(a, c)
    decreases |a|
  {
    if a != [] && a[0] == b[0] == c[0] {
      Transitive(a[1..], b[1..], c[1..]);
    }
  }

  lemma {:induction false} Total(a: Bytes, b: Bytes)
    ensures Before(a, b) || Before(b, a) || a == b
    decreases |a|
  {
    if a != [] && b != [] && a[0] == b[0] {
      Total(a[1..], b[1..]);
      if a[1..] == b[1..] {
        assert a == [a[0]] + a[1..] && b == [b[0]] + b[1..];
      }
    }
  }

  /** Strings with a common prefix compare as what follows it. */
  lemma {:induction false} CommonPrefix(p: Bytes, a: Bytes, b: Bytes)
    ensures Before(p + a, p + b) <==> Before(a, b)
    decreases |p|
  {
    if p == [] {
      assert p + a == a && p + b == b;
    } else {
      assert (p + a)[1..] == p[1..] + a && (p + b)[1..] == p[1..] + b;
      CommonPrefix(p[1..], a, b);
    }
  }

  lemma Split(a: Bytes, i: nat)
    requires i <= |a|
    ensures a == a[..i] + a[i..]
  {
  }

  /** A string whose byte at `i` is raised, and that ends there, is behind the original and before what has a larger byte there. */
  lemma Raised(start: Bytes, limit: Bytes, i: nat)
    requires i < |start| && i < |limit| && start[..i] == limit[..i] && start[i] < 0xff && start[i] + 1 < limit[i]
    ensures var r: Bytes := start[..i] + [start[i] + 1]; Before(start, r) && Before(r, limit)
  {
    var r: Bytes := start[..i] + [start[i] + 1];
    Split(start, i);
    Split(limit, i);
    CommonPrefix(start[..i], start[i..], [start[i] + 1]);
    CommonPrefix(start[..i], [start[i] + 1], limit[i..]);
  }

  /** A string not before `start` and before `limit`, shorter where the loop finds room. */
  method FindShortestSeparator(start: Bytes, limit: Bytes) returns (r: Bytes)
    ensures |r| <= |start| && !Before(r, start) && (Before(start, limit) ==> Before(r, limit))
    ensures r != start ==> Before(start, r) && Before(r, limit)
    ensures start <= limit || limit <= start ==> r == start
    ensures forall d :: 0 <= d < |start| && d < |limit| && start[..d] == limit[..d] && start[d] != limit[d] ==>
              r == if start[d] < 0xff && start[d] + 1 < limit[d] then start[..d] + [start[d] + 1] else start
  {
    var minLength := if |start| < |limit| then |start| else |limit|;
    var diff := 0;
    while diff < minLength && start[diff] == limit[diff]
      invariant 0 <= diff <= minLength && start[..diff] == limit[..diff]
    {
      diff := diff + 1;
    }
    Irreflexive(start);
    FirstDifference(start, limit, diff);
    if diff < minLength && start[diff] < 0xff && start[diff] + 1 < limit[diff] {
      Raised(start, limit, diff);
      r := start[..diff] + [start[diff] + 1];
      NotBefore(start, r);
    } else {
      r := start;
    }
  }

  /** There is one place where two strings first differ, unless one starts the other. */
  lemma FirstDifference(a: Bytes, b: Bytes, diff: nat)
    requires diff <= |a| && diff <= |b| && a[..diff] == b[..diff]
    requires diff == |a| || diff == |b| || a[diff] != b[diff]
    ensures a <= b || b <= a <==> diff == |a| || diff == |b|
    ensures forall d :: 0 <= d < |a| && d < |b| && a[..d] == b[..d] && a[d] != b[d] ==> d == diff
  {
    forall d, k | 0 <= k < d <= |a| && d <= |b| && a[..d] == b[..d] ensures a[k] == b[k] {
      assert a[..d][k] == b[..d][k];
    }
  }

  lemma NotBefore(a: Bytes, b: Bytes)
    requires Before(a, b)
    ensures !Before(b, a)
  {
    if Before(b, a) {
      Transitive(a, b, a);
      Irreflexive(a);
    }
  }

  /** A short string not before `key`; only a run of 0xff bytes is left alone. */
  method FindShortSuccessor(key: Bytes) returns (r: Bytes)
    ensures |r| <= |key| && !Before(r, key)
    ensures r == key <==> forall i :: 0 <= i < |key| ==> key[i] == 0xff
    ensures forall i :: 0 <= i < |key| && key[i] != 0xff && (forall j :: 0 <= j < i ==> key[j] == 0xff) ==>
              r == key[..i] + [key[i] + 1]
  {
    for i := 0 to |key|
      invariant forall j :: 0 <= j < i ==> key[j] == 0xff
    {
      if key[i] != 0xff {
        r := key[..i] + [key[i] + 1];
        Split(key, i);
        CommonPrefix(key[..i], key[i..], [key[i] + 1]);
        NotBefore(key, r);
        assert r[i] != key[i];
        return;
      }
    }
    Irreflexive(key);
    r := key;
  }
}
