/** Order-preserving filtering (a list comprehension with an `if`, or a loop
    that appends the items it keeps) and what it preserves. */
module Seqs {
  import opened Values


  /** `[x for x in s if p(x)]`, defined the way a loop builds it: one item at a time, at the end. */
  function Filter<T>(s: seq<T>, p: T -> bool): seq<T>
    decreases |s|
  {
    if s == [] then []
    else Filter(s[..|s| - 1], p) + (if p(s[|s| - 1]) then [s[|s| - 1]] else [])
  }

  /** The concatenation of what `f` gives for each item, in order: a loop that appends each
      item's contribution at the end. */
  function FlatMap<T, U>(s: seq<T>, f: T -> seq<U>): seq<U>
    decreases |s|
  {
    if s == [] then [] else FlatMap(s[..|s| - 1], f) + f(s[|s| - 1])
  }

  /** One more item appends its contribution. */
  lemma FlatMapSnoc<T, U>(s: seq<T>, f: T -> seq<U>, i: nat)
    requires i < |s|
    ensures FlatMap(s[..i + 1], f) == FlatMap(s[..i], f) + f(s[i])
  {
    assert s[..i + 1][..i] == s[..i];
  }

  /** Something is in the result exactly when some item contributes it. */
  lemma {:induction false} FlatMapMembership<T, U>(s: seq<T>, f: T -> seq<U>, x: U)
    ensures x in FlatMap(s, f) <==> exists i :: 0 <= i < |s| && x in f(s[i])
    decreases |s|
  {
    if s != [] {
      var init := s[..|s| - 1];
      FlatMapMembership(init, f, x);
      if exists i :: 0 <= i < |s| && x in f(s[i]) {
        var i :| 0 <= i < |s| && x in f(s[i]);
        if i < |init| {
          assert init[i] == s[i];
        }
      }
      if exists i :: 0 <= i < |init| && x in f(init[i]) {
        var i :| 0 <= i < |init| && x in f(init[i]);
        assert s[i] == init[i];
      }
    }
  }

  /** The first index from `p` below `n` at which `g` holds, if any: a scan that stops at
      the first hit. */
  function FirstIndex(n: nat, p: nat, g: nat -> bool): (r: Option<nat>)
    requires p <= n
    ensures r.Some? ==> p <= r.value < n && g(r.value)
    decreases n - p
  {
    if p == n then None else if g(p) then Some(p) else FirstIndex(n, p + 1, g)
  }

  /** The scan finds nothing exactly when `g` holds nowhere, and what it finds is the first hit. */
  lemma {:induction false} FirstIndexIsFirst(n: nat, p: nat, g: nat -> bool)
    requires p <= n
    ensures FirstIndex(n, p, g).None? <==> forall q :: p <= q < n ==> !g(q)
    ensures FirstIndex(n, p, g).Some? ==> forall q :: p <= q < FirstIndex(n, p, g).value ==> !g(q)
    decreases n - p
  {
    if p < n {
      FirstIndexIsFirst(n, p + 1, g);
    }
  }

  /** `a` is `b` with some items left out and the rest in their original order. */
  ghost predicate IsSubsequence<T>(a: seq<T>, b: seq<T>)
    decreases |b|
  {
    if a == [] then true
    else if b == [] then false
    else (a[|a| - 1] == b[|b| - 1] && IsSubsequence(a[..|a| - 1], b[..|b| - 1]))
         || IsSubsequence(a, b[..|b| - 1])
  }

  /** An item is kept exactly when it is in the input and satisfies the condition. */
  lemma {:induction false} FilterMembership<T>(s: seq<T>, p: T -> bool, x: T)
    ensures x in Filter(s, p) <==> x in s && p(x)
    decreases |s|
  {
    if s != [] {
      var init, last := s[..|s| - 1], s[|s| - 1];
      FilterMembership(init, p, x);
      assert s == init + [last];
    }
  }

  /** Each item is kept as often as it occurs when it satisfies the condition, and never otherwise. */
  lemma {:induction false} FilterMultiset<T>(s: seq<T>, p: T -> bool, x: T)
    ensures multiset(Filter(s, p))[x] == if p(x) then multiset(s)[x] else 0
    decreases |s|
  {
    if s != [] {
      var init, last := s[..|s| - 1], s[|s| - 1];
      FilterMultiset(init, p, x);
      assert s == init + [last];
    }
  }

  /** The kept items appear in the input's order. */
  lemma {:induction false} FilterIsSubsequence<T>(s: seq<T>, p: T -> bool)
    ensures IsSubsequence(Filter(s, p), s)
    decreases |s|
  {
    if s != [] {
      var init, last := s[..|s| - 1], s[|s| - 1];
      FilterIsSubsequence(init, p);
      var f := Filter(s, p);
      if p(last) {
        assert f[..|f| - 1] == Filter(init, p);
      } else {
        assert f == Filter(init, p);
        assert f != [] ==> IsSubsequence(f, s[..|s| - 1]);
      }
    }
  }

  /** When every item satisfies the condition, nothing is dropped. */
  lemma {:induction false} FilterKeepsAll<T>(s: seq<T>, p: T -> bool)
    requires forall i :: 0 <= i < |s| ==> p(s[i])
    ensures Filter(s, p) == s
    decreases |s|
  {
    if s != [] {
      FilterKeepsAll(s[..|s| - 1], p);
    }
  }

  /** The position of the first occurrence of `x` in `s`. */
  function IndexOf<T(==)>(s: seq<T>, x: T): (i: nat)
    requires x in s
    ensures i < |s| && s[i] == x && x !in s[..i]
    decreases |s|
  {
    if s[0] == x then 0
    else
      var i := 1 + IndexOf(s[1..], x);
      assert s[..i] == [s[0]] + s[1..][..i - 1];
      i
  }

  /** A position holding `x` with no earlier `x` is the first occurrence. */
  lemma IndexOfUnique<T>(s: seq<T>, x: T, i: nat)
    requires i < |s| && s[i] == x && x !in s[..i]
    ensures IndexOf(s, x) == i
  {
  }

  /** Appending after the first occurrence does not move it. */
  lemma IndexOfAppend<T>(a: seq<T>, b: seq<T>, x: T)
    requires x in a + b
    ensures x in a ==> IndexOf(a + b, x) == IndexOf(a, x)
    ensures x !in a ==> IndexOf(a + b, x) == |a| + IndexOf(b, x)
  {
    if x in a {
      var i := IndexOf(a, x);
      assert (a + b)[..i] == a[..i];
      IndexOfUnique(a + b, x, i);
    } else {
      assert x in b;
      var i := IndexOf(b, x);
      assert (a + b)[..|a| + i] == a + b[..i];
      IndexOfUnique(a + b, x, |a| + i);
    }
  }

  /** `s` without repeats, each item kept at its first occurrence; defined the way a loop
      builds it, appending an item only when it is not among the items already seen. */
  function Dedup<T(==)>(s: seq<T>): seq<T>
    decreases |s|
  {
    if s == [] then []
    else
      var init, last := s[..|s| - 1], s[|s| - 1];
      if last in init then Dedup(init) else Dedup(init) + [last]
  }

  /** De-duplication keeps every item and adds none. */
  lemma {:induction false} DedupMembership<T>(s: seq<T>, x: T)
    ensures x in Dedup(s) <==> x in s
    decreases |s|
  {
    if s != [] {
      var init, last := s[..|s| - 1], s[|s| - 1];
      DedupMembership(init, x);
      DedupMembership(init, last);
      assert s == init + [last];
    }
  }

  /** No item occurs twice in the result. */
  lemma {:induction false} DedupNoDuplicates<T>(s: seq<T>)
    ensures forall i, j :: 0 <= i < j < |Dedup(s)| ==> Dedup(s)[i] != Dedup(s)[j]
    decreases |s|
  {
    if s != [] {
      var init, last := s[..|s| - 1], s[|s| - 1];
      DedupNoDuplicates(init);
      DedupMembership(init, last);
    }
  }

  /** De-duplicating a longer input only adds items after those of the shorter one. */
  lemma {:induction false} DedupPrefix<T>(a: seq<T>, b: seq<T>)
    ensures Dedup(a) <= Dedup(a + b)
    decreases |b|
  {
    if b == [] {
      assert a + b == a;
    } else {
      var b' := b[..|b| - 1];
      DedupPrefix(a, b');
      assert (a + b)[..|a + b| - 1] == a + b';
    }
  }

  /** Two items keep the relative order of their first occurrences. */
  lemma {:induction false} DedupFirstOccurrenceOrder<T>(s: seq<T>, x: T, y: T)
    requires x in s && y in s
    ensures x in Dedup(s) && y in Dedup(s)
    ensures IndexOf(Dedup(s), x) < IndexOf(Dedup(s), y) <==> IndexOf(s, x) < IndexOf(s, y)
    decreases |s|
  {
    DedupMembership(s, x);
    DedupMembership(s, y);
    var init, last := s[..|s| - 1], s[|s| - 1];
    assert s == init + [last];
    var d := Dedup(init);
    if x in init {
      IndexOfAppend(init, [last], x);
      DedupMembership(init, x);
    }
    if y in init {
      IndexOfAppend(init, [last], y);
      DedupMembership(init, y);
    }
    if x in init && y in init {
      DedupFirstOccurrenceOrder(init, x, y);
    }
    if last !in init {
      DedupMembership(init, last);
      if x in init {
        IndexOfAppend(d, [last], x);
      }
      if y in init {
        IndexOfAppend(d, [last], y);
      }
      if x == last {
        IndexOfAppend(d, [last], x);
        IndexOfAppend(init, [last], x);
      }
      if y == last {
        IndexOfAppend(d, [last], y);
        IndexOfAppend(init, [last], y);
      }
    }
  }
}
