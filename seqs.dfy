/** Order-preserving filters over key sequences, and the facts about them
    that the selection logic relies on. */
module Seqs {

  /** No key occurs twice (the keys of a Python dict, for instance). */
  predicate Distinct(s: seq<string>) {
    forall i, j :: 0 <= i < j < |s| ==> s[i] != s[j]
  }

  /** The elements of `s` that satisfy `p`, in order. */
  function Filter(s: seq<string>, p: string -> bool): (r: seq<string>)
    ensures |r| <= |s|
    ensures forall x :: x in r <==> x in s && p(x)
    decreases |s|
  {
    if s == [] then []
    else
      var init := s[..|s| - 1];
      assert s == init + [s[|s| - 1]];
      Filter(init, p) + (if p(s[|s| - 1]) then [s[|s| - 1]] else [])
  }

  function Not(p: string -> bool): string -> bool {
    x => !p(x)
  }

  function InList(ks: seq<string>): string -> bool {
    x => x in ks
  }

  function NotInList(ks: seq<string>): string -> bool {
    x => x !in ks
  }

  /** `s` is an order-preserving merge of `a` and `b`: every element of `s`
      is taken, in turn, from the front of `a` or from the front of `b`. */
  predicate Interleaves(s: seq<string>, a: seq<string>, b: seq<string>)
    decreases |s|
  {
    if s == [] then a == [] && b == []
    else
      var x := s[|s| - 1];
      || (a != [] && a[|a| - 1] == x && Interleaves(s[..|s| - 1], a[..|a| - 1], b))
      || (b != [] && b[|b| - 1] == x && Interleaves(s[..|s| - 1], a, b[..|b| - 1]))
  }

  /** Filtering a duplicate-free sequence leaves it duplicate-free. */
  lemma {:induction false} FilterDistinct(s: seq<string>, p: string -> bool)
    requires Distinct(s)
    ensures Distinct(Filter(s, p))
    decreases |s|
  {
    if s != [] {
      var init := s[..|s| - 1];
      assert Distinct(init);
      FilterDistinct(init, p);
      assert s[|s| - 1] !in init;
    }
  }

  /** Filtering keeps every occurrence of an element that passes, repeats
      included, and none of one that fails. */
  lemma {:induction false} FilterCount(s: seq<string>, p: string -> bool, x: string)
    ensures multiset(Filter(s, p))[x] == if p(x) then multiset(s)[x] else 0
    decreases |s|
  {
    if s != [] {
      var init := s[..|s| - 1];
      assert s == init + [s[|s| - 1]];
      FilterCount(init, p, x);
    }
  }

  /** Filtering distributes over concatenation. */
  lemma {:induction false} FilterAppend(a: seq<string>, b: seq<string>, p: string -> bool)
    ensures Filter(a + b, p) == Filter(a, p) + Filter(b, p)
    decreases |b|
  {
    if b != [] {
      var binit := b[..|b| - 1];
      assert a + b == (a + binit) + [b[|b| - 1]];
      assert (a + b)[..|a + b| - 1] == a + binit;
      assert b[..|b| - 1] == binit;
      FilterAppend(a, binit, p);
      assert Filter(b, p) == Filter(binit, p) + (if p(b[|b| - 1]) then [b[|b| - 1]] else []);
    } else {
      assert a + b == a;
    }
  }

  /** A filter that every element passes is the identity. */
  lemma {:induction false} FilterAll(s: seq<string>, p: string -> bool)
    requires forall x :: x in s ==> p(x)
    ensures Filter(s, p) == s
    decreases |s|
  {
    if s != [] {
      var init := s[..|s| - 1];
      assert s == init + [s[|s| - 1]];
      FilterAll(init, p);
    }
  }

  /** A filter that no element passes selects nothing. */
  lemma {:induction false} FilterNone(s: seq<string>, p: string -> bool)
    requires forall x :: x in s ==> !p(x)
    ensures Filter(s, p) == []
    decreases |s|
  {
    if s != [] {
      var init := s[..|s| - 1];
      assert s == init + [s[|s| - 1]];
      FilterNone(init, p);
    }
  }

  /** Two filters that agree on the elements of `s` select the same subsequence. */
  lemma {:induction false} FilterAgree(s: seq<string>, p: string -> bool, q: string -> bool)
    requires forall x :: x in s ==> p(x) == q(x)
    ensures Filter(s, p) == Filter(s, q)
    decreases |s|
  {
    if s != [] {
      var init := s[..|s| - 1];
      assert s == init + [s[|s| - 1]];
      FilterAgree(init, p, q);
    }
  }

  function Both(p: string -> bool, q: string -> bool): string -> bool {
    x => p(x) && q(x)
  }

  /** Filtering twice is filtering once by both conditions. */
  lemma {:induction false} FilterFilter(s: seq<string>, p: string -> bool, q: string -> bool)
    ensures Filter(Filter(s, p), q) == Filter(s, Both(p, q))
    decreases |s|
  {
    if s != [] {
      var init := s[..|s| - 1];
      var x := s[|s| - 1];
      FilterFilter(init, p, q);
      assert Filter(s, Both(p, q)) == Filter(init, Both(p, q)) + (if p(x) && q(x) then [x] else []);
      if p(x) {
        var fp := Filter(init, p);
        assert Filter(s, p) == fp + [x];
        assert (fp + [x])[..|fp + [x]| - 1] == fp;
        assert Filter(fp + [x], q) == Filter(fp, q) + (if q(x) then [x] else []);
      } else {
        assert Filter(s, p) == Filter(init, p);
      }
    }
  }

  /** Selecting from `s` the elements of a filter of `s` gives that filter back. */
  lemma FilterSelf(s: seq<string>, q: string -> bool)
    ensures Filter(s, InList(Filter(s, q))) == Filter(s, q)
  {
    FilterAgree(s, InList(Filter(s, q)), q);
  }

  /** A filter and its negation split `s` into an order-preserving partition. */
  lemma {:induction false} FilterSplits(s: seq<string>, p: string -> bool)
    ensures Interleaves(s, Filter(s, p), Filter(s, Not(p)))
    decreases |s|
  {
    if s != [] {
      var init := s[..|s| - 1];
      FilterSplits(init, p);
      var a, b := Filter(s, p), Filter(s, Not(p));
      assert s[..|s| - 1] == init;
      if p(s[|s| - 1]) {
        assert !Not(p)(s[|s| - 1]);
        assert b == Filter(init, Not(p));
        assert a[..|a| - 1] == Filter(init, p);
      } else {
        assert Not(p)(s[|s| - 1]);
        assert a == Filter(init, p);
        assert b[..|b| - 1] == Filter(init, Not(p));
      }
    }
  }

  /** An interleaving loses and invents nothing: it is a split of the multiset. */
  lemma {:induction false} InterleavesMultiset(s: seq<string>, a: seq<string>, b: seq<string>)
    requires Interleaves(s, a, b)
    ensures multiset(s) == multiset(a) + multiset(b)
    decreases |s|
  {
    if s != [] {
      var init := s[..|s| - 1];
      var x := s[|s| - 1];
      assert s == init + [x];
      if a != [] && a[|a| - 1] == x && Interleaves(init, a[..|a| - 1], b) {
        InterleavesMultiset(init, a[..|a| - 1], b);
        assert a == a[..|a| - 1] + [x];
      } else {
        InterleavesMultiset(init, a, b[..|b| - 1]);
        assert b == b[..|b| - 1] + [x];
      }
    }
  }
}
