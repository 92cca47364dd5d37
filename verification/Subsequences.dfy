/** One sequence can be obtained from another by deleting elements. */
module Subsequences {
  predicate Subseq<T(==)>(a: seq<T>, b: seq<T>)
    decreases |b|
  {
    a == [] ||
    (b != [] &&
     var m, n := |a| - 1, |b| - 1;
     (Subseq(a, b[..n]) || (a[m] == b[n] && Subseq(a[..m], b[..n]))))
  }

  /** More may follow. */
  lemma {:induction false} Extend<T>(a: seq<T>, b: seq<T>, c: seq<T>)
    requires Subseq(a, b)
    ensures Subseq(a, b + c)
    decreases |c|
  {
    if c == [] {
      assert b + c == b;
    } else {
      var k := |c| - 1;
      Extend(a, b, c[..k]);
      assert (b + c)[..|b| + k] == b + c[..k];
    }
  }

  /** The same suffix on both sides. */
  lemma {:induction false} Both<T>(a: seq<T>, b: seq<T>, c: seq<T>)
    requires Subseq(a, b)
    ensures Subseq(a + c, b + c)
    decreases |c|
  {
    if c == [] {
      assert a + c == a && b + c == b;
    } else {
      var k := |c| - 1;
      Both(a, b, c[..k]);
      assert (a + c)[..|a| + k] == a + c[..k];
      assert (b + c)[..|b| + k] == b + c[..k];
    }
  }

  lemma {:induction false} DropLast<T>(a: seq<T>, b: seq<T>)
    requires a != [] && Subseq(a, b)
    ensures Subseq(a[..|a| - 1], b)
    decreases |b|
  {
    var m, n := |a| - 1, |b| - 1;
    if Subseq(a, b[..n]) {
      DropLast(a, b[..n]);
    }
    Extend(a[..m], b[..n], [b[n]]);
    assert b[..n] + [b[n]] == b;
  }

  /** Less may be asked for. */
  lemma {:induction false} Shorten<T>(a: seq<T>, c: seq<T>, b: seq<T>)
    requires Subseq(a + c, b)
    ensures Subseq(a, b)
    decreases |c|
  {
    if c == [] {
      assert a + c == a;
    } else {
      DropLast(a + c, b);
      assert (a + c)[..|a + c| - 1] == a + c[..|c| - 1];
      Shorten(a, c[..|c| - 1], b);
    }
  }

  /** What is left keeps its order. */
  lemma {:induction false} SubseqAt<T>(a: seq<T>, b: seq<T>, i: nat) returns (p: nat)
    requires Subseq(a, b) && i < |a|
    ensures p < |b| && b[p] == a[i]
    decreases |b|
  {
    var m, n := |a| - 1, |b| - 1;
    if Subseq(a, b[..n]) {
      p := SubseqAt(a, b[..n], i);
    } else if i == m {
      p := n;
    } else {
      p := SubseqAt(a[..m], b[..n], i);
    }
  }

  lemma {:induction false} SubseqOrder<T>(a: seq<T>, b: seq<T>, i: nat, j: nat) returns (p: nat, q: nat)
    requires Subseq(a, b) && i < j < |a|
    ensures p < q < |b| && b[p] == a[i] && b[q] == a[j]
    decreases |b|
  {
    var m, n := |a| - 1, |b| - 1;
    if Subseq(a, b[..n]) {
      p, q := SubseqOrder(a, b[..n], i, j);
    } else if j == m {
      p := SubseqAt(a[..m], b[..n], i);
      q := n;
    } else {
      p, q := SubseqOrder(a[..m], b[..n], i, j);
    }
  }
}
