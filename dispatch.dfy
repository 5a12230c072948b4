/** sup.go, `checkEndpoints`: one check per endpoint, every result collected.
    The goroutines finish in an order the program does not control; the model
    takes that completion order as an input (a permutation of the endpoint
    positions) and collects the results in it, one after another. */
module Dispatch {
  import opened Transport
  import opened Probe

  /** The positions `0 .. n - 1`, in order. */
  function Indices(n: nat): (ix: seq<nat>)
    ensures |ix| == n && forall k :: 0 <= k < n ==> ix[k] == k
  {
    seq(n, k => k)
  }

  /** `order` lists every one of the `n` endpoint positions exactly once. */
  predicate IsCompletionOrder(order: seq<nat>, n: nat) {
    multiset(order) == multiset(Indices(n))
  }

  predicate InRange(order: seq<nat>, n: nat) {
    forall k :: 0 <= k < |order| ==> order[k] < n
  }

  lemma CompletionOrderInRange(order: seq<nat>, n: nat)
    requires IsCompletionOrder(order, n)
    ensures |order| == n && InRange(order, n)
  {
    assert |order| == |multiset(order)| == |multiset(Indices(n))| == n;
    forall k | 0 <= k < |order| ensures order[k] < n {
      assert order[k] in multiset(order);
      assert order[k] in Indices(n);
    }
  }

  /** The elements of `xs` at the positions `order` names, in that order. */
  function Pick<T>(xs: seq<T>, order: seq<nat>): (ys: seq<T>)
    requires InRange(order, |xs|)
    ensures |ys| == |order|
  {
    if order == [] then []
    else Pick(xs, order[..|order| - 1]) + [xs[order[|order| - 1]]]
  }

  lemma InRangePrefix(order: seq<nat>, n: nat, j: nat)
    requires InRange(order, n) && j <= |order|
    ensures InRange(order[..j], n)
  {
  }

  /** Picking one more position appends the element it names. */
  lemma PickSnoc<T>(xs: seq<T>, order: seq<nat>, k: nat, y: T)
    requires InRange(order, |xs|) && k < |order| && y == xs[order[k]]
    ensures InRange(order[..k], |xs|) && InRange(order[..k + 1], |xs|)
    ensures Pick(xs, order[..k + 1]) == Pick(xs, order[..k]) + [y]
  {
    InRangePrefix(order, |xs|, k);
    InRangePrefix(order, |xs|, k + 1);
    var front := order[..k + 1];
    assert front[..k] == order[..k];
    assert front[k] == order[k];
  }

  lemma {:induction false} PickAt<T>(xs: seq<T>, order: seq<nat>, k: nat)
    requires InRange(order, |xs|) && k < |order|
    ensures Pick(xs, order)[k] == xs[order[k]]
  {
    if k < |order| - 1 {
      PickAt(xs, order[..|order| - 1], k);
    }
  }

  lemma {:induction false} PickAppend<T>(xs: seq<T>, a: seq<nat>, b: seq<nat>)
    requires InRange(a, |xs|) && InRange(b, |xs|)
    ensures InRange(a + b, |xs|) && Pick(xs, a + b) == Pick(xs, a) + Pick(xs, b)
  {
    if b != [] {
      var b' := b[..|b| - 1];
      assert (a + b)[..|a + b| - 1] == a + b';
      PickAppend(xs, a, b');
    } else {
      assert a + b == a;
    }
  }

  /** Taking position `j` out of `b` takes its one picked element out of the
      picked sequence. */
  lemma {:induction false} PickSplice<T>(xs: seq<T>, b: seq<nat>, j: nat)
    requires InRange(b, |xs|) && j < |b|
    ensures InRange(b[..j] + b[j + 1..], |xs|)
    ensures multiset(Pick(xs, b)) == multiset(Pick(xs, b[..j] + b[j + 1..])) + multiset{xs[b[j]]}
  {
    var x, left, right := b[j], b[..j], b[j + 1..];
    assert b == (left + [x]) + right;
    PickAppend(xs, left, [x]);
    PickAppend(xs, left + [x], right);
    PickAppend(xs, left, right);
    assert Pick(xs, [x]) == [xs[x]] by {
      assert [x][..0] == [];
    }
    calc {
      multiset(Pick(xs, b));
      multiset(Pick(xs, left) + [xs[x]] + Pick(xs, right));
      multiset(Pick(xs, left)) + multiset{xs[x]} + multiset(Pick(xs, right));
      multiset(Pick(xs, left + right)) + multiset{xs[x]};
    }
  }

  /** Dropping the same element from two rearrangements of each other leaves
      rearrangements of each other. */
  lemma DropMatching(a: seq<nat>, b: seq<nat>, j: nat)
    requires multiset(a) == multiset(b) && |a| > 0 && j < |b| && b[j] == a[|a| - 1]
    ensures multiset(a[..|a| - 1]) == multiset(b[..j] + b[j + 1..])
  {
    var a', x, left, right := a[..|a| - 1], a[|a| - 1], b[..j], b[j + 1..];
    assert a == a' + [x];
    assert b == left + [x] + right;
    assert multiset(b) == multiset(left + right) + multiset{x};
    forall y ensures multiset(a')[y] == multiset(left + right)[y] {
      assert (multiset(a') + multiset{x})[y] == (multiset(left + right) + multiset{x})[y];
    }
  }

  /** Picking along two orders that are rearrangements of each other yields
      rearrangements of each other. */
  lemma {:induction false} PickPermutation<T>(xs: seq<T>, a: seq<nat>, b: seq<nat>)
    requires InRange(a, |xs|) && InRange(b, |xs|)
    requires multiset(a) == multiset(b)
    ensures multiset(Pick(xs, a)) == multiset(Pick(xs, b))
    decreases |a|
  {
    if a == [] {
      assert |b| == |multiset(b)| == 0;
    } else {
      var x := a[|a| - 1];
      assert x in multiset(b) by {
        assert x in multiset(a);
      }
      var j :| 0 <= j < |b| && b[j] == x;
      DropMatching(a, b, j);
      PickPermutation(xs, a[..|a| - 1], b[..j] + b[j + 1..]);
      PickSplice(xs, b, j);
    }
  }

  /** Picking every position once returns the sequence itself. */
  lemma PickIndices<T>(xs: seq<T>)
    ensures InRange(Indices(|xs|), |xs|) && Pick(xs, Indices(|xs|)) == xs
  {
    forall k | 0 <= k < |xs| ensures Pick(xs, Indices(|xs|))[k] == xs[k] {
      PickAt(xs, Indices(|xs|), k);
    }
  }

  /** A sequence picked along a completion order holds the same results, as
      often each, as the sequence itself. */
  lemma PickCompletionOrder<T>(xs: seq<T>, order: seq<nat>)
    requires IsCompletionOrder(order, |xs|)
    ensures InRange(order, |xs|) && |Pick(xs, order)| == |xs|
    ensures multiset(Pick(xs, order)) == multiset(xs)
  {
    CompletionOrderInRange(order, |xs|);
    PickIndices(xs);
    PickPermutation(xs, order, Indices(|xs|));
  }

  /** The result each endpoint's check yields, in input order. */
  function ExpectedResults(endpoints: seq<string>, goos: string, tries: int, https: bool, get: Get, run: Run)
    : (rs: seq<CheckResult>)
    ensures |rs| == |endpoints|
    ensures forall i :: 0 <= i < |endpoints| ==> rs[i] == EndpointResult(endpoints[i], tries, goos, https, get, run)
  {
    seq(|endpoints|, i requires 0 <= i < |endpoints| => EndpointResult(endpoints[i], tries, goos, https, get, run))
  }

  /** `checkEndpoints`: one result per endpoint, none dropped and none
      duplicated, gathered in completion order. */
  method CheckEndpoints(endpoints: seq<string>, goos: string, tries: int, https: bool, get: Get, run: Run,
                        order: seq<nat>)
    returns (results: seq<CheckResult>)
    requires IsCompletionOrder(order, |endpoints|)
    ensures |results| == |endpoints|
    ensures multiset(results) == multiset(ExpectedResults(endpoints, goos, tries, https, get, run))
    ensures InRange(order, |endpoints|) &&
            results == Pick(ExpectedResults(endpoints, goos, tries, https, get, run), order)
  {
    ghost var expected := ExpectedResults(endpoints, goos, tries, https, get, run);
    PickCompletionOrder(expected, order);
    results := [];
    var k := 0;
    while k < |order|
      invariant 0 <= k <= |order|
      invariant results == Pick(expected, order[..k])
    {
      var r := CheckEndpoint(endpoints[order[k]], tries, goos, https, get, run);
      PickSnoc(expected, order, k, r);
      results := results + [r];
      k := k + 1;
    }
    assert order[..k] == order;
  }
}
