/**
 The numbers of the jitter statistics without rounding functions, and the choice of a better path stated on
 the candidates themselves.
 */
module JitterForm {
  import opened Basics
  import opened Jitter

  /** The rank is the whole part of `n * p`, or the last one. */
  lemma RankExactly(n: nat, p: real, k: nat)
    requires n > 0 && 0.0 <= p <= 1.0
    ensures Rank(n, p) == k
            <==> k < n && k as real <= n as real * p && (k + 1 < n ==> n as real * p < (k + 1) as real)
  {
    var x := n as real * p;
    assert 0.0 <= x && x.Floor as real <= x < (x.Floor + 1) as real;
  }

  /** Buckets are equally wide; what lies beyond the last one counts in the last one. */
  lemma {:induction false} BucketExactly(d: real, histMax: nat, n: nat, i: nat)
    requires histMax > 0 && n > 0 && d >= 0.0
    ensures Bucket(d, histMax, n) == i
            <==> && i < n && (i * histMax) as real <= d * n as real
                 && (i + 1 < n ==> d * n as real < ((i + 1) * histMax) as real)
  {
    ReachesStep(d, histMax, n, 0);
    ReachesStep(d, histMax, n, i);
    ReachesStep(d, histMax, n, i + 1);
    InStep(d / histMax as real * n as real, n, i);
  }

  /** How far into the range of buckets a step reaches. */
  lemma ReachesStep(d: real, histMax: nat, n: nat, k: nat)
    requires histMax > 0 && n > 0 && d >= 0.0
    ensures k as real <= d / histMax as real * n as real <==> (k * histMax) as real <= d * n as real
  {
    var m := histMax as real;
    var x := d / m * n as real;
    assert x * m == d * n as real;
    Scaled(x, m, k);
    assert k as real * m == (k * histMax) as real;
  }

  lemma InStep(x: real, n: nat, i: nat)
    requires n > 0 && x >= 0.0
    ensures Min(n - 1, Max(0, x.Floor)) == i <==> i < n && i as real <= x && (i + 1 < n ==> x < (i + 1) as real)
  {}

  lemma Scaled(x: real, m: real, k: nat)
    requires m > 0.0
    ensures k as real <= x <==> k as real * m <= x * m
  {
    if k as real <= x {
      assert (x - k as real) * m >= 0.0;
    } else {
      assert (k as real - x) * m > 0.0;
    }
  }

  /** A measured candidate other than the current one, not blocked, and strictly better. */
  predicate MayTake(u: string, j: Measure, cur: string, curJitter: real, blocked: set<string>) {
    j(u) != None && curJitter > j(u).value && !(u in blocked || u == cur)
  }

  /** Nothing that may be taken is better, and nothing equally good comes earlier. */
  predicate Wins(urls: seq<string>, j: Measure, cur: string, curJitter: real, blocked: set<string>, i: nat) {
    && i < |urls| && MayTake(urls[i], j, cur, curJitter, blocked)
    && forall k :: 0 <= k < |urls| && k != i && MayTake(urls[k], j, cur, curJitter, blocked) ==>
       j(urls[i]).value < j(urls[k]).value || (j(urls[i]).value == j(urls[k]).value && i < k)
  }

  /** The pick is the best that may be taken, the first of equals, and none exactly if nothing may be taken. */
  lemma {:induction false} PickExactly(urls: seq<string>, j: Measure, cur: string, curJitter: real,
                                       blocked: set<string>)
    ensures var best := Best(urls, j, cur, curJitter, blocked);
            && (best.Some? ==> exists i: nat :: Wins(urls, j, cur, curJitter, blocked, i) && urls[i] == best.value)
            && (best.None? ==> forall i :: 0 <= i < |urls| ==> !MayTake(urls[i], j, cur, curJitter, blocked))
  {
    if urls != [] {
      var n := |urls| - 1;
      var init := urls[..n];
      PickExactly(init, j, cur, curJitter, blocked);
      var before := Best(init, j, cur, curJitter, blocked);
      forall k | 0 <= k < n ensures init[k] == urls[k] {}
      if before.Some? {
        var i: nat :| Wins(init, j, cur, curJitter, blocked, i) && init[i] == before.value;
        if Best(urls, j, cur, curJitter, blocked) == before && !(MayTake(urls[n], j, cur, curJitter, blocked)
                                                                && j(urls[n]).value < j(urls[i]).value) {
          assert Wins(urls, j, cur, curJitter, blocked, i);
        } else {
          assert Wins(urls, j, cur, curJitter, blocked, n);
        }
      } else if Best(urls, j, cur, curJitter, blocked).Some? {
        assert Wins(urls, j, cur, curJitter, blocked, n);
      }
    }
  }
}
