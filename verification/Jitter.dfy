/**
 Jitter as the order of relay candidates: a ring of round-trip samples per url, the 95th
 percentile of their steps, a stable ordering by it, and the choice of a better path. Where a
 measure is only looked up it is a function `j` from urls to a jitter, absent if not measured.
 */
module Jitter {
  import opened Basics

  datatype Thresholds = Thresholds(enabled: bool, sampleMax: nat, minSamples: nat, histMax: nat, histBuckets: nat)

  // ----- statistics of one ring

  function Abs(x: real): real { if x < 0.0 then -x else x }

  /** Steps between neighbouring samples. */
  function AbsDeltas(samples: seq<real>): (r: seq<real>)
    ensures |r| == if samples == [] then 0 else |samples| - 1
  {
    var n := |samples|;
    if n < 2 then [] else AbsDeltas(samples[..n - 1]) + [Abs(samples[n - 1] - samples[n - 2])]
  }

  method ComputeAbsDeltas(samples: seq<real>) returns (out: seq<real>)
    ensures out == AbsDeltas(samples)
  {
    out := [];
    if |samples| == 0 { return; }
    for i := 1 to |samples|
      invariant out == AbsDeltas(samples[..i])
    {
      assert samples[..i + 1][..i] == samples[..i];
      out := out + [Abs(samples[i] - samples[i - 1])];
    }
    assert samples[..|samples|] == samples;
  }

  lemma {:induction false} StepAt(samples: seq<real>, i: nat)
    requires i + 1 < |samples|
    ensures AbsDeltas(samples)[i] == if samples[i] < samples[i + 1] then samples[i + 1] - samples[i]
                                     else samples[i] - samples[i + 1]
  {
    if i + 2 < |samples| {
      StepAt(samples[..|samples| - 1], i);
    }
  }

  function InsertReal(x: real, s: seq<real>): seq<real> {
    if s == [] || x < s[0] then [x] + s else [s[0]] + InsertReal(x, s[1..])
  }

  /** The values in ascending order. */
  function Ascending(s: seq<real>): (r: seq<real>)
    ensures |r| == |s|
  {
    if s == [] then []
    else
      InsertLength(s[|s| - 1], Ascending(s[..|s| - 1]));
      InsertReal(s[|s| - 1], Ascending(s[..|s| - 1]))
  }

  lemma {:induction false} InsertLength(x: real, s: seq<real>)
    ensures |InsertReal(x, s)| == |s| + 1
  {
    if s != [] && x >= s[0] {
      InsertLength(x, s[1..]);
    }
  }

  predicate IsAscending(s: seq<real>) {
    forall i, k :: 0 <= i < k < |s| ==> s[i] <= s[k]
  }

  lemma {:induction false} InsertKeepsAll(x: real, s: seq<real>)
    ensures multiset(InsertReal(x, s)) == multiset(s) + multiset{x}
    ensures forall y :: y in InsertReal(x, s) <==> y == x || y in s
  {
    if s == [] || x < s[0] {
      assert multiset([x] + s) == multiset{x} + multiset(s);
    } else {
      var rest := s[1..];
      InsertKeepsAll(x, rest);
      assert s == [s[0]] + rest;
      assert multiset([s[0]] + InsertReal(x, rest)) == multiset{s[0]} + multiset(InsertReal(x, rest));
    }
  }

  lemma {:induction false} InsertAscends(x: real, s: seq<real>)
    requires IsAscending(s)
    ensures IsAscending(InsertReal(x, s))
  {
    if s != [] && x >= s[0] {
      var r := InsertReal(x, s[1..]);
      InsertAscends(x, s[1..]);
      InsertKeepsAll(x, s[1..]);
      forall k | 0 <= k < |r|
        ensures s[0] <= r[k]
      {
        assert r[k] in r;
      }
    }
  }

  lemma {:induction false} AscendingFacts(s: seq<real>)
    ensures IsAscending(Ascending(s)) && multiset(Ascending(s)) == multiset(s)
  {
    if s != [] {
      var init, last := s[..|s| - 1], s[|s| - 1];
      AscendingFacts(init);
      InsertAscends(last, Ascending(init));
      InsertKeepsAll(last, Ascending(init));
      assert s == init + [last];
    }
  }

  /** The sample of rank `min(n - 1, floor(n * p))`, zero if there is none. */
  function Percentile(values: seq<real>, p: real): real
    requires 0.0 <= p <= 1.0
  {
    if values == [] then 0.0 else Ascending(values)[Rank(|values|, p)]
  }

  function Rank(n: nat, p: real): (k: nat)
    requires n > 0 && 0.0 <= p <= 1.0
    ensures k < n
  {
    assert n as real * p >= 0.0;
    Min(n - 1, (n as real * p).Floor)
  }

  function CountIf(s: seq<real>, p: real -> bool): nat {
    if s == [] then 0 else CountIf(s[1..], p) + if p(s[0]) then 1 else 0
  }

  lemma {:induction false} CountAtMost(s: seq<real>, p: real -> bool, lo: nat, hi: nat)
    requires lo <= hi <= |s| && forall i :: 0 <= i < |s| && p(s[i]) ==> lo <= i < hi
    ensures CountIf(s, p) <= hi - lo
  {
    if s != [] {
      var tail := s[1..];
      assert forall i :: 0 <= i < |tail| ==> tail[i] == s[i + 1];
      if lo > 0 {
        CountAtMost(tail, p, lo - 1, hi - 1);
      } else if hi > 0 {
        CountAtMost(tail, p, 0, hi - 1);
      } else {
        CountAtMost(tail, p, 0, 0);
      }
    }
  }

  lemma {:induction false} CountInsert(x: real, s: seq<real>, p: real -> bool)
    ensures CountIf(InsertReal(x, s), p) == CountIf(s, p) + if p(x) then 1 else 0
  {
    if s == [] || x < s[0] {
      assert ([x] + s)[1..] == s;
    } else {
      var r := InsertReal(x, s);
      assert r[1..] == InsertReal(x, s[1..]);
      CountInsert(x, s[1..], p);
    }
  }

  lemma {:induction false} CountSnoc(s: seq<real>, x: real, p: real -> bool)
    ensures CountIf(s + [x], p) == CountIf(s, p) + if p(x) then 1 else 0
  {
    if s == [] {
      assert [] + [x] == [x] && [x][1..] == [];
    } else {
      assert (s + [x])[1..] == s[1..] + [x];
      CountSnoc(s[1..], x, p);
    }
  }

  lemma {:induction false} CountAscending(s: seq<real>, p: real -> bool)
    ensures CountIf(Ascending(s), p) == CountIf(s, p)
  {
    if s != [] {
      var init, last := s[..|s| - 1], s[|s| - 1];
      CountAscending(init, p);
      CountInsert(last, Ascending(init), p);
      CountSnoc(init, last, p);
      assert s == init + [last];
    }
  }

  /** `v` is one of the values; at most `k` values are smaller, at most `n - 1 - k` larger. */
  predicate SplitsAt(v: real, values: seq<real>, k: nat) {
    && v in values
    && CountIf(values, x => x < v) <= k
    && CountIf(values, x => x > v) <= |values| - 1 - k
  }

  /** The percentile is the value that splits the others at its rank. */
  lemma {:induction false} PercentileSplits(values: seq<real>, p: real)
    requires values != [] && 0.0 <= p <= 1.0
    ensures SplitsAt(Percentile(values, p), values, Rank(|values|, p))
  {
    var sorted, k := Ascending(values), Rank(|values|, p);
    var v := sorted[k];
    AscendingFacts(values);
    assert v in multiset(sorted);
    CountAscending(values, x => x < v);
    CountAscending(values, x => x > v);
    RankSplits(sorted, k);
  }

  lemma RankSplits(sorted: seq<real>, k: nat)
    requires IsAscending(sorted) && k < |sorted|
    ensures CountIf(sorted, x => x < sorted[k]) <= k
    ensures CountIf(sorted, x => x > sorted[k]) <= |sorted| - 1 - k
  {
    CountAtMost(sorted, x => x < sorted[k], 0, k);
    CountAtMost(sorted, x => x > sorted[k], k + 1, |sorted|);
  }

  lemma {:induction false} CountCovers(s: seq<real>, p: real -> bool, q: real -> bool)
    requires forall x :: p(x) || q(x)
    ensures CountIf(s, p) + CountIf(s, q) >= |s|
  {
    if s != [] {
      CountCovers(s[1..], p, q);
    }
  }

  /** Only one value splits the others at a rank. */
  lemma {:induction false} SplitIsUnique(v: real, w: real, values: seq<real>, k: nat)
    requires SplitsAt(v, values, k) && SplitsAt(w, values, k)
    ensures v == w
  {
    if v < w {
      CountCovers(values, x => x < w, x => x > v);
    } else if w < v {
      CountCovers(values, x => x < v, x => x > w);
    }
  }

  // ----- histogram

  function Bucket(d: real, histMax: nat, n: nat): (i: nat)
    requires histMax > 0 && n > 0
    ensures i < n
  {
    Min(n - 1, Max(0, (d / histMax as real * n as real).Floor))
  }

  function Sum(s: seq<nat>): nat {
    if s == [] then 0 else Sum(s[..|s| - 1]) + s[|s| - 1]
  }

  lemma {:induction false} SumZero(s: seq<nat>)
    requires forall i :: 0 <= i < |s| ==> s[i] == 0
    ensures Sum(s) == 0
  {
    if s != [] {
      SumZero(s[..|s| - 1]);
    }
  }

  lemma {:induction false} SumBump(s: seq<nat>, i: nat)
    requires i < |s|
    ensures Sum(s[i := s[i] + 1]) == Sum(s) + 1
  {
    var n := |s| - 1;
    if i < n {
      assert s[i := s[i] + 1][..n] == s[..n][i := s[i] + 1];
      SumBump(s[..n], i);
    } else {
      assert s[i := s[i] + 1][..n] == s[..n];
    }
  }

  /** Each step is counted in exactly one bucket, and the number of buckets never changes. */
  method Histogram(deltas: seq<real>, histMax: nat, buckets: nat) returns (out: seq<nat>)
    ensures |out| == Max(1, buckets)
    ensures histMax > 0 ==> Sum(out) == |deltas|
    ensures histMax > 0 ==> forall i :: 0 <= i < |out| ==> out[i] == InBucket(deltas, histMax, |out|, i)
    ensures histMax == 0 ==> Sum(out) == 0
  {
    out := seq(Max(1, buckets), i => 0);
    SumZero(out);
    if histMax == 0 { return; }
    var n := |out|;
    for k := 0 to |deltas|
      invariant |out| == n && Sum(out) == k
      invariant forall i :: 0 <= i < n ==> out[i] == InBucket(deltas[..k], histMax, n, i)
    {
      assert deltas[..k + 1][..k] == deltas[..k];
      var idx := Bucket(deltas[k], histMax, n);
      SumBump(out, idx);
      out := out[idx := out[idx] + 1];
    }
    assert deltas[..|deltas|] == deltas;
  }

  function InBucket(deltas: seq<real>, histMax: nat, n: nat, i: nat): nat
    requires histMax > 0 && n > 0
  {
    if deltas == [] then 0
    else
      InBucket(deltas[..|deltas| - 1], histMax, n, i)
      + if Bucket(deltas[|deltas| - 1], histMax, n) == i then 1 else 0
  }

  // ----- the tracker

  function Round2(v: real): real {
    (v * 100.0 + 0.5).Floor as real / 100.0
  }

  /** `x` is the multiple of a hundredth nearest to `v`, the upper one of two. */
  ghost predicate Nearest(x: real, v: real) {
    (x * 100.0).Floor as real == x * 100.0 && x - 0.005 <= v < x + 0.005
  }

  lemma Round2Nearest(v: real)
    ensures Nearest(Round2(v), v)
  {
    var m := (v * 100.0 + 0.5).Floor;
    assert Round2(v) == m as real / 100.0;
  }

  /** `x` is the 95th percentile of the ring's steps, to the hundredth. */
  ghost predicate IsJitter(x: real, ring: seq<real>)
    requires |ring| >= 2
  {
    var steps := AbsDeltas(ring);
    exists v :: SplitsAt(v, steps, Rank(|steps|, 0.95)) && Nearest(x, v)
  }

  /** There is one such number. */
  lemma JitterIsUnique(x: real, y: real, ring: seq<real>)
    requires |ring| >= 2 && IsJitter(x, ring) && IsJitter(y, ring)
    ensures x == y
  {
    var steps := AbsDeltas(ring);
    var k := Rank(|steps|, 0.95);
    var v :| SplitsAt(v, steps, k) && Nearest(x, v);
    var w :| SplitsAt(w, steps, k) && Nearest(y, w);
    SplitIsUnique(v, w, steps, k);
    assert -1 < (x * 100.0).Floor - (y * 100.0).Floor < 1;
  }

  /** The samples a jitter of at least `need` steps takes. */
  function Enough(th: Thresholds, need: nat): nat {
    Max(2, Max(th.minSamples, need) + 1)
  }

  /** The jitter of a ring: absent below two samples or `minSamples` steps. */
  function JitterOf(ring: seq<real>, th: Thresholds): Option<real> {
    var deltas := AbsDeltas(ring);
    if |ring| < 2 || |deltas| < th.minSamples then None else Some(Round2(Percentile(deltas, 0.95)))
  }

  /** What `orderByJitter` and `pickJitterTarget` look up: a jitter from at least `need` steps. */
  function Known(rings: map<string, seq<real>>, th: Thresholds, need: nat): string -> Option<real> {
    url => if url in rings && |AbsDeltas(rings[url])| >= need then JitterOf(rings[url], th) else None
  }

  /** Exactly the urls with enough samples are measured, each by the percentile of its steps. */
  lemma KnownMeans(rings: map<string, seq<real>>, th: Thresholds, need: nat, url: string)
    ensures var j := Known(rings, th, need);
            && (j(url).Some? <==> url in rings && |rings[url]| >= Enough(th, need))
            && (j(url).Some? ==> IsJitter(j(url).value, rings[url]))
  {
    if url in rings && |rings[url]| >= 2 {
      var steps := AbsDeltas(rings[url]);
      PercentileSplits(steps, 0.95);
      Round2Nearest(Percentile(steps, 0.95));
    }
  }

  function LastOf(s: seq<real>, n: nat): seq<real> {
    if |s| > n then s[|s| - n..] else s
  }

  lemma LastOfPush(all: seq<real>, x: real, n: nat)
    requires n > 0
    ensures LastOf(LastOf(all, n) + [x], n) == LastOf(all + [x], n)
  {}

  method Push(ring: seq<real>, x: real, max: nat) returns (pushed: seq<real>)
    ensures pushed == LastOf(ring + [x], max)
  {
    pushed := ring + [x];
    if |pushed| > max { pushed := pushed[|pushed| - max..]; }
  }

  class JitterTracker {
    const th: Thresholds
    var rings: map<string, seq<real>>
    ghost var fed: map<string, seq<real>>       // everything ever accepted, per url

    /** A ring holds the newest samples of its url, at least two if that many came. */
    ghost predicate Valid()
      reads this
    {
      && fed.Keys == rings.Keys
      && forall url :: url in rings ==> rings[url] == LastOf(fed[url], Max(2, th.sampleMax))
    }

    constructor (th: Thresholds)
      ensures this.th == th && Valid() && rings == map[] && fed == map[]
    {
      this.th := th;
      rings, fed := map[], map[];
    }

    /** A round-trip time that is not finite is no `real` and is dropped by the caller's check. */
    method Record(url: string, rttMs: real) returns (taken: bool)
      requires Valid()
      modifies this
      ensures Valid() && taken == (th.enabled && url != "" && rttMs >= 0.0)
      ensures !taken ==> rings == old(rings) && fed == old(fed)
      ensures taken ==> fed == old(fed)[url := (if url in old(fed) then old(fed)[url] else []) + [rttMs]]
    {
      if !th.enabled { return false; }
      if url == "" || rttMs < 0.0 { return false; }
      var max := Max(2, th.sampleMax);
      ghost var all := if url in fed then fed[url] else [];
      LastOfPush(all, rttMs, max);
      var ring := if url in rings then rings[url] else [];
      ring := Push(ring, rttMs, max);
      rings, fed := rings[url := ring], fed[url := all + [rttMs]];
      taken := true;
    }

    method JitterMs(url: string) returns (jitter: Option<real>)
      ensures jitter.Some? <==> url in rings && |rings[url]| >= Enough(th, 0)
      ensures jitter.Some? ==> IsJitter(jitter.value, rings[url])
    {
      KnownMeans(rings, th, 0, url);
      if url !in rings || |rings[url]| < 2 { return None; }
      var deltas := ComputeAbsDeltas(rings[url]);
      if |deltas| < th.minSamples { return None; }
      jitter := Some(Round2(Percentile(deltas, 0.95)));
    }

    /** `orderByJitter`: by the tracker's own jitters, without loss and stable; untouched if switched off. */
    method OrderUrls(urls: seq<string>, minSamples: Option<nat>) returns (ordered: seq<string>)
      ensures !th.enabled ==> ordered == urls
      ensures th.enabled ==>
                var j := Known(rings, th, if minSamples.Some? then minSamples.value else th.minSamples);
                Sorted(ordered, j) && SameClasses(ordered, urls, j) && multiset(ordered) == multiset(urls)
    {
      var need := if minSamples.Some? then minSamples.value else th.minSamples;
      var j := Known(rings, th, need);
      ordered := OrderByJitter(urls, th.enabled, j);
      if th.enabled {
        OrderIsSorted(urls, j);
        OrderIsPermutation(urls, j);
        forall c ensures ClassOf(ordered, j, c) == ClassOf(urls, j, c) { OrderIsStable(urls, j, c); }
      }
    }

    /** `pickJitterTarget` by the tracker's own jitters: the first eligible url of the ordered list. */
    method PickTarget(urls: seq<string>, minSamples: Option<nat>, cur: string, curJitter: real, switchMs: real,
                      blocked: set<string>) returns (best: Option<string>)
      ensures var j := Known(rings, th, if minSamples.Some? then minSamples.value else th.minSamples);
              best == if !th.enabled || curJitter < switchMs then None
                      else FirstEligible(Order(urls, j), j, cur, curJitter, blocked)
    {
      var need := if minSamples.Some? then minSamples.value else th.minSamples;
      var j := Known(rings, th, need);
      best := PickJitterTarget(urls, th.enabled, j, cur, curJitter, switchMs, blocked);
      PickAgreesWithOrder(urls, j, cur, curJitter, blocked);
    }

    method Reset()
      requires Valid()
      modifies this
      ensures Valid() && rings == map[]
    {
      rings, fed := map[], map[];
    }
  }

  // ----- ordering candidates

  type Measure = string -> Option<real>

  datatype Entry = Entry(url: string, jitter: real, idx: nat)

  /** The measured candidates, each occurrence with its position. */
  function Measured(urls: seq<string>, j: Measure): seq<Entry> {
    if urls == [] then []
    else
      var n := |urls| - 1;
      Measured(urls[..n], j) + if j(urls[n]).Some? then [Entry(urls[n], j(urls[n]).value, n)] else []
  }

  predicate Before(a: Entry, b: Entry) {
    a.jitter < b.jitter || (a.jitter == b.jitter && a.idx < b.idx)
  }

  function InsertEntry(x: Entry, s: seq<Entry>): seq<Entry> {
    if s == [] || Before(x, s[0]) then [x] + s else [s[0]] + InsertEntry(x, s[1..])
  }

  /** Sorted by jitter, then by position. */
  function SortEntries(s: seq<Entry>): seq<Entry> {
    if s == [] then [] else InsertEntry(s[|s| - 1], SortEntries(s[..|s| - 1]))
  }

  function Urls(s: seq<Entry>): seq<string> {
    seq(|s|, i requires 0 <= i < |s| => s[i].url)
  }

  /** The candidates of one class: of one jitter, or not measured. */
  function ClassOf(urls: seq<string>, j: Measure, c: Option<real>): seq<string> {
    if urls == [] then []
    else ClassOf(urls[..|urls| - 1], j, c) + if j(urls[|urls| - 1]) == c then [urls[|urls| - 1]] else []
  }

  function Order(urls: seq<string>, j: Measure): seq<string> {
    if |urls| < 2 then urls
    else
      var known := Measured(urls, j);
      if known == [] then urls else Urls(SortEntries(known)) + ClassOf(urls, j, None)
  }

  /** `orderByJitter`; without a tracker, or with it switched off, the candidates stay as they are. */
  method OrderByJitter(urls: seq<string>, enabled: bool, j: Measure) returns (ordered: seq<string>)
    ensures ordered == if enabled then Order(urls, j) else urls
  {
    if !enabled || |urls| < 2 { return urls; }
    var known: seq<Entry> := [];
    for i := 0 to |urls|
      invariant known == Measured(urls[..i], j)
    {
      assert urls[..i + 1][..i] == urls[..i];
      var m := j(urls[i]);
      if m.None? { continue; }
      known := known + [Entry(urls[i], m.value, i)];
    }
    assert urls[..|urls|] == urls;
    if |known| == 0 { return urls; }
    known := SortEntries(known);
    var rest: seq<string> := [];
    for i := 0 to |urls|
      invariant rest == ClassOf(urls[..i], j, None)
    {
      assert urls[..i + 1][..i] == urls[..i];
      if j(urls[i]).None? { rest := rest + [urls[i]]; }
    }
    ordered := Urls(known) + rest;
  }

  lemma {:induction false} ClassSplit(a: seq<string>, b: seq<string>, j: Measure, c: Option<real>)
    ensures ClassOf(a + b, j, c) == ClassOf(a, j, c) + ClassOf(b, j, c)
  {
    if b == [] {
      assert a + b == a;
    } else {
      assert (a + b)[..|a + b| - 1] == a + b[..|b| - 1];
      ClassSplit(a, b[..|b| - 1], j, c);
    }
  }

  ghost predicate Faithful(s: seq<Entry>, j: Measure) {
    forall k :: k in s ==> j(k.url) == Some(k.jitter)
  }

  /** Sorted by `Before`, which is a strict order on entries of different positions. */
  predicate SortedEntries(s: seq<Entry>) {
    forall i, k :: 0 <= i < k < |s| ==> Before(s[i], s[k])
  }

  lemma {:induction false} InsertEntryFacts(x: Entry, s: seq<Entry>)
    ensures forall k :: k in InsertEntry(x, s) <==> k == x || k in s
  {
    if s != [] && !Before(x, s[0]) {
      InsertEntryFacts(x, s[1..]);
      assert s == [s[0]] + s[1..];
    }
  }

  lemma {:induction false} InsertEntrySorted(x: Entry, s: seq<Entry>)
    requires SortedEntries(s) && forall k :: k in s ==> k.idx < x.idx
    ensures SortedEntries(InsertEntry(x, s))
  {
    if s != [] && !Before(x, s[0]) {
      var r := InsertEntry(x, s[1..]);
      InsertEntrySorted(x, s[1..]);
      InsertEntryFacts(x, s[1..]);
      forall k | 0 <= k < |r|
        ensures Before(s[0], r[k])
      {
        assert r[k] in r && s[0] in s;
      }
    } else if s != [] {
      assert forall k :: 0 <= k < |s| ==> Before(x, s[k]);
    }
  }

  /** Inserting the latest entry puts it last of its class. */
  lemma {:induction false} InsertEntryClass(x: Entry, s: seq<Entry>, j: Measure, c: Option<real>)
    requires SortedEntries(s) && (forall k :: k in s ==> k.idx < x.idx) && Faithful(s, j) && j(x.url) == Some(x.jitter)
    ensures ClassOf(Urls(InsertEntry(x, s)), j, c) == ClassOf(Urls(s), j, c) + ClassOf([x.url], j, c)
  {
    if s == [] || Before(x, s[0]) {
      InsertedFirst(x, s, j, c);
    } else {
      var first, rest := s[0], s[1..];
      assert s == [first] + rest;
      InsertEntryClass(x, rest, j, c);
      InsertedLater(first, rest, InsertEntry(x, rest), ClassOf([x.url], j, c), j, c);
    }
  }

  lemma InsertedFirst(x: Entry, s: seq<Entry>, j: Measure, c: Option<real>)
    requires SortedEntries(s) && (forall k :: k in s ==> k.idx < x.idx) && Faithful(s, j) && j(x.url) == Some(x.jitter)
    requires s == [] || Before(x, s[0])
    ensures ClassOf(Urls([x] + s), j, c) == ClassOf(Urls(s), j, c) + ClassOf([x.url], j, c)
  {
    ClassCons(x, s, j, c);
    OneClass(x.url, j, c);
    if c == Some(x.jitter) {
      ClassAbove(s, j, x.jitter, x.idx);
    }
  }

  lemma InsertedLater(first: Entry, rest: seq<Entry>, more: seq<Entry>, added: seq<string>, j: Measure, c: Option<real>)
    requires ClassOf(Urls(more), j, c) == ClassOf(Urls(rest), j, c) + added
    ensures ClassOf(Urls([first] + more), j, c) == ClassOf(Urls([first] + rest), j, c) + added
  {
    ClassCons(first, more, j, c);
    ClassCons(first, rest, j, c);
  }

  lemma ClassCons(x: Entry, s: seq<Entry>, j: Measure, c: Option<real>)
    ensures ClassOf(Urls([x] + s), j, c) == ClassOf([x.url], j, c) + ClassOf(Urls(s), j, c)
  {
    assert Urls([x] + s) == [x.url] + Urls(s);
    ClassSplit([x.url], Urls(s), j, c);
  }

  lemma OneClass(url: string, j: Measure, c: Option<real>)
    ensures ClassOf([url], j, c) == if j(url) == c then [url] else []
  {
    assert [url][..0] == [];
  }

  lemma {:induction false} ClassAbove(s: seq<Entry>, j: Measure, jitter: real, idx: nat)
    requires SortedEntries(s) && Faithful(s, j)
    requires s != [] ==> jitter < s[0].jitter || (jitter == s[0].jitter && idx < s[0].idx)
    requires forall k :: k in s ==> k.idx < idx
    ensures ClassOf(Urls(s), j, Some(jitter)) == []
  {
    if s != [] {
      assert s[0] in s;
      assert forall k :: 0 <= k < |s| ==> s[k].jitter > jitter;
      NoneInClass(Urls(s), j, Some(jitter));
    }
  }

  lemma {:induction false} NoneInClass(urls: seq<string>, j: Measure, c: Option<real>)
    requires forall i :: 0 <= i < |urls| ==> j(urls[i]) != c
    ensures ClassOf(urls, j, c) == []
  {
    if urls != [] {
      NoneInClass(urls[..|urls| - 1], j, c);
    }
  }

  /** Sorting the measured candidates keeps every class as it was. */
  lemma {:induction false} SortKeepsClasses(urls: seq<string>, j: Measure, c: Option<real>)
    requires c.Some?
    ensures var sorted := SortEntries(Measured(urls, j));
            && SortedEntries(sorted) && Faithful(sorted, j)
            && (forall k :: k in sorted ==> k.idx < |urls|)
            && ClassOf(Urls(sorted), j, c) == ClassOf(urls, j, c)
  {
    if urls != [] {
      var n := |urls| - 1;
      SortKeepsClasses(urls[..n], j, c);
      if j(urls[n]).Some? {
        var x, s := Entry(urls[n], j(urls[n]).value, n), SortEntries(Measured(urls[..n], j));
        assert Measured(urls, j)[..|Measured(urls, j)| - 1] == Measured(urls[..n], j);
        InsertEntrySorted(x, s);
        InsertEntryFacts(x, s);
        InsertEntryClass(x, s, j, c);
        OneClass(urls[n], j, c);
        assert forall k :: k in InsertEntry(x, s) ==> j(k.url) == Some(k.jitter);
      } else {
        assert Measured(urls, j) == Measured(urls[..n], j);
      }
    }
  }

  // ----- what the ordering promises

  /** Measured before unmeasured, and measured ones by ascending jitter. */
  predicate Ranked(a: string, b: string, j: Measure) {
    if j(a).Some? then j(b).Some? ==> j(a).value <= j(b).value else j(b).None?
  }

  predicate Sorted(urls: seq<string>, j: Measure) {
    forall i, k :: 0 <= i < k < |urls| ==> Ranked(urls[i], urls[k], j)
  }

  lemma {:induction false} UnmeasuredFacts(urls: seq<string>, j: Measure)
    ensures forall u :: u in ClassOf(urls, j, None) <==> u in urls && j(u).None?
  {
    if urls != [] {
      UnmeasuredFacts(urls[..|urls| - 1], j);
      assert urls == urls[..|urls| - 1] + [urls[|urls| - 1]];
    }
  }

  lemma {:induction false} AllUnmeasured(urls: seq<string>, j: Measure)
    requires Measured(urls, j) == []
    ensures forall u :: u in urls ==> j(u).None?
  {
    if urls != [] {
      AllUnmeasured(urls[..|urls| - 1], j);
      assert urls == urls[..|urls| - 1] + [urls[|urls| - 1]];
    }
  }

  lemma {:induction false} ClassOfClass(urls: seq<string>, j: Measure, c: Option<real>)
    ensures ClassOf(ClassOf(urls, j, None), j, c) == if c.None? then ClassOf(urls, j, None) else []
  {
    UnmeasuredFacts(urls, j);
    var s := ClassOf(urls, j, None);
    if c.Some? {
      forall i | 0 <= i < |s| ensures j(s[i]) != c { assert s[i] in s; }
      NoneInClass(s, j, c);
    } else {
      forall i | 0 <= i < |s| ensures j(s[i]) == c { assert s[i] in s; }
      AllInClass(s, j, c);
    }
  }

  lemma {:induction false} AllInClass(urls: seq<string>, j: Measure, c: Option<real>)
    requires forall i :: 0 <= i < |urls| ==> j(urls[i]) == c
    ensures ClassOf(urls, j, c) == urls
  {
    if urls != [] {
      AllInClass(urls[..|urls| - 1], j, c);
      assert urls == urls[..|urls| - 1] + [urls[|urls| - 1]];
    }
  }

  /**
   Ordering loses and adds nothing and is stable: the candidates of each jitter, and those not
   measured, come out in the order they came in.
   */
  lemma {:induction false} OrderIsStable(urls: seq<string>, j: Measure, c: Option<real>)
    ensures ClassOf(Order(urls, j), j, c) == ClassOf(urls, j, c)
  {
    if |urls| >= 2 && Measured(urls, j) != [] {
      var sorted, rest := SortEntries(Measured(urls, j)), ClassOf(urls, j, None);
      ClassSplit(Urls(sorted), rest, j, c);
      ClassOfClass(urls, j, c);
      if c.Some? {
        SortKeepsClasses(urls, j, c);
      } else {
        SortKeepsClasses(urls, j, Some(0.0));
        forall i | 0 <= i < |sorted| ensures j(Urls(sorted)[i]) != c { assert sorted[i] in sorted; }
        NoneInClass(Urls(sorted), j, c);
      }
    }
  }

  /** Measured candidates come first, by ascending jitter. */
  lemma OrderIsSorted(urls: seq<string>, j: Measure)
    ensures Sorted(Order(urls, j), j)
  {
    var known := Measured(urls, j);
    if known == [] {
      AllUnmeasured(urls, j);
      assert forall i :: 0 <= i < |urls| ==> urls[i] in urls;
    } else if |urls| >= 2 {
      SortKeepsClasses(urls, j, Some(0.0));
      UnmeasuredFacts(urls, j);
      SortedJoin(SortEntries(known), ClassOf(urls, j, None), j);
    }
  }

  lemma SortedJoin(sorted: seq<Entry>, rest: seq<string>, j: Measure)
    requires SortedEntries(sorted) && Faithful(sorted, j) && forall u :: u in rest ==> j(u).None?
    ensures Sorted(Urls(sorted) + rest, j)
  {
    var all := Urls(sorted) + rest;
    forall i | 0 <= i < |sorted| ensures j(all[i]) == Some(sorted[i].jitter) { assert sorted[i] in sorted; }
    forall i | |sorted| <= i < |all| ensures j(all[i]).None? { assert rest[i - |sorted|] in rest; }
  }

  /** With nothing measured the candidates come out as they went in. */
  lemma NothingMeasuredNothingMoves(urls: seq<string>, j: Measure)
    requires forall u :: u in urls ==> j(u).None?
    ensures Order(urls, j) == urls
  {
    NothingMeasured(urls, j);
  }

  lemma {:induction false} NothingMeasured(urls: seq<string>, j: Measure)
    requires forall u :: u in urls ==> j(u).None?
    ensures Measured(urls, j) == []
  {
    if urls != [] {
      assert urls == urls[..|urls| - 1] + [urls[|urls| - 1]];
      NothingMeasured(urls[..|urls| - 1], j);
    }
  }

  lemma {:induction false} ClassCount(urls: seq<string>, j: Measure, u: string)
    ensures multiset(ClassOf(urls, j, j(u)))[u] == multiset(urls)[u]
  {
    if urls != [] {
      var init, last := urls[..|urls| - 1], urls[|urls| - 1];
      ClassCount(init, j, u);
      assert urls == init + [last];
    }
  }

  /** The result is a permutation. */
  lemma OrderIsPermutation(urls: seq<string>, j: Measure)
    ensures multiset(Order(urls, j)) == multiset(urls)
  {
    forall u
      ensures multiset(Order(urls, j))[u] == multiset(urls)[u]
    {
      OrderIsStable(urls, j, j(u));
      ClassCount(urls, j, u);
      ClassCount(Order(urls, j), j, u);
    }
  }

  /** The first element of a class, if the list starts with it. */
  lemma {:induction false} ClassHead(urls: seq<string>, j: Measure)
    requires urls != []
    ensures ClassOf(urls, j, j(urls[0])) == [urls[0]] + ClassOf(urls[1..], j, j(urls[0]))
  {
    assert urls == [urls[0]] + urls[1..];
    ClassSplit([urls[0]], urls[1..], j, j(urls[0]));
    OneClass(urls[0], j, j(urls[0]));
  }

  lemma {:induction false} ClassTail(urls: seq<string>, j: Measure, c: Option<real>)
    requires urls != []
    ensures ClassOf(urls, j, c) == ClassOf([urls[0]], j, c) + ClassOf(urls[1..], j, c)
  {
    assert urls == [urls[0]] + urls[1..];
    ClassSplit([urls[0]], urls[1..], j, c);
  }

  ghost predicate SameClasses(a: seq<string>, b: seq<string>, j: Measure) {
    forall c :: ClassOf(a, j, c) == ClassOf(b, j, c)
  }

  lemma HeadIsInItsClass(urls: seq<string>, j: Measure)
    ensures urls != [] ==> ClassOf(urls, j, j(urls[0])) != []
  {
    if urls != [] {
      ClassHead(urls, j);
    }
  }

  /** There is only one stable ordering: sorted lists with the same classes are the same list. */
  lemma {:induction false} StableOrderIsUnique(a: seq<string>, b: seq<string>, j: Measure)
    requires Sorted(a, j) && Sorted(b, j) && SameClasses(a, b, j)
    ensures a == b
    decreases |a|
  {
    if a == [] {
      HeadIsInItsClass(b, j);
    } else {
      ClassHead(a, j);
      assert ClassOf(a, j, j(a[0])) == ClassOf(b, j, j(a[0]));
      SameHead(a, b, j);
      forall c
        ensures ClassOf(a[1..], j, c) == ClassOf(b[1..], j, c)
      {
        ClassTail(a, j, c);
        ClassTail(b, j, c);
        assert ClassOf(a, j, c) == ClassOf(b, j, c);
        var head := ClassOf([a[0]], j, c);
        assert ClassOf(a[1..], j, c) == (head + ClassOf(a[1..], j, c))[|head|..];
        assert ClassOf(b[1..], j, c) == (head + ClassOf(b[1..], j, c))[|head|..];
      }
      StableOrderIsUnique(a[1..], b[1..], j);
    }
  }

  lemma {:induction false} InClass(urls: seq<string>, j: Measure, c: Option<real>, u: string)
    ensures u in ClassOf(urls, j, c) <==> u in urls && j(u) == c
  {
    if urls != [] {
      InClass(urls[..|urls| - 1], j, c, u);
      assert urls == urls[..|urls| - 1] + [urls[|urls| - 1]];
    }
  }

  lemma SameHead(a: seq<string>, b: seq<string>, j: Measure)
    requires a != [] && Sorted(a, j) && Sorted(b, j) && SameClasses(a, b, j)
    ensures b != [] && a[0] == b[0]
  {
    assert ClassOf(a, j, j(a[0])) == ClassOf(b, j, j(a[0]));
    InClass(a, j, j(a[0]), a[0]);
    InClass(b, j, j(a[0]), a[0]);
    assert ClassOf(a, j, j(b[0])) == ClassOf(b, j, j(b[0]));
    InClass(a, j, j(b[0]), b[0]);
    InClass(b, j, j(b[0]), b[0]);
    assert j(a[0]) == j(b[0]);
    ClassHead(a, j);
    ClassHead(b, j);
    assert a[0] == ClassOf(a, j, j(a[0]))[0] == ClassOf(b, j, j(b[0]))[0] == b[0];
  }

  // ----- choosing a better path

  /** Whether a candidate may be switched to. */
  predicate Eligible(u: string, j: Measure, cur: string, curJitter: real, blocked: set<string>) {
    u != cur && u !in blocked && j(u).Some? && j(u).value < curJitter
  }

  function FirstEligible(urls: seq<string>, j: Measure, cur: string, curJitter: real,
                         blocked: set<string>): Option<string>
  {
    if urls == [] then None
    else
      var before := FirstEligible(urls[..|urls| - 1], j, cur, curJitter, blocked);
      var last := urls[|urls| - 1];
      if before.Some? then before else if Eligible(last, j, cur, curJitter, blocked) then Some(last) else None
  }

  function Best(urls: seq<string>, j: Measure, cur: string, curJitter: real, blocked: set<string>): (r: Option<string>)
    ensures r.Some? ==> Eligible(r.value, j, cur, curJitter, blocked)
  {
    if urls == [] then None
    else
      var before := Best(urls[..|urls| - 1], j, cur, curJitter, blocked);
      var last := urls[|urls| - 1];
      if !Eligible(last, j, cur, curJitter, blocked) then before
      else if before.None? || j(last).value < j(before.value).value then Some(last) else before
  }

  method PickJitterTarget(urls: seq<string>, enabled: bool, j: Measure, cur: string, curJitter: real, switchMs: real,
                          blocked: set<string>) returns (best: Option<string>)
    ensures best == if !enabled || curJitter < switchMs then None else Best(urls, j, cur, curJitter, blocked)
  {
    if !enabled { return None; }
    if curJitter < switchMs { return None; }
    best := None;
    for i := 0 to |urls|
      invariant best == Best(urls[..i], j, cur, curJitter, blocked)
    {
      assert urls[..i + 1][..i] == urls[..i];
      var url := urls[i];
      if url == cur { continue; }
      if url in blocked { continue; }
      var m := j(url);
      if m.None? { continue; }
      if m.value >= curJitter { continue; }
      if best.None? || m.value < j(best.value).value { best := Some(url); }
    }
    assert urls[..|urls|] == urls;
  }

  lemma {:induction false} FirstIs(urls: seq<string>, j: Measure, cur: string, curJitter: real, blocked: set<string>,
                                   c: Option<real>)
    ensures var f := FirstEligible(urls, j, cur, curJitter, blocked);
            && (f.Some? ==> f.value in urls && Eligible(f.value, j, cur, curJitter, blocked))
            && (f.None? ==> forall u :: u in urls ==> !Eligible(u, j, cur, curJitter, blocked))
            && (f.Some? && j(f.value) == c ==> FirstEligible(ClassOf(urls, j, c), j, cur, curJitter, blocked) == f)
            && (f.None? ==> FirstEligible(ClassOf(urls, j, c), j, cur, curJitter, blocked) == None)
  {
    if urls != [] {
      var init, last := urls[..|urls| - 1], urls[|urls| - 1];
      FirstIs(init, j, cur, curJitter, blocked, c);
      assert urls == init + [last];
      FirstSnoc(ClassOf(init, j, c), last, j, cur, curJitter, blocked);
    }
  }

  lemma FirstSnoc(s: seq<string>, u: string, j: Measure, cur: string, curJitter: real, blocked: set<string>)
    ensures FirstEligible(s + [u], j, cur, curJitter, blocked)
            == var before := FirstEligible(s, j, cur, curJitter, blocked);
               if before.Some? then before else if Eligible(u, j, cur, curJitter, blocked) then Some(u) else None
    ensures s + [] == s
  {
    assert (s + [u])[..|s + [u]| - 1] == s;
  }

  /** In a sorted list the first eligible candidate has the least jitter of all. */
  lemma {:induction false} FirstIsLeast(urls: seq<string>, j: Measure, cur: string, curJitter: real,
                                        blocked: set<string>, u: string)
    requires Sorted(urls, j) && u in urls && Eligible(u, j, cur, curJitter, blocked)
    ensures var f := FirstEligible(urls, j, cur, curJitter, blocked);
            f.Some? && j(f.value).Some? && j(f.value).value <= j(u).value
  {
    var init, last := urls[..|urls| - 1], urls[|urls| - 1];
    FirstIs(init, j, cur, curJitter, blocked, None);
    if u in init {
      FirstIsLeast(init, j, cur, curJitter, blocked, u);
    } else if FirstEligible(init, j, cur, curJitter, blocked).Some? {
      var f := FirstEligible(init, j, cur, curJitter, blocked).value;
      var i :| 0 <= i < |init| && init[i] == f;
      assert Ranked(urls[i], last, j);
    }
  }

  /** The best candidate has the least jitter, and is the first eligible one of its class. */
  lemma {:induction false} BestIs(urls: seq<string>, j: Measure, cur: string, curJitter: real, blocked: set<string>)
    ensures var b := Best(urls, j, cur, curJitter, blocked);
            && (b.None? ==> forall u :: u in urls ==> !Eligible(u, j, cur, curJitter, blocked))
            && (b.Some? ==>
                  b.value in urls &&
                  (forall u :: u in urls && Eligible(u, j, cur, curJitter, blocked) ==> j(b.value).value <= j(u).value))
  {
    if urls != [] {
      BestIs(urls[..|urls| - 1], j, cur, curJitter, blocked);
      assert urls == urls[..|urls| - 1] + [urls[|urls| - 1]];
    }
  }

  lemma {:induction false} BestIsFirstOfClass(urls: seq<string>, j: Measure, cur: string, curJitter: real,
                                              blocked: set<string>)
    ensures var b := Best(urls, j, cur, curJitter, blocked);
            b.Some? ==> FirstEligible(ClassOf(urls, j, j(b.value)), j, cur, curJitter, blocked) == b
  {
    var b := Best(urls, j, cur, curJitter, blocked);
    if urls != [] && b.Some? {
      var init, last := urls[..|urls| - 1], urls[|urls| - 1];
      BestIsFirstOfClass(init, j, cur, curJitter, blocked);
      BestIs(init, j, cur, curJitter, blocked);
      var c := j(b.value);
      FirstSnoc(ClassOf(init, j, c), last, j, cur, curJitter, blocked);
      if Best(init, j, cur, curJitter, blocked) != b {
        NoneEligibleInClass(init, j, cur, curJitter, blocked, c);
      }
    }
  }

  lemma {:induction false} NoneEligibleInClass(urls: seq<string>, j: Measure, cur: string, curJitter: real,
                                               blocked: set<string>, c: Option<real>)
    requires forall u :: u in urls && Eligible(u, j, cur, curJitter, blocked) ==> j(u) != c
    ensures FirstEligible(ClassOf(urls, j, c), j, cur, curJitter, blocked).None?
  {
    if urls != [] {
      var init, last := urls[..|urls| - 1], urls[|urls| - 1];
      assert urls == init + [last];
      NoneEligibleInClass(init, j, cur, curJitter, blocked, c);
      FirstSnoc(ClassOf(init, j, c), last, j, cur, curJitter, blocked);
    }
  }

  /**
   Choosing agrees with ordering: the pick is the first candidate of the ordered list that is
   measured, not the current one, not blocked and strictly better; there is none exactly when
   no candidate is.
   */
  lemma {:induction false} PickAgreesWithOrder(urls: seq<string>, j: Measure, cur: string, curJitter: real,
                                               blocked: set<string>)
    ensures Best(urls, j, cur, curJitter, blocked) == FirstEligible(Order(urls, j), j, cur, curJitter, blocked)
    ensures Best(urls, j, cur, curJitter, blocked).None?
            <==> forall u :: u in urls ==> !Eligible(u, j, cur, curJitter, blocked)
  {
    var b := Best(urls, j, cur, curJitter, blocked);
    OrderIsPermutation(urls, j);
    SameMembers(Order(urls, j), urls);
    BestIs(urls, j, cur, curJitter, blocked);
    if b.None? {
      FirstIs(Order(urls, j), j, cur, curJitter, blocked, None);
    } else {
      OrderIsSorted(urls, j);
      OrderIsStable(urls, j, j(b.value));
      FirstOfSorted(urls, Order(urls, j), j, cur, curJitter, blocked, b.value);
    }
  }

  lemma FirstOfSorted(urls: seq<string>, ordered: seq<string>, j: Measure, cur: string, curJitter: real,
                      blocked: set<string>, b: string)
    requires Best(urls, j, cur, curJitter, blocked) == Some(b)
    requires Sorted(ordered, j) && (forall u :: u in ordered <==> u in urls) &&
             ClassOf(ordered, j, j(b)) == ClassOf(urls, j, j(b))
    ensures FirstEligible(ordered, j, cur, curJitter, blocked) == Some(b)
  {
    BestIs(urls, j, cur, curJitter, blocked);
    FirstIsLeast(ordered, j, cur, curJitter, blocked, b);
    FirstIs(ordered, j, cur, curJitter, blocked, j(b));
    BestIsFirstOfClass(urls, j, cur, curJitter, blocked);
  }

  lemma SameMembers(a: seq<string>, b: seq<string>)
    requires multiset(a) == multiset(b)
    ensures forall u :: u in a <==> u in b
  {
    assert forall u :: u in a <==> u in multiset(a);
    assert forall u :: u in b <==> u in multiset(b);
  }
}
