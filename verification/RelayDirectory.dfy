/**
 From a signed directory to the chain of relay addresses to try: normalise, drop repeated hosts,
 put the directory's own origin first, order by jitter. `toRelay` and `hostOf` stand for the
 runtime's URL parsing; they may refuse any entry.
 */
module RelayDirectory {
  import opened Basics
  import opened ConfigText
  import Jitter

  datatype Doc = Doc(relays: seq<string>, bootstrap: seq<string>)

  type Parse = string -> Option<string>

  function Entries(doc: Doc): seq<string> {
    doc.relays + doc.bootstrap
  }

  /** The relay address an entry stands for and its host, if it stands for one. */
  function Candidate(entry: string, toRelay: Parse, hostOf: Parse): Option<(string, string)> {
    var url := toRelay(entry);
    if url.None? then None
    else
      var host := hostOf(url.value);
      if host.None? then None else Some((url.value, host.value))
  }

  function Hosts(entries: seq<string>, toRelay: Parse, hostOf: Parse): set<string> {
    if entries == [] then {}
    else
      var c := Candidate(entries[|entries| - 1], toRelay, hostOf);
      Hosts(entries[..|entries| - 1], toRelay, hostOf) + if c.Some? then {c.value.1} else {}
  }

  /** One candidate per host: the first in document order. */
  function Listed(entries: seq<string>, toRelay: Parse, hostOf: Parse): seq<string> {
    if entries == [] then []
    else
      var init, c := entries[..|entries| - 1], Candidate(entries[|entries| - 1], toRelay, hostOf);
      Listed(init, toRelay, hostOf)
      + if c.Some? && c.value.1 !in Hosts(init, toRelay, hostOf) then [c.value.0] else []
  }

  method ListCandidatesFromDoc(doc: Doc, toRelay: Parse, hostOf: Parse) returns (out: seq<string>)
    ensures out == Listed(Entries(doc), toRelay, hostOf)
  {
    out := [];
    var seen: set<string> := {};
    var all := doc.relays + doc.bootstrap;
    for i := 0 to |all|
      invariant out == Listed(all[..i], toRelay, hostOf) && seen == Hosts(all[..i], toRelay, hostOf)
    {
      assert all[..i + 1][..i] == all[..i];
      var url := toRelay(all[i]);
      if url.None? { continue; }
      var key := hostOf(url.value);
      if key.None? { continue; }
      if key.value in seen { continue; }
      seen := seen + {key.value};
      out := out + [url.value];
    }
    assert all[..|all|] == all;
  }

  /** The first entry of a host, as a relay address. */
  function FirstOfHost(entries: seq<string>, host: string, toRelay: Parse, hostOf: Parse): Option<string> {
    if entries == [] then None
    else
      var before := FirstOfHost(entries[..|entries| - 1], host, toRelay, hostOf);
      var c := Candidate(entries[|entries| - 1], toRelay, hostOf);
      if before.Some? then before else if c.Some? && c.value.1 == host then Some(c.value.0) else None
  }

  function SameOrigin(doc: Doc, dirUrl: string, toRelay: Parse, hostOf: Parse): Option<string> {
    var target := hostOf(dirUrl);
    if target.None? then None else FirstOfHost(Entries(doc), target.value, toRelay, hostOf)
  }

  method SameOriginRelayUrl(doc: Doc, dirUrl: string, toRelay: Parse, hostOf: Parse) returns (found: Option<string>)
    ensures found == SameOrigin(doc, dirUrl, toRelay, hostOf)
  {
    var target := hostOf(dirUrl);
    if target.None? { return None; }
    var all := doc.relays + doc.bootstrap;
    for i := 0 to |all|
      invariant FirstOfHost(all[..i], target.value, toRelay, hostOf).None?
    {
      assert all[..i + 1][..i] == all[..i];
      var url := toRelay(all[i]);
      if url.None? { continue; }
      if hostOf(url.value) == target {
        FirstOfHostStays(all, i + 1, target.value, toRelay, hostOf);
        return url;
      }
    }
    assert all[..|all|] == all;
    found := None;
  }

  lemma {:induction false} FirstOfHostStays(s: seq<string>, n: nat, host: string, toRelay: Parse, hostOf: Parse)
    requires n <= |s| && FirstOfHost(s[..n], host, toRelay, hostOf).Some?
    ensures FirstOfHost(s, host, toRelay, hostOf) == FirstOfHost(s[..n], host, toRelay, hostOf)
  {
    if n == |s| {
      assert s[..n] == s;
    } else {
      var init := s[..|s| - 1];
      assert init[..n] == s[..n];
      FirstOfHostStays(init, n, host, toRelay, hostOf);
    }
  }

  function Without(urls: seq<string>, u: string): seq<string> {
    if urls == [] then []
    else Without(urls[..|urls| - 1], u) + if urls[|urls| - 1] != u then [urls[|urls| - 1]] else []
  }

  function InFront(urls: seq<string>, first: Option<string>): seq<string> {
    if first.None? then urls else [first.value] + Without(urls, first.value)
  }

  // ----- what the list of candidates is

  /** Each address has a host among `hosts`, no two the same. */
  ghost predicate OnePerHost(urls: seq<string>, hosts: set<string>, hostOf: Parse) {
    && (forall i :: 0 <= i < |urls| ==> hostOf(urls[i]).Some? && hostOf(urls[i]).value in hosts)
    && (forall i, k :: 0 <= i < k < |urls| ==> hostOf(urls[i]) != hostOf(urls[k]))
    && (forall i, k :: 0 <= i < k < |urls| ==> urls[i] != urls[k])
  }

  lemma OneMoreHost(urls: seq<string>, hosts: set<string>, url: string, host: string, hostOf: Parse)
    requires OnePerHost(urls, hosts, hostOf) && hostOf(url) == Some(host) && host !in hosts
    ensures OnePerHost(urls + [url], hosts + {host}, hostOf)
  {}

  /** Every candidate has a host of the document, and no two have the same. */
  lemma {:induction false} ListedFacts(entries: seq<string>, toRelay: Parse, hostOf: Parse)
    ensures OnePerHost(Listed(entries, toRelay, hostOf), Hosts(entries, toRelay, hostOf), hostOf)
  {
    if entries != [] {
      var init, c := entries[..|entries| - 1], Candidate(entries[|entries| - 1], toRelay, hostOf);
      var before := Listed(init, toRelay, hostOf);
      ListedFacts(init, toRelay, hostOf);
      if c.Some? && c.value.1 !in Hosts(init, toRelay, hostOf) {
        OneMoreHost(before, Hosts(init, toRelay, hostOf), c.value.0, c.value.1, hostOf);
      } else {
        assert Listed(entries, toRelay, hostOf) == before + [] == before;
        assert Hosts(init, toRelay, hostOf) <= Hosts(entries, toRelay, hostOf);
      }
    }
  }

  /** For each host, the candidate is the host's first entry. */
  lemma {:induction false} ListedIsFirst(entries: seq<string>, host: string, toRelay: Parse, hostOf: Parse)
    ensures var f := FirstOfHost(entries, host, toRelay, hostOf);
            && (f.Some? <==> host in Hosts(entries, toRelay, hostOf))
            && (f.Some? ==> f.value in Listed(entries, toRelay, hostOf) && hostOf(f.value) == Some(host))
  {
    if entries != [] {
      ListedIsFirst(entries[..|entries| - 1], host, toRelay, hostOf);
    }
  }

  lemma CountsApart(kept: multiset<string>, all: multiset<string>, last: string, u: string)
    requires kept == all[u := 0]
    ensures last == u ==> kept == (all + multiset{last})[u := 0]
    ensures last != u ==> kept + multiset{last} == (all + multiset{last})[u := 0]
  {}

  lemma {:induction false} WithoutCount(urls: seq<string>, u: string)
    ensures multiset(Without(urls, u)) == multiset(urls)[u := 0]
  {
    if urls != [] {
      var init, last := urls[..|urls| - 1], urls[|urls| - 1];
      WithoutCount(init, u);
      assert urls == init + [last];
      assert multiset(urls) == multiset(init) + multiset{last};
      CountsApart(multiset(Without(init, u)), multiset(init), last, u);
    }
  }

  lemma {:induction false} DistinctCount(urls: seq<string>, u: string)
    requires (forall i, k :: 0 <= i < k < |urls| ==> urls[i] != urls[k]) && u in urls
    ensures multiset(urls)[u] == 1
  {
    var init, last := urls[..|urls| - 1], urls[|urls| - 1];
    assert urls == init + [last];
    if u == last {
      assert u !in init;
      assert multiset(init)[u] == 0;
    } else {
      DistinctCount(init, u);
    }
  }

  lemma MovedIsPermutation(urls: seq<string>, first: Option<string>)
    requires (forall i, k :: 0 <= i < k < |urls| ==> urls[i] != urls[k]) && (first.Some? ==> first.value in urls)
    ensures multiset(InFront(urls, first)) == multiset(urls)
  {
    if first.Some? {
      WithoutCount(urls, first.value);
      DistinctCount(urls, first.value);
      assert multiset([first.value] + Without(urls, first.value))
        == multiset{first.value} + multiset(Without(urls, first.value));
    }
  }

  /** The chain of a fetched directory. */
  function Chain(doc: Doc, dirUrl: string, toRelay: Parse, hostOf: Parse, j: Jitter.Measure): seq<string> {
    Jitter.Order(InFront(Listed(Entries(doc), toRelay, hostOf), SameOrigin(doc, dirUrl, toRelay, hostOf)), j)
  }

  /**
   The chain is a permutation of the candidates, one per host: putting the same origin first and
   ordering by jitter lose and add nothing.
   */
  lemma {:induction false} ChainIsPermutation(doc: Doc, dirUrl: string, toRelay: Parse, hostOf: Parse,
                                              j: Jitter.Measure)
    ensures multiset(Chain(doc, dirUrl, toRelay, hostOf, j)) == multiset(Listed(Entries(doc), toRelay, hostOf))
  {
    var urls, first := Listed(Entries(doc), toRelay, hostOf), SameOrigin(doc, dirUrl, toRelay, hostOf);
    ListedFacts(Entries(doc), toRelay, hostOf);
    if first.Some? {
      ListedIsFirst(Entries(doc), hostOf(dirUrl).value, toRelay, hostOf);
    }
    MovedIsPermutation(urls, first);
    Jitter.OrderIsPermutation(InFront(urls, first), j);
  }

  /** Every host of the document has exactly one address in the chain, whatever the jitter. */
  lemma ChainHasEachHostOnce(doc: Doc, dirUrl: string, toRelay: Parse, hostOf: Parse, j: Jitter.Measure, host: string)
    ensures (exists u :: u in Chain(doc, dirUrl, toRelay, hostOf, j) && hostOf(u) == Some(host))
            <==> host in Hosts(Entries(doc), toRelay, hostOf)
    ensures var urls := Chain(doc, dirUrl, toRelay, hostOf, j);
            forall u, v :: u in urls && v in urls && hostOf(u) == hostOf(v) ==> u == v
  {
    var urls := Listed(Entries(doc), toRelay, hostOf);
    ChainIsPermutation(doc, dirUrl, toRelay, hostOf, j);
    Jitter.SameMembers(Chain(doc, dirUrl, toRelay, hostOf, j), urls);
    ListedFacts(Entries(doc), toRelay, hostOf);
    ListedIsFirst(Entries(doc), host, toRelay, hostOf);
    var f := FirstOfHost(Entries(doc), host, toRelay, hostOf);
    if f.Some? {
      assert f.value in Chain(doc, dirUrl, toRelay, hostOf, j);
    }
  }

  /** With nothing measured, the address of the origin that answered comes first. */
  lemma SameOriginFirst(doc: Doc, dirUrl: string, toRelay: Parse, hostOf: Parse, j: Jitter.Measure)
    requires forall u :: j(u).None?
    ensures var s := SameOrigin(doc, dirUrl, toRelay, hostOf);
            s.Some? ==>
              Chain(doc, dirUrl, toRelay, hostOf, j) != [] && Chain(doc, dirUrl, toRelay, hostOf, j)[0] == s.value
  {
    Jitter.NothingMeasuredNothingMoves(InFront(Listed(Entries(doc), toRelay, hostOf),
                                               SameOrigin(doc, dirUrl, toRelay, hostOf)), j);
  }

  // ----- the whole bootstrap chain

  datatype Source = FromEnv | FreshCache | SeedDirectory(origin: string) | StaleCache | SeedFallback | NoSource

  /** The cached directory, if its signature holds, and whether it is still fresh. */
  datatype Cached = Cached(doc: Doc, current: bool)

  /** What fetching a directory gives: a document whose signature holds, or nothing. */
  type Fetch = string -> Option<Doc>

  datatype Resolved = Resolved(urls: seq<string>, source: Source)

  /** The measure in force: with jitter switched off nothing is measured. */
  function Effective(enabled: bool, j: Jitter.Measure): Jitter.Measure {
    if enabled then j else (_ => None)
  }

  /** Switched off, ordering is ordering by nothing, and moves nothing. */
  lemma OffIsUnmeasured(urls: seq<string>, enabled: bool, j: Jitter.Measure)
    ensures Jitter.Order(urls, Effective(enabled, j)) == if enabled then Jitter.Order(urls, j) else urls
  {
    if !enabled {
      Jitter.NothingMeasuredNothingMoves(urls, Effective(enabled, j));
    }
  }

  /** The first origin whose directory can be fetched and lists a relay. */
  function FromOrigins(origins: seq<string>, dirOf: Parse, fetch: Fetch, toRelay: Parse, hostOf: Parse,
                       j: Jitter.Measure): Option<Resolved>
  {
    if origins == [] then None
    else
      var dirUrl := dirOf(origins[0]);
      var doc := if dirUrl.Some? then fetch(dirUrl.value) else None;
      if doc.Some? && Listed(Entries(doc.value), toRelay, hostOf) != []
      then Some(Resolved(Chain(doc.value, dirUrl.value, toRelay, hostOf, j), SeedDirectory(origins[0])))
      else FromOrigins(origins[1..], dirOf, fetch, toRelay, hostOf, j)
  }

  /** The origins asked, in order: those the cached directory names, then the seeds. */
  function Origins(cached: Option<Cached>, seeds: seq<string>): seq<string> {
    Distinct((if cached.Some? then cached.value.doc.bootstrap else []) + seeds)
  }

  function ResolveChain(env: string, cached: Option<Cached>, seeds: seq<string>, dirOf: Parse, fetch: Fetch,
                        toRelay: Parse, hostOf: Parse, j: Jitter.Measure): Resolved
  {
    if env != "" && toRelay(env).Some? then Resolved([toRelay(env).value], FromEnv)
    else
      var listed := if cached.Some? then Listed(Entries(cached.value.doc), toRelay, hostOf) else [];
      if cached.Some? && cached.value.current && listed != [] then Resolved(Jitter.Order(listed, j), FreshCache)
      else
        var got := FromOrigins(Origins(cached, seeds), dirOf, fetch, toRelay, hostOf, j);
        if got.Some? then got.value
        else if listed != [] then Resolved(Jitter.Order(listed, j), StaleCache)
        else if seeds != [] && toRelay(seeds[0]).Some? then Resolved([toRelay(seeds[0]).value], SeedFallback)
        else Resolved([], NoSource)
  }

  /** The first address not excluded, empty if there is none. */
  function FirstNotIn(urls: seq<string>, skip: seq<string>): string {
    if urls == [] then "" else if urls[0] !in skip then urls[0] else FirstNotIn(urls[1..], skip)
  }

  method ResolveOverlayRelayChain(env: string, cached: Option<Cached>, seeds: seq<string>, dirOf: Parse, fetch: Fetch,
                                  toRelay: Parse, hostOf: Parse, enabled: bool, j: Jitter.Measure)
    returns (res: Resolved)
    ensures res == ResolveChain(env, cached, seeds, dirOf, fetch, toRelay, hostOf, Effective(enabled, j))
  {
    if env != "" {
      var url := toRelay(env);
      if url.Some? { return Resolved([url.value], FromEnv); }
    }
    if cached.Some? && cached.value.current {
      var urls := ListCandidatesFromDoc(cached.value.doc, toRelay, hostOf);
      if |urls| > 0 {
        var ordered := Jitter.OrderByJitter(urls, enabled, j);
        OffIsUnmeasured(urls, enabled, j);
        return Resolved(ordered, FreshCache);
      }
    }
    var origins := CollectOrigins((if cached.Some? then cached.value.doc.bootstrap else []) + seeds);
    var got := TryOrigins(origins, dirOf, fetch, toRelay, hostOf, enabled, j);
    if got.Some? { return got.value; }
    if cached.Some? {
      var urls := ListCandidatesFromDoc(cached.value.doc, toRelay, hostOf);
      if |urls| > 0 {
        var ordered := Jitter.OrderByJitter(urls, enabled, j);
        OffIsUnmeasured(urls, enabled, j);
        return Resolved(ordered, StaleCache);
      }
    }
    if |seeds| > 0 {
      var url := toRelay(seeds[0]);
      if url.Some? { return Resolved([url.value], SeedFallback); }
    }
    return Resolved([], NoSource);
  }

  method CollectOrigins(all: seq<string>) returns (origins: seq<string>)
    ensures origins == Distinct(all)
  {
    origins := [];
    for i := 0 to |all|
      invariant origins == Distinct(all[..i])
    {
      assert all[..i + 1][..i] == all[..i];
      if all[i] !in origins { origins := origins + [all[i]]; }
    }
    assert all[..|all|] == all;
  }

  method TryOrigins(origins: seq<string>, dirOf: Parse, fetch: Fetch, toRelay: Parse, hostOf: Parse, enabled: bool,
                    j: Jitter.Measure)
    returns (got: Option<Resolved>)
    ensures got == FromOrigins(origins, dirOf, fetch, toRelay, hostOf, Effective(enabled, j))
  {
    ghost var m := Effective(enabled, j);
    var i := 0;
    assert origins[0..] == origins;
    while i < |origins|
      invariant i <= |origins|
      invariant FromOrigins(origins, dirOf, fetch, toRelay, hostOf, m)
                == FromOrigins(origins[i..], dirOf, fetch, toRelay, hostOf, m)
    {
      assert origins[i..][1..] == origins[i + 1..];
      var origin := origins[i];
      i := i + 1;
      var dirUrl := dirOf(origin);
      if dirUrl.None? { continue; }
      var doc := fetch(dirUrl.value);
      if doc.None? { continue; }
      var list := ListCandidatesFromDoc(doc.value, toRelay, hostOf);
      var sameOrigin := SameOriginRelayUrl(doc.value, dirUrl.value, toRelay, hostOf);
      var urls := InFront(list, sameOrigin);
      EmptyStaysEmpty(doc.value, dirUrl.value, toRelay, hostOf);
      if |urls| == 0 { continue; }
      var ordered := Jitter.OrderByJitter(urls, enabled, j);
      OffIsUnmeasured(urls, enabled, j);
      return Some(Resolved(ordered, SeedDirectory(origin)));
    }
    return None;
  }

  lemma EmptyStaysEmpty(doc: Doc, dirUrl: string, toRelay: Parse, hostOf: Parse)
    ensures var list := Listed(Entries(doc), toRelay, hostOf);
            InFront(list, SameOrigin(doc, dirUrl, toRelay, hostOf)) == [] <==> list == []
  {
    if hostOf(dirUrl).Some? {
      ListedIsFirst(Entries(doc), hostOf(dirUrl).value, toRelay, hostOf);
    }
  }

  method ResolveOverlayRelay(chain: Resolved, exclude: seq<string>) returns (url: string)
    ensures url == FirstNotIn(chain.urls, exclude)
  {
    if |exclude| == 0 {
      return if |chain.urls| > 0 then chain.urls[0] else "";
    }
    var i := 0;
    while i < |chain.urls|
      invariant i <= |chain.urls| && FirstNotIn(chain.urls, exclude) == FirstNotIn(chain.urls[i..], exclude)
    {
      if chain.urls[i] !in exclude { return chain.urls[i]; }
      assert chain.urls[i..][1..] == chain.urls[i + 1..];
      i := i + 1;
    }
    url := "";
  }

  /** The choice is in the chain and not excluded, and it is empty exactly when every address is excluded. */
  lemma {:induction false} ExcludeIsRespected(urls: seq<string>, exclude: seq<string>)
    requires "" !in urls
    ensures var url := FirstNotIn(urls, exclude);
            && (url != "" ==> url in urls && url !in exclude)
            && (url == "" <==> forall u :: u in urls ==> u in exclude)
  {
    if urls != [] {
      assert urls == [urls[0]] + urls[1..];
      ExcludeIsRespected(urls[1..], exclude);
    }
  }

  // ----- no address comes from nowhere

  lemma {:induction false} ListedComeFromEntries(entries: seq<string>, toRelay: Parse, hostOf: Parse)
    ensures forall u :: u in Listed(entries, toRelay, hostOf) ==> exists e :: e in entries && toRelay(e) == Some(u)
  {
    if entries != [] {
      ListedComeFromEntries(entries[..|entries| - 1], toRelay, hostOf);
      assert entries == entries[..|entries| - 1] + [entries[|entries| - 1]];
    }
  }

  lemma OrderedMembers(urls: seq<string>, j: Jitter.Measure)
    ensures forall u :: u in Jitter.Order(urls, j) <==> u in urls
  {
    Jitter.OrderIsPermutation(urls, j);
    Jitter.SameMembers(Jitter.Order(urls, j), urls);
  }

  lemma {:induction false} OriginsComeFromDocs(origins: seq<string>, dirOf: Parse, fetch: Fetch, toRelay: Parse,
                                               hostOf: Parse, j: Jitter.Measure, u: string)
    requires var got := FromOrigins(origins, dirOf, fetch, toRelay, hostOf, j); got.Some? && u in got.value.urls
    ensures exists o, e :: o in origins && dirOf(o).Some? && fetch(dirOf(o).value).Some?
              && e in Entries(fetch(dirOf(o).value).value) && toRelay(e) == Some(u)
  {
    var dirUrl := dirOf(origins[0]);
    var doc := if dirUrl.Some? then fetch(dirUrl.value) else None;
    if doc.Some? && Listed(Entries(doc.value), toRelay, hostOf) != [] {
      ChainIsPermutation(doc.value, dirUrl.value, toRelay, hostOf, j);
      Jitter.SameMembers(Chain(doc.value, dirUrl.value, toRelay, hostOf, j),
                         Listed(Entries(doc.value), toRelay, hostOf));
      ListedComeFromEntries(Entries(doc.value), toRelay, hostOf);
    } else {
      OriginsComeFromDocs(origins[1..], dirOf, fetch, toRelay, hostOf, j, u);
    }
  }

  lemma {:induction false} OriginsAreTheirOwnSource(origins: seq<string>, dirOf: Parse, fetch: Fetch, toRelay: Parse,
                                                    hostOf: Parse, j: Jitter.Measure)
    ensures var got := FromOrigins(origins, dirOf, fetch, toRelay, hostOf, j);
            got.Some? ==> got.value.source.SeedDirectory? && got.value.source.origin in origins
  {
    if origins != [] {
      OriginsAreTheirOwnSource(origins[1..], dirOf, fetch, toRelay, hostOf, j);
      assert origins == [origins[0]] + origins[1..];
    }
  }

  /** An entry somebody configured or signed: the override, a seed, or one of a cached or fetched directory. */
  ghost predicate Trusted(e: string, env: string, cached: Option<Cached>, seeds: seq<string>, dirOf: Parse,
                          fetch: Fetch)
  {
    || e == env
    || e in seeds
    || (cached.Some? && e in Entries(cached.value.doc))
    || exists o :: (o in seeds || (cached.Some? && o in cached.value.doc.bootstrap))
         && dirOf(o).Some? && fetch(dirOf(o).value).Some? && e in Entries(fetch(dirOf(o).value).value)
  }

  /** Every address of the resolved chain is the relay address of a trusted entry. */
  lemma {:induction false} ResolvedAddressesAreTrusted(env: string, cached: Option<Cached>, seeds: seq<string>,
                                                       dirOf: Parse, fetch: Fetch, toRelay: Parse, hostOf: Parse,
                                                       j: Jitter.Measure, u: string)
    requires u in ResolveChain(env, cached, seeds, dirOf, fetch, toRelay, hostOf, j).urls
    ensures exists e :: Trusted(e, env, cached, seeds, dirOf, fetch) && toRelay(e) == Some(u)
  {
    var res := ResolveChain(env, cached, seeds, dirOf, fetch, toRelay, hostOf, j);
    OriginsAreTheirOwnSource(Origins(cached, seeds), dirOf, fetch, toRelay, hostOf, j);
    match res.source
    case FromEnv => assert Trusted(env, env, cached, seeds, dirOf, fetch);
    case FreshCache => FromCache(env, cached, seeds, dirOf, fetch, toRelay, hostOf, j, u);
    case StaleCache => FromCache(env, cached, seeds, dirOf, fetch, toRelay, hostOf, j, u);
    case SeedDirectory(_) =>
      OriginsComeFromDocs(Origins(cached, seeds), dirOf, fetch, toRelay, hostOf, j, u);
      var o, e :| o in Origins(cached, seeds) && dirOf(o).Some? && fetch(dirOf(o).value).Some?
                    && e in Entries(fetch(dirOf(o).value).value) && toRelay(e) == Some(u);
      assert Trusted(e, env, cached, seeds, dirOf, fetch);
    case SeedFallback => assert Trusted(seeds[0], env, cached, seeds, dirOf, fetch);
    case NoSource =>
  }

  lemma FromCache(env: string, cached: Option<Cached>, seeds: seq<string>, dirOf: Parse, fetch: Fetch,
                  toRelay: Parse, hostOf: Parse, j: Jitter.Measure, u: string)
    requires cached.Some? && u in Jitter.Order(Listed(Entries(cached.value.doc), toRelay, hostOf), j)
    ensures exists e :: Trusted(e, env, cached, seeds, dirOf, fetch) && toRelay(e) == Some(u)
  {
    OrderedMembers(Listed(Entries(cached.value.doc), toRelay, hostOf), j);
    ListedComeFromEntries(Entries(cached.value.doc), toRelay, hostOf);
    var e :| e in Entries(cached.value.doc) && toRelay(e) == Some(u);
    assert Trusted(e, env, cached, seeds, dirOf, fetch);
  }

  // ----- what a source tells

  /** An origin whose directory can be fetched, carries a good signature and lists a relay. */
  predicate Answers(origin: string, dirOf: Parse, fetch: Fetch, toRelay: Parse, hostOf: Parse) {
    && dirOf(origin).Some? && fetch(dirOf(origin).value).Some?
    && Listed(Entries(fetch(dirOf(origin).value).value), toRelay, hostOf) != []
  }

  predicate FirstToAnswer(origins: seq<string>, k: nat, dirOf: Parse, fetch: Fetch, toRelay: Parse, hostOf: Parse) {
    && k < |origins| && Answers(origins[k], dirOf, fetch, toRelay, hostOf)
    && forall i :: 0 <= i < k ==> !Answers(origins[i], dirOf, fetch, toRelay, hostOf)
  }

  /** A directory is taken of the first origin that answers, and of none exactly if none does. */
  lemma {:induction false} OriginsExactly(origins: seq<string>, dirOf: Parse, fetch: Fetch, toRelay: Parse,
                                          hostOf: Parse, j: Jitter.Measure) returns (k: nat)
    ensures var got := FromOrigins(origins, dirOf, fetch, toRelay, hostOf, j);
            && (got.None? <==> forall o :: o in origins ==> !Answers(o, dirOf, fetch, toRelay, hostOf))
            && (got.Some? ==>
                  && FirstToAnswer(origins, k, dirOf, fetch, toRelay, hostOf)
                  && got.value.source == SeedDirectory(origins[k])
                  && var dirUrl := dirOf(origins[k]).value;
                     got.value.urls == Chain(fetch(dirUrl).value, dirUrl, toRelay, hostOf, j))
  {
    k := 0;
    if origins != [] {
      assert origins == [origins[0]] + origins[1..];
      if !Answers(origins[0], dirOf, fetch, toRelay, hostOf) {
        var later := OriginsExactly(origins[1..], dirOf, fetch, toRelay, hostOf, j);
        k := later + 1;
      }
    }
  }

  /** The origins as they are named: those of the cached directory, then the seeds. */
  function Named(cached: Option<Cached>, seeds: seq<string>): seq<string> {
    match cached
    case Some(c) => c.doc.bootstrap + seeds
    case None => seeds
  }

  /** Asking each origin once is asking them in the order they are named. */
  lemma {:induction false} AskedInOrder(all: seq<string>, j: nat, dirOf: Parse, fetch: Fetch, toRelay: Parse,
                                        hostOf: Parse)
    returns (k: nat)
    requires FirstToAnswer(Distinct(all), j, dirOf, fetch, toRelay, hostOf)
    ensures FirstToAnswer(all, k, dirOf, fetch, toRelay, hostOf) && all[k] == Distinct(all)[j]
  {
    var init, last := all[..|all| - 1], all[|all| - 1];
    assert all == init + [last];
    if j < |Distinct(init)| {
      assert Distinct(all)[..|Distinct(init)|] == Distinct(init);
      forall i | 0 <= i < j ensures !Answers(Distinct(init)[i], dirOf, fetch, toRelay, hostOf) {
        assert Distinct(all)[i] == Distinct(init)[i];
      }
      k := AskedInOrder(init, j, dirOf, fetch, toRelay, hostOf);
      forall i | 0 <= i < k ensures !Answers(all[i], dirOf, fetch, toRelay, hostOf) { assert all[i] == init[i]; }
    } else {
      k := |init|;
      forall i | 0 <= i < k ensures !Answers(all[i], dirOf, fetch, toRelay, hostOf) {
        assert all[i] == init[i] && init[i] in Distinct(init);
        var h :| 0 <= h < |Distinct(init)| && Distinct(init)[h] == init[i];
        assert Distinct(all)[h] == Distinct(init)[h];
      }
    }
  }

  predicate Overridden(env: string, toRelay: Parse) {
    env != "" && toRelay(env).Some?
  }

  predicate CacheLists(cached: Option<Cached>, toRelay: Parse, hostOf: Parse) {
    cached.Some? && Listed(Entries(cached.value.doc), toRelay, hostOf) != []
  }

  /** Neither the override nor a fresh cache decides. */
  predicate Asks(env: string, cached: Option<Cached>, toRelay: Parse, hostOf: Parse) {
    !Overridden(env, toRelay) && !(CacheLists(cached, toRelay, hostOf) && cached.value.current)
  }

  /** What is asked gives nothing. */
  predicate NobodyAnswers(cached: Option<Cached>, seeds: seq<string>, dirOf: Parse, fetch: Fetch, toRelay: Parse,
                          hostOf: Parse)
  {
    forall o :: o in Named(cached, seeds) ==> !Answers(o, dirOf, fetch, toRelay, hostOf)
  }

  /**
   The reported source says exactly how far the search went: each one is reported if and only if
   all that come before it gave nothing, and a directory is the first that answers.
   */
  lemma {:induction false} SourceTells(env: string, cached: Option<Cached>, seeds: seq<string>, dirOf: Parse,
                                       fetch: Fetch, toRelay: Parse, hostOf: Parse, j: Jitter.Measure)
    ensures var source := ResolveChain(env, cached, seeds, dirOf, fetch, toRelay, hostOf, j).source;
            var asks, lists := Asks(env, cached, toRelay, hostOf), CacheLists(cached, toRelay, hostOf);
            var nobody := NobodyAnswers(cached, seeds, dirOf, fetch, toRelay, hostOf);
            && (source.FromEnv? <==> Overridden(env, toRelay))
            && (source.FreshCache? <==> !Overridden(env, toRelay) && lists && cached.value.current)
            && (source.SeedDirectory? <==> asks && !nobody)
            && (source.StaleCache? <==> asks && nobody && lists)
            && (source.SeedFallback? <==> asks && nobody && !lists && seeds != [] && toRelay(seeds[0]).Some?)
            && (source.NoSource? <==> asks && nobody && !lists && (seeds == [] || toRelay(seeds[0]).None?))
  {
    var k := OriginsExactly(Origins(cached, seeds), dirOf, fetch, toRelay, hostOf, j);
    assert forall o :: o in Origins(cached, seeds) <==> o in Named(cached, seeds);
  }

  /** The directory reported is the first that answers, and the chain is the one of its document. */
  lemma DirectoryIsFirst(env: string, cached: Option<Cached>, seeds: seq<string>, dirOf: Parse, fetch: Fetch,
                         toRelay: Parse, hostOf: Parse, j: Jitter.Measure) returns (k: nat)
    requires ResolveChain(env, cached, seeds, dirOf, fetch, toRelay, hostOf, j).source.SeedDirectory?
    ensures FirstToAnswer(Named(cached, seeds), k, dirOf, fetch, toRelay, hostOf)
    ensures var origin := Named(cached, seeds)[k];
            var dirUrl := dirOf(origin).value;
            ResolveChain(env, cached, seeds, dirOf, fetch, toRelay, hostOf, j)
            == Resolved(Chain(fetch(dirUrl).value, dirUrl, toRelay, hostOf, j), SeedDirectory(origin))
  {
    var asked := OriginsExactly(Origins(cached, seeds), dirOf, fetch, toRelay, hostOf, j);
    NamedOnce(cached, seeds);
    k := AskedInOrder(Named(cached, seeds), asked, dirOf, fetch, toRelay, hostOf);
    assert ResolveChain(env, cached, seeds, dirOf, fetch, toRelay, hostOf, j)
        == FromOrigins(Origins(cached, seeds), dirOf, fetch, toRelay, hostOf, j).value;
  }

  lemma NamedOnce(cached: Option<Cached>, seeds: seq<string>)
    ensures Origins(cached, seeds) == Distinct(Named(cached, seeds))
  {
    assert [] + seeds == seeds;
  }

  lemma OrderedNothing(urls: seq<string>, j: Jitter.Measure)
    ensures Jitter.Order(urls, j) == [] <==> urls == []
  {
    Jitter.OrderIsPermutation(urls, j);
    assert |Jitter.Order(urls, j)| == |multiset(Jitter.Order(urls, j))| && |urls| == |multiset(urls)|;
  }

  /** No address is resolved exactly if no source is reported. */
  lemma NothingIsNoSource(env: string, cached: Option<Cached>, seeds: seq<string>, dirOf: Parse, fetch: Fetch,
                          toRelay: Parse, hostOf: Parse, j: Jitter.Measure)
    ensures var res := ResolveChain(env, cached, seeds, dirOf, fetch, toRelay, hostOf, j);
            res.urls == [] <==> res.source.NoSource?
  {
    if ResolveChain(env, cached, seeds, dirOf, fetch, toRelay, hostOf, j).source.SeedDirectory? {
      var k := DirectoryIsFirst(env, cached, seeds, dirOf, fetch, toRelay, hostOf, j);
      var dirUrl := dirOf(Named(cached, seeds)[k]).value;
      EmptyStaysEmpty(fetch(dirUrl).value, dirUrl, toRelay, hostOf);
      OrderedNothing(InFront(Listed(Entries(fetch(dirUrl).value), toRelay, hostOf),
                             SameOrigin(fetch(dirUrl).value, dirUrl, toRelay, hostOf)), j);
    } else {
      OriginsAreTheirOwnSource(Origins(cached, seeds), dirOf, fetch, toRelay, hostOf, j);
      if cached.Some? { OrderedNothing(Listed(Entries(cached.value.doc), toRelay, hostOf), j); }
    }
  }
}
