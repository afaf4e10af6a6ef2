/** The endpoint manager of snipebot/src/main.rs: per-chain endpoint lists sorted under two different
    orders, and running latency averages. */
module Endpoints {
  import opened Wrappers

  datatype EndpointInfo = EndpointInfo(url: string, chainId: nat, name: string, priority: nat, enabled: bool)

  // ---------- The two orders and the stable sort ----------

  /** `ByPriority` is the order of `add_endpoint`, `ByHealth` that of `check_endpoints_health`. */
  datatype Order = ByPriority | ByHealth

  /** `a` may stand before `b`. */
  predicate InOrder(order: Order, a: EndpointInfo, b: EndpointInfo) {
    match order
    case ByPriority => a.priority >= b.priority
    case ByHealth => if a.enabled == b.enabled then a.priority >= b.priority else a.enabled
  }

  /** `x` goes before the first element that it must precede, after its equals. */
  function Insert(order: Order, s: seq<EndpointInfo>, x: EndpointInfo): (r: seq<EndpointInfo>) {
    if s == [] then [x]
    else if InOrder(order, s[0], x) then [s[0]] + Insert(order, s[1..], x)
    else [x] + s
  }

  function Sorted(order: Order, s: seq<EndpointInfo>): (r: seq<EndpointInfo>) {
    if s == [] then [] else Insert(order, Sorted(order, s[..|s| - 1]), s[|s| - 1])
  }

  ghost predicate IsSorted(order: Order, s: seq<EndpointInfo>) {
    s != [] ==> (forall e | e in s[1..] :: InOrder(order, s[0], e)) && IsSorted(order, s[1..])
  }

  lemma {:induction false} InsertMembers(order: Order, s: seq<EndpointInfo>, x: EndpointInfo)
    ensures multiset(Insert(order, s, x)) == multiset(s) + multiset{x}
  {
    if s != [] {
      assert s == [s[0]] + s[1..];
      InsertMembers(order, s[1..], x);
    }
  }

  lemma {:induction false} InsertSorts(order: Order, s: seq<EndpointInfo>, x: EndpointInfo)
    requires IsSorted(order, s)
    ensures IsSorted(order, Insert(order, s, x))
  {
    if s != [] && InOrder(order, s[0], x) {
      var rest := Insert(order, s[1..], x);
      InsertSorts(order, s[1..], x);
      InsertMembers(order, s[1..], x);
      assert ([s[0]] + rest)[1..] == rest;
      forall e | e in rest ensures InOrder(order, s[0], e) {
        assert e in multiset(rest);
      }
    } else {
      assert ([x] + s)[1..] == s;
      assert forall e | e in s :: e == s[0] || e in s[1..];
    }
  }

  /** The sort permutes. */
  lemma {:induction false} SortedMembers(order: Order, s: seq<EndpointInfo>)
    ensures multiset(Sorted(order, s)) == multiset(s)
  {
    if s != [] {
      var before, x := s[..|s| - 1], s[|s| - 1];
      SortedMembers(order, before);
      InsertMembers(order, Sorted(order, before), x);
      assert s == before + [x];
    }
  }

  /** The sort sorts. */
  lemma {:induction false} SortedIsSorted(order: Order, s: seq<EndpointInfo>)
    ensures IsSorted(order, Sorted(order, s))
  {
    if s != [] {
      SortedIsSorted(order, s[..|s| - 1]);
      InsertSorts(order, Sorted(order, s[..|s| - 1]), s[|s| - 1]);
    }
  }

  /** The elements that rank equal with `y`, in the order of the list. */
  function Ties(order: Order, s: seq<EndpointInfo>, y: EndpointInfo): (r: seq<EndpointInfo>) {
    if s == [] then []
    else if InOrder(order, s[0], y) && InOrder(order, y, s[0]) then [s[0]] + Ties(order, s[1..], y)
    else Ties(order, s[1..], y)
  }

  lemma {:induction false} NoTies(order: Order, s: seq<EndpointInfo>, y: EndpointInfo)
    requires forall e | e in s :: !InOrder(order, e, y)
    ensures Ties(order, s, y) == []
  {
    if s != [] {
      assert s[0] in s && forall e | e in s[1..] :: e in s;
      NoTies(order, s[1..], y);
    }
  }

  lemma {:induction false} TiesOfInsert(order: Order, s: seq<EndpointInfo>, x: EndpointInfo, y: EndpointInfo)
    requires IsSorted(order, s)
    ensures Ties(order, Insert(order, s, x), y) == Ties(order, s, y) + Ties(order, [x], y)
  {
    if s != [] && InOrder(order, s[0], x) {
      TiesOfInsert(order, s[1..], x, y);
      assert Insert(order, s, x)[1..] == Insert(order, s[1..], x);
    } else {
      assert ([x] + s)[1..] == s;
      if s != [] && InOrder(order, x, y) {
        assert forall e | e in s :: e == s[0] || e in s[1..];
        if InOrder(order, y, x) { NoTies(order, s, y); }
      }
    }
  }

  lemma {:induction false} TiesOfSnoc(order: Order, s: seq<EndpointInfo>, x: EndpointInfo, y: EndpointInfo)
    ensures Ties(order, s + [x], y) == Ties(order, s, y) + Ties(order, [x], y)
  {
    if s == [] {
      assert s + [x] == [x];
    } else {
      assert (s + [x])[1..] == s[1..] + [x];
      TiesOfSnoc(order, s[1..], x, y);
    }
  }

  /** The sort is stable. */
  lemma {:induction false} SortedIsStable(order: Order, s: seq<EndpointInfo>, y: EndpointInfo)
    ensures Ties(order, Sorted(order, s), y) == Ties(order, s, y)
  {
    if s != [] {
      var before, x := s[..|s| - 1], s[|s| - 1];
      SortedIsStable(order, before, y);
      SortedIsSorted(order, before);
      TiesOfInsert(order, Sorted(order, before), x, y);
      TiesOfSnoc(order, before, x, y);
      assert s == before + [x];
    }
  }

  // ---------- Operations on the list of one chain ----------

  predicate HasUrl(s: seq<EndpointInfo>, url: string) {
    exists e | e in s :: e.url == url
  }

  function Added(s: seq<EndpointInfo>, e: EndpointInfo): (r: seq<EndpointInfo>) {
    if HasUrl(s, e.url) then s else Sorted(ByPriority, s + [e])
  }

  /** The first endpoint with the url is disabled. */
  function Disabled(s: seq<EndpointInfo>, url: string): (r: seq<EndpointInfo>) {
    if s == [] then []
    else if s[0].url == url then [s[0].(enabled := false)] + s[1..]
    else [s[0]] + Disabled(s[1..], url)
  }

  /** Each endpoint is enabled exactly when its check answered that it is healthy. */
  function Probed(s: seq<EndpointInfo>, healthy: set<string>): (r: seq<EndpointInfo>)
    ensures |r| == |s|
    ensures forall i | 0 <= i < |s| :: r[i] == s[i].(enabled := s[i].url in healthy)
  {
    if s == [] then [] else [s[0].(enabled := s[0].url in healthy)] + Probed(s[1..], healthy)
  }

  function Checked(s: seq<EndpointInfo>, healthy: set<string>): (r: seq<EndpointInfo>) {
    Sorted(ByHealth, Probed(s, healthy))
  }

  /** The first enabled endpoint. */
  function Best(s: seq<EndpointInfo>): (r: Option<EndpointInfo>) {
    if s == [] then None
    else if s[0].enabled then Some(s[0])
    else Best(s[1..])
  }

  // ---------- What every operation keeps ----------

  /** The enabled endpoints stand in the order of descending priority, whatever the others do. */
  ghost predicate EnabledSorted(s: seq<EndpointInfo>) {
    s != [] ==>
      && (s[0].enabled ==> forall e | e in s[1..] && e.enabled :: s[0].priority >= e.priority)
      && EnabledSorted(s[1..])
  }

  ghost function Urls(s: seq<EndpointInfo>): multiset<string> {
    if s == [] then multiset{} else multiset{s[0].url} + Urls(s[1..])
  }

  ghost predicate UniqueUrls(s: seq<EndpointInfo>) {
    forall url :: Urls(s)[url] <= 1
  }

  ghost predicate Good(s: seq<EndpointInfo>) {
    EnabledSorted(s) && UniqueUrls(s)
  }

  /** Unique urls are pairwise different. */
  lemma {:induction false} UniqueMeansDistinct(s: seq<EndpointInfo>, i: nat, j: nat)
    requires UniqueUrls(s) && i < j < |s|
    ensures s[i].url != s[j].url
  {
    if i == 0 {
      assert s[1..][j - 1] == s[j] && s[j] in s[1..];
      UrlsHas(s[1..], s[j].url);
      assert Urls(s)[s[0].url] == 1 + Urls(s[1..])[s[0].url];
    } else {
      forall url ensures Urls(s[1..])[url] <= 1 { assert Urls(s[1..])[url] <= Urls(s)[url]; }
      UniqueMeansDistinct(s[1..], i - 1, j - 1);
    }
  }

  lemma {:induction false} UrlsHas(s: seq<EndpointInfo>, url: string)
    ensures url in Urls(s) <==> HasUrl(s, url)
  {
    if s != [] {
      UrlsHas(s[1..], url);
      assert forall e :: e in s <==> e == s[0] || e in s[1..];
    }
  }

  lemma {:induction false} UrlsOfInsert(order: Order, s: seq<EndpointInfo>, x: EndpointInfo)
    ensures Urls(Insert(order, s, x)) == Urls(s) + multiset{x.url}
  {
    if s != [] && InOrder(order, s[0], x) {
      UrlsOfInsert(order, s[1..], x);
      assert Insert(order, s, x)[1..] == Insert(order, s[1..], x);
    } else {
      assert ([x] + s)[1..] == s;
    }
  }

  lemma {:induction false} UrlsOfSnoc(s: seq<EndpointInfo>, x: EndpointInfo)
    ensures Urls(s + [x]) == Urls(s) + multiset{x.url}
  {
    if s == [] {
      assert s + [x] == [x];
    } else {
      assert (s + [x])[1..] == s[1..] + [x];
      UrlsOfSnoc(s[1..], x);
    }
  }

  lemma {:induction false} UrlsOfSorted(order: Order, s: seq<EndpointInfo>)
    ensures Urls(Sorted(order, s)) == Urls(s)
  {
    if s != [] {
      var before, x := s[..|s| - 1], s[|s| - 1];
      UrlsOfSorted(order, before);
      UrlsOfInsert(order, Sorted(order, before), x);
      UrlsOfSnoc(before, x);
      assert s == before + [x];
    }
  }

  /** Either order puts the enabled endpoints in the order of priority. */
  lemma {:induction false} SortedEnabled(order: Order, s: seq<EndpointInfo>)
    requires IsSorted(order, s)
    ensures EnabledSorted(s)
  {
    if s != [] { SortedEnabled(order, s[1..]); }
  }

  lemma AddedIsGood(s: seq<EndpointInfo>, e: EndpointInfo)
    requires Good(s)
    ensures Good(Added(s, e))
    ensures multiset(Added(s, e)) == if HasUrl(s, e.url) then multiset(s) else multiset(s) + multiset{e}
  {
    if !HasUrl(s, e.url) {
      SortedIsSorted(ByPriority, s + [e]);
      SortedMembers(ByPriority, s + [e]);
      SortedEnabled(ByPriority, Added(s, e));
      UrlsOfSorted(ByPriority, s + [e]);
      UrlsOfSnoc(s, e);
      UrlsHas(s, e.url);
    }
  }

  lemma {:induction false} DisabledMembers(s: seq<EndpointInfo>, url: string)
    ensures Urls(Disabled(s, url)) == Urls(s)
    ensures forall e | e in Disabled(s, url) && e.enabled :: e in s
  {
    if s != [] {
      if s[0].url == url {
        var x := s[0].(enabled := false);
        assert ([x] + s[1..])[1..] == s[1..];
      } else {
        DisabledMembers(s[1..], url);
        assert Disabled(s, url)[1..] == Disabled(s[1..], url);
      }
    }
  }

  lemma {:induction false} DisabledEnabled(s: seq<EndpointInfo>, url: string)
    requires EnabledSorted(s)
    ensures EnabledSorted(Disabled(s, url))
  {
    if s != [] {
      if s[0].url == url {
        var x := s[0].(enabled := false);
        assert ([x] + s[1..])[1..] == s[1..];
      } else {
        DisabledEnabled(s[1..], url);
        DisabledMembers(s[1..], url);
        assert Disabled(s, url)[1..] == Disabled(s[1..], url);
      }
    }
  }

  /** With unique urls, disabling switches off the endpoint of the url and nothing else. */
  lemma {:induction false} DisabledAt(s: seq<EndpointInfo>, url: string, i: nat)
    requires UniqueUrls(s) && i < |s|
    ensures |Disabled(s, url)| == |s|
    ensures Disabled(s, url)[i] == if s[i].url == url then s[i].(enabled := false) else s[i]
  {
    if s[0].url == url {
      if i > 0 { UniqueMeansDistinct(s, 0, i); }
      DisabledLength(s, url);
    } else if i > 0 {
      forall u ensures Urls(s[1..])[u] <= 1 { assert Urls(s[1..])[u] <= Urls(s)[u]; }
      DisabledAt(s[1..], url, i - 1);
    } else {
      DisabledLength(s, url);
    }
  }

  /** The endpoint at `i`, if any, is the first one with the url. */
  lemma {:induction false} DisabledFirst(s: seq<EndpointInfo>, url: string, i: nat)
    requires i <= |s| && forall j | 0 <= j < i :: s[j].url != url
    requires i < |s| ==> s[i].url == url
    ensures Disabled(s, url) == if i < |s| then s[i := s[i].(enabled := false)] else s
  {
    if i > 0 { DisabledFirst(s[1..], url, i - 1); }
  }

  lemma {:induction false} DisabledLength(s: seq<EndpointInfo>, url: string)
    ensures |Disabled(s, url)| == |s|
  {
    if s != [] && s[0].url != url { DisabledLength(s[1..], url); }
  }

  lemma DisabledIsGood(s: seq<EndpointInfo>, url: string)
    requires Good(s)
    ensures Good(Disabled(s, url))
  {
    DisabledMembers(s, url);
    DisabledEnabled(s, url);
  }

  lemma {:induction false} UrlsOfProbed(s: seq<EndpointInfo>, healthy: set<string>)
    ensures Urls(Probed(s, healthy)) == Urls(s)
  {
    if s != [] {
      UrlsOfProbed(s[1..], healthy);
      assert Probed(s, healthy)[1..] == Probed(s[1..], healthy);
    }
  }

  /** A health check keeps the list good, and is a permutation of the list with the flags set. */
  lemma CheckedIsGood(s: seq<EndpointInfo>, healthy: set<string>)
    requires Good(s)
    ensures Good(Checked(s, healthy))
    ensures multiset(Checked(s, healthy)) == multiset(Probed(s, healthy))
    ensures Urls(Checked(s, healthy)) == Urls(s)
  {
    var p := Probed(s, healthy);
    SortedIsSorted(ByHealth, p);
    SortedMembers(ByHealth, p);
    SortedEnabled(ByHealth, Checked(s, healthy));
    UrlsOfSorted(ByHealth, p);
    UrlsOfProbed(s, healthy);
  }

  /** What callers of `get_best_endpoint` rely on: an enabled endpoint that no enabled one outranks,
      and none exactly when none is enabled. */
  ghost predicate IsBest(s: seq<EndpointInfo>, best: Option<EndpointInfo>) {
    match best
    case None => forall e | e in s :: !e.enabled
    case Some(b) => b in s && b.enabled && forall e | e in s && e.enabled :: e.priority <= b.priority
  }

  lemma {:induction false} BestIsBest(s: seq<EndpointInfo>)
    requires EnabledSorted(s)
    ensures IsBest(s, Best(s))
  {
    if s != [] {
      assert forall e :: e in s <==> e == s[0] || e in s[1..];
      BestIsBest(s[1..]);
    }
  }

  // ---------- Runs of the manager ----------

  type Lists = map<nat, seq<EndpointInfo>>

  /** `CheckHealth` carries the urls whose check answers healthy, per chain: an unhealthy answer, a
      timeout and an error all disable. */
  datatype Op =
    | Add(endpoint: EndpointInfo)
    | Disable(chainId: nat, url: string)
    | CheckHealth(healthy: map<nat, set<string>>)

  function HealthyOn(healthy: map<nat, set<string>>, chain: nat): (r: set<string>) {
    if chain in healthy then healthy[chain] else {}
  }

  function ListOf(m: Lists, chain: nat): (r: seq<EndpointInfo>) {
    if chain in m then m[chain] else []
  }

  function Step(m: Lists, op: Op): (r: Lists) {
    match op
    case Add(e) => m[e.chainId := Added(ListOf(m, e.chainId), e)]
    case Disable(chain, url) => if chain in m then m[chain := Disabled(m[chain], url)] else m
    case CheckHealth(healthy) => map c | c in m :: Checked(m[c], HealthyOn(healthy, c))
  }

  function Run(ops: seq<Op>): (r: Lists)
    decreases |ops|
  {
    if ops == [] then map[] else Step(Run(ops[..|ops| - 1]), ops[|ops| - 1])
  }

  lemma StepKeepsGood(m: Lists, op: Op)
    requires forall c | c in m :: Good(m[c])
    ensures forall c | c in Step(m, op) :: Good(Step(m, op)[c])
  {
    match op
    case Add(e) => AddedIsGood(ListOf(m, e.chainId), e);
    case Disable(chain, url) => if chain in m { DisabledIsGood(m[chain], url); }
    case CheckHealth(healthy) =>
      forall c | c in m ensures Good(Step(m, op)[c]) { CheckedIsGood(m[c], HealthyOn(healthy, c)); }
  }

  lemma {:induction false} RunKeepsGood(ops: seq<Op>)
    ensures forall c | c in Run(ops) :: Good(Run(ops)[c])
    decreases |ops|
  {
    if ops != [] {
      RunKeepsGood(ops[..|ops| - 1]);
      StepKeepsGood(Run(ops[..|ops| - 1]), ops[|ops| - 1]);
    }
  }

  /** In every state reached by additions, removals from service and health checks, the first enabled
      endpoint of a chain has the highest priority among the enabled ones, and urls are unique. */
  lemma SelectionIsOptimal(ops: seq<Op>, chain: nat)
    ensures IsBest(ListOf(Run(ops), chain), Best(ListOf(Run(ops), chain)))
    ensures UniqueUrls(ListOf(Run(ops), chain))
  {
    RunKeepsGood(ops);
    BestIsBest(ListOf(Run(ops), chain));
  }

  // ---------- What the history says about the lists ----------

  /** The endpoint that the history leaves under a url of a chain: the first one added, switched off by a
      disable and switched by every health check. */
  ghost function Registered(ops: seq<Op>, chain: nat, url: string): Option<EndpointInfo>
    decreases |ops|
  {
    if ops == [] then None
    else
      var before := Registered(ops[..|ops| - 1], chain, url);
      match ops[|ops| - 1]
      case Add(e) => if before == None && e.chainId == chain && e.url == url then Some(e) else before
      case Disable(c, u) =>
        if before.Some? && c == chain && u == url then Some(before.value.(enabled := false)) else before
      case CheckHealth(healthy) =>
        if before.Some? then Some(before.value.(enabled := chain in healthy && url in healthy[chain])) else None
  }

  ghost function Lookup(s: seq<EndpointInfo>, url: string): (r: Option<EndpointInfo>)
    ensures r.Some? ==> r.value.url == url
  {
    if s == [] then None else if s[0].url == url then Some(s[0]) else Lookup(s[1..], url)
  }

  lemma {:induction false} LookupIsHasUrl(s: seq<EndpointInfo>, url: string)
    ensures Lookup(s, url).Some? <==> HasUrl(s, url)
  {
    if s != [] {
      LookupIsHasUrl(s[1..], url);
      assert forall e :: e in s <==> e == s[0] || e in s[1..];
    }
  }

  lemma {:induction false} LookupMember(s: seq<EndpointInfo>, e: EndpointInfo)
    requires UniqueUrls(s)
    ensures e in s <==> Lookup(s, e.url) == Some(e)
  {
    if s != [] {
      assert e in s <==> e == s[0] || e in s[1..];
      forall u ensures Urls(s[1..])[u] <= 1 { assert Urls(s[1..])[u] <= Urls(s)[u]; }
      LookupMember(s[1..], e);
      if s[0].url == e.url {
        UrlsHas(s[1..], e.url);
        assert Urls(s)[e.url] == 1 + Urls(s[1..])[e.url];
      }
    }
  }

  lemma {:induction false} LookupInsert(order: Order, s: seq<EndpointInfo>, x: EndpointInfo, url: string)
    requires Lookup(s, x.url) == None
    ensures Lookup(Insert(order, s, x), url) == if url == x.url then Some(x) else Lookup(s, url)
  {
    if s != [] && InOrder(order, s[0], x) {
      LookupInsert(order, s[1..], x, url);
      assert Insert(order, s, x)[1..] == Insert(order, s[1..], x);
    } else {
      assert ([x] + s)[1..] == s;
    }
  }

  lemma {:induction false} LookupSnoc(s: seq<EndpointInfo>, x: EndpointInfo, url: string)
    ensures Lookup(s + [x], url) ==
            if Lookup(s, url).Some? then Lookup(s, url) else if x.url == url then Some(x) else None
  {
    if s == [] {
      assert s + [x] == [x];
    } else {
      assert (s + [x])[1..] == s[1..] + [x];
      LookupSnoc(s[1..], x, url);
    }
  }

  lemma UniqueSnoc(s: seq<EndpointInfo>, x: EndpointInfo)
    requires UniqueUrls(s + [x])
    ensures UniqueUrls(s) && Lookup(s, x.url) == None
  {
    UrlsOfSnoc(s, x);
    forall u ensures Urls(s)[u] <= 1 { assert Urls(s)[u] <= Urls(s + [x])[u]; }
    assert Urls(s + [x])[x.url] == Urls(s)[x.url] + 1;
    UrlsHas(s, x.url);
    LookupIsHasUrl(s, x.url);
  }

  lemma {:induction false} LookupSorted(order: Order, s: seq<EndpointInfo>, url: string)
    requires UniqueUrls(s)
    ensures Lookup(Sorted(order, s), url) == Lookup(s, url)
  {
    if s != [] {
      var before, x := s[..|s| - 1], s[|s| - 1];
      assert s == before + [x];
      UniqueSnoc(before, x);
      LookupSorted(order, before, url);
      LookupSorted(order, before, x.url);
      LookupInsert(order, Sorted(order, before), x, url);
      LookupSnoc(before, x, url);
    }
  }

  lemma {:induction false} LookupDisabled(s: seq<EndpointInfo>, off: string, url: string)
    ensures Lookup(Disabled(s, off), url) ==
            if url == off && Lookup(s, url).Some? then Some(Lookup(s, url).value.(enabled := false)) else Lookup(s, url)
  {
    if s != [] {
      if s[0].url == off {
        assert Disabled(s, off)[1..] == s[1..];
      } else {
        LookupDisabled(s[1..], off, url);
        assert Disabled(s, off)[1..] == Disabled(s[1..], off);
      }
    }
  }

  lemma {:induction false} LookupProbed(s: seq<EndpointInfo>, healthy: set<string>, url: string)
    ensures Lookup(Probed(s, healthy), url) ==
            if Lookup(s, url).Some? then Some(Lookup(s, url).value.(enabled := url in healthy)) else None
  {
    if s != [] {
      LookupProbed(s[1..], healthy, url);
      assert Probed(s, healthy)[1..] == Probed(s[1..], healthy);
    }
  }

  lemma LookupAdded(s: seq<EndpointInfo>, e: EndpointInfo, url: string)
    requires UniqueUrls(s)
    ensures Lookup(Added(s, e), url) == if Lookup(s, url) == None && url == e.url then Some(e) else Lookup(s, url)
  {
    LookupIsHasUrl(s, e.url);
    if !HasUrl(s, e.url) {
      UrlsOfSnoc(s, e);
      UrlsHas(s, e.url);
      forall u ensures Urls(s + [e])[u] <= 1 { assert Urls(s)[u] <= 1; }
      LookupSorted(ByPriority, s + [e], url);
      LookupSnoc(s, e, url);
    }
  }

  lemma LookupChecked(s: seq<EndpointInfo>, healthy: set<string>, url: string)
    requires UniqueUrls(s)
    ensures Lookup(Checked(s, healthy), url) ==
            if Lookup(s, url).Some? then Some(Lookup(s, url).value.(enabled := url in healthy)) else None
  {
    UrlsOfProbed(s, healthy);
    LookupSorted(ByHealth, Probed(s, healthy), url);
    LookupProbed(s, healthy, url);
  }

  lemma {:induction false} LookupIsRegistered(ops: seq<Op>, chain: nat, url: string)
    ensures Lookup(ListOf(Run(ops), chain), url) == Registered(ops, chain, url)
    decreases |ops|
  {
    if ops != [] {
      var before := ops[..|ops| - 1];
      var list := ListOf(Run(before), chain);
      LookupIsRegistered(before, chain, url);
      RunKeepsGood(before);
      match ops[|ops| - 1]
      case Add(e) => if e.chainId == chain { LookupAdded(list, e, url); }
      case Disable(c, u) => if c == chain { LookupDisabled(list, u, url); }
      case CheckHealth(healthy) => LookupChecked(list, HealthyOn(healthy, chain), url);
    }
  }

  /** After every run the list of a chain holds exactly the endpoints that the history leaves, each once and
      with its flag as the last addition, disable or health check has set it. */
  lemma ListHoldsRegistered(ops: seq<Op>, chain: nat, e: EndpointInfo)
    ensures e in ListOf(Run(ops), chain) <==> Registered(ops, chain, e.url) == Some(e)
    ensures UniqueUrls(ListOf(Run(ops), chain))
  {
    RunKeepsGood(ops);
    LookupMember(ListOf(Run(ops), chain), e);
    LookupIsRegistered(ops, chain, e.url);
  }

  /** End to end: after every run the selection is an endpoint that the history leaves enabled, and none that
      it leaves enabled has a higher priority. */
  lemma SelectionFromHistory(ops: seq<Op>, chain: nat, e: EndpointInfo)
    requires Registered(ops, chain, e.url) == Some(e) && e.enabled
    ensures var best := Best(ListOf(Run(ops), chain));
            && best.Some? && best.value.enabled && best.value.priority >= e.priority
            && Registered(ops, chain, best.value.url) == best
  {
    SelectionIsOptimal(ops, chain);
    ListHoldsRegistered(ops, chain, e);
    ListHoldsRegistered(ops, chain, Best(ListOf(Run(ops), chain)).value);
  }

  /** What is selected is always an endpoint that the history leaves enabled. */
  lemma SelectionIsRegistered(ops: seq<Op>, chain: nat)
    requires Best(ListOf(Run(ops), chain)).Some?
    ensures var best := Best(ListOf(Run(ops), chain));
            best.value.enabled && Registered(ops, chain, best.value.url) == best
  {
    SelectionIsOptimal(ops, chain);
    ListHoldsRegistered(ops, chain, Best(ListOf(Run(ops), chain)).value);
  }

  // ---------- When the full list is sorted by priority ----------

  /** No element that is switched off outranks one that is switched on. */
  ghost predicate NoneOffOutranksOn(s: seq<EndpointInfo>) {
    forall a, b | a in s && b in s && !a.enabled && b.enabled :: a.priority <= b.priority
  }

  lemma {:induction false} HealthOrderByPriority(s: seq<EndpointInfo>)
    requires IsSorted(ByHealth, s)
    ensures IsSorted(ByPriority, s) <==> NoneOffOutranksOn(s)
  {
    if s != [] {
      HealthOrderByPriority(s[1..]);
      assert forall e :: e in s <==> e == s[0] || e in s[1..];
    }
  }

  /** No endpoint that answers unhealthy outranks one that answers healthy. */
  ghost predicate NoneDownOutranksUp(s: seq<EndpointInfo>, healthy: set<string>) {
    forall a, b | a in s && b in s && a.url !in healthy && b.url in healthy :: a.priority <= b.priority
  }

  lemma SameMembers(s: seq<EndpointInfo>, t: seq<EndpointInfo>)
    requires multiset(s) == multiset(t)
    ensures NoneOffOutranksOn(s) <==> NoneOffOutranksOn(t)
  {
    assert forall e :: e in s <==> e in multiset(s);
    assert forall e :: e in t <==> e in multiset(t);
  }

  /** A health check leaves the list sorted by priority exactly when no endpoint that answers unhealthy
      outranks one that answers healthy. */
  lemma CheckedSortedIff(s: seq<EndpointInfo>, healthy: set<string>)
    ensures IsSorted(ByPriority, Checked(s, healthy)) <==> NoneDownOutranksUp(s, healthy)
  {
    var t := Probed(s, healthy);
    SortedIsSorted(ByHealth, t);
    HealthOrderByPriority(Checked(s, healthy));
    SortedMembers(ByHealth, t);
    SameMembers(Checked(s, healthy), t);
  }

  lemma {:induction false} DisabledMember(s: seq<EndpointInfo>, url: string, first: EndpointInfo)
    ensures (forall e | e in Disabled(s, url) :: InOrder(ByPriority, first, e)) <==>
            (forall e | e in s :: InOrder(ByPriority, first, e))
  {
    if s != [] {
      assert forall e :: e in s <==> e == s[0] || e in s[1..];
      var d := Disabled(s, url);
      if s[0].url == url {
        assert d[1..] == s[1..];
      } else {
        DisabledMember(s[1..], url, first);
        assert d[1..] == Disabled(s[1..], url);
      }
      assert forall e :: e in d <==> e == d[0] || e in d[1..];
      assert s[0] in s && d[0] in d && d[0].priority == s[0].priority;
      assert InOrder(ByPriority, first, d[0]) <==> InOrder(ByPriority, first, s[0]);
    }
  }

  /** Disabling an endpoint leaves the order alone. */
  lemma {:induction false} DisabledSortedIff(s: seq<EndpointInfo>, url: string)
    ensures IsSorted(ByPriority, Disabled(s, url)) <==> IsSorted(ByPriority, s)
  {
    if s != [] {
      var d := Disabled(s, url);
      if s[0].url == url {
        assert d[1..] == s[1..];
      } else {
        assert d[1..] == Disabled(s[1..], url);
        DisabledSortedIff(s[1..], url);
        DisabledMember(s[1..], url, s[0]);
      }
    }
  }

  /** What the history says about the order of the list of a chain: a new endpoint restores it, and a
      health check decides it anew. */
  ghost predicate OrderKept(ops: seq<Op>, chain: nat)
    decreases |ops|
  {
    if ops == [] then true
    else
      var before, list := ops[..|ops| - 1], ListOf(Run(ops[..|ops| - 1]), chain);
      match ops[|ops| - 1]
      case Add(e) => (e.chainId == chain && !HasUrl(list, e.url)) || OrderKept(before, chain)
      case Disable(_, _) => OrderKept(before, chain)
      case CheckHealth(healthy) => NoneDownOutranksUp(list, HealthyOn(healthy, chain))
  }

  /** The exact condition, over every run: the full list of a chain is sorted by priority if and only if
      no health check has broken the order since an endpoint was last added to it. */
  lemma {:induction false} FullListSortedIff(ops: seq<Op>, chain: nat)
    ensures IsSorted(ByPriority, ListOf(Run(ops), chain)) <==> OrderKept(ops, chain)
    decreases |ops|
  {
    if ops != [] {
      var before, m := ops[..|ops| - 1], Run(ops[..|ops| - 1]);
      var list := ListOf(m, chain);
      FullListSortedIff(before, chain);
      match ops[|ops| - 1]
      case Add(e) => if e.chainId == chain { SortedIsSorted(ByPriority, list + [e]); }
      case Disable(c, url) => if c == chain { DisabledSortedIff(list, url); }
      case CheckHealth(healthy) =>
        CheckedSortedIff(list, HealthyOn(healthy, chain));
    }
  }

  lemma RegisteredTwo(low: EndpointInfo, high: EndpointInfo, ops: seq<Op>, url: string)
    requires low.chainId == high.chainId && low.url != high.url && ops == [Add(high), Add(low)]
    ensures Registered(ops, low.chainId, url) ==
            if url == high.url then Some(high) else if url == low.url then Some(low) else None
  {
    var one := [Add(high)];
    assert ops[..1] == one && one[..0] == [];
    assert Registered(one, low.chainId, url) == if url == high.url then Some(high) else None;
  }

  /** So the full list need not stay sorted: it is not after a check that only the lower of two endpoints
      passes. */
  lemma FullListMayBeUnsorted(low: EndpointInfo, high: EndpointInfo) returns (ops: seq<Op>)
    requires low.chainId == high.chainId && low.url != high.url && low.priority < high.priority
    ensures !IsSorted(ByPriority, ListOf(Run(ops), low.chainId))
  {
    var adds := [Add(high), Add(low)];
    ops := adds + [CheckHealth(map[low.chainId := {low.url}])];
    assert ops[..2] == adds;
    RegisteredTwo(low, high, adds, low.url);
    RegisteredTwo(low, high, adds, high.url);
    ListHoldsRegistered(adds, low.chainId, low);
    ListHoldsRegistered(adds, low.chainId, high);
    FullListSortedIff(ops, low.chainId);
  }

  // ---------- The running latency average ----------

  /** The average after one more sample, when `average` is the average of `n` samples. */
  function NextAverage(average: nat, n: nat, latency: nat): (r: nat) {
    if n > 0 then (average * n + latency) / (n + 1) else latency
  }

  function Average(samples: seq<nat>): (r: nat)
    requires samples != []
    decreases |samples|
  {
    var n := |samples| - 1;
    if n == 0 then NextAverage(0, 0, samples[0])
    else NextAverage(Average(samples[..n]), n, samples[n])
  }

  ghost function Sum(samples: seq<nat>): nat
    decreases |samples|
  {
    if samples == [] then 0 else Sum(samples[..|samples| - 1]) + samples[|samples| - 1]
  }

  lemma MultiplyMonotone(a: nat, b: nat, n: nat)
    requires a <= b
    ensures a * n <= b * n
  {
  }

  lemma DivideBetween(total: nat, n: nat, low: nat, high: nat)
    requires n > 0 && low * n <= total <= high * n
    ensures low <= total / n <= high
  {
    var q := total / n;
    assert (q + 1) * n == q * n + n && (high + 1) * n == high * n + n;
    if q < low { MultiplyMonotone(q + 1, low, n); }
    if q > high { MultiplyMonotone(high + 1, q, n); }
  }

  lemma NextWithinRange(average: nat, n: nat, latency: nat, low: nat, high: nat)
    requires low <= average <= high && low <= latency <= high
    ensures low <= NextAverage(average, n, latency) <= high
  {
    MultiplyMonotone(low, average, n);
    MultiplyMonotone(average, high, n);
    assert low * (n + 1) == low * n + low;
    assert high * (n + 1) == high * n + high;
    DivideBetween(average * n + latency, n + 1, low, high);
  }

  /** The truncated average stays between the extreme samples. */
  lemma {:induction false} AverageWithinRange(samples: seq<nat>, low: nat, high: nat)
    requires samples != [] && forall i | 0 <= i < |samples| :: low <= samples[i] <= high
    ensures low <= Average(samples) <= high
    decreases |samples|
  {
    var n := |samples| - 1;
    if n > 0 {
      AverageWithinRange(samples[..n], low, high);
      NextWithinRange(Average(samples[..n]), n, samples[n], low, high);
    }
  }

  lemma NextError(average: nat, n: nat, latency: nat, sum: nat)
    requires n > 0 && average * n <= sum && 2 * (sum - average * n) <= n * (n - 1)
    ensures NextAverage(average, n, latency) * (n + 1) <= sum + latency
    ensures 2 * (sum + latency - NextAverage(average, n, latency) * (n + 1)) <= (n + 1) * n
  {
    assert (n + 1) * n == n * (n - 1) + 2 * n;
  }

  /** The average never exceeds the true mean and falls short of it by at most (n - 1) / 2: truncation
      errors add up, but only linearly. */
  lemma {:induction false} AverageError(samples: seq<nat>)
    requires samples != []
    ensures Average(samples) * |samples| <= Sum(samples)
    ensures 2 * (Sum(samples) - Average(samples) * |samples|) <= |samples| * (|samples| - 1)
    decreases |samples|
  {
    var n := |samples| - 1;
    if n > 0 {
      AverageError(samples[..n]);
      NextError(Average(samples[..n]), n, samples[n], Sum(samples[..n]));
    } else {
      assert samples[..0] == [];
      assert Sum(samples[..0]) == 0;
    }
  }

  ghost function Ramp(n: nat): (r: seq<nat>)
    ensures |r| == n
  {
    if n == 0 then [] else Ramp(n - 1) + [n - 1]
  }

  lemma TriangleStep(n: nat)
    requires n > 0
    ensures n * (n - 1) == (n - 1) * (n - 2) + 2 * (n - 1)
  {
  }

  /** The error bound is attained for every number of samples: on 0, 1, ..., n - 1 the average stays 0. */
  lemma {:induction false} AverageErrorIsAttained(n: nat)
    ensures 2 * Sum(Ramp(n)) == n * (n - 1)
    ensures n > 0 ==> Average(Ramp(n)) == 0
  {
    if n > 0 {
      AverageErrorIsAttained(n - 1);
      assert Ramp(n)[..n - 1] == Ramp(n - 1);
      TriangleStep(n);
    }
  }

  // ---------- The manager object ----------

  datatype EndpointStats = EndpointStats(totalRequests: nat, averageLatency: nat, lastError: Option<string>)

  /** The latencies reported for a url are summarised by its statistics. */
  ghost predicate Summarises(s: EndpointStats, samples: seq<nat>) {
    samples != [] && s.totalRequests == |samples| && s.averageLatency == Average(samples)
  }

  /** The lists in the middle of a health check that turns `m` into `target`. */
  ghost function Midway(m: Lists, target: Lists, pending: set<nat>): Lists
    requires m.Keys == target.Keys
  {
    map c | c in m :: if c in pending then m[c] else target[c]
  }

  lemma MidwayStep(m: Lists, target: Lists, pending: set<nat>, c: nat)
    requires m.Keys == target.Keys && c in pending && c in m
    ensures c in Midway(m, target, pending) && Midway(m, target, pending)[c] == m[c]
    ensures Midway(m, target, pending - {c}) == Midway(m, target, pending)[c := target[c]]
  {
  }

  lemma MidwayEnds(m: Lists, target: Lists)
    requires m.Keys == target.Keys
    ensures Midway(m, target, m.Keys) == m && Midway(m, target, {}) == target
    ensures m - m.Keys == map[] && target - {} == target
  {
  }

  lemma CheckHealthAt(m: Lists, healthy: map<nat, set<string>>)
    ensures Step(m, CheckHealth(healthy)).Keys == m.Keys
    ensures forall c | c in m :: Step(m, CheckHealth(healthy))[c] == Checked(m[c], HealthyOn(healthy, c))
  {
  }

  lemma DoneStep(m: Lists, pending: set<nat>, c: nat, list: seq<EndpointInfo>)
    requires c in pending
    ensures m[c := list] - (pending - {c}) == (m - pending)[c := list]
  {
  }

  class EndpointManager {
    var endpoints: Lists
    var stats: map<string, EndpointStats>

    constructor ()
      ensures endpoints == map[] && stats == map[]
    {
      endpoints, stats := map[], map[];
    }

    method AddEndpoint(endpoint: EndpointInfo)
      modifies this`endpoints
      ensures endpoints == Step(old(endpoints), Add(endpoint))
    {
      var chain := endpoint.chainId;
      if chain !in endpoints {
        endpoints := endpoints[chain := []];
      }
      var list := endpoints[chain];
      if !HasUrl(list, endpoint.url) {
        endpoints := endpoints[chain := Sorted(ByPriority, list + [endpoint])];
      }
    }

    method GetBestEndpoint(chainId: nat) returns (best: Option<EndpointInfo>)
      ensures best == Best(ListOf(endpoints, chainId))
      ensures EnabledSorted(ListOf(endpoints, chainId)) ==> IsBest(ListOf(endpoints, chainId), best)
    {
      if chainId !in endpoints { return None; }
      var list := endpoints[chainId];
      for i := 0 to |list|
        invariant Best(list) == Best(list[i..])
      {
        if list[i].enabled {
          best := Some(list[i]);
          if EnabledSorted(list) { BestIsBest(list); }
          return;
        }
      }
      if EnabledSorted(list) { BestIsBest(list); }
      best := None;
    }

    method DisableEndpoint(chainId: nat, url: string) returns (found: bool)
      modifies this`endpoints
      ensures endpoints == Step(old(endpoints), Disable(chainId, url))
      ensures found <==> HasUrl(ListOf(old(endpoints), chainId), url)
    {
      if chainId in endpoints {
        var list := endpoints[chainId];
        for i := 0 to |list|
          invariant endpoints == old(endpoints)
          invariant forall j | 0 <= j < i :: list[j].url != url
        {
          if list[i].url == url {
            DisabledFirst(list, url, i);
            endpoints := endpoints[chainId := list[i := list[i].(enabled := false)]];
            return true;
          }
        }
        DisabledFirst(list, url, |list|);
        assert endpoints[chainId := list] == endpoints;
      }
      found := false;
    }

    /** The inner loop of the health check. */
    static method Probe(endpoints: seq<EndpointInfo>, healthy: set<string>) returns (list: seq<EndpointInfo>)
      ensures list == Probed(endpoints, healthy)
    {
      list := endpoints;
      for i := 0 to |list|
        invariant |list| == |endpoints|
        invariant forall j | 0 <= j < i :: list[j] == Probed(endpoints, healthy)[j]
        invariant forall j | i <= j < |list| :: list[j] == endpoints[j]
      {
        list := list[i := list[i].(enabled := list[i].url in healthy)];
      }
    }

    method CheckChain(chain: nat, healthy: set<string>)
      requires chain in endpoints
      modifies this`endpoints
      ensures endpoints == old(endpoints)[chain := Checked(old(endpoints)[chain], healthy)]
    {
      var list := Probe(endpoints[chain], healthy);
      endpoints := endpoints[chain := Sorted(ByHealth, list)];
    }

    /** The chains are visited in an unspecified order. */
    method CheckEndpointsHealth(healthy: map<nat, set<string>>) returns (results: Lists)
      modifies this`endpoints
      ensures endpoints == Step(old(endpoints), CheckHealth(healthy))
      ensures results == endpoints
    {
      ghost var was, target := endpoints, Step(endpoints, CheckHealth(healthy));
      CheckHealthAt(was, healthy);
      MidwayEnds(was, target);
      results := map[];
      var pending := endpoints.Keys;
      while pending != {}
        invariant pending <= was.Keys
        invariant endpoints == Midway(was, target, pending)
        invariant results == endpoints - pending
        decreases |pending|
      {
        var c :| c in pending;
        MidwayStep(was, target, pending, c);
        DoneStep(endpoints, pending, c, target[c]);
        CheckChain(c, HealthyOn(healthy, c));
        results := results[c := endpoints[c]];
        pending := pending - {c};
      }
    }

    /** Counters, latency average and last error; the success rate is not part of this model. */
    method UpdateStats(url: string, success: bool, latency: nat, error: Option<string>, ghost samples: seq<nat>)
      requires if url in stats then Summarises(stats[url], samples) else samples == []
      modifies this`stats
      ensures stats.Keys == old(stats).Keys + {url}
      ensures Summarises(stats[url], samples + [latency])
      ensures stats[url].lastError ==
              if !success then error else if url in old(stats) then old(stats)[url].lastError else None
      ensures forall u | u in old(stats) && u != url :: stats[u] == old(stats)[u]
    {
      var s := if url in stats then stats[url] else EndpointStats(0, 0, None);
      s := s.(totalRequests := s.totalRequests + 1);
      if s.totalRequests > 1 {
        var oldTotal := s.averageLatency * (s.totalRequests - 1);
        s := s.(averageLatency := (oldTotal + latency) / s.totalRequests);
      } else {
        s := s.(averageLatency := latency);
      }
      if !success { s := s.(lastError := error); }
      stats := stats[url := s];
      assert (samples + [latency])[..|samples|] == samples;
    }
  }
}
