/** Selection of sliver tools from memcache and datastore (server/mlabns/db/sliver_tool_fetcher.py). */
module SliverTools {
  import opened Wrappers
  import opened StringOrder

  datatype Tool = Tool(toolId: string, siteId: string, fqdn: string, country: string, statusV4: string, statusV6: string,
                       roundrobin: bool)

  datatype Family = IPv4 | IPv6 | Unspecified

  // An empty criterion is no criterion.
  datatype Query = Query(toolId: string, status: string, family: Family, allSlivers: bool, metro: string, country: string)

  // ----- filters -----

  function Keep<T>(s: seq<T>, p: T -> bool): seq<T> {
    if s == [] then []
    else
      var last := s[|s| - 1];
      Keep(s[..|s| - 1], p) + (if p(last) then [last] else [])
  }

  lemma {:induction false} KeptElements<T>(s: seq<T>, p: T -> bool, x: T)
    ensures multiset(Keep(s, p))[x] == if p(x) then multiset(s)[x] else 0
  {
    if s != [] {
      var init, last := s[..|s| - 1], s[|s| - 1];
      KeptElements(init, p, x);
      assert s == init + [last];
      assert multiset(Keep(s, p)) == multiset(Keep(init, p)) + multiset(if p(last) then [last] else []);
    }
  }

  predicate HasStatus(t: Tool, family: Family, status: string) {
    match family
    case IPv4 => t.statusV4 == status
    case IPv6 => t.statusV6 == status
    case Unspecified => t.statusV4 == status || t.statusV6 == status
  }

  function Attributes(family: Family): seq<Family> {
    if family.Unspecified? then [IPv4, IPv6] else [family]
  }

  method FilterByStatus(tools: seq<Tool>, family: Family, status: string) returns (filtered: seq<Tool>)
    ensures filtered == Keep(tools, (t: Tool) => HasStatus(t, family, status))
    ensures forall t: Tool :: multiset(filtered)[t] ==
              if (family == IPv4 && t.statusV4 == status) || (family == IPv6 && t.statusV6 == status)
                 || (family == Unspecified && (t.statusV4 == status || t.statusV6 == status))
              then multiset(tools)[t] else 0
  {
    ghost var p := (t: Tool) => HasStatus(t, family, status);
    var attributes := Attributes(family);
    filtered := [];
    for i := 0 to |tools|
      invariant filtered == Keep(tools[..i], p)
    {
      assert tools[..i + 1][..i] == tools[..i];
      var a := 0;
      var found := false;
      ghost var before := filtered;
      assert p(tools[i]) ==> HasStatus(tools[i], attributes[0], status) || HasStatus(tools[i], attributes[|attributes| - 1], status);
      while a < |attributes| && !found
        invariant a <= |attributes|
        invariant found <==> exists b :: 0 <= b < a && HasStatus(tools[i], attributes[b], status)
        invariant filtered == before + (if found then [tools[i]] else [])
        decreases |attributes| - a
      {
        if HasStatus(tools[i], attributes[a], status) {
          filtered := filtered + [tools[i]];
          found := true;
        }
        a := a + 1;
      }
      assert found <==> p(tools[i]);
    }
    assert tools[..|tools|] == tools;
    forall t: Tool ensures multiset(filtered)[t] == if p(t) then multiset(tools)[t] else 0 { KeptElements(tools, p, t); }
  }

  // ----- one host per site -----

  // Per site: the position in the list of the host chosen so far, and the round-robin counter.
  datatype Choice = Choice(hosts: map<string, nat>, counters: map<string, nat>)

  const NOTHING := Choice(map[], map[])

  function Counter(c: Choice, site: string): nat {
    if site in c.counters then c.counters[site] else 2
  }

  // A choice the loop can have when it comes to tools[k].
  ghost predicate Sound(tools: seq<Tool>, k: nat, c: Choice) {
    && k <= |tools|
    && (forall s :: s in c.hosts ==> c.hosts[s] < k && tools[c.hosts[s]].siteId == s)
    && (forall s :: s in c.counters ==> c.counters[s] > 0)
    && (forall i :: 0 <= i < k ==> tools[i].siteId in c.hosts)
  }

  // Seeing tools[k]; replace is the outcome of the random draw, where there is one.
  function See(tools: seq<Tool>, k: nat, c: Choice, replace: bool): (r: Choice)
    requires k < |tools| && Sound(tools, k, c)
    ensures Sound(tools, k + 1, r)
  {
    var t := tools[k];
    if t.siteId !in c.hosts then c.(hosts := c.hosts[t.siteId := k])
    else if t.roundrobin then
      Choice(if replace then c.hosts[t.siteId := k] else c.hosts, c.counters[t.siteId := Counter(c, t.siteId) + 1])
    else if StrLeq(tools[c.hosts[t.siteId]].fqdn, t.fqdn) then c
    else c.(hosts := c.hosts[t.siteId := k])
  }

  lemma CounterPositive(tools: seq<Tool>, k: nat, c: Choice, site: string)
    requires Sound(tools, k, c)
    ensures Counter(c, site) > 0
  {}

  function Ratio(a: nat, n: nat): real
    requires n > 0
  {
    a as real / n as real
  }

  function Threshold(tools: seq<Tool>, k: nat, c: Choice): real
    requires k < |tools| && Sound(tools, k, c)
  {
    Ratio(1, Counter(c, tools[k].siteId))
  }

  /** The choice after the first k tools, with draws(i) drawn from [0, 1] at tools[i]. */
  function Chosen(tools: seq<Tool>, draws: nat -> real, k: nat): (c: Choice)
    requires k <= |tools|
    ensures Sound(tools, k, c)
  {
    if k == 0 then NOTHING
    else
      var c := Chosen(tools, draws, k - 1);
      See(tools, k - 1, c, draws(k - 1) < Threshold(tools, k - 1, c))
  }

  // The values of the dictionary, in some order.
  ghost predicate Lists(tools: seq<Tool>, hosts: map<string, nat>, r: seq<Tool>) {
    && (forall s :: s in hosts ==> exists i :: 0 <= i < |r| && r[i].siteId == s)
    && (forall i :: 0 <= i < |r| ==> r[i].siteId in hosts && hosts[r[i].siteId] < |tools| && r[i] == tools[hosts[r[i].siteId]])
    && (forall i, j :: 0 <= i < j < |r| ==> r[i].siteId != r[j].siteId)
  }

  // One pass of the loop body.
  method Consider(tools: seq<Tool>, k: nat, c: Choice, draw: real) returns (r: Choice)
    requires k < |tools| && Sound(tools, k, c)
    ensures r == See(tools, k, c, draw < Threshold(tools, k, c))
  {
    hide StrLeq;
    CounterPositive(tools, k, c, tools[k].siteId);
    var t, hosts, counters := tools[k], c.hosts, c.counters;
    if t.siteId !in hosts {
      hosts := hosts[t.siteId := k];
    } else if t.roundrobin {
      var counter := if t.siteId in counters then counters[t.siteId] else 2;
      var threshold := Ratio(1, counter);
      if draw < threshold {
        hosts := hosts[t.siteId := k];
      }
      counters := counters[t.siteId := counter + 1];
    } else if !StrLeq(tools[hosts[t.siteId]].fqdn, t.fqdn) {
      hosts := hosts[t.siteId := k];
    }
    r := Choice(hosts, counters);
  }

  method ChooseOneHostPerSite(tools: seq<Tool>, draws: nat -> real) returns (r: seq<Tool>)
    ensures Lists(tools, Chosen(tools, draws, |tools|).hosts, r)
  {
    hide See, Lists, Threshold;
    var choice := Choice(map[], map[]);
    for k := 0 to |tools|
      invariant choice == Chosen(tools, draws, k)
    {
      choice := Consider(tools, k, choice, draws(k));
    }
    r := ValuesInSomeOrder(tools, choice.hosts);
  }

  method ValuesInSomeOrder(tools: seq<Tool>, hosts: map<string, nat>) returns (r: seq<Tool>)
    requires forall s :: s in hosts ==> hosts[s] < |tools| && tools[hosts[s]].siteId == s
    ensures Lists(tools, hosts, r)
  {
    r := [];
    var sites := hosts.Keys;
    while sites != {}
      invariant sites <= hosts.Keys
      invariant forall s :: s in hosts && s !in sites ==> exists i :: 0 <= i < |r| && r[i].siteId == s
      invariant forall i :: 0 <= i < |r| ==> r[i].siteId in hosts && r[i].siteId !in sites && r[i] == tools[hosts[r[i].siteId]]
      invariant forall i, j :: 0 <= i < j < |r| ==> r[i].siteId != r[j].siteId
    {
      var s :| s in sites;
      ghost var before := r;
      r := r + [tools[hosts[s]]];
      sites := sites - {s};
      forall x | x in hosts && x !in sites
        ensures exists i :: 0 <= i < |r| && r[i].siteId == x
      {
        if x == s {
          assert r[|before|].siteId == x;
        } else {
          var i :| 0 <= i < |before| && before[i].siteId == x;
          assert r[i].siteId == x;
        }
      }
    }
  }

  // ----- equal chances -----

  // The chance of an event that has chance x after an outcome of probability p, and chance y otherwise.
  function Blend(p: real, x: real, y: real): real {
    p * x + (1.0 - p) * y
  }

  /**
   The probability that the host chosen for the site is tools[target], when the loop is at tools[k] with choice c:
   a uniform draw from [0, 1] is below 1/n with probability 1/n.
   */
  ghost function Chance(tools: seq<Tool>, k: nat, c: Choice, site: string, target: nat): real
    requires Sound(tools, k, c)
    decreases |tools| - k
  {
    if k == |tools| then (if site in c.hosts && c.hosts[site] == target then 1.0 else 0.0)
    else
      var p := Threshold(tools, k, c);
      Blend(p, Chance(tools, k + 1, See(tools, k, c, true), site, target), Chance(tools, k + 1, See(tools, k, c, false), site, target))
  }

  /** How many of the first k tools belong to the site. */
  function HostsSeen(tools: seq<Tool>, site: string, k: nat): nat
    requires k <= |tools|
  {
    if k == 0 then 0 else HostsSeen(tools, site, k - 1) + (if tools[k - 1].siteId == site then 1 else 0)
  }

  lemma {:induction false} SeenGrows(tools: seq<Tool>, site: string, j: nat, k: nat)
    requires j <= k <= |tools|
    ensures HostsSeen(tools, site, j) <= HostsSeen(tools, site, k)
    ensures j < k && tools[j].siteId == site ==> HostsSeen(tools, site, j) < HostsSeen(tools, site, k)
    decreases k - j
  {
    if j < k {
      SeenGrows(tools, site, j + 1, k);
    }
  }

  // The loop has met some hosts of the site and its counter is one more than their number.
  ghost predicate InStep(tools: seq<Tool>, k: nat, c: Choice, site: string)
    requires k <= |tools|
  {
    var seen := HostsSeen(tools, site, k);
    && Sound(tools, k, c)
    && (site in c.hosts <==> seen > 0)
    && (site in c.hosts ==> tools[c.hosts[site]].siteId == site && Counter(c, site) == seen + 1)
    && (seen == 0 ==> site !in c.counters)
  }

  ghost predicate RoundRobinSite(tools: seq<Tool>, site: string) {
    forall i :: 0 <= i < |tools| && tools[i].siteId == site ==> tools[i].roundrobin
  }

  // With n hosts in all: a host met before has chance seen/n if it is the chosen one, else none; one still to come has 1/n.
  ghost function Expected(tools: seq<Tool>, k: nat, c: Choice, site: string, target: nat): real
    requires k <= |tools| && HostsSeen(tools, site, |tools|) > 0
  {
    var n := HostsSeen(tools, site, |tools|);
    if target >= k then Ratio(1, n)
    else if site in c.hosts && c.hosts[site] == target then Ratio(HostsSeen(tools, site, k), n)
    else 0.0
  }

  lemma SeeKeepsStep(tools: seq<Tool>, k: nat, c: Choice, site: string, replace: bool)
    requires k < |tools| && InStep(tools, k, c, site) && RoundRobinSite(tools, site)
    ensures InStep(tools, k + 1, See(tools, k, c, replace), site)
  {}

  lemma OneOutOf(seen: nat, n: nat)
    requires n > 0
    ensures Blend(Ratio(1, seen + 1), Ratio(seen + 1, n), 0.0) == Ratio(1, n)
    ensures Blend(Ratio(1, seen + 1), 0.0, Ratio(seen + 1, n)) == Ratio(seen, n)
  {
    var s, m := (seen + 1) as real, n as real;
    assert 1.0 / s * (s / m) == (1.0 / s * s) / m;
    assert (1.0 - 1.0 / s) * (s / m) == s / m - 1.0 / m;
    assert s / m - 1.0 / m == (s - 1.0) / m;
  }

  lemma Mix(p: real, x: real)
    ensures Blend(p, x, x) == x
  {}

  // A host of the site that is not its first.
  lemma AfterAnotherHost(tools: seq<Tool>, k: nat, c: Choice, site: string, target: nat, replace: bool)
    requires k < |tools| && InStep(tools, k, c, site) && RoundRobinSite(tools, site)
    requires tools[k].siteId == site && HostsSeen(tools, site, k) > 0 && HostsSeen(tools, site, |tools|) > 0
    ensures Expected(tools, k + 1, See(tools, k, c, replace), site, target)
            == if target > k then Ratio(1, HostsSeen(tools, site, |tools|))
               else if target == (if replace then k else c.hosts[site]) then
                 Ratio(HostsSeen(tools, site, k) + 1, HostsSeen(tools, site, |tools|))
               else 0.0
  {
    assert HostsSeen(tools, site, k + 1) == HostsSeen(tools, site, k) + 1;
  }

  // A host of another site, or the first host of the site.
  lemma AfterAnythingElse(tools: seq<Tool>, k: nat, c: Choice, site: string, target: nat, replace: bool)
    requires k < |tools| && InStep(tools, k, c, site) && target < |tools| && tools[target].siteId == site
    requires (tools[k].siteId != site || HostsSeen(tools, site, k) == 0) && HostsSeen(tools, site, |tools|) > 0
    ensures Expected(tools, k + 1, See(tools, k, c, replace), site, target) == Expected(tools, k, c, site, target)
  {
    assert HostsSeen(tools, site, k + 1) == HostsSeen(tools, site, k) + if tools[k].siteId == site then 1 else 0;
  }

  // One more tool: the expected chance is the average of what it is after either outcome of the draw.
  lemma ExpectedStep(tools: seq<Tool>, k: nat, c: Choice, site: string, target: nat)
    requires k < |tools| && InStep(tools, k, c, site) && RoundRobinSite(tools, site)
    requires target < |tools| && tools[target].siteId == site && HostsSeen(tools, site, |tools|) > 0
    ensures var p := Threshold(tools, k, c);
            Blend(p, Expected(tools, k + 1, See(tools, k, c, true), site, target), Expected(tools, k + 1, See(tools, k, c, false), site, target))
            == Expected(tools, k, c, site, target)
  {
    hide See, RoundRobinSite, HostsSeen, Blend, Ratio;
    var n, seen := HostsSeen(tools, site, |tools|), HostsSeen(tools, site, k);
    var p := Threshold(tools, k, c);
    if tools[k].siteId == site && seen > 0 {
      AfterAnotherHost(tools, k, c, site, target, true);
      AfterAnotherHost(tools, k, c, site, target, false);
      Mix(p, Ratio(1, n));
      Mix(p, 0.0);
      OneOutOf(seen, n);
    } else {
      AfterAnythingElse(tools, k, c, site, target, true);
      AfterAnythingElse(tools, k, c, site, target, false);
      Mix(p, Expected(tools, k, c, site, target));
    }
  }

  lemma {:induction false} ChanceIsExpected(tools: seq<Tool>, k: nat, c: Choice, site: string, target: nat)
    requires k <= |tools| && InStep(tools, k, c, site) && RoundRobinSite(tools, site)
    requires target < |tools| && tools[target].siteId == site && HostsSeen(tools, site, |tools|) > 0
    ensures Chance(tools, k, c, site, target) == Expected(tools, k, c, site, target)
    decreases |tools| - k
  {
    hide See, Expected, Threshold, RoundRobinSite, HostsSeen, Sound, Blend;
    if k < |tools| {
      SeeKeepsStep(tools, k, c, site, true);
      SeeKeepsStep(tools, k, c, site, false);
      ChanceIsExpected(tools, k + 1, See(tools, k, c, true), site, target);
      ChanceIsExpected(tools, k + 1, See(tools, k, c, false), site, target);
      ExpectedStep(tools, k, c, site, target);
    } else {
      ExpectedAtEnd(tools, c, site, target);
    }
  }

  lemma ExpectedAtEnd(tools: seq<Tool>, c: Choice, site: string, target: nat)
    requires HostsSeen(tools, site, |tools|) > 0 && target < |tools|
    ensures Expected(tools, |tools|, c, site, target) == if site in c.hosts && c.hosts[site] == target then 1.0 else 0.0
  {
    WholeIsOne(HostsSeen(tools, site, |tools|));
  }

  lemma WholeIsOne(n: nat)
    requires n > 0
    ensures Ratio(n, n) == 1.0
  {}

  /** On a site of n round-robin hosts, anywhere among other sites, each host is chosen with probability 1/n. */
  lemma EqualChances(tools: seq<Tool>, site: string, target: nat)
    requires RoundRobinSite(tools, site) && target < |tools| && tools[target].siteId == site
    ensures HostsSeen(tools, site, |tools|) > 0
    ensures Chance(tools, 0, NOTHING, site, target) == Ratio(1, HostsSeen(tools, site, |tools|))
  {
    SeenGrows(tools, site, target, |tools|);
    ChanceIsExpected(tools, 0, NOTHING, site, target);
  }

  // ----- sites without round robin -----

  // No site with two different hosts has hosts that take turns.
  ghost predicate Turnless(tools: multiset<Tool>) {
    forall t, u :: t in tools && u in tools && t != u && t.siteId == u.siteId ==> !t.roundrobin && !u.roundrobin
  }

  // And each site has one host of least name.
  ghost predicate Decided(tools: multiset<Tool>) {
    Turnless(tools) && forall t, u :: t in tools && u in tools && t.siteId == u.siteId && MinimalIn(tools, t) && MinimalIn(tools, u) ==> t == u
  }

  ghost predicate MinimalIn(tools: multiset<Tool>, t: Tool) {
    forall u :: u in tools && u.siteId == t.siteId ==> StrLeq(t.fqdn, u.fqdn)
  }

  // Two different hosts of one site have different names and neither takes turns; so it is for every part of such tools.
  ghost predicate Settled(tools: multiset<Tool>) {
    Turnless(tools) && forall t, u :: t in tools && u in tools && t != u && t.siteId == u.siteId ==> t.fqdn != u.fqdn
  }

  ghost predicate IsMinimum(tools: seq<Tool>, k: nat, t: Tool)
    requires k <= |tools|
  {
    forall i :: 0 <= i < k && tools[i].siteId == t.siteId ==> StrLeq(t.fqdn, tools[i].fqdn)
  }

  ghost predicate AllMinima(tools: seq<Tool>, k: nat, c: Choice)
    requires Sound(tools, k, c)
  {
    forall s :: s in c.hosts ==> IsMinimum(tools, k, tools[c.hosts[s]])
  }

  lemma MinimumOfMore(tools: seq<Tool>, k: nat, t: Tool)
    requires k < |tools| && IsMinimum(tools, k, t) && (tools[k].siteId == t.siteId ==> StrLeq(t.fqdn, tools[k].fqdn))
    ensures IsMinimum(tools, k + 1, t)
  {}

  // The new host of a site begins before the old one, or is its first.
  lemma NewMinimum(tools: seq<Tool>, k: nat, was: Tool)
    requires k < |tools| && IsMinimum(tools, k, was) && was.siteId == tools[k].siteId && StrLeq(tools[k].fqdn, was.fqdn)
    ensures IsMinimum(tools, k + 1, tools[k])
  {
    hide StrLeq;
    StrLeqReflexive(tools[k].fqdn);
    forall i | 0 <= i < k && tools[i].siteId == was.siteId
      ensures StrLeq(tools[k].fqdn, tools[i].fqdn)
    {
      StrLeqTransitive(tools[k].fqdn, was.fqdn, tools[i].fqdn);
    }
  }

  lemma MinimumStep(tools: seq<Tool>, k: nat, c: Choice, replace: bool, s: string)
    requires k < |tools| && Sound(tools, k, c) && AllMinima(tools, k, c) && Turnless(multiset(tools))
    requires s in See(tools, k, c, replace).hosts
    ensures IsMinimum(tools, k + 1, tools[See(tools, k, c, replace).hosts[s]])
  {
    hide StrLeq, Turnless, IsMinimum;
    var t := tools[k];
    StrLeqReflexive(t.fqdn);
    if s in c.hosts {
      var was := tools[c.hosts[s]];
      assert IsMinimum(tools, k, was);
      if s == t.siteId {
        TurnlessPair(multiset(tools), was, t);
        StrLeqTotal(was.fqdn, t.fqdn);
        if StrLeq(t.fqdn, was.fqdn) { NewMinimum(tools, k, was); }
        if StrLeq(was.fqdn, t.fqdn) { MinimumOfMore(tools, k, was); }
      } else {
        MinimumOfMore(tools, k, was);
      }
    } else {
      FirstMinimum(tools, k, c);
    }
  }

  lemma FirstMinimum(tools: seq<Tool>, k: nat, c: Choice)
    requires k < |tools| && Sound(tools, k, c) && tools[k].siteId !in c.hosts
    ensures IsMinimum(tools, k + 1, tools[k])
  {
    StrLeqReflexive(tools[k].fqdn);
  }

  lemma TurnlessPair(tools: multiset<Tool>, t: Tool, u: Tool)
    requires Turnless(tools) && t in tools && u in tools && t.siteId == u.siteId
    ensures t == u || (!t.roundrobin && !u.roundrobin)
  {}

  lemma AllMinimaStep(tools: seq<Tool>, k: nat, c: Choice, replace: bool)
    requires k < |tools| && Sound(tools, k, c) && AllMinima(tools, k, c) && Turnless(multiset(tools))
    ensures AllMinima(tools, k + 1, See(tools, k, c, replace))
  {
    hide See, IsMinimum, Turnless;
    var next := See(tools, k, c, replace);
    forall s | s in next.hosts
      ensures IsMinimum(tools, k + 1, tools[next.hosts[s]])
    {
      MinimumStep(tools, k, c, replace, s);
    }
  }

  lemma {:induction false} ChosenAreMinima(tools: seq<Tool>, draws: nat -> real, k: nat)
    requires k <= |tools| && Turnless(multiset(tools))
    ensures AllMinima(tools, k, Chosen(tools, draws, k))
  {
    hide See, Turnless, Sound, Threshold;
    if k > 0 {
      ChosenAreMinima(tools, draws, k - 1);
      var c := Chosen(tools, draws, k - 1);
      AllMinimaStep(tools, k - 1, c, draws(k - 1) < Threshold(tools, k - 1, c));
    }
  }

  /** The hosts of minimal name, one of each site: what a decided list must give, in some order. */
  ghost predicate Minima(tools: multiset<Tool>, r: seq<Tool>) {
    && (forall t :: t in r ==> t in tools && MinimalIn(tools, t))
    && (forall t :: t in tools ==> exists u :: u in r && u.siteId == t.siteId)
    && DifferentSites(r)
  }

  ghost predicate DifferentSites(r: seq<Tool>) {
    forall i, j :: 0 <= i < j < |r| ==> r[i].siteId != r[j].siteId
  }

  lemma MinimumInAll(tools: seq<Tool>, t: Tool)
    requires IsMinimum(tools, |tools|, t)
    ensures MinimalIn(multiset(tools), t)
  {}

  lemma ListedAreMinima(tools: seq<Tool>, draws: nat -> real, r: seq<Tool>)
    requires Turnless(multiset(tools)) && Lists(tools, Chosen(tools, draws, |tools|).hosts, r)
    ensures Minima(multiset(tools), r)
  {
    hide Turnless, Chosen, IsMinimum, MinimalIn, StrLeq;
    ChosenAreMinima(tools, draws, |tools|);
    var hosts := Chosen(tools, draws, |tools|).hosts;
    forall t | t in r
      ensures t in multiset(tools) && MinimalIn(multiset(tools), t)
    {
      MinimumInAll(tools, tools[hosts[t.siteId]]);
    }
    forall t | t in multiset(tools)
      ensures exists u :: u in r && u.siteId == t.siteId
    {
      var i :| 0 <= i < |r| && r[i].siteId == t.siteId;
      assert r[i] in r;
    }
  }

  lemma MinimaShare(tools: multiset<Tool>, r: seq<Tool>, q: seq<Tool>, t: Tool)
    requires Decided(tools) && Minima(tools, r) && Minima(tools, q) && t in r
    ensures t in q
  {
    hide MinimalIn, Turnless;
    var u :| u in q && u.siteId == t.siteId;
    assert MinimalIn(tools, t) && MinimalIn(tools, u);
  }

  lemma {:induction false} OnceEach(r: seq<Tool>, t: Tool)
    requires DifferentSites(r)
    ensures multiset(r)[t] == if t in r then 1 else 0
  {
    if r != [] {
      var init, last := r[..|r| - 1], r[|r| - 1];
      OnceEach(init, t);
      assert r == init + [last];
    }
  }

  /** The minima of a decided collection are unique up to order. */
  lemma MinimaAgree(tools: multiset<Tool>, r: seq<Tool>, q: seq<Tool>)
    requires Decided(tools) && Minima(tools, r) && Minima(tools, q)
    ensures multiset(r) == multiset(q)
  {
    hide Decided, MinimalIn;
    forall t: Tool
      ensures multiset(r)[t] == multiset(q)[t]
    {
      OnceEach(r, t);
      OnceEach(q, t);
      if t in r { MinimaShare(tools, r, q, t); }
      if t in q { MinimaShare(tools, q, r, t); }
    }
  }

  // ----- exactly when the choice is determined -----

  ghost function HostOf(tools: seq<Tool>, draws: nat -> real, site: string): Option<Tool> {
    var hosts := Chosen(tools, draws, |tools|).hosts;
    if site in hosts then Some(tools[hosts[site]]) else None
  }

  // The same tools give the same hosts, in whatever order they come and whatever is drawn.
  ghost predicate Determined(tools: multiset<Tool>) {
    forall a, b, x: nat -> real, y: nat -> real, site: string :: multiset(a) == tools && multiset(b) == tools ==>
      HostOf(a, x, site) == HostOf(b, y, site)
  }

  lemma HostIsMinimal(a: seq<Tool>, x: nat -> real, site: string)
    requires Turnless(multiset(a))
    ensures var h := HostOf(a, x, site);
            && (h.Some? <==> exists t :: t in multiset(a) && t.siteId == site)
            && (h.Some? ==> h.value in multiset(a) && h.value.siteId == site && MinimalIn(multiset(a), h.value))
  {
    hide Turnless, IsMinimum, MinimalIn, Chosen;
    ChosenAreMinima(a, x, |a|);
    var h := HostOf(a, x, site);
    if h.Some? {
      MinimumInAll(a, h.value);
    }
  }

  lemma DecidedIsDetermined(tools: multiset<Tool>)
    requires Decided(tools)
    ensures Determined(tools)
  {
    hide HostOf, MinimalIn, Turnless;
    forall a, b, x: nat -> real, y: nat -> real, site: string | multiset(a) == tools && multiset(b) == tools
      ensures HostOf(a, x, site) == HostOf(b, y, site)
    {
      HostIsMinimal(a, x, site);
      HostIsMinimal(b, y, site);
    }
  }

  function Low(i: nat): real { 0.0 }

  function High(i: nat): real { 1.0 }

  // The last host of the site takes its turn when 0 is drawn.
  lemma LastTakesTurn(a: seq<Tool>, k: nat, t: Tool)
    requires a != [] && a[|a| - 1] == t && t.roundrobin && k < |a| - 1 && a[k].siteId == t.siteId
    ensures HostOf(a, Low, t.siteId) == Some(t)
  {
    var c := Chosen(a, Low, |a| - 1);
    assert a[k].siteId in c.hosts;
    assert Threshold(a, |a| - 1, c) > 0.0;
  }

  lemma ThresholdAtMostOne(a: seq<Tool>, k: nat, c: Choice)
    requires k < |a| && Sound(a, k, c)
    ensures Threshold(a, k, c) <= 1.0
  {}

  lemma ChosenHigh(a: seq<Tool>, k: nat)
    requires 0 < k <= |a|
    ensures Chosen(a, High, k) == See(a, k - 1, Chosen(a, High, k - 1), false)
  {
    hide See, Threshold;
    ThresholdAtMostOne(a, k - 1, Chosen(a, High, k - 1));
  }

  // The first host of the list, or one that takes no turns, is chosen.
  ghost predicate FirstOrTurnless(a: seq<Tool>, c: Choice, k: nat)
    requires Sound(a, k, c) && 0 < k
  {
    var s := a[0].siteId;
    s in c.hosts && (a[c.hosts[s]] == a[0] || !a[c.hosts[s]].roundrobin)
  }

  // When 1 is drawn, no host takes its turn: the first stays unless a host without turns replaces it.
  lemma {:induction false} FirstStays(a: seq<Tool>, k: nat)
    requires 0 < k <= |a|
    ensures FirstOrTurnless(a, Chosen(a, High, k), k)
  {
    hide Chosen, StrLeq;
    ChosenHigh(a, k);
    if k > 1 {
      FirstStays(a, k - 1);
    }
  }

  ghost predicate FirstIn(a: seq<Tool>, c: Choice, k: nat)
    requires Sound(a, k, c) && 0 < k
  {
    a[0].siteId in c.hosts && a[c.hosts[a[0].siteId]] == a[0]
  }

  // Where no host takes turns, a first host of least name stays.
  lemma {:induction false} FirstMinimalStays(a: seq<Tool>, k: nat)
    requires 0 < k <= |a| && MinimalIn(multiset(a), a[0])
    requires forall i :: 0 <= i < |a| && a[i].siteId == a[0].siteId ==> !a[i].roundrobin
    ensures FirstIn(a, Chosen(a, High, k), k)
  {
    hide Chosen, StrLeq;
    ChosenHigh(a, k);
    if k > 1 {
      FirstMinimalStays(a, k - 1);
      assert a[k - 1] in multiset(a);
    }
  }

  // The tools in some order, after t and u.
  lemma {:induction false} Enumerate(tools: multiset<Tool>) returns (a: seq<Tool>)
    ensures multiset(a) == tools
    decreases |tools|
  {
    if tools == multiset{} {
      a := [];
    } else {
      var t :| t in tools;
      var rest := Enumerate(tools - multiset{t});
      a := rest + [t];
    }
  }

  lemma StartWith(tools: multiset<Tool>, t: Tool, u: Tool) returns (rest: seq<Tool>)
    requires t in tools && u in tools && t != u
    ensures multiset([t] + rest + [u]) == tools
  {
    rest := Enumerate(tools - multiset{t} - multiset{u});
  }

  lemma TurnsUndetermined(tools: multiset<Tool>, t: Tool, u: Tool)
    requires t in tools && u in tools && t != u && t.siteId == u.siteId && t.roundrobin
    ensures !Determined(tools)
  {
    hide Chosen;
    var rest := StartWith(tools, u, t);
    var a := [u] + rest + [t];
    LastTakesTurn(a, 0, t);
    FirstStays(a, |a|);
    assert HostOf(a, Low, t.siteId) != HostOf(a, High, t.siteId);
  }

  lemma TieUndetermined(tools: multiset<Tool>, t: Tool, u: Tool)
    requires Turnless(tools) && t in tools && u in tools && t != u && t.siteId == u.siteId
    requires MinimalIn(tools, t) && MinimalIn(tools, u)
    ensures !Determined(tools)
  {
    hide MinimalIn, Turnless, Chosen;
    var rest := StartWith(tools, t, u);
    var other := StartWith(tools, u, t);
    var a, b := [t] + rest + [u], [u] + other + [t];
    NoTurns(tools, a, t, u);
    NoTurns(tools, b, t, u);
    FirstMinimalStays(a, |a|);
    FirstMinimalStays(b, |b|);
    assert HostOf(a, High, t.siteId) != HostOf(b, High, t.siteId);
  }

  lemma NoTurns(tools: multiset<Tool>, a: seq<Tool>, t: Tool, u: Tool)
    requires Turnless(tools) && t in tools && u in tools && t != u && t.siteId == u.siteId && multiset(a) == tools
    ensures forall i :: 0 <= i < |a| && a[i].siteId == t.siteId ==> !a[i].roundrobin
  {
    forall i | 0 <= i < |a| && a[i].siteId == t.siteId
      ensures !a[i].roundrobin
    {
      assert a[i] in multiset(a);
      assert a[i] != t || a[i] != u;
    }
  }

  /**
   The hosts chosen depend on the tools alone, not on their order nor on the draws, if and only if no two different
   hosts of one site take turns or share the least name.
   */
  lemma DeterminedExactly(tools: multiset<Tool>)
    ensures Determined(tools) <==> Decided(tools)
  {
    hide Determined, MinimalIn;
    if Decided(tools) {
      DecidedIsDetermined(tools);
    } else if !Turnless(tools) {
      var t, u :| t in tools && u in tools && t != u && t.siteId == u.siteId && (t.roundrobin || u.roundrobin);
      if t.roundrobin { TurnsUndetermined(tools, t, u); } else { TurnsUndetermined(tools, u, t); }
    } else {
      var t, u :| t in tools && u in tools && t.siteId == u.siteId && MinimalIn(tools, t) && MinimalIn(tools, u) && t != u;
      TieUndetermined(tools, t, u);
    }
  }

  // ----- SliverToolFetcher -----

  function ByStatus(tools: seq<Tool>, q: Query): seq<Tool> {
    if q.status == "" then tools else Keep(tools, (t: Tool) => HasStatus(t, q.family, q.status))
  }

  function ByCountry(tools: seq<Tool>, q: Query): seq<Tool> {
    if q.country == "" then tools else Keep(tools, (t: Tool) => t.country == q.country)
  }

  // What the last filter may make of the candidates, over every outcome of the draws.
  ghost predicate Selects(candidates: seq<Tool>, q: Query, r: seq<Tool>) {
    if q.allSlivers then r == candidates
    else exists draws: nat -> real :: Lists(candidates, Chosen(candidates, draws, |candidates|).hosts, r)
  }

  // The GQL query: by tool, by the sites of the metro if one is given, by country if one is given.
  predicate Matches(t: Tool, q: Query, sites: set<string>) {
    t.toolId == q.toolId && (q.metro == "" || t.siteId in sites) && (q.country == "" || t.country == q.country)
  }

  ghost predicate FromMemcache(cached: Option<seq<Tool>>, q: Query, r: seq<Tool>) {
    if q.metro != "" || cached.None? || cached.value == [] then r == []
    else Selects(ByCountry(ByStatus(cached.value, q), q), q, r)
  }

  ghost predicate FromDatastore(stored: seq<Tool>, sites: set<string>, q: Query, r: seq<Tool>) {
    Selects(ByStatus(Keep(stored, (t: Tool) => Matches(t, q, sites)), q), q, r)
  }

  // What a query asks of a tool: of a cached one, listed under its name, no more than country and status.
  predicate Wanted(t: Tool, q: Query, sites: Option<set<string>>) {
    && (sites.Some? ==> t.toolId == q.toolId && (q.metro == "" || t.siteId in sites.value))
    && (q.country == "" || t.country == q.country)
    && (q.status == ""
        || (q.family != IPv6 && t.statusV4 == q.status)
        || (q.family != IPv4 && t.statusV6 == q.status))
  }

  // An answer: tools that fit only, all of them if all are asked for, else one of each site that has any.
  ghost predicate Answers(r: seq<Tool>, tools: seq<Tool>, q: Query, sites: Option<set<string>>) {
    && (forall t :: t in r ==> t in tools && Wanted(t, q, sites))
    && (forall t :: t in tools && Wanted(t, q, sites) ==> exists u :: u in r && u.siteId == t.siteId)
    && (if q.allSlivers then forall t: Tool :: Wanted(t, q, sites) ==> multiset(r)[t] == multiset(tools)[t] else DifferentSites(r))
  }

  ghost predicate CandidatesAre(candidates: seq<Tool>, tools: seq<Tool>, q: Query, sites: Option<set<string>>) {
    forall t: Tool :: multiset(candidates)[t] == if Wanted(t, q, sites) then multiset(tools)[t] else 0
  }

  lemma CandidateElements(candidates: seq<Tool>, tools: seq<Tool>, q: Query, sites: Option<set<string>>, t: Tool)
    requires CandidatesAre(candidates, tools, q, sites)
    ensures t in candidates <==> t in tools && Wanted(t, q, sites)
  {
    hide Wanted;
    assert (t in candidates <==> t in multiset(candidates)) && (t in tools <==> t in multiset(tools));
  }

  lemma AllAnswer(candidates: seq<Tool>, tools: seq<Tool>, q: Query, sites: Option<set<string>>)
    requires CandidatesAre(candidates, tools, q, sites) && q.allSlivers
    ensures Answers(candidates, tools, q, sites)
  {
    hide Wanted, CandidatesAre;
    forall t ensures t in candidates <==> t in tools && Wanted(t, q, sites) { CandidateElements(candidates, tools, q, sites, t); }
    forall t: Tool | Wanted(t, q, sites) ensures multiset(candidates)[t] == multiset(tools)[t] {
      CandidateCount(candidates, tools, q, sites, t);
    }
  }

  lemma CandidateCount(candidates: seq<Tool>, tools: seq<Tool>, q: Query, sites: Option<set<string>>, t: Tool)
    requires CandidatesAre(candidates, tools, q, sites) && Wanted(t, q, sites)
    ensures multiset(candidates)[t] == multiset(tools)[t]
  {}

  lemma OneEachAnswers(candidates: seq<Tool>, tools: seq<Tool>, q: Query, sites: Option<set<string>>, c: Choice, r: seq<Tool>)
    requires CandidatesAre(candidates, tools, q, sites) && !q.allSlivers && Sound(candidates, |candidates|, c) && Lists(candidates, c.hosts, r)
    ensures Answers(r, tools, q, sites)
  {
    ListedOnePerSite(candidates, c, r);
    hide Wanted, CandidatesAre, Sound, Lists, DifferentSites;
    forall t ensures t in candidates <==> t in tools && Wanted(t, q, sites) { CandidateElements(candidates, tools, q, sites, t); }
  }

  lemma SelectionAnswers(tools: seq<Tool>, candidates: seq<Tool>, q: Query, sites: Option<set<string>>, r: seq<Tool>)
    requires Selects(candidates, q, r) && CandidatesAre(candidates, tools, q, sites)
    ensures Answers(r, tools, q, sites)
  {
    hide CandidatesAre, Answers, Lists, Sound;
    if q.allSlivers {
      AllAnswer(candidates, tools, q, sites);
    } else {
      var draws: nat -> real :| Lists(candidates, Chosen(candidates, draws, |candidates|).hosts, r);
      OneEachAnswers(candidates, tools, q, sites, Chosen(candidates, draws, |candidates|), r);
    }
  }

  lemma ListedOnePerSite(candidates: seq<Tool>, c: Choice, r: seq<Tool>)
    requires Sound(candidates, |candidates|, c) && Lists(candidates, c.hosts, r)
    ensures (forall t :: t in r ==> t in candidates) && DifferentSites(r)
    ensures forall t :: t in candidates ==> exists u :: u in r && u.siteId == t.siteId
  {
    forall t | t in candidates
      ensures exists u :: u in r && u.siteId == t.siteId
    {
      var k :| 0 <= k < |candidates| && candidates[k] == t;
      var i :| 0 <= i < |r| && r[i].siteId == t.siteId;
      assert r[i] in r;
    }
  }

  lemma MemcacheAnswers(cached: seq<Tool>, q: Query, r: seq<Tool>)
    requires q.metro == "" && cached != [] && FromMemcache(Some(cached), q, r)
    ensures Answers(r, cached, q, None)
  {
    hide Selects, Answers, Keep;
    var candidates := ByCountry(ByStatus(cached, q), q);
    forall t: Tool ensures multiset(candidates)[t] == if Wanted(t, q, None) then multiset(cached)[t] else 0 {
      KeptElements(cached, (t: Tool) => HasStatus(t, q.family, q.status), t);
      KeptElements(ByStatus(cached, q), (t: Tool) => t.country == q.country, t);
    }
    SelectionAnswers(cached, candidates, q, None, r);
  }

  lemma DatastoreAnswers(stored: seq<Tool>, sites: set<string>, q: Query, r: seq<Tool>)
    requires FromDatastore(stored, sites, q, r)
    ensures Answers(r, stored, q, Some(sites))
  {
    hide Selects, Answers, ByStatus;
    var candidates := ByStatus(Keep(stored, (t: Tool) => Matches(t, q, sites)), q);
    forall t: Tool
      ensures multiset(candidates)[t] ==
              if Wanted(t, q, Some(sites)) then multiset(stored)[t] else 0
    {
      DatastoreCandidates(stored, sites, q, t);
    }
    SelectionAnswers(stored, candidates, q, Some(sites), r);
  }

  method SelectHosts(candidates: seq<Tool>, q: Query, draws: nat -> real) returns (r: seq<Tool>)
    ensures Selects(candidates, q, r)
  {
    if q.allSlivers {
      r := candidates;
    } else {
      r := ChooseOneHostPerSite(candidates, draws);
    }
  }

  method FetchFromMemcache(cached: Option<seq<Tool>>, q: Query, draws: nat -> real) returns (r: seq<Tool>)
    ensures FromMemcache(cached, q, r)
    ensures if q.metro != "" || cached.None? || cached.value == [] then r == []
            else Answers(r, cached.value, q, None)
  {
    if q.metro != "" {
      return [];
    }
    if cached.None? || cached.value == [] {
      return [];
    }
    var candidates := cached.value;
    if q.status != "" {
      candidates := FilterByStatus(candidates, q.family, q.status);
    }
    if q.country != "" {
      candidates := Keep(candidates, (t: Tool) => t.country == q.country);
    }
    r := SelectHosts(candidates, q, draws);
    MemcacheAnswers(cached.value, q, r);
  }

  method FetchFromDatastore(stored: seq<Tool>, sites: set<string>, q: Query, draws: nat -> real) returns (r: seq<Tool>)
    ensures FromDatastore(stored, sites, q, r)
    ensures Answers(r, stored, q, Some(sites))
  {
    hide Answers;
    var results := Keep(stored, (t: Tool) => Matches(t, q, sites));
    if q.status != "" {
      results := FilterByStatus(results, q.family, q.status);
    }
    r := SelectHosts(results, q, draws);
    DatastoreAnswers(stored, sites, q, r);
  }

  /** With a cache that holds the tools of the datastore and settled sites, a fetch gives what the datastore gives. */
  method Fetch(cached: Option<seq<Tool>>, stored: seq<Tool>, sites: set<string>, q: Query, cacheDraws: nat -> real, draws: nat -> real)
    returns (r: seq<Tool>)
    ensures if q.metro == "" && cached.Some? && (exists t :: t in cached.value && Wanted(t, q, None)) then FromMemcache(cached, q, r)
            else FromDatastore(stored, sites, q, r)
    ensures cached.Some? && SameTools(cached.value, stored, q) && (q.allSlivers || Settled(multiset(cached.value))) ==>
              forall d :: FromDatastore(stored, sites, q, d) ==> multiset(d) == multiset(r)
  {
    hide FromMemcache, FromDatastore, SameTools, Settled, Answers, Wanted;
    r := FetchFromMemcache(cached, q, cacheDraws);
    if q.metro == "" && cached.Some? && cached.value != [] {
      AnsweredAtAll(r, cached.value, q);
    }
    if r == [] {
      r := FetchFromDatastore(stored, sites, q, draws);
      forall d | FromDatastore(stored, sites, q, d) && cached.Some? && SameTools(cached.value, stored, q)
                 && (q.allSlivers || Settled(multiset(cached.value)))
        ensures multiset(d) == multiset(r)
      {
        DatastoreAgrees(cached.value, stored, sites, q, r, d);
      }
    } else {
      forall d | FromDatastore(stored, sites, q, d) && cached.Some? && SameTools(cached.value, stored, q)
                 && (q.allSlivers || Settled(multiset(cached.value)))
        ensures multiset(d) == multiset(r)
      {
        CacheAgrees(cached.value, stored, sites, q, r, d);
      }
    }
  }

  lemma AnsweredAtAll(r: seq<Tool>, tools: seq<Tool>, q: Query)
    requires Answers(r, tools, q, None)
    ensures r != [] <==> exists t :: t in tools && Wanted(t, q, None)
  {
    hide Wanted;
    if r != [] {
      assert r[0] in r;
    }
  }

  // The cache entry of the tool lists the tools of that name in the datastore, in any order.
  ghost predicate SameTools(cached: seq<Tool>, stored: seq<Tool>, q: Query) {
    multiset(cached) == multiset(Keep(stored, (t: Tool) => t.toolId == q.toolId))
  }

  lemma SelectionsAgree(a: seq<Tool>, b: seq<Tool>, q: Query, r: seq<Tool>, d: seq<Tool>)
    requires multiset(a) == multiset(b) && Selects(a, q, r) && Selects(b, q, d)
    requires q.allSlivers || Decided(multiset(a))
    ensures multiset(r) == multiset(d)
  {
    if !q.allSlivers {
      var x: nat -> real :| Lists(a, Chosen(a, x, |a|).hosts, r);
      var y: nat -> real :| Lists(b, Chosen(b, y, |b|).hosts, d);
      ListedAreMinima(a, x, r);
      ListedAreMinima(b, y, d);
      MinimaAgree(multiset(a), r, d);
    }
  }

  lemma SettledPart(whole: multiset<Tool>, part: multiset<Tool>)
    requires Settled(whole) && part <= whole
    ensures Decided(part)
  {
    hide StrLeq;
    assert Turnless(part);
    forall t, u | t in part && u in part && t.siteId == u.siteId && MinimalIn(part, t) && MinimalIn(part, u)
      ensures t == u
    {
      StrLeqAntisymmetric(t.fqdn, u.fqdn);
    }
  }

  lemma DatastoreCandidates(stored: seq<Tool>, sites: set<string>, q: Query, x: Tool)
    ensures multiset(ByStatus(Keep(stored, (t: Tool) => Matches(t, q, sites)), q))[x]
            == if Matches(x, q, sites) && (q.status == "" || HasStatus(x, q.family, q.status)) then multiset(stored)[x] else 0
  {
    hide Keep;
    KeptElements(stored, (t: Tool) => Matches(t, q, sites), x);
    KeptElements(Keep(stored, (t: Tool) => Matches(t, q, sites)), (t: Tool) => HasStatus(t, q.family, q.status), x);
  }

  lemma CacheCandidates(cached: seq<Tool>, stored: seq<Tool>, q: Query, x: Tool)
    requires SameTools(cached, stored, q)
    ensures multiset(ByCountry(ByStatus(cached, q), q))[x]
            == if x.toolId == q.toolId && (q.status == "" || HasStatus(x, q.family, q.status)) && (q.country == "" || x.country == q.country)
               then multiset(stored)[x] else 0
    ensures multiset(cached)[x] == if x.toolId == q.toolId then multiset(stored)[x] else 0
  {
    hide Keep;
    KeptElements(stored, (t: Tool) => t.toolId == q.toolId, x);
    KeptElements(cached, (t: Tool) => HasStatus(t, q.family, q.status), x);
    KeptElements(ByStatus(cached, q), (t: Tool) => t.country == q.country, x);
  }

  lemma DatastoreAgrees(cached: seq<Tool>, stored: seq<Tool>, sites: set<string>, q: Query, r: seq<Tool>, d: seq<Tool>)
    requires FromDatastore(stored, sites, q, r) && FromDatastore(stored, sites, q, d) && SameTools(cached, stored, q)
    requires q.allSlivers || Settled(multiset(cached))
    ensures multiset(r) == multiset(d)
  {
    hide Keep, ByStatus, Selects, Settled, Decided, SameTools, Matches;
    var candidates := ByStatus(Keep(stored, (t: Tool) => Matches(t, q, sites)), q);
    forall x: Tool
      ensures multiset(candidates)[x] <= multiset(cached)[x]
    {
      DatastoreCandidates(stored, sites, q, x);
      CacheCandidates(cached, stored, q, x);
      MatchesTool(x, q, sites);
    }
    if !q.allSlivers {
      SettledPart(multiset(cached), multiset(candidates));
    }
    SelectionsAgree(candidates, candidates, q, r, d);
  }

  lemma MatchesTool(t: Tool, q: Query, sites: set<string>)
    ensures Matches(t, q, sites) ==> t.toolId == q.toolId
    ensures q.metro == "" ==> (Matches(t, q, sites) <==> t.toolId == q.toolId && (q.country == "" || t.country == q.country))
  {}

  /** A fetch answered by memcache gives the hosts the datastore would have given, up to their order. */
  lemma CacheAgrees(cached: seq<Tool>, stored: seq<Tool>, sites: set<string>, q: Query, r: seq<Tool>, d: seq<Tool>)
    requires FromMemcache(Some(cached), q, r) && r != [] && FromDatastore(stored, sites, q, d) && SameTools(cached, stored, q)
    requires q.allSlivers || Settled(multiset(cached))
    ensures multiset(r) == multiset(d)
  {
    hide Keep, ByStatus, ByCountry, Selects, Settled, Decided, SameTools, Matches;
    var a := ByCountry(ByStatus(cached, q), q);
    var b := ByStatus(Keep(stored, (t: Tool) => Matches(t, q, sites)), q);
    forall x: Tool
      ensures multiset(a)[x] == multiset(b)[x] && multiset(a)[x] <= multiset(cached)[x]
    {
      DatastoreCandidates(stored, sites, q, x);
      CacheCandidates(cached, stored, q, x);
      MatchesTool(x, q, sites);
    }
    assert multiset(a) == multiset(b);
    if !q.allSlivers {
      SettledPart(multiset(cached), multiset(a));
    }
    SelectionsAgree(a, b, q, r, d);
  }
}
