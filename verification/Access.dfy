/** Who may unidle: internal/handlers/unidler/restrictions.go. */
module Access {
  import opened Options
  import opened CommaList
  import opened Clusters

  /** The four global lists; None is Go's nil slice. */
  datatype Lists = Lists(
    allowedAgents: Option<seq<string>>, blockedAgents: Option<seq<string>>,
    allowedIPs: Option<seq<string>>, blockedIPs: Option<seq<string>>)

  /** regexp.MatchString(pattern, text) without its error, which counts as no match. */
  type Regex = (string, string) -> bool

  /** What a request shows of its sender. */
  datatype Request = Request(userAgent: string, trueClientIP: string, xForwardedFor: seq<string>) {
    /** True-Client-IP shadows X-Forwarded-For. */
    function ClientIPs(): seq<string> {
      if trueClientIP != "" then [trueClientIP] else xForwardedFor
    }
  }

  /** The list in force: the ingress annotation shadows the namespace's, which shadows the global one. */
  function Effective(t: Tag, global: Option<seq<string>>, namespace: Tags, ingress: Tags): seq<string> {
    if t in ingress then Split(ingress[t])
    else if t in namespace then Split(namespace[t])
    else global.GetOr([])
  }

  ghost predicate IPListed(list: seq<string>, r: Request) {
    exists ip :: ip in list && ip in r.ClientIPs()
  }

  ghost predicate AgentListed(list: seq<string>, r: Request, matches: Regex) {
    r.userAgent != "" && exists p :: p in list && matches(p, r.userAgent)
  }

  /** The access decision over three effective lists. */
  ghost predicate Allows(blockIPs: seq<string>, allowIPs: seq<string>, blockAgents: seq<string>,
                         r: Request, matches: Regex)
  {
    !IPListed(blockIPs, r) && (IPListed(allowIPs, r) || !AgentListed(blockAgents, r, matches))
  }

  ghost predicate MayUnidle(lists: Lists, namespace: Tags, ingress: Tags, r: Request, matches: Regex) {
    Allows(Effective(IpBlockList, lists.blockedIPs, namespace, ingress),
           Effective(IpAllowList, lists.allowedIPs, namespace, ingress),
           Effective(BlockedAgents, lists.blockedAgents, namespace, ingress),
           r, matches)
  }

  method CheckAgents(list: seq<string>, r: Request, matches: Regex) returns (listed: bool)
    ensures listed <==> AgentListed(list, r, matches)
  {
    if r.userAgent != "" {
      for i := 0 to |list|
        invariant forall h :: 0 <= h < i ==> !matches(list[h], r.userAgent)
      {
        if matches(list[i], r.userAgent) {
          return true;
        }
      }
    }
    listed := false;
  }

  method CheckIPList(list: seq<string>, r: Request) returns (listed: bool)
    ensures listed <==> IPListed(list, r)
  {
    var clientIPs := [];
    if r.trueClientIP != "" {
      clientIPs := clientIPs + [r.trueClientIP];
    } else {
      clientIPs := r.xForwardedFor;
    }
    assert clientIPs == r.ClientIPs();
    for i := 0 to |list|
      invariant forall h :: 0 <= h < i ==> list[h] !in clientIPs
    {
      for j := 0 to |clientIPs|
        invariant forall h :: 0 <= h < j ==> list[i] != clientIPs[h]
      {
        if list[i] == clientIPs[j] {
          assert list[i] in list && list[i] in r.ClientIPs();
          return true;
        }
      }
    }
    listed := false;
  }

  method CheckAgentAnnotations(t: Tag, global: Option<seq<string>>, namespace: Tags, ingress: Tags, r: Request,
                               matches: Regex)
    returns (listed: bool)
    ensures listed <==> AgentListed(Effective(t, global, namespace, ingress), r, matches)
  {
    listed := false;
    if t in ingress {
      listed := CheckAgents(Split(ingress[t]), r, matches);
    } else if t in namespace {
      listed := CheckAgents(Split(namespace[t]), r, matches);
    } else if global.Some? {
      listed := CheckAgents(global.value, r, matches);
    }
  }

  method CheckIPAnnotations(t: Tag, global: Option<seq<string>>, namespace: Tags, ingress: Tags, r: Request)
    returns (listed: bool)
    ensures listed <==> IPListed(Effective(t, global, namespace, ingress), r)
  {
    listed := false;
    if t in ingress {
      listed := CheckIPList(Split(ingress[t]), r);
    } else if t in namespace {
      listed := CheckIPList(Split(namespace[t]), r);
    } else if global.Some? {
      listed := CheckIPList(global.value, r);
    }
  }

  /** The decision ignores the allowed-agents lists, which the code reads to no effect. */
  method CheckAccess(lists: Lists, namespace: Tags, ingress: Tags, r: Request, matches: Regex) returns (allow: bool)
    ensures allow <==> MayUnidle(lists, namespace, ingress, r, matches)
  {
    var blockedIP := CheckIPAnnotations(IpBlockList, lists.blockedIPs, namespace, ingress, r);
    if blockedIP {
      return false;
    }
    var allowedIP := CheckIPAnnotations(IpAllowList, lists.allowedIPs, namespace, ingress, r);
    if allowedIP {
      return true;
    }
    var blockedAgent := CheckAgentAnnotations(BlockedAgents, lists.blockedAgents, namespace, ingress, r, matches);
    if blockedAgent {
      return false;
    }
    var allowedAgent := CheckAgentAnnotations(AllowedAgents, lists.allowedAgents, namespace, ingress, r, matches);
    if allowedAgent {
      return true;
    }
    allow := true;
  }

  /** Shorter block lists and a longer IP allow list never turn a request away. */
  lemma AllowsMonotone(r: Request, matches: Regex,
                       blockIPs: seq<string>, allowIPs: seq<string>, blockAgents: seq<string>,
                       blockIPs': seq<string>, allowIPs': seq<string>, blockAgents': seq<string>)
    requires Allows(blockIPs, allowIPs, blockAgents, r, matches)
    requires forall x :: x in blockIPs' ==> x in blockIPs
    requires forall x :: x in allowIPs ==> x in allowIPs'
    requires forall x :: x in blockAgents' ==> x in blockAgents
    ensures Allows(blockIPs', allowIPs', blockAgents', r, matches)
  {
    if IPListed(allowIPs, r) {
      var ip :| ip in allowIPs && ip in r.ClientIPs();
      assert ip in allowIPs';
    }
  }

  /** The comment at restrictions.go:77-78 promises that an IP allow list turns away everyone who is
      not on it. That is false: such a request is turned away exactly when its IP or its agent is blocked. */
  lemma AllowListTurnsAway(lists: Lists, namespace: Tags, ingress: Tags, r: Request, matches: Regex)
    requires !IPListed(Effective(IpAllowList, lists.allowedIPs, namespace, ingress), r)
    ensures !MayUnidle(lists, namespace, ingress, r, matches) <==>
              || IPListed(Effective(IpBlockList, lists.blockedIPs, namespace, ingress), r)
              || AgentListed(Effective(BlockedAgents, lists.blockedAgents, namespace, ingress), r, matches)
  {
  }

  lemma AllowListWitness(matches: Regex)
    ensures var ingress: Tags := map[IpAllowList := "4.3.2.1"];
            var r := Request("", "1.2.3.4", []);
            && !IPListed(Effective(IpAllowList, None, map[], ingress), r)
            && MayUnidle(Lists(None, None, None, None), map[], ingress, r, matches)
  {
    SplitOne("4.3.2.1");
    assert "4.3.2.1"[0] != "1.2.3.4"[0];
  }

  // ---------------------------------------------------------------- on raw annotations and requests

  /** The whole decision: each list is the ingress's, else the namespace's, else the global one; the client
      is its True-Client-IP or, without one, every entry of X-Forwarded-For. */
  lemma MayUnidleIff(lists: Lists, namespace: Tags, ingress: Tags, r: Request, matches: Regex,
                     blockIPs: seq<string>, allowIPs: seq<string>, blockAgents: seq<string>, clients: seq<string>)
    requires blockIPs == if IpBlockList in ingress then Split(ingress[IpBlockList])
                         else if IpBlockList in namespace then Split(namespace[IpBlockList])
                         else lists.blockedIPs.GetOr([])
    requires allowIPs == if IpAllowList in ingress then Split(ingress[IpAllowList])
                         else if IpAllowList in namespace then Split(namespace[IpAllowList])
                         else lists.allowedIPs.GetOr([])
    requires blockAgents == if BlockedAgents in ingress then Split(ingress[BlockedAgents])
                            else if BlockedAgents in namespace then Split(namespace[BlockedAgents])
                            else lists.blockedAgents.GetOr([])
    requires clients == if r.trueClientIP != "" then [r.trueClientIP] else r.xForwardedFor
    ensures MayUnidle(lists, namespace, ingress, r, matches) <==>
              && (forall ip :: ip in blockIPs ==> ip !in clients)
              && ((exists ip :: ip in allowIPs && ip in clients)
                  || r.userAgent == ""
                  || forall p :: p in blockAgents ==> !matches(p, r.userAgent))
  {
    assert r.ClientIPs() == clients;
    assert Effective(IpBlockList, lists.blockedIPs, namespace, ingress) == blockIPs;
    assert Effective(IpAllowList, lists.allowedIPs, namespace, ingress) == allowIPs;
    assert Effective(BlockedAgents, lists.blockedAgents, namespace, ingress) == blockAgents;
  }

  /** Where all three keys are on the ingress, neither the namespace nor the global lists matter. */
  lemma IngressShadows(lists: Lists, namespace: Tags, ingress: Tags, lists': Lists, namespace': Tags, r: Request,
                       matches: Regex)
    requires IpBlockList in ingress || (namespace' == namespace && lists'.blockedIPs == lists.blockedIPs)
    requires IpAllowList in ingress || (namespace' == namespace && lists'.allowedIPs == lists.allowedIPs)
    requires BlockedAgents in ingress || (namespace' == namespace && lists'.blockedAgents == lists.blockedAgents)
    ensures MayUnidle(lists, namespace, ingress, r, matches) <==> MayUnidle(lists', namespace', ingress, r, matches)
  {
  }

  /** The same key by key: one on the ingress hides the namespace's value and the global list, one on the
      namespace hides the global list. */
  lemma KeyShadows(lists: Lists, namespace: Tags, ingress: Tags, t: Tag, lists': Lists, namespace': Tags, r: Request,
                   matches: Regex)
    requires t in ingress || (t in namespace && namespace' == namespace)
    requires forall u :: u != t ==> Get(namespace', u) == Get(namespace, u)
    requires t != IpBlockList ==> lists'.blockedIPs == lists.blockedIPs
    requires t != IpAllowList ==> lists'.allowedIPs == lists.allowedIPs
    requires t != BlockedAgents ==> lists'.blockedAgents == lists.blockedAgents
    ensures MayUnidle(lists, namespace, ingress, r, matches) <==> MayUnidle(lists', namespace', ingress, r, matches)
  {
    SameEffective(IpBlockList, t, lists.blockedIPs, lists'.blockedIPs, namespace, namespace', ingress);
    SameEffective(IpAllowList, t, lists.allowedIPs, lists'.allowedIPs, namespace, namespace', ingress);
    SameEffective(BlockedAgents, t, lists.blockedAgents, lists'.blockedAgents, namespace, namespace', ingress);
  }

  lemma SameEffective(u: Tag, t: Tag, global: Option<seq<string>>, global': Option<seq<string>>, namespace: Tags,
                      namespace': Tags, ingress: Tags)
    requires t in ingress || (t in namespace && namespace' == namespace)
    requires u != t ==> global' == global && Get(namespace', u) == Get(namespace, u)
    ensures Effective(u, global, namespace, ingress) == Effective(u, global', namespace', ingress)
  {
  }

  /** A True-Client-IP hides X-Forwarded-For. */
  lemma ClientShadows(lists: Lists, namespace: Tags, ingress: Tags, agent: string, ip: string, xff: seq<string>,
                      xff': seq<string>, matches: Regex)
    requires ip != ""
    ensures MayUnidle(lists, namespace, ingress, Request(agent, ip, xff), matches) <==>
              MayUnidle(lists, namespace, ingress, Request(agent, ip, xff'), matches)
  {
    assert Request(agent, ip, xff).ClientIPs() == Request(agent, ip, xff').ClientIPs();
  }

  /** Blocking an address wins over allowing it, on whatever level it is blocked, and an allowed address
      that is not blocked gets in whatever its agent. */
  lemma BlockedBeatsAllowed(lists: Lists, namespace: Tags, ingress: Tags, r: Request, matches: Regex, ip: string)
    requires if r.trueClientIP != "" then ip == r.trueClientIP else ip in r.xForwardedFor
    requires if IpBlockList in ingress then ip in Split(ingress[IpBlockList])
             else if IpBlockList in namespace then ip in Split(namespace[IpBlockList])
             else ip in lists.blockedIPs.GetOr([])
    ensures !MayUnidle(lists, namespace, ingress, r, matches)
  {
    assert ip in r.ClientIPs();
  }

  /** An allowed address gets in whatever its agent, unless it is blocked too. */
  lemma AllowedGetsIn(lists: Lists, namespace: Tags, ingress: Tags, r: Request, matches: Regex, ip: string,
                      blockIPs: seq<string>, clients: seq<string>)
    requires clients == if r.trueClientIP != "" then [r.trueClientIP] else r.xForwardedFor
    requires blockIPs == if IpBlockList in ingress then Split(ingress[IpBlockList])
                         else if IpBlockList in namespace then Split(namespace[IpBlockList])
                         else lists.blockedIPs.GetOr([])
    requires forall x :: x in blockIPs ==> x !in clients
    requires ip in clients
    requires if IpAllowList in ingress then ip in Split(ingress[IpAllowList])
             else if IpAllowList in namespace then ip in Split(namespace[IpAllowList])
             else ip in lists.allowedIPs.GetOr([])
    ensures MayUnidle(lists, namespace, ingress, r, matches)
  {
    assert r.ClientIPs() == clients;
  }

  /** A request without an agent is never blocked by one: no list of blocked agents matters. */
  lemma NoAgentNoBlock(lists: Lists, namespace: Tags, ingress: Tags, r: Request, matches: Regex)
    requires r.userAgent == ""
    ensures MayUnidle(lists, namespace, ingress, r, matches) <==>
              MayUnidle(lists.(blockedAgents := None), namespace - {BlockedAgents}, ingress - {BlockedAgents}, r,
                        matches)
  {
    var ns', ing' := namespace - {BlockedAgents}, ingress - {BlockedAgents};
    assert Effective(IpBlockList, lists.blockedIPs, ns', ing')
           == Effective(IpBlockList, lists.blockedIPs, namespace, ingress);
    assert Effective(IpAllowList, lists.allowedIPs, ns', ing')
           == Effective(IpAllowList, lists.allowedIPs, namespace, ingress);
  }
}
