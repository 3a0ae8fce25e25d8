/**
 * Where packets go on macOS after split mode, and what becomes of IPv6 and of failing calls
 * (crates/snxcore/src/platform/macos/routing.rs).
 */
module MacosPackets {
  import opened Wrappers
  import opened LongestMatch
  import opened MacosRouting

  // ----- One route -----

  /** A route that is new is filed and tracked, one that is there already stays as it is, a refusal ends the call. */
  lemma AddDecides(s: State, k: Key, hop: Hop)
    requires !s.failed && s.answers != []
    ensures var t := Add(s, k, hop);
            && t.answers == s.answers[1..]
            && (s.answers[0] == Refuse ==> t.failed && t.table == s.table && t.added == s.added)
            && (s.answers[0] == AlreadyExists || (s.answers[0] == Accept && k in s.table) ==>
                  !t.failed && t.table == s.table && t.added == s.added)
            && (s.answers[0] == Accept && k !in s.table ==>
                  !t.failed && t.table == s.table[k := hop] && t.added == s.added + [k])
  {
  }

  /** Without an answer about the destination, or without a gateway where one is needed, nothing is changed. */
  lemma FailsEarly(t: RouteTable, config: RoutingConfig, reply: RouteReply, answers: seq<AddReply>)
    requires !config.Cleanup?
    requires reply.NoReply? || (reply.WithoutGateway? && config.Full?)
    ensures var after := Configured(State(t, [], [], false), Call(config, reply, answers));
            after.failed && after.table == t && after.added == []
  {
    if config.Split? {
      FailedStaysFailed(State(t, [], answers, true), config.routes);
    }
  }

  // ----- Split mode -----

  function Accepts(n: nat): seq<AddReply> {
    seq(n, _ => Accept)
  }

  function Listed(routes: seq<Key>): set<Key> {
    set r | r in routes :: NetworkOf(r)
  }

  /** The table with these routes into the tunnel, where there were none. */
  function Extended(t: RouteTable, keys: set<Key>): RouteTable {
    map k | k in t.Keys + keys :: if k in t then t[k] else Tunnel
  }

  lemma {:induction false} AddAllExtends(s: State, routes: seq<Key>, n: nat)
    requires !s.failed && s.answers == Accepts(n) && n >= |routes|
    ensures !AddAll(s, routes).failed && AddAll(s, routes).table == Extended(s.table, Listed(routes))
    decreases |routes|
  {
    if routes == [] {
      assert Extended(s.table, {}) == s.table;
    } else {
      var k := NetworkOf(routes[0]);
      var next := Add(s, k, Tunnel);
      assert Accepts(n)[1..] == Accepts(n - 1);
      AddAllExtends(next, routes[1..], n - 1);
      assert Listed(routes) == {k} + Listed(routes[1..]) by { FirstListed(routes); }
      assert Extended(next.table, Listed(routes[1..])) == Extended(s.table, {k} + Listed(routes[1..]));
    }
  }

  lemma FirstListed(routes: seq<Key>)
    requires routes != []
    ensures Listed(routes) == {NetworkOf(routes[0])} + Listed(routes[1..])
  {
    assert routes == [routes[0]] + routes[1..];
  }

  /** A call in split mode whose additions are accepted where they are new. */
  function SplitCall(gateway: Address, routes: seq<Key>, reply: RouteReply): Call {
    Call(Split(gateway, routes), reply, Accepts(|routes| + 1))
  }

  /** The table as it was, with a route of its own for the gateway if it is reached through one. */
  function WithExclusion(t: RouteTable, gateway: Address, reply: RouteReply): RouteTable {
    if reply.ViaGateway? && Host(gateway) !in t then t[Host(gateway) := Gateway(reply.hop)] else t
  }

  lemma SplitTable(t: RouteTable, gateway: Address, routes: seq<Key>, reply: RouteReply)
    requires !reply.NoReply?
    ensures var after := Configured(State(t, [], [], false), SplitCall(gateway, routes, reply));
            !after.failed && after.table == Extended(WithExclusion(t, gateway, reply), Listed(routes))
  {
    var start := State(t, [], Accepts(|routes| + 1), false);
    var excluded := AddHostExclusion(start, gateway, false, reply);
    assert Accepts(|routes| + 1)[1..] == Accepts(|routes|);
    assert excluded.table == WithExclusion(t, gateway, reply);
    AddAllExtends(excluded, routes, if reply.ViaGateway? then |routes| else |routes| + 1);
  }

  /** The most specific route that contains an address is unique. */
  lemma LookupOfBest(t: RouteTable, a: Address, k: Key)
    requires Canonical(t) && IsBest(t, a, k)
    ensures Lookup(t, a) == Some(t[k])
  {
    LookupIsLongestMatch(t, a);
    var m :| IsBest(t, a, m) && t[m] == Lookup(t, a).value;
    if k.Net? {
      CanonicalContainerIsOwn(k, a);
      CanonicalContainerIsOwn(m, a);
    }
  }

  /** The route contains the address, and is longer than every route for it in the table. */
  predicate Beats(r: Key, t: RouteTable, a: Address) {
    r.Net? && Contains(r, a) && forall k | k in t && Contains(k, a) :: k.Net? && k.len < r.len
  }

  predicate ListedIsLongest(t: RouteTable, routes: seq<Key>, a: Address) {
    exists r | r in routes :: Beats(r, t, a)
  }

  lemma ListedContain(routes: seq<Key>, r: Key, a: Address)
    requires r in routes && r.Net?
    ensures NetworkOf(r) in Listed(routes) && (Contains(NetworkOf(r), a) <==> Contains(r, a))
  {
    NetworkKeepsContents(r, a);
  }

  lemma ExtendedIsCanonical(t: RouteTable, routes: seq<Key>)
    requires Canonical(t) && forall r | r in routes :: r.Net?
    ensures Canonical(Extended(t, Listed(routes)))
  {
    forall k | k in Listed(routes)
      ensures k.Net? && k.address % Block(k.len) == 0
    {
      var r :| r in routes && NetworkOf(r) == k;
      ContainsOwnNetwork(r.address, r.len);
    }
  }

  lemma LongestListedWins(t: RouteTable, routes: seq<Key>, a: Address)
    requires Canonical(t) && (forall r | r in routes :: r.Net?) && ListedIsLongest(t, routes, a)
    ensures Lookup(Extended(t, Listed(routes)), a) == Some(Tunnel)
  {
    var u := Extended(t, Listed(routes));
    var r :| r in routes && Beats(r, t, a);
    ExtendedIsCanonical(t, routes);
    ListedContain(routes, r, a);
    LookupIsLongestMatch(u, a);
    assert NetworkOf(r) in u;
    var k :| IsBest(u, a, k) && u[k] == Lookup(u, a).value;
    assert Specificity(NetworkOf(r)) <= Specificity(k);
  }

  lemma OthersKeepTheirs(t: RouteTable, routes: seq<Key>, a: Address)
    requires Canonical(t) && (forall r | r in routes :: r.Net?) && !ListedIsLongest(t, routes, a)
    ensures Lookup(Extended(t, Listed(routes)), a) == Lookup(t, a)
  {
    var u := Extended(t, Listed(routes));
    ExtendedIsCanonical(t, routes);
    LookupIsLongestMatch(t, a);
    forall m | m in u && m !in t && Contains(m, a)
      ensures exists k | k in t && Contains(k, a) :: Specificity(m) <= Specificity(k)
    {
      var r :| r in routes && NetworkOf(r) == m;
      ListedContain(routes, r, a);
      assert !Beats(r, t, a);
      var k :| k in t && Contains(k, a) && !(k.Net? && k.len < r.len);
      assert Specificity(m) <= Specificity(k) by { SpecificAtLeast(k, a, r.len); }
    }
    if Lookup(t, a).None? {
      LookupIsLongestMatch(u, a);
    } else {
      var k :| IsBest(t, a, k) && t[k] == Lookup(t, a).value;
      assert IsBest(u, a, k);
      LookupOfBest(u, a, k);
    }
  }

  lemma SpecificAtLeast(k: Key, a: Address, len: PrefixLen)
    requires Contains(k, a) && !(k.Net? && k.len < len)
    ensures len <= Specificity(k)
  {
  }

  /**
   * Split mode, whatever routes are listed and were there before: a gateway reached through another one keeps its hop;
   * every other address goes into the tunnel exactly if a listed route is longer than all earlier routes for it, and
   * keeps its way otherwise.
   */
  lemma SplitModeByAddress(t: RouteTable, gateway: Address, routes: seq<Key>, reply: RouteReply, a: Address)
    requires Canonical(t) && (forall r | r in routes :: r.Net?) && !reply.NoReply?
    requires reply.ViaGateway? ==> Lookup(t, gateway) == Some(Gateway(reply.hop))
    ensures var after := Configured(State(t, [], [], false), SplitCall(gateway, routes, reply));
            && !after.failed
            && Lookup(after.table, a)
               == if a == gateway && reply.ViaGateway? then Some(Gateway(reply.hop))
                  else if ListedIsLongest(t, routes, a) then Some(Tunnel) else Lookup(t, a)
  {
    var with := WithExclusion(t, gateway, reply);
    SplitTable(t, gateway, routes, reply);
    if a == gateway && reply.ViaGateway? {
      assert Host(a) in with;
    } else {
      SearchIgnores(t, with, a, 32, 0);
      assert ListedIsLongest(with, routes, a) <==> ListedIsLongest(t, routes, a) by { SameListed(t, with, routes, a); }
      if ListedIsLongest(with, routes, a) {
        LongestListedWins(with, routes, a);
      } else {
        OthersKeepTheirs(with, routes, a);
      }
    }
  }

  lemma SameListed(t: RouteTable, u: RouteTable, routes: seq<Key>, a: Address)
    requires forall k | Contains(k, a) :: k in t <==> k in u
    ensures ListedIsLongest(t, routes, a) <==> ListedIsLongest(u, routes, a)
  {
    if ListedIsLongest(t, routes, a) {
      var r :| r in routes && Beats(r, t, a);
      assert Beats(r, u, a);
    }
    if ListedIsLongest(u, routes, a) {
      var r :| r in routes && Beats(r, u, a);
      assert Beats(r, t, a);
    }
  }

  // ----- IPv6 in full mode -----

  /** With IPv6 disabled, both halves of it end in a black hole; otherwise its routes are left alone. */
  lemma FullModeIpv6(t: RouteTable, gateway: Address, hop: nat, disableIpv6: bool)
    requires LOW_HALF !in t && HIGH_HALF !in t
    ensures var after := Configured(State(t, [], [], false), FullCall(gateway, disableIpv6, hop));
            && !after.failed
            && (forall k: Key | k.Net6? && k !in {Net6(0, 1), Net6(0x8000, 1)} ::
                  (k in after.table <==> k in t) && (k in t ==> after.table[k] == t[k]))
            && (forall k | k in {Net6(0, 1), Net6(0x8000, 1)} ::
                  if k in t then k in after.table && after.table[k] == t[k]
                  else if disableIpv6 then k in after.table && after.table[k] == Blackhole
                  else k !in after.table)
  {
    var s0 := State(t, [], FullCall(gateway, disableIpv6, hop).answers, false);
    var s1 := AddHostExclusion(s0, gateway, true, ViaGateway(hop));
    assert s1.answers == [Accept, Accept, Accept, Accept];
    assert !s1.failed && s1.table == if Host(gateway) in t then t else t[Host(gateway) := Gateway(hop)];
    var s2 := Add(s1, LOW_HALF, Tunnel);
    assert s2.answers == [Accept, Accept, Accept] && s2.table == s1.table[LOW_HALF := Tunnel];
    var s3 := Add(s2, HIGH_HALF, Tunnel);
    assert s3.answers == [Accept, Accept] && s3.table == s2.table[HIGH_HALF := Tunnel];
    var s4 := Add(s3, LOW_HALF_V6, Blackhole);
    assert s4.answers == [Accept];
  }
}
