/**
 * Policy routing on Linux (crates/snxcore/src/platform/linux/routing.rs): rules ordered by priority that lead into
 * routing tables, and what configuring and cleaning up do to every packet.
 */
module LinuxRouting {
  import opened Wrappers
  import opened LongestMatch

  const IP_RULE_TABLE: nat := 18000
  const IPSEC_SCV_PORT: nat := 18233
  const IPSEC_KEEPALIVE_PORT: nat := 18234

  datatype Hop = Tunnel | Elsewhere(hop: nat)

  datatype Packet = Packet(dst: Address, udp: bool, port: nat, rest: nat)

  /** The two kinds of rule the program adds, and any rule of someone else, known by what `foreign` says it selects. */
  datatype Selector = NotTo(dst: Address) | ToUdpPort(dst: Address, port: nat) | Foreign(id: nat)

  datatype Rule = Rule(priority: nat, selector: Selector, table: nat)

  type Foreigners = (nat, Packet) -> bool

  type Tables = map<nat, Table<Hop>>

  datatype KernelState = KernelState(rules: seq<Rule>, tables: Tables, disableIpv6: string)

  datatype TunnelType = IPsec | Ssl

  datatype RoutingConfig =
    | Full(destination: Address, disableIpv6: bool)
    | Split(destination: Address, routes: seq<Key>)
    | Cleanup(destination: Address, enableIpv6: bool)

  // ----- How the kernel routes -----

  predicate Matches(f: Foreigners, r: Rule, p: Packet) {
    match r.selector
    case NotTo(dst) => p.dst != dst
    case ToUdpPort(dst, port) => p.dst == dst && p.udp && p.port == port
    case Foreign(id) => f(id, p)
  }

  function TableOf(tables: Tables, id: nat): Table<Hop> {
    if id in tables then tables[id] else map[]
  }

  /** Rules are tried in order; the first that selects the packet and whose table has a route decides. */
  function Route(f: Foreigners, rules: seq<Rule>, tables: Tables, p: Packet): Option<Hop> {
    if rules == [] then None
    else
      var found := if Matches(f, rules[0], p) then Lookup(TableOf(tables, rules[0].table), p.dst) else None;
      if found.Some? then found else Route(f, rules[1..], tables, p)
  }

  /** A new rule goes behind all rules of the same or a smaller priority value. */
  function Insert(rules: seq<Rule>, r: Rule): seq<Rule> {
    if rules != [] && rules[0].priority <= r.priority then [rules[0]] + Insert(rules[1..], r) else [r] + rules
  }

  function Remove(rules: seq<Rule>, r: Rule): seq<Rule> {
    if rules == [] then [] else if rules[0] == r then rules[1..] else [rules[0]] + Remove(rules[1..], r)
  }

  /** Adding a rule or a route that is there already fails with EEXIST, which the program ignores. */
  function AddRule(rules: seq<Rule>, r: Rule): seq<Rule> {
    if r in rules then rules else Insert(rules, r)
  }

  function AddTunnelRoute(tables: Tables, k: Key): Tables {
    var t := TableOf(tables, IP_RULE_TABLE);
    tables[IP_RULE_TABLE := if k in t then t else t[k := Tunnel]]
  }

  // ----- What the program does -----

  function ExclusionRule(destination: Address): Rule {
    Rule(IP_RULE_TABLE, NotTo(destination), IP_RULE_TABLE)
  }

  function KeepaliveRule(destination: Address, port: nat): Rule {
    Rule(port, ToUdpPort(destination, port), IP_RULE_TABLE)
  }

  function WithKeepalive(rules: seq<Rule>, destination: Address): seq<Rule> {
    AddRule(AddRule(rules, KeepaliveRule(destination, IPSEC_SCV_PORT)),
        KeepaliveRule(destination, IPSEC_KEEPALIVE_PORT))
  }

  function WithoutKeepalive(rules: seq<Rule>, destination: Address): seq<Rule> {
    Remove(Remove(rules, KeepaliveRule(destination, IPSEC_SCV_PORT)), KeepaliveRule(destination, IPSEC_KEEPALIVE_PORT))
  }

  function NetworkOf(k: Key): Key {
    if k.Net? then NetOf(k.address, k.len) else k
  }

  function NetworksOf(routes: set<Key>): set<Key> {
    set r | r in routes :: NetworkOf(r)
  }

  function Distinct(routes: seq<Key>): set<Key> {
    set r | r in routes
  }

  lemma NetworksWithout(routes: set<Key>, r: Key)
    requires r in routes
    ensures NetworksOf(routes) == {NetworkOf(r)} + NetworksOf(routes - {r})
  {
  }

  function TunnelRoutes(keys: set<Key>): Table<Hop> {
    map k | k in keys :: Tunnel
  }

  /** Routes that are there already keep their hop. */
  function WithRoutes(tables: Tables, keys: set<Key>): Tables {
    tables[IP_RULE_TABLE := TunnelRoutes(keys) + TableOf(tables, IP_RULE_TABLE)]
  }

  lemma AddRouteToRoutes(tables: Tables, keys: set<Key>, k: Key)
    ensures AddTunnelRoute(WithRoutes(tables, keys), k) == WithRoutes(tables, keys + {k})
  {
    var t := TunnelRoutes(keys) + TableOf(tables, IP_RULE_TABLE);
    assert (if k in t then t else t[k := Tunnel]) == TunnelRoutes(keys + {k}) + TableOf(tables, IP_RULE_TABLE);
  }

  lemma AddFirstRoute(tables: Tables, k: Key)
    ensures AddTunnelRoute(tables, k) == WithRoutes(tables, {k})
  {
    var t := TableOf(tables, IP_RULE_TABLE);
    assert (if k in t then t else t[k := Tunnel]) == TunnelRoutes({k}) + t;
  }

  /** All the state a configuration leaves, from the state it finds. */
  function Configured(k: KernelState, tunnelType: TunnelType, config: RoutingConfig): KernelState {
    match config
    case Full(destination, disableIpv6) =>
      var rules := AddRule(k.rules, ExclusionRule(destination));
      var tables := AddTunnelRoute(k.tables, Net(0, 0));
      var flag := if disableIpv6 then "1" else k.disableIpv6;
      if tunnelType == IPsec then
        KernelState(WithKeepalive(rules, destination), AddTunnelRoute(tables, Net(destination, 32)), flag)
      else KernelState(rules, tables, flag)
    case Split(destination, routes) =>
      var rules := AddRule(k.rules, ExclusionRule(destination));
      var tables := if routes == [] then k.tables else WithRoutes(k.tables, NetworksOf(Distinct(routes)));
      KernelState(if tunnelType == IPsec then WithKeepalive(rules, destination) else rules, tables, k.disableIpv6)
    case Cleanup(destination, enableIpv6) =>
      var rules := Remove(k.rules, ExclusionRule(destination));
      KernelState(if tunnelType == IPsec then WithoutKeepalive(rules, destination) else rules, k.tables,
                  if enableIpv6 then "0" else k.disableIpv6)
  }

  class Kernel {
    var rules: seq<Rule>
    var tables: Tables
    var disableIpv6: string

    constructor (state: KernelState)
      ensures View() == state
    {
      rules, tables, disableIpv6 := state.rules, state.tables, state.disableIpv6;
    }

    ghost function View(): KernelState
      reads this
    {
      KernelState(rules, tables, disableIpv6)
    }

    method RuleAdd(r: Rule)
      modifies this`rules
      ensures rules == AddRule(old(rules), r)
    {
      if r !in rules {
        rules := Insert(rules, r);
      }
    }

    method RuleDel(r: Rule)
      modifies this`rules
      ensures rules == Remove(old(rules), r)
    {
      rules := Remove(rules, r);
    }

    method RouteAdd(k: Key)
      modifies this`tables
      ensures tables == AddTunnelRoute(old(tables), k)
    {
      var t := TableOf(tables, IP_RULE_TABLE);
      if k in t {
        tables := tables[IP_RULE_TABLE := t];
      } else {
        tables := tables[IP_RULE_TABLE := t[k := Tunnel]];
      }
    }
  }

  class LinuxRoutingConfigurator {
    const kernel: Kernel
    const tunnelType: TunnelType

    constructor (kernel: Kernel, tunnelType: TunnelType)
      ensures this.kernel == kernel && this.tunnelType == tunnelType
    {
      this.kernel, this.tunnelType := kernel, tunnelType;
    }

    /** Adds the routes in whatever order the set yields them. */
    method AddRoutes(routes: seq<Key>)
      modifies kernel`tables
      ensures kernel.tables == if routes == [] then old(kernel.tables)
          else WithRoutes(old(kernel.tables), NetworksOf(Distinct(routes)))
    {
      var todo := Distinct(routes);
      ghost var all := NetworksOf(todo);
      ghost var done: set<Key> := {};
      while todo != {}
        invariant done + NetworksOf(todo) == all
        invariant done == {} ==> kernel.tables == old(kernel.tables) && todo == Distinct(routes)
        invariant done != {} ==> kernel.tables == WithRoutes(old(kernel.tables), done)
        decreases todo
      {
        var route :| route in todo;
        NetworksWithout(todo, route);
        kernel.RouteAdd(NetworkOf(route));
        if done == {} {
          AddFirstRoute(old(kernel.tables), NetworkOf(route));
        } else {
          AddRouteToRoutes(old(kernel.tables), done, NetworkOf(route));
        }
        assert done == {} ==> done + {NetworkOf(route)} == {NetworkOf(route)};
        done, todo := done + {NetworkOf(route)}, todo - {route};
      }
      assert done == all;
      assert routes != [] ==> routes[0] in Distinct(routes);
    }

    method AddKeepaliveRule(destination: Address)
      modifies kernel`rules
      ensures kernel.rules == WithKeepalive(old(kernel.rules), destination)
    {
      var ports := [IPSEC_SCV_PORT, IPSEC_KEEPALIVE_PORT];
      for i := 0 to |ports|
        invariant i == 0 ==> kernel.rules == old(kernel.rules)
        invariant i == 1 ==> kernel.rules == AddRule(old(kernel.rules), KeepaliveRule(destination, IPSEC_SCV_PORT))
        invariant i == 2 ==> kernel.rules == WithKeepalive(old(kernel.rules), destination)
      {
        kernel.RuleAdd(KeepaliveRule(destination, ports[i]));
      }
    }

    method RemoveKeepaliveRule(destination: Address)
      modifies kernel`rules
      ensures kernel.rules == WithoutKeepalive(old(kernel.rules), destination)
    {
      var ports := [IPSEC_SCV_PORT, IPSEC_KEEPALIVE_PORT];
      for i := 0 to |ports|
        invariant i == 0 ==> kernel.rules == old(kernel.rules)
        invariant i == 1 ==> kernel.rules == Remove(old(kernel.rules), KeepaliveRule(destination, IPSEC_SCV_PORT))
        invariant i == 2 ==> kernel.rules == WithoutKeepalive(old(kernel.rules), destination)
      {
        kernel.RuleDel(KeepaliveRule(destination, ports[i]));
      }
    }

    method Configure(config: RoutingConfig)
      modifies kernel
      ensures kernel.View() == Configured(old(kernel.View()), tunnelType, config)
    {
      match config
      case Full(destination, disableIpv6) =>
        kernel.RuleAdd(ExclusionRule(destination));
        kernel.RouteAdd(Net(0, 0));
        if disableIpv6 {
          kernel.disableIpv6 := "1";
        }
        if tunnelType == IPsec {
          kernel.RouteAdd(Net(destination, 32));
          AddKeepaliveRule(destination);
        }
      case Split(destination, routes) =>
        kernel.RuleAdd(ExclusionRule(destination));
        AddRoutes(routes);
        if tunnelType == IPsec {
          AddKeepaliveRule(destination);
        }
      case Cleanup(destination, enableIpv6) =>
        kernel.RuleDel(ExclusionRule(destination));
        if enableIpv6 {
          kernel.disableIpv6 := "0";
        }
        if tunnelType == IPsec {
          RemoveKeepaliveRule(destination);
        }
    }
  }

  // ----- What it means for packets -----

  predicate Sorted(rules: seq<Rule>) {
    forall i, j | 0 <= i < j < |rules| :: rules[i].priority <= rules[j].priority
  }

  /** Nothing of someone else uses the program's table or its rule priorities. */
  predicate Unused(k: KernelState) {
    && Sorted(k.rules)
    && TableOf(k.tables, IP_RULE_TABLE) == map[]
    && forall r | r in k.rules ::
         && r.table != IP_RULE_TABLE
         && r.priority !in {18000, 18233, 18234}
  }

  function OrElse<T>(a: Option<T>, b: Option<T>): Option<T> {
    if a.Some? then a else b
  }

  /** The rules consulted before a given priority, and those from it on. */
  function Before(rules: seq<Rule>, priority: nat): seq<Rule> {
    if rules != [] && rules[0].priority < priority then [rules[0]] + Before(rules[1..], priority) else []
  }

  function From(rules: seq<Rule>, priority: nat): seq<Rule> {
    if rules != [] && rules[0].priority < priority then From(rules[1..], priority) else rules
  }

  lemma {:induction false} RouteThroughInserted(f: Foreigners, rules: seq<Rule>, r: Rule, tables: Tables, p: Packet)
    requires forall q | q in rules :: q.priority != r.priority
    ensures Route(f, Insert(rules, r), tables, p)
      == OrElse(Route(f, Before(rules, r.priority), tables, p),
         OrElse(if Matches(f, r, p) then Lookup(TableOf(tables, r.table), p.dst) else None,
                Route(f, From(rules, r.priority), tables, p)))
  {
    if rules != [] && rules[0].priority <= r.priority {
      assert rules[0] in rules;
      RouteThroughInserted(f, rules[1..], r, tables, p);
      var rest := Before(rules[1..], r.priority);
      assert ([rules[0]] + Insert(rules[1..], r))[1..] == Insert(rules[1..], r);
      assert ([rules[0]] + rest)[1..] == rest;
    } else {
      assert ([r] + rules)[1..] == rules;
    }
  }

  lemma {:induction false} RouteSplits(f: Foreigners, rules: seq<Rule>, priority: nat, tables: Tables, p: Packet)
    ensures Route(f, rules, tables, p)
      == OrElse(Route(f, Before(rules, priority), tables, p), Route(f, From(rules, priority), tables, p))
  {
    if rules != [] && rules[0].priority < priority {
      RouteSplits(f, rules[1..], priority, tables, p);
      var rest := Before(rules[1..], priority);
      assert ([rules[0]] + rest)[1..] == rest;
    }
  }

  lemma InsertUnmatched(f: Foreigners, rules: seq<Rule>, r: Rule, tables: Tables, p: Packet)
    requires forall q | q in rules :: q.priority != r.priority
    requires !Matches(f, r, p) || Lookup(TableOf(tables, r.table), p.dst).None?
    ensures Route(f, Insert(rules, r), tables, p) == Route(f, rules, tables, p)
  {
    RouteThroughInserted(f, rules, r, tables, p);
    RouteSplits(f, rules, r.priority, tables, p);
  }

  lemma {:induction false} RouteIgnoresTable(f: Foreigners, rules: seq<Rule>, a: Tables, b: Tables, p: Packet)
    requires forall r | r in rules :: TableOf(a, r.table) == TableOf(b, r.table)
    ensures Route(f, rules, a, p) == Route(f, rules, b, p)
  {
    if rules != [] {
      assert rules[0] in rules;
      RouteIgnoresTable(f, rules[1..], a, b, p);
    }
  }

  lemma {:induction false} InsertMembers(rules: seq<Rule>, r: Rule)
    ensures forall q :: q in Insert(rules, r) <==> q in rules || q == r
  {
    if rules != [] && rules[0].priority <= r.priority {
      InsertMembers(rules[1..], r);
      assert forall q :: q in rules <==> q == rules[0] || q in rules[1..];
    }
  }

  lemma {:induction false} BeforeInserted(rules: seq<Rule>, r: Rule, priority: nat)
    requires r.priority < priority
    ensures Before(Insert(rules, r), priority) == Insert(Before(rules, priority), r)
  {
    if rules != [] && rules[0].priority <= r.priority {
      BeforeInserted(rules[1..], r, priority);
      assert ([rules[0]] + Insert(rules[1..], r))[1..] == Insert(rules[1..], r);
      assert ([rules[0]] + Before(rules[1..], priority))[1..] == Before(rules[1..], priority);
    } else {
      assert ([r] + rules)[1..] == rules;
    }
  }

  lemma {:induction false} InsertKeepsSorted(rules: seq<Rule>, r: Rule)
    requires Sorted(rules)
    ensures Sorted(Insert(rules, r))
  {
    if rules != [] && rules[0].priority <= r.priority {
      InsertKeepsSorted(rules[1..], r);
      InsertMembers(rules[1..], r);
      var inserted := Insert(rules, r);
      forall i, j | 0 <= i < j < |inserted|
        ensures inserted[i].priority <= inserted[j].priority
      {
        if i == 0 {
          assert inserted[j] in Insert(rules[1..], r);
        }
      }
    }
  }

  lemma {:induction false} RemoveInserted(rules: seq<Rule>, r: Rule)
    requires r !in rules
    ensures Remove(Insert(rules, r), r) == rules
  {
    if rules != [] && rules[0].priority <= r.priority {
      RemoveInserted(rules[1..], r);
      assert ([rules[0]] + Insert(rules[1..], r))[1..] == Insert(rules[1..], r);
    }
  }

  lemma {:induction false} RemovePastInsert(rules: seq<Rule>, gone: Rule, r: Rule)
    requires Sorted(rules) && gone != r
    ensures Remove(Insert(rules, r), gone) == Insert(Remove(rules, gone), r)
  {
    if rules != [] && rules[0].priority <= r.priority {
      RemovePastInsert(rules[1..], gone, r);
      assert ([rules[0]] + Insert(rules[1..], r))[1..] == Insert(rules[1..], r);
      if rules[0] != gone {
        assert ([rules[0]] + Remove(rules[1..], gone))[1..] == Remove(rules[1..], gone);
      }
    } else if rules != [] {
      assert ([r] + rules)[1..] == rules;
      assert rules[0] == gone && |rules| > 1 ==> rules[1].priority >= rules[0].priority;
    }
  }

  // ----- What a configuration does to each packet -----

  predicate IsConnect(config: RoutingConfig) {
    !config.Cleanup? && (config.Split? ==> forall r | r in config.routes :: r.Net?)
  }

  /** The addresses a configuration sends through the tunnel, the gateway aside. */
  predicate Covered(config: RoutingConfig, a: Address) {
    config.Full? || (config.Split? && exists r | r in config.routes :: Contains(r, a))
  }

  predicate IsKeepalive(tunnelType: TunnelType, config: RoutingConfig, p: Packet) {
    tunnelType == IPsec && p.dst == config.destination && p.udp && p.port in {18233, 18234}
  }

  /** The keys of the routes a configuration puts into the empty table. */
  function RouteKeys(tunnelType: TunnelType, config: RoutingConfig): set<Key> {
    match config
    case Full(destination, _) => if tunnelType == IPsec then {Net(0, 0), Net(destination, 32)} else {Net(0, 0)}
    case Split(_, routes) => NetworksOf(Distinct(routes))
    case Cleanup(_, _) => {}
  }

  lemma TableAfter(k: KernelState, tunnelType: TunnelType, config: RoutingConfig)
    requires Unused(k) && !config.Cleanup?
    ensures var tables := Configured(k, tunnelType, config).tables;
            && TableOf(tables, IP_RULE_TABLE) == TunnelRoutes(RouteKeys(tunnelType, config))
            && forall t | t != IP_RULE_TABLE :: TableOf(tables, t) == TableOf(k.tables, t)
  {
    match config
    case Full(destination, _) =>
      AddFirstRoute(k.tables, Net(0, 0));
      AddRouteToRoutes(k.tables, {Net(0, 0)}, Net(destination, 32));
      assert {Net(0, 0)} + {Net(destination, 32)} == {Net(0, 0), Net(destination, 32)};
      assert forall keys: set<Key> :: TunnelRoutes(keys) + map[] == TunnelRoutes(keys);
    case Split(_, routes) =>
      assert forall keys: set<Key> :: TunnelRoutes(keys) + map[] == TunnelRoutes(keys);
      if routes == [] {
        assert TunnelRoutes({}) == map[];
        assert NetworksOf(Distinct(routes)) == {};
      }
  }

  lemma RouteKeysCover(tunnelType: TunnelType, config: RoutingConfig, a: Address)
    requires IsConnect(config)
    ensures Canonical(TunnelRoutes(RouteKeys(tunnelType, config)))
    ensures Covered(config, a) <==> exists k | k in RouteKeys(tunnelType, config) :: Contains(k, a)
  {
    match config
    case Full(destination, _) =>
      BroadNetworks(a);
      assert Net(0, 0) in RouteKeys(tunnelType, config);
    case Split(_, routes) =>
      var keys := NetworksOf(Distinct(routes));
      forall k | k in keys
        ensures k.Net? && k.address % Block(k.len) == 0
      {
        var r :| r in routes && NetworkOf(r) == k;
        ContainsOwnNetwork(r.address, r.len);
      }
      forall r | r in routes
        ensures NetworkOf(r) in keys && (Contains(NetworkOf(r), a) <==> Contains(r, a))
      {
        assert r in Distinct(routes);
        NetworkKeepsContents(r, a);
      }
  }

  /** Table 18000 sends covered addresses into the tunnel and knows no others. */
  lemma TunnelTable(k: KernelState, tunnelType: TunnelType, config: RoutingConfig, a: Address)
    requires Unused(k) && IsConnect(config)
    ensures Lookup(TableOf(Configured(k, tunnelType, config).tables, 18000), a)
      == if Covered(config, a) then Some(Tunnel) else None
  {
    TableAfter(k, tunnelType, config);
    RouteKeysCover(tunnelType, config, a);
    LookupIsLongestMatch(TunnelRoutes(RouteKeys(tunnelType, config)), a);
  }

  lemma OtherRulesUnaffected(f: Foreigners, k: KernelState, rules: seq<Rule>, tunnelType: TunnelType,
      config: RoutingConfig, p: Packet)
    requires Unused(k) && !config.Cleanup?
    requires forall r | r in rules :: r in k.rules
    ensures Route(f, rules, Configured(k, tunnelType, config).tables, p) == Route(f, rules, k.tables, p)
  {
    TableAfter(k, tunnelType, config);
    RouteIgnoresTable(f, rules, Configured(k, tunnelType, config).tables, k.tables, p);
  }

  lemma {:induction false} PartsOfRules(rules: seq<Rule>, priority: nat)
    ensures forall r | r in Before(rules, priority) :: r in rules
    ensures forall r | r in From(rules, priority) :: r in rules
  {
    if rules != [] && rules[0].priority < priority {
      PartsOfRules(rules[1..], priority);
    }
  }

  /** The rules after a configuration: up to three more, each in its place. */
  lemma RulesAfter(k: KernelState, tunnelType: TunnelType, config: RoutingConfig)
    requires Unused(k) && !config.Cleanup?
    ensures var rules := Configured(k, tunnelType, config).rules;
            var d := config.destination;
            var one := Insert(k.rules, ExclusionRule(d));
            var two := Insert(one, KeepaliveRule(d, IPSEC_SCV_PORT));
            && (forall r | r in one :: r.priority != IPSEC_SCV_PORT && r.priority != IPSEC_KEEPALIVE_PORT)
            && (forall r | r in two :: r.priority != IPSEC_KEEPALIVE_PORT)
            && rules == if tunnelType == IPsec then Insert(two, KeepaliveRule(d, IPSEC_KEEPALIVE_PORT)) else one
  {
    var d := config.destination;
    var one := Insert(k.rules, ExclusionRule(d));
    InsertMembers(k.rules, ExclusionRule(d));
    InsertMembers(one, KeepaliveRule(d, IPSEC_SCV_PORT));
  }

  /** Packets to the gateway, the keepalive and probe traffic of IPsec aside, go where they went before. */
  lemma GatewayUnchanged(f: Foreigners, k: KernelState, tunnelType: TunnelType, config: RoutingConfig, p: Packet)
    requires Unused(k) && IsConnect(config)
    requires p.dst == config.destination && !IsKeepalive(tunnelType, config, p)
    ensures var after := Configured(k, tunnelType, config);
            Route(f, after.rules, after.tables, p) == Route(f, k.rules, k.tables, p)
  {
    var tables, d := Configured(k, tunnelType, config).tables, config.destination;
    RulesAfter(k, tunnelType, config);
    var one := Insert(k.rules, ExclusionRule(d));
    InsertUnmatched(f, k.rules, ExclusionRule(d), tables, p);
    OtherRulesUnaffected(f, k, k.rules, tunnelType, config, p);
    if tunnelType == IPsec {
      InsertUnmatched(f, one, KeepaliveRule(d, IPSEC_SCV_PORT), tables, p);
      InsertUnmatched(f, Insert(one, KeepaliveRule(d, IPSEC_SCV_PORT)), KeepaliveRule(d, IPSEC_KEEPALIVE_PORT),
          tables, p);
    }
  }

  /**
   * Packets to any other address: if it is covered, they enter the tunnel unless a rule ahead of priority 18000
   * has a route for them; if it is not, they go where they went before.
   */
  lemma OthersFollowCoverage(f: Foreigners, k: KernelState, tunnelType: TunnelType, config: RoutingConfig, p: Packet)
    requires Unused(k) && IsConnect(config)
    requires p.dst != config.destination
    ensures var after := Configured(k, tunnelType, config);
            Route(f, after.rules, after.tables, p)
            == if Covered(config, p.dst) then OrElse(Route(f, Before(k.rules, 18000), k.tables, p),
                Some(Tunnel))
               else Route(f, k.rules, k.tables, p)
  {
    var tables, d := Configured(k, tunnelType, config).tables, config.destination;
    RulesAfter(k, tunnelType, config);
    var one := Insert(k.rules, ExclusionRule(d));
    if tunnelType == IPsec {
      InsertUnmatched(f, one, KeepaliveRule(d, IPSEC_SCV_PORT), tables, p);
      InsertUnmatched(f, Insert(one, KeepaliveRule(d, IPSEC_SCV_PORT)), KeepaliveRule(d, IPSEC_KEEPALIVE_PORT),
          tables, p);
    }
    TunnelTable(k, tunnelType, config, p.dst);
    OtherRulesUnaffected(f, k, k.rules, tunnelType, config, p);
    if Covered(config, p.dst) {
      RouteThroughInserted(f, k.rules, ExclusionRule(d), tables, p);
      PartsOfRules(k.rules, IP_RULE_TABLE);
      OtherRulesUnaffected(f, k, Before(k.rules, IP_RULE_TABLE), tunnelType, config, p);
    } else {
      InsertUnmatched(f, k.rules, ExclusionRule(d), tables, p);
    }
  }

  /** IPsec keepalives and probes to the gateway enter the tunnel at their own priority if the gateway is covered. */
  lemma KeepaliveFollowsCoverage(f: Foreigners, k: KernelState, config: RoutingConfig, p: Packet)
    requires Unused(k) && IsConnect(config)
    requires IsKeepalive(IPsec, config, p)
    ensures var after := Configured(k, IPsec, config);
            Route(f, after.rules, after.tables, p)
            == if Covered(config, p.dst) then OrElse(Route(f, Before(k.rules, p.port), k.tables, p), Some(Tunnel))
               else Route(f, k.rules, k.tables, p)
  {
    var tables, d := Configured(k, IPsec, config).tables, config.destination;
    RulesAfter(k, IPsec, config);
    var exclusion, scv, keepalive := ExclusionRule(d), KeepaliveRule(d, IPSEC_SCV_PORT),
        KeepaliveRule(d, IPSEC_KEEPALIVE_PORT);
    var one := Insert(k.rules, exclusion);
    var two := Insert(one, scv);
    TunnelTable(k, IPsec, config, d);
    PartsOfRules(k.rules, p.port);
    OtherRulesUnaffected(f, k, k.rules, IPsec, config, p);
    OtherRulesUnaffected(f, k, Before(k.rules, p.port), IPsec, config, p);
    InsertUnmatched(f, k.rules, exclusion, tables, p);
    BeforeInserted(k.rules, exclusion, p.port);
    InsertUnmatched(f, Before(k.rules, p.port), exclusion, tables, p);
    if p.port == IPSEC_SCV_PORT {
      InsertUnmatched(f, two, keepalive, tables, p);
      if Covered(config, d) {
        RouteThroughInserted(f, one, scv, tables, p);
      } else {
        InsertUnmatched(f, one, scv, tables, p);
      }
    } else {
      InsertUnmatched(f, one, scv, tables, p);
      if Covered(config, d) {
        RouteThroughInserted(f, two, keepalive, tables, p);
        BeforeInserted(one, scv, p.port);
        PartsOfRules(one, p.port);
        InsertUnmatched(f, Before(one, p.port), scv, tables, p);
      } else {
        InsertUnmatched(f, two, keepalive, tables, p);
      }
    }
  }

  /** Cleaning up restores the rule list, and with it the way of every packet. */
  lemma CleanupRestores(f: Foreigners, k: KernelState, tunnelType: TunnelType, config: RoutingConfig,
      enableIpv6: bool, p: Packet)
    requires Unused(k) && IsConnect(config)
    ensures var after := Configured(Configured(k, tunnelType, config), tunnelType,
        Cleanup(config.destination, enableIpv6));
            after.rules == k.rules && Route(f, after.rules, after.tables, p) == Route(f, k.rules, k.tables, p)
  {
    var d := config.destination;
    var exclusion, scv, keepalive := ExclusionRule(d), KeepaliveRule(d, IPSEC_SCV_PORT),
        KeepaliveRule(d, IPSEC_KEEPALIVE_PORT);
    RulesAfter(k, tunnelType, config);
    OtherRulesUnaffected(f, k, k.rules, tunnelType, config, p);
    RemoveInserted(k.rules, exclusion);
    if tunnelType == IPsec {
      var one := Insert(k.rules, exclusion);
      var two := Insert(one, scv);
      InsertKeepsSorted(k.rules, exclusion);
      InsertKeepsSorted(one, scv);
      RemovePastInsert(two, exclusion, keepalive);
      RemovePastInsert(one, exclusion, scv);
      InsertKeepsSorted(k.rules, scv);
      RemovePastInsert(Insert(k.rules, scv), scv, keepalive);
      RemoveInserted(k.rules, scv);
      RemoveInserted(k.rules, keepalive);
    }
  }

  lemma AddExistingRoutes(tables: Tables, keys: set<Key>)
    requires IP_RULE_TABLE in tables && keys <= tables[IP_RULE_TABLE].Keys
    ensures WithRoutes(tables, keys) == tables
    ensures forall k | k in keys :: AddTunnelRoute(tables, k) == tables
  {
    assert TunnelRoutes(keys) + tables[IP_RULE_TABLE] == tables[IP_RULE_TABLE];
    assert tables[IP_RULE_TABLE := tables[IP_RULE_TABLE]] == tables;
  }

  lemma RulesStay(k: KernelState, tunnelType: TunnelType, config: RoutingConfig)
    requires Unused(k) && !config.Cleanup?
    ensures var rules := Configured(k, tunnelType, config).rules;
            var d := config.destination;
            && ExclusionRule(d) in rules
            && (tunnelType == IPsec ==>
                  KeepaliveRule(d, IPSEC_SCV_PORT) in rules && KeepaliveRule(d, IPSEC_KEEPALIVE_PORT) in rules)
  {
    var d := config.destination;
    var one := Insert(k.rules, ExclusionRule(d));
    var two := Insert(one, KeepaliveRule(d, IPSEC_SCV_PORT));
    RulesAfter(k, tunnelType, config);
    InsertMembers(k.rules, ExclusionRule(d));
    InsertMembers(one, KeepaliveRule(d, IPSEC_SCV_PORT));
    InsertMembers(two, KeepaliveRule(d, IPSEC_KEEPALIVE_PORT));
  }

  /** Configuring once more changes nothing: what exists already is left alone. */
  lemma ConfigureTwice(k: KernelState, tunnelType: TunnelType, config: RoutingConfig)
    requires Unused(k) && !config.Cleanup?
    ensures Configured(Configured(k, tunnelType, config), tunnelType, config) == Configured(k, tunnelType, config)
  {
    RulesStay(k, tunnelType, config);
    TableAfter(k, tunnelType, config);
    var tables := Configured(k, tunnelType, config).tables;
    if config.Full? || config.routes != [] {
      AddExistingRoutes(tables, RouteKeys(tunnelType, config));
    }
  }

  /** The IPv6 switch: full mode may set it, a cleanup may clear it, and nothing else touches it. */
  lemma Ipv6Switch(k: KernelState, tunnelType: TunnelType, destination: Address, routes: seq<Key>, flag: bool)
    ensures Configured(k, tunnelType, Full(destination, flag)).disableIpv6 == if flag then "1" else k.disableIpv6
    ensures Configured(k, tunnelType, Split(destination, routes)).disableIpv6 == k.disableIpv6
    ensures Configured(k, tunnelType, Cleanup(destination, flag)).disableIpv6 == if flag then "0" else k.disableIpv6
  {
  }
}
