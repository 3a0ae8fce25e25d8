/**
 * Any run of configurations and cleanups on Linux (crates/snxcore/src/platform/linux/routing.rs), by any number of
 * configurators for any destinations, also where an earlier tunnel has left routes in table 18000.
 */
module LinuxRuns {
  import opened Wrappers
  import opened LongestMatch
  import opened LinuxRouting

  datatype Call = Call(tunnelType: TunnelType, config: RoutingConfig)

  function Run(k: KernelState, calls: seq<Call>): KernelState
    decreases |calls|
  {
    if calls == [] then k else Run(Configured(k, calls[0].tunnelType, calls[0].config), calls[1..])
  }

  /** The rules that belong to one destination. */
  function RulesFor(tunnelType: TunnelType, destination: Address): set<Rule> {
    {ExclusionRule(destination)}
    + if tunnelType == IPsec
      then {KeepaliveRule(destination, IPSEC_SCV_PORT), KeepaliveRule(destination, IPSEC_KEEPALIVE_PORT)} else {}
  }

  /** The rules that the calls alone say are in force after a run: configured, and not cleaned up since. */
  function Live(calls: seq<Call>): set<Rule> {
    if calls == [] then {}
    else
      var last := calls[|calls| - 1];
      var rules := RulesFor(last.tunnelType, last.config.destination);
      if last.config.Cleanup? then Live(calls[..|calls| - 1]) - rules else Live(calls[..|calls| - 1]) + rules
  }

  // ----- Adding and removing single rules -----

  predicate LeadsToTunnel(r: Rule) {
    r.table == IP_RULE_TABLE
  }

  /** The rules of everyone else, in order. */
  function Others(rules: seq<Rule>): seq<Rule> {
    if rules == [] then [] else (if LeadsToTunnel(rules[0]) then [] else [rules[0]]) + Others(rules[1..])
  }

  /** The rules of everyone else are these, and of the program's own exactly these are there, each of them once. */
  ghost predicate Consists(rules: seq<Rule>, others: seq<Rule>, own: set<Rule>) {
    && Others(rules) == others
    && forall r | LeadsToTunnel(r) :: multiset(rules)[r] == if r in own then 1 else 0
  }

  lemma {:induction false} InsertAmongOthers(rules: seq<Rule>, r: Rule)
    requires LeadsToTunnel(r)
    ensures Others(Insert(rules, r)) == Others(rules)
    ensures multiset(Insert(rules, r)) == multiset(rules) + multiset{r}
  {
    if rules != [] && rules[0].priority <= r.priority {
      InsertAmongOthers(rules[1..], r);
      assert rules == [rules[0]] + rules[1..];
      assert ([rules[0]] + Insert(rules[1..], r))[1..] == Insert(rules[1..], r);
    } else {
      assert ([r] + rules)[1..] == rules;
    }
  }

  lemma {:induction false} RemoveAmongOthers(rules: seq<Rule>, r: Rule)
    requires LeadsToTunnel(r)
    ensures Others(Remove(rules, r)) == Others(rules)
    ensures multiset(Remove(rules, r)) == multiset(rules) - multiset{r}
  {
    if rules != [] {
      assert rules == [rules[0]] + rules[1..];
      if rules[0] != r {
        RemoveAmongOthers(rules[1..], r);
        assert ([rules[0]] + Remove(rules[1..], r))[1..] == Remove(rules[1..], r);
      }
    }
  }

  lemma AddKeepsConsists(rules: seq<Rule>, others: seq<Rule>, own: set<Rule>, r: Rule)
    requires Consists(rules, others, own) && LeadsToTunnel(r)
    ensures Consists(AddRule(rules, r), others, own + {r})
  {
    assert r in rules <==> multiset(rules)[r] > 0;
    InsertAmongOthers(rules, r);
  }

  lemma RemoveKeepsConsists(rules: seq<Rule>, others: seq<Rule>, own: set<Rule>, r: Rule)
    requires Consists(rules, others, own) && LeadsToTunnel(r)
    ensures Consists(Remove(rules, r), others, own - {r})
  {
    RemoveAmongOthers(rules, r);
  }

  // ----- Whole configurations -----

  lemma ConnectKeepsConsists(k: KernelState, others: seq<Rule>, own: set<Rule>, tunnelType: TunnelType,
      config: RoutingConfig)
    requires Consists(k.rules, others, own) && !config.Cleanup?
    ensures Consists(Configured(k, tunnelType, config).rules, others, own + RulesFor(tunnelType, config.destination))
  {
    var d := config.destination;
    var exclusion, scv, keepalive := ExclusionRule(d), KeepaliveRule(d, IPSEC_SCV_PORT),
        KeepaliveRule(d, IPSEC_KEEPALIVE_PORT);
    AddKeepsConsists(k.rules, others, own, exclusion);
    if tunnelType == IPsec {
      var one := AddRule(k.rules, exclusion);
      AddKeepsConsists(one, others, own + {exclusion}, scv);
      AddKeepsConsists(AddRule(one, scv), others, own + {exclusion} + {scv}, keepalive);
      assert own + {exclusion} + {scv} + {keepalive} == own + RulesFor(tunnelType, d);
    } else {
      assert own + {exclusion} == own + RulesFor(tunnelType, d);
    }
  }

  lemma CleanupKeepsConsists(k: KernelState, others: seq<Rule>, own: set<Rule>, tunnelType: TunnelType,
      config: RoutingConfig)
    requires Consists(k.rules, others, own) && config.Cleanup?
    ensures Consists(Configured(k, tunnelType, config).rules, others, own - RulesFor(tunnelType, config.destination))
  {
    var d := config.destination;
    var exclusion, scv, keepalive := ExclusionRule(d), KeepaliveRule(d, IPSEC_SCV_PORT),
        KeepaliveRule(d, IPSEC_KEEPALIVE_PORT);
    RemoveKeepsConsists(k.rules, others, own, exclusion);
    if tunnelType == IPsec {
      var one := Remove(k.rules, exclusion);
      RemoveKeepsConsists(one, others, own - {exclusion}, scv);
      RemoveKeepsConsists(Remove(one, scv), others, own - {exclusion} - {scv}, keepalive);
      assert own - {exclusion} - {scv} - {keepalive} == own - RulesFor(tunnelType, d);
    } else {
      assert own - {exclusion} == own - RulesFor(tunnelType, d);
    }
  }

  lemma OtherTablesStay(k: KernelState, tunnelType: TunnelType, config: RoutingConfig)
    ensures forall t | t != IP_RULE_TABLE ::
              TableOf(Configured(k, tunnelType, config).tables, t) == TableOf(k.tables, t)
  {
  }

  // ----- Runs -----

  lemma {:induction false} OneMoreCall(k: KernelState, calls: seq<Call>, call: Call)
    ensures Run(k, calls + [call]) == Configured(Run(k, calls), call.tunnelType, call.config)
    decreases |calls|
  {
    if calls == [] {
      assert calls + [call] == [call] && [call][1..] == [];
    } else {
      assert (calls + [call])[1..] == calls[1..] + [call];
      OneMoreCall(Configured(k, calls[0].tunnelType, calls[0].config), calls[1..], call);
    }
  }

  lemma {:induction false} OthersOfForeign(rules: seq<Rule>)
    requires forall r | r in rules :: !LeadsToTunnel(r)
    ensures Others(rules) == rules
  {
    if rules != [] {
      OthersOfForeign(rules[1..]);
      assert rules == [rules[0]] + rules[1..];
    }
  }

  /** After any run, everyone else's rules and all other tables are as before, and the own rules are the live ones. */
  lemma {:induction false} RunLeavesLive(k: KernelState, calls: seq<Call>)
    requires forall r | r in k.rules :: !LeadsToTunnel(r)
    ensures var after := Run(k, calls);
            && Consists(after.rules, k.rules, Live(calls))
            && forall t | t != IP_RULE_TABLE :: TableOf(after.tables, t) == TableOf(k.tables, t)
  {
    if calls == [] {
      OthersOfForeign(k.rules);
    } else {
      var before, last := calls[..|calls| - 1], calls[|calls| - 1];
      RunLeavesLive(k, before);
      OneMoreCall(k, before, last);
      assert before + [last] == calls;
      var middle := Run(k, before);
      OtherTablesStay(middle, last.tunnelType, last.config);
      if last.config.Cleanup? {
        CleanupKeepsConsists(middle, k.rules, Live(before), last.tunnelType, last.config);
      } else {
        ConnectKeepsConsists(middle, k.rules, Live(before), last.tunnelType, last.config);
      }
    }
  }

  /**
   * After any run that starts without rules for table 18000, whatever routes that table holds: the rule list is the
   * one from before exactly when everything that was configured has been cleaned up since; and then every packet goes
   * where it went before.
   */
  lemma RunRestoresIff(f: Foreigners, k: KernelState, calls: seq<Call>, p: Packet)
    requires forall r | r in k.rules :: !LeadsToTunnel(r)
    ensures var after := Run(k, calls);
            && (after.rules == k.rules <==> Live(calls) == {})
            && (Live(calls) == {} ==> Route(f, after.rules, after.tables, p) == Route(f, k.rules, k.tables, p))
  {
    var after, own := Run(k, calls), Live(calls);
    RunLeavesLive(k, calls);
    LiveLeadToTunnel(calls);
    if own == {} {
      forall r | r in after.rules
        ensures !LeadsToTunnel(r)
      {
        assert multiset(after.rules)[r] > 0;
      }
      OthersOfForeign(after.rules);
      RouteIgnoresTable(f, k.rules, after.tables, k.tables, p);
    } else {
      var r :| r in own;
      assert multiset(after.rules)[r] == 1;
      assert r in after.rules;
    }
  }

  lemma {:induction false} LiveLeadToTunnel(calls: seq<Call>)
    ensures forall r | r in Live(calls) :: LeadsToTunnel(r)
  {
    if calls != [] {
      LiveLeadToTunnel(calls[..|calls| - 1]);
    }
  }

  lemma {:induction false} LiveOfOne(tunnelType: TunnelType, destination: Address, calls: seq<Call>)
    requires forall c | c in calls :: c.tunnelType == tunnelType && c.config.destination == destination
    ensures Live(calls) <= RulesFor(tunnelType, destination)
  {
    if calls != [] {
      LiveOfOne(tunnelType, destination, calls[..|calls| - 1]);
    }
  }

  /** One tunnel to one destination: a cleanup at the end of any run restores the rules and the way of every packet. */
  lemma CleanupEndsRun(f: Foreigners, k: KernelState, tunnelType: TunnelType, destination: Address, calls: seq<Call>,
      enableIpv6: bool, p: Packet)
    requires forall r | r in k.rules :: !LeadsToTunnel(r)
    requires forall c | c in calls :: c.tunnelType == tunnelType && c.config.destination == destination
    ensures var after := Run(k, calls + [Call(tunnelType, Cleanup(destination, enableIpv6))]);
            after.rules == k.rules && Route(f, after.rules, after.tables, p) == Route(f, k.rules, k.tables, p)
  {
    var all := calls + [Call(tunnelType, Cleanup(destination, enableIpv6))];
    assert all[..|all| - 1] == calls;
    LiveOfOne(tunnelType, destination, calls);
    assert Live(all) == {};
    RunRestoresIff(f, k, all, p);
  }
}
