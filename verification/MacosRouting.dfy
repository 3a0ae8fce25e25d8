/**
 * Routing on macOS (crates/snxcore/src/platform/macos/routing.rs): routes added by this process are tracked and
 * undone.
 */
module MacosRouting {
  import opened Wrappers
  import opened LongestMatch

  datatype Hop = Tunnel | Gateway(hop: nat) | Blackhole

  type RouteTable = Table<Hop>

  /** What the kernel answers to one request to add a route. */
  datatype AddReply = Accept | AlreadyExists | Refuse

  /** The kernel's answer to a route query: which hop it would use, if the query succeeds at all. */
  datatype RouteReply = NoReply | ViaTunnel | ViaGateway(hop: nat) | WithoutGateway

  datatype RoutingConfig =
    | Full(destination: Address, disableIpv6: bool)
    | Split(destination: Address, routes: seq<Key>)
    | Cleanup

  /** One call of configure: what to set up, and how the kernel will answer its query and its additions. */
  datatype Call = Call(config: RoutingConfig, reply: RouteReply, answers: seq<AddReply>)

  datatype State = State(table: RouteTable, added: seq<Key>, answers: seq<AddReply>, failed: bool)

  const LOW_HALF := Net(0, 1)
  const HIGH_HALF := Net(0x8000_0000, 1)
  const LOW_HALF_V6 := Net6(0, 1)
  const HIGH_HALF_V6 := Net6(0x8000, 1)

  /** The kernel never accepts a route it has already. */
  function KernelAdds(s: State, k: Key): AddReply {
    if s.answers == [] then Refuse
    else if s.answers[0] == Accept && k in s.table then AlreadyExists
    else s.answers[0]
  }

  /** After a failed addition nothing more is attempted in the same call. */
  function Add(s: State, k: Key, hop: Hop): State {
    if s.failed then s
    else
      var rest := if s.answers == [] then [] else s.answers[1..];
      match KernelAdds(s, k)
      case Accept => State(s.table[k := hop], s.added + [k], rest, false)
      case AlreadyExists => s.(answers := rest)
      case Refuse => s.(answers := rest, failed := true)
  }

  function NetworkOf(k: Key): Key {
    if k.Net? then NetOf(k.address, k.len) else k
  }

  function AddAll(s: State, routes: seq<Key>): State
    decreases |routes|
  {
    if routes == [] then s else AddAll(Add(s, NetworkOf(routes[0]), Tunnel), routes[1..])
  }

  function AddHostExclusion(s: State, destination: Address, requireGateway: bool, reply: RouteReply): State {
    match reply
    case NoReply => s.(failed := true)
    case ViaTunnel => s
    case WithoutGateway => s.(failed := requireGateway)
    case ViaGateway(hop) => Add(s, Host(destination), Gateway(hop))
  }

  function DeleteAll(s: State): State {
    s.(table := s.table - (set k | k in s.added), added := [])
  }

  function Configured(s: State, call: Call): State {
    var s := s.(answers := call.answers, failed := false);
    match call.config
    case Full(destination, disableIpv6) =>
      var halves := Add(Add(AddHostExclusion(s, destination, true, call.reply), LOW_HALF, Tunnel), HIGH_HALF, Tunnel);
      if disableIpv6 then Add(Add(halves, LOW_HALF_V6, Blackhole), HIGH_HALF_V6, Blackhole) else halves
    case Split(destination, routes) => AddAll(AddHostExclusion(s, destination, false, call.reply), routes)
    case Cleanup => DeleteAll(s)
  }

  class Kernel {
    var table: RouteTable
    var answers: seq<AddReply>

    constructor (table: RouteTable)
      ensures this.table == table && answers == []
    {
      this.table, answers := table, [];
    }

    method AddRoute(k: Key, hop: Hop) returns (r: AddReply)
      modifies this
      ensures r == KernelAdds(State(old(table), [], old(answers), false), k)
      ensures table == if r.Accept? then old(table)[k := hop] else old(table)
      ensures answers == if old(answers) == [] then [] else old(answers)[1..]
    {
      if answers == [] {
        return Refuse;
      }
      r := answers[0];
      answers := answers[1..];
      if r.Accept? && k in table {
        return AlreadyExists;
      }
      if r.Accept? {
        table := table[k := hop];
      }
    }

    method DeleteRoute(k: Key)
      modifies this`table
      ensures table == old(table) - {k}
    {
      table := table - {k};
    }
  }

  class MacosRoutingConfigurator {
    const kernel: Kernel
    var added: seq<Key>

    constructor (kernel: Kernel)
      ensures this.kernel == kernel && added == []
    {
      this.kernel, added := kernel, [];
    }

    ghost function View(failed: bool): State
      reads this, kernel
    {
      State(kernel.table, added, kernel.answers, failed)
    }

    /** Only a route the kernel accepted is tracked; one that existed before must survive the cleanup. */
    method AddTracked(k: Key, hop: Hop) returns (ok: bool)
      modifies this, kernel
      ensures View(!ok) == Add(old(View(false)), k, hop)
    {
      var reply := kernel.AddRoute(k, hop);
      match reply
      case Accept => added := added + [k]; return true;
      case AlreadyExists => return true;
      case Refuse => return false;
    }

    method AddExclusion(destination: Address, requireGateway: bool, reply: RouteReply) returns (ok: bool)
      modifies this, kernel
      ensures View(!ok) == AddHostExclusion(old(View(false)), destination, requireGateway, reply)
    {
      match reply
      case NoReply => ok := false;
      case ViaTunnel => ok := true;
      case WithoutGateway => ok := !requireGateway;
      case ViaGateway(hop) => ok := AddTracked(Host(destination), Gateway(hop));
    }

    /** Takes the list of tracked routes and deletes them one by one. */
    method RemoveAll()
      modifies this, kernel
      ensures View(false) == DeleteAll(old(View(false)))
    {
      var routes := added;
      added := [];
      for i := 0 to |routes|
        invariant kernel.table == old(kernel.table) - (set k | k in routes[..i])
        invariant added == [] && kernel.answers == old(kernel.answers)
      {
        kernel.DeleteRoute(routes[i]);
        assert routes[..i + 1] == routes[..i] + [routes[i]];
      }
      assert routes[..|routes|] == routes;
    }

    method Configure(call: Call) returns (ok: bool)
      modifies this, kernel
      ensures View(!ok) == Configured(old(View(false)), call)
    {
      kernel.answers := call.answers;
      match call.config
      case Full(destination, disableIpv6) =>
        ok := AddExclusion(destination, true, call.reply);
        if !ok { return; }
        ok := AddTracked(LOW_HALF, Tunnel);
        if !ok { return; }
        ok := AddTracked(HIGH_HALF, Tunnel);
        if !ok { return; }
        if disableIpv6 {
          ok := AddTracked(LOW_HALF_V6, Blackhole);
          if !ok { return; }
          ok := AddTracked(HIGH_HALF_V6, Blackhole);
        }
      case Split(destination, routes) =>
        ghost var start := AddHostExclusion(old(View(false)).(answers := call.answers), destination, false, call.reply);
        ok := AddExclusion(destination, false, call.reply);
        if !ok {
          FailedStaysFailed(start, routes);
          return;
        }
        for i := 0 to |routes|
          invariant ok && AddAll(View(false), routes[i..]) == AddAll(start, routes)
        {
          ok := AddTracked(NetworkOf(routes[i]), Tunnel);
          assert routes[i..][1..] == routes[i + 1..];
          if !ok {
            FailedStaysFailed(View(true), routes[i + 1..]);
            return;
          }
        }
      case Cleanup =>
        RemoveAll();
        ok := true;
    }
  }

  lemma {:induction false} FailedStaysFailed(s: State, routes: seq<Key>)
    requires s.failed
    ensures AddAll(s, routes) == s
    decreases |routes|
  {
    if routes != [] {
      FailedStaysFailed(s, routes[1..]);
    }
  }

  // ----- Undoing everything -----

  /** The table is the original one and, beside it, exactly the tracked routes. */
  predicate Tracks(s: State, original: RouteTable) {
    && (forall k | k in s.added :: k !in original && k in s.table)
    && (forall k | k in original :: k in s.table && s.table[k] == original[k])
    && (forall k | k in s.table :: k in original || k in s.added)
  }

  lemma AddTracks(s: State, original: RouteTable, k: Key, hop: Hop)
    requires Tracks(s, original)
    ensures Tracks(Add(s, k, hop), original)
  {
  }

  lemma {:induction false} AddAllTracks(s: State, original: RouteTable, routes: seq<Key>)
    requires Tracks(s, original)
    ensures Tracks(AddAll(s, routes), original)
    decreases |routes|
  {
    if routes != [] {
      AddTracks(s, original, NetworkOf(routes[0]), Tunnel);
      AddAllTracks(Add(s, NetworkOf(routes[0]), Tunnel), original, routes[1..]);
    }
  }

  lemma ConfigureTracks(s: State, original: RouteTable, call: Call)
    requires Tracks(s, original)
    ensures Tracks(Configured(s, call), original)
  {
    var start := s.(answers := call.answers, failed := false);
    match call.config
    case Full(destination, disableIpv6) =>
      var excluded := AddHostExclusion(start, destination, true, call.reply);
      if call.reply.ViaGateway? { AddTracks(start, original, Host(destination), Gateway(call.reply.hop)); }
      AddTracks(excluded, original, LOW_HALF, Tunnel);
      var low := Add(excluded, LOW_HALF, Tunnel);
      AddTracks(low, original, HIGH_HALF, Tunnel);
      var halves := Add(low, HIGH_HALF, Tunnel);
      AddTracks(halves, original, LOW_HALF_V6, Blackhole);
      AddTracks(Add(halves, LOW_HALF_V6, Blackhole), original, HIGH_HALF_V6, Blackhole);
    case Split(destination, routes) =>
      if call.reply.ViaGateway? { AddTracks(start, original, Host(destination), Gateway(call.reply.hop)); }
      AddAllTracks(AddHostExclusion(start, destination, false, call.reply), original, routes);
    case Cleanup =>
  }

  function RunCalls(s: State, calls: seq<Call>): State
    decreases |calls|
  {
    if calls == [] then s else RunCalls(Configured(s, calls[0]), calls[1..])
  }

  lemma {:induction false} RunTracks(s: State, original: RouteTable, calls: seq<Call>)
    requires Tracks(s, original)
    ensures Tracks(RunCalls(s, calls), original)
    decreases |calls|
  {
    if calls != [] {
      ConfigureTracks(s, original, calls[0]);
      RunTracks(Configured(s, calls[0]), original, calls[1..]);
    }
  }

  /** Whatever was configured, however it failed: dropping the configurator leaves the table as it was found. */
  lemma CleanupRestoresTable(original: RouteTable, calls: seq<Call>)
    ensures var s := RunCalls(State(original, [], [], false), calls);
            DeleteAll(s).table == original && DeleteAll(s).added == []
            && forall k | k in original :: k in s.table && s.table[k] == original[k]
  {
    RunTracks(State(original, [], [], false), original, calls);
    var s := RunCalls(State(original, [], [], false), calls);
    assert DeleteAll(s).table.Keys == original.Keys;
  }

  // ----- Where packets go in full mode -----

  /** The address has a route longer than one bit. */
  predicate HasLongRoute(t: RouteTable, a: Address) {
    Host(a) in t || SearchDown(t, a, 32, 2).Some?
  }

  /** A table that differs from another in the two halves and one host route only. */
  predicate HasHalves(u: RouteTable, t: RouteTable, gateway: Address) {
    && LOW_HALF in u && u[LOW_HALF] == Tunnel && HIGH_HALF in u && u[HIGH_HALF] == Tunnel
    && Host(gateway) in u
    && (forall k | k in u && !k.Net6? && k !in {LOW_HALF, HIGH_HALF, Host(gateway)} :: k in t && u[k] == t[k])
    && (forall k | k in t && !k.Net6? && k !in {LOW_HALF, HIGH_HALF, Host(gateway)} :: k in u)
  }

  lemma HalvesBeatDefault(u: RouteTable, t: RouteTable, gateway: Address, a: Address)
    requires HasHalves(u, t, gateway) && a != gateway
    ensures Lookup(u, a) == if HasLongRoute(t, a) then Lookup(t, a) else Some(Tunnel)
  {
    BroadNetworks(a);
    SearchSplits(t, a, 32, 2);
    SearchSplits(u, a, 32, 2);
    SearchIgnores(t, u, a, 32, 2);
    assert SearchDown(u, a, 1, 0) == Some(Tunnel);
  }

  lemma FullModeTable(t: RouteTable, gateway: Address, hop: nat, disableIpv6: bool)
    requires LOW_HALF !in t && HIGH_HALF !in t
    ensures var after := Configured(State(t, [], [], false), FullCall(gateway, disableIpv6, hop));
            && !after.failed
            && HasHalves(after.table, t, gateway)
            && after.table[Host(gateway)] == (if Host(gateway) in t then t[Host(gateway)] else Gateway(hop))
  {
    var s0 := State(t, [], FullCall(gateway, disableIpv6, hop).answers, false);
    var s1 := AddHostExclusion(s0, gateway, true, ViaGateway(hop));
    assert s1.answers == [Accept, Accept, Accept, Accept];
    assert !s1.failed && s1.table == if Host(gateway) in t then t else t[Host(gateway) := Gateway(hop)];
    var s2 := Add(s1, LOW_HALF, Tunnel);
    assert s2.answers == [Accept, Accept, Accept];
    var s3 := Add(s2, HIGH_HALF, Tunnel);
    assert s3.answers == [Accept, Accept];
    var s4 := Add(s3, LOW_HALF_V6, Blackhole);
    assert s4.answers == [Accept];
  }

  /** A call in full mode whose query finds a gateway and whose additions are accepted where they are new. */
  function FullCall(gateway: Address, disableIpv6: bool, hop: nat): Call {
    Call(Full(gateway, disableIpv6), ViaGateway(hop), [Accept, Accept, Accept, Accept, Accept])
  }

  /**
   * Full mode, when the kernel answers its query from its own table: the gateway keeps its hop, addresses with a
   * longer route keep theirs, and every other address goes to the tunnel.
   */
  lemma FullModeByAddress(t: RouteTable, gateway: Address, hop: nat, disableIpv6: bool, a: Address)
    requires LOW_HALF !in t && HIGH_HALF !in t
    requires Lookup(t, gateway) == Some(Gateway(hop))
    ensures var after := Configured(State(t, [], [], false), FullCall(gateway, disableIpv6, hop));
            && !after.failed
            && Lookup(after.table, a)
               == if a == gateway then Some(Gateway(hop)) else if HasLongRoute(t, a) then Lookup(t, a) else Some(Tunnel)
  {
    FullModeTable(t, gateway, hop, disableIpv6);
    if a != gateway {
      HalvesBeatDefault(Configured(State(t, [], [], false), FullCall(gateway, disableIpv6, hop)).table, t, gateway, a);
    }
  }
}
