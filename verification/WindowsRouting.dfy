/**
 * Routing on Windows (crates/snxcore/src/platform/windows/routing.rs): rows that existed already are tracked as well.
 */
module WindowsRouting {
  import opened Wrappers
  import opened LongestMatch

  const TUNNEL_ROUTE_METRIC: nat := 1

  /** What identifies a row of the forwarding table. */
  datatype RowKey = RowKey(interface: nat, address: Address, len: PrefixLen, nextHop: Address)

  type Rows = map<RowKey, nat>

  datatype CreateReply = Created | AlreadyExists | Failed

  datatype RoutingConfig =
    | Full(destination: Address)
    | Split(destination: Address, routes: seq<(Address, PrefixLen)>)
    | Cleanup

  /** One call of configure, the best route the system reports for the gateway, and how it answers each creation. */
  datatype Call = Call(config: RoutingConfig, best: Option<RowKey>, answers: seq<CreateReply>)

  /** `touched` collects every row that was ever tracked. */
  datatype State = State(rows: Rows, added: seq<RowKey>, touched: set<RowKey>, answers: seq<CreateReply>, failed: bool)

  function SystemCreates(s: State, k: RowKey): CreateReply {
    if s.answers == [] then Failed
    else if s.answers[0] == Created && k in s.rows then AlreadyExists
    else s.answers[0]
  }

  function CreateRow(s: State, k: RowKey): State {
    if s.failed then s
    else
      var rest := if s.answers == [] then [] else s.answers[1..];
      match SystemCreates(s, k)
      case Created => State(s.rows[k := TUNNEL_ROUTE_METRIC], s.added + [k], s.touched + {k}, rest, false)
      case AlreadyExists => State(s.rows, s.added + [k], s.touched + {k}, rest, false)
      case Failed => s.(answers := rest, failed := true)
  }

  function TunnelRow(tunnel: nat, address: Address, len: PrefixLen): RowKey {
    RowKey(tunnel, Network(address, len), len, 0)
  }

  function AddHostExclusion(s: State, tunnel: nat, destination: Address, best: Option<RowKey>): State {
    if best.None? then s.(failed := true)
    else if best.value.interface == tunnel then s
    else CreateRow(s, RowKey(best.value.interface, destination, 32, best.value.nextHop))
  }

  function AddAll(s: State, tunnel: nat, routes: seq<(Address, PrefixLen)>): State
    decreases |routes|
  {
    if routes == [] then s else AddAll(CreateRow(s, TunnelRow(tunnel, routes[0].0, routes[0].1)), tunnel, routes[1..])
  }

  function DeleteAll(s: State): State {
    s.(rows := s.rows - (set k | k in s.added), added := [])
  }

  function Configured(s: State, tunnel: nat, call: Call): State {
    var s := s.(answers := call.answers, failed := false);
    match call.config
    case Full(destination) =>
      CreateRow(CreateRow(AddHostExclusion(s, tunnel, destination, call.best),
                          TunnelRow(tunnel, 0, 1)), TunnelRow(tunnel, 0x8000_0000, 1))
    case Split(destination, routes) => AddAll(AddHostExclusion(s, tunnel, destination, call.best), tunnel, routes)
    case Cleanup => DeleteAll(s)
  }

  class WindowsRoutingConfigurator {
    const tunnel: nat
    var rows: Rows
    var answers: seq<CreateReply>
    var addedRows: seq<RowKey>
    ghost var touched: set<RowKey>

    constructor (tunnel: nat, rows: Rows)
      ensures this.tunnel == tunnel && View(false) == State(rows, [], {}, [], false)
    {
      this.tunnel, this.rows := tunnel, rows;
      answers, addedRows, touched := [], [], {};
    }

    ghost function View(failed: bool): State
      reads this
    {
      State(rows, addedRows, touched, answers, failed)
    }

    method Create(k: RowKey) returns (ok: bool)
      modifies this
      ensures View(!ok) == CreateRow(old(View(false)), k)
    {
      if answers == [] {
        return false;
      }
      var reply := answers[0];
      answers := answers[1..];
      if reply.Created? && k in rows {
        reply := AlreadyExists;
      }
      if reply.Failed? {
        return false;
      }
      if reply.Created? {
        rows := rows[k := TUNNEL_ROUTE_METRIC];
      }
      addedRows := addedRows + [k];
      touched := touched + {k};
      return true;
    }

    method AddExclusion(destination: Address, best: Option<RowKey>) returns (ok: bool)
      modifies this
      ensures View(!ok) == AddHostExclusion(old(View(false)), tunnel, destination, best)
    {
      if best.None? {
        return false;
      }
      if best.value.interface == tunnel {
        return true;
      }
      ok := Create(RowKey(best.value.interface, destination, 32, best.value.nextHop));
    }

    method RemoveAll()
      modifies this
      ensures View(false) == DeleteAll(old(View(false)))
    {
      var taken := addedRows;
      addedRows := [];
      for i := 0 to |taken|
        invariant rows == old(rows) - (set k | k in taken[..i])
        invariant addedRows == [] && answers == old(answers) && touched == old(touched)
      {
        rows := rows - {taken[i]};
        assert taken[..i + 1] == taken[..i] + [taken[i]];
      }
      assert taken[..|taken|] == taken;
    }

    method Configure(call: Call) returns (ok: bool)
      modifies this
      ensures View(!ok) == Configured(old(View(false)), tunnel, call)
    {
      answers := call.answers;
      match call.config
      case Full(destination) =>
        ok := AddExclusion(destination, call.best);
        if !ok { return; }
        ok := Create(TunnelRow(tunnel, 0, 1));
        if !ok { return; }
        ok := Create(TunnelRow(tunnel, 0x8000_0000, 1));
      case Split(destination, routes) =>
        ghost var start := AddHostExclusion(old(View(false)).(answers := call.answers), tunnel, destination, call.best);
        ok := AddExclusion(destination, call.best);
        if !ok {
          FailedStaysFailed(start, tunnel, routes);
          return;
        }
        for i := 0 to |routes|
          invariant ok && AddAll(View(false), tunnel, routes[i..]) == AddAll(start, tunnel, routes)
        {
          ok := Create(TunnelRow(tunnel, routes[i].0, routes[i].1));
          assert routes[i..][1..] == routes[i + 1..];
          if !ok {
            FailedStaysFailed(View(true), tunnel, routes[i + 1..]);
            return;
          }
        }
      case Cleanup =>
        RemoveAll();
        ok := true;
    }
  }

  lemma {:induction false} FailedStaysFailed(s: State, tunnel: nat, routes: seq<(Address, PrefixLen)>)
    requires s.failed
    ensures AddAll(s, tunnel, routes) == s
    decreases |routes|
  {
    if routes != [] {
      FailedStaysFailed(s, tunnel, routes[1..]);
    }
  }

  // ----- What a run leaves behind -----

  /** Beside the tracked rows, the table holds exactly the original rows that were never touched. */
  predicate Tracks(s: State, original: Rows) {
    && (forall k | k in s.added :: k in s.touched)
    && (forall k | k in s.rows && k !in s.added :: k in original && k !in s.touched && s.rows[k] == original[k])
    && (forall k | k in original && k !in s.touched :: k in s.rows)
  }

  lemma CreateTracks(s: State, original: Rows, k: RowKey)
    requires Tracks(s, original)
    ensures Tracks(CreateRow(s, k), original)
  {
  }

  lemma {:induction false} AddAllTracks(s: State, original: Rows, tunnel: nat, routes: seq<(Address, PrefixLen)>)
    requires Tracks(s, original)
    ensures Tracks(AddAll(s, tunnel, routes), original)
    decreases |routes|
  {
    if routes != [] {
      var k := TunnelRow(tunnel, routes[0].0, routes[0].1);
      CreateTracks(s, original, k);
      AddAllTracks(CreateRow(s, k), original, tunnel, routes[1..]);
    }
  }

  lemma ExclusionTracks(s: State, original: Rows, tunnel: nat, destination: Address, best: Option<RowKey>)
    requires Tracks(s, original)
    ensures Tracks(AddHostExclusion(s, tunnel, destination, best), original)
  {
    if best.Some? {
      CreateTracks(s, original, RowKey(best.value.interface, destination, 32, best.value.nextHop));
    }
  }

  lemma ConfigureTracks(s: State, original: Rows, tunnel: nat, call: Call)
    requires Tracks(s, original)
    ensures Tracks(Configured(s, tunnel, call), original)
  {
    var start := s.(answers := call.answers, failed := false);
    match call.config
    case Full(destination) =>
      ExclusionTracks(start, original, tunnel, destination, call.best);
      var excluded := AddHostExclusion(start, tunnel, destination, call.best);
      CreateTracks(excluded, original, TunnelRow(tunnel, 0, 1));
      CreateTracks(CreateRow(excluded, TunnelRow(tunnel, 0, 1)), original, TunnelRow(tunnel, 0x8000_0000, 1));
    case Split(destination, routes) =>
      ExclusionTracks(start, original, tunnel, destination, call.best);
      AddAllTracks(AddHostExclusion(start, tunnel, destination, call.best), original, tunnel, routes);
    case Cleanup =>
  }

  function RunCalls(s: State, tunnel: nat, calls: seq<Call>): State
    decreases |calls|
  {
    if calls == [] then s else RunCalls(Configured(s, tunnel, calls[0]), tunnel, calls[1..])
  }

  lemma {:induction false} RunTracks(s: State, original: Rows, tunnel: nat, calls: seq<Call>)
    requires Tracks(s, original)
    ensures Tracks(RunCalls(s, tunnel, calls), original)
    decreases |calls|
  {
    if calls != [] {
      ConfigureTracks(s, original, tunnel, calls[0]);
      RunTracks(Configured(s, tunnel, calls[0]), original, tunnel, calls[1..]);
    }
  }

  // ----- Which rows a run takes on -----

  /** The rows a call asks the system for, in order. */
  function Wanted(tunnel: nat, call: Call): seq<RowKey> {
    if call.best.None? || call.config.Cleanup? then []
    else
      var best := call.best.value;
      var host := RowKey(best.interface, call.config.destination, 32, best.nextHop);
      (if best.interface == tunnel then [] else [host]) + TunnelRows(tunnel, call.config)
  }

  function TunnelRows(tunnel: nat, config: RoutingConfig): seq<RowKey> {
    match config
    case Full(_) => [TunnelRow(tunnel, 0, 1), TunnelRow(tunnel, 0x8000_0000, 1)]
    case Split(_, routes) => seq(|routes|, i requires 0 <= i < |routes| => TunnelRow(tunnel, routes[i].0, routes[i].1))
    case Cleanup => []
  }

  /** How many creations the system grants before the first one it refuses. */
  function Granted(answers: seq<CreateReply>): nat {
    if answers == [] || answers[0].Failed? then 0 else 1 + Granted(answers[1..])
  }

  function Taken(wanted: seq<RowKey>, answers: seq<CreateReply>): set<RowKey> {
    var n := if Granted(answers) < |wanted| then Granted(answers) else |wanted|;
    set k | k in wanted[..n]
  }

  /** The rows that the calls of a run ask for and get, read off the calls alone. */
  function RowsOf(tunnel: nat, calls: seq<Call>): set<RowKey> {
    if calls == [] then {} else Taken(Wanted(tunnel, calls[0]), calls[0].answers) + RowsOf(tunnel, calls[1..])
  }

  function CreateAll(s: State, wanted: seq<RowKey>): State
    decreases |wanted|
  {
    if wanted == [] then s else CreateAll(CreateRow(s, wanted[0]), wanted[1..])
  }

  lemma {:induction false} CreateAllTouches(s: State, wanted: seq<RowKey>)
    ensures CreateAll(s, wanted).touched == s.touched + if s.failed then {} else Taken(wanted, s.answers)
    decreases |wanted|
  {
    if wanted != [] {
      CreateAllTouches(CreateRow(s, wanted[0]), wanted[1..]);
      if !s.failed && s.answers != [] && !s.answers[0].Failed? {
        assert wanted == [wanted[0]] + wanted[1..];
        assert Taken(wanted, s.answers) == {wanted[0]} + Taken(wanted[1..], s.answers[1..]);
      }
    }
  }

  lemma {:induction false} AddAllCreates(s: State, tunnel: nat, destination: Address, routes: seq<(Address, PrefixLen)>)
    ensures AddAll(s, tunnel, routes) == CreateAll(s, TunnelRows(tunnel, Split(destination, routes)))
    decreases |routes|
  {
    if routes != [] {
      var k := TunnelRow(tunnel, routes[0].0, routes[0].1);
      AddAllCreates(CreateRow(s, k), tunnel, destination, routes[1..]);
      assert TunnelRows(tunnel, Split(destination, routes))
          == [k] + TunnelRows(tunnel, Split(destination, routes[1..]));
    }
  }

  lemma FullCreates(s: State, tunnel: nat, destination: Address)
    ensures var rest := TunnelRows(tunnel, Full(destination));
            CreateRow(CreateRow(s, rest[0]), rest[1]) == CreateAll(s, rest)
  {
    var rest := TunnelRows(tunnel, Full(destination));
    assert rest[1..] == [rest[1]];
    assert CreateAll(CreateRow(s, rest[0]), [rest[1]]) == CreateRow(CreateRow(s, rest[0]), rest[1]);
  }

  lemma ConfigureCreates(s: State, tunnel: nat, call: Call)
    requires !call.config.Cleanup?
    ensures Configured(s, tunnel, call)
         == CreateAll(AddHostExclusion(s.(answers := call.answers, failed := false), tunnel,
                                       call.config.destination, call.best), TunnelRows(tunnel, call.config))
  {
    var start := s.(answers := call.answers, failed := false);
    var excluded := AddHostExclusion(start, tunnel, call.config.destination, call.best);
    if call.config.Split? {
      AddAllCreates(excluded, tunnel, call.config.destination, call.config.routes);
    } else {
      FullCreates(excluded, tunnel, call.config.destination);
    }
  }

  lemma ExclusionCreates(s: State, tunnel: nat, call: Call)
    requires !call.config.Cleanup? && call.best.Some?
    ensures CreateAll(AddHostExclusion(s, tunnel, call.config.destination, call.best), TunnelRows(tunnel, call.config))
         == CreateAll(s, Wanted(tunnel, call))
  {
    var rest, wanted := TunnelRows(tunnel, call.config), Wanted(tunnel, call);
    if call.best.value.interface == tunnel {
      assert wanted == rest;
    } else {
      assert wanted[1..] == rest;
    }
  }

  lemma ConfigureTouches(s: State, tunnel: nat, call: Call)
    ensures Configured(s, tunnel, call).touched == s.touched + Taken(Wanted(tunnel, call), call.answers)
  {
    if !call.config.Cleanup? {
      var start := s.(answers := call.answers, failed := false);
      ConfigureCreates(s, tunnel, call);
      if call.best.None? {
        CreateAllTouches(start.(failed := true), TunnelRows(tunnel, call.config));
      } else {
        ExclusionCreates(start, tunnel, call);
        CreateAllTouches(start, Wanted(tunnel, call));
      }
    }
  }

  lemma {:induction false} RunTouches(s: State, tunnel: nat, calls: seq<Call>)
    ensures RunCalls(s, tunnel, calls).touched == s.touched + RowsOf(tunnel, calls)
    decreases |calls|
  {
    if calls != [] {
      ConfigureTouches(s, tunnel, calls[0]);
      RunTouches(Configured(s, tunnel, calls[0]), tunnel, calls[1..]);
    }
  }

  lemma DeletesTouched(s: State, original: Rows)
    requires Tracks(s, original)
    ensures DeleteAll(s).rows == original - s.touched
    ensures DeleteAll(s).rows == original <==> s.touched !! original.Keys
  {
    var left := DeleteAll(s).rows;
    forall k | k in original && k !in s.touched
      ensures k in left && left[k] == original[k]
    {
      assert k !in s.added;
    }
    assert left == original - s.touched;
    if left == original {
      forall k | k in original
        ensures k !in s.touched
      {
        assert k in left;
      }
    }
  }

  /**
   * After any run and a final cleanup the table is the original one without every row that the calls asked for and
   * got; so it is restored exactly when none of these rows was there before.
   */
  lemma CleanupRemovesTouched(original: Rows, tunnel: nat, calls: seq<Call>)
    ensures var end := DeleteAll(RunCalls(State(original, [], {}, [], false), tunnel, calls));
            && end.rows == original - RowsOf(tunnel, calls) && end.added == []
            && (end.rows == original <==> RowsOf(tunnel, calls) !! original.Keys)
  {
    var start := State(original, [], {}, [], false);
    RunTracks(start, original, tunnel, calls);
    RunTouches(start, tunnel, calls);
    DeletesTouched(RunCalls(start, tunnel, calls), original);
  }

  // ----- Where packets go in full mode -----

  predicate RowContains(k: RowKey, a: Address) {
    k.address / Block(k.len) == a / Block(k.len)
  }

  /** The system takes a longest prefix and, among those, a lowest sum of row and interface metric. */
  ghost predicate IsBest(rows: Rows, cost: nat -> nat, a: Address, k: RowKey) {
    k in rows && RowContains(k, a)
    && forall m | m in rows && RowContains(m, a) ::
         m.len < k.len || (m.len == k.len && rows[k] + cost(k.interface) <= rows[m] + cost(m.interface))
  }

  predicate HasLongRow(rows: Rows, a: Address) {
    exists k | k in rows :: RowContains(k, a) && k.len >= 2
  }

  lemma HostRowContains(k: RowKey, a: Address)
    requires k.len == 32
    ensures RowContains(k, a) <==> k.address == a
  {
    assert Block(32) == 1;
    assert k.address / 1 == k.address && a / 1 == a;
  }

  lemma HalfRowContains(tunnel: nat, a: Address)
    ensures RowContains(TunnelRow(tunnel, 0, 1), a) <==> a < 0x8000_0000
    ensures RowContains(TunnelRow(tunnel, 0x8000_0000, 1), a) <==> a >= 0x8000_0000
  {
    assert Block(1) == 0x8000_0000 by { BroadNetworks(a); }
    assert Network(0, 1) == 0 by { assert NetOf(0, 1) == Net(0, 1) by { BroadNetworks(0); } }
    assert Network(0x8000_0000, 1) == 0x8000_0000 by {
      assert NetOf(0x8000_0000, 1) == Net(0x8000_0000, 1) by { BroadNetworks(0x8000_0000); }
    }
    HalvesDivide(a);
  }

  lemma HalvesDivide(a: Address)
    ensures a / 0x8000_0000 == if a < 0x8000_0000 then 0 else 1
  {
  }

  lemma FullModeRows(rows: Rows, tunnel: nat, gateway: Address, best: RowKey)
    requires best.interface != tunnel
    ensures var call := Call(Full(gateway), Some(best), [Created, Created, Created]);
            var s := Configured(State(rows, [], {}, [], false), tunnel, call);
            var host := RowKey(best.interface, gateway, 32, best.nextHop);
            && !s.failed
            && s.rows.Keys == rows.Keys + {host, TunnelRow(tunnel, 0, 1), TunnelRow(tunnel, 0x8000_0000, 1)}
            && forall k | k in rows :: s.rows[k] == rows[k]
  {
    var s0 := State(rows, [], {}, [Created, Created, Created], false);
    var s1 := AddHostExclusion(s0, tunnel, gateway, Some(best));
    assert s1.answers == [Created, Created];
    var s2 := CreateRow(s1, TunnelRow(tunnel, 0, 1));
    assert s2.answers == [Created];
  }

  /**
   * Full mode, without rows of length one before and with the gateway reached outside the tunnel: the gateway
   * keeps the interface and next hop of its best row, an address with a longer row keeps exactly its best rows, and
   * for any other address every best row is the tunnel's.
   */
  lemma FullModeByAddress(rows: Rows, cost: nat -> nat, tunnel: nat, gateway: Address, best: RowKey, a: Address,
      k: RowKey)
    requires forall m | m in rows :: m.len != 1
    requires best.interface != tunnel
    ensures var after := Configured(State(rows, [], {}, [], false), tunnel,
        Call(Full(gateway), Some(best), [Created, Created, Created]));
            && !after.failed
            && (a == gateway && IsBest(rows, cost, a, best) && IsBest(after.rows, cost, a, k) ==>
                  (k.interface == best.interface && k.nextHop == best.nextHop)
                      || (best.len == 32 && IsBest(rows, cost, a, k)))
            && (a != gateway && HasLongRow(rows, a) ==> (IsBest(after.rows, cost, a, k) <==> IsBest(rows, cost, a, k)))
            && (a != gateway && !HasLongRow(rows, a) && IsBest(after.rows, cost, a, k) ==> k.interface == tunnel)
  {
    var u := Configured(State(rows, [], {}, [], false), tunnel,
        Call(Full(gateway), Some(best), [Created, Created, Created])).rows;
    var host := RowKey(best.interface, gateway, 32, best.nextHop);
    var low, high := TunnelRow(tunnel, 0, 1), TunnelRow(tunnel, 0x8000_0000, 1);
    FullModeRows(rows, tunnel, gateway, best);
    HostRowContains(host, a);
    HalfRowContains(tunnel, a);
    if a == gateway && IsBest(rows, cost, a, best) && IsBest(u, cost, a, k) {
      assert RowContains(host, a) && host in u;
      HostRowContains(k, a);
      if k != host {
        assert k in rows;
      }
    } else if a != gateway && !HasLongRow(rows, a) && IsBest(u, cost, a, k) {
      assert if a < 0x8000_0000 then RowContains(low, a) else RowContains(high, a);
    } else if a != gateway && HasLongRow(rows, a) {
      LongRowsStayBest(rows, u, cost, host, low, high, a, k);
    }
  }

  lemma LongRowsStayBest(rows: Rows, u: Rows, cost: nat -> nat, host: RowKey, low: RowKey, high: RowKey, a: Address,
      k: RowKey)
    requires u.Keys == rows.Keys + {host, low, high} && forall m | m in rows :: u[m] == rows[m]
    requires !RowContains(host, a) && low.len == 1 && high.len == 1
    requires HasLongRow(rows, a)
    ensures IsBest(u, cost, a, k) <==> IsBest(rows, cost, a, k)
  {
    var long :| long in rows && RowContains(long, a) && long.len >= 2;
    if IsBest(u, cost, a, k) {
      assert long in u;
      assert k in rows;
    }
    if IsBest(rows, cost, a, k) {
      assert k.len >= 2;
    }
  }
}
