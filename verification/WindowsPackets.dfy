/** Where packets go on Windows after split mode (crates/snxcore/src/platform/windows/routing.rs). */
module WindowsPackets {
  import opened Wrappers
  import opened LongestMatch
  import opened WindowsRouting

  type Route = (Address, PrefixLen)

  // ----- One row -----

  /** A row that the system grants is tracked, and new only if it was not there; a refusal ends the call. */
  lemma CreateDecides(s: State, k: RowKey)
    requires !s.failed && s.answers != []
    ensures var t := CreateRow(s, k);
            && t.answers == s.answers[1..]
            && (s.answers[0] == Failed ==> t.failed && t.rows == s.rows && t.added == s.added)
            && (s.answers[0] != Failed ==>
                  && !t.failed && t.added == s.added + [k]
                  && t.rows == if s.answers[0] == Created && k !in s.rows then s.rows[k := 1] else s.rows)
  {
  }

  /** Without a route to the gateway nothing is changed. */
  lemma FailsEarly(rows: Rows, tunnel: nat, config: RoutingConfig, answers: seq<CreateReply>)
    requires !config.Cleanup?
    ensures var after := Configured(State(rows, [], {}, [], false), tunnel, Call(config, None, answers));
            after.failed && after.rows == rows && after.added == []
  {
    if config.Split? {
      FailedStaysFailed(State(rows, [], {}, answers, true), tunnel, config.routes);
    }
  }

  // ----- Split mode -----

  function Creates(n: nat): seq<CreateReply> {
    seq(n, _ => Created)
  }

  /** The tunnel's row for a route: on its interface, without a next hop. */
  function RowFor(tunnel: nat, r: Route): RowKey {
    RowKey(tunnel, Network(r.0, r.1), r.1, 0)
  }

  function RowsFor(tunnel: nat, routes: seq<Route>): set<RowKey> {
    set r | r in routes :: RowFor(tunnel, r)
  }

  /** The table with these rows at metric one, where there were none. */
  function Extended(rows: Rows, keys: set<RowKey>): Rows {
    map k | k in rows.Keys + keys :: if k in rows then rows[k] else 1
  }

  lemma {:induction false} AddAllExtends(s: State, tunnel: nat, routes: seq<Route>, n: nat)
    requires !s.failed && s.answers == Creates(n) && n >= |routes|
    ensures var t := AddAll(s, tunnel, routes);
            !t.failed && t.rows == Extended(s.rows, RowsFor(tunnel, routes))
    decreases |routes|
  {
    if routes == [] {
      assert Extended(s.rows, {}) == s.rows;
    } else {
      var k := RowFor(tunnel, routes[0]);
      var next := CreateRow(s, k);
      assert Creates(n)[1..] == Creates(n - 1);
      AddAllExtends(next, tunnel, routes[1..], n - 1);
      FirstRow(tunnel, routes);
      assert Extended(next.rows, RowsFor(tunnel, routes[1..])) == Extended(s.rows, {k} + RowsFor(tunnel, routes[1..]));
    }
  }

  lemma FirstRow(tunnel: nat, routes: seq<Route>)
    requires routes != []
    ensures RowsFor(tunnel, routes) == {RowFor(tunnel, routes[0])} + RowsFor(tunnel, routes[1..])
  {
    assert routes == [routes[0]] + routes[1..];
  }

  /** A call in split mode whose rows are all granted. */
  function SplitCall(gateway: Address, routes: seq<Route>, best: RowKey): Call {
    Call(Split(gateway, routes), Some(best), Creates(|routes| + 1))
  }

  /** The gateway's own row, along its best one, unless that leads into the tunnel. */
  function Exclusion(tunnel: nat, gateway: Address, best: RowKey): set<RowKey> {
    if best.interface == tunnel then {} else {RowKey(best.interface, gateway, 32, best.nextHop)}
  }

  lemma SplitRows(rows: Rows, tunnel: nat, gateway: Address, routes: seq<Route>, best: RowKey)
    ensures var after := Configured(State(rows, [], {}, [], false), tunnel, SplitCall(gateway, routes, best));
            && !after.failed
            && after.rows == Extended(rows, Exclusion(tunnel, gateway, best) + RowsFor(tunnel, routes))
  {
    var start := State(rows, [], {}, Creates(|routes| + 1), false);
    var excluded := AddHostExclusion(start, tunnel, gateway, Some(best));
    assert Creates(|routes| + 1)[1..] == Creates(|routes|);
    assert excluded.rows == Extended(rows, Exclusion(tunnel, gateway, best));
    AddAllExtends(excluded, tunnel, routes, if best.interface == tunnel then |routes| + 1 else |routes|);
  }

  predicate ListedFor(routes: seq<Route>, r: Route, a: Address) {
    r in routes && RowContains(RowFor(0, r), a)
  }

  /** A listed route for the address is longer than every row that was there. */
  predicate ListedIsLongest(rows: Rows, routes: seq<Route>, a: Address) {
    exists r | r in routes :: ListedFor(routes, r, a) && forall k | k in rows && RowContains(k, a) :: k.len < r.1
  }

  /** A row that was there is longer than every listed route for the address, or none is listed for it. */
  predicate ListedIsShorter(rows: Rows, routes: seq<Route>, a: Address) {
    (forall r | r in routes :: !ListedFor(routes, r, a))
    || exists k | k in rows && RowContains(k, a) :: forall r | r in routes && ListedFor(routes, r, a) :: r.1 < k.len
  }

  /**
   * Split mode, whatever the metrics: an address for which a listed route is longer than all rows before has its best
   * rows in the tunnel only; one with a longer row than all listed, or with none listed, keeps exactly its best rows;
   * and the gateway, if its best row is outside the tunnel, keeps interface and next hop, unless some other row is for
   * the gateway alone.
   */
  lemma SplitModeByAddress(rows: Rows, cost: nat -> nat, tunnel: nat, gateway: Address, routes: seq<Route>,
      best: RowKey, a: Address, k: RowKey)
    ensures var after := Configured(State(rows, [], {}, [], false), tunnel, SplitCall(gateway, routes, best)).rows;
            && (a != gateway && ListedIsLongest(rows, routes, a) && WindowsRouting.IsBest(after, cost, a, k) ==>
                  k.interface == tunnel)
            && (a != gateway && ListedIsShorter(rows, routes, a) ==>
                  (WindowsRouting.IsBest(after, cost, a, k) <==> WindowsRouting.IsBest(rows, cost, a, k)))
            && (a == gateway && best.interface != tunnel && WindowsRouting.IsBest(after, cost, a, k) ==>
                  || (k.interface == best.interface && k.nextHop == best.nextHop)
                  || (k.len == 32 && (k in rows || k in RowsFor(tunnel, routes))))
  {
    var own := RowsFor(tunnel, routes);
    var u := Extended(rows, Exclusion(tunnel, gateway, best) + own);
    SplitRows(rows, tunnel, gateway, routes, best);
    if a == gateway {
      if best.interface != tunnel {
        var host := RowKey(best.interface, gateway, 32, best.nextHop);
        HostRowContains(host, a);
        assert host in u;
      }
    } else {
      if best.interface != tunnel {
        HostRowContains(RowKey(best.interface, gateway, 32, best.nextHop), a);
      }
      if ListedIsLongest(rows, routes, a) && WindowsRouting.IsBest(u, cost, a, k) {
        var r :| r in routes && ListedFor(routes, r, a) && forall m | m in rows && RowContains(m, a) :: m.len < r.1;
        assert RowFor(tunnel, r) in u && RowContains(RowFor(tunnel, r), a);
      }
      if ListedIsShorter(rows, routes, a) {
        ShorterKeeps(rows, u, cost, tunnel, routes, a, k);
      }
    }
  }

  lemma ShorterKeeps(rows: Rows, u: Rows, cost: nat -> nat, tunnel: nat, routes: seq<Route>, a: Address, k: RowKey)
    requires forall m | m in rows :: m in u && u[m] == rows[m]
    requires forall m | m in u && RowContains(m, a) :: m in rows || m in RowsFor(tunnel, routes)
    requires ListedIsShorter(rows, routes, a)
    ensures WindowsRouting.IsBest(u, cost, a, k) <==> WindowsRouting.IsBest(rows, cost, a, k)
  {
    forall m | m in RowsFor(tunnel, routes) && RowContains(m, a)
      ensures exists l | l in rows && RowContains(l, a) :: m.len < l.len
    {
      var r :| r in routes && RowFor(tunnel, r) == m;
      assert ListedFor(routes, r, a);
    }
    if WindowsRouting.IsBest(u, cost, a, k) {
      assert k in rows;
    }
    if WindowsRouting.IsBest(rows, cost, a, k) {
      assert k in u;
    }
  }
}
