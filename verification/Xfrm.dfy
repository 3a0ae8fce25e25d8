/** The kernel's IPsec databases under a native tunnel (crates/snxcore/src/platform/linux/xfrm.rs). */
module Xfrm {
  import opened Wrappers

  type Ip = nat

  /** How the kernel finds an ESP association: by its destination and index, wherever it comes from. */
  datatype SaId = SaId(dst: Ip, spi: nat)

  datatype Direction = Out | In

  datatype Policy = Policy(direction: Direction, ifId: nat)

  /** What a session contributes: the keys of both directions and the device's address. */
  datatype Session = Session(espOut: nat, espIn: nat, address: nat)

  datatype Endpoints = Endpoints(src: Ip, dest: Ip, ifId: nat)

  /** Each association with its source; the policies; and the addresses of the device, if there is one. */
  datatype Databases = Databases(sas: map<SaId, Ip>, policies: set<Policy>, device: Option<set<nat>>)

  datatype Call =
    | AddSa(id: SaId, src: Ip)
    | DeleteSa(id: SaId)
    | AddPolicy(policy: Policy)
    | DeletePolicy(policy: Policy)
    | AddDevice
    | DeleteDevice
    | AddAddress(address: nat)
    | DeleteAddress(address: nat)

  /** Nothing is added twice. Deleting what is not there is no failure that the client notices, except for addresses. */
  predicate Fails(db: Databases, call: Call) {
    match call
    case AddSa(id, _) => id in db.sas
    case AddPolicy(policy) => policy in db.policies
    case AddAddress(address) => db.device.None? || address in db.device.value
    case DeleteAddress(address) => db.device.None? || address !in db.device.value
    case _ => false
  }

  function Do(db: Databases, call: Call): Databases
    requires !Fails(db, call)
  {
    match call
    case AddSa(id, src) => db.(sas := db.sas[id := src])
    case DeleteSa(id) => db.(sas := db.sas - {id})
    case AddPolicy(policy) => db.(policies := db.policies + {policy})
    case DeletePolicy(policy) => db.(policies := db.policies - {policy})
    case AddDevice => if db.device.None? then db.(device := Some({})) else db
    case DeleteDevice => db.(device := None)
    case AddAddress(address) => db.(device := Some(db.device.value + {address}))
    case DeleteAddress(address) => db.(device := Some(db.device.value - {address}))
  }

  /** How far a list of calls has come: whether none has failed, the databases after each call, and those now. */
  datatype Outcome = Outcome(ok: bool, history: seq<Databases>, db: Databases)

  function Start(db: Databases): Outcome {
    Outcome(true, [], db)
  }

  /** One more call, unless an earlier one has failed. */
  function Then(o: Outcome, call: Call): Outcome {
    if !o.ok then o
    else if Fails(o.db, call) then Outcome(false, o.history + [o.db], o.db)
    else Outcome(true, o.history + [Do(o.db, call)], Do(o.db, call))
  }

  function OutId(e: Endpoints, s: Session): SaId {
    SaId(e.dest, s.espOut)
  }

  function InId(e: Endpoints, s: Session): SaId {
    SaId(e.src, s.espIn)
  }

  function WithPair(o: Outcome, e: Endpoints, s: Session): Outcome {
    Then(Then(o, AddSa(OutId(e, s), e.src)), AddSa(InId(e, s), e.dest))
  }

  function WithoutPair(o: Outcome, e: Endpoints, s: Session): Outcome {
    Then(Then(o, DeleteSa(OutId(e, s))), DeleteSa(InId(e, s)))
  }

  function Configured(o: Outcome, e: Endpoints, s: Session): Outcome {
    Then(Then(WithPair(Then(Then(o, AddDevice), AddAddress(s.address)), e, s), AddPolicy(Policy(Out, e.ifId))),
         AddPolicy(Policy(In, e.ifId)))
  }

  function Rekeyed(o: Outcome, e: Endpoints, s: Session, next: Session): Outcome {
    var moved := WithoutPair(WithPair(o, e, next), e, s);
    if s.address == next.address then moved
    else Then(Then(moved, AddAddress(next.address)), DeleteAddress(s.address))
  }

  /** The session changes hands once its two associations are in place. */
  function SessionAfter(db: Databases, e: Endpoints, s: Session, next: Session): Session {
    if Fresh(db, e, next) then next else s
  }

  function Cleaned(o: Outcome, e: Endpoints, s: Session): Outcome {
    Then(Then(Then(WithoutPair(o, e, s), DeletePolicy(Policy(Out, e.ifId))), DeletePolicy(Policy(In, e.ifId))),
         DeleteDevice)
  }

  /** A session's keys are not in use, and differ from each other where they could be confused. */
  predicate Fresh(db: Databases, e: Endpoints, s: Session) {
    OutId(e, s) !in db.sas && InId(e, s) !in db.sas && OutId(e, s) != InId(e, s)
  }

  predicate HasOut(db: Databases, e: Endpoints) {
    exists id | id in db.sas :: id.dst == e.dest && db.sas[id] == e.src
  }

  predicate HasIn(db: Databases, e: Endpoints) {
    exists id | id in db.sas :: id.dst == e.src && db.sas[id] == e.dest
  }

  /** The kernel, with a history of its databases after every call. */
  class Kernel {
    var db: Databases
    ghost var history: seq<Databases>

    constructor (db: Databases)
      ensures this.db == db && history == []
    {
      this.db := db;
      history := [];
    }

    ghost function View(ok: bool): Outcome
      reads this
    {
      Outcome(ok, history, db)
    }

    method Execute(call: Call) returns (ok: bool)
      modifies this
      ensures View(ok) == Then(old(View(true)), call)
    {
      ok := !Fails(db, call);
      if ok {
        db := Do(db, call);
      }
      history := history + [db];
    }
  }

  class XfrmConfigurator {
    const kernel: Kernel
    const endpoints: Endpoints
    var session: Session

    constructor (kernel: Kernel, endpoints: Endpoints, session: Session)
      ensures this.kernel == kernel && this.endpoints == endpoints && this.session == session
    {
      this.kernel, this.endpoints, this.session := kernel, endpoints, session;
    }

    method Configure() returns (ok: bool)
      modifies kernel
      ensures kernel.View(ok) == Configured(old(kernel.View(true)), endpoints, session)
    {
      ok := kernel.Execute(AddDevice);
      ok := kernel.Execute(AddAddress(session.address));
      if !ok { return; }
      ok := kernel.Execute(AddSa(OutId(endpoints, session), endpoints.src));
      if !ok { return; }
      ok := kernel.Execute(AddSa(InId(endpoints, session), endpoints.dest));
      if !ok { return; }
      ok := kernel.Execute(AddPolicy(Policy(Out, endpoints.ifId)));
      if !ok { return; }
      ok := kernel.Execute(AddPolicy(Policy(In, endpoints.ifId)));
    }

    method Rekey(next: Session) returns (ok: bool)
      modifies this, kernel
      ensures kernel.View(ok) == Rekeyed(old(kernel.View(true)), endpoints, old(session), next)
      ensures session == SessionAfter(old(kernel.db), endpoints, old(session), next)
    {
      ok := kernel.Execute(AddSa(OutId(endpoints, next), endpoints.src));
      if !ok { return; }
      ok := kernel.Execute(AddSa(InId(endpoints, next), endpoints.dest));
      if !ok { return; }
      ok := kernel.Execute(DeleteSa(OutId(endpoints, session)));
      ok := kernel.Execute(DeleteSa(InId(endpoints, session)));
      var oldAddress := session.address;
      session := next;
      if oldAddress != next.address {
        ok := kernel.Execute(AddAddress(next.address));
        if !ok { return; }
        ok := kernel.Execute(DeleteAddress(oldAddress));
      }
    }

    method Cleanup()
      modifies kernel
      ensures kernel.View(true) == Cleaned(old(kernel.View(true)), endpoints, session)
    {
      var ok := kernel.Execute(DeleteSa(OutId(endpoints, session)));
      ok := kernel.Execute(DeleteSa(InId(endpoints, session)));
      ok := kernel.Execute(DeletePolicy(Policy(Out, endpoints.ifId)));
      ok := kernel.Execute(DeletePolicy(Policy(In, endpoints.ifId)));
      ok := kernel.Execute(DeleteDevice);
    }
  }

  // ----- What one call of each kind does -----

  /**
   * The databases are `beside`, which has a device, together with exactly this session's two associations, the two
   * policies and its address.
   */
  predicate InService(db: Databases, beside: Databases, e: Endpoints, s: Session) {
    && Fresh(beside, e, s)
    && db.sas == beside.sas[SaId(e.dest, s.espOut) := e.src][SaId(e.src, s.espIn) := e.dest]
    && Policy(Out, e.ifId) !in beside.policies && Policy(In, e.ifId) !in beside.policies
    && db.policies == beside.policies + {Policy(Out, e.ifId), Policy(In, e.ifId)}
    && beside.device.Some? && s.address !in beside.device.value
    && db.device == Some(beside.device.value + {s.address})
  }

  /** Configuring succeeds exactly on unused keys, policies and addresses, and then puts the session in service. */
  lemma ConfigurePutsInService(original: Databases, e: Endpoints, s: Session)
    ensures var o := Configured(Start(original), e, s);
            var beside := Do(original, AddDevice);
            && (o.ok <==>
                  && Fresh(original, e, s) && s.address !in beside.device.value
                  && Policy(Out, e.ifId) !in original.policies && Policy(In, e.ifId) !in original.policies)
            && (o.ok ==> InService(o.db, beside, e, s))
  {
  }

  /** A rekeying stops half way: the outgoing association is new, the incoming one is not. */
  predicate HalfFresh(db: Databases, e: Endpoints, next: Session) {
    OutId(e, next) !in db.sas && (InId(e, next) in db.sas || InId(e, next) == OutId(e, next))
  }

  /** What a rekeying leaves beside the session's own: half a pair, or an address it could not replace. */
  function BesideAfter(db: Databases, beside: Databases, e: Endpoints, s: Session, next: Session): Databases
    requires beside.device.Some?
  {
    if HalfFresh(db, e, next) then beside.(sas := beside.sas[OutId(e, next) := e.src])
    else if Fresh(db, e, next) && next.address in beside.device.value
    then beside.(device := Some(beside.device.value + {s.address} - {next.address}))
    else beside
  }

  lemma RekeyStops(db: Databases, beside: Databases, e: Endpoints, s: Session, next: Session)
    requires InService(db, beside, e, s) && !Fresh(db, e, next)
    ensures var o := Rekeyed(Start(db), e, s, next);
            && (forall d | d in o.history :: HasOut(d, e) && HasIn(d, e))
            && InService(o.db, BesideAfter(db, beside, e, s, next), e, s)
  {
  }

  lemma PairMoves(db: Databases, beside: Databases, e: Endpoints, s: Session, next: Session)
    requires InService(db, beside, e, s) && Fresh(db, e, next)
    ensures var o := WithoutPair(WithPair(Start(db), e, next), e, s);
            && o.ok
            && (forall d | d in o.history :: HasOut(d, e) && HasIn(d, e))
            && o.db == db.(sas := beside.sas[OutId(e, next) := e.src][InId(e, next) := e.dest])
            && HasOut(o.db, e) && HasIn(o.db, e)
  {
    var o := WithoutPair(WithPair(Start(db), e, next), e, s);
    forall d | d in o.history
      ensures HasOut(d, e) && HasIn(d, e)
    {
      assert OutId(e, s) in d.sas || OutId(e, next) in d.sas;
      assert InId(e, s) in d.sas || InId(e, next) in d.sas;
    }
  }

  lemma AddressMoves(o: Outcome, others: set<nat>, was: nat, new': nat)
    requires o.ok && o.db.device == Some(others + {was}) && was !in others && was != new'
    ensures var end := Then(Then(o, AddAddress(new')), DeleteAddress(was));
            && end.db.sas == o.db.sas && end.db.policies == o.db.policies
            && end.db.device == Some((if new' in others then others + {was} - {new'} else others) + {new'})
            && forall d | d in end.history :: d in o.history || d.sas == o.db.sas
  {
    if new' in others {
      assert others + {was} == others + {was} - {new'} + {new'};
    } else {
      assert others + {was} + {new'} - {was} == others + {new'};
    }
  }

  lemma RekeyMoves(db: Databases, beside: Databases, e: Endpoints, s: Session, next: Session)
    requires InService(db, beside, e, s) && Fresh(db, e, next)
    ensures var o := Rekeyed(Start(db), e, s, next);
            && (forall d | d in o.history :: HasOut(d, e) && HasIn(d, e))
            && InService(o.db, BesideAfter(db, beside, e, s, next), e, next)
  {
    var moved := WithoutPair(WithPair(Start(db), e, next), e, s);
    PairMoves(db, beside, e, s, next);
    if s.address != next.address {
      AddressMoves(moved, beside.device.value, s.address, next.address);
      var o := Then(Then(moved, AddAddress(next.address)), DeleteAddress(s.address));
      assert Rekeyed(Start(db), e, s, next) == o;
      forall d | d in o.history
        ensures HasOut(d, e) && HasIn(d, e)
      {
        if d.sas == moved.db.sas {
          SameService(moved.db, d, e);
        }
      }
    }
  }

  lemma SameService(a: Databases, b: Databases, e: Endpoints)
    requires a.sas == b.sas
    ensures HasOut(a, e) <==> HasOut(b, e)
    ensures HasIn(a, e) <==> HasIn(b, e)
  {
  }

  /**
   * Whatever keys a rekeying brings, both directions have an association after every single call, also when it fails;
   * and at its end exactly the pair and the address of the session that is then current are in place.
   */
  lemma RekeyNeverInterrupts(db: Databases, beside: Databases, e: Endpoints, s: Session, next: Session)
    requires InService(db, beside, e, s)
    ensures var o := Rekeyed(Start(db), e, s, next);
            && (forall d | d in o.history :: HasOut(d, e) && HasIn(d, e))
            && InService(o.db, BesideAfter(db, beside, e, s, next), e, SessionAfter(db, e, s, next))
  {
    if Fresh(db, e, next) {
      RekeyMoves(db, beside, e, s, next);
    } else {
      RekeyStops(db, beside, e, s, next);
    }
  }

  lemma CleanupLeavesBeside(db: Databases, beside: Databases, e: Endpoints, s: Session)
    requires InService(db, beside, e, s)
    ensures Cleaned(Start(db), e, s).db == beside.(device := None)
  {
    assert db.sas - {OutId(e, s)} - {InId(e, s)} == beside.sas;
  }

  /** While a session is in service, fresh means new to what is beside it and to the session's own pair. */
  lemma ReusedKeyIsNotFresh(db: Databases, beside: Databases, e: Endpoints, s: Session, next: Session)
    requires InService(db, beside, e, s)
    ensures Fresh(db, e, next) <==>
              Fresh(beside, e, next) && {OutId(e, next), InId(e, next)} !! {OutId(e, s), InId(e, s)}
  {
  }

  // ----- Runs -----

  /** The databases after every single call of a run of rekeyings; whether one failed is ignored. */
  function RunHistory(db: Databases, e: Endpoints, s: Session, sessions: seq<Session>): seq<Databases>
    decreases |sessions|
  {
    if sessions == [] then []
    else
      var o := Rekeyed(Start(db), e, s, sessions[0]);
      o.history + RunHistory(o.db, e, SessionAfter(db, e, s, sessions[0]), sessions[1..])
  }

  /** Databases and session at the end of a run. */
  function RunEnd(db: Databases, e: Endpoints, s: Session, sessions: seq<Session>): (Databases, Session)
    decreases |sessions|
  {
    if sessions == [] then (db, s)
    else RunEnd(Rekeyed(Start(db), e, s, sessions[0]).db, e, SessionAfter(db, e, s, sessions[0]), sessions[1..])
  }

  /** Some rekeying of the run stops half way. */
  predicate StopsHalfWay(db: Databases, e: Endpoints, s: Session, sessions: seq<Session>)
    decreases |sessions|
  {
    sessions != []
    && (HalfFresh(db, e, sessions[0])
        || StopsHalfWay(Rekeyed(Start(db), e, s, sessions[0]).db, e, SessionAfter(db, e, s, sessions[0]),
                        sessions[1..]))
  }

  lemma {:induction false} RunKeepsService(db: Databases, beside: Databases, e: Endpoints, s: Session,
      sessions: seq<Session>) returns (left: Databases)
    requires InService(db, beside, e, s)
    ensures forall d | d in RunHistory(db, e, s, sessions) :: HasOut(d, e) && HasIn(d, e)
    ensures var end := RunEnd(db, e, s, sessions); InService(end.0, left, e, end.1)
    ensures left.policies == beside.policies && beside.sas.Keys <= left.sas.Keys
    ensures beside.device == Some({}) ==> left.device == Some({})
    ensures left.sas == beside.sas <==> !StopsHalfWay(db, e, s, sessions)
    decreases |sessions|
  {
    if sessions == [] {
      left := beside;
    } else {
      var next := sessions[0];
      var after := BesideAfter(db, beside, e, s, next);
      RekeyNeverInterrupts(db, beside, e, s, next);
      left := RunKeepsService(Rekeyed(Start(db), e, s, next).db, after, e, SessionAfter(db, e, s, next), sessions[1..]);
      if HalfFresh(db, e, next) {
        assert OutId(e, next) in left.sas && OutId(e, next) !in beside.sas;
      }
    }
  }

  lemma ServiceHasBoth(db: Databases, beside: Databases, e: Endpoints, s: Session)
    requires InService(db, beside, e, s)
    ensures HasOut(db, e) && HasIn(db, e)
  {
    assert OutId(e, s) in db.sas && InId(e, s) in db.sas;
  }

  lemma RunThenCleanup(db: Databases, beside: Databases, e: Endpoints, s: Session, sessions: seq<Session>)
      returns (left: Databases)
    requires InService(db, beside, e, s)
    ensures HasOut(db, e) && HasIn(db, e)
    ensures forall d | d in RunHistory(db, e, s, sessions) :: HasOut(d, e) && HasIn(d, e)
    ensures var (end, current) := RunEnd(db, e, s, sessions);
            && InService(end, left, e, current)
            && Cleaned(Start(end), e, current).db == left.(device := None)
            && (beside.device == Some({}) ==> end.device == Some({current.address}))
    ensures left.policies == beside.policies
    ensures left.sas == beside.sas <==> !StopsHalfWay(db, e, s, sessions)
  {
    ServiceHasBoth(db, beside, e, s);
    left := RunKeepsService(db, beside, e, s, sessions);
    var end := RunEnd(db, e, s, sessions);
    CleanupLeavesBeside(end.0, left, e, end.1);
    assert {} + {end.1.address} == {end.1.address};
  }

  /**
   * From a successful configuration on, through any rekeyings with any keys: no call leaves a direction without an
   * association. At the end the session that is then current is in service beside `left`, and cleaning up leaves just
   * that: the policies as they were found, and the associations exactly when no rekeying stopped half way. On a new
   * device the session's address is the only one.
   */
  lemma RunStaysInService(original: Databases, e: Endpoints, s: Session, sessions: seq<Session>)
      returns (left: Databases)
    requires Configured(Start(original), e, s).ok
    ensures var db := Configured(Start(original), e, s).db;
            var (end, current) := RunEnd(db, e, s, sessions);
            && HasOut(db, e) && HasIn(db, e)
            && (forall d | d in RunHistory(db, e, s, sessions) :: HasOut(d, e) && HasIn(d, e))
            && InService(end, left, e, current)
            && Cleaned(Start(end), e, current).db == left.(device := None)
            && left.policies == original.policies
            && (left.sas == original.sas <==> !StopsHalfWay(db, e, s, sessions))
            && (original.device.None? ==> end.device == Some({current.address}))
  {
    ConfigurePutsInService(original, e, s);
    left := RunThenCleanup(Configured(Start(original), e, s).db, Do(original, AddDevice), e, s, sessions);
  }
}
