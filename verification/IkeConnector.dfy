/**
 * The IPsec connector (crates/snxcore/src/tunnel/ipsec/connector.rs): the challenge dialogue with the gateway and
 * the clock arithmetic of rekeying. Every IKE exchange returns an arbitrary reply; durations are in seconds.
 */
module IkeConnectors {
  import opened Wrappers
  import opened ConnectionStates
  import opened Text

  const ESP_LIFETIME_LEEWAY: nat := 60
  const ADDRESS_LIFETIME_LEEWAY: nat := 300

  datatype AttributeType =
    | AuthType | Challenge | Status | UserName | Message
    | CccSessionId | Ipv4Address | Ipv4Netmask | AddressExpiry
    | Other(code: nat)

  datatype AttributeValue = Short(number: nat) | Long(bytes: seq<nat>)

  datatype Attribute = Attribute(attributeType: AttributeType, value: AttributeValue)

  datatype Payload = Payload(identifier: nat, attributes: seq<Attribute>)

  /** The first attribute that is not part of the dialogue's own bookkeeping. */
  function ChallengeAttributeType(attributes: seq<Attribute>): AttributeType {
    if attributes == [] then Other(0)
    else
      var t := attributes[0].attributeType;
      if t != AuthType && t != Challenge && t != Status then t else ChallengeAttributeType(attributes[1..])
  }

  function LongAttribute(attributes: seq<Attribute>, t: AttributeType): Option<seq<nat>> {
    if attributes == [] then None
    else if attributes[0].attributeType == t && attributes[0].value.Long? then Some(attributes[0].value.bytes)
    else LongAttribute(attributes[1..], t)
  }

  function ShortAttribute(attributes: seq<Attribute>, t: AttributeType): Option<nat> {
    if attributes == [] then None
    else if attributes[0].attributeType == t && attributes[0].value.Short? then Some(attributes[0].value.number)
    else ShortAttribute(attributes[1..], t)
  }

  function BigEndian(b: seq<nat>): nat
    requires |b| >= 4
  {
    ((b[0] * 0x100 + b[1]) * 0x100 + b[2]) * 0x100 + b[3]
  }

  /** A big-endian number from the first four bytes of an attribute, if it is there and long enough. */
  function ReadU32(attributes: seq<Attribute>, t: AttributeType): Option<nat> {
    match LongAttribute(attributes, t)
    case None => None
    case Some(b) => if |b| < 4 then None else Some(BigEndian(b))
  }

  datatype IpsecSession = IpsecSession(
    lifetime: nat, address: nat, netmask: nat, addressLifetime: nat, espIn: nat, espOut: nat)

  /** The gateway's answer to an ESP proposal: the lifetime it grants, if it names one, and the new keys. */
  datatype EspReply = EspReply(lifetime: Option<nat>, espIn: nat, espOut: nat)

  /**
   * What one exchange with the gateway would return, and what the clock shows when each part is done;
   * `acknowledged` tells whether the acknowledgement of a successful login could be sent.
   */
  datatype Exchange = Exchange(
    acknowledged: bool, officeMode: Result<Payload, string>, leaseAt: int, esp: Result<EspReply, string>, rekeyAt: int)

  /** An answer sent to the gateway. */
  datatype Sent = Sent(identifier: nat, messageId: nat, attributeType: AttributeType, text: string)

  /** The settings used, and how challenge and message attributes are read; neither reader is modelled further. */
  datatype Params = Params(
    userName: string,
    ipLeaseTime: Option<nat>,
    readChallenge: seq<nat> -> Option<MfaChallenge>,
    readUserName: seq<nat> -> Option<string>)

  /** The connector's fields; `accepted` lists the challenge types it has taken on, `outbox` the answers it has sent. */
  datatype Connector = Connector(
    params: Params,
    lastMessageId: nat,
    lastIdentifier: nat,
    lastChallengeType: AttributeType,
    cccSession: Option<seq<nat>>,
    username: string,
    session: IpsecSession,
    lastRekey: Option<int>,
    lastIpLease: Option<int>,
    tunnel: Option<seq<IpsecSession>>,
    accepted: seq<AttributeType>,
    outbox: seq<Sent>)

  datatype Step<T> = Step(connector: Connector, result: Result<T, string>)

  // ----- Exchanges -----

  function EspProposal(c: Connector, x: Exchange): Step<()> {
    match x.esp
    case Err(e) => Step(c, Err(e))
    case Ok(reply) =>
      if reply.lifetime.None? then Step(c, Err("no lifetime"))
      else
        Step(c.(session := c.session.(lifetime := reply.lifetime.value, espIn := reply.espIn, espOut := reply.espOut),
                lastRekey := Some(x.rekeyAt)),
             Ok(()))
  }

  function SessionExchange(c: Connector, username: string, x: Exchange): Step<TunnelSession> {
    match x.officeMode
    case Err(e) => Step(c, Err(e))
    case Ok(reply) =>
      var ccc := LongAttribute(reply.attributes, CccSessionId);
      if ccc.None? then Step(c, Err("no session"))
      else
        var withSession := c.(cccSession := ccc);
        var address := ReadU32(reply.attributes, Ipv4Address);
        if address.None? then Step(withSession, Err("no address"))
        else
          var withAddress := withSession.(session := c.session.(address := address.value));
          var netmask := ReadU32(reply.attributes, Ipv4Netmask);
          if netmask.None? then Step(withAddress, Err("no netmask"))
          else
            var withNetmask := withAddress.(session := withAddress.session.(netmask := netmask.value));
            var lease :=
              if c.params.ipLeaseTime.Some? then c.params.ipLeaseTime else ReadU32(reply.attributes, AddressExpiry);
            if lease.None? then Step(withNetmask, Err("no address expiry"))
            else
              var leased := withNetmask.(
                session := withNetmask.session.(addressLifetime := lease.value),
                lastIpLease := Some(x.leaseAt),
                username := username);
              var proposed := EspProposal(leased, x);
              Step(proposed.connector,
                   if proposed.result.Ok? then Ok(TunnelSession(0, Authenticated)) else Err(proposed.result.error))
  }

  /** A lifetime is used up a little early, unless it is shorter than the leeway. */
  function Effective(lifetime: nat, leeway: nat): nat {
    if lifetime < leeway then lifetime else lifetime - leeway
  }

  /** Due when the time since `last` has reached `limit`; a clock behind `last` counts as due. */
  predicate Due(last: Option<int>, now: int, limit: nat) {
    last.Some? && (if now < last.value then limit else now - last.value) >= limit
  }

  predicate LeaseDue(c: Connector, now: int) {
    Due(c.lastIpLease, now, Effective(c.session.addressLifetime, ADDRESS_LIFETIME_LEEWAY))
  }

  predicate RekeyDue(c: Connector, now: int) {
    Due(c.lastRekey, now, Effective(c.session.lifetime, ESP_LIFETIME_LEEWAY))
  }

  function NotifyTunnel(c: Connector): Step<()> {
    if c.tunnel.Some? then Step(c.(tunnel := Some(c.tunnel.value + [c.session])), Ok(()))
    else Step(c, Err("no sender"))
  }

  function RekeyTunnelSpec(c: Connector, online: bool, now: int, x: Exchange): Step<()> {
    if !online then Step(c, Ok(()))
    else if LeaseDue(c, now) then
      var step := SessionExchange(c, c.username, x);
      if step.result.Ok? then NotifyTunnel(step.connector) else Step(step.connector, Err(step.result.error))
    else if RekeyDue(c, now) then
      var step := EspProposal(c, x);
      if step.result.Ok? then NotifyTunnel(step.connector) else step
    else Step(c, Ok(()))
  }

  // ----- Challenges -----

  /** A reply and what follows from it; `replies` are the gateway's further answers, `used` how many were taken. */
  datatype Dialogue = Dialogue(connector: Connector, result: Result<TunnelSession, string>, used: nat)

  function PendingSession(challenge: MfaChallenge): TunnelSession {
    TunnelSession(0, PendingChallenge(challenge))
  }

  /** The challenge a reply without a status asks, if it asks one the connector understands. */
  function ReadRequest(params: Params, reply: Payload): Option<MfaChallenge> {
    match LongAttribute(reply.attributes, Challenge)
    case Some(bytes) => params.readChallenge(bytes)
    case None =>
      if ChallengeAttributeType(reply.attributes) == UserName
      then Some(MfaChallenge(UserNameInput, "username"))
      else None
  }

  /** The user name the gateway reports with a successful login, or else the configured one. */
  function ReportedUserName(params: Params, reply: Payload): string {
    var message := LongAttribute(reply.attributes, Message);
    var name := if message.Some? then params.readUserName(message.value) else None;
    if name.Some? then name.value else params.userName
  }

  function Accept(c: Connector, t: AttributeType): Connector {
    c.(lastChallengeType := t, accepted := c.accepted + [t])
  }

  function Measure(c: Connector): nat {
    if c.lastChallengeType == UserName then 0 else 1
  }

  function ProcessReply(c: Connector, reply: Payload, replies: seq<Result<Payload, string>>, x: Exchange): Dialogue
    decreases Measure(c), 0
  {
    var c := c.(lastIdentifier := reply.identifier);
    match ShortAttribute(reply.attributes, Status)
    case Some(status) =>
      if status == 1 then
        if !x.acknowledged then Dialogue(c, Err("cannot acknowledge"), 0)
        else
          var step := SessionExchange(c, ReportedUserName(c.params, reply), x);
          Dialogue(step.connector, step.result, 0)
      else Dialogue(c, Err("authentication failed"), 0)
    case None =>
      var request := ReadRequest(c.params, reply);
      var t := ChallengeAttributeType(reply.attributes);
      if request.None? then Dialogue(c, Err("no challenge"), 0)
      else if t == UserName then
        if c.lastChallengeType == UserName then Dialogue(c, Err("endless challenges"), 0)
        else if c.params.userName == "" then Dialogue(Accept(c, t), Ok(PendingSession(request.value)), 0)
        else Answer(Accept(c, t), c.params.userName, replies, x)
      else Dialogue(Accept(c, t), Ok(PendingSession(request.value)), 0)
  }

  function Answer(c: Connector, userInput: string, replies: seq<Result<Payload, string>>, x: Exchange): Dialogue
    decreases Measure(c), 1
  {
    var answer := Sent(c.lastIdentifier, c.lastMessageId, c.lastChallengeType, Trim(userInput));
    var sent := c.(outbox := c.outbox + [answer]);
    if replies == [] then Dialogue(sent, Err("no reply"), 0)
    else if replies[0].Err? then Dialogue(sent, Err(replies[0].error), 1)
    else
      var rest := ProcessReply(sent, replies[0].value, replies[1..], x);
      rest.(used := rest.used + 1)
  }

  class IPsecTunnelConnector {
    const params: Params
    var lastMessageId: nat
    var lastIdentifier: nat
    var lastChallengeType: AttributeType
    var cccSession: Option<seq<nat>>
    var username: string
    var session: IpsecSession
    var lastRekey: Option<int>
    var lastIpLease: Option<int>
    var tunnel: Option<seq<IpsecSession>>
    var accepted: seq<AttributeType>
    var outbox: seq<Sent>

    ghost function View(): Connector
      reads this
    {
      Connector(params, lastMessageId, lastIdentifier, lastChallengeType, cccSession, username, session, lastRekey,
                lastIpLease, tunnel, accepted, outbox)
    }

    constructor (params: Params)
      ensures this.params == params && lastChallengeType == Other(0) && accepted == [] && outbox == []
      ensures lastRekey.None? && lastIpLease.None? && tunnel.None?
    {
      this.params := params;
      lastMessageId, lastIdentifier, lastChallengeType := 0, 0, Other(0);
      cccSession, username, session := None, "", IpsecSession(0, 0, 0, 0, 0, 0);
      lastRekey, lastIpLease, tunnel, accepted, outbox := None, None, None, [], [];
    }

    method DoEspProposal(x: Exchange) returns (r: Result<(), string>)
      modifies this
      ensures Step(View(), r) == EspProposal(old(View()), x)
    {
      if x.esp.Err? {
        return Err(x.esp.error);
      }
      var reply := x.esp.value;
      if reply.lifetime.None? {
        return Err("no lifetime");
      }
      session := session.(lifetime := reply.lifetime.value);
      session := session.(espIn := reply.espIn);
      session := session.(espOut := reply.espOut);
      lastRekey := Some(x.rekeyAt);
      return Ok(());
    }

    method DoSessionExchange(newUsername: string, x: Exchange) returns (r: Result<TunnelSession, string>)
      modifies this
      ensures Step(View(), r) == SessionExchange(old(View()), newUsername, x)
    {
      if x.officeMode.Err? {
        return Err(x.officeMode.error);
      }
      var attributes := x.officeMode.value.attributes;
      var ccc := LongAttribute(attributes, CccSessionId);
      if ccc.None? {
        return Err("no session");
      }
      cccSession := ccc;
      var address := ReadU32(attributes, Ipv4Address);
      if address.None? {
        return Err("no address");
      }
      session := session.(address := address.value);
      var netmask := ReadU32(attributes, Ipv4Netmask);
      if netmask.None? {
        return Err("no netmask");
      }
      session := session.(netmask := netmask.value);
      var lease := params.ipLeaseTime;
      if lease.None? {
        lease := ReadU32(attributes, AddressExpiry);
        if lease.None? {
          return Err("no address expiry");
        }
      }
      session := session.(addressLifetime := lease.value);
      lastIpLease := Some(x.leaseAt);
      username := newUsername;
      ghost var leased := View();
      assert leased == old(View()).(
        cccSession := ccc,
        session := old(session).(address := address.value, netmask := netmask.value, addressLifetime := lease.value),
        lastIpLease := Some(x.leaseAt),
        username := newUsername);
      var proposed := DoEspProposal(x);
      if proposed.Err? {
        return Err(proposed.error);
      }
      return Ok(TunnelSession(0, Authenticated));
    }

    method RekeyTunnel(online: bool, now: int, x: Exchange) returns (r: Result<(), string>)
      modifies this
      ensures Step(View(), r) == RekeyTunnelSpec(old(View()), online, now, x)
    {
      if !online {
        return Ok(());
      }
      var lifetime :=
        if session.lifetime < ESP_LIFETIME_LEEWAY then session.lifetime else session.lifetime - ESP_LIFETIME_LEEWAY;
      var addressLifetime :=
        if session.addressLifetime < ADDRESS_LIFETIME_LEEWAY then session.addressLifetime
        else session.addressLifetime - ADDRESS_LIFETIME_LEEWAY;
      var rekeyed := false;
      if Due(lastIpLease, now, addressLifetime) {
        var exchanged := DoSessionExchange(username, x);
        if exchanged.Err? {
          return Err(exchanged.error);
        }
        rekeyed := true;
      } else if Due(lastRekey, now, lifetime) {
        var proposed := DoEspProposal(x);
        if proposed.Err? {
          return proposed;
        }
        rekeyed := true;
      }
      if rekeyed {
        if tunnel.None? {
          return Err("no sender");
        }
        tunnel := Some(tunnel.value + [session]);
      }
      return Ok(());
    }

    method ProcessAuthAttributes(reply: Payload, replies: seq<Result<Payload, string>>, x: Exchange)
      returns (r: Result<TunnelSession, string>, used: nat)
      modifies this
      ensures Dialogue(View(), r, used) == ProcessReply(old(View()), reply, replies, x)
      decreases Measure(View()), 0
    {
      lastIdentifier := reply.identifier;
      var status := ShortAttribute(reply.attributes, Status);
      if status.Some? {
        if status.value == 1 {
          if !x.acknowledged {
            return Err("cannot acknowledge"), 0;
          }
          r := DoSessionExchange(ReportedUserName(params, reply), x);
          return r, 0;
        }
        return Err("authentication failed"), 0;
      }
      var t := ChallengeAttributeType(reply.attributes);
      var request := ReadRequest(params, reply);
      if request.None? {
        return Err("no challenge"), 0;
      }
      if t == UserName {
        if lastChallengeType == UserName {
          return Err("endless challenges"), 0;
        }
        lastChallengeType := t;
        accepted := accepted + [t];
        if params.userName == "" {
          return Ok(PendingSession(request.value)), 0;
        }
        r, used := ChallengeCode(params.userName, replies, x);
      } else {
        lastChallengeType := t;
        accepted := accepted + [t];
        return Ok(PendingSession(request.value)), 0;
      }
    }

    method ChallengeCode(userInput: string, replies: seq<Result<Payload, string>>, x: Exchange)
      returns (r: Result<TunnelSession, string>, used: nat)
      modifies this
      ensures Dialogue(View(), r, used) == Answer(old(View()), userInput, replies, x)
      decreases Measure(View()), 1
    {
      outbox := outbox + [Sent(lastIdentifier, lastMessageId, lastChallengeType, Trim(userInput))];
      if replies == [] {
        return Err("no reply"), 0;
      }
      if replies[0].Err? {
        return Err(replies[0].error), 1;
      }
      r, used := ProcessAuthAttributes(replies[0].value, replies[1..], x);
      used := used + 1;
    }
  }

  // ----- The dialogue -----

  /** The reply a dialogue ended on. */
  function LastReply(reply: Payload, replies: seq<Result<Payload, string>>, used: nat): Payload
    requires used <= |replies| && (used > 0 ==> replies[used - 1].Ok?)
  {
    if used == 0 then reply else replies[used - 1].value
  }

  /** The gateway asks for a user name, for the first time in a row, and the parameters hold one. */
  predicate AnswersItself(c: Connector, reply: Payload) {
    ShortAttribute(reply.attributes, Status).None? && ReadRequest(c.params, reply).Some?
    && ChallengeAttributeType(reply.attributes) == UserName
    && c.lastChallengeType != UserName && c.params.userName != ""
  }

  /** The connector that has just sent the user name on its own. */
  function AfterOwnAnswer(c: Connector, reply: Payload): Connector {
    var accepted := Accept(c.(lastIdentifier := reply.identifier), UserName);
    accepted.(outbox := c.outbox + [Sent(reply.identifier, c.lastMessageId, UserName, Trim(c.params.userName))])
  }

  lemma OwnAnswerGoesOn(c: Connector, reply: Payload, replies: seq<Result<Payload, string>>, x: Exchange)
    requires AnswersItself(c, reply) && replies != [] && replies[0].Ok?
    ensures var rest := ProcessReply(AfterOwnAnswer(c, reply), replies[0].value, replies[1..], x);
            ProcessReply(c, reply, replies, x) == rest.(used := rest.used + 1)
  {
  }

  /**
   * One reply leads to at most one further exchange. When a session with a pending challenge comes back, the
   * connector's identifier and type are those of the very reply that asked it, so the next answer goes there.
   */
  lemma {:induction false} PendingMatchesItsReply(c: Connector, reply: Payload,
                                                  replies: seq<Result<Payload, string>>, x: Exchange)
    ensures var d := ProcessReply(c, reply, replies, x);
            && d.used <= Measure(c) && d.used <= |replies|
            && c.outbox <= d.connector.outbox
            && (d.result.Ok? && d.result.value.state.PendingChallenge? ==>
                  && (d.used > 0 ==> replies[d.used - 1].Ok?)
                  && var last := LastReply(reply, replies, d.used);
                     && ShortAttribute(last.attributes, Status).None?
                     && ReadRequest(c.params, last) == Some(d.result.value.state.challenge)
                     && d.connector.lastIdentifier == last.identifier
                     && d.connector.lastChallengeType == ChallengeAttributeType(last.attributes)
                     && (c.params.userName != "" ==> d.connector.lastChallengeType != UserName))
    decreases Measure(c)
  {
    if AnswersItself(c, reply) && replies != [] && replies[0].Ok? {
      OwnAnswerGoesOn(c, reply, replies, x);
      PendingMatchesItsReply(AfterOwnAnswer(c, reply), replies[0].value, replies[1..], x);
    }
  }

  /** So whatever the user answers is sent first of all to the reply that is pending. */
  lemma AnswerGoesToPending(c: Connector, reply: Payload, replies: seq<Result<Payload, string>>, x: Exchange,
                            userInput: string, later: seq<Result<Payload, string>>, y: Exchange)
    requires ProcessReply(c, reply, replies, x).result.Ok?
    requires ProcessReply(c, reply, replies, x).result.value.state.PendingChallenge?
    ensures var d := ProcessReply(c, reply, replies, x);
            && d.used <= |replies| && (d.used > 0 ==> replies[d.used - 1].Ok?)
            && var last := LastReply(reply, replies, d.used);
               var first := Sent(last.identifier, d.connector.lastMessageId, ChallengeAttributeType(last.attributes),
                   Trim(userInput));
               d.connector.outbox + [first] <= Answer(d.connector, userInput, later, y).connector.outbox
  {
    PendingMatchesItsReply(c, reply, replies, x);
    var d := ProcessReply(c, reply, replies, x).connector;
    if later != [] && later[0].Ok? {
      var answer := Sent(d.lastIdentifier, d.lastMessageId, d.lastChallengeType, Trim(userInput));
      var sent := d.(outbox := d.outbox + [answer]);
      PendingMatchesItsReply(sent, later[0].value, later[1..], y);
    }
  }

  predicate NeverTwice(accepted: seq<AttributeType>) {
    forall i | 0 < i < |accepted| :: !(accepted[i - 1] == UserName && accepted[i] == UserName)
  }

  /** The connector remembers the last type it took on, and has never taken on two user name requests in a row. */
  predicate Settled(c: Connector) {
    NeverTwice(c.accepted) && (c.accepted != [] ==> c.lastChallengeType == c.accepted[|c.accepted| - 1])
    && (c.accepted == [] ==> c.lastChallengeType != UserName)
  }

  /** Exchanging a session is no business of the dialogue. */
  lemma ExchangeKeepsDialogue(c: Connector, username: string, x: Exchange)
    ensures var after := SessionExchange(c, username, x).connector;
            after.accepted == c.accepted && after.lastChallengeType == c.lastChallengeType
  {
  }

  lemma AcceptKeepsSettled(c: Connector, t: AttributeType)
    requires Settled(c) && !(t == UserName && c.lastChallengeType == UserName)
    ensures Settled(Accept(c, t))
  {
  }

  lemma {:induction false} ReplyKeepsSettled(c: Connector, reply: Payload, replies: seq<Result<Payload, string>>,
      x: Exchange)
    requires Settled(c)
    ensures Settled(ProcessReply(c, reply, replies, x).connector)
    decreases Measure(c)
  {
    if AnswersItself(c, reply) && replies != [] && replies[0].Ok? {
      OwnAnswerGoesOn(c, reply, replies, x);
      AcceptKeepsSettled(c, UserName);
      ReplyKeepsSettled(AfterOwnAnswer(c, reply), replies[0].value, replies[1..], x);
    } else if ShortAttribute(reply.attributes, Status).Some? {
      ExchangeKeepsDialogue(c.(lastIdentifier := reply.identifier), ReportedUserName(c.params, reply), x);
    } else if !(ChallengeAttributeType(reply.attributes) == UserName && c.lastChallengeType == UserName) {
      AcceptKeepsSettled(c.(lastIdentifier := reply.identifier), ChallengeAttributeType(reply.attributes));
    }
  }

  /** Everything a session with the gateway can consist of. */
  datatype Event =
    | FirstReply(messageId: nat, reply: Payload, replies: seq<Result<Payload, string>>, x: Exchange)
    | UserAnswer(text: string, replies: seq<Result<Payload, string>>, x: Exchange)
    | RekeyCheck(online: bool, now: int, x: Exchange)

  function Handle(c: Connector, e: Event): Connector {
    match e
    case FirstReply(messageId, reply, replies, x) =>
      ProcessReply(c.(lastMessageId := messageId), reply, replies, x).connector
    case UserAnswer(text, replies, x) => Answer(c, text, replies, x).connector
    case RekeyCheck(online, now, x) => RekeyTunnelSpec(c, online, now, x).connector
  }

  function HandleAll(c: Connector, events: seq<Event>): Connector
    decreases |events|
  {
    if events == [] then c else HandleAll(Handle(c, events[0]), events[1..])
  }

  /** Whatever the gateway replies and the user answers, no user name request directly follows another. */
  lemma {:induction false} NeverTwoUserNames(c: Connector, events: seq<Event>)
    requires Settled(c)
    ensures Settled(HandleAll(c, events))
    decreases |events|
  {
    if events != [] {
      match events[0] {
        case FirstReply(messageId, reply, replies, x) =>
          ReplyKeepsSettled(c.(lastMessageId := messageId), reply, replies, x);
        case UserAnswer(text, replies, x) => AnswerKeepsSettled(c, text, replies, x);
        case RekeyCheck(_, _, _) =>
      }
      NeverTwoUserNames(Handle(c, events[0]), events[1..]);
    }
  }

  lemma AnswerKeepsSettled(c: Connector, text: string, replies: seq<Result<Payload, string>>, x: Exchange)
    requires Settled(c)
    ensures Settled(Answer(c, text, replies, x).connector)
  {
    if replies != [] && replies[0].Ok? {
      var sent := c.(outbox := c.outbox + [Sent(c.lastIdentifier, c.lastMessageId, c.lastChallengeType, Trim(text))]);
      ReplyKeepsSettled(sent, replies[0].value, replies[1..], x);
    }
  }

  // ----- The clock -----

  /** At `now`, neither the keys nor the address lease are older than their effective lifetimes. */
  predicate Renewed(c: Connector, now: int) {
    && (c.lastRekey.Some? ==> now - c.lastRekey.value <= Effective(c.session.lifetime, ESP_LIFETIME_LEEWAY))
    && (c.lastIpLease.Some? ==>
          now - c.lastIpLease.value <= Effective(c.session.addressLifetime, ADDRESS_LIFETIME_LEEWAY))
  }

  datatype Check = Check(now: int, x: Exchange)

  /** The check's exchange succeeds and its parts are done no earlier than the check began. */
  predicate Succeeds(c: Connector, check: Check) {
    RekeyTunnelSpec(c, true, check.now, check.x).result.Ok? && check.now <= check.x.leaseAt
        && check.now <= check.x.rekeyAt
  }

  function AfterChecks(c: Connector, checks: seq<Check>): Connector
    decreases |checks|
  {
    if checks == [] then c
    else AfterChecks(RekeyTunnelSpec(c, true, checks[0].now, checks[0].x).connector, checks[1..])
  }

  predicate AllSucceed(c: Connector, checks: seq<Check>)
    decreases |checks|
  {
    checks == [] || (Succeeds(c, checks[0])
                     && AllSucceed(RekeyTunnelSpec(c, true, checks[0].now, checks[0].x).connector, checks[1..]))
  }

  lemma CheckRenews(c: Connector, check: Check)
    requires Succeeds(c, check)
    ensures Renewed(RekeyTunnelSpec(c, true, check.now, check.x).connector, check.now)
  {
  }

  lemma {:induction false} ChecksKeepRenewed(c: Connector, start: int, checks: seq<Check>)
    requires Renewed(c, start)
    requires AllSucceed(c, checks)
    ensures Renewed(AfterChecks(c, checks), if checks == [] then start else checks[|checks| - 1].now)
    decreases |checks|
  {
    if checks != [] {
      CheckRenews(c, checks[0]);
      ChecksKeepRenewed(RekeyTunnelSpec(c, true, checks[0].now, checks[0].x).connector, checks[0].now, checks[1..]);
    }
  }

  /**
   * Over any run of successful checks, until the next check, at most `gap` later, has finished within `delay`:
   * the keys never outlive their lifetime less a minute, nor the lease its own less five, by more than gap and delay.
   */
  lemma AgesStayBounded(c: Connector, start: int, checks: seq<Check>, gap: nat, delay: nat, t: int)
    requires Renewed(c, start)
    requires AllSucceed(c, checks)
    requires t <= (if checks == [] then start else checks[|checks| - 1].now) + gap + delay
    ensures var last := AfterChecks(c, checks);
            && (last.lastRekey.Some? && last.session.lifetime >= 60 ==>
                  t - last.lastRekey.value <= last.session.lifetime - 60 + gap + delay)
            && (last.lastRekey.Some? && last.session.lifetime < 60 ==>
                  t - last.lastRekey.value <= last.session.lifetime + gap + delay)
            && (last.lastIpLease.Some? && last.session.addressLifetime >= 300 ==>
                  t - last.lastIpLease.value <= last.session.addressLifetime - 300 + gap + delay)
            && (last.lastIpLease.Some? && last.session.addressLifetime < 300 ==>
                  t - last.lastIpLease.value <= last.session.addressLifetime + gap + delay)
  {
    ChecksKeepRenewed(c, start, checks);
  }

  /** A login leaves the connector renewed, so the bound holds from the first check on. */
  lemma LoginRenews(c: Connector, username: string, x: Exchange, start: int)
    requires SessionExchange(c, username, x).result.Ok?
    requires start <= x.leaseAt && start <= x.rekeyAt
    ensures Renewed(SessionExchange(c, username, x).connector, start)
  {
  }

  /**
   * When a check renews: exactly if the lease or the keys have run down, or the clock has fallen behind the time
   * of the last renewal. A new lease always comes with new keys, and the tunnel is told of whatever is new.
   */
  lemma WhatACheckRenews(c: Connector, now: int, x: Exchange)
    requires c.lastRekey.Some? && c.lastIpLease.Some? && c.tunnel.Some?
    requires RekeyTunnelSpec(c, true, now, x).result.Ok?
    ensures var after := RekeyTunnelSpec(c, true, now, x).connector;
            var leaseLimit := Effective(c.session.addressLifetime, ADDRESS_LIFETIME_LEEWAY);
            var keyLimit := Effective(c.session.lifetime, ESP_LIFETIME_LEEWAY);
            var leaseDue := now < c.lastIpLease.value || now >= c.lastIpLease.value + leaseLimit;
            var keysDue := now < c.lastRekey.value || now >= c.lastRekey.value + keyLimit;
            && after.lastIpLease == (if leaseDue then Some(x.leaseAt) else c.lastIpLease)
            && after.lastRekey == (if leaseDue || keysDue then Some(x.rekeyAt) else c.lastRekey)
            && after.tunnel == Some(c.tunnel.value + if leaseDue || keysDue then [after.session] else [])
  {
    assert c.tunnel.value + [] == c.tunnel.value;
  }
}
