/**
 * What comes of the gateway's replies (crates/snxcore/src/tunnel/ipsec/connector.rs): which reply lets a user in, what
 * the connector then holds, and what a check renews, field by field.
 */
module IkeOutcomes {
  import opened Wrappers
  import opened ConnectionStates
  import opened IkeConnectors
  import opened Text

  // ----- Reading attributes -----

  /** The first attribute of this type that holds a number decides. */
  lemma {:induction false} ShortIsFirst(attributes: seq<Attribute>, t: AttributeType) returns (i: nat)
    ensures i <= |attributes|
    ensures forall j | 0 <= j < i :: attributes[j].attributeType != t || attributes[j].value.Long?
    ensures i == |attributes| ==> ShortAttribute(attributes, t) == None
    ensures i < |attributes| ==>
              && attributes[i].attributeType == t && attributes[i].value.Short?
              && ShortAttribute(attributes, t) == Some(attributes[i].value.number)
  {
    if attributes == [] || (attributes[0].attributeType == t && attributes[0].value.Short?) {
      i := 0;
    } else {
      var rest := ShortIsFirst(attributes[1..], t);
      i := rest + 1;
      assert forall j | 0 < j < |attributes| :: attributes[j] == attributes[1..][j - 1];
    }
  }

  /** And likewise the first one that holds bytes. */
  lemma {:induction false} LongIsFirst(attributes: seq<Attribute>, t: AttributeType) returns (i: nat)
    ensures i <= |attributes|
    ensures forall j | 0 <= j < i :: attributes[j].attributeType != t || attributes[j].value.Short?
    ensures i == |attributes| ==> LongAttribute(attributes, t) == None
    ensures i < |attributes| ==>
              && attributes[i].attributeType == t && attributes[i].value.Long?
              && LongAttribute(attributes, t) == Some(attributes[i].value.bytes)
  {
    if attributes == [] || (attributes[0].attributeType == t && attributes[0].value.Long?) {
      i := 0;
    } else {
      var rest := LongIsFirst(attributes[1..], t);
      i := rest + 1;
      assert forall j | 0 < j < |attributes| :: attributes[j] == attributes[1..][j - 1];
    }
  }

  /** What is asked for is the type of the first attribute that is no part of the protocol. */
  lemma {:induction false} ChallengeTypeIsFirst(attributes: seq<Attribute>) returns (i: nat)
    ensures i <= |attributes|
    ensures forall j | 0 <= j < i :: attributes[j].attributeType in {AuthType, Challenge, Status}
    ensures i == |attributes| ==> ChallengeAttributeType(attributes) == Other(0)
    ensures i < |attributes| ==>
              && attributes[i].attributeType !in {AuthType, Challenge, Status}
              && ChallengeAttributeType(attributes) == attributes[i].attributeType
  {
    if attributes == [] || attributes[0].attributeType !in {AuthType, Challenge, Status} {
      i := 0;
    } else {
      var rest := ChallengeTypeIsFirst(attributes[1..]);
      i := rest + 1;
      assert forall j | 0 < j < |attributes| :: attributes[j] == attributes[1..][j - 1];
    }
  }

  /** A number is there exactly if the attribute holds at least four bytes. */
  lemma NumberNeedsFourBytes(attributes: seq<Attribute>, t: AttributeType)
    ensures var bytes := LongAttribute(attributes, t);
            && (ReadU32(attributes, t).Some? <==> bytes.Some? && |bytes.value| >= 4)
            && (bytes.Some? && |bytes.value| >= 4 ==> ReadU32(attributes, t) == Some(BigEndian(bytes.value)))
  {
  }

  /** Four bytes, the most significant one first, read back as their number; what follows does not matter. */
  lemma NumberReadsBack(n: nat, more: seq<nat>)
    requires n < 0x1_0000_0000
    ensures BigEndian([n / 0x100_0000, n / 0x1_0000 % 0x100, n / 0x100 % 0x100, n % 0x100] + more) == n
  {
  }

  // ----- Which reply lets a user in -----

  /** The address lease the replies grant: from the settings, or else from the reply. */
  function Lease(params: Params, attributes: seq<Attribute>): Option<nat> {
    if params.ipLeaseTime.Some? then params.ipLeaseTime else ReadU32(attributes, AddressExpiry)
  }

  predicate EspComplete(x: Exchange) {
    x.esp.Ok? && x.esp.value.lifetime.Some?
  }

  predicate OfficeComplete(params: Params, x: Exchange) {
    && x.officeMode.Ok?
    && var attributes := x.officeMode.value.attributes;
       && LongAttribute(attributes, CccSessionId).Some? && ReadU32(attributes, Ipv4Address).Some?
       && ReadU32(attributes, Ipv4Netmask).Some? && Lease(params, attributes).Some?
  }

  /** Session, lease, keys and times are those of the replies, each in its field. */
  predicate HoldsReplies(c: Connector, x: Exchange)
    requires OfficeComplete(c.params, x) && EspComplete(x)
  {
    var attributes := x.officeMode.value.attributes;
    && c.cccSession == LongAttribute(attributes, CccSessionId)
    && Some(c.session.address) == ReadU32(attributes, Ipv4Address)
    && Some(c.session.netmask) == ReadU32(attributes, Ipv4Netmask)
    && Some(c.session.addressLifetime) == Lease(c.params, attributes)
    && Some(c.session.lifetime) == x.esp.value.lifetime
    && c.session.espIn == x.esp.value.espIn && c.session.espOut == x.esp.value.espOut
    && c.lastIpLease == Some(x.leaseAt) && c.lastRekey == Some(x.rekeyAt)
  }

  ghost predicate SameSession(c: Connector, d: Connector) {
    && d.session == c.session && d.cccSession == c.cccSession && d.username == c.username
    && d.lastRekey == c.lastRekey && d.lastIpLease == c.lastIpLease && d.tunnel == c.tunnel && d.params == c.params
  }

  lemma ExchangeHolds(c: Connector, username: string, x: Exchange)
    ensures var step := SessionExchange(c, username, x);
            && step.connector.params == c.params && step.connector.tunnel == c.tunnel
            && (step.result.Ok? <==> OfficeComplete(c.params, x) && EspComplete(x))
            && (step.result.Ok? ==>
                  && step.result.value == TunnelSession(0, Authenticated)
                  && HoldsReplies(step.connector, x) && step.connector.username == username)
  {
  }

  /** The name in a readable message, or else the configured one. */
  predicate IsReported(params: Params, reply: Payload, name: string) {
    var message := LongAttribute(reply.attributes, Message);
    if message.Some? && params.readUserName(message.value).Some? then Some(name) == params.readUserName(message.value)
    else name == params.userName
  }

  /** What the reply on which a dialogue ends makes of it. */
  ghost predicate EndsAs(c: Connector, last: Payload, x: Exchange, d: Dialogue) {
    match ShortAttribute(last.attributes, Status)
    case None =>
      SameSession(c, d.connector) && (d.result.Ok? ==> d.result.value.state.PendingChallenge?)
    case Some(status) =>
      if status == 1 && x.acknowledged then
        && d.connector.params == c.params
        && (d.result.Ok? <==> OfficeComplete(c.params, x) && EspComplete(x))
        && (d.result.Ok? ==>
              && d.result.value == TunnelSession(0, Authenticated)
              && HoldsReplies(d.connector, x) && IsReported(c.params, last, d.connector.username))
      else d.result.Err? && SameSession(c, d.connector)
  }

  /** The first reply ends the dialogue, unless it is a request that the connector answers on its own. */
  lemma FirstReplyEnds(c: Connector, reply: Payload, replies: seq<Result<Payload, string>>, x: Exchange)
    requires !AnswersItself(c, reply)
    ensures var d := ProcessReply(c, reply, replies, x);
            d.used == 0 && EndsAs(c, reply, x, d)
  {
    if ShortAttribute(reply.attributes, Status) == Some(1) && x.acknowledged {
      ExchangeHolds(c.(lastIdentifier := reply.identifier), ReportedUserName(c.params, reply), x);
    }
  }

  lemma OwnAnswerStops(c: Connector, reply: Payload, replies: seq<Result<Payload, string>>, x: Exchange)
    requires AnswersItself(c, reply) && (replies == [] || replies[0].Err?)
    ensures var d := ProcessReply(c, reply, replies, x);
            d.result.Err? && SameSession(c, d.connector) && d.used == if replies == [] then 0 else 1
  {
  }

  /**
   * For every stream of replies, the one on which the dialogue ends decides: an authenticated session comes back only
   * for status 1, an acknowledgement that could be sent and complete replies, and then the connector holds exactly
   * what they say; any other status, or a broken exchange, is an error and leaves session, keys and times alone.
   */
  lemma {:induction false} StatusDecides(c: Connector, reply: Payload, replies: seq<Result<Payload, string>>,
      x: Exchange)
    ensures var d := ProcessReply(c, reply, replies, x);
            && d.used <= |replies|
            && (d.used > 0 && replies[d.used - 1].Err? ==> d.result.Err? && SameSession(c, d.connector))
            && (d.used == 0 || replies[d.used - 1].Ok? ==> EndsAs(c, LastReply(reply, replies, d.used), x, d))
    decreases Measure(c)
  {
    if !AnswersItself(c, reply) {
      FirstReplyEnds(c, reply, replies, x);
    } else if replies == [] || replies[0].Err? {
      OwnAnswerStops(c, reply, replies, x);
    } else {
      OwnAnswerGoesOn(c, reply, replies, x);
      StatusDecides(AfterOwnAnswer(c, reply), replies[0].value, replies[1..], x);
      var rest := ProcessReply(AfterOwnAnswer(c, reply), replies[0].value, replies[1..], x);
      assert rest.used > 0 ==> replies[1..][rest.used - 1] == replies[rest.used];
    }
  }

  /** Nobody is let in without status 1. */
  lemma AuthenticatedMeansStatusOne(c: Connector, reply: Payload, replies: seq<Result<Payload, string>>, x: Exchange)
    requires ProcessReply(c, reply, replies, x).result.Ok?
    requires ProcessReply(c, reply, replies, x).result.value.state.Authenticated?
    ensures var d := ProcessReply(c, reply, replies, x);
            && d.used <= |replies| && (d.used > 0 ==> replies[d.used - 1].Ok?)
            && ShortAttribute(LastReply(reply, replies, d.used).attributes, Status) == Some(1)
            && x.acknowledged && d.connector.params == c.params && OfficeComplete(c.params, x) && EspComplete(x)
            && HoldsReplies(d.connector, x)
  {
    StatusDecides(c, reply, replies, x);
  }

  // ----- Which challenge is taken on -----

  /** The challenge that a reply without a status asks. */
  predicate Asks(params: Params, reply: Payload, challenge: Option<MfaChallenge>) {
    var bytes := LongAttribute(reply.attributes, Challenge);
    if bytes.Some? then challenge == params.readChallenge(bytes.value)
    else if ChallengeAttributeType(reply.attributes) == UserName then
      challenge == Some(MfaChallenge(UserNameInput, "username"))
    else challenge == None
  }

  /**
   * A reply without a status: without a challenge, or with a second request in a row for a user name, it is an error;
   * a request for the user name in the settings is answered at once; every other challenge is handed to the user, and
   * its identifier and type are remembered.
   */
  lemma RequestDecides(c: Connector, reply: Payload, replies: seq<Result<Payload, string>>, x: Exchange)
      returns (asked: Option<MfaChallenge>)
    requires ShortAttribute(reply.attributes, Status).None?
    ensures Asks(c.params, reply, asked)
    ensures var d := ProcessReply(c, reply, replies, x);
            var t := ChallengeAttributeType(reply.attributes);
            if asked.None? || (t == UserName && c.lastChallengeType == UserName) then
              d.result.Err? && d.used == 0 && d.connector == c.(lastIdentifier := reply.identifier)
            else if t == UserName && c.params.userName != "" then
              && |d.connector.outbox| > |c.outbox|
              && d.connector.outbox[|c.outbox|]
                 == Sent(reply.identifier, c.lastMessageId, UserName, Trim(c.params.userName))
            else
              && d.result == Ok(TunnelSession(0, PendingChallenge(asked.value))) && d.used == 0
              && d.connector == c.(lastIdentifier := reply.identifier, lastChallengeType := t,
                                   accepted := c.accepted + [t])
  {
    asked := ReadRequest(c.params, reply);
    if AnswersItself(c, reply) && replies != [] && replies[0].Ok? {
      OwnAnswerGoesOn(c, reply, replies, x);
      PendingMatchesItsReply(AfterOwnAnswer(c, reply), replies[0].value, replies[1..], x);
    }
  }

  // ----- What a check renews -----

  /**
   * A check, field by field: off line it does nothing; a lease that is due renews everything but the user name, keys
   * that are due only keys, lifetime and their time; the tunnel is told of the session then current, and an incomplete
   * reply, or no tunnel, is an error.
   */
  lemma CheckDecides(c: Connector, online: bool, now: int, x: Exchange)
    ensures var step := RekeyTunnelSpec(c, online, now, x);
            var d := step.connector;
            if !online || (!LeaseDue(c, now) && !RekeyDue(c, now)) then step == Step(c, Ok(()))
            else if LeaseDue(c, now) then
              && (step.result.Ok? <==> OfficeComplete(c.params, x) && EspComplete(x) && c.tunnel.Some?)
              && (step.result.Ok? ==>
                    && HoldsReplies(d, x) && d.username == c.username && d.tunnel == Some(c.tunnel.value + [d.session]))
            else
              && (step.result.Ok? <==> EspComplete(x) && c.tunnel.Some?)
              && (step.result.Ok? ==>
                    && d.session == IpsecSession(x.esp.value.lifetime.value, c.session.address, c.session.netmask,
                                                 c.session.addressLifetime, x.esp.value.espIn, x.esp.value.espOut)
                    && d.lastRekey == Some(x.rekeyAt) && d.lastIpLease == c.lastIpLease
                    && d.cccSession == c.cccSession && d.username == c.username
                    && d.tunnel == Some(c.tunnel.value + [d.session]))
  {
    if online && LeaseDue(c, now) {
      ExchangeHolds(c, c.username, x);
    }
  }
}
