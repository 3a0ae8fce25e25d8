# snx-rs: models and proofs

This project models the parts of the snx-rs VPN client where a mistake would be hard to see by reading one function,
and proves what those parts promise together. Each module follows one source file or one component:

- `Sexpr.dfy`, `SexprReader.dfy`, `SexprJson.dfy`: the S-expression language of the gateway protocol, its printer, the
  parser as a descent along its grammar, and the conversion to and from JSON.
- `SexprRoundTrip.dfy`, `SexprExactness.dfy`: which printed expressions the parser gives back, and why no others.
- `Utf8.dfy`, `SlimCodec.dfy`: the SSL tunnel's framing, a length-prefixed stream that arrives in arbitrary chunks.
- `ConnectionState.dfy`, `CommandServer.dfy`, `ServerCommands.dfy`: the service's shared connection record, the server
  as a transition system in which client handlers, connector actors and the event task interleave freely, and what every
  command comes to.
- `MfaLogin.dfy`, `MfaAnswers.dfy`, `ServiceController.dfy`, `KeychainFactor.dfy`: the client side of the multi-factor
  login, once as the recursion of the service controller against the server and once as the loop of standalone mode; what
  each challenge is answered with; and which answer the keychain keeps.
- `IkeConnector.dfy`, `IkeOutcomes.dfy`: the challenge dialogue with the gateway, the arithmetic of rekeying and address
  leases, and what comes of each reply.
- `LongestMatch.dfy`, `LinuxRouting.dfy`, `LinuxRuns.dfy`, `MacosRouting.dfy`, `MacosPackets.dfy`, `WindowsRouting.dfy`,
  `WindowsPackets.dfy`: a small model of each kernel's routing (longest match as in section 5.2.4.3 of RFC 1812), and
  what configuring and cleaning up do to every packet.
- `RouteMessages.dfy`: building and walking PF_ROUTE messages and buffers of messages.
- `Xfrm.dfy`: the security associations, policies and address of a kernel IPsec tunnel under rekeying.
- `Obfuscation.dfy`: the masking of secrets.
- `Profiles.dfy`: connection profiles, their order, and what a restart brings back.
- `Base64.dfy`, `Ipv4Text.dfy`, `ConfigText.dfy`, `Settings.dfy`, `SettingsFile.dfy`: a profile's configuration file, from
  single values to loading what was saved.
- `KnownAnswers.dfy`: texts and bytes that fix the formats, among them those of the program's own tests.
- `Wrappers.dfy`, `Numerals.dfy`, `Text.dfy`: optional values, numbers as text, and text functions of the standard library.

Code that changes state step by step is modelled as classes and methods. Each method is proved equal to a function of
its inputs and the old state; the results about many calls, runs and interleavings are lemmas about those functions.

## Where the code and its promise differ

Some promises hold only under a condition. The model keeps the code as it is and proves the exact condition.

- The keychain is documented to store the password factor (`docs/options.md:9`, `docs/features.md:14`). The code compares
  the challenge count after all later challenges have advanced it, so with several password challenges it stores the first
  answer, or nothing. A login with any challenges leaves the factor's answer, whatever is typed, exactly when: the factor
  is not among the challenges or is the only password; or it is not the last one, its answer is given by configuration or
  keychain, and the keychain holds that answer already; or it is the last one, and the code that answers all other
  passwords is empty, or is the same as the factor's given answer and as what a user name makes the client read from the
  keychain on the way (`KeychainFactor.KeychainKeepsFactorIff`).
- The frame length is cut to 32 bits: a data packet survives exactly when its length is below 2^32
  (`SlimCodec.DataSurvivesIffLengthFits`).
- A printed expression reads back exactly when, nulls aside, its names and keys are identifiers, its keys ascend as a map
  keeps them, no object or array is empty, every value can stand in quotes as it is, and it is not the empty value alone
  (`SexprExactness.ReadsBackIff`). Otherwise: an object without fields comes back as the value of its name, an empty array
  as the empty value, a value like `DOMAIN\user` with quotes around it, and a quote inside a value can imitate a further
  field (`SexprRoundTrip.EmptyObjectReadsAsValue`, `SexprExactness.EmptyArrayReadsAsValue`,
  `SexprExactness.DomainUserGainsQuotes`, `SexprRoundTrip.QuotedValueImitatesField`).
- A field key that starts with a parenthesis can be lost between S-expression and JSON
  (`SexprJson.ParenthesisKeyLosesField`); the trip keeps the JSON exactly when that JSON is stable.
- A tunnel that outlives its connection can make the status Connected with no connector and no session. Along a run,
  Connected implies a connector exactly when the event task never applies a connected event while no connector is stored
  (`CommandServer.ConnectorAlwaysIff`; such runs exist: `CommandServer.TunnelOutlivesConnection`).
- On Windows, cleaning up deletes rows that existed before and were only found in place: the table is restored exactly
  when no row that the calls ask for and get was there before (`WindowsRouting.CleanupRemovesTouched`).
- A rekeying whose incoming key is in use leaves the new outgoing association behind. The IPsec databases are restored
  exactly when this never happens (`Xfrm.RunStaysInService`).
- The profile order contradicts itself for two profiles that both bear the default identity and are not in the order file
  (`Profiles.ConsistentIff`); after a restart, a profile that was never written to disk is gone (`Profiles.RestartGivesMemoryIff`).
- An obfuscated secret survives exactly when it holds no zero byte and no byte that its mask turns into 255
  (`Obfuscation.RoundTripIff`).
- A saved configuration loads back exactly when every value is one that a line can carry (`SettingsFiles.SaveLoadIff`).

## Model

| member | source | states |
|---|---|---|
| `Sexprs.PrintIgnoresNulls` | crates/snxcore/src/sexpr.rs:87-129 | printing an expression is printing it without its nulls, at every indentation |
| `SexprReader.CollectKeeps` | crates/snxcore/src/sexpr.rs:249-266 | fields read into a map come out with ascending keys |
| `SexprReader.CollectKeepsLast` | crates/snxcore/src/sexpr.rs:249-266 | a field is in the map if and only if it is the last one read with its key |
| `SexprReader.CollectAscending` | crates/snxcore/src/sexpr.rs:249-266 | fields that ascend are collected as they are |
| `SexprRoundTrip.ReadsPrinted` | crates/snxcore/src/sexpr.pest:1-20 | for every printable expression, at every indentation and before any further text, the grammar takes exactly the printed expression and gives it back |
| `SexprRoundTrip.ParsesPrinted` | crates/snxcore/src/sexpr.rs:184-195 | parsing printed text, with trailing blanks or NULs, gives the expression without its nulls |
| `SexprExactness.ReadsBackIff` | crates/snxcore/src/sexpr.rs:184-195 | for every expression: printing and parsing gives it back without its nulls if and only if names and keys are identifiers in ascending order, nothing is empty and every value can stand in quotes |
| `SexprExactness.BackslashGainsQuotes` | crates/snxcore/src/sexpr.pest:14-19 | a value without parentheses, whose first irregular character is a backslash that starts no escape, comes back with quotes around it |
| `SexprExactness.DomainUserGainsQuotes` | crates/snxcore/src/sexpr.pest:14-19 | in particular a domain's user name, as a whole text |
| `SexprExactness.EmptyArrayReadsAsValue` | crates/snxcore/src/sexpr.pest:2-5 | a field that holds an empty array comes back with the empty value |
| `SexprRoundTrip.UniquelyReadable` | crates/snxcore/src/sexpr.rs:87-129 | for printable expressions at any two indentations: the texts are equal if and only if the expressions are equal up to nulls and are single values or equally indented |
| `SexprRoundTrip.EmptyObjectReadsAsValue` | crates/snxcore/src/sexpr.rs:96-116 | why objects need a field: without one, an object prints like the value of its name |
| `SexprRoundTrip.QuotedValueImitatesField` | crates/snxcore/src/sexpr.rs:213-219 | why values need to be free of quotes: for all keys and quoted texts, one field prints like two |
| `SexprJson.StableSurvives` | crates/snxcore/src/sexpr.rs:131-161 | JSON with any numbers survives a trip through an expression if and only if its numbers are 32-bit naturals and its texts and names cannot be mistaken for numbers, flags or names |
| `SexprJson.NormalizeKeepsJson` | crates/snxcore/src/sexpr.rs:131-161 | normalizing keeps the JSON exactly when that is stable, in particular when no field key starts with a parenthesis, and is then idempotent |
| `SexprJson.NormalizeFixesCanonical` | crates/snxcore/src/sexpr.rs:197-233 | for every expression: normalizing changes nothing if and only if every text that reads as a number is that number's plain decimal, and no unnamed object looks like a named one |
| `SexprJson.ParenthesisKeyLosesField` | crates/snxcore/src/sexpr.rs:140-161 | an expression that loses a field between S-expression and JSON |
| `SexprJson.DecimalIsNumber` | crates/snxcore/src/sexpr.rs:197-211 | decimal digits, also behind a plus sign, are their number in JSON, or a text if it needs more than 32 bits |
| `SexprJson.HexadecimalIsNumber` | crates/snxcore/src/sexpr.rs:197-211 | hexadecimal digits of either case behind 0x are their number in JSON, or a text if it needs more than 32 bits |
| `Utf8.RoundTrip` | crates/snxcore/src/tunnel/ssl/codec.rs:84-88 | decoding the encoding of a text gives the text, whatever bytes follow |
| `Utf8.OnlyEncodings` | crates/snxcore/src/tunnel/ssl/codec.rs:84-88 | bytes that decode to a character start with that character's encoding |
| `SlimCodec.Decode` | crates/snxcore/src/tunnel/ssl/codec.rs:71-97 | what one decoding attempt returns and what it leaves in the buffer |
| `SlimCodec.EncodePacket` | crates/snxcore/src/tunnel/ssl/codec.rs:103-123 | encoding appends exactly one frame to what the buffer holds |
| `SlimCodec.DecodesFrame` | crates/snxcore/src/tunnel/ssl/codec.rs:71-97 | a whole frame decodes to its packet and consumes no byte of what follows |
| `SlimCodec.PartialFrameWaits` | crates/snxcore/src/tunnel/ssl/codec.rs:72-79 | any part of a frame is left untouched until the rest arrives |
| `SlimCodec.DecodeExtends` | crates/snxcore/src/tunnel/ssl/codec.rs:71-97 | on arbitrary bytes, further bytes never change a decision already taken |
| `SlimCodec.ChunkingDoesNotMatter` | crates/snxcore/src/tunnel/ssl/codec.rs:71-97 | on arbitrary bytes, packets, error and remaining bytes do not depend on how the stream is cut into chunks |
| `SlimCodec.CompleteAndIncomplete` | crates/snxcore/src/tunnel/ssl/codec.rs:71-97 | what has arrived of a stream splits into its complete frames and a piece too short to be the next one |
| `SlimCodec.StreamRoundTrip` | crates/snxcore/src/tunnel/ssl/codec.rs:71-123 | any sendable packets, any prefix of their encoding, any chunks: exactly the packets whose frames have arrived come out, in order, and exactly the bytes after them remain |
| `SlimCodec.DataSurvivesIffLengthFits` | crates/snxcore/src/tunnel/ssl/codec.rs:103-123 | a data packet survives if and only if its length fits 32 bits |
| `SlimCodec.ControlSurvivesIff` | crates/snxcore/src/tunnel/ssl/codec.rs:71-123 | a control packet whose length fits survives if and only if its expression can be read back; its bytes are used up in any case |
| `ConnectionStates.ConnectionState.Reset` | crates/snxcore/src/server.rs:192-199 | the record is empty afterwards, and a held cancel sender counts as signalled |
| `ConnectionStates.ConnectionState.FireCancel` | crates/snxcore/src/server.rs:205-209 | the held sender is signalled and given up, nothing else changes |
| `ConnectionStates.ConnectionState.IsConnected` | crates/snxcore/src/server.rs:384-386 | tells whether the status is anything but Disconnected |
| `ConnectionStates.ConnectionState.StoreConnector` | crates/snxcore/src/server.rs:429-435 | status, sender and connector of a new login are stored together, and a replaced sender counts as signalled |
| `ConnectionStates.ConnectionState.StoreSession` | crates/snxcore/src/server.rs:393-402 | session and status change together, and the result tells whether a challenge is pending |
| `ConnectionStates.ConnectionState.ApplyConnected` | crates/snxcore/src/server.rs:293-303 | the status becomes Connected with the given data, and a new poller replaces the old |
| `ConnectionStates.ConnectionState.ApplyLive` | crates/snxcore/src/server.rs:305-318 | address and latency are updated only while connected |
| `CommandServer.StepKeepsStatusSound` | crates/snxcore/src/server.rs:283-478 | every atomic step keeps: status Mfa names the challenge the stored session waits for, and Disconnected means nothing is held |
| `CommandServer.StatusAlwaysSound` | crates/snxcore/src/server.rs:283-478 | this holds under every interleaving of clients, actors and events |
| `CommandServer.StepKeepsChannelsTracked` | crates/snxcore/src/server.rs:192-210 | every step keeps: each cancel channel ever made is signalled, or is the one whose sender the record holds |
| `CommandServer.StepKeepsChannelsLinear` | crates/snxcore/src/server.rs:388-478 | every step keeps: each channel listens in one handler or one request only |
| `CommandServer.ChannelsAlwaysAccounted` | crates/snxcore/src/server.rs:132-150 | both hold under every interleaving |
| `CommandServer.EveryRequestCancellable` | crates/snxcore/src/server.rs:132-150 | any login or challenge request that waits or runs is signalled or is the one the record can signal, and at most one is not signalled |
| `CommandServer.DisconnectSignalsAll` | crates/snxcore/src/server.rs:467-478 | once a disconnect has begun, every such request is signalled, and every running one can be cancelled |
| `ServerCommands.FinishingEmpties` | crates/snxcore/src/server.rs:467-478 | from any state, a handler that ends a disconnect or a failure leaves status Disconnected and no session, connector, sender or poller |
| `ServerCommands.EndingEventEmpties` | crates/snxcore/src/server.rs:283-319 | so does the event task with a disconnected event, or one the connector refused |
| `ServerCommands.DisconnectEndsEmpty` | crates/snxcore/src/server.rs:467-478 | under every interleaving, a disconnect that has begun and is over has left an empty record at the moment of its end |
| `ServerCommands.DisconnectTellsConnector` | crates/snxcore/src/server.rs:467-478 | under every interleaving, before a disconnect ends the connector has been sent the deletion of the session and then the end of the tunnel, or there was none |
| `ServerCommands.WholeDisconnect` | crates/snxcore/src/server.rs:467-478 | a disconnect on its own completes exactly these two operations, in this order, and ends with an empty record whatever is replied |
| `ServerCommands.WholeConnect` | crates/snxcore/src/server.rs:416-448 | a login on its own, for all replies: which operations complete in which order, and what record and tunnel it ends with |
| `ServerCommands.WholeChallenge` | crates/snxcore/src/server.rs:450-465 | a challenge on its own: the code goes to the stored connector and session under a new sender, and ends like a login |
| `ServerCommands.FailedBeginnings` | crates/snxcore/src/server.rs:416-465 | a login without a connector and a challenge without connector or session empty the record |
| `ServerCommands.EventHandled` | crates/snxcore/src/server.rs:283-319 | an event is handled by the connector first; refused, it empties the record, otherwise the record shows it field by field |
| `ServerCommands.AlwaysWithinBounds` | crates/snxcore/src/server.rs:124-126 | under every interleaving no actor's queue exceeds sixteen requests, and no event is handled before a tunnel was started |
| `CommandServer.StepKeepsConnectorIff` | crates/snxcore/src/server.rs:283-319 | a step keeps that Connected implies a connector if and only if it is not a connected event applied while no connector is stored |
| `CommandServer.ConnectorAlwaysIff` | crates/snxcore/src/server.rs:283-478 | Connected implies a connector all along a run if and only if no step of the run is that one |
| `CommandServer.LateEventReconnects` | crates/snxcore/src/server.rs:283-303 | from any disconnected state with a tunnel still running, a late event makes the status Connected with no connector |
| `CommandServer.TunnelOutlivesConnection` | crates/snxcore/src/server.rs:284-290 | such a state is reached: the connector refuses an event and the tunnel runs on |
| `MfaRules.OneAnswerEach` | crates/snxcore/src/controller.rs:145-197 | a login sends one answer per challenge, in order, and stops at the first one that cannot be answered |
| `MfaRules.AnswerIsStable` | crates/snxcore/src/controller.rs:173-253 | the answer to a challenge is fixed by the challenges before it |
| `MfaRules.AnswerToPassword` | crates/snxcore/src/controller.rs:173-253 | the n-th password challenge is answered by what is prepared for n without a prompt, otherwise by the next typed input under prompt n |
| `MfaAnswers.AnswerToToken` | crates/snxcore/src/controller.rs:199-233 | challenge k of any login, if it is for an identity provider or mobile access, is answered by the next token still to come; a missing or failed one fails the login there |
| `MfaAnswers.AnswerToName` | crates/snxcore/src/controller.rs:234-252 | a user name is answered by the next typed input, under a prompt with the configured name or USER; the password in the keychain is remembered exactly if the client may look there |
| `MfaAnswers.AnswerToAnyPassword` | crates/snxcore/src/controller.rs:175-197 | a password, also in logins that fail: which of configured, remembered, code and typed text answers it, and under which prompt |
| `MfaAnswers.OthersRemember` | crates/snxcore/src/controller.rs:173-253 | only a user name challenge changes what is remembered |
| `MfaAnswers.AnswerStandalone` | apps/snx-rs/src/main.rs:306-331 | in standalone mode identity providers are answered by tokens, mobile access and user names by typed input |
| `MfaRules.StandaloneAgrees` | apps/snx-rs/src/main.rs:280-331 | without a keychain, the controller's recursion and the standalone loop send the same answers to password and user name challenges |
| `ServiceControllers.ServiceController.GetMfaInput` | crates/snxcore/src/controller.rs:173-253 | one input is exactly one step of the login rules |
| `ServiceControllers.ServiceController.DoStatus` | crates/snxcore/src/controller.rs:130-143 | from a status request on, the recursion answers all remaining challenges as the rules say and ends |
| `ServiceControllers.ServiceController.ProcessMfaRequest` | crates/snxcore/src/controller.rs:145-171 | one challenge and everything after it, including what the keychain stores and the disconnect after a failed input |
| `ServiceControllers.ServiceController.DoChallengeCode` | crates/snxcore/src/controller.rs:314-331 | a code is sent to the server, and the login goes on from the status that follows |
| `ServiceControllers.ServiceController.AwaitTunnel` | crates/snxcore/src/controller.rs:292-311 | the polling loop runs the whole dialogue once and ends with the tunnel, a missing input or the time limit |
| `ServiceControllers.ServiceController.DoConnect` | crates/snxcore/src/controller.rs:255-312 | a whole connect with a gateway that asks any list of challenges: what is sent, in which order, and how it ends |
| `ServiceControllers.LoginStandalone` | apps/snx-rs/src/main.rs:267-331 | the standalone loop sends what the rules say and ends with the login or the first missing input |
| `ServiceControllers.LoginIgnoresHistory` | crates/snxcore/src/controller.rs:145-171 | what was answered before a login does not change its answers |
| `ServiceControllers.ClientsSendTheSame` | apps/snx-rs/src/main.rs:280-331 | for the same typed input, both clients send the same codes |
| `KeychainFactor.CodeAnswersOthers` | crates/snxcore/src/controller.rs:190-193 | in every login, a code in the parameters answers every password challenge but the factor |
| `KeychainFactor.GivenAnswersFactor` | crates/snxcore/src/controller.rs:184-189 | in every login, a given password that no keychain entry replaces answers the factor |
| `KeychainFactor.ChoiceRuns` | crates/snxcore/src/controller.rs:173-253 | for any decision what to type there is a login that succeeds, with the prepared or chosen answer to every password |
| `KeychainFactor.KeychainKeepsFactorIff` | crates/snxcore/src/controller.rs:151-165 | for every client and list of challenges: all logins that succeed leave the factor's answer in the keychain if and only if the stated condition on parameters, keychain and challenges holds |
| `IkeConnectors.IPsecTunnelConnector.DoEspProposal` | crates/snxcore/src/tunnel/ipsec/connector.rs:377-404 | keys, lifetime and time of renewal are stored as the reply gives them |
| `IkeConnectors.IPsecTunnelConnector.DoSessionExchange` | crates/snxcore/src/tunnel/ipsec/connector.rs:227-303 | each missing attribute ends the exchange with the fields stored so far, and success stores the lease and new keys |
| `IkeConnectors.IPsecTunnelConnector.RekeyTunnel` | crates/snxcore/src/tunnel/ipsec/connector.rs:423-472 | a check renews lease and keys, keys only, or nothing, and tells the tunnel |
| `IkeConnectors.IPsecTunnelConnector.ProcessAuthAttributes` | crates/snxcore/src/tunnel/ipsec/connector.rs:305-375 | the recursion over replies ends, and equals the dialogue's specification |
| `IkeConnectors.IPsecTunnelConnector.ChallengeCode` | crates/snxcore/src/tunnel/ipsec/connector.rs:759-776 | an answer is sent under the remembered identifier and type, and its reply is processed |
| `IkeConnectors.PendingMatchesItsReply` | crates/snxcore/src/tunnel/ipsec/connector.rs:305-375 | one reply leads to at most one further exchange, and a pending challenge belongs to the reply whose identifier and type are remembered |
| `IkeConnectors.AnswerGoesToPending` | crates/snxcore/src/tunnel/ipsec/connector.rs:759-776 | the next answer goes first of all to the reply that is pending |
| `IkeConnectors.NeverTwoUserNames` | crates/snxcore/src/tunnel/ipsec/connector.rs:353-372 | over any run of replies, answers and checks, no user name request is taken on directly after another |
| `IkeConnectors.ReplyKeepsSettled` | crates/snxcore/src/tunnel/ipsec/connector.rs:305-375 | one reply keeps the remembered type the last one taken on |
| `IkeConnectors.ChecksKeepRenewed` | crates/snxcore/src/tunnel/ipsec/connector.rs:423-472 | after every check of a run, neither keys nor lease are older than their effective lifetimes |
| `IkeConnectors.AgesStayBounded` | crates/snxcore/src/tunnel/ipsec/imp/tun.rs:275-282 | with checks a bounded time apart, keys and lease never outlive their lifetimes less the leeway by more than that time |
| `IkeConnectors.LoginRenews` | crates/snxcore/src/tunnel/ipsec/connector.rs:227-303 | a login starts such a run |
| `IkeConnectors.WhatACheckRenews` | crates/snxcore/src/tunnel/ipsec/connector.rs:423-472 | exactly when a check renews, also after the clock was set back; a new lease always comes with new keys |
| `IkeOutcomes.StatusDecides` | crates/snxcore/src/tunnel/ipsec/connector.rs:305-333 | for every stream of replies, the status of the last one decides: only status 1 with an acknowledgement and complete replies lets the user in, and the connector then holds them field by field; everything else is an error or a challenge and changes no session, key or time |
| `IkeOutcomes.AuthenticatedMeansStatusOne` | crates/snxcore/src/tunnel/ipsec/connector.rs:305-333 | nobody is let in without status 1 |
| `IkeOutcomes.ExchangeHolds` | crates/snxcore/src/tunnel/ipsec/connector.rs:227-303 | a session exchange succeeds if and only if all attributes and keys are there, and then each is in its field |
| `IkeOutcomes.RequestDecides` | crates/snxcore/src/tunnel/ipsec/connector.rs:334-374 | a reply without status: when it is an error, when the connector answers on its own and with what, and when the user is asked |
| `IkeOutcomes.CheckDecides` | crates/snxcore/src/tunnel/ipsec/connector.rs:423-472 | what a check renews, field by field, and when it fails |
| `IkeOutcomes.NumberReadsBack` | crates/snxcore/src/tunnel/ipsec/connector.rs:250-254 | four bytes of an attribute are a number, most significant byte first |
| `LongestMatch.LookupIsLongestMatch` | crates/snxcore/src/platform/linux/routing.rs:41-80 | searching from long to short prefixes finds a containing route that no longer one beats, and finds none only if no route contains the address |
| `LinuxRouting.LinuxRoutingConfigurator.AddRoutes` | crates/snxcore/src/platform/linux/routing.rs:41-63 | all routes of a list, duplicates and existing ones included, end up in table 18000 and nowhere else |
| `LinuxRouting.LinuxRoutingConfigurator.AddKeepaliveRule` | crates/snxcore/src/platform/linux/routing.rs:133-158 | two rules, one for each port, each at its own priority |
| `LinuxRouting.LinuxRoutingConfigurator.RemoveKeepaliveRule` | crates/snxcore/src/platform/linux/routing.rs:160-190 | the same two rules are removed |
| `LinuxRouting.LinuxRoutingConfigurator.Configure` | crates/snxcore/src/platform/linux/routing.rs:194-235 | rules and tables after a configuration, for each mode and tunnel type |
| `LinuxRouting.TunnelTable` | crates/snxcore/src/platform/linux/routing.rs:41-80 | table 18000 sends exactly the covered addresses into the tunnel |
| `LinuxRouting.GatewayUnchanged` | crates/snxcore/src/platform/linux/routing.rs:82-101 | packets to the gateway other than IPsec keepalives and probes go where they went before, also when a route contains the gateway |
| `LinuxRouting.OthersFollowCoverage` | crates/snxcore/src/platform/linux/routing.rs:194-235 | covered packets enter the tunnel unless an earlier rule routes them, all others go where they went before |
| `LinuxRouting.KeepaliveFollowsCoverage` | crates/snxcore/src/platform/linux/routing.rs:133-158 | keepalives and probes follow the tunnel's table at their own priority |
| `LinuxRouting.CleanupRestores` | crates/snxcore/src/platform/linux/routing.rs:103-131 | cleaning up restores the rule list and the way of every packet |
| `LinuxRouting.ConfigureTwice` | crates/snxcore/src/platform/linux.rs:178-192 | configuring again changes nothing, because what exists already is accepted |
| `LinuxRouting.Ipv6Switch` | crates/snxcore/src/platform/linux/routing.rs:65-131 | what each mode writes to the IPv6 switch |
| `LinuxRuns.RunLeavesLive` | crates/snxcore/src/platform/linux/routing.rs:194-235 | after any run, for any destinations and tunnel types, the rules of others and all other tables are as before, and the own rules are those configured and not cleaned up since, each once |
| `LinuxRuns.RunRestoresIff` | crates/snxcore/src/platform/linux/routing.rs:103-235 | from any contents of table 18000: rules are restored if and only if everything configured has been cleaned up since, and then every packet goes where it went before |
| `LinuxRuns.CleanupEndsRun` | crates/snxcore/src/platform/linux/routing.rs:103-235 | for one tunnel and destination, a cleanup at the end of any run restores rules and routing |
| `MacosRouting.MacosRoutingConfigurator.AddTracked` | crates/snxcore/src/platform/macos/routing.rs:54-83 | a route is tracked exactly when the kernel accepted it as new |
| `MacosRouting.MacosRoutingConfigurator.AddExclusion` | crates/snxcore/src/platform/macos/routing.rs:85-131 | what the kernel's answer about the destination leads to |
| `MacosRouting.MacosRoutingConfigurator.RemoveAll` | crates/snxcore/src/platform/macos/routing.rs:166-217 | every tracked route is deleted and none is tracked any more |
| `MacosRouting.MacosRoutingConfigurator.Configure` | crates/snxcore/src/platform/macos/routing.rs:266-300 | table, tracked routes and outcome of a configuration, early failures included |
| `MacosRouting.ConfigureTracks` | crates/snxcore/src/platform/macos/routing.rs:54-131 | any configuration, failed or not, keeps: the table is the original one and exactly the tracked routes |
| `MacosRouting.CleanupRestoresTable` | crates/snxcore/src/platform/macos/routing.rs:256-264 | after any run of configurations, dropping the configurator leaves the table as it was found, and original routes survive throughout |
| `MacosRouting.HalvesBeatDefault` | crates/snxcore/src/platform/macos/routing.rs:268-276 | two half-space routes beat the default route and nothing longer |
| `MacosRouting.FullModeByAddress` | crates/snxcore/src/platform/macos/routing.rs:268-276 | in full mode the gateway keeps its hop, longer routes stay in force, every other address goes to the tunnel |
| `MacosPackets.SplitModeByAddress` | crates/snxcore/src/platform/macos/routing.rs:287-293 | in split mode, for any routes, table and address: into the tunnel exactly if a listed route is longer than all earlier ones, otherwise as before; the gateway keeps its hop |
| `MacosPackets.FullModeIpv6` | crates/snxcore/src/platform/macos/routing.rs:278-286 | with IPv6 disabled both its halves are black holes, otherwise its routes are untouched |
| `MacosPackets.AddDecides` | crates/snxcore/src/platform/macos/routing.rs:54-83 | for each answer of the kernel, what happens to table, tracked routes and the call |
| `MacosPackets.FailsEarly` | crates/snxcore/src/platform/macos/routing.rs:85-104 | without an answer about the gateway, or a needed gateway, nothing is changed |
| `WindowsRouting.WindowsRoutingConfigurator.Create` | crates/snxcore/src/platform/windows/routing.rs:82-95 | a row is tracked when it was created and also when it existed already |
| `WindowsRouting.WindowsRoutingConfigurator.AddExclusion` | crates/snxcore/src/platform/windows/routing.rs:57-80 | the destination gets a host row along its best route, unless that is the tunnel |
| `WindowsRouting.WindowsRoutingConfigurator.RemoveAll` | crates/snxcore/src/platform/windows/routing.rs:97-105 | every tracked row is deleted and none is tracked any more |
| `WindowsRouting.WindowsRoutingConfigurator.Configure` | crates/snxcore/src/platform/windows/routing.rs:110-152 | rows, tracked rows and outcome of a configuration, early failures included |
| `WindowsRouting.ConfigureTouches` | crates/snxcore/src/platform/windows/routing.rs:57-152 | the rows that a configuration takes on are those it asks for, up to the first one refused |
| `WindowsRouting.CleanupRemovesTouched` | crates/snxcore/src/platform/windows/routing.rs:82-105 | after any run and a cleanup the table is the original one minus every row that the calls ask for and get; it is restored if and only if none of them existed before |
| `WindowsRouting.FullModeByAddress` | crates/snxcore/src/platform/windows/routing.rs:57-123 | in full mode, whatever the metrics: the gateway keeps interface and hop, addresses with longer rows keep exactly their best rows, all others go to the tunnel |
| `WindowsPackets.SplitModeByAddress` | crates/snxcore/src/platform/windows/routing.rs:137-143 | in split mode, whatever the metrics: addresses with a longest listed route have their best rows in the tunnel, those with longer or no listed rows keep theirs, the gateway keeps interface and hop |
| `WindowsPackets.CreateDecides` | crates/snxcore/src/platform/windows/routing.rs:82-95 | for each answer of the system, what happens to rows, tracked rows and the call |
| `RouteMessages.Roundup` | crates/snxcore/src/platform/macos/net.rs:101-104 | padded lengths are positive multiples of four, at least the length and at most four more |
| `RouteMessages.BuildRouteMessage` | crates/snxcore/src/platform/macos/net.rs:107-130 | the built bits and payload are those of the parts, each padded |
| `RouteMessages.RouteGetGateway` | crates/snxcore/src/platform/macos/net.rs:164-175 | the gateway of a reply is the non-empty address that the walk visits under its bit, on any bytes |
| `RouteMessages.WalkStaysInside` | crates/snxcore/src/platform/macos/net.rs:164-175 | on any bytes a walk makes at most eight visits, each inside the buffer and for an announced bit |
| `RouteMessages.WalkAscends` | crates/snxcore/src/platform/macos/net.rs:164-175 | on any bytes the visits ascend by bit and never overlap |
| `RouteMessages.WalkVisitsParts` | crates/snxcore/src/platform/macos/net.rs:107-130 | the walk visits exactly the parts that were built, at their offsets |
| `RouteMessages.NetmaskPrefixLen` | crates/snxcore/src/platform/macos/net.rs:285-289 | never more than 32, on any bytes |
| `RouteMessages.ZeroNetmaskIff` | crates/snxcore/src/platform/macos/net.rs:283-289 | the length is zero if and only if no address byte that is there has a bit set |
| `RouteMessages.PrefixLenOfMask` | crates/snxcore/src/platform/macos/net.rs:283-289 | a mask of p leading ones, cut after its last non-zero byte or not, has length p |
| `RouteMessages.RouteIsDefault` | crates/snxcore/src/platform/macos/net.rs:291-314 | the loop decides whether the visited destination is zero and the visited netmask, if any, has no bit |
| `RouteMessages.BuiltRouteIsDefault` | crates/snxcore/src/platform/macos/net.rs:291-314 | a built message is the default route if and only if its destination bytes are zero or missing and no byte of its mask has a bit set |
| `RouteMessages.HalfRouteIsNoDefault` | crates/snxcore/src/platform/macos/net.rs:316-319 | a route with any leading mask bit, such as a tunnel's half route, is never taken for the default |
| `RouteMessages.MessagesOfConcat` | crates/snxcore/src/platform/macos/net.rs:319-345 | a buffer of whole messages, followed by anything that is none, splits into exactly these messages |
| `RouteMessages.DefaultRouteInterface` | crates/snxcore/src/platform/macos/net.rs:319-345 | the first usable default route among the messages of a buffer, on any bytes |
| `RouteMessages.FirstDefaultIs` | crates/snxcore/src/platform/macos/net.rs:330-341 | usable means up, through a gateway, default, and on a named interface that is not point to point |
| `RouteMessages.ParseIfCounters` | crates/snxcore/src/platform/macos/stats.rs:148-178 | the counters of the first matching message of a buffer, on any bytes |
| `RouteMessages.FirstCountersIs` | crates/snxcore/src/platform/macos/stats.rs:160-174 | matching means the right kind, enough bytes and the right interface |
| `Xfrm.XfrmConfigurator.Configure` | crates/snxcore/src/platform/linux/xfrm.rs:286-294 | for any databases: what every single kernel call leaves, up to the first one that fails |
| `Xfrm.XfrmConfigurator.Rekey` | crates/snxcore/src/platform/linux/xfrm.rs:296-343 | for any databases and keys: what every single kernel call leaves, and the session that is current afterwards |
| `Xfrm.XfrmConfigurator.Cleanup` | crates/snxcore/src/platform/linux/xfrm.rs:345-374 | the current pair, both policies and the device are gone |
| `Xfrm.ConfigurePutsInService` | crates/snxcore/src/platform/linux/xfrm.rs:269-294 | configuring succeeds if and only if keys, policies and address are unused, and then exactly the session's own are added |
| `Xfrm.RekeyNeverInterrupts` | crates/snxcore/src/platform/linux/xfrm.rs:296-343 | whatever keys a rekeying brings, both directions have an association after every single call, and at its end the pair and address of the session then current are in place |
| `Xfrm.ReusedKeyIsNotFresh` | crates/snxcore/src/platform/linux/xfrm.rs:296-305 | in service, new keys are accepted if and only if they differ from the current pair, from everything beside it and from each other |
| `Xfrm.RunStaysInService` | crates/snxcore/src/platform/linux/xfrm.rs:286-374 | from a successful configuration through any rekeyings with any keys, service is never interrupted; cleaning up restores the policies, and the associations if and only if no rekeying stopped half way |
| `Obfuscation.Deobfuscate` | crates/snxcore/src/util.rs:46-55 | succeeds exactly on an even number of hexadecimal digits, with what the two reversals and the mask make of them |
| `Obfuscation.HexRoundTrip` | crates/snxcore/src/util.rs:42-48 | hexadecimal text reads back as its bytes |
| `Obfuscation.CaseDoesNotMatter` | crates/snxcore/src/util.rs:46-48 | every digit is read back, and capital digits have the same value |
| `Obfuscation.ReadsBackAs` | crates/snxcore/src/util.rs:18-55 | for every secret and every place in it, which byte comes back |
| `Obfuscation.RoundTripIff` | crates/snxcore/src/util.rs:18-55 | a secret survives if and only if no byte is zero or the complement of its mask |
| `Obfuscation.AsciiRoundTrip` | crates/snxcore/src/util.rs:18-55 | with the source's table every ASCII text without zero bytes survives, at any length |
| `Obfuscation.SameTextIff` | crates/snxcore/src/util.rs:24-44 | two secrets are hidden alike if and only if they come back alike |
| `Profiles.ConsistentIff` | crates/snxcore/src/model/params.rs:841-859 | comparing both ways gives opposite answers, except for two profiles of the default identity unknown to the order file |
| `Profiles.NotAfterIsTotalPreorder` | crates/snxcore/src/model/params.rs:841-859 | the order of a listing is total and transitive for every order file |
| `Profiles.TiesAreNamesakes` | crates/snxcore/src/model/params.rs:841-859 | different identities tie if and only if neither is known or default and their names are equal |
| `Profiles.KnownAsInFile` | crates/snxcore/src/model/params.rs:841-848 | profiles in the order file come as they stand there |
| `Profiles.UnknownComeLater` | crates/snxcore/src/model/params.rs:849-859 | all others follow, the default one first, the rest by ascending name |
| `Profiles.SortSorts` | crates/snxcore/src/model/params.rs:840-860 | sorting gives a sorted rearrangement |
| `Profiles.ConnectionProfilesStore.constructor` | crates/snxcore/src/profiles.rs:36-47 | the loaded profiles, sorted, or the default one if there are none |
| `Profiles.ConnectionProfilesStore.Reorder` | crates/snxcore/src/profiles.rs:61-72 | memory and order file after a move; impossible moves change nothing |
| `Profiles.ConnectionProfilesStore.Save` | crates/snxcore/src/profiles.rs:105-121 | a known profile is replaced in place, a new one is appended and the order file written |
| `Profiles.ConnectionProfilesStore.Remove` | crates/snxcore/src/profiles.rs:123-138 | the profile and its file are gone, and the order file is written |
| `Profiles.MoveDecides` | crates/snxcore/src/profiles.rs:61-72 | where every profile is after a move, and that an impossible move changes nothing |
| `Profiles.SaveDecides` | crates/snxcore/src/profiles.rs:105-121 | which profile is replaced, or that the new one is appended and the order written |
| `Profiles.RemoveDecides` | crates/snxcore/src/profiles.rs:123-138 | exactly the profiles of this identity are gone, with the first one's file |
| `Profiles.LoadIsSound` | crates/snxcore/src/profiles.rs:36-47 | loading files with different identities starts with distinct profiles and no file without its profile |
| `Profiles.StepKeeps` | crates/snxcore/src/profiles.rs:61-138 | every operation keeps identities and files distinct and no file without its profile, and keeps or establishes the saved order |
| `Profiles.SortGivesMemory` | crates/snxcore/src/model/params.rs:827-861 | once the order is saved, any sorted rearrangement of the loaded files is the memory's list of profiles on disk, for any directory order |
| `Profiles.RestartGivesMemoryIff` | crates/snxcore/src/profiles.rs:36-138 | after any run with one order-saving operation, a restart gives back the memory if and only if all profiles are on disk, or none is and memory holds the fresh default |
| `Base64.RoundTrip` | crates/snxcore/src/model/params.rs:678-682 | decoding what was encoded gives the bytes |
| `Base64.Canonical` | crates/snxcore/src/model/params.rs:789-798 | whatever decodes is exactly what would be encoded |
| `Ipv4Text.NetRoundTrip` | crates/snxcore/src/util.rs:107-121 | every address with every prefix length, written without its prefix for single hosts, reads back as itself |
| `Ipv4Text.OnlyPrintedNets` | crates/snxcore/src/util.rs:107-113 | whatever is read as a network is an address in plain decimals, with or without a prefix length |
| `Ipv4Text.PrintNetInjective` | crates/snxcore/src/util.rs:115-121 | different networks are never written alike |
| `ConfigText.ParseConfig` | crates/snxcore/src/util.rs:86-105 | the loop gives each key the last non-empty value that a line sets |
| `ConfigText.LineReadsBack` | crates/snxcore/src/util.rs:86-105 | a written line reads back as its key and value, and one with an empty value not at all |
| `ConfigText.OnlyCleanValues` | crates/snxcore/src/util.rs:86-105 | from any text, only trimmed, non-empty values without newlines can be read |
| `Settings.ValueReadsBack` | crates/snxcore/src/model/params.rs:601-665 | for each kind of option: a keepable value reads back from its text, or is the default where no text is written |
| `Settings.SecretReadsBack` | crates/snxcore/src/model/params.rs:789-798 | any password at all survives |
| `Settings.ReadIsKeepable` | crates/snxcore/src/model/params.rs:601-665 | whatever an option is read from, the result is well typed and can be kept |
| `Settings.UuidInOtherForms` | crates/snxcore/src/model/params.rs:604-604 | a profile's identity is also read in braces, as a URN and as plain digits |
| `SettingsFiles.TunnelParams.Load` | crates/snxcore/src/model/params.rs:596-670 | the loop over the lines in any order gives every option its own value, and fails exactly for an undecodable password |
| `SettingsFiles.TunnelParams.Save` | crates/snxcore/src/model/params.rs:672-787 | the written text has the lines of all saved options in order |
| `SettingsFiles.SaveLoadIff` | crates/snxcore/src/model/params.rs:596-787 | loading what was saved gives back every saved option if and only if each value is one that a line can carry |
| `SettingsFiles.LoadSaveLoad` | crates/snxcore/src/model/params.rs:596-787 | loading any file, saving and loading again changes nothing that is saved |
| `SettingsFiles.ProfileIsGood` | crates/snxcore/src/model/params.rs:485-537 | the source's options and defaults meet what these results ask for |
| `SettingsFiles.EmptyFileGivesDefaults` | crates/snxcore/src/model/params.rs:485-537 | an empty file leaves every option at its default |
| `SettingsFiles.OwnDefaults` | crates/snxcore/src/model/params.rs:485-537 | the options with a default of their own |
| `KnownAnswers.OtherNames` | crates/snxcore/src/model/params.rs:410-421 | names in other forms that a choice is read from, and one that it is not |
| `KnownAnswers.ChoiceNames` | crates/snxcore/src/model/params.rs:149-409 | the names written for the choices that are not the default |
| `KnownAnswers.HiddenText` | crates/snxcore/src/util.rs:147-155 | the secret of the program's own test is hidden as that test says |
| `KnownAnswers.ControlFrame` | crates/snxcore/src/tunnel/ssl/codec.rs:103-123 | the bytes of a control packet's frame |
| `KnownAnswers.DataFrame` | crates/snxcore/src/tunnel/ssl/codec.rs:103-123 | the bytes of a data packet's frame |
| `KnownAnswers.QuotedUnicode` | crates/snxcore/src/sexpr.pest:13-19 | a quoted text with a Unicode escape is read exactly if four hexadecimal digits follow |
| `KnownAnswers.QuotedEscape` | crates/snxcore/src/sexpr.pest:13-19 | the characters that may stand behind a backslash in quotes |
| `KnownAnswers.BlankBehind` | crates/snxcore/src/sexpr.pest:20-20 | the five characters that may follow an expression |
| `KnownAnswers.PrintedNest` | crates/snxcore/src/sexpr.rs:96-116 | the text of an object within an object, for any names and values |

## Left out

- The parser that the library generates from `sexpr.pest` is modelled by hand, one function per rule; error texts and positions are not.
- `Utf8.DecodeLossy`: how many replacement characters invalid bytes turn into is not modelled.
- Keychain, browser tokens, one-time passwords and typed input are input streams; certificate PIN prompts are not modelled.
- The command server's restart of a stored IKE session is an arbitrary reply; serialization of commands, peer authorization and polling of statistics are not modelled.
- The end of an actor, once nobody holds its handle, is not modelled; a request once sent is always answered or still waiting.
- IKE messages are arbitrary replies; DNS servers, search domains and the session database are not modelled.
- `IkeConnectors.IPsecTunnelConnector.ChallengeCode`: parsing the challenge text is a function of the reply.
- Netlink errors other than "exists" and "does not exist" are not modelled, nor are failing deletes in any kernel.
- Routes that stay in Linux table 18000 after a cleanup are unreachable by rule and are not compared with the table before.
- IPv6 appears only as the rules and blackhole routes that the IPv4 code adds beside its own; the Windows filtering of IPv6 is not modelled.
- `RouteMessages.DefaultRouteInterface`: the headers of messages are decoded by parameters, and the bit mask of addresses is a set; the 16-bit total length of a built message is not modelled.
- `Xfrm.XfrmConfigurator.Configure`: a call fails only because something exists already, or an address is missing; other kernel errors are not modelled.
- Algorithms, keys and selectors of security associations and policies are represented by their identity only.
- Turning address ranges into subnets is library code: a route list is taken as given.
- `Profiles.ConnectionProfilesStore.Save`: a file is taken to hold the profile it was saved from (what a file can carry is the subject of `SettingsFile.dfy`), and failing writes are not modelled; neither are files that do not end in `.conf` or cannot be read.
- The order file holds identities; its text form is that of one UUID per line and is not modelled again.
- `SettingsFiles.TunnelParams.Load`: the fields are kept by option name; the localized default profile name is the English one, and upper and lower case are told apart for ASCII letters only.
- `Ipv4Text.ParseAddressOrNet`: parts with leading zeros are refused throughout, as for addresses; whether the library accepts them in networks is not modelled.
- GUI, tray, themes, certificates, DNS configuration, statistics rates, device management and scripts are not modelled.
