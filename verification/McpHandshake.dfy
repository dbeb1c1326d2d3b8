/** Protocol negotiation: discovery first unless the server is pinned to the
    legacy era, and a fallback to initialization only when that is safe. */
module McpHandshake {
  import opened Wrappers
  import opened Json
  import opened McpProtocol
  import opened McpWire
  import opened McpClient

  const DISCOVER := "server/discover"
  const INITIALIZE := "initialize"
  const INITIALIZED := "notifications/initialized"

  const INITIALIZE_PARAMETERS := Obj(map[
    "protocolVersion" := Str(LEGACY_VERSION),
    "capabilities" := EMPTY_OBJECT,
    "clientInfo" := Obj(map["name" := Str("mcp-cli"), "version" := Str("0.1.0")])])

  /** Legacy servers over server-sent events cannot be pinned to the modern era,
      and are not probed for it. */
  function EffectivePreference(preference: Preference, sse: bool): Option<Preference> {
    if !sse then Some(preference)
    else match preference
      case Modern => None
      case Auto => Some(Legacy)
      case Legacy => Some(Legacy)
  }

  datatype Probe = Settled(info: ConnectionInfo) | FallBack | GiveUp

  /** What the answer to discovery leads to. Without one there is no fallback. */
  function ProbeResult(preference: Preference, reply: Reply): Probe {
    match reply
    case Got(Value(result)) =>
      (match DiscoveryOffersModern(result)
       case None => GiveUp
       case Some(true) =>
         var info := InfoOf(result, ModernEra);
         if info.None? then GiveUp else Settled(info.value)
       case Some(false) => if preference.Auto? then FallBack else GiveUp)
    case Got(Rejected(code, _, data)) =>
      if preference.Auto? && DiscoveryUnsupported(code, data) then FallBack else GiveUp
    case _ => GiveUp
  }

  function InitializeSteps(s: Session, deadline: nat): (Session, bool) {
    var (s1, reply) := RequestStep(s, deadline, INITIALIZE, INITIALIZE_PARAMETERS);
    if !reply.Got? || !reply.outcome.Value? then (s1, false)
    else
      var info := InfoOf(reply.outcome.result, LegacyEra);
      if info.None? then (s1, false)
      else NotifyStep(s1.(info := info), INITIALIZED, EMPTY_OBJECT)
  }

  function DiscoverParameters(): Json {
    Stamp(EMPTY_OBJECT).value
  }

  /** An operation needs a positive deadline that the clock, which can still count
      `headroom` from now, can reach. */
  predicate Expires(deadline: nat, headroom: nat) {
    0 < deadline <= headroom
  }

  function NegotiateSteps(link: Link, deadline: nat, headroom: nat, preference: Preference): (Session, bool) {
    var start := Session(true, 1, None, link);
    if !Expires(deadline, headroom) then (start, false)
    else if preference.Legacy? then InitializeSteps(start, deadline)
    else
      var (s, reply) := RequestStep(start, deadline, DISCOVER, DiscoverParameters());
      match ProbeResult(preference, reply)
      case Settled(info) => (s.(info := Some(info)), true)
      case FallBack => InitializeSteps(s, deadline)
      case GiveUp => (s, false)
  }

  /** The client is handed out only when negotiation succeeds. */
  method Negotiate(stream: Stream, deadline: nat, headroom: nat, preference: Preference)
    returns (ok: bool, client: Client)
    modifies stream
    ensures client.Valid() && fresh(client) && client.stream == stream
    ensures (client.View(), ok) == NegotiateSteps(old(stream.link), deadline, headroom, preference)
  {
    client := new Client(stream, deadline);
    if !Expires(deadline, headroom) {
      return false, client;
    }
    if !preference.Legacy? {
      var reply := client.Request(DISCOVER, DiscoverParameters());
      match ProbeResult(preference, reply)
      case Settled(info) =>
        client.info := Some(info);
        return true, client;
      case GiveUp =>
        return false, client;
      case FallBack =>
    }
    var reply := client.Request(INITIALIZE, INITIALIZE_PARAMETERS);
    if !reply.Got? || !reply.outcome.Value? {
      return false, client;
    }
    var info := InfoOf(reply.outcome.result, LegacyEra);
    if info.None? {
      return false, client;
    }
    client.info := info;
    ok := client.Notify(INITIALIZED, EMPTY_OBJECT);
  }

  // ---------------------------------------------------------------------
  // The frames of a handshake
  // ---------------------------------------------------------------------

  /** The methods named by the frames a client sent, replies left out. */
  function Methods(sent: seq<Json>): seq<string> {
    if sent == [] then []
    else
      var name := sent[|sent| - 1].Get("method");
      Methods(sent[..|sent| - 1]) + (if name.Some? && name.value.Str? then [name.value.text] else [])
  }

  lemma {:induction false} MethodsOfReplies(before: seq<Json>, after: seq<Json>)
    requires before <= after
    requires forall k :: |before| <= k < |after| ==> IsReply(after[k])
    ensures Methods(after) == Methods(before)
    decreases |after|
  {
    if |before| < |after| {
      var shorter := after[..|after| - 1];
      assert forall k :: |before| <= k < |shorter| ==> shorter[k] == after[k];
      MethodsOfReplies(before, shorter);
      assert IsReply(after[|after| - 1]);
    } else {
      assert before == after;
    }
  }

  lemma RequestNames(s: Session, deadline: nat, operation: string, params: Json)
    ensures var (s', reply) := RequestStep(s, deadline, operation, params);
      && Methods(s'.link.sent) <= Methods(s.link.sent) + [operation]
      && Methods(s.link.sent) <= Methods(s'.link.sent)
      && (reply.Got? ==> Methods(s'.link.sent) == Methods(s.link.sent) + [operation])
      && s'.info == s.info
  {
    var (s', reply) := RequestStep(s, deadline, operation, params);
    RequestWritesOnce(s, deadline, operation, params);
    if s'.link.sent != s.link.sent {
      var first := s.link.sent + [FrameOf(s, deadline, operation, params)];
      assert s'.link.sent[..|first|] == first;
      MethodsOfReplies(first, s'.link.sent);
      assert first[..|first| - 1] == s.link.sent;
    }
  }

  lemma NotifyNames(s: Session, operation: string, params: Json)
    ensures var (s', ok) := NotifyStep(s, operation, params);
      && Methods(s'.link.sent) <= Methods(s.link.sent) + [operation]
      && (ok ==> Methods(s'.link.sent) == Methods(s.link.sent) + [operation])
      && s'.info == s.info
  {
    var (s', ok) := NotifyStep(s, operation, params);
    if s'.link.sent != s.link.sent {
      var longer := s.link.sent + [NotificationFrame(operation, Prepared(s, params).value)];
      assert longer[..|longer| - 1] == s.link.sent;
    }
  }

  lemma InitializeNames(s: Session, deadline: nat)
    ensures var (s', ok) := InitializeSteps(s, deadline);
      && Methods(s'.link.sent) <= Methods(s.link.sent) + [INITIALIZE, INITIALIZED]
      && (ok ==> Methods(s'.link.sent) == Methods(s.link.sent) + [INITIALIZE, INITIALIZED])
      && (ok ==> s'.info.Some? && s'.info.value.era == LegacyEra)
  {
    var names := Methods(s.link.sent);
    var (s1, reply) := RequestStep(s, deadline, INITIALIZE, INITIALIZE_PARAMETERS);
    RequestNames(s, deadline, INITIALIZE, INITIALIZE_PARAMETERS);
    assert names + [INITIALIZE] + [INITIALIZED] == names + [INITIALIZE, INITIALIZED];
    assert names + [INITIALIZE] <= names + [INITIALIZE, INITIALIZED];
    if reply.Got? && reply.outcome.Value? {
      var info := InfoOf(reply.outcome.result, LegacyEra);
      NotifyNames(s1.(info := info), INITIALIZED, EMPTY_OBJECT);
    }
  }

  function HandshakeMethods(preference: Preference): seq<string> {
    match preference
    case Legacy => ["initialize", "notifications/initialized"]
    case Modern => ["server/discover"]
    case Auto => ["server/discover", "initialize", "notifications/initialized"]
  }

  lemma ProbeNames(link: Link, deadline: nat)
    requires link.sent == []
    ensures var (s, reply) := RequestStep(Session(true, 1, None, link), deadline, DISCOVER, DiscoverParameters());
      && (Methods(s.link.sent) == [] || Methods(s.link.sent) == [DISCOVER])
      && (reply.Got? ==> Methods(s.link.sent) == [DISCOVER])
  {
    RequestNames(Session(true, 1, None, link), deadline, DISCOVER, DiscoverParameters());
    assert [] + [DISCOVER] == [DISCOVER];
  }

  /** The methods a handshake may send, and must have sent when it succeeds. */
  ghost predicate HandshakeShape(preference: Preference, s: Session, ok: bool) {
    var names := Methods(s.link.sent);
    && names <= HandshakeMethods(preference)
    && (ok ==> s.info.Some?)
    && (ok && s.info.value.era == ModernEra ==> !preference.Legacy? && names == [DISCOVER])
    && (ok && s.info.value.era == LegacyEra ==> !preference.Modern? && names == HandshakeMethods(preference))
  }

  lemma FallbackShape(s: Session, deadline: nat)
    requires Methods(s.link.sent) == [DISCOVER]
    ensures var (s', ok) := InitializeSteps(s, deadline); HandshakeShape(Auto, s', ok)
  {
    InitializeNames(s, deadline);
    assert [DISCOVER] + [INITIALIZE, INITIALIZED] == HandshakeMethods(Auto);
  }

  lemma LegacyShape(s: Session, deadline: nat)
    requires Methods(s.link.sent) == []
    ensures var (s', ok) := InitializeSteps(s, deadline); HandshakeShape(Legacy, s', ok)
  {
    InitializeNames(s, deadline);
    assert [] + [INITIALIZE, INITIALIZED] == HandshakeMethods(Legacy);
  }

  /** Only an answered probe leads on, and it settles nothing but the modern era. */
  lemma ProbeLeadsOn(preference: Preference, reply: Reply)
    ensures !ProbeResult(preference, reply).GiveUp? ==> reply.Got?
    ensures ProbeResult(preference, reply).Settled? ==> ProbeResult(preference, reply).info.era == ModernEra
    ensures ProbeResult(preference, reply).FallBack? ==> preference.Auto?
  {
  }

  lemma ProbedShape(s: Session, preference: Preference)
    requires !preference.Legacy?
    requires Methods(s.link.sent) == [] || Methods(s.link.sent) == [DISCOVER]
    ensures HandshakeShape(preference, s, false)
    ensures forall info: ConnectionInfo :: info.era == ModernEra && Methods(s.link.sent) == [DISCOVER] ==>
      HandshakeShape(preference, s.(info := Some(info)), true)
  {
    assert [] <= HandshakeMethods(preference) && [DISCOVER] <= HandshakeMethods(preference);
  }

  /** For every behaviour of the server the methods sent are a prefix of what
      the preference allows: a modern pin never initializes, the legacy one never
      discovers. Success ends after discovery exactly in the modern era. */
  lemma HandshakeFrames(link: Link, deadline: nat, headroom: nat, preference: Preference)
    requires link.sent == []
    ensures var (s, ok) := NegotiateSteps(link, deadline, headroom, preference);
      HandshakeShape(preference, s, ok) && (deadline == 0 || deadline > headroom ==> !ok && s.link == link)
  {
    var start := Session(true, 1, None, link);
    if preference.Legacy? {
      LegacyShape(start, deadline);
    } else {
      var (s, reply) := RequestStep(start, deadline, DISCOVER, DiscoverParameters());
      ProbeNames(link, deadline);
      ProbeLeadsOn(preference, reply);
      ProbedShape(s, preference);
      if ProbeResult(preference, reply).FallBack? {
        FallbackShape(s, deadline);
      }
    }
  }

  // ---------------------------------------------------------------------
  // Connecting
  // ---------------------------------------------------------------------

  function ConnectSteps(link: Link, deadline: nat, headroom: nat, preference: Preference, sse: bool): (Session, bool) {
    var effective := EffectivePreference(preference, sse);
    if effective.None? then (Session(true, 1, None, link), false)
    else NegotiateSteps(link, deadline, headroom, effective.value)
  }

  /** Negotiates as the configured preference and the transport allow, over the
      stream that was opened to the pool's socket. */
  method Connect(stream: Stream, deadline: nat, headroom: nat, preference: Preference, sse: bool)
    returns (ok: bool, client: Client)
    modifies stream
    ensures client.Valid() && fresh(client) && client.stream == stream
    ensures (client.View(), ok) == ConnectSteps(old(stream.link), deadline, headroom, preference, sse)
  {
    var effective := EffectivePreference(preference, sse);
    if effective.None? {
      client := new Client(stream, deadline);
      return false, client;
    }
    ok, client := Negotiate(stream, deadline, headroom, effective.value);
  }

  /** Over server-sent events discovery is never sent and a modern pin sends
      nothing; over other transports the preference decides alone. */
  lemma ConnectFrames(link: Link, deadline: nat, headroom: nat, preference: Preference, sse: bool)
    requires link.sent == []
    ensures var (s, ok) := ConnectSteps(link, deadline, headroom, preference, sse);
      && (!sse ==> (s, ok) == NegotiateSteps(link, deadline, headroom, preference))
      && (sse && !preference.Modern? ==> (s, ok) == NegotiateSteps(link, deadline, headroom, Legacy))
      && (!sse ==> HandshakeShape(preference, s, ok))
      && (sse ==> HandshakeShape(Legacy, s, ok) && DISCOVER !in Methods(s.link.sent))
      && (sse && preference.Modern? ==> !ok && s.link == link)
  {
    var effective := EffectivePreference(preference, sse);
    if effective.Some? {
      HandshakeFrames(link, deadline, headroom, effective.value);
    }
  }

  /** The error says that discovery is unknown: the method itself, or the request
      under one of four HTTP statuses. */
  predicate SaysUnknown(code: int, data: Option<Json>) {
    || code == -32601
    || (code == -32004 && data.Some? &&
        data.value.Get("httpStatus") in {Some(Int(400)), Some(Int(404)), Some(Int(405)), Some(Int(415))})
  }

  /** The result offers versions, each a nonempty text. */
  predicate OffersVersions(result: Json) {
    result.Get("supportedVersions").Some? && result.Get("supportedVersions").value.Arr? &&
    var versions := result.Get("supportedVersions").value.items;
    versions != [] && forall v :: v in versions ==> v.Str? && v.text != []
  }

  predicate Offers(result: Json, version: string) {
    OffersVersions(result) && Str(version) in result.Get("supportedVersions").value.items
  }

  /** The reply definitively rejects discovery, or is a well-formed offer without the
      modern version. */
  predicate RulesOutModern(reply: Reply) {
    reply.Got? &&
    match reply.outcome
    case Value(result) => OffersVersions(result) && !Offers(result, "2026-07-28")
    case Rejected(code, _, data) => SaysUnknown(code, data)
  }

  /** Capabilities, and instructions that are text if there are any. */
  predicate Introduces(result: Json) {
    && result.Get("capabilities").Some? && result.Get("capabilities").value.Obj?
    && (result.Get("instructions").Some? ==> result.Get("instructions").value.Str?)
  }

  function Instructions(result: Json): Option<string>
    requires Introduces(result)
  {
    if result.Get("instructions").Some? then Some(result.Get("instructions").value.text) else None
  }

  /** What the probe leads to, by the members of the reply. */
  lemma ProbeByMembers(preference: Preference, reply: Reply)
    requires !preference.Legacy?
    ensures ProbeResult(preference, reply).FallBack? <==> preference.Auto? && RulesOutModern(reply)
    ensures ProbeResult(preference, reply).Settled? <==>
      reply.Got? && reply.outcome.Value? &&
      Offers(reply.outcome.result, "2026-07-28") && Introduces(reply.outcome.result)
    ensures ProbeResult(preference, reply).Settled? ==>
      ProbeResult(preference, reply).info ==
        ConnectionInfo("2026-07-28", ModernEra, Instructions(reply.outcome.result))
  {
  }

  lemma InitializeNeedsFallback(link: Link, deadline: nat, headroom: nat, preference: Preference)
    requires link.sent == [] && !preference.Legacy?
    requires INITIALIZE in Methods(NegotiateSteps(link, deadline, headroom, preference).0.link.sent)
    ensures ProbeResult(
      preference, RequestStep(Session(true, 1, None, link), deadline, DISCOVER, DiscoverParameters()).1).FallBack?
  {
    ProbeNames(link, deadline);
  }

  /** A server that was asked for discovery is sent `initialize` only after it
      definitively rejected discovery, or answered it with a well-formed offer
      that leaves out the modern version; and the probe itself was stamped. */
  lemma FallbackIsDefinitive(link: Link, deadline: nat, headroom: nat, preference: Preference)
    requires link.sent == []
    requires INITIALIZE in Methods(NegotiateSteps(link, deadline, headroom, preference).0.link.sent)
    ensures preference.Legacy? || (
      && preference.Auto?
      && Metadata(DiscoverParameters(), "io.modelcontextprotocol/protocolVersion") == Some(Str("2026-07-28"))
      && RulesOutModern(RequestStep(Session(true, 1, None, link), deadline, DISCOVER, DiscoverParameters()).1))
  {
    StampIsConservative(EMPTY_OBJECT);
    if !preference.Legacy? {
      InitializeNeedsFallback(link, deadline, headroom, preference);
      ProbeByMembers(
        preference, RequestStep(Session(true, 1, None, link), deadline, DISCOVER, DiscoverParameters()).1);
    }
  }

  /** What the two requests of a handshake ask for: the probe is stamped with the
      modern version, `initialize` offers the newest legacy one and no capabilities. */
  lemma HandshakeParameters()
    ensures Metadata(DiscoverParameters(), "io.modelcontextprotocol/protocolVersion") == Some(Str("2026-07-28"))
    ensures INITIALIZE_PARAMETERS.Get("protocolVersion") == Some(Str("2025-11-25"))
    ensures INITIALIZE_PARAMETERS.Get("capabilities") == Some(Obj(map[]))
    ensures INITIALIZE_PARAMETERS.Get("clientInfo").Some?
    ensures INITIALIZE_PARAMETERS.Get("clientInfo").value.Get("name") == Some(Str("mcp-cli"))
  {
    StampIsConservative(EMPTY_OBJECT);
  }

  /** The next frame written reaches the server, even if the write then fails. */
  predicate NextIsDelivered(link: Link) {
    link.fates != [] && (link.fates[0].Sent? || link.fates[0].delivered)
  }

  /** Where the probe was answered and the next frame gets through, `initialize`
      follows exactly if the answer rules the modern version out and the preference
      is open. */
  lemma InitializeFollows(link: Link, deadline: nat, headroom: nat, preference: Preference)
    requires link.sent == [] && !preference.Legacy? && 0 < deadline <= headroom
    requires
      var (s, reply) := RequestStep(Session(true, 1, None, link), deadline, DISCOVER, DiscoverParameters());
      reply.Got? && NextIsDelivered(s.link)
    ensures
      var reply := RequestStep(Session(true, 1, None, link), deadline, DISCOVER, DiscoverParameters()).1;
      INITIALIZE in Methods(NegotiateSteps(link, deadline, headroom, preference).0.link.sent) <==>
        preference.Auto? && RulesOutModern(reply)
  {
    var start := Session(true, 1, None, link);
    var (s, reply) := RequestStep(start, deadline, DISCOVER, DiscoverParameters());
    ProbeNames(link, deadline);
    ProbeByMembers(preference, reply);
    RequestKeepsSession(start, deadline, DISCOVER, DiscoverParameters());
    if ProbeResult(preference, reply).FallBack? {
      InitializeIsWritten(s, deadline);
    }
  }

  lemma RequestKeepsSession(s: Session, deadline: nat, operation: string, params: Json)
    requires RequestStep(s, deadline, operation, params).1.Got?
    ensures var s' := RequestStep(s, deadline, operation, params).0;
      s'.open && s'.nextId == s.nextId + 1 && s'.info == s.info && TimeoutMilliseconds(deadline).Some?
  {
  }

  lemma InitializeIsWritten(s: Session, deadline: nat)
    requires s.open && s.info.None? && s.nextId < MAX_U64 && TimeoutMilliseconds(deadline).Some?
    requires NextIsDelivered(s.link)
    ensures INITIALIZE in Methods(InitializeSteps(s, deadline).0.link.sent)
  {
    var (s1, reply) := RequestStep(s, deadline, INITIALIZE, INITIALIZE_PARAMETERS);
    RequestWritesOnce(s, deadline, INITIALIZE, INITIALIZE_PARAMETERS);
    WrittenIsNamed(s, deadline, INITIALIZE, INITIALIZE_PARAMETERS);
    if reply.Got? && reply.outcome.Value? && InfoOf(reply.outcome.result, LegacyEra).Some? {
      NotifyNames(s1.(info := InfoOf(reply.outcome.result, LegacyEra)), INITIALIZED, EMPTY_OBJECT);
    }
  }

  /** A request that is written is named among the methods sent. */
  lemma WrittenIsNamed(s: Session, deadline: nat, operation: string, params: Json)
    requires s.open && Writable(s, deadline, operation, params) && NextIsDelivered(s.link)
    ensures operation in Methods(RequestStep(s, deadline, operation, params).0.link.sent)
  {
    var s' := RequestStep(s, deadline, operation, params).0;
    var (ok, written) := Write(s.link, FrameOf(s, deadline, operation, params));
    var first := s.link.sent + [FrameOf(s, deadline, operation, params)];
    assert written.sent == first && first[..|first| - 1] == s.link.sent;
    if ok {
      AwaitOnlyReplies(written, s.nextId);
      MethodsOfReplies(first, s'.link.sent);
    }
  }

  /** An answer to `initialize` that the client accepts: it introduces the server and
      names one of the four legacy versions. */
  predicate AcceptsLegacy(result: Json, version: string) {
    && Introduces(result) && result.Get("protocolVersion") == Some(Str(version))
    && version in {"2025-11-25", "2025-06-18", "2025-03-26", "2024-11-05"}
  }

  /** A server that accepts `initialize`, over a connection that takes the frames, is
      connected to in the legacy era, under the version it named. */
  lemma InitializeSucceeds(s: Session, deadline: nat, at: nat, result: Json, version: string)
    requires s.open && s.info.None? && s.nextId < MAX_U64 && TimeoutMilliseconds(deadline).Some?
    requires WillAnswer(s.link, s.nextId, at, Value(result)) && AcceptsLegacy(result, version)
    requires
      var after := s.link.fates[1..][|Callbacks(s.link.inbox[..at])|..];
      after != [] && after[0].Sent?
    ensures var (s', ok) := InitializeSteps(s, deadline);
      && ok && s'.open && s'.info == Some(ConnectionInfo(version, LegacyEra, Instructions(result)))
      && s'.link.inbox == s.link.inbox[at + 1..]
  {
    AnsweredRequestReturns(s, deadline, INITIALIZE, INITIALIZE_PARAMETERS, at, Value(result));
    assert InfoOf(result, LegacyEra) == Some(ConnectionInfo(version, LegacyEra, Instructions(result)));
    var s1 := RequestStep(s, deadline, INITIALIZE, INITIALIZE_PARAMETERS).0;
    NotifyMeans(s1.(info := InfoOf(result, LegacyEra)), INITIALIZED, EMPTY_OBJECT);
  }

  lemma NegotiatesLegacy(link: Link, deadline: nat, headroom: nat, at: nat, result: Json, version: string)
    requires 0 < deadline <= headroom && TimeoutMilliseconds(deadline).Some?
    requires WillAnswer(link, 1, at, Value(result)) && AcceptsLegacy(result, version)
    requires
      var after := link.fates[1..][|Callbacks(link.inbox[..at])|..];
      after != [] && after[0].Sent?
    ensures var (s, ok) := NegotiateSteps(link, deadline, headroom, Legacy);
      ok && s.open && s.info == Some(ConnectionInfo(version, LegacyEra, Instructions(result)))
  {
    InitializeSucceeds(Session(true, 1, None, link), deadline, at, result, version);
  }

  /** A server that answers discovery with an offer of the modern version is connected
      to in the modern era, pinned or not. */
  lemma NegotiatesModern(
    link: Link, deadline: nat, headroom: nat, preference: Preference, at: nat, result: Json)
    requires !preference.Legacy? && 0 < deadline <= headroom && TimeoutMilliseconds(deadline).Some?
    requires WillAnswer(link, 1, at, Value(result))
    requires Offers(result, "2026-07-28") && Introduces(result)
    ensures var (s, ok) := NegotiateSteps(link, deadline, headroom, preference);
      ok && s.open && s.info == Some(ConnectionInfo("2026-07-28", ModernEra, Instructions(result)))
  {
    var start := Session(true, 1, None, link);
    AnsweredRequestReturns(start, deadline, DISCOVER, DiscoverParameters(), at, Value(result));
    ProbeByMembers(preference, Got(Value(result)));
  }

  /** A server that rules the modern version out and then accepts `initialize` is
      connected to in the legacy era. */
  lemma NegotiatesAfterFallback(
    link: Link, deadline: nat, headroom: nat, at: nat, outcome: Outcome, later: nat, result: Json, version: string)
    requires 0 < deadline <= headroom && TimeoutMilliseconds(deadline).Some?
    requires WillAnswer(link, 1, at, outcome) && RulesOutModern(Got(outcome))
    requires
      var s := RequestStep(Session(true, 1, None, link), deadline, DISCOVER, DiscoverParameters()).0;
      && WillAnswer(s.link, 2, later, Value(result)) && AcceptsLegacy(result, version)
      && var after := s.link.fates[1..][|Callbacks(s.link.inbox[..later])|..];
         after != [] && after[0].Sent?
    ensures var (s, ok) := NegotiateSteps(link, deadline, headroom, Auto);
      ok && s.open && s.info == Some(ConnectionInfo(version, LegacyEra, Instructions(result)))
  {
    var start := Session(true, 1, None, link);
    AnsweredRequestReturns(start, deadline, DISCOVER, DiscoverParameters(), at, outcome);
    ProbeByMembers(Auto, Got(outcome));
    InitializeSucceeds(
      RequestStep(start, deadline, DISCOVER, DiscoverParameters()).0, deadline, later, result, version);
  }

  /** Whatever happened during negotiation, the requests written so far have
      increasing identifiers, so every later run of the client continues them. */
  lemma NegotiationKeepsIds(link: Link, deadline: nat, headroom: nat, preference: Preference, ops: seq<Operation>)
    requires link.sent == []
    ensures var s := RunAll(NegotiateSteps(link, deadline, headroom, preference).0, deadline, ops);
      IdsIncrease(s.link.sent, s.nextId)
  {
    HandshakeKeepsIds(link, deadline, headroom, preference);
    IdsAlwaysIncrease(NegotiateSteps(link, deadline, headroom, preference).0, deadline, ops);
  }

  lemma HandshakeKeepsIds(link: Link, deadline: nat, headroom: nat, preference: Preference)
    requires link.sent == []
    ensures var s := NegotiateSteps(link, deadline, headroom, preference).0;
      IdsIncrease(s.link.sent, s.nextId)
  {
    var start := Session(true, 1, None, link);
    if preference.Legacy? {
      InitializeKeepsIds(start, deadline);
    } else {
      var (s, reply) := RequestStep(start, deadline, DISCOVER, DiscoverParameters());
      RequestKeepsIds(start, deadline, DISCOVER, DiscoverParameters());
      if ProbeResult(preference, reply).FallBack? {
        InitializeKeepsIds(s, deadline);
      }
    }
  }

  lemma InitializeKeepsIds(s: Session, deadline: nat)
    requires IdsIncrease(s.link.sent, s.nextId)
    ensures var s' := InitializeSteps(s, deadline).0;
      IdsIncrease(s'.link.sent, s'.nextId)
  {
    var (s1, reply) := RequestStep(s, deadline, INITIALIZE, INITIALIZE_PARAMETERS);
    RequestKeepsIds(s, deadline, INITIALIZE, INITIALIZE_PARAMETERS);
    if reply.Got? && reply.outcome.Value? {
      var s2 := s1.(info := InfoOf(reply.outcome.result, LegacyEra));
      OperationKeepsIds(s2, deadline, DoNotify(INITIALIZED, EMPTY_OBJECT));
    }
  }
}
