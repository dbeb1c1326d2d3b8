/** The sequential MCP client: one request at a time over a connection that is
    taken out for the duration of each operation, so that anything but a
    complete exchange retires it. */
module McpClient {
  import opened Wrappers
  import opened Json
  import opened McpProtocol
  import opened McpWire

  const TIMEOUT_FIELD := "_mcp_pool_timeout_ms"
  const MAX_U64 := 0xffff_ffff_ffff_ffff

  /** The client's own state and the connection it was given; `open` is whether
      it still holds the connection. */
  datatype Session = Session(open: bool, nextId: nat, info: Option<ConnectionInfo>, link: Link)

  /** `Refused` wrote nothing; after `Lost` the outcome is unknown. */
  datatype Reply = Got(outcome: Outcome) | Refused | Lost

  predicate IsModern(s: Session) {
    s.info.Some? && s.info.value.era == ModernEra
  }

  function Prepared(s: Session, params: Json): Option<Json> {
    if IsModern(s) then Stamp(params) else Some(params)
  }

  predicate ValidParameters(operation: string, params: Json) {
    operation != "notifications/cancelled" && operation != [] && (params.Obj? || params.Arr?)
  }

  /** The deadline in whole milliseconds, rounded up. */
  function TimeoutMilliseconds(nanoseconds: nat): (milliseconds: Option<nat>)
    ensures milliseconds.Some? ==>
      0 < milliseconds.value <= MAX_U64
      && (milliseconds.value - 1) * 1_000_000 < nanoseconds <= milliseconds.value * 1_000_000
    ensures milliseconds.None? <==> nanoseconds == 0 || nanoseconds > MAX_U64 * 1_000_000
  {
    if nanoseconds == 0 then None
    else
      var rounded := (nanoseconds + 999_999) / 1_000_000;
      if rounded > MAX_U64 then None else Some(rounded)
  }

  function RequestFrame(id: nat, operation: string, params: Json, milliseconds: nat): Json {
    Obj(map["jsonrpc" := Str("2.0"), "id" := Int(id), "method" := Str(operation), "params" := params,
            TIMEOUT_FIELD := Int(milliseconds)])
  }

  function NotificationFrame(operation: string, params: Json): Json {
    Obj(map["jsonrpc" := Str("2.0"), "method" := Str(operation), "params" := params])
  }

  // ---------------------------------------------------------------------
  // The operations, on session values
  // ---------------------------------------------------------------------

  /** Nothing is written: the parameters, the deadline or the identifiers are
      not usable, or the connection is gone. */
  predicate Writable(s: Session, deadline: nat, operation: string, params: Json) {
    && Prepared(s, params).Some?
    && ValidParameters(operation, Prepared(s, params).value)
    && TimeoutMilliseconds(deadline).Some?
    && s.nextId < MAX_U64
  }

  function RequestStep(s: Session, deadline: nat, operation: string, params: Json): (Session, Reply) {
    if !Writable(s, deadline, operation, params) then (s, Refused)
    else
      var s1 := s.(nextId := s.nextId + 1);
      if !s.open then (s1, Refused)
      else
        var frame := RequestFrame(s.nextId, operation, Prepared(s, params).value, TimeoutMilliseconds(deadline).value);
        var (ok, written) := Write(s.link, frame);
        if !ok then (s1.(open := false, link := written), Lost)
        else
          var (outcome, received) := Await(written, s.nextId);
          if outcome.None? then (s1.(open := false, link := received), Lost)
          else (s1.(link := received), Got(outcome.value))
  }

  function NotifyStep(s: Session, operation: string, params: Json): (Session, bool) {
    if !s.open || Prepared(s, params).None? || !ValidParameters(operation, Prepared(s, params).value) then (s, false)
    else
      var (ok, written) := Write(s.link, NotificationFrame(operation, Prepared(s, params).value));
      (s.(open := ok, link := written), ok)
  }

  function WaitStep(s: Session): (Session, Incoming) {
    if !s.open then (s, Unusable)
    else
      var (incoming, received) := Receive(s.link);
      (s.(open := incoming.Note?, link := received), if incoming.Answer? then Unusable else incoming)
  }

  class Client {
    const stream: Stream
    const deadline: nat
    var reader: Stream?
    var nextId: nat
    var info: Option<ConnectionInfo>

    ghost predicate Valid()
      reads this
    {
      reader == null || reader == stream
    }

    ghost function View(): Session
      reads this, stream
    {
      Session(reader != null, nextId, info, stream.link)
    }

    constructor (stream: Stream, deadline: nat)
      ensures Valid() && this.stream == stream && this.deadline == deadline
      ensures View() == Session(true, 1, None, stream.link)
    {
      this.stream := stream;
      this.deadline := deadline;
      this.reader := stream;
      this.nextId := 1;
      this.info := None;
    }

    method Prepare(params: Json) returns (prepared: Option<Json>)
      requires Valid()
      ensures prepared == Prepared(View(), params)
    {
      prepared := if info.Some? && info.value.era == ModernEra then Stamp(params) else Some(params);
    }

    method Request(operation: string, params: Json) returns (reply: Reply)
      requires Valid()
      modifies this, stream
      ensures Valid()
      ensures (View(), reply) == RequestStep(old(View()), deadline, operation, params)
    {
      var prepared := Prepare(params);
      if prepared.None? || !ValidParameters(operation, prepared.value) {
        return Refused;
      }
      var milliseconds := TimeoutMilliseconds(deadline);
      if milliseconds.None? {
        return Refused;
      }
      var id := nextId;
      if id >= MAX_U64 {
        return Refused;
      }
      nextId := id + 1;
      var taken := reader;
      reader := null;
      if taken == null {
        return Refused;
      }
      var ok := taken.WriteFrame(RequestFrame(id, operation, prepared.value, milliseconds.value));
      if !ok {
        return Lost;
      }
      var outcome := ReceiveResult(taken, id);
      if outcome.None? {
        return Lost;
      }
      reader := taken;
      return Got(outcome.value);
    }

    method Notify(operation: string, params: Json) returns (ok: bool)
      requires Valid()
      modifies this, stream
      ensures Valid()
      ensures (View(), ok) == NotifyStep(old(View()), operation, params)
    {
      var prepared := Prepare(params);
      if prepared.None? || !ValidParameters(operation, prepared.value) {
        return false;
      }
      var taken := reader;
      reader := null;
      if taken == null {
        return false;
      }
      ok := taken.WriteFrame(NotificationFrame(operation, prepared.value));
      if ok {
        reader := taken;
      }
    }

    method WaitForNotification() returns (incoming: Incoming)
      requires Valid()
      modifies this, stream
      ensures Valid()
      ensures (View(), incoming) == WaitStep(old(View()))
    {
      var taken := reader;
      reader := null;
      if taken == null {
        return Unusable;
      }
      incoming := ReceiveMessage(taken);
      if incoming.Note? {
        reader := taken;
      } else if incoming.Answer? {
        incoming := Unusable;
      }
    }
  }

  // ---------------------------------------------------------------------
  // One exchange
  // ---------------------------------------------------------------------

  /** The frame a request would write. */
  function FrameOf(s: Session, deadline: nat, operation: string, params: Json): Json
    requires Writable(s, deadline, operation, params)
  {
    RequestFrame(s.nextId, operation, Prepared(s, params).value, TimeoutMilliseconds(deadline).value)
  }

  /** A request writes at most one frame of its own, first, and after it only
      replies to callbacks; a refused one writes nothing. The frame bears the
      request's identifier and its parameters, stamped exactly in the modern era. */
  lemma RequestWritesOnce(s: Session, deadline: nat, operation: string, params: Json)
    ensures var (s', reply) := RequestStep(s, deadline, operation, params);
      && s.link.sent <= s'.link.sent
      && (s'.link.sent != s.link.sent ==>
            && s.open && Writable(s, deadline, operation, params)
            && s'.link.sent[|s.link.sent|] == FrameOf(s, deadline, operation, params)
            && forall k :: |s.link.sent| < k < |s'.link.sent| ==> IsReply(s'.link.sent[k]))
      && (reply.Refused? ==> s'.link == s.link && s'.open == s.open)
      && (reply.Got? ==> s'.open && |s'.link.sent| > |s.link.sent|)
      && (reply.Lost? ==> !s'.open)
  {
    if Writable(s, deadline, operation, params) && s.open {
      var (ok, written) := Write(s.link, FrameOf(s, deadline, operation, params));
      if ok {
        AwaitOnlyReplies(written, s.nextId);
        assert written.sent[|s.link.sent|] == FrameOf(s, deadline, operation, params);
      }
    }
  }

  /** The parameters a request writes carry the modern version exactly in the
      modern era and are otherwise the caller's own, other metadata included. */
  lemma EraDecidesStamp(s: Session, deadline: nat, operation: string, params: Json)
    requires Writable(s, deadline, operation, params)
    ensures var written := FrameOf(s, deadline, operation, params).Get("params");
      && written.Some?
      && (IsModern(s) ==>
            Metadata(written.value, "io.modelcontextprotocol/protocolVersion") == Some(Str("2026-07-28")))
      && (!IsModern(s) ==> written.value == params)
      && (forall key :: key != "_meta" ==> written.value.Get(key) == params.Get(key))
      && (forall key :: key != "io.modelcontextprotocol/protocolVersion" ==>
            Metadata(written.value, key) == Metadata(params, key))
  {
    StampIsConservative(params);
  }

  lemma AnsweredRequestConsumes(s: Session, deadline: nat, operation: string, params: Json)
    ensures RequestStep(s, deadline, operation, params).1.Got? ==>
      |RequestStep(s, deadline, operation, params).0.link.inbox| < |s.link.inbox|
  {
    if Writable(s, deadline, operation, params) && s.open {
      AwaitConsumes(Write(s.link, FrameOf(s, deadline, operation, params)).1, s.nextId);
    }
  }

  /** The answer of a request comes from a single response frame that carries
      the identifier the request wrote and no method, and that is exactly one of
      a result and an error; result, code, message and data are that frame's. The
      frames read before it were notifications and callbacks; each callback, even
      one with the same identifier, was answered in order and none was taken for
      the result. */
  lemma RequestReturnsItsOwn(s: Session, deadline: nat, operation: string, params: Json)
    requires RequestStep(s, deadline, operation, params).1.Got?
    ensures var (s', reply) := RequestStep(s, deadline, operation, params);
      exists message, at: nat, replies ::
        && at < |s.link.inbox| && s.link.inbox[at] == Frame(message)
        && Gives(message, s.nextId, reply.outcome)
        && (forall k :: 0 <= k < at ==> Passed(s.link.inbox[k]))
        && AnswersInOrder(Callbacks(s.link.inbox[..at]), replies)
        && s'.link.sent == s.link.sent + [FrameOf(s, deadline, operation, params)] + replies
  {
    var (ok, written) := Write(s.link, FrameOf(s, deadline, operation, params));
    AwaitDelivers(written, s.nextId);
    var message, at: nat :|
      && Delivered(written, Await(written, s.nextId).1, message, at)
      && Gives(message, s.nextId, Await(written, s.nextId).0.value);
    RepliesAnswer(s.link.inbox[..at]);
    assert s.link.inbox[at] == Frame(message);
  }

  /** The connection takes a request with this identifier, and its server answers it
      with the outcome, in its frame number `at`, after calls that can be replied to. */
  ghost predicate WillAnswer(link: Link, id: nat, at: nat, outcome: Outcome) {
    && link.fates != [] && link.fates[0].Sent?
    && at < |link.inbox| && link.inbox[at].Frame? && Gives(link.inbox[at].message, id, outcome)
    && (forall k :: 0 <= k < at ==> Passed(link.inbox[k]))
    && CanReply(link.(fates := link.fates[1..]), at)
  }

  /** The other way round: a request that can be written, to a server that answers
      it with a result or a well-formed error, returns just that, whatever calls of
      the server come first, and keeps the connection. */
  lemma AnsweredRequestReturns(
    s: Session, deadline: nat, operation: string, params: Json, at: nat, outcome: Outcome)
    requires s.open && Writable(s, deadline, operation, params)
    requires WillAnswer(s.link, s.nextId, at, outcome)
    ensures var (s', reply) := RequestStep(s, deadline, operation, params);
      && reply == Got(outcome) && s'.open && s'.nextId == s.nextId + 1 && s'.info == s.info
      && s'.link.inbox == s.link.inbox[at + 1..]
      && s'.link.fates == s.link.fates[1..][|Callbacks(s.link.inbox[..at])|..]
  {
    var written := Write(s.link, FrameOf(s, deadline, operation, params)).1;
    assert written.inbox == s.link.inbox && written.fates == s.link.fates[1..];
    AwaitFinds(written, s.nextId, at, outcome);
  }

  /** What a request frame holds, member by member: version, identifier, method and
      parameters, and the deadline in milliseconds, rounded up. */
  lemma FrameByMembers(s: Session, deadline: nat, operation: string, params: Json)
    requires Writable(s, deadline, operation, params)
    ensures var frame := FrameOf(s, deadline, operation, params);
      && VersionTwo(frame) && frame.Get("id") == Some(Int(s.nextId)) && frame.Get("method") == Some(Str(operation))
      && frame.Get("result").None? && frame.Get("error").None?
      && frame.Get("params").Some? && (!IsModern(s) ==> frame.Get("params") == Some(params))
      && exists milliseconds: nat ::
          && frame.Get("_mcp_pool_timeout_ms") == Some(Int(milliseconds)) && milliseconds > 0
          && (milliseconds - 1) * 1_000_000 < deadline <= milliseconds * 1_000_000
  {
    assert FrameOf(s, deadline, operation, params).Get("_mcp_pool_timeout_ms")
        == Some(Int(TimeoutMilliseconds(deadline).value));
  }

  /** A request is refused, without a frame, exactly if the connection is gone, the
      parameters are neither an object nor an array or cannot be stamped, the method
      is empty or the cancellation notice, the deadline is zero or too long, or the
      identifiers are used up. */
  lemma RefusedRequests(s: Session, deadline: nat, operation: string, params: Json)
    ensures RequestStep(s, deadline, operation, params).1.Refused? <==>
      || !s.open
      || !(params.Obj? || params.Arr?)
      || (IsModern(s) && !(params.Obj? && (params.Get("_meta").Some? ==> params.Get("_meta").value.Obj?)))
      || operation == [] || operation == "notifications/cancelled"
      || deadline == 0 || deadline > 0xffff_ffff_ffff_ffff * 1_000_000
      || s.nextId >= 0xffff_ffff_ffff_ffff
  {
    StampIsConservative(params);
  }

  /** A notification is sent exactly if the connection is open, the parameters are
      usable and the write succeeds; nothing but that keeps the connection, except
      parameters that are refused before anything is taken. */
  lemma NotifyMeans(s: Session, operation: string, params: Json)
    ensures var (s', ok) := NotifyStep(s, operation, params);
      var usable := Prepared(s, params).Some? && ValidParameters(operation, Prepared(s, params).value);
      && (ok <==> s.open && usable && s.link.fates != [] && s.link.fates[0].Sent?)
      && (s'.open <==> s.open && (ok || !usable))
      && s'.nextId == s.nextId && s'.info == s.info && s'.link.inbox == s.link.inbox
      && (!s.open || !usable ==> s'.link == s.link)
      && (ok ==>
          |s'.link.sent| == |s.link.sent| + 1 && s.link.sent <= s'.link.sent &&
          var frame := s'.link.sent[|s.link.sent|];
          VersionTwo(frame) && frame.Get("id").None? && frame.Get("method") == Some(Str(operation)) &&
          (!IsModern(s) ==> frame.Get("params") == Some(params)))
  {
  }

  /** Waiting hands over a notification of the server, the first that is not a
      callback, and keeps the connection only then; the end of the stream, a
      response and anything unusable give it up. */
  lemma WaitMeans(s: Session)
    requires s.open
    ensures var (s', incoming) := WaitStep(s);
      && (s'.open <==> incoming.Note?) && !incoming.Answer?
      && s'.nextId == s.nextId && s'.info == s.info
      && (incoming.Note? ==>
          exists at: nat, replies ::
            && at < |s.link.inbox| && s.link.inbox[at] == Frame(incoming.message)
            && IsNotification(incoming.message)
            && (forall k :: 0 <= k < at ==> s.link.inbox[k].Frame? && IsCallback(s.link.inbox[k].message))
            && AnswersInOrder(Callbacks(s.link.inbox[..at]), replies)
            && s'.link.sent == s.link.sent + replies)
  {
    var (s', incoming) := WaitStep(s);
    if incoming.Note? {
      ReceiveDelivers(s.link);
      var at: nat :| DeliveredFirst(s.link, s'.link, incoming.message, at);
      RepliesAnswer(s.link.inbox[..at]);
    }
  }

  /** And a notification that arrives is handed over. */
  lemma WaitFinds(s: Session, at: nat)
    requires s.open && at < |s.link.inbox| && s.link.inbox[at].Frame?
    requires IsNotification(s.link.inbox[at].message)
    requires forall k :: 0 <= k < at ==> s.link.inbox[k].Frame? && IsCallback(s.link.inbox[k].message)
    requires CanReply(s.link, at)
    ensures WaitStep(s).1 == Note(s.link.inbox[at].message) && WaitStep(s).0.open
  {
    ReceiveFinds(s.link, at);
  }

  // ---------------------------------------------------------------------
  // Every run of operations
  // ---------------------------------------------------------------------

  datatype Operation =
    | DoRequest(operation: string, params: Json)
    | DoNotify(operation: string, params: Json)
    | DoWait

  function Perform(s: Session, deadline: nat, op: Operation): Session {
    match op
    case DoRequest(operation, params) => RequestStep(s, deadline, operation, params).0
    case DoNotify(operation, params) => NotifyStep(s, operation, params).0
    case DoWait => WaitStep(s).0
  }

  function RunAll(s: Session, deadline: nat, ops: seq<Operation>): Session
    decreases |ops|
  {
    if ops == [] then s else RunAll(Perform(s, deadline, ops[0]), deadline, ops[1..])
  }

  predicate IsRequest(frame: Json) {
    frame.Get("method").Some? && frame.Get("id").Some?
  }

  /** Request identifiers below `bound`, each larger than those before it. */
  ghost predicate IdsIncrease(sent: seq<Json>, bound: nat) {
    && (forall i :: 0 <= i < |sent| && IsRequest(sent[i]) ==>
          sent[i].fields["id"].Int? && sent[i].fields["id"].integer < bound)
    && (forall i, j :: 0 <= i < j < |sent| && IsRequest(sent[i]) && IsRequest(sent[j]) ==>
          sent[i].fields["id"].integer < sent[j].fields["id"].integer)
  }

  lemma RepliesKeepIds(before: seq<Json>, after: seq<Json>, bound: nat)
    requires before <= after && IdsIncrease(before, bound)
    requires forall k :: |before| <= k < |after| ==> !IsRequest(after[k])
    ensures IdsIncrease(after, bound)
  {
    assert forall k :: 0 <= k < |before| ==> after[k] == before[k];
  }

  lemma RequestKeepsIds(s: Session, deadline: nat, operation: string, params: Json)
    requires IdsIncrease(s.link.sent, s.nextId)
    ensures var s' := RequestStep(s, deadline, operation, params).0;
      IdsIncrease(s'.link.sent, s'.nextId)
  {
    var s' := RequestStep(s, deadline, operation, params).0;
    RequestWritesOnce(s, deadline, operation, params);
    if s'.link.sent != s.link.sent {
      var first := s.link.sent + [FrameOf(s, deadline, operation, params)];
      assert s'.link.sent[..|first|] == first;
      assert IdsIncrease(first, s.nextId + 1);
      RepliesKeepIds(first, s'.link.sent, s.nextId + 1);
    }
  }

  lemma OperationKeepsIds(s: Session, deadline: nat, op: Operation)
    requires IdsIncrease(s.link.sent, s.nextId)
    ensures var s' := Perform(s, deadline, op); IdsIncrease(s'.link.sent, s'.nextId)
  {
    match op
    case DoRequest(operation, params) => RequestKeepsIds(s, deadline, operation, params);
    case DoNotify(_, _) => RepliesKeepIds(s.link.sent, Perform(s, deadline, op).link.sent, s.nextId);
    case DoWait =>
      ReceiveOnlyReplies(s.link);
      RepliesKeepIds(s.link.sent, Perform(s, deadline, op).link.sent, s.nextId);
  }

  /** Over every run the identifiers of the requests written strictly increase. */
  lemma {:induction false} IdsAlwaysIncrease(s: Session, deadline: nat, ops: seq<Operation>)
    requires IdsIncrease(s.link.sent, s.nextId)
    ensures var s' := RunAll(s, deadline, ops); IdsIncrease(s'.link.sent, s'.nextId)
    decreases |ops|
  {
    if ops != [] {
      OperationKeepsIds(s, deadline, ops[0]);
      IdsAlwaysIncrease(Perform(s, deadline, ops[0]), deadline, ops[1..]);
    }
  }

  /** Once closed, the client stays closed, writes nothing and reads nothing. */
  lemma {:induction false} ClosedForGood(s: Session, deadline: nat, ops: seq<Operation>)
    requires !s.open
    ensures !RunAll(s, deadline, ops).open && RunAll(s, deadline, ops).link == s.link
    decreases |ops|
  {
    if ops != [] {
      ClosedForGood(Perform(s, deadline, ops[0]), deadline, ops[1..]);
    }
  }

  /** An exchange that does not complete retires the connection: afterwards
      nothing is ever written, so a late answer cannot be taken for another. */
  lemma LostIsFinal(s: Session, deadline: nat, operation: string, params: Json, ops: seq<Operation>)
    requires RequestStep(s, deadline, operation, params).1.Lost?
    ensures var s' := RequestStep(s, deadline, operation, params).0;
      RunAll(s', deadline, ops).link == s'.link
  {
    RequestWritesOnce(s, deadline, operation, params);
    ClosedForGood(RequestStep(s, deadline, operation, params).0, deadline, ops);
  }
}
