/** Receiving over one client connection: server callbacks are answered on the
    way, notifications are told apart from responses, and a response counts only
    for the request that is outstanding. */
module McpWire {
  import opened Wrappers
  import opened Json

  const UNSUPPORTED_METHOD := -32601

  /** What one read yields: a parsed frame, a failure (input error, oversized,
      truncated or malformed frame), the end of the stream, or nothing before the
      deadline or cancellation. */
  datatype ReadOutcome = Frame(message: Json) | Failure | Ended | Expired

  /** A write either succeeds or fails, in which case the peer may have received
      the frame nevertheless. */
  datatype WriteOutcome = Sent | Unsure(delivered: bool)

  /** The future of a connection, arbitrary, and the frames its peer received. */
  datatype Link = Link(inbox: seq<ReadOutcome>, fates: seq<WriteOutcome>, sent: seq<Json>)

  function Read(link: Link): (ReadOutcome, Link) {
    if link.inbox == [] then (Expired, link)
    else (link.inbox[0], link.(inbox := link.inbox[1..]))
  }

  function Write(link: Link, message: Json): (bool, Link) {
    if link.fates == [] then (false, link)
    else
      var outcome := link.fates[0];
      var delivered := outcome.Sent? || outcome.delivered;
      (outcome.Sent?,
       link.(fates := link.fates[1..], sent := if delivered then link.sent + [message] else link.sent))
  }

  class Stream {
    var link: Link

    constructor (link: Link)
      ensures this.link == link
    {
      this.link := link;
    }

    method ReadFrame() returns (outcome: ReadOutcome)
      modifies this
      ensures outcome == Read(old(link)).0 && link == Read(old(link)).1
    {
      if link.inbox == [] {
        return Expired;
      }
      outcome := link.inbox[0];
      link := link.(inbox := link.inbox[1..]);
    }

    method WriteFrame(message: Json) returns (ok: bool)
      modifies this
      ensures ok == Write(old(link), message).0 && link == Write(old(link), message).1
    {
      if link.fates == [] {
        return false;
      }
      var outcome := link.fates[0];
      link := link.(fates := link.fates[1..]);
      if outcome.Sent? || outcome.delivered {
        link := link.(sent := link.sent + [message]);
      }
      ok := outcome.Sent?;
    }
  }

  // ---------------------------------------------------------------------
  // Classifying a frame
  // ---------------------------------------------------------------------

  predicate ValidId(id: Json) {
    id.Str? || (id.Int? && -0x8000_0000_0000_0000 <= id.integer < 0x1_0000_0000_0000_0000)
  }

  datatype Kind = Invalid | Callback(reply: Json) | Notification | Response

  function ReplyTo(id: Json, method_: string): Json {
    if method_ == "ping" then
      Obj(map["jsonrpc" := Str("2.0"), "id" := id, "result" := EMPTY_OBJECT])
    else
      Obj(map["jsonrpc" := Str("2.0"), "id" := id, "error" :=
        Obj(map["code" := Int(UNSUPPORTED_METHOD), "message" := Str("Unsupported client method: " + method_)])])
  }

  function Classify(message: Json): Kind {
    var methodMember := message.Get("method");
    var params := message.Get("params");
    var id := message.Get("id");
    if message.Get("jsonrpc") != Some(Str("2.0")) then Invalid
    else if methodMember.None? then Response
    else if !methodMember.value.Str? then Invalid
    else if message.Get("result").Some? || message.Get("error").Some? then Invalid
    else if params.Some? && !params.value.Obj? && !params.value.Arr? then Invalid
    else if id.None? || id.value.Null? then Notification
    else if !ValidId(id.value) then Invalid
    else Callback(ReplyTo(id.value, methodMember.value.text))
  }

  // ---------------------------------------------------------------------
  // Frames by their members
  // ---------------------------------------------------------------------

  predicate VersionTwo(message: Json) {
    message.Get("jsonrpc") == Some(Str("2.0"))
  }

  /** A request or notification of the server: a method, parameters that are an
      object or an array if there are any, and no member of a response. */
  predicate IsCall(message: Json) {
    && VersionTwo(message)
    && message.Get("method").Some? && message.Get("method").value.Str?
    && message.Get("result").None? && message.Get("error").None?
    && match message.Get("params")
       case None => true
       case Some(Obj(_)) => true
       case Some(Arr(_)) => true
       case Some(_) => false
  }

  predicate IsNotification(message: Json) {
    IsCall(message) && message.Get("id") in {None, Some(Null)}
  }

  /** A request of the server: the identifier is text or a 64-bit integer. */
  predicate IsCallback(message: Json) {
    IsCall(message) &&
    match message.Get("id")
    case Some(Str(_)) => true
    case Some(Int(i)) => -0x8000_0000_0000_0000 <= i < 0x1_0000_0000_0000_0000
    case _ => false
  }

  predicate IsResponse(message: Json) {
    VersionTwo(message) && message.Get("method").None?
  }

  /** The reply answers the callback: it bears its identifier, and an empty result
      for a ping or else the error for an unknown method, never both. */
  predicate RepliesTo(callback: Json, reply: Json) {
    && VersionTwo(reply) && reply.Get("id") == callback.Get("id") && reply.Get("method").None?
    && if callback.Get("method") == Some(Str("ping")) then
         reply.Get("result") == Some(Obj(map[])) && reply.Get("error").None?
       else
         reply.Get("result").None? && reply.Get("error").Some? &&
         var error := reply.Get("error").value;
         error.Get("code") == Some(Int(-32601)) && error.Get("message").Some? && error.Get("message").value.Str?
  }

  /** A frame is one of these four, or unusable, as its members say. */
  lemma ClassifiedByMembers(message: Json)
    ensures Classify(message).Callback? <==> IsCallback(message)
    ensures Classify(message).Callback? ==> RepliesTo(message, Classify(message).reply)
    ensures Classify(message).Notification? <==> IsNotification(message)
    ensures Classify(message).Response? <==> IsResponse(message)
  {
  }

  // ---------------------------------------------------------------------
  // Receiving
  // ---------------------------------------------------------------------

  datatype Incoming = Note(message: Json) | Answer(message: Json) | Closed | Unusable

  function Receive(link: Link): (Incoming, Link)
    decreases |link.inbox|
  {
    var (outcome, next) := Read(link);
    match outcome
    case Ended => (Closed, next)
    case Failure => (Unusable, next)
    case Expired => (Unusable, next)
    case Frame(message) =>
      match Classify(message)
      case Invalid => (Unusable, next)
      case Notification => (Note(message), next)
      case Response => (Answer(message), next)
      case Callback(reply) =>
        var (ok, after) := Write(next, reply);
        if ok then Receive(after) else (Unusable, after)
  }

  method ReceiveMessage(stream: Stream) returns (incoming: Incoming)
    modifies stream
    ensures incoming == Receive(old(stream.link)).0 && stream.link == Receive(old(stream.link)).1
  {
    while true
      invariant Receive(stream.link) == Receive(old(stream.link))
      decreases |stream.link.inbox|
    {
      var outcome := stream.ReadFrame();
      match outcome
      case Ended => return Closed;
      case Failure => return Unusable;
      case Expired => return Unusable;
      case Frame(message) =>
        match Classify(message)
        case Invalid => return Unusable;
        case Notification => return Note(message);
        case Response => return Answer(message);
        case Callback(reply) =>
          var ok := stream.WriteFrame(reply);
          if !ok {
            return Unusable;
          }
    }
  }

  /** What a response decides: a result, or a well-formed rejection. */
  datatype Outcome = Value(result: Json) | Rejected(code: int, reason: string, data: Option<Json>)

  /** The outcome a response decides for the request `id`; `None` when it belongs
      to no such request or is not exactly one of result and error. */
  function Decided(message: Json, id: nat): Option<Outcome> {
    var result, error := message.Get("result"), message.Get("error");
    if message.Get("id") != Some(Int(id)) then None
    else if result.Some? && error.None? then Some(Value(result.value))
    else if result.None? && error.Some? then
      var code, reason := error.value.Get("code"), error.value.Get("message");
      if code.Some? && code.value.Int? && -0x8000_0000_0000_0000 <= code.value.integer < 0x8000_0000_0000_0000
         && reason.Some? && reason.value.Str?
      then Some(Rejected(code.value.integer, reason.value.text, error.value.Get("data")))
      else None
    else None
  }

  /** The frame answers the request `id` with this outcome: it is a response with
      that identifier, and has a result and no error, or an error with an integer
      code and a message and no result. */
  predicate Gives(message: Json, id: nat, outcome: Outcome) {
    && IsResponse(message) && message.Get("id") == Some(Int(id))
    && match outcome
       case Value(result) => message.Get("result") == Some(result) && message.Get("error").None?
       case Rejected(code, reason, data) =>
         && message.Get("result").None? && message.Get("error").Some?
         && -0x8000_0000_0000_0000 <= code < 0x8000_0000_0000_0000
         && var error := message.Get("error").value;
            && error.Get("code") == Some(Int(code)) && error.Get("message") == Some(Str(reason))
            && error.Get("data") == data
  }

  lemma DecidedByMembers(message: Json, id: nat, outcome: Outcome)
    requires IsResponse(message)
    ensures Decided(message, id) == Some(outcome) <==> Gives(message, id, outcome)
  {
  }

  function Await(link: Link, id: nat): (Option<Outcome>, Link)
    decreases |link.inbox|
  {
    var (incoming, next) := Receive(link);
    match incoming
    case Answer(message) => (Decided(message, id), next)
    case Note(_) =>
      ReceiveConsumes(link);
      Await(next, id)
    case _ => (None, next)
  }

  lemma {:induction false} ReceiveConsumes(link: Link)
    ensures |Receive(link).1.inbox| <= |link.inbox|
    ensures Receive(link).0.Note? || Receive(link).0.Answer? ==> |Receive(link).1.inbox| < |link.inbox|
    decreases |link.inbox|
  {
    var (outcome, next) := Read(link);
    if outcome.Frame? && Classify(outcome.message).Callback? {
      ReceiveConsumes(Write(next, Classify(outcome.message).reply).1);
    }
  }

  method ReceiveResult(stream: Stream, id: nat) returns (outcome: Option<Outcome>)
    modifies stream
    ensures outcome == Await(old(stream.link), id).0 && stream.link == Await(old(stream.link), id).1
  {
    while true
      invariant Await(stream.link, id) == Await(old(stream.link), id)
      decreases |stream.link.inbox|
    {
      ReceiveConsumes(stream.link);
      var incoming := ReceiveMessage(stream);
      match incoming
      case Answer(message) => return Decided(message, id);
      case Note(_) =>
      case _ => return None;
    }
  }

  // ---------------------------------------------------------------------
  // What receiving does to the connection
  // ---------------------------------------------------------------------

  /** The replies owed for a stretch of reads, in order. */
  function Replies(received: seq<ReadOutcome>): seq<Json> {
    if received == [] then []
    else
      (if received[0].Frame? && Classify(received[0].message).Callback?
       then [Classify(received[0].message).reply] else [])
      + Replies(received[1..])
  }

  /** Reads that do not end the wait for a response. */
  predicate Passed(outcome: ReadOutcome) {
    outcome.Frame? && (IsCallback(outcome.message) || IsNotification(outcome.message))
  }

  /** The callbacks among the reads, in order. */
  function Callbacks(received: seq<ReadOutcome>): seq<Json> {
    if received == [] then []
    else
      (if received[0].Frame? && IsCallback(received[0].message) then [received[0].message] else [])
      + Callbacks(received[1..])
  }

  /** One reply to each callback, in order. */
  ghost predicate AnswersInOrder(callbacks: seq<Json>, replies: seq<Json>) {
    |replies| == |callbacks| && forall i :: 0 <= i < |callbacks| ==> RepliesTo(callbacks[i], replies[i])
  }

  lemma {:induction false} RepliesAnswer(received: seq<ReadOutcome>)
    ensures AnswersInOrder(Callbacks(received), Replies(received))
  {
    if received != [] {
      RepliesAnswer(received[1..]);
      if received[0].Frame? {
        ClassifiedByMembers(received[0].message);
      }
    }
  }

  predicate IsReply(frame: Json) {
    frame.Get("method") == None
  }

  /** Receiving only ever adds replies to callbacks. */
  lemma {:induction false} ReceiveOnlyReplies(link: Link)
    ensures var link' := Receive(link).1;
      && link.sent <= link'.sent
      && forall k :: |link.sent| <= k < |link'.sent| ==> IsReply(link'.sent[k])
    decreases |link.inbox|
  {
    var (outcome, next) := Read(link);
    if outcome.Frame? && Classify(outcome.message).Callback? {
      var reply := Classify(outcome.message).reply;
      assert IsReply(reply);
      ReceiveOnlyReplies(Write(next, reply).1);
    }
  }

  lemma {:induction false} AwaitOnlyReplies(link: Link, id: nat)
    ensures var link' := Await(link, id).1;
      && link.sent <= link'.sent
      && forall k :: |link.sent| <= k < |link'.sent| ==> IsReply(link'.sent[k])
    decreases |link.inbox|
  {
    ReceiveOnlyReplies(link);
    ReceiveConsumes(link);
    if Receive(link).0.Note? {
      AwaitOnlyReplies(Receive(link).1, id);
    }
  }

  /** What a received message was preceded by: callbacks, all answered in order. */
  ghost predicate Delivered(link: Link, link': Link, message: Json, at: nat) {
    && at < |link.inbox|
    && link.inbox[at] == Frame(message)
    && link'.inbox == link.inbox[at + 1..]
    && (forall k :: 0 <= k < at ==> Passed(link.inbox[k]))
    && link'.sent == link.sent + Replies(link.inbox[..at])
  }

  predicate OnlyCallbacks(link: Link, at: nat)
    requires at <= |link.inbox|
  {
    forall k :: 0 <= k < at ==> link.inbox[k].Frame? && IsCallback(link.inbox[k].message)
  }

  lemma ExtendDelivered(link: Link, next: Link, link': Link, message: Json, at: nat)
    requires link.inbox != [] && next.inbox == link.inbox[1..] && Passed(link.inbox[0])
    requires next.sent == link.sent + Replies(link.inbox[..1])
    requires Delivered(next, link', message, at)
    ensures Delivered(link, link', message, at + 1)
  {
    assert link.inbox[..at + 1] == [link.inbox[0]] + next.inbox[..at];
    assert link.inbox[..at + 1][1..] == next.inbox[..at];
    assert link.inbox[..1][1..] == [];
    forall k | 0 <= k < at + 1
      ensures Passed(link.inbox[k])
    {
      if k > 0 { assert link.inbox[k] == next.inbox[k - 1]; }
    }
  }

  /** The message is the first of the link that is no callback. */
  ghost predicate DeliveredFirst(link: Link, link': Link, message: Json, at: nat) {
    Delivered(link, link', message, at) && OnlyCallbacks(link, at)
  }

  /** What `Receive` hands over, if anything, was delivered by the link. */
  ghost predicate HandsOver(link: Link) {
    var (incoming, link') := Receive(link);
    && (incoming.Answer? ==>
          IsResponse(incoming.message) && exists at :: DeliveredFirst(link, link', incoming.message, at))
    && (incoming.Note? ==>
          IsNotification(incoming.message) && exists at :: DeliveredFirst(link, link', incoming.message, at))
  }

  lemma DeliveredAfterCallback(link: Link, after: Link, link': Link, reply: Json, message: Json, at: nat)
    requires link.inbox != [] && link.inbox[0].Frame? && IsCallback(link.inbox[0].message)
    requires after.inbox == link.inbox[1..] && after.sent == link.sent + [reply]
    requires Classify(link.inbox[0].message) == Callback(reply)
    requires DeliveredFirst(after, link', message, at)
    ensures DeliveredFirst(link, link', message, at + 1)
  {
    assert link.inbox[..1] == [link.inbox[0]];
    assert Replies(link.inbox[..1]) == [reply];
    ExtendDelivered(link, after, link', message, at);
    assert forall k :: 0 < k < at + 1 ==> link.inbox[k] == after.inbox[k - 1];
  }

  lemma CallbackHandsOver(link: Link)
    requires link.inbox != [] && link.inbox[0].Frame? && Classify(link.inbox[0].message).Callback?
    requires var (ok, after) := Write(Read(link).1, Classify(link.inbox[0].message).reply);
      ok && HandsOver(after)
    ensures HandsOver(link)
  {
    var reply := Classify(link.inbox[0].message).reply;
    var after := Write(Read(link).1, reply).1;
    var (incoming, link') := Receive(after);
    ClassifiedByMembers(link.inbox[0].message);
    assert Receive(link) == (incoming, link');
    if incoming.Answer? || incoming.Note? {
      var at: nat :| DeliveredFirst(after, link', incoming.message, at);
      DeliveredAfterCallback(link, after, link', reply, incoming.message, at);
    }
  }

  lemma {:induction false} ReceiveDelivers(link: Link)
    ensures HandsOver(link)
    decreases |link.inbox|
  {
    var (outcome, next) := Read(link);
    if outcome.Frame? {
      ClassifiedByMembers(outcome.message);
      if Classify(outcome.message).Callback? {
        var (ok, after) := Write(next, Classify(outcome.message).reply);
        if ok {
          ReceiveDelivers(after);
          CallbackHandsOver(link);
        }
      } else if !Classify(outcome.message).Invalid? {
        assert link.inbox[..0] == [];
        assert DeliveredFirst(link, next, outcome.message, 0);
      }
    }
  }

  lemma DeliveredAfterNote(link: Link, next: Link, link': Link, note: Json, message: Json, at: nat, later: nat)
    requires Delivered(link, next, note, at) && IsNotification(note)
    requires Delivered(next, link', message, later)
    ensures Delivered(link, link', message, at + 1 + later)
  {
    var total := at + 1 + later;
    ClassifiedByMembers(note);
    assert link.inbox[..total] == link.inbox[..at] + ([Frame(note)] + next.inbox[..later]);
    RepliesConcat(link.inbox[..at], [Frame(note)] + next.inbox[..later]);
    assert ([Frame(note)] + next.inbox[..later])[1..] == next.inbox[..later];
    forall k | 0 <= k < total
      ensures Passed(link.inbox[k])
    {
      if k > at { assert link.inbox[k] == next.inbox[k - at - 1]; }
    }
  }

  lemma {:induction false} RepliesConcat(left: seq<ReadOutcome>, right: seq<ReadOutcome>)
    ensures Replies(left + right) == Replies(left) + Replies(right)
  {
    if left == [] {
      assert left + right == right;
    } else {
      assert (left + right)[1..] == left[1..] + right;
      RepliesConcat(left[1..], right);
    }
  }

  /** A decided outcome comes from one response frame bearing the request's id
      and no method; everything before it was a notification or a callback, and
      every callback was answered once, in order, whatever its id. */
  lemma {:induction false} AwaitDelivers(link: Link, id: nat)
    requires Await(link, id).0.Some?
    ensures exists message, at ::
      && Delivered(link, Await(link, id).1, message, at)
      && Gives(message, id, Await(link, id).0.value)
    ensures |Await(link, id).1.inbox| < |link.inbox|
    decreases |link.inbox|
  {
    var (incoming, next) := Receive(link);
    ReceiveDelivers(link);
    ReceiveConsumes(link);
    if incoming.Note? {
      var note := incoming.message;
      var at: nat :| DeliveredFirst(link, next, note, at);
      AwaitDelivers(next, id);
      var message, later :|
        && Delivered(next, Await(next, id).1, message, later)
        && Gives(message, id, Await(next, id).0.value);
      DeliveredAfterNote(link, next, Await(next, id).1, note, message, at, later);
    } else {
      var at: nat :| DeliveredFirst(link, next, incoming.message, at);
      ClassifiedByMembers(incoming.message);
      DecidedByMembers(incoming.message, id, Await(link, id).0.value);
    }
  }

  lemma AwaitConsumes(link: Link, id: nat)
    ensures Await(link, id).0.Some? ==> |Await(link, id).1.inbox| < |link.inbox|
  {
    if Await(link, id).0.Some? {
      AwaitDelivers(link, id);
    }
  }

  // ---------------------------------------------------------------------
  // What is never missed
  // ---------------------------------------------------------------------

  /** The replies to the callbacks among the first `at` reads can be written. */
  ghost predicate CanReply(link: Link, at: nat)
    requires at <= |link.inbox|
  {
    var count := |Callbacks(link.inbox[..at])|;
    count <= |link.fates| && forall k :: 0 <= k < count ==> link.fates[k].Sent?
  }

  /** The link once its first frame has been read, and answered if it is a callback. */
  function AfterFirst(link: Link): Link
    requires link.inbox != [] && link.inbox[0].Frame?
  {
    var next := Read(link).1;
    match Classify(link.inbox[0].message)
    case Callback(reply) => Write(next, reply).1
    case _ => next
  }

  lemma FirstIsPassed(link: Link, at: nat)
    requires 0 < at <= |link.inbox| && Passed(link.inbox[0]) && CanReply(link, at)
    ensures AfterFirst(link).inbox == link.inbox[1..] && CanReply(AfterFirst(link), at - 1)
    ensures link.fates[|Callbacks(link.inbox[..at])|..]
      == AfterFirst(link).fates[|Callbacks(AfterFirst(link).inbox[..at - 1])|..]
    ensures IsCallback(link.inbox[0].message) ==> Receive(link) == Receive(AfterFirst(link))
    ensures !IsCallback(link.inbox[0].message) ==>
      Receive(link) == (Note(link.inbox[0].message), AfterFirst(link))
  {
    ClassifiedByMembers(link.inbox[0].message);
    assert link.inbox[..at][1..] == link.inbox[1..][..at - 1];
  }

  /** The first response that gives an outcome for the request is returned, whatever
      calls come before it. */
  lemma {:induction false} AwaitFinds(link: Link, id: nat, at: nat, outcome: Outcome)
    requires at < |link.inbox| && link.inbox[at].Frame? && Gives(link.inbox[at].message, id, outcome)
    requires forall k :: 0 <= k < at ==> Passed(link.inbox[k])
    requires CanReply(link, at)
    ensures Await(link, id).0 == Some(outcome) && Await(link, id).1.inbox == link.inbox[at + 1..]
    ensures Await(link, id).1.fates == link.fates[|Callbacks(link.inbox[..at])|..]
    decreases at
  {
    if at == 0 {
      ClassifiedByMembers(link.inbox[0].message);
      DecidedByMembers(link.inbox[0].message, id, outcome);
    } else {
      FirstIsPassed(link, at);
      AwaitFinds(AfterFirst(link), id, at - 1, outcome);
    }
  }

  /** The first notification or response is handed over, whatever callbacks come
      before it. */
  lemma {:induction false} ReceiveFinds(link: Link, at: nat)
    requires at < |link.inbox| && link.inbox[at].Frame?
    requires IsNotification(link.inbox[at].message) || IsResponse(link.inbox[at].message)
    requires forall k :: 0 <= k < at ==> link.inbox[k].Frame? && IsCallback(link.inbox[k].message)
    requires CanReply(link, at)
    ensures
      var message := link.inbox[at].message;
      Receive(link).0 == (if IsResponse(message) then Answer(message) else Note(message)) &&
      Receive(link).1.inbox == link.inbox[at + 1..]
    decreases at
  {
    ClassifiedByMembers(link.inbox[at].message);
    if at > 0 {
      FirstIsPassed(link, at);
      ReceiveFinds(AfterFirst(link), at - 1);
    }
  }
}
