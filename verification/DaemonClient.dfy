/** Control requests to the daemon: how often a request may be written, and how
    long a freshly launched daemon is waited for. */
module DaemonClient {
  import opened Wrappers

  // ---------------------------------------------------------------------
  // Control requests
  // ---------------------------------------------------------------------

  datatype Response = Response(ok: bool, error: Option<string>, data: Option<string>)

  /** What becomes of one exchange on an open connection. A failed write or a
      lost answer says nothing about whether the daemon acted. */
  datatype Exchange =
    | Responded(response: Response)
    | Malformed
    | EndOfFile       // the connection closed cleanly without a byte
    | WriteFailed
    | ReadFailed
    | NeverCompletes

  datatype Connect = Connected(exchange: Exchange) | Absent | Busy | Denied | Refused

  datatype ControlError =
    | ConnectFailed
    | InvalidResponse
    | ExchangeFailed
    | Unconfirmed        // closed without confirming the operation
    | DeadlineExceeded

  /** The daemon endpoint: its future behaviour and a count of the exchanges
      begun, that is, of the times the request was written. */
  class Endpoint {
    var connects: seq<Connect>
    var written: nat

    constructor (connects: seq<Connect>)
      ensures this.connects == connects && written == 0
    {
      this.connects := connects;
      this.written := 0;
    }

    /** The next connection attempt; `None` if it never completes. */
    method Attempt() returns (outcome: Option<Connect>)
      modifies `connects
      ensures outcome == if old(connects) == [] then None else Some(old(connects)[0])
      ensures connects == if old(connects) == [] then [] else old(connects)[1..]
    {
      if connects == [] {
        return None;
      }
      outcome := Some(connects[0]);
      connects := connects[1..];
    }

    /** Writes the request and reads one line. */
    method Begin(exchange: Exchange) returns (reply: Result<Option<Response>, ControlError>)
      modifies `written
      ensures written == old(written) + 1
      ensures reply == Reply(exchange)
    {
      written := written + 1;
      reply := Reply(exchange);
    }
  }

  function Reply(exchange: Exchange): Result<Option<Response>, ControlError> {
    match exchange
    case Responded(response) => Ok(Some(response))
    case EndOfFile => Ok(None)
    case Malformed => Err(InvalidResponse)
    case WriteFailed => Err(ExchangeFailed)
    case ReadFailed => Err(ExchangeFailed)
    case NeverCompletes => Err(DeadlineExceeded)
  }

  /** Asks a daemon that already runs; never launches one and never repeats an
      operation whose outcome is unknown. */
  method ExistingRequest(endpoint: Endpoint) returns (result: Result<Option<Response>, ControlError>)
    modifies endpoint
    // The first attempt that is not turned away as busy decides.
    ensures endpoint.written <= old(endpoint.written) + 1
    ensures endpoint.written == old(endpoint.written) + 1 <==>
      Settled(old(endpoint.connects)).Some? && Settled(old(endpoint.connects)).value.Connected?
    ensures result == match Settled(old(endpoint.connects))
      case None => Err(DeadlineExceeded)
      case Some(Absent) => Ok(None)
      case Some(Connected(Responded(response))) => Ok(Some(response))
      case Some(Connected(EndOfFile)) => Err(Unconfirmed)
      case Some(Connected(Malformed)) => Err(InvalidResponse)
      case Some(Connected(NeverCompletes)) => Err(DeadlineExceeded)
      case Some(Connected(_)) => Err(ExchangeFailed)
      case Some(_) => Err(ConnectFailed)
  {
    while true
      invariant endpoint.written == old(endpoint.written)
      invariant Settled(endpoint.connects) == Settled(old(endpoint.connects))
      decreases |endpoint.connects|
    {
      var outcome := endpoint.Attempt();
      match outcome
      case None => return Err(DeadlineExceeded);
      case Some(Absent) => return Ok(None);
      case Some(Busy) =>
      case Some(Connected(exchange)) =>
        var reply := endpoint.Begin(exchange);
        return if reply == Ok(None) then Err(Unconfirmed) else reply;
      case Some(_) => return Err(ConnectFailed);
    }
  }

  /** The first attempt that is not answered with busy. */
  function Settled(connects: seq<Connect>): Option<Connect> {
    if connects == [] then None
    else if connects[0].Busy? then Settled(connects[1..])
    else Some(connects[0])
  }

  /** An attempt settles the matter exactly if it is not answered with busy and all
      before it are. */
  lemma {:induction false} SettledIsFirst(connects: seq<Connect>)
    ensures Settled(connects).None? <==> forall i :: 0 <= i < |connects| ==> connects[i] == Busy
    ensures Settled(connects).Some? ==>
      exists k :: 0 <= k < |connects| && Settled(connects) == Some(connects[k]) && connects[k] != Busy
        && forall i :: 0 <= i < k ==> connects[i] == Busy
  {
    if connects != [] && connects[0].Busy? {
      SettledIsFirst(connects[1..]);
      if Settled(connects).Some? {
        var k :| 0 <= k < |connects[1..]| && Settled(connects) == Some(connects[1..][k])
          && connects[1..][k] != Busy && forall i :: 0 <= i < k ==> connects[1..][i] == Busy;
        assert forall i :: 0 < i < k + 1 ==> connects[i] == connects[1..][i - 1];
        assert Settled(connects) == Some(connects[k + 1]);
      }
    }
  }

  /** Asks a daemon that may have to be launched; a connection that closes
      without a byte is tried once more. Here nothing but the caller ends an
      exchange that never completes. */
  method RequestWithRetry(endpoint: Endpoint) returns (result: Result<Response, ControlError>)
    modifies endpoint
    ensures endpoint.written <= old(endpoint.written) + 2
    // A second writing follows only a first that closed without a byte.
    ensures endpoint.written == old(endpoint.written) + 2 <==>
      EndedEmpty(old(endpoint.connects)) && Reaches(old(endpoint.connects), 1)
    ensures endpoint.written == old(endpoint.written) <==> !Reaches(old(endpoint.connects), 0)
    // The first exchange decides, or the second if the first ended empty.
    ensures
      var connects := old(endpoint.connects);
      var last := if EndedEmpty(connects) then 1 else 0;
      result ==
        if !Reaches(connects, last) then Err(ConnectFailed)
        else match connects[last].exchange
          case Responded(response) => Ok(response)
          case EndOfFile => Err(Unconfirmed)
          case Malformed => Err(InvalidResponse)
          case NeverCompletes => Err(DeadlineExceeded)
          case _ => Err(ExchangeFailed)
  {
    var first := endpoint.Attempt();
    if first.None? || !first.value.Connected? {
      return Err(ConnectFailed);
    }
    var reply := endpoint.Begin(first.value.exchange);
    if reply.Err? {
      return Err(reply.error);
    }
    if reply.value.Some? {
      return Ok(reply.value.value);
    }
    var second := endpoint.Attempt();
    if second.None? || !second.value.Connected? {
      return Err(ConnectFailed);
    }
    reply := endpoint.Begin(second.value.exchange);
    if reply.Err? {
      return Err(reply.error);
    }
    return if reply.value.Some? then Ok(reply.value.value) else Err(Unconfirmed);
  }

  predicate Reaches(connects: seq<Connect>, i: nat) {
    i < |connects| && connects[i].Connected?
  }

  predicate EndedEmpty(connects: seq<Connect>) {
    Reaches(connects, 0) && connects[0].exchange.EndOfFile?
  }

  // ---------------------------------------------------------------------
  // Waiting for a launched daemon
  // ---------------------------------------------------------------------

  const MILLISECOND := 1_000_000
  const BUDGET := 3_000 * MILLISECOND
  const FIRST_BACKOFF := 5 * MILLISECOND
  const MAX_BACKOFF := 100 * MILLISECOND

  datatype Outcome = Ready | PermissionDenied | NotYet

  /** One connection attempt: how long it takes, what comes of it, and how late
      the timer after it fires. Timers never fire early. */
  datatype Attempt = Attempt(duration: nat, outcome: Outcome, late: nat)

  datatype Launch = Reached | NotPermitted | Unreachable

  /** The pause after the attempt number `k`, counted from zero. */
  function Backoff(k: nat): nat {
    if k == 0 then FIRST_BACKOFF
    else if 2 * Backoff(k - 1) > MAX_BACKOFF then MAX_BACKOFF
    else 2 * Backoff(k - 1)
  }

  function TotalBackoff(k: nat): nat {
    if k == 0 then 0 else TotalBackoff(k - 1) + Backoff(k - 1)
  }

  /** From the sixth pause on each lasts 100 ms, so 34 pauses exceed the budget
      and 33 do not. */
  lemma {:induction false} BackoffAddsUp(k: nat)
    requires k >= 5
    ensures Backoff(k) == MAX_BACKOFF
    ensures TotalBackoff(k) == 155 * MILLISECOND + (k - 5) * MAX_BACKOFF
  {
    if k == 5 {
      assert Backoff(1) == 10 * MILLISECOND && Backoff(2) == 20 * MILLISECOND;
      assert Backoff(3) == 40 * MILLISECOND && Backoff(4) == 80 * MILLISECOND;
      assert TotalBackoff(2) == 15 * MILLISECOND && TotalBackoff(4) == 75 * MILLISECOND;
    } else {
      BackoffAddsUp(k - 1);
    }
  }

  lemma {:induction false} BackoffIsBounded(k: nat)
    ensures FIRST_BACKOFF <= Backoff(k) <= MAX_BACKOFF
  {
    if k > 0 {
      BackoffIsBounded(k - 1);
    }
  }

  function NextBackoff(backoff: nat): nat {
    if backoff * 2 < MAX_BACKOFF then backoff * 2 else MAX_BACKOFF
  }

  /** One more pause. While the pauses so far leave time in the budget, there were
      fewer than 34. */
  lemma OneMorePause(k: nat)
    ensures Backoff(k + 1) == NextBackoff(Backoff(k))
    ensures TotalBackoff(k + 1) == TotalBackoff(k) + Backoff(k)
    ensures TotalBackoff(k) < BUDGET ==> k < 34
  {
    if k >= 5 {
      BackoffAddsUp(k);
    }
  }

  /** When attempt number `k` begins, if all before it are turned away in time: a
      pause after the one before, but no longer than the budget, and as late as its
      timer is. */
  function Begins(script: seq<Attempt>, start: nat, k: nat): nat
    requires k <= |script|
  {
    if k == 0 then start
    else
      var ended := Begins(script, start, k - 1) + script[k - 1].duration;
      var wake := ended + Backoff(k - 1);
      (if wake < start + 3_000_000_000 then wake else start + 3_000_000_000) + script[k - 1].late
  }

  /** Attempt number `k` completes within the budget. */
  predicate InTime(script: seq<Attempt>, start: nat, k: nat) {
    k < |script| && Begins(script, start, k) + script[k].duration <= start + 3_000_000_000
  }

  /** Attempt number `k` completes within the budget and is turned away. */
  predicate TurnedAway(script: seq<Attempt>, start: nat, k: nat) {
    InTime(script, start, k) && script[k].outcome.NotYet?
  }

  /** The first `count` attempts were turned away, and the next would begin at `now`. */
  ghost predicate Waited(script: seq<Attempt>, start: nat, count: nat, backoff: nat, now: nat) {
    && count <= |script| && count <= 34 && backoff == Backoff(count)
    && (forall i :: 0 <= i < count ==> TurnedAway(script, start, i) && Begins(script, start, i) < start + BUDGET)
    && now == Begins(script, start, count)
    && (now >= start + BUDGET || now >= start + TotalBackoff(count))
  }

  lemma WaitOnce(script: seq<Attempt>, start: nat, count: nat, backoff: nat, now: nat)
    requires Waited(script, start, count, backoff, now) && now < start + BUDGET
    requires TurnedAway(script, start, count)
    ensures Waited(script, start, count + 1, NextBackoff(backoff), Begins(script, start, count + 1))
  {
    OneMorePause(count);
  }

  lemma TimeLeft(script: seq<Attempt>, start: nat, count: nat, backoff: nat, now: nat)
    requires Waited(script, start, count, backoff, now) && now < start + BUDGET
    ensures count < 34
  {
    OneMorePause(count);
  }

  /** Connects until the endpoint answers or the budget is spent. `script` is the
      future of the endpoint; an attempt beyond its end never completes, and
      `lateness` bounds how late any timer fires, this one's `lastLate` included. */
  method RetryConnect(script: seq<Attempt>, start: nat, lastLate: nat, ghost lateness: nat)
    returns (launch: Launch, attempts: nat, finished: nat)
    requires lastLate <= lateness && forall i :: 0 <= i < |script| ==> script[i].late <= lateness
    ensures 0 < attempts <= 34 && attempts - 1 <= |script|
    ensures finished <= start + 3_000_000_000 + lateness
    // Each attempt begins within the budget, and all but the last are turned away.
    ensures forall i :: 0 <= i < attempts ==> Begins(script, start, i) < start + 3_000_000_000
    ensures forall i :: 0 <= i < attempts - 1 ==> TurnedAway(script, start, i)
    // The last one decides, if it completes in time; if it is turned away as well,
    // the budget is spent before another could begin.
    ensures
      var last := attempts - 1;
      if !InTime(script, start, last) then launch == Unreachable && finished == start + 3_000_000_000 + lastLate
      else match script[last].outcome
        case Ready => launch == Reached && finished == Begins(script, start, last) + script[last].duration
        case PermissionDenied =>
          launch == NotPermitted && finished == Begins(script, start, last) + script[last].duration
        case NotYet =>
          launch == Unreachable && finished == Begins(script, start, attempts) >= start + 3_000_000_000
  {
    var deadline := start + BUDGET;
    var now: nat, backoff: nat := start, FIRST_BACKOFF;
    attempts := 0;
    while now < deadline
      invariant Waited(script, start, attempts, backoff, now)
      invariant now <= deadline + lateness
      decreases |script| - attempts
    {
      TimeLeft(script, start, attempts, backoff, now);
      if attempts == |script| || now + script[attempts].duration > deadline {
        return Unreachable, attempts + 1, deadline + lastLate;
      }
      var attempt := script[attempts];
      var ended := now + attempt.duration;
      match attempt.outcome {
        case Ready => return Reached, attempts + 1, ended;
        case PermissionDenied => return NotPermitted, attempts + 1, ended;
        case NotYet =>
      }
      WaitOnce(script, start, attempts, backoff, now);
      var wake := if ended + backoff < deadline then ended + backoff else deadline;
      now := wake + attempt.late;
      backoff := NextBackoff(backoff);
      attempts := attempts + 1;
    }
    return Unreachable, attempts, now;
  }
}
