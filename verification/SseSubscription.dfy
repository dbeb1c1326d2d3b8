/** One bridge subscription: a bounded queue of server-sent events, filled by
    the subscription task and by one listener per server, drained by the HTTP
    response body. Every await and every channel operation is one step. */
module SseSubscription {

  const MAX_QUEUED_EVENTS := 4

  datatype Frame = Acknowledgement | Invalidation(listener: nat) | Keepalive | Completion

  /** Where the subscription task stands. `Probed` is the point between the
      capacity test and the keepalive send; `Completing` waits for room for the
      completion frame while the listeners still run. */
  datatype Phase = Starting | Looping | Probed | Completing | Aborting | Finished

  /** One tool-list notification offered to the queue: how many frames the
      reader had taken then, how many had been queued just after, whether it was
      queued itself and whether the completion frame already was. */
  datatype Offer = Offer(taken: nat, queuedAfter: nat, queued: bool, completed: bool)

  /** `sent` is every frame ever queued; the reader has taken the first
      `taken` of them, so the queue holds the rest. */
  datatype State = State(
    phase: Phase,
    sent: seq<Frame>,
    taken: nat,
    open: bool,
    listening: bool,
    completed: bool,
    offers: seq<Offer>
  )

  function Queue(s: State): seq<Frame> {
    if s.taken <= |s.sent| then s.sent[s.taken..] else []
  }

  /** `Sender::capacity`: the room left in the queue. */
  function Capacity(s: State): int {
    MAX_QUEUED_EVENTS - |Queue(s)|
  }

  const INITIAL := State(Starting, [], 0, true, false, false, [])

  datatype Event =
    | Acknowledge(shutdown: bool)  // send the acknowledgement, then look at the shutdown flag
    | Tick                         // keepalive timer: test the capacity
    | SendKeepalive                // ... and, if it was more than one, try to send
    | Shutdown                     // the shutdown watch changed
    | SendCompletion
    | Oversized                    // the frame to send is over the size limit: send nothing
    | Break                        // receiver gone, or a listener failed
    | Abort                        // listeners are aborted and joined
    | Notify(listener: nat)        // a listener offers an invalidation
    | Take                         // the reader takes the oldest frame
    | Close                        // the reader goes away

  predicate Enabled(s: State, e: Event) {
    match e
    case Acknowledge(_) => s.phase == Starting && (s.open ==> Capacity(s) > 0)
    case Tick => s.phase == Looping
    case SendKeepalive => s.phase == Probed
    case Shutdown => s.phase == Looping
    case SendCompletion => s.phase == Completing && (s.open ==> Capacity(s) > 0)
    case Oversized => s.phase == Starting || s.phase == Completing
    case Break => s.phase == Looping
    case Abort => s.phase == Aborting
    case Notify(_) => s.listening
    case Take => s.open && Queue(s) != []
    case Close => s.open
  }

  function Push(s: State, frame: Frame): State {
    s.(sent := s.sent + [frame])
  }

  function Offered(s: State, listener: nat): State {
    var queued := Capacity(s) > 0;
    var s' := if queued then Push(s, Invalidation(listener)) else s;
    s'.(offers := s.offers + [Offer(s.taken, |s'.sent|, queued, s.completed)])
  }

  function After(s: State, e: Event): State {
    match e
    case Acknowledge(shutdown) =>
      if !s.open then s.(phase := Finished)
      else if shutdown then Push(s, Acknowledgement).(phase := Completing)
      else Push(s, Acknowledgement).(phase := Looping, listening := true)
    case Tick => if Capacity(s) > 1 then s.(phase := Probed) else s
    case SendKeepalive =>
      if !s.open then s.(phase := Aborting)
      else if Capacity(s) > 0 then Push(s, Keepalive).(phase := Looping)
      else s.(phase := Looping)
    case Shutdown => s.(phase := Completing)
    case SendCompletion =>
      if !s.open then s.(phase := Aborting)
      else Push(s, Completion).(phase := Aborting, completed := true)
    case Oversized => s.(phase := if s.phase == Starting then Finished else Aborting)
    case Break => s.(phase := Aborting)
    case Abort => s.(phase := Finished, listening := false)
    case Notify(listener) => if s.open then Offered(s, listener) else s
    case Take => s.(taken := s.taken + 1)
    case Close => s.(open := false)
  }

  /** Any interleaving is a sequence of events; one that is not enabled when its
      turn comes does nothing. */
  function Run(s: State, events: seq<Event>): State
    decreases |events|
  {
    if events == [] then s
    else Run(if Enabled(s, events[0]) then After(s, events[0]) else s, events[1..])
  }

  // ---------------------------------------------------------------------
  // The counting argument
  // ---------------------------------------------------------------------

  function Others(frames: seq<Frame>): nat {
    if frames == [] then 0
    else (if frames[0].Invalidation? then 0 else 1) + Others(frames[1..])
  }

  lemma {:induction false} OthersOfConcat(left: seq<Frame>, right: seq<Frame>)
    ensures Others(left + right) == Others(left) + Others(right)
  {
    if left == [] {
      assert left + right == right;
    } else {
      assert (left + right)[1..] == left[1..] + right;
      OthersOfConcat(left[1..], right);
    }
  }

  lemma {:induction false} OthersBounds(frames: seq<Frame>)
    ensures Others(frames) <= |frames|
    ensures Others(frames) < |frames| ==> exists i :: 0 <= i < |frames| && frames[i].Invalidation?
  {
    if frames != [] {
      OthersBounds(frames[1..]);
      if Others(frames) < |frames| && !frames[0].Invalidation? {
        var i :| 0 <= i < |frames[1..]| && frames[1..][i].Invalidation?;
        assert frames[i + 1].Invalidation?;
      }
    }
  }

  /** An offer is covered when an invalidation stands in the stream that the
      reader had not taken when the offer was made. */
  predicate Covered(offer: Offer, sent: seq<Frame>) {
    offer.queuedAfter <= |sent|
    && exists j :: offer.taken <= j < offer.queuedAfter && sent[j].Invalidation?
  }

  /** An offer that found the queue full of three frames that are no invalidations
      and the completion frame behind them. */
  predicate BehindCompletion(offer: Offer, sent: seq<Frame>) {
    && !offer.queued && offer.completed
    && offer.queuedAfter == offer.taken + MAX_QUEUED_EVENTS <= |sent|
    && sent[offer.queuedAfter - 1] == Completion
    && forall j :: offer.taken <= j < offer.queuedAfter - 1 ==> sent[j] in {Acknowledgement, Keepalive}
  }

  ghost predicate AllKept(offers: seq<Offer>, sent: seq<Frame>) {
    forall k :: 0 <= k < |offers| ==>
      Covered(offers[k], sent) || BehindCompletion(offers[k], sent)
  }

  /** The order of the frames: the acknowledgement first and only there, and
      nothing but invalidations after the completion. */
  ghost predicate Ordered(sent: seq<Frame>) {
    && (sent != [] ==> sent[0] == Acknowledgement)
    && (forall i :: 0 < i < |sent| ==> sent[i] != Acknowledgement)
    && (forall i, j :: 0 <= i < j < |sent| && sent[i] == Completion ==> sent[j].Invalidation?)
  }

  ghost predicate Inv(s: State) {
    && s.taken <= |s.sent| <= s.taken + MAX_QUEUED_EVENTS
    && (s.phase == Starting ==> s.sent == [] && !s.listening)
    && (s.listening || s.phase in {Looping, Probed, Completing} ==> s.sent != [])
    && (s.phase in {Starting, Looping, Probed, Completing} ==> !s.completed)
    && (s.completed <==> Completion in s.sent)
    && (!s.completed ==> Others(Queue(s)) <= 3)
    && (s.phase == Probed ==> Others(Queue(s)) <= 2)
    && Ordered(s.sent)
    && AllKept(s.offers, s.sent)
  }

  lemma PushKeepsOffers(offers: seq<Offer>, sent: seq<Frame>, frame: Frame)
    requires AllKept(offers, sent)
    ensures AllKept(offers, sent + [frame])
  {
    forall k | 0 <= k < |offers|
      ensures Covered(offers[k], sent + [frame]) || BehindCompletion(offers[k], sent + [frame])
    {
      var o := offers[k];
      if Covered(o, sent) {
        var j :| o.taken <= j < o.queuedAfter && sent[j].Invalidation?;
        assert (sent + [frame])[j].Invalidation?;
      }
    }
  }

  lemma PushKeepsOrder(sent: seq<Frame>, frame: Frame)
    requires Ordered(sent)
    requires frame == Acknowledgement <==> sent == []
    requires Completion in sent ==> frame.Invalidation?
    ensures Ordered(sent + [frame])
  {
  }

  lemma PushCounts(s: State, frame: Frame)
    requires s.taken <= |s.sent|
    ensures Queue(Push(s, frame)) == Queue(s) + [frame]
    ensures Others(Queue(Push(s, frame))) == Others(Queue(s)) + (if frame.Invalidation? then 0 else 1)
  {
    OthersOfConcat(Queue(s), [frame]);
  }

  lemma PushKeepsInv(s: State, frame: Frame)
    requires Inv(s) && Capacity(s) > 0
    requires frame == Acknowledgement <==> s.sent == []
    requires frame.Invalidation? || (!s.completed && (s.sent == [] || s.phase in {Probed, Completing}))
    ensures var s' := Push(s, frame);
      && s'.taken <= |s'.sent| <= s'.taken + MAX_QUEUED_EVENTS
      && s'.sent != []
      && Ordered(s'.sent) && AllKept(s'.offers, s'.sent)
      && (Completion in s'.sent <==> s.completed || frame == Completion)
      && Others(Queue(s')) == Others(Queue(s)) + (if frame.Invalidation? then 0 else 1)
  {
    PushKeepsOffers(s.offers, s.sent, frame);
    PushKeepsOrder(s.sent, frame);
    PushCounts(s, frame);
  }

  lemma QueueHoldsInvalidation(s: State)
    requires s.taken <= |s.sent| && Others(Queue(s)) < |Queue(s)|
    ensures exists j :: s.taken <= j < |s.sent| && s.sent[j].Invalidation?
  {
    OthersBounds(Queue(s));
    var i :| 0 <= i < |Queue(s)| && Queue(s)[i].Invalidation?;
    assert s.sent[s.taken + i].Invalidation?;
  }

  /** A queue full of frames that are no invalidations ends with the completion
      frame. */
  lemma QueueEndsWithCompletion(s: State)
    requires Inv(s) && Others(Queue(s)) == MAX_QUEUED_EVENTS
    ensures |Queue(s)| == MAX_QUEUED_EVENTS && s.completed && s.sent[|s.sent| - 1] == Completion
    ensures forall j :: s.taken <= j < |s.sent| - 1 ==> s.sent[j] in {Acknowledgement, Keepalive}
  {
    OthersBounds(Queue(s));
    NoInvalidationIn(Queue(s));
    assert forall j :: s.taken <= j < |s.sent| ==> s.sent[j] == Queue(s)[j - s.taken];
    CompletionIsLast(s.sent, s.taken);
  }

  /** Invalidations alone follow the completion frame. */
  lemma CompletionIsLast(sent: seq<Frame>, taken: nat)
    requires Ordered(sent) && Completion in sent && taken < |sent|
    requires forall j :: taken <= j < |sent| ==> !sent[j].Invalidation?
    ensures sent[|sent| - 1] == Completion
    ensures forall j :: taken <= j < |sent| - 1 ==> sent[j] in {Acknowledgement, Keepalive}
  {
    var c :| 0 <= c < |sent| && sent[c] == Completion;
    assert !sent[|sent| - 1].Invalidation?;
    assert c == |sent| - 1;
  }

  lemma {:induction false} NoInvalidationIn(frames: seq<Frame>)
    requires Others(frames) == |frames|
    ensures forall i :: 0 <= i < |frames| ==> !frames[i].Invalidation?
  {
    if frames != [] {
      OthersBounds(frames[1..]);
      NoInvalidationIn(frames[1..]);
      assert forall i :: 0 < i < |frames| ==> frames[i] == frames[1..][i - 1];
    }
  }

  lemma OfferIsQueued(s: State, listener: nat)
    requires s.taken <= |s.sent| && Capacity(s) > 0
    ensures
      var s' := Offered(s, listener);
      Covered(s'.offers[|s.offers|], s'.sent)
  {
    assert Offered(s, listener).sent[|s.sent|].Invalidation?;
  }

  lemma OfferFindsInvalidation(s: State, listener: nat)
    requires s.taken <= |s.sent| && Capacity(s) <= 0 && Others(Queue(s)) < |Queue(s)|
    ensures
      var s' := Offered(s, listener);
      Covered(s'.offers[|s.offers|], s'.sent)
  {
    QueueHoldsInvalidation(s);
  }

  lemma OfferFindsCompletion(s: State, listener: nat)
    requires Inv(s) && Others(Queue(s)) == MAX_QUEUED_EVENTS
    ensures
      var s' := Offered(s, listener);
      var offer := s'.offers[|s.offers|];
      BehindCompletion(offer, s'.sent) && !Covered(offer, s'.sent)
  {
    QueueEndsWithCompletion(s);
  }

  /** An offer is covered, or stands behind the completion frame; the latter exactly
      when the queue holds four frames that are no invalidations. */
  lemma OfferIsKept(s: State, listener: nat)
    requires Inv(s) && s.listening
    ensures
      var s' := Offered(s, listener);
      var offer := s'.offers[|s.offers|];
      if Others(Queue(s)) == MAX_QUEUED_EVENTS then
        BehindCompletion(offer, s'.sent) && !Covered(offer, s'.sent)
      else Covered(offer, s'.sent)
  {
    OthersBounds(Queue(s));
    if Others(Queue(s)) == MAX_QUEUED_EVENTS {
      OfferFindsCompletion(s, listener);
    } else if Capacity(s) > 0 {
      OfferIsQueued(s, listener);
    } else {
      OfferFindsInvalidation(s, listener);
    }
  }

  lemma OfferKeepsInv(s: State, listener: nat)
    requires Inv(s) && s.listening
    ensures Inv(Offered(s, listener))
  {
    var s' := Offered(s, listener);
    OfferIsKept(s, listener);
    if Capacity(s) > 0 {
      PushKeepsInv(s, Invalidation(listener));
      assert Queue(s') == Queue(Push(s, Invalidation(listener)));
    } else {
      assert Queue(s') == Queue(s);
    }
  }

  lemma SendKeepsInv(s: State, e: Event)
    requires Inv(s) && Enabled(s, e) && Sends(s, e)
    ensures Inv(After(s, e))
  {
    var frame := match e
      case Acknowledge(_) => Acknowledgement
      case SendKeepalive => Keepalive
      case _ => Completion;
    if Capacity(s) > 0 {
      PushKeepsInv(s, frame);
      assert Queue(After(s, e)) == Queue(Push(s, frame));
    } else {
      assert Queue(After(s, e)) == Queue(s);
    }
  }

  lemma TakeCounts(s: State)
    requires Queue(s) != []
    ensures Queue(After(s, Take)) == Queue(s)[1..]
    ensures Others(Queue(After(s, Take))) <= Others(Queue(s))
  {
    assert Queue(After(s, Take)) == Queue(s)[1..];
  }

  lemma TakeKeepsInv(s: State)
    requires Inv(s) && Enabled(s, Take)
    ensures Inv(After(s, Take))
  {
    TakeCounts(s);
    assert AllKept(s.offers, s.sent) && Ordered(s.sent);
  }

  /** Nothing is queued or taken; the task may move on or give up. */
  lemma SameQueueKeepsInv(s: State, s': State)
    requires Inv(s) && s'.sent == s.sent && s'.taken == s.taken
    requires s'.offers == s.offers && s'.completed == s.completed && (s'.listening ==> s.listening)
    requires
      || s'.phase == s.phase || s'.phase in {Aborting, Finished}
      || (s.phase in {Looping, Probed} && s'.phase in {Looping, Completing})
      || (s.phase == Looping && s'.phase == Probed && Capacity(s) > 1)
    ensures Inv(s')
  {
    assert Queue(s') == Queue(s);
    OthersBounds(Queue(s));
  }

  predicate Sends(s: State, e: Event) {
    s.open && (e.Acknowledge? || e.SendKeepalive? || e.SendCompletion?)
  }

  lemma StepKeepsInv(s: State, e: Event)
    requires Inv(s) && Enabled(s, e)
    ensures Inv(After(s, e))
  {
    if Sends(s, e) {
      SendKeepsInv(s, e);
    } else if s.open && e.Notify? {
      OfferKeepsInv(s, e.listener);
    } else if e.Take? {
      TakeKeepsInv(s);
    } else {
      SameQueueKeepsInv(s, After(s, e));
    }
  }

  // ---------------------------------------------------------------------
  // Every run
  // ---------------------------------------------------------------------

  lemma {:induction false} RunKeepsInv(s: State, events: seq<Event>)
    requires Inv(s)
    ensures Inv(Run(s, events))
    decreases |events|
  {
    if events != [] {
      if Enabled(s, events[0]) {
        StepKeepsInv(s, events[0]);
        RunKeepsInv(After(s, events[0]), events[1..]);
      } else {
        RunKeepsInv(s, events[1..]);
      }
    }
  }

  /** Until the completion frame is queued, at most three of the four queued
      frames are not invalidations; the acknowledgement always comes first and
      only invalidations can follow the completion. */
  lemma QueueShape(events: seq<Event>)
    ensures var s := Run(INITIAL, events);
      && |Queue(s)| <= MAX_QUEUED_EVENTS
      && (Completion !in s.sent ==> Others(Queue(s)) <= MAX_QUEUED_EVENTS - 1)
      && Ordered(s.sent)
  {
    RunKeepsInv(INITIAL, events);
  }

  /** In every run a full queue holds an undelivered invalidation until the
      completion frame is queued. */
  lemma FullQueueHoldsInvalidation(events: seq<Event>)
    requires var s := Run(INITIAL, events);
      |Queue(s)| == MAX_QUEUED_EVENTS && Completion !in s.sent
    ensures var s := Run(INITIAL, events);
      exists j :: s.taken <= j < |s.sent| && s.sent[j].Invalidation?
  {
    RunKeepsInv(INITIAL, events);
    QueueHoldsInvalidation(Run(INITIAL, events));
  }

  /** An offer made at any point of any run is lost exactly if the queue then holds
      four frames that are no invalidations, which means three of them and the
      completion frame at the end. */
  lemma WhenAnOfferIsLost(events: seq<Event>, listener: nat)
    requires Run(INITIAL, events).listening && Run(INITIAL, events).open
    ensures var s := Run(INITIAL, events);
      var s' := After(s, Notify(listener));
      && |s'.offers| == |s.offers| + 1
      && (!Covered(s'.offers[|s.offers|], s'.sent) <==> Others(Queue(s)) == MAX_QUEUED_EVENTS)
      && (Others(Queue(s)) == MAX_QUEUED_EVENTS <==>
            && |Queue(s)| == MAX_QUEUED_EVENTS && Queue(s)[MAX_QUEUED_EVENTS - 1] == Completion
            && forall i :: 0 <= i < MAX_QUEUED_EVENTS - 1 ==> !Queue(s)[i].Invalidation?)
  {
    RunKeepsInv(INITIAL, events);
    var s := Run(INITIAL, events);
    OfferIsKept(s, listener);
    OthersBounds(Queue(s));
    if Others(Queue(s)) == MAX_QUEUED_EVENTS {
      QueueEndsWithCompletion(s);
      NoInvalidationIn(Queue(s));
    }
  }

  /** Whatever a listener offered, a reader that has drained the stream took an
      invalidation which it had not taken when the offer was made and which was
      queued by then, unless the offer stood behind the completion frame. No offer
      made before that frame was queued is lost. */
  lemma NoInvalidationLost(events: seq<Event>, k: nat)
    requires var s := Run(INITIAL, events);
      k < |s.offers| && Queue(s) == []
    ensures var s := Run(INITIAL, events);
      var o := s.offers[k];
      && o.queuedAfter <= s.taken <= |s.sent|
      && ((exists j :: o.taken <= j < o.queuedAfter && s.sent[j].Invalidation?) <==>
            !BehindCompletion(o, s.sent))
      && (!o.completed ==> !BehindCompletion(o, s.sent))
  {
    RunKeepsInv(INITIAL, events);
    var s := Run(INITIAL, events);
    var o := s.offers[k];
    assert |Queue(s)| == |s.sent| - s.taken;
    assert Covered(o, s.sent) || BehindCompletion(o, s.sent);
  }

  /** A subscription that has finished has no listener left. */
  lemma FinishedStopsListening(events: seq<Event>)
    ensures Run(INITIAL, events).phase == Finished ==> !Run(INITIAL, events).listening
  {
    RunStopsListening(INITIAL, events);
  }

  predicate Quiet(s: State) {
    s.phase == Starting || s.phase == Finished ==> !s.listening
  }

  lemma StepStopsListening(s: State, e: Event)
    requires Quiet(s) && Enabled(s, e)
    ensures Quiet(After(s, e))
  {
  }

  lemma {:induction false} RunStopsListening(s: State, events: seq<Event>)
    requires Quiet(s)
    ensures Quiet(Run(s, events))
    decreases |events|
  {
    if events != [] {
      if Enabled(s, events[0]) {
        StepStopsListening(s, events[0]);
        RunStopsListening(After(s, events[0]), events[1..]);
      } else {
        RunStopsListening(s, events[1..]);
      }
    }
  }

  /** A shutdown, whether it comes before the acknowledgement is out or later, ends
      with the completion frame once there is room for it, and then with the
      listeners. */
  lemma ShutdownCompletes(s: State)
    requires s.open && Capacity(s) > 0
    ensures s.phase == Starting ==>
      After(s, Acknowledge(true)).phase == Completing &&
      After(s, Acknowledge(true)).sent == s.sent + [Acknowledgement]
    ensures s.phase == Looping ==> After(s, Shutdown) == s.(phase := Completing)
    ensures s.phase == Completing ==>
      Enabled(s, SendCompletion) &&
      var completed := After(s, SendCompletion);
      && completed.sent == s.sent + [Completion] && Enabled(completed, Abort)
      && After(completed, Abort).phase == Finished && After(completed, Abort).sent == completed.sent
  {
  }

  lemma {:induction false} RunMore(s: State, events: seq<Event>, e: Event)
    ensures Run(s, events + [e]) ==
      if Enabled(Run(s, events), e) then After(Run(s, events), e) else Run(s, events)
    decreases |events|
  {
    if events == [] {
      assert ([] + [e])[1..] == [];
    } else {
      assert (events + [e])[0] == events[0] && (events + [e])[1..] == events[1..] + [e];
      RunMore(if Enabled(s, events[0]) then After(s, events[0]) else s, events[1..], e);
    }
  }

  /** A run with two keepalives, the completion frame and an offer after it. */
  function Script(n: nat): Event {
    if n == 0 then Acknowledge(false)
    else if n == 1 || n == 3 then Tick
    else if n == 2 || n == 4 then SendKeepalive
    else if n == 5 then Shutdown
    else if n == 6 then SendCompletion
    else Notify(0)
  }

  function LateOffer(n: nat): (events: seq<Event>)
    ensures |events| == n
  {
    seq(n, i requires 0 <= i < n => Script(i))
  }

  function Stage(n: nat): State {
    var looping := INITIAL.(phase := Looping, listening := true);
    var three := [Acknowledgement, Keepalive, Keepalive];
    if n == 0 then INITIAL
    else if n == 1 then looping.(sent := three[..1])
    else if n == 2 then looping.(sent := three[..1], phase := Probed)
    else if n == 3 then looping.(sent := three[..2])
    else if n == 4 then looping.(sent := three[..2], phase := Probed)
    else if n == 5 then looping.(sent := three)
    else if n == 6 then looping.(sent := three, phase := Completing)
    else
      var completed := looping.(sent := three + [Completion], phase := Aborting, completed := true);
      if n == 7 then completed else completed.(offers := [Offer(0, 4, false, true)])
  }

  lemma StageFollows(n: nat)
    requires n < 8
    ensures Enabled(Stage(n), Script(n)) && After(Stage(n), Script(n)) == Stage(n + 1)
  {
    var three := [Acknowledgement, Keepalive, Keepalive];
    assert three[..1] == [Acknowledgement] && three[..2] == [Acknowledgement] + [Keepalive];
    assert three == three[..2] + [Keepalive];
  }

  lemma {:induction false} StageReached(n: nat)
    requires n <= 8
    ensures Run(INITIAL, LateOffer(n)) == Stage(n)
  {
    if n > 0 {
      StageReached(n - 1);
      StageFollows(n - 1);
      RunMore(INITIAL, LateOffer(n - 1), Script(n - 1));
      assert LateOffer(n) == LateOffer(n - 1) + [Script(n - 1)];
    }
  }

  lemma LastStage()
    ensures Queue(Stage(8)) == [Acknowledgement, Keepalive, Keepalive, Completion]
    ensures Stage(8).offers == [Offer(0, 4, false, true)]
    ensures BehindCompletion(Stage(8).offers[0], Stage(8).sent)
  {
  }

  /** The condition on the completion frame cannot be dropped: once it is
      queued, behind an acknowledgement and two keepalives, the offer of a
      listener that has not been aborted yet is refused with no invalidation
      queued. */
  lemma DroppedAfterCompletion()
    ensures var s := Run(INITIAL, LateOffer(8));
      && Queue(s) == [Acknowledgement, Keepalive, Keepalive, Completion]
      && s.offers == [Offer(0, 4, false, true)]
      && BehindCompletion(s.offers[0], s.sent)
  {
    StageReached(8);
    LastStage();
  }
}
