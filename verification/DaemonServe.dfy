/** The daemon's accept loop against the shutdown signal. The flag and the
    wakeup are two steps of whichever handler drops its signal, and the wakeup
    reaches only a registration that exists already. */
module DaemonServe {

  /** A connection handler. A successful shutdown request makes it store the
      flag and then notify when its signal is dropped. */
  datatype Handler = Serving | Stored | Finished

  datatype Phase =
    | Registering  // about to create and enable the notification
    | Checking     // registered, about to load the flag
    | Parked       // in the select on notification and accept
    | AcceptFailed // about to load the flag again
    | Stopped

  /** `signalled` says whether the current registration was notified; `late`
      counts connections accepted after the flag was stored. */
  datatype State = State(phase: Phase, flag: bool, signalled: bool, handlers: seq<Handler>, late: nat)

  const INITIAL := State(Registering, false, false, [], 0)

  datatype Event =
    | Register
    | Check
    | Accept
    | AcceptError
    | Recheck
    | Wake
    | EndQuietly(handler: nat)
    | Store(handler: nat)
    | Notify(handler: nat)

  predicate HandlerIs(s: State, i: nat, h: Handler) {
    i < |s.handlers| && s.handlers[i] == h
  }

  predicate Enabled(s: State, e: Event) {
    match e
    case Register => s.phase == Registering
    case Check => s.phase == Checking
    case Accept => s.phase == Parked
    case AcceptError => s.phase == Parked
    case Recheck => s.phase == AcceptFailed
    case Wake => s.phase == Parked && s.signalled
    case EndQuietly(i) => HandlerIs(s, i, Serving)
    case Store(i) => HandlerIs(s, i, Serving)
    case Notify(i) => HandlerIs(s, i, Stored)
  }

  function After(s: State, e: Event): State
    requires Enabled(s, e)
  {
    match e
    case Register => s.(phase := Checking, signalled := false)
    case Check => s.(phase := if s.flag then Stopped else Parked)
    case Accept =>
      s.(phase := Registering, handlers := s.handlers + [Serving], late := s.late + if s.flag then 1 else 0)
    case AcceptError => s.(phase := AcceptFailed)
    case Recheck => s.(phase := if s.flag then Stopped else Registering)
    case Wake => s.(phase := Stopped)
    case EndQuietly(i) => s.(handlers := s.handlers[i := Finished])
    case Store(i) => s.(flag := true, handlers := s.handlers[i := Stored])
    case Notify(i) =>
      s.(handlers := s.handlers[i := Finished], signalled := s.signalled || s.phase in {Checking, Parked, AcceptFailed})
  }

  function Run(s: State, events: seq<Event>): State
    decreases |events|
  {
    if events == [] then s
    else Run(if Enabled(s, events[0]) then After(s, events[0]) else s, events[1..])
  }

  /** Some handler has stored the flag and not notified yet. */
  ghost predicate SignalPending(s: State) {
    exists i :: HandlerIs(s, i, Stored)
  }

  ghost predicate Inv(s: State) {
    && (s.phase == Parked && s.flag && !s.signalled ==> SignalPending(s))
    && (!s.flag || s.phase == Parked || s.phase == AcceptFailed ==> s.late == 0)
    && s.late <= 1
  }

  lemma StepKeepsInv(s: State, e: Event)
    requires Inv(s) && Enabled(s, e)
    ensures Inv(After(s, e))
  {
    var s' := After(s, e);
    if s'.phase == Parked && s'.flag && !s'.signalled {
      if e.Store? {
        assert HandlerIs(s', e.handler, Stored);
      } else {
        var i :| HandlerIs(s, i, Stored);
        assert HandlerIs(s', i, Stored);
      }
    }
  }

  lemma {:induction false} RunKeepsInv(s: State, events: seq<Event>)
    requires Inv(s)
    ensures Inv(Run(s, events))
    decreases |events|
  {
    if events != [] {
      if Enabled(s, events[0]) {
        StepKeepsInv(s, events[0]);
        RunKeepsInv(After(s, events[0]), events[1..]);
      } else {
        RunKeepsInv(s, events[1..]);
      }
    }
  }

  /** No lost wakeup: the acceptor is never parked on an unsignalled
      registration once the flag is set and every signaller has notified. */
  lemma NoLostWakeup(events: seq<Event>)
    ensures var s := Run(INITIAL, events);
      s.phase == Parked && s.flag && !SignalPending(s) ==> s.signalled
  {
    RunKeepsInv(INITIAL, events);
  }

  /** At most one more connection is accepted after the flag is stored. */
  lemma AtMostOneLateAccept(events: seq<Event>)
    ensures Run(INITIAL, events).late <= 1
  {
    RunKeepsInv(INITIAL, events);
  }

  /** What the acceptor does when no connection arrives. */
  function OwnStep(s: State): State {
    match s.phase
    case Registering => After(s, Register)
    case Checking => After(s, Check)
    case Parked => if s.signalled then After(s, Wake) else s
    case AcceptFailed => After(s, Recheck)
    case Stopped => s
  }

  /** Once every signaller has notified, the acceptor stops by its own steps,
      without needing another connection. */
  lemma StopsByItself(events: seq<Event>)
    ensures var s := Run(INITIAL, events);
      s.flag && !SignalPending(s) ==> OwnStep(OwnStep(s)).phase == Stopped
  {
    RunKeepsInv(INITIAL, events);
  }

  /** The acceptor stops only once the flag has been stored. */
  lemma StopsOnlyWhenTold(events: seq<Event>)
    ensures Run(INITIAL, events).phase == Stopped ==> Run(INITIAL, events).flag
  {
    RunIsTold(INITIAL, events);
  }

  /** Nothing is signalled before the flag is stored. */
  ghost predicate Told(s: State) {
    && (s.signalled || s.phase == Stopped || SignalPending(s) ==> s.flag)
  }

  lemma {:induction false} RunIsTold(s: State, events: seq<Event>)
    requires Told(s)
    ensures Told(Run(s, events))
    decreases |events|
  {
    if events != [] {
      var s' := if Enabled(s, events[0]) then After(s, events[0]) else s;
      if SignalPending(s') && !s'.flag {
        var i :| HandlerIs(s', i, Stored);
        assert HandlerIs(s, i, Stored);
      }
      if events[0].Notify? && Enabled(s, events[0]) {
        assert SignalPending(s);
      }
      RunIsTold(s', events[1..]);
    }
  }

  /** Until then it waits for a connection again after each one, and after an accept
      that failed. */
  lemma KeepsAccepting(s: State)
    requires !s.flag && s.phase != Stopped
    ensures
      var s' := Run(s, [Recheck, Register, Check]);
      s'.phase == Parked && Enabled(s', Accept) && Enabled(s', AcceptError) &&
      |After(s', Accept).handlers| == |s.handlers| + 1 && After(s', Accept).phase == Registering
  {
    var s1 := if s.phase == AcceptFailed then After(s, Recheck) else s;
    assert [Recheck, Register, Check][1..] == [Register, Check] && [Register, Check][1..] == [Check];
    var s2 := if s1.phase == Registering then After(s1, Register) else s1;
    assert Run(s, [Recheck, Register, Check]) == Run(s1, [Register, Check]);
    assert Run(s1, [Register, Check]) == Run(s2, [Check]);
    assert [Check][1..] == [];
  }
}
