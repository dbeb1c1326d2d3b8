/** The bridge's pool of clients for one server: a stack of connection slots
    behind a counting semaphore. Tasks interleave at every await and may be
    cancelled there; a reconnect may fail. */
module BridgeClients {
  import opened Wrappers
  import opened Counting

  /** A client keeps its identity when it closes. */
  datatype Client = Client(id: nat, closed: bool)

  type Slot = Option<Client>

  datatype Task =
    | Waiting                    // for a permit
    | Admitted                   // holds a permit, has not popped a slot
    | Leased(slot: Slot)         // popped a slot
    | Reconnecting(slot: Slot)   // awaits a new connection
    | Operating(client: Client)
    | Dropping(slot: Slot)       // the lease is being dropped
    | Pushed                     // slot pushed back, permit still held
    | Done
    | Unavailable                // admitted, but found no slot

  datatype Pool = Pool(idle: seq<Slot>, permits: nat, tasks: seq<Task>, nextId: nat)

  function NewPool(concurrency: nat): Pool
    requires concurrency > 0
  {
    Pool(seq(concurrency - 1, _ => None) + [Some(Client(0, false))], concurrency, [], 1)
  }

  datatype Event =
    | Arrive
    | Admit(task: nat)
    | Pop(task: nat)
    | Inspect(task: nat)          // closed or never connected: reconnect
    | Reconnected(task: nat)
    | Closes(task: nat)           // the operation closes its client
    | Leave(task: nat)            // finished, failed or cancelled at an await
    | PushBack(task: nat)
    | Release(task: nat)

  predicate Needs(slot: Slot) {
    slot.None? || slot.value.closed
  }

  predicate Enabled(p: Pool, e: Event) {
    if e.Arrive? then true
    else if e.task >= |p.tasks| then false
    else
      var t := p.tasks[e.task];
      match e
      case Admit(_) => t.Waiting? && p.permits > 0
      case Pop(_) => t.Admitted?
      case Inspect(_) => t.Leased?
      case Reconnected(_) => t.Reconnecting?
      case Closes(_) => t.Operating?
      case Leave(_) => t.Waiting? || t.Reconnecting? || t.Operating?
      case PushBack(_) => t.Dropping?
      case Release(_) => t.Pushed?
  }

  function SetTask(p: Pool, i: nat, t: Task): Pool
    requires i < |p.tasks|
  {
    p.(tasks := p.tasks[i := t])
  }

  function After(p: Pool, e: Event): Pool
    requires Enabled(p, e)
  {
    match e
    case Arrive => p.(tasks := p.tasks + [Waiting])
    case Admit(i) => SetTask(p, i, Admitted).(permits := p.permits - 1)
    case Pop(i) =>
      if p.idle == [] then SetTask(p, i, Unavailable).(permits := p.permits + 1)
      else
        SetTask(p, i, Leased(p.idle[|p.idle| - 1])).(idle := p.idle[..|p.idle| - 1])
    case Inspect(i) =>
      var slot := p.tasks[i].slot;
      SetTask(p, i, if Needs(slot) then Reconnecting(slot) else Operating(slot.value))
    case Reconnected(i) => SetTask(p, i, Operating(Client(p.nextId, false))).(nextId := p.nextId + 1)
    case Closes(i) => SetTask(p, i, Operating(p.tasks[i].client.(closed := true)))
    case Leave(i) =>
      var t := p.tasks[i];
      SetTask(p, i,
        if t.Waiting? then Done
        else if t.Reconnecting? then Dropping(t.slot)
        else Dropping(Some(t.client)))
    case PushBack(i) => SetTask(p, i, Pushed).(idle := p.idle + [p.tasks[i].slot])
    case Release(i) => SetTask(p, i, Done).(permits := p.permits + 1)
  }

  function Run(p: Pool, events: seq<Event>): Pool
    decreases |events|
  {
    if events == [] then p
    else Run(if Enabled(p, events[0]) then After(p, events[0]) else p, events[1..])
  }

  // ---------------------------------------------------------------------
  // Accounting
  // ---------------------------------------------------------------------

  predicate HoldsSlot(t: Task) {
    t.Leased? || t.Reconnecting? || t.Operating? || t.Dropping?
  }

  predicate HoldsPermit(t: Task) {
    HoldsSlot(t) || t.Admitted? || t.Pushed?
  }

  function Held(t: Task): Slot {
    match t
    case Leased(slot) => slot
    case Reconnecting(slot) => slot
    case Operating(client) => Some(client)
    case Dropping(slot) => slot
    case _ => None
  }

  predicate HoldsClient(t: Task) {
    Held(t).Some?
  }

  predicate Occupied(slot: Slot) {
    slot.Some?
  }

  ghost predicate Accounted(p: Pool, concurrency: nat) {
    && p.permits + Count(p.tasks, HoldsPermit) == concurrency
    && |p.idle| + Count(p.tasks, HoldsSlot) == concurrency
    && (forall i :: 0 <= i < |p.tasks| ==> !p.tasks[i].Unavailable?)
  }

  predicate Apart(a: Slot, b: Slot) {
    a.Some? && b.Some? ==> a.value.id != b.value.id
  }

  /** Every client sits in one place: one idle slot or one task. */
  ghost predicate Distinct(p: Pool) {
    && (forall i :: 0 <= i < |p.idle| && p.idle[i].Some? ==> p.idle[i].value.id < p.nextId)
    && (forall i :: 0 <= i < |p.tasks| && Held(p.tasks[i]).Some? ==> Held(p.tasks[i]).value.id < p.nextId)
    && (forall i, j :: 0 <= i < j < |p.idle| ==> Apart(p.idle[i], p.idle[j]))
    && (forall i, j :: 0 <= i < j < |p.tasks| ==> Apart(Held(p.tasks[i]), Held(p.tasks[j])))
    && (forall i, j :: 0 <= i < |p.idle| && 0 <= j < |p.tasks| ==> Apart(p.idle[i], Held(p.tasks[j])))
  }

  /** Slots that wait for nobody are exactly the idle ones: an admitted task
      always finds one, since a slot is pushed back before its permit. */
  lemma IdleCoversPermits(p: Pool, concurrency: nat)
    requires Accounted(p, concurrency)
    ensures p.permits <= |p.idle|
    ensures forall i :: 0 <= i < |p.tasks| && p.tasks[i].Admitted? ==> p.permits < |p.idle|
  {
    CountAtMost(p.tasks, HoldsSlot, HoldsPermit);
    forall i | 0 <= i < |p.tasks| && p.tasks[i].Admitted?
      ensures p.permits < |p.idle|
    {
      CountUpdate(p.tasks, i, Done, HoldsPermit);
      CountUpdate(p.tasks, i, Done, HoldsSlot);
      CountAtMost(p.tasks[i := Done], HoldsSlot, HoldsPermit);
    }
  }

  lemma StepKeepsAccounts(p: Pool, e: Event, concurrency: nat)
    requires Accounted(p, concurrency) && Enabled(p, e)
    ensures Accounted(After(p, e), concurrency)
  {
    if e.Arrive? {
      CountConcat(p.tasks, [Waiting], HoldsPermit);
      CountConcat(p.tasks, [Waiting], HoldsSlot);
    } else {
      IdleCoversPermits(p, concurrency);
      var t := After(p, e).tasks[e.task];
      CountUpdate(p.tasks, e.task, t, HoldsPermit);
      CountUpdate(p.tasks, e.task, t, HoldsSlot);
    }
  }

  /** A task that leaves its client alone, or takes a fresh one, keeps clients
      apart. */
  lemma SettingKeepsDistinct(p: Pool, i: nat, t: Task, nextId: nat)
    requires Distinct(p) && i < |p.tasks| && p.nextId <= nextId
    requires Held(t).Some? ==>
      || (Held(p.tasks[i]).Some? && Held(t).value.id == Held(p.tasks[i]).value.id)
      || p.nextId <= Held(t).value.id < nextId
    ensures Distinct(SetTask(p, i, t).(nextId := nextId))
  {
  }

  lemma PopKeepsDistinct(p: Pool, i: nat)
    requires Distinct(p) && i < |p.tasks| && p.tasks[i].Admitted? && p.idle != []
    ensures Distinct(After(p, Pop(i)))
  {
  }

  lemma PushKeepsDistinct(p: Pool, i: nat)
    requires Distinct(p) && i < |p.tasks| && p.tasks[i].Dropping?
    ensures Distinct(After(p, PushBack(i)))
  {
    assert Held(p.tasks[i]) == p.tasks[i].slot;
  }

  lemma StepKeepsDistinct(p: Pool, e: Event)
    requires Distinct(p) && Enabled(p, e)
    ensures Distinct(After(p, e))
  {
    match e
    case Arrive =>
      var tasks := p.tasks + [Waiting];
      assert forall i :: 0 <= i < |tasks| ==> Held(tasks[i]) == if i < |p.tasks| then Held(p.tasks[i]) else None;
    case Pop(i) =>
      if p.idle != [] {
        PopKeepsDistinct(p, i);
      } else {
        SettingKeepsDistinct(p, i, Unavailable, p.nextId);
      }
    case PushBack(i) => PushKeepsDistinct(p, i);
    case Reconnected(i) => SettingKeepsDistinct(p, i, Operating(Client(p.nextId, false)), p.nextId + 1);
    case _ => SettingKeepsDistinct(p, e.task, After(p, e).tasks[e.task], p.nextId);
  }

  lemma {:induction false} RunKeepsInvariant(p: Pool, events: seq<Event>, concurrency: nat)
    requires Accounted(p, concurrency) && Distinct(p)
    ensures Accounted(Run(p, events), concurrency) && Distinct(Run(p, events))
    decreases |events|
  {
    if events != [] {
      if Enabled(p, events[0]) {
        StepKeepsAccounts(p, events[0], concurrency);
        StepKeepsDistinct(p, events[0]);
        RunKeepsInvariant(After(p, events[0]), events[1..], concurrency);
      } else {
        RunKeepsInvariant(p, events[1..], concurrency);
      }
    }
  }

  /** In every interleaving no slot is lost, idle slots cover the free permits
      and no admitted task misses a slot. */
  lemma SlotsAreConserved(concurrency: nat, events: seq<Event>)
    requires concurrency > 0
    ensures var p := Run(NewPool(concurrency), events);
      && |p.idle| + Count(p.tasks, HoldsSlot) == concurrency
      && p.permits + Count(p.tasks, HoldsPermit) == concurrency
      && p.permits <= |p.idle|
      && forall i :: 0 <= i < |p.tasks| ==> !p.tasks[i].Unavailable?
  {
    RunKeepsInvariant(NewPool(concurrency), events, concurrency);
    IdleCoversPermits(Run(NewPool(concurrency), events), concurrency);
  }

  /** In every interleaving each client is in one place, so no two operations
      share one, and there are never more clients than slots. */
  lemma ClientsAreExclusive(concurrency: nat, events: seq<Event>)
    requires concurrency > 0
    ensures var p := Run(NewPool(concurrency), events);
      && (forall i, j :: 0 <= i < j < |p.tasks| && p.tasks[i].Operating? && p.tasks[j].Operating?
            ==> p.tasks[i].client.id != p.tasks[j].client.id)
      && (forall i, j :: 0 <= i < |p.idle| && 0 <= j < |p.tasks| && p.idle[i].Some? && p.tasks[j].Operating?
            ==> p.idle[i].value.id != p.tasks[j].client.id)
      && Count(p.idle, Occupied) + Count(p.tasks, HoldsClient) <= concurrency
  {
    RunKeepsInvariant(NewPool(concurrency), events, concurrency);
    var p := Run(NewPool(concurrency), events);
    CountAtMost(p.tasks, HoldsClient, HoldsSlot);
    CountAtMost(p.idle, Occupied, Occupied);
    forall i, j | 0 <= i < j < |p.tasks| && p.tasks[i].Operating? && p.tasks[j].Operating?
      ensures p.tasks[i].client.id != p.tasks[j].client.id
    {
      assert Apart(Held(p.tasks[i]), Held(p.tasks[j]));
    }
    forall i, j | 0 <= i < |p.idle| && 0 <= j < |p.tasks| && p.idle[i].Some? && p.tasks[j].Operating?
      ensures p.idle[i].value.id != p.tasks[j].client.id
    {
      assert Apart(p.idle[i], Held(p.tasks[j]));
    }
  }

  /** When every task is over, the pool is as free as it started. */
  lemma QuiescentPoolIsFull(concurrency: nat, events: seq<Event>)
    requires concurrency > 0
    requires forall t :: t in Run(NewPool(concurrency), events).tasks ==> t.Done? || t.Waiting?
    ensures var p := Run(NewPool(concurrency), events);
      p.permits == |p.idle| == concurrency
  {
    RunKeepsInvariant(NewPool(concurrency), events, concurrency);
    var p := Run(NewPool(concurrency), events);
    forall i | 0 <= i < |p.tasks|
      ensures !HoldsPermit(p.tasks[i]) && !HoldsSlot(p.tasks[i])
    {
      assert p.tasks[i] in p.tasks;
    }
    CountNone(p.tasks, HoldsPermit);
    CountNone(p.tasks, HoldsSlot);
  }

  /** No operation begins on a closed client: an idle one that is open is used as it
      is, anything else is replaced by a client that was never used before. */
  lemma OperationsBeginOpen(concurrency: nat, events: seq<Event>, i: nat)
    requires concurrency > 0
    ensures var p := Run(NewPool(concurrency), events);
      && (Enabled(p, Inspect(i)) ==>
            var task := After(p, Inspect(i)).tasks[i];
            match p.tasks[i].slot
            case Some(Client(id, false)) => task == Operating(Client(id, false))
            case slot => task == Reconnecting(slot))
      && (Enabled(p, Reconnected(i)) ==>
            var task := After(p, Reconnected(i)).tasks[i];
            && task.Operating? && !task.client.closed
            && (forall j :: 0 <= j < |p.tasks| && Held(p.tasks[j]).Some? ==>
                  Held(p.tasks[j]).value.id != task.client.id)
            && (forall j :: 0 <= j < |p.idle| && p.idle[j].Some? ==> p.idle[j].value.id != task.client.id))
  {
    RunKeepsInvariant(NewPool(concurrency), events, concurrency);
  }

  /** A task that is cancelled, fails or finishes while it has a slot gives back just
      what is in it, the client it operated on included. */
  lemma LeavingReturnsTheClient(p: Pool, i: nat)
    requires Enabled(p, Leave(i)) && HoldsSlot(p.tasks[i])
    ensures
      var left := After(p, Leave(i));
      Enabled(left, PushBack(i)) && After(left, PushBack(i)).idle == p.idle + [Held(p.tasks[i])] &&
      Enabled(After(left, PushBack(i)), Release(i)) &&
      After(After(left, PushBack(i)), Release(i)).permits == p.permits + 1
  {
  }

  /** The first task operates on the client that the pool was made with. */
  lemma FirstTaskUsesTheClient(concurrency: nat)
    requires concurrency > 0
    ensures
      var p := Run(NewPool(concurrency), [Arrive, Admit(0), Pop(0), Inspect(0)]);
      p.tasks == [Operating(Client(0, false))] && |p.idle| == concurrency - 1 &&
      forall i :: 0 <= i < |p.idle| ==> p.idle[i].None?
  {
    var p := NewPool(concurrency);
    var p1 := After(p, Arrive);
    var p2 := After(p1, Admit(0));
    var p3 := After(p2, Pop(0));
    assert [Arrive, Admit(0), Pop(0), Inspect(0)][1..] == [Admit(0), Pop(0), Inspect(0)];
    assert [Admit(0), Pop(0), Inspect(0)][1..] == [Pop(0), Inspect(0)];
    assert [Pop(0), Inspect(0)][1..] == [Inspect(0)] && [Inspect(0)][1..] == [];
    assert Run(p, [Arrive, Admit(0), Pop(0), Inspect(0)]) == Run(p1, [Admit(0), Pop(0), Inspect(0)]);
    assert Run(p1, [Admit(0), Pop(0), Inspect(0)]) == Run(p2, [Pop(0), Inspect(0)]);
    assert Run(p2, [Pop(0), Inspect(0)]) == Run(p3, [Inspect(0)]);
  }
}
