/** Checked configuration writes: many writers step over one configuration
    file, its lock file and their staging files, any of them failing or being
    cancelled at any step, while others edit the file without a lock. */
module ConfigWriter {
  import opened Wrappers
  import opened Json

  const LOCK_ATTEMPTS := 40

  datatype WritePolicy = Replace | PreserveUnchanged

  /** Reading, printing and validating documents; any total functions. */
  datatype Codec = Codec(parse: string -> Option<Json>, render: Json -> string, valid: Json -> bool)

  const EMPTY_DOCUMENT := Obj(map["mcpServers" := EMPTY_OBJECT])

  /** What a writer computed: the bytes it read, the document in them and the
      document to write. */
  datatype Plan = Plan(original: Option<string>, previous: Json, document: Json)

  datatype Phase =
    | Acquiring(tries: nat)
    | Locked
    | Planned(plan: Plan)
    | Staging(plan: Plan)                // staging file created, not yet complete
    | Staged(plan: Plan, staged: bool)   // staging complete, or not needed
    | Ready(plan: Plan, staged: bool)    // the step before the commit succeeded
    | Checked(plan: Plan, staged: bool)  // the file was found unchanged
    | Unstaging(ok: bool, staged: bool)  // about to drop the staging guard
    | Unlocking(ok: bool)                // about to drop the lock guard
    | Over(ok: bool)

  datatype Writer = Writer(
    process: nat,
    policy: WritePolicy,
    mutate: Json -> Option<Json>,
    phase: Phase,
    before: bool   // the step before the commit has succeeded
  )

  /** The staging path is derived from the process, not from the writer. */
  datatype StagingFile = StagingFile(owner: nat, text: string)

  datatype Change = Edit(contents: Option<string>) | Commit(writer: nat)

  datatype State = State(
    config: Option<string>,
    lock: Option<nat>,
    staging: map<nat, StagingFile>,
    writers: seq<Writer>,
    history: seq<Change>
  )

  datatype Event =
    | TryLock(writer: nat)
    | Read(writer: nat)
    | Stage(writer: nat)
    | WriteStaging(writer: nat)
    | Before(writer: nat)
    | Recheck(writer: nat)
    | Rename(writer: nat)
    | Fail(writer: nat)            // an error, or cancellation
    | DropStaging(writer: nat)
    | DropLock(writer: nat)
    | ForeignEdit(contents: Option<string>)

  function PlanOf(w: Writer, codec: Codec, original: Option<string>): Option<Plan> {
    var parsed := if original.None? then Some(EMPTY_DOCUMENT) else codec.parse(original.value);
    if parsed.None? then None
    else
      var mutated := w.mutate(parsed.value);
      if mutated.None? || !codec.valid(mutated.value) then None
      else Some(Plan(original, parsed.value, mutated.value))
  }

  function Output(codec: Codec, plan: Plan): string {
    codec.render(plan.document) + "\n"
  }

  predicate Unneeded(w: Writer, plan: Plan) {
    w.policy == PreserveUnchanged && plan.original.Some? && plan.document == plan.previous
  }

  predicate Enabled(s: State, e: Event) {
    if e.ForeignEdit? then
      // Edits that fall between a recheck and its rename are not covered.
      forall i :: 0 <= i < |s.writers| ==> !(s.writers[i].phase.Checked? && s.writers[i].phase.staged)
    else if e.writer >= |s.writers| then false
    else
      var phase := s.writers[e.writer].phase;
      match e
      case TryLock(_) => phase.Acquiring?
      case Read(_) => phase.Locked?
      case Stage(_) => phase.Planned?
      case WriteStaging(_) => phase.Staging?
      case Before(_) => phase.Staged?
      case Recheck(_) => phase.Ready?
      case Rename(_) => phase.Checked?
      case Fail(_) =>
        !phase.Unstaging? && !phase.Unlocking? && !phase.Over? && (phase.Checked? ==> phase.staged)
      case DropStaging(_) => phase.Unstaging?
      case DropLock(_) => phase.Unlocking?
  }

  function Move(s: State, i: nat, phase: Phase): State
    requires i < |s.writers|
  {
    s.(writers := s.writers[i := s.writers[i].(phase := phase)])
  }

  function After(s: State, e: Event, codec: Codec): State
    requires Enabled(s, e)
  {
    if e.ForeignEdit? then s.(config := e.contents, history := s.history + [Edit(e.contents)])
    else
      var i := e.writer;
      var w := s.writers[i];
      match e
      case TryLock(_) =>
        if s.lock.None? then Move(s, i, Locked).(lock := Some(i))
        else if w.phase.tries + 1 < LOCK_ATTEMPTS then Move(s, i, Acquiring(w.phase.tries + 1))
        else Move(s, i, Over(false))
      case Read(_) =>
        var plan := PlanOf(w, codec, s.config);
        Move(s, i, if plan.None? then Unlocking(false) else Planned(plan.value))
      case Stage(_) =>
        if Unneeded(w, w.phase.plan) then Move(s, i, Staged(w.phase.plan, false))
        else if w.process in s.staging then Move(s, i, Unlocking(false))
        else Move(s, i, Staging(w.phase.plan)).(staging := s.staging[w.process := StagingFile(i, "")])
      case WriteStaging(_) =>
        Move(s, i, Staged(w.phase.plan, true))
          .(staging := s.staging[w.process := StagingFile(i, Output(codec, w.phase.plan))])
      case Before(_) =>
        var s' := Move(s, i, Ready(w.phase.plan, w.phase.staged));
        s'.(writers := s'.writers[i := s'.writers[i].(before := true)])
      case Recheck(_) =>
        Move(s, i,
          if s.config == w.phase.plan.original then Checked(w.phase.plan, w.phase.staged)
          else Unstaging(false, w.phase.staged))
      case Rename(_) =>
        if !w.phase.staged then Move(s, i, Unstaging(true, false))
        else if w.process !in s.staging then Move(s, i, Unstaging(false, true))
        else
          Move(s, i, Unstaging(true, true))
            .(config := Some(s.staging[w.process].text),
              staging := s.staging - {w.process},
              history := s.history + [Commit(i)])
      case Fail(_) =>
        Move(s, i,
          match w.phase
          case Acquiring(_) => Over(false)
          case Locked => Unlocking(false)
          case Planned(_) => Unlocking(false)
          case Staging(_) => Unstaging(false, true)
          case Staged(_, staged) => Unstaging(false, staged)
          case Ready(_, staged) => Unstaging(false, staged)
          case _ => Unstaging(false, true))
      case DropStaging(_) =>
        Move(s, i, Unlocking(w.phase.ok))
          .(staging := if w.phase.staged then s.staging - {w.process} else s.staging)
      case DropLock(_) => Move(s, i, Over(w.phase.ok)).(lock := None)
  }

  function Run(s: State, events: seq<Event>, codec: Codec): State
    decreases |events|
  {
    if events == [] then s
    else Run(if Enabled(s, events[0]) then After(s, events[0], codec) else s, events[1..], codec)
  }

  ghost predicate Fresh(s: State) {
    && s.lock == None && s.staging == map[] && s.history == []
    && forall i :: 0 <= i < |s.writers| ==> s.writers[i].phase == Acquiring(0) && !s.writers[i].before
  }

  // ---------------------------------------------------------------------
  // What the history means
  // ---------------------------------------------------------------------

  /** The contents a history amounts to: each edit and each commit in turn, a
      commit applying its writer's mutation to the contents just before it. */
  function Replay(initial: Option<string>, history: seq<Change>, writers: seq<Writer>, codec: Codec): Option<string> {
    if history == [] then initial
    else
      var before := Replay(initial, history[..|history| - 1], writers, codec);
      match history[|history| - 1]
      case Edit(contents) => contents
      case Commit(i) =>
        var plan := if i < |writers| then PlanOf(writers[i], codec, before) else None;
        if plan.Some? then Some(Output(codec, plan.value)) else before
  }

  /** The writer has a valid plan for these contents, and needs to write it. */
  predicate Justified(w: Writer, codec: Codec, contents: Option<string>) {
    var plan := PlanOf(w, codec, contents);
    plan.Some? && !Unneeded(w, plan.value)
  }

  /** Every commit in the history had a valid plan for the contents before it. */
  ghost predicate Lawful(initial: Option<string>, history: seq<Change>, writers: seq<Writer>, codec: Codec) {
    forall k :: 0 <= k < |history| && history[k].Commit? ==>
      && history[k].writer < |writers|
      && Justified(writers[history[k].writer], codec, Replay(initial, history[..k], writers, codec))
  }

  /** Two writer lists with the same mutations. */
  ghost predicate SameMutations(a: seq<Writer>, b: seq<Writer>) {
    |a| == |b| && forall i :: 0 <= i < |a| ==> a[i].mutate == b[i].mutate && a[i].policy == b[i].policy
  }

  lemma {:induction false} ReplaySame(
      initial: Option<string>, history: seq<Change>, a: seq<Writer>, b: seq<Writer>, codec: Codec)
    requires SameMutations(a, b)
    ensures Replay(initial, history, a, codec) == Replay(initial, history, b, codec)
  {
    if history != [] {
      ReplaySame(initial, history[..|history| - 1], a, b, codec);
      var before := Replay(initial, history[..|history| - 1], a, codec);
      var last := history[|history| - 1];
      if last.Commit? && last.writer < |a| {
        assert PlanOf(a[last.writer], codec, before) == PlanOf(b[last.writer], codec, before);
      }
    }
  }

  // ---------------------------------------------------------------------
  // The invariant
  // ---------------------------------------------------------------------

  predicate Holding(phase: Phase) {
    !phase.Acquiring? && !phase.Over?
  }

  /** The writer has a staging file that its guard will remove. */
  predicate OwnsStaging(phase: Phase) {
    || phase.Staging?
    || ((phase.Staged? || phase.Ready? || phase.Checked?) && phase.staged)
  }

  predicate HasPlan(phase: Phase) {
    phase.Planned? || phase.Staging? || phase.Staged? || phase.Ready? || phase.Checked?
  }

  predicate Succeeded(phase: Phase) {
    (phase.Unstaging? || phase.Unlocking? || phase.Over?) && phase.ok
  }

  ghost predicate WriterOk(s: State, codec: Codec, i: nat)
    requires i < |s.writers|
  {
    var w := s.writers[i];
    && (Holding(w.phase) <==> s.lock == Some(i))
    && (HasPlan(w.phase) ==> PlanOf(w, codec, w.phase.plan.original) == Some(w.phase.plan))
    && (OwnsStaging(w.phase) ==> w.process in s.staging && s.staging[w.process].owner == i)
    && (OwnsStaging(w.phase) ==> !Unneeded(w, w.phase.plan))
    && (OwnsStaging(w.phase) && !w.phase.Staging? ==>
          s.staging[w.process].text == Output(codec, w.phase.plan))
    && (w.phase.Checked? && w.phase.staged ==> s.config == w.phase.plan.original)
    && ((w.phase.Staged? || w.phase.Ready? || w.phase.Checked?) && !w.phase.staged ==>
          Unneeded(w, w.phase.plan))
    && (w.phase.Ready? || w.phase.Checked? || Succeeded(w.phase) ==> w.before)
    && (Commit(i) in s.history ==> Succeeded(w.phase))
    && (Succeeded(w.phase) && w.policy == Replace ==> Commit(i) in s.history)
  }

  /** A staging file belongs to a writer of its process that will remove it. */
  predicate StagingOk(s: State, p: nat)
    requires p in s.staging
  {
    var o := s.staging[p].owner;
    && o < |s.writers| && s.writers[o].process == p
    && (OwnsStaging(s.writers[o].phase)
        || (s.writers[o].phase.Unstaging? && s.writers[o].phase.staged))
  }

  ghost predicate Inv(s: State, codec: Codec, initial: Option<string>) {
    && (forall i :: 0 <= i < |s.writers| ==> WriterOk(s, codec, i))
    && (s.lock.Some? ==> s.lock.value < |s.writers|)
    && (forall p :: p in s.staging ==> StagingOk(s, p))
    && s.config == Replay(initial, s.history, s.writers, codec)
    && Lawful(initial, s.history, s.writers, codec)
  }

  /** Steps that touch neither the file nor the history keep what the history
      says, since a writer's mutation never changes. */
  lemma HistoryStands(s: State, s': State, codec: Codec, initial: Option<string>)
    requires Inv(s, codec, initial)
    requires s'.config == s.config && s'.history == s.history
    requires SameMutations(s.writers, s'.writers)
    ensures s'.config == Replay(initial, s'.history, s'.writers, codec)
    ensures Lawful(initial, s'.history, s'.writers, codec)
  {
    ReplaySame(initial, s.history, s.writers, s'.writers, codec);
    forall k | 0 <= k < |s.history| && s.history[k].Commit?
      ensures s.history[k].writer < |s'.writers|
      ensures Justified(s'.writers[s.history[k].writer], codec, Replay(initial, s.history[..k], s'.writers, codec))
    {
      ReplaySame(initial, s.history[..k], s.writers, s'.writers, codec);
    }
  }

  lemma HistoryGrows(s: State, s': State, codec: Codec, initial: Option<string>, change: Change)
    requires Inv(s, codec, initial)
    requires s'.history == s.history + [change]
    requires SameMutations(s.writers, s'.writers)
    requires change.Edit? ==> s'.config == change.contents
    requires change.Commit? ==>
      && change.writer < |s.writers|
      && Justified(s.writers[change.writer], codec, s.config)
      && s'.config == Some(Output(codec, PlanOf(s.writers[change.writer], codec, s.config).value))
    ensures s'.config == Replay(initial, s'.history, s'.writers, codec)
    ensures Lawful(initial, s'.history, s'.writers, codec)
  {
    assert s'.history[..|s.history|] == s.history;
    ReplaySame(initial, s.history, s.writers, s'.writers, codec);
    if change.Commit? {
      assert PlanOf(s'.writers[change.writer], codec, s.config) == PlanOf(s.writers[change.writer], codec, s.config);
    }
    forall k | 0 <= k < |s'.history| && s'.history[k].Commit?
      ensures s'.history[k].writer < |s'.writers|
      ensures Justified(s'.writers[s'.history[k].writer], codec, Replay(initial, s'.history[..k], s'.writers, codec))
    {
      if k < |s.history| {
        assert s'.history[..k] == s.history[..k];
        ReplaySame(initial, s.history[..k], s.writers, s'.writers, codec);
        assert s.history[k].Commit?;
      }
    }
  }

  /** Only one writer holds the lock, so a step of one leaves every other
      writer's standing untouched. */
  lemma OthersStand(s: State, e: Event, codec: Codec, initial: Option<string>, j: nat)
    requires Inv(s, codec, initial) && Enabled(s, e)
    requires !e.ForeignEdit? && j < |s.writers| && j != e.writer
    ensures WriterOk(After(s, e, codec), codec, j)
  {
    var s' := After(s, e, codec);
    assert WriterOk(s, codec, j);
    assert WriterOk(s, codec, e.writer);
    assert s'.writers[j] == s.writers[j];
    assert Commit(j) in s'.history <==> Commit(j) in s.history;
  }

  /** The steps up to the commit check leave the history alone. */
  predicate Preparing(e: Event) {
    e.TryLock? || e.Read? || e.Stage? || e.WriteStaging? || e.Before?
  }

  lemma PreparingActorStands(s: State, e: Event, codec: Codec, initial: Option<string>)
    requires Inv(s, codec, initial) && Enabled(s, e) && Preparing(e)
    ensures WriterOk(After(s, e, codec), codec, e.writer)
  {
    assert WriterOk(s, codec, e.writer);
  }

  lemma FinishingActorStands(s: State, e: Event, codec: Codec, initial: Option<string>)
    requires Inv(s, codec, initial) && Enabled(s, e) && !e.ForeignEdit? && !Preparing(e)
    ensures WriterOk(After(s, e, codec), codec, e.writer)
  {
    var i := e.writer;
    var s' := After(s, e, codec);
    assert WriterOk(s, codec, i);
    if s'.history != s.history {
      assert s'.history[|s.history|] == Commit(i);
    }
  }

  lemma PreparedStagingStands(s: State, e: Event, codec: Codec, initial: Option<string>, p: nat)
    requires Inv(s, codec, initial) && Enabled(s, e) && Preparing(e)
    requires p in After(s, e, codec).staging
    ensures StagingOk(After(s, e, codec), p)
  {
    assert WriterOk(s, codec, e.writer);
    assert p in s.staging ==> StagingOk(s, p);
  }

  lemma FinishedStagingStands(s: State, e: Event, codec: Codec, initial: Option<string>, p: nat)
    requires Inv(s, codec, initial) && Enabled(s, e) && !e.ForeignEdit? && !Preparing(e)
    requires p in After(s, e, codec).staging
    ensures StagingOk(After(s, e, codec), p)
  {
    assert WriterOk(s, codec, e.writer);
    assert p in s.staging && StagingOk(s, p);
  }

  lemma StagingStands(s: State, e: Event, codec: Codec, initial: Option<string>, p: nat)
    requires Inv(s, codec, initial) && Enabled(s, e) && !e.ForeignEdit?
    requires p in After(s, e, codec).staging
    ensures StagingOk(After(s, e, codec), p)
  {
    if Preparing(e) {
      PreparedStagingStands(s, e, codec, initial, p);
    } else {
      FinishedStagingStands(s, e, codec, initial, p);
    }
  }

  lemma HistoryFollows(s: State, e: Event, codec: Codec, initial: Option<string>)
    requires Inv(s, codec, initial) && Enabled(s, e) && !e.ForeignEdit?
    ensures var s' := After(s, e, codec);
      && SameMutations(s.writers, s'.writers)
      && s'.config == Replay(initial, s'.history, s'.writers, codec)
      && Lawful(initial, s'.history, s'.writers, codec)
  {
    var s' := After(s, e, codec);
    assert WriterOk(s, codec, e.writer);
    if s'.history == s.history {
      HistoryStands(s, s', codec, initial);
    } else {
      HistoryGrows(s, s', codec, initial, Commit(e.writer));
    }
  }

  lemma EditKeepsInv(s: State, e: Event, codec: Codec, initial: Option<string>)
    requires Inv(s, codec, initial) && Enabled(s, e) && e.ForeignEdit?
    ensures Inv(After(s, e, codec), codec, initial)
  {
    var s' := After(s, e, codec);
    HistoryGrows(s, s', codec, initial, Edit(e.contents));
    forall i | 0 <= i < |s.writers|
      ensures WriterOk(s', codec, i)
    {
      assert WriterOk(s, codec, i);
      assert Commit(i) in s'.history <==> Commit(i) in s.history;
    }
    forall p | p in s.staging
      ensures StagingOk(s', p)
    {
      assert StagingOk(s, p);
    }
  }

  lemma StepKeepsInv(s: State, e: Event, codec: Codec, initial: Option<string>)
    requires Inv(s, codec, initial) && Enabled(s, e)
    ensures Inv(After(s, e, codec), codec, initial)
    ensures SameMutations(s.writers, After(s, e, codec).writers)
  {
    var s' := After(s, e, codec);
    if e.ForeignEdit? {
      EditKeepsInv(s, e, codec, initial);
    } else {
      HistoryFollows(s, e, codec, initial);
      if Preparing(e) {
        PreparingActorStands(s, e, codec, initial);
      } else {
        FinishingActorStands(s, e, codec, initial);
      }
      forall j | 0 <= j < |s.writers| && j != e.writer
        ensures WriterOk(s', codec, j)
      {
        OthersStand(s, e, codec, initial, j);
      }
      forall p | p in s'.staging
        ensures StagingOk(s', p)
      {
        StagingStands(s, e, codec, initial, p);
      }
    }
  }

  lemma {:induction false} RunKeepsInv(s: State, events: seq<Event>, codec: Codec, initial: Option<string>)
    requires Inv(s, codec, initial)
    ensures Inv(Run(s, events, codec), codec, initial)
    ensures SameMutations(s.writers, Run(s, events, codec).writers)
    decreases |events|
  {
    if events != [] {
      if Enabled(s, events[0]) {
        StepKeepsInv(s, events[0], codec, initial);
        RunKeepsInv(After(s, events[0], codec), events[1..], codec, initial);
      } else {
        RunKeepsInv(s, events[1..], codec, initial);
      }
    }
  }

  // ---------------------------------------------------------------------
  // Main results
  // ---------------------------------------------------------------------

  /** No lost update: the file always holds what the foreign edits and the
      commits amount to in order, each commit applying its writer's mutation to
      exactly the bytes it replaced, with a validated document. */
  lemma NoLostUpdate(start: State, events: seq<Event>, codec: Codec)
    requires Fresh(start)
    ensures var s := Run(start, events, codec);
      && s.config == Replay(start.config, s.history, start.writers, codec)
      && Lawful(start.config, s.history, start.writers, codec)
  {
    RunKeepsInv(start, events, codec, start.config);
    var s := Run(start, events, codec);
    ReplaySame(start.config, s.history, start.writers, s.writers, codec);
    forall k | 0 <= k < |s.history| && s.history[k].Commit?
      ensures s.history[k].writer < |start.writers|
      ensures Justified(start.writers[s.history[k].writer], codec,
                        Replay(start.config, s.history[..k], start.writers, codec))
    {
      ReplaySame(start.config, s.history[..k], start.writers, s.writers, codec);
    }
  }

  /** A writer that is over committed only if it succeeded, after its `before`
      step; one that must replace the file and succeeded did commit. */
  lemma OutcomesAreHonest(start: State, events: seq<Event>, codec: Codec, i: nat)
    requires Fresh(start) && i < |start.writers|
    ensures var s := Run(start, events, codec);
      && i < |s.writers|
      && (s.writers[i].phase == Over(false) ==> Commit(i) !in s.history)
      && (Commit(i) in s.history ==> s.writers[i].before)
      && (s.writers[i].phase == Over(true) && start.writers[i].policy == Replace ==> Commit(i) in s.history)
  {
    RunKeepsInv(start, events, codec, start.config);
    assert WriterOk(Run(start, events, codec), codec, i);
  }

  /** The lock is removed by its owner alone, and last: when a writer is about to
      remove it, the lock is still its own and its staging file is gone. */
  lemma OwnLockRemovedLast(start: State, events: seq<Event>, codec: Codec, i: nat)
    requires Fresh(start) && i < |start.writers|
    ensures var s := Run(start, events, codec);
      && i < |s.writers|
      && (s.writers[i].phase.Unlocking? ==>
            s.lock == Some(i) && (forall p :: p in s.staging ==> s.staging[p].owner != i))
      && (s.writers[i].phase.Unstaging? && s.writers[i].phase.staged && s.writers[i].process in s.staging ==>
            s.staging[s.writers[i].process].owner == i)
  {
    RunKeepsInv(start, events, codec, start.config);
    var s := Run(start, events, codec);
    assert WriterOk(s, codec, i);
    forall p | p in s.staging
      ensures s.lock == Some(s.staging[p].owner)
      ensures !s.writers[s.staging[p].owner].phase.Unlocking?
    {
      assert StagingOk(s, p);
      assert WriterOk(s, codec, s.staging[p].owner);
    }
  }

  /** Nothing is left behind: a lock or a staging file that exists belongs to a
      writer that is not over yet and will still remove it. */
  lemma LeftoversHaveAnOwner(start: State, events: seq<Event>, codec: Codec)
    requires Fresh(start)
    ensures var s := Run(start, events, codec);
      && (s.lock.Some? ==> s.lock.value < |s.writers| && Holding(s.writers[s.lock.value].phase))
      && (forall p :: p in s.staging ==>
            s.lock == Some(s.staging[p].owner) && StagingOk(s, p))
  {
    RunKeepsInv(start, events, codec, start.config);
    var s := Run(start, events, codec);
    if s.lock.Some? {
      assert WriterOk(s, codec, s.lock.value);
    }
    forall p | p in s.staging
      ensures s.lock == Some(s.staging[p].owner)
    {
      assert StagingOk(s, p);
      assert WriterOk(s, codec, s.staging[p].owner);
    }
  }

  /** A preserving writer commits only when it changes the document or creates
      the file, so repeating a mutation that has nothing left to change keeps
      the bytes, comments and layout included. */
  lemma PreservingCommitsChangeSomething(start: State, events: seq<Event>, codec: Codec, k: nat)
    requires Fresh(start)
    requires k < |Run(start, events, codec).history| && Run(start, events, codec).history[k].Commit?
    ensures var s := Run(start, events, codec);
      var i := s.history[k].writer;
      var replaced := Replay(start.config, s.history[..k], start.writers, codec);
      && i < |start.writers|
      && var plan := PlanOf(start.writers[i], codec, replaced);
         && plan.Some?
         && (start.writers[i].policy == PreserveUnchanged ==>
               replaced == None || plan.value.document != plan.value.previous)
  {
    NoLostUpdate(start, events, codec);
  }

  // ---------------------------------------------------------------------
  // What a commit writes
  // ---------------------------------------------------------------------

  /** The document that these contents stand for: an empty list of servers where
      there is no file. */
  predicate StandsFor(codec: Codec, contents: Option<string>, document: Json) {
    match contents
    case None => document == Obj(map["mcpServers" := Obj(map[])])
    case Some(text) => codec.parse(text) == Some(document)
  }

  /** A rename that commits replaces the contents by the rendering of just what the
      writer's mutation makes of the document in them, which is valid. */
  lemma CommitWritesTheMutation(start: State, events: seq<Event>, codec: Codec, i: nat)
    requires Fresh(start) && i < |start.writers| && Enabled(Run(start, events, codec), Rename(i))
    requires
      var before := Run(start, events, codec);
      After(before, Rename(i), codec).history != before.history
    ensures
      var before := Run(start, events, codec);
      var after := After(before, Rename(i), codec);
      exists was, now ::
        && StandsFor(codec, before.config, was) && start.writers[i].mutate(was) == Some(now) && codec.valid(now)
        && after.config == Some(codec.render(now) + "\n")
        && after.history == before.history + [Commit(i)]
  {
    RunKeepsInv(start, events, codec, start.config);
    var before := Run(start, events, codec);
    assert WriterOk(before, codec, i);
    var plan := before.writers[i].phase.plan;
    assert StandsFor(codec, before.config, plan.previous);
    assert start.writers[i].mutate(plan.previous) == Some(plan.document) && codec.valid(plan.document);
  }

  /** A writer whose last check lets it succeed without a commit was told to preserve,
      and its mutation leaves the document in the file as it is. */
  lemma SuccessWithoutCommit(start: State, events: seq<Event>, codec: Codec, i: nat)
    requires Fresh(start) && i < |start.writers| && Enabled(Run(start, events, codec), Recheck(i))
    requires
      var after := After(Run(start, events, codec), Recheck(i), codec);
      after.writers[i].phase.Checked? && !after.writers[i].phase.staged
    ensures
      var before := Run(start, events, codec);
      && start.writers[i].policy.PreserveUnchanged? && before.config.Some?
      && exists was ::
          codec.parse(before.config.value) == Some(was) && start.writers[i].mutate(was) == Some(was) && codec.valid(was)
  {
    RunKeepsInv(start, events, codec, start.config);
    var before := Run(start, events, codec);
    assert WriterOk(before, codec, i);
    var plan := before.writers[i].phase.plan;
    assert codec.parse(before.config.value) == Some(plan.previous);
  }

  /** The steps of one writer, from the lock to the lock. */
  function AllSteps(i: nat): seq<Event> {
    [TryLock(i), Read(i), Stage(i), WriteStaging(i), Before(i), Recheck(i), Rename(i), DropStaging(i), DropLock(i)]
  }

  lemma RunOne(s: State, e: Event, rest: seq<Event>, codec: Codec)
    requires Enabled(s, e)
    ensures Run(s, [e] + rest, codec) == Run(After(s, e, codec), rest, codec)
  {
    assert ([e] + rest)[1..] == rest;
  }

  lemma SkipOne(s: State, e: Event, rest: seq<Event>, codec: Codec)
    requires !Enabled(s, e)
    ensures Run(s, [e] + rest, codec) == Run(s, rest, codec)
  {
    assert ([e] + rest)[1..] == rest;
  }

  lemma MoveTwice(s: State, i: nat, first: Phase, second: Phase)
    requires i < |s.writers|
    ensures Move(Move(s, i, first), i, second) == Move(s, i, second)
  {
    assert Move(Move(s, i, first), i, second).writers == Move(s, i, second).writers;
  }

  lemma ReadsUndisturbed(s: State, codec: Codec, i: nat, plan: Plan)
    requires i < |s.writers| && s.writers[i].phase == Acquiring(0) && s.lock.None?
    requires PlanOf(s.writers[i], codec, s.config) == Some(plan)
    ensures
      Run(s, AllSteps(i), codec) == Run(Move(s.(lock := Some(i)), i, Planned(plan)), AllSteps(i)[2..], codec)
  {
    var all := AllSteps(i);
    var s1 := Move(s.(lock := Some(i)), i, Locked);
    assert After(s, TryLock(i), codec) == s1;
    MoveTwice(s.(lock := Some(i)), i, Locked, Planned(plan));
    assert PlanOf(s1.writers[i], codec, s.config) == Some(plan);
    RunOne(s, all[0], all[1..], codec);
    RunOne(s1, all[1], all[2..], codec);
    assert all == [all[0]] + all[1..] && all[1..] == [all[1]] + all[2..];
  }

  lemma StagesUndisturbed(s: State, codec: Codec, i: nat, plan: Plan)
    requires i < |s.writers| && s.writers[i].phase == Planned(plan) && s.writers[i].process !in s.staging
    requires !Unneeded(s.writers[i], plan)
    ensures
      var file := StagingFile(i, Output(codec, plan));
      Run(s, AllSteps(i)[2..], codec) ==
        Run(
          Move(s.(staging := s.staging[s.writers[i].process := file]), i, Staged(plan, true)),
          AllSteps(i)[4..], codec)
  {
    var all, process := AllSteps(i), s.writers[i].process;
    var s1 := Move(s.(staging := s.staging[process := StagingFile(i, "")]), i, Staging(plan));
    assert After(s, Stage(i), codec) == s1;
    MoveTwice(s, i, Staging(plan), Staged(plan, true));
    assert s.staging[process := StagingFile(i, "")][process := StagingFile(i, Output(codec, plan))]
        == s.staging[process := StagingFile(i, Output(codec, plan))];
    RunOne(s, all[2], all[3..], codec);
    RunOne(s1, all[3], all[4..], codec);
    assert all[2..] == [all[2]] + all[3..] && all[3..] == [all[3]] + all[4..];
  }

  lemma SkipsStaging(s: State, codec: Codec, i: nat, plan: Plan)
    requires i < |s.writers| && s.writers[i].phase == Planned(plan) && Unneeded(s.writers[i], plan)
    ensures
      Run(s, AllSteps(i)[2..], codec) == Run(Move(s, i, Staged(plan, false)), AllSteps(i)[4..], codec)
  {
    var all := AllSteps(i);
    var s1 := Move(s, i, Staged(plan, false));
    RunOne(s, all[2], all[3..], codec);
    SkipOne(s1, all[3], all[4..], codec);
    assert all[2..] == [all[2]] + all[3..] && all[3..] == [all[3]] + all[4..];
  }

  /** The step before the commit and the last check. */
  lemma ChecksUndisturbed(s: State, codec: Codec, i: nat)
    requires i < |s.writers| && s.writers[i].phase.Staged? && s.config == s.writers[i].phase.plan.original
    ensures
      var w := s.writers[i];
      var ready := w.(before := true, phase := Checked(w.phase.plan, w.phase.staged));
      Run(s, AllSteps(i)[4..], codec) == Run(s.(writers := s.writers[i := ready]), AllSteps(i)[6..], codec)
  {
    var all, w := AllSteps(i), s.writers[i];
    var s1 := After(s, Before(i), codec);
    var s2 := After(s1, Recheck(i), codec);
    RunOne(s, all[4], all[5..], codec);
    RunOne(s1, all[5], all[6..], codec);
    assert all[4..] == [all[4]] + all[5..] && all[5..] == [all[5]] + all[6..];
    assert s2.writers == s.writers[i := w.(before := true, phase := Checked(w.phase.plan, w.phase.staged))];
  }

  /** From the step before the commit on. */
  lemma CommitsUndisturbed(s: State, codec: Codec, i: nat)
    requires i < |s.writers| && s.writers[i].phase.Staged? && s.config == s.writers[i].phase.plan.original
    requires s.writers[i].phase.staged ==>
      s.writers[i].process in s.staging &&
      s.staging[s.writers[i].process].text == Output(codec, s.writers[i].phase.plan)
    ensures
      var w := s.writers[i];
      var s' := Run(s, AllSteps(i)[4..], codec);
      && i < |s'.writers| && s'.writers[i].phase == Over(true) && s'.lock.None?
      && s'.config == (if w.phase.staged then Some(Output(codec, w.phase.plan)) else s.config)
      && s'.staging == (if w.phase.staged then s.staging - {w.process} else s.staging)
  {
    var all, w := AllSteps(i), s.writers[i];
    var ready := w.(before := true, phase := Checked(w.phase.plan, w.phase.staged));
    var s2 := s.(writers := s.writers[i := ready]);
    var s3 := After(s2, Rename(i), codec);
    ChecksUndisturbed(s, codec, i);
    RunOne(s2, all[6], all[7..], codec);
    assert all[6..] == [all[6]] + all[7..];
    LetsGo(s3, codec, i);
  }

  /** The guards are dropped, the staging file's first. */
  lemma LetsGo(s: State, codec: Codec, i: nat)
    requires i < |s.writers| && s.writers[i].phase.Unstaging?
    ensures
      var w := s.writers[i];
      var s' := Run(s, AllSteps(i)[7..], codec);
      && i < |s'.writers| && s'.writers[i].phase == Over(w.phase.ok) && s'.lock.None? && s'.config == s.config
      && s'.staging == (if w.phase.staged then s.staging - {w.process} else s.staging)
  {
    var all := AllSteps(i);
    var s1 := After(s, DropStaging(i), codec);
    RunOne(s, all[7], all[8..], codec);
    RunOne(s1, all[8], [], codec);
    assert all[7..] == [all[7]] + all[8..] && all[8..] == [all[8]] + [];
  }

  /** A writer that nothing disturbs succeeds where its mutation does and yields a
      valid document: the file then holds that document, or, if it was to be
      preserved and does not change, the same bytes as before; and lock and staging
      file are gone. */
  lemma UndisturbedWriterSucceeds(start: State, codec: Codec, i: nat, was: Json, now: Json)
    requires Fresh(start) && i < |start.writers|
    requires StandsFor(codec, start.config, was) && start.writers[i].mutate(was) == Some(now) && codec.valid(now)
    ensures
      var s := Run(start, AllSteps(i), codec);
      && i < |s.writers| && s.writers[i].phase == Over(true) && s.lock.None? && s.staging == map[]
      && s.config ==
          if start.writers[i].policy.PreserveUnchanged? && start.config.Some? && now == was then start.config
          else Some(codec.render(now) + "\n")
  {
    var w := start.writers[i];
    var plan := Plan(start.config, was, now);
    assert PlanOf(w, codec, start.config) == Some(plan);
    ReadsUndisturbed(start, codec, i, plan);
    var planned := Move(start.(lock := Some(i)), i, Planned(plan));
    if Unneeded(w, plan) {
      SkipsStaging(planned, codec, i, plan);
      CommitsUndisturbed(Move(planned, i, Staged(plan, false)), codec, i);
    } else {
      StagesUndisturbed(planned, codec, i, plan);
      var file := StagingFile(i, Output(codec, plan));
      CommitsUndisturbed(
        Move(planned.(staging := planned.staging[w.process := file]), i, Staged(plan, true)), codec, i);
    }
  }

  function Tries(i: nat, count: nat): seq<Event> {
    seq(count, _ => TryLock(i))
  }

  /** Against a lock that stays taken a writer tries forty times and then gives up,
      having changed nothing. */
  lemma {:induction false} GivesUpAfterForty(s: State, codec: Codec, i: nat, tried: nat)
    requires i < |s.writers| && s.writers[i].phase == Acquiring(tried) && tried < 40 && s.lock.Some?
    ensures
      var s' := Run(s, Tries(i, 40 - tried), codec);
      && s'.writers == s.writers[i := s.writers[i].(phase := Over(false))]
      && s'.lock == s.lock && s'.config == s.config && s'.staging == s.staging && s'.history == s.history
    ensures forall count :: 0 <= count < 40 - tried ==> StillTries(Run(s, Tries(i, count), codec), i)
    decreases 40 - tried
  {
    var s1 := After(s, TryLock(i), codec);
    forall count: nat | 0 < count
      ensures Run(s, Tries(i, count), codec) == Run(s1, Tries(i, count - 1), codec)
    {
      assert Tries(i, count) == [TryLock(i)] + Tries(i, count - 1);
      RunOne(s, TryLock(i), Tries(i, count - 1), codec);
    }
    if tried + 1 < 40 {
      GivesUpAfterForty(s1, codec, i, tried + 1);
    }
    forall count | 0 <= count < 40 - tried
      ensures StillTries(Run(s, Tries(i, count), codec), i)
    {
      if count == 0 {
        assert Tries(i, 0) == [];
      } else {
        assert StillTries(Run(s1, Tries(i, count - 1), codec), i);
      }
    }
  }

  predicate StillTries(s: State, i: nat) {
    i < |s.writers| && s.writers[i].phase.Acquiring?
  }
}
