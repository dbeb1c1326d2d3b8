/** Retiring legacy daemons: migration runs over the same directories, each of
    which may be interrupted at any point, and the retirement journal that lets a
    later run finish what an earlier one began.

    Runs, the processes they retire and machine crashes are steps of one state
    machine, in any order. */
module Migration {
  import opened Wrappers
  import opened ProcessTree

  // ---------------------------------------------------------------------
  // State
  // ---------------------------------------------------------------------

  /** What a journal file holds: the identities to verify, or something that does
      not parse, such as a file created but not yet written. */
  datatype Content = Garbage | Journal(ids: seq<Identity>)

  /** The journal of one directory. A synced file survives a machine crash. */
  datatype Marker = Absent | File(writer: nat, content: Content, synced: bool)

  datatype Legacy = Legacy(root: nat, dir: nat)

  /** Where a run is. `rest` are the entries still to retire; it is absent while
      the run looks for journals left by others. */
  datatype Pc =
    | Checking(next: nat)
    | Verifying(dir: nat, ids: seq<Identity>, rest: Option<seq<Legacy>>)
    | Removing(dir: nat, ids: seq<Identity>, rest: Option<seq<Legacy>>)
    | Inspecting
    | Retiring(plan: seq<Legacy>)
    | Saving(dir: nat, ids: seq<Identity>, plan: seq<Legacy>)
    | Created(dir: nat, ids: seq<Identity>, plan: seq<Legacy>)
    | Written(dir: nat, ids: seq<Identity>, plan: seq<Legacy>)
    | Stopping(dir: nat, ids: seq<Identity>, plan: seq<Legacy>)
    | Done
    | Failed

  /** A run, whether it was asked to stop anything, and how many stops had been
      sent, by any run, when it began. */
  datatype Process = Process(stop: bool, pc: Pc, since: nat)

  /** A stop that was delivered, and whether the daemon acknowledged it in time. */
  datatype Stopped = Stopped(run: nat, dir: nat, ids: seq<Identity>, acknowledged: bool)

  /** `ever` are the births there have been, `stops` the stops delivered. */
  datatype State = State(
    disk: seq<Marker>,
    alive: set<Birth>,
    ever: set<Birth>,
    runs: seq<Process>,
    stops: seq<Stopped>)

  /** What a run learns in its next step. */
  datatype Input =
    | Quiet
    | Looked(snapshot: Snapshot)
    | Listed(plan: seq<Legacy>, verified: bool)
    | Recognised(owned: Snapshot, tree: seq<Identity>)
    | Answered(delivered: bool, acknowledged: bool)

  datatype Event =
    | Start(stop: bool)
    | Next(run: nat, input: Input)
    | Abort(run: nat)                 // an error, or the run is killed
    | Exit(births: set<Birth>)
    | Spawn(birth: Birth)
    | Crash(disk: seq<Marker>)        // the machine restarts with this disk

  // ---------------------------------------------------------------------
  // Steps
  // ---------------------------------------------------------------------

  function Move(s: State, r: nat, pc: Pc): State
    requires r < |s.runs|
  {
    s.(runs := s.runs[r := s.runs[r].(pc := pc)])
  }

  function Put(s: State, dir: nat, marker: Marker): State
    requires dir < |s.disk|
  {
    s.(disk := s.disk[dir := marker])
  }

  function Check(s: State, r: nat, i: nat): Pc
    requires r < |s.runs|
  {
    if i >= |s.disk| then Inspecting
    else match s.disk[i]
      case Absent => Checking(i + 1)
      case File(_, Garbage, _) => Failed
      case File(_, Journal(ids), _) =>
        if s.runs[r].stop && ids != [] then Verifying(i, ids, None) else Failed
  }

  ghost function Advance(s: State, r: nat, input: Input): State
    requires r < |s.runs|
  {
    match s.runs[r].pc
    case Checking(i) => Move(s, r, Check(s, r, i))
    case Verifying(dir, ids, rest) =>
      if input.Looked? && Faithful(input.snapshot, s.alive) && NoneSurvives(input.snapshot, ids) then
        Move(s, r, Removing(dir, ids, rest))
      else s
    case Removing(dir, ids, rest) =>
      if dir >= |s.disk| || s.disk[dir].Absent? then Move(s, r, Failed)
      else Move(Put(s, dir, Absent), r, if rest.None? then Checking(dir + 1) else Retiring(rest.value))
    case Inspecting =>
      if !input.Listed? || exists i :: 0 <= i < |input.plan| && input.plan[i].dir >= |s.disk| then s
      else if !s.runs[r].stop then Move(s, r, Done)
      else Move(s, r, if input.verified then Retiring(input.plan) else Failed)
    case Retiring(plan) =>
      if plan == [] then Move(s, r, Done)
      else if input.Recognised? && Faithful(input.owned, s.alive)
        && IsOwnedTree(input.owned, plan[0].root, input.tree) then
        Move(s, r, Saving(plan[0].dir, input.tree, plan[1..]))
      else s
    case Saving(dir, ids, plan) =>
      if dir >= |s.disk| || s.disk[dir].File? then Move(s, r, Failed)
      else Move(Put(s, dir, File(r, Garbage, false)), r, Created(dir, ids, plan))
    case Created(dir, ids, plan) =>
      Move(Rewrite(s, r, dir, Journal(ids), false), r, Written(dir, ids, plan))
    case Written(dir, ids, plan) =>
      Move(Rewrite(s, r, dir, Journal(ids), true), r, Stopping(dir, ids, plan))
    case Stopping(dir, ids, plan) =>
      if !input.Answered? then s
      else
        var sent := if input.delivered then s.(stops := s.stops + [Stopped(r, dir, ids, input.acknowledged)]) else s;
        if input.delivered && input.acknowledged then Move(sent, r, Verifying(dir, ids, Some(plan)))
        else Move(sent, r, Failed)
    case Done => s
    case Failed => s
  }

  /** Writes through the handle of the run that created the file; no effect on the
      directory if that file has been removed from it. */
  function Rewrite(s: State, r: nat, dir: nat, content: Content, synced: bool): State {
    if dir < |s.disk| && s.disk[dir].File? && s.disk[dir].writer == r then
      Put(s, dir, File(r, content, synced))
    else s
  }

  predicate Known(ids: seq<Identity>, ever: set<Birth>) {
    forall i :: 0 <= i < |ids| ==> ids[i].born != "" && BirthOf(ids[i]) in ever
  }

  predicate KnownMarker(marker: Marker, ever: set<Birth>) {
    marker.File? && marker.content.Journal? ==> Known(marker.content.ids, ever)
  }

  /** After a machine crash a synced journal is as it was; any other may be
      missing, cut short, complete, or an older one that had been removed. */
  predicate CrashLeaves(s: State, disk: seq<Marker>) {
    && |disk| == |s.disk|
    && forall d :: 0 <= d < |disk| ==>
        KnownMarker(disk[d], s.ever) && (s.disk[d].File? && s.disk[d].synced ==> disk[d] == s.disk[d])
  }

  ghost function Step(s: State, e: Event): State {
    match e
    case Start(stop) => s.(runs := s.runs + [Process(stop, Checking(0), |s.stops|)])
    case Next(r, input) => if r < |s.runs| then Advance(s, r, input) else s
    case Abort(r) => if r < |s.runs| then Move(s, r, Failed) else s
    case Exit(births) => s.(alive := s.alive - births)
    case Spawn(birth) =>
      if birth in s.ever then s else s.(alive := s.alive + {birth}, ever := s.ever + {birth})
    case Crash(disk) =>
      if CrashLeaves(s, disk) then
        s.(disk := disk, runs := seq(|s.runs|, r requires 0 <= r < |s.runs| => s.runs[r].(pc := Failed)))
      else s
  }

  ghost function Run(s: State, events: seq<Event>): State {
    if events == [] then s else Step(Run(s, events[..|events| - 1]), events[|events| - 1])
  }

  /** Any disk, of journals that name processes that lived, and no run yet. */
  predicate Init(s: State) {
    s.runs == [] && s.stops == [] && s.alive <= s.ever &&
    forall d :: 0 <= d < |s.disk| ==> KnownMarker(s.disk[d], s.ever)
  }

  // ---------------------------------------------------------------------
  // Properties
  // ---------------------------------------------------------------------

  predicate Holds(marker: Marker, ids: seq<Identity>) {
    marker.File? && marker.synced && marker.content == Journal(ids)
  }

  /** Whoever was told to stop is gone, or a crash-proof journal says who it is. */
  predicate Accounted(s: State, dir: nat, ids: seq<Identity>) {
    Gone(ids, s.alive) || (dir < |s.disk| && Holds(s.disk[dir], ids))
  }

  predicate Covered(s: State) {
    forall j :: 0 <= j < |s.stops| ==> Accounted(s, s.stops[j].dir, s.stops[j].ids)
  }

  /** The step removes another journal than the one the run has verified. */
  predicate Careless(s: State, e: Event) {
    e.Next? && e.run < |s.runs| && s.runs[e.run].pc.Removing? &&
    var pc := s.runs[e.run].pc;
    pc.dir < |s.disk| && s.disk[pc.dir].File? && s.disk[pc.dir].content != Journal(pc.ids)
  }

  ghost predicate Careful(s: State, events: seq<Event>) {
    events == [] ||
    (Careful(s, events[..|events| - 1]) &&
     !Careless(Run(s, events[..|events| - 1]), events[|events| - 1]))
  }

  /** The step looks for recorded processes, one of which is alive, in a snapshot
      that could not read its birth. */
  predicate Blind(s: State, e: Event) {
    e.Next? && e.run < |s.runs| && s.runs[e.run].pc.Verifying? && e.input.Looked? &&
    var ids := s.runs[e.run].pc.ids;
    exists i :: 0 <= i < |ids| && BirthOf(ids[i]) in s.alive && Unreadable(e.input.snapshot, ids[i].pid)
  }

  ghost predicate Sighted(s: State, events: seq<Event>) {
    events == [] ||
    (Sighted(s, events[..|events| - 1]) &&
     !Blind(Run(s, events[..|events| - 1]), events[|events| - 1]))
  }

  predicate Active(pc: Pc) {
    !pc.Done? && !pc.Failed?
  }

  predicate AllEnded(s: State) {
    forall r :: 0 <= r < |s.runs| ==> !Active(s.runs[r].pc)
  }

  /** No run begins before the one before it has ended. */
  ghost predicate OneAtATime(s: State, events: seq<Event>) {
    events == [] ||
    (OneAtATime(s, events[..|events| - 1]) &&
     (events[|events| - 1].Start? ==> AllEnded(Run(s, events[..|events| - 1]))))
  }

  // ---------------------------------------------------------------------
  // What is true in every history
  // ---------------------------------------------------------------------

  predicate KnownPc(pc: Pc, ever: set<Birth>, dirs: nat) {
    match pc
    case Verifying(dir, ids, rest) =>
      Known(ids, ever) && dir < dirs && (rest.Some? ==> KnownPlan(rest.value, dirs))
    case Removing(dir, ids, rest) =>
      Known(ids, ever) && dir < dirs && (rest.Some? ==> KnownPlan(rest.value, dirs))
    case Retiring(plan) => KnownPlan(plan, dirs)
    case Saving(dir, ids, plan) => Known(ids, ever) && dir < dirs && KnownPlan(plan, dirs)
    case Created(dir, ids, plan) => Known(ids, ever) && dir < dirs && KnownPlan(plan, dirs)
    case Written(dir, ids, plan) => Known(ids, ever) && dir < dirs && KnownPlan(plan, dirs)
    case Stopping(dir, ids, plan) => Known(ids, ever) && dir < dirs && KnownPlan(plan, dirs)
    case _ => true
  }

  predicate KnownPlan(plan: seq<Legacy>, dirs: nat) {
    forall i :: 0 <= i < |plan| ==> plan[i].dir < dirs
  }

  lemma GoneStays(ids: seq<Identity>, s: State, alive: set<Birth>)
    requires Known(ids, s.ever) && alive * s.ever <= s.alive
    ensures Gone(ids, s.alive) ==> Gone(ids, alive)
  {
    forall i | 0 <= i < |ids| && BirthOf(ids[i]) !in s.alive
      ensures BirthOf(ids[i]) !in alive
    {
      assert BirthOf(ids[i]) in s.ever;
    }
  }

  lemma KnownGrows(ids: seq<Identity>, ever: set<Birth>, more: set<Birth>)
    requires Known(ids, ever) && ever <= more
    ensures Known(ids, more)
  {
  }

  lemma TreeIsKnown(snapshot: Snapshot, root: nat, tree: seq<Identity>, s: State)
    requires Faithful(snapshot, s.alive) && IsOwnedTree(snapshot, root, tree) && s.alive <= s.ever
    ensures Known(tree, s.ever)
  {
    forall i | 0 <= i < |tree|
      ensures tree[i].born != "" && BirthOf(tree[i]) in s.ever
    {
      RowHasPid(snapshot.processes, tree[i].pid);
    }
  }

  /** A run about to write a file that it created finds its own, or none of its. */
  predicate OwnFile(s: State, r: nat, pc: Pc) {
    match pc
    case Created(dir, ids, _) =>
      dir < |s.disk| && s.disk[dir].File? && s.disk[dir].writer == r ==>
        s.disk[dir] == File(r, Garbage, false)
    case Written(dir, ids, _) =>
      dir < |s.disk| && s.disk[dir].File? && s.disk[dir].writer == r ==>
        s.disk[dir] == File(r, Journal(ids), false)
    case _ => true
  }

  /** What is true in every history: who is named lived, and no run ever writes to
      a synced file. */
  predicate Rooted(s: State) {
    && s.alive <= s.ever
    && (forall d :: 0 <= d < |s.disk| ==> KnownMarker(s.disk[d], s.ever))
    && (forall j :: 0 <= j < |s.stops| ==> Known(s.stops[j].ids, s.ever))
    && (forall r :: 0 <= r < |s.runs| ==>
        KnownPc(s.runs[r].pc, s.ever, |s.disk|) && OwnFile(s, r, s.runs[r].pc))
  }

  lemma PopulationKeepsRooted(s: State, alive: set<Birth>, ever: set<Birth>)
    requires Rooted(s) && s.ever <= ever && alive <= ever
    ensures Rooted(s.(alive := alive, ever := ever))
  {
    forall ids | Known(ids, s.ever)
      ensures Known(ids, ever)
    {
      KnownGrows(ids, s.ever, ever);
    }
  }

  lemma PutKeepsRooted(s: State, r: nat, dir: nat, marker: Marker, pc: Pc)
    requires Rooted(s) && r < |s.runs| && dir < |s.disk| && KnownMarker(marker, s.ever)
    requires marker.File? ==> marker.writer == r
    requires KnownPc(pc, s.ever, |s.disk|) && OwnFile(Put(s, dir, marker), r, pc)
    ensures Rooted(Move(Put(s, dir, marker), r, pc))
  {
    var s' := Move(Put(s, dir, marker), r, pc);
    forall q | 0 <= q < |s'.runs|
      ensures KnownPc(s'.runs[q].pc, s.ever, |s.disk|) && OwnFile(s', q, s'.runs[q].pc)
    {
      assert q != r ==> OwnFile(s, q, s.runs[q].pc);
    }
  }

  lemma MoveKeepsRooted(s: State, r: nat, pc: Pc)
    requires Rooted(s) && r < |s.runs|
    requires KnownPc(pc, s.ever, |s.disk|) && OwnFile(s, r, pc)
    ensures Rooted(Move(s, r, pc))
  {
    var s' := Move(s, r, pc);
    forall q | 0 <= q < |s'.runs|
      ensures KnownPc(s'.runs[q].pc, s.ever, |s.disk|) && OwnFile(s', q, s'.runs[q].pc)
    {
      assert q != r ==> OwnFile(s, q, s.runs[q].pc);
    }
  }

  lemma RemoveKeepsRooted(s: State, r: nat)
    requires Rooted(s) && r < |s.runs| && s.runs[r].pc.Removing?
    ensures Rooted(Advance(s, r, Quiet))
  {
    var dir, pc := s.runs[r].pc.dir, Advance(s, r, Quiet).runs[r].pc;
    if s.disk[dir].File? {
      PutKeepsRooted(s, r, dir, Absent, pc);
    } else {
      MoveKeepsRooted(s, r, pc);
    }
  }

  lemma SaveKeepsRooted(s: State, r: nat)
    requires Rooted(s) && r < |s.runs|
    requires s.runs[r].pc.Saving? || s.runs[r].pc.Created? || s.runs[r].pc.Written?
    ensures Rooted(Advance(s, r, Quiet))
  {
    var dir, ids, pc := s.runs[r].pc.dir, s.runs[r].pc.ids, Advance(s, r, Quiet).runs[r].pc;
    assert OwnFile(s, r, s.runs[r].pc);
    if !s.runs[r].pc.Saving? {
      RewriteKeepsRooted(s, r, dir, ids, s.runs[r].pc.Written?, pc);
    } else if s.disk[dir].Absent? {
      PutKeepsRooted(s, r, dir, File(r, Garbage, false), pc);
    } else {
      MoveKeepsRooted(s, r, pc);
    }
  }

  lemma StopKeepsRooted(s: State, r: nat, input: Input)
    requires Rooted(s) && r < |s.runs| && s.runs[r].pc.Stopping?
    ensures Rooted(Advance(s, r, input))
  {
    if input.Answered? {
      var pc := Advance(s, r, input).runs[r].pc;
      var sent := Advance(s, r, input).stops;
      assert forall j :: 0 <= j < |sent| ==> Known(sent[j].ids, s.ever);
      assert forall q :: 0 <= q < |s.runs| ==>
        OwnFile(s.(stops := sent), q, s.runs[q].pc) == OwnFile(s, q, s.runs[q].pc);
      MoveKeepsRooted(s.(stops := sent), r, pc);
    }
  }

  lemma LookKeepsRooted(s: State, r: nat, input: Input)
    requires Rooted(s) && r < |s.runs|
    requires s.runs[r].pc.Checking? || s.runs[r].pc.Verifying? || s.runs[r].pc.Inspecting? || s.runs[r].pc.Retiring?
    ensures Rooted(Advance(s, r, input))
  {
    var pc := Advance(s, r, input).runs[r].pc;
    if pc.Saving? {
      TreeIsKnown(input.owned, s.runs[r].pc.plan[0].root, input.tree, s);
    }
    if Advance(s, r, input) != s {
      MoveKeepsRooted(s, r, pc);
    }
  }

  lemma AdvanceKeepsRooted(s: State, r: nat, input: Input)
    requires Rooted(s) && r < |s.runs|
    ensures Rooted(Advance(s, r, input))
  {
    match s.runs[r].pc {
      case Removing(_, _, _) => RemoveKeepsRooted(s, r);
      case Saving(_, _, _) => SaveKeepsRooted(s, r);
      case Created(_, _, _) => SaveKeepsRooted(s, r);
      case Written(_, _, _) => SaveKeepsRooted(s, r);
      case Stopping(_, _, _) => StopKeepsRooted(s, r, input);
      case Done =>
      case Failed =>
      case _ => LookKeepsRooted(s, r, input);
    }
  }

  lemma RewriteKeepsRooted(s: State, r: nat, dir: nat, ids: seq<Identity>, synced: bool, pc: Pc)
    requires Rooted(s) && r < |s.runs| && Known(ids, s.ever) && KnownPc(pc, s.ever, |s.disk|)
    requires OwnFile(Rewrite(s, r, dir, Journal(ids), synced), r, pc)
    ensures Rooted(Move(Rewrite(s, r, dir, Journal(ids), synced), r, pc))
  {
    if dir < |s.disk| && s.disk[dir].File? && s.disk[dir].writer == r {
      PutKeepsRooted(s, r, dir, File(r, Journal(ids), synced), pc);
    }
  }

  lemma StepKeepsRooted(s: State, e: Event)
    requires Rooted(s)
    ensures Rooted(Step(s, e))
  {
    match e {
      case Next(r, input) => if r < |s.runs| { AdvanceKeepsRooted(s, r, input); }
      case Exit(births) => PopulationKeepsRooted(s, s.alive - births, s.ever);
      case Spawn(birth) =>
        if birth !in s.ever { PopulationKeepsRooted(s, s.alive + {birth}, s.ever + {birth}); }
      case _ =>
    }
  }

  lemma {:induction false} RunKeepsRooted(s: State, events: seq<Event>)
    requires Init(s)
    ensures Rooted(Run(s, events))
  {
    if events != [] {
      RunKeepsRooted(s, events[..|events| - 1]);
      StepKeepsRooted(Run(s, events[..|events| - 1]), events[|events| - 1]);
    }
  }

  // ---------------------------------------------------------------------
  // When a stop is lost
  // ---------------------------------------------------------------------

  /** The step removes a journal in a directory whose stops are not all carried
      out. */
  predicate Orphans(s: State, e: Event) {
    e.Next? && e.run < |s.runs| && s.runs[e.run].pc.Removing? &&
    s.runs[e.run].pc.dir < |s.disk| && s.disk[s.runs[e.run].pc.dir].File? &&
    exists j :: 0 <= j < |s.stops| &&
      s.stops[j].dir == s.runs[e.run].pc.dir && !Gone(s.stops[j].ids, s.alive)
  }

  /** The step delivers a stop to a live tree whose synced journal is not on disk. */
  predicate Unjournaled(s: State, e: Event) {
    e.Next? && e.run < |s.runs| && s.runs[e.run].pc.Stopping? &&
    e.input.Answered? && e.input.delivered &&
    !Accounted(s, s.runs[e.run].pc.dir, s.runs[e.run].pc.ids)
  }

  ghost predicate NoneOrphaned(s: State, events: seq<Event>) {
    events == [] ||
    (NoneOrphaned(s, events[..|events| - 1]) &&
     !Orphans(Run(s, events[..|events| - 1]), events[|events| - 1]))
  }

  ghost predicate AllJournaled(s: State, events: seq<Event>) {
    events == [] ||
    (AllJournaled(s, events[..|events| - 1]) &&
     !Unjournaled(Run(s, events[..|events| - 1]), events[|events| - 1]))
  }

  /** No stop is lost track of at any point of the history. */
  ghost predicate CoveredThroughout(s: State, events: seq<Event>) {
    Covered(Run(s, events)) && (events == [] || CoveredThroughout(s, events[..|events| - 1]))
  }

  /** A verification that passes finds the recorded processes gone exactly if it
      was not blind to one of them. */
  lemma PassingMeansGone(s: State, r: nat, snapshot: Snapshot)
    requires r < |s.runs| && s.runs[r].pc.Verifying? && Known(s.runs[r].pc.ids, s.ever)
    requires Faithful(snapshot, s.alive) && NoneSurvives(snapshot, s.runs[r].pc.ids)
    ensures Gone(s.runs[r].pc.ids, s.alive) <==> !Blind(s, Next(r, Looked(snapshot)))
  {
    NoneSurvivesWhenGone(snapshot, s.runs[r].pc.ids, s.alive);
  }

  /** A journal that accounts for a stop is only ever removed, never rewritten. */
  lemma DiskKeepsAccounts(s: State, e: Event, dir: nat, ids: seq<Identity>)
    requires Rooted(s) && Known(ids, s.ever) && Accounted(s, dir, ids)
    ensures
      Accounted(Step(s, e), dir, ids) ||
      (!Gone(ids, s.alive) && e.Next? && e.run < |s.runs| &&
       s.runs[e.run].pc.Removing? && s.runs[e.run].pc.dir == dir)
  {
    match e {
      case Next(r, input) =>
        if r < |s.runs| { assert OwnFile(s, r, s.runs[r].pc); }
      case Exit(births) => GoneStays(ids, s, s.alive - births);
      case Spawn(birth) =>
        if birth !in s.ever { GoneStays(ids, s, s.alive + {birth}); }
      case _ =>
    }
  }

  /** Both kinds of step lose track of a stop, and no other kind does. */
  lemma StepLosesAStop(s: State, e: Event)
    requires Rooted(s)
    ensures Orphans(s, e) || Unjournaled(s, e) ==> !Covered(Step(s, e))
    ensures Covered(s) && !Orphans(s, e) && !Unjournaled(s, e) ==> Covered(Step(s, e))
  {
    var s' := Step(s, e);
    if Orphans(s, e) {
      var j :| 0 <= j < |s.stops| &&
        s.stops[j].dir == s.runs[e.run].pc.dir && !Gone(s.stops[j].ids, s.alive);
      assert s'.stops[j] == s.stops[j] && !Accounted(s', s.stops[j].dir, s.stops[j].ids);
    } else if Unjournaled(s, e) {
      var stop := s'.stops[|s.stops|];
      assert !Accounted(s', stop.dir, stop.ids);
    } else if Covered(s) {
      forall j | 0 <= j < |s'.stops|
        ensures Accounted(s', s'.stops[j].dir, s'.stops[j].ids)
      {
        if j < |s.stops| {
          assert s'.stops[j] == s.stops[j];
          DiskKeepsAccounts(s, e, s.stops[j].dir, s.stops[j].ids);
        }
      }
    }
  }

  /** In any history, overlapping runs, blind ones and crashes included: no stop is
      ever lost track of exactly if no step removes a journal while a stop in its
      directory is not carried out, and none delivers a stop to a live tree whose
      synced journal is not on disk. */
  lemma {:induction false} WhenStopsStayCovered(s: State, events: seq<Event>)
    requires Init(s)
    ensures CoveredThroughout(s, events) <==> NoneOrphaned(s, events) && AllJournaled(s, events)
  {
    if events != [] {
      var before, e := events[..|events| - 1], events[|events| - 1];
      WhenStopsStayCovered(s, before);
      RunKeepsRooted(s, before);
      StepLosesAStop(Run(s, before), e);
      if CoveredThroughout(s, before) {
        assert Covered(Run(s, before));
      }
    }
  }

  /** In any history, a verification that passes means that the processes it looked
      for are gone exactly if it was not blind to one of them. */
  lemma PassingIsSeeing(s: State, events: seq<Event>, r: nat, snapshot: Snapshot)
    requires Init(s) && r < |Run(s, events).runs| && Run(s, events).runs[r].pc.Verifying?
    requires Step(Run(s, events), Next(r, Looked(snapshot))).runs[r].pc.Removing?
    ensures
      var s' := Run(s, events);
      Gone(s'.runs[r].pc.ids, s'.alive) <==> !Blind(s', Next(r, Looked(snapshot)))
  {
    RunKeepsRooted(s, events);
    PassingMeansGone(Run(s, events), r, snapshot);
  }

  // ---------------------------------------------------------------------
  // Runs that keep to their own journals
  // ---------------------------------------------------------------------

  /** What a run may rely on about the journal it saved or verified. */
  predicate Claim(s: State, r: nat, pc: Pc) {
    match pc
    case Removing(dir, ids, rest) => Gone(ids, s.alive)
    case Verifying(dir, ids, Some(_)) => Accounted(s, dir, ids)
    case Created(dir, ids, _) => dir < |s.disk| && s.disk[dir] == File(r, Garbage, false)
    case Written(dir, ids, _) =>
      dir < |s.disk| &&
      (s.disk[dir] == File(r, Journal(ids), false) ||
       (Gone(ids, s.alive) && (s.disk[dir].File? ==> s.disk[dir].writer != r)))
    case Stopping(dir, ids, _) => Accounted(s, dir, ids)
    case _ => true
  }

  predicate Claims(s: State) {
    forall r :: 0 <= r < |s.runs| ==> Claim(s, r, s.runs[r].pc)
  }

  /** Nothing is lost by a step that is not careless. */
  lemma CarefulKeepsAccounts(s: State, e: Event, dir: nat, ids: seq<Identity>)
    requires Rooted(s) && Claims(s) && !Careless(s, e)
    requires Known(ids, s.ever) && Accounted(s, dir, ids)
    ensures Accounted(Step(s, e), dir, ids)
  {
    DiskKeepsAccounts(s, e, dir, ids);
    if e.Next? && e.run < |s.runs| {
      assert Claim(s, e.run, s.runs[e.run].pc);
    }
  }

  lemma CarefulLosesNoStop(s: State, e: Event)
    requires Rooted(s) && Claims(s) && !Careless(s, e) && Covered(s)
    ensures !Orphans(s, e) && !Unjournaled(s, e)
  {
    if e.Next? && e.run < |s.runs| {
      assert Claim(s, e.run, s.runs[e.run].pc);
      assert forall j :: 0 <= j < |s.stops| ==> Accounted(s, s.stops[j].dir, s.stops[j].ids);
    }
  }

  lemma OthersKeepClaims(s: State, e: Event, q: nat)
    requires Rooted(s) && Claims(s) && !Careless(s, e)
    requires q < |s.runs| && !e.Crash? && (e.Next? ==> e.run != q)
    ensures Claim(Step(s, e), q, s.runs[q].pc)
  {
    assert KnownPc(s.runs[q].pc, s.ever, |s.disk|) && Claim(s, q, s.runs[q].pc);
    match s.runs[q].pc {
      case Verifying(dir, ids, Some(_)) => CarefulKeepsAccounts(s, e, dir, ids);
      case Stopping(dir, ids, _) => CarefulKeepsAccounts(s, e, dir, ids);
      case Removing(_, ids, _) => GoneIsKept(s, e, ids);
      case Written(dir, ids, _) => WrittenKeepsClaim(s, e, q);
      case Created(dir, _, _) =>
        if e.Next? && e.run < |s.runs| { assert Claim(s, e.run, s.runs[e.run].pc); }
      case _ =>
    }
  }

  lemma GoneIsKept(s: State, e: Event, ids: seq<Identity>)
    requires Rooted(s) && Known(ids, s.ever) && Gone(ids, s.alive)
    ensures Gone(ids, Step(s, e).alive)
  {
    if e.Exit? {
      GoneStays(ids, s, s.alive - e.births);
    } else if e.Spawn? && e.birth !in s.ever {
      GoneStays(ids, s, s.alive + {e.birth});
    }
  }

  lemma WrittenKeepsClaim(s: State, e: Event, q: nat)
    requires Rooted(s) && Claims(s) && !Careless(s, e)
    requires q < |s.runs| && s.runs[q].pc.Written? && !e.Crash? && (e.Next? ==> e.run != q)
    ensures Claim(Step(s, e), q, s.runs[q].pc)
  {
    assert KnownPc(s.runs[q].pc, s.ever, |s.disk|) && Claim(s, q, s.runs[q].pc);
    if Gone(s.runs[q].pc.ids, s.alive) {
      GoneIsKept(s, e, s.runs[q].pc.ids);
    }
    if e.Next? && e.run < |s.runs| {
      assert Claim(s, e.run, s.runs[e.run].pc);
    }
  }

  lemma OwnClaimHolds(s: State, r: nat, input: Input)
    requires Rooted(s) && Claims(s) && r < |s.runs|
    requires !Careless(s, Next(r, input)) && !Blind(s, Next(r, input))
    ensures Claim(Advance(s, r, input), r, Advance(s, r, input).runs[r].pc)
  {
    var pc := s.runs[r].pc;
    assert KnownPc(pc, s.ever, |s.disk|) && Claim(s, r, pc);
    if pc.Verifying? && Advance(s, r, input).runs[r].pc.Removing? {
      PassingMeansGone(s, r, input.snapshot);
    }
  }

  lemma StepKeepsClaims(s: State, e: Event)
    requires Rooted(s) && Claims(s) && !Careless(s, e) && !Blind(s, e)
    ensures Claims(Step(s, e))
  {
    var s' := Step(s, e);
    forall q | 0 <= q < |s'.runs|
      ensures Claim(s', q, s'.runs[q].pc)
    {
      if e.Next? && e.run == q && q < |s.runs| {
        OwnClaimHolds(s, q, e.input);
      } else if q < |s.runs| && !e.Crash? {
        OthersKeepClaims(s, e, q);
        if e.Next? && e.run < |s.runs| {
          AdvanceMovesOne(s, e.run, e.input);
        }
      } else if q < |s.runs| {
        assert Claim(s, q, s.runs[q].pc);
      }
    }
  }

  /** However many runs there are and however they, the processes and crashes
      interleave: as long as no run removes a journal it did not verify and none
      is blind to a process it looks for, every process tree that was told to stop
      is, at any time, gone or named in a journal that survives a crash. */
  lemma {:induction false} StopsAreJournaled(s: State, events: seq<Event>)
    requires Init(s) && Careful(s, events) && Sighted(s, events)
    ensures CoveredThroughout(s, events) && Claims(Run(s, events))
  {
    if events != [] {
      var before, e := events[..|events| - 1], events[|events| - 1];
      StopsAreJournaled(s, before);
      RunKeepsRooted(s, before);
      CarefulLosesNoStop(Run(s, before), e);
      StepLosesAStop(Run(s, before), e);
      StepKeepsClaims(Run(s, before), e);
    }
  }

  // ---------------------------------------------------------------------
  // What later runs find
  // ---------------------------------------------------------------------

  /** The run has looked for a journal in directory `d`. */
  predicate Checked(pc: Pc, d: nat) {
    match pc
    case Checking(i) => d < i
    case Verifying(dir, _, None) => d < dir
    case Removing(dir, _, None) => d < dir
    case Failed => false
    case _ => true
  }

  /** The run waits for its own stop in directory `d`. */
  predicate Awaits(pc: Pc, d: nat) {
    (pc.Verifying? || pc.Removing?) && pc.rest.Some? && pc.dir == d
  }

  /** What a run knows about the stops sent before it began and about its own. */
  predicate Settled(s: State, r: nat, run: Process, stop: Stopped, j: nat) {
    && (j < run.since && Checked(run.pc, stop.dir) ==> Gone(stop.ids, s.alive))
    && (stop.run == r && !run.pc.Failed? && !Awaits(run.pc, stop.dir) ==> Gone(stop.ids, s.alive))
  }

  predicate AllSettled(s: State) {
    && (forall r :: 0 <= r < |s.runs| ==> s.runs[r].since <= |s.stops|)
    && (forall j :: 0 <= j < |s.stops| ==> s.stops[j].run < |s.runs|)
    && forall r, j :: 0 <= r < |s.runs| && 0 <= j < |s.stops| ==>
        Settled(s, r, s.runs[r], s.stops[j], j)
  }

  /** A run that finds or makes a directory free of a journal finds its stops carried
      out. */
  lemma FreeDirectorySettles(s: State, r: nat, input: Input, j: nat)
    requires r < |s.runs| && j < |s.stops| && Settled(s, r, s.runs[r], s.stops[j], j)
    requires s.runs[r].pc.Checking? || s.runs[r].pc.Removing?
    requires Covered(s) && Covered(Advance(s, r, input))
    ensures
      var s' := Advance(s, r, input);
      Settled(s', r, s'.runs[r], s.stops[j], j)
  {
    var s' := Advance(s, r, input);
    assert s'.stops[j] == s.stops[j];
    assert Accounted(s, s.stops[j].dir, s.stops[j].ids);
    assert Accounted(s', s.stops[j].dir, s.stops[j].ids);
  }

  lemma OtherMovesSettle(s: State, r: nat, input: Input, j: nat)
    requires r < |s.runs| && j < |s.stops| && Settled(s, r, s.runs[r], s.stops[j], j)
    requires !s.runs[r].pc.Checking? && !s.runs[r].pc.Removing?
    ensures
      var s' := Advance(s, r, input);
      Settled(s', r, s'.runs[r], s.stops[j], j)
  {
  }

  /** A step of a run sends at most one stop, which the run then awaits unless it
      fails. */
  lemma AdvanceSends(s: State, r: nat, input: Input)
    requires r < |s.runs|
    ensures
      var s' := Advance(s, r, input);
      s'.alive == s.alive && s.stops <= s'.stops && |s'.stops| <= |s.stops| + 1 &&
      s'.runs[r].since == s.runs[r].since &&
      (|s'.stops| > |s.stops| ==>
        var stop := s'.stops[|s.stops|];
        stop.run == r && (s'.runs[r].pc.Failed? || Awaits(s'.runs[r].pc, stop.dir)))
  {
  }

  lemma SettledAfter(s: State, s': State, r: nat)
    requires AllSettled(s) && r < |s.runs| == |s'.runs|
    requires forall q :: 0 <= q < |s'.runs| && q != r ==> s'.runs[q] == s.runs[q]
    requires s'.alive == s.alive && s.stops <= s'.stops && |s'.stops| <= |s.stops| + 1
    requires s'.runs[r].since == s.runs[r].since
    requires |s'.stops| > |s.stops| ==>
      var stop := s'.stops[|s.stops|];
      stop.run == r && (s'.runs[r].pc.Failed? || Awaits(s'.runs[r].pc, stop.dir))
    requires forall j :: 0 <= j < |s.stops| ==> Settled(s', r, s'.runs[r], s.stops[j], j)
    ensures AllSettled(s')
  {
    forall q, j | 0 <= q < |s'.runs| && 0 <= j < |s'.stops|
      ensures Settled(s', q, s'.runs[q], s'.stops[j], j)
    {
      if j < |s.stops| {
        assert s'.stops[j] == s.stops[j] && Settled(s, q, s.runs[q], s.stops[j], j);
      }
    }
  }

  lemma AdvanceKeepsSettled(s: State, r: nat, input: Input)
    requires AllSettled(s) && r < |s.runs|
    requires Covered(s) && Covered(Advance(s, r, input))
    ensures AllSettled(Advance(s, r, input))
  {
    var s' := Advance(s, r, input);
    AdvanceMovesOne(s, r, input);
    AdvanceSends(s, r, input);
    forall j | 0 <= j < |s.stops|
      ensures Settled(s', r, s'.runs[r], s.stops[j], j)
    {
      assert Settled(s, r, s.runs[r], s.stops[j], j);
      if s.runs[r].pc.Checking? || s.runs[r].pc.Removing? {
        FreeDirectorySettles(s, r, input, j);
      } else {
        OtherMovesSettle(s, r, input, j);
      }
    }
    SettledAfter(s, s', r);
  }

  lemma StepKeepsSettled(s: State, e: Event)
    requires Rooted(s) && AllSettled(s) && Covered(s) && Covered(Step(s, e))
    ensures AllSettled(Step(s, e))
  {
    var s' := Step(s, e);
    if e.Next? {
      if e.run < |s.runs| { AdvanceKeepsSettled(s, e.run, e.input); }
    } else {
      forall q, j | 0 <= q < |s'.runs| && 0 <= j < |s'.stops|
        ensures Settled(s', q, s'.runs[q], s'.stops[j], j)
      {
        if Gone(s.stops[j].ids, s.alive) { GoneIsKept(s, e, s.stops[j].ids); }
        if q < |s.runs| { assert Settled(s, q, s.runs[q], s.stops[j], j); }
      }
    }
  }

  lemma {:induction false} RunKeepsSettled(s: State, events: seq<Event>)
    requires Init(s) && CoveredThroughout(s, events)
    ensures AllSettled(Run(s, events))
  {
    if events != [] {
      var before := events[..|events| - 1];
      RunKeepsSettled(s, before);
      RunKeepsRooted(s, before);
      assert CoveredThroughout(s, before);
      StepKeepsSettled(Run(s, before), events[|events| - 1]);
    }
  }

  /** In any history that loses track of no stop, whatever its runs: a run that goes
      on from its journal checks to inspect, or to stop anything, finds every stop
      that was sent before it began carried out; one that reports success has seen
      its own stops carried out as well. */
  lemma LaterRunsFindItSettled(s: State, events: seq<Event>, r: nat, j: nat)
    requires Init(s) && NoneOrphaned(s, events) && AllJournaled(s, events)
    requires r < |Run(s, events).runs| && j < |Run(s, events).stops|
    ensures
      var s' := Run(s, events);
      var run, stop := s'.runs[r], s'.stops[j];
      (j < run.since && Checked(run.pc, stop.dir) ==> Gone(stop.ids, s'.alive)) &&
      (run.pc.Done? && (j < run.since || stop.run == r) ==> Gone(stop.ids, s'.alive))
  {
    WhenStopsStayCovered(s, events);
    RunKeepsSettled(s, events);
    var s' := Run(s, events);
    assert Settled(s', r, s'.runs[r], s'.stops[j], j);
  }

  // ---------------------------------------------------------------------
  // What a run retires
  // ---------------------------------------------------------------------

  /** The stops of one run, in order. */
  function Own(stops: seq<Stopped>, r: nat): seq<Stopped> {
    if stops == [] then []
    else
      var last, before := stops[|stops| - 1], Own(stops[..|stops| - 1], r);
      if last.run == r then before + [last] else before
  }

  lemma {:induction false} OwnAreStops(stops: seq<Stopped>, r: nat, i: nat)
    requires i < |Own(stops, r)|
    ensures Own(stops, r)[i] in stops && Own(stops, r)[i].run == r
  {
    if i < |Own(stops[..|stops| - 1], r)| {
      OwnAreStops(stops[..|stops| - 1], r, i);
    }
  }

  lemma OwnGrows(stops: seq<Stopped>, stop: Stopped, r: nat)
    ensures Own(stops + [stop], r) == Own(stops, r) + if stop.run == r then [stop] else []
  {
    assert (stops + [stop])[..|stops|] == stops;
  }

  /** The step in which the run takes the list of legacy daemons. */
  predicate TakesList(s: State, e: Event, r: nat) {
    && e.Next? && e.run == r && r < |s.runs| && s.runs[r].pc.Inspecting? && e.input.Listed?
    && forall i :: 0 <= i < |e.input.plan| ==> e.input.plan[i].dir < |s.disk|
  }

  /** A run that was not asked to stop reports the list; one that was goes on with a
      verified list and fails on any other. */
  lemma ListDecides(s: State, e: Event, r: nat)
    requires TakesList(s, e, r)
    ensures Step(s, e).runs[r].pc ==
      if !s.runs[r].stop then Done else if e.input.verified then Retiring(e.input.plan) else Failed
  {
  }

  /** The list the run has taken, and whether all in it were verified. */
  ghost function Listing(s: State, events: seq<Event>, r: nat): Option<(seq<Legacy>, bool)> {
    if events == [] then None
    else
      var before, e := events[..|events| - 1], events[|events| - 1];
      if TakesList(Run(s, before), e, r) then Some((e.input.plan, e.input.verified))
      else Listing(s, before, r)
  }

  /** The stop is for this entry: in its directory, and for a tree with its process. */
  predicate Serves(stop: Stopped, entry: Legacy) {
    stop.dir == entry.dir && Includes(stop.ids, entry.root)
  }

  predicate Includes(ids: seq<Identity>, pid: nat) {
    exists i :: 0 <= i < |ids| && ids[i].pid == pid
  }

  /** The stops serve the first entries of the plan, one each and in order. */
  predicate ServesInOrder(stops: seq<Stopped>, plan: seq<Legacy>) {
    |stops| <= |plan| && forall i :: 0 <= i < |stops| ==> Serves(stops[i], plan[i])
  }

  /** Where the run is in its plan, having served `own`. */
  predicate AtPlan(pc: Pc, plan: seq<Legacy>, own: seq<Stopped>) {
    && ServesInOrder(own, plan)
    && (forall i :: 0 <= i < |own| ==> own[i].acknowledged || (pc.Failed? && i == |own| - 1))
    && match pc
       case Retiring(later) => later == plan[|own|..]
       case Saving(dir, ids, later) => IsNext(dir, ids, later, plan, |own|)
       case Created(dir, ids, later) => IsNext(dir, ids, later, plan, |own|)
       case Written(dir, ids, later) => IsNext(dir, ids, later, plan, |own|)
       case Stopping(dir, ids, later) => IsNext(dir, ids, later, plan, |own|)
       case Verifying(_, ids, rest) =>
         rest == Some(plan[|own|..]) && own != [] && own[|own| - 1].ids == ids
       case Removing(_, ids, rest) =>
         rest == Some(plan[|own|..]) && own != [] && own[|own| - 1].ids == ids
       case Done => |own| == |plan|
       case Failed => true
       case _ => false
  }

  predicate IsNext(dir: nat, ids: seq<Identity>, later: seq<Legacy>, plan: seq<Legacy>, k: nat) {
    k < |plan| && later == plan[k + 1..] && dir == plan[k].dir && Includes(ids, plan[k].root)
  }

  predicate FollowsList(run: Process, listing: Option<(seq<Legacy>, bool)>, own: seq<Stopped>) {
    match listing
    case None =>
      own == [] &&
      (run.pc.Checking? || run.pc.Inspecting? || run.pc.Failed? ||
       ((run.pc.Verifying? || run.pc.Removing?) && run.pc.rest.None?))
    case Some((plan, verified)) =>
      if run.stop && verified then AtPlan(run.pc, plan, own)
      else own == [] && (if run.stop then run.pc.Failed? else run.pc.Done? || run.pc.Failed?)
  }

  lemma RootIsIncluded(snapshot: Snapshot, root: nat, tree: seq<Identity>)
    requires IsOwnedTree(snapshot, root, tree)
    ensures Includes(tree, root)
  {
    assert root in Pids(tree);
    var i :| 0 <= i < |tree| && tree[i].pid == root;
  }

  /** A step of the run, with the list it has taken if this is the step. */
  lemma MoverFollowsList(s: State, r: nat, input: Input, listing: Option<(seq<Legacy>, bool)>)
    requires r < |s.runs| && FollowsList(s.runs[r], listing, Own(s.stops, r))
    ensures
      var s' := Advance(s, r, input);
      FollowsList(
        s'.runs[r],
        if TakesList(s, Next(r, input), r) then Some((input.plan, input.verified)) else listing,
        Own(s'.stops, r))
  {
    match s.runs[r].pc {
      case Stopping(_, _, _) => StopFollowsList(s, r, input, listing);
      case Inspecting => ListIsTaken(s, r, input, listing);
      case Retiring(_) => PlanFollowsList(s, r, input, listing);
      case Saving(_, _, _) => SaveFollowsList(s, r, listing);
      case Created(_, _, _) => SaveFollowsList(s, r, listing);
      case Written(_, _, _) => SaveFollowsList(s, r, listing);
      case _ => LookFollowsList(s, r, input, listing);
    }
  }

  lemma ListIsTaken(s: State, r: nat, input: Input, listing: Option<(seq<Legacy>, bool)>)
    requires r < |s.runs| && FollowsList(s.runs[r], listing, Own(s.stops, r)) && s.runs[r].pc.Inspecting?
    ensures
      var s' := Advance(s, r, input);
      FollowsList(
        s'.runs[r],
        if TakesList(s, Next(r, input), r) then Some((input.plan, input.verified)) else listing,
        Own(s'.stops, r))
  {
  }

  lemma LookFollowsList(s: State, r: nat, input: Input, listing: Option<(seq<Legacy>, bool)>)
    requires r < |s.runs| && FollowsList(s.runs[r], listing, Own(s.stops, r))
    requires
      var pc := s.runs[r].pc;
      pc.Checking? || pc.Verifying? || pc.Removing? || pc.Done? || pc.Failed?
    ensures
      var s' := Advance(s, r, input);
      FollowsList(s'.runs[r], listing, Own(s'.stops, r))
  {
  }

  lemma PlanFollowsList(s: State, r: nat, input: Input, listing: Option<(seq<Legacy>, bool)>)
    requires r < |s.runs| && FollowsList(s.runs[r], listing, Own(s.stops, r)) && s.runs[r].pc.Retiring?
    ensures
      var s' := Advance(s, r, input);
      FollowsList(s'.runs[r], listing, Own(s'.stops, r))
  {
    if Advance(s, r, input).runs[r].pc.Saving? {
      RootIsIncluded(input.owned, s.runs[r].pc.plan[0].root, input.tree);
    }
  }

  lemma SaveFollowsList(s: State, r: nat, listing: Option<(seq<Legacy>, bool)>)
    requires r < |s.runs| && FollowsList(s.runs[r], listing, Own(s.stops, r))
    requires
      var pc := s.runs[r].pc;
      pc.Saving? || pc.Created? || pc.Written?
    ensures
      var s' := Advance(s, r, Quiet);
      FollowsList(s'.runs[r], listing, Own(s'.stops, r))
  {
  }

  lemma OneMoreServed(pc: Pc, plan: seq<Legacy>, own: seq<Stopped>, stop: Stopped)
    requires pc.Stopping? && AtPlan(pc, plan, own) && stop.dir == pc.dir && stop.ids == pc.ids
    ensures AtPlan(
      if stop.acknowledged then Verifying(pc.dir, pc.ids, Some(pc.plan)) else Failed, plan, own + [stop])
  {
    assert Serves(stop, plan[|own|]);
  }

  lemma StopFollowsList(s: State, r: nat, input: Input, listing: Option<(seq<Legacy>, bool)>)
    requires r < |s.runs| && FollowsList(s.runs[r], listing, Own(s.stops, r))
    requires s.runs[r].pc.Stopping?
    ensures
      var s' := Advance(s, r, input);
      FollowsList(s'.runs[r], listing, Own(s'.stops, r))
  {
    if input.Answered? && input.delivered {
      var pc, own := s.runs[r].pc, Own(s.stops, r);
      var stop := Stopped(r, pc.dir, pc.ids, input.acknowledged);
      OwnGrows(s.stops, stop, r);
      OneMoreServed(pc, listing.value.0, own, stop);
    }
  }

  lemma {:induction false} RunsFollowTheirLists(s: State, events: seq<Event>, r: nat)
    requires Init(s) && r < |Run(s, events).runs|
    ensures FollowsList(Run(s, events).runs[r], Listing(s, events, r), Own(Run(s, events).stops, r))
  {
    if events != [] {
      var before, e := events[..|events| - 1], events[|events| - 1];
      if r < |Run(s, before).runs| {
        RunsFollowTheirLists(s, before, r);
        StepFollowsList(Run(s, before), e, r, Listing(s, before, r));
      } else {
        NewRunHasNoList(s, before, r);
        NewRunStarts(Run(s, before), e, r);
      }
    }
  }

  lemma NewRunStarts(s: State, e: Event, r: nat)
    requires |s.runs| <= r < |Step(s, e).runs|
    ensures Step(s, e).runs[r].pc == Checking(0) && Step(s, e).stops == s.stops && !TakesList(s, e, r)
  {
    if e.Next? && e.run < |s.runs| {
      AdvanceMovesOne(s, e.run, e.input);
    }
  }

  lemma StepFollowsList(s: State, e: Event, r: nat, listing: Option<(seq<Legacy>, bool)>)
    requires r < |s.runs| && FollowsList(s.runs[r], listing, Own(s.stops, r))
    ensures r < |Step(s, e).runs| && FollowsList(
      Step(s, e).runs[r],
      if TakesList(s, e, r) then Some((e.input.plan, e.input.verified)) else listing,
      Own(Step(s, e).stops, r))
  {
    if e.Next? && e.run == r {
      MoverFollowsList(s, r, e.input, listing);
    } else if e.Next? && e.run < |s.runs| {
      OthersLeaveOwn(s, e.run, e.input, r);
    }
  }

  lemma {:induction false} NewRunHasNoList(s: State, events: seq<Event>, r: nat)
    requires Init(s) && r >= |Run(s, events).runs|
    ensures Listing(s, events, r) == None && Own(Run(s, events).stops, r) == []
  {
    if events != [] {
      var before, e := events[..|events| - 1], events[|events| - 1];
      NewRunHasNoList(s, before, r);
      if e.Next? && e.run < |Run(s, before).runs| {
        OthersLeaveOwn(Run(s, before), e.run, e.input, r);
      }
    }
  }

  /** In every history the stops of a run are for the entries of the list it took, in
      order and one each; all but perhaps the last were acknowledged. A run that
      reports success has stopped every entry, each acknowledged. One whose list was
      not all verified fails without a stop, and one that did not ask to stop, or
      took no list, sends none. */
  lemma RunsRetireTheirList(s: State, events: seq<Event>, r: nat)
    requires Init(s) && r < |Run(s, events).runs|
    ensures
      var run, own := Run(s, events).runs[r], Own(Run(s, events).stops, r);
      match Listing(s, events, r)
      case None => own == [] && !run.pc.Done?
      case Some((plan, verified)) =>
        && ServesInOrder(own, plan)
        && (forall i :: 0 <= i < |own| - 1 ==> own[i].acknowledged)
        && (run.stop && verified && run.pc.Done? ==>
            |own| == |plan| && forall i :: 0 <= i < |own| ==> own[i].acknowledged)
        && (run.stop && !verified ==> own == [] && run.pc.Failed?)
        && (!run.stop ==> own == [])
  {
    RunsFollowTheirLists(s, events, r);
  }

  /** All that the run has stopped is gone, but perhaps what it still waits for. */
  predicate OwnGone(s: State, r: nat)
    requires r < |s.runs|
  {
    var pc, own := s.runs[r].pc, Own(s.stops, r);
    pc.Failed? ||
    forall i :: 0 <= i < |own| ==>
      Gone(own[i].ids, s.alive) || (i == |own| - 1 && pc.Verifying? && pc.rest.Some?)
  }

  lemma MoverKeepsOwnGone(s: State, r: nat, input: Input, listing: Option<(seq<Legacy>, bool)>)
    requires Rooted(s) && r < |s.runs| && OwnGone(s, r) && !Blind(s, Next(r, input))
    requires FollowsList(s.runs[r], listing, Own(s.stops, r))
    ensures OwnGone(Advance(s, r, input), r)
  {
    match s.runs[r].pc {
      case Stopping(_, _, _) => SenderKeepsOwnGone(s, r, input);
      case Verifying(_, _, _) => VerifierKeepsOwnGone(s, r, input, listing);
      case _ => OtherMoveKeepsOwnGone(s, r, input);
    }
  }

  lemma SenderKeepsOwnGone(s: State, r: nat, input: Input)
    requires r < |s.runs| && OwnGone(s, r) && s.runs[r].pc.Stopping?
    ensures OwnGone(Advance(s, r, input), r)
  {
    var pc := s.runs[r].pc;
    if input.Answered? && input.delivered {
      OwnGrows(s.stops, Stopped(r, pc.dir, pc.ids, input.acknowledged), r);
    }
  }

  lemma VerifierKeepsOwnGone(s: State, r: nat, input: Input, listing: Option<(seq<Legacy>, bool)>)
    requires Rooted(s) && r < |s.runs| && OwnGone(s, r) && !Blind(s, Next(r, input))
    requires FollowsList(s.runs[r], listing, Own(s.stops, r)) && s.runs[r].pc.Verifying?
    ensures OwnGone(Advance(s, r, input), r)
  {
    if Advance(s, r, input).runs[r].pc.Removing? {
      PassingMeansGone(s, r, input.snapshot);
    }
  }

  lemma OtherMoveKeepsOwnGone(s: State, r: nat, input: Input)
    requires r < |s.runs| && OwnGone(s, r) && !s.runs[r].pc.Stopping? && !s.runs[r].pc.Verifying?
    ensures OwnGone(Advance(s, r, input), r)
  {
    assert Advance(s, r, input).stops == s.stops && Advance(s, r, input).alive == s.alive;
  }

  lemma StepKeepsOwnGone(s: State, e: Event, r: nat, listing: Option<(seq<Legacy>, bool)>)
    requires Rooted(s) && r < |s.runs| && OwnGone(s, r) && !Blind(s, e)
    requires FollowsList(s.runs[r], listing, Own(s.stops, r))
    ensures r < |Step(s, e).runs| && OwnGone(Step(s, e), r)
  {
    if e.Next? && e.run == r {
      MoverKeepsOwnGone(s, r, e.input, listing);
    } else if e.Next? && e.run < |s.runs| {
      OthersLeaveOwn(s, e.run, e.input, r);
    } else {
      PopulationKeepsOwnGone(s, e, r);
    }
  }

  /** A step of another run leaves the stops of this one as they are. */
  lemma OthersLeaveOwn(s: State, q: nat, input: Input, r: nat)
    requires q < |s.runs| && r != q
    ensures
      var s' := Advance(s, q, input);
      Own(s'.stops, r) == Own(s.stops, r) && s'.alive == s.alive &&
      (r < |s.runs| ==> r < |s'.runs| && s'.runs[r] == s.runs[r]) && |s'.runs| == |s.runs|
  {
    AdvanceMovesOne(s, q, input);
    AdvanceSends(s, q, input);
    var stops := Advance(s, q, input).stops;
    if stops != s.stops {
      OwnGrows(s.stops, stops[|s.stops|], r);
      assert stops == s.stops + [stops[|s.stops|]];
    }
  }

  lemma PopulationKeepsOwnGone(s: State, e: Event, r: nat)
    requires Rooted(s) && r < |s.runs| && OwnGone(s, r) && (e.Next? ==> e.run >= |s.runs|)
    ensures r < |Step(s, e).runs| && OwnGone(Step(s, e), r)
  {
    if !Step(s, e).runs[r].pc.Failed? {
      forall i | 0 <= i < |Own(s.stops, r)| && Gone(Own(s.stops, r)[i].ids, s.alive)
        ensures Gone(Own(s.stops, r)[i].ids, Step(s, e).alive)
      {
        OwnAreStops(s.stops, r, i);
        GoneIsKept(s, e, Own(s.stops, r)[i].ids);
      }
      assert Step(s, e).stops == s.stops && Step(s, e).runs[r] == s.runs[r];
    }
  }

  /** Where no verification is blind, a run that reports success leaves nothing of
      what it stopped. */
  lemma {:induction false} SuccessMeansGone(s: State, events: seq<Event>, r: nat)
    requires Init(s) && Sighted(s, events) && r < |Run(s, events).runs|
    ensures OwnGone(Run(s, events), r)
    ensures Run(s, events).runs[r].pc.Done? ==>
      forall i :: 0 <= i < |Own(Run(s, events).stops, r)| ==>
        Gone(Own(Run(s, events).stops, r)[i].ids, Run(s, events).alive)
  {
    if events != [] {
      var before, e := events[..|events| - 1], events[|events| - 1];
      if r < |Run(s, before).runs| {
        SuccessMeansGone(s, before, r);
        RunKeepsRooted(s, before);
        RunsFollowTheirLists(s, before, r);
        StepKeepsOwnGone(Run(s, before), e, r, Listing(s, before, r));
      } else {
        NewRunHasNoList(s, before, r);
        NewRunStarts(Run(s, before), e, r);
      }
    }
  }

  // ---------------------------------------------------------------------
  // Runs that do not overlap
  // ---------------------------------------------------------------------

  /** The journal a lone run works with is the one it read or saved. */
  predicate Intact(s: State, r: nat) {
    r < |s.runs| ==>
      match s.runs[r].pc
      case Verifying(dir, ids, _) => dir < |s.disk| && s.disk[dir].File? && s.disk[dir].content == Journal(ids)
      case Removing(dir, ids, _) => dir < |s.disk| && s.disk[dir].File? && s.disk[dir].content == Journal(ids)
      case Created(dir, _, _) => dir < |s.disk| && s.disk[dir].File? && s.disk[dir].writer == r
      case Written(dir, _, _) => dir < |s.disk| && s.disk[dir].File? && s.disk[dir].writer == r
      case Stopping(dir, ids, _) => dir < |s.disk| && Holds(s.disk[dir], ids)
      case _ => true
  }

  /** Only the last run can still be going on. */
  predicate Lone(s: State) {
    && (forall r :: 0 <= r < |s.runs| - 1 ==> !Active(s.runs[r].pc))
    && (|s.runs| > 0 ==> Intact(s, |s.runs| - 1))
  }

  /** A step of one run leaves the others where they are. */
  lemma AdvanceMovesOne(s: State, r: nat, input: Input)
    requires r < |s.runs|
    ensures
      var runs := Advance(s, r, input).runs;
      |runs| == |s.runs| && runs[r].stop == s.runs[r].stop &&
      forall q :: 0 <= q < |runs| && q != r ==> runs[q] == s.runs[q]
  {
    var pc := s.runs[r].pc;
    if pc.Saving? || pc.Created? || pc.Written? || pc.Stopping? {
      SavingMovesOne(s, r, input);
    }
  }

  lemma SavingMovesOne(s: State, r: nat, input: Input)
    requires r < |s.runs|
    requires
      var pc := s.runs[r].pc;
      pc.Saving? || pc.Created? || pc.Written? || pc.Stopping?
    ensures
      var runs := Advance(s, r, input).runs;
      |runs| == |s.runs| && runs[r].stop == s.runs[r].stop &&
      forall q :: 0 <= q < |runs| && q != r ==> runs[q] == s.runs[q]
  {
  }

  lemma AdvanceKeepsIntact(s: State, r: nat, input: Input)
    requires r < |s.runs| && Intact(s, r)
    ensures Intact(Advance(s, r, input), r) && !Careless(s, Next(r, input))
  {
    if s.runs[r].pc.Removing? || s.runs[r].pc.Verifying? {
      assert Intact(Advance(s, r, input), r);
    } else if s.runs[r].pc.Saving? || s.runs[r].pc.Created? || s.runs[r].pc.Written? {
      assert Intact(Advance(s, r, input), r);
    }
  }

  lemma AdvanceKeepsLone(s: State, r: nat, input: Input)
    requires Lone(s) && r < |s.runs| && Active(s.runs[r].pc)
    ensures Lone(Advance(s, r, input)) && !Careless(s, Next(r, input))
  {
    assert r == |s.runs| - 1;
    AdvanceMovesOne(s, r, input);
    AdvanceKeepsIntact(s, r, input);
  }

  lemma StepKeepsLone(s: State, e: Event)
    requires Lone(s) && (e.Start? ==> AllEnded(s))
    ensures Lone(Step(s, e)) && !Careless(s, e)
  {
    match e {
      case Next(r, input) =>
        if r < |s.runs| && Active(s.runs[r].pc) { AdvanceKeepsLone(s, r, input); }
      case _ =>
    }
  }

  lemma {:induction false} LoneRuns(s: State, events: seq<Event>)
    requires Init(s) && OneAtATime(s, events)
    ensures Lone(Run(s, events)) && Careful(s, events)
  {
    if events != [] {
      LoneRuns(s, events[..|events| - 1]);
      StepKeepsLone(Run(s, events[..|events| - 1]), events[|events| - 1]);
    }
  }

  /** A stop that is delivered. */
  ghost predicate Delivers(s: State, e: Event) {
    |Step(s, e).stops| != |s.stops|
  }

  lemma LoneStopIsJournaled(s: State, e: Event)
    requires Lone(s)
    ensures !Unjournaled(s, e)
    ensures Delivers(s, e) ==>
      var stops := Step(s, e).stops;
      |stops| == |s.stops| + 1 &&
      stops[|s.stops|].dir < |s.disk| && Holds(s.disk[stops[|s.stops|].dir], stops[|s.stops|].ids)
  {
    if Delivers(s, e) {
      assert e.Next? && s.runs[e.run].pc.Stopping?;
    }
  }

  /** Runs that follow one another, crashes included, remove only the journal they
      verified and deliver a stop only while its synced journal is on disk; so
      blindness alone can make them lose track of one. */
  lemma SequentialRunsAreJournaled(s: State, events: seq<Event>)
    requires Init(s) && OneAtATime(s, events)
    ensures Careful(s, events) && AllJournaled(s, events)
    ensures Sighted(s, events) ==> CoveredThroughout(s, events)
    ensures CoveredThroughout(s, events) <==> NoneOrphaned(s, events)
    ensures forall e :: Delivers(Run(s, events), e) ==>
      var before, stops := Run(s, events), Step(Run(s, events), e).stops;
      |stops| == |before.stops| + 1 &&
      stops[|before.stops|].dir < |before.disk| &&
      Holds(before.disk[stops[|before.stops|].dir], stops[|before.stops|].ids)
  {
    LoneRuns(s, events);
    forall e | Delivers(Run(s, events), e) {
      LoneStopIsJournaled(Run(s, events), e);
    }
    LoneRunsJournal(s, events);
    if Sighted(s, events) {
      StopsAreJournaled(s, events);
      assert CoveredThroughout(s, events);
    }
    WhenStopsStayCovered(s, events);
  }

  lemma {:induction false} LoneRunsJournal(s: State, events: seq<Event>)
    requires Init(s) && OneAtATime(s, events)
    ensures AllJournaled(s, events)
  {
    if events != [] {
      LoneRunsJournal(s, events[..|events| - 1]);
      LoneRuns(s, events[..|events| - 1]);
      LoneStopIsJournaled(Run(s, events[..|events| - 1]), events[|events| - 1]);
    }
  }

  /** A run passes a directory only while there is no journal in it; it takes up one
      that names processes if it may stop them, and refuses any other. */
  lemma JournalsAreNotPassed(s: State, r: nat, i: nat)
    requires r < |s.runs| && s.runs[r].pc == Checking(i) && i < |s.disk|
    ensures
      var pc := Advance(s, r, Quiet).runs[r].pc;
      && (pc == Checking(i + 1) <==> s.disk[i].Absent?)
      && (pc.Verifying? <==>
            s.runs[r].stop && s.disk[i].File? && s.disk[i].content.Journal? && s.disk[i].content.ids != [])
      && (pc.Verifying? ==> pc == Verifying(i, s.disk[i].content.ids, None))
      && (pc.Checking? || pc.Verifying? || pc.Failed?)
  {
  }

  /** A run that was not asked to stop anything only looks. */
  lemma {:induction false} ListingRunsOnlyLook(s: State, events: seq<Event>, r: nat, input: Input)
    requires Init(s) && r < |Run(s, events).runs| && !Run(s, events).runs[r].stop
    ensures
      var before := Run(s, events);
      var pc := before.runs[r].pc;
      (pc.Checking? || pc.Inspecting? || pc.Done? || pc.Failed?) &&
      Advance(before, r, input).disk == before.disk && Advance(before, r, input).stops == before.stops
  {
    if events != [] {
      var before, e := Run(s, events[..|events| - 1]), events[|events| - 1];
      if e.Next? && e.run < |before.runs| {
        AdvanceMovesOne(before, e.run, e.input);
      }
      if r < |before.runs| {
        ListingRunsOnlyLook(s, events[..|events| - 1], r, if e.Next? then e.input else Quiet);
      }
    }
  }
}
