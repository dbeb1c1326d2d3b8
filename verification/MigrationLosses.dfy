/** Three histories of migration runs after which a stop has neither been carried
    out nor a journal: two of runs that overlap, one of a run that is blind. */
module MigrationLosses {
  import opened Wrappers
  import opened ProcessTree
  import opened Migration

  const OLD_DAEMON := Identity(1, 0, "before", "me")
  const DAEMON := Identity(2, 0, "after", "me")
  const LEFT_BEHIND := File(0, Journal([OLD_DAEMON]), true)

  /** What the process table shows, and what it shows if the daemon's birth cannot
      be read. */
  const CLEAR := Snapshot("me", [DAEMON])
  const UNCLEAR := Snapshot("me", [Identity(2, 0, "", "me")])

  lemma ClearView()
    ensures Faithful(CLEAR, {BirthOf(DAEMON)}) && NoneSurvives(CLEAR, [OLD_DAEMON])
    ensures IsOwnedTree(CLEAR, 2, [DAEMON])
  {
    assert CLEAR.processes[0] == DAEMON;
    assert Row(CLEAR.processes, 2) == Some(DAEMON);
    assert Descends(CLEAR.processes, 2, 2);
    assert Pids([DAEMON]) == {2};
  }

  lemma UnclearView()
    ensures Faithful(UNCLEAR, {BirthOf(DAEMON)}) && NoneSurvives(UNCLEAR, [DAEMON])
    ensures Unreadable(UNCLEAR, 2)
  {
    assert UNCLEAR.processes[0].pid == 2;
  }

  datatype Tale =
    | LateRemoval     // the journal goes after the stop was sent
    | EarlyRemoval    // the journal goes between its sync and the stop
    | BlindRun

  function Length(tale: Tale): nat {
    if tale.BlindRun? then 12 else 15
  }

  /** In the first two tales both runs verify a journal left behind, and the second
      removes it and goes on to stop a daemon, and is killed waiting for it; the
      first removes the journal it verified, which is no longer the one there. In
      the third a single run stops the daemon, and verifies that without seeing it. */
  function Script(tale: Tale, i: nat): Event {
    if tale.BlindRun? then
      if i == 0 then Start(true)
      else if i == 3 then Next(0, Listed([Legacy(2, 0)], true))
      else if i == 4 then Next(0, Recognised(CLEAR, [DAEMON]))
      else if i == 8 then Next(0, Answered(true, true))
      else if i == 9 then Next(0, Looked(UNCLEAR))
      else Next(0, Quiet)
    else if i < 2 then Start(true)
    else if i == 2 then Next(0, Quiet)
    else if i == 3 then Next(0, Looked(CLEAR))
    else if i == 5 then Next(1, Looked(CLEAR))
    else if i == 8 then Next(1, Listed([Legacy(2, 0)], true))
    else if i == 9 then Next(1, Recognised(CLEAR, [DAEMON]))
    else if i == (if tale.LateRemoval? then 13 else 14) then Next(1, Answered(true, false))
    else if i >= 13 then Next(0, Quiet)
    else Next(1, Quiet)
  }

  function At(marker: Marker, pcs: seq<Pc>, stops: seq<Stopped>): State {
    State(
      [marker], {BirthOf(DAEMON)}, {BirthOf(OLD_DAEMON), BirthOf(DAEMON)},
      seq(|pcs|, i requires 0 <= i < |pcs| => Process(true, pcs[i], 0)), stops)
  }

  function Overlapping(tale: Tale, i: nat): State {
    var verified := Removing(0, [OLD_DAEMON], None);
    var saved := File(1, Journal([DAEMON]), true);
    if i == 0 then At(LEFT_BEHIND, [], [])
    else if i == 1 then At(LEFT_BEHIND, [Checking(0)], [])
    else if i == 2 then At(LEFT_BEHIND, [Checking(0), Checking(0)], [])
    else if i == 3 then At(LEFT_BEHIND, [Verifying(0, [OLD_DAEMON], None), Checking(0)], [])
    else if i == 4 then At(LEFT_BEHIND, [verified, Checking(0)], [])
    else if i == 5 then At(LEFT_BEHIND, [verified, Verifying(0, [OLD_DAEMON], None)], [])
    else if i == 6 then At(LEFT_BEHIND, [verified, verified], [])
    else if i == 7 then At(Absent, [verified, Checking(1)], [])
    else if i == 8 then At(Absent, [verified, Inspecting], [])
    else if i == 9 then At(Absent, [verified, Retiring([Legacy(2, 0)])], [])
    else if i == 10 then At(Absent, [verified, Saving(0, [DAEMON], [])], [])
    else if i == 11 then At(File(1, Garbage, false), [verified, Created(0, [DAEMON], [])], [])
    else if i == 12 then At(File(1, Journal([DAEMON]), false), [verified, Written(0, [DAEMON], [])], [])
    else if i == 13 then At(saved, [verified, Stopping(0, [DAEMON], [])], [])
    else if i > 14 then At(Absent, [Checking(1), Failed], [Stopped(1, 0, [DAEMON], false)])
    else if tale.LateRemoval? then At(saved, [verified, Failed], [Stopped(1, 0, [DAEMON], false)])
    else At(Absent, [Checking(1), Stopping(0, [DAEMON], [])], [])
  }

  function Single(i: nat): State {
    var saved := File(0, Journal([DAEMON]), true);
    var stopped := [Stopped(0, 0, [DAEMON], true)];
    if i == 0 then At(Absent, [], [])
    else if i == 1 then At(Absent, [Checking(0)], [])
    else if i == 2 then At(Absent, [Checking(1)], [])
    else if i == 3 then At(Absent, [Inspecting], [])
    else if i == 4 then At(Absent, [Retiring([Legacy(2, 0)])], [])
    else if i == 5 then At(Absent, [Saving(0, [DAEMON], [])], [])
    else if i == 6 then At(File(0, Garbage, false), [Created(0, [DAEMON], [])], [])
    else if i == 7 then At(File(0, Journal([DAEMON]), false), [Written(0, [DAEMON], [])], [])
    else if i == 8 then At(saved, [Stopping(0, [DAEMON], [])], [])
    else if i == 9 then At(saved, [Verifying(0, [DAEMON], Some([]))], stopped)
    else if i == 10 then At(saved, [Removing(0, [DAEMON], Some([]))], stopped)
    else if i == 11 then At(Absent, [Retiring([])], stopped)
    else At(Absent, [Done], stopped)
  }

  function Scene(tale: Tale, i: nat): State {
    if tale.BlindRun? then Single(i) else Overlapping(tale, i)
  }

  lemma SameState(s: State, s': State)
    requires s.alive == s'.alive && s.ever == s'.ever && s.stops == s'.stops
    requires |s.disk| == |s'.disk| == 1 && s.disk[0] == s'.disk[0]
    requires |s.runs| == |s'.runs| && |s.runs| <= 2
    requires |s.runs| > 0 ==> s.runs[0] == s'.runs[0]
    requires |s.runs| > 1 ==> s.runs[1] == s'.runs[1]
    ensures s == s'
  {
    assert s.disk == s'.disk && s.runs == s'.runs;
  }

  lemma BothStart(tale: Tale, i: nat)
    requires !tale.BlindRun? && i < 3
    ensures Step(Scene(tale, i), Script(tale, i)) == Scene(tale, i + 1)
  {
    SameState(Step(Scene(tale, i), Script(tale, i)), Scene(tale, i + 1));
  }

  lemma BothVerify(tale: Tale, i: nat)
    requires !tale.BlindRun? && 3 <= i < 6
    ensures Step(Scene(tale, i), Script(tale, i)) == Scene(tale, i + 1)
  {
    ClearView();
    SameState(Step(Scene(tale, i), Script(tale, i)), Scene(tale, i + 1));
  }

  lemma SecondInspects(tale: Tale, i: nat)
    requires !tale.BlindRun? && 6 <= i < 9
    ensures Step(Scene(tale, i), Script(tale, i)) == Scene(tale, i + 1)
  {
    SameState(Step(Scene(tale, i), Script(tale, i)), Scene(tale, i + 1));
  }

  lemma SecondSaves(tale: Tale, i: nat)
    requires !tale.BlindRun? && 9 <= i < 11
    ensures Step(Scene(tale, i), Script(tale, i)) == Scene(tale, i + 1)
  {
    ClearView();
    assert [Legacy(2, 0)][1..] == [];
    SameState(Step(Scene(tale, i), Script(tale, i)), Scene(tale, i + 1));
  }

  lemma SecondWrites(tale: Tale, i: nat)
    requires !tale.BlindRun? && 11 <= i < 13
    ensures Step(Scene(tale, i), Script(tale, i)) == Scene(tale, i + 1)
  {
    SameState(Step(Scene(tale, i), Script(tale, i)), Scene(tale, i + 1));
  }

  lemma SecondStops(tale: Tale, i: nat)
    requires !tale.BlindRun? && 13 <= i < 15
    ensures Step(Scene(tale, i), Script(tale, i)) == Scene(tale, i + 1)
  {
    SameState(Step(Scene(tale, i), Script(tale, i)), Scene(tale, i + 1));
  }

  lemma SingleInspects(i: nat)
    requires i < 4
    ensures Step(Single(i), Script(BlindRun, i)) == Single(i + 1)
  {
    SameState(Step(Single(i), Script(BlindRun, i)), Single(i + 1));
  }

  lemma SingleSaves(i: nat)
    requires 4 <= i < 7
    ensures Step(Single(i), Script(BlindRun, i)) == Single(i + 1)
  {
    ClearView();
    assert [Legacy(2, 0)][1..] == [];
    SameState(Step(Single(i), Script(BlindRun, i)), Single(i + 1));
  }

  lemma SingleStops(i: nat)
    requires 7 <= i < 9
    ensures Step(Single(i), Script(BlindRun, i)) == Single(i + 1)
  {
    SameState(Step(Single(i), Script(BlindRun, i)), Single(i + 1));
  }

  lemma SingleVerifies(i: nat)
    requires 9 <= i < 12
    ensures Step(Single(i), Script(BlindRun, i)) == Single(i + 1)
  {
    UnclearView();
    SameState(Step(Single(i), Script(BlindRun, i)), Single(i + 1));
  }

  lemma OverlappingFollows(tale: Tale, i: nat)
    requires !tale.BlindRun? && i < 15
    ensures Step(Scene(tale, i), Script(tale, i)) == Scene(tale, i + 1)
  {
    if i < 3 {
      BothStart(tale, i);
    } else if i < 6 {
      BothVerify(tale, i);
    } else if i < 9 {
      SecondInspects(tale, i);
    } else if i < 11 {
      SecondSaves(tale, i);
    } else if i < 13 {
      SecondWrites(tale, i);
    } else {
      SecondStops(tale, i);
    }
  }

  lemma SceneFollows(tale: Tale, i: nat)
    requires i < Length(tale)
    ensures Step(Scene(tale, i), Script(tale, i)) == Scene(tale, i + 1)
  {
    if !tale.BlindRun? {
      OverlappingFollows(tale, i);
    } else if i < 4 {
      SingleInspects(i);
    } else if i < 7 {
      SingleSaves(i);
    } else if i < 9 {
      SingleStops(i);
    } else {
      SingleVerifies(i);
    }
  }

  function Story(tale: Tale, n: nat): (events: seq<Event>)
    ensures |events| == n
  {
    seq(n, i requires 0 <= i < n => Script(tale, i))
  }

  lemma StoryGrows(tale: Tale, n: nat)
    ensures Story(tale, n + 1)[..n] == Story(tale, n) && Story(tale, n + 1)[n] == Script(tale, n)
  {
  }

  lemma {:induction false} ScenesAreReached(tale: Tale, n: nat)
    requires n <= Length(tale)
    ensures Run(Scene(tale, 0), Story(tale, n)) == Scene(tale, n)
  {
    if n > 0 {
      ScenesAreReached(tale, n - 1);
      StoryGrows(tale, n - 1);
      SceneFollows(tale, n - 1);
    }
  }

  lemma StopIsLost(tale: Tale)
    ensures !Covered(Scene(tale, Length(tale)))
  {
    var s := Scene(tale, Length(tale));
    assert BirthOf([DAEMON][0]) in s.alive;
    assert !Accounted(s, 0, [DAEMON]);
    assert s.stops[0].ids == [DAEMON] && s.stops[0].dir == 0;
  }

  /** Run 0 removes the journal of a stop that run 1 has sent. */
  lemma OverlappingRunsLoseAJournal()
    ensures
      var s, events := Scene(LateRemoval, 0), Story(LateRemoval, 15);
      Init(s) && Sighted(s, events) && AllJournaled(s, events) && !NoneOrphaned(s, events) &&
      !Covered(Run(s, events))
  {
    var s, events := Scene(LateRemoval, 0), Story(LateRemoval, 15);
    ScenesAreReached(LateRemoval, 15);
    StopIsLost(LateRemoval);
    Sees(LateRemoval, 15);
    Journals(15);
    WhenStopsStayCovered(s, events);
  }

  /** Run 0 removes the journal that run 1 has synced, before run 1 sends the stop:
      no step orphans a stop, and the stop is sent without a journal on disk. */
  lemma OverlappingRunsStopUnjournaled()
    ensures
      var s, events := Scene(EarlyRemoval, 0), Story(EarlyRemoval, 15);
      Init(s) && Sighted(s, events) && NoneOrphaned(s, events) && !AllJournaled(s, events) &&
      !Covered(Run(s, events))
  {
    var s, events := Scene(EarlyRemoval, 0), Story(EarlyRemoval, 15);
    ScenesAreReached(EarlyRemoval, 15);
    StopIsLost(EarlyRemoval);
    Sees(EarlyRemoval, 15);
    NothingOrphaned(15);
    WhenStopsStayCovered(s, events);
  }

  /** A single run stops the daemon, cannot read its birth, removes the journal and
      reports success while the daemon lives. */
  lemma BlindRunLosesAJournal()
    ensures
      var s, events := Scene(BlindRun, 0), Story(BlindRun, 12);
      Init(s) && OneAtATime(s, events) && !Sighted(s, events) &&
      Run(s, events).runs == [Process(true, Done, 0)] && !Covered(Run(s, events))
  {
    var s, events := Scene(BlindRun, 0), Story(BlindRun, 12);
    ScenesAreReached(BlindRun, 12);
    StopIsLost(BlindRun);
    Alone(12);
    SequentialRunsAreJournaled(s, events);
  }

  lemma {:induction false} Sees(tale: Tale, n: nat)
    requires !tale.BlindRun? && n <= 15
    ensures Sighted(Scene(tale, 0), Story(tale, n))
  {
    if n > 0 {
      Sees(tale, n - 1);
      StoryGrows(tale, n - 1);
      ScenesAreReached(tale, n - 1);
      if Script(tale, n - 1).Next? && Script(tale, n - 1).input.Looked? {
        assert [OLD_DAEMON][0] == OLD_DAEMON;
      }
    }
  }

  lemma {:induction false} Journals(n: nat)
    requires n <= 15
    ensures AllJournaled(Scene(LateRemoval, 0), Story(LateRemoval, n))
  {
    if n > 0 {
      Journals(n - 1);
      StoryGrows(LateRemoval, n - 1);
      ScenesAreReached(LateRemoval, n - 1);
    }
  }

  lemma {:induction false} NothingOrphaned(n: nat)
    requires n <= 15
    ensures NoneOrphaned(Scene(EarlyRemoval, 0), Story(EarlyRemoval, n))
  {
    if n > 0 {
      NothingOrphaned(n - 1);
      StoryGrows(EarlyRemoval, n - 1);
      ScenesAreReached(EarlyRemoval, n - 1);
    }
  }

  lemma {:induction false} Alone(n: nat)
    requires n <= 12
    ensures OneAtATime(Scene(BlindRun, 0), Story(BlindRun, n))
  {
    if n > 0 {
      Alone(n - 1);
      StoryGrows(BlindRun, n - 1);
      ScenesAreReached(BlindRun, n - 1);
    }
  }
}
