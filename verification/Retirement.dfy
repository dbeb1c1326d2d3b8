/** Retiring the pool generations a configuration or credential change affects:
    which status entries a selection covers, and the loop that stops them. */
module Retirement {
  import opened Wrappers

  type Path = string

  /** Where a pooled server's configuration came from, as the daemon reports it. */
  datatype Entry = Entry(
    source: Path,
    name: string,
    scope: Option<Path>,
    credentialStore: Option<Path>)

  /** One server of a status response. Old daemons report no entry, or an entry
      without a scope. */
  datatype Server = Server(name: string, owned: bool, entry: Option<Entry>)

  datatype Selection =
    | Native(source: Path, name: string, scope: Option<Path>)
    | Configuration(source: Path, name: string)
    | Credentials(entry: Entry)

  datatype RetirementError =
    | ControlFailed
    | StatusRefused
    | StatusOmittedServers
    | InvalidStatus
    | LacksScope(server: string)
    | NotOwned(server: string)
    | Disappeared
    | StopRefused(reason: Option<string>)

  // ---------------------------------------------------------------------
  // Selections
  // ---------------------------------------------------------------------

  function Matches(selection: Selection, server: Server): Result<bool, RetirementError> {
    if server.entry.None? then Ok(false)
    else
      var associated := server.entry.value;
      match selection
      case Native(source, name, scope) =>
        if !SameConfiguration(associated, source, name) then Ok(false)
        else if associated.scope.None? then Err(LacksScope(server.name))
        else Ok(associated.scope == scope)
      case Configuration(source, name) =>
        Ok(SameConfiguration(associated, source, name))
      case Credentials(entry) =>
        var same := SameConfiguration(associated, entry.source, entry.name);
        if same && entry.scope.Some? && associated.scope.None? then Err(LacksScope(server.name))
        else Ok(
          associated.name == entry.name &&
          ((same && (entry.scope.None? || associated.scope == entry.scope)) ||
           (entry.credentialStore.Some? && associated.credentialStore == entry.credentialStore)))
  }

  predicate SameConfiguration(entry: Entry, source: Path, name: string) {
    entry.source == source && entry.name == name
  }

  predicate Picks(selection: Selection, server: Server) {
    Matches(selection, server) == Ok(true)
  }

  /** What each selection picks, by the entry that the daemon reports: a native one the
      same source, name and scope; a configuration one the same source and name; a
      credential one the same name with the same source, and scope if it has one, or
      with the same credential store. */
  lemma PickedByMembers(server: Server, source: Path, name: string, scope: Option<Path>, store: Option<Path>)
    ensures Picks(Native(source, name, scope), server) <==>
      exists reported ::
        server.entry == Some(Entry(source, name, scope, reported)) && scope.Some?
    ensures Picks(Configuration(source, name), server) <==>
      exists where_, reported :: server.entry == Some(Entry(source, name, where_, reported))
    ensures Picks(Credentials(Entry(source, name, scope, store)), server) <==>
      exists from, where_, reported ::
        && server.entry == Some(Entry(from, name, where_, reported))
        && (from == source && scope.Some? ==> where_.Some?)
        && ((from == source && (scope.None? || where_ == scope)) || (store.Some? && reported == store))
    ensures Matches(Native(source, name, scope), server).Err? <==>
      exists reported :: server.entry == Some(Entry(source, name, None, reported))
  {
    if server.entry.Some? {
      var e := server.entry.value;
      assert server.entry == Some(Entry(e.source, e.name, e.scope, e.credentialStore));
    }
  }

  /** What a native selection picks, the configuration and the credential
      selection for the same entry pick too. */
  lemma NativeIsNarrowest(entry: Entry, server: Server)
    requires Picks(Native(entry.source, entry.name, entry.scope), server)
    ensures Picks(Configuration(entry.source, entry.name), server)
    ensures Picks(Credentials(entry), server)
    ensures entry.scope.Some?
  {
    assert server.entry.value.scope == entry.scope;
  }

  /** The native selections of one configuration split what the configuration
      selection picks by scope; what is left over are the entries on which every
      one of them fails. In particular one without a scope picks nothing. */
  lemma NativeSplitsConfiguration(source: Path, name: string, server: Server)
    ensures Picks(Configuration(source, name), server) <==>
      (exists scope :: Picks(Native(source, name, scope), server)) ||
      (forall scope :: Matches(Native(source, name, scope), server).Err?)
    ensures forall s, t ::
      Picks(Native(source, name, s), server) && Picks(Native(source, name, t), server) ==> s == t
    ensures !Picks(Native(source, name, None), server)
  {
    if Picks(Configuration(source, name), server) && server.entry.value.scope.Some? {
      assert Picks(Native(source, name, server.entry.value.scope), server);
    } else if !Picks(Configuration(source, name), server) {
      assert Matches(Native(source, name, None), server).Ok?;
    }
  }

  /** A credential selection with a scope fails exactly where the native one
      does; without a scope it never fails. A configuration selection never does. */
  lemma WhoLacksScope(entry: Entry, server: Server)
    ensures Matches(Credentials(entry), server).Err? <==>
      entry.scope.Some? && Matches(Native(entry.source, entry.name, entry.scope), server).Err?
    ensures Matches(Configuration(entry.source, entry.name), server).Ok?
  {
  }

  // ---------------------------------------------------------------------
  // What a retirement has to stop
  // ---------------------------------------------------------------------

  /** The names of the picked servers, in status order. */
  function Selected(selection: Selection, servers: seq<Server>): seq<string> {
    if servers == [] then []
    else
      var before := Selected(selection, servers[..|servers| - 1]);
      if Picks(selection, servers[|servers| - 1]) then before + [servers[|servers| - 1].name]
      else before
  }

  /** A server that ends the retirement before any stop for it is sent. */
  predicate Faulty(selection: Selection, server: Server) {
    Matches(selection, server).Err? || (Picks(selection, server) && !server.owned)
  }

  /** The servers before the first faulty one. */
  function Sound(selection: Selection, servers: seq<Server>): (count: nat)
    ensures count <= |servers|
    ensures forall i :: 0 <= i < count ==> !Faulty(selection, servers[i])
    ensures count < |servers| ==> Faulty(selection, servers[count])
  {
    if servers == [] then 0
    else
      var count := Sound(selection, servers[..|servers| - 1]);
      if count == |servers| - 1 && !Faulty(selection, servers[count]) then count + 1 else count
  }

  /** With every server owned, only a missing scope ends a retirement: the native and
      the credential one of a scoped entry end at the same server, a configuration
      one at none. */
  lemma {:induction false} OnlyMissingScopesFail(entry: Entry, servers: seq<Server>)
    requires forall i :: 0 <= i < |servers| ==> servers[i].owned
    ensures entry.scope.Some? ==>
      Sound(Credentials(entry), servers) == Sound(Native(entry.source, entry.name, entry.scope), servers)
    ensures entry.scope.None? ==> Sound(Credentials(entry), servers) == |servers|
    ensures Sound(Configuration(entry.source, entry.name), servers) == |servers|
  {
    if servers != [] {
      OnlyMissingScopesFail(entry, servers[..|servers| - 1]);
      WhoLacksScope(entry, servers[|servers| - 1]);
    }
  }

  predicate Prefix<T(==)>(p: seq<T>, s: seq<T>) {
    |p| <= |s| && forall i :: 0 <= i < |p| ==> p[i] == s[i]
  }

  lemma {:induction false} SelectedGrows(selection: Selection, servers: seq<Server>, k: nat)
    requires k <= |servers|
    ensures Prefix(Selected(selection, servers[..k]), Selected(selection, servers))
    decreases |servers| - k
  {
    if k < |servers| {
      SelectedGrows(selection, servers, k + 1);
      assert servers[..k + 1][..k] == servers[..k];
    } else {
      assert servers[..k] == servers;
    }
  }

  /** `p` is `s` with some elements struck out. */
  predicate Subsequence<T(==)>(p: seq<T>, s: seq<T>) {
    p == [] ||
    (s != [] &&
     ((p[|p| - 1] == s[|s| - 1] && Subsequence(p[..|p| - 1], s[..|s| - 1])) ||
      Subsequence(p, s[..|s| - 1])))
  }

  /** A configuration selection, and a credential selection of the entry, select
      everything the native one does, in the same order. */
  lemma {:induction false} NativeSelectsLeast(entry: Entry, servers: seq<Server>)
    ensures
      var native := Selected(Native(entry.source, entry.name, entry.scope), servers);
      Subsequence(native, Selected(Configuration(entry.source, entry.name), servers)) &&
      Subsequence(native, Selected(Credentials(entry), servers))
  {
    if servers != [] {
      var native := Native(entry.source, entry.name, entry.scope);
      var last := servers[|servers| - 1];
      NativeSelectsLeast(entry, servers[..|servers| - 1]);
      if Picks(native, last) {
        NativeIsNarrowest(entry, last);
      }
      assert forall s: seq<string> :: (s + [last.name])[..|s|] == s;
    }
  }

  // ---------------------------------------------------------------------
  // The daemon
  // ---------------------------------------------------------------------

  datatype Request = Status | Stop(name: string)

  datatype Data = Servers(servers: seq<Server>) | Unreadable

  datatype Response = Response(ok: bool, error: Option<string>, data: Option<Data>)

  /** What one control request comes to: an error, no daemon, or a response. */
  datatype Answer = Failed | NoDaemon | Answered(response: Response)

  predicate Acknowledged(answer: Answer) {
    answer.Answered? && answer.response.ok
  }

  /** The control connection: every answer it will ever give (none beyond the
      end) and the requests sent so far. */
  class Control {
    const answers: seq<Answer>
    var sent: seq<Request>

    constructor (answers: seq<Answer>)
      ensures this.answers == answers && sent == []
    {
      this.answers := answers;
      this.sent := [];
    }

    method Send(request: Request) returns (answer: Answer)
      modifies this
      ensures sent == old(sent) + [request]
      ensures answer == AnswerAt(answers, |old(sent)|)
    {
      answer := if |sent| < |answers| then answers[|sent|] else Failed;
      sent := sent + [request];
    }
  }

  function AnswerAt(answers: seq<Answer>, i: nat): Answer {
    if i < |answers| then answers[i] else Failed
  }

  function Stops(names: seq<string>): seq<Request> {
    seq(|names|, i requires 0 <= i < |names| => Stop(names[i]))
  }

  lemma StopsAppend(names: seq<string>, name: string)
    ensures Stops(names + [name]) == Stops(names) + [Stop(name)]
  {
  }

  // ---------------------------------------------------------------------
  // The retirement
  // ---------------------------------------------------------------------

  predicate AllAcknowledged(answers: seq<Answer>, from: nat, count: nat) {
    forall i: nat :: from <= i < from + count ==> Acknowledged(AnswerAt(answers, i))
  }

  /** How far a retirement gets whose first stop is request number `from`:
      `stopped` are the stops it sends, all of them acknowledged but perhaps the
      last. It succeeds exactly when no server is faulty and every picked server
      acknowledged its stop. */
  ghost predicate Retired(
    selection: Selection,
    servers: seq<Server>,
    answers: seq<Answer>,
    from: nat,
    stopped: seq<string>,
    success: bool)
  {
    var sound := Sound(selection, servers);
    var due := Selected(selection, servers[..sound]);
    && Prefix(stopped, due)
    && Prefix(stopped, Selected(selection, servers))
    && (|stopped| > 0 ==> AllAcknowledged(answers, from, |stopped| - 1))
    && (success <==>
        sound == |servers| && stopped == due && AllAcknowledged(answers, from, |stopped|))
    && (!success && AllAcknowledged(answers, from, |stopped|) ==>
        stopped == due && sound < |servers|)
  }

  /** The first `i` servers are dealt with: the picked ones have acknowledged. */
  ghost predicate DealtWith(
    selection: Selection, servers: seq<Server>, answers: seq<Answer>, from: nat, i: nat, stopped: seq<string>)
    requires i <= |servers|
  {
    && i <= Sound(selection, servers)
    && stopped == Selected(selection, servers[..i])
    && AllAcknowledged(answers, from, |stopped|)
  }

  /** The error names the faulty server, or says what became of the last stop. */
  ghost predicate Explains(
    selection: Selection,
    servers: seq<Server>,
    answers: seq<Answer>,
    from: nat,
    stopped: seq<string>,
    error: RetirementError)
  {
    if AllAcknowledged(answers, from, |stopped|) then
      Sound(selection, servers) < |servers| &&
      var server := servers[Sound(selection, servers)];
      error == if Matches(selection, server).Err? then LacksScope(server.name) else NotOwned(server.name)
    else
      stopped != [] &&
      match AnswerAt(answers, from + |stopped| - 1)
      case Failed => error == ControlFailed
      case NoDaemon => error == Disappeared
      case Answered(response) => error == StopRefused(response.error)
  }

  method RetireMatching(servers: seq<Server>, selection: Selection, control: Control)
    returns (result: Result<(), RetirementError>, ghost stopped: seq<string>)
    modifies control
    ensures control.sent == old(control.sent) + Stops(stopped)
    ensures Retired(
      selection, servers, control.answers, |old(control.sent)|, stopped, result.Ok?)
    ensures result.Err? ==>
      Explains(selection, servers, control.answers, |old(control.sent)|, stopped, result.error)
  {
    stopped := [];
    ghost var from, answers := |control.sent|, control.answers;
    for i := 0 to |servers|
      invariant DealtWith(selection, servers, answers, from, i, stopped)
      invariant control.sent == old(control.sent) + Stops(stopped)
    {
      var server := servers[i];
      var matches := Matches(selection, server);
      if matches.Err? {
        MatchFails(selection, server);
        FailsBefore(selection, servers, answers, from, i, stopped);
        return Err(matches.error), stopped;
      }
      if matches.value {
        if !server.owned {
          FailsBefore(selection, servers, answers, from, i, stopped);
          return Err(NotOwned(server.name)), stopped;
        }
        var answer := control.Send(Stop(server.name));
        StopOne(selection, servers, answers, from, i, stopped);
        stopped := stopped + [server.name];
        if !Acknowledged(answer) {
          return Err(StopError(answer)), stopped;
        }
      } else {
        SkipOne(selection, servers, answers, from, i, stopped);
      }
    }
    Finishes(selection, servers, answers, from, stopped);
    return Ok(()), stopped;
  }

  /** Why a faulty server ends the retirement. */
  function Fault(selection: Selection, server: Server): RetirementError {
    if Matches(selection, server).Err? then LacksScope(server.name) else NotOwned(server.name)
  }

  lemma MatchFails(selection: Selection, server: Server)
    ensures Matches(selection, server).Err? ==> Matches(selection, server).error == LacksScope(server.name)
  {
  }

  function StopError(answer: Answer): RetirementError {
    match answer
    case Failed => ControlFailed
    case NoDaemon => Disappeared
    case Answered(response) => StopRefused(response.error)
  }

  lemma SelectedStep(selection: Selection, servers: seq<Server>, i: nat)
    requires i < |servers|
    ensures Selected(selection, servers[..i + 1]) ==
      Selected(selection, servers[..i]) + if Picks(selection, servers[i]) then [servers[i].name] else []
  {
    assert servers[..i + 1][..i] == servers[..i];
  }

  /** A faulty server: nothing is sent for it. */
  lemma FailsBefore(
    selection: Selection, servers: seq<Server>, answers: seq<Answer>, from: nat, i: nat, stopped: seq<string>)
    requires i < |servers| && DealtWith(selection, servers, answers, from, i, stopped)
    requires Faulty(selection, servers[i])
    ensures Retired(selection, servers, answers, from, stopped, false)
    ensures i == Sound(selection, servers)
    ensures Explains(selection, servers, answers, from, stopped, Fault(selection, servers[i]))
  {
    SelectedGrows(selection, servers, i);
  }

  lemma SkipOne(
    selection: Selection, servers: seq<Server>, answers: seq<Answer>, from: nat, i: nat, stopped: seq<string>)
    requires i < |servers| && DealtWith(selection, servers, answers, from, i, stopped)
    requires !Faulty(selection, servers[i]) && !Picks(selection, servers[i])
    ensures DealtWith(selection, servers, answers, from, i + 1, stopped)
  {
    SelectedStep(selection, servers, i);
  }

  /** A picked server: its answer lets the retirement go on, or ends it. */
  lemma StopOne(
    selection: Selection, servers: seq<Server>, answers: seq<Answer>, from: nat, i: nat, stopped: seq<string>)
    requires i < |servers| && DealtWith(selection, servers, answers, from, i, stopped)
    requires !Faulty(selection, servers[i]) && Picks(selection, servers[i])
    ensures
      var answer, longer := AnswerAt(answers, from + |stopped|), stopped + [servers[i].name];
      && Stops(longer) == Stops(stopped) + [Stop(servers[i].name)]
      && (Acknowledged(answer) ==> DealtWith(selection, servers, answers, from, i + 1, longer))
      && (!Acknowledged(answer) ==>
          Retired(selection, servers, answers, from, longer, false) &&
          Explains(selection, servers, answers, from, longer, StopError(answer)))
  {
    SelectedStep(selection, servers, i);
    StopsAppend(stopped, servers[i].name);
    var longer := stopped + [servers[i].name];
    if !Acknowledged(AnswerAt(answers, from + |stopped|)) {
      FailsAfter(selection, servers, answers, from, i, longer);
    }
  }

  lemma FailsAfter(
    selection: Selection, servers: seq<Server>, answers: seq<Answer>, from: nat, i: nat, stopped: seq<string>)
    requires i < Sound(selection, servers) && stopped == Selected(selection, servers[..i + 1])
    requires stopped != [] && AllAcknowledged(answers, from, |stopped| - 1)
    requires !Acknowledged(AnswerAt(answers, from + |stopped| - 1))
    ensures Retired(selection, servers, answers, from, stopped, false)
    ensures !AllAcknowledged(answers, from, |stopped|)
  {
    SelectedGrows(selection, servers, i + 1);
    var sound := servers[..Sound(selection, servers)];
    SelectedGrows(selection, sound, i + 1);
    assert sound[..i + 1] == servers[..i + 1];
  }

  lemma Finishes(
    selection: Selection, servers: seq<Server>, answers: seq<Answer>, from: nat, stopped: seq<string>)
    requires DealtWith(selection, servers, answers, from, |servers|, stopped)
    ensures Retired(selection, servers, answers, from, stopped, true)
  {
    assert servers[..|servers|] == servers;
  }

  /** Asks for the status and retires what the selection picks in it. Without a
      daemon there is nothing to stop. */
  method RetireSelection(selection: Selection, control: Control)
    returns (result: Result<(), RetirementError>, ghost stopped: seq<string>)
    modifies control
    ensures control.sent == old(control.sent) + [Status] + Stops(stopped)
    ensures
      var first := AnswerAt(control.answers, |old(control.sent)|);
      if first.NoDaemon? then result == Ok(()) && stopped == []
      else if Acknowledged(first) && first.response.data.Some? && first.response.data.value.Servers? then
        Retired(
          selection, first.response.data.value.servers,
          control.answers, |old(control.sent)| + 1, stopped, result.Ok?)
      else result.Err? && stopped == []
  {
    stopped := [];
    var answer := control.Send(Status);
    match answer {
      case Failed => return Err(ControlFailed), stopped;
      case NoDaemon => return Ok(()), stopped;
      case Answered(response) =>
        if !response.ok {
          return Err(StatusRefused), stopped;
        }
        if response.data.None? {
          return Err(StatusOmittedServers), stopped;
        }
        if response.data.value.Unreadable? {
          return Err(InvalidStatus), stopped;
        }
        result, stopped := RetireMatching(response.data.value.servers, selection, control);
    }
  }

  /** The positions of the picked servers. */
  ghost function Picked(selection: Selection, servers: seq<Server>): (picked: set<int>)
    ensures forall i :: i in picked <==> 0 <= i < |servers| && Picks(selection, servers[i])
  {
    set i | 0 <= i < |servers| && Picks(selection, servers[i])
  }

  /** What success means for each server: a picked one was the daemon's own and
      was stopped, and every stop that was sent went to a picked one, one each. */
  lemma SuccessCoversTheStatus(
    selection: Selection, servers: seq<Server>, answers: seq<Answer>, from: nat, stopped: seq<string>)
    requires Retired(selection, servers, answers, from, stopped, true)
    ensures forall i :: 0 <= i < |servers| ==> Matches(selection, servers[i]).Ok?
    ensures forall i :: i in Picked(selection, servers) ==> servers[i].owned && servers[i].name in stopped
    ensures forall n :: n in stopped ==>
      exists i :: i in Picked(selection, servers) && servers[i].name == n
    ensures |stopped| == |Picked(selection, servers)|
    ensures AllAcknowledged(answers, from, |stopped|)
  {
    assert servers[..|servers|] == servers;
    assert forall i :: 0 <= i < |servers| ==> !Faulty(selection, servers[i]);
    SelectedNames(selection, servers);
  }

  /** A configuration retirement, or a credential one of the entry, that succeeds has
      stopped everything the native selection of the entry selects. */
  lemma SuccessCoversNative(
    entry: Entry, selection: Selection, servers: seq<Server>, answers: seq<Answer>, from: nat, stopped: seq<string>)
    requires selection == Configuration(entry.source, entry.name) || selection == Credentials(entry)
    requires Retired(selection, servers, answers, from, stopped, true)
    ensures Subsequence(Selected(Native(entry.source, entry.name, entry.scope), servers), stopped)
  {
    assert servers[..|servers|] == servers;
    NativeSelectsLeast(entry, servers);
  }

  /** One that fails may have stopped less than the native one, which passes over the
      server it fails at. */
  lemma FailureMayStopLess(name: string, other: string, answers: seq<Answer>, from: nat)
    requires name != other && AllAcknowledged(answers, from, 1)
    ensures
      var servers := [
        Server(name, false, Some(Entry("source", "entry", Some(name), None))),
        Server(other, true, Some(Entry("source", "entry", Some(other), None)))];
      Retired(Native("source", "entry", Some(other)), servers, answers, from, [other], true) &&
      Retired(Configuration("source", "entry"), servers, answers, from, [], false)
  {
    var servers := [
      Server(name, false, Some(Entry("source", "entry", Some(name), None))),
      Server(other, true, Some(Entry("source", "entry", Some(other), None)))];
    assert servers[..2] == servers && servers[..1] == [servers[0]];
    var native := Native("source", "entry", Some(other));
    assert !Picks(native, servers[0]) && Picks(native, servers[1]);
    SelectedStep(native, servers, 0);
    SelectedStep(native, servers, 1);
  }

  /** The stops that are sent when each is acknowledged. */
  function Due(selection: Selection, servers: seq<Server>): seq<string> {
    Selected(selection, servers[..Sound(selection, servers)])
  }

  /** No server that the native retirement stops comes after one at which the other
      retirement fails. */
  predicate NativeStopsEarly(native: Selection, other: Selection, servers: seq<Server>) {
    forall i :: 0 <= i < Sound(native, servers) && Picks(native, servers[i]) ==> i < Sound(other, servers)
  }

  ghost predicate NamesDiffer(servers: seq<Server>) {
    forall i, j :: 0 <= i < j < |servers| ==> servers[i].name != servers[j].name
  }

  /** With every stop acknowledged, a configuration or credential retirement sends
      all that the native one sends if none of them comes after a failure of the
      former; and only if, since the daemon's names for its servers differ. */
  lemma WhenNativeStopsAreCovered(entry: Entry, other: Selection, servers: seq<Server>)
    requires other == Configuration(entry.source, entry.name) || other == Credentials(entry)
    ensures
      var native := Native(entry.source, entry.name, entry.scope);
      NativeStopsEarly(native, other, servers) ==> Subsequence(Due(native, servers), Due(other, servers))
    ensures
      var native := Native(entry.source, entry.name, entry.scope);
      NamesDiffer(servers) && Subsequence(Due(native, servers), Due(other, servers)) ==>
        NativeStopsEarly(native, other, servers)
  {
    var native := Native(entry.source, entry.name, entry.scope);
    if NativeStopsEarly(native, other, servers) {
      EarlyStopsAreCovered(entry, other, servers);
    }
    if NamesDiffer(servers) && Subsequence(Due(native, servers), Due(other, servers)) {
      forall i | 0 <= i < Sound(native, servers) && Picks(native, servers[i])
        ensures i < Sound(other, servers)
      {
        PickedIsSelected(native, servers[..Sound(native, servers)], i);
        SubsequenceMembers(Due(native, servers), Due(other, servers), servers[i].name);
        var j := SelectedIsPicked(other, servers[..Sound(other, servers)], servers[i].name);
      }
    }
  }

  lemma EarlyStopsAreCovered(entry: Entry, other: Selection, servers: seq<Server>)
    requires other == Configuration(entry.source, entry.name) || other == Credentials(entry)
    requires NativeStopsEarly(Native(entry.source, entry.name, entry.scope), other, servers)
    ensures Subsequence(Due(Native(entry.source, entry.name, entry.scope), servers), Due(other, servers))
  {
    var native := Native(entry.source, entry.name, entry.scope);
    var n, m := Sound(native, servers), Sound(other, servers);
    if n <= m {
      NativeSelectsLeast(entry, servers[..n]);
      StillSubsequence(Due(native, servers), other, servers, n, m);
    } else {
      NativeSelectsLeast(entry, servers[..m]);
      NothingMoreSelected(native, servers, m, n);
    }
  }

  lemma {:induction false} SubsequenceMembers<T>(p: seq<T>, s: seq<T>, x: T)
    requires Subsequence(p, s) && x in p
    ensures x in s
  {
    if p[|p| - 1] == s[|s| - 1] && Subsequence(p[..|p| - 1], s[..|s| - 1]) {
      if x != p[|p| - 1] {
        SubsequenceMembers(p[..|p| - 1], s[..|s| - 1], x);
      }
    } else {
      SubsequenceMembers(p, s[..|s| - 1], x);
    }
  }

  lemma {:induction false} StillSubsequence(
    p: seq<string>, selection: Selection, servers: seq<Server>, n: nat, m: nat)
    requires n <= m <= |servers| && Subsequence(p, Selected(selection, servers[..n]))
    ensures Subsequence(p, Selected(selection, servers[..m]))
  {
    if n < m {
      StillSubsequence(p, selection, servers, n, m - 1);
      SelectedStep(selection, servers, m - 1);
      var before, after := Selected(selection, servers[..m - 1]), Selected(selection, servers[..m]);
      assert after != before ==> after[..|after| - 1] == before;
    }
  }

  lemma {:induction false} NothingMoreSelected(selection: Selection, servers: seq<Server>, m: nat, n: nat)
    requires m <= n <= |servers| && forall i :: m <= i < n ==> !Picks(selection, servers[i])
    ensures Selected(selection, servers[..n]) == Selected(selection, servers[..m])
  {
    if m < n {
      NothingMoreSelected(selection, servers, m, n - 1);
      SelectedStep(selection, servers, n - 1);
    }
  }

  lemma SelectedNames(selection: Selection, servers: seq<Server>)
    ensures forall i :: i in Picked(selection, servers) ==> servers[i].name in Selected(selection, servers)
    ensures forall n :: n in Selected(selection, servers) ==>
      exists i :: i in Picked(selection, servers) && servers[i].name == n
    ensures |Selected(selection, servers)| == |Picked(selection, servers)|
  {
    forall i | i in Picked(selection, servers)
      ensures servers[i].name in Selected(selection, servers)
    {
      PickedIsSelected(selection, servers, i);
    }
    forall n | n in Selected(selection, servers)
      ensures exists i :: i in Picked(selection, servers) && servers[i].name == n
    {
      var i := SelectedIsPicked(selection, servers, n);
      assert i in Picked(selection, servers);
    }
    AsManySelected(selection, servers);
  }

  lemma {:induction false} PickedIsSelected(selection: Selection, servers: seq<Server>, i: nat)
    requires i < |servers| && Picks(selection, servers[i])
    ensures servers[i].name in Selected(selection, servers)
  {
    if i < |servers| - 1 {
      PickedIsSelected(selection, servers[..|servers| - 1], i);
    }
  }

  lemma {:induction false} SelectedIsPicked(selection: Selection, servers: seq<Server>, n: string)
    returns (i: nat)
    requires n in Selected(selection, servers)
    ensures i < |servers| && Picks(selection, servers[i]) && servers[i].name == n
  {
    var k := |servers| - 1;
    if n in Selected(selection, servers[..k]) {
      i := SelectedIsPicked(selection, servers[..k], n);
    } else {
      i := k;
    }
  }

  lemma {:induction false} AsManySelected(selection: Selection, servers: seq<Server>)
    ensures |Selected(selection, servers)| == |Picked(selection, servers)|
  {
    if servers != [] {
      AsManySelected(selection, servers[..|servers| - 1]);
      PickedStep(selection, servers);
    }
  }

  lemma PickedStep(selection: Selection, servers: seq<Server>)
    requires servers != []
    ensures
      var k := |servers| - 1;
      var was := Picked(selection, servers[..k]);
      k !in was &&
      Picked(selection, servers) == if Picks(selection, servers[k]) then was + {k} else was
  {
  }
}
