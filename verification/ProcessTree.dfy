/** Process snapshots: collecting the tree below a daemon, and asking which of the
    recorded processes are left. */
module ProcessTree {
  import opened Wrappers

  /** One row of a snapshot, and one entry of a retirement journal. */
  datatype Identity = Identity(pid: nat, parent: nat, born: string, owner: string)

  datatype Snapshot = Snapshot(owner: string, processes: seq<Identity>)

  datatype SnapshotError = Disappeared | Unowned | Unverifiable

  // ---------------------------------------------------------------------
  // The tree below a process
  // ---------------------------------------------------------------------

  /** The row kept for a pid when rows are entered into a map in order. */
  function Row(processes: seq<Identity>, pid: nat): Option<Identity> {
    if processes == [] then None
    else if processes[|processes| - 1].pid == pid then Some(processes[|processes| - 1])
    else Row(processes[..|processes| - 1], pid)
  }

  /** A process that may be retired: ours, with a known time of birth. */
  predicate Ours(snapshot: Snapshot, pid: nat) {
    var row := Row(snapshot.processes, pid);
    row.Some? && row.value.owner == snapshot.owner && row.value.born != ""
  }

  function Verified(snapshot: Snapshot, pid: nat): (row: Result<Identity, SnapshotError>)
    ensures row.Ok? <==> Ours(snapshot, pid)
    ensures row.Ok? ==> row.value == Row(snapshot.processes, pid).value
  {
    var row := Row(snapshot.processes, pid);
    if row.None? then Err(Disappeared)
    else if row.value.owner != snapshot.owner || row.value.born == "" then Err(Unowned)
    else Ok(row.value)
  }

  /** A set of pids that contains the root and the children of its members. */
  predicate Family(processes: seq<Identity>, root: nat, pids: set<nat>) {
    root in pids &&
    forall i :: 0 <= i < |processes| && processes[i].parent in pids ==> processes[i].pid in pids
  }

  /** A pid in every such set: a descendant of the root, or the root itself. */
  ghost predicate Descends(processes: seq<Identity>, root: nat, pid: nat) {
    forall pids :: Family(processes, root, pids) ==> pid in pids
  }

  /** The rows of exactly the descendants of the root, each once and all ours. */
  ghost predicate IsOwnedTree(snapshot: Snapshot, root: nat, tree: seq<Identity>) {
    && (forall i :: 0 <= i < |tree| ==>
        Ours(snapshot, tree[i].pid) && Row(snapshot.processes, tree[i].pid) == Some(tree[i]))
    && (forall i, j :: 0 <= i < j < |tree| ==> tree[i].pid != tree[j].pid)
    && Family(snapshot.processes, root, Pids(tree))
    && (forall i :: 0 <= i < |tree| ==> Descends(snapshot.processes, root, tree[i].pid))
  }

  function Pids(rows: seq<Identity>): (pids: set<nat>)
    ensures forall i :: 0 <= i < |rows| ==> rows[i].pid in pids
  {
    set i | 0 <= i < |rows| :: rows[i].pid
  }

  /** The tree of processes below `root`; fails if one of them is not ours. */
  method OwnedTree(snapshot: Snapshot, root: nat)
    returns (tree: Result<seq<Identity>, SnapshotError>)
    ensures tree.Ok? ==> IsOwnedTree(snapshot, root, tree.value)
    ensures tree.Ok? <==> AllOurs(snapshot, root)
  {
    var pending, seen, result := [root], {}, [];
    ghost var universe := Pids(snapshot.processes) + {root};
    while pending != []
      invariant seen <= universe
      invariant Queued(snapshot.processes, root, pending)
      invariant Collected(snapshot, root, seen, result)
      invariant Covers(snapshot.processes, root, seen, pending)
      decreases |universe - seen|, |pending|
    {
      var pid := pending[|pending| - 1];
      var rest := pending[..|pending| - 1];
      QueueShrinks(snapshot.processes, root, pending, seen);
      pending := rest;
      if pid in seen {
        continue;
      }
      var process := Verified(snapshot, pid);
      if process.Err? {
        return Err(process.error);
      }
      Collect(snapshot, root, seen, result, pid);
      Enqueue(snapshot.processes, root, pending, seen, pid);
      Uncovers(universe, seen, pid);
      seen := seen + {pid};
      pending := pending + Children(snapshot.processes, pid);
      result := result + [process.value];
    }
    TreeIsComplete(snapshot, root, result);
    return Ok(result);
  }

  ghost predicate Queued(processes: seq<Identity>, root: nat, pending: seq<nat>) {
    forall p :: p in pending ==> p in Pids(processes) + {root} && Descends(processes, root, p)
  }

  ghost predicate Collected(snapshot: Snapshot, root: nat, seen: set<nat>, result: seq<Identity>) {
    && seen == Pids(result)
    && (forall i :: 0 <= i < |result| ==>
        Ours(snapshot, result[i].pid) && Row(snapshot.processes, result[i].pid) == Some(result[i]))
    && (forall i, j :: 0 <= i < j < |result| ==> result[i].pid != result[j].pid)
    && (forall i :: 0 <= i < |result| ==> Descends(snapshot.processes, root, result[i].pid))
  }

  /** Once nothing is pending, the pids seen are a family. */
  predicate Covers(processes: seq<Identity>, root: nat, seen: set<nat>, pending: seq<nat>) {
    && (root in seen || root in pending)
    && forall i :: 0 <= i < |processes| && processes[i].parent in seen ==>
        processes[i].pid in seen || processes[i].pid in pending
  }

  lemma QueueShrinks(processes: seq<Identity>, root: nat, pending: seq<nat>, seen: set<nat>)
    requires pending != []
    requires Queued(processes, root, pending) && Covers(processes, root, seen, pending)
    ensures
      var last, rest := pending[|pending| - 1], pending[..|pending| - 1];
      Queued(processes, root, rest) && Covers(processes, root, seen + {last}, rest + Children(processes, last)) &&
      Descends(processes, root, last) && last in Pids(processes) + {root} &&
      (last in seen ==> Covers(processes, root, seen, rest))
  {
    var last, rest := pending[|pending| - 1], pending[..|pending| - 1];
    assert pending == rest + [last];
  }

  lemma Collect(snapshot: Snapshot, root: nat, seen: set<nat>, result: seq<Identity>, pid: nat)
    requires Collected(snapshot, root, seen, result) && pid !in seen
    requires Ours(snapshot, pid) && Descends(snapshot.processes, root, pid)
    ensures Collected(
      snapshot, root, seen + {pid}, result + [Row(snapshot.processes, pid).value])
  {
    RowHasPid(snapshot.processes, pid);
    PidsAppend(result, Row(snapshot.processes, pid).value);
  }

  lemma PidsAppend(rows: seq<Identity>, row: Identity)
    ensures Pids(rows + [row]) == Pids(rows) + {row.pid}
  {
    var rows' := rows + [row];
    assert forall i :: 0 <= i < |rows| ==> rows'[i] == rows[i];
    assert rows'[|rows|] == row;
  }

  lemma Enqueue(processes: seq<Identity>, root: nat, pending: seq<nat>, seen: set<nat>, pid: nat)
    requires Queued(processes, root, pending) && Descends(processes, root, pid)
    ensures Queued(processes, root, pending + Children(processes, pid))
  {
    ChildrenDescend(processes, root, pid, Children(processes, pid));
  }

  lemma Uncovers(universe: set<nat>, seen: set<nat>, pid: nat)
    requires pid in universe && pid !in seen
    ensures |universe - (seen + {pid})| < |universe - seen|
  {
    assert universe - seen == (universe - (seen + {pid})) + {pid};
  }

  lemma RowHasPid(processes: seq<Identity>, pid: nat)
    ensures Row(processes, pid).Some? ==> Row(processes, pid).value.pid == pid
    ensures Row(processes, pid).Some? ==> Row(processes, pid).value in processes
  {
  }

  function Children(processes: seq<Identity>, pid: nat): (children: seq<nat>)
    ensures forall i :: 0 <= i < |processes| && processes[i].parent == pid ==>
      processes[i].pid in children
    ensures forall c :: c in children ==>
      exists i :: 0 <= i < |processes| && processes[i].parent == pid && processes[i].pid == c
  {
    if processes == [] then []
    else
      var last := processes[|processes| - 1];
      var before := Children(processes[..|processes| - 1], pid);
      if last.parent == pid then before + [last.pid] else before
  }

  lemma ChildrenDescend(processes: seq<Identity>, root: nat, pid: nat, children: seq<nat>)
    requires Descends(processes, root, pid) && children == Children(processes, pid)
    ensures forall c :: c in children ==> c in Pids(processes) && Descends(processes, root, c)
  {
    forall c | c in children
      ensures c in Pids(processes) && Descends(processes, root, c)
    {
      var i :| 0 <= i < |processes| && processes[i].parent == pid && processes[i].pid == c;
    }
  }

  ghost predicate AllOurs(snapshot: Snapshot, root: nat) {
    forall pid :: Descends(snapshot.processes, root, pid) ==> Ours(snapshot, pid)
  }

  lemma TreeIsComplete(snapshot: Snapshot, root: nat, tree: seq<Identity>)
    requires IsOwnedTree(snapshot, root, tree)
    ensures AllOurs(snapshot, root)
  {
    forall pid | Descends(snapshot.processes, root, pid)
      ensures Ours(snapshot, pid)
    {
      assert pid in Pids(tree);
    }
  }

  // ---------------------------------------------------------------------
  // What is left of recorded processes
  // ---------------------------------------------------------------------

  /** The row a search by pid comes upon first. */
  function Found(processes: seq<Identity>, pid: nat): (row: Option<Identity>)
    ensures row.Some? ==> row.value.pid == pid && row.value in processes
    ensures row.None? ==> forall p :: p in processes ==> p.pid != pid
  {
    if processes == [] then None
    else if processes[0].pid == pid then Some(processes[0])
    else Found(processes[1..], pid)
  }

  /** The same process and not a later one that was given its pid. */
  predicate Survives(snapshot: Snapshot, expected: Identity) {
    var row := Found(snapshot.processes, expected.pid);
    row.Some? && row.value.born == expected.born
  }

  /** The row by which one of the recorded processes is still there. */
  predicate SurvivorOf(snapshot: Snapshot, identities: seq<Identity>, row: Identity) {
    exists e :: e in identities && Survives(snapshot, e) && Found(snapshot.processes, e.pid) == Some(row)
  }

  /** The recorded processes that are still there; fails if one changed hands. */
  method Remaining(snapshot: Snapshot, identities: seq<Identity>)
    returns (remaining: Result<seq<Identity>, SnapshotError>)
    ensures remaining.Err? <==>
      exists i :: 0 <= i < |identities| && Survives(snapshot, identities[i]) &&
        Found(snapshot.processes, identities[i].pid).value.owner != identities[i].owner
    ensures remaining == Ok([]) <==> NoneSurvives(snapshot, identities)
    ensures remaining.Ok? ==>
      forall row :: row in remaining.value <==> SurvivorOf(snapshot, identities, row)
  {
    var result := [];
    for k := 0 to |identities|
      invariant forall i :: 0 <= i < k && Survives(snapshot, identities[i]) ==>
        Found(snapshot.processes, identities[i].pid).value.owner == identities[i].owner &&
        Found(snapshot.processes, identities[i].pid).value in result
      invariant forall row :: row in result ==> SurvivorOf(snapshot, identities[..k], row)
    {
      var expected := identities[k];
      var current := Found(snapshot.processes, expected.pid);
      if current.Some? && current.value.born == expected.born {
        assert Survives(snapshot, identities[k]);
        if current.value.owner != expected.owner {
          return Err(Unverifiable);
        }
        result := result + [current.value];
      }
    }
    assert result != [] ==> result[0] in result;
    return Ok(result);
  }

  predicate NoneSurvives(snapshot: Snapshot, identities: seq<Identity>) {
    forall i :: 0 <= i < |identities| ==> !Survives(snapshot, identities[i])
  }

  /** One life of a pid; two processes never share it. */
  datatype Birth = Birth(pid: nat, born: string)

  function BirthOf(identity: Identity): Birth {
    Birth(identity.pid, identity.born)
  }

  predicate Gone(identities: seq<Identity>, alive: set<Birth>) {
    forall i :: 0 <= i < |identities| ==> BirthOf(identities[i]) !in alive
  }

  /** A snapshot that shows every live process under its own birth, each pid once.
      A row without a birth could not be read. */
  ghost predicate Faithful(snapshot: Snapshot, alive: set<Birth>) {
    && (forall b :: b in alive ==>
        exists p :: p in snapshot.processes && p.pid == b.pid && (p.born == b.born || p.born == ""))
    && (forall p :: p in snapshot.processes && p.born != "" ==> BirthOf(p) in alive)
    && (forall p, q :: p in snapshot.processes && q in snapshot.processes && p.pid == q.pid ==> p == q)
  }

  /** Nothing survives in a faithful snapshot exactly if every recorded process is
      gone or alive with its birth unreadable. */
  lemma NoneSurvivesWhenGone(
    snapshot: Snapshot, identities: seq<Identity>, alive: set<Birth>)
    requires Faithful(snapshot, alive)
    requires forall i :: 0 <= i < |identities| ==> identities[i].born != ""
    ensures NoneSurvives(snapshot, identities) <==>
      forall i :: 0 <= i < |identities| && BirthOf(identities[i]) in alive ==>
        Unreadable(snapshot, identities[i].pid)
    ensures Readable(snapshot) ==> (NoneSurvives(snapshot, identities) <==> Gone(identities, alive))
  {
  }

  predicate Unreadable(snapshot: Snapshot, pid: nat) {
    var row := Found(snapshot.processes, pid);
    row.Some? && row.value.born == ""
  }

  /** Every birth was read. */
  predicate Readable(snapshot: Snapshot) {
    forall p :: p in snapshot.processes ==> p.born != ""
  }
}
