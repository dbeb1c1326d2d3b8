/** Adding server entries to a configuration document: what changes, which
    running servers have to be retired first, and why repeating an import leaves
    the file alone. */
module ConfigPlan {
  import opened Wrappers
  import opened Json
  import ConfigWriter

  const SERVERS := "mcpServers"

  datatype AddPolicy = Regular | Copy(replace: bool)

  datatype Entry = Entry(name: string, value: Json)

  /** The entries to add, in order; their names are the keys of a map. */
  datatype EntryMutation = EntryMutation(entries: seq<Entry>, policy: AddPolicy)

  ghost predicate Distinct(entries: seq<Entry>) {
    forall i, j :: 0 <= i < j < |entries| ==> entries[i].name != entries[j].name
  }

  function WritePolicyOf(mutation: EntryMutation): ConfigWriter.WritePolicy {
    match mutation.policy
    case Regular => ConfigWriter.Replace
    case Copy(_) => ConfigWriter.PreserveUnchanged
  }

  datatype ApplyError = NeedsServers | AlreadyExists(name: string)

  // ---------------------------------------------------------------------
  // What a mutation does to a document
  // ---------------------------------------------------------------------

  function Servers(document: Json): Option<map<string, Json>> {
    match document.Get(SERVERS)
    case Some(Obj(servers)) => Some(servers)
    case _ => None
  }

  function Extend(servers: map<string, Json>, entries: seq<Entry>): map<string, Json> {
    if entries == [] then servers
    else
      var last := entries[|entries| - 1];
      Extend(servers, entries[..|entries| - 1])[last.name := last.value]
  }

  /** An entry that would overwrite another one of the same name. */
  predicate Conflicts(servers: map<string, Json>, entry: Entry) {
    entry.name in servers && servers[entry.name] != entry.value
  }

  predicate Refused(mutation: EntryMutation, servers: map<string, Json>) {
    mutation.policy == Copy(false) &&
    exists i :: 0 <= i < |mutation.entries| && Conflicts(servers, mutation.entries[i])
  }

  /** The document after the mutation, unless it is refused. */
  function Applied(mutation: EntryMutation, document: Json): Option<Json> {
    var servers := Servers(document);
    if servers.None? || Refused(mutation, servers.value) then None
    else Some(Insert(document, SERVERS, Obj(Extend(servers.value, mutation.entries))))
  }

  /** The entries whose running servers have to go first. */
  predicate Affects(policy: AddPolicy, servers: map<string, Json>, entry: Entry) {
    entry.name in servers && (servers[entry.name] != entry.value || policy.Regular?)
  }

  function Affected(policy: AddPolicy, servers: map<string, Json>, entries: seq<Entry>): seq<string> {
    if entries == [] then []
    else
      var last := entries[|entries| - 1];
      var before := Affected(policy, servers, entries[..|entries| - 1]);
      if Affects(policy, servers, last) then before + [last.name] else before
  }

  /** A document edited in place. */
  class Document {
    var root: Json

    constructor (root: Json)
      ensures this.root == root
    {
      this.root := root;
    }

    /** All or nothing: on failure the document is as it was. */
    method Apply(mutation: EntryMutation) returns (names: Result<seq<string>, ApplyError>)
      modifies this
      ensures root == match Applied(mutation, old(root))
        case Some(changed) => changed
        case None => old(root)
      ensures names.Ok? <==> Applied(mutation, old(root)).Some?
      ensures names.Ok? ==>
        names.value == Affected(mutation.policy, Servers(old(root)).value, mutation.entries)
      ensures names == Err(NeedsServers) <==>
        old(root).Get("mcpServers").None? || !old(root).Get("mcpServers").value.Obj?
      ensures names.Ok? && Distinct(mutation.entries) ==> Merged(old(root), root, mutation.entries)
    {
      var servers := Servers(root);
      if servers.None? {
        return Err(NeedsServers);
      }
      var affected := [];
      for i := 0 to |mutation.entries|
        invariant affected == Affected(mutation.policy, servers.value, mutation.entries[..i])
        invariant mutation.policy == Copy(false) ==>
          forall j :: 0 <= j < i ==> !Conflicts(servers.value, mutation.entries[j])
      {
        var entry := mutation.entries[i];
        assert mutation.entries[..i + 1][..i] == mutation.entries[..i];
        if entry.name in servers.value {
          var previous := servers.value[entry.name];
          if previous != entry.value && mutation.policy == Copy(false) {
            return Err(AlreadyExists(entry.name));
          }
          if previous != entry.value || mutation.policy.Regular? {
            affected := affected + [entry.name];
          }
        }
      }
      assert mutation.entries[..|mutation.entries|] == mutation.entries;
      if Distinct(mutation.entries) {
        AppliedMerges(mutation, root);
      }
      root := Insert(root, SERVERS, Obj(Extend(servers.value, mutation.entries)));
      return Ok(affected);
    }
  }

  // ---------------------------------------------------------------------
  // Properties
  // ---------------------------------------------------------------------

  /** `after` is `before` with the entries in place and nothing else changed. */
  ghost predicate Merged(before: Json, after: Json, entries: seq<Entry>) {
    && before.Obj? && after.Obj? && after.fields.Keys == before.fields.Keys
    && (forall k :: k in before.fields && k != "mcpServers" ==> after.fields[k] == before.fields[k])
    && match (before.Get("mcpServers"), after.Get("mcpServers"))
       case (Some(Obj(was)), Some(Obj(now))) =>
         && (forall n :: n in now <==> n in was || Named(entries, n))
         && (forall n :: n in was && !Named(entries, n) ==> now[n] == was[n])
         && (forall i :: 0 <= i < |entries| ==> now[entries[i].name] == entries[i].value)
       case _ => false
  }

  predicate Named(entries: seq<Entry>, name: string) {
    exists i :: 0 <= i < |entries| && entries[i].name == name
  }

  lemma ExtendAt(servers: map<string, Json>, entries: seq<Entry>)
    requires Distinct(entries)
    ensures
      var extended := Extend(servers, entries);
      (forall n :: n in extended <==> n in servers || Named(entries, n)) &&
      (forall n :: n in servers && !Named(entries, n) ==> extended[n] == servers[n]) &&
      (forall i :: 0 <= i < |entries| ==>
        entries[i].name in extended && extended[entries[i].name] == entries[i].value)
  {
    forall n
      ensures n in Extend(servers, entries) <==> n in servers || Named(entries, n)
      ensures n in servers && !Named(entries, n) ==> Extend(servers, entries)[n] == servers[n]
    {
      ExtendElsewhere(servers, entries, n);
    }
    forall i | 0 <= i < |entries|
      ensures entries[i].name in Extend(servers, entries)
      ensures Extend(servers, entries)[entries[i].name] == entries[i].value
    {
      ExtendThere(servers, entries, i);
    }
  }

  lemma {:induction false} ExtendElsewhere(servers: map<string, Json>, entries: seq<Entry>, n: string)
    ensures n in Extend(servers, entries) <==> n in servers || Named(entries, n)
    ensures n in servers && !Named(entries, n) ==> Extend(servers, entries)[n] == servers[n]
  {
    if entries != [] {
      ExtendElsewhere(servers, entries[..|entries| - 1], n);
      NamedStep(entries, n);
    }
  }

  lemma {:induction false} ExtendThere(servers: map<string, Json>, entries: seq<Entry>, i: nat)
    requires Distinct(entries) && i < |entries|
    ensures entries[i].name in Extend(servers, entries)
    ensures Extend(servers, entries)[entries[i].name] == entries[i].value
  {
    if i < |entries| - 1 {
      ExtendThere(servers, entries[..|entries| - 1], i);
    }
  }

  lemma NamedStep(entries: seq<Entry>, n: string)
    requires entries != []
    ensures Named(entries, n) <==>
      Named(entries[..|entries| - 1], n) || n == entries[|entries| - 1].name
  {
    var before, last := entries[..|entries| - 1], entries[|entries| - 1];
    if Named(before, n) {
      var i :| 0 <= i < |before| && before[i].name == n;
      assert entries[i].name == n;
    }
    if Named(entries, n) {
      var i :| 0 <= i < |entries| && entries[i].name == n;
      assert i < |before| ==> before[i].name == n;
    }
  }

  /** A mutation that is not refused puts every entry in place and leaves every
      other server and every other setting alone. */
  lemma AppliedMerges(mutation: EntryMutation, document: Json)
    requires Distinct(mutation.entries) && Applied(mutation, document).Some?
    ensures Merged(document, Applied(mutation, document).value, mutation.entries)
  {
    ExtendAt(Servers(document).value, mutation.entries);
  }

  /** Leave to replace matters exactly if an existing server would change: then, and
      only then, is a copy without it refused; otherwise the two do the same. */
  lemma RefusedIfItWouldReplace(entries: seq<Entry>, document: Json)
    requires Distinct(entries) && Servers(document).Some?
    ensures
      var replacing := Applied(EntryMutation(entries, Copy(true)), document);
      var keeping := Applied(EntryMutation(entries, Copy(false)), document);
      && replacing.Some? && Applied(EntryMutation(entries, Regular), document) == replacing
      && (keeping.None? <==> ChangesAServer(document, replacing.value))
      && (keeping.Some? ==> keeping == replacing)
  {
    var replacing := Applied(EntryMutation(entries, Copy(true)), document).value;
    ExtendAt(Servers(document).value, entries);
    if i :| 0 <= i < |entries| && Conflicts(Servers(document).value, entries[i]) {
      assert Server(document, entries[i].name) != Server(replacing, entries[i].name);
    }
    if ChangesAServer(document, replacing) {
      var name :| Server(document, name).Some? && Server(document, name) != Server(replacing, name);
      assert Named(entries, name);
    }
  }

  ghost predicate ChangesAServer(before: Json, after: Json) {
    exists name :: Server(before, name).Some? && Server(before, name) != Server(after, name)
  }

  /** Applying a mutation again changes nothing, and is never refused. */
  lemma ApplyingTwiceIsOnce(mutation: EntryMutation, document: Json)
    requires Distinct(mutation.entries) && Applied(mutation, document).Some?
    ensures
      var once := Applied(mutation, document).value;
      Applied(mutation, once) == Some(once)
  {
    var once := Applied(mutation, document).value;
    var servers := Servers(once).value;
    ExtendAt(Servers(document).value, mutation.entries);
    ExtendAt(servers, mutation.entries);
    assert Extend(servers, mutation.entries) == servers;
    assert Insert(once, SERVERS, Obj(servers)) == once;
  }

  function Server(document: Json, name: string): Option<Json> {
    match Servers(document)
    case Some(servers) => if name in servers then Some(servers[name]) else None
    case None => None
  }

  /** Retired are, once each, the existing servers whose entry changes; with a
      regular addition every existing server it names; nothing for a copy that
      may not replace. */
  lemma AffectedAre(mutation: EntryMutation, document: Json, name: string)
    requires Distinct(mutation.entries) && Applied(mutation, document).Some?
    ensures
      var affected := Affected(mutation.policy, Servers(document).value, mutation.entries);
      (name in affected <==>
        Named(mutation.entries, name) && Server(document, name).Some? &&
        (mutation.policy.Regular? ||
         Server(document, name) != Server(Applied(mutation, document).value, name))) &&
      (forall i, j :: 0 <= i < j < |affected| ==> affected[i] != affected[j]) &&
      (mutation.policy == Copy(false) ==> affected == [])
  {
    var servers := Servers(document).value;
    ExtendAt(servers, mutation.entries);
    AffectedOnce(mutation.policy, servers, mutation.entries);
    AffectedName(mutation.policy, servers, mutation.entries, name);
    if mutation.policy == Copy(false) {
      NoneAffected(servers, mutation.entries);
    }
  }

  predicate AffectedBy(policy: AddPolicy, servers: map<string, Json>, entries: seq<Entry>, name: string) {
    exists i :: 0 <= i < |entries| && entries[i].name == name && Affects(policy, servers, entries[i])
  }

  lemma {:induction false} AffectedName(
    policy: AddPolicy, servers: map<string, Json>, entries: seq<Entry>, name: string)
    ensures name in Affected(policy, servers, entries) <==> AffectedBy(policy, servers, entries, name)
  {
    if entries != [] {
      var before, last := entries[..|entries| - 1], entries[|entries| - 1];
      AffectedName(policy, servers, before, name);
      if AffectedBy(policy, servers, before, name) {
        var i :| 0 <= i < |before| && before[i].name == name && Affects(policy, servers, before[i]);
        assert entries[i] == before[i];
      }
      if AffectedBy(policy, servers, entries, name) {
        var i :| 0 <= i < |entries| && entries[i].name == name && Affects(policy, servers, entries[i]);
        assert i < |before| ==> before[i] == entries[i];
      }
    }
  }

  lemma {:induction false} AffectedOnce(policy: AddPolicy, servers: map<string, Json>, entries: seq<Entry>)
    requires Distinct(entries)
    ensures
      var affected := Affected(policy, servers, entries);
      forall i, j :: 0 <= i < j < |affected| ==> affected[i] != affected[j]
  {
    if entries != [] {
      var before, last := entries[..|entries| - 1], entries[|entries| - 1];
      AffectedOnce(policy, servers, before);
      AffectedName(policy, servers, before, last.name);
    }
  }

  lemma {:induction false} NoneAffected(servers: map<string, Json>, entries: seq<Entry>)
    requires forall i :: 0 <= i < |entries| ==> !Conflicts(servers, entries[i])
    ensures Affected(Copy(false), servers, entries) == []
  {
    if entries != [] {
      NoneAffected(servers, entries[..|entries| - 1]);
    }
  }

  // ---------------------------------------------------------------------
  // Imports and the checked writer
  // ---------------------------------------------------------------------

  /** A writer that carries out the mutation. */
  ghost predicate Carries(w: ConfigWriter.Writer, mutation: EntryMutation) {
    w.policy == WritePolicyOf(mutation) &&
    forall document :: w.mutate(document) == Applied(mutation, document)
  }

  /** The document is read back as it was printed. */
  ghost predicate ReadsBack(codec: ConfigWriter.Codec, document: Json) {
    codec.parse(codec.render(document) + "\n") == Some(document)
  }

  /** The document a commit of the history writes is read back as it was printed. */
  ghost predicate CommitReadsBack(
    initial: Option<string>, history: seq<ConfigWriter.Change>, writers: seq<ConfigWriter.Writer>,
    codec: ConfigWriter.Codec, k: nat)
    requires k < |history| && history[k].Commit? && history[k].writer < |writers|
  {
    var replaced := ConfigWriter.Replay(initial, history[..k], writers, codec);
    var plan := ConfigWriter.PlanOf(writers[history[k].writer], codec, replaced);
    plan.Some? ==> ReadsBack(codec, plan.value.document)
  }

  /** Over the output of an import a writer of the same import has nothing to
      change. */
  lemma NothingLeftToChange(
    first: ConfigWriter.Writer, second: ConfigWriter.Writer, codec: ConfigWriter.Codec,
    mutation: EntryMutation, replaced: Option<string>)
    requires Carries(first, mutation) && Carries(second, mutation)
    requires Distinct(mutation.entries) && ConfigWriter.PlanOf(first, codec, replaced).Some?
    requires ReadsBack(codec, ConfigWriter.PlanOf(first, codec, replaced).value.document)
    ensures
      var text := ConfigWriter.Output(codec, ConfigWriter.PlanOf(first, codec, replaced).value);
      var again := ConfigWriter.PlanOf(second, codec, Some(text));
      again.Some? && again.value.document == again.value.previous
  {
    var plan := ConfigWriter.PlanOf(first, codec, replaced).value;
    ApplyingTwiceIsOnce(mutation, plan.previous);
    assert second.mutate(plan.document) == Some(plan.document);
  }

  lemma AdjacentImports(
    initial: Option<string>, history: seq<ConfigWriter.Change>, writers: seq<ConfigWriter.Writer>,
    codec: ConfigWriter.Codec, mutation: EntryMutation, k: nat)
    requires ConfigWriter.Lawful(initial, history, writers, codec)
    requires Distinct(mutation.entries) && mutation.policy.Copy?
    requires k + 1 < |history| && history[k].Commit? && history[k + 1].Commit?
    requires Carries(writers[history[k].writer], mutation)
    requires CommitReadsBack(initial, history, writers, codec, k)
    ensures !Carries(writers[history[k + 1].writer], mutation)
  {
    var first, second := writers[history[k].writer], writers[history[k + 1].writer];
    var replaced := ConfigWriter.Replay(initial, history[..k], writers, codec);
    assert ConfigWriter.Justified(first, codec, replaced);
    assert history[..k + 1][..k] == history[..k];
    assert ConfigWriter.Justified(second, codec, ConfigWriter.Replay(initial, history[..k + 1], writers, codec));
    if Carries(second, mutation) {
      NothingLeftToChange(first, second, codec, mutation, replaced);
    }
  }

  /** In no history of concurrent writers and edits does the same import commit
      twice in a row, if the document that the first one wrote is read back as it
      was printed: the second leaves the bytes of the file as they are. */
  lemma RepeatedImportKeepsTheBytes(
    start: ConfigWriter.State, events: seq<ConfigWriter.Event>, codec: ConfigWriter.Codec,
    mutation: EntryMutation, k: nat)
    requires ConfigWriter.Fresh(start)
    requires Distinct(mutation.entries) && mutation.policy.Copy?
    requires
      var history := ConfigWriter.Run(start, events, codec).history;
      k + 1 < |history| && history[k].Commit? && history[k].writer < |start.writers| &&
      Carries(start.writers[history[k].writer], mutation) &&
      CommitReadsBack(start.config, history, start.writers, codec, k)
    ensures
      var next := ConfigWriter.Run(start, events, codec).history[k + 1];
      next.Commit? && next.writer < |start.writers| ==> !Carries(start.writers[next.writer], mutation)
  {
    ConfigWriter.NoLostUpdate(start, events, codec);
    var history := ConfigWriter.Run(start, events, codec).history;
    if history[k + 1].Commit? {
      AdjacentImports(start.config, history, start.writers, codec, mutation, k);
    }
  }

  /** It is enough that every document the validation lets through is read back: a
      writer commits no other. */
  lemma ValidDocumentsReadBack(
    start: ConfigWriter.State, events: seq<ConfigWriter.Event>, codec: ConfigWriter.Codec, k: nat)
    requires forall document :: codec.valid(document) ==> ReadsBack(codec, document)
    requires
      var history := ConfigWriter.Run(start, events, codec).history;
      k < |history| && history[k].Commit? && history[k].writer < |start.writers|
    ensures CommitReadsBack(
      start.config, ConfigWriter.Run(start, events, codec).history, start.writers, codec, k)
  {
  }

  /** A regular addition that succeeds has replaced the file, whether or not anything
      in it changed. */
  lemma RegularAdditionsCommit(
    start: ConfigWriter.State, events: seq<ConfigWriter.Event>, codec: ConfigWriter.Codec,
    mutation: EntryMutation, i: nat)
    requires ConfigWriter.Fresh(start) && i < |start.writers|
    requires mutation.policy.Regular? && Carries(start.writers[i], mutation)
    ensures
      var s := ConfigWriter.Run(start, events, codec);
      i < |s.writers| && (s.writers[i].phase == ConfigWriter.Over(true) ==> ConfigWriter.Commit(i) in s.history)
  {
    ConfigWriter.OutcomesAreHonest(start, events, codec, i);
  }
}
