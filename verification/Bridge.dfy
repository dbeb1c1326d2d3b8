/** The bridge's aggregate catalogue and the calls made through it. */
module Bridge {
  import opened Wrappers
  import opened Json
  import opened BridgeNames

  datatype ToolFilter = ToolFilter(allowed: Option<set<string>>, blocked: Option<set<string>>)

  predicate Permits(filter: ToolFilter, tool: string) {
    if filter.allowed.Some? then tool in filter.allowed.value
    else filter.blocked.Some? ==> tool !in filter.blocked.value
  }

  datatype ConfiguredServer = ConfiguredServer(name: string, filter: ToolFilter)

  datatype BridgeState = BridgeState(order: seq<string>, clients: map<string, ToolFilter>)

  /** A server as configured; a filter that does not parse is none. */
  datatype ServerEntry = ServerEntry(name: string, filter: Option<ToolFilter>)

  datatype Failure = UnknownServer | UnknownTool | Internal | NotConnected | InvalidFilter(server: string)

  ghost predicate AllDistinct<T>(items: seq<T>) {
    forall i, j :: 0 <= i < j < |items| ==> items[i] != items[j]
  }

  /** What a connected bridge guarantees. */
  ghost predicate Connected(state: BridgeState) {
    AllDistinct(state.order) && forall name :: name in state.clients <==> name in state.order
  }

  // ---------------------------------------------------------------------
  // Connecting
  // ---------------------------------------------------------------------

  lemma {:induction false} DistinctCount(names: seq<string>)
    ensures |set name | name in names| <= |names|
    ensures |set name | name in names| == |names| <==> AllDistinct(names)
  {
    if names != [] {
      var last, rest := names[|names| - 1], names[..|names| - 1];
      DistinctCount(rest);
      assert names == rest + [last];
      assert (set name | name in names) == (set name | name in rest) + {last};
      if last in rest {
        assert (set name | name in names) == (set name | name in rest);
        var i :| 0 <= i < |rest| && rest[i] == last;
        assert names[i] == names[|names| - 1];
      }
    }
  }

  /** Every filter is parsed first; one that does not parse ends the attempt. */
  function WithFilters(entries: seq<ServerEntry>): (servers: Result<seq<ConfiguredServer>, Failure>)
    ensures servers.Ok? <==> forall i :: 0 <= i < |entries| ==> entries[i].filter.Some?
    ensures servers.Ok? ==> |servers.value| == |entries|
    ensures servers.Ok? ==> forall i :: 0 <= i < |entries| ==>
      servers.value[i] == ConfiguredServer(entries[i].name, entries[i].filter.value)
    ensures servers.Err? ==> servers.error.InvalidFilter?
  {
    if entries == [] then Ok([])
    else
      var last, before := entries[|entries| - 1], WithFilters(entries[..|entries| - 1]);
      if before.Err? then before
      else if last.filter.None? then Err(InvalidFilter(last.name))
      else Ok(before.value + [ConfiguredServer(last.name, last.filter.value)])
  }

  function NamesOf(servers: seq<ConfiguredServer>): (names: seq<string>)
    ensures |names| == |servers|
    ensures forall i :: 0 <= i < |servers| ==> names[i] == servers[i].name
  {
    seq(|servers|, i requires 0 <= i < |servers| => servers[i].name)
  }

  /** Takes the connections as they complete; the first failure ends the attempt. */
  method CollectClients(servers: seq<ConfiguredServer>, completion: seq<nat>, connects: nat -> bool)
    returns (clients: Option<map<string, ToolFilter>>)
    requires forall k :: 0 <= k < |completion| ==> completion[k] < |servers|
    ensures clients.None? <==> exists k :: 0 <= k < |completion| && !connects(completion[k])
    ensures clients.Some? ==> Collected(servers, completion, clients.value)
  {
    var collected: map<string, ToolFilter> := map[];
    for k := 0 to |completion|
      invariant forall j :: 0 <= j < k ==> connects(completion[j])
      invariant Collected(servers, completion[..k], collected)
    {
      if !connects(completion[k]) {
        return None;
      }
      var server := servers[completion[k]];
      CollectOne(servers, completion[..k], completion[k], collected);
      assert completion[..k + 1] == completion[..k] + [completion[k]];
      collected := collected[server.name := server.filter];
    }
    assert completion[..|completion|] == completion;
    clients := Some(collected);
  }

  /** The map holds each completed name, with the filter of a completed server. */
  ghost predicate Collected(servers: seq<ConfiguredServer>, completion: seq<nat>, clients: map<string, ToolFilter>)
  {
    && (forall j :: 0 <= j < |completion| ==> completion[j] < |servers| && servers[completion[j]].name in clients)
    && (forall name :: name in clients ==> HasServer(servers, completion, name, clients[name]))
  }

  ghost predicate HasServer(servers: seq<ConfiguredServer>, completion: seq<nat>, name: string, filter: ToolFilter) {
    exists j :: 0 <= j < |completion| && completion[j] < |servers|
      && servers[completion[j]] == ConfiguredServer(name, filter)
  }

  lemma CollectOne(servers: seq<ConfiguredServer>, completion: seq<nat>, next: nat, clients: map<string, ToolFilter>)
    requires Collected(servers, completion, clients) && next < |servers|
    ensures Collected(servers, completion + [next], clients[servers[next].name := servers[next].filter])
  {
    var longer := completion + [next];
    var clients' := clients[servers[next].name := servers[next].filter];
    forall name | name in clients'
      ensures HasServer(servers, longer, name, clients'[name])
    {
      if name == servers[next].name {
        assert servers[longer[|completion|]] == ConfiguredServer(name, clients'[name]);
      } else {
        assert HasServer(servers, completion, name, clients[name]);
        var j :| 0 <= j < |completion| && completion[j] < |servers|
          && servers[completion[j]] == ConfiguredServer(name, clients[name]);
        assert longer[j] == completion[j];
      }
    }
  }

  /** Filters are parsed before anything connects; then the connections complete
      in any order and each either yields a client or ends the attempt. A
      duplicated name collapses in the map and is caught by the count, so a bridge
      exists exactly when all filters parse, all servers connect and their names
      differ. */
  method Connect(entries: seq<ServerEntry>, completion: seq<nat>, connects: nat -> bool)
    returns (state: Result<BridgeState, Failure>)
    requires forall k :: 0 <= k < |completion| ==> completion[k] < |entries|
    requires forall i: nat :: i < |entries| ==> i in completion
    ensures state.Ok? <==>
      && (forall i :: 0 <= i < |entries| ==> entries[i].filter.Some?)
      && (forall i: nat :: i < |entries| ==> connects(i))
      && (forall i, j :: 0 <= i < j < |entries| ==> entries[i].name != entries[j].name)
    ensures state.Err? ==>
      if exists i :: 0 <= i < |entries| && entries[i].filter.None? then state.error.InvalidFilter?
      else state.error == NotConnected
    ensures state.Ok? ==>
      && Connected(state.value) && |state.value.order| == |entries|
      && forall i :: 0 <= i < |entries| ==>
          state.value.order[i] == entries[i].name &&
          entries[i].filter == Some(state.value.clients[entries[i].name])
  {
    var parsed := WithFilters(entries);
    if parsed.Err? {
      return Err(parsed.error);
    }
    state := ConnectAll(parsed.value, completion, connects);
  }

  method ConnectAll(servers: seq<ConfiguredServer>, completion: seq<nat>, connects: nat -> bool)
    returns (state: Result<BridgeState, Failure>)
    requires forall k :: 0 <= k < |completion| ==> completion[k] < |servers|
    requires forall i: nat :: i < |servers| ==> i in completion
    ensures state.Ok? <==>
      (forall i: nat :: i < |servers| ==> connects(i)) && AllDistinct(NamesOf(servers))
    ensures state.Err? ==> state.error == NotConnected
    ensures state.Ok? ==>
      && Connected(state.value) && state.value.order == NamesOf(servers)
      && forall i :: 0 <= i < |servers| ==> state.value.clients[servers[i].name] == servers[i].filter
  {
    var order := NamesOf(servers);
    var clients := CollectClients(servers, completion, connects);
    if clients.None? {
      return Err(NotConnected);
    }
    forall i: nat | i < |servers|
      ensures connects(i)
    {
      assert i in completion;
    }
    CollectedNames(servers, completion, clients.value);
    DistinctCount(order);
    if |clients.value| != |order| {
      return Err(NotConnected);
    }
    CollectedFilters(servers, completion, clients.value);
    return Ok(BridgeState(order, clients.value));
  }

  lemma CollectedNames(servers: seq<ConfiguredServer>, completion: seq<nat>, clients: map<string, ToolFilter>)
    requires forall i: nat :: i < |servers| ==> i in completion
    requires Collected(servers, completion, clients)
    ensures clients.Keys == set name | name in NamesOf(servers)
  {
    var order := NamesOf(servers);
    forall name
      ensures name in clients <==> name in order
    {
      if name in clients {
        assert HasServer(servers, completion, name, clients[name]);
        var j :| 0 <= j < |completion| && completion[j] < |servers|
          && servers[completion[j]] == ConfiguredServer(name, clients[name]);
        assert order[completion[j]] == name;
      }
      if name in order {
        var i: nat :| i < |order| && order[i] == name;
        assert i in completion;
      }
    }
  }

  lemma CollectedFilters(servers: seq<ConfiguredServer>, completion: seq<nat>, clients: map<string, ToolFilter>)
    requires forall i: nat :: i < |servers| ==> i in completion
    requires Collected(servers, completion, clients) && AllDistinct(NamesOf(servers))
    ensures forall i :: 0 <= i < |servers| ==>
      servers[i].name in clients && clients[servers[i].name] == servers[i].filter
  {
    forall i: nat | i < |servers|
      ensures servers[i].name in clients && clients[servers[i].name] == servers[i].filter
    {
      assert i in completion;
      var name := servers[i].name;
      assert HasServer(servers, completion, name, clients[name]);
      var j :| 0 <= j < |completion| && completion[j] < |servers|
        && servers[completion[j]] == ConfiguredServer(name, clients[name]);
      assert NamesOf(servers)[completion[j]] == NamesOf(servers)[i];
    }
  }

  // ---------------------------------------------------------------------
  // One server's catalogue
  // ---------------------------------------------------------------------

  /** The name of a tool; empty for a value that has none. */
  function NameOf(tool: Json): string {
    var name := tool.Get("name");
    if name.Some? && name.value.Str? then name.value.text else []
  }

  /** Keeps the first tool of each nonempty name. */
  function Normalized(tools: seq<Json>, seen: set<string>): seq<Json> {
    if tools == [] then []
    else
      var name := NameOf(tools[0]);
      if name != [] && name !in seen then [tools[0]] + Normalized(tools[1..], seen + {name})
      else Normalized(tools[1..], seen)
  }

  lemma NormalizedStep(tools: seq<Json>, i: nat, seen: set<string>, retained: seq<Json>)
    requires i < |tools|
    ensures
      var name := NameOf(tools[i]);
      retained + Normalized(tools[i..], seen) ==
        if name != [] && name !in seen then (retained + [tools[i]]) + Normalized(tools[i + 1..], seen + {name})
        else retained + Normalized(tools[i + 1..], seen)
  {
    var rest := tools[i..];
    assert rest[0] == tools[i] && rest[1..] == tools[i + 1..];
  }

  method NormalizeCatalog(tools: seq<Json>) returns (retained: seq<Json>)
    ensures retained == Normalized(tools, {})
  {
    retained := [];
    var seen: set<string> := {};
    ghost var whole := Normalized(tools, {});
    assert tools[0..] == tools;
    for i := 0 to |tools|
      invariant retained + Normalized(tools[i..], seen) == whole
    {
      NormalizedStep(tools, i, seen, retained);
      var name := NameOf(tools[i]);
      if name != [] && name !in seen {
        retained := retained + [tools[i]];
        seen := seen + {name};
      }
    }
    assert tools[|tools|..] == [];
  }

  ghost predicate NamedApart(tools: seq<Json>) {
    && (forall i :: 0 <= i < |tools| ==> NameOf(tools[i]) != [])
    && (forall i, j :: 0 <= i < j < |tools| ==> NameOf(tools[i]) != NameOf(tools[j]))
  }

  lemma NamedApartCons(tool: Json, tools: seq<Json>)
    requires NamedApart(tools) && NameOf(tool) != []
    requires forall i :: 0 <= i < |tools| ==> NameOf(tools[i]) != NameOf(tool)
    ensures NamedApart([tool] + tools)
  {
  }

  lemma {:induction false} NormalizedApart(tools: seq<Json>, seen: set<string>)
    ensures var kept := Normalized(tools, seen);
      && NamedApart(kept)
      && (forall i :: 0 <= i < |kept| ==> kept[i] in tools && NameOf(kept[i]) !in seen)
  {
    if tools != [] {
      var name := NameOf(tools[0]);
      if name != [] && name !in seen {
        NormalizedApart(tools[1..], seen + {name});
        var rest := Normalized(tools[1..], seen + {name});
        NamedApartCons(tools[0], rest);
      } else {
        NormalizedApart(tools[1..], seen);
      }
    }
  }

  lemma {:induction false} NormalizedCovers(tools: seq<Json>, seen: set<string>, tool: Json)
    requires tool in tools && NameOf(tool) != [] && NameOf(tool) !in seen
    ensures exists kept :: kept in Normalized(tools, seen) && NameOf(kept) == NameOf(tool)
  {
    var name := NameOf(tools[0]);
    if name != [] && name !in seen {
      assert tools[0] in Normalized(tools, seen);
      if NameOf(tool) != name {
        NormalizedCovers(tools[1..], seen + {name}, tool);
        var kept :| kept in Normalized(tools[1..], seen + {name}) && NameOf(kept) == NameOf(tool);
        assert kept in Normalized(tools, seen);
      }
    } else {
      NormalizedCovers(tools[1..], seen, tool);
    }
  }

  function Permitted(filter: ToolFilter, tools: seq<Json>): seq<Json> {
    if tools == [] then []
    else if Permits(filter, NameOf(tools[0])) then [tools[0]] + Permitted(filter, tools[1..])
    else Permitted(filter, tools[1..])
  }

  lemma {:induction false} PermittedMembers(filter: ToolFilter, tools: seq<Json>, tool: Json)
    ensures tool in Permitted(filter, tools) <==> tool in tools && Permits(filter, NameOf(tool))
  {
    if tools != [] {
      PermittedMembers(filter, tools[1..], tool);
      assert tools == [tools[0]] + tools[1..];
    }
  }

  lemma {:induction false} PermittedApart(filter: ToolFilter, tools: seq<Json>)
    requires NamedApart(tools)
    ensures NamedApart(Permitted(filter, tools))
  {
    if tools != [] {
      PermittedApart(filter, tools[1..]);
      var rest := Permitted(filter, tools[1..]);
      forall i | 0 <= i < |rest|
        ensures NameOf(rest[i]) != NameOf(tools[0])
      {
        PermittedMembers(filter, tools[1..], rest[i]);
        var k :| 0 <= k < |tools[1..]| && tools[1..][k] == rest[i];
        assert tools[k + 1] == rest[i];
      }
      if Permits(filter, NameOf(tools[0])) {
        NamedApartCons(tools[0], rest);
      }
    }
  }

  // ---------------------------------------------------------------------
  // Exposing tools
  // ---------------------------------------------------------------------

  function DescribeTool(server: string, description: string): string {
    if description != [] then "[" + server + "] " + description
    else "Tool from MCP server '" + server + "'."
  }

  function TextOf(value: Option<Json>): string {
    if value.Some? && value.value.Str? then value.value.text else []
  }

  function ExposedName(server: string, tool: Json, bare: bool): string {
    if bare then NameOf(tool) else EncodeToolName(server, NameOf(tool))
  }

  /** The tool as the bridge publishes it; `None` without a usable name. */
  function Expose(server: string, tool: Json, bare: bool): Option<Json> {
    var name := NameOf(tool);
    if !tool.Obj? || name == [] then None
    else
      var named := Insert(tool, "name", Str(ExposedName(server, tool, bare)));
      var described :=
        if bare then named
        else Insert(named, "description", Str(DescribeTool(server, TextOf(tool.Get("description")))));
      var schema := tool.Get("inputSchema");
      var input :=
        if schema.Some? && schema.value.Get("type") == Some(Str("object")) then described
        else Insert(described, "inputSchema", Obj(map["type" := Str("object")]));
      var output := tool.Get("outputSchema");
      Some(if output.Some? && output.value.Obj? then input else Obj(input.fields - {"outputSchema"}))
  }

  /** A published tool bears the exposed name, and whatever else the tool has besides
      its description and schemas. */
  lemma ExposedTool(server: string, tool: Json, bare: bool)
    requires NameOf(tool) != []
    ensures Expose(server, tool, bare).Some?
    ensures var exposed := Expose(server, tool, bare).value;
      && NameOf(exposed) == ExposedName(server, tool, bare)
      && (forall key :: key !in {"name", "description", "inputSchema", "outputSchema"} ==>
            exposed.Get(key) == tool.Get(key))
  {
  }

  /** A published tool's description names the server, unless names are bare; then it
      is the tool's own. */
  lemma ExposedDescription(server: string, tool: Json, bare: bool)
    requires NameOf(tool) != []
    ensures Expose(server, tool, bare).Some?
    ensures Expose(server, tool, bare).value.Get("description") ==
      if bare then tool.Get("description")
      else
        match tool.Get("description")
        case Some(Str(text)) =>
          if text == "" then Some(Str("Tool from MCP server '" + server + "'."))
          else Some(Str("[" + server + "] " + text))
        case _ => Some(Str("Tool from MCP server '" + server + "'."))
  {
  }

  /** A published tool's input schema is its own if that describes an object and the
      empty object schema otherwise; its output schema is its own if that is an
      object and missing otherwise. */
  lemma ExposedSchemas(server: string, tool: Json, bare: bool)
    requires NameOf(tool) != []
    ensures Expose(server, tool, bare).Some?
    ensures var exposed, input := Expose(server, tool, bare).value, tool.Get("inputSchema");
      exposed.Get("inputSchema") ==
        if input.Some? && input.value.Get("type") == Some(Str("object")) then input
        else Some(Obj(map["type" := Str("object")]))
    ensures var exposed, output := Expose(server, tool, bare).value, tool.Get("outputSchema");
      exposed.Get("outputSchema") == if output.Some? && output.value.Obj? then output else None
  {
  }

  /** The published form of one server's tools. */
  function ExposeAll(server: string, tools: seq<Json>, bare: bool): seq<Json> {
    if tools == [] then []
    else
      var exposed := Expose(server, tools[0], bare);
      if exposed.Some? then [exposed.value] + ExposeAll(server, tools[1..], bare)
      else ExposeAll(server, tools[1..], bare)
  }

  /** One server's contribution to the catalogue. */
  function Contribution(filter: ToolFilter, tools: seq<Json>): seq<Json> {
    Permitted(filter, Normalized(tools, {}))
  }

  // ---------------------------------------------------------------------
  // Listing
  // ---------------------------------------------------------------------

  datatype Listing = Listed(tools: seq<Json>) | ListingFailed

  function SelectedServers(state: BridgeState, only: Option<string>): Result<seq<string>, Failure> {
    match only
    case None => Ok(state.order)
    case Some(name) => if name in state.clients then Ok([name]) else Err(UnknownServer)
  }

  /** The catalogue: every selected server's contribution, in server order. */
  function Catalogue(
      state: BridgeState, names: seq<string>, listings: map<string, Listing>, bare: bool): seq<Json>
    requires AllListed(names, listings)
    requires forall k :: 0 <= k < |names| ==> names[k] in state.clients
  {
    if names == [] then []
    else
      ExposeAll(names[0], Contribution(state.clients[names[0]], listings[names[0]].tools), bare)
      + Catalogue(state, names[1..], listings, bare)
  }

  /** What one tool adds to the catalogue. */
  function Published(server: string, filter: ToolFilter, tool: Json, bare: bool): seq<Json> {
    var exposed := Expose(server, tool, bare);
    if Permits(filter, NameOf(tool)) && exposed.Some? then [exposed.value] else []
  }

  lemma ExposePermitted(server: string, filter: ToolFilter, tool: Json, tools: seq<Json>, bare: bool)
    ensures ExposeAll(server, Permitted(filter, [tool] + tools), bare)
      == Published(server, filter, tool, bare) + ExposeAll(server, Permitted(filter, tools), bare)
  {
    PermittedCons(filter, tool, tools);
    var rest := Permitted(filter, tools);
    assert ([tool] + rest)[1..] == rest;
    assert [] + rest == rest;
  }

  lemma AppendStep(result: seq<Json>, server: string, filter: ToolFilter, tools: seq<Json>, i: nat, bare: bool)
    requires i < |tools|
    ensures result + ExposeAll(server, Permitted(filter, tools[i..]), bare)
      == (result + Published(server, filter, tools[i], bare))
         + ExposeAll(server, Permitted(filter, tools[i + 1..]), bare)
  {
    assert tools[i..] == [tools[i]] + tools[i + 1..];
    ExposePermitted(server, filter, tools[i], tools[i + 1..], bare);
  }

  /** Appends one server's permitted tools in their published form. */
  method AppendExposed(result: seq<Json>, server: string, filter: ToolFilter, tools: seq<Json>, bare: bool)
    returns (longer: seq<Json>)
    ensures longer == result + ExposeAll(server, Permitted(filter, tools), bare)
  {
    longer := result;
    ghost var whole := result + ExposeAll(server, Permitted(filter, tools), bare);
    assert tools[0..] == tools;
    for i := 0 to |tools|
      invariant longer + ExposeAll(server, Permitted(filter, tools[i..]), bare) == whole
    {
      AppendStep(longer, server, filter, tools, i, bare);
      if Permits(filter, NameOf(tools[i])) {
        var exposed := Expose(server, tools[i], bare);
        if exposed.Some? {
          longer := longer + [exposed.value];
        }
      }
    }
    assert tools[|tools|..] == [];
  }

  ghost predicate AllListed(names: seq<string>, listings: map<string, Listing>) {
    forall k :: 0 <= k < |names| ==> names[k] in listings && listings[names[k]].Listed?
  }

  /** Takes the listings as they finish; the first failure ends the attempt. */
  method GatherListings(listings: map<string, Listing>, completion: seq<string>)
    returns (listed: Option<map<string, seq<Json>>>)
    requires forall k :: 0 <= k < |completion| ==> completion[k] in listings
    ensures listed.Some? <==> AllListed(completion, listings)
    ensures listed.Some? ==> forall k :: 0 <= k < |completion| ==>
      completion[k] in listed.value && listed.value[completion[k]] == Normalized(listings[completion[k]].tools, {})
  {
    var gathered: map<string, seq<Json>> := map[];
    for k := 0 to |completion|
      invariant forall j :: 0 <= j < k ==>
        && listings[completion[j]].Listed? && completion[j] in gathered
        && gathered[completion[j]] == Normalized(listings[completion[j]].tools, {})
    {
      match listings[completion[k]] {
        case ListingFailed =>
          return None;
        case Listed(tools) =>
          var retained := NormalizeCatalog(tools);
          gathered := gathered[completion[k] := retained];
      }
    }
    listed := Some(gathered);
  }

  lemma CatalogueStep(
      state: BridgeState, names: seq<string>, i: nat, listings: map<string, Listing>, bare: bool, catalogue: seq<Json>)
    requires i < |names| && AllListed(names, listings)
    requires forall k :: 0 <= k < |names| ==> names[k] in state.clients
    ensures
      var part := ExposeAll(names[i], Contribution(state.clients[names[i]], listings[names[i]].tools), bare);
      catalogue + Catalogue(state, names[i..], listings, bare)
      == (catalogue + part) + Catalogue(state, names[i + 1..], listings, bare)
  {
    var rest := names[i..];
    assert rest[0] == names[i] && rest[1..] == names[i + 1..];
  }

  /** Puts the gathered catalogues together in server order. */
  method Assemble(state: BridgeState, names: seq<string>, listings: map<string, Listing>,
                  listed: map<string, seq<Json>>, bare: bool) returns (catalogue: seq<Json>)
    requires AllListed(names, listings)
    requires forall k :: 0 <= k < |names| ==>
      && names[k] in state.clients && names[k] in listed
      && listed[names[k]] == Normalized(listings[names[k]].tools, {})
    ensures catalogue == Catalogue(state, names, listings, bare)
  {
    catalogue := [];
    ghost var whole := Catalogue(state, names, listings, bare);
    assert names[0..] == names;
    for i := 0 to |names|
      invariant catalogue + Catalogue(state, names[i..], listings, bare) == whole
    {
      CatalogueStep(state, names, i, listings, bare, catalogue);
      catalogue := AppendExposed(catalogue, names[i], state.clients[names[i]], listed[names[i]], bare);
    }
    assert names[|names|..] == [];
  }

  /** Lists the selected servers concurrently: `completion` is the order in which
      the listings happen to finish. The result does not depend on it. */
  method ListTools(state: BridgeState, only: Option<string>, listings: map<string, Listing>, completion: seq<string>)
    returns (result: Result<seq<Json>, Failure>)
    requires Connected(state)
    requires SelectedServers(state, only).Ok? ==>
      && multiset(completion) == multiset(SelectedServers(state, only).value)
      && forall k :: 0 <= k < |completion| ==> completion[k] in listings
    ensures result == Err(UnknownServer) <==> only.Some? && only.value !in state.clients
    ensures only.None? || only.value in state.clients ==>
      var names := if only.None? then state.order else [only.value];
      && (result.Ok? <==> AllListed(names, listings))
      && (result.Ok? ==> result.value == Catalogue(state, names, listings, only.Some?))
      && (result.Err? ==> result == Err(Internal))
  {
    var selected := SelectedServers(state, only);
    if selected.Err? {
      return Err(UnknownServer);
    }
    var names := selected.value;
    SameMembers(names, completion);
    SameMembers(completion, names);
    var listed := GatherListings(listings, completion);
    if listed.None? {
      return Err(Internal);
    }
    forall k | 0 <= k < |names|
      ensures names[k] in state.clients && names[k] in completion
    {
      assert names[k] in names;
    }
    var catalogue := Assemble(state, names, listings, listed.value, only.Some?);
    return Ok(catalogue);
  }

  lemma SameMembers(a: seq<string>, b: seq<string>)
    requires multiset(a) == multiset(b)
    ensures forall k :: 0 <= k < |a| ==> a[k] in b
  {
    forall k | 0 <= k < |a|
      ensures a[k] in b
    {
      assert a[k] in multiset(b);
    }
  }

  // ---------------------------------------------------------------------
  // Calling
  // ---------------------------------------------------------------------

  /** Where a call goes: the server and the tool name it is asked for. */
  ghost function Dispatch(state: BridgeState, name: string, only: Option<string>): Result<(string, string), Failure> {
    var target :=
      if only.Some? then
        if only.value in state.clients && name != [] then Some((only.value, name)) else None
      else Decoded(name, state.order);
    if target.None? then Err(UnknownTool)
    else if target.value.0 !in state.clients then Err(UnknownServer)
    else if !Permits(state.clients[target.value.0], target.value.1) then Err(UnknownTool)
    else Ok(target.value)
  }

  /** The call means this tool of this server. */
  ghost predicate Means(state: BridgeState, name: string, only: Option<string>, server: string, tool: string) {
    match only
    case Some(selected) => server == selected && selected in state.clients && tool == name && tool != []
    case None => NameSplits(name, state.order, server, tool)
  }

  lemma MeaningIsTarget(state: BridgeState, name: string, only: Option<string>, server: string, tool: string)
    ensures Means(state, name, only, server, tool) ==>
      Dispatch(state, name, only) ==
        if server !in state.clients then Err(UnknownServer)
        else if !Permits(state.clients[server], tool) then Err(UnknownTool)
        else Ok((server, tool))
    ensures Dispatch(state, name, only) == Ok((server, tool)) ==>
      Means(state, name, only, server, tool) && server in state.clients && Permits(state.clients[server], tool)
  {
    if only.None? && NameSplits(name, state.order, server, tool) {
      SplitDetermines(name, state.order, server, tool);
    }
  }

  /** Where a filter lists what it allows, calls reach nothing else; where it lists what
      it blocks, they reach everything but that; and with no list, everything. */
  lemma FiltersDecide(state: BridgeState, name: string, only: Option<string>, server: string, tool: string)
    requires server in state.clients
    ensures
      var filter := state.clients[server];
      Dispatch(state, name, only) == Ok((server, tool)) <==>
        Means(state, name, only, server, tool) &&
        match filter.allowed
        case Some(allowed) => tool in allowed
        case None => match filter.blocked case Some(blocked) => tool !in blocked case None => true
  {
    MeaningIsTarget(state, name, only, server, tool);
  }

  /** A call reaches exactly the permitted tool of a connected server that it means;
      a server is unknown exactly if one is meant that is not connected. */
  lemma CallsReachWhatTheyMean(state: BridgeState, name: string, only: Option<string>)
    ensures forall server, tool :: Dispatch(state, name, only) == Ok((server, tool)) <==>
      Means(state, name, only, server, tool) && server in state.clients && Permits(state.clients[server], tool)
    ensures Dispatch(state, name, only) == Err(UnknownServer) <==>
      exists server, tool :: Means(state, name, only, server, tool) && server !in state.clients
  {
    forall server, tool
      ensures Dispatch(state, name, only) == Ok((server, tool)) <==>
        Means(state, name, only, server, tool) && server in state.clients && Permits(state.clients[server], tool)
      ensures Means(state, name, only, server, tool) && server !in state.clients ==>
        Dispatch(state, name, only) == Err(UnknownServer)
    {
      MeaningIsTarget(state, name, only, server, tool);
    }
    if Dispatch(state, name, only) == Err(UnknownServer) {
      var target := Decoded(name, state.order).value;
      assert Means(state, name, only, target.0, target.1);
    }
  }

  method CallTool(state: BridgeState, name: string, only: Option<string>)
    returns (dispatched: Result<(string, string), Failure>)
    ensures dispatched == Dispatch(state, name, only)
    ensures forall server, tool :: dispatched == Ok((server, tool)) <==>
      Means(state, name, only, server, tool) && server in state.clients && Permits(state.clients[server], tool)
    ensures dispatched == Err(UnknownServer) <==>
      exists server, tool :: Means(state, name, only, server, tool) && server !in state.clients
    ensures dispatched.Err? ==> dispatched.error.UnknownServer? || dispatched.error.UnknownTool?
    ensures Connected(state) ==> dispatched != Err(UnknownServer)
    ensures Connected(state) && only.None? ==> forall server, tool ::
      server in state.order && tool != [] && name == EncodeToolName(server, tool) ==>
        dispatched == if Permits(state.clients[server], tool) then Ok((server, tool)) else Err(UnknownTool)
  {
    CallsReachWhatTheyMean(state, name, only);
    if Connected(state) {
      forall server, tool {
        CallsReachPermittedTools(state, only, name, server, tool);
      }
    }
    var target: Option<(string, string)>;
    match only {
      case Some(server) =>
        if server !in state.clients || name == [] {
          return Err(UnknownTool);
        }
        target := Some((server, name));
      case None =>
        target := DecodeToolName(name, state.order);
        if target.None? {
          return Err(UnknownTool);
        }
    }
    var (server, tool) := target.value;
    if server !in state.clients {
      return Err(UnknownServer);
    }
    if !Permits(state.clients[server], tool) {
      return Err(UnknownTool);
    }
    return Ok((server, tool));
  }

  /** A call only ever reaches a permitted tool of a served server, the one that
      was selected if there is one. Every permitted tool is reached under its
      exposed name, and one that is not permitted is unknown under it. */
  lemma CallsReachPermittedTools(state: BridgeState, only: Option<string>, name: string, server: string, tool: string)
    requires Connected(state)
    ensures Dispatch(state, name, only) == Ok((server, tool)) ==>
      && server in state.order && (only.Some? ==> server == only.value)
      && tool != [] && Permits(state.clients[server], tool)
    ensures server in state.order && tool != [] ==>
      Dispatch(state, EncodeToolName(server, tool), None) ==
        if Permits(state.clients[server], tool) then Ok((server, tool)) else Err(UnknownTool)
    ensures Dispatch(state, name, only) != Err(UnknownServer)
  {
    if server in state.order {
      DecodeUndoesEncode(server, tool, state.order);
    }
  }

  // ---------------------------------------------------------------------
  // Listing and calling agree
  // ---------------------------------------------------------------------

  /** Where an entry of the catalogue comes from. */
  ghost predicate ComesFrom(
      state: BridgeState, listings: map<string, Listing>, bare: bool, entry: Json, server: string, tool: Json)
  {
    && server in state.clients && server in listings && listings[server].Listed?
    && tool in listings[server].tools
    && NameOf(tool) != [] && Permits(state.clients[server], NameOf(tool))
    && Expose(server, tool, bare) == Some(entry)
  }

  lemma NamedToolsAreExposed(server: string, tool: Json, bare: bool)
    ensures Expose(server, tool, bare).Some? <==> NameOf(tool) != []
  {
  }

  /** The entries are the published forms of the tools, one each. */
  predicate Publishes(server: string, tools: seq<Json>, bare: bool, entries: seq<Json>) {
    |entries| == |tools| &&
    forall i :: 0 <= i < |tools| ==> Expose(server, tools[i], bare) == Some(entries[i])
  }

  lemma PublishesCons(server: string, tool: Json, tools: seq<Json>, bare: bool, entry: Json, entries: seq<Json>)
    requires Expose(server, tool, bare) == Some(entry) && Publishes(server, tools, bare, entries)
    ensures Publishes(server, [tool] + tools, bare, [entry] + entries)
  {
  }

  lemma ExposeCons(server: string, tools: seq<Json>, bare: bool)
    requires tools != [] && NameOf(tools[0]) != []
    ensures Expose(server, tools[0], bare).Some?
    ensures ExposeAll(server, tools, bare)
      == [Expose(server, tools[0], bare).value] + ExposeAll(server, tools[1..], bare)
  {
    NamedToolsAreExposed(server, tools[0], bare);
  }

  lemma {:induction false} ExposeAllNames(server: string, tools: seq<Json>, bare: bool)
    requires forall i :: 0 <= i < |tools| ==> NameOf(tools[i]) != []
    ensures Publishes(server, tools, bare, ExposeAll(server, tools, bare))
  {
    if tools != [] {
      var first, later := tools[0], tools[1..];
      ExposeAllNames(server, later, bare);
      ExposeCons(server, tools, bare);
      PublishesCons(
        server, first, later, bare, Expose(server, first, bare).value, ExposeAll(server, later, bare));
      assert tools == [first] + later;
    }
  }

  /** One server's part of the catalogue. */
  lemma ContributionEntries(state: BridgeState, listings: map<string, Listing>, bare: bool, server: string)
    requires server in state.clients && server in listings && listings[server].Listed?
    ensures var tools := Contribution(state.clients[server], listings[server].tools);
      var entries := ExposeAll(server, tools, bare);
      && |entries| == |tools| && NamedApart(tools)
      && (forall i :: 0 <= i < |entries| ==> ComesFrom(state, listings, bare, entries[i], server, tools[i]))
  {
    var all := Normalized(listings[server].tools, {});
    var tools := Permitted(state.clients[server], all);
    NormalizedApart(listings[server].tools, {});
    PermittedApart(state.clients[server], all);
    ExposeAllNames(server, tools, bare);
    forall i | 0 <= i < |tools|
      ensures tools[i] in listings[server].tools && Permits(state.clients[server], NameOf(tools[i]))
    {
      PermittedMembers(state.clients[server], all, tools[i]);
    }
  }

  function WithServer(server: string, tools: seq<Json>): (origins: seq<(string, Json)>)
    ensures |origins| == |tools|
    ensures forall i :: 0 <= i < |tools| ==> origins[i] == (server, tools[i])
  {
    seq(|tools|, i requires 0 <= i < |tools| => (server, tools[i]))
  }

  /** The catalogue as a list of origins: entry by entry, the server and the tool. */
  function Origins(
      state: BridgeState, names: seq<string>, listings: map<string, Listing>): seq<(string, Json)>
    requires AllListed(names, listings)
    requires forall k :: 0 <= k < |names| ==> names[k] in state.clients
  {
    if names == [] then []
    else
      WithServer(names[0], Contribution(state.clients[names[0]], listings[names[0]].tools))
      + Origins(state, names[1..], listings)
  }

  ghost predicate OriginsApart(origins: seq<(string, Json)>) {
    forall i, j :: 0 <= i < j < |origins| ==>
      origins[i].0 != origins[j].0 || NameOf(origins[i].1) != NameOf(origins[j].1)
  }

  lemma OriginsConcat(server: string, tools: seq<Json>, later: seq<(string, Json)>)
    requires NamedApart(tools) && OriginsApart(later)
    requires forall i :: 0 <= i < |later| ==> later[i].0 != server
    ensures OriginsApart(WithServer(server, tools) + later)
  {
    var head := WithServer(server, tools);
    var whole := head + later;
    forall i, j | 0 <= i < j < |whole|
      ensures whole[i].0 != whole[j].0 || NameOf(whole[i].1) != NameOf(whole[j].1)
    {
      if i >= |head| {
        assert whole[i] == later[i - |head|] && whole[j] == later[j - |head|];
      } else if j >= |head| {
        assert whole[j] == later[j - |head|];
      } else {
        assert whole[i] == (server, tools[i]) && whole[j] == (server, tools[j]);
      }
    }
  }

  /** Entry by entry, the catalogue is what its origins expose. */
  ghost predicate Exposes(
      state: BridgeState, names: seq<string>, listings: map<string, Listing>, bare: bool,
      entries: seq<Json>, origins: seq<(string, Json)>)
  {
    && |entries| == |origins|
    && forall i :: 0 <= i < |entries| ==>
         origins[i].0 in names && ComesFrom(state, listings, bare, entries[i], origins[i].0, origins[i].1)
  }

  lemma ExposesConcat(
      state: BridgeState, names: seq<string>, listings: map<string, Listing>, bare: bool,
      entries: seq<Json>, tools: seq<Json>, entries': seq<Json>, origins': seq<(string, Json)>)
    requires names != [] && |entries| == |tools|
    requires forall i :: 0 <= i < |entries| ==> ComesFrom(state, listings, bare, entries[i], names[0], tools[i])
    requires Exposes(state, names[1..], listings, bare, entries', origins')
    ensures Exposes(state, names, listings, bare, entries + entries', WithServer(names[0], tools) + origins')
  {
    var whole, origins := entries + entries', WithServer(names[0], tools) + origins';
    forall i | 0 <= i < |whole|
      ensures origins[i].0 in names && ComesFrom(state, listings, bare, whole[i], origins[i].0, origins[i].1)
    {
      if i < |entries| {
        assert origins[i] == (names[0], tools[i]) && whole[i] == entries[i];
      } else {
        assert origins[i] == origins'[i - |entries|] && whole[i] == entries'[i - |entries|];
      }
    }
  }

  lemma {:induction false} CatalogueOrigins(
      state: BridgeState, names: seq<string>, listings: map<string, Listing>, bare: bool)
    requires AllListed(names, listings) && AllDistinct(names)
    requires forall k :: 0 <= k < |names| ==> names[k] in state.clients
    ensures Exposes(
      state, names, listings, bare, Catalogue(state, names, listings, bare), Origins(state, names, listings))
    ensures OriginsApart(Origins(state, names, listings))
  {
    if names != [] {
      var server, later := names[0], names[1..];
      var tools := Contribution(state.clients[server], listings[server].tools);
      ContributionEntries(state, listings, bare, server);
      CatalogueOrigins(state, later, listings, bare);
      ExposesConcat(state, names, listings, bare, ExposeAll(server, tools, bare), tools,
                    Catalogue(state, later, listings, bare), Origins(state, later, listings));
      forall i | 0 <= i < |later|
        ensures later[i] != server
      {
        assert later[i] == names[i + 1];
      }
      OriginsConcat(server, tools, Origins(state, later, listings));
    }
  }

  /** Listed names are pairwise distinct, and calling a listed name dispatches
      exactly the server and the tool it was made from, past the same filter. */
  lemma ListedToolsAreCallable(state: BridgeState, only: Option<string>, listings: map<string, Listing>)
    requires Connected(state) && (only.None? || only.value in state.clients)
    requires AllListed(if only.None? then state.order else [only.value], listings)
    ensures var names := if only.None? then state.order else [only.value];
      var entries := Catalogue(state, names, listings, only.Some?);
      var origins := Origins(state, names, listings);
      && |entries| == |origins|
      && (forall i :: 0 <= i < |entries| ==>
            && ComesFrom(state, listings, only.Some?, entries[i], origins[i].0, origins[i].1)
            && Dispatch(state, NameOf(entries[i]), only) == Ok((origins[i].0, NameOf(origins[i].1))))
      && (forall i, j :: 0 <= i < j < |entries| ==> NameOf(entries[i]) != NameOf(entries[j]))
  {
    var names := SelectedServers(state, only).value;
    var bare := only.Some?;
    CatalogueOrigins(state, names, listings, bare);
    var entries := Catalogue(state, names, listings, bare);
    var origins := Origins(state, names, listings);
    forall i | 0 <= i < |entries|
      ensures Dispatch(state, NameOf(entries[i]), only) == Ok((origins[i].0, NameOf(origins[i].1)))
    {
      ExposedTool(origins[i].0, origins[i].1, bare);
      if !bare {
        DecodeUndoesEncode(origins[i].0, NameOf(origins[i].1), state.order);
      }
    }
    forall i, j | 0 <= i < j < |entries|
      ensures NameOf(entries[i]) != NameOf(entries[j])
    {
      assert Dispatch(state, NameOf(entries[i]), only) == Ok((origins[i].0, NameOf(origins[i].1)));
      assert Dispatch(state, NameOf(entries[j]), only) == Ok((origins[j].0, NameOf(origins[j].1)));
    }
  }

  ghost predicate HasEntry(entries: seq<Json>, name: string) {
    exists entry :: entry in entries && NameOf(entry) == name
  }

  /** Nothing permitted is left out: each permitted tool name of each selected
      server is listed. */
  lemma {:induction false} PermittedToolsAreListed(
      state: BridgeState, names: seq<string>, listings: map<string, Listing>, bare: bool, server: string, tool: Json)
    requires AllListed(names, listings)
    requires forall k :: 0 <= k < |names| ==> names[k] in state.clients
    requires server in names && tool in listings[server].tools
    requires NameOf(tool) != [] && Permits(state.clients[server], NameOf(tool))
    ensures HasEntry(Catalogue(state, names, listings, bare), ExposedName(server, tool, bare))
  {
    var first := names[0];
    if server == first {
      var entry := ContributionCovers(state, listings, bare, server, tool);
      assert entry in Catalogue(state, names, listings, bare);
    } else {
      PermittedToolsAreListed(state, names[1..], listings, bare, server, tool);
      var entry :|
        entry in Catalogue(state, names[1..], listings, bare) && NameOf(entry) == ExposedName(server, tool, bare);
      assert entry in Catalogue(state, names, listings, bare);
    }
  }

  lemma ContributionCovers(
      state: BridgeState, listings: map<string, Listing>, bare: bool, server: string, tool: Json) returns (entry: Json)
    requires server in state.clients && server in listings && listings[server].Listed?
    requires tool in listings[server].tools
    requires NameOf(tool) != [] && Permits(state.clients[server], NameOf(tool))
    ensures entry in ExposeAll(server, Contribution(state.clients[server], listings[server].tools), bare)
    ensures NameOf(entry) == ExposedName(server, tool, bare)
  {
    var all := Normalized(listings[server].tools, {});
    NormalizedCovers(listings[server].tools, {}, tool);
    var kept :| kept in all && NameOf(kept) == NameOf(tool);
    PermittedMembers(state.clients[server], all, kept);
    var tools := Permitted(state.clients[server], all);
    var i :| 0 <= i < |tools| && tools[i] == kept;
    NormalizedApart(listings[server].tools, {});
    PermittedApart(state.clients[server], all);
    ExposeAllNames(server, tools, bare);
    ExposedTool(server, kept, bare);
    entry := ExposeAll(server, tools, bare)[i];
  }

  // ---------------------------------------------------------------------
  // What is listed, and in which order
  // ---------------------------------------------------------------------

  /** The tool at this place of a listing is shown: it has a name, no tool before it
      has the same, and the filter permits it. */
  predicate ShownAt(filter: ToolFilter, tools: seq<Json>, b: nat) {
    && b < |tools| && NameOf(tools[b]) != [] && Permits(filter, NameOf(tools[b]))
    && forall a :: 0 <= a < b ==> NameOf(tools[a]) != NameOf(tools[b])
  }

  /** The places of the shown tools from `i` on. */
  function ShownFrom(filter: ToolFilter, tools: seq<Json>, i: nat): seq<nat>
    decreases |tools| - i
  {
    if i >= |tools| then []
    else (if ShownAt(filter, tools, i) then [i] else []) + ShownFrom(filter, tools, i + 1)
  }

  lemma {:induction false} ShownInOrder(filter: ToolFilter, tools: seq<Json>, i: nat)
    ensures var shown := ShownFrom(filter, tools, i);
      && (forall k :: 0 <= k < |shown| ==> shown[k] >= i && ShownAt(filter, tools, shown[k]))
      && (forall k, l :: 0 <= k < l < |shown| ==> shown[k] < shown[l])
      && (forall b :: b >= i && ShownAt(filter, tools, b) ==> b in shown)
    decreases |tools| - i
  {
    if i < |tools| {
      ShownInOrder(filter, tools, i + 1);
    }
  }

  predicate Within(places: seq<nat>, count: nat) {
    forall k :: 0 <= k < |places| ==> places[k] < count
  }

  /** The tools at these places. */
  function Pick(tools: seq<Json>, places: seq<nat>): (picked: seq<Json>)
    requires Within(places, |tools|)
  {
    seq(|places|, k requires 0 <= k < |places| => tools[places[k]])
  }

  /** The names of the first `i` tools. */
  function NamesBefore(tools: seq<Json>, i: nat): set<string>
    requires i <= |tools|
  {
    set a | 0 <= a < i && NameOf(tools[a]) != [] :: NameOf(tools[a])
  }

  lemma NamesBeforeStep(tools: seq<Json>, i: nat)
    requires i < |tools|
    ensures NamesBefore(tools, i + 1) ==
      NamesBefore(tools, i) + if NameOf(tools[i]) != [] then {NameOf(tools[i])} else {}
  {
  }

  lemma {:induction false} ContributionIsShown(filter: ToolFilter, tools: seq<Json>, i: nat)
    requires i <= |tools|
    ensures Within(ShownFrom(filter, tools, i), |tools|)
    ensures Permitted(filter, Normalized(tools[i..], NamesBefore(tools, i)))
      == Pick(tools, ShownFrom(filter, tools, i))
    decreases |tools| - i
  {
    if i < |tools| {
      ContributionIsShown(filter, tools, i + 1);
      NamesBeforeStep(tools, i);
      ShownByNames(filter, tools, i);
      var seen, name := NamesBefore(tools, i), NameOf(tools[i]);
      NormalizedHead(tools, i, seen);
      if name != [] && name !in seen {
        PermittedCons(filter, tools[i], Normalized(tools[i + 1..], seen + {name}));
      } else {
        assert NamesBefore(tools, i + 1) == seen;
      }
      PickCons(filter, tools, i);
    }
  }

  lemma NormalizedHead(tools: seq<Json>, i: nat, seen: set<string>)
    requires i < |tools|
    ensures
      var name := NameOf(tools[i]);
      Normalized(tools[i..], seen) ==
        if name != [] && name !in seen then [tools[i]] + Normalized(tools[i + 1..], seen + {name})
        else Normalized(tools[i + 1..], seen)
  {
    assert tools[i..][0] == tools[i] && tools[i..][1..] == tools[i + 1..];
  }

  lemma ShownByNames(filter: ToolFilter, tools: seq<Json>, i: nat)
    requires i < |tools|
    ensures ShownAt(filter, tools, i) <==>
      NameOf(tools[i]) != [] && NameOf(tools[i]) !in NamesBefore(tools, i) && Permits(filter, NameOf(tools[i]))
  {
  }

  lemma PickCons(filter: ToolFilter, tools: seq<Json>, i: nat)
    requires i < |tools|
    requires Within(ShownFrom(filter, tools, i + 1), |tools|)
    ensures Within(ShownFrom(filter, tools, i), |tools|)
    ensures Pick(tools, ShownFrom(filter, tools, i)) ==
      (if ShownAt(filter, tools, i) then [tools[i]] else []) + Pick(tools, ShownFrom(filter, tools, i + 1))
  {
  }

  lemma PermittedCons(filter: ToolFilter, tool: Json, tools: seq<Json>)
    ensures Permitted(filter, [tool] + tools) ==
      (if Permits(filter, NameOf(tool)) then [tool] else []) + Permitted(filter, tools)
  {
    assert ([tool] + tools)[1..] == tools;
  }

  /** Each entry shows the tool at its place: the place of the server among the names
      and of the tool in that server's listing. */
  ghost predicate ShowsPlaces(
    state: BridgeState, names: seq<string>, listings: map<string, Listing>, bare: bool,
    from: nat, entries: seq<Json>, places: seq<(nat, nat)>)
    requires AllListed(names, listings) && AllServed(state, names)
  {
    && |places| == |entries|
    && forall i :: 0 <= i < |places| ==>
        && from <= places[i].0 < |names|
        && var server := names[places[i].0];
           && ShownAt(state.clients[server], listings[server].tools, places[i].1)
           && Expose(server, listings[server].tools[places[i].1], bare) == Some(entries[i])
  }

  predicate Before(p: (nat, nat), q: (nat, nat)) {
    p.0 < q.0 || (p.0 == q.0 && p.1 < q.1)
  }

  predicate Rising(places: seq<(nat, nat)>) {
    forall i, j :: 0 <= i < j < |places| ==> Before(places[i], places[j])
  }

  /** Every tool that is shown has its place. */
  ghost predicate AllPlaced(
    state: BridgeState, names: seq<string>, listings: map<string, Listing>, from: nat, places: seq<(nat, nat)>)
    requires AllListed(names, listings) && AllServed(state, names)
  {
    forall a, b: nat :: from <= a < |names| && ShownAt(state.clients[names[a]], listings[names[a]].tools, b) ==>
      (a, b) in places
  }

  predicate AllServed(state: BridgeState, names: seq<string>) {
    forall k :: 0 <= k < |names| ==> names[k] in state.clients
  }

  function WithIndex(a: nat, shown: seq<nat>): (places: seq<(nat, nat)>)
    ensures |places| == |shown| && forall k :: 0 <= k < |shown| ==> places[k] == (a, shown[k])
  {
    seq(|shown|, k requires 0 <= k < |shown| => (a, shown[k]))
  }

  /** The places of one server's entries come before those of later servers. */
  lemma RisingWith(a: nat, shown: seq<nat>, places: seq<(nat, nat)>)
    requires forall k, l :: 0 <= k < l < |shown| ==> shown[k] < shown[l]
    requires Rising(places) && forall i :: 0 <= i < |places| ==> places[i].0 > a
    ensures Rising(WithIndex(a, shown) + places)
  {
  }

  lemma AllPlacedWith(
    state: BridgeState, names: seq<string>, listings: map<string, Listing>,
    a: nat, shown: seq<nat>, places: seq<(nat, nat)>)
    requires AllListed(names, listings) && AllServed(state, names) && a < |names|
    requires AllPlaced(state, names, listings, a + 1, places)
    requires forall b :: ShownAt(state.clients[names[a]], listings[names[a]].tools, b) ==> b in shown
    ensures AllPlaced(state, names, listings, a, WithIndex(a, shown) + places)
  {
    var first := WithIndex(a, shown);
    forall c, b: nat | a <= c < |names| && ShownAt(state.clients[names[c]], listings[names[c]].tools, b)
      ensures (c, b) in first + places
    {
      if c == a {
        var k :| 0 <= k < |shown| && shown[k] == b;
        assert first[k] == (a, b);
      }
    }
  }

  /** What one server adds to the catalogue. */
  function Addition(state: BridgeState, listings: map<string, Listing>, bare: bool, server: string): seq<Json>
    requires server in state.clients && server in listings && listings[server].Listed?
  {
    ExposeAll(server, Contribution(state.clients[server], listings[server].tools), bare)
  }

  lemma AdditionIsShown(state: BridgeState, listings: map<string, Listing>, bare: bool, server: string)
    requires server in state.clients && server in listings && listings[server].Listed?
    ensures
      var tools, mine := listings[server].tools, Addition(state, listings, bare, server);
      var shown := ShownFrom(state.clients[server], tools, 0);
      |mine| == |shown| && forall k :: 0 <= k < |shown| ==>
        ShownAt(state.clients[server], tools, shown[k]) && Expose(server, tools[shown[k]], bare) == Some(mine[k])
  {
    var filter, tools := state.clients[server], listings[server].tools;
    ContributionIsShown(filter, tools, 0);
    assert tools[0..] == tools && NamesBefore(tools, 0) == {};
    ShownInOrder(filter, tools, 0);
    ExposeAllNames(server, Pick(tools, ShownFrom(filter, tools, 0)), bare);
  }

  lemma ShowsPlacesWith(
    state: BridgeState, names: seq<string>, listings: map<string, Listing>, bare: bool,
    a: nat, shown: seq<nat>, mine: seq<Json>, entries: seq<Json>, places: seq<(nat, nat)>)
    requires AllListed(names, listings) && AllServed(state, names) && a < |names| && |mine| == |shown|
    requires ShowsPlaces(state, names, listings, bare, a + 1, entries, places)
    requires forall k :: 0 <= k < |shown| ==>
      && ShownAt(state.clients[names[a]], listings[names[a]].tools, shown[k])
      && Expose(names[a], listings[names[a]].tools[shown[k]], bare) == Some(mine[k])
    ensures ShowsPlaces(state, names, listings, bare, a, mine + entries, WithIndex(a, shown) + places)
  {
  }

  lemma {:induction false} CatalogueInOrder(
    state: BridgeState, names: seq<string>, listings: map<string, Listing>, bare: bool, a: nat)
    returns (places: seq<(nat, nat)>)
    requires AllListed(names, listings) && AllServed(state, names) && a <= |names|
    ensures ShowsPlaces(
      state, names, listings, bare, a, Catalogue(state, names[a..], listings, bare), places)
    ensures Rising(places) && AllPlaced(state, names, listings, a, places)
    decreases |names| - a
  {
    if a == |names| {
      places := [];
    } else {
      var later := CatalogueInOrder(state, names, listings, bare, a + 1);
      var server := names[a];
      var shown := ShownFrom(state.clients[server], listings[server].tools, 0);
      var mine := Addition(state, listings, bare, server);
      AdditionIsShown(state, listings, bare, server);
      ShownInOrder(state.clients[server], listings[server].tools, 0);
      ShowsPlacesWith(
        state, names, listings, bare, a, shown, mine, Catalogue(state, names[a + 1..], listings, bare), later);
      RisingWith(a, shown, later);
      AllPlacedWith(state, names, listings, a, shown, later);
      places := WithIndex(a, shown) + later;
      CatalogueCons(state, names, listings, bare, a);
    }
  }

  lemma CatalogueCons(
    state: BridgeState, names: seq<string>, listings: map<string, Listing>, bare: bool, a: nat)
    requires AllListed(names, listings) && AllServed(state, names) && a < |names|
    ensures Catalogue(state, names[a..], listings, bare) ==
      Addition(state, listings, bare, names[a]) + Catalogue(state, names[a + 1..], listings, bare)
  {
    assert names[a..][0] == names[a] && names[a..][1..] == names[a + 1..];
  }

  /** The catalogue lists, by server and within it as the server does, exactly the
      tools that have a name, are the first with it, and are permitted. */
  lemma CatalogueIsInOrder(
    state: BridgeState, names: seq<string>, listings: map<string, Listing>, bare: bool)
    returns (places: seq<(nat, nat)>)
    requires AllListed(names, listings) && AllServed(state, names)
    ensures ShowsPlaces(state, names, listings, bare, 0, Catalogue(state, names, listings, bare), places)
    ensures Rising(places) && AllPlaced(state, names, listings, 0, places)
  {
    places := CatalogueInOrder(state, names, listings, bare, 0);
    assert names[0..] == names;
  }
}
