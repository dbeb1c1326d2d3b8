/** Protocol versions, discovery and the modern version stamp. */
module McpProtocol {
  import opened Wrappers
  import opened Json

  const MODERN_VERSION := "2026-07-28"
  const LEGACY_VERSION := "2025-11-25"
  const VERSION_META_KEY := "io.modelcontextprotocol/protocolVersion"
  const METHOD_NOT_FOUND := -32601
  const DISCOVERY_UNSUPPORTED := -32004

  datatype Preference = Auto | Legacy | Modern

  datatype Era = LegacyEra | ModernEra

  datatype ConnectionInfo = ConnectionInfo(version: string, era: Era, instructions: Option<string>)

  predicate LegacyVersion(version: string) {
    version in [LEGACY_VERSION, "2025-06-18", "2025-03-26", "2024-11-05"]
  }

  /** The server has definitively said that it does not know discovery. */
  predicate DiscoveryUnsupported(code: int, data: Option<Json>) {
    || code == METHOD_NOT_FOUND
    || (code == DISCOVERY_UNSUPPORTED
        && data.Some?
        && data.value.Get("httpStatus") in {Some(Int(400)), Some(Int(404)), Some(Int(405)), Some(Int(415))})
  }

  /** Adds the modern version to the request metadata; `None` when there is no
      place for it. */
  function Stamp(parameters: Json): Option<Json> {
    if !parameters.Obj? then None
    else
      var metadata := if parameters.Get("_meta").Some? then parameters.fields["_meta"] else EMPTY_OBJECT;
      if !metadata.Obj? then None
      else Some(Insert(parameters, "_meta", Insert(metadata, VERSION_META_KEY, Str(MODERN_VERSION))))
  }

  /** The metadata members of request parameters, none if there is no metadata. */
  function Metadata(parameters: Json, key: string): Option<Json> {
    if parameters.Get("_meta").Some? then parameters.Get("_meta").value.Get(key) else None
  }

  /** Stamping adds the version and touches nothing else, so it can be repeated. */
  lemma StampIsConservative(parameters: Json)
    ensures Stamp(parameters).None? <==>
      !parameters.Obj? || (parameters.Get("_meta").Some? && !parameters.Get("_meta").value.Obj?)
    ensures Stamp(parameters).Some? ==>
      var stamped := Stamp(parameters).value;
      && Metadata(stamped, "io.modelcontextprotocol/protocolVersion") == Some(Str("2026-07-28"))
      && (forall key :: key != "_meta" ==> stamped.Get(key) == parameters.Get(key))
      && (forall key :: key != "io.modelcontextprotocol/protocolVersion" ==>
            Metadata(stamped, key) == Metadata(parameters, key))
      && Stamp(stamped) == Some(stamped)
  {
    if Stamp(parameters).Some? {
      var stamped := Stamp(parameters).value;
      var metadata := stamped.fields["_meta"];
      assert metadata.fields[VERSION_META_KEY := Str(MODERN_VERSION)] == metadata.fields;
      assert stamped.fields["_meta" := metadata] == stamped.fields;
    }
  }

  predicate NonemptyText(value: Json) {
    value.Str? && value.text != []
  }

  /** `None` when the discovery result is malformed. */
  function DiscoveryOffersModern(result: Json): Option<bool> {
    var versions := result.Get("supportedVersions");
    if versions.None? || !versions.value.Arr? || versions.value.items == [] then None
    else if exists v :: v in versions.value.items && !NonemptyText(v) then None
    else Some(Str(MODERN_VERSION) in versions.value.items)
  }

  function InfoOf(result: Json, era: Era): Option<ConnectionInfo> {
    var capabilities := result.Get("capabilities");
    var instructions := result.Get("instructions");
    var version := result.Get("protocolVersion");
    if capabilities.None? || !capabilities.value.Obj? then None
    else if era.ModernEra? && DiscoveryOffersModern(result) != Some(true) then None
    else if !era.ModernEra? && !(version.Some? && version.value.Str? && LegacyVersion(version.value.text)) then None
    else if instructions.Some? && !instructions.value.Str? then None
    else
      Some(ConnectionInfo(
        if era.ModernEra? then MODERN_VERSION else version.value.text,
        era,
        if instructions.Some? then Some(instructions.value.text) else None))
  }
}
