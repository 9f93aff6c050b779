/**
 What the recorder takes from outside: redaction, fingerprints and fresh
 identifiers. They are parameters; the premises below say what is relied on.
 */
module Policy {
  import opened Results
  import opened Text
  import opened Trace
  import opened UsageImports

  // The normalised content a snapshot fingerprint covers.
  datatype Snapshot = Snapshot(sourceKind: string, format: string, observations: seq<UsageObservation>)

  datatype Environment = Environment(
    redact: string -> string,        // TraceRedactor.Redact
    secretKey: string -> bool,       // TraceRedactor.IsSecretKey
    hash: Snapshot -> string,        // SHA-256 of the serialised snapshot, in lower-case hexadecimal
    newGuid: nat -> Guid,            // the n-th Guid.NewGuid()
    serial: Guid -> nat)             // ... and the turn at which an identifier was drawn

  // ----- Premises -----

  ghost predicate FreshIdentifiers(env: Environment) {
    forall n: nat :: env.newGuid(n) != 0 && env.serial(env.newGuid(n)) == n
  }

  ghost predicate HashesAreHashes(env: Environment) {
    forall s :: IsHash(env.hash(s))
  }

  // The fingerprints of two snapshots tell them apart. No hash does so for all snapshots.
  ghost predicate ToldApart(env: Environment, s: Snapshot, t: Snapshot) {
    env.hash(s) == env.hash(t) ==> s == t
  }

  ghost predicate RedactionKeepsModelsValid(env: Environment) {
    forall model :: ValidModel(model) ==> ValidModel(env.redact(model))
  }

  ghost predicate RedactionCreatesNoCacheKey(env: Environment) {
    forall key :: IsCacheKey(env.redact(key)) ==> IsCacheKey(key)
  }

  ghost predicate RedactionKeepsHex(env: Environment) {
    forall s :: IsLowerHex(s) ==> env.redact(s) == s
  }

  // ----- FlightRecorderService.Protect, Metadata and ProtectAttributes -----

  function Protect(env: Environment, mode: RecordingMode, value: Option<string>): Option<string> {
    match mode
    case MetadataOnly => None
    case Redacted => if value.Some? then Some(env.redact(value.value)) else None
    case Full => value
  }

  function MetadataText(env: Environment, mode: RecordingMode, value: string): string {
    if mode == Full then value else env.redact(value)
  }

  function Metadata(env: Environment, mode: RecordingMode, value: Option<string>): Option<string> {
    if value.Some? then Some(MetadataText(env, mode, value.value)) else None
  }

  const REPLACEMENT := "[REDACTED]"

  predicate IsMetadataKey(key: string) {
    || key == "http.request.method" || key == "http.response.status_code" || key == "gen_ai.operation.name"
    || key == "gen_ai.request.model" || key == "gen_ai.agent.name" || key == "gen_ai.tool.name"
    || key == "gen_ai.policy.decision" || key == "gen_ai.data.classification" || key == "sdk.usageEvent"
    || key == "sdk.cacheReadCount" || key == "sdk.cacheWriteCount" || key == "sdk.cacheDetailsReported"
    || key == "sdk.durationMs" || key == "sdk.timestampMeaning" || key == "sdk.invalidUsageFields"
    || key == "flightrecorder.task.lifecycle" || key == "flightrecorder.task.source"
    || key == "flightrecorder.attribution.method" || key == "flightrecorder.attribution.confidence"
    || key == "flightrecorder.ingest.source"
  }

  // The attributes of a request, in the order its dictionary lists them.
  type Attributes = seq<(string, string)>

  function ProtectedAttributes(env: Environment, mode: RecordingMode, attributes: Attributes): map<string, string> {
    if attributes == [] then map[]
    else
      var (key, value) := attributes[|attributes| - 1];
      var earlier := ProtectedAttributes(env, mode, attributes[..|attributes| - 1]);
      if mode == MetadataOnly && !IsMetadataKey(key) then earlier
      else earlier[MetadataText(env, mode, key) :=
                     if mode != Full && env.secretKey(key) then REPLACEMENT else MetadataText(env, mode, value)]
  }

  method ProtectAttributes(env: Environment, mode: RecordingMode, attributes: Option<Attributes>)
    returns (r: Option<map<string, string>>)
    ensures r == if attributes.Some? then Some(ProtectedAttributes(env, mode, attributes.value)) else None
  {
    if attributes.None? {
      return None;
    }
    var source := attributes.value;
    var kept: map<string, string> := map[];
    for n := 0 to |source|
      invariant kept == ProtectedAttributes(env, mode, source[..n])
    {
      assert source[..n + 1][..n] == source[..n];
      var (key, value) := source[n];
      if mode == MetadataOnly && !IsMetadataKey(key) { continue; }
      kept := kept[MetadataText(env, mode, key) :=
        if mode != Full && env.secretKey(key) then REPLACEMENT else MetadataText(env, mode, value)];
    }
    assert source[..|source|] == source;
    r := Some(kept);
  }

  // Entry i of a request is kept under this name with this value.
  ghost predicate KeptFrom(env: Environment, mode: RecordingMode, attributes: Attributes, i: int, key: string,
                           value: string)
    requires 0 <= i < |attributes|
  {
    && MetadataText(env, mode, attributes[i].0) == key
    && (mode == MetadataOnly ==> IsMetadataKey(attributes[i].0))
    && value == if mode != Full && env.secretKey(attributes[i].0) then REPLACEMENT
       else MetadataText(env, mode, attributes[i].1)
  }

  // Whatever is kept came from an entry of the request that the mode allows, with the value
  // of a secret replaced.
  lemma {:induction false} KeptAttributesAreAllowed(env: Environment, mode: RecordingMode, attributes: Attributes,
                                                    key: string)
    requires key in ProtectedAttributes(env, mode, attributes)
    ensures exists i | 0 <= i < |attributes| ::
            KeptFrom(env, mode, attributes, i, key, ProtectedAttributes(env, mode, attributes)[key])
  {
    var n := |attributes| - 1;
    var earlier, value := ProtectedAttributes(env, mode, attributes[..n]),
        ProtectedAttributes(env, mode, attributes)[key];
    if KeptFrom(env, mode, attributes, n, key, value) {
    } else {
      KeptAttributesAreAllowed(env, mode, attributes[..n], key);
      var i :| 0 <= i < n && KeptFrom(env, mode, attributes[..n], i, key, earlier[key]);
      assert KeptFrom(env, mode, attributes, i, key, value);
    }
  }

  // An allowed entry is kept, under its own value or that of a later entry of the same name.
  lemma {:induction false} AllowedAttributesAreKept(env: Environment, mode: RecordingMode, attributes: Attributes,
                                                    i: nat)
    requires i < |attributes| && (mode == MetadataOnly ==> IsMetadataKey(attributes[i].0))
    ensures MetadataText(env, mode, attributes[i].0) in ProtectedAttributes(env, mode, attributes)
  {
    if i < |attributes| - 1 {
      AllowedAttributesAreKept(env, mode, attributes[..|attributes| - 1], i);
    }
  }

  function ValueOf(attributes: Attributes, key: string): Option<string> {
    if attributes == [] then None
    else if attributes[0].0 == key then Some(attributes[0].1)
    else ValueOf(attributes[1..], key)
  }

  function Lookup(attributes: Option<Attributes>, key: string): Option<string> {
    if attributes.Some? then ValueOf(attributes.value, key) else None
  }

  // HasCacheCounters on the attributes of a request.
  predicate RequestsCacheCounters(attributes: Option<Attributes>) {
    attributes.Some? && exists i | 0 <= i < |attributes.value| :: IsCacheKey(attributes.value[i].0)
  }

  // An event keeps no cache counter its request did not name.
  lemma {:induction false} ProtectionAddsNoCacheCounter(env: Environment, mode: RecordingMode, attributes: Attributes)
    requires RedactionCreatesNoCacheKey(env)
    requires !RequestsCacheCounters(Some(attributes))
    ensures forall key | key in ProtectedAttributes(env, mode, attributes) :: !IsCacheKey(key)
  {
    if attributes != [] {
      var init := attributes[..|attributes| - 1];
      assert !IsCacheKey(attributes[|attributes| - 1].0);
      assert forall i | 0 <= i < |init| :: init[i] == attributes[i];
      ProtectionAddsNoCacheCounter(env, mode, init);
    }
  }

  function ProtectDetails(env: Environment, mode: RecordingMode, d: Details): Details {
    Details(Metadata(env, mode, d.agentVersion), Metadata(env, mode, d.toolServer), Protect(env, mode, d.objective),
            Metadata(env, mode, d.requestedScope), Metadata(env, mode, d.grantedScope),
            Metadata(env, mode, d.policyName), Metadata(env, mode, d.policyReason),
            Metadata(env, mode, d.chatSessionId), Metadata(env, mode, d.chatTurnId),
            Metadata(env, mode, d.subagentSessionId))
  }
}
