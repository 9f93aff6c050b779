/** Usage snapshots and the rules the recorder accepts them by (Models/UsageImport.cs). */
module UsageImports {
  import opened Results
  import opened Text
  import opened Trace

  const MAXIMUM_OBSERVATIONS := 1000
  const MAXIMUM_MODEL_LENGTH := 200
  const MAXIMUM_NANO_AIU := 9_007_199_254_740_991
  const MAXIMUM_COUNT := 2_147_483_647

  datatype UsageObservation = UsageObservation(
    id: string,
    quality: string,
    model: Option<string>,
    timestamp: Option<Instant>,
    inputTokens: Option<int>,
    outputTokens: Option<int>,
    estimatedInputTokens: Option<int>,
    estimatedOutputTokens: Option<int>,
    cacheReadTokens: Option<int>,
    cacheWriteTokens: Option<int>,
    nanoAiu: Option<int>)

  datatype UsageImportRequest = UsageImportRequest(
    sourceKind: string,
    format: string,
    revision: string,
    expectedRevision: Option<string>,
    observations: seq<UsageObservation>)

  predicate IsSource(kind: string, format: string) {
    || (kind == "vscode-chat" && (format == "vscode-json" || format == "vscode-delta-jsonl"
       || format == "vscode-event-jsonl"))
    || (kind == "copilot-cli" && (format == "copilot-cli-db" || format == "copilot-cli-events"))
  }

  // Control, format, separator and surrogate characters. A character outside the
  // basic plane is a surrogate pair in the text the rule inspects.
  predicate IsForbiddenInModel(c: char) {
    var u := c as int;
    || u < 0x20 || 0x7F <= u <= 0x9F
    || u == 0xAD || 0x600 <= u <= 0x605 || u == 0x61C || u == 0x6DD || u == 0x70F || 0x890 <= u <= 0x891
    || u == 0x8E2 || u == 0x180E || 0x200B <= u <= 0x200F || 0x2028 <= u <= 0x202E || 0x2060 <= u <= 0x2064
    || 0x2066 <= u <= 0x206F || u == 0xFEFF || 0xFFF9 <= u <= 0xFFFB || u > 0xFFFF
  }

  predicate ValidModel(model: string) {
    !IsBlank(model) && |model| <= MAXIMUM_MODEL_LENGTH && forall i | 0 <= i < |model| :: !IsForbiddenInModel(model[i])
  }

  predicate NotNegative(count: Option<int>) {
    count.Some? ==> count.value >= 0
  }

  predicate HasMeasured(o: UsageObservation) {
    o.inputTokens.Some? || o.outputTokens.Some? || o.cacheReadTokens.Some? || o.cacheWriteTokens.Some?
  }

  predicate HasEstimated(o: UsageObservation) {
    o.estimatedInputTokens.Some? || o.estimatedOutputTokens.Some?
  }

  predicate QualityMatches(o: UsageObservation) {
    || (o.quality == "measured" && HasMeasured(o) && !HasEstimated(o))
    || (o.quality == "estimated" && !HasMeasured(o) && HasEstimated(o))
    || (o.quality == "unavailable" && !HasMeasured(o) && !HasEstimated(o))
  }

  // ValidateObservation: what a snapshot item and a stored imported event must satisfy.
  predicate ValidObservation(sourceKind: string, o: UsageObservation) {
    && (o.model.Some? ==> ValidModel(o.model.value))
    && (o.timestamp.Some? ==> SinceEpoch(o.timestamp.value))
    && NotNegative(o.inputTokens) && NotNegative(o.outputTokens)
    && NotNegative(o.estimatedInputTokens) && NotNegative(o.estimatedOutputTokens)
    && NotNegative(o.cacheReadTokens) && NotNegative(o.cacheWriteTokens) && NotNegative(o.nanoAiu)
    && (o.nanoAiu.Some? ==> o.nanoAiu.value <= MAXIMUM_NANO_AIU)
    && QualityMatches(o)
    && (o.nanoAiu.Some? ==> sourceKind == "copilot-cli")
  }

  ghost predicate DistinctIgnoringCase(ids: seq<string>) {
    forall i, j | 0 <= i < j < |ids| :: Lower(ids[i]) != Lower(ids[j])
  }

  function Ids(observations: seq<UsageObservation>): (r: seq<string>)
    ensures |r| == |observations|
    ensures forall i | 0 <= i < |r| :: r[i] == observations[i].id
  {
    seq(|observations|, i requires 0 <= i < |observations| => observations[i].id)
  }

  ghost predicate ValidObservations(sourceKind: string, observations: seq<UsageObservation>) {
    && (forall i | 0 <= i < |observations| ::
       IsHash(observations[i].id) && ValidObservation(sourceKind, observations[i]))
    && DistinctIgnoringCase(Ids(observations))
  }

  ghost predicate ValidImport(sourceId: string, request: UsageImportRequest) {
    && IsHash(sourceId) && IsHash(request.revision)
    && (request.expectedRevision.Some? ==> IsHash(request.expectedRevision.value))
    && IsSource(request.sourceKind, request.format)
    && 0 < |request.observations| <= MAXIMUM_OBSERVATIONS
    && ValidObservations(request.sourceKind, request.observations)
  }

  lemma RepeatIsInvalid(observations: seq<UsageObservation>, k: nat, i: nat)
    requires k < i < |observations| && Lower(observations[k].id) == Lower(observations[i].id)
    ensures !DistinctIgnoringCase(Ids(observations))
  {
    assert Lower(Ids(observations)[k]) == Lower(Ids(observations)[i]);
  }

  method Validate(sourceId: string, request: UsageImportRequest) returns (valid: bool)
    ensures valid <==> ValidImport(sourceId, request)
  {
    if !IsHash(sourceId) || !IsHash(request.revision) ||
       (request.expectedRevision.Some? && !IsHash(request.expectedRevision.value)) {
      return false;
    }
    if !IsSource(request.sourceKind, request.format) {
      return false;
    }
    if !(0 < |request.observations| <= MAXIMUM_OBSERVATIONS) {
      return false;
    }
    var ids: set<string> := {};
    var i := 0;
    while i < |request.observations|
      invariant 0 <= i <= |request.observations|
      invariant ids == set k | 0 <= k < i :: Lower(request.observations[k].id)
      invariant ValidObservations(request.sourceKind, request.observations[..i])
    {
      var o := request.observations[i];
      if !IsHash(o.id) || Lower(o.id) in ids {
        if Lower(o.id) in ids {
          ghost var k :| 0 <= k < i && Lower(request.observations[k].id) == Lower(o.id);
          RepeatIsInvalid(request.observations, k, i);
        }
        return false;
      }
      if !ValidObservation(request.sourceKind, o) {
        return false;
      }
      ExtendValid(request.sourceKind, request.observations[..i], o);
      assert request.observations[..i + 1] == request.observations[..i] + [o];
      ids := ids + {Lower(o.id)};
      i := i + 1;
    }
    assert request.observations[..i] == request.observations;
    return true;
  }

  lemma ExtendValid(sourceKind: string, observations: seq<UsageObservation>, o: UsageObservation)
    requires ValidObservations(sourceKind, observations)
    requires IsHash(o.id) && ValidObservation(sourceKind, o)
    requires forall k | 0 <= k < |observations| :: Lower(observations[k].id) != Lower(o.id)
    ensures ValidObservations(sourceKind, observations + [o])
  {
    var more := observations + [o];
    forall i, j | 0 <= i < j < |more| ensures Lower(Ids(more)[i]) != Lower(Ids(more)[j]) {
      if j < |observations| {
        assert Lower(Ids(observations)[i]) != Lower(Ids(observations)[j]);
      }
    }
  }
}
