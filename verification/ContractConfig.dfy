/** The localization contract after loading, and the check of one upstream diagnostic (contract_config.cpp). */
module ContractConfig {
  import opened Contracts
  import opened Reasons
  import opened RigidTransforms

  type uint8 = i: int | 0 <= i < 256

  datatype RequiredDiagnostic = RequiredDiagnostic(
    name: string,
    hardwareId: string,
    expectedPublisher: string,
    maximumLevel: uint8,
    requiredValues: map<string, string>)

  datatype InputContract = InputContract(
    expectedOdometryPublisher: string,
    expectedStatusPublisher: string,
    expectedParentFrame: string,
    expectedChildFrame: string,
    expectedStatusFrame: string,
    acceptedVoStates: seq<uint8>,
    requiredDiagnostics: seq<RequiredDiagnostic>)

  /** Thresholds in seconds, hertz and metres; the rotation step x is kept as cos(x/2), with 0 < x <= 180 degrees. */
  datatype HealthContract = HealthContract(
    diagnosticPeriodSec: real,
    odometryStaleAfterSec: real,
    trackingStaleAfterSec: real,
    diagnosticStaleAfterSec: real,
    startupTimeoutSec: real,
    recoveryConsecutiveSamples: nat,
    minimumOdometryRateHz: real,
    maximumOdometryStampGapSec: real,
    maximumOdometryReceiveGapSec: real,
    maximumClockResidualSec: real,
    maximumStatusOdometrySkewSec: real,
    maximumPositionStepM: real,
    maximumRotationStepHalfCosine: real,
    odometryRateWindowSamples: nat)

  datatype GateStatus = Blocked | Approved

  datatype ExtrinsicGate = ExtrinsicGate(
    status: GateStatus,
    transform: Option<RigidTransform>,
    provenance: Option<string>)
  {
    predicate IsApproved() {
      status == Approved && transform.Some? && provenance.Some? && provenance.value != ""
    }
  }

  datatype Contract = Contract(input: InputContract, health: HealthContract, extrinsic: ExtrinsicGate)

  const MAP := "map"

  /** What ParseHealth leaves true of the thresholds it accepts. */
  predicate ValidHealth(h: HealthContract) {
    && h.diagnosticPeriodSec > 0.0
    && h.minimumOdometryRateHz > 0.0
    && h.maximumOdometryStampGapSec > 0.0
    && h.maximumOdometryReceiveGapSec > 0.0
    && h.maximumClockResidualSec > 0.0
    && h.maximumStatusOdometrySkewSec > 0.0
    && h.maximumPositionStepM > 0.0
    && 0.0 <= h.maximumRotationStepHalfCosine < 1.0
    && h.recoveryConsecutiveSamples > 0
    && h.diagnosticPeriodSec < h.odometryStaleAfterSec < h.startupTimeoutSec
    && h.diagnosticPeriodSec < h.trackingStaleAfterSec < h.startupTimeoutSec
    && h.diagnosticPeriodSec < h.diagnosticStaleAfterSec < h.startupTimeoutSec
    && h.maximumOdometryStampGapSec < h.odometryStaleAfterSec
    && h.maximumOdometryReceiveGapSec < h.odometryStaleAfterSec
    && h.maximumStatusOdometrySkewSec < h.trackingStaleAfterSec
    && h.odometryRateWindowSamples >= 2
  }

  // ----- texts, as the loader accepts them -----

  predicate IsBlank(c: char) {
    c == ' ' || c == '\t' || c == '\r' || c == '\n'
  }

  /** Not all blank, and without surrounding spaces. */
  predicate NonemptyText(text: string) {
    && text != "" && text[0] != ' ' && text[|text| - 1] != ' '
    && exists i | 0 <= i < |text| :: !IsBlank(text[i])
  }

  /** A fully qualified ROS name below the root. */
  predicate AbsoluteName(name: string) {
    && NonemptyText(name) && |name| >= 2 && name[0] == '/'
    && (forall i | 0 < i < |name| :: !(name[i - 1] == '/' && name[i] == '/'))
    && (forall i | 0 <= i < |name| :: !IsSpace(name[i]))
  }

  const OWN_DIAGNOSTIC_SUFFIX := ": localization contract"

  predicate EndsWith(text: string, suffix: string) {
    |text| >= |suffix| && text[|text| - |suffix|..] == suffix
  }

  /** One required diagnostic, in schema version one: not the adapter's own, at level zero, with values to check. */
  predicate ValidRequired(r: RequiredDiagnostic) {
    && NonemptyText(r.name) && !EndsWith(r.name, OWN_DIAGNOSTIC_SUFFIX)
    && NonemptyText(r.hardwareId)
    && AbsoluteName(r.expectedPublisher)
    && r.maximumLevel == 0
    && r.requiredValues != map[]
    && (forall k | k in r.requiredValues :: NonemptyText(k) && NonemptyText(r.requiredValues[k]))
  }

  /** Schema version one: fixed frames, one accepted tracking state, distinct required diagnostics. */
  predicate ValidInput(i: InputContract) {
    && AbsoluteName(i.expectedOdometryPublisher)
    && AbsoluteName(i.expectedStatusPublisher)
    && i.expectedParentFrame == ODOM
    && i.expectedChildFrame == CAMERA
    && i.expectedStatusFrame == MAP
    && i.acceptedVoStates == [1]
    && |i.requiredDiagnostics| > 0
    && (forall j | 0 <= j < |i.requiredDiagnostics| :: ValidRequired(i.requiredDiagnostics[j]))
    && (forall j, k | 0 <= j < k < |i.requiredDiagnostics| ::
          i.requiredDiagnostics[j].name != i.requiredDiagnostics[k].name)
  }

  /** A blocked extrinsic holds no transform; an approved one is T[base_link,camera_link] with its provenance. */
  predicate ValidExtrinsic(e: ExtrinsicGate) {
    && (e.status == Blocked ==> e.transform.None? && e.provenance.None?)
    && (e.status == Approved ==> e.transform.Some? && e.provenance.Some? && NonemptyText(e.provenance.value))
    && (e.transform.Some? ==> IsCameraExtrinsic(e.transform.value))
  }

  /** What LoadContractConfig leaves true of the contracts it accepts. */
  predicate ValidContract(c: Contract) {
    ValidInput(c.input) && ValidHealth(c.health) && ValidExtrinsic(c.extrinsic)
  }

  lemma PositiveLimits(c: Contract)
    requires ValidContract(c)
    ensures c.health.maximumClockResidualSec > 0.0 && c.health.maximumStatusOdometrySkewSec > 0.0
    ensures c.health.maximumOdometryStampGapSec > 0.0 && c.health.minimumOdometryRateHz > 0.0
    ensures c.health.maximumRotationStepHalfCosine >= 0.0
    ensures c.health.odometryRateWindowSamples >= 2
  {
    hide ValidInput;
    hide ValidExtrinsic;
  }

  // ----- one diagnostic against its requirement -----

  type KeyValue = (string, string)

  ghost predicate DistinctKeys(values: seq<KeyValue>) {
    forall i, j | 0 <= i < j < |values| :: values[i].0 != values[j].0
  }

  ghost predicate HasValues(values: seq<KeyValue>, required: map<string, string>) {
    forall k | k in required :: (k, required[k]) in values
  }

  /** Why a diagnostic is refused, if it is. */
  ghost function EvidenceError(required: RequiredDiagnostic, level: uint8, hardwareId: string, values: seq<KeyValue>)
    : Option<Reason>
  {
    if level > required.maximumLevel || hardwareId != required.hardwareId then
      Some(UpstreamDiagnosticIdentityOrLevelMismatch)
    else if !DistinctKeys(values) then Some(UpstreamDiagnosticDuplicateValueKey)
    else if !HasValues(values, required.requiredValues) then Some(UpstreamDiagnosticValueMismatch)
    else None
  }

  /** The values by key, or nothing when a key repeats. */
  method IndexValues(values: seq<KeyValue>) returns (indexed: Option<map<string, string>>)
    ensures indexed.Some? <==> DistinctKeys(values)
    ensures indexed.Some? ==> forall p: KeyValue :: p in values <==> p.0 in indexed.value && indexed.value[p.0] == p.1
  {
    var known: map<string, string> := map[];
    for index := 0 to |values|
      invariant DistinctKeys(values[..index])
      invariant forall p: KeyValue :: p in values[..index] <==> p.0 in known && known[p.0] == p.1
    {
      var value := values[index];
      if value.0 in known {
        assert (value.0, known[value.0]) in values[..index];
        return None;
      }
      assert values[..index + 1] == values[..index] + [value];
      known := known[value.0 := value.1];
    }
    assert values[..|values|] == values;
    return Some(known);
  }

  method CheckDiagnosticEvidence(required: RequiredDiagnostic, actualLevel: uint8, actualHardwareId: string,
                                 actualValues: seq<KeyValue>)
    returns (error: Option<Reason>)
    ensures error == EvidenceError(required, actualLevel, actualHardwareId, actualValues)
  {
    if actualLevel > required.maximumLevel || actualHardwareId != required.hardwareId {
      return Some(UpstreamDiagnosticIdentityOrLevelMismatch);
    }
    var indexed := IndexValues(actualValues);
    if indexed.None? {
      return Some(UpstreamDiagnosticDuplicateValueKey);
    }
    var values := indexed.value;
    var expected := required.requiredValues.Keys;
    while expected != {}
      invariant expected <= required.requiredValues.Keys
      invariant forall k | k in required.requiredValues.Keys - expected ::
                  (k, required.requiredValues[k]) in actualValues
      decreases expected
    {
      var key :| key in expected;
      if key !in values || values[key] != required.requiredValues[key] {
        assert (key, required.requiredValues[key]) !in actualValues;
        return Some(UpstreamDiagnosticValueMismatch);
      }
      assert (key, required.requiredValues[key]) in actualValues;
      expected := expected - {key};
    }
    return None;
  }

  // ----- the order of the values does not matter -----

  /** Distinct keys, said of the values as a multiset. */
  ghost predicate DistinctKeysIn(bag: multiset<KeyValue>) {
    && (forall p | p in bag :: bag[p] == 1)
    && (forall p, q | p in bag && q in bag :: p.0 == q.0 ==> p == q)
  }

  lemma {:induction false} DistinctKeysAsBag(values: seq<KeyValue>)
    ensures DistinctKeys(values) <==> DistinctKeysIn(multiset(values))
  {
    if values == [] {
    } else {
      var n := |values| - 1;
      var last := values[n];
      var before := values[..n];
      assert values == before + [last];
      assert multiset(values) == multiset(before) + multiset{last};
      DistinctKeysAsBag(before);
      if DistinctKeys(values) {
        LastIsNew(values);
      } else if DistinctKeys(before) {
        var i, j :| 0 <= i < j < |values| && values[i].0 == values[j].0;
        assert before[i] in multiset(before);
        assert last in multiset(values);
      } else {
        BagShrinks(before, last);
      }
    }
  }

  lemma LastIsNew(values: seq<KeyValue>)
    requires values != [] && DistinctKeys(values) && DistinctKeysIn(multiset(values[..|values| - 1]))
    ensures DistinctKeysIn(multiset(values))
  {
    var n := |values| - 1;
    var before := values[..n];
    assert values == before + [values[n]];
    assert forall p | p in multiset(before) :: p in before;
    forall p | p in before
      ensures p.0 != values[n].0
    {
      var i :| 0 <= i < |before| && before[i] == p;
      assert values[i].0 != values[n].0;
    }
  }

  lemma BagShrinks(before: seq<KeyValue>, last: KeyValue)
    requires !DistinctKeysIn(multiset(before))
    ensures !DistinctKeysIn(multiset(before + [last]))
  {
    var bag := multiset(before + [last]);
    assert bag == multiset(before) + multiset{last};
    assert forall p | p in multiset(before) :: p in bag && bag[p] >= multiset(before)[p];
  }

  /** Permuting the values of a diagnostic changes neither its acceptance nor the reason it is refused for. */
  lemma EvidenceOrderIrrelevant(required: RequiredDiagnostic, level: uint8, hardwareId: string,
                                values: seq<KeyValue>, permuted: seq<KeyValue>)
    requires multiset(values) == multiset(permuted)
    ensures EvidenceError(required, level, hardwareId, values) == EvidenceError(required, level, hardwareId, permuted)
  {
    DistinctKeysAsBag(values);
    DistinctKeysAsBag(permuted);
    assert forall p :: p in values <==> p in multiset(values);
    assert forall p :: p in permuted <==> p in multiset(permuted);
  }

  /** Further values with fresh keys never cost a diagnostic its acceptance; a repeated key always does. */
  lemma EvidenceExtraValue(required: RequiredDiagnostic, level: uint8, hardwareId: string, values: seq<KeyValue>,
                           extra: KeyValue)
    requires EvidenceError(required, level, hardwareId, values) == None
    ensures EvidenceError(required, level, hardwareId, values + [extra]) ==
            if exists i | 0 <= i < |values| :: values[i].0 == extra.0 then Some(UpstreamDiagnosticDuplicateValueKey)
            else None
  {
    var longer := values + [extra];
    if i :| 0 <= i < |values| && values[i].0 == extra.0 {
      assert longer[i].0 == longer[|values|].0;
    } else {
      assert DistinctKeys(longer);
      assert forall p | p in values :: p in longer;
    }
  }
}
