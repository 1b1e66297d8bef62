/** Which quote kinds can be used at a ledger epoch, and the route commitments made and checked against that. */
module Readiness {
  import opened Wrappers
  import opened Texts
  import opened Proto
  import opened PolicyChain
  import opened PolicyHistory
  import PV = PolicyValidation

  datatype Capabilities = Capabilities(version: u32, profiles: map<PV.Profile, set<u32>>)

  /** The collateral at hand: by digest, the epoch it was first observed. */
  type Inventory = map<text, u64>

  datatype Status =
    | Ready
    | NoActivePolicy(next: Option<u64>)
    | PolicyExpired(expires: u64)
    | EmergencyDisabled
    | Disabled
    | VerifierTooOld(required: u32, actual: u32)
    | VerifierProfileUnavailable(profile: PV.Profile)
    | EvidenceSchemaUnavailable(profile: PV.Profile, schema: u32)
    | MissingCollateral(ids: set<text>)
    | CollateralNotYetValid(ids: set<text>)
    | CollateralExpired(ids: set<text>)

  type Key = (text, Kind, Option<text>)

  datatype State = State(sequence: Option<u64>, digest: Option<text>, statuses: map<Kind, Status>,
                         platforms: map<Kind, set<text>>, schemas: map<Kind, u32>, bindings: map<Key, Binding>)

  datatype Advertisement = Advertisement(kind: Kind, platform: Option<text>)

  datatype Error =
    | NoPolicy | NotReady(status: Status) | PlatformRequired | PlatformNotAllowed | UnexpectedPlatform
    | UnknownEnclaveBinding | InvalidRouteIdentity | PolicyBindingMismatch

  // ---- collateral ----

  datatype Condition = Missing | Early | Late | InForce

  function ConditionOf(t: PV.TrustData, held: Inventory, epoch: u64): Condition {
    if !(t.sha256 in held && held[t.sha256] <= epoch) then Missing
    else if t.validFrom.Some? && epoch < t.validFrom.value then Early
    else if t.validUntil.Some? && epoch >= t.validUntil.value then Late
    else InForce
  }

  function InCondition(v: Validated, ids: set<text>, held: Inventory, epoch: u64, c: Condition): set<text> {
    set id | id in ids && id in v.trustData && ConditionOf(v.trustData[id], held, epoch) == c
  }

  /** The worst condition among the needed references, with all that are in it. */
  function CollateralStatus(v: Validated, needed: set<text>, held: Inventory, epoch: u64): Status {
    Worst(InCondition(v, needed, held, epoch, Missing), InCondition(v, needed, held, epoch, Early),
          InCondition(v, needed, held, epoch, Late))
  }

  function Worst(missing: set<text>, early: set<text>, late: set<text>): Status {
    if missing != {} then MissingCollateral(missing)
    else if early != {} then CollateralNotYetValid(early)
    else if late != {} then CollateralExpired(late)
    else Ready
  }

  method CheckCollateral(v: Validated, needed: set<text>, held: Inventory, epoch: u64) returns (status: Status)
    requires needed <= v.trustData.Keys
    ensures status == CollateralStatus(v, needed, held, epoch)
  {
    var missing, early, late: set<text> := {}, {}, {};
    var rest := needed;
    while rest != {}
      invariant rest <= needed
      invariant forall id :: id in missing <==> id in needed && id !in rest && ConditionOf(v.trustData[id], held, epoch) == Missing
      invariant forall id :: id in early <==> id in needed && id !in rest && ConditionOf(v.trustData[id], held, epoch) == Early
      invariant forall id :: id in late <==> id in needed && id !in rest && ConditionOf(v.trustData[id], held, epoch) == Late
      decreases |rest|
    {
      var id :| id in rest;
      rest := rest - {id};
      match ConditionOf(v.trustData[id], held, epoch) {
        case Missing => missing := missing + {id};
        case Early => early := early + {id};
        case Late => late := late + {id};
        case InForce =>
      }
    }
    assert missing == InCondition(v, needed, held, epoch, Missing);
    assert early == InCondition(v, needed, held, epoch, Early);
    assert late == InCondition(v, needed, held, epoch, Late);
    status := Worst(missing, early, late);
  }

  /** Ready means every needed reference is held and the epoch lies in its validity window. */
  lemma ReadyMeansInForce(v: Validated, needed: set<text>, held: Inventory, epoch: u64)
    requires needed <= v.trustData.Keys
    ensures CollateralStatus(v, needed, held, epoch) == Ready <==>
            forall id :: id in needed ==> ConditionOf(v.trustData[id], held, epoch) == InForce
  {
    if CollateralStatus(v, needed, held, epoch) == Ready {
      forall id | id in needed ensures ConditionOf(v.trustData[id], held, epoch) == InForce {
        var c := ConditionOf(v.trustData[id], held, epoch);
        assert id in InCondition(v, needed, held, epoch, c);
      }
    }
  }

  // ---- evaluation ----

  /** Validated policies hold an entry for every kind, and every reference it requires. */
  ghost predicate Complete(policies: seq<Validated>) {
    forall v :: v in policies ==> IsComplete(v)
  }

  ghost predicate IsComplete(v: Validated) {
    forall k: Kind :: k in v.quoteKinds && v.quoteKinds[k].requiredTrustData <= v.trustData.Keys
  }

  lemma ValidatedIsComplete(env: PV.Env, p: PV.Policy)
    requires PV.Validate(env, p).Ok?
    ensures IsComplete(PV.Validate(env, p).value)
  {
    PV.TrustDataIsClosed(env, p);
    var v := PV.Validate(env, p).value;
    forall k: Kind ensures k in v.quoteKinds { EveryKind(k); }
  }

  /** Validation in an environment, as the chain uses it. */
  function ValidatorIn(env: PV.Env): Validator { (p: PV.Policy) => PV.Validate(env, p) }

  lemma BuiltIsComplete(validate: Validator, records: Option<seq<PV.Policy>>, bindings: seq<Binding>)
    requires forall p :: validate(p).Ok? ==> IsComplete(validate(p).value)
    requires FromCatalog(validate, records, bindings).Ok?
    ensures Complete(FromCatalog(validate, records, bindings).value.policies)
  {
    if records.Some? {
      assert records == Catalog(records.value);
      BatchMeans(validate, records.value, bindings);
      forall v | v in ValidatedAll(validate, records.value) ensures IsComplete(v) {
        var i :| 0 <= i < |records.value| && ValidatedAll(validate, records.value)[i] == v;
        assert validate(records.value[i]).Ok?;
      }
    }
  }

  /** Every chain a catalog builds, with the validation there is, can be evaluated. */
  lemma CatalogChainsAreComplete(env: PV.Env, records: Option<seq<PV.Policy>>, bindings: seq<Binding>)
    requires FromCatalog(ValidatorIn(env), records, bindings).Ok?
    ensures Complete(FromCatalog(ValidatorIn(env), records, bindings).value.policies)
  {
    forall p | ValidatorIn(env)(p).Ok? ensures IsComplete(ValidatorIn(env)(p).value) { ValidatedIsComplete(env, p); }
    BuiltIsComplete(ValidatorIn(env), records, bindings);
  }

  function StatusOf(v: Validated, disabled: bool, held: Inventory, able: Capabilities, epoch: u64, k: Kind): Status
    requires k in v.quoteKinds
  {
    var e := v.quoteKinds[k];
    if v.policy.expiresEpoch.Some? && epoch >= v.policy.expiresEpoch.value then PolicyExpired(v.policy.expiresEpoch.value)
    else if disabled then EmergencyDisabled
    else if !e.enabled then Disabled
    else if able.version < v.policy.minVerifierVersion then VerifierTooOld(v.policy.minVerifierVersion, able.version)
    else if e.profile !in able.profiles then VerifierProfileUnavailable(e.profile)
    else if e.evidenceSchemaVersion !in able.profiles[e.profile] then EvidenceSchemaUnavailable(e.profile, e.evidenceSchemaVersion)
    else CollateralStatus(v, e.requiredTrustData, held, epoch)
  }

  /**
   A kind is ready exactly when the policy has not expired, no emergency list names the kind, the policy enables
   it, the verifier is recent enough and knows its profile and schema, and all its collateral is in force.
   */
  lemma ReadyExactly(v: Validated, disabled: bool, held: Inventory, able: Capabilities, epoch: u64, k: Kind)
    requires IsComplete(v)
    ensures StatusOf(v, disabled, held, able, epoch, k) == Ready <==>
            var e := v.quoteKinds[k];
            && (v.policy.expiresEpoch.Some? ==> epoch < v.policy.expiresEpoch.value)
            && !disabled && e.enabled && v.policy.minVerifierVersion <= able.version
            && e.profile in able.profiles && e.evidenceSchemaVersion in able.profiles[e.profile]
            && forall id :: id in e.requiredTrustData ==> ConditionOf(v.trustData[id], held, epoch) == InForce
  {
    ReadyMeansInForce(v, v.quoteKinds[k].requiredTrustData, held, epoch);
  }

  function KeyOf(b: Binding): Key { (b.enclaveId, b.kind, b.platform) }

  function ByKey(bindings: seq<Binding>): map<Key, Binding> {
    if bindings == [] then map[] else ByKey(bindings[..|bindings| - 1])[KeyOf(bindings[|bindings| - 1]) := bindings[|bindings| - 1]]
  }

  lemma {:induction false} ByKeyFinds(bindings: seq<Binding>, key: Key)
    ensures key in ByKey(bindings) <==> exists b :: b in bindings && KeyOf(b) == key
    ensures key in ByKey(bindings) ==> ByKey(bindings)[key] in bindings && KeyOf(ByKey(bindings)[key]) == key
  {
    if bindings != [] {
      var h, b := bindings[..|bindings| - 1], bindings[|bindings| - 1];
      ByKeyFinds(h, key);
      assert bindings == h + [b];
      assert b in bindings && forall x :: x in h ==> x in bindings;
    }
  }

  /** What the evaluation says of one kind under the active policy. */
  ghost predicate Entry(s: State, v: Validated, disabled: bool, held: Inventory, able: Capabilities, epoch: u64, k: Kind) {
    && k in v.quoteKinds && k in s.statuses && k in s.platforms && k in s.schemas
    && s.statuses[k] == StatusOf(v, disabled, held, able, epoch, k)
    && s.platforms[k] == v.quoteKinds[k].platforms
    && s.schemas[k] == v.quoteKinds[k].evidenceSchemaVersion
  }

  /** The state is the evaluation of the chain at the epoch, for every kind. */
  ghost predicate Evaluated(s: State, c: Chain, held: Inventory, able: Capabilities, epoch: u64) {
    var n := ActiveEnd(c.policies, epoch);
    if n == 0 then
      && s.sequence.None? && s.digest.None? && s.platforms == map[] && s.schemas == map[] && s.bindings == map[]
      && forall k: Kind :: k in s.statuses && s.statuses[k] == NoActivePolicy(NextEffectiveAfter(c.policies, epoch))
    else
      && s.sequence == Some(c.policies[n - 1].policy.sequence) && s.digest == Some(c.policies[n - 1].digest)
      && s.bindings == ByKey(c.bindings)
      && forall k: Kind :: Entry(s, c.policies[n - 1], IsDisabledAt(c.policies, epoch, k), held, able, epoch, k)
  }

  function KindsInOrder(): seq<Kind> {
    [AppleAppAttestJwt, AmdSevSnpVcek, IntelTdxDcap, NvidiaGb10DeviceJwt, NvidiaNrasJwt, NvidiaNvtrustOfflineJwt, Tpm2QuoteEk]
  }

  lemma EachIsListed(k: Kind)
    ensures k in KindsInOrder()
  {
    var s := KindsInOrder();
    assert s[0] == AppleAppAttestJwt && s[1] == AmdSevSnpVcek && s[2] == IntelTdxDcap && s[3] == NvidiaGb10DeviceJwt;
    assert s[4] == NvidiaNrasJwt && s[5] == NvidiaNvtrustOfflineJwt && s[6] == Tpm2QuoteEk;
    match k { case AppleAppAttestJwt => case _ => }
  }

  function Filed(s: State, k: Kind, status: Status, e: PV.KindPolicy): State {
    s.(statuses := s.statuses[k := status], platforms := s.platforms[k := e.platforms], schemas := s.schemas[k := e.evidenceSchemaVersion])
  }

  lemma OthersStay(s: State, v: Validated, disabled: bool, held: Inventory, able: Capabilities, epoch: u64, k: Kind, l: Kind, status: Status)
    requires Entry(s, v, disabled, held, able, epoch, k) && l in v.quoteKinds
    requires k == l ==> status == s.statuses[k]
    ensures Entry(Filed(s, l, status, v.quoteKinds[l]), v, disabled, held, able, epoch, k)
  {
  }

  /** Fill in the status of one kind after another. */
  method EvaluateUnder(v: Validated, disabled: set<Kind>, bindings: seq<Binding>, held: Inventory, able: Capabilities, epoch: u64)
    returns (s: State)
    requires IsComplete(v)
    ensures s.sequence == Some(v.policy.sequence) && s.digest == Some(v.digest) && s.bindings == ByKey(bindings)
    ensures forall k: Kind :: Entry(s, v, k in disabled, held, able, epoch, k)
  {
    s := State(Some(v.policy.sequence), Some(v.digest), map[], map[], map[], ByKey(bindings));
    var kinds := KindsInOrder();
    for i := 0 to |kinds|
      invariant s.sequence == Some(v.policy.sequence) && s.digest == Some(v.digest) && s.bindings == ByKey(bindings)
      invariant forall j :: 0 <= j < i ==> Entry(s, v, kinds[j] in disabled, held, able, epoch, kinds[j])
    {
      var k := kinds[i];
      var status := DecideStatus(v, k in disabled, held, able, epoch, k);
      ghost var before := s;
      s := Filed(s, k, status, v.quoteKinds[k]);
      forall j | 0 <= j < i ensures Entry(s, v, kinds[j] in disabled, held, able, epoch, kinds[j]) {
        OthersStay(before, v, kinds[j] in disabled, held, able, epoch, kinds[j], k, status);
      }
    }
    forall k: Kind ensures Entry(s, v, k in disabled, held, able, epoch, k) { EachIsListed(k); }
  }

  method Evaluate(c: Chain, held: Inventory, able: Capabilities, epoch: u64) returns (s: State)
    requires Complete(c.policies)
    ensures Evaluated(s, c, held, able, epoch)
  {
    var n := ActiveEnd(c.policies, epoch);
    if n == 0 {
      s := State(None, None, map k: Kind | k in ALL_KINDS :: NoActivePolicy(NextEffectiveAfter(c.policies, epoch)), map[], map[], map[]);
      forall k: Kind ensures k in ALL_KINDS { EveryKind(k); }
    } else {
      assert c.policies[n - 1] in c.policies;
      var disabled := EmergencyDisabledAt(c.policies, epoch);
      s := EvaluateUnder(c.policies[n - 1], disabled, c.bindings, held, able, epoch);
      forall k: Kind ensures Entry(s, c.policies[n - 1], IsDisabledAt(c.policies, epoch, k), held, able, epoch, k) {
        assert Entry(s, c.policies[n - 1], k in disabled, held, able, epoch, k);
      }
    }
  }

  method DecideStatus(v: Validated, disabled: bool, held: Inventory, able: Capabilities, epoch: u64, k: Kind) returns (status: Status)
    requires IsComplete(v)
    ensures status == StatusOf(v, disabled, held, able, epoch, k)
  {
    var e := v.quoteKinds[k];
    if v.policy.expiresEpoch.Some? && epoch >= v.policy.expiresEpoch.value { return PolicyExpired(v.policy.expiresEpoch.value); }
    if disabled { return EmergencyDisabled; }
    if !e.enabled { return Disabled; }
    if able.version < v.policy.minVerifierVersion { return VerifierTooOld(v.policy.minVerifierVersion, able.version); }
    if e.profile !in able.profiles { return VerifierProfileUnavailable(e.profile); }
    if e.evidenceSchemaVersion !in able.profiles[e.profile] { return EvidenceSchemaUnavailable(e.profile, e.evidenceSchemaVersion); }
    status := CheckCollateral(v, e.requiredTrustData, held, epoch);
  }

  // ---- commitments ----

  function Allowed(s: State, k: Kind): set<text> { if k in s.platforms then s.platforms[k] else {} }

  function ChoosePlatform(allowed: set<text>, declared: Option<text>): Result<Option<text>, Error> {
    if allowed == {} then
      if declared.None? then Ok(None) else Err(UnexpectedPlatform)
    else if declared.None? then Err(PlatformRequired)
    else if declared.value in allowed then Ok(declared)
    else Err(PlatformNotAllowed)
  }

  /** Commit to a route under the active policy. */
  function BindRoute(s: State, enclave: text, device: text, route: Advertisement): Result<Route, Error>
    requires route.kind in s.statuses
  {
    if !ValidSha256(enclave) || !ValidSha256(device) then Err(InvalidRouteIdentity)
    else if s.statuses[route.kind] != Ready then Err(NotReady(s.statuses[route.kind]))
    else if s.sequence.None? || s.digest.None? then Err(NoPolicy)
    else match ChoosePlatform(Allowed(s, route.kind), route.platform)
      case Err(e) => Err(e)
      case Ok(platform) =>
        if (enclave, route.kind, platform) !in s.bindings then Err(UnknownEnclaveBinding)
        else if route.kind !in s.schemas then Err(NoPolicy)
        else Ok(Route(enclave, device, route.kind, s.schemas[route.kind], s.sequence.value, s.digest.value, platform))
  }

  /** Check a commitment against the policy active now. */
  function VerifyBinding(s: State, b: Route): Result<(), Error>
    requires b.kind in s.statuses
  {
    if !ValidSha256(b.enclaveId) || !ValidSha256(b.deviceId) then Err(InvalidRouteIdentity)
    else if s.statuses[b.kind] != Ready then Err(NotReady(s.statuses[b.kind]))
    else if s.sequence.None? || s.digest.None? || b.kind !in s.schemas then Err(NoPolicy)
    else if b.policySequence != s.sequence.value || b.policyDigest != s.digest.value || b.evidenceSchemaVersion != s.schemas[b.kind]
      then Err(PolicyBindingMismatch)
    else if !(if b.platform.None? then Allowed(s, b.kind) == {} else b.platform.value in Allowed(s, b.kind))
      then Err(PolicyBindingMismatch)
    else if (b.enclaveId, b.kind, b.platform) !in s.bindings then Err(UnknownEnclaveBinding)
    else Ok(())
  }

  /** A commitment is accepted exactly when binding its own route afresh gives it back. */
  lemma VerifyIsRebind(s: State, b: Route)
    requires b.kind in s.statuses
    ensures VerifyBinding(s, b).Ok? <==> BindRoute(s, b.enclaveId, b.deviceId, Advertisement(b.kind, b.platform)) == Ok(b)
  {
    if b.platform.Some? && b.platform.value in Allowed(s, b.kind) { assert Allowed(s, b.kind) != {}; }
  }

  // ---- commitments over a chain ----

  lemma ReadyHasAPolicy(s: State, c: Chain, held: Inventory, able: Capabilities, epoch: u64, k: Kind)
    requires Evaluated(s, c, held, able, epoch)
    ensures var n := ActiveEnd(c.policies, epoch);
            && k in s.statuses
            && (n == 0 ==> s.statuses[k] != Ready)
            && (n > 0 ==> Entry(s, c.policies[n - 1], IsDisabledAt(c.policies, epoch, k), held, able, epoch, k))
  {
    var n := ActiveEnd(c.policies, epoch);
    if n > 0 { assert Entry(s, c.policies[n - 1], IsDisabledAt(c.policies, epoch, k), held, able, epoch, k); }
  }

  /** An accepted commitment names the policy active at its epoch. */
  lemma AcceptedNamesThePolicy(s: State, c: Chain, held: Inventory, able: Capabilities, epoch: u64, b: Route)
    requires Evaluated(s, c, held, able, epoch) && b.kind in s.statuses && VerifyBinding(s, b).Ok?
    ensures var n := ActiveEnd(c.policies, epoch);
            n > 0 && b.policySequence == c.policies[n - 1].policy.sequence && b.policyDigest == c.policies[n - 1].digest
  {
    ReadyHasAPolicy(s, c, held, able, epoch, b.kind);
  }

  /** A commitment accepted at two epochs, the chain having grown in between or not, names one active policy. */
  lemma OnePolicyPerCommitment(c: Chain, d: Chain, held: Inventory, held': Inventory, able: Capabilities, able': Capabilities,
                               e: u64, f: u64, s: State, t: State, b: Route)
    requires Linked(d.policies) && c.policies <= d.policies
    requires Evaluated(s, c, held, able, e) && Evaluated(t, d, held', able', f)
    requires b.kind in s.statuses && VerifyBinding(s, b).Ok? && b.kind in t.statuses && VerifyBinding(t, b).Ok?
    ensures ActiveAt(c.policies, e) == ActiveAt(d.policies, f) && ActiveAt(c.policies, e).Some?
  {
    AcceptedNamesThePolicy(s, c, held, able, e, b);
    AcceptedNamesThePolicy(t, d, held', able', f, b);
    var n, m := ActiveEnd(c.policies, e), ActiveEnd(d.policies, f);
    SequencesCount(d.policies, m - 1);
    SequencesCount(d.policies, n - 1);
    assert c.policies[n - 1] == d.policies[n - 1];
  }

  /** A commitment made at one epoch is accepted at another exactly if its policy is active there and its kind ready. */
  lemma CommitmentLastsWithThePolicy(c: Chain, held: Inventory, held': Inventory, able: Capabilities, able': Capabilities,
                                     e: u64, f: u64, s: State, t: State, enclave: text, device: text, route: Advertisement)
    requires Linked(c.policies) && Evaluated(s, c, held, able, e) && Evaluated(t, c, held', able', f)
    requires route.kind in s.statuses && route.kind in t.statuses && BindRoute(s, enclave, device, route).Ok?
    ensures VerifyBinding(t, BindRoute(s, enclave, device, route).value).Ok? <==>
            ActiveAt(c.policies, e) == ActiveAt(c.policies, f) && t.statuses[route.kind] == Ready
  {
    ReadyHasAPolicy(s, c, held, able, e, route.kind);
    ReadyHasAPolicy(t, c, held', able', f, route.kind);
    var n, m := ActiveEnd(c.policies, e), ActiveEnd(c.policies, f);
    SequencesCount(c.policies, n - 1);
    if m > 0 { SequencesCount(c.policies, m - 1); }
    VerifyIsRebind(t, BindRoute(s, enclave, device, route).value);
  }

  /**
   * What an accepted commitment rests on: the active policy enables its kind, is in force and not disabled early,
   * all its collateral is held and valid, and an admin binding for the same enclave, kind and platform agrees with it.
   */
  lemma AcceptedCommitmentIsBacked(c: Chain, held: Inventory, able: Capabilities, epoch: u64, s: State, b: Route)
    requires ChainInv(c) && Complete(c.policies) && Evaluated(s, c, held, able, epoch)
    requires b.kind in s.statuses && VerifyBinding(s, b).Ok?
    ensures ActiveAt(c.policies, epoch).Some?
    ensures var v := ActiveAt(c.policies, epoch).value;
            && Enables(v, b.kind) && !IsDisabledAt(c.policies, epoch, b.kind)
            && (v.policy.expiresEpoch.Some? ==> epoch < v.policy.expiresEpoch.value)
            && (forall id :: id in v.quoteKinds[b.kind].requiredTrustData ==>
                  id in v.trustData && ConditionOf(v.trustData[id], held, epoch) == InForce)
            && exists x :: x in c.bindings && KeyOf(x) == (b.enclaveId, b.kind, b.platform) && AgreementError(x, v).None?
  {
    ReadyHasAPolicy(s, c, held, able, epoch, b.kind);
    var n := ActiveEnd(c.policies, epoch);
    var v := c.policies[n - 1];
    assert v in c.policies;
    ReadyMeansInForce(v, v.quoteKinds[b.kind].requiredTrustData, held, epoch);
    BindingBehind(c, (b.enclaveId, b.kind, b.platform), n - 1);
  }

  lemma BindingBehind(c: Chain, key: Key, i: nat)
    requires ChainInv(c) && i < |c.policies| && key in ByKey(c.bindings)
    ensures exists x :: x in c.bindings && KeyOf(x) == key && AgreementError(x, c.policies[i]).None?
  {
    ByKeyFinds(c.bindings, key);
    var x := ByKey(c.bindings)[key];
    var j :| 0 <= j < |c.bindings| && c.bindings[j] == x;
    assert c.configured;
    assert Fits(c.policies, c.bindings[j]);
  }
}
