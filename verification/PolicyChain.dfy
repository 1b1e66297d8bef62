/**
 * The append-only chain of attestation policies and its enclave bindings.
 *
 * Bindings live in a map ordered by (enclave, kind, platform); the model keeps that map as the sequence of
 * its values in key order.
 */
module PolicyChain {
  import opened Wrappers
  import opened Texts
  import opened Proto
  import PV = PolicyValidation

  type Validated = PV.Validated

  datatype Binding = Binding(enclaveId: text, kind: Kind, platform: Option<text>, measurements: map<PV.Layer, text>)

  datatype Chain = Chain(policies: seq<Validated>, bindings: seq<Binding>, configured: bool)

  datatype Error =
    | InvalidPolicy(cause: PV.Error)
    | InvalidGenesis | NonConsecutiveSequence | PreviousDigestMismatch | IssuedEpochRegression | EffectiveEpochRegression
    | EmptyChain | BindingWithoutPolicy | BindingsAlreadyConfigured
    | InvalidEnclaveId | InvalidPlatform | DuplicateEnclaveBinding | NonCanonicalBindingOrder | DuplicateMeasurementReference
    | BindingPlatformMismatch | BindingMeasurementSetMismatch | BindingTrustDataMismatch | BindingKindNeverEnabled
    | MissingEnclaveBinding

  const EMPTY := Chain([], [], false)

  // ---- linking ----

  /** Why a policy may not come first, or may not come after `previous`. */
  function LinkError(previous: Option<Validated>, v: Validated): Option<Error> {
    if previous.None? then
      if v.policy.sequence != 1 || v.policy.previousDigest.Some? then Some(InvalidGenesis) else None
    else if v.policy.sequence != previous.value.policy.sequence + 1 then Some(NonConsecutiveSequence)
    else if v.policy.previousDigest != Some(previous.value.digest) then Some(PreviousDigestMismatch)
    else if v.policy.issuedEpoch < previous.value.policy.issuedEpoch then Some(IssuedEpochRegression)
    else if v.policy.effectiveEpoch < previous.value.policy.effectiveEpoch then Some(EffectiveEpochRegression)
    else None
  }

  function Before(policies: seq<Validated>, i: nat): Option<Validated>
    requires i <= |policies|
  {
    if i == 0 then None else Some(policies[i - 1])
  }

  predicate LinksAt(policies: seq<Validated>, i: nat)
    requires i < |policies|
  {
    LinkError(Before(policies, i), policies[i]).None?
  }

  predicate Linked(policies: seq<Validated>) {
    forall i :: 0 <= i < |policies| ==> LinksAt(policies, i)
  }

  // ---- agreement of a binding with a policy ----

  predicate Enables(v: Validated, k: Kind) { k in v.quoteKinds && v.quoteKinds[k].enabled }

  predicate EnabledIn(policies: seq<Validated>, k: Kind) {
    exists i :: 0 <= i < |policies| && Enables(policies[i], k)
  }

  predicate PlatformAllowed(b: Binding, e: PV.KindPolicy) {
    if b.platform.None? then e.platforms == {} else b.platform.value in e.platforms
  }

  predicate Approved(id: text, v: Validated, e: PV.KindPolicy) {
    id in v.trustData && v.trustData[id].kind == PV.Measurement && id in e.requiredTrustData && id in e.measurementTrustData
  }

  /** Where a policy that enables the binding's kind disagrees with the binding. */
  function AgreementError(b: Binding, v: Validated): Option<Error> {
    if !Enables(v, b.kind) then None
    else
      var e := v.quoteKinds[b.kind];
      if !PlatformAllowed(b, e) then Some(BindingPlatformMismatch)
      else if b.measurements.Keys != e.requiredLayers then Some(BindingMeasurementSetMismatch)
      else if !(forall l :: l in b.measurements ==> Approved(b.measurements[l], v, e)) then Some(BindingTrustDataMismatch)
      else None
  }

  /** The first disagreement along the chain. */
  function Disagreement(policies: seq<Validated>, b: Binding): Option<Error> {
    if policies == [] then None
    else
      var earlier := Disagreement(policies[..|policies| - 1], b);
      if earlier.Some? then earlier else AgreementError(b, policies[|policies| - 1])
  }

  predicate PlatformLess(a: Option<text>, b: Option<text>) {
    b.Some? && (a.None? || Less(a.value, b.value))
  }

  /** The order of keys: enclave, then kind, then platform with none first. */
  predicate KeyLess(a: Binding, b: Binding) {
    || Less(a.enclaveId, b.enclaveId)
    || (a.enclaveId == b.enclaveId && Rank(a.kind) < Rank(b.kind))
    || (a.enclaveId == b.enclaveId && a.kind == b.kind && PlatformLess(a.platform, b.platform))
  }

  predicate SameKey(a: Binding, b: Binding) {
    a.enclaveId == b.enclaveId && a.kind == b.kind && a.platform == b.platform
  }

  predicate WellShaped(b: Binding) {
    && ValidSha256(b.enclaveId)
    && (b.platform.Some? ==> ValidIdentifier(b.platform.value))
    && (forall l, m :: l in b.measurements && m in b.measurements && l != m ==> b.measurements[l] != b.measurements[m])
  }

  function BindingError(policies: seq<Validated>, previous: Option<Binding>, b: Binding): Option<Error> {
    if !ValidSha256(b.enclaveId) then Some(InvalidEnclaveId)
    else if b.platform.Some? && !ValidIdentifier(b.platform.value) then Some(InvalidPlatform)
    else if previous.Some? && SameKey(b, previous.value) then Some(DuplicateEnclaveBinding)
    else if previous.Some? && KeyLess(b, previous.value) then Some(NonCanonicalBindingOrder)
    else if !WellShaped(b) then Some(DuplicateMeasurementReference)
    else if Disagreement(policies, b).Some? then Disagreement(policies, b)
    else if !EnabledIn(policies, b.kind) then Some(BindingKindNeverEnabled)
    else None
  }

  function LastOf(bindings: seq<Binding>): Option<Binding> {
    if bindings == [] then None else Some(bindings[|bindings| - 1])
  }

  function FirstBindingError(policies: seq<Validated>, bindings: seq<Binding>): Option<Error> {
    if bindings == [] then None
    else
      var h := bindings[..|bindings| - 1];
      var earlier := FirstBindingError(policies, h);
      if earlier.Some? then earlier else BindingError(policies, LastOf(h), bindings[|bindings| - 1])
  }

  predicate Covered(policies: seq<Validated>, bindings: seq<Binding>, k: Kind) {
    EnabledIn(policies, k) ==> exists i :: 0 <= i < |bindings| && bindings[i].kind == k
  }

  function BindingsError(policies: seq<Validated>, bindings: seq<Binding>): Option<Error> {
    if FirstBindingError(policies, bindings).Some? then FirstBindingError(policies, bindings)
    else if !(forall k :: k in ALL_KINDS ==> Covered(policies, bindings, k)) then Some(MissingEnclaveBinding)
    else None
  }

  // ---- the loops ----

  /** One binding against every policy, noting whether any of them enables its kind. */
  method CheckBinding(policies: seq<Validated>, previous: Option<Binding>, b: Binding) returns (error: Option<Error>)
    ensures error == BindingError(policies, previous, b)
  {
    if !ValidSha256(b.enclaveId) { return Some(InvalidEnclaveId); }
    if b.platform.Some? && !ValidIdentifier(b.platform.value) { return Some(InvalidPlatform); }
    if previous.Some? && SameKey(b, previous.value) { return Some(DuplicateEnclaveBinding); }
    if previous.Some? && KeyLess(b, previous.value) { return Some(NonCanonicalBindingOrder); }
    if !WellShaped(b) { return Some(DuplicateMeasurementReference); }
    var sawEnabled := false;
    for i := 0 to |policies|
      invariant Disagreement(policies[..i], b).None?
      invariant sawEnabled <==> EnabledIn(policies[..i], b.kind)
    {
      assert policies[..i + 1][..i] == policies[..i];
      if Enables(policies[i], b.kind) {
        sawEnabled := true;
        assert Enables(policies[..i + 1][i], b.kind);
        var mismatch := AgreementError(b, policies[i]);
        if mismatch.Some? {
          EarlyDisagreement(policies, i + 1, b);
          return mismatch;
        }
      } else {
        assert EnabledIn(policies[..i + 1], b.kind) <==> EnabledIn(policies[..i], b.kind) by {
          forall j | 0 <= j < i ensures policies[..i + 1][j] == policies[..i][j] { }
        }
      }
    }
    assert policies[..|policies|] == policies;
    return if sawEnabled then None else Some(BindingKindNeverEnabled);
  }

  lemma {:induction false} EarlyDisagreement(policies: seq<Validated>, n: nat, b: Binding)
    requires n <= |policies| && Disagreement(policies[..n], b).Some?
    ensures Disagreement(policies, b) == Disagreement(policies[..n], b)
  {
    if n == |policies| {
      assert policies[..n] == policies;
    } else {
      assert policies[..|policies| - 1][..n] == policies[..n];
      EarlyDisagreement(policies[..|policies| - 1], n, b);
    }
  }

  method ValidateEnclaveBindings(policies: seq<Validated>, bindings: seq<Binding>) returns (r: Result<seq<Binding>, Error>)
    ensures r == match BindingsError(policies, bindings) case Some(e) => Err(e) case None => Ok(bindings)
  {
    var validated: seq<Binding> := [];
    var previous: Option<Binding> := None;
    for i := 0 to |bindings|
      invariant validated == bindings[..i] && previous == LastOf(bindings[..i])
      invariant FirstBindingError(policies, bindings[..i]).None?
    {
      assert bindings[..i + 1][..i] == bindings[..i];
      var error := CheckBinding(policies, previous, bindings[i]);
      if error.Some? {
        EarlyBindingError(policies, bindings, i + 1);
        return Err(error.value);
      }
      previous := Some(bindings[i]);
      validated := validated + [bindings[i]];
    }
    assert bindings[..|bindings|] == bindings;
    if !(forall k :: k in ALL_KINDS ==> Covered(policies, validated, k)) { return Err(MissingEnclaveBinding); }
    return Ok(validated);
  }

  lemma {:induction false} EarlyBindingError(policies: seq<Validated>, bindings: seq<Binding>, n: nat)
    requires n <= |bindings| && FirstBindingError(policies, bindings[..n]).Some?
    ensures FirstBindingError(policies, bindings) == FirstBindingError(policies, bindings[..n])
  {
    if n == |bindings| {
      assert bindings[..n] == bindings;
    } else {
      assert bindings[..|bindings| - 1][..n] == bindings[..n];
      EarlyBindingError(policies, bindings[..|bindings| - 1], n);
    }
  }

  // ---- what the loops decide ----

  ghost predicate Agrees(b: Binding, policies: seq<Validated>) {
    forall i :: 0 <= i < |policies| ==> AgreementError(b, policies[i]).None?
  }

  /**
   * Each binding is well shaped, agrees with every policy that enables its kind and is enabled by one at
   * least, and the keys strictly ascend.
   */
  ghost predicate AllFit(policies: seq<Validated>, bindings: seq<Binding>) {
    && (forall i :: 0 <= i < |bindings| ==> Fits(policies, bindings[i]))
    && (forall i, j :: 0 <= i < j < |bindings| ==> KeyLess(bindings[i], bindings[j]))
  }

  ghost predicate Fits(policies: seq<Validated>, b: Binding) {
    WellShaped(b) && Agrees(b, policies) && EnabledIn(policies, b.kind)
  }

  /** Every binding fits the chain, and every kind enabled anywhere in it has a binding. */
  ghost predicate BindingsHold(policies: seq<Validated>, bindings: seq<Binding>) {
    AllFit(policies, bindings) && forall k :: Covered(policies, bindings, k)
  }

  lemma {:induction false} DisagreementMeans(policies: seq<Validated>, b: Binding)
    ensures Disagreement(policies, b).None? <==> Agrees(b, policies)
  {
    if policies != [] {
      var h := policies[..|policies| - 1];
      DisagreementMeans(h, b);
      if Agrees(b, policies) {
        forall i | 0 <= i < |h| ensures AgreementError(b, h[i]).None? { assert h[i] == policies[i]; }
      } else if Agrees(b, h) {
        forall i | 0 <= i < |h| ensures AgreementError(b, policies[i]).None? { assert h[i] == policies[i]; }
      }
    }
  }

  lemma KeyLessIsTransitive(a: Binding, b: Binding, c: Binding)
    requires KeyLess(a, b) && KeyLess(b, c)
    ensures KeyLess(a, c)
  {
    if Less(a.enclaveId, b.enclaveId) && Less(b.enclaveId, c.enclaveId) { LessIsTransitive(a.enclaveId, b.enclaveId, c.enclaveId); }
    if a.platform.Some? && b.platform.Some? && c.platform.Some? && Less(a.platform.value, b.platform.value) && Less(b.platform.value, c.platform.value) {
      LessIsTransitive(a.platform.value, b.platform.value, c.platform.value);
    }
  }

  lemma KeyLessIsTotal(a: Binding, b: Binding)
    ensures KeyLess(a, b) || SameKey(a, b) || KeyLess(b, a)
  {
    LessIsTotal(a.enclaveId, b.enclaveId);
    if a.platform.Some? && b.platform.Some? { LessIsTotal(a.platform.value, b.platform.value); }
  }

  lemma KeyLessIsStrict(a: Binding, b: Binding)
    requires KeyLess(a, b)
    ensures !SameKey(a, b) && !KeyLess(b, a)
  {
    LessIsStrict(a.enclaveId, b.enclaveId);
    if a.platform.Some? && b.platform.Some? { LessIsStrict(a.platform.value, b.platform.value); }
  }

  lemma OneBindingFits(policies: seq<Validated>, previous: Option<Binding>, b: Binding)
    ensures BindingError(policies, previous, b).None? <==>
            && Fits(policies, b)
            && (previous.Some? ==> KeyLess(previous.value, b))
  {
    DisagreementMeans(policies, b);
    if previous.Some? {
      KeyLessIsTotal(previous.value, b);
      if KeyLess(previous.value, b) { KeyLessIsStrict(previous.value, b); }
    }
  }

  lemma AllFitGrows(policies: seq<Validated>, h: seq<Binding>, b: Binding)
    ensures AllFit(policies, h + [b]) <==>
            AllFit(policies, h) && Fits(policies, b) && (LastOf(h).Some? ==> KeyLess(LastOf(h).value, b))
  {
    var longer := h + [b];
    assert longer[|h|] == b && forall i :: 0 <= i < |h| ==> longer[i] == h[i];
    if AllFit(policies, longer) {
      forall i | 0 <= i < |h| ensures Fits(policies, h[i]) { assert Fits(policies, longer[i]); }
    } else if AllFit(policies, h) && Fits(policies, b) && (LastOf(h).Some? ==> KeyLess(LastOf(h).value, b)) {
      forall i | 0 <= i < |h| ensures KeyLess(h[i], b) {
        if i < |h| - 1 { KeyLessIsTransitive(h[i], h[|h| - 1], b); }
      }
    }
  }

  lemma {:induction false} FirstErrorMeans(policies: seq<Validated>, bindings: seq<Binding>)
    ensures FirstBindingError(policies, bindings).None? <==> AllFit(policies, bindings)
  {
    if bindings != [] {
      var h, b := bindings[..|bindings| - 1], bindings[|bindings| - 1];
      FirstErrorMeans(policies, h);
      OneBindingFits(policies, LastOf(h), b);
      AllFitGrows(policies, h, b);
      assert bindings == h + [b];
    }
  }

  /** The loops accept exactly the bindings that fit the chain. */
  lemma AcceptedBindingsHold(policies: seq<Validated>, bindings: seq<Binding>)
    ensures BindingsError(policies, bindings).None? <==> BindingsHold(policies, bindings)
  {
    FirstErrorMeans(policies, bindings);
    forall k: Kind ensures k in ALL_KINDS { EveryKind(k); }
  }

  // ---- the operations ----

  function AppendTo(c: Chain, v: Validated): Result<Chain, Error> {
    var link := LinkError(Before(c.policies, |c.policies|), v);
    if link.Some? then Err(link.value)
    else if c.configured && BindingsError(c.policies + [v], c.bindings).Some? then Err(BindingsError(c.policies + [v], c.bindings).value)
    else Ok(c.(policies := c.policies + [v]))
  }

  function Configure(c: Chain, bindings: seq<Binding>): Result<Chain, Error> {
    if c.configured then Err(BindingsAlreadyConfigured)
    else if c.policies == [] && bindings != [] then Err(BindingWithoutPolicy)
    else if BindingsError(c.policies, bindings).Some? then Err(BindingsError(c.policies, bindings).value)
    else Ok(c.(bindings := bindings, configured := true))
  }

  /** How a record is validated; `PolicyValidation.Validate` in some environment. */
  type Validator = PV.Policy -> Result<Validated, PV.Error>

  /** Validate and append each record in turn. */
  function AppendAll(validate: Validator, c: Chain, records: seq<PV.Policy>): Result<Chain, Error> {
    if records == [] then Ok(c)
    else match AppendAll(validate, c, records[..|records| - 1])
      case Err(e) => Err(e)
      case Ok(d) => match validate(records[|records| - 1])
        case Err(e) => Err(InvalidPolicy(e))
        case Ok(v) => AppendTo(d, v)
  }

  /** The chain built in one go from a catalog; without policies it allows no bindings. */
  function FromCatalog(validate: Validator, records: Option<seq<PV.Policy>>, bindings: seq<Binding>): Result<Chain, Error> {
    if records.None? then
      if bindings != [] then Err(BindingWithoutPolicy) else Ok(EMPTY.(configured := true))
    else if records.value == [] then Err(EmptyChain)
    else match AppendAll(validate, EMPTY, records.value)
      case Err(e) => Err(e)
      case Ok(c) => Configure(c, bindings)
  }

  /** What every chain keeps. */
  ghost predicate ChainInv(c: Chain) {
    && Linked(c.policies)
    && if c.configured then BindingsHold(c.policies, c.bindings) else c.bindings == []
  }

  lemma LinkedGrows(policies: seq<Validated>, v: Validated)
    ensures Linked(policies + [v]) <==> Linked(policies) && LinkError(Before(policies, |policies|), v).None?
  {
    var longer := policies + [v];
    assert longer[|policies|] == v && Before(longer, |policies|) == Before(policies, |policies|);
    assert LinksAt(longer, |policies|) <==> LinkError(Before(policies, |policies|), v).None?;
    forall i | 0 <= i < |policies| ensures LinksAt(longer, i) == LinksAt(policies, i) {
      assert Before(longer, i) == Before(policies, i) && longer[i] == policies[i];
    }
    if Linked(longer) {
      forall i | 0 <= i < |policies| ensures LinksAt(policies, i) { assert LinksAt(longer, i); }
    }
  }

  /** Appending succeeds exactly when the policy links on and the configured bindings still hold. */
  lemma AppendKeeps(c: Chain, v: Validated)
    requires ChainInv(c)
    ensures AppendTo(c, v).Ok? <==> Linked(c.policies + [v]) && (c.configured ==> BindingsHold(c.policies + [v], c.bindings))
    ensures AppendTo(c, v).Ok? ==> ChainInv(AppendTo(c, v).value)
  {
    LinkedGrows(c.policies, v);
    AcceptedBindingsHold(c.policies + [v], c.bindings);
  }

  lemma ConfigureKeeps(c: Chain, bindings: seq<Binding>)
    requires ChainInv(c)
    ensures Configure(c, bindings).Ok? <==> !c.configured && BindingsHold(c.policies, bindings)
    ensures Configure(c, bindings).Ok? ==> ChainInv(Configure(c, bindings).value)
  {
    AcceptedBindingsHold(c.policies, bindings);
    if c.policies == [] && bindings != [] { assert !EnabledIn(c.policies, bindings[0].kind); }
  }

  // ---- the chain object ----

  class AttestationPolicyChain {
    var policies: seq<Validated>
    var bindings: seq<Binding>
    var configured: bool

    ghost function State(): Chain
      reads this
    {
      Chain(policies, bindings, configured)
    }

    constructor ()
      ensures State() == EMPTY && ChainInv(State())
    {
      policies, bindings, configured := [], [], false;
    }

    /** A refused append changes nothing. */
    method Append(v: Validated) returns (r: Result<Validated, Error>)
      requires ChainInv(State())
      modifies this
      ensures ChainInv(State())
      ensures r.Ok? ==> AppendTo(old(State()), v) == Ok(State()) && r.value == v
      ensures r.Err? ==> AppendTo(old(State()), v) == Err(r.error) && State() == old(State())
    {
      AppendKeeps(State(), v);
      var link := LinkError(Before(policies, |policies|), v);
      if link.Some? { return Err(link.value); }
      if configured {
        var checked := ValidateEnclaveBindings(policies + [v], bindings);
        if checked.Err? { return Err(checked.error); }
      }
      policies := policies + [v];
      return Ok(v);
    }

    /** Bindings are configured once; a refusal changes nothing. */
    method ConfigureEnclaveBindings(given: seq<Binding>) returns (r: Result<(), Error>)
      requires ChainInv(State())
      modifies this
      ensures ChainInv(State())
      ensures r.Ok? ==> Configure(old(State()), given) == Ok(State())
      ensures r.Err? ==> Configure(old(State()), given) == Err(r.error) && State() == old(State())
    {
      ConfigureKeeps(State(), given);
      if configured { return Err(BindingsAlreadyConfigured); }
      if policies == [] && given != [] { return Err(BindingWithoutPolicy); }
      var checked := ValidateEnclaveBindings(policies, given);
      if checked.Err? { return Err(checked.error); }
      bindings, configured := checked.value, true;
      return Ok(());
    }
  }

  /** Validate and append a catalog's records, then configure its bindings. */
  method FromCatalogRecords(validate: Validator, records: Option<seq<PV.Policy>>, given: seq<Binding>)
    returns (r: Result<AttestationPolicyChain, Error>)
    ensures r.Ok? ==> fresh(r.value) && FromCatalog(validate, records, given) == Ok(r.value.State()) && ChainInv(r.value.State())
    ensures r.Err? ==> FromCatalog(validate, records, given) == Err(r.error)
  {
    var chain := new AttestationPolicyChain();
    if records.None? {
      if given != [] { return Err(BindingWithoutPolicy); }
      chain.configured := true;
      return Ok(chain);
    }
    if records.value == [] { return Err(EmptyChain); }
    var list := records.value;
    for i := 0 to |list|
      invariant ChainInv(chain.State()) && AppendAll(validate, EMPTY, list[..i]) == Ok(chain.State())
    {
      assert list[..i + 1][..i] == list[..i];
      var validated := validate(list[i]);
      if validated.Err? {
        EarlyAppendError(validate, EMPTY, list, i + 1);
        return Err(InvalidPolicy(validated.error));
      }
      var appended := chain.Append(validated.value);
      if appended.Err? {
        EarlyAppendError(validate, EMPTY, list, i + 1);
        return Err(appended.error);
      }
    }
    assert list[..|list|] == list;
    var done := chain.ConfigureEnclaveBindings(given);
    return if done.Err? then Err(done.error) else Ok(chain);
  }

  lemma {:induction false} EarlyAppendError(validate: Validator, c: Chain, records: seq<PV.Policy>, n: nat)
    requires n <= |records| && AppendAll(validate, c, records[..n]).Err?
    ensures AppendAll(validate, c, records) == AppendAll(validate, c, records[..n])
  {
    if n == |records| {
      assert records[..n] == records;
    } else {
      assert records[..|records| - 1][..n] == records[..n];
      EarlyAppendError(validate, c, records[..|records| - 1], n);
    }
  }
}
