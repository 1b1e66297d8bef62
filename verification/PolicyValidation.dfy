/**
 * Validating one attestation policy record.
 *
 * The lists of origins, trust data and quote kinds are sorted by id before anything is checked or hashed,
 * so the given order cannot matter. The URL check and the digest of the canonical JSON are parameters.
 */
module PolicyValidation {
  import opened Wrappers
  import opened ByteSeq
  import opened Texts
  import opened Proto
  import opened KeySort

  datatype Origin = Origin(id: text, httpsOrigin: text)

  datatype TrustKind = TrustAnchor | VerificationKey | Revocation | Measurement

  datatype Source = Source(originPin: text, path: text)

  datatype TrustData = TrustData(id: text, kind: TrustKind, sha256: text, mediaType: text, maxBytes: u64,
                                 validFrom: Option<u64>, validUntil: Option<u64>, source: Option<Source>)

  datatype Layer = Cpu | Gpu | Workload

  datatype Profile =
    | AppleAppAttestNativeV1 | AmdSevSnpVcekV1 | IntelTdxDcapV1 | NvidiaGb10DeviceV1
    | NvidiaNrasCompositeV1 | NvidiaNvtrustOfflineCompositeV1 | Tpm2EkActivateCredentialV1

  datatype KindPolicy = KindPolicy(kind: Kind, enabled: bool, profile: Profile, evidenceSchemaVersion: u32,
                                   requiredTrustData: set<text>, measurementTrustData: set<text>,
                                   platforms: set<text>, requiredLayers: set<Layer>)

  datatype Policy = Policy(schemaVersion: u32, sequence: u64, previousDigest: Option<text>, issuedEpoch: u64,
                           effectiveEpoch: u64, expiresEpoch: Option<u64>, minVerifierVersion: u32,
                           emergencyDisabled: set<Kind>, originPins: seq<Origin>, trustData: seq<TrustData>,
                           quoteKinds: seq<KindPolicy>)

  datatype Validated = Validated(policy: Policy, digest: text, origins: map<text, Origin>,
                                 trustData: map<text, TrustData>, quoteKinds: map<Kind, KindPolicy>)

  /** Whether a text is a canonical HTTPS origin, and the digest of a policy's canonical JSON. */
  datatype Env = Env(canonicalOrigin: text -> bool, digest: Policy -> text)

  datatype Error =
    | UnsupportedSchema | InvalidSequence | InvalidVerifierVersion | EffectiveBeforeIssue | InvalidExpiry | InvalidDigest
    | InvalidIdentifier | InvalidOrigin | DuplicateOrigin | InvalidTrustData | UnknownOrigin | DuplicateTrustData
    | ProfileKindMismatch | InvalidEvidenceSchemaVersion | MissingKindTrustData | UnknownTrustData | MissingKindTrustAnchor
    | InvalidMeasurement | UnclassifiedMeasurement | MissingMeasurementTrustData | MissingTpmPcrPolicy
    | MissingTier3Platform | InvalidTier3MeasurementLayers | DuplicateQuoteKind | MissingQuoteKind
    | InvalidManagedVerifier | UnreferencedTrustData | UnreferencedOrigin

  const SCHEMA_VERSION: nat := 1
  const MAX_COLLATERAL_BYTES: nat := 16 * 1024 * 1024
  const DOT: byte := 46
  const SLASH: byte := 47

  // ---- filling a map from a list ----

  /** Check each entry in turn and insert it under its id; a repeated id is refused. */
  function Collect<K(==), T>(s: seq<T>, id: T -> K, check: T -> Option<Error>, duplicate: Error): Result<map<K, T>, Error> {
    if s == [] then Ok(map[])
    else
      var e := s[|s| - 1];
      match Collect(s[..|s| - 1], id, check, duplicate)
      case Err(error) => Err(error)
      case Ok(m) =>
        if check(e).Some? then Err(check(e).value)
        else if id(e) in m then Err(duplicate)
        else Ok(m[id(e) := e])
  }

  method CollectEach<K(==), T>(s: seq<T>, id: T -> K, check: T -> Option<Error>, duplicate: Error)
    returns (r: Result<map<K, T>, Error>)
    ensures r == Collect(s, id, check, duplicate)
  {
    var m := map[];
    for i := 0 to |s|
      invariant Collect(s[..i], id, check, duplicate) == Ok(m)
    {
      assert s[..i + 1][..i] == s[..i];
      var refusal := check(s[i]);
      if refusal.Some? {
        StopsEarly(s, i + 1, id, check, duplicate);
        return Err(refusal.value);
      }
      if id(s[i]) in m {
        StopsEarly(s, i + 1, id, check, duplicate);
        return Err(duplicate);
      }
      m := m[id(s[i]) := s[i]];
    }
    assert s[..|s|] == s;
    return Ok(m);
  }

  lemma {:induction false} StopsEarly<K, T>(s: seq<T>, n: nat, id: T -> K, check: T -> Option<Error>, duplicate: Error)
    requires n <= |s| && Collect(s[..n], id, check, duplicate).Err?
    ensures Collect(s, id, check, duplicate) == Collect(s[..n], id, check, duplicate)
  {
    if n == |s| {
      assert s[..n] == s;
    } else {
      assert s[..|s| - 1][..n] == s[..n];
      StopsEarly(s[..|s| - 1], n, id, check, duplicate);
    }
  }

  ghost predicate Indexes<K, T>(m: map<K, T>, s: seq<T>, id: T -> K) {
    && (forall e :: e in s ==> id(e) in m && m[id(e)] == e)
    && (forall k :: k in m ==> m[k] in s && id(m[k]) == k)
  }

  lemma DistinctGrows<K, T>(h: seq<T>, e: T, id: T -> K)
    ensures Distinct(h + [e], id) <==> Distinct(h, id) && forall x :: x in h ==> id(x) != id(e)
  {
    var s := h + [e];
    if Distinct(s, id) {
      forall i, j | 0 <= i < j < |h| ensures id(h[i]) != id(h[j]) { assert id(s[i]) != id(s[j]); }
      forall x | x in h ensures id(x) != id(e) {
        var i :| 0 <= i < |h| && h[i] == x;
        assert id(s[i]) != id(s[|h|]);
      }
    } else if forall x :: x in h ==> id(x) != id(e) {
      var i, j :| 0 <= i < j < |s| && id(s[i]) == id(s[j]);
      assert h[i] in h;
      assert j < |h|;
    }
  }

  lemma IndexGrows<K, T>(m: map<K, T>, h: seq<T>, e: T, id: T -> K)
    requires Indexes(m, h, id)
    ensures id(e) in m <==> exists x :: x in h && id(x) == id(e)
    ensures id(e) !in m ==> Indexes(m[id(e) := e], h + [e], id)
  {
  }

  /** The map is filled exactly when every entry passes and no id repeats, and then it holds the entries by id. */
  lemma {:induction false} CollectAccepts<K, T>(s: seq<T>, id: T -> K, check: T -> Option<Error>, duplicate: Error)
    ensures Collect(s, id, check, duplicate).Ok? <==> (forall e :: e in s ==> check(e).None?) && Distinct(s, id)
    ensures Collect(s, id, check, duplicate).Ok? ==> Indexes(Collect(s, id, check, duplicate).value, s, id)
  {
    if s != [] {
      var h, e := s[..|s| - 1], s[|s| - 1];
      CollectAccepts(h, id, check, duplicate);
      assert s == h + [e];
      assert e in s && forall x :: x in h ==> x in s;
      DistinctGrows(h, e, id);
      if Collect(h, id, check, duplicate).Ok? { IndexGrows(Collect(h, id, check, duplicate).value, h, e, id); }
    }
  }

  // ---- the checks, in the order they are made ----

  function HeaderError(p: Policy): Option<Error> {
    if p.schemaVersion != SCHEMA_VERSION then Some(UnsupportedSchema)
    else if p.sequence == 0 then Some(InvalidSequence)
    else if p.minVerifierVersion == 0 then Some(InvalidVerifierVersion)
    else if p.effectiveEpoch < p.issuedEpoch then Some(EffectiveBeforeIssue)
    else if p.expiresEpoch.Some? && p.expiresEpoch.value <= p.effectiveEpoch then Some(InvalidExpiry)
    else if p.previousDigest.Some? && !ValidSha256(p.previousDigest.value) then Some(InvalidDigest)
    else None
  }

  function OriginError(env: Env, o: Origin): Option<Error> {
    if !ValidIdentifier(o.id) then Some(InvalidIdentifier)
    else if !env.canonicalOrigin(o.httpsOrigin) then Some(InvalidOrigin)
    else None
  }

  predicate IsPathByte(b: byte) {
    97 <= b <= 122 || 65 <= b <= 90 || 48 <= b <= 57 || b == SLASH || b == 45 || b == 95 || b == DOT || b == 126
  }

  /** An absolute path of plain components, none of them empty or a traversal. */
  predicate ValidPath(path: text) {
    && path != [] && path[0] == SLASH && |path| <= 2048
    && (forall i :: 0 <= i < |path| ==> IsPathByte(path[i]))
    && var parts := Split(path, SLASH);
       forall i :: 1 <= i < |parts| ==> parts[i] != [] && parts[i] != [DOT] && parts[i] != [DOT, DOT]
  }

  function TrustDataError(t: TrustData, origins: map<text, Origin>): Option<Error> {
    if !ValidIdentifier(t.id) then Some(InvalidIdentifier)
    else if !ValidSha256(t.sha256) then Some(InvalidDigest)
    else if !(0 < |t.mediaType| <= 128 && forall i :: 0 <= i < |t.mediaType| ==> 33 <= t.mediaType[i] <= 126)
      then Some(InvalidTrustData)
    else if !(0 < t.maxBytes <= MAX_COLLATERAL_BYTES) then Some(InvalidTrustData)
    else if t.validFrom.Some? && t.validUntil.Some? && t.validUntil.value <= t.validFrom.value then Some(InvalidTrustData)
    else if t.source.None? then None
    else if !ValidIdentifier(t.source.value.originPin) then Some(InvalidIdentifier)
    else if t.source.value.originPin !in origins then Some(UnknownOrigin)
    else if !ValidPath(t.source.value.path) then Some(InvalidTrustData)
    else None
  }

  function ProfileKind(p: Profile): Kind {
    match p
    case AppleAppAttestNativeV1 => AppleAppAttestJwt
    case AmdSevSnpVcekV1 => AmdSevSnpVcek
    case IntelTdxDcapV1 => IntelTdxDcap
    case NvidiaGb10DeviceV1 => NvidiaGb10DeviceJwt
    case NvidiaNrasCompositeV1 => NvidiaNrasJwt
    case NvidiaNvtrustOfflineCompositeV1 => NvidiaNvtrustOfflineJwt
    case Tpm2EkActivateCredentialV1 => Tpm2QuoteEk
  }

  function Tier3Layers(k: Kind): set<Layer> {
    match k
    case AmdSevSnpVcek => {Cpu, Workload}
    case IntelTdxDcap => {Cpu, Workload}
    case _ => {Cpu, Gpu, Workload}
  }

  function KindError(e: KindPolicy, trust: map<text, TrustData>): Option<Error> {
    if ProfileKind(e.profile) != e.kind then Some(ProfileKindMismatch)
    else if e.enabled && e.evidenceSchemaVersion == 0 then Some(InvalidEvidenceSchemaVersion)
    else if e.enabled && e.requiredTrustData == {} then Some(MissingKindTrustData)
    else if !(e.requiredTrustData <= trust.Keys) then Some(UnknownTrustData)
    else if e.enabled && !(exists id :: id in e.requiredTrustData && id in trust && IsAnchor(trust[id])) then Some(MissingKindTrustAnchor)
    else if !(forall id :: id in e.measurementTrustData ==>
                id in e.requiredTrustData && id in trust && trust[id].kind == Measurement) then Some(InvalidMeasurement)
    else if !(forall id :: id in e.requiredTrustData && id in trust && trust[id].kind == Measurement ==>
                id in e.measurementTrustData) then Some(UnclassifiedMeasurement)
    else if e.enabled && e.requiredLayers != {} && e.measurementTrustData == {} then Some(MissingMeasurementTrustData)
    else if e.enabled && e.kind == Tpm2QuoteEk && e.measurementTrustData == {} then Some(MissingTpmPcrPolicy)
    else if !(forall p :: p in e.platforms ==> ValidIdentifier(p)) then Some(InvalidIdentifier)
    else if e.enabled && IsTier3(e.kind) && e.platforms == {} then Some(MissingTier3Platform)
    else if e.enabled && IsTier3(e.kind) && e.requiredLayers != Tier3Layers(e.kind) then Some(InvalidTier3MeasurementLayers)
    else None
  }

  predicate IsAnchor(t: TrustData) { t.kind == TrustAnchor || t.kind == VerificationKey }

  // ---- files of managed verifiers ----

  datatype Role = Executable | Manifest

  function RoleName(r: Role): text {
    if r == Executable then Ascii("executable") else Ascii("manifest")
  }

  function RoleMediaType(r: Role): text {
    if r == Executable then Ascii("application/vnd.mayhem.attestation-verifier")
    else Ascii("application/vnd.mayhem.attestation-verifier-manifest+json")
  }

  function ManagedPrefix(): text { Ascii("managed-verifier") }

  function Targets(): set<text> {
    {Ascii("aarch64-apple-darwin"), Ascii("aarch64-pc-windows-msvc"), Ascii("aarch64-unknown-linux-gnu"),
     Ascii("x86_64-apple-darwin"), Ascii("x86_64-pc-windows-msvc"), Ascii("x86_64-unknown-linux-gnu")}
  }

  predicate IsManagedKind(k: Kind) {
    k == AmdSevSnpVcek || k == IntelTdxDcap || k == NvidiaNrasJwt || k == NvidiaNvtrustOfflineJwt
  }

  function ManagedId(k: Kind, target: text, role: Role): text {
    Join([ManagedPrefix(), KindBytes(k), target, RoleName(role)], DOT)
  }

  predicate IsCandidate(t: TrustData) {
    ManagedPrefix() <= t.id || RoleMediaType(Executable) <= t.mediaType
  }

  function ManagedKindNamed(name: text): Option<Kind> {
    if name == KindBytes(AmdSevSnpVcek) then Some(AmdSevSnpVcek)
    else if name == KindBytes(IntelTdxDcap) then Some(IntelTdxDcap)
    else if name == KindBytes(NvidiaNrasJwt) then Some(NvidiaNrasJwt)
    else if name == KindBytes(NvidiaNvtrustOfflineJwt) then Some(NvidiaNvtrustOfflineJwt)
    else None
  }

  /** Which verifier file a reference names, if any; anything that looks like one must be named canonically. */
  function ParseManaged(t: TrustData): Result<Option<(Kind, text, Role)>, Error> {
    if !IsCandidate(t) then Ok(None)
    else
      var parts := Split(t.id, DOT);
      if |parts| != 4 || parts[0] != ManagedPrefix() then Err(InvalidManagedVerifier)
      else
        var kind := ManagedKindNamed(parts[1]);
        if kind.None? || parts[2] !in Targets() then Err(InvalidManagedVerifier)
        else if parts[3] != RoleName(Executable) && parts[3] != RoleName(Manifest) then Err(InvalidManagedVerifier)
        else
          var role := if parts[3] == RoleName(Executable) then Executable else Manifest;
          if t.kind != VerificationKey || t.mediaType != RoleMediaType(role) then Err(InvalidManagedVerifier)
          else Ok(Some((kind.value, parts[2], role)))
  }

  predicate IsManagedFile(t: TrustData) { ParseManaged(t).Ok? && ParseManaged(t).value.Some? }

  function ManagedIds(trust: map<text, TrustData>): set<text> {
    set id | id in trust && IsManagedFile(trust[id])
  }

  predicate Requires(kinds: map<Kind, KindPolicy>, id: text) {
    exists k :: k in kinds && id in kinds[k].requiredTrustData
  }

  /** Both files of a target or neither; both only for an enabled kind, and never required of everyone. */
  predicate PairOk(kinds: map<Kind, KindPolicy>, trust: map<text, TrustData>, k: Kind, target: text) {
    var executable, manifest := ManagedId(k, target, Executable), ManagedId(k, target, Manifest);
    && (executable in trust <==> manifest in trust)
    && (executable in trust ==>
          k in kinds && kinds[k].enabled && !Requires(kinds, trust[executable].id) && !Requires(kinds, trust[manifest].id))
  }

  function ManagedError(kinds: map<Kind, KindPolicy>, trust: map<text, TrustData>): Option<Error> {
    if !(forall id :: id in trust ==> ParseManaged(trust[id]).Ok?) then Some(InvalidManagedVerifier)
    else if !(forall k, target :: k in ALL_KINDS && target in Targets() && IsManagedKind(k) ==> PairOk(kinds, trust, k, target))
      then Some(InvalidManagedVerifier)
    else None
  }

  function ClosureError(origins: map<text, Origin>, trust: map<text, TrustData>, kinds: map<Kind, KindPolicy>): Option<Error> {
    if !(forall id :: id in trust ==> Requires(kinds, id) || id in ManagedIds(trust)) then Some(UnreferencedTrustData)
    else if !(forall id :: id in origins ==> IsUsed(trust, id)) then Some(UnreferencedOrigin)
    else None
  }

  predicate IsUsed(trust: map<text, TrustData>, origin: text) {
    exists id :: id in trust && trust[id].source.Some? && trust[id].source.value.originPin == origin
  }

  // ---- the whole record ----

  function OriginId(): Origin -> text { (o: Origin) => o.id }
  function TrustId(): TrustData -> text { (t: TrustData) => t.id }
  function KindId(): KindPolicy -> Kind { (e: KindPolicy) => e.kind }
  function KindRank(): KindPolicy -> seq<int> { (e: KindPolicy) => [Rank(e.kind)] }
  function OriginCheck(env: Env): Origin -> Option<Error> { (o: Origin) => OriginError(env, o) }
  function TrustCheck(origins: map<text, Origin>): TrustData -> Option<Error> { (t: TrustData) => TrustDataError(t, origins) }
  function KindCheck(trust: map<text, TrustData>): KindPolicy -> Option<Error> { (e: KindPolicy) => KindError(e, trust) }

  function Canonical(p: Policy): Policy {
    p.(originPins := Sort(p.originPins, OriginId()), trustData := Sort(p.trustData, TrustId()),
       quoteKinds := Sort(p.quoteKinds, KindRank()))
  }

  datatype Maps = Maps(origins: map<text, Origin>, trust: map<text, TrustData>, kinds: map<Kind, KindPolicy>)

  /** Run the three validators in turn. */
  function Collected(env: Env, p: Policy): Result<Maps, Error> {
    match Collect(p.originPins, OriginId(), OriginCheck(env), DuplicateOrigin)
    case Err(e) => Err(e)
    case Ok(origins) => match Collect(p.trustData, TrustId(), TrustCheck(origins), DuplicateTrustData)
      case Err(e) => Err(e)
      case Ok(trust) => match Collect(p.quoteKinds, KindId(), KindCheck(trust), DuplicateQuoteKind)
        case Err(e) => Err(e)
        case Ok(kinds) => Ok(Maps(origins, trust, kinds))
  }

  /** Check a record whose lists are sorted. */
  function Check(env: Env, p: Policy): Result<Validated, Error> {
    if HeaderError(p).Some? then Err(HeaderError(p).value)
    else match Collected(env, p)
      case Err(e) => Err(e)
      case Ok(m) => Finish(env, p, m.origins, m.trust, m.kinds)
  }

  function Finish(env: Env, p: Policy, origins: map<text, Origin>, trust: map<text, TrustData>, kinds: map<Kind, KindPolicy>):
    Result<Validated, Error>
  {
    if !(ALL_KINDS <= kinds.Keys) then Err(MissingQuoteKind)
    else if ManagedError(kinds, trust).Some? then Err(ManagedError(kinds, trust).value)
    else if ClosureError(origins, trust, kinds).Some? then Err(ClosureError(origins, trust, kinds).value)
    else Ok(Validated(p, env.digest(p), origins, trust, kinds))
  }

  function Validate(env: Env, p: Policy): Result<Validated, Error> { Check(env, Canonical(p)) }

  method ValidatePolicy(env: Env, p: Policy) returns (r: Result<Validated, Error>)
    ensures r == Validate(env, p)
  {
    var c := Canonical(p);
    var header := HeaderError(c);
    if header.Some? { return Err(header.value); }
    var origins := CollectEach(c.originPins, OriginId(), OriginCheck(env), DuplicateOrigin);
    if origins.Err? { return Err(origins.error); }
    var trust := CollectEach(c.trustData, TrustId(), TrustCheck(origins.value), DuplicateTrustData);
    if trust.Err? { return Err(trust.error); }
    var kinds := CollectEach(c.quoteKinds, KindId(), KindCheck(trust.value), DuplicateQuoteKind);
    if kinds.Err? { return Err(kinds.error); }
    r := Finish(env, c, origins.value, trust.value, kinds.value);
  }

  // ---- order does not matter ----

  /** The same record with its three lists in any order. */
  ghost predicate SameUpToOrder(p: Policy, q: Policy) {
    && q == p.(originPins := q.originPins, trustData := q.trustData, quoteKinds := q.quoteKinds)
    && multiset(p.originPins) == multiset(q.originPins)
    && multiset(p.trustData) == multiset(q.trustData)
    && multiset(p.quoteKinds) == multiset(q.quoteKinds)
  }

  ghost predicate NoIdTwice(p: Policy) {
    Distinct(p.originPins, OriginId()) && Distinct(p.trustData, TrustId()) && Distinct(p.quoteKinds, KindRank())
  }

  lemma CanonicalIsAPermutation(p: Policy)
    ensures SameUpToOrder(p, Canonical(p))
  {
    SortKeeps(p.originPins, OriginId());
    SortKeeps(p.trustData, TrustId());
    SortKeeps(p.quoteKinds, KindRank());
  }

  lemma StillNoIdTwice(p: Policy, q: Policy)
    requires NoIdTwice(p) && SameUpToOrder(p, q)
    ensures NoIdTwice(q)
  {
    KeysStayDistinct(p.originPins, q.originPins, OriginId());
    KeysStayDistinct(p.trustData, q.trustData, TrustId());
    KeysStayDistinct(p.quoteKinds, q.quoteKinds, KindRank());
  }

  lemma RanksDiffer(s: seq<KindPolicy>)
    requires Distinct(s, KindId())
    ensures Distinct(s, KindRank())
  {
  }

  lemma KindsDiffer(s: seq<KindPolicy>)
    requires Distinct(s, KindRank())
    ensures Distinct(s, KindId())
  {
    forall i, j | 0 <= i < j < |s| ensures KindId()(s[i]) != KindId()(s[j]) {
      assert KindRank()(s[i]) != KindRank()(s[j]);
    }
  }

  /** The entries of a list by id. */
  ghost function Index<K, T>(s: seq<T>, id: T -> K): map<K, T>
    requires Injective(s, id)
  {
    map e | e in s :: id(e) := e
  }

  ghost predicate Injective<K, T>(s: seq<T>, id: T -> K) {
    forall x, y :: x in s && y in s && id(x) == id(y) ==> x == y
  }

  lemma DistinctIsInjective<K, T>(s: seq<T>, id: T -> K)
    requires Distinct(s, id)
    ensures Injective(s, id)
  {
    forall x, y | x in s && y in s && id(x) == id(y) ensures x == y {
      var i :| 0 <= i < |s| && s[i] == x;
      var j :| 0 <= j < |s| && s[j] == y;
    }
  }

  lemma IndexedIsIndex<K, T>(m: map<K, T>, s: seq<T>, id: T -> K)
    requires Indexes(m, s, id) && Injective(s, id)
    ensures m == Index(s, id)
  {
  }

  lemma CollectIsIndex<K, T>(s: seq<T>, id: T -> K, check: T -> Option<Error>, duplicate: Error)
    ensures Collect(s, id, check, duplicate).Ok? <==> (forall e :: e in s ==> check(e).None?) && Distinct(s, id)
    ensures Collect(s, id, check, duplicate).Ok? ==> Injective(s, id) && Collect(s, id, check, duplicate).value == Index(s, id)
  {
    CollectAccepts(s, id, check, duplicate);
    if Collect(s, id, check, duplicate).Ok? {
      DistinctIsInjective(s, id);
      IndexedIsIndex(Collect(s, id, check, duplicate).value, s, id);
    }
  }

  /** The lists' own maps, once no id repeats. */
  ghost predicate Indexable(p: Policy) {
    Injective(p.originPins, OriginId()) && Injective(p.trustData, TrustId()) && Injective(p.quoteKinds, KindId())
  }

  ghost function MapsOf(p: Policy): Maps
    requires Indexable(p)
  {
    Maps(Index(p.originPins, OriginId()), Index(p.trustData, TrustId()), Index(p.quoteKinds, KindId()))
  }

  /** Every entry of each list passes its own checks. */
  ghost predicate EntriesPass(env: Env, p: Policy)
    requires Indexable(p)
  {
    && (forall o :: o in p.originPins ==> OriginCheck(env)(o).None?)
    && (forall t :: t in p.trustData ==> TrustCheck(MapsOf(p).origins)(t).None?)
    && (forall e :: e in p.quoteKinds ==> KindCheck(MapsOf(p).trust)(e).None?)
  }

  lemma NoIdTwiceIsIndexable(p: Policy)
    requires NoIdTwice(p)
    ensures Indexable(p) && Distinct(p.quoteKinds, KindId())
  {
    DistinctIsInjective(p.originPins, OriginId());
    DistinctIsInjective(p.trustData, TrustId());
    KindsDiffer(p.quoteKinds);
    DistinctIsInjective(p.quoteKinds, KindId());
  }

  lemma CollectedExactly(env: Env, p: Policy)
    ensures Collected(env, p).Ok? <==> NoIdTwice(p) && Indexable(p) && EntriesPass(env, p)
    ensures Collected(env, p).Ok? ==> Collected(env, p).value == MapsOf(p)
  {
    if NoIdTwice(p) { NoIdTwiceIsIndexable(p); }
    CollectIsIndex(p.originPins, OriginId(), OriginCheck(env), DuplicateOrigin);
    var origins := Collect(p.originPins, OriginId(), OriginCheck(env), DuplicateOrigin);
    if origins.Ok? {
      CollectIsIndex(p.trustData, TrustId(), TrustCheck(origins.value), DuplicateTrustData);
      var trust := Collect(p.trustData, TrustId(), TrustCheck(origins.value), DuplicateTrustData);
      if trust.Ok? {
        CollectIsIndex(p.quoteKinds, KindId(), KindCheck(trust.value), DuplicateQuoteKind);
        if Distinct(p.quoteKinds, KindId()) { RanksDiffer(p.quoteKinds); }
      }
    }
  }

  lemma CheckedIsCollected(env: Env, p: Policy)
    requires Check(env, p).Ok?
    ensures Collected(env, p).Ok? && Check(env, p).value.policy == p && Check(env, p).value.digest == env.digest(p)
  {
  }

  /** A record that passes keeps its contents and its digest, and no id appears twice in it. */
  lemma CheckedRecord(env: Env, p: Policy)
    requires Check(env, p).Ok?
    ensures var v := Check(env, p).value;
            v.policy == p && v.digest == env.digest(p) && NoIdTwice(p)
  {
    CheckedIsCollected(env, p);
    CollectedExactly(env, p);
  }

  lemma SortsAlike(p: Policy, q: Policy)
    requires NoIdTwice(p) && SameUpToOrder(p, q)
    ensures Canonical(p) == Canonical(q)
  {
    PermutationsSortAlike(p.originPins, q.originPins, OriginId());
    PermutationsSortAlike(p.trustData, q.trustData, TrustId());
    PermutationsSortAlike(p.quoteKinds, q.quoteKinds, KindRank());
  }

  lemma AcceptedHasNoIdTwice(env: Env, p: Policy)
    requires Validate(env, p).Ok?
    ensures NoIdTwice(p)
  {
    CheckedRecord(env, Canonical(p));
    CanonicalIsAPermutation(p);
    StillNoIdTwice(Canonical(p), p);
  }

  /**
   * Reordering the three lists never changes acceptance, nor anything about an accepted record, its digest
   * included. With no id given twice it does not change the reported error either.
   */
  lemma OrderDoesNotMatter(env: Env, p: Policy, q: Policy)
    requires SameUpToOrder(p, q)
    ensures Validate(env, p).Ok? <==> Validate(env, q).Ok?
    ensures Validate(env, p).Ok? || NoIdTwice(p) ==> Validate(env, p) == Validate(env, q)
  {
    if Validate(env, p).Ok? { AcceptedHasNoIdTwice(env, p); }
    if Validate(env, q).Ok? {
      AcceptedHasNoIdTwice(env, q);
      StillNoIdTwice(q, p);
    }
    if NoIdTwice(p) { SortsAlike(p, q); }
  }

  // ---- exactly what is accepted ----

  /** Every kind is there, verifier files come in pairs, and every reference is closed. */
  predicate WellConnected(m: Maps) {
    && ALL_KINDS <= m.kinds.Keys && ManagedError(m.kinds, m.trust).None?
    && ClosureError(m.origins, m.trust, m.kinds).None?
  }

  /** What the three lists must satisfy, said of them as given. */
  ghost predicate Acceptable(env: Env, p: Policy) {
    NoIdTwice(p) && Indexable(p) && EntriesPass(env, p) && WellConnected(MapsOf(p))
  }

  lemma FinishesExactly(env: Env, p: Policy, m: Maps)
    ensures Finish(env, p, m.origins, m.trust, m.kinds).Ok? <==> WellConnected(m)
  {
  }

  lemma SameMembers<T>(s: seq<T>, t: seq<T>)
    requires multiset(s) == multiset(t)
    ensures forall e :: e in s <==> e in t
  {
    forall e ensures e in s <==> e in t {
      assert e in s <==> e in multiset(s);
      assert e in t <==> e in multiset(t);
    }
  }

  lemma SameIndex<K, T>(s: seq<T>, t: seq<T>, id: T -> K)
    requires Injective(s, id) && forall e :: e in s <==> e in t
    ensures Injective(t, id) && Index(s, id) == Index(t, id)
  {
    var m, n := Index(s, id), Index(t, id);
    forall k | k in m ensures k in n && m[k] == n[k] { }
    forall k | k in n ensures k in m { }
  }

  lemma SameMaps(p: Policy, q: Policy)
    requires SameUpToOrder(p, q) && Indexable(p)
    ensures Indexable(q) && MapsOf(p) == MapsOf(q)
  {
    SameMembers(p.originPins, q.originPins);
    SameMembers(p.trustData, q.trustData);
    SameMembers(p.quoteKinds, q.quoteKinds);
    SameIndex(p.originPins, q.originPins, OriginId());
    SameIndex(p.trustData, q.trustData, TrustId());
    SameIndex(p.quoteKinds, q.quoteKinds, KindId());
  }

  lemma SameEntriesPass(env: Env, p: Policy, q: Policy)
    requires SameUpToOrder(p, q) && Indexable(p) && Indexable(q) && MapsOf(p) == MapsOf(q) && EntriesPass(env, p)
    ensures EntriesPass(env, q)
  {
    SameMembers(p.originPins, q.originPins);
    SameMembers(p.trustData, q.trustData);
    SameMembers(p.quoteKinds, q.quoteKinds);
  }

  lemma AcceptableInAnyOrder(env: Env, p: Policy, q: Policy)
    requires SameUpToOrder(p, q) && Acceptable(env, p)
    ensures Acceptable(env, q)
  {
    StillNoIdTwice(p, q);
    SameMaps(p, q);
    SameEntriesPass(env, p, q);
  }

  lemma ChecksExactly(env: Env, c: Policy)
    ensures Check(env, c).Ok? <==> HeaderError(c).None? && Acceptable(env, c)
  {
    CollectedExactly(env, c);
    if Collected(env, c).Ok? { FinishesExactly(env, c, Collected(env, c).value); }
  }

  lemma OrderIsSymmetric(p: Policy, q: Policy)
    requires SameUpToOrder(p, q)
    ensures SameUpToOrder(q, p)
  {
  }

  lemma AcceptableEitherWay(env: Env, p: Policy, q: Policy)
    requires SameUpToOrder(p, q)
    ensures Acceptable(env, p) == Acceptable(env, q)
  {
    OrderIsSymmetric(p, q);
    if Acceptable(env, p) { AcceptableInAnyOrder(env, p, q); }
    if Acceptable(env, q) { AcceptableInAnyOrder(env, q, p); }
  }

  lemma SameHeader(p: Policy)
    ensures HeaderError(Canonical(p)) == HeaderError(p)
  {
  }

  /** A record is accepted exactly when its header is consistent and its lists, as given, are acceptable. */
  lemma AcceptedExactly(env: Env, p: Policy)
    ensures Validate(env, p).Ok? <==> HeaderError(p).None? && Acceptable(env, p)
  {
    CanonicalIsAPermutation(p);
    AcceptableEitherWay(env, p, Canonical(p));
    ChecksExactly(env, Canonical(p));
    SameHeader(p);
  }

  /** Validating what validation produced gives it back unchanged. */
  lemma ValidationIsIdempotent(env: Env, p: Policy)
    requires Validate(env, p).Ok?
    ensures Validate(env, Validate(env, p).value.policy) == Validate(env, p)
  {
    var c := Canonical(p);
    CheckedRecord(env, c);
    SortAscends(p.originPins, OriginId());
    SortAscends(p.trustData, TrustId());
    SortAscends(p.quoteKinds, KindRank());
    SortedStays(c.originPins, OriginId());
    SortedStays(c.trustData, TrustId());
    SortedStays(c.quoteKinds, KindRank());
    assert Canonical(c) == c;
  }

  // ---- what acceptance means ----

  lemma Finished(env: Env, p: Policy)
    requires Validate(env, p).Ok?
    ensures var v := Validate(env, p).value;
            && ALL_KINDS <= v.quoteKinds.Keys
            && ManagedError(v.quoteKinds, v.trustData).None?
            && ClosureError(v.origins, v.trustData, v.quoteKinds).None?
  {
  }

  lemma CollectedPasses<K, T>(s: seq<T>, id: T -> K, check: T -> Option<Error>, duplicate: Error, k: K)
    requires Collect(s, id, check, duplicate).Ok? && k in Collect(s, id, check, duplicate).value
    ensures var e := Collect(s, id, check, duplicate).value[k]; id(e) == k && check(e).None?
  {
    CollectAccepts(s, id, check, duplicate);
  }

  lemma TrustDataPasses(env: Env, p: Policy, id: text)
    requires Validate(env, p).Ok? && id in Validate(env, p).value.trustData
    ensures var v := Validate(env, p).value; v.trustData[id].id == id && TrustDataError(v.trustData[id], v.origins).None?
  {
    var v := Validate(env, p).value;
    CollectedPasses(v.policy.trustData, TrustId(), TrustCheck(v.origins), DuplicateTrustData, id);
  }

  lemma KindPasses(env: Env, p: Policy, k: Kind)
    requires Validate(env, p).Ok?
    ensures var v := Validate(env, p).value; k in v.quoteKinds && v.quoteKinds[k].kind == k && KindError(v.quoteKinds[k], v.trustData).None?
  {
    var v := Validate(env, p).value;
    assert k in ALL_KINDS;
    CollectedPasses(v.policy.quoteKinds, KindId(), KindCheck(v.trustData), DuplicateQuoteKind, k);
  }

  lemma PairedTargets(kinds: map<Kind, KindPolicy>, trust: map<text, TrustData>, k: Kind, target: text)
    ensures ManagedError(kinds, trust).None? && IsManagedKind(k) && target in Targets() ==> PairOk(kinds, trust, k, target)
  {
    assert k in ALL_KINDS;
  }

  /** Every source of an accepted record names one of its origins, and every origin is some source's. */
  lemma OriginsAreClosed(env: Env, p: Policy)
    requires Validate(env, p).Ok?
    ensures var v := Validate(env, p).value;
            && (forall id :: id in v.trustData && v.trustData[id].source.Some? ==> v.trustData[id].source.value.originPin in v.origins)
            && (forall id :: id in v.origins ==> IsUsed(v.trustData, id))
  {
    var v := Validate(env, p).value;
    Finished(env, p);
    forall id | id in v.trustData ensures TrustDataError(v.trustData[id], v.origins).None? { TrustDataPasses(env, p, id); }
  }

  /** Every kind has its entry, which requires only trust data of the record; all trust data is required or a verifier file. */
  lemma TrustDataIsClosed(env: Env, p: Policy)
    requires Validate(env, p).Ok?
    ensures var v := Validate(env, p).value;
            && v.quoteKinds.Keys == ALL_KINDS
            && (forall k :: k in v.quoteKinds ==> v.quoteKinds[k].kind == k && v.quoteKinds[k].requiredTrustData <= v.trustData.Keys)
            && (forall id :: id in v.trustData ==> Requires(v.quoteKinds, id) || IsManagedFile(v.trustData[id]))
  {
    var v := Validate(env, p).value;
    Finished(env, p);
    forall k ensures k in v.quoteKinds && k in ALL_KINDS && v.quoteKinds[k].kind == k && v.quoteKinds[k].requiredTrustData <= v.trustData.Keys {
      KindPasses(env, p, k);
    }
  }

  /** A kind's measurement list is exactly its required references of measurement kind; an enabled kind has an anchor. */
  lemma MeasurementsAreClassified(env: Env, p: Policy, k: Kind)
    requires Validate(env, p).Ok?
    ensures var v := Validate(env, p).value;
            && k in v.quoteKinds
            && var e := v.quoteKinds[k];
            && (forall id :: id in e.measurementTrustData <==>
                  id in e.requiredTrustData && id in v.trustData && v.trustData[id].kind == Measurement)
            && (e.enabled ==> exists id :: id in e.requiredTrustData && id in v.trustData && IsAnchor(v.trustData[id]))
  {
    KindPasses(env, p, k);
  }

  lemma ManagedIsCanonicallyNamed(t: TrustData)
    requires IsManagedFile(t)
    ensures var (k, target, role) := ParseManaged(t).value.value;
            t.id == ManagedId(k, target, role) && IsManagedKind(k) && target in Targets()
  {
    var parts := Split(t.id, DOT);
    JoinRestores(t.id, DOT);
    var (k, target, role) := ParseManaged(t).value.value;
    assert parts == [ManagedPrefix(), KindBytes(k), target, RoleName(role)];
  }

  /** Both files of the pair are there, their kind is enabled, and no kind requires this one. */
  predicate HasPartner(v: Validated, t: TrustData)
    requires IsManagedFile(t)
  {
    var (k, target, role) := ParseManaged(t).value.value;
    && ManagedId(k, target, Executable) in v.trustData && ManagedId(k, target, Manifest) in v.trustData
    && k in v.quoteKinds && v.quoteKinds[k].enabled && !Requires(v.quoteKinds, t.id)
  }

  /** In an accepted record a verifier file comes with its partner, for an enabled kind, and no kind requires it. */
  lemma VerifierFilesComeInPairs(env: Env, p: Policy, id: text)
    requires Validate(env, p).Ok?
    ensures var v := Validate(env, p).value;
            id in v.trustData && IsManagedFile(v.trustData[id]) ==> v.trustData[id].id == id && HasPartner(v, v.trustData[id])
  {
    var v := Validate(env, p).value;
    if id in v.trustData && IsManagedFile(v.trustData[id]) {
      TrustDataPasses(env, p, id);
      Finished(env, p);
      ManagedIsCanonicallyNamed(v.trustData[id]);
      var (k, target, role) := ParseManaged(v.trustData[id]).value.value;
      PairedTargets(v.quoteKinds, v.trustData, k, target);
      TrustDataPasses(env, p, ManagedId(k, target, role));
    }
  }

  // ---- records without trust data ----

  predicate IsOff(e: KindPolicy) {
    && !e.enabled && ProfileKind(e.profile) == e.kind && e.requiredTrustData == {} && e.measurementTrustData == {}
    && forall p :: p in e.platforms ==> ValidIdentifier(p)
  }

  lemma OffMeans(e: KindPolicy)
    ensures KindError(e, map[]).None? <==> IsOff(e)
  {
    if e.requiredTrustData <= {} { assert e.requiredTrustData == {}; }
    if e.measurementTrustData != {} && e.requiredTrustData == {} {
      var id :| id in e.measurementTrustData;
      assert id !in e.requiredTrustData;
    }
  }

  lemma NothingManaged(kinds: map<Kind, KindPolicy>)
    ensures ManagedError(kinds, map[]).None?
  {
    forall k, target ensures PairOk(kinds, map[], k, target) { }
  }

  predicate Lists(s: seq<KindPolicy>, k: Kind) {
    exists e :: e in s && e.kind == k
  }

  ghost predicate ListsEveryKind(s: seq<KindPolicy>) {
    forall k: Kind :: Lists(s, k)
  }

  /** Every kind is listed, none twice, and each is off. */
  ghost predicate OffList(s: seq<KindPolicy>) {
    (forall e :: e in s ==> IsOff(e)) && Distinct(s, KindRank()) && ListsEveryKind(s)
  }

  lemma IndexListsKinds(s: seq<KindPolicy>)
    requires Injective(s, KindId())
    ensures ALL_KINDS <= Index(s, KindId()).Keys <==> ListsEveryKind(s)
  {
    var m := Index(s, KindId());
    forall k ensures k in m <==> Lists(s, k) {
      if Lists(s, k) {
        var e :| e in s && e.kind == k;
        assert KindId()(e) == k;
      }
    }
    forall k: Kind ensures k in ALL_KINDS { EveryKind(k); }
  }

  lemma AcceptableWithoutTrustData(env: Env, p: Policy)
    requires p.originPins == [] && p.trustData == [] && NoIdTwice(p)
    ensures Acceptable(env, p) <==> OffList(p.quoteKinds)
  {
    NoIdTwiceIsIndexable(p);
    IndexListsKinds(p.quoteKinds);
    var m := MapsOf(p);
    assert m.origins == map[] && m.trust == map[];
    NothingManaged(m.kinds);
    forall e ensures KindCheck(map[])(e).None? <==> IsOff(e) { OffMeans(e); }
  }

  /** Without trust data a record is accepted exactly when it lists every kind once and disables them all. */
  lemma WithoutTrustDataNothingIsEnabled(env: Env, p: Policy)
    requires p.originPins == [] && p.trustData == []
    ensures Validate(env, p).Ok? <==> HeaderError(p).None? && OffList(p.quoteKinds)
  {
    AcceptedExactly(env, p);
    if NoIdTwice(p) { AcceptableWithoutTrustData(env, p); }
  }
}
