/** The wire types shared by policies, routes and evidence. */
module Proto {
  import opened Wrappers
  import opened Texts

  const U32_LIMIT: nat := 0x1_0000_0000
  const U64_LIMIT: nat := 0x1_0000_0000_0000_0000

  type u32 = n: int | 0 <= n < U32_LIMIT
  type u64 = n: int | 0 <= n < U64_LIMIT

  datatype Kind =
    | AppleAppAttestJwt | AmdSevSnpVcek | IntelTdxDcap | NvidiaGb10DeviceJwt
    | NvidiaNrasJwt | NvidiaNvtrustOfflineJwt | Tpm2QuoteEk

  function KindName(k: Kind): string {
    match k
    case AppleAppAttestJwt => "apple_app_attest_jwt"
    case AmdSevSnpVcek => "amd_sev_snp_vcek"
    case IntelTdxDcap => "intel_tdx_dcap"
    case NvidiaGb10DeviceJwt => "nvidia_gb10_device_jwt"
    case NvidiaNrasJwt => "nvidia_nras_jwt"
    case NvidiaNvtrustOfflineJwt => "nvidia_nvtrust_offline_jwt"
    case Tpm2QuoteEk => "tpm2_quote_ek"
  }

  function KindBytes(k: Kind): text { Ascii(KindName(k)) }

  const ALL_KINDS: set<Kind> := {
    AppleAppAttestJwt, AmdSevSnpVcek, IntelTdxDcap, NvidiaGb10DeviceJwt, NvidiaNrasJwt, NvidiaNvtrustOfflineJwt, Tpm2QuoteEk
  }

  lemma EveryKind(k: Kind)
    ensures k in ALL_KINDS
  {
    match k { case AppleAppAttestJwt => case _ => }
  }

  /** Position in declaration order, which is the order of the kinds. */
  function Rank(k: Kind): nat {
    match k
    case AppleAppAttestJwt => 0
    case AmdSevSnpVcek => 1
    case IntelTdxDcap => 2
    case NvidiaGb10DeviceJwt => 3
    case NvidiaNrasJwt => 4
    case NvidiaNvtrustOfflineJwt => 5
    case Tpm2QuoteEk => 6
  }

  /** The kinds of the confidential-compute tier. */
  predicate IsTier3(k: Kind) {
    k in {AmdSevSnpVcek, IntelTdxDcap, NvidiaNrasJwt, NvidiaNvtrustOfflineJwt}
  }

  /** No two quote kinds have names of one length. */
  lemma KindNamesDiffer(k: Kind, l: Kind)
    requires KindBytes(k) == KindBytes(l)
    ensures k == l
  {
    assert |KindBytes(k)| == |KindName(k)| && |KindBytes(l)| == |KindName(l)|;
  }

  /** The route commitment a binding is made for. */
  datatype Route = Route(
    enclaveId: text, deviceId: text, kind: Kind, evidenceSchemaVersion: u32, policySequence: u64,
    policyDigest: text, platform: Option<text>)
}
