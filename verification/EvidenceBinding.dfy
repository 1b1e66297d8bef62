/**
 The evidence-binding digest: different valid bindings feed different bytes to the hash.
 */
module EvidenceBinding {
  import opened Wrappers
  import opened ByteSeq
  import opened Texts
  import opened Proto

  const DOMAIN: string := "mayhem-attestation-evidence-binding-v1"
  const BINDING_VERSION: nat := 1
  datatype Binding = Binding(
    kind: Kind, evidenceSchemaVersion: u32, policySequence: u64, policyDigest: text, platform: Option<text>,
    nonce: text, enclaveId: text, deviceId: text, quoteBinding: text)

  datatype Error = InvalidDigest | InvalidIdentity | InvalidEvidenceSchemaVersion | InvalidPolicySequence | PolicyIdentityMismatch

  predicate ValidIdentity(s: text) {
    0 < |s| <= 512 && forall i :: 0 <= i < |s| ==> 33 <= s[i] <= 126
  }

  function Validate(b: Binding): Result<(), Error> {
    if b.evidenceSchemaVersion == 0 then Err(InvalidEvidenceSchemaVersion)
    else if b.policySequence == 0 then Err(InvalidPolicySequence)
    else if !ValidSha256(b.policyDigest) || !ValidSha256(b.nonce) || !ValidSha256(b.deviceId) || !ValidSha256(b.quoteBinding)
      then Err(InvalidDigest)
    else if !ValidIdentity(b.enclaveId) || (b.platform.Some? && !ValidIdentity(b.platform.value)) then Err(InvalidIdentity)
    else Ok(())
  }

  function NewBinding(route: Route, nonce: text, enclaveId: text, deviceId: text, quoteBinding: text): Result<Binding, Error> {
    if enclaveId != route.enclaveId || deviceId != route.deviceId then Err(PolicyIdentityMismatch)
    else
      var b := Binding(route.kind, route.evidenceSchemaVersion, route.policySequence, route.policyDigest, route.platform,
                       nonce, enclaveId, deviceId, quoteBinding);
      match Validate(b)
      case Err(e) => Err(e)
      case Ok(_) => Ok(b)
  }

  // ---- the bytes fed to the hash ----

  /** One field: its length as eight bytes, then its bytes. */
  function Field(value: text): seq<byte> { ToBigEndian(|value|, 8) + value }

  function Platform(b: Binding): text { if b.platform.Some? then b.platform.value else [] }

  function Fields(b: Binding): seq<text> {
    [Ascii(DOMAIN), ToBigEndian(BINDING_VERSION, 4), KindBytes(b.kind),
     ToBigEndian(b.evidenceSchemaVersion, 4), ToBigEndian(b.policySequence, 8),
     b.policyDigest, Platform(b), b.nonce, b.enclaveId, b.deviceId, b.quoteBinding]
  }

  function Preimage(fields: seq<text>): seq<byte> {
    if fields == [] then [] else Field(fields[0]) + Preimage(fields[1..])
  }

  lemma {:induction false} PreimageSnoc(fields: seq<text>, value: text)
    ensures Preimage(fields + [value]) == Preimage(fields) + Field(value)
  {
    if fields == [] {
      assert fields + [value] == [value] && [value][1..] == [];
    } else {
      PreimageSnoc(fields[1..], value);
      assert (fields + [value])[1..] == fields[1..] + [value];
    }
  }

  /** The hash state is what it has been fed. */
  class HashState {
    var fed: seq<byte>
    ghost var fields: seq<text>

    ghost predicate Valid()
      reads this
    {
      fed == Preimage(fields)
    }

    constructor ()
      ensures Valid() && fields == []
    {
      fed, fields := [], [];
    }

    method UpdateField(value: text)
      requires Valid()
      modifies this
      ensures Valid() && fields == old(fields) + [value]
    {
      PreimageSnoc(fields, value);
      var prefix := ToBigEndian(|value|, 8);
      FedInTwo(fed, prefix, value);
      fed := fed + prefix;
      fed := fed + value;
      fields := fields + [value];
    }

    /** Domain, version, kind, schema and sequence. */
    method UpdatePolicy(b: Binding)
      requires Valid() && fields == []
      modifies this
      ensures Valid() && fields == Fields(b)[..5]
    {
      UpdateField(Ascii(DOMAIN));
      UpdateField(ToBigEndian(BINDING_VERSION, 4));
      UpdateField(KindBytes(b.kind));
      UpdateField(ToBigEndian(b.evidenceSchemaVersion, 4));
      UpdateField(ToBigEndian(b.policySequence, 8));
    }
  }

  lemma FedInTwo(fed: seq<byte>, prefix: seq<byte>, value: seq<byte>)
    ensures fed + prefix + value == fed + (prefix + value)
  {
  }

  method Digest(b: Binding, sha256: seq<byte> -> seq<byte>) returns (r: Result<seq<byte>, Error>)
    ensures Validate(b).Err? ==> r == Err(Validate(b).error)
    ensures Validate(b).Ok? ==> r == Ok(sha256(Preimage(Fields(b))))
  {
    if Validate(b).Err? { return Err(Validate(b).error); }
    var hash := new HashState();
    hash.UpdatePolicy(b);
    hash.UpdateField(b.policyDigest);
    hash.UpdateField(Platform(b));
    hash.UpdateField(b.nonce);
    hash.UpdateField(b.enclaveId);
    hash.UpdateField(b.deviceId);
    hash.UpdateField(b.quoteBinding);
    assert hash.fields == Fields(b);
    return Ok(sha256(hash.fed));
  }

  // ---- injectivity ----

  predicate Short(s: text) { |s| < U64_LIMIT }

  lemma PowLimits()
    ensures Pow256(4) == U32_LIMIT && Pow256(8) == U64_LIMIT
  {
    assert Pow256(2) == 65536;
    assert Pow256(6) == 0x1_0000_0000_0000;
  }

  lemma FieldSplits(x: text, r: seq<byte>, y: text, s: seq<byte>)
    requires Short(x) && Short(y) && Field(x) + r == Field(y) + s
    ensures x == y && r == s
  {
    PowLimits();
    var a, b := ToBigEndian(|x|, 8), ToBigEndian(|y|, 8);
    var whole := Field(x) + r;
    assert whole[..8] == a && whole[..8] == b;
    ToBigEndianInjective(|x|, |y|, 8);
    assert whole[8..8 + |x|] == x && whole[8..8 + |y|] == y;
    assert whole[8 + |x|..] == r && whole[8 + |y|..] == s;
  }

  /** Length-prefixed lists of the same length are determined by their concatenation. */
  lemma {:induction false} PreimageInjective(f: seq<text>, g: seq<text>)
    requires |f| == |g| && Preimage(f) == Preimage(g)
    requires forall i :: 0 <= i < |f| ==> Short(f[i]) && Short(g[i])
    ensures f == g
  {
    if f != [] {
      FieldSplits(f[0], Preimage(f[1..]), g[0], Preimage(g[1..]));
      PreimageInjective(f[1..], g[1..]);
      assert f == [f[0]] + f[1..] && g == [g[0]] + g[1..];
    }
  }

  predicate AllShort(b: Binding) {
    Short(b.policyDigest) && Short(Platform(b)) && Short(b.nonce) && Short(b.enclaveId) && Short(b.deviceId) && Short(b.quoteBinding)
  }

  lemma FieldsShort(b: Binding)
    requires AllShort(b)
    ensures forall i :: 0 <= i < |Fields(b)| ==> Short(Fields(b)[i])
  {
    assert |Ascii(DOMAIN)| == |DOMAIN| && |KindBytes(b.kind)| == |KindName(b.kind)|;
  }

  lemma SameFields(a: Binding, b: Binding)
    requires Fields(a) == Fields(b)
    ensures a == b.(platform := a.platform) && Platform(a) == Platform(b)
  {
    PowLimits();
    var f, g := Fields(a), Fields(b);
    assert f[2] == g[2] && f[3] == g[3] && f[4] == g[4] && f[5] == g[5] && f[6] == g[6] && f[7] == g[7];
    assert f[8] == g[8] && f[9] == g[9] && f[10] == g[10];
    KindNamesDiffer(a.kind, b.kind);
    ToBigEndianInjective(a.evidenceSchemaVersion, b.evidenceSchemaVersion, 4);
    ToBigEndianInjective(a.policySequence, b.policySequence, 8);
  }

  /** Without validation the only bindings that share their bytes are an absent and an empty platform. */
  lemma CollideOnlyOnEmptyPlatform(a: Binding, b: Binding)
    requires AllShort(a) && AllShort(b)
    ensures Preimage(Fields(a)) == Preimage(Fields(b)) <==> a == b.(platform := a.platform) && Platform(a) == Platform(b)
  {
    if Preimage(Fields(a)) == Preimage(Fields(b)) {
      FieldsShort(a);
      FieldsShort(b);
      PreimageInjective(Fields(a), Fields(b));
      SameFields(a, b);
    }
  }

  /** Two valid bindings that differ in any field, absent platform against present included, feed the hash different bytes. */
  lemma ValidBindingsHashApart(a: Binding, b: Binding)
    requires Validate(a).Ok? && Validate(b).Ok?
    ensures Preimage(Fields(a)) == Preimage(Fields(b)) <==> a == b
  {
    CollideOnlyOnEmptyPlatform(a, b);
  }

  /** The digest pins the whole route commitment, for a hash that does not collide on the two inputs. */
  lemma DigestPinsTheRoute(r: Route, s: Route, nonce: text, quote: text, nonce': text, quote': text,
                           sha256: seq<byte> -> seq<byte>)
    requires NewBinding(r, nonce, r.enclaveId, r.deviceId, quote).Ok?
    requires NewBinding(s, nonce', s.enclaveId, s.deviceId, quote').Ok?
    ensures var a, b := NewBinding(r, nonce, r.enclaveId, r.deviceId, quote).value,
                        NewBinding(s, nonce', s.enclaveId, s.deviceId, quote').value;
            var x, y := Preimage(Fields(a)), Preimage(Fields(b));
            (sha256(x) == sha256(y) ==> x == y) ==>
              (sha256(x) == sha256(y) <==> r == s && nonce == nonce' && quote == quote')
  {
    var a := NewBinding(r, nonce, r.enclaveId, r.deviceId, quote).value;
    var b := NewBinding(s, nonce', s.enclaveId, s.deviceId, quote').value;
    ValidBindingsHashApart(a, b);
  }
}
