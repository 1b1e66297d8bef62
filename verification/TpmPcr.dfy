/**
 TPM quotes: the reader accepts exactly one layout of TPMS_ATTEST (section 10.12 of TPM 2.0
 Library Part 2), and the PCR verdict is about the index-to-digest map, not about the order
 in which values are supplied.
 */
module TpmPcr {
  import opened Wrappers
  import opened ByteSeq
  import opened UniqueMap
  import opened Texts

  const TPM_GENERATED_VALUE: nat := 0xff54_4347
  const TPM_ST_ATTEST_QUOTE: nat := 0x8018
  const TPM_ALG_SHA256: nat := 0x000b
  const TPM_MAX_PCR_INDEX: nat := 23
  const PCR_SELECT_BYTES: nat := 3

  datatype Error = Truncated | InvalidAttestation | InvalidAkName | PcrSelectionMismatch | InvalidPcrValues | PcrDigestMismatch

  // ---- the reader ----

  class TpmReader {
    const input: seq<byte>
    var offset: nat

    ghost predicate Valid()
      reads this
    {
      offset <= |input|
    }

    constructor (input: seq<byte>)
      ensures Valid() && this.input == input && offset == 0
    {
      this.input, offset := input, 0;
    }

    method Take(length: nat) returns (r: Result<seq<byte>, Error>)
      requires Valid()
      modifies this
      ensures Valid()
      ensures r.Ok? <==> old(offset) + length <= |input|
      ensures r.Ok? ==> offset == old(offset) + length && r.value == input[old(offset)..offset]
      ensures r.Err? ==> offset == old(offset)
    {
      if offset + length > |input| { return Err(Truncated); }
      var from := offset;
      offset := offset + length;
      return Ok(input[from..offset]);
    }

    /** `u8`, `u16` and `u32`: a big-endian number of `width` bytes. */
    method Number(width: nat) returns (r: Result<nat, Error>)
      requires Valid()
      modifies this
      ensures Valid()
      ensures r.Ok? <==> old(offset) + width <= |input|
      ensures r.Ok? ==> offset == old(offset) + width && r.value == FromBigEndian(input[old(offset)..offset])
    {
      var bytes := Take(width);
      if bytes.Err? { return Err(bytes.error); }
      return Ok(FromBigEndian(bytes.value));
    }

    /** A two-byte length in the accepted range, then that many bytes. */
    method Tpm2b(low: nat, high: nat) returns (r: Result<seq<byte>, Error>)
      requires Valid()
      modifies this
      ensures Valid()
      ensures r.Ok? <==> old(offset) + 2 <= |input|
                         && low <= FromBigEndian(input[old(offset)..old(offset) + 2]) <= high
                         && old(offset) + 2 + FromBigEndian(input[old(offset)..old(offset) + 2]) <= |input|
      ensures r.Ok? ==> offset == old(offset) + 2 + FromBigEndian(input[old(offset)..old(offset) + 2])
                        && r.value == input[old(offset) + 2..offset]
    {
      var length := Number(2);
      if length.Err? { return Err(length.error); }
      if !(low <= length.value <= high) { return Err(InvalidAttestation); }
      r := Take(length.value);
    }
  }

  // ---- the quote ----

  datatype Quote = Quote(extraData: seq<byte>, selectedPcrs: set<nat>, pcrDigest: seq<byte>)

  predicate Bit(b: byte, k: nat) { (b / [1, 2, 4, 8, 16, 32, 64, 128][k % 8]) % 2 == 1 }

  /** The PCR indices a three-byte bitmap selects. */
  predicate Selects(bitmap: seq<byte>, k: nat)
    requires |bitmap| == PCR_SELECT_BYTES
  {
    k < 24 && Bit(bitmap[k / 8], k % 8)
  }

  ghost predicate SelectsSome(bitmap: seq<byte>)
    requires |bitmap| == PCR_SELECT_BYTES
  {
    exists k: nat :: Selects(bitmap, k)
  }

  function At(s: seq<byte>, from: nat, width: nat): nat
    requires from + width <= |s|
  {
    FromBigEndian(s[from..from + width])
  }

  /** The signer name is 34 bytes that start with the SHA-256 algorithm id. */
  predicate HeadOk(s: seq<byte>) {
    && |s| >= 44
    && At(s, 0, 4) == TPM_GENERATED_VALUE && At(s, 4, 2) == TPM_ST_ATTEST_QUOTE
    && At(s, 6, 2) == 34 && At(s, 8, 2) == TPM_ALG_SHA256
  }

  /** Clock, firmware and the one SHA-256 bank after `extra` bytes of extra data. */
  ghost predicate BodyOk(s: seq<byte>, extra: nat) {
    && extra <= 64 && |s| == 113 + extra
    && s[60 + extra] <= 1
    && At(s, 69 + extra, 4) == 1 && At(s, 73 + extra, 2) == TPM_ALG_SHA256 && s[75 + extra] == PCR_SELECT_BYTES
    && SelectsSome(s[76 + extra..79 + extra])
    && At(s, 79 + extra, 2) == 32
  }

  /** The one layout a quote may have, by byte position. */
  ghost predicate IsQuote(s: seq<byte>) {
    HeadOk(s) && BodyOk(s, At(s, 42, 2))
  }

  ghost predicate IsQuoteOf(s: seq<byte>, q: Quote)
    requires IsQuote(s)
  {
    var extra := At(s, 42, 2);
    && q.extraData == s[44..44 + extra]
    && (forall k: nat :: k in q.selectedPcrs <==> Selects(s[76 + extra..79 + extra], k))
    && q.pcrDigest == s[81 + extra..]
  }

  method SelectedPcrs(bitmap: seq<byte>) returns (selected: set<nat>)
    requires |bitmap| == PCR_SELECT_BYTES
    ensures forall k: nat :: k in selected <==> Selects(bitmap, k)
  {
    selected := {};
    for i := 0 to |bitmap|
      invariant forall k: nat :: k in selected <==> k < 8 * i && Selects(bitmap, k)
    {
      for bit := 0 to 8
        invariant forall k: nat :: k in selected <==> k < 8 * i + bit && Selects(bitmap, k)
      {
        assert (8 * i + bit) / 8 == i && (8 * i + bit) % 8 == bit;
        if Bit(bitmap[i], bit) { selected := selected + {8 * i + bit}; }
      }
    }
  }

  lemma OneByte(s: seq<byte>, i: nat)
    requires i < |s|
    ensures FromBigEndian(s[i..i + 1]) == s[i]
  {
    assert s[i..i + 1] == [s[i]] && [s[i]][..0] == [];
  }

  /** The part up to the extra data. */
  method ReadHead(reader: TpmReader) returns (r: Result<seq<byte>, Error>)
    requires reader.Valid() && reader.offset == 0
    modifies reader
    ensures reader.Valid()
    ensures r.Ok? <==> HeadOk(reader.input) && At(reader.input, 42, 2) <= 64 && 44 + At(reader.input, 42, 2) <= |reader.input|
    ensures r.Ok? ==> reader.offset == 44 + At(reader.input, 42, 2) && r.value == reader.input[44..reader.offset]
  {
    var magic := reader.Number(4);
    if magic.Err? { return Err(Truncated); }
    if magic.value != TPM_GENERATED_VALUE { return Err(InvalidAttestation); }
    var kind := reader.Number(2);
    if kind.Err? { return Err(Truncated); }
    if kind.value != TPM_ST_ATTEST_QUOTE { return Err(InvalidAttestation); }
    var signer := reader.Tpm2b(0, 128);
    if signer.Err? { return Err(signer.error); }
    if |signer.value| != 34 || FromBigEndian(signer.value[..2]) != TPM_ALG_SHA256 {
      assert |signer.value| == 34 ==> signer.value[..2] == reader.input[8..10];
      return Err(InvalidAkName);
    }
    assert signer.value[..2] == reader.input[8..10];
    r := reader.Tpm2b(0, 64);
  }

  /** The part after the extra data. */
  method ReadBody(reader: TpmReader, ghost extra: nat) returns (r: Result<(set<nat>, seq<byte>), Error>)
    requires reader.Valid() && reader.offset == 44 + extra && extra <= 64
    modifies reader
    ensures r.Ok? <==> BodyOk(reader.input, extra)
    ensures r.Ok? ==> (forall k: nat :: k in r.value.0 <==> Selects(reader.input[76 + extra..79 + extra], k))
                      && r.value.1 == reader.input[81 + extra..]
  {
    ghost var s := reader.input;
    var clock := reader.Take(16);
    if clock.Err? { return Err(Truncated); }
    var safe := reader.Number(1);
    if safe.Err? { return Err(Truncated); }
    OneByte(s, 60 + extra);
    if safe.value > 1 { return Err(InvalidAttestation); }
    var firmware := reader.Take(8);
    if firmware.Err? { return Err(Truncated); }
    var count := reader.Number(4);
    if count.Err? { return Err(Truncated); }
    if count.value != 1 { return Err(InvalidAttestation); }
    var bank := reader.Number(2);
    if bank.Err? { return Err(Truncated); }
    if bank.value != TPM_ALG_SHA256 { return Err(InvalidAttestation); }
    r := ReadSelection(reader, extra);
  }

  method ReadSelection(reader: TpmReader, ghost extra: nat) returns (r: Result<(set<nat>, seq<byte>), Error>)
    requires reader.Valid() && reader.offset == 75 + extra
    modifies reader
    ensures r.Ok? <==> |reader.input| == 113 + extra && reader.input[75 + extra] == PCR_SELECT_BYTES
                       && SelectsSome(reader.input[76 + extra..79 + extra]) && At(reader.input, 79 + extra, 2) == 32
    ensures r.Ok? ==> (forall k: nat :: k in r.value.0 <==> Selects(reader.input[76 + extra..79 + extra], k))
                      && r.value.1 == reader.input[81 + extra..]
  {
    var size := reader.Number(1);
    if size.Err? { return Err(Truncated); }
    OneByte(reader.input, 75 + extra);
    if size.value != PCR_SELECT_BYTES { return Err(InvalidAttestation); }
    var bitmap := reader.Take(size.value);
    if bitmap.Err? { return Err(Truncated); }
    var selected := SelectedPcrs(bitmap.value);
    if selected == {} {
      assert forall k: nat :: !Selects(bitmap.value, k);
      return Err(InvalidAttestation);
    }
    ghost var k :| k in selected;
    assert Selects(bitmap.value, k);
    var digest := reader.Tpm2b(32, 32);
    if digest.Err? { return Err(digest.error); }
    if reader.offset != |reader.input| { return Err(InvalidAttestation); }
    return Ok((selected, digest.value));
  }

  /** The sequential reader accepts exactly the layout, and returns the fields at their positions. */
  method ParseQuoteAttestation(input: seq<byte>) returns (r: Result<Quote, Error>)
    ensures r.Ok? <==> IsQuote(input)
    ensures r.Ok? ==> IsQuoteOf(input, r.value)
  {
    var reader := new TpmReader(input);
    var extra := ReadHead(reader);
    if extra.Err? { return Err(extra.error); }
    var body := ReadBody(reader, At(input, 42, 2));
    if body.Err? { return Err(body.error); }
    return Ok(Quote(extra.value, body.value.0, body.value.1));
  }

  /** Bytes determine what is quoted: no two quotes share an encoding. */
  lemma QuoteIsDetermined(s: seq<byte>, p: Quote, q: Quote)
    requires IsQuote(s) && IsQuoteOf(s, p) && IsQuoteOf(s, q)
    ensures p == q
  {
    assert p.selectedPcrs == q.selectedPcrs;
  }

  // ---- the values ----

  datatype PcrValue = PcrValue(index: nat, digest: seq<byte>)

  function Nibble(c: byte): (n: nat)
    requires IsHex(c)
    ensures n < 16
  {
    if c <= 57 then c - 48 else c - 87
  }

  function HexDecode(s: seq<byte>): (r: seq<byte>)
    requires |s| % 2 == 0 && forall i :: 0 <= i < |s| ==> IsHex(s[i])
    ensures |r| == |s| / 2
  {
    if s == [] then [] else [16 * Nibble(s[0]) + Nibble(s[1])] + HexDecode(s[2..])
  }

  lemma {:induction false} HexDecodeInjective(s: seq<byte>, t: seq<byte>)
    requires |s| % 2 == 0 && |t| % 2 == 0
    requires (forall i :: 0 <= i < |s| ==> IsHex(s[i])) && (forall i :: 0 <= i < |t| ==> IsHex(t[i]))
    requires HexDecode(s) == HexDecode(t)
    ensures s == t
  {
    if s != [] {
      var a, b := HexDecode(s), HexDecode(t);
      assert a[0] == b[0];
      assert a[1..] == HexDecode(s[2..]) && b[1..] == HexDecode(t[2..]);
      HexDecodeInjective(s[2..], t[2..]);
      assert s == [s[0], s[1]] + s[2..] && t == [t[0], t[1]] + t[2..];
    }
  }

  predicate ValueOk(v: PcrValue) { v.index <= TPM_MAX_PCR_INDEX && ValidSha256(v.digest) }

  function DigestBytes(v: PcrValue): seq<byte> {
    if ValidSha256(v.digest) then HexDecode(v.digest) else []
  }

  lemma DigestBytesInjective(v: PcrValue, w: PcrValue)
    requires ValueOk(v) && ValueOk(w) && v.index == w.index && DigestBytes(v) == DigestBytes(w)
    ensures v == w
  {
    HexDecodeInjective(v.digest, w.digest);
  }

  /** The map built value by value, or nothing once a value is malformed or repeated. */
  function Observe(values: seq<PcrValue>): Option<map<nat, seq<byte>>> {
    if values == [] then Some(map[])
    else
      var v := values[|values| - 1];
      match Observe(values[..|values| - 1])
      case None => None
      case Some(m) => if !ValueOk(v) || v.index in m then None else Some(m[v.index := DigestBytes(v)])
  }

  /** `BTreeMap::values`: ascending by index. */
  function Concatenated(m: map<nat, seq<byte>>, upTo: nat): seq<byte> {
    if upTo == 0 then [] else Concatenated(m, upTo - 1) + (if upTo - 1 in m then m[upTo - 1] else [])
  }

  function VerifyPcrs(q: Quote, values: seq<PcrValue>, policy: set<nat>, sha256: seq<byte> -> seq<byte>): Result<(), Error> {
    if q.selectedPcrs != policy then Err(PcrSelectionMismatch)
    else match Observe(values)
      case None => Err(InvalidPcrValues)
      case Some(m) =>
        if m.Keys != policy then Err(InvalidPcrValues)
        else if sha256(Concatenated(m, TPM_MAX_PCR_INDEX + 1)) != q.pcrDigest then Err(PcrDigestMismatch)
        else Ok(())
  }

  /** The loop over supplied values. */
  method CheckPcrs(q: Quote, values: seq<PcrValue>, policy: set<nat>, sha256: seq<byte> -> seq<byte>)
    returns (r: Result<(), Error>)
    ensures r == VerifyPcrs(q, values, policy, sha256)
  {
    if q.selectedPcrs != policy { return Err(PcrSelectionMismatch); }
    var observed: map<nat, seq<byte>> := map[];
    for i := 0 to |values|
      invariant Observe(values[..i]) == Some(observed)
    {
      assert values[..i + 1][..i] == values[..i];
      var v := values[i];
      if !ValueOk(v) || v.index in observed {
        ObserveFails(values, i + 1);
        return Err(InvalidPcrValues);
      }
      observed := observed[v.index := DigestBytes(v)];
    }
    assert values[..|values|] == values;
    if observed.Keys != policy { return Err(InvalidPcrValues); }
    var concatenated := [];
    for k := 0 to TPM_MAX_PCR_INDEX + 1
      invariant concatenated == Concatenated(observed, k)
    {
      if k in observed { concatenated := concatenated + observed[k]; }
    }
    if sha256(concatenated) != q.pcrDigest { return Err(PcrDigestMismatch); }
    return Ok(());
  }

  lemma {:induction false} ObserveFails(values: seq<PcrValue>, i: nat)
    requires i <= |values| && Observe(values[..i]).None?
    ensures Observe(values).None?
    decreases |values| - i
  {
    if i < |values| {
      assert values[..i + 1][..i] == values[..i];
      ObserveFails(values, i + 1);
    } else {
      assert values[..i] == values;
    }
  }

  // ---- order does not matter ----

  function Pairs(values: seq<PcrValue>): seq<(nat, seq<byte>)> {
    seq(|values|, i requires 0 <= i < |values| => (values[i].index, DigestBytes(values[i])))
  }

  ghost predicate AllOk(values: seq<PcrValue>) {
    forall v :: v in values ==> ValueOk(v)
  }

  /** Validating while inserting is validating all, then inserting all. */
  lemma {:induction false} ObserveBuilds(values: seq<PcrValue>)
    ensures Observe(values) == if AllOk(values) then Build(Pairs(values)) else None
  {
    if values != [] {
      var h := values[..|values| - 1];
      ObserveBuilds(h);
      assert values == h + [values[|values| - 1]];
      assert Pairs(values)[..|values| - 1] == Pairs(h);
    }
  }

  lemma PairsAre(values: seq<PcrValue>, p: (nat, seq<byte>))
    ensures p in Pairs(values) <==> exists v :: v in values && p == (v.index, DigestBytes(v))
  {
    if p in Pairs(values) {
      var i :| 0 <= i < |values| && Pairs(values)[i] == p;
      assert values[i] in values;
    }
    if v :| v in values && p == (v.index, DigestBytes(v)) {
      var i :| 0 <= i < |values| && values[i] == v;
      assert Pairs(values)[i] == p;
    }
  }

  /** Supplying the same values in another order gives the same verdict, error for error. */
  lemma OrderDoesNotMatter(q: Quote, a: seq<PcrValue>, b: seq<PcrValue>, policy: set<nat>, sha256: seq<byte> -> seq<byte>)
    requires multiset(a) == multiset(b)
    ensures VerifyPcrs(q, a, policy, sha256) == VerifyPcrs(q, b, policy, sha256)
  {
    assert |a| == |multiset(a)| == |b|;
    forall v ensures v in a <==> v in b { assert v in a <==> v in multiset(a); assert v in b <==> v in multiset(b); }
    ObserveBuilds(a);
    ObserveBuilds(b);
    forall p ensures p in Pairs(a) <==> p in Pairs(b) { PairsAre(a, p); PairsAre(b, p); }
    BuildIgnoresOrder(Pairs(a), Pairs(b));
  }

  // ---- what acceptance means ----

  /** The map `m` holds the digest of every value under its index, and nothing else. */
  ghost predicate Holds(m: map<nat, seq<byte>>, values: seq<PcrValue>) {
    && |m| == |values|
    && (forall v :: v in values ==> ValueOk(v) && v.index in m && m[v.index] == DigestBytes(v))
    && (forall k :: k in m ==> exists v :: v in values && v.index == k)
  }

  lemma ObservedHolds(values: seq<PcrValue>)
    requires Observe(values).Some?
    ensures Holds(Observe(values).value, values)
  {
    ObserveBuilds(values);
    BuildHolds(values);
  }

  lemma BuildHolds(values: seq<PcrValue>)
    requires AllOk(values) && Build(Pairs(values)).Some?
    ensures Holds(Build(Pairs(values)).value, values)
  {
    var s := Pairs(values);
    var m := Build(s).value;
    BuildIsTheMap(s);
    assert |m| == |m.Keys|;
    forall v | v in values ensures v.index in m && m[v.index] == DigestBytes(v) {
      PairsAre(values, (v.index, DigestBytes(v)));
    }
    forall k | k in m ensures exists v :: v in values && v.index == k {
      var p :| p in s && p.0 == k;
      PairsAre(values, p);
    }
  }

  lemma ObservedDistinct(values: seq<PcrValue>, i: nat, k: nat)
    requires Observe(values).Some? && i < k < |values|
    ensures values[i].index != values[k].index
  {
    ObserveBuilds(values);
    BuiltKeysDiffer(Pairs(values), i, k);
  }

  /** Accepted: each policy index is supplied exactly once and nothing else is. */
  lemma AcceptedMeansEachIndexOnce(q: Quote, values: seq<PcrValue>, policy: set<nat>, sha256: seq<byte> -> seq<byte>)
    requires VerifyPcrs(q, values, policy, sha256).Ok?
    ensures |values| == |policy| && q.selectedPcrs == policy
    ensures forall i, k :: 0 <= i < k < |values| ==> values[i].index != values[k].index
    ensures forall p :: p in policy <==> exists i :: 0 <= i < |values| && values[i].index == p
  {
    ObservedHolds(values);
    assert |Observe(values).value.Keys| == |Observe(values).value|;
    forall i, k | 0 <= i < k < |values| ensures values[i].index != values[k].index { ObservedDistinct(values, i, k); }
    forall p ensures p in policy <==> exists i :: 0 <= i < |values| && values[i].index == p {
      if p in policy {
        var v :| v in values && v.index == p;
        var i :| 0 <= i < |values| && values[i] == v;
      }
    }
  }

  ghost predicate AllWide(m: map<nat, seq<byte>>) { forall k :: k in m ==> |m[k]| == 32 }

  lemma {:induction false} ConcatenationDeterminesMap(m: map<nat, seq<byte>>, n: map<nat, seq<byte>>, upTo: nat)
    requires m.Keys == n.Keys && AllWide(m) && AllWide(n) && Concatenated(m, upTo) == Concatenated(n, upTo)
    ensures forall k :: k in m && k < upTo ==> m[k] == n[k]
  {
    if upTo > 0 {
      SameLength(m, n, upTo - 1);
      var a, b := Concatenated(m, upTo - 1), Concatenated(n, upTo - 1);
      var whole := Concatenated(m, upTo);
      assert whole[..|a|] == a && whole[..|b|] == b;
      if upTo - 1 in m { assert whole[|a|..] == m[upTo - 1] && whole[|b|..] == n[upTo - 1]; }
      ConcatenationDeterminesMap(m, n, upTo - 1);
    }
  }

  lemma {:induction false} SameLength(m: map<nat, seq<byte>>, n: map<nat, seq<byte>>, upTo: nat)
    requires m.Keys == n.Keys && AllWide(m) && AllWide(n)
    ensures |Concatenated(m, upTo)| == |Concatenated(n, upTo)|
  {
    if upTo > 0 { SameLength(m, n, upTo - 1); }
  }

  lemma HeldWide(m: map<nat, seq<byte>>, values: seq<PcrValue>)
    requires Holds(m, values)
    ensures AllWide(m) && forall k :: k in m ==> k <= TPM_MAX_PCR_INDEX
  {
    forall k | k in m ensures |m[k]| == 32 && k <= TPM_MAX_PCR_INDEX {
      var v :| v in values && v.index == k;
      assert ValueOk(v) && m[k] == DigestBytes(v);
      DigestWidth(v);
    }
  }

  lemma DigestWidth(v: PcrValue)
    requires ValueOk(v)
    ensures |DigestBytes(v)| == 32 && v.index <= TPM_MAX_PCR_INDEX
  {
  }

  /** The concatenation the verdict hashes. */
  ghost function Hashed(values: seq<PcrValue>): seq<byte> {
    if Observe(values).Some? then Concatenated(Observe(values).value, TPM_MAX_PCR_INDEX + 1) else []
  }

  lemma AcceptedHash(q: Quote, values: seq<PcrValue>, policy: set<nat>, sha256: seq<byte> -> seq<byte>)
    requires VerifyPcrs(q, values, policy, sha256).Ok?
    ensures Observe(values).Some? && Observe(values).value.Keys == policy && sha256(Hashed(values)) == q.pcrDigest
  {
  }

  /** With a hash that does not collide on the two concatenations, a quote accepts one index-to-digest map only. */
  lemma OneMapPerQuote(q: Quote, a: seq<PcrValue>, b: seq<PcrValue>, policy: set<nat>, sha256: seq<byte> -> seq<byte>)
    requires VerifyPcrs(q, a, policy, sha256).Ok? && VerifyPcrs(q, b, policy, sha256).Ok?
    requires sha256(Hashed(a)) == sha256(Hashed(b)) ==> Hashed(a) == Hashed(b)
    ensures |a| == |b| && forall v :: v in a <==> v in b
  {
    AcceptedHash(q, a, policy, sha256);
    AcceptedHash(q, b, policy, sha256);
    SameHashed(a, b);
  }

  lemma SameHashed(a: seq<PcrValue>, b: seq<PcrValue>)
    requires Observe(a).Some? && Observe(b).Some? && Observe(a).value.Keys == Observe(b).value.Keys
    requires Hashed(a) == Hashed(b)
    ensures |a| == |b| && forall v :: v in a <==> v in b
  {
    ObservedHolds(a);
    ObservedHolds(b);
    HeldWide(Observe(a).value, a);
    HeldWide(Observe(b).value, b);
    EqualMaps(Observe(a).value, Observe(b).value, TPM_MAX_PCR_INDEX + 1);
    SameValues(Observe(a).value, a, b);
  }

  lemma EqualMaps(m: map<nat, seq<byte>>, n: map<nat, seq<byte>>, upTo: nat)
    requires AllWide(m) && AllWide(n) && m.Keys == n.Keys && forall k :: k in m ==> k < upTo
    requires Concatenated(m, upTo) == Concatenated(n, upTo)
    ensures m == n
  {
    ConcatenationDeterminesMap(m, n, upTo);
  }

  lemma SameValues(m: map<nat, seq<byte>>, a: seq<PcrValue>, b: seq<PcrValue>)
    requires Holds(m, a) && Holds(m, b)
    ensures |a| == |b| && forall v :: v in a <==> v in b
  {
    forall v ensures v in a <==> v in b {
      if v in a { HeldToo(m, b, v); }
      if v in b { HeldToo(m, a, v); }
    }
  }

  lemma HeldToo(m: map<nat, seq<byte>>, b: seq<PcrValue>, v: PcrValue)
    requires Holds(m, b) && ValueOk(v) && v.index in m && m[v.index] == DigestBytes(v)
    ensures v in b
  {
    var w :| w in b && w.index == v.index;
    DigestBytesInjective(v, w);
  }
}
