/**
 The hand-written DER reader: it accepts exactly the minimal definite-length encodings
 (sections 8.1.3 and 10.1 of ITU-T X.690), so parsing and printing undo each other.
 */
module Der {
  import opened Wrappers
  import opened ByteSeq

  const USIZE_MAX: nat := 0xffff_ffff_ffff_ffff
  const U32_MAX: nat := 0xffff_ffff
  const SIZE_OF_USIZE: nat := 8

  datatype Error =
    | TruncatedTag | HighTag | TruncatedLength | InvalidLength | NonMinimalLength
    | LengthOverflow | TruncatedValue | UnexpectedTag | TrailingData | InvalidInteger

  datatype Element = Element(tag: byte, full: seq<byte>, value: seq<byte>)

  /** The checked fold over length bytes: none on overflow. */
  function CheckedFold(s: seq<byte>, limit: nat): Option<nat> {
    if s == [] then Some(0)
    else match CheckedFold(s[..|s| - 1], limit)
      case None => None
      case Some(h) => if h * 256 > limit || h * 256 + s[|s| - 1] > limit then None else Some(h * 256 + s[|s| - 1])
  }

  /** Header length and value length. */
  function ParseHeader(input: seq<byte>): Result<(nat, nat), Error>
    requires |input| >= 2
  {
    if input[1] < 128 then Ok((2, input[1]))
    else
      var count := input[1] - 128;
      if count == 0 || count > SIZE_OF_USIZE then Err(InvalidLength)
      else if |input| < 2 + count then Err(TruncatedLength)
      else
        var bytes := input[2..2 + count];
        if bytes[0] == 0 then Err(NonMinimalLength)
        else match CheckedFold(bytes, USIZE_MAX)
          case None => Err(LengthOverflow)
          case Some(n) => if n < 128 then Err(NonMinimalLength) else Ok((2 + count, n))
  }

  function ParseElement(input: seq<byte>): (r: Result<(Element, seq<byte>), Error>)
    ensures r.Ok? ==> |r.value.1| < |input|
  {
    if |input| == 0 then Err(TruncatedTag)
    else if input[0] % 32 == 31 then Err(HighTag)
    else if |input| < 2 then Err(TruncatedLength)
    else match ParseHeader(input)
      case Err(e) => Err(e)
      case Ok((header, length)) =>
        var end := header + length;
        if end > USIZE_MAX then Err(LengthOverflow)
        else if end > |input| then Err(TruncatedValue)
        else
          var full := input[..end];
          Ok((Element(input[0], full, full[header..]), input[end..]))
  }

  function ParseSingle(input: seq<byte>, expected: byte): Result<Element, Error> {
    match ParseElement(input)
    case Err(e) => Err(e)
    case Ok((element, remaining)) =>
      if remaining != [] then Err(TrailingData)
      else if element.tag != expected then Err(UnexpectedTag)
      else Ok(element)
  }

  // ---- the printer ----

  /** Base-256 digits without leading zeros. */
  function Minimal(n: nat): seq<byte> {
    if n == 0 then [] else Minimal(n / 256) + [n % 256]
  }

  function PrintLength(n: nat): seq<byte>
    requires n <= USIZE_MAX
  {
    if n < 128 then [n]
    else
      MinimalFits(n, SIZE_OF_USIZE);
      [128 + |Minimal(n)|] + Minimal(n)
  }

  function Print(tag: byte, value: seq<byte>): seq<byte>
    requires |value| <= USIZE_MAX
  {
    [tag] + PrintLength(|value|) + value
  }

  /** An element the reader can have produced. */
  predicate Canonical(e: Element) {
    && e.tag % 32 != 31 && |e.value| <= USIZE_MAX
    && e.full == Print(e.tag, e.value) && |e.full| <= USIZE_MAX
  }

  lemma PowOfUsize()
    ensures Pow256(SIZE_OF_USIZE) == USIZE_MAX + 1
  {
    assert Pow256(4) == 0x1_0000_0000 by { assert Pow256(2) == 65536; }
    assert Pow256(6) == 0x1_0000_0000_0000;
  }

  lemma {:induction false} MinimalFits(n: nat, width: nat)
    requires n < Pow256(width) || (width == SIZE_OF_USIZE && n <= USIZE_MAX)
    ensures |Minimal(n)| <= width
    ensures n > 0 ==> Minimal(n) != [] && Minimal(n)[0] != 0
    ensures FromBigEndian(Minimal(n)) == n
    decreases n
  {
    PowOfUsize();
    if n > 0 {
      MinimalFits(n / 256, width - 1);
      assert Minimal(n)[..|Minimal(n)| - 1] == Minimal(n / 256);
    }
  }

  lemma {:induction false} MinimalIsUnique(s: seq<byte>)
    requires s == [] || s[0] != 0
    ensures Minimal(FromBigEndian(s)) == s
    ensures s != [] ==> FromBigEndian(s) > 0
  {
    if s != [] {
      var h, l := s[..|s| - 1], s[|s| - 1];
      MinimalIsUnique(h);
      var n := 256 * FromBigEndian(h) + l;
      assert n / 256 == FromBigEndian(h) && n % 256 == l;
      assert s == h + [l];
      if h == [] { assert s[0] == l; }
    }
  }

  lemma {:induction false} FoldIsBigEndian(s: seq<byte>, limit: nat)
    ensures CheckedFold(s, limit) == if FromBigEndian(s) <= limit then Some(FromBigEndian(s)) else None
  {
    if s != [] { FoldIsBigEndian(s[..|s| - 1], limit); }
  }

  // ---- headers ----

  lemma HeaderOfPrinted(input: seq<byte>, n: nat)
    requires n <= USIZE_MAX && |input| >= 1 + |PrintLength(n)| && input[1..1 + |PrintLength(n)|] == PrintLength(n)
    ensures |input| >= 2 && ParseHeader(input) == Ok((1 + |PrintLength(n)|, n))
  {
    var p := PrintLength(n);
    assert input[1] == p[0];
    if n >= 128 {
      MinimalFits(n, SIZE_OF_USIZE);
      var s := Minimal(n);
      assert input[2..2 + |s|] == s by {
        assert input[1..1 + |p|][1..] == s;
        assert input[1..1 + |p|][1..] == input[2..1 + |p|];
      }
      FoldIsBigEndian(s, USIZE_MAX);
    }
  }

  lemma PrintedOfHeader(input: seq<byte>)
    requires |input| >= 2 && ParseHeader(input).Ok?
    ensures var (header, n) := ParseHeader(input).value;
            n <= USIZE_MAX && 2 <= header <= |input| && input[1..header] == PrintLength(n)
  {
    if input[1] >= 128 {
      var count := input[1] - 128;
      var s := input[2..2 + count];
      FoldIsBigEndian(s, USIZE_MAX);
      MinimalIsUnique(s);
      assert input[1..2 + count] == [input[1]] + s;
    }
  }

  // ---- elements ----

  lemma PrintedParses(e: Element, rest: seq<byte>)
    requires Canonical(e)
    ensures ParseElement(e.full + rest) == Ok((e, rest))
  {
    var input := e.full + rest;
    var p := PrintLength(|e.value|);
    assert input[1..1 + |p|] == p;
    HeaderOfPrinted(input, |e.value|);
    assert input[..|e.full|] == e.full && input[|e.full|..] == rest;
    assert e.full[1 + |p|..] == e.value;
  }

  lemma ParsedIsPrinted(input: seq<byte>)
    requires ParseElement(input).Ok?
    ensures var (e, rest) := ParseElement(input).value; Canonical(e) && input == e.full + rest
  {
    PrintedOfHeader(input);
    var (header, n) := ParseHeader(input).value;
    var (e, rest) := ParseElement(input).value;
    assert e.full == [input[0]] + input[1..header] + input[header..header + n];
    assert e.value == input[header..header + n];
  }

  /** The reader accepts exactly the canonical encodings, and leaves what follows them untouched. */
  lemma ParsesExactlyTheCanonical(input: seq<byte>, e: Element, rest: seq<byte>)
    ensures ParseElement(input) == Ok((e, rest)) <==> Canonical(e) && input == e.full + rest
  {
    if ParseElement(input) == Ok((e, rest)) { ParsedIsPrinted(input); }
    if Canonical(e) && input == e.full + rest { PrintedParses(e, rest); }
  }

  // ---- sequences ----

  function Flatten(es: seq<Element>): seq<byte> {
    if es == [] then [] else es[0].full + Flatten(es[1..])
  }

  ghost predicate AllCanonical(es: seq<Element>) {
    forall e :: e in es ==> Canonical(e)
  }

  /** Reading elements until nothing remains. */
  function ParseAll(input: seq<byte>): Result<seq<Element>, Error> {
    if input == [] then Ok([])
    else match ParseElement(input)
      case Err(e) => Err(e)
      case Ok((element, remaining)) =>
        match ParseAll(remaining)
        case Err(e) => Err(e)
        case Ok(es) => Ok([element] + es)
  }

  /** The whole input is one element of the expected tag, exactly when it is that element's canonical form. */
  lemma SingleParsesExactly(input: seq<byte>, expected: byte, e: Element)
    ensures ParseSingle(input, expected) == Ok(e) <==> Canonical(e) && e.tag == expected && input == e.full
  {
    ParsesExactlyTheCanonical(input, e, []);
    assert e.full + [] == e.full;
  }

  /** Splitting then concatenating restores the bytes, and there is only one way to split. */
  lemma {:induction false} SplitsUniquely(input: seq<byte>, es: seq<Element>)
    ensures ParseAll(input) == Ok(es) <==> AllCanonical(es) && input == Flatten(es)
    decreases |input| + |es|
  {
    if input != [] && ParseElement(input).Ok? {
      var (e, rest) := ParseElement(input).value;
      ParsedIsPrinted(input);
      if es != [] { SplitsUniquely(rest, es[1..]); }
      if ParseAll(input) == Ok(es) {
        assert es == [e] + ParseAll(rest).value;
        assert es[1..] == ParseAll(rest).value;
      }
    }
    if es != [] && AllCanonical(es) && input == Flatten(es) {
      PrintedParses(es[0], Flatten(es[1..]));
      assert es == [es[0]] + es[1..];
    }
  }

  class DerReader {
    var remaining: seq<byte>

    constructor (input: seq<byte>)
      ensures remaining == input
    {
      remaining := input;
    }

    /** The reader moves past exactly the element it returns, and stays put on error. */
    method TakeAny() returns (r: Result<Element, Error>)
      modifies this
      ensures r.Ok? ==> Canonical(r.value) && old(remaining) == r.value.full + remaining && r.value.full != []
      ensures r.Ok? ==> ParseElement(old(remaining)) == Ok((r.value, remaining))
      ensures r.Err? ==> remaining == old(remaining) && ParseElement(remaining) == Err(r.error)
    {
      match ParseElement(remaining) {
        case Err(e) => return Err(e);
        case Ok((element, rest)) =>
          ParsedIsPrinted(remaining);
          remaining := rest;
          return Ok(element);
      }
    }

    /** Like `TakeAny`, but an element with another tag is consumed and refused. */
    method Take(expected: byte) returns (r: Result<Element, Error>)
      modifies this
      ensures r.Ok? ==> r.value.tag == expected && Canonical(r.value) && old(remaining) == r.value.full + remaining
      ensures r.Err? && remaining != old(remaining) ==>
                r.error == UnexpectedTag && exists e :: Canonical(e) && e.tag != expected && old(remaining) == e.full + remaining
    {
      var any := TakeAny();
      if any.Ok? && any.value.tag != expected { return Err(UnexpectedTag); }
      return any;
    }
  }

  /** The `while !reader.is_empty()` loops: all elements of a constructed value, or the first error. */
  method ReadAll(input: seq<byte>) returns (r: Result<seq<Element>, Error>)
    ensures r == ParseAll(input)
    ensures r.Ok? ==> AllCanonical(r.value) && Flatten(r.value) == input
  {
    var reader := new DerReader(input);
    var es: seq<Element> := [];
    assert ParseAll(input).Ok? ==> es + ParseAll(input).value == ParseAll(input).value;
    while reader.remaining != []
      invariant ParseAll(input) == Prepend(es, ParseAll(reader.remaining))
      decreases |reader.remaining|
    {
      var next := reader.TakeAny();
      if next.Err? { return Err(next.error); }
      PrependOneMore(es, next.value, ParseAll(reader.remaining));
      es := es + [next.value];
    }
    assert es + [] == es;
    SplitsUniquely(input, es);
    return Ok(es);
  }

  ghost function Prepend(es: seq<Element>, r: Result<seq<Element>, Error>): Result<seq<Element>, Error> {
    match r case Err(e) => Err(e) case Ok(rest) => Ok(es + rest)
  }

  lemma PrependOneMore(es: seq<Element>, e: Element, r: Result<seq<Element>, Error>)
    ensures Prepend(es, Prepend([e], r)) == Prepend(es + [e], r)
  {
    if r.Ok? { assert es + ([e] + r.value) == es + [e] + r.value; }
  }

  // ---- integers ----

  /** Content bytes of a non-negative DER INTEGER. */
  function DerInteger(n: nat): seq<byte> {
    if n == 0 then [0]
    else
      var s := Minimal(n);
      if s != [] && s[0] >= 128 then [0] + s else s
  }

  predicate MinimalNonNegative(input: seq<byte>, most: nat) {
    && 0 < |input| <= most && input[0] < 128
    && !(|input| > 1 && input[0] == 0 && input[1] < 128)
  }

  function ParsePositiveU32(input: seq<byte>): Result<nat, Error> {
    if !MinimalNonNegative(input, 5) then Err(InvalidInteger)
    else match CheckedFold(input, U32_MAX)
      case None => Err(InvalidInteger)
      case Some(n) => Ok(n)
  }

  /** The number's bytes without the sign byte. */
  function Magnitude(input: seq<byte>): seq<byte>
    requires input != []
  {
    if input[0] == 0 then input[1..] else input
  }

  /** The scalar is left-padded with zeros. */
  function Padded(s: seq<byte>, width: nat): seq<byte>
    requires |s| <= width
  {
    seq(width - |s|, _ => 0) + s
  }

  function ParsePositiveScalar(input: seq<byte>): Result<seq<byte>, Error> {
    if !MinimalNonNegative(input, 33) then Err(InvalidInteger)
    else if |Magnitude(input)| > 32 then Err(InvalidInteger)
    else Ok(Padded(Magnitude(input), 32))
  }

  lemma {:induction false} LeadingZero(s: seq<byte>)
    ensures FromBigEndian([0] + s) == FromBigEndian(s)
  {
    if s == [] {
      assert ([0] + s)[..0] == [];
    } else {
      LeadingZero(s[..|s| - 1]);
      assert ([0] + s)[..|s|] == [0] + s[..|s| - 1];
    }
  }

  /** A minimal non-negative encoding is the DER INTEGER of the number it spells. */
  lemma SpellsItsNumber(input: seq<byte>, most: nat)
    requires MinimalNonNegative(input, most)
    ensures input == DerInteger(FromBigEndian(input))
  {
    if input[0] == 0 {
      var s := input[1..];
      assert input == [0] + s;
      LeadingZero(s);
      MinimalIsUnique(s);
    } else {
      MinimalIsUnique(input);
    }
  }

  lemma IntegerIsMinimal(n: nat, width: nat)
    requires n < Pow256(width) && width > 0
    ensures MinimalNonNegative(DerInteger(n), width + 1) && FromBigEndian(DerInteger(n)) == n
  {
    MinimalFits(n, width);
    LeadingZero(Minimal(n));
    assert FromBigEndian([0]) == 0 by { LeadingZero([]); }
  }

  /** Accepted exactly when the bytes are the DER INTEGER of a 32-bit number. */
  lemma U32ParsesExactly(input: seq<byte>, n: nat)
    ensures ParsePositiveU32(input) == Ok(n) <==> n <= U32_MAX && input == DerInteger(n)
  {
    FoldIsBigEndian(input, U32_MAX);
    if MinimalNonNegative(input, 5) { SpellsItsNumber(input, 5); }
    if n <= U32_MAX && input == DerInteger(n) {
      assert Pow256(4) == U32_MAX + 1 by { assert Pow256(2) == 65536; }
      IntegerIsMinimal(n, 4);
    }
  }

  lemma {:induction false} ZeroPadding(k: nat, s: seq<byte>)
    ensures FromBigEndian(seq(k, _ => 0) + s) == FromBigEndian(s)
  {
    if k == 0 {
      assert seq(k, _ => 0) + s == s;
    } else {
      ZeroPadding(k - 1, s);
      assert seq(k, _ => 0) + s == [0] + (seq(k - 1, _ => 0) + s);
      LeadingZero(seq(k - 1, _ => 0) + s);
    }
  }

  lemma PaddingKeeps(s: seq<byte>, width: nat)
    requires |s| <= width
    ensures |Padded(s, width)| == width && FromBigEndian(Padded(s, width)) == FromBigEndian(s)
  {
    ZeroPadding(width - |s|, s);
  }

  lemma MagnitudeKeeps(input: seq<byte>)
    requires input != []
    ensures FromBigEndian(Magnitude(input)) == FromBigEndian(input)
  {
    if input[0] == 0 {
      LeadingZero(input[1..]);
      assert input == [0] + input[1..];
    }
  }

  lemma ScalarSpells(input: seq<byte>)
    requires ParsePositiveScalar(input).Ok?
    ensures |ParsePositiveScalar(input).value| == 32
    ensures input == DerInteger(FromBigEndian(ParsePositiveScalar(input).value))
  {
    SpellsItsNumber(input, 33);
    MagnitudeKeeps(input);
    PaddingKeeps(Magnitude(input), 32);
  }

  lemma ScalarAccepts(scalar: seq<byte>)
    requires |scalar| == 32
    ensures ParsePositiveScalar(DerInteger(FromBigEndian(scalar))) == Ok(scalar)
  {
    var n := FromBigEndian(scalar);
    BigEndianBound(scalar);
    IntegerIsMinimal(n, 32);
    MinimalFits(n, 32);
    ScalarSpells(DerInteger(n));
    var out := ParsePositiveScalar(DerInteger(n)).value;
    BigEndianBound(out);
    IntegerIsMinimal(FromBigEndian(out), 32);
    ToFrom(scalar);
    ToFrom(out);
  }

  /** Accepted exactly when the bytes are the DER INTEGER of a 256-bit number; the scalar is that number. */
  lemma ScalarParsesExactly(input: seq<byte>, scalar: seq<byte>)
    ensures ParsePositiveScalar(input) == Ok(scalar) <==>
              |scalar| == 32 && input == DerInteger(FromBigEndian(scalar))
  {
    if ParsePositiveScalar(input) == Ok(scalar) { ScalarSpells(input); }
    if |scalar| == 32 { ScalarAccepts(scalar); }
  }
}
