/** Bytes and big-endian numbers. */
module ByteSeq {

  type byte = b: int | 0 <= b < 256

  function Pow256(n: nat): nat {
    if n == 0 then 1 else 256 * Pow256(n - 1)
  }

  /** The number whose base-256 digits are `s`, most significant first. */
  function FromBigEndian(s: seq<byte>): nat {
    if s == [] then 0 else 256 * FromBigEndian(s[..|s| - 1]) + s[|s| - 1]
  }

  /** `to_be_bytes` of a number that fits `width` bytes. */
  function ToBigEndian(n: nat, width: nat): (s: seq<byte>)
    ensures |s| == width
  {
    if width == 0 then [] else ToBigEndian(n / 256, width - 1) + [n % 256]
  }

  lemma {:induction false} BigEndianBound(s: seq<byte>)
    ensures FromBigEndian(s) < Pow256(|s|)
  {
    if s != [] { BigEndianBound(s[..|s| - 1]); }
  }

  lemma {:induction false} FromTo(n: nat, width: nat)
    requires n < Pow256(width)
    ensures FromBigEndian(ToBigEndian(n, width)) == n
  {
    if width > 0 {
      FromTo(n / 256, width - 1);
      var s := ToBigEndian(n, width);
      assert s[..|s| - 1] == ToBigEndian(n / 256, width - 1);
    }
  }

  lemma {:induction false} ToFrom(s: seq<byte>)
    ensures ToBigEndian(FromBigEndian(s), |s|) == s
  {
    if s != [] {
      var h, l := FromBigEndian(s[..|s| - 1]), s[|s| - 1];
      ToFrom(s[..|s| - 1]);
      assert (256 * h + l) / 256 == h && (256 * h + l) % 256 == l;
      assert s == s[..|s| - 1] + [l];
    }
  }

  lemma ToBigEndianInjective(m: nat, n: nat, width: nat)
    requires m < Pow256(width) && n < Pow256(width) && ToBigEndian(m, width) == ToBigEndian(n, width)
    ensures m == n
  {
    FromTo(m, width);
    FromTo(n, width);
  }
}
