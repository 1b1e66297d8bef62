/** Text as its UTF-8 bytes: order, identifiers, digests and splitting at a separator. */
module Texts {
  import opened ByteSeq

  type text = seq<byte>

  function Ascii(s: string): text {
    seq(|s|, i requires 0 <= i < |s| => (s[i] as int % 256) as byte)
  }

  // ---- lexicographic order ----

  predicate Less(a: seq<int>, b: seq<int>) {
    b != [] && (a == [] || a[0] < b[0] || (a[0] == b[0] && Less(a[1..], b[1..])))
  }

  lemma {:induction false} LessIsTransitive(a: seq<int>, b: seq<int>, c: seq<int>)
    requires Less(a, b) && Less(b, c)
    ensures Less(a, c)
  {
    if a != [] && a[0] == b[0] == c[0] { LessIsTransitive(a[1..], b[1..], c[1..]); }
  }

  lemma {:induction false} LessIsStrict(a: seq<int>, b: seq<int>)
    ensures !(Less(a, b) && Less(b, a)) && !Less(a, a)
    decreases |a|
  {
    if a != [] {
      LessIsStrict(a[1..], if b == [] then [] else b[1..]);
    }
  }

  lemma {:induction false} LessIsTotal(a: seq<int>, b: seq<int>)
    ensures Less(a, b) || a == b || Less(b, a)
  {
    if a != [] && b != [] && a[0] == b[0] { LessIsTotal(a[1..], b[1..]); }
  }

  // ---- what may be named ----

  predicate IsHex(b: byte) { 48 <= b <= 57 || 97 <= b <= 102 }

  /** Sixty-four lower-case hexadecimal digits. */
  predicate ValidSha256(s: text) {
    |s| == 64 && forall i :: 0 <= i < |s| ==> IsHex(s[i])
  }

  predicate IsLowerOrDigit(b: byte) { 97 <= b <= 122 || 48 <= b <= 57 }

  predicate IsDotDashOrUnderscore(b: byte) { b == 46 || b == 95 || b == 45 }

  predicate ValidIdentifier(s: text) {
    && 0 < |s| <= 128
    && forall i :: 0 <= i < |s| ==> IsLowerOrDigit(s[i]) || (i > 0 && IsDotDashOrUnderscore(s[i]))
  }

  // ---- splitting ----

  function Split(s: text, separator: byte): (parts: seq<text>)
    ensures |parts| > 0
  {
    if s == [] then [[]]
    else
      var rest := Split(s[1..], separator);
      if s[0] == separator then [[]] + rest else [[s[0]] + rest[0]] + rest[1..]
  }

  function Join(parts: seq<text>, separator: byte): text
    requires |parts| > 0
  {
    if |parts| == 1 then parts[0] else parts[0] + [separator] + Join(parts[1..], separator)
  }

  /** Joining the parts restores the text. */
  lemma {:induction false} JoinRestores(s: text, separator: byte)
    ensures Join(Split(s, separator), separator) == s
  {
    if s != [] {
      JoinRestores(s[1..], separator);
      var rest, parts := Split(s[1..], separator), Split(s, separator);
      if s[0] == separator {
        assert parts[1..] == rest;
        assert Join(parts, separator) == [separator] + s[1..];
      } else if |rest| == 1 {
        assert Join(parts, separator) == [s[0]] + s[1..];
      } else {
        assert parts[1..] == rest[1..];
        assert Join(parts, separator) == [s[0]] + (rest[0] + [separator] + Join(rest[1..], separator));
      }
    }
  }
}
