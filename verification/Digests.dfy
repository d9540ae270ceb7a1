/** Digest strings: what digest.go accepts after go-digest's validation. */
module Digests {
  import opened Base

  predicate IsHexDigit(ch: char) {
    '0' <= ch <= '9' || 'a' <= ch <= 'f'
  }

  // An available algorithm, its separator, and as many lower-case hex digits as
  // the algorithm's sum has.
  predicate ValidFor(d: Digest, algorithm: string, digits: nat) {
    && |d| == |algorithm| + 1 + digits
    && d[..|algorithm|] == algorithm && d[|algorithm|] == ':'
    && forall i :: |algorithm| < i < |d| ==> IsHexDigit(d[i])
  }

  predicate Valid(d: Digest) {
    ValidFor(d, "sha256", 64) || ValidFor(d, "sha384", 96) || ValidFor(d, "sha512", 128)
  }

  function LowerChar(ch: char): char {
    if 'A' <= ch <= 'Z' then ch - 'A' + 'a' else ch
  }

  function ToLower(s: string): (r: string)
    ensures |r| == |s|
  {
    seq(|s|, i requires 0 <= i < |s| => LowerChar(s[i]))
  }

  // None is the validation error.
  function Sanitize(d: Digest): Option<Digest> {
    if Valid(d) then Some(ToLower(d)) else None
  }

  // Validation already refuses upper case, so sanitizing changes nothing.
  lemma SanitizeIsIdentity(d: Digest)
    ensures Sanitize(d) == if Valid(d) then Some(d) else None
  {
    if Valid(d) {
      var n := 6;
      assert |d| > n && d[n] == ':';
      assert forall i :: 0 <= i < 6 ==> d[i] == d[..6][i];
      assert "sha256"[..] == "sha256";
      assert forall i :: 0 <= i < |d| ==> LowerChar(d[i]) == d[i];
      assert ToLower(d) == d;
    }
  }

  function Algorithm(d: Digest): string
    requires Valid(d)
  {
    d[..6]
  }

  function Encoded(d: Digest): string
    requires Valid(d)
  {
    d[7..]
  }

  // The two parts determine the digest, and neither contains a slash.
  lemma PartsDetermine(d: Digest, e: Digest)
    requires Valid(d) && Valid(e) && Algorithm(d) == Algorithm(e) && Encoded(d) == Encoded(e)
    ensures d == e
  {
    assert d == d[..6] + [d[6]] + d[7..];
    assert e == e[..6] + [e[6]] + e[7..];
  }

  lemma NoSlash(d: Digest)
    requires Valid(d)
    ensures |Algorithm(d)| == 6 && '/' !in Algorithm(d) && '/' !in Encoded(d) && |Encoded(d)| >= 64
  {
    assert Algorithm(d) == "sha256" || Algorithm(d) == "sha384" || Algorithm(d) == "sha512";
  }

  // Only the canonical algorithm names computed digests.
  ghost predicate Canonical(hash: Hash) {
    forall content :: Valid(hash(content))
  }

  lemma HexDigitsAre(ch: char)
    ensures IsHexDigit(ch) <==> ch in "0123456789abcdef"
  {
    var digits := "0123456789abcdef";
    if '0' <= ch <= '9' { assert digits[(ch - '0') as int] == ch; }
    if 'a' <= ch <= 'f' { assert digits[(ch - 'a') as int + 10] == ch; }
  }

  // A digest is an algorithm, a colon, and the digits of its sum.
  lemma ValidIffParts(algorithm: string, hex: string)
    requires ':' !in algorithm
    ensures Valid(algorithm + ":" + hex) <==>
            && ((algorithm == "sha256" && |hex| == 64) || (algorithm == "sha384" && |hex| == 96) || (algorithm == "sha512" && |hex| == 128))
            && forall i :: 0 <= i < |hex| ==> hex[i] in "0123456789abcdef"
  {
    forall i | 0 <= i < |hex| ensures IsHexDigit(hex[i]) <==> hex[i] in "0123456789abcdef" {
      HexDigitsAre(hex[i]);
    }
    var d := algorithm + ":" + hex;
    assert d[|algorithm|] == ':';
    assert forall i :: 0 <= i < |hex| ==> d[|algorithm| + 1 + i] == hex[i];
    assert forall i :: 0 <= i < |algorithm| ==> d[i] == algorithm[i];
    if Valid(d) {
      assert |algorithm| == 6;
      assert d[..6] == algorithm;
    }
    if algorithm == "sha256" || algorithm == "sha384" || algorithm == "sha512" { assert d[..6] == algorithm; }
  }
}
