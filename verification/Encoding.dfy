/** awsURIEncode: percent-encoding by RFC 3986 section 2.1, leaving the unreserved
    characters of section 2.3. A Go string is a sequence of bytes, so a character
    here is one byte. */
module Encoding {
  import opened Base
  import opened GoStrings

  predicate ByteString(s: string) {
    forall i :: 0 <= i < |s| ==> s[i] as int < 256
  }

  predicate Unreserved(ch: char) {
    || 'A' <= ch <= 'Z' || 'a' <= ch <= 'z' || '0' <= ch <= '9'
    || ch == '-' || ch == '_' || ch == '.' || ch == '~'
  }

  function HexUpper(n: nat): char
    requires n < 16
  {
    if n < 10 then '0' + n as char else 'A' + (n - 10) as char
  }

  function HexValue(ch: char): nat {
    if '0' <= ch <= '9' then (ch - '0') as nat
    else if 'A' <= ch <= 'F' then (ch - 'A') as nat + 10
    else 0
  }

  function EncodeChar(ch: char, encodeSlash: bool): string
    requires ch as int < 256
  {
    if Unreserved(ch) then [ch]
    else if ch == '/' then (if encodeSlash then "%2F" else "/")
    else ['%', HexUpper(ch as int / 16), HexUpper(ch as int % 16)]
  }

  function Encode(s: string, encodeSlash: bool): string
    requires ByteString(s)
  {
    if s == "" then "" else Encode(s[..|s| - 1], encodeSlash) + EncodeChar(s[|s| - 1], encodeSlash)
  }

  method AwsUriEncode(s: string, encodeSlash: bool) returns (b: string)
    requires ByteString(s)
    ensures b == Encode(s, encodeSlash)
  {
    b := "";
    var i := 0;
    while i < |s|
      invariant 0 <= i <= |s|
      invariant b == Encode(s[..i], encodeSlash)
    {
      var c := s[i];
      assert s[..i + 1][..i] == s[..i];
      if Unreserved(c) {
        b := b + [c];
      } else if c == '/' {
        if encodeSlash {
          b := b + "%2F";
        } else {
          b := b + "/";
        }
      } else {
        b := b + "%";
        b := b + [HexUpper(c as int / 16)];
        b := b + [HexUpper(c as int % 16)];
        HexPair(c, encodeSlash);
      }
      i := i + 1;
    }
    assert s[..|s|] == s;
  }

  lemma HexPair(ch: char, encodeSlash: bool)
    requires ch as int < 256 && !Unreserved(ch) && ch != '/'
    ensures forall b: string :: b + "%" + [HexUpper(ch as int / 16)] + [HexUpper(ch as int % 16)] == b + EncodeChar(ch, encodeSlash)
  {
    forall b: string ensures b + "%" + [HexUpper(ch as int / 16)] + [HexUpper(ch as int % 16)] == b + EncodeChar(ch, encodeSlash) {
      assert "%" + [HexUpper(ch as int / 16)] + [HexUpper(ch as int % 16)] == EncodeChar(ch, encodeSlash);
    }
  }

  // What a server does with the result.
  function Decode(t: string): string {
    if t == "" then ""
    else if t[0] == '%' && |t| >= 3 then [(HexValue(t[1]) * 16 + HexValue(t[2])) as char] + Decode(t[3..])
    else [t[0]] + Decode(t[1..])
  }

  lemma DecodeOne(ch: char, encodeSlash: bool, t: string)
    requires ch as int < 256
    ensures Decode(EncodeChar(ch, encodeSlash) + t) == [ch] + Decode(t)
  {
    var e := EncodeChar(ch, encodeSlash);
    assert (e + t)[|e|..] == t;
    if |e| == 3 {
      var n := ch as int;
      assert HexValue(e[1]) * 16 + HexValue(e[2]) == n by {
        assert e[1] == HexUpper(n / 16) && e[2] == HexUpper(n % 16) by {
          if ch == '/' { assert n == 47; }
        }
      }
    }
  }

  lemma {:induction false} DecodeAfter(s: string, encodeSlash: bool, t: string)
    requires ByteString(s)
    ensures Decode(Encode(s, encodeSlash) + t) == s + Decode(t)
    decreases |s|
  {
    if s == "" {
      assert "" + t == t;
    } else {
      var s', ch := s[..|s| - 1], s[|s| - 1];
      var head, e := Encode(s', encodeSlash), EncodeChar(ch, encodeSlash);
      DecodeAfter(s', encodeSlash, e + t);
      DecodeOne(ch, encodeSlash, t);
      Associate(head, e, t);
      Associate(s', [ch], Decode(t));
      assert s' + [ch] == s;
    }
  }

  // Decoding is a left inverse, whether or not slashes are encoded.
  lemma DecodeEncode(s: string, encodeSlash: bool)
    requires ByteString(s)
    ensures Decode(Encode(s, encodeSlash)) == s
  {
    DecodeAfter(s, encodeSlash, "");
    assert Encode(s, encodeSlash) + "" == Encode(s, encodeSlash);
  }

  lemma EncodeIsInjective(s: string, t: string, encodeSlash: bool)
    requires ByteString(s) && ByteString(t) && Encode(s, encodeSlash) == Encode(t, encodeSlash)
    ensures s == t
  {
    DecodeEncode(s, encodeSlash);
    DecodeEncode(t, encodeSlash);
  }

  // The result has only unreserved characters, '%', and the slashes left alone.
  lemma {:induction false} EncodedAlphabet(s: string, encodeSlash: bool, i: nat)
    requires ByteString(s) && i < |Encode(s, encodeSlash)|
    ensures var ch := Encode(s, encodeSlash)[i]; Unreserved(ch) || ch == '%' || (ch == '/' && !encodeSlash)
    decreases |s|
  {
    if s != "" {
      var head := Encode(s[..|s| - 1], encodeSlash);
      if i < |head| { EncodedAlphabet(s[..|s| - 1], encodeSlash, i); }
    }
  }

  // ---- What is left alone, and what is not ----

  predicate LetterDigitOrMark(ch: char) {
    'A' <= ch <= 'Z' || 'a' <= ch <= 'z' || '0' <= ch <= '9' || ch == '-' || ch == '_' || ch == '.' || ch == '~'
  }

  lemma {:induction false} EncodesPiecewise(s: string, t: string, encodeSlash: bool)
    requires ByteString(s) && ByteString(t)
    ensures Encode(s + t, encodeSlash) == Encode(s, encodeSlash) + Encode(t, encodeSlash)
    decreases |t|
  {
    if t == "" {
      assert s + t == s;
    } else {
      var t', ch := t[..|t| - 1], t[|t| - 1];
      EncodesPiecewise(s, t', encodeSlash);
      assert (s + t)[..|s + t| - 1] == s + t' && (s + t)[|s + t| - 1] == ch;
      Associate(Encode(s, encodeSlash), Encode(t', encodeSlash), EncodeChar(ch, encodeSlash));
    }
  }

  // Letters, digits and the four marks encode to themselves, and so do slashes that are to
  // be left alone.
  lemma {:induction false} PlainStays(s: string, encodeSlash: bool)
    requires forall i :: 0 <= i < |s| ==> LetterDigitOrMark(s[i]) || (!encodeSlash && s[i] == '/')
    ensures ByteString(s) && Encode(s, encodeSlash) == s
    decreases |s|
  {
    if s != "" {
      PlainStays(s[..|s| - 1], encodeSlash);
      assert s == s[..|s| - 1] + [s[|s| - 1]];
    }
  }

  // Everything else becomes a percent sign and two upper-case hexadecimal digits.
  lemma OthersAreEscaped(ch: char, encodeSlash: bool)
    requires ch as int < 256 && !LetterDigitOrMark(ch) && (ch == '/' ==> encodeSlash)
    ensures var digits, n := "0123456789ABCDEF", ch as int;
            ByteString([ch]) && Encode([ch], encodeSlash) == ['%', digits[n / 16], digits[n % 16]]
  {
    assert [ch][..0] == "" && Encode("", encodeSlash) == "";
    HexDigits(ch as int / 16);
    HexDigits(ch as int % 16);
    assert Encode([ch], encodeSlash) == "" + EncodeChar(ch, encodeSlash);
    if ch == '/' { assert ch as int == 47; }
  }

  lemma HexDigits(n: nat)
    requires n < 16
    ensures HexUpper(n) == "0123456789ABCDEF"[n]
  {
  }
}
