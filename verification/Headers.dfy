/** Header names as net/http treats them, and decimal numbers. */
module Headers {
  import opened Base

  type Header = map<string, seq<string>>

  // The characters of a header field name, RFC 7230 section 3.2.6.
  predicate IsTokenChar(ch: char) {
    '0' <= ch <= '9' || 'a' <= ch <= 'z' || 'A' <= ch <= 'Z' || IsTokenMark(ch)
  }

  predicate IsTokenMark(ch: char) {
    || ch == '!' || ch == '#' || ch == '$' || ch == '%' || ch == '&' || ch == '\'' || ch == '*' || ch == '+'
    || ch == '-' || ch == '.' || ch == '^' || ch == '_' || ch == '`' || ch == '|' || ch == '~'
  }

  predicate IsToken(s: string) {
    forall i :: 0 <= i < |s| ==> IsTokenChar(s[i])
  }

  function UpperChar(ch: char): char {
    if 'a' <= ch <= 'z' then ch - 'a' + 'A' else ch
  }

  function LowerChar(ch: char): char {
    if 'A' <= ch <= 'Z' then ch - 'A' + 'a' else ch
  }

  function CanonFrom(s: string, upper: bool): (r: string)
    ensures |r| == |s|
    ensures IsToken(s) ==> IsToken(r)
  {
    if s == "" then ""
    else
      var ch := if upper then UpperChar(s[0]) else LowerChar(s[0]);
      [ch] + CanonFrom(s[1..], ch == '-')
  }

  // CanonicalMIMEHeaderKey: a name that is no token stays as it is.
  function Canon(s: string): string {
    if IsToken(s) then CanonFrom(s, true) else s
  }

  // Each letter goes by the character before it.
  lemma {:induction false} CanonFromAt(s: string, upper: bool, i: nat)
    requires i < |s|
    ensures CanonFrom(s, upper)[i] == if (if i == 0 then upper else s[i - 1] == '-') then UpperChar(s[i]) else LowerChar(s[i])
  {
    if i > 0 {
      var ch := if upper then UpperChar(s[0]) else LowerChar(s[0]);
      CanonFromAt(s[1..], ch == '-', i - 1);
    }
  }

  function CasedAt(s: string, i: nat): char
    requires i < |s|
  {
    if i == 0 || s[i - 1] == '-' then UpperChar(s[i]) else LowerChar(s[i])
  }

  // A name whose letters already have the right case.
  predicate Cased(s: string) {
    forall i: nat :: i < |s| ==> s[i] == CasedAt(s, i)
  }

  lemma CasedIsCanonical(s: string)
    requires IsToken(s)
    ensures Canon(s) == s <==> Cased(s)
  {
    forall i: nat | i < |s| ensures CanonFrom(s, true)[i] == CasedAt(s, i) {
      CanonFromAt(s, true, i);
    }
  }

  lemma {:induction false} CanonFromIsIdempotent(s: string, upper: bool)
    ensures CanonFrom(CanonFrom(s, upper), upper) == CanonFrom(s, upper)
  {
    if s != "" {
      var r := CanonFrom(s, upper);
      CanonFromIsIdempotent(s[1..], r[0] == '-');
      assert r[1..] == CanonFrom(s[1..], r[0] == '-');
    }
  }

  lemma CanonIsIdempotent(s: string)
    ensures Canon(Canon(s)) == Canon(s)
  {
    if IsToken(s) { CanonFromIsIdempotent(s, true); }
  }

  lemma {:induction false} CanonFromConcat(s: string, t: string, upper: bool)
    requires s != "" && s[|s| - 1] == '-'
    ensures CanonFrom(s + t, upper) == CanonFrom(s, upper) + CanonFrom(t, true)
    decreases |s|
  {
    assert (s + t)[0] == s[0] && (s + t)[1..] == s[1..] + t;
    if |s| == 1 {
      assert s[1..] + t == t;
    } else {
      var ch := if upper then UpperChar(s[0]) else LowerChar(s[0]);
      CanonFromConcat(s[1..], t, ch == '-');
    }
  }

  // A prefix that ends in a dash leaves the rest to be canonicalized on its own.
  lemma CanonOfPrefixed(s: string, t: string)
    requires s != "" && s[|s| - 1] == '-' && IsToken(s) && Canon(s) == s
    ensures Canon(s + t) == s + Canon(t)
  {
    assert IsToken(s + t) <==> IsToken(t) by {
      if IsToken(s + t) { assert forall i :: 0 <= i < |t| ==> t[i] == (s + t)[|s| + i]; }
    }
    CanonFromConcat(s, t, true);
  }

  function Lower(s: string): (r: string)
    ensures |r| == |s|
  {
    if s == "" then "" else [LowerChar(s[0])] + Lower(s[1..])
  }

  // strings.EqualFold, on ASCII.
  predicate EqualFold(s: string, t: string) {
    Lower(s) == Lower(t)
  }

  // ---- strings.Join and strconv ----

  function Join(values: seq<string>, sep: string): string {
    if values == [] then "" else if |values| == 1 then values[0] else values[0] + sep + Join(values[1..], sep)
  }

  function Decimal(n: nat): (s: string)
    ensures s != "" && forall i :: 0 <= i < |s| ==> '0' <= s[i] <= '9'
  {
    if n < 10 then ['0' + n as char] else Decimal(n / 10) + ['0' + (n % 10) as char]
  }

  function ParseDecimal(s: string): Option<nat> {
    if s == "" then None
    else
      var last := s[|s| - 1];
      if !('0' <= last <= '9') then None
      else
        var digit := (last - '0') as nat;
        if |s| == 1 then Some(digit)
        else
          match ParseDecimal(s[..|s| - 1])
          case Some(n) => Some(n * 10 + digit)
          case None => None
  }

  lemma {:induction false} DecimalRoundTrip(n: nat)
    ensures ParseDecimal(Decimal(n)) == Some(n)
  {
    if n >= 10 {
      DecimalRoundTrip(n / 10);
      assert Decimal(n)[..|Decimal(n)| - 1] == Decimal(n / 10);
    }
  }

  // strconv.ParseInt with its error ignored: no number reads as zero.
  function ParseInt(s: string): int {
    if s != "" && s[0] == '-' then
      var n: int := NumberOr0(s[1..]); -n
    else NumberOr0(if s != "" && s[0] == '+' then s[1..] else s)
  }

  function NumberOr0(s: string): nat {
    match ParseDecimal(s)
    case Some(n) => n
    case None => 0
  }

  lemma ParseIntOfDecimal(n: nat)
    ensures ParseInt(Decimal(n)) == n
  {
    DecimalRoundTrip(n);
    assert '0' <= Decimal(n)[0] <= '9';
  }

  // ---- Names that differ only in case have one canonical form ----

  lemma {:induction false} CanonFromIgnoresCase(s: string, upper: bool)
    ensures CanonFrom(Lower(s), upper) == CanonFrom(s, upper)
  {
    if s != "" {
      assert Lower(s) == [LowerChar(s[0])] + Lower(s[1..]);
      assert Lower(s)[1..] == Lower(s[1..]);
      CanonFromIgnoresCase(s[1..], s[0] == '-');
    }
  }

  lemma {:induction false} LowerIsToken(s: string)
    ensures IsToken(Lower(s)) == IsToken(s)
  {
    if s != "" {
      LowerIsToken(s[1..]);
      assert s == [s[0]] + s[1..] && Lower(s) == [LowerChar(s[0])] + Lower(s[1..]);
      TokenParts(s[0], s[1..]);
      TokenParts(LowerChar(s[0]), Lower(s[1..]));
    }
  }

  lemma TokenParts(ch: char, s: string)
    ensures IsToken([ch] + s) <==> IsTokenChar(ch) && IsToken(s)
  {
    var t := [ch] + s;
    if IsToken(t) { assert IsTokenChar(t[0]) && forall i :: 0 <= i < |s| ==> s[i] == t[i + 1]; }
  }

  lemma FoldedNamesAgree(s: string, t: string)
    requires EqualFold(s, t) && IsToken(t)
    ensures Canon(s) == Canon(t)
  {
    LowerIsToken(s);
    LowerIsToken(t);
    CanonFromIgnoresCase(s, true);
    CanonFromIgnoresCase(t, true);
  }

  // A number below ten is one digit, and each further digit is appended.
  lemma DecimalGrows(n: nat, digit: nat)
    requires n > 0 && digit < 10
    ensures Decimal(digit) == ["0123456789"[digit]] && Decimal(n * 10 + digit) == Decimal(n) + ["0123456789"[digit]]
  {
    assert (n * 10 + digit) / 10 == n && (n * 10 + digit) % 10 == digit;
  }

  lemma OnlyTokensAreCased(s: string)
    requires !IsToken(s)
    ensures Canon(s) == s
  {
  }
}
