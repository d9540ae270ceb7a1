/** Searching and splitting strings. */
module GoStrings {

  lemma Associate(a: string, b: string, c: string)
    ensures (a + b) + c == a + (b + c)
  {
  }

  function FirstIndex(s: string, ch: char): (i: nat)
    requires ch in s
    ensures i < |s| && s[i] == ch && ch !in s[..i]
  {
    if s[0] == ch then 0
    else
      assert s == [s[0]] + s[1..];
      var i := FirstIndex(s[1..], ch);
      assert s[..i + 1] == [s[0]] + s[1..][..i];
      i + 1
  }

  function Split(s: string, ch: char): seq<string>
    decreases |s|
  {
    if ch !in s then [s] else [s[..FirstIndex(s, ch)]] + Split(s[FirstIndex(s, ch) + 1..], ch)
  }

  lemma FirstIndexOf(a: string, b: string, ch: char)
    requires ch !in a
    ensures ch in a + [ch] + b && FirstIndex(a + [ch] + b, ch) == |a|
  {
    var s := a + [ch] + b;
    assert s[|a|] == ch;
    var i := FirstIndex(s, ch);
    assert forall j :: 0 <= j < i ==> s[j] == s[..i][j] && s[j] != ch;
    assert forall j :: 0 <= j < |a| ==> s[j] == a[j] && s[j] != ch;
    assert i == |a|;
  }

  lemma {:induction false} SplitSnoc(a: string, b: string, ch: char)
    requires ch !in b
    ensures Split(a + [ch] + b, ch) == Split(a, ch) + [b]
    decreases |a|
  {
    var s := a + [ch] + b;
    if ch !in a {
      FirstIndexOf(a, b, ch);
      assert s[..|a|] == a && s[|a| + 1..] == b;
      assert Split(b, ch) == [b];
    } else {
      var i := FirstIndex(a, ch);
      var rest := a[i + 1..];
      assert a == a[..i] + [ch] + rest;
      assert s == a[..i] + [ch] + (rest + [ch] + b);
      FirstIndexOf(a[..i], rest + [ch] + b, ch);
      assert s[..i] == a[..i] && s[i + 1..] == rest + [ch] + b;
      SplitSnoc(rest, b, ch);
    }
  }

  lemma {:induction false} SplitConcat(a: string, b: string, ch: char)
    ensures Split(a + [ch] + b, ch) == Split(a, ch) + Split(b, ch)
    decreases |a|
  {
    var s := a + [ch] + b;
    if ch !in a {
      FirstIndexOf(a, b, ch);
      assert s[..|a|] == a && s[|a| + 1..] == b;
    } else {
      var i := FirstIndex(a, ch);
      var rest := a[i + 1..];
      assert a == a[..i] + [ch] + rest;
      assert s == a[..i] + [ch] + (rest + [ch] + b);
      FirstIndexOf(a[..i], rest + [ch] + b, ch);
      assert s[..i] == a[..i] && s[i + 1..] == rest + [ch] + b;
      SplitConcat(rest, b, ch);
    }
  }

  lemma {:induction false} SplitParts(s: string, ch: char)
    ensures Split(s, ch) != [] && forall i :: 0 <= i < |Split(s, ch)| ==> ch !in Split(s, ch)[i]
    decreases |s|
  {
    if ch in s { SplitParts(s[FirstIndex(s, ch) + 1..], ch); }
  }
}
