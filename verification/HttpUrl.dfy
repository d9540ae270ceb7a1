/** From a store id and a digest to the path that the handler of http.go sees: the
    client joins them into a URL as they are, and the URL's parser takes the text apart
    again. Strings are byte strings here. */
module HttpUrl {
  import opened Base
  import opened GoStrings
  import opened Digests

  // ---- The client: the URL's text after the host ----

  function PathOf(id: StoreId, d: Digest): string {
    if d == "" then "/" + id else "/" + id + "/" + d
  }

  // ---- net/url and the request line ----

  predicate IsControl(ch: char) {
    ch as int < 32 || ch as int == 127
  }

  predicate HasControl(s: string) {
    exists i :: 0 <= i < |s| && IsControl(s[i])
  }

  function Before(s: string, ch: char): string {
    if ch in s then s[..FirstIndex(s, ch)] else s
  }

  function Behind(s: string, ch: char): string {
    if ch in s then s[FirstIndex(s, ch) + 1..] else ""
  }

  function HexValue(ch: char): Option<nat> {
    if '0' <= ch <= '9' then Some((ch - '0') as nat)
    else if 'a' <= ch <= 'f' then Some((ch - 'a') as nat + 10)
    else if 'A' <= ch <= 'F' then Some((ch - 'A') as nat + 10)
    else None
  }

  // None is a bad escape.
  function Unescape(s: string): Option<string> {
    if s == "" then Some("")
    else if s[0] != '%' then Prepend(s[0], Unescape(s[1..]))
    else if |s| < 3 || HexValue(s[1]).None? || HexValue(s[2]).None? then None
    else Prepend((16 * HexValue(s[1]).value + HexValue(s[2]).value) as char, Unescape(s[3..]))
  }

  function Prepend(ch: char, rest: Option<string>): Option<string> {
    match rest
    case Some(t) => Some([ch] + t)
    case None => None
  }

  // The path as the handler reads it. None: the client or the server refuses the request.
  function UrlPath(raw: string): Option<string> {
    var u := Before(raw, '#');
    if HasControl(u) || Unescape(Behind(raw, '#')).None? || ' ' in Behind(u, '?') then None
    else Unescape(Before(u, '?'))
  }

  // ---- The handler ----

  // None is ok == false.
  function ParsePath(path: string): Option<(StoreId, Digest)> {
    var s := if path != "" && path[0] == '/' then path[1..] else path;
    if '/' !in s then (if s == "" then None else Some((s, "")))
    else
      var i := FirstIndex(s, '/');
      if '/' in s[i + 1..] then None else Some((s[..i], s[i + 1..]))
  }

  // The store and digest that a call on (id, d) reaches.
  function Reached(id: StoreId, d: Digest): Option<(StoreId, Digest)> {
    match UrlPath(PathOf(id, d))
    case Some(path) => ParsePath(path)
    case None => None
  }

  // ---- What passes unchanged ----

  predicate Safe(s: string) {
    '/' !in s && '#' !in s && '?' !in s && '%' !in s && !HasControl(s)
  }

  lemma {:induction false} UnescapeShrinks(s: string)
    ensures '%' !in s ==> Unescape(s) == Some(s)
    ensures Unescape(s).Some? ==> |Unescape(s).value| <= |s| && (|Unescape(s).value| == |s| ==> '%' !in s)
  {
    if s != "" {
      assert s == [s[0]] + s[1..];
      UnescapeShrinks(s[1..]);
      if |s| >= 3 { UnescapeShrinks(s[3..]); }
    }
  }

  lemma BeforeShrinks(s: string, ch: char)
    ensures |Before(s, ch)| <= |s| && (|Before(s, ch)| == |s| <==> ch !in s)
  {
  }

  // The parts of a path that parses.
  lemma ParsedParts(path: string, id: StoreId, d: Digest)
    requires path != "" && path[0] == '/' && ParsePath(path) == Some((id, d))
    ensures '/' !in id && '/' !in d && |path| >= |PathOf(id, d)|
  {
    var s := path[1..];
    assert path == "/" + s;
    if '/' in s {
      var i := FirstIndex(s, '/');
      assert s == id + "/" + d;
    }
  }

  lemma PathParses(id: StoreId, d: Digest)
    requires '/' !in id && '/' !in d && (d == "" ==> id != "")
    ensures ParsePath(PathOf(id, d)) == Some((id, d))
  {
    var path := PathOf(id, d);
    if d == "" {
      assert path[1..] == id;
    } else {
      var s := id + ['/'] + d;
      assert path[1..] == s;
      FirstIndexOf(id, d, '/');
      assert s[..|id|] == id && s[|id| + 1..] == d;
    }
  }

  lemma NoControl(a: string, b: string)
    ensures HasControl(a + b) <==> HasControl(a) || HasControl(b)
  {
    if HasControl(a) {
      var i :| 0 <= i < |a| && IsControl(a[i]);
      assert IsControl((a + b)[i]);
    }
    if HasControl(b) {
      var i :| 0 <= i < |b| && IsControl(b[i]);
      assert IsControl((a + b)[|a| + i]);
    }
  }

  lemma PathChars(id: StoreId, d: Digest, ch: char)
    requires ch != '/'
    ensures ch in PathOf(id, d) <==> ch in id || ch in d
    ensures HasControl(PathOf(id, d)) <==> HasControl(id) || HasControl(d)
  {
    NoControl("/", id);
    NoControl("/" + id, "/");
    NoControl("/" + id + "/", d);
    assert !HasControl("/");
  }

  lemma SafePassesUnchanged(id: StoreId, d: Digest)
    requires Safe(id) && Safe(d)
    ensures UrlPath(PathOf(id, d)) == Some(PathOf(id, d))
  {
    PathChars(id, d, '#');
    PathChars(id, d, '?');
    PathChars(id, d, '%');
    UnescapeShrinks(PathOf(id, d));
    assert Unescape("") == Some("");
  }

  // A call reaches its own store and digest exactly if neither has a slash, a character
  // that URLs give a meaning, or a control character, and something names the store.
  lemma PathRoundTrip(id: StoreId, d: Digest)
    ensures Reached(id, d) == Some((id, d)) <==> Safe(id) && Safe(d) && (d == "" ==> id != "")
  {
    var raw := PathOf(id, d);
    if Safe(id) && Safe(d) && (d == "" ==> id != "") {
      SafePassesUnchanged(id, d);
      PathParses(id, d);
    }
    if Reached(id, d) == Some((id, d)) {
      ReachedIsWhole(id, d);
      PathChars(id, d, '#');
      PathChars(id, d, '?');
      PathChars(id, d, '%');
    }
  }

  lemma StartsWithSlash(raw: string)
    requires raw != "" && raw[0] == '/' && UrlPath(raw).Some?
    ensures UrlPath(raw).value != "" && UrlPath(raw).value[0] == '/'
  {
    var u := Before(raw, '#');
    assert u != "" && u[0] == '/';
    var p := Before(u, '?');
    assert p != "" && p[0] == '/';
  }

  lemma ReachedIsWhole(id: StoreId, d: Digest)
    requires Reached(id, d) == Some((id, d))
    ensures var raw := PathOf(id, d); '#' !in raw && '?' !in raw && '%' !in raw && !HasControl(raw)
    ensures '/' !in id && '/' !in d && (d == "" ==> id != "")
  {
    var raw := PathOf(id, d);
    var path := UrlPath(raw).value;
    StartsWithSlash(raw);
    ParsedParts(path, id, d);
    var u := Before(raw, '#');
    BeforeShrinks(raw, '#');
    BeforeShrinks(u, '?');
    UnescapeShrinks(Before(u, '?'));
  }

  lemma ValidIsSafe(d: Digest)
    requires Valid(d)
    ensures Safe(d) && d != ""
  {
    NoSlash(d);
    assert d == Algorithm(d) + [':'] + d[7..];
    assert forall i :: 0 <= i < 6 ==> d[i] == Algorithm(d)[i];
    assert Algorithm(d) == "sha256" || Algorithm(d) == "sha384" || Algorithm(d) == "sha512";
    assert forall i :: 6 < i < |d| ==> IsHexDigit(d[i]);
  }

  // ---- What does not ----

  lemma CutAt(a: string, b: string, ch: char)
    requires ch !in a
    ensures Before(a + [ch] + b, ch) == a && Behind(a + [ch] + b, ch) == b
  {
    FirstIndexOf(a, b, ch);
    var s := a + [ch] + b;
    assert s[..|a|] == a && s[|a| + 1..] == b;
  }

  // Whatever follows a question mark is lost: the call acts on what is before it.
  lemma QueryIsCut(id: StoreId, d: Digest, rest: string)
    requires Safe(id) && Safe(d) && (d == "" ==> id != "") && '#' !in rest && ' ' !in rest && !HasControl(rest)
    ensures d != "" ==> Reached(id, d + "?" + rest) == Some((id, d))
    ensures d == "" ==> Reached(id + "?" + rest, "") == Some((id, ""))
  {
    var p := PathOf(id, d);
    var raw := if d != "" then PathOf(id, d + "?" + rest) else PathOf(id + "?" + rest, "");
    assert raw == p + ['?'] + rest;
    PathChars(id, d, '#');
    PathChars(id, d, '?');
    PathChars(id, d, '%');
    CutAt(p, rest, '?');
    NoControl(p, ['?']);
    NoControl(p + ['?'], rest);
    assert !HasControl(['?']);
    UnescapeShrinks(p);
    PathParses(id, d);
    assert Unescape("") == Some("");
  }

  // With a space behind the question mark, or a bad escape behind a "#", nothing is reached.
  lemma TheseAreRefused(id: StoreId, rest: string)
    requires Safe(id) && id != "" && '#' !in rest && !HasControl(rest)
    ensures ' ' in rest ==> Reached(id + "?" + rest, "") == None
    ensures Unescape(rest).None? ==> Reached(id + "#" + rest, "") == None
  {
    var p := PathOf(id, "");
    PathChars(id, "", '#');
    PathChars(id, "", '?');
    assert PathOf(id + "?" + rest, "") == p + ['?'] + rest && PathOf(id + "#" + rest, "") == p + ['#'] + rest;
    CutAt(p, rest, '?');
    CutAt(p, rest, '#');
  }

  // An Add to the store "team?x" lands in the store "team".
  lemma AddLandsElsewhere(id: StoreId)
    requires Safe(id) && id != ""
    ensures Reached(id + "?x", "") == Some((id, ""))
  {
    assert (id + "?") + "x" == id + "?x";
    QueryIsCut(id, "", "x");
  }

  // "%41" is the store "A".
  lemma EscapedStore(d: Digest)
    requires Safe(d) && d != ""
    ensures Reached("%41", d) == Some(("A", d))
  {
    var raw := PathOf("%41", d);
    PathChars("%41", d, '#');
    PathChars("%41", d, '?');
    var tail := ['/'] + d;
    UnescapeShrinks(tail);
    assert raw == ['/'] + (['%', '4', '1'] + tail);
    assert (['%', '4', '1'] + tail)[3..] == tail;
    assert Unescape(['%', '4', '1'] + tail) == Prepend('A', Some(tail));
    assert raw[1..] == ['%', '4', '1'] + tail;
    assert Unescape(raw) == Some(['/'] + (['A'] + tail));
    assert ['/'] + (['A'] + tail) == PathOf("A", d);
    assert Unescape("") == Some("");
    PathParses("A", d);
  }
}
