/** Object keys and request paths: distinct objects never meet. */
module S3Keys {
  import opened Base
  import opened Digests
  import opened Encoding

  function BlobKey(prefix: string, d: Digest): string
    requires Valid(d)
  {
    prefix + "blob/" + Algorithm(d) + "/" + Encoded(d)
  }

  function RefKey(prefix: string, d: Digest, id: StoreId): string
    requires Valid(d)
  {
    prefix + "refs/" + Algorithm(d) + "/" + Encoded(d) + "/" + id
  }

  // Up to the first slash, and after it.
  lemma SlashSplits(a: string, b: string, a': string, b': string)
    requires '/' !in a && '/' !in a' && a + "/" + b == a' + "/" + b'
    ensures a == a' && b == b'
  {
    var s := a + "/" + b;
    assert s[|a|] == '/' && s[|a'|] == '/';
    assert forall i :: 0 <= i < |a| ==> s[i] == a[i] && s[i] != '/';
    assert forall i :: 0 <= i < |a'| ==> s[i] == a'[i] && s[i] != '/';
    assert |a| == |a'|;
    assert a == s[..|a|] && b == s[|a| + 1..];
    assert a' == s[..|a|] && b' == s[|a| + 1..];
  }

  lemma DropPrefix(p: string, a: string, b: string)
    requires p + a == p + b
    ensures a == b
  {
    assert a == (p + a)[|p|..] && b == (p + b)[|p|..];
  }

  lemma RefKeyIsInjective(prefix: string, d: Digest, id: StoreId, d': Digest, id': StoreId)
    requires Valid(d) && Valid(d') && RefKey(prefix, d, id) == RefKey(prefix, d', id')
    ensures d == d' && id == id'
  {
    NoSlash(d);
    NoSlash(d');
    var rest, rest' := Encoded(d) + "/" + id, Encoded(d') + "/" + id';
    assert RefKey(prefix, d, id) == (prefix + "refs/") + (Algorithm(d) + "/" + rest);
    assert RefKey(prefix, d', id') == (prefix + "refs/") + (Algorithm(d') + "/" + rest');
    DropPrefix(prefix + "refs/", Algorithm(d) + "/" + rest, Algorithm(d') + "/" + rest');
    SlashSplits(Algorithm(d), rest, Algorithm(d'), rest');
    SlashSplits(Encoded(d), id, Encoded(d'), id');
    PartsDetermine(d, d');
  }

  lemma BlobKeyIsInjective(prefix: string, d: Digest, d': Digest)
    requires Valid(d) && Valid(d') && BlobKey(prefix, d) == BlobKey(prefix, d')
    ensures d == d'
  {
    NoSlash(d);
    NoSlash(d');
    assert BlobKey(prefix, d) == (prefix + "blob/") + (Algorithm(d) + "/" + Encoded(d));
    assert BlobKey(prefix, d') == (prefix + "blob/") + (Algorithm(d') + "/" + Encoded(d'));
    DropPrefix(prefix + "blob/", Algorithm(d) + "/" + Encoded(d), Algorithm(d') + "/" + Encoded(d'));
    SlashSplits(Algorithm(d), Encoded(d), Algorithm(d'), Encoded(d'));
    PartsDetermine(d, d');
  }

  lemma KindsAreDisjoint(prefix: string, d: Digest, d': Digest, id: StoreId)
    requires Valid(d) && Valid(d')
    ensures BlobKey(prefix, d) != RefKey(prefix, d', id)
  {
    assert BlobKey(prefix, d)[|prefix|] == 'b' && RefKey(prefix, d', id)[|prefix|] == 'r';
  }

  // ---- Request paths ----

  function RawPath(pathStyle: bool, bucket: string, key: string): string {
    if pathStyle then "/" + bucket + "/" + key else "/" + key
  }

  // The path part of the request URL, as newRequest and presignGet build it.
  function RequestPath(pathStyle: bool, bucket: string, key: string): string
    requires ByteString(RawPath(pathStyle, bucket, key))
  {
    Encode(RawPath(pathStyle, bucket, key), false)
  }

  // Two keys of a bucket never share a request path.
  lemma PathsAreDistinct(pathStyle: bool, bucket: string, key: string, key': string)
    requires ByteString(RawPath(pathStyle, bucket, key)) && ByteString(RawPath(pathStyle, bucket, key'))
    requires RequestPath(pathStyle, bucket, key) == RequestPath(pathStyle, bucket, key')
    ensures key == key'
  {
    EncodeIsInjective(RawPath(pathStyle, bucket, key), RawPath(pathStyle, bucket, key'), false);
    var p := if pathStyle then "/" + bucket + "/" else "/";
    assert RawPath(pathStyle, bucket, key) == p + key && RawPath(pathStyle, bucket, key') == p + key';
    DropPrefix(p, key, key');
  }

  datatype Object = BlobOf(digest: Digest) | RefOf(digest: Digest, id: StoreId)

  function KeyOf(prefix: string, o: Object): string
    requires Valid(o.digest)
  {
    match o
    case BlobOf(d) => BlobKey(prefix, d)
    case RefOf(d, id) => RefKey(prefix, d, id)
  }

  // End to end: the request path tells which blob or marker is meant.
  lemma PathNamesOneObject(pathStyle: bool, bucket: string, prefix: string, o: Object, o': Object)
    requires Valid(o.digest) && Valid(o'.digest)
    requires ByteString(RawPath(pathStyle, bucket, KeyOf(prefix, o))) && ByteString(RawPath(pathStyle, bucket, KeyOf(prefix, o')))
    requires RequestPath(pathStyle, bucket, KeyOf(prefix, o)) == RequestPath(pathStyle, bucket, KeyOf(prefix, o'))
    ensures o == o'
  {
    PathsAreDistinct(pathStyle, bucket, KeyOf(prefix, o), KeyOf(prefix, o'));
    match o
    case BlobOf(d) =>
      if o'.RefOf? { KindsAreDisjoint(prefix, d, o'.digest, o'.id); } else { BlobKeyIsInjective(prefix, d, o'.digest); }
    case RefOf(d, id) =>
      if o'.BlobOf? { KindsAreDisjoint(prefix, o'.digest, d, id); } else { RefKeyIsInjective(prefix, d, id, o'.digest, o'.id); }
  }

  // A path of plain characters and slashes is sent as it is, with or without the bucket.
  lemma PlainRequestPath(pathStyle: bool, bucket: string, key: string)
    requires forall i :: 0 <= i < |bucket| ==> LetterDigitOrMark(bucket[i])
    requires forall i :: 0 <= i < |key| ==> LetterDigitOrMark(key[i]) || key[i] == '/'
    ensures ByteString(RawPath(pathStyle, bucket, key))
    ensures RequestPath(pathStyle, bucket, key) == if pathStyle then "/" + bucket + "/" + key else "/" + key
  {
    PlainStays(RawPath(pathStyle, bucket, key), false);
  }

  // Stores under prefixes that do not extend one another never share an object.
  lemma PrefixesAreApart(prefix: string, prefix': string, d: Digest, d': Digest, id: StoreId, id': StoreId)
    requires Valid(d) && Valid(d') && !(prefix <= prefix') && !(prefix' <= prefix)
    ensures BlobKey(prefix, d) != BlobKey(prefix', d') && RefKey(prefix, d, id) != RefKey(prefix', d', id')
    ensures BlobKey(prefix, d) != RefKey(prefix', d', id')
  {
    var i :| 0 <= i < |prefix| && i < |prefix'| && prefix[i] != prefix'[i];
    assert BlobKey(prefix, d)[i] == prefix[i] && BlobKey(prefix', d')[i] == prefix'[i];
    assert RefKey(prefix, d, id)[i] == prefix[i] && RefKey(prefix', d', id')[i] == prefix'[i];
  }

  // The keys of a digest, from its parts.
  lemma KeysOfParts(prefix: string, algorithm: string, hex: string, id: StoreId)
    requires |algorithm| == 6 && Valid(algorithm + ":" + hex)
    ensures BlobKey(prefix, algorithm + ":" + hex) == prefix + "blob/" + algorithm + "/" + hex
    ensures RefKey(prefix, algorithm + ":" + hex, id) == prefix + "refs/" + algorithm + "/" + hex + "/" + id
  {
    var d := algorithm + ":" + hex;
    assert Algorithm(d) == algorithm && Encoded(d) == hex;
  }
}
