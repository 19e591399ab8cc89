/** The cache protocol handlers (cache-sidecar/internal/cacheproto/handler.go) over the in-memory
    store: create, upload, finalize, look up, download. */
module CacheHandler {
  import opened Options
  import opened Decimal
  import opened ObjectKeys
  import opened CacheStore
  import opened PercentEncoding
  import Sorting

  const BLOBS := "/_apis/artifactcache/blobs/"
  const UPLOADS := "/_apis/cache-upload/"

  datatype Pending = Pending(key: string, version: string, size: int)

  datatype Finalized = Done | BadSize | NotFound | SizeMismatch

  function TrimPrefix(s: string, p: string): string { if p <= s then s[|p|..] else s }

  function TrimRight(s: string, c: char): string {
    if s != "" && s[|s| - 1] == c then TrimRight(s[..|s| - 1], c) else s
  }

  lemma TrimPrefixExact(p: string, s: string)
    ensures TrimPrefix(p + s, p) == s
    ensures !(p <= s) ==> TrimPrefix(s, p) == s
  {
  }

  /** Cuts off all of that character at the end, and nothing else. */
  lemma {:induction false} TrimRightExact(s: string, c: char)
    ensures TrimRight(s, c) <= s && forall i :: |TrimRight(s, c)| <= i < |s| ==> s[i] == c
    ensures TrimRight(s, c) == "" || TrimRight(s, c)[|TrimRight(s, c)| - 1] != c
  {
    if s != "" && s[|s| - 1] == c {
      TrimRightExact(s[..|s| - 1], c);
    }
  }

  // ----- size_bytes -----

  /** The 64-bit value an unbounded computation wraps around to. */
  function Wrap64(x: int): (r: int)
    ensures MIN_INT64 <= r <= MAX_INT64
    ensures MIN_INT64 <= x <= MAX_INT64 ==> r == x
  {
    (x + 0x8000_0000_0000_0000) % 0x1_0000_0000_0000_0000 - 0x8000_0000_0000_0000
  }

  lemma WrapShift(x: int, k: int)
    ensures Wrap64(x + k * 0x1_0000_0000_0000_0000) == Wrap64(x)
  {
  }

  lemma WrapStep(a: int, d: int)
    ensures Wrap64(Wrap64(a) * 10 + d) == Wrap64(a * 10 + d)
  {
    var k := (a + 0x8000_0000_0000_0000) / 0x1_0000_0000_0000_0000;
    assert a == Wrap64(a) + k * 0x1_0000_0000_0000_0000;
    WrapShift(Wrap64(a) * 10 + d, 10 * k);
    assert a * 10 + d == Wrap64(a) * 10 + d + (10 * k) * 0x1_0000_0000_0000_0000;
  }

  /** The decimal value as a 64-bit number, None if anything but a digit occurs; 0 for no text. */
  method ParseSizeBytes(s: string) returns (r: Option<int>)
    ensures r == if s == "" then Some(0) else if IsDigits(s) then Some(Wrap64(NatValue(s))) else None
  {
    if s == "" {
      return Some(0);
    }
    var n := 0;
    for i := 0 to |s|
      invariant forall k :: 0 <= k < i ==> IsDigit(s[k])
      invariant n == Wrap64(NatValue(s[..i]))
    {
      if !IsDigit(s[i]) {
        assert !IsDigits(s);
        return None;
      }
      var d := s[i] as int - '0' as int;
      assert s[..i + 1][..i] == s[..i];
      WrapStep(NatValue(s[..i]), d);
      n := Wrap64(n * 10 + d);
    }
    assert s[..|s|] == s;
    return Some(n);
  }

  /** The size check of finalize lets a stored size pass. */
  predicate SizePasses(want: int, size: nat) { !(want > 0 && size != want) }

  /** The size a client claims: none for no text, and 0 counts as none. */
  predicate ClaimHolds(s: string, size: nat)
    requires IsDigits(s)
  {
    NatValue(s) == 0 || NatValue(s) == size
  }

  /** The check passes exactly the claimed size, for every size an object can have, if and only if
      the claim fits a signed 64-bit number. */
  lemma SizeCheckExact(s: string)
    requires IsDigits(s)
    ensures (forall size: nat | size <= MAX_INT64 :: SizePasses(Wrap64(NatValue(s)), size) <==> ClaimHolds(s, size))
       <==> NatValue(s) <= MAX_INT64
  {
    var want := Wrap64(NatValue(s));
    if NatValue(s) > MAX_INT64 {
      var size: nat := if want > 0 then want else 0;
      assert SizePasses(want, size) && !ClaimHolds(s, size);
    }
  }

  // ----- URLs -----

  /** The base of the URLs given out: the one there is, or scheme and host of the request. */
  function BaseFor(baseURL: string, tls: bool, host: string): string {
    if baseURL != "" then baseURL
    else (if tls then "https" else "http") + "://" + if host == "" then "127.0.0.1" else host
  }

  lemma BaseForExact(baseURL: string, host: string)
    requires baseURL != "" && host != ""
    ensures forall tls :: BaseFor(baseURL, tls, host) == BaseFor(baseURL, tls, "") == baseURL
    ensures BaseFor("", true, host) == "https://" + host && BaseFor("", false, host) == "http://" + host
    ensures BaseFor("", true, "") == "https://127.0.0.1" && BaseFor("", false, "") == "http://127.0.0.1"
  {
    assert "https" + "://" == "https://" && "http" + "://" == "http://";
  }

  function BaseOf(baseURL: string): string {
    if TrimRight(baseURL, '/') == "" then "http://127.0.0.1" else TrimRight(baseURL, '/')
  }

  /** A base that does not end in a slash is kept; none at all stands for the local host. */
  lemma BaseExact(baseURL: string)
    ensures BaseOf("") == "http://127.0.0.1"
    ensures baseURL != "" && baseURL[|baseURL| - 1] != '/' ==> BaseOf(baseURL) == baseURL
    ensures BaseOf(baseURL + "/") == BaseOf(baseURL)
  {
    assert (baseURL + "/")[..|baseURL|] == baseURL;
    TrimRightExact(baseURL, '/');
  }

  function BlobURL(baseURL: string, key: string, version: string): string
    requires ByteText(key) && ByteText(version)
  {
    BaseOf(baseURL) + BLOBS + PathEscape(key) + "/" + PathEscape(version)
  }

  /** Up to a query or a fragment. */
  function Path(s: string): string {
    if s == "" || s[0] == '?' || s[0] == '#' then "" else [s[0]] + Path(s[1..])
  }

  lemma {:induction false} PathExact(s: string)
    ensures Path(s) <= s && '?' !in Path(s) && '#' !in Path(s)
    ensures Path(s) != s ==> s[|Path(s)|] == '?' || s[|Path(s)|] == '#'
  {
    if s != "" && s[0] != '?' && s[0] != '#' {
      PathExact(s[1..]);
    }
  }

  /** The decoded path a server sees in a request for the URL. */
  function RequestPath(base: string, url: string): Option<string> {
    if base <= url then Unescape(Path(url[|base|..])) else None
  }

  /** strings.SplitN(s, "/", 2), if there is a slash. */
  function Cut(s: string): Option<(string, string)> {
    if s == "" then None
    else if s[0] == '/' then Some(("", s[1..]))
    else
      var r := Cut(s[1..]);
      if r.None? then None else Some(([s[0]] + r.value.0, r.value.1))
  }

  lemma {:induction false} CutAt(a: string, b: string)
    requires '/' !in a
    ensures Cut(a + "/" + b) == Some((a, b))
  {
    var s := a + "/" + b;
    if a == "" {
      assert s[1..] == b;
    } else {
      CutAt(a[1..], b);
      assert s[1..] == a[1..] + "/" + b && s[0] == a[0];
      assert [a[0]] + a[1..] == a;
    }
  }

  lemma {:induction false} CutHasNoSlash(s: string)
    ensures Cut(s).Some? ==> '/' !in Cut(s).value.0
  {
    if s != "" && s[0] != '/' {
      CutHasNoSlash(s[1..]);
    }
  }

  lemma {:induction false} WholePath(s: string)
    requires forall i :: 0 <= i < |s| ==> s[i] != '?' && s[i] != '#'
    ensures Path(s) == s
  {
    if s != "" {
      WholePath(s[1..]);
    }
  }

  lemma {:induction false} UnescapePlain(p: string, tail: string)
    requires forall i :: 0 <= i < |p| ==> p[i] != '%'
    ensures Unescape(p + tail) == Before(p, Unescape(tail))
  {
    if p == "" {
      assert p + tail == tail;
      assert Unescape(tail).Some? ==> "" + Unescape(tail).value == Unescape(tail).value;
    } else {
      UnescapePlain(p[1..], tail);
      assert (p + tail)[1..] == p[1..] + tail;
      BeforeTwice(p[0], p[1..], Unescape(tail));
      assert [p[0]] + p[1..] == p;
    }
  }

  /** An encoded segment, then more: decodes to the segment, then the rest. */
  lemma SegmentDecodes(p: string, s: string, tail: string, rest: string)
    requires ByteText(s) && Unescape(tail) == Some(rest)
    requires forall i :: 0 <= i < |p| ==> p[i] != '%'
    ensures Unescape(p + PathEscape(s) + tail) == Some(p + s + rest)
  {
    EscapeUndone(s, tail);
    UnescapePlain(p, PathEscape(s) + tail);
    Assoc(p, PathEscape(s), tail);
    Assoc(p, s, rest);
  }

  lemma Assoc(a: string, b: string, c: string)
    ensures a + b + c == a + (b + c)
  {
  }

  /** Nothing in the text ends a path or begins an escape. */
  predicate Literal(p: string) { forall i :: 0 <= i < |p| ==> p[i] != '?' && p[i] != '#' && p[i] != '%' }

  lemma BlobsIsLiteral()
    ensures Literal(BLOBS)
  {
  }

  lemma PathText(p: string, key: string, version: string)
    requires ByteText(key) && ByteText(version) && Literal(p)
    ensures Path(p + PathEscape(key) + "/" + PathEscape(version)) == p + PathEscape(key) + "/" + PathEscape(version)
  {
    EscapedIsSafe(key);
    EscapedIsSafe(version);
    WholePath(p + PathEscape(key) + "/" + PathEscape(version));
  }

  lemma PathDecodes(p: string, key: string, version: string)
    requires ByteText(key) && ByteText(version) && Literal(p)
    ensures Unescape(p + PathEscape(key) + "/" + PathEscape(version)) == Some(p + key + "/" + version)
  {
    TailDecodes(version);
    SegmentDecodes(p, key, "/" + PathEscape(version), "/" + version);
    Assoc(p + PathEscape(key), "/", PathEscape(version));
    Assoc(p + key, "/", version);
  }

  lemma TailDecodes(version: string)
    requires ByteText(version)
    ensures Unescape("/" + PathEscape(version)) == Some("/" + version)
  {
    SegmentDecodes("/", version, "", "");
    assert "/" + PathEscape(version) + "" == "/" + PathEscape(version) && "/" + version + "" == "/" + version;
  }

  lemma BehindBase(base: string, path: string)
    ensures RequestPath(base, base + path) == Unescape(Path(path))
  {
    assert (base + path)[|base|..] == path;
  }

  /** A server decodes the blob URL of a key and version to the path that spells them out. */
  lemma BlobPath(baseURL: string, key: string, version: string)
    requires ByteText(key) && ByteText(version)
    ensures RequestPath(BaseOf(baseURL), BlobURL(baseURL, key, version)) == Some(BLOBS + key + "/" + version)
  {
    var base, path := BaseOf(baseURL), BLOBS + PathEscape(key) + "/" + PathEscape(version);
    BlobsIsLiteral();
    PathText(BLOBS, key, version);
    PathDecodes(BLOBS, key, version);
    BehindBase(base, path);
    assert BlobURL(baseURL, key, version) == base + path by {
      Regroup(base, BLOBS, PathEscape(key), PathEscape(version));
    }
  }

  lemma Regroup(a: string, b: string, c: string, d: string)
    ensures a + b + c + "/" + d == a + (b + c + "/" + d)
  {
  }

  /** What a download path names: the key before the first slash, and the version after it. */
  function Target(path: string): Option<(string, string)> { Cut(TrimPrefix(path, BLOBS)) }

  /** The blob URL leads back to its key and version if and only if the key holds no slash. */
  lemma BlobTarget(baseURL: string, key: string, version: string)
    requires ByteText(key) && ByteText(version)
    ensures var path := RequestPath(BaseOf(baseURL), BlobURL(baseURL, key, version));
            path.Some? && (Target(path.value) == Some((key, version)) <==> '/' !in key)
  {
    BlobPath(baseURL, key, version);
    var path := BLOBS + key + "/" + version;
    assert path[|BLOBS|..] == key + "/" + version;
    CutHasNoSlash(key + "/" + version);
    if '/' !in key {
      CutAt(key, version);
    }
  }

  lemma UploadsIsLiteral(id: string)
    requires IsDigits(id)
    ensures Literal(UPLOADS + id)
  {
    assert Literal(UPLOADS) && Literal(id);
  }

  /** A server sees the upload URL of an id as the path that names it. */
  lemma UploadPath(base: string, id: string)
    requires IsDigits(id)
    ensures RequestPath(base, base + UPLOADS + id) == Some(UPLOADS + id)
  {
    var path := UPLOADS + id;
    UploadsIsLiteral(id);
    Assoc(base, UPLOADS, id);
    BehindBase(base, path);
    WholePath(path);
    UnescapePlain(path, "");
    assert path + "" == path;
  }

  // ----- what is stored -----

  datatype Upload = Upload(name: string, body: Bytes)

  /** The bytes last uploaded under the object key. */
  function Last(uploads: seq<Upload>, name: string): Option<Bytes> {
    if uploads == [] then None
    else if uploads[|uploads| - 1].name == name then Some(uploads[|uploads| - 1].body)
    else Last(uploads[..|uploads| - 1], name)
  }

  function Lookup(data: map<string, Bytes>, name: string): Option<Bytes> { if name in data then Some(data[name]) else None }

  /** What a download of the path serves. */
  function Served(data: map<string, Bytes>, prefix: string, path: string): Option<Bytes> {
    var t := Target(path);
    if t.None? then None else Lookup(data, ObjectKey(prefix, t.value.1, t.value.0))
  }

  /** Upload ids are the numbers of the entries created. */
  ghost predicate EntriesOk(pending: map<string, Pending>, created: seq<(string, string)>) {
    && (forall id :: id in pending ==> IdUpTo(id, |created|))
    && (forall n: nat :: 1 <= n <= |created| ==> Numbered(pending, created, n))
  }

  /** The text of a number from 1 to n. */
  predicate IdUpTo(id: string, n: nat) { IsDigits(id) && 1 <= NatValue(id) <= n && id == FormatNat(NatValue(id)) }

  ghost predicate Numbered(pending: map<string, Pending>, created: seq<(string, string)>, n: nat)
    requires 1 <= n <= |created|
  {
    FormatNat(n) in pending && (pending[FormatNat(n)].key, pending[FormatNat(n)].version) == created[n - 1]
  }

  /** The store holds what was last uploaded. */
  ghost predicate StoreOk(data: map<string, Bytes>, uploads: seq<Upload>) {
    FilledByPut(data) && forall name :: Lookup(data, name) == Last(uploads, name)
  }

  lemma NewEntry(pending: map<string, Pending>, created: seq<(string, string)>, p: Pending)
    requires EntriesOk(pending, created)
    ensures FormatNat(|created| + 1) !in pending
    ensures EntriesOk(pending[FormatNat(|created| + 1) := p], created + [(p.key, p.version)])
  {
    var n := |created| + 1;
    var id, pending', created' := FormatNat(n), pending[FormatNat(n) := p], created + [(p.key, p.version)];
    FormatNatValue(n);
    assert !IdUpTo(id, |created|);
    forall i | i in pending' ensures IdUpTo(i, n) {
      assert i != id ==> IdUpTo(i, |created|);
    }
    forall m: nat | 1 <= m <= n ensures Numbered(pending', created', m) {
      FormatNatValue(m);
      assert m < n ==> Numbered(pending, created, m) && FormatNat(m) != id;
    }
  }

  lemma EntryResized(pending: map<string, Pending>, created: seq<(string, string)>, id: string, size: int)
    requires EntriesOk(pending, created) && id in pending
    ensures EntriesOk(pending[id := pending[id].(size := size)], created)
  {
    var pending' := pending[id := pending[id].(size := size)];
    forall n: nat | 1 <= n <= |created| ensures Numbered(pending', created, n) {
      assert Numbered(pending, created, n);
    }
  }

  lemma Stores(data: map<string, Bytes>, uploads: seq<Upload>, prefix: string, p: Pending, body: Bytes)
    requires StoreOk(data, uploads)
    ensures var name := ObjectKey(prefix, p.version, p.key);
            StoreOk(data[name := body], uploads + [Upload(name, body)])
  {
    var name := ObjectKey(prefix, p.version, p.key);
    PutKeepsFilled(data, prefix, p.version, p.key, body);
    var more := uploads + [Upload(name, body)];
    assert more[..|more| - 1] == uploads;
    forall n ensures Lookup(data[name := body], n) == Last(more, n) {
      assert Lookup(data, n) == Last(uploads, n);
    }
  }

  class Handler {
    const backend: Backend
    var pending: map<string, Pending>
    var nextUpload: nat
    var baseURL: string
    ghost var created: seq<(string, string)>     // the key and version of each entry, in order
    ghost var uploads: seq<Upload>               // every upload that was stored, in order

    ghost predicate Valid()
      reads this, backend.store
    {
      |created| == nextUpload && EntriesOk(pending, created) && StoreOk(backend.store.data, uploads)
    }

    constructor (backend: Backend)
      requires backend.store.data == map[]
      ensures Valid() && this.backend == backend && created == [] && uploads == [] && baseURL == ""
    {
      this.backend := backend;
      pending, nextUpload, baseURL, created, uploads := map[], 0, "", [], [];
      new;
      assert StoreOk(map[], []);
    }

    method EnsureBaseURL(tls: bool, host: string)
      modifies `baseURL
      ensures baseURL == BaseFor(old(baseURL), tls, host)
    {
      if baseURL != "" {
        return;
      }
      baseURL := (if tls then "https" else "http") + "://" + if host == "" then "127.0.0.1" else host;
    }

    /** CreateCacheEntry: a new upload id for the key and version, never given out before. */
    method CreateEntry(key: string, version: string, tls: bool, host: string) returns (url: string, ghost id: string)
      requires Valid()
      modifies this
      ensures Valid() && uploads == old(uploads)
      ensures created == old(created) + [(key, version)] && id == FormatNat(|created|)
      ensures id !in old(pending) && pending == old(pending)[id := Pending(key, version, 0)]
      ensures baseURL == BaseFor(old(baseURL), tls, host) && url == baseURL + UPLOADS + id
    {
      NewEntry(pending, created, Pending(key, version, 0));
      nextUpload := nextUpload + 1;
      var text := FormatNat(nextUpload);
      created := created + [(key, version)];
      pending := pending[text := Pending(key, version, 0)];
      id := text;
      EnsureBaseURL(tls, host);
      url := baseURL + UPLOADS + text;
    }

    /** PUT to an upload URL: stores the body under the object key the entry was created for, and
        nothing anywhere else. `body` is None if it cannot be read to its end. */
    method HandleUpload(path: string, body: Option<Bytes>, contentLength: int) returns (status: nat)
      requires Valid()
      modifies this, backend.store
      ensures Valid() && created == old(created) && baseURL == old(baseURL)
      ensures var id := TrimPrefix(path, UPLOADS);
              pending == if id in old(pending) && body.Some? && contentLength > 0 then old(pending)[id := old(pending)[id].(size := contentLength)] else old(pending)
      ensures var id := TrimPrefix(path, UPLOADS);
              if id !in old(pending) then status == 404 && uploads == old(uploads)
              else if body.None? then status == 500 && uploads == old(uploads)
              else
                var p := old(pending)[id];
                status == 200 && uploads == old(uploads) + [Upload(ObjectKey(backend.prefix, p.version, p.key), body.value)]
      ensures forall name :: Lookup(backend.store.data, name) == Lookup(old(backend.store.data), name)
                || (status == 200 && uploads[|uploads| - 1].name == name)
      // so what is put to the n-th upload URL goes where the n-th entry said
      ensures forall n: nat :: 1 <= n <= |created| && path == UPLOADS + FormatNat(n) && body.Some? ==>
                status == 200 && uploads == old(uploads) + [Upload(ObjectKey(backend.prefix, created[n - 1].1, created[n - 1].0), body.value)]
    {
      var id := TrimPrefix(path, UPLOADS);
      forall n: nat | 1 <= n <= |created| && path == UPLOADS + FormatNat(n)
        ensures id == FormatNat(n) && Numbered(pending, created, n)
      {
        TrimPrefixExact(UPLOADS, FormatNat(n));
      }
      if id !in pending {
        return 404;
      }
      var p := pending[id];
      if body.None? {
        return 500;
      }
      Stores(backend.store.data, uploads, backend.prefix, p, body.value);
      backend.Put(p.key, p.version, body.value);
      uploads := uploads + [Upload(ObjectKey(backend.prefix, p.version, p.key), body.value)];
      if contentLength > 0 {
        EntryResized(pending, created, id, contentLength);
        pending := pending[id := p.(size := contentLength)];
      }
      return 200;
    }

    /** FinalizeCacheEntryUpload: done exactly if bytes were uploaded for the key and version, and
        their number passes for the claimed one. */
    method FinalizeUpload(key: string, version: string, sizeBytes: string) returns (r: Finalized)
      requires Valid()
      ensures var last := Last(uploads, ObjectKey(backend.prefix, version, key));
              && (r.BadSize? <==> sizeBytes != "" && !IsDigits(sizeBytes))
              && (r.Done? <==> (!r.BadSize? && last.Some? && (sizeBytes == "" || SizePasses(Wrap64(NatValue(sizeBytes)), |last.value|))))
              && (r.NotFound? <==> !r.BadSize? && last.None?)
    {
      var wantSize := ParseSizeBytes(sizeBytes);
      if wantSize.None? {
        return BadSize;
      }
      var got := backend.Get(key, version);
      assert got == Lookup(backend.store.data, ObjectKey(backend.prefix, version, key));
      if got.None? {
        return NotFound;
      }
      if wantSize.value > 0 && |got.value| != wantSize.value {
        return SizeMismatch;
      }
      return Done;
    }

    /** GetCacheEntryDownloadURL: the least of the wanted keys, and its blob URL. */
    method GetDownloadURL(key: string, version: string, restoreKeys: seq<string>, tls: bool, host: string)
      returns (matched: Option<string>, url: string)
      requires Valid() && ByteText(version) && forall name :: name in backend.store.data ==> ByteText(name)
      modifies this
      ensures Valid() && uploads == old(uploads) && created == old(created) && pending == old(pending)
      ensures baseURL == BaseFor(old(baseURL), tls, host) && backend.store.data == old(backend.store.data)
      ensures matched.None? ==> url == "" && forall k :: !Wanted(backend.store.data, backend.prefix, version, [key] + restoreKeys, k)
      ensures matched.Some? ==>
                && Wanted(backend.store.data, backend.prefix, version, [key] + restoreKeys, matched.value)
                && (forall k :: Wanted(backend.store.data, backend.prefix, version, [key] + restoreKeys, k) ==> Sorting.AtMost(matched.value, k))
                && ByteText(matched.value) && url == BlobURL(baseURL, matched.value, version)
    {
      EnsureBaseURL(tls, host);
      var matches := backend.FindKeys(key, version, restoreKeys);
      if |matches| == 0 {
        return None, "";
      }
      assert matches[0] in matches;
      StoredIsByteText(backend.store.data, backend.prefix, version, matches[0]);
      return Some(matches[0]), BlobURL(baseURL, matches[0], version);
    }

    method HandleBlobDownload(path: string) returns (r: Option<Bytes>)
      ensures r == Served(backend.store.data, backend.prefix, path)
    {
      var t := Cut(TrimPrefix(path, BLOBS));
      if t.None? {
        return None;
      }
      r := backend.Get(t.value.0, t.value.1);
    }
  }

  lemma StoredIsByteText(data: map<string, Bytes>, prefix: string, version: string, k: string)
    requires Stored(data, prefix, version, k) && forall name :: name in data ==> ByteText(name)
    ensures ByteText(k)
  {
    var root := PathJoin([prefix, version]) + "/";
    assert forall i :: 0 <= i < |k| ==> k[i] == (root + k)[|root| + i];
  }

  /** The blob URL of a slash-free key serves the bytes last uploaded for the key and version: in
      every state of a handler, whose store holds what was last uploaded. */
  lemma BlobServesLastUpload(data: map<string, Bytes>, uploads: seq<Upload>, prefix: string, baseURL: string, key: string, version: string)
    requires StoreOk(data, uploads) && ByteText(key) && ByteText(version) && '/' !in key
    ensures var path := RequestPath(BaseOf(baseURL), BlobURL(baseURL, key, version));
            path.Some? && Served(data, prefix, path.value) == Last(uploads, ObjectKey(prefix, version, key))
  {
    BlobTarget(baseURL, key, version);
    assert Lookup(data, ObjectKey(prefix, version, key)) == Last(uploads, ObjectKey(prefix, version, key));
  }

  /** The bytes put to the upload URL of an entry are what finalizing it sees, whose size it lets pass, and
      what the blob URL of its key and version serves. */
  lemma UploadComesBack(data: map<string, Bytes>, uploads: seq<Upload>, prefix: string, baseURL: string, key: string, version: string,
                        body: Bytes)
    requires StoreOk(data, uploads + [Upload(ObjectKey(prefix, version, key), body)]) && |body| <= MAX_INT64
    requires ByteText(key) && ByteText(version) && '/' !in key
    ensures Last(uploads + [Upload(ObjectKey(prefix, version, key), body)], ObjectKey(prefix, version, key)) == Some(body)
    ensures IsDigits(FormatNat(|body|)) && SizePasses(Wrap64(NatValue(FormatNat(|body|))), |body|)
    ensures var path := RequestPath(BaseOf(baseURL), BlobURL(baseURL, key, version));
            path.Some? && Served(data, prefix, path.value) == Some(body)
  {
    FormatNatValue(|body|);
    BlobServesLastUpload(data, uploads + [Upload(ObjectKey(prefix, version, key), body)], prefix, baseURL, key, version);
  }

  /** A lookup's download URL serves bytes: those last uploaded for the matched key. */
  lemma HitIsServed(data: map<string, Bytes>, uploads: seq<Upload>, prefix: string, baseURL: string,
                    candidates: seq<string>, k: string, version: string)
    requires StoreOk(data, uploads) && PlainPath(prefix) && Plain(version) && ByteText(version)
    requires Wanted(data, prefix, version, candidates, k) && ByteText(k) && '/' !in k
    ensures var path := RequestPath(BaseOf(baseURL), BlobURL(baseURL, k, version));
            && path.Some? && Last(uploads, ObjectKey(prefix, version, k)).Some?
            && Served(data, prefix, path.value) == Last(uploads, ObjectKey(prefix, version, k))
  {
    BlobServesLastUpload(data, uploads, prefix, baseURL, k, version);
    FoundIsFetchable(data, prefix, version, candidates, k);
    assert Lookup(data, ObjectKey(prefix, version, k)) == Last(uploads, ObjectKey(prefix, version, k));
  }
}
