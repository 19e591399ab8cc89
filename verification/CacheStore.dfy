/** The cache backend over its in-memory object store
    (cache-sidecar/internal/s3backend/s3backend.go). */
module CacheStore {
  import opened Options
  import opened ObjectKeys
  import opened Sorting

  type Bytes = seq<bv8>

  /** Strictly increasing in byte order, so without duplicates. */
  ghost predicate Increasing(keys: seq<string>) {
    forall i, j :: 0 <= i < j < |keys| ==> Less(keys[i], keys[j])
  }

  /** sort.Strings. */
  method SortStrings(keys: seq<string>) returns (r: seq<string>)
    requires NoDuplicates(keys)
    ensures Increasing(r) && forall k :: k in r <==> k in keys
  {
    var a := new string[|keys|](i requires 0 <= i < |keys| => keys[i]);
    assert a[..] == keys;
    AtMostTotal();
    Sort(a, AtMost);
    r := a[..];
    NoMore(r, keys);
    forall k | k in keys ensures k in r {
      assert k in multiset(keys);
    }
    forall i, j | 0 <= i < j < |r| ensures Less(r[i], r[j]) {
      assert AtMost(r[i], r[j]);
    }
  }

  class Memory {
    var data: map<string, Bytes>

    constructor ()
      ensures data == map[]
    {
      data := map[];
    }

    method Put(objectKey: string, body: Bytes) returns (n: nat)
      modifies this
      ensures data == old(data)[objectKey := body] && n == |body|
    {
      data := data[objectKey := body];
      n := |body|;
    }

    method Get(objectKey: string) returns (r: Option<Bytes>)
      ensures r == if objectKey in data then Some(data[objectKey]) else None
    {
      if objectKey !in data {
        return None;
      }
      return Some(data[objectKey]);
    }

    /** The keys with the prefix, in whatever order the map yields them, then sorted. */
    method List(prefix: string) returns (keys: seq<string>)
      ensures Increasing(keys) && forall k :: k in keys <==> k in data && prefix <= k
    {
      keys := [];
      var todo := data.Keys;
      while todo != {}
        invariant todo <= data.Keys && NoDuplicates(keys)
        invariant forall k :: k in keys <==> k in data && k !in todo && prefix <= k
      {
        var k :| k in todo;
        todo := todo - {k};
        if prefix <= k {
          keys := keys + [k];
        }
      }
      keys := SortStrings(keys);
    }
  }

  /** The stored keys of a version: what follows the version's prefix in an object key. */
  ghost predicate Stored(data: map<string, Bytes>, prefix: string, version: string, k: string) {
    PathJoin([prefix, version]) + "/" + k in data
  }

  /** What a lookup is to find: the stored keys that are a candidate, or begin with a non-empty
      candidate that is not itself stored. */
  ghost predicate Wanted(data: map<string, Bytes>, prefix: string, version: string, candidates: seq<string>, k: string) {
    && Stored(data, prefix, version, k)
    && exists i :: 0 <= i < |candidates| && Selects(data, prefix, version, candidates[i], k)
  }

  ghost predicate Selects(data: map<string, Bytes>, prefix: string, version: string, c: string, k: string) {
    c != "" && if Stored(data, prefix, version, c) then k == c else c <= k
  }

  /** An empty candidate stands for nothing, a stored one for itself alone, any other for all that begin
      with it. */
  lemma SelectsExact(data: map<string, Bytes>, prefix: string, version: string, c: string, k: string)
    ensures c == "" ==> !Selects(data, prefix, version, c, k)
    ensures c != "" && Stored(data, prefix, version, c) ==> (Selects(data, prefix, version, c, k) <==> k == c)
    ensures c != "" && !Stored(data, prefix, version, c) ==> (Selects(data, prefix, version, c, k) <==> |c| <= |k| && k[..|c|] == c)
  {
  }

  class Backend {
    const store: Memory
    const prefix: string

    constructor (store: Memory, ownerRepo: string)
      ensures this.store == store && prefix == ownerRepo
    {
      this.store, prefix := store, ownerRepo;
    }

    method Put(key: string, version: string, body: Bytes)
      modifies store
      ensures store.data == old(store.data)[ObjectKey(prefix, version, key) := body]
    {
      var n := store.Put(ObjectKey(prefix, version, key), body);
    }

    method Get(key: string, version: string) returns (r: Option<Bytes>)
      ensures var k := ObjectKey(prefix, version, key); r == if k in store.data then Some(store.data[k]) else None
    {
      r := store.Get(ObjectKey(prefix, version, key));
    }

    /** The keys of the version, without its prefix. */
    method KeySet(version: string) returns (keySet: set<string>)
      ensures forall k :: k in keySet <==> Stored(store.data, prefix, version, k)
    {
      var root := PathJoin([prefix, version]) + "/";
      var keys := store.List(root);
      keySet := {};
      for i := 0 to |keys|
        invariant forall k :: k in keySet <==> root + k in keys[..i]
      {
        assert keys[i] in keys && root <= keys[i];
        var short := keys[i][|root|..];
        assert keys[i] == root + short && forall k :: root + k == keys[i] ==> k == short by {
          forall k | root + k == keys[i] ensures k == short {
            assert (root + k)[|root|..] == k;
          }
        }
        assert keys[..i + 1] == keys[..i] + [keys[i]];
        keySet := keySet + {short};
      }
      assert keys[..|keys|] == keys;
      forall k ensures k in keySet <==> Stored(store.data, prefix, version, k) {
        assert root <= root + k;
      }
    }

    /** Adds the keys of the set that begin with the candidate, in whatever order it yields them. */
    method AddMatches(keySet: set<string>, candidate: string, matches: seq<string>) returns (more: seq<string>)
      requires NoDuplicates(matches)
      ensures NoDuplicates(more) && forall k :: k in more <==> k in matches || (k in keySet && candidate <= k)
    {
      more := matches;
      var todo := keySet;
      while todo != {}
        invariant todo <= keySet && NoDuplicates(more)
        invariant forall k :: k in more <==> k in matches || (k in keySet && k !in todo && candidate <= k)
      {
        var short :| short in todo;
        todo := todo - {short};
        if candidate <= short {
          if short !in more {
            more := more + [short];
          }
        }
      }
    }

    /** FindKeys: exactly the wanted keys, sorted, whatever the order of the maps in between. */
    method FindKeys(primaryKey: string, version: string, restoreKeys: seq<string>) returns (matches: seq<string>)
      ensures Increasing(matches)
      ensures forall k :: k in matches <==> Wanted(store.data, prefix, version, [primaryKey] + restoreKeys, k)
    {
      var candidates := [primaryKey] + restoreKeys;
      var keySet := KeySet(version);
      matches := [];
      for i := 0 to |candidates|
        invariant NoDuplicates(matches)
        invariant forall k :: k in matches <==> k in keySet && Chosen(keySet, candidates, i, k)
      {
        var candidate := candidates[i];
        if candidate == "" {
          continue;
        }
        if candidate in keySet {
          if candidate !in matches {
            matches := matches + [candidate];
          }
          continue;
        }
        matches := AddMatches(keySet, candidate, matches);
      }
      matches := SortStrings(matches);
      forall k ensures Chosen(keySet, candidates, |candidates|, k) && k in keySet <==> Wanted(store.data, prefix, version, candidates, k) {
      }
    }
  }

  /** The loop's view of Selects, for the first n candidates. */
  ghost predicate Chosen(keySet: set<string>, candidates: seq<string>, n: nat, k: string)
    requires n <= |candidates|
  {
    exists i :: 0 <= i < n && candidates[i] != "" && if candidates[i] in keySet then k == candidates[i] else candidates[i] <= k
  }

  // ----- stores filled through Put -----

  /** Every object was put under an object key, of whatever prefix, version and cache key. */
  ghost predicate FilledByPut(data: map<string, Bytes>) {
    forall name :: name in data ==> exists prefix, version, key :: name == ObjectKey(prefix, version, key)
  }

  lemma PutKeepsFilled(data: map<string, Bytes>, prefix: string, version: string, key: string, body: Bytes)
    requires FilledByPut(data)
    ensures FilledByPut(data[ObjectKey(prefix, version, key) := body])
  {
  }

  /** An object key is cleaned, unless it is empty. */
  lemma {:induction false} PathJoinIsClean(elems: seq<string>)
    ensures PathJoin(elems) == "" || exists s :: PathJoin(elems) == Clean(s)
  {
    if elems != [] && elems[0] == "" {
      PathJoinIsClean(elems[1..]);
    }
  }

  /** In a plain repository and version, every stored key is plain and fetched by that key. */
  lemma StoredIsFetchable(data: map<string, Bytes>, prefix: string, version: string, k: string)
    requires FilledByPut(data) && PlainPath(prefix) && Plain(version) && Stored(data, prefix, version, k)
    ensures PlainPath(k) && ObjectKey(prefix, version, k) in data
    ensures ObjectKey(prefix, version, k) == PathJoin([prefix, version]) + "/" + k
  {
    PlainOne(version);
    PlainConcat(prefix, version);
    JoinTwo(prefix, version);
    CleanPlain(prefix + "/" + version);
    PlainPathStart(prefix);
    var root := prefix + "/" + version;
    assert PathJoin([prefix, version]) == root;
    var name := root + "/" + k;
    var p, v, key :| name == ObjectKey(p, v, key);
    PathJoinIsClean([p, v, key]);
    var s :| name == Clean(s);
    CleanTail(s, root, k);
    PlainObjectKey(prefix, version, k);
  }

  /** So every key a lookup returns can be fetched. */
  lemma FoundIsFetchable(data: map<string, Bytes>, prefix: string, version: string, candidates: seq<string>, k: string)
    requires FilledByPut(data) && PlainPath(prefix) && Plain(version) && Wanted(data, prefix, version, candidates, k)
    ensures ObjectKey(prefix, version, k) in data
  {
    StoredIsFetchable(data, prefix, version, k);
  }

  /** And a plain key that was put is found by itself, under its own name. */
  lemma PutIsFound(data: map<string, Bytes>, prefix: string, version: string, key: string, restoreKeys: seq<string>)
    requires PlainPath(prefix) && Plain(version) && PlainPath(key) && ObjectKey(prefix, version, key) in data
    ensures Wanted(data, prefix, version, [key] + restoreKeys, key)
  {
    PlainObjectKey(prefix, version, key);
    PlainPathStart(key);
    assert ([key] + restoreKeys)[0] == key;
    assert Selects(data, prefix, version, ([key] + restoreKeys)[0], key);
  }

  /** The comment on FindKeys promises the exact match first. What it returns begins with the exact
      match if and only if no restore key contributes a stored key before it in byte order. */
  lemma ExactMatchFirst(data: map<string, Bytes>, prefix: string, version: string, key: string, restoreKeys: seq<string>, matches: seq<string>)
    requires key != "" && Stored(data, prefix, version, key) && Increasing(matches)
    requires forall k :: k in matches <==> Wanted(data, prefix, version, [key] + restoreKeys, k)
    ensures matches != []
    ensures matches[0] == key <==>
            forall i, k :: 0 <= i < |restoreKeys| && Stored(data, prefix, version, k) && Selects(data, prefix, version, restoreKeys[i], k) ==> AtMost(key, k)
  {
    var candidates := [key] + restoreKeys;
    assert candidates[0] == key && Selects(data, prefix, version, candidates[0], key);
    assert key in matches;
    var at :| 0 <= at < |matches| && matches[at] == key;
    if matches[0] == key {
      forall i, k | 0 <= i < |restoreKeys| && Stored(data, prefix, version, k) && Selects(data, prefix, version, restoreKeys[i], k) ensures AtMost(key, k) {
        assert candidates[i + 1] == restoreKeys[i];
        assert k in matches;
      }
    } else {
      var k := matches[0];
      assert k in matches && Less(k, key);
      LessStrict(k, key);
      var i :| 0 <= i < |candidates| && Selects(data, prefix, version, candidates[i], k);
      assert i > 0 && candidates[i] == restoreKeys[i - 1];
    }
  }
}
