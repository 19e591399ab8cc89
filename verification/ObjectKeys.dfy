/** Object keys of cache archives (objectKey in cache-sidecar/internal/s3backend/s3backend.go):
    path.Join of the repository prefix, the version and the cache key. */
module ObjectKeys {

  // ----- slash-separated paths -----

  function Split(s: string): (cs: seq<string>)
    ensures cs != []
  {
    if s == "" then [""]
    else if s[0] == '/' then [""] + Split(s[1..])
    else
      var cs := Split(s[1..]);
      [[s[0]] + cs[0]] + cs[1..]
  }

  function Join(cs: seq<string>): string {
    if cs == [] then "" else if |cs| == 1 then cs[0] else cs[0] + "/" + Join(cs[1..])
  }

  /** Putting a character before a path. */
  function Lead(c: char, cs: seq<string>): seq<string>
    requires cs != []
  {
    if c == '/' then [""] + cs else [[c] + cs[0]] + cs[1..]
  }

  lemma SplitLead(c: char, s: string)
    ensures Split([c] + s) == Lead(c, Split(s))
  {
    assert ([c] + s)[1..] == s;
  }

  lemma LeadConcat(c: char, cs: seq<string>, ds: seq<string>)
    requires cs != []
    ensures Lead(c, cs + ds) == Lead(c, cs) + ds
  {
    assert (cs + ds)[0] == cs[0] && (cs + ds)[1..] == cs[1..] + ds;
    assert Lead(c, cs + ds) == Lead(c, cs) + ds;
  }

  lemma {:induction false} SplitConcat(a: string, b: string)
    ensures Split(a + "/" + b) == Split(a) + Split(b)
  {
    if a == "" {
      assert a + "/" + b == ['/'] + b;
      SplitLead('/', b);
    } else {
      SplitConcat(a[1..], b);
      assert a == [a[0]] + a[1..] && a + "/" + b == [a[0]] + (a[1..] + "/" + b);
      SplitLead(a[0], a[1..]);
      SplitLead(a[0], a[1..] + "/" + b);
      LeadConcat(a[0], Split(a[1..]), Split(b));
    }
  }

  lemma {:induction false} SplitOne(c: string)
    requires '/' !in c
    ensures Split(c) == [c]
  {
    if c != "" {
      SplitOne(c[1..]);
      assert c == [c[0]] + c[1..];
    }
  }

  lemma {:induction false} SplitJoin(cs: seq<string>)
    requires cs != [] && forall i :: 0 <= i < |cs| ==> '/' !in cs[i]
    ensures Split(Join(cs)) == cs
  {
    SplitOne(cs[0]);
    if |cs| > 1 {
      SplitConcat(cs[0], Join(cs[1..]));
      SplitJoin(cs[1..]);
    }
  }

  lemma {:induction false} JoinSplit(s: string)
    ensures Join(Split(s)) == s
    ensures forall i :: 0 <= i < |Split(s)| ==> '/' !in Split(s)[i]
  {
    if s != "" {
      JoinSplit(s[1..]);
      var cs := Split(s[1..]);
      assert s == [s[0]] + s[1..];
      if s[0] == '/' {
        assert Join([""] + cs) == "" + "/" + Join(cs) by { assert ([""] + cs)[1..] == cs; }
      } else {
        var ds := [[s[0]] + cs[0]] + cs[1..];
        assert ds[1..] == cs[1..];
        assert |cs| > 1 ==> Join(ds) == [s[0]] + (cs[0] + "/" + Join(cs[1..]));
      }
    }
  }

  // ----- path.Clean and path.Join -----

  /** A path element that names something. */
  predicate Plain(c: string) { c != "" && c != "." && c != ".." && '/' !in c }

  /** One more element: empty and "." change nothing, ".." takes back the one before, if there is one. */
  function Push(stack: seq<string>, c: string, rooted: bool): seq<string> {
    if c == "" || c == "." then stack
    else if c == ".." then
      if stack != [] && stack[|stack| - 1] != ".." then stack[..|stack| - 1]
      else if rooted then stack
      else stack + [c]
    else stack + [c]
  }

  function PushAll(stack: seq<string>, cs: seq<string>, rooted: bool): seq<string>
    decreases |cs|
  {
    if cs == [] then stack else PushAll(Push(stack, cs[0], rooted), cs[1..], rooted)
  }

  predicate Rooted(s: string) { s != "" && s[0] == '/' }

  function Clean(s: string): string {
    var stack := PushAll([], Split(s), Rooted(s));
    if Rooted(s) then "/" + Join(stack)
    else if stack == [] then "."
    else Join(stack)
  }

  /** path.Join: nothing for no text at all, otherwise the elements from the first non-empty one on,
      separated by slashes and cleaned. */
  function PathJoin(elems: seq<string>): string {
    if elems == [] then ""
    else if elems[0] == "" then PathJoin(elems[1..])
    else Clean(Join(elems))
  }

  function ObjectKey(prefix: string, version: string, key: string): string { PathJoin([prefix, version, key]) }

  /** A relative path made of plain elements. */
  predicate PlainPath(s: string) { forall i :: 0 <= i < |Split(s)| ==> Plain(Split(s)[i]) }

  /** Plain elements are kept as they are. */
  lemma {:induction false} PushPlain(stack: seq<string>, cs: seq<string>, rooted: bool)
    requires forall i :: 0 <= i < |cs| ==> Plain(cs[i])
    ensures PushAll(stack, cs, rooted) == stack + cs
    decreases |cs|
  {
    if cs == [] {
      assert stack + cs == stack;
    } else {
      PushPlain(stack + [cs[0]], cs[1..], rooted);
      assert stack + [cs[0]] + cs[1..] == stack + cs;
    }
  }

  lemma RootedSplit(s: string)
    ensures Rooted(s) ==> Split(s)[0] == ""
  {
  }

  lemma PlainPathStart(s: string)
    requires PlainPath(s)
    ensures s != "" && !Rooted(s)
  {
    assert Plain(Split(s)[0]);
    RootedSplit(s);
  }

  lemma CleanPlain(s: string)
    requires PlainPath(s)
    ensures Clean(s) == s
  {
    PlainPathStart(s);
    PushPlain([], Split(s), false);
    assert [] + Split(s) == Split(s);
    JoinSplit(s);
  }

  lemma PlainConcat(a: string, b: string)
    requires PlainPath(a) && PlainPath(b)
    ensures PlainPath(a + "/" + b)
  {
    SplitConcat(a, b);
  }

  lemma PlainOne(c: string)
    requires Plain(c)
    ensures PlainPath(c)
  {
    SplitOne(c);
  }

  lemma JoinTwo(a: string, b: string)
    ensures Join([a, b]) == a + "/" + b
  {
    assert [a, b][1..] == [b];
    assert Join([b]) == b;
  }

  lemma JoinThree(a: string, b: string, c: string)
    ensures Join([a, b, c]) == a + "/" + (b + "/" + c)
  {
    JoinTwo(b, c);
    assert [a, b, c][1..] == [b, c];
  }

  /** The object key of a plain cache key and version, in a plain prefix, is what it looks like. */
  lemma PlainObjectKey(prefix: string, version: string, key: string)
    requires PlainPath(prefix) && Plain(version) && PlainPath(key)
    ensures ObjectKey(prefix, version, key) == prefix + "/" + version + "/" + key
    ensures PathJoin([prefix, version]) == prefix + "/" + version
  {
    PlainPathStart(prefix);
    PlainOne(version);
    JoinTwo(prefix, version);
    JoinThree(prefix, version, key);
    PlainConcat(prefix, version);
    PlainConcat(version, key);
    PlainConcat(prefix, version + "/" + key);
    CleanPlain(prefix + "/" + version);
    CleanPlain(prefix + "/" + (version + "/" + key));
    assert prefix + "/" + (version + "/" + key) == prefix + "/" + version + "/" + key;
  }

  lemma SamePlaceSplit(a: string, b: string, x: string, y: string)
    requires a + "/" + x == b + "/" + y && '/' !in a && '/' !in b
    ensures a == b && x == y
  {
    SplitOne(a);
    SplitOne(b);
    SplitConcat(a, x);
    SplitConcat(b, y);
    assert Split(a + "/" + x)[0] == a && Split(b + "/" + y)[0] == b;
    var s := a + "/" + x;
    assert s[|a| + 1..] == x && s[|b| + 1..] == y;
  }

  /** Different plain keys or versions of a repository have different object keys. */
  lemma ObjectKeyInjective(prefix: string, v: string, k: string, v': string, k': string)
    requires PlainPath(prefix) && Plain(v) && PlainPath(k) && Plain(v') && PlainPath(k')
    requires ObjectKey(prefix, v, k) == ObjectKey(prefix, v', k')
    ensures v == v' && k == k'
  {
    PlainObjectKey(prefix, v, k);
    PlainObjectKey(prefix, v', k');
    var s := prefix + "/" + v + "/" + k;
    assert s[|prefix| + 1..] == v + "/" + k;
    assert s[|prefix| + 1..] == v' + "/" + k';
    SamePlaceSplit(v, v', k, k');
  }

  // ----- what Clean can leave -----

  /** Leading ".." elements, then plain ones; no ".." in a rooted path. */
  predicate Normal(stack: seq<string>, rooted: bool) {
    forall i :: 0 <= i < |stack| ==> NormalAt(stack, i, rooted)
  }

  predicate NormalAt(stack: seq<string>, i: int, rooted: bool)
    requires 0 <= i < |stack|
  {
    Plain(stack[i]) || (stack[i] == ".." && !rooted && (i == 0 || stack[i - 1] == ".."))
  }

  lemma PushNormal(stack: seq<string>, c: string, rooted: bool)
    requires Normal(stack, rooted) && '/' !in c
    ensures Normal(Push(stack, c, rooted), rooted)
  {
    var after := Push(stack, c, rooted);
    forall i | 0 <= i < |after| ensures NormalAt(after, i, rooted) {
      if i < |stack| {
        assert NormalAt(stack, i, rooted);
      } else if c == ".." && stack != [] {
        assert NormalAt(stack, |stack| - 1, rooted);
      }
    }
  }

  lemma {:induction false} PushAllNormal(stack: seq<string>, cs: seq<string>, rooted: bool)
    requires Normal(stack, rooted)
    requires forall i :: 0 <= i < |cs| ==> '/' !in cs[i]
    ensures Normal(PushAll(stack, cs, rooted), rooted)
    decreases |cs|
  {
    if cs != [] {
      PushNormal(stack, cs[0], rooted);
      PushAllNormal(Push(stack, cs[0], rooted), cs[1..], rooted);
    }
  }

  lemma NormalHasNoSlash(stack: seq<string>, rooted: bool)
    requires Normal(stack, rooted)
    ensures forall i :: 0 <= i < |stack| ==> '/' !in stack[i]
  {
    forall i | 0 <= i < |stack| ensures '/' !in stack[i] {
      assert NormalAt(stack, i, rooted);
    }
  }

  lemma {:induction false} AllPlain(stack: seq<string>, i: nat)
    requires Normal(stack, false) && i < |stack| && Plain(stack[0])
    ensures Plain(stack[i])
  {
    assert NormalAt(stack, i, false);
    if i > 0 {
      AllPlain(stack, i - 1);
    }
  }

  lemma RootedClean(s: string)
    ensures Rooted(s) ==> Rooted(Clean(s))
  {
    if Rooted(s) {
      assert Clean(s) == "/" + Join(PushAll([], Split(s), true));
    }
  }

  /** The elements of a cleaned relative path. */
  lemma CleanElements(s: string)
    requires !Rooted(s) && Clean(s) != "."
    ensures Normal(Split(Clean(s)), false)
  {
    var cs := Split(s);
    JoinSplit(s);
    PushAllNormal([], cs, false);
    var stack := PushAll([], cs, false);
    NormalHasNoSlash(stack, false);
    SplitJoin(stack);
  }

  /** Whatever was cleaned: behind a plain prefix there is a plain path. */
  lemma CleanTail(s: string, prefix: string, tail: string)
    requires PlainPath(prefix) && Clean(s) == prefix + "/" + tail
    ensures PlainPath(tail)
  {
    PlainPathStart(prefix);
    RootedClean(s);
    assert Clean(s)[0] == prefix[0] && |Clean(s)| >= 2;
    CleanElements(s);
    SplitConcat(prefix, tail);
    var stack := Split(Clean(s));
    assert Plain(stack[0]) by { assert stack[0] == Split(prefix)[0]; }
    forall i | 0 <= i < |Split(tail)| ensures Plain(Split(tail)[i]) {
      AllPlain(stack, |Split(prefix)| + i);
      assert stack[|Split(prefix)| + i] == Split(tail)[i];
    }
  }

  // ----- what Clean keeps -----

  lemma {:induction false} PushAllConcat(stack: seq<string>, a: seq<string>, b: seq<string>, rooted: bool)
    ensures PushAll(stack, a + b, rooted) == PushAll(PushAll(stack, a, rooted), b, rooted)
    decreases |a|
  {
    if a == [] {
      assert a + b == b;
    } else {
      PushAllConcat(Push(stack, a[0], rooted), a[1..], b, rooted);
      assert (a + b)[1..] == a[1..] + b;
    }
  }

  lemma PushAllOne(stack: seq<string>, a: seq<string>, c: string, rooted: bool)
    ensures PushAll(stack, a + [c], rooted) == Push(PushAll(stack, a, rooted), c, rooted)
  {
    PushAllConcat(stack, a, [c], rooted);
    assert [c][1..] == [];
  }

  /** From any directory, one more element leads to where the elements so far and then that one lead. */
  lemma PushKeepsPlace(dir: seq<string>, stack: seq<string>, c: string)
    requires Normal(stack, false)
    ensures PushAll(dir, Push(stack, c, false), true) == Push(PushAll(dir, stack, true), c, true)
  {
    if c == ".." && stack != [] && stack[|stack| - 1] != ".." {
      var pre, last := stack[..|stack| - 1], stack[|stack| - 1];
      assert NormalAt(stack, |stack| - 1, false) && stack == pre + [last];
      PushAllOne(dir, pre, last, true);
    } else if c != "" && c != "." {
      PushAllOne(dir, stack, c, true);
    }
  }

  lemma {:induction false} PushAllKeepsPlace(dir: seq<string>, stack: seq<string>, cs: seq<string>)
    requires Normal(stack, false) && forall i :: 0 <= i < |cs| ==> '/' !in cs[i]
    ensures PushAll(dir, PushAll(stack, cs, false), true) == PushAll(PushAll(dir, stack, true), cs, true)
    decreases |cs|
  {
    if cs != [] {
      PushKeepsPlace(dir, stack, cs[0]);
      PushNormal(stack, cs[0], false);
      PushAllKeepsPlace(dir, Push(stack, cs[0], false), cs[1..]);
    }
  }

  /** Where a relative path leads to from a directory, given by its elements from the root on. */
  function Place(dir: seq<string>, path: string): seq<string> { PushAll(dir, Split(path), true) }

  /** Cleaning a relative path keeps where it leads to, from wherever; cleaning a rooted one keeps its
      place, and that it is rooted. */
  lemma CleanKeepsPlace(dir: seq<string>, path: string)
    ensures Rooted(Clean(path)) <==> Rooted(path)
    ensures !Rooted(path) ==> Place(dir, Clean(path)) == Place(dir, path)
    ensures Rooted(path) ==> Place([], Clean(path)) == Place([], path)
  {
    JoinSplit(path);
    var stack := PushAll([], Split(path), Rooted(path));
    PushAllNormal([], Split(path), Rooted(path));
    NormalHasNoSlash(stack, Rooted(path));
    if Rooted(path) {
      RootedPlace(stack);
    } else {
      PushAllKeepsPlace(dir, [], Split(path));
      RelativePlace(dir, stack);
    }
  }

  lemma RootedPlace(stack: seq<string>)
    requires Normal(stack, true)
    ensures Place([], "/" + Join(stack)) == stack && Rooted("/" + Join(stack))
  {
    forall i | 0 <= i < |stack| ensures Plain(stack[i]) {
      assert NormalAt(stack, i, true);
    }
    SplitLead('/', Join(stack));
    if stack != [] {
      SplitJoin(stack);
      PushPlain([], stack, true);
      assert [] + stack == stack && ([""] + stack)[1..] == stack;
    } else {
      assert PushAll([], ["", ""], true) == PushAll([], [""], true) by { assert ["", ""][1..] == [""]; }
      assert PushAll([], [""], true) == PushAll([], [], true) by { assert [""][1..] == []; }
      assert Split(Join(stack)) == [""] && [""] + [""] == ["", ""];
    }
  }

  lemma RelativePlace(dir: seq<string>, stack: seq<string>)
    requires Normal(stack, false)
    ensures var s := if stack == [] then "." else Join(stack);
            !Rooted(s) && Place(dir, s) == PushAll(dir, stack, true)
  {
    if stack == [] {
      SplitOne(".");
      assert Push(dir, ".", true) == dir && ["."][1..] == [];
      assert PushAll(dir, ["."], true) == PushAll(dir, [], true);
    } else {
      var s := Join(stack);
      NormalHasNoSlash(stack, false);
      SplitJoin(stack);
      assert NormalAt(stack, 0, false);
      RootedSplit(s);
      assert Split(s)[0] != "";
    }
  }

  /** Without a repository prefix the key is the version and the cache key. */
  lemma NoPrefix(version: string, key: string)
    requires Plain(version) && PlainPath(key)
    ensures ObjectKey("", version, key) == version + "/" + key
  {
    PlainOne(version);
    PlainConcat(version, key);
    JoinTwo(version, key);
    CleanPlain(version + "/" + key);
    assert PathJoin([version, key]) == version + "/" + key;
    assert PathJoin(["", version, key]) == PathJoin([version, key]) by {
      assert ["", version, key][1..] == [version, key];
    }
  }
}
