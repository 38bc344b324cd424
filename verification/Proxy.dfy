/** Routing of requests to relays, and the path rewrite (src/proxy/mod.rs). */
module Proxy {
  import opened Basics

  datatype HttpRelay = HttpRelay(port: nat, path: string, https: bool, stripPath: bool)

  datatype ProxyEntry = ProxyEntry(port: nat, secure: bool, prefixPath: string)

  datatype Upstream = Upstream(secure: bool, port: nat, path: string)

  // ---------------------------------------------------------------------------------------------
  // Slashes
  // ---------------------------------------------------------------------------------------------

  function TrimStart(s: string): (r: string)
    ensures r == [] || r[0] != '/'
  {
    if s != [] && s[0] == '/' then TrimStart(s[1..]) else s
  }

  function TrimEnd(s: string): (r: string)
    ensures r <= s && (r == [] || r[|r| - 1] != '/')
  {
    if s != [] && s[|s| - 1] == '/' then TrimEnd(s[..|s| - 1]) else s
  }

  function Trim(s: string): string {
    TrimEnd(TrimStart(s))
  }

  function Slashes(n: nat): (r: string)
    ensures |r| == n
  {
    if n == 0 then "" else "/" + Slashes(n - 1)
  }

  /** Leading slashes of `s`. */
  function Lead(s: string): nat {
    if s != [] && s[0] == '/' then 1 + Lead(s[1..]) else 0
  }

  lemma {:induction false} TrimSplits(s: string)
    ensures s == Slashes(Lead(s)) + TrimStart(s)
  {
    if s != [] && s[0] == '/' {
      TrimSplits(s[1..]);
      assert s == "/" + s[1..];
    }
  }

  /** There is one way to take leading slashes off. */
  lemma {:induction false} TrimIsUnique(n: nat, rest: string)
    requires rest == [] || rest[0] != '/'
    ensures TrimStart(Slashes(n) + rest) == rest && Lead(Slashes(n) + rest) == n
  {
    if n > 0 {
      TrimIsUnique(n - 1, rest);
      assert (Slashes(n) + rest)[1..] == Slashes(n - 1) + rest;
    } else {
      assert Slashes(0) + rest == rest;
    }
  }

  lemma {:induction false} SlashBehind(n: nat)
    ensures Slashes(n) + "/" == Slashes(n + 1)
  {
    if n > 0 {
      SlashBehind(n - 1);
      assert Slashes(n) + "/" == "/" + (Slashes(n - 1) + "/");
    }
  }

  lemma {:induction false} TrimEndSplits(s: string) returns (n: nat)
    ensures s == TrimEnd(s) + Slashes(n)
  {
    if s != [] && s[|s| - 1] == '/' {
      var shorter := s[..|s| - 1];
      var m := TrimEndSplits(shorter);
      n := m + 1;
      SlashBehind(m);
      assert s == shorter + "/";
      assert TrimEnd(shorter) + Slashes(m) + "/" == TrimEnd(shorter) + (Slashes(m) + "/");
    } else {
      n := 0;
    }
  }

  // ---------------------------------------------------------------------------------------------
  // The map
  // ---------------------------------------------------------------------------------------------

  function EntryOf(relay: HttpRelay): ProxyEntry {
    ProxyEntry(relay.port, relay.https, if relay.stripPath then "" else relay.path)
  }

  function KeyOf(relay: HttpRelay): string {
    Trim(relay.path)
  }

  /** A key is the relay's path between its outer slashes. */
  lemma {:induction false} KeyIsInside(relay: HttpRelay) returns (a: nat, b: nat)
    ensures relay.path == Slashes(a) + KeyOf(relay) + Slashes(b)
    ensures KeyOf(relay) == "" || (KeyOf(relay)[0] != '/' && KeyOf(relay)[|KeyOf(relay)| - 1] != '/')
  {
    TrimSplits(relay.path);
    a := Lead(relay.path);
    b := TrimEndSplits(TrimStart(relay.path));
    assert Slashes(a) + (KeyOf(relay) + Slashes(b)) == Slashes(a) + KeyOf(relay) + Slashes(b);
  }

  /** Relays collected in the order supplied: a later one replaces an earlier one with its key. */
  function Collect(relays: seq<HttpRelay>): map<string, ProxyEntry> {
    if relays == [] then map[]
    else
      var last := relays[|relays| - 1];
      Collect(relays[..|relays| - 1])[KeyOf(last) := EntryOf(last)]
  }

  // ---------------------------------------------------------------------------------------------
  // Routing
  // ---------------------------------------------------------------------------------------------

  /** What stands before the last slash. */
  function Parent(path: string): (r: Option<string>)
    ensures r.Some? ==> |r.value| < |path| && r.value + "/" <= path
  {
    if path == [] then None
    else if path[|path| - 1] == '/' then Some(path[..|path| - 1])
    else Parent(path[..|path| - 1])
  }

  function Ancestors(path: string): seq<string>
    decreases |path|
  {
    [path] + match Parent(path) case None => [] case Some(parent) => Ancestors(parent)
  }

  function FirstHit(m: map<string, ProxyEntry>, paths: seq<string>): Option<string> {
    if paths == [] then None
    else if paths[0] in m then Some(paths[0])
    else FirstHit(m, paths[1..])
  }

  function Select(m: map<string, ProxyEntry>, uriPath: string): Option<string> {
    FirstHit(m, Ancestors(TrimStart(uriPath)))
  }

  function Get(m: map<string, ProxyEntry>, uriPath: string): Option<Upstream> {
    match Select(m, uriPath)
    case None => None
    case Some(key) =>
      if key in m && "/" + key <= uriPath then
        Some(Upstream(m[key].secure, m[key].port, "/" + m[key].prefixPath + TrimStart(uriPath[|key| + 1..])))
      else None
  }

  // ---------------------------------------------------------------------------------------------
  // Routing is longest segment-aligned prefix
  // ---------------------------------------------------------------------------------------------

  predicate Aligned(key: string, path: string) {
    key == path || key + "/" <= path
  }

  /** Nothing aligned lies strictly between a path and its parent. */
  lemma {:induction false} ParentIsNext(path: string, key: string)
    requires |key| < |path|
    ensures key + "/" <= path <==> Parent(path).Some? && Aligned(key, Parent(path).value)
    decreases |path|
  {
    var shorter := path[..|path| - 1];
    if path[|path| - 1] == '/' {
      assert path == shorter + "/";
      if |key| < |shorter| {
        assert key + "/" <= path <==> key + "/" <= shorter;
      } else {
        assert key + "/" <= path <==> key == shorter;
      }
    } else if |key| < |shorter| {
      ParentIsNext(shorter, key);
      assert key + "/" <= path <==> key + "/" <= shorter;
    } else {
      assert (key + "/")[|path| - 1] == '/';
    }
  }

  /** The ancestors of a path are its aligned prefixes, all of them, from the longest down. */
  lemma {:induction false} AncestorsAreAlignedPrefixes(path: string, key: string)
    ensures key in Ancestors(path) <==> Aligned(key, path)
    ensures forall i, j :: 0 <= i < j < |Ancestors(path)| ==> |Ancestors(path)[j]| < |Ancestors(path)[i]|
    decreases |path|
  {
    if Parent(path).Some? {
      AncestorsAreAlignedPrefixes(Parent(path).value, key);
      assert Ancestors(Parent(path).value)[0] == Parent(path).value;
    }
    if |key| < |path| {
      ParentIsNext(path, key);
    }
  }

  lemma {:induction false} FirstHitIsFirst(m: map<string, ProxyEntry>, paths: seq<string>)
    ensures FirstHit(m, paths).None? <==> forall p :: p in paths ==> p !in m
    ensures FirstHit(m, paths).Some? ==>
      exists i :: 0 <= i < |paths| && FirstHit(m, paths) == Some(paths[i]) && paths[i] in m
        && forall j :: 0 <= j < i ==> paths[j] !in m
  {
    if paths != [] && paths[0] !in m {
      var rest := paths[1..];
      FirstHitIsFirst(m, rest);
      if FirstHit(m, rest).Some? {
        var i :| 0 <= i < |rest| && FirstHit(m, rest) == Some(rest[i]) && rest[i] in m
          && forall j :: 0 <= j < i ==> rest[j] !in m;
        assert forall j :: 0 <= j < i + 1 ==> paths[j] !in m by {
          assert forall j :: 0 < j < i + 1 ==> paths[j] == rest[j - 1];
        }
        assert paths[i + 1] == rest[i];
      }
    }
  }

  /** A key that the map holds, aligned with the path, and no shorter than any other such key. */
  ghost predicate LongestKey(m: map<string, ProxyEntry>, path: string, key: string) {
    key in m && Aligned(key, path) && forall k :: k in m && Aligned(k, path) ==> |k| <= |key|
  }

  lemma {:induction false} SameLengthSameKey(path: string, a: string, b: string)
    requires Aligned(a, path) && Aligned(b, path) && |a| == |b|
    ensures a == b
  {
    assert a == path[..|a|] && b == path[..|b|];
  }

  /** Routing meets its specification: the walk up the ancestors selects the longest aligned key, and
  nothing exactly when there is no aligned key. */
  lemma {:induction false} SelectsLongestKey(m: map<string, ProxyEntry>, uriPath: string)
    ensures var path := TrimStart(uriPath);
      && (Select(m, uriPath).None? <==> forall k :: k in m ==> !Aligned(k, path))
      && forall key :: Select(m, uriPath) == Some(key) <==> LongestKey(m, path, key)
  {
    var path := TrimStart(uriPath);
    var up := Ancestors(path);
    FirstHitIsFirst(m, up);
    forall k ensures k in up <==> Aligned(k, path) {
      AncestorsAreAlignedPrefixes(path, k);
    }
    if Select(m, uriPath).Some? {
      SelectedIsLongest(m, path);
      var hit := Select(m, uriPath).value;
      forall key | LongestKey(m, path, key) ensures key == hit {
        SameLengthSameKey(path, key, hit);
      }
    }
  }

  lemma {:induction false} SelectedIsLongest(m: map<string, ProxyEntry>, path: string)
    requires FirstHit(m, Ancestors(path)).Some?
    ensures LongestKey(m, path, FirstHit(m, Ancestors(path)).value)
  {
    var up := Ancestors(path);
    FirstHitIsFirst(m, up);
    var i :| 0 <= i < |up| && FirstHit(m, up) == Some(up[i]) && up[i] in m && forall j :: 0 <= j < i ==> up[j] !in m;
    AncestorsAreAlignedPrefixes(path, up[i]);
    forall k | k in m && Aligned(k, path) ensures |k| <= |up[i]| {
      NotBefore(m, path, i, k);
    }
  }

  lemma {:induction false} NotBefore(m: map<string, ProxyEntry>, path: string, i: nat, k: string)
    requires i < |Ancestors(path)| && forall j :: 0 <= j < i ==> Ancestors(path)[j] !in m
    requires k in m && Aligned(k, path)
    ensures |k| <= |Ancestors(path)[i]|
  {
    AncestorsAreAlignedPrefixes(path, k);
    var j :| 0 <= j < |Ancestors(path)| && Ancestors(path)[j] == k;
  }

  /** A relay at the root serves the bare root only: for no other path is the empty key selected. */
  lemma {:induction false} RootKeyServesRootOnly(m: map<string, ProxyEntry>, uriPath: string)
    ensures Select(m, uriPath) == Some("") <==> "" in m && TrimStart(uriPath) == ""
  {
    SelectsLongestKey(m, uriPath);
    assert Select(m, uriPath) == Some("") <==> LongestKey(m, TrimStart(uriPath), "");
  }

  // ---------------------------------------------------------------------------------------------
  // The rewrite
  // ---------------------------------------------------------------------------------------------

  /** A selected key yields an upstream exactly when the request has one leading slash, or is nothing but
  slashes. */
  lemma {:induction false} UpstreamIff(m: map<string, ProxyEntry>, uriPath: string)
    ensures Get(m, uriPath).Some? <==>
      && Select(m, uriPath).Some?
      && (Lead(uriPath) == 1 || (Lead(uriPath) > 0 && TrimStart(uriPath) == ""))
  {
    var path, n := TrimStart(uriPath), Lead(uriPath);
    TrimSplits(uriPath);
    SelectsLongestKey(m, uriPath);
    if Select(m, uriPath).Some? {
      var key := Select(m, uriPath).value;
      assert LongestKey(m, path, key);
      PrefixIff(uriPath, key);
    }
  }

  lemma {:induction false} PrefixIff(uriPath: string, key: string)
    requires Aligned(key, TrimStart(uriPath))
    ensures "/" + key <= uriPath <==> Lead(uriPath) == 1 || (Lead(uriPath) > 0 && TrimStart(uriPath) == "")
  {
    var path, n := TrimStart(uriPath), Lead(uriPath);
    TrimSplits(uriPath);
    assert key <= path;
    PrefixHead("/" + key, uriPath);
    if n == 0 {
      assert uriPath == path;
    } else if n == 1 {
      assert Slashes(1) == "/";
      assert uriPath == "/" + path;
    } else {
      assert Slashes(n) == "/" + Slashes(n - 1) && Slashes(n - 1) == "/" + Slashes(n - 2);
      assert uriPath[1] == '/';
      assert key != "" ==> key[0] == path[0] && ("/" + key)[1] == key[0];
    }
  }

  lemma {:induction false} PrefixHead(a: string, b: string)
    ensures a <= b && |a| > 0 ==> b[0] == a[0]
    ensures a <= b && |a| > 1 ==> b[1] == a[1]
  {
  }

  /** The request is its key, some slashes, and a rest without a leading slash. */
  ghost predicate SplitsAs(uriPath: string, key: string, n: nat, rest: string) {
    uriPath == "/" + key + Slashes(n) + rest && (rest == "" || rest[0] != '/')
  }

  /** Whenever there is an upstream: the request splits in exactly one way at the selected key, at a
  segment boundary, and the upstream path is the entry's prefix and the rest. */
  lemma {:induction false} RewriteSplitsRequest(m: map<string, ProxyEntry>, uriPath: string)
    returns (key: string, n: nat, rest: string)
    requires Get(m, uriPath).Some?
    ensures Select(m, uriPath) == Some(key) && key in m
    ensures SplitsAs(uriPath, key, n, rest) && (rest != "" && key != "" ==> n > 0)
    ensures forall n', rest' :: SplitsAs(uriPath, key, n', rest') ==> n' == n && rest' == rest
    ensures Get(m, uriPath).value == Upstream(m[key].secure, m[key].port, "/" + m[key].prefixPath + rest)
  {
    key := Select(m, uriPath).value;
    n, rest := Lead(uriPath[|key| + 1..]), TrimStart(uriPath[|key| + 1..]);
    SplitExists(uriPath, key);
    if rest != "" && key != "" {
      RestIsBehindASlash(m, uriPath, key, n, rest);
    }
    forall n', rest' | SplitsAs(uriPath, key, n', rest') ensures n' == n && rest' == rest {
      SplitIsUnique(uriPath, key, n', rest');
    }
  }

  lemma {:induction false} SplitExists(uriPath: string, key: string)
    requires "/" + key <= uriPath
    ensures SplitsAs(uriPath, key, Lead(uriPath[|key| + 1..]), TrimStart(uriPath[|key| + 1..]))
  {
    var tail := uriPath[|key| + 1..];
    TrimSplits(tail);
    assert uriPath == "/" + key + tail;
    assert "/" + key + Slashes(Lead(tail)) + TrimStart(tail) == "/" + key + (Slashes(Lead(tail)) + TrimStart(tail));
  }

  lemma {:induction false} SplitIsUnique(uriPath: string, key: string, n: nat, rest: string)
    requires SplitsAs(uriPath, key, n, rest)
    ensures n == Lead(uriPath[|key| + 1..]) && rest == TrimStart(uriPath[|key| + 1..])
  {
    assert uriPath == "/" + key + (Slashes(n) + rest);
    assert uriPath[|key| + 1..] == Slashes(n) + rest;
    TrimIsUnique(n, rest);
  }

  lemma {:induction false} PathOfSplit(uriPath: string, key: string, n: nat, rest: string)
    requires SplitsAs(uriPath, key, n, rest) && Lead(uriPath) == 1
    ensures TrimStart(uriPath) == key + (Slashes(n) + rest)
  {
    TrimSplits(uriPath);
    assert Slashes(1) == "/";
    assert uriPath[1..] == key + (Slashes(n) + rest);
  }

  lemma {:induction false} AlignedTail(key: string, tail: string)
    requires Aligned(key, key + tail) && tail != ""
    ensures tail[0] == '/'
  {
    assert (key + tail)[|key|] == (key + "/")[|key|];
  }

  lemma {:induction false} RestIsBehindASlash(m: map<string, ProxyEntry>, uriPath: string, key: string, n: nat,
                                              rest: string)
    requires Get(m, uriPath).Some? && Select(m, uriPath) == Some(key) && key != ""
    requires SplitsAs(uriPath, key, n, rest) && rest != ""
    ensures n > 0
  {
    UpstreamIff(m, uriPath);
    SelectsLongestKey(m, uriPath);
    assert LongestKey(m, TrimStart(uriPath), key);
    PathOfSplit(uriPath, key, n, rest);
    AlignedTail(key, Slashes(n) + rest);
  }

  /** What a relay makes of a request: in strip mode the rest, otherwise its path as configured and the
  rest, at its own port and scheme. */
  lemma {:induction false} RelayRewrites(m: map<string, ProxyEntry>, uriPath: string, relay: HttpRelay,
                                         n: nat, rest: string)
    requires Get(m, uriPath).Some? && Select(m, uriPath) == Some(KeyOf(relay))
    requires KeyOf(relay) in m && m[KeyOf(relay)] == EntryOf(relay)
    requires SplitsAs(uriPath, KeyOf(relay), n, rest)
    ensures Get(m, uriPath).value.secure == relay.https && Get(m, uriPath).value.port == relay.port
    ensures Get(m, uriPath).value.path == if relay.stripPath then "/" + rest else "/" + relay.path + rest
  {
    SplitIsUnique(uriPath, KeyOf(relay), n, rest);
    assert "/" + "" + rest == "/" + rest;
  }

  /** In strip mode, putting the key back recovers the request, but for the slashes behind the key. */
  lemma {:induction false} StripModeRecovers(m: map<string, ProxyEntry>, uriPath: string, relay: HttpRelay,
                                             n: nat, rest: string)
    requires Get(m, uriPath).Some? && Select(m, uriPath) == Some(KeyOf(relay))
    requires KeyOf(relay) in m && m[KeyOf(relay)] == EntryOf(relay) && relay.stripPath
    requires SplitsAs(uriPath, KeyOf(relay), n, rest)
    ensures Get(m, uriPath).value == Upstream(relay.https, relay.port, "/" + rest)
    ensures uriPath == "/" + KeyOf(relay) + Slashes(n) + Get(m, uriPath).value.path[1..]
  {
    RelayRewrites(m, uriPath, relay, n, rest);
  }

  /** Without strip mode the path is meant to pass unchanged. It does exactly when the relay was
  configured as its key followed by as many slashes as the request has there: no leading slash, and the
  trailing slashes that the untrimmed prefix brings in place of those removed from the request. */
  lemma {:induction false} PassesUnchangedIff(m: map<string, ProxyEntry>, uriPath: string, relay: HttpRelay,
                                              n: nat, rest: string)
    requires Get(m, uriPath).Some? && Select(m, uriPath) == Some(KeyOf(relay))
    requires KeyOf(relay) in m && m[KeyOf(relay)] == EntryOf(relay) && !relay.stripPath
    requires SplitsAs(uriPath, KeyOf(relay), n, rest)
    ensures Get(m, uriPath).value.path == uriPath <==> relay.path == KeyOf(relay) + Slashes(n)
  {
    var key := KeyOf(relay);
    SplitIsUnique(uriPath, key, n, rest);
    var up := Get(m, uriPath).value.path;
    assert up == "/" + relay.path + rest;
    assert uriPath == "/" + (key + Slashes(n)) + rest;
    if up == uriPath {
      assert |relay.path| == |key + Slashes(n)|;
      assert up[1..|relay.path| + 1] == relay.path;
      assert uriPath[1..|relay.path| + 1] == key + Slashes(n);
    }
  }

  /** So the usual way to write a relay, `/some_path`, never passes a path unchanged. */
  lemma {:induction false} LeadingSlashNeverPasses(m: map<string, ProxyEntry>, uriPath: string, relay: HttpRelay,
                                                   n: nat, rest: string)
    requires Get(m, uriPath).Some? && Select(m, uriPath) == Some(KeyOf(relay))
    requires KeyOf(relay) in m && m[KeyOf(relay)] == EntryOf(relay) && !relay.stripPath
    requires SplitsAs(uriPath, KeyOf(relay), n, rest)
    requires "/" <= relay.path && KeyOf(relay) != ""
    ensures Get(m, uriPath).value.path != uriPath
  {
    PassesUnchangedIff(m, uriPath, relay, n, rest);
    var key := KeyOf(relay);
    assert key <= TrimStart(relay.path) && key[0] != '/';
    assert (key + Slashes(n))[0] == key[0];
  }

  lemma {:induction false} CollectOne(relay: HttpRelay)
    ensures Collect([relay]) == map[KeyOf(relay) := EntryOf(relay)]
  {
    assert [relay][..0] == [];
    assert Collect([]) == map[];
  }

  lemma {:induction false} RewriteAt(m: map<string, ProxyEntry>, uriPath: string, key: string, tail: string)
    requires uriPath == "/" + key + tail && Select(m, uriPath) == Some(key) && key in m
    ensures Get(m, uriPath) == Some(Upstream(m[key].secure, m[key].port, "/" + m[key].prefixPath + TrimStart(tail)))
  {
    assert "/" + key <= uriPath && uriPath[|key| + 1..] == tail;
  }

  /** What is sent when a relay is written with a leading slash: that slash doubled, and none between the
  prefix and the rest. */
  lemma {:induction false} GluedPathIsSent(m: map<string, ProxyEntry>, uriPath: string, key: string, rest: string)
    requires uriPath == "/" + key + ("/" + rest) && (rest == "" || rest[0] != '/')
    requires Select(m, uriPath) == Some(key) && key in m && m[key].prefixPath == "/" + key
    ensures Get(m, uriPath) == Some(Upstream(m[key].secure, m[key].port, "/" + ("/" + key) + rest))
  {
    RewriteAt(m, uriPath, key, "/" + rest);
    TrimOne(rest);
  }

  lemma {:induction false} TrimOne(rest: string)
    requires rest == "" || rest[0] != '/'
    ensures TrimStart("/" + rest) == rest
  {
    assert Slashes(1) == "/";
    TrimIsUnique(1, rest);
  }

  /** For a relay at `/some_path` a request for `/some_path/x` becomes one for `//some_pathx`. */
  lemma {:induction false} SomePathIsGlued(relay: HttpRelay, uriPath: string)
    requires relay.path == "/some_path" && !relay.stripPath && uriPath == "/some_path/x"
    ensures Get(Collect([relay]), uriPath) == Some(Upstream(relay.https, relay.port, "//some_pathx"))
  {
    var m, key := Collect([relay]), KeyOf(relay);
    CollectOne(relay);
    SomePathIsKey(relay);
    SomePathSelected(m, uriPath);
    assert uriPath == "/" + key + ("/" + "x");
    GluedPathIsSent(m, uriPath, key, "x");
    assert "/" + ("/" + key) + "x" == "//some_pathx";
  }

  lemma {:induction false} SomePathIsKey(relay: HttpRelay)
    requires relay.path == "/some_path"
    ensures KeyOf(relay) == "some_path"
  {
    assert relay.path == "/" + relay.path[1..];
    TrimOne(relay.path[1..]);
    assert relay.path[1..] == "some_path";
  }

  lemma {:induction false} SomePathSelected(m: map<string, ProxyEntry>, uriPath: string)
    requires m.Keys == {"some_path"} && uriPath == "/some_path/x"
    ensures Select(m, uriPath) == Some("some_path")
  {
    var path := uriPath[1..];
    assert uriPath == "/" + path;
    TrimOne(path);
    assert "some_path" + "/" <= path;
    SelectsLongestKey(m, uriPath);
    assert LongestKey(m, path, "some_path");
  }

  // ---------------------------------------------------------------------------------------------
  // The order of relays
  // ---------------------------------------------------------------------------------------------

  ghost predicate KeyAt(relays: seq<HttpRelay>, i: int, key: string) {
    0 <= i < |relays| && KeyOf(relays[i]) == key
  }

  /** The map has the key of every relay. */
  lemma {:induction false} CollectHasKeys(relays: seq<HttpRelay>, i: nat)
    requires i < |relays|
    ensures KeyOf(relays[i]) in Collect(relays)
  {
    if i < |relays| - 1 {
      CollectHasKeys(relays[..|relays| - 1], i);
    }
  }

  /** Each of its entries is that of a relay with the entry's key. */
  lemma {:induction false} CollectHoldsEntries(relays: seq<HttpRelay>, key: string) returns (i: nat)
    requires key in Collect(relays)
    ensures KeyAt(relays, i, key) && Collect(relays)[key] == EntryOf(relays[i])
  {
    i := |relays| - 1;
    if KeyOf(relays[i]) != key {
      i := CollectHoldsEntries(relays[..i], key);
    }
  }

  /** Relays with one key agree on everything but their path's spelling. */
  ghost predicate Agreeing(relays: seq<HttpRelay>) {
    forall i, j :: 0 <= i < |relays| && 0 <= j < |relays| && KeyOf(relays[i]) == KeyOf(relays[j])
      ==> EntryOf(relays[i]) == EntryOf(relays[j])
  }

  ghost predicate OrderIrrelevant(relays: seq<HttpRelay>) {
    forall other: seq<HttpRelay> :: multiset(other) == multiset(relays) ==> Collect(other) == Collect(relays)
  }

  /** If `b` has the relays of `a`, its map has the keys, and the entries if the relays agree. */
  lemma {:induction false} CollectedToo(a: seq<HttpRelay>, b: seq<HttpRelay>, key: string)
    requires (forall r :: r in a ==> r in b) && key in Collect(a)
    ensures key in Collect(b) && (Agreeing(b) ==> Collect(b)[key] == Collect(a)[key])
  {
    var i := CollectHoldsEntries(a, key);
    assert a[i] in b;
    var k :| 0 <= k < |b| && b[k] == a[i];
    CollectHasKeys(b, k);
    var j := CollectHoldsEntries(b, key);
  }

  lemma {:induction false} SameRelays(a: seq<HttpRelay>, b: seq<HttpRelay>, r: HttpRelay)
    requires multiset(a) == multiset(b)
    ensures r in a <==> r in b
  {
    assert r in a <==> r in multiset(a);
    assert r in b <==> r in multiset(b);
  }

  lemma {:induction false} AgreeingCollectsTheSame(a: seq<HttpRelay>, b: seq<HttpRelay>)
    requires multiset(a) == multiset(b) && Agreeing(a)
    ensures Collect(b) == Collect(a)
  {
    forall r ensures r in a <==> r in b {
      SameRelays(a, b, r);
    }
    forall key | key in Collect(b) ensures key in Collect(a) && Collect(b)[key] == Collect(a)[key] {
      CollectedToo(b, a, key);
    }
    forall key | key in Collect(a) ensures key in Collect(b) {
      CollectedToo(a, b, key);
    }
  }

  /** Moving a relay to the end makes its entry win. */
  lemma {:induction false} MovedLastWins(relays: seq<HttpRelay>, i: nat) returns (moved: seq<HttpRelay>)
    requires i < |relays|
    ensures multiset(moved) == multiset(relays)
    ensures KeyOf(relays[i]) in Collect(moved) && Collect(moved)[KeyOf(relays[i])] == EntryOf(relays[i])
  {
    moved := relays[..i] + relays[i + 1..] + [relays[i]];
    assert relays == relays[..i] + [relays[i]] + relays[i + 1..];
    assert moved[..|moved| - 1] == relays[..i] + relays[i + 1..];
  }

  lemma {:induction false} AgreedEntry(relays: seq<HttpRelay>, i: nat)
    requires i < |relays| && Agreeing(relays)
    ensures KeyOf(relays[i]) in Collect(relays) && Collect(relays)[KeyOf(relays[i])] == EntryOf(relays[i])
  {
    CollectHasKeys(relays, i);
    var j := CollectHoldsEntries(relays, KeyOf(relays[i]));
  }

  lemma {:induction false} RelayIsLongest(relays: seq<HttpRelay>, i: nat, path: string)
    requires i < |relays| && Aligned(KeyOf(relays[i]), path)
    requires forall j :: 0 <= j < |relays| && Aligned(KeyOf(relays[j]), path) ==>
      |KeyOf(relays[j])| <= |KeyOf(relays[i])|
    ensures LongestKey(Collect(relays), path, KeyOf(relays[i]))
  {
    CollectHasKeys(relays, i);
    forall k | k in Collect(relays) && Aligned(k, path) ensures |k| <= |KeyOf(relays[i])| {
      var j := CollectHoldsEntries(relays, k);
    }
  }

  /** From the configured relays to the upstream: of relays that agree, the one whose trimmed path is the
  longest that the request is aligned with gets it, with the path that its own mode makes of the rest. */
  lemma {:induction false} RoutesToRelay(relays: seq<HttpRelay>, i: nat, uriPath: string, n: nat, rest: string)
    requires i < |relays| && Agreeing(relays)
    requires Aligned(KeyOf(relays[i]), TrimStart(uriPath))
    requires forall j :: 0 <= j < |relays| && Aligned(KeyOf(relays[j]), TrimStart(uriPath)) ==>
      |KeyOf(relays[j])| <= |KeyOf(relays[i])|
    requires Lead(uriPath) == 1 && SplitsAs(uriPath, KeyOf(relays[i]), n, rest)
    ensures Get(Collect(relays), uriPath) == Some(Upstream(relays[i].https, relays[i].port,
      if relays[i].stripPath then "/" + rest else "/" + relays[i].path + rest))
  {
    var m := Collect(relays);
    AgreedEntry(relays, i);
    RelayIsLongest(relays, i, TrimStart(uriPath));
    SelectsLongestKey(m, uriPath);
    UpstreamIff(m, uriPath);
    RelayRewrites(m, uriPath, relays[i], n, rest);
  }

  /** The order in which relays are supplied, which is the order of a hash map's iteration, is irrelevant to
  the routing map exactly when relays with the same trimmed path agree; pairwise distinct ones do. */
  lemma {:induction false} OrderIrrelevantIff(relays: seq<HttpRelay>)
    ensures OrderIrrelevant(relays) <==> Agreeing(relays)
  {
    if Agreeing(relays) {
      forall other: seq<HttpRelay> | multiset(other) == multiset(relays)
        ensures Collect(other) == Collect(relays)
      {
        AgreeingCollectsTheSame(relays, other);
      }
    }
    if OrderIrrelevant(relays) {
      forall i, j | 0 <= i < |relays| && 0 <= j < |relays| && KeyOf(relays[i]) == KeyOf(relays[j])
        ensures EntryOf(relays[i]) == EntryOf(relays[j])
      {
        var a := MovedLastWins(relays, i);
        var b := MovedLastWins(relays, j);
        assert Collect(a) == Collect(relays) && Collect(b) == Collect(relays);
      }
    }
  }
}
