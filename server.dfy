/**
 * A virtual server's configuration: the domain names it answers to, its
 * backends, locations, custom headers and API lists, with the queries the
 * router runs on it and the edits the admin layer makes to it in place.
 */
module Teaconfigs {
  import opened Wrappers
  import opened Lists
  import opened Strings

  /** A server-level backend with its health flags. */
  datatype ServerBackendConfig = ServerBackendConfig(id: string, address: string, on: bool, isDown: bool)

  /** A custom response header. */
  datatype HeaderConfig = HeaderConfig(name: string, value: string)

  /** A FastCGI target; only its identity matters here. */
  datatype FastcgiConfig = FastcgiConfig(pass: string)

  /** An API definition, known to the server by the file it is stored in. */
  datatype Api = Api(path: string, filename: string)

  /** A location block of a server; the update action edits it in place. */
  class LocationConfig {
    const id: string
    var on: bool
    var root: string
    var charset: string
    var index: seq<string>
  }

  // ---------------------------------------------------------------- domain names

  /** One segment of a configured name accepts one segment of the host: equal, `*` or empty. */
  predicate PieceMatches(hostPiece: string, piece: string)
  {
    hostPiece == piece || piece == "*" || piece == ""
  }

  /** Segment-wise wildcard match: same number of `.`-separated segments, each accepted. */
  predicate WildcardMatches(host: string, testName: string)
  {
    var hostPieces, pieces := Split(host, '.'), Split(testName, '.');
    |hostPieces| == |pieces| &&
    forall k :: 0 <= k < |pieces| ==> PieceMatches(hostPieces[k], pieces[k])
  }

  /** A non-empty configured name matches the host exactly or segment-wise. */
  predicate NameMatches(host: string, testName: string)
  {
    |testName| > 0 && (testName == host || WildcardMatches(host, testName))
  }

  /**
   * The matcher's answer for `host` against the configured names, scanned in
   * order: the host itself on an exact match, the empty name on a wildcard
   * match, and no match for an empty host.
   */
  function MatchNames(names: seq<string>, host: string): (string, bool)
    decreases |names|
  {
    if |host| == 0 || |names| == 0 then ("", false)
    else if |names[0]| == 0 then MatchNames(names[1..], host)
    else if names[0] == host then (names[0], true)
    else if WildcardMatches(host, names[0]) then ("", true)
    else MatchNames(names[1..], host)
  }

  /**
   * First match wins: the answer is a match exactly when some configured name
   * matches, and then it is decided by the first such name.
   */
  lemma {:induction false} MatchNamesFirstWins(names: seq<string>, host: string)
    requires |host| > 0
    ensures !MatchNames(names, host).1 <==> forall k :: 0 <= k < |names| ==> !NameMatches(host, names[k])
    ensures MatchNames(names, host).1 ==>
      exists k :: 0 <= k < |names| && NameMatches(host, names[k]) &&
        (forall j :: 0 <= j < k ==> !NameMatches(host, names[j])) &&
        MatchNames(names, host).0 == (if names[k] == host then host else "")
    decreases |names|
  {
    if |names| > 0 {
      MatchNamesFirstWins(names[1..], host);
      if NameMatches(host, names[0]) {
        assert MatchNames(names, host).1;
      } else {
        assert forall k :: 1 <= k < |names| ==> names[k] == names[1..][k - 1];
        if MatchNames(names, host).1 {
          var k :| 0 <= k < |names[1..]| && NameMatches(host, names[1..][k]) &&
            (forall j :: 0 <= j < k ==> !NameMatches(host, names[1..][j])) &&
            MatchNames(names[1..], host).0 == (if names[1..][k] == host then host else "");
          assert NameMatches(host, names[k + 1]);
        }
      }
    }
  }

  /** The empty host never matches, and a reported name is the host itself or empty. */
  lemma {:induction false} MatchNamesAnswer(names: seq<string>, host: string)
    ensures |host| == 0 ==> MatchNames(names, host) == ("", false)
    ensures (MatchNames(names, host).0 == host && MatchNames(names, host).1) ||
            MatchNames(names, host).0 == ""
    ensures MatchNames(names, host).0 == host && |host| > 0 ==> host in names
    decreases |names|
  {
    if |names| > 0 && |host| > 0 {
      MatchNamesAnswer(names[1..], host);
    }
  }

  /** A name whose segment count differs from the host's can only match exactly. */
  lemma SegmentCountMismatch(host: string, testName: string)
    requires |Split(host, '.')| != |Split(testName, '.')|
    ensures NameMatches(host, testName) <==> |testName| > 0 && testName == host
  {
  }

  lemma SplitThreeSegments(a: string, b: string, c: string)
    requires '.' !in a && '.' !in b && '.' !in c
    ensures Split(a + "." + b + "." + c, '.') == [a, b, c]
  {
    SplitWithoutSeparator(c, '.');
    SplitAfterPiece(b, '.', c);
    SplitAfterPiece(a, '.', b + "." + c);
    assert a + "." + b + "." + c == a + ['.'] + (b + ['.'] + c);
  }

  /** An exact name returns itself; empty configured names are skipped. */
  lemma MatchNamesExact(names: seq<string>, host: string)
    requires |host| > 0
    ensures MatchNames([""] + [host] + names, host) == (host, true)
  {
    assert ([""] + [host] + names)[1..] == [host] + names;
  }

  /**
   * A `*` first segment accepts any other first segment of the host, and the
   * reported name is then empty (`*.b.com` against `x.b.com`).
   */
  lemma MatchNamesWildcard(x: string, b: string, c: string)
    requires '.' !in x && '.' !in b && '.' !in c && x != "*"
    ensures MatchNames(["*" + "." + b + "." + c], x + "." + b + "." + c) == ("", true)
  {
    var host, pattern := x + "." + b + "." + c, "*" + "." + b + "." + c;
    SplitThreeSegments(x, b, c);
    SplitThreeSegments("*", b, c);
    assert Split(host, '.')[0] != Split(pattern, '.')[0];
    assert WildcardMatches(host, pattern);
  }

  lemma SplitFourSegments(a: string, b: string, c: string, d: string)
    requires '.' !in a && '.' !in b && '.' !in c && '.' !in d
    ensures |Split(a + "." + b + "." + c + "." + d, '.')| == 4
  {
    var tail := b + "." + c + "." + d;
    SplitThreeSegments(b, c, d);
    LeadingSegment(a, b, c, d);
    SplitAfterPiece(a, '.', tail);
  }

  lemma LeadingSegment(a: string, b: string, c: string, d: string)
    ensures a + "." + b + "." + c + "." + d == a + ['.'] + (b + "." + c + "." + d)
  {
  }

  /** A four-segment name never matches a three-segment host (`a.b.c.com` against `x.y.com`). */
  lemma MatchNamesSegmentCount(p: string, q: string, r: string, t: string, a: string, b: string, c: string)
    requires '.' !in p && '.' !in q && '.' !in r && '.' !in t
    requires '.' !in a && '.' !in b && '.' !in c
    ensures MatchNames([p + "." + q + "." + r + "." + t], a + "." + b + "." + c) == ("", false)
  {
    var host, pattern := a + "." + b + "." + c, p + "." + q + "." + r + "." + t;
    SplitThreeSegments(a, b, c);
    SplitFourSegments(p, q, r, t);
    assert pattern != host;
    SegmentCountMismatch(host, pattern);
    assert |host| > 0;
  }

  // ---------------------------------------------------------------- backends and headers

  /** The backends that are switched on and not down, in configuration order. */
  function Available(backends: seq<ServerBackendConfig>): seq<ServerBackendConfig>
    decreases |backends|
  {
    if |backends| == 0 then []
    else
      var b := backends[|backends| - 1];
      Available(backends[..|backends| - 1]) + (if b.on && !b.isDown then [b] else [])
  }

  /** The filter keeps exactly the usable backends. */
  lemma {:induction false} AvailableMembers(backends: seq<ServerBackendConfig>)
    ensures forall b :: b in Available(backends) <==> b in backends && b.on && !b.isDown
    ensures |Available(backends)| <= |backends|
    decreases |backends|
  {
    if |backends| > 0 {
      var p := backends[..|backends| - 1];
      AvailableMembers(p);
      assert backends == p + [backends[|backends| - 1]];
    }
  }

  /** Header names compare case-insensitively. */
  predicate SameName(h: HeaderConfig, name: string)
  {
    ToUpper(h.name) == ToUpper(name)
  }

  /** The headers after setting `name` to `value`: every header of that name updated, or one appended. */
  function WithHeader(headers: seq<HeaderConfig>, name: string, value: string): seq<HeaderConfig>
  {
    if exists k :: 0 <= k < |headers| && SameName(headers[k], name) then
      seq(|headers|, k requires 0 <= k < |headers| =>
        if SameName(headers[k], name) then headers[k].(value := value) else headers[k])
    else headers + [HeaderConfig(name, value)]
  }

  /**
   * After setting, every header named `name` (case-insensitively) has `value`,
   * there is at least one, and every other header and every header name is
   * unchanged; the list grows by one only if no header had that name.
   */
  lemma SetHeaderEffect(headers: seq<HeaderConfig>, name: string, value: string)
    ensures var r := WithHeader(headers, name, value);
      var found := exists k :: 0 <= k < |headers| && SameName(headers[k], name);
      && |r| == (if found then |headers| else |headers| + 1)
      && (forall k :: 0 <= k < |headers| ==> r[k].name == headers[k].name)
      && (forall k :: 0 <= k < |headers| && !SameName(headers[k], name) ==> r[k] == headers[k])
      && (forall k :: 0 <= k < |r| && SameName(r[k], name) ==> r[k].value == value)
      && (exists k :: 0 <= k < |r| && SameName(r[k], name))
      && (!found ==> r[|headers|] == HeaderConfig(name, value))
  {
    if !exists k :: 0 <= k < |headers| && SameName(headers[k], name) {
      var r := WithHeader(headers, name, value);
      assert SameName(r[|headers|], name);
    }
  }

  /** Setting the same header twice is the same as setting it once. */
  lemma SetHeaderIdempotent(headers: seq<HeaderConfig>, name: string, value: string)
    ensures WithHeader(WithHeader(headers, name, value), name, value) == WithHeader(headers, name, value)
  {
    var r := WithHeader(headers, name, value);
    SetHeaderEffect(headers, name, value);
    var r2 := WithHeader(r, name, value);
    assert |r2| == |r|;
    forall k | 0 <= k < |r| ensures r2[k] == r[k] {
      if SameName(r[k], name) {
        assert r[k].value == value;
      }
    }
  }

  // ---------------------------------------------------------------- API lists

  /** The list with `x` swapped with its predecessor, unless `x` is absent or already first. */
  function MoveUp<T(==)>(s: seq<T>, x: T): (r: seq<T>)
  {
    var i := IndexOf(s, x);
    if i <= 0 then s else s[i := s[i - 1]][i - 1 := s[i]]
  }

  /** The list with `x` swapped with its successor; a present `x` must not be last. */
  function MoveDown<T(==)>(s: seq<T>, x: T): (r: seq<T>)
    requires x in s ==> IndexOf(s, x) < |s| - 1
  {
    var i := IndexOf(s, x);
    if i < 0 then s else s[i := s[i + 1]][i + 1 := s[i]]
  }

  /**
   * Moving up swaps `x` with its predecessor and keeps the same elements; it
   * changes nothing exactly when `x` is absent or already first.
   */
  lemma MoveUpEffect<T>(s: seq<T>, x: T)
    ensures |MoveUp(s, x)| == |s| && multiset(MoveUp(s, x)) == multiset(s)
    ensures MoveUp(s, x) == s <==> IndexOf(s, x) <= 0
    ensures 0 < IndexOf(s, x) ==>
      var i := IndexOf(s, x);
      MoveUp(s, x)[i - 1] == x && MoveUp(s, x)[i] == s[i - 1] &&
      forall k :: 0 <= k < |s| && k != i && k != i - 1 ==> MoveUp(s, x)[k] == s[k]
  {
    var i := IndexOf(s, x);
    if 0 < i {
      assert s[..i][i - 1] == s[i - 1];
      SwapKeepsElements(s, i - 1, i);
    }
  }

  /**
   * Moving down swaps `x` with its successor and keeps the same elements; it
   * changes nothing when `x` is absent.
   */
  lemma MoveDownEffect<T>(s: seq<T>, x: T)
    requires x in s ==> IndexOf(s, x) < |s| - 1
    ensures |MoveDown(s, x)| == |s| && multiset(MoveDown(s, x)) == multiset(s)
    ensures x !in s ==> MoveDown(s, x) == s
    ensures x in s ==>
      var i := IndexOf(s, x);
      MoveDown(s, x)[i + 1] == x && MoveDown(s, x)[i] == s[i + 1] &&
      forall k :: 0 <= k < |s| && k != i && k != i + 1 ==> MoveDown(s, x)[k] == s[k]
  {
    var i := IndexOf(s, x);
    if 0 <= i {
      SwapKeepsElements(s, i, i + 1);
    }
  }

  lemma SwapKeepsElements<T>(s: seq<T>, i: nat, j: nat)
    requires i < j < |s|
    ensures multiset(s[j := s[i]][i := s[j]]) == multiset(s)
  {
  }

  /** After moving `x` down, its first occurrence is one place further. */
  lemma IndexAfterMoveDown<T>(s: seq<T>, x: T)
    requires 0 <= IndexOf(s, x) < |s| - 1 && s[IndexOf(s, x) + 1] != x
    ensures IndexOf(MoveDown(s, x), x) == IndexOf(s, x) + 1
  {
    var i := IndexOf(s, x);
    var d := MoveDown(s, x);
    SwappedPrefix(s, i, x);
    IndexOfAt(d, x, i + 1);
  }

  lemma SwappedPrefix<T>(s: seq<T>, i: nat, x: T)
    requires i + 1 < |s| && s[i] == x && x !in s[..i] && s[i + 1] != x
    ensures var d := s[i := s[i + 1]][i + 1 := s[i]]; d[i + 1] == x && x !in d[..i + 1]
  {
    var d := s[i := s[i + 1]][i + 1 := s[i]];
    forall k | 0 <= k < i + 1 ensures d[k] != x {
      if k < i {
        assert d[k] == s[..i][k];
      }
    }
  }

  /** Moving an element down and then up restores the list when its successor differs from it. */
  lemma MoveDownThenUpAt<T>(s: seq<T>, x: T)
    requires 0 <= IndexOf(s, x) < |s| - 1 && s[IndexOf(s, x) + 1] != x
    ensures MoveUp(MoveDown(s, x), x) == s
  {
    var i := IndexOf(s, x);
    IndexAfterMoveDown(s, x);
    SwapBack(s, i);
  }

  lemma SwapBack<T>(s: seq<T>, i: nat)
    requires i + 1 < |s|
    ensures var d := s[i := s[i + 1]][i + 1 := s[i]]; d[i + 1 := d[i]][i := d[i + 1]] == s
  {
  }

  /** In a list without repeats, moving an element down and then up restores the list. */
  lemma MoveDownThenUp<T>(s: seq<T>, x: T)
    requires forall i, j :: 0 <= i < j < |s| ==> s[i] != s[j]
    requires x in s ==> IndexOf(s, x) < |s| - 1
    ensures MoveUp(MoveDown(s, x), x) == s
  {
    var i := IndexOf(s, x);
    if 0 <= i {
      assert s[i] != s[i + 1];
      MoveDownThenUpAt(s, x);
    }
  }

  /** The API file list after adding `filename`: unchanged if it is already listed. */
  function AddFile(files: seq<string>, filename: string): seq<string>
  {
    if filename in files then files else files + [filename]
  }

  /** Adding files never creates a repeat, and the added file is listed afterwards. */
  lemma AddFileKeepsDistinct(files: seq<string>, filename: string)
    requires forall i, j :: 0 <= i < j < |files| ==> files[i] != files[j]
    ensures var r := AddFile(files, filename);
      filename in r && (forall i, j :: 0 <= i < j < |r| ==> r[i] != r[j]) &&
      (forall f :: f in r <==> f in files || f == filename)
  {
  }

  // ---------------------------------------------------------------- the server

  class ServerConfig {
    var name: seq<string>
    var listen: seq<string>
    var backends: seq<ServerBackendConfig>
    var locations: seq<LocationConfig>
    var headers: seq<HeaderConfig>
    var ignoreHeaders: seq<string>
    var fastcgi: seq<FastcgiConfig>
    var apiFiles: seq<string>
    var apiGroups: seq<string>
    var apiVersions: seq<string>

    constructor ()
      ensures name == [] && listen == [] && backends == [] && locations == []
      ensures headers == [] && ignoreHeaders == [] && fastcgi == []
      ensures apiFiles == [] && apiGroups == [] && apiVersions == []
    {
      name, listen, backends, locations := [], [], [], [];
      headers, ignoreHeaders, fastcgi := [], [], [];
      apiFiles, apiGroups, apiVersions := [], [], [];
    }

    /** Which configured name, if any, accepts `host` (see MatchNames). */
    method MatchName(host: string) returns (matchedName: string, matched: bool)
      ensures (matchedName, matched) == MatchNames(name, host)
    {
      if |host| == 0 {
        return "", false;
      }
      var pieces1 := Split(host, '.');
      var countPieces1 := |pieces1|;
      var i := 0;
      while i < |name|
        invariant 0 <= i <= |name|
        invariant MatchNames(name, host) == MatchNames(name[i..], host)
      {
        var testName := name[i];
        assert name[i..][1..] == name[i + 1..];
        if |testName| == 0 {
          i := i + 1;
          continue;
        }
        if host == testName {
          return testName, true;
        }
        var pieces2 := Split(testName, '.');
        if countPieces1 != |pieces2| {
          i := i + 1;
          continue;
        }
        var ok := true;
        var j := 0;
        while j < |pieces2|
          invariant 0 <= j <= |pieces2|
          invariant ok
          invariant forall k :: 0 <= k < j ==> PieceMatches(pieces1[k], pieces2[k])
        {
          if pieces1[j] != pieces2[j] && pieces2[j] != "*" && pieces2[j] != "" {
            ok := false;
            assert !PieceMatches(pieces1[j], pieces2[j]);
            break;
          }
          j := j + 1;
        }
        if ok {
          return "", true;
        }
        i := i + 1;
      }
      return "", false;
    }

    /** The first configured name without a `*`, or "" when every name has one. */
    method FirstName() returns (r: string)
      ensures (forall k :: 0 <= k < |name| ==> '*' in name[k]) ==> r == ""
      ensures (exists k :: 0 <= k < |name| && '*' !in name[k]) ==>
        exists k :: 0 <= k < |name| && r == name[k] && '*' !in name[k] &&
          forall j :: 0 <= j < k ==> '*' in name[j]
    {
      var i := 0;
      while i < |name|
        invariant 0 <= i <= |name|
        invariant forall j :: 0 <= j < i ==> '*' in name[j]
      {
        if '*' in name[i] {
          i := i + 1;
          continue;
        }
        return name[i];
      }
      return "";
    }

    /** A uniformly drawn usable backend (draw `r`), or None when no backend is on and up. */
    method NextBackend(r: nat) returns (b: Option<ServerBackendConfig>)
      ensures b.None? <==> |Available(backends)| == 0
      ensures b.Some? ==> b.value == Available(backends)[r % |Available(backends)|]
      ensures b.Some? ==> b.value in backends && b.value.on && !b.value.isDown
    {
      if |backends| == 0 {
        return None;
      }
      var availableBackends := [];
      var i := 0;
      while i < |backends|
        invariant 0 <= i <= |backends|
        invariant availableBackends == Available(backends[..i])
      {
        var backend := backends[i];
        assert backends[..i + 1][..i] == backends[..i];
        if backend.on && !backend.isDown {
          availableBackends := availableBackends + [backend];
        }
        i := i + 1;
      }
      assert backends[..i] == backends;
      var countBackends := |availableBackends|;
      if countBackends == 0 {
        return None;
      }
      var index := r % countBackends;
      AvailableMembers(backends);
      assert availableBackends[index] in availableBackends;
      return Some(availableBackends[index]);
    }

    /** A uniformly drawn FastCGI target (draw `r`), or None when there is none. */
    function NextFastcgi(r: nat): (f: Option<FastcgiConfig>)
      reads this
      ensures f.None? <==> |fastcgi| == 0
      ensures f.Some? ==> f.value in fastcgi && f.value == fastcgi[r % |fastcgi|]
    {
      if |fastcgi| == 0 then None else Some(fastcgi[r % |fastcgi|])
    }

    /** The header at `index`, or None outside the list. */
    function HeaderAtIndex(index: int): (h: Option<HeaderConfig>)
      reads this
      ensures h.Some? <==> 0 <= index < |headers|
      ensures h.Some? ==> h.value == headers[index]
    {
      if index >= 0 && index < |headers| then Some(headers[index]) else None
    }

    /** The location at `index`, or None outside the list. */
    function LocationAtIndex(index: int): (l: Option<LocationConfig>)
      reads this
      ensures l.Some? <==> 0 <= index < |locations|
      ensures l.Some? ==> l.value == locations[index] && l.value in locations
    {
      if index < 0 then None
      else if index >= |locations| then None
      else Some(locations[index])
    }

    /** Sets `value` on every header called `name`, ignoring case, or appends a new header. */
    method SetHeader(name: string, value: string)
      modifies this`headers
      ensures headers == WithHeader(old(headers), name, value)
    {
      var found := false;
      var upperName := ToUpper(name);
      var i := 0;
      while i < |headers|
        invariant 0 <= i <= |headers| == |old(headers)|
        invariant found <==> exists k :: 0 <= k < i && SameName(old(headers)[k], name)
        invariant forall k :: 0 <= k < i ==>
          headers[k] == if SameName(old(headers)[k], name) then old(headers)[k].(value := value) else old(headers)[k]
        invariant forall k :: i <= k < |headers| ==> headers[k] == old(headers)[k]
      {
        var header := headers[i];
        if ToUpper(header.name) == upperName {
          found := true;
          headers := headers[i := header.(value := value)];
        }
        i := i + 1;
      }
      if found {
        return;
      }
      var header := HeaderConfig(name, value);
      headers := headers + [header];
    }

    method DeleteHeaderAtIndex(index: int)
      modifies this`headers
      ensures headers == if 0 <= index < |old(headers)| then RemoveAt(old(headers), index) else old(headers)
    {
      if index >= 0 && index < |headers| {
        headers := RemoveAt(headers, index);
      }
    }

    method AddHeader(header: HeaderConfig)
      modifies this`headers
      ensures headers == old(headers) + [header]
    {
      headers := headers + [header];
    }

    method AddIgnoreHeader(name: string)
      modifies this`ignoreHeaders
      ensures ignoreHeaders == old(ignoreHeaders) + [name]
    {
      ignoreHeaders := ignoreHeaders + [name];
    }

    method DeleteIgnoreHeaderAtIndex(index: int)
      modifies this`ignoreHeaders
      ensures ignoreHeaders ==
        if 0 <= index < |old(ignoreHeaders)| then RemoveAt(old(ignoreHeaders), index) else old(ignoreHeaders)
    {
      if index >= 0 && index < |ignoreHeaders| {
        ignoreHeaders := RemoveAt(ignoreHeaders, index);
      }
    }

    method UpdateIgnoreHeaderAtIndex(index: int, name: string)
      modifies this`ignoreHeaders
      ensures ignoreHeaders ==
        if 0 <= index < |old(ignoreHeaders)| then old(ignoreHeaders)[index := name] else old(ignoreHeaders)
    {
      if index >= 0 && index < |ignoreHeaders| {
        ignoreHeaders := ignoreHeaders[index := name];
      }
    }

    method AddName(names: seq<string>)
      modifies this`name
      ensures name == old(name) + names
    {
      name := name + names;
    }

    method AddListen(address: string)
      modifies this`listen
      ensures listen == old(listen) + [address]
    {
      listen := listen + [address];
    }

    method AddBackend(config: ServerBackendConfig)
      modifies this`backends
      ensures backends == old(backends) + [config]
    {
      backends := backends + [config];
    }

    method AddLocation(location: LocationConfig)
      modifies this`locations
      ensures locations == old(locations) + [location]
    {
      locations := locations + [location];
    }

    /** Lists the API's file unless the API is nil or its file is already listed. */
    method AddAPI(api: Option<Api>)
      modifies this`apiFiles
      ensures apiFiles == if api.None? then old(apiFiles) else AddFile(old(apiFiles), api.value.filename)
    {
      if api.None? {
        return;
      }
      if api.value.filename in apiFiles {
        return;
      }
      apiFiles := apiFiles + [api.value.filename];
    }

    method AddAPIGroup(name: string)
      modifies this`apiGroups
      ensures apiGroups == old(apiGroups) + [name]
    {
      apiGroups := apiGroups + [name];
    }

    /** The group list without `name`; the rewrite of the groups' API files is not modelled. */
    method RemoveAPIGroup(name: string)
      modifies this`apiGroups
      ensures apiGroups == RemoveAll(old(apiGroups), name)
    {
      var result := [];
      var i := 0;
      while i < |apiGroups|
        invariant 0 <= i <= |apiGroups|
        invariant result == RemoveAll(apiGroups[..i], name)
      {
        assert apiGroups[..i + 1][..i] == apiGroups[..i];
        if apiGroups[i] != name {
          result := result + [apiGroups[i]];
        }
        i := i + 1;
      }
      assert apiGroups[..i] == apiGroups;
      apiGroups := result;
    }

    /** The group list with `oldName` renamed; the rewrite of the groups' API files is not modelled. */
    method ChangeAPIGroup(oldName: string, newName: string)
      modifies this`apiGroups
      ensures apiGroups == ReplaceAll(old(apiGroups), oldName, newName)
    {
      var result := [];
      var i := 0;
      while i < |apiGroups|
        invariant 0 <= i <= |apiGroups|
        invariant result == ReplaceAll(apiGroups[..i], oldName, newName)
      {
        assert apiGroups[..i + 1][..i] == apiGroups[..i];
        if apiGroups[i] == oldName {
          result := result + [newName];
        } else {
          result := result + [apiGroups[i]];
        }
        i := i + 1;
      }
      assert apiGroups[..i] == apiGroups;
      apiGroups := result;
    }

    method MoveUpAPIGroup(name: string)
      modifies this`apiGroups
      ensures apiGroups == MoveUp(old(apiGroups), name)
    {
      var index := IndexOf(apiGroups, name);
      if index <= 0 {
        return;
      }
      apiGroups := apiGroups[index := apiGroups[index - 1]][index - 1 := apiGroups[index]];
    }

    method MoveDownAPIGroup(name: string)
      requires name in apiGroups ==> IndexOf(apiGroups, name) < |apiGroups| - 1
      modifies this`apiGroups
      ensures apiGroups == MoveDown(old(apiGroups), name)
    {
      var index := IndexOf(apiGroups, name);
      if index < 0 {
        return;
      }
      apiGroups := apiGroups[index := apiGroups[index + 1]][index + 1 := apiGroups[index]];
    }

    method AddAPIVersion(name: string)
      modifies this`apiVersions
      ensures apiVersions == old(apiVersions) + [name]
    {
      apiVersions := apiVersions + [name];
    }

    /** The version list without `name`; the rewrite of the versions' API files is not modelled. */
    method RemoveAPIVersion(name: string)
      modifies this`apiVersions
      ensures apiVersions == RemoveAll(old(apiVersions), name)
    {
      var result := [];
      var i := 0;
      while i < |apiVersions|
        invariant 0 <= i <= |apiVersions|
        invariant result == RemoveAll(apiVersions[..i], name)
      {
        assert apiVersions[..i + 1][..i] == apiVersions[..i];
        if apiVersions[i] != name {
          result := result + [apiVersions[i]];
        }
        i := i + 1;
      }
      assert apiVersions[..i] == apiVersions;
      apiVersions := result;
    }

    /** The version list with `oldName` renamed; the rewrite of the versions' API files is not modelled. */
    method ChangeAPIVersion(oldName: string, newName: string)
      modifies this`apiVersions
      ensures apiVersions == ReplaceAll(old(apiVersions), oldName, newName)
    {
      var result := [];
      var i := 0;
      while i < |apiVersions|
        invariant 0 <= i <= |apiVersions|
        invariant result == ReplaceAll(apiVersions[..i], oldName, newName)
      {
        assert apiVersions[..i + 1][..i] == apiVersions[..i];
        if apiVersions[i] == oldName {
          result := result + [newName];
        } else {
          result := result + [apiVersions[i]];
        }
        i := i + 1;
      }
      assert apiVersions[..i] == apiVersions;
      apiVersions := result;
    }

    method MoveUpAPIVersion(name: string)
      modifies this`apiVersions
      ensures apiVersions == MoveUp(old(apiVersions), name)
    {
      var index := IndexOf(apiVersions, name);
      if index <= 0 {
        return;
      }
      apiVersions := apiVersions[index := apiVersions[index - 1]][index - 1 := apiVersions[index]];
    }

    method MoveDownAPIVersion(name: string)
      requires name in apiVersions ==> IndexOf(apiVersions, name) < |apiVersions| - 1
      modifies this`apiVersions
      ensures apiVersions == MoveDown(old(apiVersions), name)
    {
      var index := IndexOf(apiVersions, name);
      if index < 0 {
        return;
      }
      apiVersions := apiVersions[index := apiVersions[index + 1]][index + 1 := apiVersions[index]];
    }
  }
}
