/**
 * Shell navigation: navigation chunks and their conversions, the
 * `ShellParameters` list constructor, the chunk resolver that turns chunks
 * into router calls, and type-directed navigation to the closest route.
 */
module ShellNav {
  import opened Wrappers
  import opened Text
  import opened Routing

  /** Navigation parameters: a dictionary from names to values. */
  type ShellParameters = map<string, Value>

  /** A route segment with optional parameters. */
  datatype ShellNavigationChunk = ShellNavigationChunk(routeName: string, shellParameters: Option<ShellParameters>)

  /** One `Shell.GoToAsync(route)` or `Shell.GoToAsync(route, parameters)` call. */
  datatype GoTo = GoTo(route: string, parameters: Option<ShellParameters>)

  /** The one-entry parameter map that carries an intent. */
  function IntentParameters(intent: Value): (p: ShellParameters)
    ensures p.Keys == {IntentParameterName}
    ensures p[IntentParameterName] == intent
  {
    map[IntentParameterName := intent]
  }

  // ---------------------------------------------------------------------
  // The three implicit conversions to a chunk

  /** A bare route name: that name, no parameters. */
  function ChunkFromRoute(routeName: string): (c: ShellNavigationChunk)
    ensures c.routeName == routeName && c.shellParameters.None?
  {
    ShellNavigationChunk(routeName, None)
  }

  /** A route name and an intent: that name, parameters holding only the intent. */
  function ChunkFromIntent(routeName: string, intent: Value): (c: ShellNavigationChunk)
    ensures c.routeName == routeName && c.shellParameters.Some?
    ensures c.shellParameters.value.Keys == {IntentParameterName}
    ensures c.shellParameters.value[IntentParameterName] == intent
  {
    ShellNavigationChunk(routeName, Some(IntentParameters(intent)))
  }

  /** A route name and a parameter map: both kept unchanged. */
  function ChunkFromParameters(routeName: string, parameters: ShellParameters): (c: ShellNavigationChunk)
    ensures c.routeName == routeName && c.shellParameters == Some(parameters)
  {
    ShellNavigationChunk(routeName, Some(parameters))
  }

  // ---------------------------------------------------------------------
  // The `new ShellParameters(key1, value1, key2, value2, ...)` constructor

  /** The key of the `p`-th pair of a flat key/value list. */
  function KeyAt(ps: seq<Value>, p: nat): Value
    requires 2 * p + 1 < |ps|
  {
    ps[2 * p]
  }

  /** The value of the `p`-th pair of a flat key/value list. */
  function ValueAt(ps: seq<Value>, p: nat): Value
    requires 2 * p + 1 < |ps|
  {
    ps[2 * p + 1]
  }

  /** An even-length list whose keys (even positions) are distinct strings. */
  ghost predicate ValidParameterList(ps: seq<Value>)
  {
    && |ps| % 2 == 0
    && (forall p :: 0 <= p < |ps| / 2 ==> KeyAt(ps, p).Str?)
    && (forall p, q :: 0 <= p < q < |ps| / 2 ==> KeyAt(ps, p) != KeyAt(ps, q))
  }

  /**
   * Builds the parameter map from a flat key/value list. An odd length, a
   * key that is not a string, or a repeated key is an argument error.
   */
  method NewShellParameters(ps: seq<Value>) returns (r: Result<ShellParameters>)
    ensures r.Success? <==> ValidParameterList(ps)
    ensures r.Failure? ==> r.error == ArgumentError
    ensures |ps| % 2 != 0 ==> r.Failure?
    ensures r.Success? ==> forall p :: 0 <= p < |ps| / 2 ==>
              KeyAt(ps, p).Str? && KeyAt(ps, p).s in r.value && r.value[KeyAt(ps, p).s] == ValueAt(ps, p)
    ensures r.Success? ==> forall key :: key in r.value ==>
              exists p :: 0 <= p < |ps| / 2 && KeyAt(ps, p) == Str(key)
  {
    if |ps| % 2 != 0 {
      return Failure(ArgumentError);
    }
    var half := |ps| / 2;
    assert |ps| == 2 * half;
    var m: ShellParameters := map[];
    var i := 0;
    ghost var n := 0;
    while i < |ps|
      invariant 0 <= n <= half && i == 2 * n
      invariant forall p :: 0 <= p < n ==> KeyAt(ps, p).Str? && KeyAt(ps, p).s in m && m[KeyAt(ps, p).s] == ValueAt(ps, p)
      invariant forall p, q :: 0 <= p < q < n ==> KeyAt(ps, p) != KeyAt(ps, q)
      invariant forall key :: key in m ==> exists p :: 0 <= p < n && KeyAt(ps, p) == Str(key)
    {
      assert ps[i] == KeyAt(ps, n) && ps[i + 1] == ValueAt(ps, n);
      if !ps[i].Str? {
        assert !KeyAt(ps, n).Str?;
        return Failure(ArgumentError);
      }
      var key := ps[i].s;
      if key in m {
        ghost var p :| 0 <= p < n && KeyAt(ps, p) == Str(key);
        assert KeyAt(ps, p) == KeyAt(ps, n) && p < n < half;
        return Failure(ArgumentError);
      }
      m := m[key := ps[i + 1]];
      i := i + 2;
      n := n + 1;
    }
    assert n == half;
    r := Success(m);
  }

  /** The keys of the first `n` pairs of a valid list. */
  ghost function FirstKeys(ps: seq<Value>, n: nat): set<string>
    requires ValidParameterList(ps) && n <= |ps| / 2
  {
    if n == 0 then {} else FirstKeys(ps, n - 1) + {KeyAt(ps, n - 1).s}
  }

  /** The first `n` keys are exactly those of the first `n` pairs. */
  lemma {:induction false} FirstKeysMembers(ps: seq<Value>, n: nat)
    requires ValidParameterList(ps) && n <= |ps| / 2
    ensures forall key :: key in FirstKeys(ps, n) <==> exists p :: 0 <= p < n && KeyAt(ps, p) == Str(key)
  {
    if n > 0 {
      FirstKeysMembers(ps, n - 1);
      forall key | key in FirstKeys(ps, n)
        ensures exists p :: 0 <= p < n && KeyAt(ps, p) == Str(key)
      {
        if key == KeyAt(ps, n - 1).s {
          assert KeyAt(ps, n - 1) == Str(key);
        }
      }
    }
  }

  /** The first `n` keys of a valid list are `n` distinct strings. */
  lemma {:induction false} FirstKeysCount(ps: seq<Value>, n: nat)
    requires ValidParameterList(ps) && n <= |ps| / 2
    ensures |FirstKeys(ps, n)| == n
  {
    if n > 0 {
      FirstKeysCount(ps, n - 1);
      FirstKeysMembers(ps, n - 1);
      var key := KeyAt(ps, n - 1).s;
      forall p | 0 <= p < n - 1
        ensures KeyAt(ps, p) != Str(key)
      {
        assert KeyAt(ps, p) != KeyAt(ps, n - 1);
      }
      assert key !in FirstKeys(ps, n - 1);
    }
  }

  /**
   * The map built from a valid list of `2n` elements (each pair's key mapped
   * to its value, no other key) has `n` entries; the empty list gives the
   * empty map.
   */
  lemma ParameterMapSize(ps: seq<Value>, m: ShellParameters)
    requires ValidParameterList(ps)
    requires forall p :: 0 <= p < |ps| / 2 ==> KeyAt(ps, p).Str? && KeyAt(ps, p).s in m
    requires forall key :: key in m ==> exists p :: 0 <= p < |ps| / 2 && KeyAt(ps, p) == Str(key)
    ensures |m| == |ps| / 2
    ensures ps == [] ==> m == map[]
  {
    FirstKeysCount(ps, |ps| / 2);
    FirstKeysMembers(ps, |ps| / 2);
    assert m.Keys == FirstKeys(ps, |ps| / 2);
  }

  // ---------------------------------------------------------------------
  // The chunk resolver: specification

  /** The absolute-root marker on its own: resets the route, adds no segment. */
  predicate IsMarker(c: ShellNavigationChunk)
  {
    |c.routeName| == 2 && IsAbsolute(c)
  }

  /** A chunk starting with `//` resets the route to the root. */
  predicate IsAbsolute(c: ShellNavigationChunk)
  {
    |c.routeName| >= 2 && c.routeName[0] == '/' && c.routeName[1] == '/'
  }

  /** A chunk that ends its batch: it carries parameters and is not the bare marker. */
  predicate Closes(c: ShellNavigationChunk)
  {
    !IsMarker(c) && c.shellParameters.Some?
  }

  /** The segment a chunk contributes: its name without leading `/`. */
  function Segment(c: ShellNavigationChunk): string
  {
    TrimStart(c.routeName, '/')
  }

  /** The length of the first batch: up to and including the first closing chunk, or everything. */
  function BatchLen(cs: seq<ShellNavigationChunk>): (k: nat)
    requires |cs| > 0
    ensures 1 <= k <= |cs|
    decreases |cs|
  {
    if Closes(cs[0]) || |cs| == 1 then 1 else 1 + BatchLen(cs[1..])
  }

  /** The first batch holds no closing chunk before its last, and ends at one unless it is everything. */
  lemma {:induction false} BatchLenSpec(cs: seq<ShellNavigationChunk>)
    requires |cs| > 0
    ensures forall j :: 0 <= j < BatchLen(cs) - 1 ==> !Closes(cs[j])
    ensures BatchLen(cs) < |cs| ==> Closes(cs[BatchLen(cs) - 1])
    decreases |cs|
  {
    if !(Closes(cs[0]) || |cs| == 1) {
      var tail := cs[1..];
      BatchLenSpec(tail);
      forall j | 0 <= j < BatchLen(cs) - 1
        ensures !Closes(cs[j])
      {
        if j > 0 {
          assert cs[j] == tail[j - 1];
        }
      }
      assert BatchLen(cs) < |cs| ==> cs[BatchLen(cs) - 1] == tail[BatchLen(tail) - 1];
    }
  }

  /** The first-batch length is the only one with the properties stated by `BatchLenSpec`. */
  lemma {:induction false} BatchLenUnique(cs: seq<ShellNavigationChunk>, k: nat)
    requires 1 <= k <= |cs|
    requires forall j :: 0 <= j < k - 1 ==> !Closes(cs[j])
    requires k == |cs| || Closes(cs[k - 1])
    ensures BatchLen(cs) == k
    decreases |cs|
  {
    if k > 1 {
      var tail := cs[1..];
      assert !Closes(cs[0]);
      forall j | 0 <= j < k - 2
        ensures !Closes(tail[j])
      {
        assert tail[j] == cs[j + 1];
      }
      assert k - 1 == |tail| || Closes(tail[k - 2]) by {
        if k < |cs| {
          assert tail[k - 2] == cs[k - 1];
        }
      }
      BatchLenUnique(tail, k - 1);
    }
  }

  /** The segments a batch contributes, in order; markers contribute none. */
  function Names(batch: seq<ShellNavigationChunk>): seq<string>
    decreases |batch|
  {
    if batch == [] then []
    else (if IsMarker(batch[0]) then [] else [Segment(batch[0])]) + Names(batch[1..])
  }

  /** Some chunk of the batch is absolute. */
  predicate HasAbsolute(batch: seq<ShellNavigationChunk>)
    decreases |batch|
  {
    batch != [] && (IsAbsolute(batch[0]) || HasAbsolute(batch[1..]))
  }

  lemma {:induction false} HasAbsoluteSnoc(batch: seq<ShellNavigationChunk>, c: ShellNavigationChunk)
    ensures HasAbsolute(batch + [c]) <==> HasAbsolute(batch) || IsAbsolute(c)
    decreases |batch|
  {
    if batch == [] {
      assert ([c])[1..] == [];
    } else {
      assert (batch + [c])[1..] == batch[1..] + [c];
      HasAbsoluteSnoc(batch[1..], c);
    }
  }

  lemma {:induction false} NamesSnoc(batch: seq<ShellNavigationChunk>, c: ShellNavigationChunk)
    ensures Names(batch + [c]) == Names(batch) + if IsMarker(c) then [] else [Segment(c)]
    decreases |batch|
  {
    if batch == [] {
      assert ([c])[1..] == [];
    } else {
      assert (batch + [c])[1..] == batch[1..] + [c];
      NamesSnoc(batch[1..], c);
    }
  }

  function WithSeparator(route: string): string
  {
    if EndsWith(route, "/") then route else route + "/"
  }

  /**
   * The route a batch navigates to from `current`: the root marker if any
   * chunk of the batch is absolute, else `current`; then `/` unless it ends
   * in one; then the batch's segments joined by `/`.
   */
  function Target(current: string, batch: seq<ShellNavigationChunk>): string
  {
    WithSeparator(if HasAbsolute(batch) then "//" else current) + Join("/", Names(batch))
  }

  /**
   * The router calls a navigation from `current` through `cs` makes: one
   * call per batch, each building on the previous call's route and passing
   * the parameters of the batch's last chunk.
   */
  function Resolve(current: string, cs: seq<ShellNavigationChunk>): seq<GoTo>
    decreases |cs|
  {
    if cs == [] then []
    else
      var k := BatchLen(cs);
      var route := Target(current, cs[..k]);
      [GoTo(route, cs[k - 1].shellParameters)] + Resolve(route, cs[k..])
  }

  /** The chunks from `start` up to the first closing one (or the end) form the first batch of `cs[start..]`. */
  lemma BatchFrom(cs: seq<ShellNavigationChunk>, start: nat, i: nat)
    requires start < i <= |cs|
    requires forall j :: start <= j < i - 1 ==> !Closes(cs[j])
    requires i == |cs| || Closes(cs[i - 1])
    ensures BatchLen(cs[start..]) == i - start
  {
    var rest := cs[start..];
    var k := i - start;
    forall j | 0 <= j < k - 1
      ensures !Closes(rest[j])
    {
      assert rest[j] == cs[start + j];
    }
    assert k == |rest| || Closes(rest[k - 1]) by {
      if k < |rest| {
        assert rest[k - 1] == cs[i - 1];
      }
    }
    BatchLenUnique(rest, k);
  }

  /**
   * Resolving `cs` issues one call for its first batch `cs[..k]` and then
   * resolves the rest from that call's route.
   */
  lemma ResolveStep(current: string, cs: seq<ShellNavigationChunk>, k: nat)
    requires 0 < k <= |cs|
    requires BatchLen(cs) == k
    ensures Resolve(current, cs) ==
              [GoTo(Target(current, cs[..k]), cs[k - 1].shellParameters)]
              + Resolve(Target(current, cs[..k]), cs[k..])
  {
  }

  /** The first `i - start` chunks of `cs[start..]`, the rest, and the last of those chunks, as slices of `cs`. */
  lemma SlicesOfRest(cs: seq<ShellNavigationChunk>, start: nat, i: nat)
    requires start < i <= |cs|
    ensures cs[start..][..i - start] == cs[start..i]
    ensures cs[start..][i - start..] == cs[i..]
    ensures cs[start..][i - start - 1] == cs[i - 1]
  {
  }

  // ---------------------------------------------------------------------
  // The chunk resolver: the method

  lemma AppendAssoc<T>(a: seq<T>, b: seq<T>, c: seq<T>)
    ensures a + b + c == a + (b + c)
  {
  }

  /** Extending the batch `cs[start..i]` by the chunk `cs[i]` extends its segments and its absoluteness. */
  lemma BatchSnoc(cs: seq<ShellNavigationChunk>, start: nat, i: nat)
    requires start <= i < |cs|
    ensures Names(cs[start..i + 1]) == Names(cs[start..i]) + if IsMarker(cs[i]) then [] else [Segment(cs[i])]
    ensures HasAbsolute(cs[start..i + 1]) <==> HasAbsolute(cs[start..i]) || IsAbsolute(cs[i])
  {
    assert cs[start..i + 1] == cs[start..i] + [cs[i]];
    NamesSnoc(cs[start..i], cs[i]);
    HasAbsoluteSnoc(cs[start..i], cs[i]);
  }

  /**
   * The inner loop of the resolver: reads the batch starting at `start`,
   * collecting its segments and resetting `route` to the root marker at an
   * absolute chunk; stops after the first closing chunk or at the end.
   */
  method ReadBatch(routeChunks: seq<ShellNavigationChunk>, start: nat, currentRoute: string)
    returns (i: nat, route: string, routeNamesWithoutParameters: seq<string>, chunk: ShellNavigationChunk)
    requires start < |routeChunks|
    ensures start < i <= |routeChunks|
    ensures forall j :: start <= j < i - 1 ==> !Closes(routeChunks[j])
    ensures i == |routeChunks| || Closes(routeChunks[i - 1])
    ensures chunk == routeChunks[i - 1]
    ensures routeNamesWithoutParameters == Names(routeChunks[start..i])
    ensures route == if HasAbsolute(routeChunks[start..i]) then "//" else currentRoute
  {
    i := start;
    route := currentRoute;
    chunk := routeChunks[start];
    routeNamesWithoutParameters := [];
    assert routeChunks[start..i] == [];
    while i < |routeChunks|
      invariant start <= i <= |routeChunks|
      invariant routeNamesWithoutParameters == Names(routeChunks[start..i])
      invariant route == if HasAbsolute(routeChunks[start..i]) then "//" else currentRoute
      invariant forall j :: start <= j < i ==> !Closes(routeChunks[j])
      invariant i > start ==> chunk == routeChunks[i - 1]
      decreases |routeChunks| - i
    {
      chunk := routeChunks[i];
      BatchSnoc(routeChunks, start, i);
      i := i + 1;
      if IsMarker(chunk) {
        route := "//";
        continue;
      }
      if IsAbsolute(chunk) {
        route := "//";
      }
      routeNamesWithoutParameters := routeNamesWithoutParameters + [TrimStart(chunk.routeName, '/')];
      if chunk.shellParameters.Some? {
        assert Closes(routeChunks[i - 1]);
        break;
      }
    }
  }

  // ---------------------------------------------------------------------
  // Closest-route selection: specification

  /** The number of leading segments two segment lists share. */
  function CommonPrefixLength(a: seq<string>, b: seq<string>): (n: nat)
    ensures n <= |a| && n <= |b|
    ensures forall j :: 0 <= j < n ==> a[j] == b[j]
    ensures n < |a| && n < |b| ==> a[n] != b[n]
    decreases |a|
  {
    if |a| == 0 || |b| == 0 || a[0] != b[0] then 0
    else 1 + CommonPrefixLength(a[1..], b[1..])
  }

  /** The score of `route` against `location`: the leading `/`-segments they share. */
  function Score(location: string, route: string): nat
  {
    CommonPrefixLength(Split(location, '/'), Split(route, '/'))
  }

  /** A common-prefix length is determined by the properties `CommonPrefixLength` states. */
  lemma CommonPrefixUnique(a: seq<string>, b: seq<string>, n: nat)
    requires n <= |a| && n <= |b|
    requires forall j :: 0 <= j < n ==> a[j] == b[j]
    requires n < |a| && n < |b| ==> a[n] != b[n]
    ensures CommonPrefixLength(a, b) == n
  {
  }

  /** The score does not depend on the order of its arguments. */
  lemma ScoreSymmetric(route1: string, route2: string)
    ensures Score(route1, route2) == Score(route2, route1)
  {
    var a, b := Split(route1, '/'), Split(route2, '/');
    CommonPrefixUnique(b, a, CommonPrefixLength(a, b));
  }

  /** Identical routes share all their segments. */
  lemma ScoreSelf(route: string)
    ensures Score(route, route) == |Split(route, '/')|
  {
    var a := Split(route, '/');
    CommonPrefixUnique(a, a, |a|);
  }

  /**
   * A location starting with `/` (a Shell location such as `//AgendaPage`)
   * shares no leading segment with a non-empty route that does not start
   * with `/`, which every composed route is.
   */
  lemma AbsoluteLocationScoresZero(location: string, route: string)
    requires location != [] && location[0] == '/'
    requires route != [] && route[0] != '/'
    ensures Score(location, route) == 0
  {
    SplitFirstEmpty(location, '/');
    SplitFirstEmpty(route, '/');
  }

  /** `route` is one of `routes` with the highest score against `location`. */
  ghost predicate IsClosest(location: string, route: string, routes: set<string>)
  {
    route in routes && forall other :: other in routes ==> Score(location, other) <= Score(location, route)
  }

  /**
   * From a location starting with `/`, every non-empty route of a set of
   * routes that do not start with `/` is a closest one: the choice is left
   * to the set's iteration order.
   */
  lemma AbsoluteLocationAnyRouteIsClosest(location: string, routes: set<string>, route: string)
    requires location != [] && location[0] == '/'
    requires forall r :: r in routes ==> r != [] && r[0] != '/'
    requires route in routes
    ensures IsClosest(location, route, routes)
  {
    forall other | other in routes
      ensures Score(location, other) <= Score(location, route)
    {
      AbsoluteLocationScoresZero(location, other);
    }
  }

  // ---------------------------------------------------------------------
  // Properties of the resolver

  /** The marker and absolute tests are the source's string comparisons. */
  lemma MarkerMeaning(c: ShellNavigationChunk)
    ensures IsMarker(c) <==> c.routeName == "//"
    ensures IsAbsolute(c) <==> StartsWith(c.routeName, "//")
  {
    if IsAbsolute(c) {
      assert c.routeName[..2] == "//";
    }
  }

  /** The number of closing chunks before the last chunk. */
  function ClosingCount(cs: seq<ShellNavigationChunk>): nat
    decreases |cs|
  {
    if |cs| <= 1 then 0
    else (if Closes(cs[0]) then 1 else 0) + ClosingCount(cs[1..])
  }

  /** The closing chunks before the last one are those of the first batch's end and of the rest. */
  lemma {:induction false} ClosingCountBatch(cs: seq<ShellNavigationChunk>)
    requires cs != []
    ensures var k := BatchLen(cs);
      ClosingCount(cs) == if k < |cs| then 1 + ClosingCount(cs[k..]) else 0
    decreases |cs|
  {
    if !(Closes(cs[0]) || |cs| == 1) {
      var tail := cs[1..];
      ClosingCountBatch(tail);
      var k := BatchLen(cs);
      assert tail[k - 1..] == cs[k..];
    }
  }

  /** One router call per closing chunk before the last chunk, plus one for the final batch. */
  lemma {:induction false} ResolveCount(current: string, cs: seq<ShellNavigationChunk>)
    requires cs != []
    ensures |Resolve(current, cs)| == ClosingCount(cs) + 1
    decreases |cs|
  {
    var k := BatchLen(cs);
    ClosingCountBatch(cs);
    if k < |cs| {
      ResolveCount(Target(current, cs[..k]), cs[k..]);
    }
  }

  /** The last call passes the parameters of the last chunk (none if it has none). */
  lemma {:induction false} ResolveLastParameters(current: string, cs: seq<ShellNavigationChunk>)
    requires cs != []
    ensures var calls := Resolve(current, cs);
      calls != [] && calls[|calls| - 1].parameters == cs[|cs| - 1].shellParameters
    decreases |cs|
  {
    var k := BatchLen(cs);
    ResolveStep(current, cs, k);
    var route := Target(current, cs[..k]);
    if k == |cs| {
      assert cs[k..] == [];
    } else {
      ResolveLastParameters(route, cs[k..]);
      assert cs[k..][|cs[k..]| - 1] == cs[|cs| - 1];
    }
  }

  /** Every call but the last passes parameters: its batch closed at a chunk carrying them. */
  lemma {:induction false} ResolveParameters(current: string, cs: seq<ShellNavigationChunk>)
    requires cs != []
    ensures var calls := Resolve(current, cs);
      forall j :: 0 <= j < |calls| - 1 ==> calls[j].parameters.Some?
    decreases |cs|
  {
    var k := BatchLen(cs);
    BatchLenSpec(cs);
    ResolveStep(current, cs, k);
    var route := Target(current, cs[..k]);
    if k == |cs| {
      assert cs[k..] == [];
    } else {
      ResolveParameters(route, cs[k..]);
      CallsCons(GoTo(route, cs[k - 1].shellParameters), Resolve(route, cs[k..]));
    }
  }

  /** Prepending a call that passes parameters keeps every call but the last passing some. */
  lemma CallsCons(call: GoTo, rest: seq<GoTo>)
    requires call.parameters.Some?
    requires forall j :: 0 <= j < |rest| - 1 ==> rest[j].parameters.Some?
    ensures var calls := [call] + rest;
      forall j :: 0 <= j < |calls| - 1 ==> calls[j].parameters.Some?
  {
    var calls := [call] + rest;
    forall j | 0 <= j < |calls| - 1
      ensures calls[j].parameters.Some?
    {
      if j > 0 {
        assert calls[j] == rest[j - 1];
      }
    }
  }

  /** A navigation whose first chunk is absolute goes to the same routes from any location. */
  lemma AbsoluteFirstChunk(location1: string, location2: string, cs: seq<ShellNavigationChunk>)
    requires cs != [] && IsAbsolute(cs[0])
    ensures Resolve(location1, cs) == Resolve(location2, cs)
  {
    var k := BatchLen(cs);
    assert cs[..k][0] == cs[0];
    assert Target(location1, cs[..k]) == Target(location2, cs[..k]);
  }

  /** Without closing chunks there is one call: `location`, a separator, and all segments joined. */
  lemma {:induction false} SingleBatch(location: string, cs: seq<ShellNavigationChunk>)
    requires cs != []
    requires forall j :: 0 <= j < |cs| - 1 ==> !Closes(cs[j])
    ensures Resolve(location, cs) == [GoTo(Target(location, cs), cs[|cs| - 1].shellParameters)]
  {
    BatchLenUnique(cs, |cs|);
    ResolveStep(location, cs, |cs|);
    assert cs[..|cs|] == cs;
    assert cs[|cs|..] == [];
  }

  /** A plain route name: a single non-empty segment. */
  predicate Plain(name: string)
  {
    name != [] && '/' !in name
  }

  /** A plain chunk is neither a marker nor absolute, and contributes its name unchanged. */
  lemma PlainChunk(name: string, parameters: Option<ShellParameters>)
    requires Plain(name)
    ensures var c := ShellNavigationChunk(name, parameters);
      !IsMarker(c) && !IsAbsolute(c) && Segment(c) == name
  {
    TrimStartNoop(name, '/');
  }

  /** A one-chunk batch has the chunk's segment as its name, unless it is the marker. */
  lemma OneChunk(c: ShellNavigationChunk)
    ensures Names([c]) == if IsMarker(c) then [] else [Segment(c)]
    ensures HasAbsolute([c]) <==> IsAbsolute(c)
  {
    assert [c][1..] == [];
  }

  /** The names and absoluteness of a two-chunk batch. */
  lemma TwoChunks(c0: ShellNavigationChunk, c1: ShellNavigationChunk)
    ensures Names([c0, c1]) == (if IsMarker(c0) then [] else [Segment(c0)]) + Names([c1])
    ensures HasAbsolute([c0, c1]) <==> IsAbsolute(c0) || IsAbsolute(c1)
    ensures Names([c1]) == if IsMarker(c1) then [] else [Segment(c1)]
  {
    assert [c0, c1][1..] == [c1];
    OneChunk(c1);
  }

  /** `NavigateAsync("Child", "Nested")` navigates once, to `Child/Nested` below the location. */
  lemma ExampleRelative(location: string, child: string, nested: string)
    requires Plain(child) && Plain(nested)
    ensures Resolve(location, [ChunkFromRoute(child), ChunkFromRoute(nested)])
            == [GoTo(WithSeparator(location) + child + "/" + nested, None)]
  {
    var cs := [ChunkFromRoute(child), ChunkFromRoute(nested)];
    PlainChunk(child, None);
    PlainChunk(nested, None);
    SingleBatch(location, cs);
    TwoChunks(cs[0], cs[1]);
    assert Names(cs) == [child, nested];
    assert [child, nested][1..] == [nested];
    assert Join("/", [nested]) == nested;
    assert Join("/", [child, nested]) == child + "/" + nested;
    var w := WithSeparator(location);
    assert Target(location, cs) == w + (child + "/" + nested);
    AppendAssoc(w, child, "/");
    AppendAssoc(w, child + "/", nested);
  }

  /** `NavigateAsync("//", "SomeRootPage")` navigates once, to `//SomeRootPage`, from any location. */
  lemma ExampleAbsolute(location: string, page: string)
    requires Plain(page)
    ensures Resolve(location, [ChunkFromRoute("//"), ChunkFromRoute(page)]) == [GoTo("//" + page, None)]
  {
    var cs := [ChunkFromRoute("//"), ChunkFromRoute(page)];
    PlainChunk(page, None);
    MarkerMeaning(cs[0]);
    SingleBatch(location, cs);
    TwoChunks(cs[0], cs[1]);
    assert Names(cs) == [] + [page] == [page];
    assert HasAbsolute(cs);
    assert EndsWith("//", "/");
    assert Target(location, cs) == "//" + page;
  }

  /** A closing first chunk followed by one more chunk makes two calls, the second from the first's route. */
  lemma TwoBatches(location: string, c0: ShellNavigationChunk, c1: ShellNavigationChunk)
    requires Closes(c0)
    ensures var first := Target(location, [c0]);
      Resolve(location, [c0, c1]) ==
        [GoTo(first, c0.shellParameters), GoTo(Target(first, [c1]), c1.shellParameters)]
  {
    var cs := [c0, c1];
    var first := Target(location, [c0]);
    BatchLenUnique(cs, 1);
    ResolveStep(location, cs, 1);
    assert cs[..1] == [c0] && cs[1..] == [c1];
    SingleBatch(first, [c1]);
  }

  /** A relative chunk that is not the marker goes one segment below `current`. */
  lemma OneSegment(current: string, c: ShellNavigationChunk, name: string)
    requires !IsMarker(c) && !IsAbsolute(c) && Segment(c) == name
    ensures Target(current, [c]) == WithSeparator(current) + name
  {
    OneChunk(c);
    assert Join("/", [name]) == name;
  }

  /**
   * Parameters on an intermediate chunk make two navigations: first to
   * `Child`, then on to `Child/Nested`.
   */
  lemma ExampleTwoBatches(location: string, child: string, nested: string, parameters: ShellParameters, intent: Value)
    requires Plain(child) && Plain(nested)
    ensures Resolve(location, [ChunkFromParameters(child, parameters), ChunkFromIntent(nested, intent)])
            == [GoTo(WithSeparator(location) + child, Some(parameters)),
                GoTo(WithSeparator(location) + child + "/" + nested, Some(IntentParameters(intent)))]
  {
    var c0, c1 := ChunkFromParameters(child, parameters), ChunkFromIntent(nested, intent);
    var first := WithSeparator(location) + child;
    PlainChunk(child, Some(parameters));
    PlainChunk(nested, Some(IntentParameters(intent)));
    TwoBatches(location, c0, c1);
    OneSegment(location, c0, child);
    assert first[|first| - 1] == child[|child| - 1];
    assert !EndsWith(first, "/");
    OneSegment(first, c1, nested);
  }

  /**
   * An absolute chunk after a relative one in the same batch resets the base
   * but keeps the earlier segment: `("Child", "//Root")` goes to `//Child/Root`.
   */
  lemma AbsoluteMidBatchKeepsEarlierSegments(location: string, child: string, root: string)
    requires Plain(child) && Plain(root)
    ensures Resolve(location, [ChunkFromRoute(child), ChunkFromRoute("//" + root)])
            == [GoTo("//" + child + "/" + root, None)]
  {
    var cs := [ChunkFromRoute(child), ChunkFromRoute("//" + root)];
    PlainChunk(child, None);
    SingleBatch(location, cs);
    TwoChunks(cs[0], cs[1]);
    assert ("//" + root)[1..] == "/" + root && ("/" + root)[1..] == root;
    TrimStartNoop(root, '/');
    assert TrimStart("/" + root, '/') == root;
    assert TrimStart("//" + root, '/') == root;
    assert Segment(cs[1]) == root;
    assert Names(cs) == [child, root];
    assert [child, root][1..] == [root];
    assert Join("/", [root]) == root;
    assert Join("/", [child, root]) == child + "/" + root;
    assert HasAbsolute(cs);
    assert EndsWith("//", "/");
    assert Target(location, cs) == "//" + (child + "/" + root);
    AppendAssoc("//", child, "/");
    AppendAssoc("//", child + "/", root);
  }

  // ---------------------------------------------------------------------
  // ShellNavigation

  /**
   * The Shell navigation service over the route map. The current Shell
   * location is passed to each operation; the router calls are returned.
   */
  class ShellNavigation {
    const navigationMap: MauxNavigationMap

    constructor(navigationMap: MauxNavigationMap)
      ensures this.navigationMap == navigationMap
    {
      this.navigationMap := navigationMap;
    }

    /**
     * `NavigateAsync(params ShellNavigationChunk[])` from the current Shell
     * `location`: the router calls it makes, or an argument error for no chunks.
     */
    method NavigateAsync(location: string, routeChunks: seq<ShellNavigationChunk>) returns (r: Result<seq<GoTo>>)
      ensures routeChunks == [] ==> r == Failure(ArgumentError)
      ensures routeChunks != [] ==> r == Success(Resolve(location, routeChunks))
    {
      if |routeChunks| == 0 {
        return Failure(ArgumentError);
      }
      var currentRoute := location;
      var i := 0;
      var calls: seq<GoTo> := [];
      while i < |routeChunks|
        invariant 0 <= i <= |routeChunks|
        invariant calls + Resolve(currentRoute, routeChunks[i..]) == Resolve(location, routeChunks)
        decreases |routeChunks| - i
      {
        var start := i;
        ghost var base := currentRoute;
        var routeNamesWithoutParameters, chunk;
        i, currentRoute, routeNamesWithoutParameters, chunk := ReadBatch(routeChunks, start, currentRoute);
        BatchFrom(routeChunks, start, i);
        ResolveStep(base, routeChunks[start..], i - start);
        SlicesOfRest(routeChunks, start, i);
        ghost var call := GoTo(Target(base, routeChunks[start..i]), chunk.shellParameters);
        if !EndsWith(currentRoute, "/") {
          currentRoute := currentRoute + "/";
        }
        currentRoute := currentRoute + Join("/", routeNamesWithoutParameters);
        assert currentRoute == call.route;
        AppendAssoc(calls, [call], Resolve(currentRoute, routeChunks[i..]));
        calls := calls + [GoTo(currentRoute, chunk.shellParameters)];
      }
      assert routeChunks[i..] == [];
      assert Resolve(currentRoute, routeChunks[i..]) == [];
      assert calls + [] == calls;
      r := Success(calls);
    }

    /**
     * `LongestCommonPath`: the number of leading `/`-segments the two
     * routes share.
     */
    method LongestCommonPath(route1: string, route2: string) returns (n: nat)
      ensures n == Score(route1, route2)
    {
      var segments1 := Split(route1, '/');
      var segments2 := Split(route2, '/');
      n := 0;
      while n < |segments1| && n < |segments2| && segments1[n] == segments2[n]
        invariant n <= |segments1| && n <= |segments2|
        invariant forall j :: 0 <= j < n ==> segments1[j] == segments2[j]
        decreases |segments1| - n
      {
        n := n + 1;
      }
      CommonPrefixUnique(segments1, segments2, n);
    }

    /**
     * `GetClosestRoute`: orders the routes by descending score and takes the
     * first, so among the best-scoring routes the one met first in the set's
     * iteration order, which is unspecified and chosen here arbitrarily.
     */
    method GetClosestRoute(currentRoute: string, routes: set<string>) returns (best: string)
      requires routes != {}
      ensures IsClosest(currentRoute, best, routes)
    {
      var remaining := routes;
      best :| best in remaining;
      remaining := remaining - {best};
      var bestScore := LongestCommonPath(currentRoute, best);
      while remaining != {}
        invariant remaining <= routes && best in routes
        invariant bestScore == Score(currentRoute, best)
        invariant forall other :: other in routes && other !in remaining ==> Score(currentRoute, other) <= bestScore
        decreases |remaining|
      {
        var route :| route in remaining;
        remaining := remaining - {route};
        var score := LongestCommonPath(currentRoute, route);
        if score > bestScore {
          best, bestScore := route, score;
        }
      }
    }

    /**
     * `NavigateAsync<TPage>(parameters)`: navigates to `//` and the page's
     * only route, or a closest one when it has several; a page type that was
     * never registered is a not-found failure.
     */
    method NavigateToPageAsync(location: string, page: TypeRef, parameters: Option<ShellParameters>)
      returns (r: Result<GoTo>)
      requires navigationMap.Valid()
      ensures r.Success? <==> page in navigationMap.typeToRoute
      ensures r.Failure? ==> r.error == KeyNotFound
      ensures r.Success? ==> r.value.parameters == parameters
      ensures r.Success? ==> exists route :: r.value.route == "//" + route && IsClosest(location, route, navigationMap.typeToRoute[page])
      ensures r.Success? ==> |navigationMap.typeToRoute[page]| == 1 ==> r.value.route == "//" + PickOnly(navigationMap.typeToRoute[page])
    {
      var routes := navigationMap.GetRoutes(page);
      if routes.Failure? {
        return Failure(routes.error);
      }
      var route;
      if |routes.value| == 1 {
        route := PickOnly(routes.value);
        OnlyIsClosest(location, routes.value);
      } else {
        route := GetClosestRoute(location, routes.value);
      }
      assert IsClosest(location, route, navigationMap.typeToRoute[page]);
      r := Success(GoTo("//" + route, parameters));
    }

    /** `NavigateAsync<TPage>(intent)`: as above with the one-entry intent parameters. */
    method NavigateToPageWithIntentAsync(location: string, page: TypeRef, intent: Value)
      returns (r: Result<GoTo>)
      requires navigationMap.Valid()
      ensures r.Success? <==> page in navigationMap.typeToRoute
      ensures r.Failure? ==> r.error == KeyNotFound
      ensures r.Success? ==> r.value.parameters == Some(IntentParameters(intent))
      ensures r.Success? ==> exists route :: r.value.route == "//" + route && IsClosest(location, route, navigationMap.typeToRoute[page])
    {
      r := NavigateToPageAsync(location, page, Some(IntentParameters(intent)));
    }
  }

  /** The element of a one-element set (`routes.First()`). */
  function PickOnly(routes: set<string>): (route: string)
    requires |routes| == 1
    ensures routes == {route}
  {
    var route :| route in routes;
    assert routes - {route} == {} by {
      assert |routes - {route}| == 0;
    }
    route
  }

  /** The only route of a set is its closest one. */
  lemma OnlyIsClosest(location: string, routes: set<string>)
    requires |routes| == 1
    ensures IsClosest(location, PickOnly(routes), routes)
  {
  }
}
