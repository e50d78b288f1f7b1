/**
 Plugin endpoints: which templates a plugin may register, when two templates are taken to
 overlap, and which endpoint answers a request.
 */
module PluginRoutes {
  import opened Wrappers
  import opened Strings

  type Segments = seq<string>

  function SegmentsOf(path: string): (segments: Segments)
    ensures |segments| >= 1
  {
    Split(TrimPrefix(path, "/"), '/')
  }

  predicate IsParameter(segment: string) { segment != "" && segment[0] == ':' }

  predicate IsWildcard(segment: string) { segment != "" && segment[0] == '*' }

  predicate IsLiteral(segment: string) { !IsParameter(segment) && !IsWildcard(segment) }

  predicate ValidName(name: string) {
    && 1 <= |name| <= 64
    && forall i | 0 <= i < |name| ::
         'a' <= name[i] <= 'z' || 'A' <= name[i] <= 'Z' || '0' <= name[i] <= '9' || name[i] == '_'
  }

  predicate ValidLiteral(segment: string, allowUpper: bool) {
    && 1 <= |segment| <= 128
    && forall i | 0 <= i < |segment| ::
         || 'a' <= segment[i] <= 'z' || '0' <= segment[i] <= '9' || segment[i] == '-'
         || (allowUpper && 'A' <= segment[i] <= 'Z')
  }

  predicate ValidSegment(segment: string, last: bool, allowUpper: bool) {
    if IsParameter(segment) then ValidName(segment[1..])
    else if IsWildcard(segment) then last && ValidName(segment[1..])
    else ValidLiteral(segment, allowUpper)
  }

  predicate ValidTemplate(template: Segments, allowUpper: bool) {
    forall i | 0 <= i < |template| :: ValidSegment(template[i], i == |template| - 1, allowUpper)
  }

  predicate Dynamic(template: Segments) {
    exists i | 0 <= i < |template| :: !IsLiteral(template[i])
  }

  /** pluginPathShape: whether the path is dynamic, or an error. */
  method PathShape(template: Segments, allowUpper: bool) returns (dynamic: Option<bool>)
    ensures dynamic == if ValidTemplate(template, allowUpper) then Some(Dynamic(template)) else None
  {
    var found := false;
    for index := 0 to |template|
      invariant forall i | 0 <= i < index :: ValidSegment(template[i], i == |template| - 1, allowUpper)
      invariant found <==> exists i | 0 <= i < index :: !IsLiteral(template[i])
    {
      if !ValidSegment(template[index], index == |template| - 1, allowUpper) {
        return None;
      }
      found := found || !IsLiteral(template[index]);
    }
    return Some(found);
  }

  // ---------------------------------------------------------------- matching

  predicate SegmentMatches(expected: string, actual: string) {
    if IsParameter(expected) then actual != "" else expected == actual
  }

  /** A wildcard takes all remaining segments, also when there are none. */
  predicate Matches(template: Segments, path: Segments) {
    if template == [] then path == []
    else if IsWildcard(template[0]) then true
    else path != [] && SegmentMatches(template[0], path[0]) && Matches(template[1..], path[1..])
  }

  method MatchPath(template: Segments, path: Segments) returns (matches: bool)
    ensures matches == Matches(template, path)
  {
    var index := 0;
    assert template[0..] == template && path[0..] == path;
    while index < |template|
      invariant 0 <= index <= |template| && index <= |path|
      invariant Matches(template, path) == Matches(template[index..], path[index..])
    {
      assert template[index..][1..] == template[index + 1..];
      if IsWildcard(template[index]) {
        return true;
      }
      if index >= |path| {
        return false;
      }
      assert path[index..][1..] == path[index + 1..];
      if !SegmentMatches(template[index], path[index]) {
        return false;
      }
      index := index + 1;
    }
    return |template| == |path|;
  }

  // ---------------------------------------------------------------- overlap

  predicate SegmentsCompatible(a: string, b: string) {
    IsParameter(a) || IsParameter(b) || a == b
  }

  predicate Overlaps(a: Segments, b: Segments) {
    if a == [] || b == [] then |a| == |b|
    else if IsWildcard(a[0]) || IsWildcard(b[0]) then true
    else SegmentsCompatible(a[0], b[0]) && Overlaps(a[1..], b[1..])
  }

  method TemplatesOverlap(a: Segments, b: Segments) returns (overlap: bool)
    ensures overlap == Overlaps(a, b)
  {
    var limit := if |a| <= |b| then |a| else |b|;
    var index := 0;
    assert a[0..] == a && b[0..] == b;
    while index < limit
      invariant 0 <= index <= limit
      invariant Overlaps(a, b) == Overlaps(a[index..], b[index..])
    {
      assert a[index..][1..] == a[index + 1..] && b[index..][1..] == b[index + 1..];
      if IsWildcard(a[index]) || IsWildcard(b[index]) {
        return true;
      }
      if !IsParameter(a[index]) && !IsParameter(b[index]) && a[index] != b[index] {
        return false;
      }
      index := index + 1;
    }
    return |a| == |b|;
  }

  lemma {:induction false} OverlapSymmetric(a: Segments, b: Segments)
    ensures Overlaps(a, b) == Overlaps(b, a)
  {
    if a != [] && b != [] { OverlapSymmetric(a[1..], b[1..]); }
  }

  predicate WildcardOnlyLast(template: Segments) {
    forall i | 0 <= i < |template| - 1 :: !IsWildcard(template[i])
  }

  /** One template has exactly one more segment than the other, a final wildcard, and the
      other has no wildcard: the pair the overlap test does not see. */
  predicate OneExtraWildcard(a: Segments, b: Segments) {
    ExtraWildcard(a, b) || ExtraWildcard(b, a)
  }

  predicate ExtraWildcard(shorter: Segments, longer: Segments) {
    && |longer| == |shorter| + 1
    && IsWildcard(longer[|shorter|])
    && forall i | 0 <= i < |shorter| :: !IsWildcard(shorter[i])
  }

  function InstanceOf(segment: string): string {
    if IsLiteral(segment) then segment else "a"
  }

  function Instance(template: Segments): Segments {
    if template == [] then [] else [InstanceOf(template[0])] + Instance(template[1..])
  }

  /** A path that both templates match. */
  function CommonPath(a: Segments, b: Segments): Segments
    requires Overlaps(a, b)
  {
    if a == [] then []
    else if IsWildcard(a[0]) then Instance(b)
    else if IsWildcard(b[0]) then Instance(a)
    else [InstanceOf(if IsParameter(a[0]) then b[0] else a[0])] + CommonPath(a[1..], b[1..])
  }

  predicate NoEmptySegment(template: Segments) {
    forall i | 0 <= i < |template| :: template[i] != ""
  }

  lemma {:induction false} InstanceMatches(template: Segments)
    requires NoEmptySegment(template)
    ensures Matches(template, Instance(template)) && |Instance(template)| == |template|
  {
    if template != [] {
      InstanceMatches(template[1..]);
      assert Instance(template)[1..] == Instance(template[1..]);
    }
  }

  lemma {:induction false} CommonPathMatches(a: Segments, b: Segments)
    requires Overlaps(a, b) && NoEmptySegment(a) && NoEmptySegment(b)
    ensures Matches(a, CommonPath(a, b)) && Matches(b, CommonPath(a, b))
    ensures a != [] && b != [] ==> CommonPath(a, b) != []
  {
    if a == [] {
    } else if IsWildcard(a[0]) {
      InstanceMatches(b);
    } else if IsWildcard(b[0]) {
      InstanceMatches(a);
    } else {
      CommonPathMatches(a[1..], b[1..]);
      assert CommonPath(a, b)[1..] == CommonPath(a[1..], b[1..]);
    }
  }

  lemma {:induction false} SharedPathOverlaps(a: Segments, b: Segments, path: Segments)
    requires WildcardOnlyLast(a) && WildcardOnlyLast(b)
    requires Matches(a, path) && Matches(b, path)
    ensures Overlaps(a, b) || OneExtraWildcard(a, b)
  {
    if a == [] || b == [] {
    } else if !IsWildcard(a[0]) && !IsWildcard(b[0]) {
      SharedPathOverlaps(a[1..], b[1..], path[1..]);
      if ExtraWildcard(a[1..], b[1..]) { ExtraGrows(a, b); }
      if ExtraWildcard(b[1..], a[1..]) { ExtraGrows(b, a); }
    }
  }

  lemma ExtraGrows(shorter: Segments, longer: Segments)
    requires shorter != [] && longer != [] && !IsWildcard(shorter[0])
    requires ExtraWildcard(shorter[1..], longer[1..])
    ensures ExtraWildcard(shorter, longer)
  {
    forall i | 0 <= i < |shorter|
      ensures !IsWildcard(shorter[i])
    {
      if i > 0 { assert shorter[i] == shorter[1..][i - 1]; }
    }
  }

  lemma {:induction false} ExtraNeverOverlaps(shorter: Segments, longer: Segments)
    requires ExtraWildcard(shorter, longer) && WildcardOnlyLast(longer)
    ensures !Overlaps(shorter, longer)
  {
    if shorter != [] { ExtraNeverOverlaps(shorter[1..], longer[1..]); }
  }

  lemma ValidTemplateShape(template: Segments, allowUpper: bool)
    requires ValidTemplate(template, allowUpper)
    ensures WildcardOnlyLast(template) && NoEmptySegment(template)
  {
    forall i | 0 <= i < |template|
      ensures template[i] != "" && (i < |template| - 1 ==> !IsWildcard(template[i]))
    {
      assert ValidSegment(template[i], i == |template| - 1, allowUpper);
    }
  }

  ghost predicate ShareAPath(a: string, b: string) {
    exists path: string :: Matches(SegmentsOf(a), SegmentsOf(path)) && Matches(SegmentsOf(b), SegmentsOf(path))
  }

  /** For validated templates the overlap test says yes exactly when some path matches both,
      except for the one-extra-wildcard pairs, where it always says no. */
  lemma OverlapIsExact(a: string, b: string, upperA: bool, upperB: bool)
    requires ValidTemplate(SegmentsOf(a), upperA) && ValidTemplate(SegmentsOf(b), upperB)
    ensures Overlaps(SegmentsOf(a), SegmentsOf(b))
       <==> ShareAPath(a, b) && !OneExtraWildcard(SegmentsOf(a), SegmentsOf(b))
  {
    var s, t := SegmentsOf(a), SegmentsOf(b);
    ValidTemplateShape(s, upperA);
    ValidTemplateShape(t, upperB);
    if ShareAPath(a, b) && !OneExtraWildcard(s, t) {
      var path: string :| Matches(s, SegmentsOf(path)) && Matches(t, SegmentsOf(path));
      SharedPathOverlaps(s, t, SegmentsOf(path));
    }
    if Overlaps(s, t) {
      CommonPathMatches(s, t);
      CommonPathHasNoSlash(s, t);
      PathOf(CommonPath(s, t));
      OverlapSymmetric(s, t);
      if ExtraWildcard(s, t) { ExtraNeverOverlaps(s, t); }
      if ExtraWildcard(t, s) { ExtraNeverOverlaps(t, s); }
    }
  }

  predicate NoSlash(segments: Segments) {
    forall p | p in segments :: '/' !in p
  }

  /** Every non-empty list of slash-free segments is the segment list of some path. */
  lemma PathOf(segments: Segments)
    requires segments != [] && NoSlash(segments)
    ensures SegmentsOf("/" + Join(segments, "/")) == segments
  {
    assert ("/" + Join(segments, "/"))[1..] == Join(segments, "/");
    SplitJoin(segments, '/');
  }

  lemma {:induction false} InstanceHasNoSlash(template: Segments)
    requires NoSlash(template)
    ensures NoSlash(Instance(template))
  {
    if template != [] {
      InstanceHasNoSlash(template[1..]);
      assert template[0] in template;
    }
  }

  lemma {:induction false} CommonPathHasNoSlash(a: Segments, b: Segments)
    requires Overlaps(a, b) && NoSlash(a) && NoSlash(b)
    ensures NoSlash(CommonPath(a, b))
  {
    if a == [] {
    } else if IsWildcard(a[0]) {
      InstanceHasNoSlash(b);
    } else if IsWildcard(b[0]) {
      InstanceHasNoSlash(a);
    } else {
      assert a[0] in a && b[0] in b;
      CommonPathHasNoSlash(a[1..], b[1..]);
    }
  }

  /** A pair the overlap test misses: both templates match "/files". */
  lemma MissedOverlap()
    ensures !Overlaps(["files"], ["files", "*rest"])
    ensures Matches(["files"], ["files"]) && Matches(["files", "*rest"], ["files"])
    ensures ValidTemplate(["files"], false) && ValidTemplate(["files", "*rest"], false)
  {
    assert ["files", "*rest"][1..] == ["*rest"] && ["files"][1..] == [];
    assert !Overlaps([], ["*rest"]);
  }

  // ---------------------------------------------------------------- registration

  /** isCoreRoute. */
  function CoreRoutes(): seq<string> {
    [
      "/sign-up/email", "/sign-in/email", "/sign-out", "/get-session",
      "/list-sessions", "/refresh-session", "/revoke-session",
      "/revoke-other-sessions", "/revoke-sessions", "/update-session",
      "/update-user", "/change-email", "/delete-user", "/delete-user/callback",
      "/change-password",
      "/list-accounts", "/link-social", "/unlink-account",
      "/get-access-token", "/refresh-token",
      "/sign-in/social",
      "/request-password-reset", "/forget-password", "/reset-password",
      "/send-verification-email",
      "/verify-email", "/admin/impersonate-user", "/admin/stop-impersonating"
    ]
  }

  const ResetCallback := "/reset-password/:token"

  /** The paths a dynamic template must not match. The core routes are a parameter from here
      on; CoreRoutes() is the list the server passes. */
  function Guarded(core: seq<string>): seq<string> {
    core + [ResetCallback]
  }

  const Methods: set<string> := {"GET", "POST", "PUT", "PATCH", "DELETE"}

  datatype Endpoint = Endpoint(httpMethod: string, path: string, allowUpper: bool) {
    function Template(): Segments { SegmentsOf(path) }
  }

  datatype Error =
    | InvalidEndpoint | CollidesWithCore | InvalidTemplate | OverlappingTemplates | ShadowsCore | DuplicateEndpoint

  type MethodTable = map<string, Endpoint>

  datatype Runtime = Runtime(fixed: map<string, MethodTable>, dynamic: seq<Endpoint>)

  predicate ShadowsGuarded(template: Segments, core: seq<string>) {
    exists p | p in Guarded(core) :: Matches(template, SegmentsOf(p))
  }

  /** What one endpoint must satisfy on its own. */
  predicate Acceptable(e: Endpoint, core: seq<string>) {
    && e.path != "/" && e.httpMethod in Methods
    && e.path !in core && !("/callback/" <= e.path)
    && ValidTemplate(e.Template(), e.allowUpper)
    && (Dynamic(e.Template()) ==> !ShadowsGuarded(e.Template(), core))
  }

  /** What two endpoints must not do. */
  predicate Clash(e: Endpoint, f: Endpoint) {
    && e.httpMethod == f.httpMethod
    && (if Dynamic(e.Template()) && Dynamic(f.Template()) then Overlaps(e.Template(), f.Template())
        else e.path == f.path)
  }

  predicate AllAcceptable(endpoints: seq<Endpoint>, core: seq<string>) {
    && (forall i {:trigger Acceptable(endpoints[i], core)} | 0 <= i < |endpoints| :: Acceptable(endpoints[i], core))
    && (forall i, j {:trigger Clash(endpoints[i], endpoints[j])} | 0 <= i < j < |endpoints| :: !Clash(endpoints[i], endpoints[j]))
  }

  function DynamicOnly(endpoints: seq<Endpoint>): (r: seq<Endpoint>)
    ensures forall e :: e in r <==> e in endpoints && Dynamic(e.Template())
  {
    if endpoints == [] then []
    else
      var n := |endpoints| - 1;
      DynamicOnly(endpoints[..n]) + if Dynamic(endpoints[n].Template()) then [endpoints[n]] else []
  }

  function Lookup(fixed: map<string, MethodTable>, path: string, httpMethod: string): Option<Endpoint> {
    if path in fixed && httpMethod in fixed[path] then Some(fixed[path][httpMethod]) else None
  }

  predicate IsFixed(endpoints: seq<Endpoint>, e: Endpoint) {
    e in endpoints && !Dynamic(e.Template())
  }

  /** The tables hold exactly the registered endpoints. */
  ghost predicate Holds(runtime: Runtime, endpoints: seq<Endpoint>) {
    && runtime.dynamic == DynamicOnly(endpoints)
    && (forall path | path in runtime.fixed :: runtime.fixed[path].Keys != {})
    && (forall e | IsFixed(endpoints, e) :: Lookup(runtime.fixed, e.path, e.httpMethod) == Some(e))
    && (forall path, m | Lookup(runtime.fixed, path, m).Some? ::
          var e := Lookup(runtime.fixed, path, m).value;
          IsFixed(endpoints, e) && e.path == path && e.httpMethod == m)
  }

  /** One more endpoint is accepted when it is acceptable alone and clashes with none before. */
  predicate Fits(earlier: seq<Endpoint>, e: Endpoint, core: seq<string>) {
    Acceptable(e, core) && !ClashesWithAny(earlier, e)
  }

  predicate ClashesWithAny(earlier: seq<Endpoint>, e: Endpoint) {
    exists f | f in earlier :: Clash(f, e)
  }

  lemma FitStep(endpoints: seq<Endpoint>, core: seq<string>, k: nat)
    requires k < |endpoints| && AllAcceptable(endpoints[..k], core)
    ensures Fits(endpoints[..k], endpoints[k], core) ==> AllAcceptable(endpoints[..k + 1], core)
    ensures AllAcceptable(endpoints, core) ==> Fits(endpoints[..k], endpoints[k], core)
  {
    var earlier, more := endpoints[..k], endpoints[..k + 1];
    assert more == earlier + [endpoints[k]];
    if Fits(earlier, endpoints[k], core) {
      forall i, j | 0 <= i < j < |more|
        ensures !Clash(more[i], more[j])
      {
        assert more[i] == earlier[i];
        if j < k { assert more[j] == earlier[j]; }
      }
      forall i | 0 <= i < |more|
        ensures Acceptable(more[i], core)
      {
        if i < k { assert more[i] == earlier[i]; }
      }
    }
  }

  const Nothing := Runtime(map[], [])

  lemma NothingRegistered(core: seq<string>)
    ensures AllAcceptable([], core) && Holds(Nothing, [])
  {
  }

  method CompileEndpoints(endpoints: seq<Endpoint>, core: seq<string>) returns (result: Result<Runtime, Error>)
    ensures result.Success? <==> AllAcceptable(endpoints, core)
    ensures result.Success? ==> Holds(result.value, endpoints)
  {
    var runtime := Nothing;
    NothingRegistered(core);
    assert endpoints[..0] == [];
    var k := 0;
    while k < |endpoints|
      invariant 0 <= k <= |endpoints|
      invariant AllAcceptable(endpoints[..k], core) && Holds(runtime, endpoints[..k])
    {
      FitStep(endpoints, core, k);
      assert endpoints[..k + 1] == endpoints[..k] + [endpoints[k]];
      runtime :- Register(runtime, endpoints[..k], endpoints[k], core);
      k := k + 1;
    }
    assert endpoints[..k] == endpoints;
    return Success(runtime);
  }

  method Register(runtime: Runtime, earlier: seq<Endpoint>, e: Endpoint, core: seq<string>)
    returns (result: Result<Runtime, Error>)
    requires Holds(runtime, earlier)
    ensures result.Success? <==> Fits(earlier, e, core)
    ensures result.Success? ==> Holds(result.value, earlier + [e])
  {
    var error, dynamic := CheckEndpoint(e, core);
    if error.Some? {
      return Failure(error.value);
    }
    var clash := FindClash(runtime, earlier, e);
    if clash {
      return Failure(if dynamic then OverlappingTemplates else DuplicateEndpoint);
    }
    HoldsMore(runtime, earlier, e);
    return Success(Add(runtime, e));
  }

  /** The checks that look at one endpoint only, in the order registration makes them. */
  method CheckEndpoint(e: Endpoint, core: seq<string>) returns (error: Option<Error>, dynamic: bool)
    ensures error.None? <==> Acceptable(e, core)
    ensures error.None? ==> dynamic == Dynamic(e.Template())
  {
    if e.path == "/" || e.httpMethod !in Methods {
      return Some(InvalidEndpoint), false;
    }
    if e.path in core || "/callback/" <= e.path {
      return Some(CollidesWithCore), false;
    }
    var shape := PathShape(e.Template(), e.allowUpper);
    if shape.None? {
      return Some(InvalidTemplate), false;
    }
    if shape.value {
      var shadows := ShadowsAny(e.Template(), Guarded(core));
      if shadows {
        return Some(ShadowsCore), true;
      }
    }
    return None, shape.value;
  }

  method ShadowsAny(template: Segments, paths: seq<string>) returns (shadows: bool)
    ensures shadows <==> exists p | p in paths :: Matches(template, SegmentsOf(p))
  {
    for i := 0 to |paths|
      invariant forall p | p in paths[..i] :: !Matches(template, SegmentsOf(p))
    {
      assert paths[..i + 1] == paths[..i] + [paths[i]];
      var matches := MatchPath(template, SegmentsOf(paths[i]));
      if matches {
        return true;
      }
    }
    assert paths[..|paths|] == paths;
    return false;
  }

  method FindClash(runtime: Runtime, earlier: seq<Endpoint>, e: Endpoint) returns (clash: bool)
    requires Holds(runtime, earlier)
    ensures clash <==> ClashesWithAny(earlier, e)
  {
    if Dynamic(e.Template()) {
      clash := FindOverlap(runtime.dynamic, e);
      DynamicClash(earlier, e);
    } else {
      clash := e.path in runtime.fixed && e.httpMethod in runtime.fixed[e.path];
      FixedClash(runtime, earlier, e);
    }
  }

  lemma DynamicClash(earlier: seq<Endpoint>, e: Endpoint)
    requires Dynamic(e.Template())
    ensures ClashesWithAny(earlier, e) <==> ClashesWithAny(DynamicOnly(earlier), e)
  {
    forall f | f in earlier && Clash(f, e)
      ensures Dynamic(f.Template())
    {
      assert f.path == e.path ==> f.Template() == e.Template();
    }
  }

  lemma FixedClash(runtime: Runtime, earlier: seq<Endpoint>, e: Endpoint)
    requires Holds(runtime, earlier) && !Dynamic(e.Template())
    ensures ClashesWithAny(earlier, e) <==> Lookup(runtime.fixed, e.path, e.httpMethod).Some?
  {
    if Lookup(runtime.fixed, e.path, e.httpMethod).Some? {
      var f := Lookup(runtime.fixed, e.path, e.httpMethod).value;
      assert IsFixed(earlier, f) && Clash(f, e);
    }
    forall f | f in earlier && Clash(f, e)
      ensures Lookup(runtime.fixed, e.path, e.httpMethod).Some?
    {
      assert f.Template() == e.Template();
      assert IsFixed(earlier, f);
    }
  }

  method FindOverlap(dynamic: seq<Endpoint>, e: Endpoint) returns (clash: bool)
    requires Dynamic(e.Template()) && forall f | f in dynamic :: Dynamic(f.Template())
    ensures clash <==> ClashesWithAny(dynamic, e)
  {
    for i := 0 to |dynamic|
      invariant !ClashesWithAny(dynamic[..i], e)
    {
      assert dynamic[..i + 1] == dynamic[..i] + [dynamic[i]];
      var overlap := TemplatesOverlap(dynamic[i].Template(), e.Template());
      if dynamic[i].httpMethod == e.httpMethod && overlap {
        assert Clash(dynamic[i], e);
        return true;
      }
    }
    assert dynamic[..|dynamic|] == dynamic;
    return false;
  }

  function Add(runtime: Runtime, e: Endpoint): Runtime {
    if Dynamic(e.Template()) then runtime.(dynamic := runtime.dynamic + [e])
    else
      var table := if e.path in runtime.fixed then runtime.fixed[e.path] else map[];
      runtime.(fixed := runtime.fixed[e.path := table[e.httpMethod := e]])
  }

  lemma AddLookup(runtime: Runtime, e: Endpoint, path: string, m: string)
    requires !Dynamic(e.Template())
    ensures Lookup(Add(runtime, e).fixed, path, m)
         == if path == e.path && m == e.httpMethod then Some(e) else Lookup(runtime.fixed, path, m)
  {
  }

  lemma HoldsMore(runtime: Runtime, earlier: seq<Endpoint>, e: Endpoint)
    requires Holds(runtime, earlier) && !ClashesWithAny(earlier, e)
    ensures Holds(Add(runtime, e), earlier + [e])
  {
    var more, added := earlier + [e], Add(runtime, e);
    assert more[..|more| - 1] == earlier;
    assert forall f :: IsFixed(more, f) <==> IsFixed(earlier, f) || (f == e && !Dynamic(e.Template()));
    if !Dynamic(e.Template()) {
      FixedClash(runtime, earlier, e);
      forall path, m
        ensures Lookup(added.fixed, path, m)
             == if path == e.path && m == e.httpMethod then Some(e) else Lookup(runtime.fixed, path, m)
      {
        AddLookup(runtime, e, path, m);
      }
      assert e.httpMethod in added.fixed[e.path];
    }
  }

  // ---------------------------------------------------------------- resolution

  datatype Route =
    | Unknown
    | PluginRoute(selected: Option<Endpoint>, allowed: set<string>)
    | CoreRoute(allowed: set<string>)

  predicate ValidProviderId(id: string) {
    && 1 <= |id| <= 64
    && forall i | 0 <= i < |id| ::
         'a' <= id[i] <= 'z' || '0' <= id[i] <= '9' || id[i] == '-' || id[i] == '_'
  }

  predicate ResetPath(path: string) {
    "/reset-password/" < path
  }

  predicate CallbackPath(path: string) {
    "/callback/" <= path && ValidProviderId(path[|"/callback/"|..])
  }

  predicate DynamicMatch(runtime: Runtime, path: string) {
    exists e | e in runtime.dynamic :: Answers(e, path)
  }

  predicate Answers(e: Endpoint, path: string) {
    Matches(e.Template(), SegmentsOf(path))
  }

  /** The methods of the endpoints that match a path. */
  function Offered(endpoints: seq<Endpoint>, path: string): set<string> {
    set e | e in endpoints && Answers(e, path) :: e.httpMethod
  }

  /** Of several matches with the method the last one is taken. */
  function Selected(endpoints: seq<Endpoint>, path: string, httpMethod: string): (r: Option<Endpoint>)
    ensures r.Some? ==> r.value in endpoints && Answers(r.value, path) && r.value.httpMethod == httpMethod
    ensures r.None? <==> httpMethod !in Offered(endpoints, path)
  {
    if endpoints == [] then None
    else
      var n := |endpoints| - 1;
      if Answers(endpoints[n], path) && endpoints[n].httpMethod == httpMethod then Some(endpoints[n])
      else Selected(endpoints[..n], path, httpMethod)
  }

  const GetOnly: set<string> := {"/get-session", "/list-sessions", "/list-accounts", "/verify-email", "/delete-user/callback"}

  function CoreMethods(core: seq<string>, path: string): set<string> {
    if path in core then {if path in GetOnly then "GET" else "POST"}
    else if ResetPath(path) then {"GET"}
    else {"GET", "POST"}
  }

  lemma OfferedMore(init: seq<Endpoint>, last: Endpoint, path: string)
    ensures Offered(init + [last], path) == Offered(init, path) + if Answers(last, path) then {last.httpMethod} else {}
  {
  }

  /** Plugin endpoints come first: a fixed path, then the templates; core routes only after that. */
  method ResolveRoute(runtime: Runtime, core: seq<string>, path: string, httpMethod: string) returns (route: Route)
    ensures route.PluginRoute? <==> path in runtime.fixed || DynamicMatch(runtime, path)
    ensures route.CoreRoute? <==> !route.PluginRoute? && (path in core || ResetPath(path) || CallbackPath(path))
    ensures path in runtime.fixed ==>
              && route.allowed == runtime.fixed[path].Keys
              && route.selected == (if httpMethod in runtime.fixed[path] then Some(runtime.fixed[path][httpMethod]) else None)
    ensures route.PluginRoute? && path !in runtime.fixed ==>
              && route.allowed == Offered(runtime.dynamic, path)
              && route.selected == Selected(runtime.dynamic, path, httpMethod)
    ensures route.CoreRoute? ==> route.allowed == CoreMethods(core, path)
  {
    if path in runtime.fixed {
      var table := runtime.fixed[path];
      return PluginRoute(if httpMethod in table then Some(table[httpMethod]) else None, table.Keys);
    }
    var allowed: set<string>, selected: Option<Endpoint> := {}, None;
    for i := 0 to |runtime.dynamic|
      invariant allowed == Offered(runtime.dynamic[..i], path)
      invariant selected == Selected(runtime.dynamic[..i], path, httpMethod)
    {
      var endpoint := runtime.dynamic[i];
      assert runtime.dynamic[..i + 1] == runtime.dynamic[..i] + [endpoint];
      OfferedMore(runtime.dynamic[..i], endpoint, path);
      var matches := MatchPath(endpoint.Template(), SegmentsOf(path));
      if matches {
        allowed := allowed + {endpoint.httpMethod};
        if endpoint.httpMethod == httpMethod {
          selected := Some(endpoint);
        }
      }
    }
    assert runtime.dynamic[..|runtime.dynamic|] == runtime.dynamic;
    OfferedIffMatched(runtime, path);
    if allowed != {} {
      return PluginRoute(selected, allowed);
    }
    if path in core {
      return CoreRoute({if path in GetOnly then "GET" else "POST"});
    }
    if ResetPath(path) {
      return CoreRoute({"GET"});
    }
    if CallbackPath(path) {
      return CoreRoute({"GET", "POST"});
    }
    return Unknown;
  }

  lemma OfferedIffMatched(runtime: Runtime, path: string)
    ensures Offered(runtime.dynamic, path) != {} <==> DynamicMatch(runtime, path)
  {
    if DynamicMatch(runtime, path) {
      var e :| e in runtime.dynamic && Answers(e, path);
      assert e.httpMethod in Offered(runtime.dynamic, path);
    }
  }

  /** The method of each core route. */
  lemma RouteByRoute(path: string)
    requires path in CoreRoutes()
    ensures CoreMethods(CoreRoutes(), path) ==
              if path == "/get-session" || path == "/list-sessions" || path == "/list-accounts"
                || path == "/verify-email" || path == "/delete-user/callback" then {"GET"} else {"POST"}
  {
  }

  /** Reset links are followed with GET, for every token; they are not on the list of core routes. */
  lemma ResetMethods(token: string)
    requires token != ""
    ensures var path := "/reset-password/" + token; ResetPath(path) && (path !in CoreRoutes() ==> CoreMethods(CoreRoutes(), path) == {"GET"})
  {
  }

  /** Providers call back with GET or POST, for every id of 1 to 64 small letters, digits, hyphens
      and underscores. */
  lemma CallbackMethods(id: string)
    ensures var path := "/callback/" + id;
            && (CallbackPath(path) <==> 1 <= |id| <= 64 && forall i | 0 <= i < |id| :: SmallOrDigit(id[i]))
            && !ResetPath(path) && (path !in CoreRoutes() ==> CoreMethods(CoreRoutes(), path) == {"GET", "POST"})
  {
    var callback, reset := "/callback/", "/reset-password/";
    assert (callback + id)[|callback|..] == id;
    assert (callback + id)[1] == 'c' && reset[1] == 'r';
  }

  predicate SmallOrDigit(c: char) {
    'a' <= c <= 'z' || '0' <= c <= '9' || c in {'-', '_'}
  }

  /** No accepted set of endpoints takes over a fixed core route. */
  lemma CoreRoutesStayCore(endpoints: seq<Endpoint>, core: seq<string>, runtime: Runtime, path: string)
    requires AllAcceptable(endpoints, core) && Holds(runtime, endpoints)
    requires path in core
    ensures path !in runtime.fixed && !DynamicMatch(runtime, path)
  {
    assert path in Guarded(core);
    FixedAreRegistered(endpoints, core, runtime, path);
    forall e | e in runtime.dynamic
      ensures !Matches(e.Template(), SegmentsOf(path))
    {
      assert Acceptable(e, core) && !ShadowsGuarded(e.Template(), core);
    }
  }

  lemma FixedAreRegistered(endpoints: seq<Endpoint>, core: seq<string>, runtime: Runtime, path: string)
    requires AllAcceptable(endpoints, core) && Holds(runtime, endpoints)
    ensures path in runtime.fixed ==> path !in core && !("/callback/" <= path)
  {
    if path in runtime.fixed {
      var m :| m in runtime.fixed[path].Keys;
      var e := Lookup(runtime.fixed, path, m).value;
      assert IsFixed(endpoints, e) && Acceptable(e, core);
    }
  }

  /** Without one-extra-wildcard pairs, at most one dynamic endpoint per method matches a path. */
  lemma AtMostOneDynamic(endpoints: seq<Endpoint>, core: seq<string>, i: nat, j: nat, path: string)
    requires AllAcceptable(endpoints, core) && i < j < |endpoints|
    requires Dynamic(endpoints[i].Template()) && Dynamic(endpoints[j].Template())
    requires !OneExtraWildcard(endpoints[i].Template(), endpoints[j].Template())
    requires Matches(endpoints[i].Template(), SegmentsOf(path)) && Matches(endpoints[j].Template(), SegmentsOf(path))
    ensures endpoints[i].httpMethod != endpoints[j].httpMethod
  {
    var e, f := endpoints[i], endpoints[j];
    assert Acceptable(e, core) && Acceptable(f, core) && !Clash(e, f);
    assert ShareAPath(e.path, f.path);
    OverlapIsExact(e.path, f.path, e.allowUpper, f.allowUpper);
  }

  // ---------------------------------------------------------------- provider callbacks

  /** The templates that take over the callback of one provider: a parameter, then the
      provider's id spelled out, then nothing or a wildcard. */
  predicate SpellsOut(template: Segments, id: string) {
    && |template| >= 2 && IsParameter(template[0]) && template[1] == id
    && (|template| == 2 || (|template| == 3 && IsWildcard(template[2])))
  }

  lemma TwoSegments(first: string, second: string)
    requires '/' !in first && '/' !in second
    ensures SegmentsOf("/" + (first + ("/" + second))) == [first, second]
  {
    PathOf([first, second]);
    assert [first, second][1..] == [second];
    assert Join([first, second], "/") == first + ("/" + second);
  }

  lemma CallbackSegments(id: string)
    requires ValidProviderId(id)
    ensures SegmentsOf("/callback/" + id) == ["callback", id]
    ensures SegmentsOf("/sign-up/email") == ["sign-up", "email"]
  {
    TwoSegments("callback", id);
    assert "/" + ("callback" + ("/" + id)) == "/callback/" + id;
    SignUpSegments();
  }

  lemma SignUpSegments()
    ensures SegmentsOf("/sign-up/email") == ["sign-up", "email"]
  {
    TwoSegments("sign-up", "email");
    assert "/" + ("sign-up" + ("/" + "email")) == "/sign-up/email";
  }

  /** Provider callbacks are not on the guarded list, so they are kept exactly as long as no
      accepted template spells the provider id out behind a parameter. */
  lemma CallbackStaysCore(endpoints: seq<Endpoint>, core: seq<string>, runtime: Runtime, id: string)
    requires "/sign-up/email" in core
    requires AllAcceptable(endpoints, core) && Holds(runtime, endpoints) && ValidProviderId(id)
    requires forall e | e in endpoints :: "/" <= e.path
    ensures "/callback/" + id !in runtime.fixed && !DynamicMatch(runtime, "/callback/" + id)
       <==> (forall e | e in runtime.dynamic :: !SpellsOut(e.Template(), id))
  {
    CallbackSegments(id);
    FixedAreRegistered(endpoints, core, runtime, "/callback/" + id);
    assert "/sign-up/email" in Guarded(core);
    forall e | e in runtime.dynamic
      ensures Matches(e.Template(), ["callback", id]) <==> SpellsOut(e.Template(), id)
    {
      assert Acceptable(e, core) && !ShadowsGuarded(e.Template(), core);
      TwoSegmentMatch(e, id);
    }
  }

  lemma SignUpIsCore()
    ensures "/sign-up/email" in CoreRoutes()
  {
    assert CoreRoutes()[0] == "/sign-up/email";
  }

  lemma TwoSegmentMatch(e: Endpoint, id: string)
    requires ValidProviderId(id) && ValidTemplate(e.Template(), e.allowUpper) && "/" <= e.path && !("/callback/" <= e.path)
    requires Dynamic(e.Template()) && !Matches(e.Template(), ["sign-up", "email"])
    ensures Matches(e.Template(), ["callback", id]) <==> SpellsOut(e.Template(), id)
  {
    var t := e.Template();
    ValidTemplateShape(t, e.allowUpper);
    assert ["callback", id][1..] == [id] && [id][1..] == [];
    assert ["sign-up", "email"][1..] == ["email"] && ["email"][1..] == [];
    if |t| == 1 {
      assert t[1..] == [];
    } else {
      assert t[1..][0] == t[1] && t[1..][1..] == t[2..];
      if t[0] == "callback" { CallbackPrefix(e); }
      if |t| >= 3 { assert t[2..][0] == t[2]; }
      TailMatch(t[2..]);
    }
  }

  lemma TailMatch(tail: Segments)
    requires WildcardOnlyLast(tail)
    ensures Matches(tail, []) <==> tail == [] || (|tail| == 1 && IsWildcard(tail[0]))
  {
  }

  lemma CallbackPrefix(e: Endpoint)
    requires "/" <= e.path && |e.Template()| >= 2 && e.Template()[0] == "callback"
    ensures "/callback/" <= e.path
  {
    var rest := TrimPrefix(e.path, "/");
    JoinSplit(rest, '/');
    var parts := e.Template();
    assert rest == "callback" + "/" + Join(parts[1..], "/");
    assert e.path == "/" + rest;
  }

  lemma TakeoverTemplate(e: Endpoint, id: string)
    requires ValidProviderId(id) && ValidLiteral(id, false) && e.path == "/" + (":a" + ("/" + id))
    ensures e.Template() == [":a", id] && Dynamic(e.Template()) && ValidTemplate(e.Template(), e.allowUpper)
  {
    assert forall i | 0 <= i < |id| :: id[i] != '/';
    TwoSegments(":a", id);
    assert !IsLiteral([":a", id][0]) && ":a"[1..] == "a";
  }

  lemma TakeoverMatches(id: string, first: string)
    requires id != "" && IsLiteral(id) && first != ""
    ensures Matches([":a", id], [first, id])
  {
    assert [":a", id][1..] == [id] && [first, id][1..] == [id] && [id][1..] == [];
  }

  /** Whenever no guarded path ends in the provider id, an endpoint that takes over the
      provider's callback is accepted. */
  lemma CallbackTakenOver(e: Endpoint, id: string, core: seq<string>)
    requires ValidProviderId(id) && ValidLiteral(id, false)
    requires e.path == "/" + (":a" + ("/" + id)) && e.httpMethod == "GET"
    requires e.path !in core && !ShadowsGuarded([":a", id], core)
    ensures AllAcceptable([e], core)
    ensures Dynamic(e.Template()) && Matches(e.Template(), SegmentsOf("/callback/" + id))
  {
    TakeoverTemplate(e, id);
    CallbackSegments(id);
    TakeoverMatches(id, "callback");
    NotACallback(e, ":a" + ("/" + id));
    OneAcceptable(e, core);
  }

  lemma NotACallback(e: Endpoint, rest: string)
    requires e.path == "/" + rest && |rest| >= 2 && rest[0] == ':'
    ensures e.path != "/" && !("/callback/" <= e.path)
  {
    assert e.path[1] == ':' && "/callback/"[1] == 'c';
  }

  lemma OneAcceptable(e: Endpoint, core: seq<string>)
    requires Acceptable(e, core)
    ensures AllAcceptable([e], core)
  {
  }

  /** With the server's own routes, GET /:a/github is such an endpoint. */
  lemma GithubTakenOver(e: Endpoint)
    requires e == Endpoint("GET", "/" + (":a" + ("/" + "github")), false)
    ensures AllAcceptable([e], CoreRoutes())
    ensures Dynamic(e.Template()) && Matches(e.Template(), SegmentsOf("/callback/" + "github"))
  {
    NoGuardedGithub([":a", "github"]);
    NotCore();
    CallbackTakenOver(e, "github", CoreRoutes());
  }

  lemma NotCore()
    ensures "/" + (":a" + ("/" + "github")) !in CoreRoutes()
  {
    var core, path := CoreRoutes(), "/" + (":a" + ("/" + "github"));
    assert path[1] == ':';
    forall i | 0 <= i < |core|
      ensures core[i] != path
    {
      assert core[i][1] != ':';
    }
  }

  lemma NoGuardedGithub(t: Segments)
    requires t == [":a", "github"]
    ensures !ShadowsGuarded(t, CoreRoutes())
  {
    forall p | p in Guarded(CoreRoutes())
      ensures !Matches(t, SegmentsOf(p))
    {
      GuardedEnds(p);
      if Matches(t, SegmentsOf(p)) { MatchEndsInB(t, p); }
    }
  }

  lemma GuardedEnds(p: string)
    requires p in Guarded(CoreRoutes())
    ensures p == "" || p[|p| - 1] != 'b'
  {
    var core := CoreRoutes();
    if p in core {
      var i :| 0 <= i < |core| && core[i] == p;
      assert core[i][|core[i]| - 1] != 'b';
    } else {
      assert p == ResetCallback;
    }
  }

  lemma MatchEndsInB(t: Segments, path: string)
    requires t == [":a", "github"] && Matches(t, SegmentsOf(path))
    ensures path != "" && path[|path| - 1] == 'b'
  {
    var s := SegmentsOf(path);
    assert t[1..] == ["github"] && s[1..] == ["github"] by {
      assert t[1..][1..] == [];
      assert Matches(t[1..][1..], s[1..][1..]);
    }
    JoinSplit(TrimPrefix(path, "/"), '/');
    assert TrimPrefix(path, "/") == s[0] + "/" + "github";
  }

  // ---------------------------------------------------------------- password reset callbacks

  /** The segments of a token; a token may hold slashes. */
  function TokenParts(token: string): (parts: Segments)
    ensures |parts| >= 1
  {
    Split(token, '/')
  }

  function ResetPathOf(token: string): string {
    "/reset-password/" + token
  }

  predicate StartsReset(segment: string) {
    IsParameter(segment) || segment == "reset-password"
  }

  /** The templates that take over a reset callback: the first segment of the token spelled out,
      or a parameter for it with at least one more segment; the rest has to follow. */
  predicate LeadsTo(template: Segments, parts: Segments)
    requires |parts| >= 1
  {
    && |template| >= 2 && StartsReset(template[0])
    && (|| (IsLiteral(template[1]) && template[1] == parts[0])
        || (IsParameter(template[1]) && parts[0] != "" && |template| >= 3 && !IsWildcard(template[2])))
    && Matches(template[2..], parts[1..])
  }

  predicate TakesReset(e: Endpoint, token: string) {
    if Dynamic(e.Template()) then LeadsTo(e.Template(), TokenParts(token)) else e.path == ResetPathOf(token)
  }

  /** For a token of one segment: spelled out, then nothing or a final wildcard. */
  predicate SpellsToken(template: Segments, token: string) {
    && |template| >= 2 && StartsReset(template[0]) && IsLiteral(template[1]) && template[1] == token
    && (|template| == 2 || (|template| == 3 && IsWildcard(template[2])))
  }

  lemma ResetSegments(token: string)
    ensures SegmentsOf(ResetPathOf(token)) == ["reset-password"] + TokenParts(token)
  {
    SplitFirst("reset-password", token, '/');
    assert "/reset-password/" == "/" + "reset-password" + "/";
    assert ResetPathOf(token) == "/" + ("reset-password" + ['/'] + token);
  }

  lemma GuardSegments()
    ensures SegmentsOf(ResetCallback) == ["reset-password", ":token"]
  {
    TokenGuard(":token");
    assert ResetCallback == ResetPathOf(":token");
  }

  lemma TokenGuard(token: string)
    requires '/' !in token
    ensures SegmentsOf(ResetPathOf(token)) == ["reset-password", token]
  {
    ResetSegments(token);
    SplitWhole(token, '/');
  }

  /** A template of two segments or more, one segment at a time. */
  lemma MatchesTwo(t: Segments, first: string, rest: Segments)
    requires |t| >= 2 && |rest| >= 1 && !IsWildcard(t[0])
    ensures Matches(t, [first] + rest) <==>
              SegmentMatches(t[0], first) && (IsWildcard(t[1]) || (SegmentMatches(t[1], rest[0]) && Matches(t[2..], rest[1..])))
  {
    assert ([first] + rest)[1..] == rest;
    assert t[1..][0] == t[1] && t[1..][1..] == t[2..];
  }

  lemma ResetMatch(t: Segments, parts: Segments, allowUpper: bool)
    requires ValidTemplate(t, allowUpper) && |t| >= 1 && |parts| >= 1
    requires !Matches(t, ["reset-password", ":token"])
    ensures Matches(t, ["reset-password"] + parts) <==> LeadsTo(t, parts)
  {
    ValidTemplateShape(t, allowUpper);
    if |t| == 1 {
      assert t[1..] == [] && (["reset-password"] + parts)[1..] == parts;
    } else {
      MatchesTwo(t, "reset-password", parts);
      MatchesTwo(t, "reset-password", [":token"]);
      assert ["reset-password"] + [":token"] == ["reset-password", ":token"] && [":token"][1..] == [];
      assert "reset-password" != "";
      if |t| >= 3 { assert t[2..][0] == t[2]; }
      TailMatch(t[2..]);
    }
  }

  lemma FixedIsRegistered(endpoints: seq<Endpoint>, runtime: Runtime, path: string)
    requires Holds(runtime, endpoints)
    ensures path in runtime.fixed <==> exists e | e in endpoints :: !Dynamic(e.Template()) && e.path == path
  {
    if path in runtime.fixed {
      var m :| m in runtime.fixed[path].Keys;
      var e := Lookup(runtime.fixed, path, m).value;
      assert IsFixed(endpoints, e) && e.path == path;
    }
    if exists e | e in endpoints :: !Dynamic(e.Template()) && e.path == path {
      var e :| e in endpoints && !Dynamic(e.Template()) && e.path == path;
      assert IsFixed(endpoints, e);
    }
  }

  /** The callbacks of password resets are not on the guarded list either, except for the token
      ":token". Whatever the token, its path stays a core route exactly when no accepted endpoint
      is that path or leads to it. */
  lemma ResetStaysCore(endpoints: seq<Endpoint>, core: seq<string>, runtime: Runtime, token: string)
    requires AllAcceptable(endpoints, core) && Holds(runtime, endpoints)
    ensures ResetPathOf(token) !in runtime.fixed && !DynamicMatch(runtime, ResetPathOf(token))
       <==> forall e | e in endpoints :: !TakesReset(e, token)
  {
    var path := ResetPathOf(token);
    FixedIsRegistered(endpoints, runtime, path);
    forall e | e in endpoints && Dynamic(e.Template())
      ensures Answers(e, path) <==> TakesReset(e, token)
    {
      ResetAnswers(endpoints, core, e, token);
    }
  }

  lemma ResetAnswers(endpoints: seq<Endpoint>, core: seq<string>, e: Endpoint, token: string)
    requires AllAcceptable(endpoints, core) && e in endpoints && Dynamic(e.Template())
    ensures Answers(e, ResetPathOf(token)) <==> TakesReset(e, token)
  {
    assert Acceptable(e, core) && ResetCallback in Guarded(core);
    ResetSegments(token);
    GuardSegments();
    ResetMatch(e.Template(), TokenParts(token), e.allowUpper);
  }

  /** A token of one segment is lost only to a template that spells it out. */
  lemma OneSegmentToken(t: Segments, token: string, allowUpper: bool)
    requires ValidTemplate(t, allowUpper) && '/' !in token
    ensures LeadsTo(t, TokenParts(token)) <==> SpellsToken(t, token)
  {
    SplitWhole(token, '/');
    ValidTemplateShape(t, allowUpper);
    assert [token][1..] == [];
    if |t| >= 2 {
      if |t| >= 3 { assert t[2..][0] == t[2]; }
      TailMatch(t[2..]);
    }
  }

  predicate SpellsReset(e: Endpoint, token: string) {
    if Dynamic(e.Template()) then SpellsToken(e.Template(), token) else e.path == ResetPathOf(token)
  }

  lemma OneSegmentResetStaysCore(endpoints: seq<Endpoint>, core: seq<string>, runtime: Runtime, token: string)
    requires AllAcceptable(endpoints, core) && Holds(runtime, endpoints) && '/' !in token
    ensures ResetPathOf(token) !in runtime.fixed && !DynamicMatch(runtime, ResetPathOf(token))
       <==> forall e | e in endpoints :: !SpellsReset(e, token)
  {
    ResetStaysCore(endpoints, core, runtime, token);
    forall e | e in endpoints
      ensures TakesReset(e, token) <==> SpellsReset(e, token)
    {
      assert Acceptable(e, core);
      OneSegmentToken(e.Template(), token, e.allowUpper);
    }
  }

  /** Such an endpoint is accepted for every token that can be written as a literal segment. */
  lemma ResetTakenOver(e: Endpoint, token: string, core: seq<string>)
    requires ValidLiteral(token, false) && ResetPathOf(token) !in core
    requires e.path == ResetPathOf(token) && e.httpMethod == "GET"
    ensures AllAcceptable([e], core) && !Dynamic(e.Template()) && ResetPath(e.path)
  {
    assert forall i | 0 <= i < |token| :: token[i] != '/';
    TokenGuard(token);
    ResetTemplate(e, "reset-password", token);
    ResetIsNoCallback(token);
    OneAcceptable(e, core);
  }

  lemma ResetTemplate(e: Endpoint, first: string, token: string)
    requires e.Template() == [first, token] && first == "reset-password" && ValidLiteral(token, false)
    ensures ValidTemplate(e.Template(), e.allowUpper) && !Dynamic(e.Template())
  {
    assert token[0] != ':' && token[0] != '*';
  }

  lemma ResetIsNoCallback(token: string)
    ensures ResetPathOf(token) != "/" && !("/callback/" <= ResetPathOf(token))
    ensures token != "" ==> ResetPath(ResetPathOf(token))
  {
    assert ResetPathOf(token)[1] == 'r' && "/callback/"[1] == 'c';
  }

  /** With the server's own routes, GET /reset-password/abc is one. */
  lemma AbcTakenOver(e: Endpoint)
    requires e == Endpoint("GET", ResetPathOf("abc"), false)
    ensures AllAcceptable([e], CoreRoutes()) && !Dynamic(e.Template()) && ResetPath(e.path)
  {
    var core := CoreRoutes();
    assert e.path[|e.path| - 1] == 'c';
    forall i | 0 <= i < |core|
      ensures core[i] != e.path
    {
      assert core[i][|core[i]| - 1] != 'c';
    }
    ResetTakenOver(e, "abc", core);
  }
}
