/**
 * Reference semantics of one dispatch by Blade's `ActionHandler`, written as
 * functions, and the properties it has. The imperative model in module
 * `ActionHandling` is proved to behave exactly as these functions say.
 */
module Dispatch {
  import opened Wrappers
  import opened Http

  /** `Request.class.getName()` and `Response.class.getName()`. */
  const RequestClassName: string := "com.blade.http.Request"
  const ResponseClassName: string := "com.blade.http.Response"

  /**
   * The parts of the `Blade` configuration the dispatcher reads:
   * `staticFolder()` (a nullable array), `view404()` (a nullable string) and
   * `Blade.VERSION`, which ends up in the error pages.
   */
  datatype Blade = Blade(staticFolder: Option<seq<string>>, view404: Option<string>, version: string)

  /** The route matcher, whose matching and ordering rules are not modelled. */
  datatype RouteMatcher = RouteMatcher(
    getRoute: (string, string) -> Option<Route>,
    getBefore: string -> seq<Route>,
    getAfter: string -> seq<Route>)

  /** What `ThrowableKit.propagate(e)` does: return, or rethrow `e`. */
  datatype Propagation = Returns | Rethrows

  /**
   * An incoming request: its method and its path relative to the application
   * root, and whether the container throws while these are extracted
   * (`extractFault`), while the request/response wrappers are built
   * (`wrapFault`), or while the 404 view or page is written (`renderFault`).
   */
  datatype HttpRequest = HttpRequest(httpMethod: string, uri: string,
                                     extractFault: Option<Exception>, wrapFault: Option<Exception>,
                                     renderFault: Option<Exception>)

  /** How `handle` ends: it returns a boolean, or an exception escapes it. */
  datatype HandleResult = Returned(handled: bool) | Raised(error: Exception)

  /** Everything one dispatch produces. */
  datatype Dispatched = Dispatched(result: HandleResult, events: seq<Event>, response: ResponseState)

  /** What the catch blocks produce. */
  datatype Caught = Caught(result: HandleResult, response: ResponseState)

  /** What running a sequence of targets produced; `thrown` is the exception that stopped it. */
  datatype Run = Run(events: seq<Event>, commits: bool, thrown: Option<Exception>)

  // ---------------------------------------------------------------- static prefixes

  /** Java's `s.startsWith(prefix)`. */
  predicate StartsWith(s: string, prefix: string) {
    |prefix| <= |s| && s[..|prefix|] == prefix
  }

  /** The guard of the static-folder check: the array is non-null and non-empty. */
  predicate StaticFolderConfigured(blade: Blade) {
    blade.staticFolder.Some? && |blade.staticFolder.value| > 0
  }

  /** `uri` lies under one of the static folders. */
  predicate UnderStaticFolder(folders: seq<string>, uri: string) {
    exists i :: 0 <= i < |folders| && StartsWith(uri, folders[i])
  }

  // ---------------------------------------------------------------- arguments

  /**
   * The argument bound to a parameter whose declared type has class name
   * `name`: the request, the response, or null for anything else.
   */
  function ArgFor(name: string): Arg {
    if name == ResponseClassName then ResponseArg
    else if name == RequestClassName then RequestArg
    else NullArg
  }

  /**
   * The argument array for a method with these declared parameter types:
   * one slot per parameter, holding the request exactly where the type is
   * `Request`, the response exactly where it is `Response`, null elsewhere.
   */
  function ArgsFor(parameterTypes: seq<string>): (args: seq<Arg>)
    ensures |args| == |parameterTypes|
    ensures forall i :: 0 <= i < |parameterTypes| ==>
      (args[i] == RequestArg <==> parameterTypes[i] == RequestClassName)
      && (args[i] == ResponseArg <==> parameterTypes[i] == ResponseClassName)
  {
    seq(|parameterTypes|, i requires 0 <= i < |parameterTypes| => ArgFor(parameterTypes[i]))
  }

  /** How a target is called: through `handle`, or through `executeMethod`. */
  function CallFor(target: Target): Call {
    match target
    case Handler => ViaHandle
    case Method(parameterTypes) =>
      if |parameterTypes| > 0 then WithArgs(ArgsFor(parameterTypes)) else NoArgs
  }

  // ---------------------------------------------------------------- running targets

  /** The events of running one target: path parameters, context, then the call. */
  function TargetEvents(r: Route): seq<Event> {
    [InitPathParams(r.path), SetContext, Invoke(r, CallFor(r.target))]
  }

  /** The exception a route's target throws, if any. */
  function Thrown(r: Route): Option<Exception> {
    if r.effect.result.Throw? then Some(r.effect.result.kind) else None
  }

  /** Running one target. */
  function RunTarget(r: Route): Run {
    Run(TargetEvents(r), r.effect.commits, Thrown(r))
  }

  /**
   * Running a list of targets in order, stopping at the first that throws;
   * defined by extending the run of all but the last route.
   */
  function RunChain(rs: seq<Route>): Run
    decreases |rs|
  {
    if rs == [] then Run([], false, None)
    else
      var p := RunChain(rs[..|rs| - 1]);
      if p.thrown.Some? then p
      else
        var t := RunTarget(rs[|rs| - 1]);
        Run(p.events + t.events, p.commits || t.commits, t.thrown)
  }

  /** The events of running every route of `rs` in list order, front to back. */
  function ChainTrace(rs: seq<Route>): seq<Event>
    decreases |rs|
  {
    if rs == [] then [] else TargetEvents(rs[0]) + ChainTrace(rs[1..])
  }

  /** No target in `rs` throws. */
  predicate AllOk(rs: seq<Route>) {
    forall i :: 0 <= i < |rs| ==> rs[i].effect.result.Ok?
  }

  /** Some target in `rs` commits the response. */
  predicate AnyCommits(rs: seq<Route>) {
    exists i :: 0 <= i < |rs| && rs[i].effect.commits
  }

  /** `s` after a run that did or did not commit. */
  function Committed(s: ResponseState, commits: bool): ResponseState {
    if commits then s.(committed := true) else s
  }

  // ---------------------------------------------------------------- error pages

  /** The parts of `VIEW_NOTFOUND` around its `%s`, and the end of both error pages. */
  const NotFoundHead: string :=
    "<html><head><title>404 Not Found</title></head><body bgcolor=\"white\"><center><h1>"
  const NotFoundTail: string := "</h1></center><hr><center>blade "
  const PageEnd: string := "</center></body></html>"

  /** The part of `INTERNAL_ERROR` before the version. */
  const InternalErrorHead: string :=
    "<html><head><title>500 Internal Error</title></head><body bgcolor=\"white\"><center><h1>500 Internal Error</h1></center><hr><center>blade "

  /** The heading of the 404 page. */
  function NotFoundHeading(uri: string): string {
    "[ " + uri + " ] Not Found"
  }

  /** `VIEW_NOTFOUND` with `uri` substituted for its `%s`. */
  function NotFoundPage(uri: string, version: string): string {
    NotFoundHead + NotFoundHeading(uri) + (NotFoundTail + version + PageEnd)
  }

  /** `INTERNAL_ERROR`. */
  function InternalErrorPage(version: string): string {
    InternalErrorHead + version + PageEnd
  }

  /** The characters Java's `Character.isWhitespace` accepts in the ASCII range. */
  predicate IsWhitespace(c: char) {
    c == ' ' || '\t' <= c <= '\r' || '\U{1C}' <= c <= '\U{1F}'
  }

  /** `StringKit.isBlank`: null, empty, or whitespace only. */
  predicate IsBlank(s: Option<string>) {
    s.None? || forall i :: 0 <= i < |s.value| ==> IsWhitespace(s.value[i])
  }

  /** `t` occurs in `s` at index `i`. */
  predicate OccursAt(s: string, t: string, i: int) {
    0 <= i <= |s| - |t| && s[i..i + |t|] == t
  }

  /** `t` occurs in `s`. */
  ghost predicate Contains(s: string, t: string) {
    exists i :: OccursAt(s, t, i)
  }

  /** The response after `render404(response, uri)`. */
  function NotFoundState(blade: Blade, s: ResponseState, uri: string): ResponseState {
    if !IsBlank(blade.view404) then
      s.(renderedView := Some(View(blade.view404.value, map["viewName" := uri])))
    else
      s.(status := 404, body := s.body + NotFoundPage(uri, blade.version))
  }

  /**
   * The response when `render404` throws: `render` fails before anything is
   * recorded; `html` fails after the status was already set to 404.
   */
  function NotFoundFailedState(blade: Blade, s: ResponseState): ResponseState {
    if !IsBlank(blade.view404) then s else s.(status := 404)
  }

  /**
   * What the catch blocks make of exception `e`, given whether the response
   * wrapper had been built (`wrapped`) and the response state `s` so far.
   */
  function RecoverOutcome(prop: Propagation, version: string, wrapped: bool,
                          e: Exception, s: ResponseState): Caught
  {
    if prop == Rethrows then Caught(Raised(e), s)
    else
      var s500 := s.(status := 500);
      if s500.committed then Caught(Returned(false), s500)
      else if wrapped then Caught(Returned(true), s500.(body := s500.body + InternalErrorPage(version)))
      else Caught(Raised(NullPointerException), s500)
  }

  /** A dispatch that ended in the catch blocks after `events`. */
  function Recovered(c: Caught, events: seq<Event>): Dispatched {
    Dispatched(c.result, events, c.response)
  }

  // ---------------------------------------------------------------- one request

  /** The events before the route is known: wrappers, context, route lookup. */
  function Preamble(req: HttpRequest): seq<Event> {
    [Wrap, SetContext, GetRoute(req.httpMethod, req.uri)]
  }

  /** `handle(httpRequest, httpResponse)` on a response in state `s0`. */
  function HandleOutcome(blade: Blade, matcher: RouteMatcher, prop: Propagation,
                         req: HttpRequest, s0: ResponseState): Dispatched
  {
    if req.extractFault.Some? then
      Recovered(RecoverOutcome(prop, blade.version, false, req.extractFault.value, s0), [])
    else if StaticFolderConfigured(blade) && UnderStaticFolder(blade.staticFolder.value, req.uri) then
      Dispatched(Returned(false), [], s0)
    else if req.wrapFault.Some? then
      Recovered(RecoverOutcome(prop, blade.version, false, req.wrapFault.value, s0), [])
    else
      match matcher.getRoute(req.httpMethod, req.uri)
      case None =>
        if req.renderFault.Some? then
          Recovered(RecoverOutcome(prop, blade.version, true, req.renderFault.value,
                                   NotFoundFailedState(blade, s0)), Preamble(req))
        else Dispatched(Returned(true), Preamble(req), NotFoundState(blade, s0, req.uri))
      case Some(route) =>
        var f := FoundOutcome(blade, matcher, prop, req.uri, route, s0);
        f.(events := Preamble(req) + f.events)
  }

  /** The rest of `handle` once `route` was found: befores, target, afters. */
  function FoundOutcome(blade: Blade, matcher: RouteMatcher, prop: Propagation, uri: string,
                        route: Route, s0: ResponseState): Dispatched
  {
    var b := RunChain(matcher.getBefore(uri));
    var ev1 := [GetBefore(uri)] + b.events;
    var s1 := Committed(s0, b.commits);
    if b.thrown.Some? then Recovered(RecoverOutcome(prop, blade.version, true, b.thrown.value, s1), ev1)
    else
      var t := RunTarget(route);
      var ev2 := ev1 + t.events;
      var s2 := Committed(s1, t.commits);
      if t.thrown.Some? then Recovered(RecoverOutcome(prop, blade.version, true, t.thrown.value, s2), ev2)
      else
        var a := RunChain(matcher.getAfter(uri));
        var ev3 := ev2 + [GetAfter(uri)] + a.events;
        var s3 := Committed(s2, a.commits);
        if a.thrown.Some? then Recovered(RecoverOutcome(prop, blade.version, true, a.thrown.value, s3), ev3)
        else Dispatched(Returned(true), ev3, s3)
  }

  /**
   * Every invocation in `ev` comes straight after `initPathParams` with its
   * route's path and `setContext`, and uses the call its target's kind asks for.
   */
  predicate InvocationsPrepared(ev: seq<Event>) {
    forall j :: 0 <= j < |ev| && ev[j].Invoke? ==>
      2 <= j && ev[j - 2] == InitPathParams(ev[j].route.path) && ev[j - 1] == SetContext
      && ev[j].call == CallFor(ev[j].route.target)
  }

  // ================================================================ lemmas

  /** Once a prefix of the chain has thrown, the rest of the chain does not run. */
  lemma {:induction false} RunChainStopped(rs: seq<Route>, j: nat)
    requires j <= |rs| && RunChain(rs[..j]).thrown.Some?
    ensures RunChain(rs) == RunChain(rs[..j])
    decreases |rs|
  {
    if j < |rs| {
      var init := rs[..|rs| - 1];
      assert init[..j] == rs[..j];
      RunChainStopped(init, j);
    } else {
      assert rs[..j] == rs;
    }
  }

  lemma {:induction false} ChainTraceAppend(rs: seq<Route>, r: Route)
    ensures ChainTrace(rs + [r]) == ChainTrace(rs) + TargetEvents(r)
    decreases |rs|
  {
    if rs == [] {
      assert [r][1..] == [];
    } else {
      assert (rs + [r])[1..] == rs[1..] + [r];
      ChainTraceAppend(rs[1..], r);
    }
  }

  /**
   * When no target throws, the chain runs every route in list order and
   * commits exactly when one of them commits.
   */
  lemma {:induction false} RunChainAllOk(rs: seq<Route>)
    requires AllOk(rs)
    ensures RunChain(rs).events == ChainTrace(rs)
    ensures RunChain(rs).thrown == None
    ensures RunChain(rs).commits <==> AnyCommits(rs)
    decreases |rs|
  {
    if rs != [] {
      var init := rs[..|rs| - 1];
      var last := rs[|rs| - 1];
      assert AllOk(init) by {
        forall i | 0 <= i < |init| ensures init[i].effect.result.Ok? {
          assert init[i] == rs[i];
        }
      }
      RunChainAllOk(init);
      ChainTraceAppend(init, last);
      assert init + [last] == rs;
      if AnyCommits(rs) {
        var i :| 0 <= i < |rs| && rs[i].effect.commits;
        if i < |init| { assert init[i] == rs[i]; }
      }
      if AnyCommits(init) {
        var i :| 0 <= i < |init| && init[i].effect.commits;
        assert rs[i] == init[i];
      }
    }
  }

  /**
   * An exception from the interceptor at index `k` ends the chain: exactly
   * the routes up to and including `k` ran, and that exception is the result.
   */
  lemma {:induction false} RunChainAbortsAt(rs: seq<Route>, k: nat)
    requires k < |rs| && AllOk(rs[..k]) && rs[k].effect.result.Throw?
    ensures RunChain(rs).events == ChainTrace(rs[..k]) + TargetEvents(rs[k])
    ensures RunChain(rs).thrown == Some(rs[k].effect.result.kind)
  {
    var upTo := rs[..k + 1];
    assert upTo[..|upTo| - 1] == rs[..k];
    RunChainAllOk(rs[..k]);
    RunChainStopped(rs, k + 1);
  }

  /** A route's call shows up in a chain's events only if the route is in the chain. */
  lemma {:induction false} ChainTraceInvokes(rs: seq<Route>, r: Route, c: Call)
    requires Invoke(r, c) in ChainTrace(rs)
    ensures r in rs
    decreases |rs|
  {
    if Invoke(r, c) !in TargetEvents(rs[0]) {
      ChainTraceInvokes(rs[1..], r, c);
    }
  }

  lemma InvocationsPreparedConcat(a: seq<Event>, b: seq<Event>)
    requires InvocationsPrepared(a) && InvocationsPrepared(b)
    ensures InvocationsPrepared(a + b)
  {
    forall j | 0 <= j < |a + b| && (a + b)[j].Invoke?
      ensures 2 <= j && (a + b)[j - 2] == InitPathParams((a + b)[j].route.path)
              && (a + b)[j - 1] == SetContext && (a + b)[j].call == CallFor((a + b)[j].route.target)
    {
      if j >= |a| {
        assert (a + b)[j] == b[j - |a|];
      }
    }
  }

  lemma {:induction false} RunChainPrepared(rs: seq<Route>)
    ensures InvocationsPrepared(RunChain(rs).events)
    decreases |rs|
  {
    if rs != [] {
      var init := rs[..|rs| - 1];
      RunChainPrepared(init);
      if RunChain(init).thrown.None? {
        InvocationsPreparedConcat(RunChain(init).events, TargetEvents(rs[|rs| - 1]));
      }
    }
  }

  lemma {:induction false} FoundPrepared(blade: Blade, matcher: RouteMatcher, prop: Propagation, uri: string,
                                         route: Route, s0: ResponseState)
    ensures InvocationsPrepared(FoundOutcome(blade, matcher, prop, uri, route, s0).events)
  {
    var b := RunChain(matcher.getBefore(uri));
    var a := RunChain(matcher.getAfter(uri));
    RunChainPrepared(matcher.getBefore(uri));
    RunChainPrepared(matcher.getAfter(uri));
    var ev1 := [GetBefore(uri)] + b.events;
    InvocationsPreparedConcat([GetBefore(uri)], b.events);
    var ev2 := ev1 + TargetEvents(route);
    InvocationsPreparedConcat(ev1, TargetEvents(route));
    InvocationsPreparedConcat(ev2, [GetAfter(uri)]);
    InvocationsPreparedConcat(ev2 + [GetAfter(uri)], a.events);
  }

  /**
   * For every request, every target the dispatcher invokes has its path
   * parameters initialised and the context bound right before, and is called
   * through `handle` or `executeMethod` as its kind demands.
   */
  lemma HandlePrepared(blade: Blade, matcher: RouteMatcher, prop: Propagation,
                       req: HttpRequest, s0: ResponseState)
    ensures InvocationsPrepared(HandleOutcome(blade, matcher, prop, req, s0).events)
  {
    var rt := matcher.getRoute(req.httpMethod, req.uri);
    if req.extractFault.None? && !(StaticFolderConfigured(blade) && UnderStaticFolder(blade.staticFolder.value, req.uri))
       && req.wrapFault.None? && rt.Some? {
      var f := FoundOutcome(blade, matcher, prop, req.uri, rt.value, s0);
      assert HandleOutcome(blade, matcher, prop, req, s0).events == Preamble(req) + f.events;
      FoundPrepared(blade, matcher, prop, req.uri, rt.value, s0);
      InvocationsPreparedConcat(Preamble(req), f.events);
    }
  }

  /** A path under a static folder returns false before anything is wrapped or routed. */
  lemma StaticShortCircuit(blade: Blade, matcher: RouteMatcher, prop: Propagation,
                           req: HttpRequest, s0: ResponseState)
    requires req.extractFault.None? && StaticFolderConfigured(blade)
    requires exists i :: 0 <= i < |blade.staticFolder.value| && StartsWith(req.uri, blade.staticFolder.value[i])
    ensures HandleOutcome(blade, matcher, prop, req, s0) == Dispatched(Returned(false), [], s0)
  {
  }

  /**
   * A found route with targets that all return: befores in list order, then
   * the route, then afters in list order, and `handle` returns true.
   */
  lemma FoundRoute(blade: Blade, matcher: RouteMatcher, prop: Propagation,
                   req: HttpRequest, s0: ResponseState, route: Route)
    requires req.extractFault.None? && req.wrapFault.None?
    requires !(StaticFolderConfigured(blade) && UnderStaticFolder(blade.staticFolder.value, req.uri))
    requires matcher.getRoute(req.httpMethod, req.uri) == Some(route)
    requires AllOk(matcher.getBefore(req.uri)) && route.effect.result.Ok? && AllOk(matcher.getAfter(req.uri))
    ensures var d := HandleOutcome(blade, matcher, prop, req, s0);
      d.result == Returned(true)
      && d.events == [Wrap, SetContext, GetRoute(req.httpMethod, req.uri), GetBefore(req.uri)]
                     + ChainTrace(matcher.getBefore(req.uri)) + TargetEvents(route)
                     + [GetAfter(req.uri)] + ChainTrace(matcher.getAfter(req.uri))
      && d.response == s0.(committed := s0.committed || AnyCommits(matcher.getBefore(req.uri))
                           || route.effect.commits || AnyCommits(matcher.getAfter(req.uri)))
  {
    RunChainAllOk(matcher.getBefore(req.uri));
    RunChainAllOk(matcher.getAfter(req.uri));
  }

  /**
   * No route: only the preamble happens (no interceptor list is fetched and
   * no target is invoked), the 404 is rendered, and `handle` returns true;
   * if writing the 404 throws, the catch blocks decide, with the wrapper built.
   */
  lemma NoRoute(blade: Blade, matcher: RouteMatcher, prop: Propagation,
                req: HttpRequest, s0: ResponseState)
    requires req.extractFault.None? && req.wrapFault.None?
    requires !(StaticFolderConfigured(blade) && UnderStaticFolder(blade.staticFolder.value, req.uri))
    requires matcher.getRoute(req.httpMethod, req.uri) == None
    ensures var d := HandleOutcome(blade, matcher, prop, req, s0);
      d.events == [Wrap, SetContext, GetRoute(req.httpMethod, req.uri)]
      && (req.renderFault.None? ==>
            d.result == Returned(true) && d.response == NotFoundState(blade, s0, req.uri))
      && (req.renderFault.Some? ==>
            d == Recovered(RecoverOutcome(prop, blade.version, true, req.renderFault.value,
                                          NotFoundFailedState(blade, s0)), d.events))
  {
  }

  /** A chain's events are only path-parameter, context and invocation steps. */
  lemma {:induction false} ChainTraceSteps(rs: seq<Route>)
    ensures forall e :: e in ChainTrace(rs) ==> e.InitPathParams? || e.SetContext? || e.Invoke?
    decreases |rs|
  {
    if rs != [] {
      ChainTraceSteps(rs[1..]);
    }
  }

  /** Once a route is found, an exception from the befores goes straight to the catch block. */
  lemma FoundBeforeThrows(blade: Blade, matcher: RouteMatcher, prop: Propagation, uri: string,
                          route: Route, s0: ResponseState)
    requires RunChain(matcher.getBefore(uri)).thrown.Some?
    ensures var b := RunChain(matcher.getBefore(uri));
      FoundOutcome(blade, matcher, prop, uri, route, s0)
      == Recovered(RecoverOutcome(prop, blade.version, true, b.thrown.value, Committed(s0, b.commits)),
                   [GetBefore(uri)] + b.events)
  {
  }

  /**
   * The before-interceptor at index `k` throws: no later interceptor, the
   * target and no after-interceptor runs (the target only appears if it is
   * itself one of the interceptors that ran), and the catch block decides
   * the rest.
   */
  lemma BeforeInterceptorThrows(blade: Blade, matcher: RouteMatcher, prop: Propagation,
                                req: HttpRequest, s0: ResponseState, route: Route, k: nat)
    requires req.extractFault.None? && req.wrapFault.None?
    requires !(StaticFolderConfigured(blade) && UnderStaticFolder(blade.staticFolder.value, req.uri))
    requires matcher.getRoute(req.httpMethod, req.uri) == Some(route)
    requires k < |matcher.getBefore(req.uri)| && AllOk(matcher.getBefore(req.uri)[..k])
    requires matcher.getBefore(req.uri)[k].effect.result.Throw?
    ensures var befores := matcher.getBefore(req.uri);
      var d := HandleOutcome(blade, matcher, prop, req, s0);
      var events := [Wrap, SetContext, GetRoute(req.httpMethod, req.uri), GetBefore(req.uri)]
                    + ChainTrace(befores[..k + 1]);
      d == Recovered(RecoverOutcome(prop, blade.version, true, befores[k].effect.result.kind,
                                    s0.(committed := s0.committed || AnyCommits(befores[..k + 1]))), events)
      && (Invoke(route, CallFor(route.target)) in events ==> route in befores[..k + 1])
      && GetAfter(req.uri) !in events
  {
    var befores := matcher.getBefore(req.uri);
    var b := RunChain(befores);
    var upTo := befores[..k + 1];
    AbortedChainTrace(befores, k);
    FoundBeforeThrows(blade, matcher, prop, req.uri, route, s0);
    var f := FoundOutcome(blade, matcher, prop, req.uri, route, s0);
    assert HandleOutcome(blade, matcher, prop, req, s0) == f.(events := Preamble(req) + f.events);
    var pre := [Wrap, SetContext, GetRoute(req.httpMethod, req.uri), GetBefore(req.uri)];
    assert Preamble(req) + ([GetBefore(req.uri)] + b.events) == pre + ChainTrace(upTo);
    SkippedAfterAbort(pre, upTo, route, req.uri);
  }

  /** The events of a chain that the route at index `k` aborted. */
  lemma {:induction false} AbortedChainTrace(rs: seq<Route>, k: nat)
    requires k < |rs| && AllOk(rs[..k]) && rs[k].effect.result.Throw?
    ensures RunChain(rs).events == ChainTrace(rs[..k + 1])
    ensures RunChain(rs).thrown == Some(rs[k].effect.result.kind)
    ensures RunChain(rs).commits <==> AnyCommits(rs[..k + 1])
  {
    RunChainAbortsAt(rs, k);
    var ran := rs[..k];
    var upTo := rs[..k + 1];
    assert upTo == ran + [rs[k]];
    assert upTo[..k] == ran;
    ChainTraceAppend(ran, rs[k]);
    RunChainAllOk(ran);
    RunChainStopped(rs, k + 1);
    AnyCommitsAppend(ran, rs[k]);
  }

  lemma AnyCommitsAppend(rs: seq<Route>, r: Route)
    ensures AnyCommits(rs + [r]) <==> AnyCommits(rs) || r.effect.commits
  {
    if AnyCommits(rs) {
      var i :| 0 <= i < |rs| && rs[i].effect.commits;
      assert (rs + [r])[i] == rs[i];
    }
    if r.effect.commits {
      assert (rs + [r])[|rs|] == r;
    }
    if AnyCommits(rs + [r]) {
      var i :| 0 <= i < |rs + [r]| && (rs + [r])[i].effect.commits;
      if i < |rs| { assert rs[i] == (rs + [r])[i]; }
    }
  }

  /** After the preamble and an aborted before-chain, neither the target nor the afters were reached. */
  lemma SkippedAfterAbort(pre: seq<Event>, ran: seq<Route>, route: Route, uri: string)
    requires forall e :: e in pre ==> !e.Invoke? && !e.GetAfter?
    ensures Invoke(route, CallFor(route.target)) in pre + ChainTrace(ran) ==> route in ran
    ensures GetAfter(uri) !in pre + ChainTrace(ran)
  {
    ChainTraceSteps(ran);
    var inv := Invoke(route, CallFor(route.target));
    if inv in pre + ChainTrace(ran) {
      assert inv !in pre;
      ChainTraceInvokes(ran, route, CallFor(route.target));
    }
  }

  /**
   * The catch blocks: status 500 in every case where `propagate` returns;
   * the error page is written, and true returned, only on an uncommitted
   * response; a response never built fails with a null dereference.
   */
  lemma ErrorOutcome(prop: Propagation, version: string, wrapped: bool, e: Exception, s: ResponseState)
    ensures var d := RecoverOutcome(prop, version, wrapped, e, s);
      (prop == Rethrows ==> d.result == Raised(e) && d.response == s)
      && (prop == Returns ==> d.response.status == 500 && d.response.committed == s.committed
                              && d.response.renderedView == s.renderedView)
      && (prop == Returns && s.committed ==> d.result == Returned(false) && d.response.body == s.body)
      && (prop == Returns && !s.committed && wrapped ==>
            d.result == Returned(true) && d.response.body == s.body + InternalErrorPage(version))
      && (prop == Returns && !s.committed && !wrapped ==>
            d.result == Raised(NullPointerException) && d.response.body == s.body)
  {
  }

  lemma ContainsMiddle(a: string, t: string, b: string)
    ensures Contains(a + t + b, t)
  {
    assert OccursAt(a + t + b, t, |a|);
  }

  /**
   * `render404`: a configured, non-blank 404 view is rendered with the single
   * model entry `viewName -> uri` and the status is left alone; otherwise the
   * status becomes 404 and the body gets the page naming the URI.
   */
  lemma NotFoundRendering(blade: Blade, s: ResponseState, uri: string)
    ensures var n := NotFoundState(blade, s, uri);
      (!IsBlank(blade.view404) ==>
         n == s.(renderedView := Some(View(blade.view404.value, map["viewName" := uri]))))
      && (IsBlank(blade.view404) ==>
         n.status == 404 && n.committed == s.committed && n.renderedView == s.renderedView
         && n.body == s.body + NotFoundPage(uri, blade.version)
         && Contains(NotFoundPage(uri, blade.version), NotFoundHeading(uri)))
  {
    ContainsMiddle(NotFoundHead, NotFoundHeading(uri), NotFoundTail + blade.version + PageEnd);
  }
}
