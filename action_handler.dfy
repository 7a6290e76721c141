/**
 * Blade's `ActionHandler`: the per-request dispatcher, written as the
 * step-by-step code it is. Each method is proved to do exactly what the
 * reference semantics in module `Dispatch` says; the properties of that
 * semantics are proved there.
 */
module ActionHandling {
  import opened Wrappers
  import opened Http
  import opened Dispatch

  class ActionHandler {
    /** The configuration, the route matcher and what `ThrowableKit.propagate` does. */
    const blade: Blade
    const routeMatcher: RouteMatcher
    const propagation: Propagation
    /** The steps taken so far, oldest first. */
    var trace: seq<Event>

    constructor (blade: Blade, routeMatcher: RouteMatcher, propagation: Propagation)
      ensures this.blade == blade && this.routeMatcher == routeMatcher
      ensures this.propagation == propagation && trace == []
    {
      this.blade := blade;
      this.routeMatcher := routeMatcher;
      this.propagation := propagation;
      trace := [];
    }

    /**
     * `handle(httpRequest, httpResponse)`: dispatches one request. The
     * `response` wrapper stays `None` until it is built, so that a failure
     * before that point reaches the catch blocks without one.
     */
    method Handle(req: HttpRequest, httpResponse: Response) returns (handled: HandleResult)
      modifies this, httpResponse
      ensures var d := HandleOutcome(blade, routeMatcher, propagation, req, old(httpResponse.State()));
        handled == d.result && trace == old(trace) + d.events && httpResponse.State() == d.response
    {
      var response: Option<Response> := None;
      if req.extractFault.Some? {
        handled := Recover(req.extractFault.value, response, httpResponse);
        return;
      }
      var httpMethod, uri := req.httpMethod, req.uri;
      if blade.staticFolder.Some? && |blade.staticFolder.value| > 0 {
        var keep := FilterStaticFolder(uri);
        if !keep {
          return Returned(false);
        }
      }
      if req.wrapFault.Some? {
        handled := Recover(req.wrapFault.value, response, httpResponse);
        return;
      }
      trace := trace + [Wrap];
      response := Some(httpResponse);
      trace := trace + [SetContext];
      trace := trace + [GetRoute(httpMethod, uri)];
      var route := routeMatcher.getRoute(httpMethod, uri);
      if route.Some? {
        handled := HandleFound(uri, route.value, httpResponse);
        return;
      }
      var thrown := Render404(httpResponse, uri, req.renderFault);
      if thrown.Some? {
        handled := Recover(thrown.value, response, httpResponse);
        return;
      }
      return Returned(true);
    }

    /**
     * The branch of `handle` taken when a route was found: before-interceptors,
     * the route's target, after-interceptors, each failure going to the catch
     * blocks with the response wrapper already built.
     */
    method HandleFound(uri: string, route: Route, httpResponse: Response) returns (handled: HandleResult)
      modifies this, httpResponse
      ensures var d := FoundOutcome(blade, routeMatcher, propagation, uri, route, old(httpResponse.State()));
        handled == d.result && trace == old(trace) + d.events && httpResponse.State() == d.response
    {
      var response := Some(httpResponse);
      ghost var trace0, s0 := trace, httpResponse.State();
      ghost var d := FoundOutcome(blade, routeMatcher, propagation, uri, route, s0);
      trace := trace + [GetBefore(uri)];
      var befores := routeMatcher.getBefore(uri);
      var thrown := InvokeInterceptor(httpResponse, befores);
      ghost var b := RunChain(befores);
      ghost var s1 := Committed(s0, b.commits);
      assert trace == trace0 + ([GetBefore(uri)] + b.events);
      if thrown.Some? {
        handled := Recover(thrown.value, response, httpResponse);
        assert d == Recovered(RecoverOutcome(propagation, blade.version, true, thrown.value, s1), [GetBefore(uri)] + b.events);
        return;
      }
      thrown := HandleRoute(httpResponse, route);
      ghost var t := RunTarget(route);
      ghost var s2 := Committed(s1, t.commits);
      assert trace == trace0 + ([GetBefore(uri)] + b.events + t.events);
      if thrown.Some? {
        handled := Recover(thrown.value, response, httpResponse);
        assert d == Recovered(RecoverOutcome(propagation, blade.version, true, thrown.value, s2), [GetBefore(uri)] + b.events + t.events);
        return;
      }
      trace := trace + [GetAfter(uri)];
      var afters := routeMatcher.getAfter(uri);
      thrown := InvokeInterceptor(httpResponse, afters);
      ghost var a := RunChain(afters);
      assert trace == trace0 + ([GetBefore(uri)] + b.events + t.events + [GetAfter(uri)] + a.events);
      if thrown.Some? {
        handled := Recover(thrown.value, response, httpResponse);
        return;
      }
      return Returned(true);
    }

    /**
     * The two catch blocks, which do the same: `propagate`, then status 500
     * on the container's response and, if it is not committed, the error page
     * through the wrapper.
     */
    method Recover(e: Exception, response: Option<Response>, httpResponse: Response) returns (handled: HandleResult)
      requires response.Some? ==> response.value == httpResponse
      modifies httpResponse
      ensures var d := RecoverOutcome(propagation, blade.version, response.Some?, e, old(httpResponse.State()));
        handled == d.result && httpResponse.State() == d.response
    {
      if propagation == Rethrows {
        return Raised(e);
      }
      httpResponse.SetStatus(500);
      if !httpResponse.committed {
        match response
        case None =>
          return Raised(NullPointerException);
        case Some(wrapper) =>
          wrapper.Html(InternalErrorPage(blade.version));
          return Returned(true);
      }
      return Returned(false);
    }

    /**
     * `render404(response, uri)`; `fault` is whether the view renderer or the
     * page write throws.
     */
    method Render404(response: Response, uri: string, fault: Option<Exception>) returns (thrown: Option<Exception>)
      modifies response
      ensures thrown == fault
      ensures response.State() == if fault.None? then NotFoundState(blade, old(response.State()), uri)
                                   else NotFoundFailedState(blade, old(response.State()))
    {
      var view404 := blade.view404;
      if !IsBlank(view404) {
        if fault.Some? {
          return fault;
        }
        response.Render(View(view404.value, map["viewName" := uri]));
      } else {
        response.SetStatus(404);
        if fault.Some? {
          return fault;
        }
        response.Html(NotFoundPage(uri, blade.version));
      }
      return None;
    }

    /** `invokeInterceptor(request, response, interceptors)`: each in list order. */
    method InvokeInterceptor(response: Response, interceptors: seq<Route>) returns (thrown: Option<Exception>)
      modifies this, response
      ensures var run := RunChain(interceptors);
        thrown == run.thrown && trace == old(trace) + run.events
        && response.State() == Committed(old(response.State()), run.commits)
    {
      var i := 0;
      while i < |interceptors|
        invariant 0 <= i <= |interceptors|
        invariant RunChain(interceptors[..i]).thrown == None
        invariant trace == old(trace) + RunChain(interceptors[..i]).events
        invariant response.State() == Committed(old(response.State()), RunChain(interceptors[..i]).commits)
      {
        assert interceptors[..i + 1][..i] == interceptors[..i];
        thrown := HandleRoute(response, interceptors[i]);
        if thrown.Some? {
          RunChainStopped(interceptors, i + 1);
          return;
        }
        i := i + 1;
      }
      assert interceptors[..i] == interceptors;
      thrown := None;
    }

    /** `handle(request, response, route)`: runs one target. */
    method HandleRoute(response: Response, route: Route) returns (thrown: Option<Exception>)
      modifies this, response
      ensures var run := RunTarget(route);
        thrown == run.thrown && trace == old(trace) + run.events
        && response.State() == Committed(old(response.State()), run.commits)
    {
      trace := trace + [InitPathParams(route.path)];
      trace := trace + [SetContext];
      match route.target
      case Handler =>
        thrown := InvokeTarget(response, route, ViaHandle);
      case Method(parameterTypes) =>
        thrown := ExecuteMethod(response, route, parameterTypes);
    }

    /** `executeMethod(target, method, request, response)`: arguments only for a non-zero arity. */
    method ExecuteMethod(response: Response, route: Route, parameterTypes: seq<string>) returns (thrown: Option<Exception>)
      modifies this, response
      ensures trace == old(trace) + [Invoke(route, if |parameterTypes| > 0 then WithArgs(ArgsFor(parameterTypes)) else NoArgs)]
      ensures thrown == Thrown(route) && response.State() == Committed(old(response.State()), route.effect.commits)
    {
      var len := |parameterTypes|;
      if len > 0 {
        var args := GetArgs(parameterTypes);
        thrown := InvokeTarget(response, route, WithArgs(args[..]));
      } else {
        thrown := InvokeTarget(response, route, NoArgs);
      }
    }

    /** The reflective or direct call of a target, recorded in the trace. */
    method InvokeTarget(response: Response, route: Route, call: Call) returns (thrown: Option<Exception>)
      modifies this, response
      ensures trace == old(trace) + [Invoke(route, call)]
      ensures thrown == Thrown(route) && response.State() == Committed(old(response.State()), route.effect.commits)
    {
      trace := trace + [Invoke(route, call)];
      if route.effect.commits {
        response.Commit();
      }
      thrown := if route.effect.result.Throw? then Some(route.effect.result.kind) else None;
    }

    /**
     * `getArgs(request, response, params)`: one slot per declared parameter,
     * the request or the response where the type's name is theirs, null elsewhere.
     */
    method GetArgs(params: seq<string>) returns (args: array<Arg>)
      ensures fresh(args) && args.Length == |params|
      ensures forall i :: 0 <= i < |params| ==>
        args[i] == (if params[i] == ResponseClassName then ResponseArg
                    else if params[i] == RequestClassName then RequestArg
                    else NullArg)
      ensures args[..] == ArgsFor(params)
    {
      var len := |params|;
      args := new Arg[len](_ => NullArg);
      for i := 0 to len
        invariant forall j :: 0 <= j < i ==> args[j] == ArgFor(params[j])
        invariant forall j :: i <= j < len ==> args[j] == NullArg
      {
        var paramType := params[i];
        if paramType == RequestClassName {
          args[i] := RequestArg;
        }
        if paramType == ResponseClassName {
          args[i] := ResponseArg;
        }
      }
    }

    /** `filterStaticFolder(uri)`: false exactly when `uri` starts with a static folder. */
    method FilterStaticFolder(uri: string) returns (keep: bool)
      requires blade.staticFolder.Some?
      ensures keep <==> !exists i :: 0 <= i < |blade.staticFolder.value| && StartsWith(uri, blade.staticFolder.value[i])
    {
      var folders := blade.staticFolder.value;
      var len := |folders|;
      for i := 0 to len
        invariant forall j :: 0 <= j < i ==> !StartsWith(uri, folders[j])
      {
        if StartsWith(uri, folders[i]) {
          return false;
        }
      }
      return true;
    }
  }
}
