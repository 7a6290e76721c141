/**
 * The values the dispatcher works with: routes and their targets, what an
 * invocation of a target does, the events it leaves behind, and the response
 * it writes to.
 */
module Http {
  import opened Wrappers

  /**
   * The exceptions that matter to the dispatcher. `BladeException` is the
   * framework's own and is caught by the first catch block; every other kind
   * is caught by the second one. `NullPointerException` is what dereferencing
   * a response that was never built raises.
   */
  datatype Exception = BladeException | RuntimeException | NullPointerException

  /** The result of invoking one target: it returns, or it throws. */
  datatype InvokeResult = Ok | Throw(kind: Exception)

  /**
   * What invoking a target does as far as the dispatcher can see: whether the
   * target flushed output (committing the response) and how it ended.
   */
  datatype Effect = Effect(commits: bool, result: InvokeResult)

  /**
   * A route target: a `RouteHandler` object, or a bound method given by the
   * fully qualified class names of its declared parameter types.
   */
  datatype Target = Handler | Method(parameterTypes: seq<string>)

  /** A registered route (or interceptor) with the behaviour of its target. */
  datatype Route = Route(httpMethod: string, path: string, target: Target, effect: Effect)

  /** One slot of the argument array built for a bound method. */
  datatype Arg = RequestArg | ResponseArg | NullArg

  /** How a target was called. */
  datatype Call =
    | ViaHandle                  // routeHandler.handle(request, response)
    | NoArgs                     // invokeMehod(object, method)
    | WithArgs(args: seq<Arg>)   // invokeMehod(object, method, args)

  /** The observable steps of one dispatch, in the order they happen. */
  datatype Event =
    | Wrap                                      // request and response wrappers built
    | SetContext                                // BladeWebContext.setContext(...)
    | GetRoute(httpMethod: string, uri: string) // routeMatcher.getRoute(method, uri)
    | GetBefore(uri: string)                    // routeMatcher.getBefore(uri)
    | GetAfter(uri: string)                     // routeMatcher.getAfter(uri)
    | InitPathParams(path: string)              // request.initPathParams(route.getPath())
    | Invoke(route: Route, call: Call)          // the route's target is called

  /** A `ModelAndView`: a view name and its model. */
  datatype View = View(name: string, model: map<string, string>)

  /** The observable state of a response. */
  datatype ResponseState = ResponseState(status: int, committed: bool, body: string, renderedView: Option<View>)

  /** The HTTP response that handlers, interceptors and the dispatcher write to. */
  class Response {
    var status: int
    var committed: bool
    var body: string
    var renderedView: Option<View>

    function State(): ResponseState
      reads this
    {
      ResponseState(status, committed, body, renderedView)
    }

    /** A fresh response: status 200, nothing written, `committed` as the container says. */
    constructor (committed: bool)
      ensures State() == ResponseState(200, committed, "", None)
    {
      status := 200;
      this.committed := committed;
      body := "";
      renderedView := None;
    }

    /** `setStatus(code)` / `status(code)`. */
    method SetStatus(code: int)
      modifies this
      ensures State() == old(State()).(status := code)
    {
      status := code;
    }

    /** `html(text)`: writes `text` to the body. */
    method Html(text: string)
      modifies this
      ensures State() == old(State()).(body := old(body) + text)
    {
      body := body + text;
    }

    /** `render(modelAndView)`: hands the view to the template engine. */
    method Render(view: View)
      modifies this
      ensures State() == old(State()).(renderedView := Some(view))
    {
      renderedView := Some(view);
    }

    /** Output was flushed by a target: the response is committed from now on. */
    method Commit()
      modifies this
      ensures State() == old(State()).(committed := true)
    {
      committed := true;
    }
  }
}
