# Blade request dispatch, modelled in Dafny

This project models `ActionHandler`, the request dispatcher of the Blade MVC
framework. For each request it extracts the HTTP method and the path relative
to the application root; returns `false` at once for a path under a
configured static folder; wraps the servlet request and response; binds the
web context; asks the route matcher for a route. If there is none, it renders
a 404. Otherwise it runs the before-interceptors in list order, then the route's
target, then the after-interceptors in list order. Every `Exception` is routed through
`ThrowableKit.propagate` to the two catch blocks, which set status 500 and
write the error page only on an uncommitted response.

Layout:

- `wrappers.dfy`: `Option`, the model of a Java nullable reference.
- `http.dfy` (module `Http`): routes and targets (`Handler | Method(parameterTypes)`),
  the abstract behaviour of a target (`Effect`: does it commit the response,
  does it return `Ok` or `Throw(kind)`), the event trace, and the `Response`
  class with fields `status`, `committed`, `body` and `renderedView`.
- `dispatch.dfy` (module `Dispatch`): the reference semantics of a dispatch,
  written as functions (`HandleOutcome`, `FoundOutcome`, `RunChain`,
  `RecoverOutcome`, `NotFoundState`, `ArgsFor`). The lemmas about them are the
  properties listed below.
- `action_handler.dfy` (module `ActionHandling`): class `ActionHandler`, whose
  methods follow the Java code step by step (loops, early returns, the
  response state changed in place). Each method's postcondition ties its
  out-value, the new response state and the new trace to the reference
  functions.

Inputs the source gets from code that is not part of this model are
parameters: the route matcher (`RouteMatcher` with `getRoute`, `getBefore`,
`getAfter`), the configuration (`Blade`: static folders, 404 view and the
version string), what `ThrowableKit.propagate` does (`Propagation`: returns or
rethrows), and whether something throws while the method and URI are
extracted, while the wrappers are built, or while the 404 view or page is
written (`HttpRequest.extractFault`, `wrapFault`, `renderFault`). The `response` wrapper is held as an `Option`. It is `None` until
line 129. If a failure comes before that and `propagate` returns on an
uncommitted response, the catch block dereferences null. The model gives
`Raised(NullPointerException)` there.

Three behaviours of the code worth knowing:

- A configured 404 view is rendered without setting status 404 (lines 193-196).
- Path parameters are initialised for every target, `RouteHandler`s included
  (line 225 comes before the `instanceof` test).
- An exception can escape `handle`: when `propagate` rethrows, and through the
  null dereference above. So `handle` can end with an exception.

## Model

| member | source | states |
|---|---|---|
| `ActionHandling.ActionHandler.constructor` | blade-core/src/main/java/com/blade/ActionHandler.java:89-94 | the handler keeps the configuration and route matcher it is given; the trace starts empty |
| `ActionHandling.ActionHandler.Handle` | blade-core/src/main/java/com/blade/ActionHandler.java:103-183 | returned value or escaping exception, new response state and new events are exactly those `HandleOutcome` gives for the request and the response's old state |
| `ActionHandling.ActionHandler.HandleFound` | blade-core/src/main/java/com/blade/ActionHandler.java:137-149 | the found-route branch: befores, target, afters, each failure sent to the catch blocks with the wrapper built; result, trace and response as `FoundOutcome` gives |
| `ActionHandling.ActionHandler.Recover` | blade-core/src/main/java/com/blade/ActionHandler.java:154-181 | the catch blocks: result and response state as `RecoverOutcome` gives for the exception, whether the wrapper exists, and the response's old state |
| `ActionHandling.ActionHandler.Render404` | blade-core/src/main/java/com/blade/ActionHandler.java:191-201 | returns the render fault, if any; without one the response becomes `NotFoundState` of its old state, with one it becomes `NotFoundFailedState` (404 status already set on the page path, nothing rendered on the view path) |
| `ActionHandling.ActionHandler.InvokeInterceptor` | blade-core/src/main/java/com/blade/ActionHandler.java:210-214 | the loop over the interceptor list appends exactly `RunChain`'s events, stops with its exception, and commits the response exactly when `RunChain` does |
| `ActionHandling.ActionHandler.HandleRoute` | blade-core/src/main/java/com/blade/ActionHandler.java:223-238 | path params, then context, then the call (`handle` for a `RouteHandler`, `executeMethod` otherwise); trace, exception and response as `RunTarget` gives |
| `ActionHandling.ActionHandler.ExecuteMethod` | blade-core/src/main/java/com/blade/ActionHandler.java:275-284 | with arity > 0 the method is called with the argument array `ArgsFor(parameterTypes)`, with arity 0 without arguments; the target's exception is passed on |
| `ActionHandling.ActionHandler.InvokeTarget` | blade-core/src/main/java/com/blade/ActionHandler.java:229-237 | the call is recorded once; the target's commit is applied to the response; the target's exception is returned |
| `ActionHandling.ActionHandler.GetArgs` | blade-core/src/main/java/com/blade/ActionHandler.java:248-264 | a new array with one slot per declared parameter: the request where the type name is `Request`'s, the response where it is `Response`'s, null in every other slot |
| `ActionHandling.ActionHandler.FilterStaticFolder` | blade-core/src/main/java/com/blade/ActionHandler.java:292-300 | returns false exactly when the URI starts with some configured static folder, true otherwise |
| `Dispatch.ArgsFor` | blade-core/src/main/java/com/blade/ActionHandler.java:250-261 | the argument list has one slot per declared parameter; slot i holds the request exactly when type i is `Request`'s class name and the response exactly when it is `Response`'s |
| `Dispatch.RunChainStopped` | blade-core/src/main/java/com/blade/ActionHandler.java:210-214 | once a prefix of an interceptor list has thrown, the chain's outcome is that prefix's: nothing later runs |
| `Dispatch.RunChainAllOk` | blade-core/src/main/java/com/blade/ActionHandler.java:210-214 | when no interceptor throws, every one runs in list order (`ChainTrace`), nothing is thrown, and the response is committed iff one of them commits |
| `Dispatch.RunChainAbortsAt` | blade-core/src/main/java/com/blade/ActionHandler.java:139-147 | an exception from the interceptor at index k: exactly the interceptors 0..k ran, in order, and that exception is the chain's |
| `Dispatch.AbortedChainTrace` | blade-core/src/main/java/com/blade/ActionHandler.java:210-214 | the same, with the events written as the trace of the first k+1 interceptors, and the response committed exactly when one of those k+1 commits |
| `Dispatch.ChainTraceInvokes` | blade-core/src/main/java/com/blade/ActionHandler.java:211-212 | a route is invoked by a chain only if it is in the chain's list |
| `Dispatch.RunChainPrepared` | blade-core/src/main/java/com/blade/ActionHandler.java:223-238 | in any chain, every invocation is directly preceded by `initPathParams(route.path)` and `setContext` and uses the call its target kind demands |
| `Dispatch.FoundPrepared` | blade-core/src/main/java/com/blade/ActionHandler.java:137-149 | the same for the whole found-route branch |
| `Dispatch.HandlePrepared` | blade-core/src/main/java/com/blade/ActionHandler.java:103-183 | the same for every request, whatever the configuration, matcher, faults and target behaviour |
| `Dispatch.StaticShortCircuit` | blade-core/src/main/java/com/blade/ActionHandler.java:115-119 | a URI under a configured, non-empty static-folder list gives `false` with no event (no wrapper built, no routing consulted) and the response unchanged |
| `Dispatch.FoundRoute` | blade-core/src/main/java/com/blade/ActionHandler.java:134-149 | a found route whose targets all return: the events are wrappers, context, lookup, the befores in order, the route, the afters in order; `handle` returns true; only `committed` can change |
| `Dispatch.NoRoute` | blade-core/src/main/java/com/blade/ActionHandler.java:134-153 | no route: only wrappers, context and lookup happen (no interceptor list fetched, nothing invoked); the 404 is rendered and `handle` returns true, or, if writing the 404 throws, the catch blocks decide with the wrapper built |
| `Dispatch.BeforeInterceptorThrows` | blade-core/src/main/java/com/blade/ActionHandler.java:137-147 | the before-interceptor at index k throws: the events end with befores 0..k, the route's target runs only if it is itself one of them, the afters are never fetched, and the catch blocks decide result and response from a state committed exactly when it was before or one of befores 0..k commits |
| `Dispatch.SkippedAfterAbort` | blade-core/src/main/java/com/blade/ActionHandler.java:140-147 | after the preamble and an aborted before-chain, neither the route's target outside that chain nor the after list was reached |
| `Dispatch.ErrorOutcome` | blade-core/src/main/java/com/blade/ActionHandler.java:154-181 | when `propagate` returns: status 500 in every case; uncommitted with wrapper gives the error page and true; committed gives no write and false; no wrapper gives a null dereference. When it rethrows, the exception escapes and nothing is written |
| `Dispatch.NotFoundRendering` | blade-core/src/main/java/com/blade/ActionHandler.java:191-201 | non-blank 404 view: that view is rendered with the single model entry `viewName -> uri` and the status is untouched; otherwise status 404 and the body gains the page, which contains `[ <uri> ] Not Found` |

## Left out

- Servlet API: `getMethod`, `Path.getRelativePath` and the `ServletRequest`/`ServletResponse` wrappers are not part of this model. The method and URI are inputs, and so are the points where these calls throw.
- Route matching: how `RouteMatcher` chooses and orders routes is not part of this model. Its three queries are given functions that never throw.
- Calls that never throw in the model: `BladeWebContext.setContext` (lines 132 and 228), `request.initPathParams` (line 225) and `getArgs`. In the source they run inside the `try`, so a failure there would reach the catch blocks; the model gives them no fault input. Failures of `render` and `html` in `render404` are modelled (`renderFault`); a failure of `html` inside the catch blocks is not.
- Java `Error`s: only `Exception`s are caught by the source, and the model has no kind of `Error`.
- Reflection: `setAccessible` and `ReflectKit.invokeMehod` are not modelled. A call is recorded with its argument array, and its behaviour is the route's `Effect`. The method's return value is not modelled; the dispatcher ignores it.
- What a target writes: a target's own status or body writes are not modelled. Only whether it commits the response is.
- `ThrowableKit.propagate` is not part of this model. It is the `Propagation` parameter. A rethrow is modelled as the same exception escaping; wrapping a checked exception is not modelled.
- Logging is not modelled: `LOGGER.debug` (lines 121-123), `LOGGER.error` and `getStackTraceAsString`.
- `Response.html` and `render` are not part of this model. `html` appends to `body`; whether it also commits or sets a content type is not modelled. `render` records the `ModelAndView` in `renderedView`; template rendering is left out.
- Initial status: the Response constructor sets status 200. The container's real initial state is not part of this model; only `committed` is an input.
- `Blade.VERSION` is the `version` parameter. `NotFoundPage` treats it as literal text; a `%` in it would be read by `String.format` as a conversion.
- `IsBlank` covers only the ASCII whitespace of `Character.isWhitespace`. `StringKit.isBlank` is not part of this model.
- `initPathParams` and `setContext` are events only. The parameter values they extract, and the thread-local binding of the context, are left out; concurrency is out of scope for a sequential model.
- `GetArgs` compares class names given as strings, in place of the `Class<?>[]` that Java reflection supplies.
