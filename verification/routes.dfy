/** The REST surface of main.go:273-303: which handler a request reaches. */
module Routes {

  const CrashesPath: string := "/crashes"
  const RestartsPath: string := "/restarts"
  const MethodGet: string := "GET"
  const MethodDelete: string := "DELETE"

  datatype Action =
    | FetchCrashes       // fetchEvents over crash_events
    | DeleteCrashes      // DeleteMany over crash_events, reporting the count
    | FetchRestarts      // fetchEvents over restart_events
    | MethodNotAllowed   // 405
    | NotFound           // 404 from the default mux: no handler is registered for the path

  /**
   * The action for a request path and method. Exact path match, as for a
   * mux pattern without a trailing slash; the verb is compared verbatim.
   */
  function Route(path: string, verb: string): (a: Action)
    ensures a == FetchCrashes <==> path == CrashesPath && verb == MethodGet
    ensures a == DeleteCrashes <==> path == CrashesPath && verb == MethodDelete
    ensures a == FetchRestarts <==> path == RestartsPath && verb == MethodGet
    ensures a == MethodNotAllowed <==>
      || (path == CrashesPath && verb != MethodGet && verb != MethodDelete)
      || (path == RestartsPath && verb != MethodGet)
    ensures a == NotFound <==> path != CrashesPath && path != RestartsPath
  {
    if path == CrashesPath then
      if verb == MethodGet then FetchCrashes
      else if verb == MethodDelete then DeleteCrashes
      else MethodNotAllowed
    else if path == RestartsPath then
      if verb == MethodGet then FetchRestarts else MethodNotAllowed
    else NotFound
  }
}
