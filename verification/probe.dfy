/**
 * The decision part of a probe (`checkServer` in main.go): what the HTTP
 * client reported, how a transport error becomes a crash type, and how the
 * restart event is put together from the restart outcome.
 */
module Probe {
  import opened Events

  /**
   * The Go error values a probe can see. `UrlError` is the `*url.Error`
   * wrapper that `http.Client.Do` puts around every error it returns; `err`
   * is the error it wraps (what `Unwrap` gives back).
   */
  datatype GoError =
    | DeadlineExceeded
    | UrlError(op: string, url: string, err: GoError)
    | OtherError(text: string)

  /** An error that `http.Client.Do` can return: always a `*url.Error`. */
  predicate IsClientDoError(err: GoError) {
    err.UrlError?
  }

  /** Go's `errors.Is`: the error itself or anything it wraps equals `target`. */
  predicate Is(err: GoError, target: GoError) {
    err == target || (err.UrlError? && Is(err.err, target))
  }

  /** The result of one probe, up to and including `client.Do`. */
  datatype ProbeOutcome =
    | BuildFailed                  // request could not be built (main.go:111-121)
    | Responded(statusCode: int)   // a response came back, whatever its status
    | TransportFailed(err: GoError)

  /** The result of `docker restart <container>`. */
  datatype RestartOutcome = Restarted | RestartFailed(errorText: string)

  /**
   * The crash type exactly as main.go computes it: the error is compared
   * with `context.DeadlineExceeded` by `==`, so only that very value gives
   * "modelTimeouted".
   */
  function ClassifyAsWritten(err: GoError): (t: string)
    ensures IsCrashType(t)
    ensures t == ModelTimeouted <==> err == DeadlineExceeded
    ensures t == OllamaTimeouted <==> err != DeadlineExceeded
  {
    if err == DeadlineExceeded then ModelTimeouted else OllamaTimeouted
  }

  /**
   * The crash type as intended: a deadline anywhere in the error chain
   * (the overall context expiring) is a model timeout, every other
   * transport error is an Ollama timeout.
   */
  function Classify(err: GoError): (t: string)
    ensures IsCrashType(t)
    ensures t == ModelTimeouted <==> Is(err, DeadlineExceeded)
    ensures t == OllamaTimeouted <==> !Is(err, DeadlineExceeded)
  {
    if Is(err, DeadlineExceeded) then ModelTimeouted else OllamaTimeouted
  }

  /** On the errors `client.Do` really returns, the `==` test never fires. */
  lemma AsWrittenNeverModelTimeout(err: GoError)
    requires IsClientDoError(err)
    ensures ClassifyAsWritten(err) == OllamaTimeouted
  {
  }

  /** A request whose context deadline expired: the two classifications part ways. */
  lemma DeadlineCounterexample(url: string)
    ensures IsClientDoError(UrlError("Post", url, DeadlineExceeded))
    ensures ClassifyAsWritten(UrlError("Post", url, DeadlineExceeded)) == OllamaTimeouted
    ensures Classify(UrlError("Post", url, DeadlineExceeded)) == ModelTimeouted
  {
    assert Is(DeadlineExceeded, DeadlineExceeded);
  }

  /** The two classifications differ exactly on a wrapped deadline. */
  lemma ClassifyDiffersOnlyOnWrappedDeadline(err: GoError)
    ensures Classify(err) != ClassifyAsWritten(err)
        <==> err != DeadlineExceeded && Is(err, DeadlineExceeded)
  {
  }

  /** Wrapping an error in any number of `*url.Error` layers keeps what it `Is`. */
  function Wrap(err: GoError, depth: nat, url: string): (w: GoError)
    ensures depth > 0 ==> IsClientDoError(w)
    ensures forall target :: Is(w, target) <== Is(err, target)
  {
    if depth == 0 then err else UrlError("Post", url, Wrap(err, depth - 1, url))
  }

  /** However deeply a deadline is wrapped, it is classified as a model timeout. */
  lemma WrappedDeadlineIsModelTimeout(depth: nat, url: string)
    ensures Classify(Wrap(DeadlineExceeded, depth, url)) == ModelTimeouted
  {
  }

  /**
   * Builds the restart event for `server` step by step, as main.go:152-166
   * does: the identifying fields first, then status and error message from
   * the restart outcome.
   */
  method BuildRestartEvent(server: Server, restart: RestartOutcome, at: Timestamp)
    returns (e: RestartEvent)
    requires server.containerName != ""
    ensures WellFormedRestart(e)
    ensures e.timestamp == at
    ensures e.containerName == server.containerName && e.url == server.url && e.model == server.model
    ensures e.status == StatusFail <==> restart.RestartFailed?
    ensures restart.RestartFailed? ==> e.errorMessage == restart.errorText
    ensures restart.Restarted? ==> e.status == StatusSuccess && e.errorMessage == ""
  {
    e := RestartEvent(at, server.containerName, server.url, server.model, "", "");
    if restart.RestartFailed? {
      e := e.(status := StatusFail, errorMessage := restart.errorText);
    } else {
      e := e.(status := StatusSuccess);
    }
  }
}
