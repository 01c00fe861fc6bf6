/**
 * The watcher's state: the `crash_events` and `restart_events` collections
 * of the `ollama_monitor` database, the probe's recovery branch that appends
 * to them (`checkServer`), and the two HTTP handlers that read and clear them.
 */
module Watcher {
  import opened Wrappers
  import opened Events
  import opened Probe
  import opened Store
  import opened Query
  import opened Routes

  function CrashTime(e: CrashEvent): int { e.timestamp }
  function RestartTime(e: RestartEvent): int { e.timestamp }

  /** The body an HTTP handler writes. */
  datatype Response =
    | CrashesFetched(crashes: FetchResult<CrashEvent>)
    | RestartsFetched(restarts: FetchResult<RestartEvent>)
    | DeletedReport(message: string, deletedCount: nat)
    | HttpError(status: int, text: string)

  const StatusNotFound: int := 404
  const StatusMethodNotAllowed: int := 405

  /** The names `fetchEvents` puts in its error messages. */
  const CrashEntity: string := "crash events"
  const RestartEntity: string := "restart events"

  /**
   * The events one probe of `server` attempts to store, with `classify`
   * turning a transport error into a crash type. A response of any status,
   * or a request that could not be built, attempts nothing. A transport
   * error attempts one crash event and, when the server has a container
   * name, one restart event for the restart outcome `restart`.
   */
  ghost predicate IsRecoveryAttempt(server: Server, outcome: ProbeOutcome, classify: GoError -> string,
                                    restart: RestartOutcome, crashTime: Timestamp, restartTime: Timestamp,
                                    crash: Option<CrashEvent>, restartEvent: Option<RestartEvent>) {
    && (crash.Some? <==> outcome.TransportFailed?)
    && (outcome.TransportFailed? ==>
          crash == Some(CrashEvent(crashTime, server.url, server.model, classify(outcome.err))))
    && (restartEvent.Some? <==> outcome.TransportFailed? && server.containerName != "")
    && (restartEvent.Some? ==>
          && restartEvent.value.timestamp == restartTime
          && restartEvent.value.containerName == server.containerName
          && restartEvent.value.url == server.url
          && restartEvent.value.model == server.model
          && (restart.Restarted? ==> restartEvent.value.status == StatusSuccess && restartEvent.value.errorMessage == "")
          && (restart.RestartFailed? ==> restartEvent.value.status == StatusFail && restartEvent.value.errorMessage == restart.errorText))
  }

  class EventStore {
    var crashEvents: seq<CrashEvent>
    var restartEvents: seq<RestartEvent>

    /**
     * Every stored crash has one of the two crash types, and every stored
     * restart event belongs to a server with a container name and records
     * one of the two outcomes.
     */
    ghost predicate Valid()
      reads this
    {
      && (forall i :: 0 <= i < |crashEvents| ==> IsCrashType(crashEvents[i].crashType))
      && (forall i :: 0 <= i < |restartEvents| ==> WellFormedRestart(restartEvents[i]))
    }

    constructor ()
      ensures Valid()
      ensures crashEvents == [] && restartEvents == []
    {
      crashEvents := [];
      restartEvents := [];
    }

    /** `InsertOne` on crash_events; `ok` is whether the database accepted it. */
    method InsertCrash(e: CrashEvent, ok: bool)
      requires Valid() && IsCrashType(e.crashType)
      modifies this
      ensures Valid()
      ensures crashEvents == old(crashEvents) + (if ok then [e] else [])
      ensures restartEvents == old(restartEvents)
    {
      if ok {
        crashEvents := crashEvents + [e];
      }
    }

    /** `InsertOne` on restart_events; `ok` is whether the database accepted it. */
    method InsertRestart(e: RestartEvent, ok: bool)
      requires Valid() && WellFormedRestart(e)
      modifies this
      ensures Valid()
      ensures restartEvents == old(restartEvents) + (if ok then [e] else [])
      ensures crashEvents == old(crashEvents)
    {
      if ok {
        restartEvents := restartEvents + [e];
      }
    }

    /**
     * The error branch of `checkServer` for the transport error `err`
     * (main.go:131-175): classify it, insert the crash event, then, whatever
     * that insert did, restart the container if there is one and insert the
     * restart event.
     */
    method RecordFailure(server: Server, err: GoError, classify: GoError -> string, restart: RestartOutcome,
                         crashTime: Timestamp, restartTime: Timestamp,
                         crashInsertOk: bool, restartInsertOk: bool)
      returns (crash: CrashEvent, restartEvent: Option<RestartEvent>)
      requires Valid() && IsCrashType(classify(err))
      modifies this
      ensures Valid()
      ensures IsRecoveryAttempt(server, TransportFailed(err), classify,
                                restart, crashTime, restartTime, Some(crash), restartEvent)
      ensures crashEvents == old(crashEvents) + (if crashInsertOk then [crash] else [])
      ensures restartEvents == old(restartEvents) + (if restartEvent.Some? && restartInsertOk then [restartEvent.value] else [])
    {
      crash := CrashEvent(crashTime, server.url, server.model, classify(err));
      InsertCrash(crash, crashInsertOk);
      restartEvent := None;
      if server.containerName != "" {
        var e := BuildRestartEvent(server, restart, restartTime);
        InsertRestart(e, restartInsertOk);
        restartEvent := Some(e);
      }
    }

    /**
     * `checkServer` as written (main.go:128-184), for one probe of `server`
     * with outcome `outcome`. `crashTime` and `restartTime` are the two
     * clock readings; `crashInsertOk` and `restartInsertOk` say whether each
     * insert reached the database. The events attempted are returned; they
     * depend on neither insert flag. The crash type is the `==` test of
     * main.go:132, so every error `client.Do` really returns is stored as
     * "ollamaTimeouted".
     */
    method CheckServer(server: Server, outcome: ProbeOutcome, restart: RestartOutcome,
                       crashTime: Timestamp, restartTime: Timestamp,
                       crashInsertOk: bool, restartInsertOk: bool)
      returns (crash: Option<CrashEvent>, restartEvent: Option<RestartEvent>)
      requires Valid()
      modifies this
      ensures Valid()
      ensures IsRecoveryAttempt(server, outcome, ClassifyAsWritten, restart, crashTime, restartTime, crash, restartEvent)
      ensures outcome.TransportFailed? && IsClientDoError(outcome.err) ==> crash.value.crashType == OllamaTimeouted
      ensures crashEvents == old(crashEvents) + (if crash.Some? && crashInsertOk then [crash.value] else [])
      ensures restartEvents == old(restartEvents) + (if restartEvent.Some? && restartInsertOk then [restartEvent.value] else [])
    {
      crash, restartEvent := None, None;
      if outcome.TransportFailed? {
        var c;
        c, restartEvent := RecordFailure(server, outcome.err, ClassifyAsWritten, restart, crashTime, restartTime,
                                         crashInsertOk, restartInsertOk);
        crash := Some(c);
      }
    }

    /**
     * `checkServer` with the crash type it evidently intends: a deadline
     * anywhere in the error chain is a model timeout. Everything else is as
     * in `CheckServer`.
     */
    method CheckServerIntended(server: Server, outcome: ProbeOutcome, restart: RestartOutcome,
                               crashTime: Timestamp, restartTime: Timestamp,
                               crashInsertOk: bool, restartInsertOk: bool)
      returns (crash: Option<CrashEvent>, restartEvent: Option<RestartEvent>)
      requires Valid()
      modifies this
      ensures Valid()
      ensures IsRecoveryAttempt(server, outcome, Classify, restart, crashTime, restartTime, crash, restartEvent)
      ensures outcome.TransportFailed? && Is(outcome.err, DeadlineExceeded) ==> crash.value.crashType == ModelTimeouted
      ensures crashEvents == old(crashEvents) + (if crash.Some? && crashInsertOk then [crash.value] else [])
      ensures restartEvents == old(restartEvents) + (if restartEvent.Some? && restartInsertOk then [restartEvent.value] else [])
    {
      crash, restartEvent := None, None;
      if outcome.TransportFailed? {
        var c;
        c, restartEvent := RecordFailure(server, outcome.err, Classify, restart, crashTime, restartTime,
                                         crashInsertOk, restartInsertOk);
        crash := Some(c);
      }
    }

    /** `DeleteMany` on crash_events: reports how many there were and leaves none. */
    method DeleteAllCrashes() returns (deletedCount: nat)
      requires Valid()
      modifies this
      ensures Valid()
      ensures deletedCount == |old(crashEvents)|
      ensures crashEvents == []
      ensures restartEvents == old(restartEvents)
    {
      deletedCount := |crashEvents|;
      crashEvents := [];
    }

    /**
     * The handlers of /crashes and /restarts. `storeOk` stands for the
     * database call (find or delete) succeeding and `decodeOk` for the
     * cursor being read back.
     */
    method Handle(path: string, verb: string, query: Values, storeOk: bool, decodeOk: bool)
      returns (resp: Response)
      requires Valid()
      modifies this
      ensures Valid()
      ensures restartEvents == old(restartEvents)
      ensures Route(path, verb) != DeleteCrashes ==> crashEvents == old(crashEvents)
      ensures Route(path, verb) == NotFound ==> resp == HttpError(StatusNotFound, "404 page not found")
      ensures Route(path, verb) == MethodNotAllowed ==> resp == HttpError(StatusMethodNotAllowed, "Method not allowed")
      ensures Route(path, verb) == FetchCrashes ==>
        && resp.CrashesFetched?
        && IsFetchAnswer(crashEvents, CrashTime, query, CrashEntity, storeOk, decodeOk, resp.crashes)
      ensures Route(path, verb) == FetchRestarts ==>
        && resp.RestartsFetched?
        && IsFetchAnswer(restartEvents, RestartTime, query, RestartEntity, storeOk, decodeOk, resp.restarts)
      ensures Route(path, verb) == DeleteCrashes ==>
        && (!storeOk ==> resp == HttpError(StatusInternalServerError, "Failed to delete crash events")
                         && crashEvents == old(crashEvents))
        && (storeOk ==> resp == DeletedReport("All crash events deleted", |old(crashEvents)|) && crashEvents == [])
      ensures resp.CrashesFetched? && resp.crashes.Found? ==>
        forall e :: e in resp.crashes.docs ==> IsCrashType(e.crashType)
      ensures resp.RestartsFetched? && resp.restarts.Found? ==>
        forall e :: e in resp.restarts.docs ==> WellFormedRestart(e)
    {
      var action := Route(path, verb);
      if action == FetchCrashes {
        var r := FetchEvents(crashEvents, CrashTime, query, CrashEntity, storeOk, decodeOk);
        if r.Found? {
          FindResultDrawnFromDocs(crashEvents, r.docs, CrashTime,
                                  ParsedSortOrder(QueryGet(query, "sort")), ParsedLimit(QueryGet(query, "limit")));
        }
        resp := CrashesFetched(r);
      } else if action == FetchRestarts {
        var r := FetchEvents(restartEvents, RestartTime, query, RestartEntity, storeOk, decodeOk);
        if r.Found? {
          FindResultDrawnFromDocs(restartEvents, r.docs, RestartTime,
                                  ParsedSortOrder(QueryGet(query, "sort")), ParsedLimit(QueryGet(query, "limit")));
        }
        resp := RestartsFetched(r);
      } else if action == DeleteCrashes {
        if !storeOk {
          resp := HttpError(StatusInternalServerError, "Failed to delete crash events");
        } else {
          var count := DeleteAllCrashes();
          resp := DeletedReport("All crash events deleted", count);
        }
      } else if action == MethodNotAllowed {
        resp := HttpError(StatusMethodNotAllowed, "Method not allowed");
      } else {
        resp := HttpError(StatusNotFound, "404 page not found");
      }
    }

    /**
     * DELETE /crashes followed by GET /crashes: the delete reports every
     * crash event there was, and the read that follows returns none.
     */
    method DeleteThenRead(query: Values) returns (deleted: Response, read: Response)
      requires Valid()
      modifies this
      ensures Valid()
      ensures deleted == DeletedReport("All crash events deleted", |old(crashEvents)|)
      ensures read == CrashesFetched(Found([]))
      ensures crashEvents == [] && restartEvents == old(restartEvents)
    {
      deleted := Handle(CrashesPath, MethodDelete, query, true, true);
      read := Handle(CrashesPath, MethodGet, query, true, true);
    }
  }
}
