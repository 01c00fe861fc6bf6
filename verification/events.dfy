/**
 * The records the watcher keeps: a monitored server and the two kinds of
 * event documents written to the `crash_events` and `restart_events`
 * collections of the `ollama_monitor` database.
 */
module Events {

  /** One configured Ollama server. An empty container name means "no restart handle". */
  datatype Server = Server(url: string, model: string, containerName: string)

  /** Timestamps are instants given to the model (the source calls `time.Now()`). */
  type Timestamp = int

  const ModelTimeouted: string := "modelTimeouted"
  const OllamaTimeouted: string := "ollamaTimeouted"

  const StatusSuccess: string := "success"
  const StatusFail: string := "fail"

  /** A failed probe, as stored in `crash_events`. */
  datatype CrashEvent = CrashEvent(
    timestamp: Timestamp,
    url: string,
    model: string,
    crashType: string)

  /** A restart attempt, as stored in `restart_events`. */
  datatype RestartEvent = RestartEvent(
    timestamp: Timestamp,
    containerName: string,
    url: string,
    model: string,
    status: string,
    errorMessage: string)

  /** The crash types the prober can record. */
  predicate IsCrashType(t: string) {
    t == ModelTimeouted || t == OllamaTimeouted
  }

  /**
   * What every stored restart event satisfies: it belongs to a server with a
   * container name, its status is one of the two outcomes, and a successful
   * restart carries no error message.
   */
  predicate WellFormedRestart(e: RestartEvent) {
    && e.containerName != ""
    && (e.status == StatusSuccess || e.status == StatusFail)
    && (e.status == StatusSuccess ==> e.errorMessage == "")
  }
}
