/** The GitHub event payloads the webhook reads (src/backends/github/models.rs). */
module Events {

  import opened Wrappers

  datatype Repository = Repository(fullName: string, name: string)

  datatype Commit = Commit(message: string, timestamp: string)

  datatype CommitUser = CommitUser(name: string, email: string)

  /** A `push` event; `reference` is the JSON field `ref`. */
  datatype PushEvent = PushEvent(
    reference: string,
    baseRef: string,
    headCommit: Commit,
    repository: Repository,
    pusher: CommitUser)

  /** A `ping` event, sent by GitHub when a webhook is created. */
  datatype PingEvent = PingEvent(zen: string, repository: Repository)

  /**
   * The JSON reader and writer for the two events. Parsing fails with the
   * parser's error text; writing these records cannot fail.
   */
  datatype JsonCodec = JsonCodec(
    parsePing: string -> Result<PingEvent, string>,
    parsePush: string -> Result<PushEvent, string>,
    showPing: PingEvent -> string,
    showPush: PushEvent -> string)

  /** Reading back what was written gives the same push event. */
  ghost predicate PushRoundTrips(codec: JsonCodec)
  {
    forall e :: codec.parsePush(codec.showPush(e)) == Success(e)
  }

  /** Reading back what was written gives the same ping event. */
  ghost predicate PingRoundTrips(codec: JsonCodec)
  {
    forall e :: codec.parsePing(codec.showPing(e)) == Success(e)
  }
}
