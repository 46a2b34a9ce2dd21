/** The result records the prober produces (types/structures/checker). */
module Structures {
  import opened Types

  /** One highlighted piece of a display URL; produced and consumed by code outside this model. */
  type Segment = string

  /** The outcome of probing one endpoint; field for field the Go `Endpoint` struct. */
  datatype Endpoint = Endpoint(
    url: string,
    httpMethod: string,
    body: string,
    status: TestResult,
    statusCode: int,
    startTime: string,
    endTime: string,
    responseTime: Duration,
    attemptNum: int,
    successNum: int,
    failureDetails: seq<string>,
    responseBody: string,
    isHttps: bool,
    certRemainingDays: int,
    isCertExpired: bool,
    displayUrl: string,
    highlightSegments: seq<Segment>)
}
