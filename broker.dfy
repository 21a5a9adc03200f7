/** What both consumers see of the Kafka client: the outcome of one poll,
    the failure points of `init`, and how the process ends. */
module Broker {
  import opened Types

  /** The error code on the record `consumer_->consume(timeout)` returns. */
  datatype PollOutcome =
    | NoError(payload: seq<byte>)  // ERR_NO_ERROR, with the record's bytes
    | TimedOut                     // ERR__TIMED_OUT
    | PartitionEof                 // ERR__PARTITION_EOF
    | OtherError(code: int)        // any other broker error code

  /** Which of the three steps of `init` succeed. */
  datatype Startup = Startup(confCreated: bool, consumerCreated: bool, subscribed: bool)

  /** The `std::runtime_error` that `init` throws at each failure point. */
  datatype InitError = ConfigFailed | CreateFailed | SubscribeFailed

  /** `init`: create the configuration, create the consumer, subscribe;
      the first step that fails throws and the later ones never run. */
  function Init(s: Startup): (r: Option<InitError>)
    ensures r.None? <==> s.confCreated && s.consumerCreated && s.subscribed
    ensures !s.confCreated ==> r == Some(ConfigFailed)
    ensures s.confCreated && !s.consumerCreated ==> r == Some(CreateFailed)
    ensures s.confCreated && s.consumerCreated && !s.subscribed ==> r == Some(SubscribeFailed)
  {
    if !s.confCreated then Some(ConfigFailed)
    else if !s.consumerCreated then Some(CreateFailed)
    else if !s.subscribed then Some(SubscribeFailed)
    else None
  }

  /** How a process ends: `main` returns a code, or `std::terminate` aborts it. */
  datatype ProcessEnd = Exit(code: int) | Terminated
}
