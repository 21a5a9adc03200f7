/** The logging consumer of kafka_consumer.cpp: poll once, decode the
    record and print its JSON; nothing is forwarded anywhere. */
module LoggingConsumer {
  import opened Types
  import opened Json
  import opened Messages
  import opened Broker

  /** `deserializeAndProcess`: the JSON printed for the record, None when
      the decoder throws (the exception is caught and logged). */
  function DeserializeAndProcess(bytes: seq<byte>, decode: seq<byte> -> Option<Message>)
    : (printed: Option<Json>)
    ensures printed.Some? <==> decode(bytes).Some?
    ensures printed.Some? ==>
              printed.value.JObject? && printed.value.fields.Keys == REQUIRED_KEYS
              && Extract(printed.value) == decode(bytes)
  {
    match decode(bytes)
    case None => None
    case Some(m) => Some(MessageToJson(m))
  }

  /** The outcome of one `consumeSingleMessage`. */
  datatype SingleShot = SingleShot(received: bool, printed: Option<Json>)

  /** `consumeSingleMessage`: true exactly when the poll delivered a record,
      even if decoding it fails; the other outcomes are not decoded. */
  function ConsumeSingleMessage(poll: PollOutcome, decode: seq<byte> -> Option<Message>)
    : (r: SingleShot)
    ensures r.received <==> poll.NoError?
    ensures r.printed.Some? ==> poll.NoError? && decode(poll.payload).Some?
    ensures poll.NoError? && decode(poll.payload).Some? ==>
              r.printed.Some? && Extract(r.printed.value) == decode(poll.payload)
  {
    match poll
    case NoError(bytes) => SingleShot(true, DeserializeAndProcess(bytes, decode))
    case TimedOut => SingleShot(false, None)
    case PartitionEof => SingleShot(false, None)
    case OtherError(_) => SingleShot(false, None)
  }

  /** One run of this variant's `main`. */
  datatype LoggingRun = LoggingRun(polled: bool, printed: Option<Json>, end: ProcessEnd)

  /** `main`: exits 0 whether or not a record arrived; 1 only when `init`
      throws, and then no poll is issued. */
  function LoggingMain(startup: Startup, poll: PollOutcome, decode: seq<byte> -> Option<Message>)
    : (r: LoggingRun)
    ensures r.polled <==> Init(startup).None?
    ensures r.end == Exit(0) <==> Init(startup).None?
    ensures r.end == Exit(0) || r.end == Exit(1)
    ensures !r.polled ==> r.printed.None?
    ensures r.polled ==> r.printed == ConsumeSingleMessage(poll, decode).printed
  {
    match Init(startup)
    case Some(_) => LoggingRun(false, None, Exit(1))
    case None =>
      var shot := ConsumeSingleMessage(poll, decode);
      LoggingRun(true, shot.printed, Exit(0))
  }
}
