/** The forwarding consumer of KafkaConsumer.cpp: poll once, decode the
    record, map it to JSON and hand its text to `WebSocketServer::broadcast`. */
module BridgeConsumer {
  import opened Types
  import opened Json
  import opened Messages
  import opened Broker
  import opened Server

  /** `json::parse` reads back what `dump` writes. */
  ghost predicate RoundTrips(parse: string -> Option<Json>, dump: Json -> string) {
    forall j :: parse(dump(j)) == Some(j)
  }

  /** The sent-log before and after `deserializeAndProcess(bytes)`: a record
      the Avro decoder rejects sends nothing; a decoded one is broadcast
      once, as the text of its JSON envelope. */
  ghost predicate Processed(parse: string -> Option<Json>, conns: set<Handle>,
                            bytes: seq<byte>, decode: seq<byte> -> Option<Message>,
                            dump: Json -> string, sendOk: Handle -> bool,
                            before: seq<Frame>, after: seq<Frame>)
  {
    match decode(bytes)
    case None => after == before
    case Some(m) => BroadcastEffect(parse, conns, dump(MessageToJson(m)), sendOk, before, after)
  }

  /** `deserializeAndProcess`: every exception is caught, and the broadcast
      verdict is only logged. */
  method DeserializeAndProcess(server: WebSocketServer, bytes: seq<byte>,
                               decode: seq<byte> -> Option<Message>,
                               dump: Json -> string, sendOk: Handle -> bool)
    modifies server`sent
    ensures server.connections == old(server.connections)
    ensures Processed(server.parse, server.connections, bytes, decode, dump, sendOk,
                      old(server.sent), server.sent)
  {
    var decoded := decode(bytes);
    if decoded.Some? {
      var j := MessageToJson(decoded.value);
      var forwarded := server.Broadcast(dump(j), sendOk);
    }
  }

  /** `consumeOne`: true exactly when the poll delivered a record, whatever
      decoding and broadcasting then do; the other three outcomes touch
      neither the decoder nor the server. */
  method ConsumeOne(server: WebSocketServer, poll: PollOutcome,
                    decode: seq<byte> -> Option<Message>,
                    dump: Json -> string, sendOk: Handle -> bool)
    returns (received: bool)
    modifies server`sent
    ensures received <==> poll.NoError?
    ensures server.connections == old(server.connections)
    ensures !poll.NoError? ==> server.sent == old(server.sent)
    ensures poll.NoError? ==>
              Processed(server.parse, server.connections, poll.payload, decode, dump, sendOk,
                        old(server.sent), server.sent)
  {
    match poll
    case NoError(bytes) =>
      DeserializeAndProcess(server, bytes, decode, dump, sendOk);
      received := true;
    case TimedOut =>
      received := false;
    case PartitionEof =>
      received := false;
    case OtherError(_) =>
      received := false;
  }

  /** The text handed to `broadcast` passes its parse and validation exactly
      when the message's id is non-empty and its timestamp positive. */
  lemma ForwardedTextAcceptedIff(parse: string -> Option<Json>, dump: Json -> string, m: Message)
    requires RoundTrips(parse, dump)
    ensures Accepts(parse, dump(MessageToJson(m))) <==> IsDeliverable(m)
  {
  }

  /** A decoded, deliverable record reaches every registered connection
      exactly once, as a text frame carrying its JSON text, when no send throws. */
  lemma ProcessedDeliversToAll(parse: string -> Option<Json>, conns: set<Handle>,
                               bytes: seq<byte>, decode: seq<byte> -> Option<Message>,
                               dump: Json -> string, sendOk: Handle -> bool,
                               before: seq<Frame>, after: seq<Frame>, m: Message)
    requires RoundTrips(parse, dump)
    requires decode(bytes) == Some(m) && IsDeliverable(m)
    requires AllSendsSucceed(conns, sendOk)
    requires Processed(parse, conns, bytes, decode, dump, sendOk, before, after)
    ensures |before| <= |after| && after[..|before|] == before
    ensures Recipients(after[|before|..]) == conns && |after| - |before| == |conns|
    ensures forall i :: |before| <= i < |after| ==>
              after[i].payload == dump(MessageToJson(m)) && after[i].opcode == Text
  {
  }

  /** A decoded record with an empty id or a non-positive timestamp, and a
      record the decoder rejects, reach no client. */
  lemma ProcessedDropsUndeliverable(parse: string -> Option<Json>, conns: set<Handle>,
                                    bytes: seq<byte>, decode: seq<byte> -> Option<Message>,
                                    dump: Json -> string, sendOk: Handle -> bool,
                                    before: seq<Frame>, after: seq<Frame>)
    requires RoundTrips(parse, dump)
    requires decode(bytes).None? || !IsDeliverable(decode(bytes).value)
    requires Processed(parse, conns, bytes, decode, dump, sendOk, before, after)
    ensures after == before
  {
  }

  /** One record is broadcast at most once: each registered connection gets
      at most one new frame and no other handle gets any. */
  lemma ProcessedAtMostOnce(parse: string -> Option<Json>, conns: set<Handle>,
                            bytes: seq<byte>, decode: seq<byte> -> Option<Message>,
                            dump: Json -> string, sendOk: Handle -> bool,
                            before: seq<Frame>, after: seq<Frame>)
    requires Processed(parse, conns, bytes, decode, dump, sendOk, before, after)
    ensures |before| <= |after| && after[..|before|] == before
    ensures AtMostOncePerHandle(after[|before|..])
    ensures Recipients(after[|before|..]) <= conns
  {
  }

  /** How `main` ends AS WRITTEN: a constructor that throws after the
      server thread has started unwinds past the joinable `std::thread`,
      whose destructor calls `std::terminate`, so the `catch` returning 1
      is never reached. */
  function BridgeEndAsWritten(init: Option<InitError>, received: bool): ProcessEnd {
    if init.Some? then Terminated
    else if received then Exit(0)
    else Exit(1)
  }

  /** Every startup failure ends in `std::terminate`, never in exit code 1. */
  lemma StartupFailureTerminatesAsWritten(e: InitError, received: bool)
    ensures BridgeEndAsWritten(Some(e), received) == Terminated
    ensures BridgeEndAsWritten(Some(e), received) != Exit(1)
  {
  }

  /** How `main` ends as intended: 0 exactly when a record was received,
      1 when none was or when startup failed. */
  function BridgeEnd(init: Option<InitError>, received: bool): (end: ProcessEnd)
    ensures end == Exit(0) <==> init.None? && received
    ensures end == Exit(0) || end == Exit(1)
  {
    if init.Some? then Exit(1)
    else if received then Exit(0)
    else Exit(1)
  }

  /** `main` of the forwarding consumer with its startup failure corrected
      to exit code 1 (`BridgeEnd`), run against a server whose registry
      holds the clients connected so far. A failing `init` ends the run
      before any poll is issued. */
  method BridgeMain(server: WebSocketServer, startup: Startup, poll: PollOutcome,
                    decode: seq<byte> -> Option<Message>,
                    dump: Json -> string, sendOk: Handle -> bool)
    returns (end: ProcessEnd, polled: bool)
    modifies server`sent
    ensures polled <==> Init(startup).None?
    ensures end == Exit(0) <==> polled && poll.NoError?
    ensures end == Exit(0) || end == Exit(1)
    ensures server.connections == old(server.connections)
    ensures !(polled && poll.NoError?) ==> server.sent == old(server.sent)
    ensures polled && poll.NoError? ==>
              Processed(server.parse, server.connections, poll.payload, decode, dump, sendOk,
                        old(server.sent), server.sent)
  {
    var init := Init(startup);
    if init.Some? {
      return BridgeEnd(init, false), false;
    }
    var received := ConsumeOne(server, poll, decode, dump, sendOk);
    end := BridgeEnd(init, received);
    polled := true;
  }
}
