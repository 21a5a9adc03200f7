# Kafka-to-WebSocket bridge: a Dafny model

This project models the core of a small C++ bridge that consumes one
Avro-encoded record from a Kafka topic, turns it into a JSON envelope
`{id, content, timestamp}` and fans it out to every connected WebSocket
client, together with a second consumer variant that only prints the record.

- `types.dfy` (`Types`): `Option`, and the C++ integer widths used (`int64`, `uint16`, `byte`).
- `json.dfy` (`Json`): the JSON values nlohmann::json holds (null, bool, integer number, string, array, object as a map) and the three required keys.
- `message.dfy` (`Messages`): the decoded record `IG::Message`, `messageToJson`, and `Extract`, the reading of a message back out of an envelope.
- `validator.dfy` (`Validator`): `WebSocketServer::validateMessage` as a total function to an accept/reason verdict, one reason per log line.
- `server.dfy` (`Server`): the `WebSocketServer` class with its registry `connections` (a `set<Handle>`), a log of the frames handed to the transport, `broadcast`, `onMessage`, `onOpen`, `onClose`; the send loop of `broadcast` as the method `FanOut`; and `Replay`, the registry after a sequence of open/close callbacks.
- `broker.dfy` (`Broker`): the outcome of one poll (`NoError(bytes) | TimedOut | PartitionEof | OtherError`), the three failure points of `init` and how a process ends.
- `bridge_consumer.dfy` (`BridgeConsumer`): KafkaConsumer.cpp — `deserializeAndProcess` (decode, map to JSON, broadcast), `consumeOne` and `main`.
- `logging_consumer.dfy` (`LoggingConsumer`): kafka_consumer.cpp — `deserializeAndProcess` (decode, print), `consumeSingleMessage` and `main`.

The libraries the code calls are parameters of the model: the Avro decoder
is `decode: seq<byte> -> Option<Message>` (None where it throws), the JSON
parser is the server's `parse: string -> Option<Json>` (None on a parse
error), `dump: Json -> string` is JSON serialisation, and `sendOk: Handle -> bool`
says whether websocketpp's `send` to a handle returns or throws. Where the
consumer's text must be read back by the server, lemmas require
`RoundTrips(parse, dump)`, that is `parse(dump(j)) == Some(j)`.

The set of connections is visited in an unspecified order (the C++ set is
ordered by `std::owner_less`, which the model does not rely on). The only
members that change `connections` are `OnOpen` and `OnClose`; `Broadcast` and
`OnMessage` may change only the sent-log, as their `modifies` clauses say.

Two behaviours of the code are worth stating plainly:
- `broadcast` stops at the first send that throws and returns false; the frames already sent stay sent and the remaining connections get nothing.
- The logging consumer's `main` exits 0 when no message arrives; only the forwarding consumer exits 1 then.

## Model

| member | source | states |
|---|---|---|
| `Validator.Validate` | WebSocketServer.cpp:32-54 | Accepts exactly the objects having `id`, `content`, `timestamp` with string, string, number types, non-empty id and positive timestamp; otherwise the first failing check in source order names the reason, and a non-object is rejected as missing fields |
| `Validator.ValidateMessage` | WebSocketServer.cpp:32-58 | The boolean result is true exactly when every condition holds at once |
| `Validator.ValidIffDeliverable` | WebSocketServer.cpp:34-54 | An envelope passes exactly when it carries a message (three well-typed fields) whose id is non-empty and whose timestamp is positive |
| `Validator.ValidateIgnoresExtraKeys` | WebSocketServer.cpp:34-53 | Keys other than the three required ones never change the verdict |
| `Validator.MessageEnvelopeValidIff` | KafkaConsumer.cpp:91-97 | The envelope of a message passes exactly when its id is non-empty and its timestamp positive; an empty id is reported before a bad timestamp |
| `Messages.MessageToJson` | KafkaConsumer.cpp:91-97 | Yields an object with exactly the keys id, content, timestamp, well typed, from which the original message is read back unchanged |
| `Server.FanOut` | WebSocketServer.cpp:70-72 | Sends the payload unchanged as a text frame, at most once per handle and only to registered handles whose send succeeds; succeeds exactly when no send throws, and then every registered handle received exactly one frame; on a throw the loop stops and the failing handle receives nothing |
| `Server.WebSocketServer.constructor` | WebSocketServer.cpp:4-19 | Port is 9002, the registry is empty, nothing has been sent |
| `Server.WebSocketServer.Broadcast` | WebSocketServer.cpp:61-80 | Unparseable or invalid text returns false and sends nothing; otherwise the sent-log grows by one run of the send loop on the original text and the result is true exactly when no send threw; the registry is unchanged |
| `Server.WebSocketServer.OnMessage` | WebSocketServer.cpp:82-95 | A valid payload is sent back only to its sender with the same payload and opcode; an invalid, unparseable or unsendable one sends nothing; the registry is unchanged |
| `Server.WebSocketServer.OnOpen` | WebSocketServer.cpp:97-100 | The registry becomes the old one plus the handle; nothing is sent |
| `Server.WebSocketServer.OnClose` | WebSocketServer.cpp:102-105 | The registry becomes the old one minus the handle; nothing is sent |
| `Server.ReplayMembership` | WebSocketServer.hpp:29 | After any sequence of open/close callbacks a handle is registered exactly when the last callback for it was an open (or, with none, when it was registered before): a handle is held once however often opened, and other handles' callbacks never affect it |
| `Server.Dispatch` | WebSocketServer.cpp:14-18 | Delivering open and close callbacks in order through `OnOpen` and `OnClose` leaves exactly the registry `Replay` computes, so `ReplayMembership` holds of the class itself; nothing is sent |
| `Broker.Init` | KafkaConsumer.cpp:58-86 | Startup fails exactly when a step fails, reporting the first failing step in order: configuration, consumer creation, subscription (the same steps as kafka_consumer.cpp:56-87) |
| `BridgeConsumer.DeserializeAndProcess` | KafkaConsumer.cpp:99-124 | A record the decoder rejects sends nothing; a decoded one is broadcast once as the text of its envelope; the registry is unchanged |
| `BridgeConsumer.ConsumeOne` | KafkaConsumer.cpp:31-55 | Returns true exactly on ERR_NO_ERROR, whatever decoding and broadcasting do; timeout, end of partition and other errors return false and send nothing |
| `BridgeConsumer.ForwardedTextAcceptedIff` | KafkaConsumer.cpp:109-115 | The text handed to broadcast passes parsing and validation exactly when the message's id is non-empty and its timestamp positive |
| `BridgeConsumer.ProcessedDeliversToAll` | KafkaConsumer.cpp:107-115 | A decoded, deliverable record reaches every registered connection exactly once as a text frame of its JSON text when no send throws |
| `BridgeConsumer.ProcessedDropsUndeliverable` | KafkaConsumer.cpp:99-124 | An undecodable record, or one with an empty id or non-positive timestamp, reaches no client |
| `BridgeConsumer.ProcessedAtMostOnce` | KafkaConsumer.cpp:112-115 | One record causes at most one frame per registered connection and none to any other handle |
| `BridgeConsumer.StartupFailureTerminatesAsWritten` | KafkaConsumer.cpp:134-165 | As written, an init failure after the server thread started ends in std::terminate, not exit code 1 |
| `BridgeConsumer.BridgeEnd` | KafkaConsumer.cpp:154-164 | Exit code 0 exactly when startup succeeded and a record was received, 1 otherwise |
| `BridgeConsumer.BridgeMain` | KafkaConsumer.cpp:133-166 | The corrected `main` (startup failure exits 1, see Findings): a failing init issues no poll and sends nothing; otherwise one poll is consumed; exit 0 exactly when a record was received |
| `LoggingConsumer.DeserializeAndProcess` | kafka_consumer.cpp:97-116 | Prints the three-key envelope of a decoded record, from which the decoded message reads back; prints nothing when decoding throws |
| `LoggingConsumer.ConsumeSingleMessage` | kafka_consumer.cpp:30-53 | Returns true exactly on ERR_NO_ERROR, even if decoding fails; other outcomes decode nothing |
| `LoggingConsumer.LoggingMain` | kafka_consumer.cpp:125-145 | Exit 0 whether or not a record arrived; exit 1 only when init fails, and then no poll is issued |

## Findings

| source | as written | input that shows it | evidently intended | confidence | as-written member | corrected member |
|---|---|---|---|---|---|---|
| KafkaConsumer.cpp:137-145 | The `KafkaConsumer` constructor runs after `std::thread ws_thread` is started inside the same `try` block; if `init` throws, unwinding destroys the still-joinable thread, and `std::thread`'s destructor calls `std::terminate` before the `catch` at line 162 is reached | A broker configuration whose consumer creation or subscription fails (`Startup(true, false, true)`) | The process logs the error and exits with code 1 | high, by the C++ rules for `std::thread` destructors; not executed | `BridgeConsumer.StartupFailureTerminatesAsWritten` | `BridgeConsumer.BridgeEnd` |

## Left out

- librdkafka: configuration, consumer creation, subscription, `consume` and `close` are foreign calls; the poll is an input `PollOutcome`, the success of each `init` step a boolean input, and the unchecked results of `conf->set` are not modelled. The poll timeout is not modelled beyond its outcome.
- kafka_producer.cpp: straight-line library configuration, `produce` and `flush`, with no logic of its own.
- The Avro codec: `decode` is an injected partial function; no encode/decode round trip is claimed for a codec whose code is not part of this model (`Message.hh` is not part of this model).
- JSON text: `parse` and `dump` are injected; `dump` can throw on strings that are not valid UTF-8, which the model (strings as `seq<char>`) cannot express.
- Numbers: nlohmann numbers may be floating point or unsigned 64-bit, which `get<int64_t>` truncates or wraps; the model holds only `int64` integers, so the validator's `catch` branch is unreachable in the model.
- `run` and `stop` (listen, accept, the asio event loop) and all websocketpp transport details; opcodes are only `Text` and `Binary`.
- Concurrency: the consumer thread calls `broadcast` while asio callbacks change `connections` without a lock, and `main` sleeps and joins threads; the model is a sequence of calls, and `BridgeMain` takes a server whose registry already holds the clients connected during startup.
- BridgeConsumer.BridgeMain: models the corrected `main`, which exits 1 when `init` fails; as written, that failure unwinds past the joinable server thread into `std::terminate` (KafkaConsumer.cpp:137-145), a path stated only by `BridgeEndAsWritten` and `StartupFailureTerminatesAsWritten`.
- Send failures depend only on the handle (`sendOk`), not on time or on earlier sends.
- All console output, apart from the printed envelope of the logging consumer and the validator's reason.
- `running_` in kafka_consumer.cpp is set once and never read, and is not modelled.
