/** `WebSocketServer`: the connection registry, the fan-out of a validated
    payload to every registered connection, and the echo of client payloads. */
module Server {
  import opened Types
  import opened Json
  import Validator

  /** A websocketpp `connection_hdl`, compared by identity only. */
  datatype Handle = Handle(session: nat)

  /** The frame opcode a send carries. */
  datatype Opcode = Text | Binary

  /** One call of `server_.send` that went through. */
  datatype Frame = Frame(to: Handle, payload: string, opcode: Opcode)

  const DEFAULT_PORT: uint16 := 9002

  /** The handles a sequence of frames went to. */
  function Recipients(frames: seq<Frame>): set<Handle> {
    set i | 0 <= i < |frames| :: frames[i].to
  }

  lemma RecipientsSnoc(frames: seq<Frame>, f: Frame)
    ensures Recipients(frames + [f]) == Recipients(frames) + {f.to}
  {
    var grown := frames + [f];
    assert grown[|frames|] == f;
    forall g | g in Recipients(frames)
      ensures g in Recipients(grown)
    {
      var i :| 0 <= i < |frames| && frames[i].to == g;
      assert grown[i] == frames[i];
    }
  }

  /** No handle receives two of the frames. */
  predicate AtMostOncePerHandle(frames: seq<Frame>) {
    forall i, k :: 0 <= i < k < |frames| ==> frames[i].to != frames[k].to
  }

  /** `json::parse` succeeds and the parsed value passes `validateMessage`. */
  predicate Accepts(parse: string -> Option<Json>, message: string) {
    parse(message).Some? && Validator.ValidateMessage(parse(message).value)
  }

  /** Every registered connection accepts a send. */
  predicate AllSendsSucceed(conns: set<Handle>, sendOk: Handle -> bool) {
    forall h :: h in conns ==> sendOk(h)
  }

  /** What the send loop leaves behind: text frames carrying the payload
      unchanged, each to a distinct registered handle whose send succeeded;
      `ok` exactly when no send threw, and then every registered handle got
      its frame. When a send throws the loop stops, so that handle and the
      ones not reached yet get nothing. */
  ghost predicate FannedOut(conns: set<Handle>, payload: string, sendOk: Handle -> bool,
                            frames: seq<Frame>, ok: bool)
  {
    && (ok <==> AllSendsSucceed(conns, sendOk))
    && (forall i :: 0 <= i < |frames| ==>
          frames[i].payload == payload && frames[i].opcode == Text
          && frames[i].to in conns && sendOk(frames[i].to))
    && AtMostOncePerHandle(frames)
    && (ok ==> Recipients(frames) == conns && |frames| == |conns|)
    && (!ok ==> exists h :: h in conns && h !in Recipients(frames) && !sendOk(h))
  }

  /** The `for (auto& hdl : connections_)` loop of `broadcast`. The set is
      visited in an unspecified order; `sendOk(h)` says whether
      `server_.send` to `h` returns or throws. */
  method FanOut(conns: set<Handle>, payload: string, sendOk: Handle -> bool)
    returns (frames: seq<Frame>, ok: bool)
    ensures FannedOut(conns, payload, sendOk, frames, ok)
  {
    var pending := conns;
    frames := [];
    while pending != {}
      invariant pending <= conns
      invariant Recipients(frames) == conns - pending
      invariant forall g :: g in conns - pending ==> sendOk(g)
      invariant forall i :: 0 <= i < |frames| ==>
                  frames[i].payload == payload && frames[i].opcode == Text
                  && frames[i].to in conns && sendOk(frames[i].to)
      invariant AtMostOncePerHandle(frames)
      invariant |frames| + |pending| == |conns|
      decreases pending
    {
      var h :| h in pending;
      if !sendOk(h) {
        return frames, false;
      }
      ghost var before := frames;
      frames := frames + [Frame(h, payload, Text)];
      RecipientsSnoc(before, Frame(h, payload, Text));
      pending := pending - {h};
    }
    ok := true;
  }

  /** The verdict `broadcast` returns. */
  predicate BroadcastSucceeds(parse: string -> Option<Json>, conns: set<Handle>,
                              message: string, sendOk: Handle -> bool)
  {
    Accepts(parse, message) && AllSendsSucceed(conns, sendOk)
  }

  /** The sent-log before and after one `broadcast(message)`: nothing is
      sent unless the message parses and validates; otherwise the new frames
      are those of one run of the send loop. */
  ghost predicate BroadcastEffect(parse: string -> Option<Json>, conns: set<Handle>,
                                  message: string, sendOk: Handle -> bool,
                                  before: seq<Frame>, after: seq<Frame>)
  {
    if !Accepts(parse, message) then
      after == before
    else
      && |before| <= |after| && after[..|before|] == before
      && FannedOut(conns, message, sendOk, after[|before|..],
                   BroadcastSucceeds(parse, conns, message, sendOk))
  }

  class WebSocketServer {
    /** `port_`, fixed at construction. */
    const port: uint16
    /** `json::parse`: None where the library throws a parse error. */
    const parse: string -> Option<Json>
    /** `connections_`: the registry of open connections. */
    var connections: set<Handle>
    /** The frames handed to the transport so far, in order. */
    var sent: seq<Frame>

    constructor (parse: string -> Option<Json>)
      ensures port == DEFAULT_PORT && this.parse == parse
      ensures connections == {} && sent == []
    {
      port := DEFAULT_PORT;
      this.parse := parse;
      connections := {};
      sent := [];
    }

    /** `broadcast`: parse, validate, then send the original text unchanged
        as a text frame to every registered connection. The registry is
        never changed. */
    method Broadcast(message: string, sendOk: Handle -> bool) returns (ok: bool)
      modifies this`sent
      ensures connections == old(connections)
      ensures ok == BroadcastSucceeds(parse, connections, message, sendOk)
      ensures BroadcastEffect(parse, connections, message, sendOk, old(sent), sent)
    {
      var parsed := parse(message);
      if parsed.None? {
        return false;
      }
      if !Validator.ValidateMessage(parsed.value) {
        return false;
      }
      var frames;
      frames, ok := FanOut(connections, message, sendOk);
      sent := sent + frames;
      assert sent[..|old(sent)|] == old(sent);
      assert sent[|old(sent)|..] == frames;
    }

    /** `onMessage`: a payload that parses and validates is sent back to the
        connection it came from, with its own opcode; anything else, and a
        send that throws, sends nothing. The registry is never changed. */
    method OnMessage(hdl: Handle, payload: string, opcode: Opcode, sendOk: Handle -> bool)
      modifies this`sent
      ensures connections == old(connections)
      ensures sent == old(sent) +
                (if Accepts(parse, payload) && sendOk(hdl) then [Frame(hdl, payload, opcode)] else [])
    {
      var parsed := parse(payload);
      if parsed.Some? && Validator.ValidateMessage(parsed.value) && sendOk(hdl) {
        sent := sent + [Frame(hdl, payload, opcode)];
      }
    }

    /** `onOpen`: registers the handle; a repeated open is a no-op. */
    method OnOpen(hdl: Handle)
      modifies this`connections
      ensures connections == old(connections) + {hdl}
      ensures sent == old(sent)
    {
      connections := connections + {hdl};
    }

    /** `onClose`: deregisters the handle; closing an absent handle is a no-op. */
    method OnClose(hdl: Handle)
      modifies this`connections
      ensures connections == old(connections) - {hdl}
      ensures sent == old(sent)
    {
      connections := connections - {hdl};
    }
  }

  /** A transport lifecycle callback, as the event loop delivers it. */
  datatype Event = Open(hdl: Handle) | Close(hdl: Handle)

  /** The registry after the callbacks `events` run in order from `start`:
      each `Open` is an `OnOpen`, each `Close` an `OnClose`. */
  function Replay(start: set<Handle>, events: seq<Event>): set<Handle>
    decreases |events|
  {
    if events == [] then start
    else
      var prior := Replay(start, events[..|events| - 1]);
      match events[|events| - 1]
      case Open(h) => prior + {h}
      case Close(h) => prior - {h}
  }

  /** The last callback in `events` that concerns `h`. */
  function LastEventFor(events: seq<Event>, h: Handle): (r: Option<Event>)
    ensures r.Some? ==> r.value.hdl == h
    decreases |events|
  {
    if events == [] then None
    else if events[|events| - 1].hdl == h then Some(events[|events| - 1])
    else LastEventFor(events[..|events| - 1], h)
  }

  /** Membership is decided by the last callback for that handle alone:
      however many times a handle was opened it is held once, one close
      removes it, and callbacks for other handles never affect it. */
  lemma {:induction false} ReplayMembership(start: set<Handle>, events: seq<Event>, h: Handle)
    ensures h in Replay(start, events) <==>
              match LastEventFor(events, h)
              case None => h in start
              case Some(e) => e.Open?
    decreases |events|
  {
    if events != [] {
      ReplayMembership(start, events[..|events| - 1], h);
    }
  }

  /** The event loop delivering the open and close callbacks `events` to
      the server in order, through the handlers set in the constructor. */
  method Dispatch(server: WebSocketServer, events: seq<Event>)
    modifies server`connections
    ensures server.connections == Replay(old(server.connections), events)
    ensures server.sent == old(server.sent)
  {
    var i := 0;
    while i < |events|
      invariant 0 <= i <= |events|
      invariant server.connections == Replay(old(server.connections), events[..i])
      invariant server.sent == old(server.sent)
    {
      assert events[..i + 1][..i] == events[..i];
      match events[i] {
        case Open(h) => server.OnOpen(h);
        case Close(h) => server.OnClose(h);
      }
      i := i + 1;
    }
    assert events[..|events|] == events;
  }
}
