/**
 * The legacy client dongle: the same forwarding decoder as the button
 * dongle, but its serial callback delivers a receive event only when the
 * event holds exactly one byte.
 */
module LegacyClient {
  import opened Wrappers
  import opened CStrings
  import opened WireCodec
  import opened Framing
  import opened Mesh
  import CameraClient

  /** The bytes that reach the decoder from a sequence of receive events: only the one-byte events. */
  function Delivered(events: seq<seq<char>>): (bytes: seq<char>)
    ensures |bytes| <= |events|
    decreases |events|
  {
    if events == [] then []
    else
      var e := events[|events| - 1];
      Delivered(events[..|events| - 1]) + (if |e| == 1 then e else [])
  }

  /** The decoder over a sequence of receive events, each dropped unless it holds one byte. */
  function RunEvents(frame: seq<char>, events: seq<seq<char>>): Decoded
    decreases |events|
  {
    if events == [] then Decoded(frame, [])
    else
      var d := RunEvents(frame, events[..|events| - 1]);
      var e := events[|events| - 1];
      if |e| != 1 then d
      else
        var st := Step(d.frame, e[0]);
        Decoded(st.frame, d.frames + Emitted(st.emitted))
  }

  /** Events of one byte each behave like the stream of their bytes; the other events vanish. */
  lemma {:induction false} RunEventsIsRunOfDelivered(frame: seq<char>, events: seq<seq<char>>)
    ensures RunEvents(frame, events) == Run(frame, Delivered(events))
    decreases |events|
  {
    if events != [] {
      var pre := events[..|events| - 1];
      var e := events[|events| - 1];
      RunEventsIsRunOfDelivered(frame, pre);
      if |e| == 1 {
        assert e == [e[0]];
        RunSnoc(frame, Delivered(pre), e[0]);
      } else {
        assert Delivered(events) == Delivered(pre);
      }
    }
  }

  /** A stream sent one byte per event is decoded as the stream itself. */
  lemma {:induction false} SingletonsDeliverStream(bytes: seq<char>)
    ensures Delivered(seq(|bytes|, i requires 0 <= i < |bytes| => [bytes[i]])) == bytes
    decreases |bytes|
  {
    if bytes != [] {
      var events := seq(|bytes|, i requires 0 <= i < |bytes| => [bytes[i]]);
      var pre := bytes[..|bytes| - 1];
      assert events[..|events| - 1] == seq(|pre|, i requires 0 <= i < |pre| => [pre[i]]);
      SingletonsDeliverStream(pre);
      assert bytes == pre + [bytes[|bytes| - 1]];
    }
  }

  class Node {
    const decoder: FrameDecoder
    /** Stands in for the legacy dongle's CoAP client. */
    const client: CameraClient.Client

    ghost predicate Valid()
      reads this, decoder, decoder.buf, client
    {
      decoder.Valid() && client.Valid() && decoder.buf != client.msgBuf
    }

    constructor (alarm: seq<char>)
      ensures Valid() && fresh(decoder) && fresh(decoder.buf) && fresh(client) && fresh(client.mesh) && fresh(client.msgBuf)
      ensures decoder.Frame() == [] && client.msgLen == 0
      ensures !client.mesh.isConnected && client.mesh.pending == {}
    {
      decoder := new FrameDecoder();
      client := new CameraClient.Client(alarm);
    }

    /** `process_received_char` of the legacy dongle: the decoder step; on '#' the frame goes to the client as a command. */
    method ProcessReceivedChar(c: char) returns (forwarded: Option<seq<char>>)
      requires Valid()
      modifies decoder, decoder.buf, client, client.msgBuf, client.mesh
      ensures Valid()
      ensures Fed(decoder.Frame(), forwarded) == Step(old(decoder.Frame()), c)
      ensures c == END_CHAR ==> decoder.buf[..] == old(decoder.buf[..]) && decoder.offset == old(decoder.offset)
      ensures forwarded.Some? ==> client.msgBuf[..client.msgLen] == forwarded.value
      ensures forwarded.None? ==>
                client.msgLen == old(client.msgLen) && client.msgBuf[..] == old(client.msgBuf[..])
      ensures client.mesh.pending ==
                if forwarded.Some? && client.mesh.isConnected
                then old(client.mesh.pending) + {Job(CameraClient.MulticastCommands)}
                else old(client.mesh.pending)
      ensures client.mesh.isConnected == old(client.mesh.isConnected)
      ensures client.mesh.statusLed == old(client.mesh.statusLed) && client.mesh.commandsLed == old(client.mesh.commandsLed)
      ensures client.Cache() == old(client.Cache())
    {
      forwarded := decoder.ProcessReceivedChar(c);
      if c == END_CHAR {
        client.SendCommandsToServerMessage(decoder.buf[..decoder.offset]);
      }
    }

    /**
     * `on_uart_message`: an event of exactly one byte is processed as that
     * byte; any other event changes nothing.
     */
    method OnUartMessage(event: seq<char>) returns (forwarded: Option<seq<char>>)
      requires Valid()
      modifies decoder, decoder.buf, client, client.msgBuf, client.mesh
      ensures Valid()
      ensures |event| != 1 ==>
                forwarded.None? && decoder.offset == old(decoder.offset) && decoder.buf[..] == old(decoder.buf[..])
      ensures RunEvents(old(decoder.Frame()), [event]) == Decoded(decoder.Frame(), Emitted(forwarded))
      ensures forwarded.Some? ==> client.msgBuf[..client.msgLen] == forwarded.value
      ensures forwarded.None? ==>
                client.msgLen == old(client.msgLen) && client.msgBuf[..] == old(client.msgBuf[..])
      ensures client.mesh.pending ==
                if forwarded.Some? && client.mesh.isConnected
                then old(client.mesh.pending) + {Job(CameraClient.MulticastCommands)}
                else old(client.mesh.pending)
      ensures client.mesh.isConnected == old(client.mesh.isConnected)
      ensures client.mesh.statusLed == old(client.mesh.statusLed) && client.mesh.commandsLed == old(client.mesh.commandsLed)
      ensures client.Cache() == old(client.Cache())
    {
      forwarded := None;
      if |event| == 1 {
        forwarded := ProcessReceivedChar(event[0]);
      }
    }
  }
}
