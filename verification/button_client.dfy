/**
 * The button dongle: it writes the cached server status to its serial port
 * as a framed status line, forwards every frame it reads from the serial
 * port to the server as a command, and sends an alarm on button 1.
 * The button dongle's own CoAP client is not part of this model: the
 * camera client stands in for its command buffer, connectivity gate and
 * alarm.
 */
module ButtonClient {
  import opened Wrappers
  import opened CStrings
  import opened WireCodec
  import opened Framing
  import opened Mesh
  import CameraClient

  /** The status-line template "~wifi:0prs:0#" and its NUL. */
  const TX_TEMPLATE: seq<char> := "~wifi:0prs:0#" + [NUL]

  /** DK_BTN1_MSK: button 1 is bit 0. */
  const BTN1_MSK: bv32 := 1

  /** A line that differs from the template at most at the two digit positions 6 and 11. */
  ghost predicate TemplateOutside(line: seq<char>) {
    |line| == |TX_TEMPLATE| &&
    forall i :: 0 <= i < |line| && i != 6 && i != 11 ==> line[i] == TX_TEMPLATE[i]
  }

  /** Patching the digits of a line that keeps the template elsewhere gives the status line. */
  lemma PatchedLine(line: seq<char>, s: Status)
    requires TemplateOutside(line) && line[6] == Digit(s.wifi) && line[11] == Digit(s.presence)
    ensures line == StatusLine(s)
  {
    var t := StatusLine(s);
    assert t == "~wifi:" + [Digit(s.wifi)] + "prs:" + [Digit(s.presence)] + "#" + [NUL];
    assert |t| == |line|;
    forall i | 0 <= i < |line|
      ensures line[i] == t[i]
    {
    }
  }

  class Node {
    const decoder: FrameDecoder
    /** Stands in for the button dongle's CoAP client. */
    const client: CameraClient.Client
    /** The static `tx_buf`, patched in place. */
    const txBuf: array<char>

    ghost predicate Valid()
      reads this, decoder, decoder.buf, client, txBuf
    {
      decoder.Valid() && client.Valid() && txBuf.Length == |TX_TEMPLATE| && TemplateOutside(txBuf[..]) &&
      decoder.buf != client.msgBuf && txBuf != client.msgBuf && txBuf != decoder.buf
    }

    constructor (alarm: seq<char>)
      ensures Valid() && fresh(decoder) && fresh(decoder.buf) && fresh(client) && fresh(client.mesh) &&
              fresh(client.msgBuf) && fresh(txBuf)
      ensures decoder.Frame() == [] && client.Cache() == Status(false, false) && client.msgLen == 0
      ensures !client.mesh.isConnected && client.mesh.pending == {}
    {
      decoder := new FrameDecoder();
      client := new CameraClient.Client(alarm);
      txBuf := new char[|TX_TEMPLATE|](i requires 0 <= i < |TX_TEMPLATE| => TX_TEMPLATE[i]);
    }

    /**
     * `uart_send_server_ressources_status`: the digits of the cached wifi
     * and presence are written at indices 6 and 11 of the line, which is
     * sent whole, NUL included; no other byte of it changes.
     */
    method UartSendServerRessourcesStatus() returns (tx: seq<char>)
      requires Valid()
      modifies txBuf
      ensures Valid()
      ensures tx == txBuf[..] == StatusLine(client.Cache())
      ensures |tx| == 14
    {
      var wifiStatus := client.GetServerWifiStatus();
      var presenceStatus := client.GetServerPresenceStatus();
      if wifiStatus {
        txBuf[6] := '1';
      } else {
        txBuf[6] := '0';
      }
      if presenceStatus {
        txBuf[11] := '1';
      } else {
        txBuf[11] := '0';
      }
      tx := txBuf[..];
      PatchedLine(tx, client.Cache());
    }

    /**
     * `process_received_char` of the button dongle: the decoder step, and
     * on '#' the frame `rx_msg_buf[0..rx_offset)` handed to the client as a
     * command; the decoder keeps the frame.
     */
    method ProcessReceivedChar(c: char) returns (forwarded: Option<seq<char>>)
      requires Valid()
      modifies decoder, decoder.buf, client, client.msgBuf, client.mesh
      ensures Valid()
      ensures Fed(decoder.Frame(), forwarded) == Step(old(decoder.Frame()), c)
      ensures forwarded.Some? ==> client.msgBuf[..client.msgLen] == forwarded.value
      ensures forwarded.None? ==>
                client.msgLen == old(client.msgLen) && client.msgBuf[..] == old(client.msgBuf[..])
      ensures client.mesh.pending ==
                if forwarded.Some? && client.mesh.isConnected
                then old(client.mesh.pending) + {Job(CameraClient.MulticastCommands)}
                else old(client.mesh.pending)
      ensures client.mesh.isConnected == old(client.mesh.isConnected)
      ensures client.mesh.statusLed == old(client.mesh.statusLed) && client.mesh.commandsLed == old(client.mesh.commandsLed)
      ensures client.Cache() == old(client.Cache())
    {
      forwarded := decoder.ProcessReceivedChar(c);
      if c == END_CHAR {
        client.SendCommandsToServerMessage(decoder.buf[..decoder.offset]);
      }
    }

    /**
     * `on_uart_message`: the bytes of a chunk fed one at a time; the
     * commands handed on are the frames of the stream, in order, and the
     * client's buffer holds the last of them, and the send is queued
     * exactly when there was one and the device is connected.
     */
    method OnUartMessage(chunk: seq<char>) returns (forwarded: seq<seq<char>>)
      requires Valid()
      modifies decoder, decoder.buf, client, client.msgBuf, client.mesh
      ensures Valid()
      ensures decoder.Frame() == Run(old(decoder.Frame()), chunk).frame
      ensures forwarded == Run(old(decoder.Frame()), chunk).frames
      ensures forwarded != [] ==> client.msgBuf[..client.msgLen] == forwarded[|forwarded| - 1]
      ensures client.mesh.pending ==
                if forwarded != [] && client.mesh.isConnected
                then old(client.mesh.pending) + {Job(CameraClient.MulticastCommands)}
                else old(client.mesh.pending)
      ensures client.mesh.isConnected == old(client.mesh.isConnected)
      ensures client.mesh.statusLed == old(client.mesh.statusLed) && client.mesh.commandsLed == old(client.mesh.commandsLed)
      ensures client.Cache() == old(client.Cache())
    {
      forwarded := [];
      ghost var last: Option<seq<char>> := None;
      var i := 0;
      while i < |chunk|
        invariant 0 <= i <= |chunk|
        invariant Valid()
        invariant decoder.Frame() == Run(old(decoder.Frame()), chunk[..i]).frame
        invariant forwarded == Run(old(decoder.Frame()), chunk[..i]).frames
        invariant last == if forwarded == [] then None else Some(forwarded[|forwarded| - 1])
        invariant last.Some? ==> client.msgBuf[..client.msgLen] == last.value
        invariant client.mesh.pending ==
                    if last.Some? && client.mesh.isConnected
                    then old(client.mesh.pending) + {Job(CameraClient.MulticastCommands)}
                    else old(client.mesh.pending)
        invariant client.mesh.isConnected == old(client.mesh.isConnected)
        invariant client.mesh.statusLed == old(client.mesh.statusLed) && client.mesh.commandsLed == old(client.mesh.commandsLed)
        invariant client.Cache() == old(client.Cache())
      {
        assert chunk[..i + 1] == chunk[..i] + [chunk[i]];
        RunSnoc(old(decoder.Frame()), chunk[..i], chunk[i]);
        ghost var queued := client.mesh.pending;
        var f := ProcessReceivedChar(chunk[i]);
        if f.Some? && client.mesh.isConnected {
          ResubmitIsIdempotent(old(client.mesh.pending), queued, Job(CameraClient.MulticastCommands));
        }
        forwarded := forwarded + Emitted(f);
        if f.Some? {
          last := f;
        }
        i := i + 1;
      }
      assert chunk[..|chunk|] == chunk;
    }

    /** `on_button_changed`: the alarm is queued when button 1 is both pressed and changed, and the device is connected. */
    method OnButtonChanged(buttonState: bv32, hasChanged: bv32)
      modifies client.mesh
      ensures client.mesh.pending ==
                if (buttonState & hasChanged) & BTN1_MSK != 0 && client.mesh.isConnected
                then old(client.mesh.pending) + {Job(CameraClient.SendAlarm)}
                else old(client.mesh.pending)
      ensures client.mesh.isConnected == old(client.mesh.isConnected)
      ensures client.mesh.statusLed == old(client.mesh.statusLed) && client.mesh.commandsLed == old(client.mesh.commandsLed)
    {
      var buttons := buttonState & hasChanged;
      if buttons & BTN1_MSK != 0 {
        client.Submit(CameraClient.SendAlarm);
      }
    }
  }
}
